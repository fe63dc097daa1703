/** `recipe_refinement_workflow`: generate a draft, then evaluate and refine it until an
    evaluation meets the criteria or `max_iterations` evaluations have run. */
module Evaluator {
  import opened Common

  datatype Evaluation = Evaluation(score: int, feedback: seq<string>, meetsCriteria: bool)

  /** What `evaluate_recipe` hands back: the model itself, or a JSON value
      (normally a dict that still has to go through the model's constructor). */
  datatype EvalReply = EvalModel(evaluation: Evaluation) | EvalJson(json: Json)

  datatype Call =
    | GenerateRecipe(request: Json, feedback: Option<seq<string>>)
    | EvaluateRecipe(recipe: Json, criteria: Json)

  datatype RefinementResult = RefinementResult(finalRecipe: Json, iterations: int, finalScore: int)

  /** The two activities, indexed by the call's position in the trace, and the
      pydantic constructor `Evaluation(**d)`, which may reject its input. */
  datatype Oracles = Oracles(
    generate: (nat, Json, Option<seq<string>>) -> Json,
    evaluate: (nat, Json, Json) -> EvalReply,
    toEvaluation: map<string, Json> -> Option<Evaluation>)

  const DefaultMaxIterations: int := 2

  /** `params.get("max_iterations", 2)` as the loop guard `iteration <= max_iterations`
      sees it: a bool compares as 0 or 1, and any non-number raises TypeError. */
  function MaxIterations(params: map<string, Json>): Outcome<int> {
    if "max_iterations" !in params then Completed(DefaultMaxIterations)
    else match params["max_iterations"]
      case JNum(n) => Completed(n)
      case JBool(b) => Completed(if b then 1 else 0)
      case _ => Failed(TypeError)
  }

  /** The number of evaluations the loop allows. */
  function Bound(m: int): nat {
    if m < 0 then 0 else m
  }

  /** Turn an evaluation reply into a model: a dict goes through the constructor; any
      other non-model value fails when its `score` is read. */
  function AsEvaluation(o: Oracles, reply: EvalReply): Outcome<Evaluation> {
    match reply
    case EvalModel(e) => Completed(e)
    case EvalJson(JObj(m)) =>
      (match o.toEvaluation(m)
       case Some(e) => Completed(e)
       case None => Failed(ValidationError))
    case EvalJson(_) => Failed(AttributeError)
  }

  /** The loop `while iteration <= max_iterations and not meets_criteria`, entered with
      the current draft, the iteration counter, the last evaluation and the calls so far. */
  function Refine(o: Oracles, request: Json, criteria: Json, m: int, recipe: Json,
                  iteration: int, last: Option<Evaluation>, calls: seq<Call>): Run<Call, RefinementResult>
    decreases if iteration <= m then m - iteration + 1 else 0
  {
    if iteration > m then
      Run(calls, Completed(RefinementResult(recipe, iteration, if last.Some? then last.value.score else 0)))
    else
      var calls' := calls + [EvaluateRecipe(recipe, criteria)];
      match AsEvaluation(o, o.evaluate(|calls|, recipe, criteria))
      case Failed(e) => Run(calls', Failed(e))
      case Completed(ev) =>
        if ev.meetsCriteria then
          Run(calls', Completed(RefinementResult(recipe, iteration, ev.score)))
        else
          var draft := o.generate(|calls'|, request, Some(ev.feedback));
          Refine(o, request, criteria, m, draft, iteration + 1, Some(ev),
                 calls' + [GenerateRecipe(request, Some(ev.feedback))])
  }

  /** The workflow body. */
  function RecipeRefinement(o: Oracles, params: map<string, Json>): (r: Run<Call, RefinementResult>)
    ensures "request" !in params ==> r == Run([], Failed(KeyError("request")))
    ensures "request" in params && "criteria" !in params ==> r == Run([], Failed(KeyError("criteria")))
    ensures "request" in params && "criteria" in params && MaxIterations(params).Failed? ==>
              r == Run([GenerateRecipe(params["request"], None)], Failed(TypeError))
  {
    if "request" !in params then Run([], Failed(KeyError("request")))
    else if "criteria" !in params then Run([], Failed(KeyError("criteria")))
    else
      var request := params["request"];
      var first := [GenerateRecipe(request, None)];
      var draft := o.generate(0, request, None);
      match MaxIterations(params)
      case Failed(e) => Run(first, Failed(e))
      case Completed(m) => Refine(o, request, params["criteria"], m, draft, 1, None, first)
  }

  // ---------------------------------------------------------------------------
  // Reading a trace back: what the oracles answered to the call at position i.

  /** The draft produced by a generate call at position i. */
  function Draft(o: Oracles, i: nat, c: Call): Json
    requires c.GenerateRecipe?
  {
    o.generate(i, c.request, c.feedback)
  }

  /** The evaluation obtained from an evaluate call at position i. */
  function Verdict(o: Oracles, i: nat, c: Call): Outcome<Evaluation>
    requires c.EvaluateRecipe?
  {
    AsEvaluation(o, o.evaluate(i, c.recipe, c.criteria))
  }

  predicate Rejected(o: Oracles, i: nat, c: Call) {
    c.EvaluateRecipe? && Verdict(o, i, c).Completed? && !Verdict(o, i, c).value.meetsCriteria
  }

  predicate Accepted(o: Oracles, i: nat, c: Call) {
    c.EvaluateRecipe? && Verdict(o, i, c).Completed? && Verdict(o, i, c).value.meetsCriteria
  }

  /** Call i follows from call i - 1: an evaluation receives the draft just generated,
      and a refinement follows a rejecting evaluation and receives its feedback. */
  predicate StepFollows(o: Oracles, request: Json, criteria: Json, calls: seq<Call>, i: nat)
    requires 0 < i < |calls|
  {
    if i % 2 == 1 then
      calls[i - 1].GenerateRecipe?
      && calls[i] == EvaluateRecipe(Draft(o, i - 1, calls[i - 1]), criteria)
    else
      Rejected(o, i - 1, calls[i - 1])
      && calls[i] == GenerateRecipe(request, Some(Verdict(o, i - 1, calls[i - 1]).value.feedback))
  }

  /** The shape of every trace: the first call generates without feedback, generate and
      evaluate calls alternate, and every call follows from the one before it. */
  ghost predicate WellFormedTrace(o: Oracles, request: Json, criteria: Json, calls: seq<Call>) {
    && |calls| >= 1
    && calls[0] == GenerateRecipe(request, None)
    && (forall i | 0 <= i < |calls| :: calls[i].GenerateRecipe? <==> i % 2 == 0)
    && (forall i | 0 < i < |calls| :: StepFollows(o, request, criteria, calls, i))
  }

  ghost function GenerateCount(calls: seq<Call>): nat {
    if calls == [] then 0
    else GenerateCount(calls[..|calls| - 1]) + (if calls[|calls| - 1].GenerateRecipe? then 1 else 0)
  }

  ghost function EvaluateCount(calls: seq<Call>): nat {
    if calls == [] then 0
    else EvaluateCount(calls[..|calls| - 1]) + (if calls[|calls| - 1].EvaluateRecipe? then 1 else 0)
  }

  ghost function RejectedCount(o: Oracles, calls: seq<Call>): nat {
    if calls == [] then 0
    else RejectedCount(o, calls[..|calls| - 1])
         + (if Rejected(o, |calls| - 1, calls[|calls| - 1]) then 1 else 0)
  }

  /** What a completed run returns: the latest draft; after an accepting evaluation, that
      evaluation's position among the evaluations and its score; after exhausting the
      bound, bound + 1 and the score of the last evaluation (0 if none ran). */
  ghost predicate FinishedAs(o: Oracles, m: int, calls: seq<Call>, res: RefinementResult)
    requires |calls| >= 1
  {
    var lastDraft := if |calls| % 2 == 1 then |calls| - 1 else |calls| - 2;
    && 0 <= lastDraft
    && calls[lastDraft].GenerateRecipe?
    && res.finalRecipe == Draft(o, lastDraft, calls[lastDraft])
    && (|calls| % 2 == 0 ==>
          Accepted(o, |calls| - 1, calls[|calls| - 1])
          && res.iterations == |calls| / 2
          && res.finalScore == Verdict(o, |calls| - 1, calls[|calls| - 1]).value.score)
    && (|calls| % 2 == 1 ==>
          |calls| == 2 * Bound(m) + 1
          && res.iterations == Bound(m) + 1
          && (|calls| == 1 ==> res.finalScore == 0)
          && (|calls| > 1 ==>
                Rejected(o, |calls| - 2, calls[|calls| - 2])
                && res.finalScore == Verdict(o, |calls| - 2, calls[|calls| - 2]).value.score))
  }

  /** Everything the loop promises about a run. */
  ghost predicate RunSpec(o: Oracles, request: Json, criteria: Json, m: int, r: Run<Call, RefinementResult>) {
    && WellFormedTrace(o, request, criteria, r.calls)
    && EvaluateCount(r.calls) <= Bound(m)
    && GenerateCount(r.calls) == 1 + RejectedCount(o, r.calls)
    && (r.outcome.Failed? ==>
          && |r.calls| % 2 == 0
          && r.calls[|r.calls| - 1].EvaluateRecipe?
          && Verdict(o, |r.calls| - 1, r.calls[|r.calls| - 1]) == Failed(r.outcome.error))
    && (r.outcome.Completed? ==> FinishedAs(o, m, r.calls, r.outcome.value))
  }

  /** Appending a call that follows from the last one keeps the trace well formed. */
  lemma ExtendTrace(o: Oracles, request: Json, criteria: Json, calls: seq<Call>, c: Call)
    requires WellFormedTrace(o, request, criteria, calls)
    requires c.GenerateRecipe? <==> |calls| % 2 == 0
    requires StepFollows(o, request, criteria, calls + [c], |calls|)
    ensures WellFormedTrace(o, request, criteria, calls + [c])
  {
    var c' := calls + [c];
    forall i | 0 < i < |c'| ensures StepFollows(o, request, criteria, c', i) {
      if i < |calls| {
        assert StepFollows(o, request, criteria, calls, i);
      }
    }
  }

  /** A run that stops after an evaluation (failed conversion or acceptance). */
  lemma StopAfterEvaluation(o: Oracles, request: Json, criteria: Json, m: int,
                            calls: seq<Call>, iteration: int, r: Run<Call, RefinementResult>)
    requires WellFormedTrace(o, request, criteria, calls)
    requires 1 <= iteration <= Bound(m) && |calls| == 2 * iteration - 1
    requires EvaluateCount(calls) == iteration - 1
    requires GenerateCount(calls) == 1 + RejectedCount(o, calls)
    requires var n := |calls|;
             var c1 := calls + [EvaluateRecipe(Draft(o, n - 1, calls[n - 1]), criteria)];
             var v := Verdict(o, n, c1[n]);
             && r.calls == c1
             && (v.Failed? ==> r.outcome == Failed(v.error))
             && (v.Completed? ==>
                   && v.value.meetsCriteria
                   && r.outcome == Completed(RefinementResult(Draft(o, n - 1, calls[n - 1]), iteration, v.value.score)))
    ensures RunSpec(o, request, criteria, m, r)
  {
    var n := |calls|;
    var c1 := r.calls;
    assert c1[..n] == calls;
    assert StepFollows(o, request, criteria, c1, n);
    ExtendTrace(o, request, criteria, calls, c1[n]);
  }

  /** The loop's exit on its bound: the run ends with the calls made so far. */
  lemma ExhaustedBound(o: Oracles, request: Json, criteria: Json, m: int, recipe: Json,
                       iteration: int, last: Option<Evaluation>, calls: seq<Call>)
    requires WellFormedTrace(o, request, criteria, calls)
    requires 1 <= iteration == Bound(m) + 1 && |calls| == 2 * iteration - 1
    requires recipe == Draft(o, |calls| - 1, calls[|calls| - 1])
    requires iteration == 1 ==> last.None?
    requires iteration > 1 ==> last.Some? && Verdict(o, |calls| - 2, calls[|calls| - 2]) == Completed(last.value)
    requires EvaluateCount(calls) == iteration - 1
    requires GenerateCount(calls) == 1 + RejectedCount(o, calls)
    ensures RunSpec(o, request, criteria, m, Refine(o, request, criteria, m, recipe, iteration, last, calls))
  {
    if 1 < iteration {
      assert StepFollows(o, request, criteria, calls, |calls| - 1);
    }
  }

  /** A rejecting evaluation followed by the refining generate call keeps the trace
      well formed and adds one evaluation and one rejection. */
  lemma RejectStep(o: Oracles, request: Json, criteria: Json, recipe: Json, ev: Evaluation,
                   calls: seq<Call>)
    requires WellFormedTrace(o, request, criteria, calls) && |calls| % 2 == 1
    requires recipe == Draft(o, |calls| - 1, calls[|calls| - 1])
    requires AsEvaluation(o, o.evaluate(|calls|, recipe, criteria)) == Completed(ev) && !ev.meetsCriteria
    ensures var c1 := calls + [EvaluateRecipe(recipe, criteria)];
            var c2 := c1 + [GenerateRecipe(request, Some(ev.feedback))];
            && WellFormedTrace(o, request, criteria, c2)
            && EvaluateCount(c2) == EvaluateCount(calls) + 1
            && GenerateCount(c2) == GenerateCount(calls) + 1
            && RejectedCount(o, c2) == RejectedCount(o, calls) + 1
            && Verdict(o, |c2| - 2, c2[|c2| - 2]) == Completed(ev)
            && |c2| == |calls| + 2
            && Draft(o, |c2| - 1, c2[|c2| - 1]) == o.generate(|calls| + 1, request, Some(ev.feedback))
  {
    var n := |calls|;
    var c1 := calls + [EvaluateRecipe(recipe, criteria)];
    var c2 := c1 + [GenerateRecipe(request, Some(ev.feedback))];
    assert c1[..n] == calls;
    assert StepFollows(o, request, criteria, c1, n);
    ExtendTrace(o, request, criteria, calls, c1[n]);
    assert c2[..n + 1] == c1;
    assert StepFollows(o, request, criteria, c2, n + 1);
    ExtendTrace(o, request, criteria, c1, c2[n + 1]);
  }

  /** One pass of the loop body that ends the run: the evaluation failed to convert or
      accepted the draft. */
  lemma EvaluateAndStop(o: Oracles, request: Json, criteria: Json, m: int, recipe: Json,
                        iteration: int, last: Option<Evaluation>, calls: seq<Call>)
    requires WellFormedTrace(o, request, criteria, calls)
    requires 1 <= iteration <= Bound(m) && |calls| == 2 * iteration - 1
    requires recipe == Draft(o, |calls| - 1, calls[|calls| - 1])
    requires EvaluateCount(calls) == iteration - 1
    requires GenerateCount(calls) == 1 + RejectedCount(o, calls)
    requires var v := AsEvaluation(o, o.evaluate(|calls|, recipe, criteria));
             v.Failed? || v.value.meetsCriteria
    ensures RunSpec(o, request, criteria, m, Refine(o, request, criteria, m, recipe, iteration, last, calls))
  {
    var r := Refine(o, request, criteria, m, recipe, iteration, last, calls);
    var n := |calls|;
    var c1 := calls + [EvaluateRecipe(recipe, criteria)];
    assert Verdict(o, n, c1[n]) == AsEvaluation(o, o.evaluate(n, recipe, criteria));
    StopAfterEvaluation(o, request, criteria, m, calls, iteration, r);
  }

  /** One pass of the loop body that goes round again: a rejecting evaluation, then a
      refining generate call. */
  lemma EvaluateAndRefine(o: Oracles, request: Json, criteria: Json, m: int, recipe: Json,
                          iteration: int, last: Option<Evaluation>, calls: seq<Call>, ev: Evaluation)
    requires iteration <= m
    requires AsEvaluation(o, o.evaluate(|calls|, recipe, criteria)) == Completed(ev) && !ev.meetsCriteria
    ensures var c2 := calls + [EvaluateRecipe(recipe, criteria)] + [GenerateRecipe(request, Some(ev.feedback))];
            Refine(o, request, criteria, m, recipe, iteration, last, calls)
            == Refine(o, request, criteria, m, o.generate(|calls| + 1, request, Some(ev.feedback)),
                      iteration + 1, Some(ev), c2)
  {
  }

  lemma {:induction false} RefineSpec(o: Oracles, request: Json, criteria: Json, m: int, recipe: Json,
                                      iteration: int, last: Option<Evaluation>, calls: seq<Call>)
    requires WellFormedTrace(o, request, criteria, calls)
    requires 1 <= iteration <= Bound(m) + 1 && |calls| == 2 * iteration - 1
    requires recipe == Draft(o, |calls| - 1, calls[|calls| - 1])
    requires iteration == 1 ==> last.None?
    requires iteration > 1 ==> last.Some? && Verdict(o, |calls| - 2, calls[|calls| - 2]) == Completed(last.value)
    requires EvaluateCount(calls) == iteration - 1
    requires GenerateCount(calls) == 1 + RejectedCount(o, calls)
    ensures RunSpec(o, request, criteria, m, Refine(o, request, criteria, m, recipe, iteration, last, calls))
    decreases if iteration <= m then m - iteration + 1 else 0, 1
  {
    if iteration > m {
      ExhaustedBound(o, request, criteria, m, recipe, iteration, last, calls);
    } else {
      var verdict := AsEvaluation(o, o.evaluate(|calls|, recipe, criteria));
      if verdict.Failed? || verdict.value.meetsCriteria {
        EvaluateAndStop(o, request, criteria, m, recipe, iteration, last, calls);
      } else {
        RefineAgain(o, request, criteria, m, recipe, iteration, last, calls, verdict.value);
      }
    }
  }

  /** The loop goes round again after a rejection and keeps its promise from there. */
  lemma {:induction false} RefineAgain(o: Oracles, request: Json, criteria: Json, m: int, recipe: Json,
                                       iteration: int, last: Option<Evaluation>, calls: seq<Call>,
                                       ev: Evaluation)
    requires WellFormedTrace(o, request, criteria, calls)
    requires 1 <= iteration <= Bound(m) && |calls| == 2 * iteration - 1
    requires recipe == Draft(o, |calls| - 1, calls[|calls| - 1])
    requires EvaluateCount(calls) == iteration - 1
    requires GenerateCount(calls) == 1 + RejectedCount(o, calls)
    requires AsEvaluation(o, o.evaluate(|calls|, recipe, criteria)) == Completed(ev) && !ev.meetsCriteria
    ensures RunSpec(o, request, criteria, m, Refine(o, request, criteria, m, recipe, iteration, last, calls))
    decreases m - iteration + 1, 0
  {
    var c2 := calls + [EvaluateRecipe(recipe, criteria)] + [GenerateRecipe(request, Some(ev.feedback))];
    var draft := o.generate(|calls| + 1, request, Some(ev.feedback));
    RejectStep(o, request, criteria, recipe, ev, calls);
    EvaluateAndRefine(o, request, criteria, m, recipe, iteration, last, calls, ev);
    RefineSpec(o, request, criteria, m, draft, iteration + 1, Some(ev), c2);
  }

  /** The evaluate-refine loop, as a whole: the trace alternates as described by
      `WellFormedTrace`, at most max(max_iterations, 0) evaluations run, there is one
      generate call more than there are rejecting evaluations, a failed conversion
      ends the run right after its evaluation, and a completed run returns what
      `FinishedAs` describes. */
  lemma RecipeRefinementSpec(o: Oracles, params: map<string, Json>)
    requires "request" in params && "criteria" in params && MaxIterations(params).Completed?
    ensures RunSpec(o, params["request"], params["criteria"], MaxIterations(params).value,
                    RecipeRefinement(o, params))
  {
    var first := [GenerateRecipe(params["request"], None)];
    assert first[..0] == [];
    RefineSpec(o, params["request"], params["criteria"], MaxIterations(params).value,
               o.generate(0, params["request"], None), 1, None, first);
  }

  /** An evaluator that never accepts (and whose replies always convert) lets the loop
      run to its bound: max(max_iterations, 0) evaluations, one generate call more, and
      `iterations` one past the bound. */
  lemma NeverAcceptedRunsToBound(o: Oracles, params: map<string, Json>)
    requires "request" in params && "criteria" in params && MaxIterations(params).Completed?
    requires forall i: nat, recipe: Json, criteria: Json ::
               AsEvaluation(o, o.evaluate(i, recipe, criteria)).Completed?
               && !AsEvaluation(o, o.evaluate(i, recipe, criteria)).value.meetsCriteria
    ensures var r := RecipeRefinement(o, params);
            var b := Bound(MaxIterations(params).value);
            && |r.calls| == 2 * b + 1
            && r.outcome.Completed?
            && r.outcome.value.iterations == b + 1
  {
    RecipeRefinementSpec(o, params);
  }

  /** Leaving `max_iterations` out is the same as passing 2. */
  lemma DefaultIsTwo(o: Oracles, params: map<string, Json>)
    requires "max_iterations" !in params
    ensures RecipeRefinement(o, params) == RecipeRefinement(o, params["max_iterations" := JNum(2)])
  {
  }
}
