/** `conference_planning_workflow`: one planning call, one worker call per planned task
    in plan order, one synthesis call over all worker outputs. */
module Orchestrator {
  import opened Common

  datatype ConferenceTask = ConferenceTask(taskId: string, description: string, query: string)

  /** What `create_plan` hands back: the plan model itself, or a JSON value. */
  datatype PlanReply = PlanModel(tasks: seq<ConferenceTask>) | PlanJson(json: Json)

  datatype WorkerOutput = WorkerOutput(taskId: string, result: Json)

  /** `execute_task` receives `task.model_dump()`: the three fields of the task. */
  datatype Call =
    | CreatePlan(request: Json)
    | ExecuteTask(task: ConferenceTask)
    | SynthesizePlan(request: Json, results: seq<WorkerOutput>)

  /** The three activities, indexed by the call's position in the trace, and the
      pydantic constructor `OrchestratorPlan(**d)`, which may reject its input. */
  datatype Oracles = Oracles(
    createPlan: (nat, Json) -> PlanReply,
    executeTask: (nat, ConferenceTask) -> Json,
    synthesizePlan: (nat, Json, seq<WorkerOutput>) -> Json,
    toPlan: map<string, Json> -> Option<seq<ConferenceTask>>)

  /** `params.get("request")`. */
  function Request(params: map<string, Json>): Json {
    Get(params, "request", JNull)
  }

  /** A dict goes through the constructor; any other non-model value fails when its
      `tasks` field is read. */
  function AsPlan(o: Oracles, reply: PlanReply): Outcome<seq<ConferenceTask>> {
    match reply
    case PlanModel(tasks) => Completed(tasks)
    case PlanJson(JObj(m)) =>
      (match o.toPlan(m)
       case Some(tasks) => Completed(tasks)
       case None => Failed(ValidationError))
    case PlanJson(_) => Failed(AttributeError)
  }

  /** The `for task in plan.tasks` loop, from task i on. */
  function Dispatch(o: Oracles, tasks: seq<ConferenceTask>, i: nat, calls: seq<Call>,
                    outputs: seq<WorkerOutput>): (r: (seq<Call>, seq<WorkerOutput>))
    requires i <= |tasks|
    decreases |tasks| - i
  {
    if i == |tasks| then (calls, outputs)
    else
      var result := o.executeTask(|calls|, tasks[i]);
      Dispatch(o, tasks, i + 1, calls + [ExecuteTask(tasks[i])],
               outputs + [WorkerOutput(tasks[i].taskId, result)])
  }

  /** The workflow body. */
  function ConferencePlanning(o: Oracles, params: map<string, Json>): Run<Call, Json> {
    var request := Request(params);
    match AsPlan(o, o.createPlan(0, request))
    case Failed(e) => Run([CreatePlan(request)], Failed(e))
    case Completed(tasks) =>
      var (calls, outputs) := Dispatch(o, tasks, 0, [CreatePlan(request)], []);
      Run(calls + [SynthesizePlan(request, outputs)],
          Completed(o.synthesizePlan(|calls|, request, outputs)))
  }

  /** Worker call and output for task i: the call at position i + 1 executes task i, and
      output i carries task i's id and that call's result. */
  ghost predicate WorkersMatchPlan(o: Oracles, tasks: seq<ConferenceTask>, calls: seq<Call>,
                                   outputs: seq<WorkerOutput>, k: nat)
  {
    && k <= |tasks| && |calls| == k + 1 && |outputs| == k
    && forall i | 0 <= i < k ::
         && calls[i + 1] == ExecuteTask(tasks[i])
         && outputs[i] == WorkerOutput(tasks[i].taskId, o.executeTask(i + 1, tasks[i]))
  }

  lemma {:induction false} DispatchSpec(o: Oracles, tasks: seq<ConferenceTask>, i: nat,
                                        calls: seq<Call>, outputs: seq<WorkerOutput>)
    requires i <= |tasks|
    requires WorkersMatchPlan(o, tasks, calls, outputs, i)
    ensures var (calls', outputs') := Dispatch(o, tasks, i, calls, outputs);
            && WorkersMatchPlan(o, tasks, calls', outputs', |tasks|)
            && calls'[..|calls|] == calls
    decreases |tasks| - i
  {
    if i < |tasks| {
      var calls' := calls + [ExecuteTask(tasks[i])];
      var outputs' := outputs + [WorkerOutput(tasks[i].taskId, o.executeTask(|calls|, tasks[i]))];
      DispatchSpec(o, tasks, i + 1, calls', outputs');
      var (c, _) := Dispatch(o, tasks, i + 1, calls', outputs');
      assert c[..|calls|] == c[..|calls'|][..|calls|];
    }
  }

  /** The plan-workers-synthesize shape: `create_plan` first, once, with the request; on a
      plan, one `execute_task` per task in plan order, and `synthesize_plan` last, once,
      with the request and one output per task carrying that task's id; its reply is the
      result. Total calls = tasks + 2. A rejected plan ends the run after the first call. */
  lemma ConferencePlanningSpec(o: Oracles, params: map<string, Json>)
    ensures var r := ConferencePlanning(o, params);
            var request := Request(params);
            && r.calls[0] == CreatePlan(request)
            && (AsPlan(o, o.createPlan(0, request)).Failed? ==>
                  r == Run([CreatePlan(request)], Failed(AsPlan(o, o.createPlan(0, request)).error)))
            && (AsPlan(o, o.createPlan(0, request)).Completed? ==>
                  var tasks := AsPlan(o, o.createPlan(0, request)).value;
                  && |r.calls| == |tasks| + 2
                  && (forall i | 0 <= i < |tasks| :: r.calls[i + 1] == ExecuteTask(tasks[i]))
                  && r.calls[|tasks| + 1].SynthesizePlan?
                  && r.calls[|tasks| + 1].request == request
                  && |r.calls[|tasks| + 1].results| == |tasks|
                  && (forall i | 0 <= i < |tasks| ::
                        r.calls[|tasks| + 1].results[i]
                        == WorkerOutput(tasks[i].taskId, o.executeTask(i + 1, tasks[i])))
                  && r.outcome
                     == Completed(o.synthesizePlan(|tasks| + 1, request, r.calls[|tasks| + 1].results)))
  {
    var request := Request(params);
    if AsPlan(o, o.createPlan(0, request)).Completed? {
      var tasks := AsPlan(o, o.createPlan(0, request)).value;
      DispatchSpec(o, tasks, 0, [CreatePlan(request)], []);
    }
  }
}
