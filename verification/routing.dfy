/** `it_support_batch_workflow`: classify each ticket with `route_query`, validate the
    classification as a `RoutingDecision`, dispatch to one handler, and collect one
    result record per ticket. */
module Routing {
  import opened Common

  datatype QueryType = Hardware | Software | Network | Other

  /** The enum's string value. */
  function Value(q: QueryType): string {
    match q
    case Hardware => "hardware"
    case Software => "software"
    case Network => "network"
    case Other => "other"
  }

  datatype RoutingDecision = RoutingDecision(queryType: QueryType, reason: string)

  /** An activity reply: a response object with a `.content` attribute, or a plain value. */
  datatype Reply = WithContent(content: Json) | Plain(value: Json)

  datatype Handler = HandleHardware | HandleSoftware | HandleNetwork | HandleOther

  datatype Call = RouteQuery(query: string) | Handle(handler: Handler, query: string)

  datatype TicketResult = TicketResult(ticketNumber: int, query: string, kind: string, response: Json)

  /** The classifier and the four handlers, indexed by the call's position in the trace. */
  datatype Oracles = Oracles(route: (nat, string) -> Reply, handle: (nat, Handler, string) -> Reply)

  /** `x.content if hasattr(x, 'content') else x`. */
  function Unwrap(r: Reply): (v: Json)
    ensures r.WithContent? ==> v == r.content
    ensures r.Plain? ==> v == r.value
  {
    match r
    case WithContent(c) => c
    case Plain(v) => v
  }

  /** The enum member whose value is the given JSON string, if any (an exact,
      case-sensitive match, as the enum's validation demands). */
  function ParseQueryType(v: Json): (r: Option<QueryType>)
    ensures r.None? ==> forall q :: v != JStr(Value(q))
    ensures r.Some? ==> v == JStr(Value(r.value))
  {
    if v == JStr("hardware") then Some(Hardware)
    else if v == JStr("software") then Some(Software)
    else if v == JStr("network") then Some(Network)
    else if v == JStr("other") then Some(Other)
    else None
  }

  /** `RoutingDecision(**data)`: `**` needs a mapping (TypeError otherwise); the model
      needs `query_type` to be one of the four enum values and `reason` a string. */
  function ToDecision(data: Json): (r: Outcome<RoutingDecision>)
    ensures !data.JObj? ==> r == Failed(TypeError)
    ensures r.Completed? ==>
              && data.JObj?
              && "query_type" in data.members
              && data.members["query_type"] == JStr(Value(r.value.queryType))
              && "reason" in data.members
              && data.members["reason"] == JStr(r.value.reason)
    ensures (&& data.JObj? && "query_type" in data.members
             && (forall q :: data.members["query_type"] != JStr(Value(q))))
            ==> r == Failed(ValidationError)
    ensures (&& data.JObj?
             && "query_type" in data.members && ParseQueryType(data.members["query_type"]).Some?
             && "reason" in data.members && data.members["reason"].JStr?)
            ==> r == Completed(RoutingDecision(ParseQueryType(data.members["query_type"]).value,
                                               data.members["reason"].s))
    ensures (&& data.JObj?
             && ("query_type" !in data.members || "reason" !in data.members
                 || !data.members["reason"].JStr?))
            ==> r == Failed(ValidationError)
  {
    match data
    case JObj(m) =>
      if "query_type" in m && ParseQueryType(m["query_type"]).Some? && "reason" in m && m["reason"].JStr?
      then Completed(RoutingDecision(ParseQueryType(m["query_type"]).value, m["reason"].s))
      else Failed(ValidationError)
    case _ => Failed(TypeError)
  }

  /** A decision in the shape the classifier replies with: the enum's value under
      `query_type` and the reason under `reason`. */
  function DecisionJson(d: RoutingDecision): Json {
    JObj(map["query_type" := JStr(Value(d.queryType)), "reason" := JStr(d.reason)])
  }

  /** Validation reads every decision back from that shape. */
  lemma DecisionRoundTrip(d: RoutingDecision)
    ensures ToDecision(DecisionJson(d)) == Completed(d)
  {
    var m := DecisionJson(d).members;
    assert m["query_type"] == JStr(Value(d.queryType)) && m["reason"] == JStr(d.reason);
  }

  /** The `if/elif/else` dispatch on the category. */
  function HandlerFor(q: QueryType): Handler {
    if q == Hardware then HandleHardware
    else if q == Software then HandleSoftware
    else if q == Network then HandleNetwork
    else HandleOther
  }

  /** The `for idx, user_query in enumerate(tickets, start=1)` loop, from ticket `i` on. */
  function ProcessTickets(o: Oracles, tickets: seq<string>, i: nat, calls: seq<Call>,
                          results: seq<TicketResult>): Run<Call, seq<TicketResult>>
    requires i <= |tickets|
    decreases |tickets| - i
  {
    if i == |tickets| then Run(calls, Completed(results))
    else
      var query := tickets[i];
      var routed := calls + [RouteQuery(query)];
      match ToDecision(Unwrap(o.route(|calls|, query)))
      case Failed(e) => Run(routed, Failed(e))
      case Completed(decision) =>
        var handler := HandlerFor(decision.queryType);
        var response := Unwrap(o.handle(|routed|, handler, query));
        ProcessTickets(o, tickets, i + 1, routed + [Handle(handler, query)],
                       results + [TicketResult(i + 1, query, Value(decision.queryType), response)])
  }

  /** The workflow body. */
  function ItSupportBatch(o: Oracles, tickets: seq<string>): (r: Run<Call, seq<TicketResult>>)
    ensures tickets == [] ==> r == Run([], Completed([]))
  {
    ProcessTickets(o, tickets, 0, [], [])
  }

  // ---------------------------------------------------------------------------
  // Reading a trace back.

  /** The classification of the i-th ticket (0-based), whose route call is at 2i. */
  function DecisionOf(o: Oracles, tickets: seq<string>, i: nat): Outcome<RoutingDecision>
    requires i < |tickets|
  {
    ToDecision(Unwrap(o.route(2 * i, tickets[i])))
  }

  /** The i-th ticket was routed, dispatched and recorded as the source does it. */
  ghost predicate TicketHandled(o: Oracles, tickets: seq<string>, calls: seq<Call>,
                                results: seq<TicketResult>, i: nat)
    requires i < |tickets| && 2 * i + 1 < |calls| && i < |results|
  {
    && DecisionOf(o, tickets, i).Completed?
    && var q := DecisionOf(o, tickets, i).value.queryType;
    && calls[2 * i] == RouteQuery(tickets[i])
    && calls[2 * i + 1] == Handle(HandlerFor(q), tickets[i])
    && results[i] == TicketResult(i + 1, tickets[i], Value(q),
                                  Unwrap(o.handle(2 * i + 1, HandlerFor(q), tickets[i])))
  }

  /** The first k tickets are handled, two calls and one result each. */
  ghost predicate HandledUpTo(o: Oracles, tickets: seq<string>, calls: seq<Call>,
                              results: seq<TicketResult>, k: nat)
  {
    && k <= |tickets| && |calls| >= 2 * k && |results| == k
    && forall i | 0 <= i < k :: TicketHandled(o, tickets, calls, results, i)
  }

  ghost predicate BatchSpec(o: Oracles, tickets: seq<string>, r: Run<Call, seq<TicketResult>>) {
    && (r.outcome.Completed? ==>
          && |r.calls| == 2 * |tickets|
          && HandledUpTo(o, tickets, r.calls, r.outcome.value, |tickets|))
    && (r.outcome.Failed? ==>
          exists k :: 0 <= k < |tickets|
            && |r.calls| == 2 * k + 1
            && (exists results :: HandledUpTo(o, tickets, r.calls, results, k))
            && r.calls[2 * k] == RouteQuery(tickets[k])
            && DecisionOf(o, tickets, k) == Failed(r.outcome.error))
  }

  lemma {:induction false} ProcessTicketsSpec(o: Oracles, tickets: seq<string>, i: nat,
                                              calls: seq<Call>, results: seq<TicketResult>)
    requires i <= |tickets| && |calls| == 2 * i
    requires HandledUpTo(o, tickets, calls, results, i)
    ensures BatchSpec(o, tickets, ProcessTickets(o, tickets, i, calls, results))
    decreases |tickets| - i
  {
    if i < |tickets| {
      var query := tickets[i];
      var routed := calls + [RouteQuery(query)];
      assert DecisionOf(o, tickets, i) == ToDecision(Unwrap(o.route(|calls|, query)));
      match DecisionOf(o, tickets, i)
      case Failed(e) =>
        assert HandledUpTo(o, tickets, routed, results, i) by {
          forall j | 0 <= j < i ensures TicketHandled(o, tickets, routed, results, j) {
            assert TicketHandled(o, tickets, calls, results, j);
          }
        }
      case Completed(d) =>
        var handler := HandlerFor(d.queryType);
        var calls' := routed + [Handle(handler, query)];
        var results' := results + [TicketResult(i + 1, query, Value(d.queryType),
                                                Unwrap(o.handle(|routed|, handler, query)))];
        assert HandledUpTo(o, tickets, calls', results', i + 1) by {
          forall j | 0 <= j < i + 1 ensures TicketHandled(o, tickets, calls', results', j) {
            if j < i {
              assert TicketHandled(o, tickets, calls, results, j);
            }
          }
        }
        ProcessTicketsSpec(o, tickets, i + 1, calls', results');
    }
  }

  /** The batch, as a whole: a completed run made exactly two calls per ticket (the
      route call, then the one handler its category selects) and returns one record per
      ticket, in input order, numbered from 1, with the enum's value, the ticket text
      unchanged and the unwrapped handler reply. A run that fails did so on the k-th
      ticket's classification, right after its route call and before any handler. */
  lemma ItSupportBatchSpec(o: Oracles, tickets: seq<string>)
    ensures BatchSpec(o, tickets, ItSupportBatch(o, tickets))
  {
    ProcessTicketsSpec(o, tickets, 0, [], []);
  }

  /** The loop reads the replies only through `Unwrap`: oracles whose replies have the
      same content, whether as a response object or as the bare value, give the same run. */
  lemma {:induction false} ProcessTicketsSeesContent(o: Oracles, o': Oracles, tickets: seq<string>,
                                                     i: nat, calls: seq<Call>, results: seq<TicketResult>)
    requires i <= |tickets|
    requires forall n: nat, q :: Unwrap(o.route(n, q)) == Unwrap(o'.route(n, q))
    requires forall n: nat, h, q :: Unwrap(o.handle(n, h, q)) == Unwrap(o'.handle(n, h, q))
    ensures ProcessTickets(o, tickets, i, calls, results) == ProcessTickets(o', tickets, i, calls, results)
    decreases |tickets| - i
  {
    if i < |tickets| {
      var query := tickets[i];
      var routed := calls + [RouteQuery(query)];
      assert Unwrap(o.route(|calls|, query)) == Unwrap(o'.route(|calls|, query));
      match ToDecision(Unwrap(o.route(|calls|, query)))
      case Failed(e) =>
      case Completed(decision) =>
        var handler := HandlerFor(decision.queryType);
        var response := Unwrap(o.handle(|routed|, handler, query));
        assert response == Unwrap(o'.handle(|routed|, handler, query));
        ProcessTicketsSeesContent(o, o', tickets, i + 1, routed + [Handle(handler, query)],
                                  results + [TicketResult(i + 1, query, Value(decision.queryType), response)]);
    }
  }

  /** Whether the classifier and the handlers answer with response objects or with bare
      values makes no difference to the batch. */
  lemma BatchSeesOnlyContent(o: Oracles, o': Oracles, tickets: seq<string>)
    requires forall n: nat, q :: Unwrap(o.route(n, q)) == Unwrap(o'.route(n, q))
    requires forall n: nat, h, q :: Unwrap(o.handle(n, h, q)) == Unwrap(o'.handle(n, h, q))
    ensures ItSupportBatch(o, tickets) == ItSupportBatch(o', tickets)
  {
    ProcessTicketsSeesContent(o, o', tickets, 0, [], []);
  }

  /** Each category has its own handler except `other`, which shares `handle_other`
      with nothing else; the dispatch is one-to-one. */
  lemma DispatchIsOneToOne(p: QueryType, q: QueryType)
    ensures HandlerFor(p) == HandlerFor(q) <==> p == q
    ensures HandlerFor(p) == HandleOther <==> p == Other
  {
  }
}
