/** The streamed tool-calling chat: fold the streamed chunks into tool calls keyed by
    their index and into content parts, then either run each tool call and append the
    assistant and tool messages, or print the collected content. */
module Streaming {
  import opened Common
  import opened Text

  // ---------------------------------------------------------------------------
  // Chunks and their accumulation.

  /** A tool call's `function` part in one chunk; `None` where the field is null. */
  datatype FunctionDelta = FunctionDelta(name: Option<string>, arguments: Option<string>)

  /** One streamed fragment of a tool call. */
  datatype ToolCallDelta = ToolCallDelta(index: int, id: Option<string>, kind: Option<string>,
                                         func: FunctionDelta)

  /** A chunk's `result`: its tool-call fragments (a missing, null or empty list all read
      as none) and its content. */
  datatype Chunk = Chunk(toolCalls: seq<ToolCallDelta>, content: Option<string>)

  /** One value of the `tool_calls` dict: the key, then `id`, `type`, and the function's
      `name` and `arguments`. */
  datatype Entry = Entry(index: int, id: Option<string>, kind: Option<string>, name: string,
                         arguments: string)

  /** The name an entry is created with: the fragment's name, or `''` when that is null or
      empty. */
  function NameOf(d: ToolCallDelta): (name: string)
    ensures d.func.name.Some? && d.func.name.value != "" ==> name == d.func.name.value
    ensures d.func.name.None? || d.func.name.value == "" ==> name == ""
  {
    if d.func.name.Some? then d.func.name.value else ""
  }

  /** What a fragment adds to the arguments; a null or empty fragment adds nothing. */
  function Fragment(d: ToolCallDelta): (text: string)
    ensures d.func.arguments.Some? ==> text == d.func.arguments.value
    ensures d.func.arguments.None? ==> text == ""
  {
    if d.func.arguments.Some? then d.func.arguments.value else ""
  }

  /** `index in tool_calls`, with the entry's position in insertion order. */
  function Find(entries: seq<Entry>, x: int): (p: Option<nat>)
    ensures p.Some? ==> p.value < |entries| && entries[p.value].index == x
                        && forall q | 0 <= q < p.value :: entries[q].index != x
    ensures p.None? ==> forall q | 0 <= q < |entries| :: entries[q].index != x
  {
    if entries == [] then None
    else if entries[0].index == x then Some(0)
    else
      match Find(entries[1..], x)
      case None => None
      case Some(p) => Some(p + 1)
  }

  /** The loop body for one fragment: create the entry on the first fragment with its
      index, then append the fragment's arguments to that entry. */
  function Absorb(entries: seq<Entry>, d: ToolCallDelta): seq<Entry> {
    match Find(entries, d.index)
    case None => entries + [Entry(d.index, d.id, d.kind, NameOf(d), Fragment(d))]
    case Some(p) => entries[p := entries[p].(arguments := entries[p].arguments + Fragment(d))]
  }

  /** The loop body over a flat sequence of fragments. */
  function Fold(ds: seq<ToolCallDelta>): seq<Entry>
    decreases |ds|
  {
    if ds == [] then [] else Absorb(Fold(ds[..|ds| - 1]), ds[|ds| - 1])
  }

  /** Every chunk's fragments, in arrival order. */
  function Deltas(chunks: seq<Chunk>): seq<ToolCallDelta>
    decreases |chunks|
  {
    if chunks == [] then [] else Deltas(chunks[..|chunks| - 1]) + chunks[|chunks| - 1].toolCalls
  }

  /** `content_parts`: every non-empty content, in arrival order. */
  function Contents(chunks: seq<Chunk>): (parts: seq<string>)
    ensures forall k | 0 <= k < |parts| :: parts[k] != ""
    decreases |chunks|
  {
    if chunks == [] then []
    else
      var c := chunks[|chunks| - 1].content;
      Contents(chunks[..|chunks| - 1]) + (if c.Some? && c.value != "" then [c.value] else [])
  }

  /** One more fragment is one more loop step. */
  lemma FoldSnoc(ds: seq<ToolCallDelta>, d: ToolCallDelta)
    ensures Fold(ds + [d]) == Absorb(Fold(ds), d)
  {
    assert (ds + [d])[..|ds|] == ds;
  }

  /** The inner loop over one chunk's fragments, continuing a fold over `seen`. */
  method AbsorbChunk(calls: seq<Entry>, ghost seen: seq<ToolCallDelta>, toolCalls: seq<ToolCallDelta>)
    returns (calls': seq<Entry>)
    requires calls == Fold(seen)
    ensures calls' == Fold(seen + toolCalls)
  {
    calls' := calls;
    assert seen + toolCalls[..0] == seen;
    for j := 0 to |toolCalls|
      invariant calls' == Fold(seen + toolCalls[..j])
    {
      FoldSnoc(seen + toolCalls[..j], toolCalls[j]);
      assert seen + toolCalls[..j + 1] == (seen + toolCalls[..j]) + [toolCalls[j]];
      calls' := Absorb(calls', toolCalls[j]);
    }
    assert toolCalls[..|toolCalls|] == toolCalls;
  }

  /** The streaming loop: `tool_calls` (its values, in insertion order) and
      `content_parts`. */
  method Accumulate(chunks: seq<Chunk>) returns (calls: seq<Entry>, contentParts: seq<string>)
    ensures calls == Expected(Deltas(chunks))
    ensures contentParts == Contents(chunks)
  {
    calls := [];
    contentParts := [];
    for i := 0 to |chunks|
      invariant calls == Fold(Deltas(chunks[..i]))
      invariant contentParts == Contents(chunks[..i])
    {
      var chunk := chunks[i];
      assert chunks[..i + 1][..i] == chunks[..i];
      calls := AbsorbChunk(calls, Deltas(chunks[..i]), chunk.toolCalls);
      if chunk.content.Some? && chunk.content.value != "" {
        contentParts := contentParts + [chunk.content.value];
      }
    }
    assert chunks[..|chunks|] == chunks;
    FoldIsExpected(Deltas(chunks));
  }

  // ---------------------------------------------------------------------------
  // The reference: what each entry should hold.

  /** Position of the first fragment with index x. */
  function FirstPos(ds: seq<ToolCallDelta>, x: int): (p: Option<nat>)
    ensures p.Some? ==> p.value < |ds| && ds[p.value].index == x
                        && forall q | 0 <= q < p.value :: ds[q].index != x
    ensures p.None? ==> forall q | 0 <= q < |ds| :: ds[q].index != x
  {
    if ds == [] then None
    else if ds[0].index == x then Some(0)
    else
      match FirstPos(ds[1..], x)
      case None => None
      case Some(p) => Some(p + 1)
  }

  /** The concatenation of every argument fragment with index x. */
  function ArgsOf(ds: seq<ToolCallDelta>, x: int): string
    decreases |ds|
  {
    if ds == [] then ""
    else
      var d := ds[|ds| - 1];
      ArgsOf(ds[..|ds| - 1], x) + (if d.index == x then Fragment(d) else "")
  }

  /** The distinct indices in the order they first appear. */
  function Indices(ds: seq<ToolCallDelta>): seq<int>
    decreases |ds|
  {
    if ds == [] then []
    else
      var init := Indices(ds[..|ds| - 1]);
      var x := ds[|ds| - 1].index;
      if x in init then init else init + [x]
  }

  /** The entry for index x: id, type and name from its first fragment, arguments from
      all of them. */
  function EntryFor(ds: seq<ToolCallDelta>, x: int): Entry {
    match FirstPos(ds, x)
    case None => Entry(x, None, None, "", "")
    case Some(p) => Entry(x, ds[p].id, ds[p].kind, NameOf(ds[p]), ArgsOf(ds, x))
  }

  function Expected(ds: seq<ToolCallDelta>): (entries: seq<Entry>)
    ensures |entries| == |Indices(ds)|
    ensures forall k | 0 <= k < |entries| :: entries[k] == EntryFor(ds, Indices(ds)[k])
  {
    seq(|Indices(ds)|, k requires 0 <= k < |Indices(ds)| => EntryFor(ds, Indices(ds)[k]))
  }

  lemma FirstPosSnoc(ds: seq<ToolCallDelta>, d: ToolCallDelta, x: int)
    ensures FirstPos(ds + [d], x)
            == if FirstPos(ds, x).Some? then FirstPos(ds, x)
               else if d.index == x then Some(|ds|) else None
  {
    var r := FirstPos(ds + [d], x);
    var s := ds + [d];
    assert forall q | 0 <= q < |ds| :: s[q] == ds[q];
    match FirstPos(ds, x)
    case Some(p) =>
      assert s[p].index == x;
    case None =>
      assert forall q | 0 <= q < |ds| :: s[q].index != x;
      assert s[|ds|] == d;
  }

  lemma {:induction false} ArgsOfUnseen(ds: seq<ToolCallDelta>, x: int)
    requires FirstPos(ds, x).None?
    ensures ArgsOf(ds, x) == ""
    decreases |ds|
  {
    if ds != [] {
      var init := ds[..|ds| - 1];
      assert ds == init + [ds[|ds| - 1]];
      FirstPosSnoc(init, ds[|ds| - 1], x);
      ArgsOfUnseen(init, x);
    }
  }

  /** The indices listed are exactly the indices that occur. */
  lemma {:induction false} IndicesCover(ds: seq<ToolCallDelta>)
    ensures forall x :: x in Indices(ds) <==> FirstPos(ds, x).Some?
    decreases |ds|
  {
    if ds != [] {
      var init := ds[..|ds| - 1];
      var d := ds[|ds| - 1];
      assert ds == init + [d];
      IndicesCover(init);
      forall x ensures x in Indices(ds) <==> FirstPos(ds, x).Some? {
        FirstPosSnoc(init, d, x);
      }
    }
  }

  /** The indices come in the order of their first fragments. */
  lemma {:induction false} IndicesOrdered(ds: seq<ToolCallDelta>)
    ensures forall a, b | 0 <= a < b < |Indices(ds)| ::
              FirstPos(ds, Indices(ds)[a]).Some? && FirstPos(ds, Indices(ds)[b]).Some?
              && FirstPos(ds, Indices(ds)[a]).value < FirstPos(ds, Indices(ds)[b]).value
    decreases |ds|
  {
    if ds != [] {
      var init := ds[..|ds| - 1];
      var d := ds[|ds| - 1];
      assert ds == init + [d];
      IndicesOrdered(init);
      IndicesCover(init);
      var ix := Indices(init);
      forall a | 0 <= a < |ix|
        ensures FirstPos(ds, ix[a]) == FirstPos(init, ix[a])
        ensures FirstPos(init, ix[a]).Some? && FirstPos(init, ix[a]).value < |init|
      {
        assert ix[a] in ix;
        FirstPosSnoc(init, d, ix[a]);
      }
      if d.index !in ix {
        FirstPosSnoc(init, d, d.index);
      }
    }
  }

  /** The indices are distinct, cover exactly the indices that occur, and come in the
      order of their first fragments. */
  lemma IndicesFacts(ds: seq<ToolCallDelta>)
    ensures forall a, b | 0 <= a < b < |Indices(ds)| :: Indices(ds)[a] != Indices(ds)[b]
    ensures forall x :: x in Indices(ds) <==> FirstPos(ds, x).Some?
    ensures forall a, b | 0 <= a < b < |Indices(ds)| ::
              FirstPos(ds, Indices(ds)[a]).Some? && FirstPos(ds, Indices(ds)[b]).Some?
              && FirstPos(ds, Indices(ds)[a]).value < FirstPos(ds, Indices(ds)[b]).value
  {
    IndicesCover(ds);
    IndicesOrdered(ds);
  }

  /** A fragment for index x leaves every other index's entry as it was. */
  lemma EntryForOther(ds: seq<ToolCallDelta>, d: ToolCallDelta, y: int)
    requires y != d.index
    ensures EntryFor(ds + [d], y) == EntryFor(ds, y)
  {
    FirstPosSnoc(ds, d, y);
    assert (ds + [d])[..|ds|] == ds;
  }

  /** An entry with index x at position k makes `Find` succeed at k or earlier. */
  lemma FindReaches(entries: seq<Entry>, x: int, k: nat)
    requires k < |entries| && entries[k].index == x
    ensures Find(entries, x).Some? && Find(entries, x).value <= k
  {
  }

  /** Two positions of the index list hold different indices. */
  lemma IndicesDistinct(ds: seq<ToolCallDelta>, a: nat, b: nat)
    requires a < b < |Indices(ds)|
    ensures Indices(ds)[a] != Indices(ds)[b]
  {
    IndicesOrdered(ds);
  }

  /** In a table whose indices are distinct, `Find` locates each entry by its index. */
  lemma FindDistinct(entries: seq<Entry>, k: nat)
    requires k < |entries|
    requires forall a, b | 0 <= a < b < |entries| :: entries[a].index != entries[b].index
    ensures Find(entries, entries[k].index) == Some(k)
  {
    FindReaches(entries, entries[k].index, k);
  }

  /** Looking an index up in the reference table finds its place in first-seen order. */
  lemma FindInExpected(ds: seq<ToolCallDelta>, x: int)
    requires x in Indices(ds)
    ensures Find(Expected(ds), x) == Some(IndexOf(Indices(ds), x))
  {
    var ix := Indices(ds);
    var e := Expected(ds);
    IndicesFacts(ds);
    assert forall k | 0 <= k < |e| :: e[k].index == ix[k];
    FindDistinct(e, IndexOf(ix, x));
  }

  /** A fragment for a known index leaves the index list alone and only extends that
      index's arguments. */
  lemma EntryForKnown(ds: seq<ToolCallDelta>, d: ToolCallDelta)
    requires d.index in Indices(ds)
    ensures Indices(ds + [d]) == Indices(ds)
    ensures EntryFor(ds + [d], d.index)
            == EntryFor(ds, d.index).(arguments := EntryFor(ds, d.index).arguments + Fragment(d))
  {
    var s := ds + [d];
    assert s[..|ds|] == ds;
    IndicesFacts(ds);
    FirstPosSnoc(ds, d, d.index);
  }

  /** A fragment whose index is already known only extends that entry's arguments. */
  lemma AbsorbKnown(ds: seq<ToolCallDelta>, d: ToolCallDelta)
    requires d.index in Indices(ds)
    ensures Absorb(Expected(ds), d) == Expected(ds + [d])
  {
    var ix := Indices(ds);
    var e := Expected(ds);
    var p := IndexOf(ix, d.index);
    FindInExpected(ds, d.index);
    EntryForKnown(ds, d);
    var e' := e[p := e[p].(arguments := e[p].arguments + Fragment(d))];
    assert Absorb(e, d) == e';
    forall k | 0 <= k < |ix| ensures e'[k] == Expected(ds + [d])[k] {
      if k < p {
        IndicesDistinct(ds, k, p);
        EntryForOther(ds, d, ix[k]);
      } else if p < k {
        IndicesDistinct(ds, p, k);
        EntryForOther(ds, d, ix[k]);
      }
    }
  }

  /** A fragment with a new index appends that index's entry. */
  lemma AbsorbNew(ds: seq<ToolCallDelta>, d: ToolCallDelta)
    requires d.index !in Indices(ds)
    ensures Absorb(Expected(ds), d) == Expected(ds + [d])
  {
    var x := d.index;
    var s := ds + [d];
    assert s[..|ds|] == ds;
    IndicesFacts(ds);
    var ix := Indices(ds);
    var e := Expected(ds);
    assert Find(e, x) == None by {
      forall q | 0 <= q < |e| ensures e[q].index != x {
        assert e[q].index == ix[q];
      }
    }
    FirstPosSnoc(ds, d, x);
    ArgsOfUnseen(ds, x);
    assert Indices(s) == ix + [x];
    forall k | 0 <= k < |ix| + 1 ensures Absorb(e, d)[k] == Expected(s)[k] {
      if k < |ix| {
        EntryForOther(ds, d, ix[k]);
      }
    }
  }

  /** The loop computes the reference. */
  lemma {:induction false} FoldIsExpected(ds: seq<ToolCallDelta>)
    ensures Fold(ds) == Expected(ds)
    decreases |ds|
  {
    if ds != [] {
      var init := ds[..|ds| - 1];
      var d := ds[|ds| - 1];
      assert ds == init + [d];
      FoldIsExpected(init);
      if d.index in Indices(init) {
        AbsorbKnown(init, d);
      } else {
        AbsorbNew(init, d);
      }
    }
  }

  /** What the accumulated tool calls hold: one entry per distinct index, in the order
      the indices first appear; each entry's id, type and name come from the first
      fragment with its index (the name `''` when that fragment has none), and its
      arguments are all of that index's fragments, concatenated in arrival order. */
  lemma AccumulatedCalls(chunks: seq<Chunk>, k: nat)
    requires k < |Expected(Deltas(chunks))|
    ensures var ds := Deltas(chunks);
            var e := Expected(ds)[k];
            && FirstPos(ds, e.index).Some?
            && var first := ds[FirstPos(ds, e.index).value];
            && e.id == first.id && e.kind == first.kind && e.name == NameOf(first)
            && e.arguments == ArgsOf(ds, e.index)
            && (forall j | 0 <= j < |Expected(ds)| && j != k :: Expected(ds)[j].index != e.index)
            && (forall j | 0 <= j < k :: FirstPos(ds, Expected(ds)[j].index).Some?
                                         && FirstPos(ds, Expected(ds)[j].index).value
                                            < FirstPos(ds, e.index).value)
  {
    var ds := Deltas(chunks);
    IndicesFacts(ds);
    assert Indices(ds)[k] in Indices(ds);
  }

  // ---------------------------------------------------------------------------
  // After the stream.

  datatype ToolCallRecord = ToolCallRecord(id: Option<string>, kind: Option<string>, name: string,
                                           arguments: string)

  datatype Message =
    | Chat(role: string, content: string)
    | AssistantToolCalls(toolCalls: seq<ToolCallRecord>)
    | ToolResult(toolCallId: Option<string>, content: string)

  const Initial: seq<Message> := [
    Chat("system", "You are a weather-savvy assistant."),
    Chat("user", "What's the weather like in Melbourne today?")]

  /** The assistant message's `tool_calls` list: one record per entry, in order. */
  function Records(entries: seq<Entry>): (records: seq<ToolCallRecord>)
    ensures |records| == |entries|
    ensures forall k | 0 <= k < |entries| ::
              records[k] == ToolCallRecord(entries[k].id, entries[k].kind, entries[k].name,
                                           entries[k].arguments)
  {
    seq(|entries|, k requires 0 <= k < |entries| =>
      ToolCallRecord(entries[k].id, entries[k].kind, entries[k].name, entries[k].arguments))
  }

  /** `get_weather(city)`. */
  const WeatherLead: string := "The weather in "
  const WeatherTail: string := " is sunny with a high of 25°C."

  function GetWeather(city: string): string {
    WeatherLead + city + WeatherTail
  }

  /** The weather sentence names its city: dropping the fixed lead and tail gives the
      city back, so different cities get different sentences. */
  lemma GetWeatherReadsBack(city: string, other: string)
    ensures var w := GetWeather(city);
            |w| == |WeatherLead| + |city| + |WeatherTail|
            && w[|WeatherLead|..|w| - |WeatherTail|] == city
    ensures GetWeather(city) == GetWeather(other) ==> city == other
  {
    var w := GetWeather(city);
    assert w[|WeatherLead|..|w| - |WeatherTail|] == city;
    var w' := GetWeather(other);
    assert w'[|WeatherLead|..|w'| - |WeatherTail|] == other;
  }

  const Unknown: string := "Unknown function: "

  /** The dispatch on the function name. `get_weather(**args)` needs a dict whose only
      key is `city`; any other value or key set raises TypeError. Any other name gives
      the unknown-function text. */
  function Dispatch(name: string, args: Json, show: Json -> string): (r: Outcome<string>)
    ensures name != "get_weather" ==> r == Completed(Unknown + name)
    ensures name == "get_weather" && args.JObj? && args.members.Keys == {"city"} ==>
              r == Completed(GetWeather(Str(args.members["city"], show)))
    ensures name == "get_weather" && !(args.JObj? && args.members.Keys == {"city"}) ==>
              r == Failed(TypeError)
  {
    if name != "get_weather" then Completed(Unknown + name)
    else if args.JObj? && args.members.Keys == {"city"} then
      Completed(GetWeather(Str(args.members["city"], show)))
    else Failed(TypeError)
  }

  /** A successful dispatch says which branch it took: the reply starts with the
      unknown-function text exactly when the name is not `get_weather`. */
  lemma DispatchTellsBranches(name: string, args: Json, show: Json -> string)
    requires Dispatch(name, args, show).Completed?
    ensures var reply := Dispatch(name, args, show).value;
            (|reply| >= |Unknown| && reply[..|Unknown|] == Unknown) <==> name != "get_weather"
  {
    var reply := Dispatch(name, args, show).value;
    if name == "get_weather" {
      assert reply[0] == 'T';
    } else {
      assert reply[..|Unknown|] == Unknown;
    }
  }

  /** A weather reply names the city it was asked about, rendered as an f-string would. */
  lemma DispatchNamesCity(name: string, args: Json, show: Json -> string)
    requires name == "get_weather" && Dispatch(name, args, show).Completed?
    ensures args.JObj? && "city" in args.members
    ensures var reply := Dispatch(name, args, show).value;
            |reply| == |WeatherLead| + |Str(args.members["city"], show)| + |WeatherTail|
            && reply[|WeatherLead|..|reply| - |WeatherTail|] == Str(args.members["city"], show)
  {
    assert "city" in args.members.Keys;
    GetWeatherReadsBack(Str(args.members["city"], show), Str(args.members["city"], show));
  }

  /** One tool call's result: `json.loads` of its arguments (JsonDecodeError when that
      fails), then the dispatch. */
  function ToolOutput(e: Entry, loads: string -> Option<Json>, show: Json -> string)
    : (r: Outcome<string>)
    ensures loads(e.arguments).None? ==> r == Failed(JsonDecodeError)
    ensures loads(e.arguments).Some? ==> r == Dispatch(e.name, loads(e.arguments).value, show)
  {
    match loads(e.arguments)
    case None => Failed(JsonDecodeError)
    case Some(args) => Dispatch(e.name, args, show)
  }

  /** How the script ends: with tool calls, the conversation so far (and the exception,
      if one stopped it); without, the text printed from the content parts, if any. */
  datatype Ending =
    | ToolRound(messages: seq<Message>, error: Option<Error>)
    | ContentOnly(printed: Option<string>)

  /** The `for call_data in tool_calls.values()` loop, from entry i on. */
  function ExecuteCalls(entries: seq<Entry>, i: nat, messages: seq<Message>,
                        loads: string -> Option<Json>, show: Json -> string): (r: Ending)
    requires i <= |entries|
    ensures r.ToolRound? && |r.messages| >= |messages| && r.messages[..|messages|] == messages
    decreases |entries| - i
  {
    if i == |entries| then ToolRound(messages, None)
    else
      match ToolOutput(entries[i], loads, show)
      case Failed(e) => ToolRound(messages, Some(e))
      case Completed(result) =>
        ExecuteCalls(entries, i + 1, messages + [ToolResult(entries[i].id, result)], loads, show)
  }

  /** Everything after the stream. */
  function Finish(entries: seq<Entry>, contentParts: seq<string>, loads: string -> Option<Json>,
                  show: Json -> string): (r: Ending)
    ensures entries == [] ==> r.ContentOnly?
    ensures entries != [] ==> r.ToolRound?
  {
    if entries == [] then ContentOnly(if contentParts == [] then None else Some(Join("", contentParts)))
    else ExecuteCalls(entries, 0, Initial + [AssistantToolCalls(Records(entries))], loads, show)
  }

  /** The first k tool calls each got their tool message, in order, after the base. */
  ghost predicate AnsweredUpTo(entries: seq<Entry>, base: seq<Message>, messages: seq<Message>, k: nat,
                               loads: string -> Option<Json>, show: Json -> string)
  {
    && k <= |entries| && |messages| == |base| + k && messages[..|base|] == base
    && forall j | 0 <= j < k ::
         ToolOutput(entries[j], loads, show).Completed?
         && messages[|base| + j] == ToolResult(entries[j].id, ToolOutput(entries[j], loads, show).value)
  }

  lemma {:induction false} ExecuteCallsSpec(entries: seq<Entry>, i: nat, base: seq<Message>,
                                            messages: seq<Message>, loads: string -> Option<Json>,
                                            show: Json -> string)
    requires i <= |entries| && AnsweredUpTo(entries, base, messages, i, loads, show)
    ensures var r := ExecuteCalls(entries, i, messages, loads, show);
            && r.ToolRound?
            && (r.error.None? ==> AnsweredUpTo(entries, base, r.messages, |entries|, loads, show))
            && (r.error.Some? ==>
                  exists k | i <= k < |entries| ::
                    AnsweredUpTo(entries, base, r.messages, k, loads, show)
                    && ToolOutput(entries[k], loads, show) == Failed(r.error.value))
    decreases |entries| - i
  {
    if i < |entries| {
      match ToolOutput(entries[i], loads, show)
      case Failed(e) =>
        assert AnsweredUpTo(entries, base, messages, i, loads, show);
      case Completed(result) =>
        var messages' := messages + [ToolResult(entries[i].id, result)];
        assert AnsweredUpTo(entries, base, messages', i + 1, loads, show) by {
          assert messages'[..|base|] == messages[..|base|];
          forall j | 0 <= j < i + 1
            ensures messages'[|base| + j]
                    == ToolResult(entries[j].id, ToolOutput(entries[j], loads, show).value)
          {
            if j < i {
              assert messages'[|base| + j] == messages[|base| + j];
            }
          }
        }
        ExecuteCallsSpec(entries, i + 1, base, messages', loads, show);
    }
  }

  /** After the stream: with no tool calls the printed text is the content parts run
      together (nothing when there are none). With tool calls, the conversation gains
      the assistant message listing every call, then one tool message per call, in
      order, answering that call's id with its result; an exception stops the loop at
      the call that raised it, after the messages of the calls before it. */
  lemma FinishSpec(entries: seq<Entry>, contentParts: seq<string>, loads: string -> Option<Json>,
                   show: Json -> string)
    ensures var r := Finish(entries, contentParts, loads, show);
            var base := Initial + [AssistantToolCalls(Records(entries))];
            && (entries == [] && contentParts == [] ==> r == ContentOnly(None))
            && (entries == [] && contentParts != [] ==> r == ContentOnly(Some(Join("", contentParts))))
            && (entries != [] && r.error.None? ==>
                  AnsweredUpTo(entries, base, r.messages, |entries|, loads, show))
            && (entries != [] && r.error.Some? ==>
                  exists k | 0 <= k < |entries| ::
                    AnsweredUpTo(entries, base, r.messages, k, loads, show)
                    && ToolOutput(entries[k], loads, show) == Failed(r.error.value))
  {
    if entries != [] {
      var base := Initial + [AssistantToolCalls(Records(entries))];
      assert base[..|base|] == base;
      ExecuteCallsSpec(entries, 0, base, base, loads, show);
    }
  }

  /** The assistant message lists, for the k-th index in first-seen order, the id, type
      and name of the first fragment with that index and all of its arguments. */
  lemma AssistantMessageListsStreamedCalls(chunks: seq<Chunk>, k: nat)
    requires k < |Expected(Deltas(chunks))|
    ensures var ds := Deltas(chunks);
            var e := Expected(ds);
            && |Records(e)| == |e|
            && FirstPos(ds, e[k].index).Some?
            && var first := ds[FirstPos(ds, e[k].index).value];
            && Records(e)[k] == ToolCallRecord(first.id, first.kind, NameOf(first), ArgsOf(ds, e[k].index))
  {
    AccumulatedCalls(chunks, k);
  }

  /** Every chunk's content run together, a null content counting as empty. */
  function AllContent(chunks: seq<Chunk>): string
    decreases |chunks|
  {
    if chunks == [] then ""
    else
      var c := chunks[|chunks| - 1].content;
      AllContent(chunks[..|chunks| - 1]) + (if c.Some? then c.value else "")
  }

  /** The text printed when no tool call was streamed is the whole streamed content:
      skipping the empty parts loses nothing. */
  lemma {:induction false} PrintedContentIsAllContent(chunks: seq<Chunk>)
    ensures Join("", Contents(chunks)) == AllContent(chunks)
    decreases |chunks|
  {
    if chunks != [] {
      var init := chunks[..|chunks| - 1];
      var c := chunks[|chunks| - 1].content;
      PrintedContentIsAllContent(init);
      if c.Some? && c.value != "" {
        if Contents(init) == [] {
          assert Contents(chunks) == [c.value];
        } else {
          JoinSnoc("", Contents(init), c.value);
        }
      } else {
        assert Contents(chunks) == Contents(init);
        assert AllContent(chunks) == AllContent(init) + "";
      }
    }
  }
}
