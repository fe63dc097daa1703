/** Shared vocabulary of the model: optional values, the Python exceptions a workflow
    body can raise, JSON-like dynamic values, and the (call trace, outcome) pair that
    every workflow function returns. */
module Common {

  datatype Option<+T> = None | Some(value: T)

  /** The exceptions a workflow body can raise before it returns. */
  datatype Error =
    | KeyError(key: string)     // `d[key]` on a dict without `key`
    | TypeError                 // wrong operand type (comparison, `**`, subscript, iteration)
    | AttributeError            // reading a model field from a value that is not a model
    | ValidationError           // a pydantic model rejected its input
    | JsonDecodeError           // `json.loads` rejected its input

  /** A workflow either returns a value or fails with the first exception raised. */
  datatype Outcome<+R> = Completed(value: R) | Failed(error: Error)

  /** The ordered activity calls a workflow issued, and how it ended. */
  datatype Run<+C, +R> = Run(calls: seq<C>, outcome: Outcome<R>)

  /** Python values that cross activity boundaries: the JSON data model with
      integral numbers only. A dict is a map from string keys. */
  datatype Json =
    | JNull
    | JBool(b: bool)
    | JNum(n: int)
    | JStr(s: string)
    | JArr(items: seq<Json>)
    | JObj(members: map<string, Json>)

  /** `d.get(key, default)` on a dict. */
  function Get(m: map<string, Json>, key: string, default: Json): (r: Json)
    ensures key in m ==> r == m[key]
    ensures key !in m ==> r == default
  {
    if key in m then m[key] else default
  }

  /** A list of Python strings as a JSON list. */
  function Strings(ss: seq<string>): (r: seq<Json>)
    ensures |r| == |ss| && forall i :: 0 <= i < |ss| ==> r[i] == JStr(ss[i])
  {
    if ss == [] then [] else [JStr(ss[0])] + Strings(ss[1..])
  }

  /** How an f-string renders a value: a string as itself, anything else through
      Python's `str()`, which is a parameter of the model. */
  function Str(v: Json, show: Json -> string): (r: string)
    ensures v.JStr? ==> r == v.s
    ensures !v.JStr? ==> r == show(v)
  {
    if v.JStr? then v.s else show(v)
  }

  /** The position of the first occurrence of x in s. */
  function IndexOf<T(==)>(s: seq<T>, x: T): (k: nat)
    requires x in s
    ensures k < |s| && s[k] == x
    ensures forall j | 0 <= j < k :: s[j] != x
  {
    if s[0] == x then 0 else 1 + IndexOf(s[1..], x)
  }
}
