/** JSON values as the services exchange them, and the records built from them. */
module JsonValue {

  /** A decoded JSON value. Numbers are integers: every number the core
      handles (reference numbers, phone numbers, timestamps) is integral. */
  datatype Json =
    | Null
    | Bool(b: bool)
    | Num(n: int)
    | Str(s: string)
    | Arr(items: seq<Json>)
    | Obj(fields: map<string, Json>)

  /** A JSON object: an open bag of named fields. */
  type Record = map<string, Json>

  /** The JSON array of strings that a Python list or tuple of strings serialises to. */
  function StrArray(ss: seq<string>): (j: Json)
    ensures j.Arr? && |j.items| == |ss|
    ensures forall i :: 0 <= i < |ss| ==> j.items[i] == Str(ss[i])
  {
    Arr(seq(|ss|, i requires 0 <= i < |ss| => Str(ss[i])))
  }

  /** Reads back a JSON array whose elements are all strings. */
  function Strings(j: Json): (r: seq<string>)
    requires j.Arr?
    requires forall i :: 0 <= i < |j.items| ==> j.items[i].Str?
    ensures |r| == |j.items|
    ensures forall i :: 0 <= i < |r| ==> j.items[i] == Str(r[i])
  {
    seq(|j.items|, i requires 0 <= i < |j.items| => j.items[i].s)
  }

  /** Serialising a string list and reading it back gives the same strings in the same order. */
  lemma StringsOfStrArray(ss: seq<string>)
    ensures Strings(StrArray(ss)) == ss
  {
  }
}
