/** The Python values `json.loads` produces, as far as the invoice functions look at them:
    truthiness, `dict.get`, the dict a JSON object becomes (a repeated key keeps its last
    value), `str()` of a value, and the `[:7]` slice of the propagation summary. JSON
    numbers are integers here. */
module PyJson {
  import opened Wrappers
  import opened Text

  datatype Json =
    | JNull
    | JBool(b: bool)
    | JInt(i: int)
    | JStr(s: string)
    | JArr(items: seq<Json>)
    | JObj(fields: seq<(string, Json)>)

  /** A stored table entity: property name to value. */
  type Entity = map<string, Json>

  /** Python truthiness (`not x` is false). */
  predicate Truthy(j: Json) {
    match j
    case JNull => false
    case JBool(b) => b
    case JInt(i) => i != 0
    case JStr(s) => s != ""
    case JArr(xs) => xs != []
    case JObj(fs) => fs != []
  }

  /** Python's falsy values among parsed JSON are exactly `None`, `False`, `0`, `""`, `[]`
      and `{}`. */
  lemma FalsyValues(j: Json)
    ensures !Truthy(j) <==> j in {JNull, JBool(false), JInt(0), JStr(""), JArr([]), JObj([])}
  {
  }

  // ---------------------------------------------------------------------------
  // Objects as dicts

  /** Position of the last pair named `k`. */
  function LastKeyIndex(fields: seq<(string, Json)>, k: string): (r: Option<nat>)
    ensures r.Some? ==>
      r.value < |fields| && fields[r.value].0 == k && forall j | r.value < j < |fields| :: fields[j].0 != k
    ensures r.None? ==> forall j | 0 <= j < |fields| :: fields[j].0 != k
  {
    if fields == [] then None
    else if fields[|fields| - 1].0 == k then Some(|fields| - 1)
    else LastKeyIndex(fields[..|fields| - 1], k)
  }

  /** `d.get(k)` on the dict built from `fields`: the value of the last pair named `k`. */
  function Lookup(fields: seq<(string, Json)>, k: string): (r: Option<Json>)
    ensures r.None? <==> forall i | 0 <= i < |fields| :: fields[i].0 != k
    ensures r.Some? ==> (k, r.value) in fields
    ensures forall i | 0 <= i < |fields| && fields[i].0 == k && (forall j | i < j < |fields| :: fields[j].0 != k) ::
      r == Some(fields[i].1)
  {
    match LastKeyIndex(fields, k)
    case None => None
    case Some(i) => Some(fields[i].1)
  }

  /** The dict a JSON object becomes. */
  function ObjectMap(fields: seq<(string, Json)>): (m: map<string, Json>)
    ensures forall k :: k in m <==> Lookup(fields, k).Some?
    ensures forall k | k in m :: m[k] == Lookup(fields, k).value
  {
    if fields == [] then map[]
    else
      var n := |fields| - 1;
      ObjectMap(fields[..n])[fields[n].0 := fields[n].1]
  }

  /** The dict's keys in insertion order: each key once, where it first occurs. */
  function Keys(fields: seq<(string, Json)>): (ks: seq<string>)
    ensures forall i, j | 0 <= i < j < |ks| :: ks[i] != ks[j]
    ensures forall k :: k in ks <==> Lookup(fields, k).Some?
  {
    if fields == [] then []
    else
      var n := |fields| - 1;
      var ks := Keys(fields[..n]);
      if fields[n].0 in ks then ks else ks + [fields[n].0]
  }

  /** A later pair for the same key overrides an earlier one, whatever lies between. */
  lemma {:induction false} LaterPairWins(fields: seq<(string, Json)>, k: string, v: Json, rest: seq<(string, Json)>)
    requires forall i | 0 <= i < |rest| :: rest[i].0 != k
    ensures Lookup(fields + [(k, v)] + rest, k) == Some(v)
    decreases |rest|
  {
    if rest == [] {
      assert fields + [(k, v)] + rest == fields + [(k, v)];
    } else {
      var all := fields + [(k, v)] + rest;
      var n := |rest| - 1;
      assert all[..|all| - 1] == fields + [(k, v)] + rest[..n];
      LaterPairWins(fields, k, v, rest[..n]);
    }
  }

  // ---------------------------------------------------------------------------
  // str() and repr()

  /** `str(v)`: strings are themselves, containers print as their repr. */
  function PyStr(j: Json): (s: string)
    ensures j.JStr? ==> s == j.s
    ensures j.JInt? ==> s == IntToString(j.i)
    ensures !j.JStr? ==> s == Repr(j)
    ensures j.JArr? ==> s[0] == '[' && s[|s| - 1] == ']'
    ensures j.JObj? ==> s[0] == '{' && s[|s| - 1] == '}'
  {
    if j.JStr? then j.s else Repr(j)
  }

  /** `repr(v)`. Strings are shown in single quotes without escaping (see README). */
  function Repr(j: Json): (s: string)
    ensures |s| >= 1
    ensures j.JArr? ==> s[0] == '[' && s[|s| - 1] == ']'
    ensures j.JObj? ==> s[0] == '{' && s[|s| - 1] == '}'
    ensures j.JStr? ==> s == "'" + j.s + "'"
  {
    match j
    case JNull => "None"
    case JBool(b) => if b then "True" else "False"
    case JInt(i) => IntToString(i)
    case JStr(s) => "'" + s + "'"
    case JArr(xs) =>
      "[" + Join(seq(|xs|, i requires 0 <= i < |xs| => Repr(xs[i]))) + "]"
    case JObj(fs) =>
      var ks := Keys(fs);
      "{" + Join(seq(|ks|, i requires 0 <= i < |ks| => "'" + ks[i] + "': " + ReprValue(fs, ks[i], j))) + "}"
  }

  /** The repr of the value the dict holds for key `k`. */
  function ReprValue(fs: seq<(string, Json)>, k: string, parent: Json): string
    requires parent == JObj(fs)
    decreases parent, 0
  {
    match Lookup(fs, k)
    case None => ""
    case Some(v) => Repr(v)
  }

  /** `", ".join(parts)`. */
  function Join(parts: seq<string>): (s: string)
    ensures parts == [] ==> s == ""
    ensures |parts| == 1 ==> s == parts[0]
  {
    if parts == [] then ""
    else if |parts| == 1 then parts[0]
    else parts[0] + ", " + Join(parts[1..])
  }

  /** `v[:7]`: a prefix of a string or a list; any other value raises `TypeError`. */
  function Slice7(j: Json): (r: Option<Json>)
    ensures r.Some? <==> j.JStr? || j.JArr?
    ensures j.JStr? ==> r.value.JStr? && |r.value.s| == Min(7, |j.s|) && j.s == r.value.s + j.s[|r.value.s|..]
    ensures j.JArr? ==> r.value.JArr? && |r.value.items| == Min(7, |j.items|) && r.value.items <= j.items
  {
    match j
    case JStr(s) => Some(JStr(s[..Min(7, |s|)]))
    case JArr(xs) => Some(JArr(xs[..Min(7, |xs|)]))
    case _ => None
  }

  function Min(a: int, b: int): int {
    if a < b then a else b
  }
}
