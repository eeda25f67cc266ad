/** The JSON values the scripts read and write (`json.loads` / `json.dump` results), with
    the Python dictionary access forms they use: `d.get(k)`, `d[k]` (which raises when the
    key is missing) and truthiness. */
module Json {
  import opened Common

  /** Numbers keep their literal text: the scripts never compute with them. */
  datatype Json =
    | JNull
    | JBool(b: bool)
    | JNum(text: string)
    | JStr(s: string)
    | JList(items: seq<Json>)
    | JObj(fields: map<string, Json>)

  /** `d.get(k)`: the value under `k`, or None (JSON null) when the key is absent. */
  function Get(d: map<string, Json>, k: string): (r: Json)
    ensures k !in d ==> r == JNull
    ensures k in d ==> r == d[k]
  {
    if k in d then d[k] else JNull
  }

  /** `j[k]`: the value under `k` when `j` is a dictionary holding `k`; None where Python
      raises a KeyError or TypeError. */
  function Lookup(j: Json, k: string): (r: Option<Json>)
    ensures r.Some? <==> j.JObj? && k in j.fields
  {
    if j.JObj? && k in j.fields then Some(j.fields[k]) else None
  }

  /** `j[k1][k2]...[kn]`, None as soon as one step would raise. */
  function Path(j: Json, keys: seq<string>): (r: Option<Json>)
    ensures keys == [] ==> r == Some(j)
  {
    if keys == [] then Some(j)
    else
      match Lookup(j, keys[0])
      case None => None
      case Some(v) => Path(v, keys[1..])
  }

  /** A numeric literal is zero when its mantissa has no non-zero digit. */
  predicate NonZeroLiteral(t: string)
  {
    if t == [] || t[0] == 'e' || t[0] == 'E' then false
    else ('1' <= t[0] <= '9') || NonZeroLiteral(t[1..])
  }

  /** Python truthiness of a JSON value. */
  predicate Truthy(j: Json)
  {
    match j
    case JNull => false
    case JBool(b) => b
    case JNum(t) => NonZeroLiteral(t)
    case JStr(s) => s != ""
    case JList(items) => items != []
    case JObj(fields) => fields != map[]
  }

  /** The items of a JSON list; empty for any other value. */
  function Items(j: Json): seq<Json>
  {
    if j.JList? then j.items else []
  }

  /** Python `str(v)` for a JSON scalar (numbers are shown as written). */
  function ScalarText(j: Json): (r: Option<string>)
    ensures r.Some? <==> !j.JList? && !j.JObj?
    ensures j.JStr? ==> r == Some(j.s)
  {
    match j
    case JNull => Some("None")
    case JBool(b) => Some(if b then "True" else "False")
    case JNum(t) => Some(t)
    case JStr(s) => Some(s)
    case JList(_) => None
    case JObj(_) => None
  }

  /** Text whose every character is ASCII. */
  predicate IsAscii(s: string)
  {
    forall i :: 0 <= i < |s| ==> s[i] as int < 128
  }

  /** Python 2 `str(u)` of a decoded JSON string raises UnicodeEncodeError exactly when
      the text holds a non-ASCII character; so does writing it to a CSV file. */
  predicate EncodeFails(j: Json)
  {
    j.JStr? && !IsAscii(j.s)
  }

  // ---------------------------------------------------------------------------
  // A run of conditional dictionary assignments `if present: d[key] = value`

  /** One conditional assignment `if present: d[key] = value`. */
  datatype Assignment = Assignment(key: string, present: bool, value: Json)

  /** Performs the assignments in order. */
  function Apply(m: map<string, Json>, steps: seq<Assignment>): map<string, Json>
    decreases |steps|
  {
    if steps == [] then m
    else
      var s := steps[0];
      Apply(if s.present then m[s.key := s.value] else m, steps[1..])
  }

  /** The value of the last assignment to `k` that is carried out, if any. */
  function LastAssigned(steps: seq<Assignment>, k: string): Option<Json>
  {
    if steps == [] then None
    else
      match LastAssigned(steps[1..], k)
      case Some(v) => Some(v)
      case None => if steps[0].key == k && steps[0].present then Some(steps[0].value) else None
  }

  /** After the assignments, a key holds its last assigned value, or its old one. */
  lemma {:induction false} ApplyLookup(m: map<string, Json>, steps: seq<Assignment>, k: string)
    ensures k in Apply(m, steps) <==> LastAssigned(steps, k).Some? || k in m
    ensures k in Apply(m, steps) ==>
      Apply(m, steps)[k] == if LastAssigned(steps, k).Some? then LastAssigned(steps, k).value else m[k]
    decreases |steps|
  {
    if steps != [] {
      var s := steps[0];
      ApplyLookup(if s.present then m[s.key := s.value] else m, steps[1..], k);
    }
  }

  /** No key is assigned twice. */
  predicate DistinctKeys(steps: seq<Assignment>)
  {
    forall i, j :: 0 <= i < j < |steps| ==> steps[i].key != steps[j].key
  }

  /** With distinct keys, a key's last assignment is its only one. */
  lemma {:induction false} LastAssignedOnly(steps: seq<Assignment>, k: string, i: int)
    requires DistinctKeys(steps)
    requires i == -1 ==> forall j :: 0 <= j < |steps| ==> steps[j].key != k
    requires i != -1 ==> 0 <= i < |steps| && steps[i].key == k
    ensures i == -1 ==> LastAssigned(steps, k).None?
    ensures i != -1 ==> LastAssigned(steps, k) == if steps[i].present then Some(steps[i].value) else None
    decreases |steps|
  {
    if steps != [] {
      var rest := steps[1..];
      assert DistinctKeys(rest) by {
        forall a, b | 0 <= a < b < |rest| ensures rest[a].key != rest[b].key {
          assert rest[a] == steps[a + 1] && rest[b] == steps[b + 1];
        }
      }
      if i == -1 || i == 0 {
        forall j | 0 <= j < |rest| ensures rest[j].key != k {
          assert rest[j] == steps[j + 1];
        }
        LastAssignedOnly(rest, k, -1);
      } else {
        assert rest[i - 1] == steps[i];
        LastAssignedOnly(rest, k, i - 1);
      }
    }
  }
}
