/**
 * The JavaScript value semantics the rate mapping depends on: optional
 * JSON fields, truthiness, the `||` fallback, template-literal rendering
 * and `Array.prototype.join`.
 */
module JsValues {
  import opened Seqs

  /** A JSON object or array that may be missing or `null`; optional
      chaining (`x?.f`) yields `undefined` on None. */
  datatype Option<+T> = None | Some(value: T)

  /** A scalar JSON field as JavaScript sees it after `response.json()`:
      Absent is `undefined`, Null is `null`, Str holds the field's text. */
  datatype Value = Absent | Null | Str(text: string)

  /** JavaScript truthiness of a scalar: `undefined`, `null` and `""` are
      the falsy ones; every other string is truthy. */
  function Truthy(v: Value): (b: bool)
    ensures b <==> v != Absent && v != Null && v != Str("")
  {
    v.Str? && v.text != ""
  }

  /** `vs[k]` is the first truthy value of `vs`. */
  predicate FirstTruthyAt(vs: seq<Value>, k: int) {
    0 <= k < |vs| && Truthy(vs[k]) && forall j :: 0 <= j < k ==> !Truthy(vs[j])
  }

  /** `vs[0] || vs[1] || ... || last`: the first truthy value, else `last`. */
  function Fallback(vs: seq<Value>, last: Value): (r: Value)
    ensures (exists k :: FirstTruthyAt(vs, k) && r == vs[k])
         || ((forall j :: 0 <= j < |vs| ==> !Truthy(vs[j])) && r == last)
  {
    if vs == [] then last
    else if Truthy(vs[0]) then
      assert FirstTruthyAt(vs, 0);
      vs[0]
    else
      var r := Fallback(vs[1..], last);
      assert forall k :: FirstTruthyAt(vs[1..], k) ==> FirstTruthyAt(vs, k + 1);
      r
  }

  /** With a truthy last resort (such as `'0'`), a fallback chain is truthy. */
  lemma FallbackTruthy(vs: seq<Value>, last: Value)
    requires Truthy(last)
    ensures Truthy(Fallback(vs, last))
  {
  }

  /** `${v}` in a template literal: a string is written as it is, while
      `undefined` and `null` are spelled out. */
  function Render(v: Value): (r: string)
    ensures v.Str? ==> r == v.text
    ensures v.Absent? ==> r == "undefined"
    ensures v.Null? ==> r == "null"
  {
    match v
    case Absent => "undefined"
    case Null => "null"
    case Str(s) => s
  }

  /** How `Array.prototype.join` writes one element: null and undefined become "". */
  function JoinText(v: Value): (r: string)
    ensures v.Str? ==> r == Render(v)
    ensures !v.Str? ==> r == ""
  {
    if v.Str? then v.text else ""
  }

  /** The join texts of an array of scalars. */
  function Texts(vs: seq<Value>): (r: seq<string>)
    ensures |r| == |vs|
    ensures forall i :: 0 <= i < |vs| ==> r[i] == JoinText(vs[i])
  {
    seq(|vs|, i requires 0 <= i < |vs| => JoinText(vs[i]))
  }

  /** The join texts of an array that may be missing (`list?.join`). */
  function OptionTexts(list: Option<seq<Value>>): (r: Option<seq<string>>)
    ensures r.Some? <==> list.Some?
    ensures r.Some? ==> |r.value| == |list.value|
    ensures r.Some? ==> forall i :: 0 <= i < |list.value| ==> r.value[i] == JoinText(list.value[i])
  {
    match list
    case None => None
    case Some(vs) => Some(Texts(vs))
  }

  /** `parts.join(sep)`: a single part is the whole join; otherwise the
      join starts with the first part and a separator and ends with the
      last part. */
  function Join(parts: seq<string>, sep: string): (r: string)
    ensures |parts| == 1 ==> r == parts[0]
    ensures |parts| > 1 ==> |r| >= |parts[0]| + |sep| && r[..|parts[0]| + |sep|] == parts[0] + sep
    ensures |parts| > 0 ==> |r| >= |parts[|parts| - 1]| && r[|r| - |parts[|parts| - 1]|..] == parts[|parts| - 1]
  {
    if |parts| == 0 then ""
    else if |parts| == 1 then parts[0]
    else
      var head, tail := parts[0] + sep, Join(parts[1..], sep);
      var last := parts[|parts| - 1];
      assert parts[1..][|parts[1..]| - 1] == last;
      ConcatEnds(head, tail, |last|);
      head + tail
  }

  /** The summed length of the parts. */
  function TotalLength(parts: seq<string>): nat {
    if parts == [] then 0 else |parts[0]| + TotalLength(parts[1..])
  }

  /** A join of two or more parts is the first part, the separator and the
      join of the rest. */
  lemma JoinStep(parts: seq<string>, sep: string)
    requires |parts| > 1
    ensures Join(parts, sep) == parts[0] + sep + Join(parts[1..], sep)
  {
  }

  /** One more separator adds one separator's length. */
  lemma ProductStep(n: int, k: int)
    requires n >= 1
    ensures n * k == (n - 1) * k + k
  {
  }

  /** A join is as long as its parts plus one separator between each two. */
  lemma {:induction false} JoinLength(parts: seq<string>, sep: string)
    ensures |Join(parts, sep)| == TotalLength(parts) + (if parts == [] then 0 else (|parts| - 1) * |sep|)
  {
    if |parts| > 1 {
      var rest := parts[1..];
      JoinLength(rest, sep);
      JoinStep(parts, sep);
      assert TotalLength(parts) == |parts[0]| + TotalLength(rest);
      assert |rest| - 1 == |parts| - 2;
      ProductStep(|parts| - 1, |sep|);
    } else if |parts| == 1 {
      assert parts[1..] == [];
    }
  }

  /** With a non-empty separator, a join is empty exactly when there is no
      part, or a single empty part. */
  lemma JoinEmptyIff(parts: seq<string>, sep: string)
    requires sep != ""
    ensures Join(parts, sep) == "" <==> |parts| == 0 || (|parts| == 1 && parts[0] == "")
  {
  }
}
