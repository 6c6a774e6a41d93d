/** The values the pipeline passes around: decoded JSON (what `json.loads` yields and what a
    record dict holds), records, and the reply objects of the generative-model service. */
module Data {
  import opened Text

  /** A decoded JSON value. Numbers are exact reals. */
  datatype Json =
    | JNull
    | JBool(b: bool)
    | JNum(n: real)
    | JStr(s: string)
    | JArr(items: seq<Json>)
    | JObj(fields: map<string, Json>)

  /** One lab-result record: a dict from field names (`Test`, `Value`, `ReferenceRange`,
      `Status`, `Category`, `Severity`, ...) to values. Key order is not modelled. */
  type Record = map<string, Json>

  /** `d.get(key, default)` on a dict. */
  function Get(d: Record, key: string, default: Json): (v: Json)
    ensures key in d ==> v == d[key]
    ensures key !in d ==> v == default
  {
    if key in d then d[key] else default
  }

  /** True when `d.get(key, '') == want` for a string `want`. */
  predicate FieldIs(d: Record, key: string, want: string) {
    key in d && d[key] == JStr(want)
  }

  /** Python's `key in container` for a string `key`: key membership for a dict, substring
      for a string, element equality for a list; None where Python raises TypeError
      (numbers, booleans, None). */
  function PyIn(key: string, container: Json): (r: Option<bool>)
    ensures r.None? <==> (container.JNull? || container.JBool? || container.JNum?)
    ensures container.JObj? ==> r == Some(key in container.fields)
  {
    match container
    case JObj(fields) => Some(key in fields)
    case JStr(s) => Some(IsInfix(key, s))
    case JArr(items) => Some(JStr(key) in items)
    case _ => None
  }

  /** A reply object of the generative-model service, by the shape the code probes for:
      one with a `.text` attribute, one with a `.parts` list of text fragments, and anything
      else, given by its `str(...)` rendering (a plain string renders as itself). */
  datatype Response =
    | HasText(text: string)
    | HasParts(parts: seq<string>)
    | Other(repr: string)

  /** Python truthiness of a reply: reply objects are truthy; a plain value is falsy when its
      rendering is empty (the empty string). */
  predicate Truthy(r: Response) {
    !(r.Other? && r.repr == [])
  }

  /** Each item rendered to its text, in order. */
  function RenderAll<P>(render: P -> string, ps: seq<P>): (r: seq<string>)
    ensures |r| == |ps| && forall i :: 0 <= i < |ps| ==> r[i] == render(ps[i])
  {
    seq(|ps|, i requires 0 <= i < |ps| => render(ps[i]))
  }

  /** `''.join(parts)`. */
  function Concat(parts: seq<string>): (r: string)
    ensures |parts| == 0 ==> r == []
  {
    if |parts| == 0 then [] else parts[0] + Concat(parts[1..])
  }

  /** Every fragment occurs in the concatenation, at the offset given by the fragments before
      it, and nothing else is added. */
  lemma {:induction false} ConcatParts(parts: seq<string>, k: nat)
    requires k < |parts|
    ensures Concat(parts) == Concat(parts[..k]) + parts[k] + Concat(parts[k + 1..])
    ensures OccursAt(parts[k], Concat(parts), |Concat(parts[..k])|)
  {
    if k == 0 {
      assert parts[..0] == [];
    } else {
      ConcatParts(parts[1..], k - 1);
      assert parts[1..][..k - 1] == parts[1..k];
      assert parts[1..][k..] == parts[k + 1..];
      assert parts[..k] == [parts[0]] + parts[1..k];
      assert Concat(parts[..k]) == parts[0] + Concat(parts[1..k]) by {
        assert ([parts[0]] + parts[1..k])[1..] == parts[1..k];
      }
      assert Concat(parts) == parts[0] + Concat(parts[1..]);
    }
    var pre := Concat(parts[..k]);
    assert (pre + parts[k] + Concat(parts[k + 1..]))[|pre|..|pre| + |parts[k]|] == parts[k];
  }

  /** The text the analysis reads from a reply: `.text` if it has one, else the joined
      `.parts`, else `str(...)`. */
  function TextOf(r: Response): (t: string)
    ensures r.HasText? ==> t == r.text
    ensures r.Other? ==> t == r.repr
    ensures r.HasParts? ==> t == Concat(r.parts)
    ensures r.HasParts? ==> forall k :: 0 <= k < |r.parts| ==> IsInfix(r.parts[k], t)
  {
    match r
    case HasText(text) => text
    case HasParts(parts) =>
      assert forall k :: 0 <= k < |parts| ==> IsInfix(parts[k], Concat(parts)) by {
        forall k | 0 <= k < |parts| ensures IsInfix(parts[k], Concat(parts)) {
          ConcatParts(parts, k);
        }
      }
      Concat(parts)
    case Other(repr) => repr
  }
}
