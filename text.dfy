/** Python string operations the lab-report pipeline relies on, stated over `seq<char>`.
    Only ASCII letters and digits are case-folded or treated as digits / word characters;
    white space is Python's `str.isspace` set. */
module Text {

  /** Python's `str.isspace` (the characters `str.strip()` and `str.split()` remove). */
  predicate IsSpace(c: char) {
    c == ' ' || ('\t' <= c <= '\r') || ('\U{1C}' <= c <= '\U{1F}') || c == '\U{85}' || c == '\U{A0}'
    || c == '\U{1680}' || ('\U{2000}' <= c <= '\U{200A}') || c == '\U{2028}' || c == '\U{2029}'
    || c == '\U{202F}' || c == '\U{205F}' || c == '\U{3000}'
  }

  predicate IsDigit(c: char) { '0' <= c <= '9' }

  /** ASCII approximation of the regular-expression class `\w`. */
  predicate IsWordChar(c: char) {
    IsDigit(c) || ('a' <= c <= 'z') || ('A' <= c <= 'Z') || c == '_'
  }

  function LowerChar(c: char): char {
    if 'A' <= c <= 'Z' then (c as int + 32) as char else c
  }

  /** `s.lower()`, for ASCII letters. */
  function Lower(s: string): (r: string)
    ensures |r| == |s|
    ensures forall i :: 0 <= i < |s| ==> r[i] == LowerChar(s[i])
  {
    seq(|s|, i requires 0 <= i < |s| => LowerChar(s[i]))
  }

  predicate IsLowerCase(s: string) {
    forall i :: 0 <= i < |s| ==> !('A' <= s[i] <= 'Z')
  }

  lemma LowerOfLowerCase(s: string)
    requires IsLowerCase(s)
    ensures Lower(s) == s
  {
  }

  predicate IsPrefix(p: string, s: string) {
    |p| <= |s| && s[..|p|] == p
  }

  /** `p in s` for two strings: `p` occurs in `s` as a contiguous substring. */
  predicate IsInfix(p: string, s: string) {
    exists i | 0 <= i <= |s| - |p| :: OccursAt(p, s, i)
  }

  /** `p` occurs in `s` starting at index `i`. */
  predicate OccursAt(p: string, s: string, i: int) {
    0 <= i <= |s| - |p| && s[i..i + |p|] == p
  }

  /** A string that has a character `s` lacks never occurs in `s`. */
  lemma NotInfixMissingChar(p: string, s: string, k: nat)
    requires k < |p| && p[k] !in s
    ensures !IsInfix(p, s)
  {
    forall i | 0 <= i <= |s| - |p| ensures !OccursAt(p, s, i) {
      assert s[i..i + |p|][k] == s[i + k];
    }
  }

  /** The string without its leading white space. */
  function StripLeft(s: string): (r: string)
    ensures |r| <= |s| && r == s[|s| - |r|..]
    ensures r == [] || !IsSpace(r[0])
    ensures forall i :: 0 <= i < |s| - |r| ==> IsSpace(s[i])
  {
    if |s| > 0 && IsSpace(s[0]) then StripLeft(s[1..]) else s
  }

  /** The string without its trailing white space. */
  function StripRight(s: string): (r: string)
    ensures |r| <= |s| && r == s[..|r|]
    ensures r == [] || !IsSpace(r[|r| - 1])
    ensures forall i :: |r| <= i < |s| ==> IsSpace(s[i])
  {
    if |s| > 0 && IsSpace(s[|s| - 1]) then StripRight(s[..|s| - 1]) else s
  }

  /** `s.strip()`. */
  function Strip(s: string): (r: string)
    ensures r == [] || (!IsSpace(r[0]) && !IsSpace(r[|r| - 1]))
    ensures |r| <= |s|
    ensures exists i, j :: 0 <= i <= j <= |s| && r == s[i..j] && AllSpace(s[..i]) && AllSpace(s[j..])
  {
    var l := StripLeft(s);
    var r := StripRight(l);
    var i := |s| - |l|;
    assert r == s[i..i + |r|];
    assert AllSpace(s[..i]);
    assert AllSpace(s[i + |r|..]) by {
      var tail := s[i + |r|..];
      forall k | 0 <= k < |tail| ensures IsSpace(tail[k]) {
        assert tail[k] == l[|r| + k];
      }
    }
    r
  }

  predicate AllSpace(s: string) {
    forall i :: 0 <= i < |s| ==> IsSpace(s[i])
  }

  /** A string strips to nothing exactly when it is all white space. */
  lemma {:induction false} StripEmptyIffAllSpace(s: string)
    ensures Strip(s) == [] <==> AllSpace(s)
  {
    var l := StripLeft(s);
    if l != [] {
      assert !IsSpace(s[|s| - |l|]);
    }
  }

  /** Index of the first occurrence of `c` in `s`, as Python's `s.find(c)` (None for -1). */
  function Find(s: string, c: char): (r: Option<nat>)
    ensures r.None? <==> c !in s
    ensures r.Some? ==> r.value < |s| && s[r.value] == c && c !in s[..r.value]
  {
    if |s| == 0 then None
    else if s[0] == c then Some(0)
    else match Find(s[1..], c)
      case None => None
      case Some(k) => Some(k + 1)
  }

  /** Index of the last occurrence of `c` in `s`, as Python's `s.rfind(c)` (None for -1). */
  function RFind(s: string, c: char): (r: Option<nat>)
    ensures r.None? <==> c !in s
    ensures r.Some? ==> r.value < |s| && s[r.value] == c && c !in s[r.value + 1..]
  {
    if |s| == 0 then None
    else if s[|s| - 1] == c then Some(|s| - 1)
    else RFind(s[..|s| - 1], c)
  }

  datatype Option<+T> = None | Some(value: T) {
    function GetOr(default: T): T {
      match this
      case Some(v) => v
      case None => default
    }
  }

  /** `s.split(c)`: the pieces of `s` between occurrences of `c`; always at least one piece. */
  function Split(s: string, c: char): (r: seq<string>)
    ensures |r| >= 1
    ensures forall k :: 0 <= k < |r| ==> c !in r[k]
    ensures c !in s ==> r == [s]
  {
    match Find(s, c)
    case None => [s]
    case Some(i) => [s[..i]] + Split(s[i + 1..], c)
  }

  /** `c.join(parts)`. */
  function Join(parts: seq<string>, c: char): string {
    if |parts| == 0 then []
    else if |parts| == 1 then parts[0]
    else parts[0] + [c] + Join(parts[1..], c)
  }

  /** Joining the pieces of a split gives back the original string. */
  lemma {:induction false} JoinSplit(s: string, c: char)
    ensures Join(Split(s, c), c) == s
    decreases |s|
  {
    match Find(s, c)
    case None =>
      assert Split(s, c) == [s];
    case Some(i) =>
      var rest := Split(s[i + 1..], c);
      JoinSplit(s[i + 1..], c);
      SplitAt(s, c, i);
      JoinCons(s[..i], rest, c);
      Reassemble(s, i, c);
  }

  lemma Reassemble(s: string, i: nat, c: char)
    requires i < |s| && s[i] == c
    ensures s[..i] + [c] + s[i + 1..] == s
  {
  }

  lemma SplitAt(s: string, c: char, i: nat)
    requires Find(s, c) == Some(i)
    ensures Split(s, c) == [s[..i]] + Split(s[i + 1..], c)
  {
  }

  lemma JoinCons(p: string, rest: seq<string>, c: char)
    requires |rest| >= 1
    ensures Join([p] + rest, c) == p + [c] + Join(rest, c)
  {
    assert ([p] + rest)[1..] == rest;
  }

  /** The number of occurrences of `c` in `s`. */
  function Count(s: string, c: char): nat {
    if |s| == 0 then 0 else (if s[0] == c then 1 else 0) + Count(s[1..], c)
  }

  lemma CountAppend(a: string, b: string, c: char)
    ensures Count(a + b, c) == Count(a, c) + Count(b, c)
  {
    if |a| == 0 {
      assert a + b == b;
    } else {
      assert (a + b)[1..] == a[1..] + b;
      CountAppend(a[1..], b, c);
    }
  }

  lemma CountZero(s: string, c: char)
    ensures Count(s, c) == 0 <==> c !in s
  {
  }

  /** The number of pieces of a split is one more than the number of separators. */
  lemma {:induction false} SplitLength(s: string, c: char)
    ensures |Split(s, c)| == Count(s, c) + 1
  {
    match Find(s, c)
    case None => CountZero(s, c);
    case Some(i) =>
      SplitLength(s[i + 1..], c);
      assert |Split(s, c)| == 1 + |Split(s[i + 1..], c)|;
      assert s == s[..i] + ([c] + s[i + 1..]);
      CountAppend(s[..i], [c] + s[i + 1..], c);
      CountAppend([c], s[i + 1..], c);
      assert [c][1..] == [];
      CountZero(s[..i], c);
  }

  /** The first white-space separated token of `s` (`s.split()[0]`); None when there is none,
      where Python raises IndexError. */
  function FirstToken(s: string): (r: Option<string>)
    ensures r.None? <==> AllSpace(s)
    ensures r.Some? ==> r.value != [] && IsInfix(r.value, s) && forall i :: 0 <= i < |r.value| ==> !IsSpace(r.value[i])
    ensures r.Some? ==> exists i :: OccursAt(r.value, s, i) && AllSpace(s[..i]) &&
                                    (i + |r.value| == |s| || IsSpace(s[i + |r.value|]))
  {
    var t := StripLeft(s);
    if t == [] then None
    else
      var w := TakeNonSpace(t);
      var i := |s| - |t|;
      assert OccursAt(w, s, i);
      assert AllSpace(s[..i]);
      assert i + |w| < |s| ==> s[i + |w|] == t[|w|];
      assert w != [] by { assert w == [t[0]] + TakeNonSpace(t[1..]); }
      Some(w)
  }

  /** The longest prefix of `s` without white space. */
  function TakeNonSpace(s: string): (r: string)
    ensures |r| <= |s| && r == s[..|r|]
    ensures forall i :: 0 <= i < |r| ==> !IsSpace(r[i])
    ensures |r| == |s| || IsSpace(s[|r|])
  {
    if |s| == 0 || IsSpace(s[0]) then [] else [s[0]] + TakeNonSpace(s[1..])
  }

  /** The longest prefix of `s` made of ASCII digits. */
  function TakeDigits(s: string): (r: string)
    ensures |r| <= |s| && r == s[..|r|]
    ensures forall i :: 0 <= i < |r| ==> IsDigit(r[i])
    ensures |r| == |s| || !IsDigit(s[|r|])
  {
    if |s| == 0 || !IsDigit(s[0]) then [] else [s[0]] + TakeDigits(s[1..])
  }

  predicate AllDigits(s: string) {
    forall i :: 0 <= i < |s| ==> IsDigit(s[i])
  }

  /** The value of a string of decimal digits (`int(s)`). */
  function DigitsValue(s: string): nat
    requires AllDigits(s)
  {
    if |s| == 0 then 0 else DigitsValue(s[..|s| - 1]) * 10 + (s[|s| - 1] as int - '0' as int)
  }

  function Pow10(n: nat): (r: nat)
    ensures r >= 1
  {
    if n == 0 then 1 else 10 * Pow10(n - 1)
  }

  /** Python's `float(s)` on finite decimal literals: surrounding white space, an optional sign,
      digits with an optional fraction (at least one digit in all) and an optional exponent.
      None where Python raises ValueError. */
  function ParseFloat(s: string): Option<real> {
    var t := Strip(s);
    if |t| > 0 && t[0] == '-' then
      match ParseUnsigned(t[1..]) case Some(x) => Some(-x) case None => None
    else if |t| > 0 && t[0] == '+' then ParseUnsigned(t[1..])
    else ParseUnsigned(t)
  }

  /** An unsigned literal: integer digits, then the rest. */
  function ParseUnsigned(u: string): Option<real> {
    var ip := TakeDigits(u);
    ParseAfterInteger(ip, u[|ip|..])
  }

  /** What follows the integer digits: an optional `.` with fraction digits, then the
      exponent suffix. */
  function ParseAfterInteger(ip: string, rest: string): Option<real>
    requires AllDigits(ip)
  {
    if |rest| > 0 && rest[0] == '.' then
      var fp := TakeDigits(rest[1..]);
      ParseScaled(ip, fp, rest[1 + |fp|..])
    else ParseScaled(ip, [], rest)
  }

  /** The value `ip.fp` scaled by the exponent suffix `exp`; at least one digit is required. */
  function ParseScaled(ip: string, fp: string, exp: string): Option<real>
    requires AllDigits(ip) && AllDigits(fp)
  {
    if |ip| + |fp| == 0 then None
    else
      var mantissa := DigitsValue(ip) as real + DigitsValue(fp) as real / Pow10(|fp|) as real;
      match ParseExponent(exp)
      case None => None
      case Some(e) => Some(if e >= 0 then mantissa * Pow10(e) as real else mantissa / Pow10(-e) as real)
  }

  /** The exponent suffix of a float literal: empty (0) or `e`/`E`, an optional sign and digits. */
  function ParseExponent(s: string): Option<int> {
    if |s| == 0 then Some(0)
    else if s[0] != 'e' && s[0] != 'E' then None
    else
      var (neg, u) :=
        if |s| > 1 && (s[1] == '+' || s[1] == '-') then (s[1] == '-', s[2..]) else (false, s[1..]);
      if |u| == 0 || !AllDigits(u) then None
      else Some(if neg then -(DigitsValue(u) as int) else DigitsValue(u))
  }

  /** Characters that can occur in a literal `float()` accepts (after stripping). */
  predicate FloatChar(c: char) {
    IsDigit(c) || c == '+' || c == '-' || c == '.' || c == 'e' || c == 'E'
  }

  /** A string that neither starts nor ends with white space strips to itself. */
  lemma StripUnpadded(s: string)
    requires s == [] || (!IsSpace(s[0]) && !IsSpace(s[|s| - 1]))
    ensures Strip(s) == s
  {
  }

  /** A character that is not white space survives stripping. */
  lemma StripKeeps(s: string, k: nat)
    requires k < |s| && !IsSpace(s[k])
    ensures s[k] in Strip(s)
  {
    var l := StripLeft(s);
    assert k >= |s| - |l|;
    assert l[k - (|s| - |l|)] == s[k];
    var r := StripRight(l);
    assert k - (|s| - |l|) < |r|;
    assert r[k - (|s| - |l|)] == s[k];
  }

  /** A non-empty digit string parses to its decimal value. */
  lemma ParseFloatDigits(s: string)
    requires s != [] && AllDigits(s)
    ensures ParseFloat(s) == Some(DigitsValue(s) as real)
  {
    StripUnpadded(s);
    ParseFloatUnsigned(s);
    TakeAllDigits(s);
    ParseUnsignedWhole(s);
    ScaledWhole(s);
  }

  lemma ParseFloatUnsigned(s: string)
    requires Strip(s) == s && (s == [] || (s[0] != '-' && s[0] != '+'))
    ensures ParseFloat(s) == ParseUnsigned(s)
  {
  }

  lemma ParseUnsignedWhole(s: string)
    requires AllDigits(s) && TakeDigits(s) == s
    ensures ParseUnsigned(s) == ParseScaled(s, [], [])
  {
    DropAll(s);
    assert ParseAfterInteger(s, []) == ParseScaled(s, [], []);
  }

  lemma DropAll(s: string)
    ensures s[|s|..] == []
  {
  }

  lemma ScaledWhole(ip: string)
    requires ip != [] && AllDigits(ip)
    ensures ParseScaled(ip, [], []) == Some(DigitsValue(ip) as real)
  {
    assert DigitsValue([]) == 0 && Pow10(0) == 1;
    assert ParseExponent([]) == Some(0);
  }

  lemma {:induction false} TakeAllDigits(s: string)
    requires AllDigits(s)
    ensures TakeDigits(s) == s
  {
    if |s| > 0 {
      TakeAllDigits(s[1..]);
      assert s == [s[0]] + s[1..];
    }
  }

  /** Every character of an accepted exponent suffix is a float character. */
  lemma ParseExponentChars(s: string)
    requires ParseExponent(s).Some?
    ensures forall k :: 0 <= k < |s| ==> FloatChar(s[k])
  {
  }

  /** Every character after the integer digits of an accepted literal is a float character. */
  lemma ParseAfterIntegerChars(ip: string, rest: string)
    requires AllDigits(ip) && ParseAfterInteger(ip, rest).Some?
    ensures forall k :: 0 <= k < |rest| ==> FloatChar(rest[k])
  {
    if |rest| > 0 && rest[0] == '.' {
      var fp := TakeDigits(rest[1..]);
      var exp := rest[1 + |fp|..];
      ParseExponentChars(exp);
      assert rest == ['.'] + fp + exp;
    } else {
      ParseExponentChars(rest);
    }
  }

  /** Every character of an accepted unsigned literal is a float character. */
  lemma ParseUnsignedChars(u: string)
    requires ParseUnsigned(u).Some?
    ensures forall k :: 0 <= k < |u| ==> FloatChar(u[k])
  {
    var ip := TakeDigits(u);
    ParseAfterIntegerChars(ip, u[|ip|..]);
    assert u == ip + u[|ip|..];
  }

  /** Every character of an accepted literal, once stripped, is a float character. */
  lemma ParseFloatChars(s: string)
    requires ParseFloat(s).Some?
    ensures forall k :: 0 <= k < |Strip(s)| ==> FloatChar(Strip(s)[k])
  {
    var t := Strip(s);
    if |t| > 0 && (t[0] == '-' || t[0] == '+') {
      ParseUnsignedChars(t[1..]);
      assert forall k :: 1 <= k < |t| ==> t[k] == t[1..][k - 1];
    } else {
      ParseUnsignedChars(t);
    }
  }

  /** `float()` rejects any text holding a character, other than white space, that no float
      literal contains (a unit such as `g/dL`, a comparison sign such as `<`). */
  lemma ParseFloatForeign(s: string, k: nat)
    requires k < |s| && !FloatChar(s[k]) && !IsSpace(s[k])
    ensures ParseFloat(s).None?
  {
    StripKeeps(s, k);
    if ParseFloat(s).Some? {
      ParseFloatChars(s);
    }
  }

  /** A character other than the separator lands in some piece of the split. */
  lemma {:induction false} SplitCovers(s: string, c: char, k: nat)
    requires k < |s| && s[k] != c
    ensures exists j :: 0 <= j < |Split(s, c)| && s[k] in Split(s, c)[j]
  {
    match Find(s, c)
    case None =>
      assert s[k] in Split(s, c)[0];
    case Some(i) =>
      if k < i {
        assert s[k] == s[..i][k];
        assert s[k] in Split(s, c)[0];
      } else {
        assert k > i;
        SplitCovers(s[i + 1..], c, k - i - 1);
        var tail := Split(s[i + 1..], c);
        var j :| 0 <= j < |tail| && s[i + 1..][k - i - 1] in tail[j];
        assert Split(s, c) == [s[..i]] + tail;
        assert s[k] == s[i + 1..][k - i - 1];
        assert Split(s, c)[j + 1] == tail[j];
      }
  }

  /** Splitting `a + [c] + b` where neither part holds `c` gives exactly the two parts. */
  lemma SplitTwo(a: string, b: string, c: char)
    requires c !in a && c !in b
    ensures Split(a + [c] + b, c) == [a, b]
  {
    var s := a + [c] + b;
    assert s[|a|] == c;
    assert s[..|a|] == a;
    assert s[|a| + 1..] == b;
    assert Find(s, c) == Some(|a|);
  }

  /** A string with `c` at two distinct positions splits into at least three pieces. */
  lemma SplitAtLeastThree(s: string, c: char, i: nat, j: nat)
    requires i < j < |s| && s[i] == c && s[j] == c
    ensures |Split(s, c)| >= 3
  {
    SplitLength(s, c);
    assert s == s[..j] + s[j..];
    CountAppend(s[..j], s[j..], c);
    assert s[..j][i] == c;
    assert s[j..][0] == c;
    CountZero(s[..j], c);
    CountZero(s[j..], c);
  }

  /** The first token of a non-empty text without white space is the whole text. */
  lemma FirstTokenWhole(s: string)
    requires s != [] && forall i :: 0 <= i < |s| ==> !IsSpace(s[i])
    ensures FirstToken(s) == Some(s)
  {
    TakeWhole(s);
  }

  lemma {:induction false} TakeWhole(s: string)
    requires forall i :: 0 <= i < |s| ==> !IsSpace(s[i])
    ensures TakeNonSpace(s) == s
  {
    if |s| > 0 {
      TakeWhole(s[1..]);
      assert s == [s[0]] + s[1..];
    }
  }

  /** `s.split(sep)[0]` for a non-empty separator string: the text before the first
      occurrence of `sep`, or all of `s` when `sep` does not occur. */
  function BeforeFirst(s: string, sep: string): (r: string)
    requires |sep| > 0
    ensures IsPrefix(r, s)
    ensures !IsInfix(sep, s) ==> r == s
    ensures forall i :: 0 <= i < |r| ==> !OccursAt(sep, s, i)
    ensures |r| < |s| ==> OccursAt(sep, s, |r|)
  {
    if |s| < |sep| then s
    else if s[..|sep|] == sep then assert OccursAt(sep, s, 0); []
    else
      var rest := BeforeFirst(s[1..], sep);
      BeforeFirstStep(s, sep, rest);
      [s[0]] + rest
  }

  /** One step of `BeforeFirst`: when `sep` does not start `s`, the text before its first
      occurrence in `s` is the first character followed by the text before it in `s[1..]`. */
  lemma BeforeFirstStep(s: string, sep: string, rest: string)
    requires 0 < |sep| <= |s| && s[..|sep|] != sep
    requires IsPrefix(rest, s[1..])
    requires forall i :: 0 <= i < |rest| ==> !OccursAt(sep, s[1..], i)
    requires |rest| < |s[1..]| ==> OccursAt(sep, s[1..], |rest|)
    ensures IsPrefix([s[0]] + rest, s)
    ensures forall i :: 0 <= i < |rest| + 1 ==> !OccursAt(sep, s, i)
    ensures |rest| + 1 < |s| ==> OccursAt(sep, s, |rest| + 1)
  {
    var r := [s[0]] + rest;
    assert s[..|r|] == [s[0]] + s[1..][..|rest|];
    forall i | 0 <= i < |r| ensures !OccursAt(sep, s, i) {
      if i == 0 {
        assert s[0..|sep|] == s[..|sep|];
      } else if i <= |s| - |sep| {
        assert !OccursAt(sep, s[1..], i - 1);
        assert s[i..i + |sep|] == s[1..][i - 1..i - 1 + |sep|];
      }
    }
    if |r| < |s| {
      assert s[|r|..|r| + |sep|] == s[1..][|rest|..|rest| + |sep|];
    }
  }

  /** Split on one character: the text before its first occurrence holds no such character
      and is followed by it, unless it is the whole text. */
  lemma BeforeFirstOne(s: string, c: char)
    ensures c !in BeforeFirst(s, [c])
    ensures |BeforeFirst(s, [c])| < |s| ==> s[|BeforeFirst(s, [c])|] == c
  {
    var r := BeforeFirst(s, [c]);
    forall i | 0 <= i < |r| ensures r[i] != c {
      assert !OccursAt([c], s, i);
      assert s[i..i + 1] == [s[i]];
    }
    if |r| < |s| {
      assert OccursAt([c], s, |r|);
      assert s[|r|..|r| + 1] == [s[|r|]];
    }
  }

}
