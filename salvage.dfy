/** How `analyze_lab_report` turns the extraction reply into text `json.loads` may accept:
    cutting a JSON array out of surrounding prose, and the two regular-expression rewrites
    tried when the first parse fails. */
module Salvage {
  import opened Text

  /** Lines 235-241, on the stripped reply text: a text that starts with `[` is kept;
      otherwise the slice from the first `[` to the last `]`, both included (empty when the
      last `]` comes before the first `[`); None when either bracket is missing. */
  function SalvageArray(t: string): (r: Option<string>)
    ensures r.Some? ==> IsInfix(r.value, t)
    ensures r.Some? && !IsPrefix("[", t) && r.value != [] ==> r.value[0] == '[' && r.value[|r.value| - 1] == ']'
  {
    if IsPrefix("[", t) then
      assert OccursAt(t, t, 0);
      Some(t)
    else if '[' !in t || ']' !in t then None
    else
      var start, end := Find(t, '[').value, RFind(t, ']').value;
      if start <= end then
        assert OccursAt(t[start..end + 1], t, start);
        Some(t[start..end + 1])
      else
        assert OccursAt([], t, 0);
        Some([])
  }

  /** A reply that opens with `[` is kept whole; one that lacks either bracket is given up. */
  lemma SalvageCases(t: string)
    ensures IsPrefix("[", t) ==> SalvageArray(t) == Some(t)
    ensures SalvageArray(t).None? <==> !IsPrefix("[", t) && ('[' !in t || ']' !in t)
  {
  }

  /** What is cut out lies between the first `[` and the last `]` of the reply. */
  lemma SalvageBounds(t: string)
    requires !IsPrefix("[", t) && '[' in t && ']' in t
    ensures Find(t, '[').value <= RFind(t, ']').value ==>
      SalvageArray(t) == Some(t[Find(t, '[').value..RFind(t, ']').value + 1])
    ensures RFind(t, ']').value < Find(t, '[').value ==> SalvageArray(t) == Some([])
  {
    var start, end := Find(t, '[').value, RFind(t, ']').value;
    assert !IsPrefix("[", t);
    assert !('[' !in t || ']' !in t);
    if start <= end {
      assert SalvageArray(t) == Some(t[start..end + 1]);
    } else {
      assert SalvageArray(t) == Some([]);
    }
  }

  /** The salvaged text is a piece of the reply that opens with `[` and, when it was cut out,
      closes with `]`. */
  lemma SalvageShape(t: string)
    requires SalvageArray(t).Some?
    ensures IsInfix(SalvageArray(t).value, t)
    ensures SalvageArray(t).value != [] ==> SalvageArray(t).value[0] == '['
    ensures SalvageArray(t).value != [] && !IsPrefix("[", t) ==>
      SalvageArray(t).value[|SalvageArray(t).value| - 1] == ']'
  {
    if IsPrefix("[", t) {
      assert OccursAt(t, t, 0);
    } else {
      BracketSlice(t, Find(t, '[').value, RFind(t, ']').value);
    }
  }

  /** The slice from an opening bracket to a closing one lies in the text and keeps both. */
  lemma BracketSlice(t: string, start: nat, end: nat)
    requires start < |t| && end < |t| && t[start] == '[' && t[end] == ']'
    ensures var r := if start <= end then t[start..end + 1] else [];
      IsInfix(r, t) && (r != [] ==> r[0] == '[' && r[|r| - 1] == ']')
  {
    if start <= end {
      assert OccursAt(t[start..end + 1], t, start);
    } else {
      assert OccursAt([], t, 0);
    }
  }

  /** Salvaging a salvaged array changes nothing. */
  lemma SalvageIdempotent(t: string)
    requires SalvageArray(t).Some? && SalvageArray(t).value != []
    ensures SalvageArray(SalvageArray(t).value) == SalvageArray(t)
  {
    SalvageShape(t);
  }

  /** The longest prefix of `s` made of word characters. */
  function TakeWord(s: string): (r: string)
    ensures |r| <= |s| && r == s[..|r|]
    ensures forall i :: 0 <= i < |r| ==> IsWordChar(r[i])
    ensures |r| == |s| || !IsWordChar(s[|r|])
  {
    if |s| == 0 || !IsWordChar(s[0]) then [] else [s[0]] + TakeWord(s[1..])
  }

  /** No word character stands right before a colon: no key is left bare. */
  predicate NoBareKey(s: string) {
    forall i :: 0 < i < |s| && s[i] == ':' ==> !IsWordChar(s[i - 1])
  }

  lemma NoBareKeyConcat(a: string, b: string)
    requires NoBareKey(a) && NoBareKey(b)
    requires |a| == 0 || |b| == 0 || b[0] != ':' || !IsWordChar(a[|a| - 1])
    ensures NoBareKey(a + b)
  {
    var s := a + b;
    forall i | 0 < i < |s| && s[i] == ':'
      ensures !IsWordChar(s[i - 1])
    {
      if i > |a| {
        assert s[i] == b[i - |a|] && s[i - 1] == b[i - 1 - |a|];
      } else if i < |a| {
        assert s[i] == a[i] && s[i - 1] == a[i - 1];
      }
    }
  }

  /** A key in double quotes, with its colon. */
  function QuotedKey(w: string): string {
    "\"" + w + "\":"
  }

  /** `re.sub(r'(\w+):', r'"\1":', s)`. The pattern can only match a whole maximal run of word
      characters followed by a colon (backtracking to a shorter run leaves a word character,
      not a colon, next), so each such run is put in double quotes; the scan resumes after the
      colon. */
  function QuoteKeys(s: string): (r: string)
    ensures |s| <= |r|
    decreases |s|
  {
    if s == [] then []
    else
      var w := TakeWord(s);
      if |w| > 0 && |w| < |s| && s[|w|] == ':' then QuotedKey(w) + QuoteKeys(s[|w| + 1..])
      else if |w| > 0 then w + QuoteKeys(s[|w|..])
      else [s[0]] + QuoteKeys(s[1..])
  }

  /** The three steps of the rewrite, one lemma each. */
  lemma QuoteKeysKey(s: string)
    requires |TakeWord(s)| > 0 && |TakeWord(s)| < |s| && s[|TakeWord(s)|] == ':'
    ensures QuoteKeys(s) == QuotedKey(TakeWord(s)) + QuoteKeys(s[|TakeWord(s)| + 1..])
  {
    assert s != [];
  }

  lemma QuoteKeysRun(s: string)
    requires |TakeWord(s)| > 0 && !(|TakeWord(s)| < |s| && s[|TakeWord(s)|] == ':')
    ensures QuoteKeys(s) == TakeWord(s) + QuoteKeys(s[|TakeWord(s)|..])
  {
    assert s != [];
  }

  lemma QuoteKeysOther(s: string)
    requires s != [] && |TakeWord(s)| == 0
    ensures QuoteKeys(s) == [s[0]] + QuoteKeys(s[1..])
  {
    assert s != [];
  }

  /** The rewrite keeps the first character, or puts a double quote before a leading key. */
  lemma QuoteKeysFirst(s: string)
    requires s != []
    ensures |QuoteKeys(s)| > 0
    ensures QuoteKeys(s)[0] == s[0] || (IsWordChar(s[0]) && QuoteKeys(s)[0] == '"')
  {
    var w := TakeWord(s);
    if |w| > 0 && |w| < |s| && s[|w|] == ':' {
      QuoteKeysKey(s);
    } else if |w| > 0 {
      QuoteKeysRun(s);
      assert w[0] == s[0];
    } else {
      QuoteKeysOther(s);
    }
  }

  lemma QuotedKeyNoBareKey(w: string)
    requires forall i :: 0 <= i < |w| ==> IsWordChar(w[i])
    ensures NoBareKey(QuotedKey(w))
    ensures QuotedKey(w)[|QuotedKey(w)| - 1] == ':' && QuotedKey(w)[|QuotedKey(w)| - 2] == '"'
  {
    var head := QuotedKey(w);
    assert forall j :: 1 <= j <= |w| ==> head[j] == w[j - 1];
    forall i | 0 < i < |head| && head[i] == ':' ensures !IsWordChar(head[i - 1]) {
      assert i == |head| - 1;
    }
  }

  /** After the rewrite no key is left bare. */
  lemma {:induction false} QuoteKeysNoBareKey(s: string)
    ensures NoBareKey(QuoteKeys(s))
    decreases |s|
  {
    if s != [] {
      var w := TakeWord(s);
      if |w| > 0 && |w| < |s| && s[|w|] == ':' {
        QuoteKeysKey(s);
        QuoteKeysNoBareKey(s[|w| + 1..]);
        QuotedKeyNoBareKey(w);
        NoBareKeyConcat(QuotedKey(w), QuoteKeys(s[|w| + 1..]));
      } else if |w| > 0 {
        QuoteKeysRun(s);
        QuoteKeysNoBareKey(s[|w|..]);
        if |w| < |s| {
          QuoteKeysFirst(s[|w|..]);
        }
        NoBareKeyConcat(w, QuoteKeys(s[|w|..]));
      } else {
        QuoteKeysOther(s);
        QuoteKeysNoBareKey(s[1..]);
        NoBareKeyConcat([s[0]], QuoteKeys(s[1..]));
      }
    }
  }

  lemma NoBareKeySuffix(s: string, k: nat)
    requires NoBareKey(s) && k <= |s|
    ensures NoBareKey(s[k..])
  {
    var t := s[k..];
    forall i | 0 < i < |t| && t[i] == ':' ensures !IsWordChar(t[i - 1]) {
      assert t[i] == s[k + i] && t[i - 1] == s[k + i - 1];
    }
  }

  /** A text whose keys are all quoted is left unchanged by the key rewrite. */
  lemma {:induction false} QuoteKeysFixed(s: string)
    requires NoBareKey(s)
    ensures QuoteKeys(s) == s
    decreases |s|
  {
    if s != [] {
      var w := TakeWord(s);
      assert |w| > 0 && |w| < |s| ==> s[|w|] != ':' by {
        if |w| > 0 && |w| < |s| {
          assert IsWordChar(s[|w| - 1]) by { assert s[|w| - 1] == w[|w| - 1]; }
        }
      }
      if |w| > 0 {
        QuoteKeysRun(s);
        NoBareKeySuffix(s, |w|);
        QuoteKeysFixed(s[|w|..]);
        assert s == w + s[|w|..];
      } else {
        QuoteKeysOther(s);
        NoBareKeySuffix(s, 1);
        QuoteKeysFixed(s[1..]);
        assert s == [s[0]] + s[1..];
      }
    }
  }

  /** Rewriting the keys twice is rewriting them once. */
  lemma QuoteKeysIdempotent(s: string)
    ensures QuoteKeys(QuoteKeys(s)) == QuoteKeys(s)
  {
    QuoteKeysNoBareKey(s);
    QuoteKeysFixed(QuoteKeys(s));
  }

  /** `s` with every double quote removed. */
  function Unquoted(s: string): string {
    if s == [] then [] else (if s[0] == '"' then [] else [s[0]]) + Unquoted(s[1..])
  }

  lemma {:induction false} UnquotedAppend(a: string, b: string)
    ensures Unquoted(a + b) == Unquoted(a) + Unquoted(b)
    decreases |a|
  {
    if a == [] {
      assert a + b == b;
    } else {
      assert (a + b)[1..] == a[1..] + b;
      UnquotedAppend(a[1..], b);
    }
  }

  /** Removing the quotes of a quoted key gives back the bare key. */
  lemma UnquotedKey(w: string)
    requires forall i :: 0 <= i < |w| ==> IsWordChar(w[i])
    ensures Unquoted(QuotedKey(w)) == w + ":"
  {
    UnquotedNoQuote(w);
    UnquotedAppend("\"" + w, "\":");
    UnquotedAppend("\"", w);
    assert Unquoted("\"") == [] by { assert "\""[1..] == []; }
    assert Unquoted("\":") == ":" by {
      assert "\":"[1..] == ":";
      assert ":"[1..] == [];
    }
  }

  lemma UnquotedKeyStep(s: string)
    requires |TakeWord(s)| > 0 && |TakeWord(s)| < |s| && s[|TakeWord(s)|] == ':'
    requires Unquoted(QuoteKeys(s[|TakeWord(s)| + 1..])) == Unquoted(s[|TakeWord(s)| + 1..])
    ensures Unquoted(QuoteKeys(s)) == Unquoted(s)
  {
    var w := TakeWord(s);
    var tail := s[|w| + 1..];
    calc {
      Unquoted(QuoteKeys(s));
      { QuoteKeysKey(s); }
      Unquoted(QuotedKey(w) + QuoteKeys(tail));
      { UnquotedAppend(QuotedKey(w), QuoteKeys(tail)); }
      Unquoted(QuotedKey(w)) + Unquoted(QuoteKeys(tail));
      { UnquotedKey(w); }
      (w + ":") + Unquoted(tail);
      { UnquotedNoQuote(w + ":"); }
      Unquoted(w + ":") + Unquoted(tail);
      { UnquotedAppend(w + ":", tail); }
      Unquoted((w + ":") + tail);
      { KeyThenTail(s, w); }
      Unquoted(s);
    }
  }

  lemma KeyThenTail(s: string, w: string)
    requires |w| < |s| && w == s[..|w|] && s[|w|] == ':'
    ensures s == (w + ":") + s[|w| + 1..]
  {
    Reassemble(s, |w|, ':');
  }

  lemma WordThenRest(s: string, w: string)
    requires |w| <= |s| && w == s[..|w|]
    ensures s == w + s[|w|..]
  {
  }

  lemma UnquotedRunStep(s: string)
    requires |TakeWord(s)| > 0 && !(|TakeWord(s)| < |s| && s[|TakeWord(s)|] == ':')
    requires Unquoted(QuoteKeys(s[|TakeWord(s)|..])) == Unquoted(s[|TakeWord(s)|..])
    ensures Unquoted(QuoteKeys(s)) == Unquoted(s)
  {
    var w := TakeWord(s);
    var rest := s[|w|..];
    QuoteKeysRun(s);
    UnquotedAppend(w, QuoteKeys(rest));
    WordThenRest(s, w);
    UnquotedAppend(w, rest);
  }

  lemma UnquotedOtherStep(s: string)
    requires s != [] && |TakeWord(s)| == 0
    requires Unquoted(QuoteKeys(s[1..])) == Unquoted(s[1..])
    ensures Unquoted(QuoteKeys(s)) == Unquoted(s)
  {
    QuoteKeysOther(s);
    UnquotedAppend([s[0]], QuoteKeys(s[1..]));
    assert ([s[0]] + QuoteKeys(s[1..]))[1..] == QuoteKeys(s[1..]);
  }

  /** The key rewrite only inserts double quotes: removing them gives back the input. */
  lemma {:induction false} QuoteKeysOnlyAddsQuotes(s: string)
    ensures Unquoted(QuoteKeys(s)) == Unquoted(s)
    decreases |s|
  {
    if s != [] {
      var w := TakeWord(s);
      if |w| > 0 && |w| < |s| && s[|w|] == ':' {
        QuoteKeysOnlyAddsQuotes(s[|w| + 1..]);
        UnquotedKeyStep(s);
      } else if |w| > 0 {
        QuoteKeysOnlyAddsQuotes(s[|w|..]);
        UnquotedRunStep(s);
      } else {
        QuoteKeysOnlyAddsQuotes(s[1..]);
        UnquotedOtherStep(s);
      }
    }
  }

  lemma {:induction false} UnquotedNoQuote(s: string)
    requires forall i :: 0 <= i < |s| ==> s[i] != '"'
    ensures Unquoted(s) == s
    decreases |s|
  {
    if s != [] {
      UnquotedNoQuote(s[1..]);
      assert s == [s[0]] + s[1..];
    }
  }

  /** `re.sub(r'\'', r'"', s)`: every single quote becomes a double quote. */
  function ReplaceQuotes(s: string): (r: string)
    ensures |r| == |s| && '\'' !in r
    ensures forall i :: 0 <= i < |s| ==> r[i] == (if s[i] == '\'' then '"' else s[i])
  {
    seq(|s|, i requires 0 <= i < |s| => if s[i] == '\'' then '"' else s[i])
  }

  /** The repair of lines 247-248: quote the bare keys, then turn single quotes into double. */
  function Repair(s: string): (r: string)
    ensures |s| <= |r| && '\'' !in r
  {
    ReplaceQuotes(QuoteKeys(s))
  }

  /** The repaired text has no single quote and no bare key, and repairing it again changes
      nothing. */
  lemma RepairNormalForm(s: string)
    ensures '\'' !in Repair(s)
    ensures NoBareKey(Repair(s))
    ensures Repair(Repair(s)) == Repair(s)
  {
    var q := QuoteKeys(s);
    QuoteKeysNoBareKey(s);
    var r := Repair(s);
    assert NoBareKey(r) by {
      forall i | 0 < i < |r| && r[i] == ':' ensures !IsWordChar(r[i - 1]) {
        assert q[i] == ':';
      }
    }
    QuoteKeysFixed(r);
    assert ReplaceQuotes(r) == r;
  }
}
