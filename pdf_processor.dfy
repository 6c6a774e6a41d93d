/** The two text utilities of the PDF report processor: cleaning the text of a section
    (`_clean_section_text`) and reading a table of contents into entries (`_parse_toc`).
    Finding the sections and the table of contents in the extracted text, the PDF reader
    and the file output are not part of this model. */
module PdfProcessor {
  import opened Text

  // ---------------------------------------------------------------------------------
  // Section text (`_clean_section_text`)
  // ---------------------------------------------------------------------------------

  function Newlines(n: nat): (r: string)
    ensures |r| == n && forall i :: 0 <= i < n ==> r[i] == '\n'
  {
    seq(n, _ => '\n')
  }

  /** Three newlines in a row start at position i. */
  predicate TripleAt(s: string, i: nat) {
    i + 2 < |s| && s[i] == '\n' && s[i + 1] == '\n' && s[i + 2] == '\n'
  }

  predicate NoTriple(s: string) {
    forall i :: 0 <= i < |s| ==> !TripleAt(s, i)
  }

  /** What a run of k newlines becomes: two newlines when k is three or more, else itself. */
  function Run(k: nat): string {
    Newlines(if k >= 3 then 2 else k)
  }

  /** The scan of `re.sub(r'\n{3,}', '\n\n', ...)` over s, with k newlines read and not yet
      written: a newline is held back; any other character first writes out the held run. */
  function Scan(s: string, k: nat): string
    decreases |s|
  {
    if |s| == 0 then Run(k)
    else if s[0] == '\n' then Scan(s[1..], k + 1)
    else Run(k) + [s[0]] + Scan(s[1..], 0)
  }

  /** `re.sub(r'\n{3,}', '\n\n', s)`: every maximal run of three or more newlines becomes
      two newlines; runs of one or two stay. */
  function Collapse(s: string): (r: string)
    ensures |r| <= |s|
  {
    ScanShorter(s, 0);
    Scan(s, 0)
  }

  /** The scan writes at most what it reads. */
  lemma {:induction false} ScanShorter(s: string, k: nat)
    ensures |Scan(s, k)| <= |s| + k
    decreases |s|
  {
    if |s| > 0 && s[0] == '\n' {
      ScanShorter(s[1..], k + 1);
    } else if |s| > 0 {
      ScanShorter(s[1..], 0);
    }
  }

  /** The scan never writes three newlines in a row. */
  lemma {:induction false} ScanNoTriple(s: string, k: nat)
    ensures NoTriple(Scan(s, k))
    decreases |s|
  {
    if |s| > 0 && s[0] == '\n' {
      ScanNoTriple(s[1..], k + 1);
    } else if |s| > 0 {
      var head := Run(k) + [s[0]];
      var rest := Scan(s[1..], 0);
      ScanNoTriple(s[1..], 0);
      forall i | 0 <= i < |head + rest| ensures !TripleAt(head + rest, i) {
        if i >= |head| && TripleAt(head + rest, i) {
          assert TripleAt(rest, i - |head|);
        }
      }
    }
  }

  /** After collapsing, no three newlines follow each other. */
  lemma CollapseNoTriple(s: string)
    ensures NoTriple(Collapse(s))
  {
    ScanNoTriple(s, 0);
  }

  /** With at most two newlines held and no three in a row ahead, the scan writes exactly
      what it reads. */
  lemma {:induction false} ScanFixes(s: string, k: nat)
    requires k <= 2 && NoTriple(Newlines(k) + s)
    ensures Scan(s, k) == Newlines(k) + s
    decreases |s|
  {
    if |s| > 0 && s[0] == '\n' {
      FixesNewline(s, k);
      ScanFixes(s[1..], k + 1);
      assert Scan(s, k) == Scan(s[1..], k + 1);
    } else if |s| > 0 {
      FixesText(s, k);
      ScanFixes(s[1..], 0);
      ScanAtText(s, k);
      assert Run(k) == Newlines(k);
      assert Newlines(0) + s[1..] == s[1..];
      Associative(Newlines(k), [s[0]], s[1..]);
      assert s == [s[0]] + s[1..];
    } else {
      assert Newlines(k) + s == Newlines(k);
    }
  }

  /** Holding k newlines before a newline: no triple ahead means at most two held after it. */
  lemma FixesNewline(s: string, k: nat)
    requires k <= 2 && NoTriple(Newlines(k) + s) && |s| > 0 && s[0] == '\n'
    ensures k + 1 <= 2 && NoTriple(Newlines(k + 1) + s[1..]) && Newlines(k + 1) + s[1..] == Newlines(k) + s
  {
    var t := Newlines(k) + s;
    assert k < 2 by {
      if k == 2 { assert TripleAt(t, 0); }
    }
    assert Newlines(k + 1) + s[1..] == t;
  }

  lemma FixesText(s: string, k: nat)
    requires k <= 2 && NoTriple(Newlines(k) + s) && |s| > 0
    ensures NoTriple(Newlines(0) + s[1..])
  {
    var t := Newlines(k) + s;
    var rest := s[1..];
    assert Newlines(0) + rest == rest;
    forall i | 0 <= i < |rest| ensures !TripleAt(rest, i) {
      assert TripleAt(rest, i) ==> TripleAt(t, i + k + 1);
    }
  }

  /** Text without three newlines in a row is left as it is. */
  lemma CollapseFixes(s: string)
    requires NoTriple(s)
    ensures Collapse(s) == s
  {
    assert Newlines(0) + s == s;
    ScanFixes(s, 0);
  }

  /** Collapsing twice is collapsing once. */
  lemma CollapseIdempotent(s: string)
    ensures Collapse(Collapse(s)) == Collapse(s)
  {
    CollapseNoTriple(s);
    CollapseFixes(Collapse(s));
  }

  /** The text with its newlines removed. */
  function WithoutNewlines(s: string): string {
    if |s| == 0 then [] else (if s[0] == '\n' then [] else [s[0]]) + WithoutNewlines(s[1..])
  }

  lemma {:induction false} WithoutNewlinesAppend(a: string, b: string)
    ensures WithoutNewlines(a + b) == WithoutNewlines(a) + WithoutNewlines(b)
    decreases |a|
  {
    if |a| > 0 {
      assert (a + b)[1..] == a[1..] + b;
      WithoutNewlinesAppend(a[1..], b);
    } else {
      assert a + b == b;
    }
  }

  lemma {:induction false} WithoutNewlinesOfNewlines(n: nat)
    ensures WithoutNewlines(Newlines(n)) == []
    decreases n
  {
    if n > 0 {
      assert Newlines(n)[1..] == Newlines(n - 1);
      WithoutNewlinesOfNewlines(n - 1);
    }
  }

  /** The scan drops newlines only: every other character stays, in order. */
  lemma {:induction false} ScanKeepsText(s: string, k: nat)
    ensures WithoutNewlines(Scan(s, k)) == WithoutNewlines(s)
    decreases |s|
  {
    if |s| == 0 {
      WithoutNewlinesOfNewlines(if k >= 3 then 2 else k);
      assert Scan(s, k) == Run(k);
    } else if s[0] == '\n' {
      ScanKeepsText(s[1..], k + 1);
      assert Scan(s, k) == Scan(s[1..], k + 1);
      assert WithoutNewlines(s) == WithoutNewlines(s[1..]);
    } else {
      ScanKeepsText(s[1..], 0);
      ScanKeepsTextStep(s, k);
    }
  }

  lemma ScanKeepsTextStep(s: string, k: nat)
    requires |s| > 0 && s[0] != '\n'
    requires WithoutNewlines(Scan(s[1..], 0)) == WithoutNewlines(s[1..])
    ensures WithoutNewlines(Scan(s, k)) == WithoutNewlines(s)
  {
    var rest := Scan(s[1..], 0);
    ScanAtText(s, k);
    Associative(Run(k), [s[0]], rest);
    WithoutNewlinesAppend(Run(k), [s[0]] + rest);
    WithoutNewlinesOfNewlines(if k >= 3 then 2 else k);
    WithoutNewlinesAppend([s[0]], rest);
    WithoutNewlinesOne(s[0]);
    WithoutNewlinesFirst(s);
  }

  lemma WithoutNewlinesOne(c: char)
    requires c != '\n'
    ensures WithoutNewlines([c]) == [c]
  {
    assert [c][1..] == [];
  }

  lemma WithoutNewlinesFirst(s: string)
    requires |s| > 0 && s[0] != '\n'
    ensures WithoutNewlines(s) == [s[0]] + WithoutNewlines(s[1..])
  {
  }

  /** Collapsing removes newlines only: every other character stays, in order. */
  lemma CollapseKeepsText(s: string)
    ensures WithoutNewlines(Collapse(s)) == WithoutNewlines(s)
  {
    ScanKeepsText(s, 0);
  }

  /** Where a is followed by b, the scan of a + b is the scan of a then that of b, unless a
      newline run crosses from a into b. */
  lemma {:induction false} ScanAppend(a: string, b: string, k: nat)
    requires b == [] || b[0] != '\n' || (a != [] && a[|a| - 1] != '\n') || (a == [] && k == 0)
    ensures Scan(a + b, k) == Scan(a, k) + Scan(b, 0)
    decreases |a|
  {
    if |a| == 0 {
      assert a + b == b;
      if b != [] && b[0] != '\n' {
        ScanHeld(b, k);
      }
    } else if a[0] == '\n' {
      ScanAppend(a[1..], b, k + 1);
      ScanAppendNewline(a, b, k);
    } else {
      ScanAppend(a[1..], b, 0);
      ScanAppendText(a, b, k);
    }
  }

  lemma ScanAppendNewline(a: string, b: string, k: nat)
    requires |a| > 0 && a[0] == '\n'
    requires Scan(a[1..] + b, k + 1) == Scan(a[1..], k + 1) + Scan(b, 0)
    ensures Scan(a + b, k) == Scan(a, k) + Scan(b, 0)
  {
    assert (a + b)[0] == '\n' && (a + b)[1..] == a[1..] + b;
    assert Scan(a + b, k) == Scan(a[1..] + b, k + 1);
  }

  lemma ScanAppendText(a: string, b: string, k: nat)
    requires |a| > 0 && a[0] != '\n'
    requires Scan(a[1..] + b, 0) == Scan(a[1..], 0) + Scan(b, 0)
    ensures Scan(a + b, k) == Scan(a, k) + Scan(b, 0)
  {
    SliceFirst(a, b);
    ScanAtText(a + b, k);
    ScanAtText(a, k);
    Associative(Run(k) + [a[0]], Scan(a[1..], 0), Scan(b, 0));
  }

  lemma ScanAtText(s: string, k: nat)
    requires |s| > 0 && s[0] != '\n'
    ensures Scan(s, k) == Run(k) + [s[0]] + Scan(s[1..], 0)
  {
  }

  lemma SliceFirst(a: string, b: string)
    requires |a| > 0
    ensures (a + b)[0] == a[0] && (a + b)[1..] == a[1..] + b
  {
  }

  lemma Associative(x: string, y: string, z: string)
    ensures x + (y + z) == x + y + z
  {
  }

  /** n newlines read: the same as holding n more. */
  lemma {:induction false} ScanNewlines(n: nat, b: string, k: nat)
    ensures Scan(Newlines(n) + b, k) == Scan(b, k + n)
    decreases n
  {
    if n > 0 {
      assert (Newlines(n) + b)[1..] == Newlines(n - 1) + b;
      ScanNewlines(n - 1, b, k + 1);
    } else {
      assert Newlines(0) + b == b;
    }
  }

  /** A held run is written out, as Run says, before text that does not start with a newline. */
  lemma ScanHeld(b: string, k: nat)
    requires b == [] || b[0] != '\n'
    ensures Scan(b, k) == Run(k) + Scan(b, 0)
  {
    if b != [] {
      assert Run(0) == [];
    }
  }

  /** A run of n newlines between text becomes two newlines when n is three or more and
      stays as it is otherwise. */
  lemma CollapseRun(a: string, n: nat, b: string)
    requires n >= 1
    requires a == [] || a[|a| - 1] != '\n'
    requires b == [] || b[0] != '\n'
    ensures Collapse(a + Newlines(n) + b) == Collapse(a) + Run(n) + Collapse(b)
  {
    assert a + Newlines(n) + b == a + (Newlines(n) + b);
    ScanAppend(a, Newlines(n) + b, 0);
    ScanNewlines(n, b, 0);
    ScanHeld(b, n);
  }

  /** Each line without its surrounding white space. */
  function StripAll(lines: seq<string>): (r: seq<string>)
    ensures |r| == |lines|
    ensures forall k :: 0 <= k < |r| ==> r[k] == Strip(lines[k])
  {
    seq(|lines|, k requires 0 <= k < |lines| => Strip(lines[k]))
  }

  /** `_clean_section_text`: collapse the newline runs, then strip every line. The lines of
      the cleaned text are the lines of the collapsed text, each stripped: the number of lines
      is kept and no line starts or ends with white space. */
  function CleanSectionText(text: string): (r: string)
    ensures Split(r, '\n') == StripAll(Split(Collapse(text), '\n'))
    ensures |Split(r, '\n')| == |Split(Collapse(text), '\n')|
    ensures forall k :: 0 <= k < |Split(r, '\n')| ==> Strip(Split(r, '\n')[k]) == Split(r, '\n')[k]
  {
    var lines := Split(Collapse(text), '\n');
    var stripped := StripAll(lines);
    assert forall k :: 0 <= k < |stripped| ==> '\n' !in stripped[k] && Strip(stripped[k]) == stripped[k] by {
      forall k | 0 <= k < |stripped| ensures '\n' !in stripped[k] && Strip(stripped[k]) == stripped[k] {
        StripNoChar(lines[k], '\n');
        StripStrip(lines[k]);
      }
    }
    SplitJoin(stripped, '\n');
    Join(stripped, '\n')
  }

  /** Splitting what was joined gives the pieces back when none of them holds the separator. */
  lemma {:induction false} SplitJoin(parts: seq<string>, c: char)
    requires |parts| >= 1 && forall k :: 0 <= k < |parts| ==> c !in parts[k]
    ensures Split(Join(parts, c), c) == parts
    decreases |parts|
  {
    if |parts| > 1 {
      var a := parts[0];
      var rest := Join(parts[1..], c);
      var s := a + [c] + rest;
      SplitJoin(parts[1..], c);
      SplitAfterFirst(a, rest, c);
      JoinFirst(parts, c);
      assert parts == [a] + parts[1..];
    }
  }

  lemma JoinFirst(parts: seq<string>, c: char)
    requires |parts| > 1
    ensures Join(parts, c) == parts[0] + [c] + Join(parts[1..], c)
  {
  }

  /** Splitting at the first separator: the piece before it, then the split of the rest. */
  lemma SplitAfterFirst(a: string, rest: string, c: char)
    requires c !in a
    ensures Split(a + [c] + rest, c) == [a] + Split(rest, c)
  {
    var s := a + [c] + rest;
    assert s[|a|] == c && s[..|a|] == a;
    assert Find(s, c) == Some(|a|);
    assert s[|a| + 1..] == rest;
  }

  lemma StripNoChar(s: string, c: char)
    requires c !in s
    ensures c !in Strip(s)
  {
    var l := StripLeft(s);
    assert c !in l by { assert l == s[|s| - |l|..]; }
    var r := StripRight(l);
    assert r == l[..|r|];
  }

  lemma StripStrip(s: string)
    ensures Strip(Strip(s)) == Strip(s)
  {
    StripUnpadded(Strip(s));
  }

  /** Cleaning leaves text alone that has no three newlines in a row and no line with white
      space at either end. */
  lemma CleanFixes(text: string)
    requires NoTriple(text)
    requires forall k :: 0 <= k < |Split(text, '\n')| ==> Strip(Split(text, '\n')[k]) == Split(text, '\n')[k]
    ensures CleanSectionText(text) == text
  {
    CollapseFixes(text);
    var lines := Split(text, '\n');
    assert StripAll(lines) == lines;
    JoinSplit(text, '\n');
  }

  /** Cleaning is not idempotent: lines a, w, "", b with w white space clean to a, "", "", b,
      whose three newlines in a row a second cleaning collapses, giving a, "", b. */
  lemma CleanNotIdempotent(a: string, w: string, b: string)
    requires a != [] && b != [] && w != [] && AllSpace(w)
    requires '\n' !in a && '\n' !in w && '\n' !in b
    requires Strip(a) == a && Strip(b) == b
    ensures CleanSectionText(Join([a, w, "", b], '\n')) == Join([a, "", "", b], '\n')
    ensures CleanSectionText(Join([a, "", "", b], '\n')) == Join([a, "", b], '\n')
    ensures Join([a, "", "", b], '\n') != Join([a, "", b], '\n')
  {
    CleanOnce(a, w, b);
    CleanTwice(a, b);
    JoinFour(a, "", "", b, '\n');
    JoinThree(a, "", b, '\n');
  }

  lemma CleanOnce(a: string, w: string, b: string)
    requires a != [] && b != [] && w != [] && AllSpace(w)
    requires '\n' !in a && '\n' !in w && '\n' !in b
    requires Strip(a) == a
    requires Strip(b) == b
    ensures CleanSectionText(Join([a, w, "", b], '\n')) == Join([a, "", "", b], '\n')
  {
    var x := Join([a, w, "", b], '\n');
    CollapseOnce(a, w, b);
    SplitJoin([a, w, "", b], '\n');
    CleanViaLines(x, [a, w, "", b]);
    StripFour(a, w, b);
  }

  lemma CleanViaLines(x: string, lines: seq<string>)
    requires Split(Collapse(x), '\n') == lines
    ensures CleanSectionText(x) == Join(StripAll(lines), '\n')
  {
  }

  lemma StripFour(a: string, w: string, b: string)
    requires Strip(a) == a && Strip(b) == b && AllSpace(w)
    ensures StripAll([a, w, "", b]) == [a, "", "", b]
  {
    StripEmptyIffAllSpace(w);
    StripUnpadded([]);
    var lines := [a, w, "", b];
    var r := StripAll(lines);
    assert r[0] == Strip(lines[0]) && r[1] == Strip(lines[1]);
    assert r[2] == Strip(lines[2]) && r[3] == Strip(lines[3]);
    LinesFour(r, a, [], [], b);
  }

  lemma LinesFour(r: seq<string>, x: string, y: string, z: string, u: string)
    requires |r| == 4 && r[0] == x && r[1] == y && r[2] == z && r[3] == u
    ensures r == [x, y, z, u]
  {
  }

  lemma LinesThree(r: seq<string>, x: string, y: string, z: string)
    requires |r| == 3 && r[0] == x && r[1] == y && r[2] == z
    ensures r == [x, y, z]
  {
  }

  lemma CollapseOnce(a: string, w: string, b: string)
    requires a != [] && b != [] && w != []
    requires '\n' !in a && '\n' !in w && '\n' !in b
    ensures Collapse(Join([a, w, "", b], '\n')) == Join([a, w, "", b], '\n')
  {
    assert a[|a| - 1] != '\n' && w[0] != '\n' && w[|w| - 1] != '\n' && b[0] != '\n';
    NoNewlineCollapse(a);
    NoNewlineCollapse(w);
    NoNewlineCollapse(b);
    var tail := w + Newlines(2) + b;
    assert Run(2) == Newlines(2) && Run(1) == Newlines(1);
    CollapseRun(w, 2, b);
    assert tail[0] == w[0];
    CollapseRun(a, 1, tail);
    JoinFour(a, w, "", b, '\n');
    RegroupFour(a, w, b, '\n');
  }

  lemma RegroupFour(a: string, w: string, b: string, c: char)
    requires c == '\n'
    ensures a + [c] + w + [c] + "" + [c] + b == a + Newlines(1) + (w + Newlines(2) + b)
  {
    assert Newlines(1) == [c] && Newlines(2) == [c, c];
  }

  lemma CleanTwice(a: string, b: string)
    requires a != [] && b != []
    requires '\n' !in a && '\n' !in b
    requires Strip(a) == a && Strip(b) == b
    ensures CleanSectionText(Join([a, "", "", b], '\n')) == Join([a, "", b], '\n')
  {
    CollapseTwice(a, b);
    SplitJoin([a, "", b], '\n');
    CleanViaLines(Join([a, "", "", b], '\n'), [a, "", b]);
    StripThree(a, b);
  }

  lemma StripThree(a: string, b: string)
    requires Strip(a) == a && Strip(b) == b
    ensures StripAll([a, "", b]) == [a, "", b]
  {
    StripUnpadded([]);
    var lines := [a, "", b];
    var r := StripAll(lines);
    assert r[0] == Strip(lines[0]) && r[1] == Strip(lines[1]) && r[2] == Strip(lines[2]);
    LinesThree(r, a, [], b);
  }

  lemma CollapseTwice(a: string, b: string)
    requires a != [] && b != []
    requires '\n' !in a && '\n' !in b
    ensures Collapse(Join([a, "", "", b], '\n')) == Join([a, "", b], '\n')
  {
    assert a[|a| - 1] != '\n' && b[0] != '\n';
    NoNewlineCollapse(a);
    NoNewlineCollapse(b);
    assert Run(3) == Newlines(2);
    CollapseRun(a, 3, b);
    JoinFour(a, "", "", b, '\n');
    JoinThree(a, "", b, '\n');
    RegroupRuns(a, b, '\n');
  }

  lemma RegroupRuns(a: string, b: string, c: char)
    requires c == '\n'
    ensures a + [c] + "" + [c] + "" + [c] + b == a + Newlines(3) + b
    ensures a + [c] + "" + [c] + b == a + Newlines(2) + b
  {
    assert Newlines(3) == [c, c, c] && Newlines(2) == [c, c];
  }

  lemma NoNewlineCollapse(s: string)
    requires '\n' !in s
    ensures Collapse(s) == s
  {
    forall i | 0 <= i < |s| ensures !TripleAt(s, i) {
      assert s[i] in s;
    }
    CollapseFixes(s);
  }

  lemma JoinThree(x: string, y: string, z: string, c: char)
    ensures Join([x, y, z], c) == x + [c] + y + [c] + z
  {
    assert [x, y, z][1..] == [y, z];
    assert [y, z][1..] == [z];
    calc {
      Join([x, y, z], c);
      x + [c] + Join([y, z], c);
      x + [c] + (y + [c] + z);
      x + [c] + y + [c] + z;
    }
  }

  lemma JoinFour(x: string, y: string, z: string, u: string, c: char)
    ensures Join([x, y, z, u], c) == x + [c] + y + [c] + z + [c] + u
  {
    assert [x, y, z, u][1..] == [y, z, u];
    JoinThree(y, z, u, c);
    calc {
      Join([x, y, z, u], c);
      x + [c] + Join([y, z, u], c);
      x + [c] + (y + [c] + z + [c] + u);
      x + [c] + y + [c] + z + [c] + u;
    }
  }

  // ---------------------------------------------------------------------------------
  // Table of contents (`_parse_toc`)
  // ---------------------------------------------------------------------------------

  /** One entry: the section number, its title and its page, all as text. */
  datatype TocEntry = TocEntry(number: string, title: string, page: string)

  /** The length of the run of digits from position i. */
  function DigitRun(s: string, i: nat): (n: nat)
    requires i <= |s|
    ensures i + n <= |s|
    ensures forall k :: i <= k < i + n ==> IsDigit(s[k])
    ensures i + n == |s| || !IsDigit(s[i + n])
    decreases |s| - i
  {
    if i < |s| && IsDigit(s[i]) then 1 + DigitRun(s, i + 1) else 0
  }

  /** The length of the run of white space from position i. */
  function SpaceRun(s: string, i: nat): (n: nat)
    requires i <= |s|
    ensures i + n <= |s|
    ensures forall k :: i <= k < i + n ==> IsSpace(s[k])
    ensures i + n == |s| || !IsSpace(s[i + n])
    decreases |s| - i
  {
    if i < |s| && IsSpace(s[i]) then 1 + SpaceRun(s, i + 1) else 0
  }

  /** s[i..j] is all digits. */
  predicate Digits(s: string, i: nat, j: nat) {
    j <= |s| && forall k :: i <= k < j ==> IsDigit(s[k])
  }

  /** s[i..j] is all white space. */
  predicate Spaces(s: string, i: nat, j: nat) {
    j <= |s| && forall k :: i <= k < j ==> IsSpace(s[k])
  }

  /** A division of a line by the pattern `(\d+)\s+(.*?)\s+(\d+)`: the lengths of the
      number, of the white space after it, of the title, of the white space after the title
      and of the page. */
  datatype Groups = Groups(number: nat, gap: nat, title: nat, gap2: nat, page: nat) {
    function TitleStart(): nat { number + gap }
    function TitleEnd(): nat { number + gap + title }
    function PageStart(): nat { number + gap + title + gap2 }
    function End(): nat { number + gap + title + gap2 + page }
  }

  /** The line starts with a match of the pattern divided as g says (`re.match` anchors at
      the start only). The title's `.` matches anything but a newline, and a line of a split
      holds none. */
  predicate Matches(t: string, g: Groups) {
    g.number >= 1 && g.gap >= 1 && g.gap2 >= 1 && g.page >= 1 && g.End() <= |t|
    && Digits(t, 0, g.number) && Spaces(t, g.number, g.TitleStart())
    && Spaces(t, g.TitleEnd(), g.PageStart()) && Digits(t, g.PageStart(), g.End())
  }

  /** The backtracking order in which the regular expression engine tries divisions: the
      number and both white-space runs as long as possible first (greedy), the title as short
      as possible (lazy), then the page as long as possible. g comes no later than h. */
  predicate TriedFirst(g: Groups, h: Groups) {
    g.number > h.number || (g.number == h.number &&
    (g.gap > h.gap || (g.gap == h.gap &&
    (g.title < h.title || (g.title == h.title &&
    (g.gap2 > h.gap2 || (g.gap2 == h.gap2 && g.page >= h.page)))))))
  }

  /** A title can end at q: white space starts there, and digits follow that run. */
  predicate TitleEnds(t: string, q: nat) {
    q < |t| && IsSpace(t[q]) && q + SpaceRun(t, q) < |t| && IsDigit(t[q + SpaceRun(t, q)])
  }

  /** The first position from q where a title can end. */
  function FirstTitleEnd(t: string, q: nat): (r: Option<nat>)
    requires q <= |t|
    ensures r.Some? ==> q <= r.value && TitleEnds(t, r.value)
    ensures r.Some? ==> forall k :: q <= k < r.value ==> !TitleEnds(t, k)
    ensures r.None? ==> forall k :: q <= k ==> !TitleEnds(t, k)
    decreases |t| - q
  {
    if q == |t| then None else if TitleEnds(t, q) then Some(q) else FirstTitleEnd(t, q + 1)
  }

  /** The division `re.match(r'(\d+)\s+(.*?)\s+(\d+)', t)` finds, or None. The number is
      the whole leading digit run, and white space must follow it. */
  function TocMatch(t: string): (r: Option<Groups>)
    ensures r.Some? ==> r.value.End() <= |t|
  {
    var a := DigitRun(t, 0);
    if a == 0 || a == |t| || !IsSpace(t[a]) then None
    else AfterNumber(t, a, SpaceRun(t, a))
  }

  /** The rest of the match once the number (a digits) and the whole white-space run after
      it (w characters) are taken: the title ends at the first position where white space
      and then digits follow. Failing that, the white-space run gives back its last
      character, which then serves as the title's white space when digits come next. */
  function AfterNumber(t: string, a: nat, w: nat): (r: Option<Groups>)
    requires a + w <= |t|
    ensures r.Some? ==> r.value.End() <= |t|
  {
    match FirstTitleEnd(t, a + w)
    case Some(q) => Some(TitleEndingAt(t, a, w, q))
    case None =>
      if w >= 2 && a + w < |t| && IsDigit(t[a + w]) then
        Some(Groups(a, w - 1, 0, 1, DigitRun(t, a + w)))
      else None
  }

  /** The division whose title ends at q, with the white space and the page after it taken
      whole. */
  function TitleEndingAt(t: string, a: nat, w: nat, q: nat): (g: Groups)
    requires a + w <= q <= |t|
    ensures g.End() <= |t|
  {
    var m := SpaceRun(t, q);
    Groups(a, w, q - (a + w), m, DigitRun(t, q + m))
  }

  lemma {:induction false} DigitRunAtLeast(s: string, i: nat, n: nat)
    requires i + n <= |s| && forall k :: i <= k < i + n ==> IsDigit(s[k])
    ensures DigitRun(s, i) >= n
    decreases n
  {
    if n > 0 {
      DigitRunAtLeast(s, i + 1, n - 1);
    }
  }

  lemma {:induction false} DigitRunExact(s: string, i: nat, n: nat)
    requires i + n <= |s| && forall k :: i <= k < i + n ==> IsDigit(s[k])
    requires i + n == |s| || !IsDigit(s[i + n])
    ensures DigitRun(s, i) == n
    decreases n
  {
    if n > 0 {
      DigitRunExact(s, i + 1, n - 1);
    }
  }

  lemma {:induction false} SpaceRunAtLeast(s: string, i: nat, n: nat)
    requires i + n <= |s| && forall k :: i <= k < i + n ==> IsSpace(s[k])
    ensures SpaceRun(s, i) >= n
    decreases n
  {
    if n > 0 {
      SpaceRunAtLeast(s, i + 1, n - 1);
    }
  }

  lemma {:induction false} SpaceRunExact(s: string, i: nat, n: nat)
    requires i + n <= |s| && forall k :: i <= k < i + n ==> IsSpace(s[k])
    requires i + n == |s| || !IsSpace(s[i + n])
    ensures SpaceRun(s, i) == n
    decreases n
  {
    if n > 0 {
      SpaceRunExact(s, i + 1, n - 1);
    }
  }

  lemma SpaceNotDigit(c: char)
    ensures IsSpace(c) ==> !IsDigit(c)
  {
  }

  lemma TocMatchAfterNumber(t: string)
    requires DigitRun(t, 0) != 0 && DigitRun(t, 0) < |t| && IsSpace(t[DigitRun(t, 0)])
    ensures TocMatch(t) == AfterNumber(t, DigitRun(t, 0), SpaceRun(t, DigitRun(t, 0)))
  {
  }

  lemma AfterNumberTitle(t: string, a: nat, w: nat, q: nat)
    requires a + w <= |t| && FirstTitleEnd(t, a + w) == Some(q)
    ensures AfterNumber(t, a, w) == Some(TitleEndingAt(t, a, w, q))
  {
  }

  lemma AfterNumberGiveBack(t: string, a: nat, w: nat)
    requires a + w <= |t| && FirstTitleEnd(t, a + w).None?
    requires w >= 2 && a + w < |t| && IsDigit(t[a + w])
    ensures AfterNumber(t, a, w) == Some(Groups(a, w - 1, 0, 1, DigitRun(t, a + w)))
  {
  }

  /** Whatever TocMatch finds is a match of the pattern. */
  lemma TocMatchSound(t: string)
    ensures TocMatch(t).Some? ==> Matches(t, TocMatch(t).value)
  {
    var a := DigitRun(t, 0);
    if a != 0 && a != |t| && IsSpace(t[a]) {
      var w := SpaceRun(t, a);
      TocMatchAfterNumber(t);
      match FirstTitleEnd(t, a + w)
      case Some(q) =>
        AfterNumberTitle(t, a, w, q);
        TitleEndingAtMatches(t, a, w, q);
        assert TocMatch(t) == Some(TitleEndingAt(t, a, w, q));
      case None =>
        if w >= 2 && a + w < |t| && IsDigit(t[a + w]) {
          AfterNumberGiveBack(t, a, w);
          GiveBackMatches(t, a, w);
          assert TocMatch(t) == Some(Groups(a, w - 1, 0, 1, DigitRun(t, a + w)));
        } else {
          assert AfterNumber(t, a, w) == None;
        }
    } else {
      assert TocMatch(t) == None;
    }
  }

  lemma GiveBackMatches(t: string, a: nat, w: nat)
    requires 1 <= a && Digits(t, 0, a) && w >= 2 && Spaces(t, a, a + w)
    requires a + w < |t| && IsDigit(t[a + w])
    ensures Matches(t, Groups(a, w - 1, 0, 1, DigitRun(t, a + w)))
  {
    DigitRunAtLeast(t, a + w, 1);
  }

  lemma TitleEndingAtMatches(t: string, a: nat, w: nat, q: nat)
    requires 1 <= a && Digits(t, 0, a)
    requires a + w <= q && w >= 1 && Spaces(t, a, a + w) && TitleEnds(t, q)
    ensures Matches(t, TitleEndingAt(t, a, w, q))
  {
    var m := SpaceRun(t, q);
    DigitRunAtLeast(t, q + m, 1);
  }

  /** What every division of t shares: the whole leading digit run as number, white space
      after it, and a title end where its title stops. */
  lemma DivisionFacts(t: string, h: Groups)
    requires Matches(t, h)
    ensures DigitRun(t, 0) == h.number && h.number < |t| && IsSpace(t[h.number])
    ensures SpaceRun(t, h.number) >= h.gap
    ensures SpaceRun(t, h.TitleEnd()) == h.gap2 && TitleEnds(t, h.TitleEnd())
  {
    SpaceNotDigit(t[h.number]);
    DigitRunExact(t, 0, h.number);
    SpaceRunAtLeast(t, h.number, h.gap);
    SpaceNotDigit(t[h.PageStart()]);
    SpaceRunExact(t, h.TitleEnd(), h.gap2);
  }

  /** The division TocMatch finds is the first the engine tries that matches, so it is the
      one `re.match` reports; and TocMatch finds one whenever any division matches. */
  lemma TocMatchFirst(t: string, h: Groups)
    requires Matches(t, h)
    ensures TocMatch(t).Some? && TriedFirst(TocMatch(t).value, h)
  {
    DivisionFacts(t, h);
    var a := h.number;
    var w := SpaceRun(t, a);
    TocMatchAfterNumber(t);
    if h.TitleEnd() >= a + w {
      FirstFromWholeGap(t, h, w);
    } else {
      FirstFromShortGap(t, h, w);
    }
  }

  /** The division's title ends at or after the whole white-space run. */
  lemma FirstFromWholeGap(t: string, h: Groups, w: nat)
    requires h.End() <= |t| && Digits(t, h.PageStart(), h.End())
    requires w >= h.gap && SpaceRun(t, h.TitleEnd()) == h.gap2 && TitleEnds(t, h.TitleEnd())
    requires h.TitleEnd() >= h.number + w
    ensures AfterNumber(t, h.number, w).Some? && TriedFirst(AfterNumber(t, h.number, w).value, h)
  {
    var a := h.number;
    FirstTitleEndBefore(t, a + w, h.TitleEnd());
    var q := FirstTitleEnd(t, a + w).value;
    var m := SpaceRun(t, q);
    var p := DigitRun(t, q + m);
    AfterNumberTitle(t, a, w, q);
    TitleEndingAtIs(t, a, w, q, m, p);
    if h.gap == w && q == h.TitleEnd() {
      DigitRunAtLeast(t, q + m, h.page);
    }
  }

  lemma FirstTitleEndBefore(t: string, from: nat, q: nat)
    requires from <= q && TitleEnds(t, q)
    ensures FirstTitleEnd(t, from).Some? && FirstTitleEnd(t, from).value <= q
  {
  }

  /** The division's title ends inside the white-space run: its white space gave some back. */
  lemma FirstFromShortGap(t: string, h: Groups, w: nat)
    requires Matches(t, h)
    requires w == SpaceRun(t, h.number) && w >= h.gap
    requires SpaceRun(t, h.TitleEnd()) == h.gap2 && TitleEnds(t, h.TitleEnd())
    requires h.TitleEnd() < h.number + w
    ensures AfterNumber(t, h.number, w).Some? && TriedFirst(AfterNumber(t, h.number, w).value, h)
  {
    var a := h.number;
    var qh := h.TitleEnd();
    SpaceRunExact(t, qh, a + w - qh);
    assert h.PageStart() == a + w;
    assert a + w < |t| && IsDigit(t[a + w]);
    match FirstTitleEnd(t, a + w)
    case Some(q) =>
      AfterNumberTitle(t, a, w, q);
    case None =>
      AfterNumberGiveBack(t, a, w);
      DigitRunAtLeast(t, a + w, h.page);
  }

  /** The entry read off a line divided as g says: the number, the title stripped and the
      page. */
  function EntryOf(t: string, g: Groups): TocEntry
    requires g.End() <= |t|
  {
    TocEntry(t[..g.number], Strip(t[g.TitleStart()..g.TitleEnd()]), t[g.PageStart()..g.End()])
  }

  /** `_parse_toc` on one line: the line is stripped, and a non-blank line that matches
      yields an entry. */
  function TocLine(line: string): Option<TocEntry> {
    var t := Strip(line);
    if t == [] then None
    else match TocMatch(t)
      case None => None
      case Some(g) => Some(EntryOf(t, g))
  }

  lemma TocLineOf(line: string, g: Groups)
    requires Strip(line) == line && line != [] && TocMatch(line) == Some(g)
    ensures TocLine(line) == Some(EntryOf(line, g))
  {
  }

  /** g is the division `re.match` reports for t: it matches, and the engine tries it before
      any other division that matches. */
  ghost predicate Reported(t: string, g: Groups) {
    Matches(t, g) && forall h :: Matches(t, h) ==> TriedFirst(g, h)
  }

  /** TocMatch finds a division exactly when one matches, and then it is the reported one. */
  lemma TocMatchReported(t: string)
    ensures TocMatch(t).Some? <==> exists g :: Matches(t, g)
    ensures TocMatch(t).Some? ==> Reported(t, TocMatch(t).value)
  {
    TocMatchSound(t);
    forall h | Matches(t, h)
      ensures TocMatch(t).Some? && TriedFirst(TocMatch(t).value, h)
    {
      TocMatchFirst(t, h);
    }
  }

  lemma TocLineViaMatch(line: string)
    ensures TocLine(line) == if TocMatch(Strip(line)).Some? then Some(EntryOf(Strip(line), TocMatch(Strip(line)).value)) else None
  {
    if Strip(line) == [] {
      assert DigitRun(Strip(line), 0) == 0;
    }
  }

  /** A line yields an entry exactly when its stripped text starts with a match of the
      pattern; the entry is read off the division the engine reports. */
  lemma TocLineMatches(line: string)
    ensures TocLine(line).Some? <==> exists g :: Matches(Strip(line), g)
    ensures TocLine(line).Some? ==>
      exists g :: Reported(Strip(line), g) && TocLine(line).value == EntryOf(Strip(line), g)
  {
    var t := Strip(line);
    TocLineViaMatch(line);
    TocMatchReported(t);
    if TocMatch(t).Some? {
      var g := TocMatch(t).value;
      assert Reported(t, g) && TocLine(line).value == EntryOf(t, g);
    }
  }

  /** The entry of a match: number and page are non-empty digit runs, the number starts the
      line and the title has no white space at either end. */
  lemma EntryShape(t: string, g: Groups)
    requires Matches(t, g)
    ensures var e := EntryOf(t, g);
      e.number != [] && AllDigits(e.number) && e.page != [] && AllDigits(e.page)
      && IsPrefix(e.number, t) && (e.title == [] || (!IsSpace(e.title[0]) && !IsSpace(e.title[|e.title| - 1])))
  {
    var e := EntryOf(t, g);
    assert forall k :: 0 <= k < |e.number| ==> e.number[k] == t[k];
    assert forall k :: 0 <= k < |e.page| ==> e.page[k] == t[g.PageStart() + k];
  }

  /** An entry of a line has the shape EntryShape describes. */
  lemma TocEntryShape(line: string)
    requires TocLine(line).Some?
    ensures var e := TocLine(line).value;
      e.number != [] && AllDigits(e.number) && e.page != [] && AllDigits(e.page)
      && IsPrefix(e.number, Strip(line)) && (e.title == [] || (!IsSpace(e.title[0]) && !IsSpace(e.title[|e.title| - 1])))
  {
    var t := Strip(line);
    TocLineViaMatch(line);
    TocMatchSound(t);
    EntryShape(t, TocMatch(t).value);
  }

  /** A blank line yields no entry. */
  lemma BlankLineNoEntry(line: string)
    requires AllSpace(line)
    ensures TocLine(line).None?
  {
    StripEmptyIffAllSpace(line);
  }

  /** A line whose stripped text does not start with a digit yields no entry. */
  lemma NoNumberNoEntry(line: string)
    requires Strip(line) != [] && !IsDigit(Strip(line)[0])
    ensures TocLine(line).None?
  {
    assert DigitRun(Strip(line), 0) == 0;
  }

  /** A number, one white-space character, a title without white space, one white-space
      character and a page: the title is everything between. */
  lemma SimpleMatch(t: string, a: nat, q: nat)
    requires 1 <= a && a + 1 < q && q + 1 < |t|
    requires Digits(t, 0, a) && IsSpace(t[a]) && IsSpace(t[q]) && Digits(t, q + 1, |t|)
    requires forall k :: a < k < q ==> !IsSpace(t[k])
    ensures TocMatch(t) == Some(Groups(a, 1, q - a - 1, 1, |t| - q - 1))
  {
    SimpleRuns(t, a, q);
    FirstTitleEndIs(t, a + 1, q);
    TocMatchAfterNumber(t);
    assert TocMatch(t) == AfterNumber(t, a, 1);
    AfterNumberTitle(t, a, 1, q);
    TitleEndingAtIs(t, a, 1, q, 1, |t| - q - 1);
  }

  lemma TitleEndingAtIs(t: string, a: nat, w: nat, q: nat, m: nat, p: nat)
    requires a + w <= q <= |t| && SpaceRun(t, q) == m && DigitRun(t, q + m) == p
    ensures TitleEndingAt(t, a, w, q) == Groups(a, w, q - (a + w), m, p)
  {
  }

  lemma SimpleRuns(t: string, a: nat, q: nat)
    requires 1 <= a && a + 1 < q && q + 1 < |t|
    requires Digits(t, 0, a) && IsSpace(t[a]) && IsSpace(t[q]) && Digits(t, q + 1, |t|)
    requires !IsSpace(t[a + 1])
    ensures DigitRun(t, 0) == a && SpaceRun(t, a) == 1 && SpaceRun(t, q) == 1
    ensures DigitRun(t, q + 1) == |t| - q - 1 && TitleEnds(t, q)
  {
    SpaceNotDigit(t[a]);
    DigitRunExact(t, 0, a);
    SpaceRunExact(t, a, 1);
    SpaceNotDigit(t[q + 1]);
    SpaceRunExact(t, q, 1);
    DigitRunExact(t, q + 1, |t| - q - 1);
  }

  /** No title ends before q when no white space comes before it. */
  lemma {:induction false} FirstTitleEndIs(t: string, from: nat, q: nat)
    requires from <= q && TitleEnds(t, q)
    requires forall k :: from <= k < q ==> !IsSpace(t[k])
    ensures FirstTitleEnd(t, from) == Some(q)
    decreases q - from
  {
    if from < q {
      FirstTitleEndIs(t, from + 1, q);
    }
  }

  /** The plain case: a number, one space, a title without white space, one space and a page
      give exactly that number, title and page. */
  lemma SimpleTocLine(n: string, title: string, page: string)
    requires n != [] && AllDigits(n) && page != [] && AllDigits(page)
    requires title != [] && forall k :: 0 <= k < |title| ==> !IsSpace(title[k])
    ensures TocLine(n + " " + title + " " + page) == Some(TocEntry(n, title, page))
  {
    var t := n + " " + title + " " + page;
    var a := |n|;
    var q := a + 1 + |title|;
    assert t[..a] == n && t[a + 1..q] == title && t[q + 1..] == page;
    assert t[a] == ' ' && t[q] == ' ';
    SimpleLine(t, n, title, page);
  }

  /** SimpleTocLine on a line given by its parts. */
  lemma SimpleLine(t: string, n: string, title: string, page: string)
    requires n != [] && AllDigits(n) && page != [] && AllDigits(page)
    requires title != [] && forall k :: 0 <= k < |title| ==> !IsSpace(title[k])
    requires |t| == |n| + |title| + |page| + 2 && t[|n|] == ' ' && t[|n| + 1 + |title|] == ' '
    requires t[..|n|] == n && t[|n| + 1..|n| + 1 + |title|] == title && t[|n| + 2 + |title|..] == page
    ensures TocLine(t) == Some(TocEntry(n, title, page))
  {
    var a := |n|;
    var q := a + 1 + |title|;
    assert t[0] == n[0] && t[|t| - 1] == page[|page| - 1];
    SpaceNotDigit(n[0]);
    SpaceNotDigit(page[|page| - 1]);
    StripUnpadded(t);
    assert Digits(t, 0, a) by {
      assert forall k :: 0 <= k < a ==> t[k] == t[..a][k];
    }
    assert Digits(t, q + 1, |t|) by {
      assert forall k :: q + 1 <= k < |t| ==> t[k] == t[q + 1..][k - q - 1];
    }
    assert forall k :: a < k < q ==> !IsSpace(t[k]) by {
      assert forall k :: a < k < q ==> t[k] == t[a + 1..q][k - a - 1];
    }
    SimpleMatch(t, a, q);
    var g := Groups(a, 1, q - a - 1, 1, |t| - q - 1);
    TocLineOf(t, g);
    EntryOfSimple(t, g, n, title, page);
  }

  lemma EntryOfSimple(t: string, g: Groups, n: string, title: string, page: string)
    requires g.End() == |t| && g.gap == 1 && g.gap2 == 1 && g.number == |n| && g.title == |title|
    requires t[..|n|] == n && t[|n| + 1..|n| + 1 + |title|] == title && t[|n| + 2 + |title|..] == page
    requires title != [] && !IsSpace(title[0]) && !IsSpace(title[|title| - 1])
    ensures EntryOf(t, g) == TocEntry(n, title, page)
  {
    StripUnpadded(title);
    assert t[..g.number] == n;
    assert t[g.TitleStart()..g.TitleEnd()] == title;
    assert t[g.PageStart()..g.End()] == page;
  }

  /** The entries `f` gives for the lines, in line order. */
  function Collect(lines: seq<string>, f: string -> Option<TocEntry>): (r: seq<TocEntry>)
    ensures |r| <= |lines|
  {
    if |lines| == 0 then [] else Collect(lines[..|lines| - 1], f) + Found(f(lines[|lines| - 1]))
  }

  function Found(o: Option<TocEntry>): (r: seq<TocEntry>)
    ensures |r| <= 1
  {
    match o case Some(e) => [e] case None => []
  }

  /** The entries of several lines. */
  function TocEntries(lines: seq<string>): (r: seq<TocEntry>)
    ensures |r| <= |lines|
  {
    Collect(lines, TocLine)
  }

  /** Entries keep line order: the lines of a, then those of b. */
  lemma {:induction false} CollectAppend(a: seq<string>, b: seq<string>, f: string -> Option<TocEntry>)
    ensures Collect(a + b, f) == Collect(a, f) + Collect(b, f)
    decreases |b|
  {
    if |b| == 0 {
      assert a + b == a;
    } else {
      var init := b[..|b| - 1];
      CollectAppend(a, init, f);
      assert (a + b)[..|a + b| - 1] == a + init;
      assert (a + b)[|a + b| - 1] == b[|b| - 1];
      assert Collect(a + b, f) == Collect(a + init, f) + Found(f(b[|b| - 1]));
      assert Collect(b, f) == Collect(init, f) + Found(f(b[|b| - 1]));
      EntriesAssociative(Collect(a, f), Collect(init, f), Found(f(b[|b| - 1])));
    }
  }

  lemma EntriesAssociative(x: seq<TocEntry>, y: seq<TocEntry>, z: seq<TocEntry>)
    ensures x + (y + z) == x + y + z
  {
  }

  lemma CollectStep(lines: seq<string>, i: nat, f: string -> Option<TocEntry>)
    requires i < |lines|
    ensures Collect(lines[..i + 1], f) == Collect(lines[..i], f) + Found(f(lines[i]))
  {
    assert lines[..i + 1][..i] == lines[..i];
  }

  /** An entry is among those collected exactly when some line yields it. */
  lemma {:induction false} CollectMember(lines: seq<string>, f: string -> Option<TocEntry>, e: TocEntry)
    ensures e in Collect(lines, f) <==> exists i :: 0 <= i < |lines| && f(lines[i]) == Some(e)
    decreases |lines|
  {
    if |lines| > 0 {
      var init := lines[..|lines| - 1];
      CollectMember(init, f, e);
      assert forall i :: 0 <= i < |init| ==> init[i] == lines[i];
    }
  }

  /** `_parse_toc`: the entries of the text's lines, one per line that matches. */
  method ParseToc(tocText: string) returns (tocEntries: seq<TocEntry>)
    ensures tocEntries == TocEntries(Split(tocText, '\n'))
  {
    var lines := Split(tocText, '\n');
    tocEntries := [];
    var i := 0;
    while i < |lines|
      invariant 0 <= i <= |lines|
      invariant tocEntries == Collect(lines[..i], TocLine)
    {
      CollectStep(lines, i, TocLine);
      TocLineViaMatch(lines[i]);
      var line := Strip(lines[i]);
      if line != [] {
        var m := TocMatch(line);
        if m.Some? {
          assert Found(TocLine(lines[i])) == [EntryOf(line, m.value)];
          tocEntries := tocEntries + [EntryOf(line, m.value)];
        } else {
          assert Found(TocLine(lines[i])) == [];
        }
      } else {
        assert Found(TocLine(lines[i])) == [];
      }
      i := i + 1;
    }
    assert lines[..i] == lines;
  }
}
