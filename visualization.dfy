/** The figures behind the charts of `VisualizationService`: the health score read from the
    interpretation text, the severity and category tallies of the results table (a pandas
    DataFrame that the charts extend with default columns), and the direction of a test's
    trend. Drawing, colours and labels are not modelled. */
module Visualization {
  import opened Text
  import opened Data

  // ---------------------------------------------------------------------------------------
  // Health score (`extract_health_score`)
  // ---------------------------------------------------------------------------------------

  /** `run` is the first run of ASCII digits of `s`, taken whole, and it starts at `k`. */
  predicate FirstRunAt(s: string, k: nat, run: string) {
    k + |run| <= |s| && run != [] && s[k..k + |run|] == run && AllDigits(run)
    && (forall i :: 0 <= i < k ==> !IsDigit(s[i]))
    && (k + |run| == |s| || !IsDigit(s[k + |run|]))
  }

  /** `re.search(r'\d+', s)`: where the first maximal digit run starts and the run itself;
      None when `s` has no digit. */
  function DigitRun(s: string): (r: Option<(nat, string)>)
    ensures r.None? <==> forall i :: 0 <= i < |s| ==> !IsDigit(s[i])
    ensures r.Some? ==> FirstRunAt(s, r.value.0, r.value.1)
  {
    if |s| == 0 then None
    else if IsDigit(s[0]) then
      RunAtStart(s);
      Some((0, TakeDigits(s)))
    else
      match DigitRun(s[1..])
      case None => None
      case Some((k, run)) =>
        RunAfterNonDigit(s, k, run);
        Some((k + 1, run))
  }

  lemma RunAtStart(s: string)
    requires |s| > 0 && IsDigit(s[0])
    ensures FirstRunAt(s, 0, TakeDigits(s))
  {
    var run := TakeDigits(s);
    assert run != [] by { assert run == [s[0]] + TakeDigits(s[1..]); }
  }

  lemma RunAfterNonDigit(s: string, k: nat, run: string)
    requires |s| > 0 && !IsDigit(s[0]) && FirstRunAt(s[1..], k, run)
    ensures FirstRunAt(s, k + 1, run)
  {
    assert s[1..][k..k + |run|] == s[k + 1..k + 1 + |run|];
    forall i | 0 <= i < k + 1 ensures !IsDigit(s[i]) {
      if i > 0 { assert s[i] == s[1..][i - 1]; }
    }
    assert k + 1 + |run| < |s| ==> s[k + 1 + |run|] == s[1..][k + |run|];
  }

  /** The first digit run of a string is determined by the string. */
  lemma FirstRunUnique(s: string, k: nat, run: string, k': nat, run': string)
    requires FirstRunAt(s, k, run) && FirstRunAt(s, k', run')
    ensures k == k' && run == run'
  {
    assert IsDigit(s[k]) by { assert s[k..k + |run|][0] == run[0]; }
    assert IsDigit(s[k']) by { assert s[k'..k' + |run'|][0] == run'[0]; }
    assert forall i :: k <= i < k + |run| ==> s[i] == run[i - k] by {
      forall i | k <= i < k + |run| ensures s[i] == run[i - k] { assert s[k..k + |run|][i - k] == s[i]; }
    }
    assert forall i :: k' <= i < k' + |run'| ==> s[i] == run'[i - k'] by {
      forall i | k' <= i < k' + |run'| ensures s[i] == run'[i - k'] { assert s[k'..k' + |run'|][i - k'] == s[i]; }
    }
  }

  /** Some character of `s` is a digit. */
  predicate HasDigit(s: string) {
    exists i :: 0 <= i < |s| && IsDigit(s[i])
  }

  /** `int(re.search(r'\d+', s).group())`: the value of the first digit run; None where the
      search finds nothing and `.group()` raises. */
  function FirstNumber(s: string): (r: Option<nat>)
    ensures r.None? <==> forall i :: 0 <= i < |s| ==> !IsDigit(s[i])
    ensures r.Some? ==> exists k: nat, run :: FirstRunAt(s, k, run) && r.value == DigitsValue(run)
  {
    match DigitRun(s)
    case None => None
    case Some((k, run)) => Some(DigitsValue(run))
  }

  /** `line.split('(')[1].split(')')[0]` on a line holding '(': the text after the first
      '(' up to the next '(' or ')'. */
  function Parenthesised(line: string): (r: string)
    requires '(' in line
    ensures IsPrefix(r, line[Find(line, '(').value + 1..])
    ensures '(' !in r && ')' !in r
    ensures var after := line[Find(line, '(').value + 1..];
      |r| < |after| ==> after[|r|] == '(' || after[|r|] == ')'
  {
    ParenthesisedText(line[Find(line, '(').value + 1..]);
    BeforeFirst(BeforeFirst(line[Find(line, '(').value + 1..], "("), ")")
  }

  /** Cutting at the first '(' and then at the first ')' leaves a prefix holding neither,
      followed by one of them when it stops short. */
  lemma ParenthesisedText(after: string)
    ensures var r := BeforeFirst(BeforeFirst(after, "("), ")");
      IsPrefix(r, after) && '(' !in r && ')' !in r &&
      (|r| < |after| ==> after[|r|] == '(' || after[|r|] == ')')
  {
    var upTo := BeforeFirst(after, "(");
    var r := BeforeFirst(upTo, ")");
    BeforeFirstOne(after, '(');
    BeforeFirstOne(upTo, ')');
    assert r == upTo[..|r|];
    assert upTo == after[..|upTo|];
    assert r == after[..|r|];
    forall i | 0 <= i < |r| ensures r[i] != '(' {
      assert r[i] == upTo[i];
    }
    if |r| < |upTo| {
      assert after[|r|] == upTo[|r|];
    }
  }

  /** A line the scan looks at: it mentions "score" in any case and holds both parentheses. */
  predicate Qualifies(line: string) {
    IsInfix("score", Lower(line)) && '(' in line && ')' in line
  }

  /** The score a line yields as written: the first number inside its parentheses. */
  function LineScore(line: string): (r: Option<nat>)
    ensures r.Some? <==> Qualifies(line) && HasDigit(Parenthesised(line))
    ensures r.Some? ==> exists k: nat, run :: FirstRunAt(Parenthesised(line), k, run) && r.value == DigitsValue(run)
  {
    if Qualifies(line) then FirstNumber(Parenthesised(line)) else None
  }

  /** Line `j` is the first of `lines` that `score` reads a number from. */
  predicate FirstScoring(score: string -> Option<nat>, lines: seq<string>, j: nat) {
    j < |lines| && score(lines[j]).Some? && forall i :: 0 <= i < j ==> score(lines[i]).None?
  }

  /** The scan over the lines with early return, and the final `return 0`. */
  function ScanLines(score: string -> Option<nat>, lines: seq<string>): (r: nat)
    ensures (forall i :: 0 <= i < |lines| ==> score(lines[i]).None?) ==> r == 0
    ensures forall j: nat :: FirstScoring(score, lines, j) ==> r == score(lines[j]).value
  {
    if |lines| == 0 then 0
    else
      match score(lines[0])
      case Some(v) => v
      case None =>
        assert forall j: nat :: FirstScoring(score, lines, j) ==> j > 0 && FirstScoring(score, lines[1..], j - 1);
        ScanLines(score, lines[1..])
  }

  /** Two line readers that agree on every line give the same scan. */
  lemma {:induction false} ScanLinesAgree(f: string -> Option<nat>, g: string -> Option<nat>, lines: seq<string>)
    requires forall i :: 0 <= i < |lines| ==> f(lines[i]) == g(lines[i])
    ensures ScanLines(f, lines) == ScanLines(g, lines)
  {
    if |lines| > 0 {
      ScanLinesAgree(f, g, lines[1..]);
    }
  }

  /** `extract_health_score` as written: 0 for a falsy interpretation, else the number inside
      the parentheses of the first qualifying line, else 0. */
  function ExtractHealthScore(interpretation: Response): (r: nat)
    ensures !Truthy(interpretation) ==> r == 0
    ensures var lines := Split(TextOf(interpretation), '\n');
      Truthy(interpretation) ==> forall j: nat :: FirstScoring(LineScore, lines, j) ==> r == LineScore(lines[j]).value
    ensures var lines := Split(TextOf(interpretation), '\n');
      (forall k :: 0 <= k < |lines| ==> LineScore(lines[k]).None?) ==> r == 0
  {
    if !Truthy(interpretation) then 0 else ScanLines(LineScore, Split(TextOf(interpretation), '\n'))
  }

  /** The number the line states before its parentheses, if it states one; otherwise the
      number inside them, as before. */
  function CorrectedLineScore(line: string): (r: Option<nat>)
    ensures r.Some? <==> Qualifies(line) && (HasDigit(BeforeFirst(line, "(")) || HasDigit(Parenthesised(line)))
    ensures Qualifies(line) && HasDigit(BeforeFirst(line, "(")) ==>
      exists k: nat, run :: FirstRunAt(BeforeFirst(line, "("), k, run) && r == Some(DigitsValue(run))
    ensures !HasDigit(BeforeFirst(line, "(")) ==> r == LineScore(line)
  {
    if !Qualifies(line) then None
    else
      match FirstNumber(BeforeFirst(line, "("))
      case Some(v) => Some(v)
      case None => FirstNumber(Parenthesised(line))
  }

  /** `extract_health_score` reading a score such as "Health score: 75 (out of 100)" as 75. */
  function CorrectedHealthScore(interpretation: Response): (r: nat)
    ensures !Truthy(interpretation) ==> r == 0
    ensures var lines := Split(TextOf(interpretation), '\n');
      Truthy(interpretation) ==> forall j: nat :: FirstScoring(CorrectedLineScore, lines, j) ==> r == CorrectedLineScore(lines[j]).value
    ensures var lines := Split(TextOf(interpretation), '\n');
      (forall k :: 0 <= k < |lines| ==> CorrectedLineScore(lines[k]).None?) ==> r == 0
  {
    if !Truthy(interpretation) then 0 else ScanLines(CorrectedLineScore, Split(TextOf(interpretation), '\n'))
  }

  /** The first number of `pre + run + post`, when `pre` has no digit and the digit run
      `run` is not continued by `post`. */
  lemma FirstNumberOf(pre: string, run: string, post: string)
    requires forall i :: 0 <= i < |pre| ==> !IsDigit(pre[i])
    requires run != [] && AllDigits(run)
    requires post == [] || !IsDigit(post[0])
    ensures FirstNumber(pre + run + post) == Some(DigitsValue(run))
  {
    var s := pre + run + post;
    assert s[|pre|..|pre| + |run|] == run;
    assert FirstRunAt(s, |pre|, run);
    var r := FirstNumber(s);
    assert r.Some? by { assert IsDigit(s[|pre|]); }
    var k: nat, run' :| FirstRunAt(s, k, run') && r.value == DigitsValue(run');
    FirstRunUnique(s, k, run', |pre|, run);
  }

  /** `s.split(c)[0]` for a one-character separator is the text before its first occurrence. */
  lemma {:induction false} BeforeFirstChar(pre: string, c: char, rest: string)
    requires c !in pre
    ensures BeforeFirst(pre + [c] + rest, [c]) == pre
  {
    var s := pre + [c] + rest;
    if pre == [] {
      assert s[..1] == [c];
    } else {
      assert s[..1] != [c] by { assert s[0] == pre[0]; }
      assert s[1..] == pre[1..] + [c] + rest;
      BeforeFirstChar(pre[1..], c, rest);
      assert s == [pre[0]] + s[1..];
      assert [s[0]] + pre[1..] == pre;
    }
  }

  /** A lower-case word occurs in the lower-cased text that holds it. */
  lemma LowerInfix(a: string, w: string, b: string)
    requires IsLowerCase(w)
    ensures IsInfix(w, Lower(a + w + b))
  {
    var l := Lower(a + w + b);
    assert l[|a|..|a| + |w|] == w by {
      forall k | 0 <= k < |w| ensures l[|a|..|a| + |w|][k] == w[k] {
        assert (a + w + b)[|a| + k] == w[k];
      }
    }
    assert OccursAt(w, l, |a|);
  }

  /** On `pre + "(" + inner + ")" + post`, with no parenthesis before or inside and no '('
      after, the parenthesised text is `inner` and the text before the first '(' is `pre`. */
  lemma ParenthesisedParts(pre: string, inner: string, post: string)
    requires '(' !in pre && '(' !in inner && ')' !in inner && '(' !in post
    ensures '(' in pre + "(" + inner + ")" + post
    ensures Parenthesised(pre + "(" + inner + ")" + post) == inner
    ensures BeforeFirst(pre + "(" + inner + ")" + post, "(") == pre
  {
    var line := pre + "(" + inner + ")" + post;
    assert line == pre + ['('] + (inner + ")" + post);
    assert line[|pre|] == '(';
    assert line[..|pre|] == pre;
    var v := Find(line, '(').value;
    assert v == |pre|;
    var after := line[|pre| + 1..];
    assert after == inner + [')'] + post;
    assert '(' !in after;
    NotInfixMissingChar("(", after, 0);
    BeforeFirstChar(inner, ')', post);
    BeforeFirstChar(pre, '(', inner + ")" + post);
  }

  lemma ScoreExampleQualifies()
    ensures Qualifies("Health score: 75 (out of 100)")
  {
    assert "Health score: 75 (out of 100)" == "Health " + "score" + ": 75 (out of 100)";
    assert IsLowerCase("score");
    LowerInfix("Health ", "score", ": 75 (out of 100)");
  }

  lemma ScoreExampleOneLine()
    ensures Split("Health score: 75 (out of 100)", '\n') == ["Health score: 75 (out of 100)"]
  {
    assert '\n' !in "Health score: 75 (out of 100)";
  }

  lemma ScoreExampleParts()
    ensures Parenthesised("Health score: 75 (out of 100)") == "out of 100"
    ensures BeforeFirst("Health score: 75 (out of 100)", "(") == "Health score: 75 "
  {
    assert "Health score: 75 (out of 100)" == "Health score: 75 " + "(" + "out of 100" + ")" + "";
    ParenthesisedParts("Health score: 75 ", "out of 100", "");
  }

  lemma ScoreExampleInnerRun()
    ensures FirstNumber("out of 100") == Some(DigitsValue("100"))
  {
    assert "out of 100" == "out of " + "100" + "";
    FirstNumberOf("out of ", "100", "");
  }

  lemma ScoreExampleBeforeRun()
    ensures FirstNumber("Health score: 75 ") == Some(DigitsValue("75"))
  {
    assert "Health score: 75 " == "Health score: " + "75" + " ";
    FirstNumberOf("Health score: ", "75", " ");
  }

  lemma Hundred()
    ensures DigitsValue("100") == 100
  {
    assert "100"[..2] == "10" && "10"[..1] == "1" && "1"[..0] == "";
  }

  lemma SeventyFive()
    ensures DigitsValue("75") == 75
  {
    assert "75"[..1] == "7" && "7"[..0] == "";
  }

  /** A one-line interpretation scores what its line yields. */
  lemma OneLineScores(f: string -> Option<nat>, line: string)
    requires Split(line, '\n') == [line] && line != [] && f(line).Some?
    ensures ScanLines(f, Split(TextOf(Other(line)), '\n')) == f(line).value
    ensures Truthy(Other(line))
  {
  }

  /** The line the code's own comment gives as its example, "Health score: 75 (out of 100)",
      scores 100 as written: the number read is the one inside the parentheses. Read as
      intended, it scores 75. */
  lemma ScoreCommentExample()
    ensures ExtractHealthScore(Other("Health score: 75 (out of 100)")) == 100
    ensures CorrectedHealthScore(Other("Health score: 75 (out of 100)")) == 75
  {
    var line := "Health score: 75 (out of 100)";
    ScoreExampleQualifies();
    ScoreExampleOneLine();
    ScoreExampleParts();
    ScoreExampleInnerRun();
    ScoreExampleBeforeRun();
    Hundred();
    SeventyFive();
    assert LineScore(line) == Some(100);
    assert CorrectedLineScore(line) == Some(75);
    OneLineScores(LineScore, line);
    OneLineScores(CorrectedLineScore, line);
  }

  /** On every line that states no number before its parentheses the correction reads what
      the code reads, so texts such as "Health score (82)" score the same under both. */
  lemma CorrectionAgrees(interpretation: Response)
    requires forall line :: line in Split(TextOf(interpretation), '\n') && '(' in line ==>
      FirstNumber(BeforeFirst(line, "(")).None?
    ensures CorrectedHealthScore(interpretation) == ExtractHealthScore(interpretation)
  {
    var lines := Split(TextOf(interpretation), '\n');
    forall i | 0 <= i < |lines|
      ensures CorrectedLineScore(lines[i]) == LineScore(lines[i])
    {
      assert lines[i] in lines;
    }
    ScanLinesAgree(CorrectedLineScore, LineScore, lines);
  }

  // ---------------------------------------------------------------------------------------
  // The results table
  // ---------------------------------------------------------------------------------------

  /** The keys used by some record. */
  function KeysOf(records: seq<Record>): (r: set<string>)
    ensures forall i :: 0 <= i < |records| ==> records[i].Keys <= r
    ensures forall k :: k in r ==> exists i :: 0 <= i < |records| && k in records[i]
  {
    if |records| == 0 then {} else records[0].Keys + KeysOf(records[1..])
  }

  /** The results table `pd.DataFrame(lab_data)`: its columns and one dict per row. A row
      lacking a column holds NaN there, which equals no string. */
  class Frame {
    var columns: set<string>
    var rows: seq<Record>

    /** Every key a row uses is a column. */
    ghost predicate Valid()
      reads this
    {
      forall i :: 0 <= i < |rows| ==> rows[i].Keys <= columns
    }

    /** `pd.DataFrame(records)`: the columns are the keys the records use. */
    constructor (records: seq<Record>)
      ensures rows == records && columns == KeysOf(records)
      ensures Valid()
    {
      rows := records;
      columns := KeysOf(records);
    }
  }

  /** `df[column] = value`: every row gets `value` in `column`. */
  function SetColumn(rows: seq<Record>, column: string, value: Json): (r: seq<Record>)
    ensures |r| == |rows|
  {
    seq(|rows|, i requires 0 <= i < |rows| => rows[i][column := value])
  }

  /** Setting a column keeps every row's keys among the columns, that one added. */
  lemma SetColumnKeys(rows: seq<Record>, columns: set<string>, column: string, value: Json)
    requires forall i :: 0 <= i < |rows| ==> rows[i].Keys <= columns
    ensures var r := SetColumn(rows, column, value);
      forall i :: 0 <= i < |r| ==> r[i].Keys <= columns + {column}
  {
  }

  /** The number of rows whose `column` holds `v` (`(df[column] == v).sum()`). */
  function CountOf(rows: seq<Record>, column: string, v: Json): (r: nat)
    ensures r <= |rows|
  {
    if |rows| == 0 then 0
    else (if column in rows[0] && rows[0][column] == v then 1 else 0) + CountOf(rows[1..], column, v)
  }

  /** The indices of the rows whose `column` holds `v`. */
  function RowsWith(rows: seq<Record>, column: string, v: Json): set<int> {
    set i | 0 <= i < |rows| && column in rows[i] && rows[i][column] == v
  }

  /** The count is the number of rows holding the value, each row counted once. */
  lemma {:induction false} CountOfRows(rows: seq<Record>, column: string, v: Json)
    ensures CountOf(rows, column, v) == |RowsWith(rows, column, v)|
    decreases |rows|
  {
    if |rows| > 0 {
      var init := rows[..|rows| - 1];
      var x := rows[|rows| - 1];
      assert rows == init + [x];
      CountOfRows(init, column, v);
      CountOfSnoc(init, x, column, v);
      RowsWithSnoc(init, x, column, v);
      assert |init| !in RowsWith(init, column, v);
    }
  }

  lemma RowsWithSnoc(rows: seq<Record>, x: Record, column: string, v: Json)
    ensures RowsWith(rows + [x], column, v) ==
      RowsWith(rows, column, v) + (if column in x && x[column] == v then {|rows|} else {})
  {
    var extended := rows + [x];
    forall i | 0 <= i < |rows| ensures extended[i] == rows[i] { }
  }

  /** A cell `value_counts` counts: the row holds the column (it is not NaN) and the value is
      not None, which pandas drops as missing too. */
  predicate Counted(row: Record, column: string) {
    column in row && !row[column].JNull?
  }

  /** A value pandas can hash: a list or a dict is not, and `value_counts` raises TypeError
      on it. */
  predicate Hashable(v: Json) {
    !v.JArr? && !v.JObj?
  }

  /** No cell of `column` is a list or a dict. */
  predicate HashableColumn(rows: seq<Record>, column: string) {
    forall i :: 0 <= i < |rows| && column in rows[i] ==> Hashable(rows[i][column])
  }

  // ---------------------------------------------------------------------------------------
  // Severity chart (`create_severity_chart`)
  // ---------------------------------------------------------------------------------------

  /** The severity derived from a row's status: "None" for Normal, else "Moderate". */
  function DerivedSeverity(row: Record): string {
    if FieldIs(row, "Status", "Normal") then "None" else "Moderate"
  }

  /** The rows with the derived Severity column added. */
  function WithSeverity(rows: seq<Record>): (r: seq<Record>)
    ensures |r| == |rows|
  {
    seq(|rows|, i requires 0 <= i < |rows| => rows[i]["Severity" := JStr(DerivedSeverity(rows[i]))])
  }

  /** The order the severity chart reports counts in. */
  const SeverityOrder: seq<string> := ["Severe", "Moderate", "Mild", "None"]

  /** `df['Severity'].value_counts().reindex(severity_order, fill_value=0)`. */
  function SeverityCounts(rows: seq<Record>): (r: seq<nat>)
    ensures |r| == |SeverityOrder|
    ensures forall k :: 0 <= k < |r| ==> r[k] <= |rows|
  {
    seq(|SeverityOrder|, k requires 0 <= k < |SeverityOrder| => CountOf(rows, "Severity", JStr(SeverityOrder[k])))
  }

  /** A row the severity counts see: its Severity is one of the four severities. */
  predicate Tallied(row: Record) {
    "Severity" in row && row["Severity"] in [JStr("Severe"), JStr("Moderate"), JStr("Mild"), JStr("None")]
  }

  /** The number of rows the severity counts see. */
  function CountTallied(rows: seq<Record>): (r: nat)
    ensures r <= |rows|
  {
    if |rows| == 0 then 0 else (if Tallied(rows[0]) then 1 else 0) + CountTallied(rows[1..])
  }

  /** The chart adds the derived Severity column to the caller's table when it has none,
      then counts the four severities; it fails (TypeError) when a Severity cell is a list
      or a dict, after the column has been added. */
  method CreateSeverityChart(df: Frame) returns (counts: Option<seq<nat>>)
    requires df.Valid()
    modifies df
    ensures df.Valid()
    ensures df.columns == old(df.columns) + {"Severity"}
    ensures df.rows == if "Severity" in old(df.columns) then old(df.rows) else WithSeverity(old(df.rows))
    ensures counts.None? <==> !HashableColumn(old(df.rows), "Severity")
    ensures counts.Some? ==> counts.value == SeverityCounts(df.rows)
  {
    if "Severity" !in df.columns {
      df.rows := WithSeverity(df.rows);
      df.columns := df.columns + {"Severity"};
    }
    if !HashableColumn(df.rows, "Severity") {
      return None;
    }
    counts := Some(SeverityCounts(df.rows));
  }

  /** Each severity's count is the number of rows holding it, and it is zero exactly when
      no row does. */
  lemma SeverityCountsMeaning(rows: seq<Record>, k: nat)
    requires k < |SeverityOrder|
    ensures SeverityCounts(rows)[k] == |RowsWith(rows, "Severity", JStr(SeverityOrder[k]))|
    ensures SeverityCounts(rows)[k] == 0 <==>
      forall i :: 0 <= i < |rows| ==> !("Severity" in rows[i] && rows[i]["Severity"] == JStr(SeverityOrder[k]))
  {
    var rs := RowsWith(rows, "Severity", JStr(SeverityOrder[k]));
    CountOfRows(rows, "Severity", JStr(SeverityOrder[k]));
    if i :| 0 <= i < |rows| && "Severity" in rows[i] && rows[i]["Severity"] == JStr(SeverityOrder[k]) {
      assert i in rs;
    }
  }

  /** The four counts add up to the rows whose Severity is one of the four: other values
      and missing ones are dropped, nothing is counted twice. */
  lemma {:induction false} SeverityCountsTotal(rows: seq<Record>)
    ensures var c := SeverityCounts(rows); c[0] + c[1] + c[2] + c[3] == CountTallied(rows)
  {
    if |rows| > 0 {
      SeverityCountsTotal(rows[1..]);
    }
  }

  /** With the derived column every row is counted, as None when its status is Normal and
      as Moderate otherwise; no row is Severe or Mild. */
  lemma {:induction false} DerivedSeverityCounts(rows: seq<Record>)
    ensures CountOf(WithSeverity(rows), "Severity", JStr("Severe")) == 0
    ensures CountOf(WithSeverity(rows), "Severity", JStr("Mild")) == 0
    ensures CountOf(WithSeverity(rows), "Severity", JStr("None")) == CountOf(rows, "Status", JStr("Normal"))
    ensures CountOf(WithSeverity(rows), "Severity", JStr("Moderate")) == |rows| - CountOf(rows, "Status", JStr("Normal"))
  {
    if |rows| > 0 {
      DerivedSeverityCounts(rows[1..]);
      var w := WithSeverity(rows);
      assert w[1..] == WithSeverity(rows[1..]);
      assert w[0]["Severity"] == JStr(DerivedSeverity(rows[0]));
    }
  }

  /** The severity chart of a table without a Severity column reports no Severe and no Mild
      results, the Normal rows as None and all others as Moderate. */
  lemma DerivedSeverityChart(rows: seq<Record>)
    ensures var c, normal := SeverityCounts(WithSeverity(rows)), CountOf(rows, "Status", JStr("Normal"));
      c[0] == 0 && c[1] == |rows| - normal && c[2] == 0 && c[3] == normal
  {
    DerivedSeverityCounts(rows);
  }

  /** Python's `sorted(s, key=key, reverse=True)`: descending by key, ties in input order. */
  predicate SortedDesc<T>(s: seq<T>, key: T -> int) {
    forall i, j :: 0 <= i < j < |s| ==> key(s[i]) >= key(s[j])
  }

  /** Puts `x` before the first element whose key is not larger than its own. */
  function Insert<T>(x: T, s: seq<T>, key: T -> int): (r: seq<T>)
    ensures |r| == |s| + 1 && multiset(r) == multiset(s) + multiset{x}
  {
    if |s| == 0 || key(x) >= key(s[0]) then [x] + s
    else
      assert s == [s[0]] + s[1..];
      [s[0]] + Insert(x, s[1..], key)
  }

  lemma {:induction false} InsertSorted<T>(x: T, s: seq<T>, key: T -> int)
    requires SortedDesc(s, key)
    ensures SortedDesc(Insert(x, s, key), key)
  {
    if |s| > 0 && key(x) < key(s[0]) {
      var rest := Insert(x, s[1..], key);
      InsertSorted(x, s[1..], key);
      forall j | 0 <= j < |rest| ensures key(s[0]) >= key(rest[j]) {
        assert rest[j] in multiset(rest);
        if rest[j] != x {
          assert rest[j] in multiset(s[1..]);
          var k :| 0 <= k < |s[1..]| && s[1..][k] == rest[j];
          assert s[k + 1] == rest[j];
        }
      }
    }
  }

  /** The stable descending sort, by insertion from the back. */
  function SortDesc<T>(s: seq<T>, key: T -> int): (r: seq<T>)
    ensures |r| == |s| && multiset(r) == multiset(s)
    ensures SortedDesc(r, key)
  {
    if |s| == 0 then []
    else
      var rest := SortDesc(s[1..], key);
      InsertSorted(s[0], rest, key);
      assert s == [s[0]] + s[1..];
      Insert(s[0], rest, key)
  }

  /** The elements of `s` whose key is `v`, in order. */
  function WithKey<T>(s: seq<T>, key: T -> int, v: int): seq<T> {
    if |s| == 0 then [] else (if key(s[0]) == v then [s[0]] else []) + WithKey(s[1..], key, v)
  }

  lemma {:induction false} InsertStable<T>(x: T, s: seq<T>, key: T -> int, v: int)
    ensures WithKey(Insert(x, s, key), key, v) == (if key(x) == v then [x] else []) + WithKey(s, key, v)
  {
    if |s| > 0 && key(x) < key(s[0]) {
      InsertStable(x, s[1..], key, v);
      assert ([s[0]] + Insert(x, s[1..], key))[1..] == Insert(x, s[1..], key);
    } else {
      assert ([x] + s)[1..] == s;
    }
  }

  /** The sort is stable: the elements sharing a key keep their input order. */
  lemma {:induction false} SortDescStable<T>(s: seq<T>, key: T -> int, v: int)
    ensures WithKey(SortDesc(s, key), key, v) == WithKey(s, key, v)
  {
    if |s| > 0 {
      SortDescStable(s[1..], key, v);
      InsertStable(s[0], SortDesc(s[1..], key), key, v);
    }
  }

  // ---------------------------------------------------------------------------------------
  // Category chart (`create_category_chart`)
  // ---------------------------------------------------------------------------------------

  /** The distinct values of `column`, in order of first occurrence; rows lacking it (NaN)
      and None cells are left out. */
  function Present(rows: seq<Record>, column: string): (r: seq<Json>)
    ensures forall i, j :: 0 <= i < j < |r| ==> r[i] != r[j]
    ensures forall v :: v in r <==> exists i :: 0 <= i < |rows| && Counted(rows[i], column) && rows[i][column] == v
  {
    if |rows| == 0 then []
    else
      var init := rows[..|rows| - 1];
      var last := rows[|rows| - 1];
      assert forall i :: 0 <= i < |init| ==> init[i] == rows[i];
      var p := Present(init, column);
      if Counted(last, column) && last[column] !in p then p + [last[column]] else p
  }

  /** Each value with its number of rows. */
  function Pairs(rows: seq<Record>, column: string, values: seq<Json>): (r: seq<(Json, nat)>)
    ensures |r| == |values|
    ensures forall i :: 0 <= i < |values| ==> r[i] == (values[i], CountOf(rows, column, values[i]))
  {
    seq(|values|, i requires 0 <= i < |values| => (values[i], CountOf(rows, column, values[i])))
  }

  function PairCount(p: (Json, nat)): int { p.1 }

  /** `df[column].value_counts()`: each value present with its number of rows, by
      descending count, as pandas computes it when every cell of the column is hashable. */
  function ValueCounts(rows: seq<Record>, column: string): seq<(Json, nat)> {
    SortDesc(Pairs(rows, column, Present(rows, column)), PairCount)
  }

  /** The bar of one category: how many of its rows are abnormal and how many normal. */
  datatype Tally = Tally(category: Json, abnormal: nat, normal: nat)

  function AbnormalKey(t: Tally): int { t.abnormal }

  /** `len(category_df[category_df['Status'] != 'Normal'])`: the rows of the category whose
      status is anything but the string Normal (NaN included). */
  function AbnormalIn(rows: seq<Record>, category: Json): (r: nat)
    ensures r <= CountOf(rows, "Category", category)
  {
    if |rows| == 0 then 0
    else
      (if "Category" in rows[0] && rows[0]["Category"] == category && !FieldIs(rows[0], "Status", "Normal") then 1 else 0)
      + AbnormalIn(rows[1..], category)
  }

  /** The abnormal and normal counts the loop of lines 185-190 records for a category. */
  function TallyOf(rows: seq<Record>, category: Json): (t: Tally)
    ensures t.category == category && t.abnormal + t.normal == CountOf(rows, "Category", category)
    ensures t.abnormal == AbnormalIn(rows, category)
  {
    Tally(category, AbnormalIn(rows, category), CountOf(rows, "Category", category) - AbnormalIn(rows, category))
  }

  /** The tallies of the categories, in the order of `counts`. */
  function Tallies(rows: seq<Record>, counts: seq<(Json, nat)>): (r: seq<Tally>)
    ensures |r| == |counts|
    ensures forall i :: 0 <= i < |counts| ==> r[i] == TallyOf(rows, counts[i].0)
  {
    seq(|counts|, i requires 0 <= i < |counts| => TallyOf(rows, counts[i].0))
  }

  /** The table after the defaults of lines 147-150. */
  function WithDefaults(columns: set<string>, rows: seq<Record>): (r: seq<Record>)
    ensures |r| == |rows|
  {
    var withCategory := if "Category" in columns then rows else SetColumn(rows, "Category", JStr("Other Tests"));
    if "Status" in columns then withCategory else SetColumn(withCategory, "Status", JStr("Normal"))
  }

  /** What the category chart shows: the slices of the pie and the bars. */
  datatype CategoryChart = CategoryChart(counts: seq<(Json, nat)>, bars: seq<Tally>)

  /** The chart fills in the Category and Status columns of the caller's table when they are
      missing, counts the categories, tallies the abnormal and normal rows of each, and
      orders the bars by abnormal count. It fails (TypeError) when a Category cell is a list
      or a dict, after the defaults have been filled in. */
  method CreateCategoryChart(df: Frame) returns (chart: Option<CategoryChart>)
    requires df.Valid()
    modifies df
    ensures df.Valid()
    ensures df.columns == old(df.columns) + {"Category", "Status"}
    ensures df.rows == WithDefaults(old(df.columns), old(df.rows))
    ensures chart.None? <==> !HashableColumn(old(df.rows), "Category")
    ensures chart.Some? ==> chart.value.counts == ValueCounts(df.rows, "Category")
    ensures chart.Some? ==> chart.value.bars == SortDesc(Tallies(df.rows, chart.value.counts), AbnormalKey)
  {
    ghost var rows := df.rows;
    FillDefaults(df);
    DefaultsHashable(old(df.columns), rows);
    if !HashableColumn(df.rows, "Category") {
      return None;
    }
    var categoryCounts := ValueCounts(df.rows, "Category");
    var tallies := TallyCategories(df.rows, categoryCounts);
    chart := Some(CategoryChart(categoryCounts, SortDesc(tallies, AbnormalKey)));
  }

  /** Filling in the defaults adds hashable Category cells only. */
  lemma DefaultsHashable(columns: set<string>, rows: seq<Record>)
    requires forall i :: 0 <= i < |rows| ==> rows[i].Keys <= columns
    ensures HashableColumn(WithDefaults(columns, rows), "Category") <==> HashableColumn(rows, "Category")
  {
    var after := WithDefaults(columns, rows);
    DefaultColumns(columns, rows);
    if HashableColumn(rows, "Category") {
      forall i | 0 <= i < |after| && "Category" in after[i] ensures Hashable(after[i]["Category"]) {
        if "Category" !in columns {
          assert FieldIs(after[i], "Category", "Other Tests");
        }
      }
    }
  }

  /** Lines 147-150: a missing Category column is filled with "Other Tests", a missing Status
      column with "Normal". */
  method FillDefaults(df: Frame)
    requires df.Valid()
    modifies df
    ensures df.Valid()
    ensures df.columns == old(df.columns) + {"Category", "Status"}
    ensures df.rows == WithDefaults(old(df.columns), old(df.rows))
  {
    ghost var columns, rows := df.columns, df.rows;
    if "Category" !in df.columns {
      SetColumnKeys(df.rows, df.columns, "Category", JStr("Other Tests"));
      df.rows := SetColumn(df.rows, "Category", JStr("Other Tests"));
      df.columns := df.columns + {"Category"};
    }
    ghost var withCategory := if "Category" in columns then rows else SetColumn(rows, "Category", JStr("Other Tests"));
    assert df.rows == withCategory && df.columns == columns + {"Category"};
    if "Status" !in df.columns {
      SetColumnKeys(df.rows, df.columns, "Status", JStr("Normal"));
      df.rows := SetColumn(df.rows, "Status", JStr("Normal"));
      df.columns := df.columns + {"Status"};
    }
    assert df.rows == WithDefaults(columns, rows);
  }

  /** The loop of lines 185-190: per counted category, its abnormal rows and the rest. */
  method TallyCategories(rows: seq<Record>, categoryCounts: seq<(Json, nat)>) returns (tallies: seq<Tally>)
    ensures tallies == Tallies(rows, categoryCounts)
  {
    tallies := [];
    var k := 0;
    while k < |categoryCounts|
      invariant 0 <= k <= |categoryCounts|
      invariant |tallies| == k
      invariant forall j :: 0 <= j < k ==> tallies[j] == TallyOf(rows, categoryCounts[j].0)
    {
      var category := categoryCounts[k].0;
      var abnormalCount := AbnormalIn(rows, category);
      var normalCount := CountOf(rows, "Category", category) - abnormalCount;
      tallies := tallies + [Tally(category, abnormalCount, normalCount)];
      k := k + 1;
    }
  }

  /** The bars of the category chart for a table. */
  function Bars(rows: seq<Record>): seq<Tally> {
    SortDesc(Tallies(rows, ValueCounts(rows, "Category")), AbnormalKey)
  }

  /** Every bar splits its category's rows into abnormal and normal ones, and the bars come
      by descending abnormal count. */
  lemma BarsAddUp(rows: seq<Record>)
    ensures SortedDesc(Bars(rows), AbnormalKey)
    ensures forall i :: 0 <= i < |Bars(rows)| ==>
      Bars(rows)[i].abnormal == AbnormalIn(rows, Bars(rows)[i].category) &&
      Bars(rows)[i].abnormal + Bars(rows)[i].normal == CountOf(rows, "Category", Bars(rows)[i].category)
  {
    var tallies := Tallies(rows, ValueCounts(rows, "Category"));
    var bars := Bars(rows);
    forall i | 0 <= i < |bars|
      ensures bars[i] == TallyOf(rows, bars[i].category)
    {
      assert bars[i] in multiset(tallies);
      var j :| 0 <= j < |tallies| && tallies[j] == bars[i];
    }
  }

  /** The counted values are exactly the values present. */
  lemma CountedValues(rows: seq<Record>, column: string, v: Json)
    ensures (exists j :: 0 <= j < |ValueCounts(rows, column)| && ValueCounts(rows, column)[j].0 == v) <==> v in Present(rows, column)
  {
    var present := Present(rows, column);
    var pairs := Pairs(rows, column, present);
    var counts := ValueCounts(rows, column);
    if j :| 0 <= j < |counts| && counts[j].0 == v {
      assert counts[j] in multiset(pairs);
      var k :| 0 <= k < |pairs| && pairs[k] == counts[j];
      assert present[k] == v;
    }
    if v in present {
      var k :| 0 <= k < |present| && present[k] == v;
      assert pairs[k] in multiset(counts);
      var j :| 0 <= j < |counts| && counts[j] == pairs[k];
    }
  }

  /** The bars are the tallies of the counted categories. */
  lemma BarCategories(rows: seq<Record>, v: Json)
    ensures (exists i :: 0 <= i < |Bars(rows)| && Bars(rows)[i].category == v) <==>
      (exists j :: 0 <= j < |ValueCounts(rows, "Category")| && ValueCounts(rows, "Category")[j].0 == v)
  {
    var counts := ValueCounts(rows, "Category");
    var tallies := Tallies(rows, counts);
    var bars := Bars(rows);
    if i :| 0 <= i < |bars| && bars[i].category == v {
      assert bars[i] in multiset(tallies);
      var j :| 0 <= j < |tallies| && tallies[j] == bars[i];
    }
    if j :| 0 <= j < |counts| && counts[j].0 == v {
      assert tallies[j] in multiset(bars);
      var i :| 0 <= i < |bars| && bars[i] == tallies[j];
    }
  }

  /** There is a bar for every category some row has (not NaN, not None), and for no
      other. */
  lemma BarsCoverCategories(rows: seq<Record>, v: Json)
    ensures (exists i :: 0 <= i < |Bars(rows)| && Bars(rows)[i].category == v) <==>
      (exists i :: 0 <= i < |rows| && Counted(rows[i], "Category") && rows[i]["Category"] == v)
  {
    BarCategories(rows, v);
    CountedValues(rows, "Category", v);
  }

  /** Without a Category column every row falls in the category Other Tests; without a
      Status column every row counts as normal. */
  lemma DefaultColumns(columns: set<string>, rows: seq<Record>)
    requires forall i :: 0 <= i < |rows| ==> rows[i].Keys <= columns
    ensures "Category" !in columns ==> forall i :: 0 <= i < |rows| ==> FieldIs(WithDefaults(columns, rows)[i], "Category", "Other Tests")
    ensures "Status" !in columns ==> forall i :: 0 <= i < |rows| ==> FieldIs(WithDefaults(columns, rows)[i], "Status", "Normal")
    ensures forall i, k :: 0 <= i < |rows| && k in rows[i] ==> k in WithDefaults(columns, rows)[i] && WithDefaults(columns, rows)[i][k] == rows[i][k]
  {
  }

  /** The severity chart runs before the category chart fills in Status: on a table with
      neither a Status nor a Severity column every row ends up Normal in status yet Moderate
      in severity. */
  lemma SeverityBeforeStatus(columns: set<string>, rows: seq<Record>)
    requires forall i :: 0 <= i < |rows| ==> rows[i].Keys <= columns
    requires "Status" !in columns && "Severity" !in columns
    ensures var after := WithDefaults(columns + {"Severity"}, WithSeverity(rows));
      |after| == |rows| &&
      forall i :: 0 <= i < |rows| ==> FieldIs(after[i], "Status", "Normal") && FieldIs(after[i], "Severity", "Moderate")
  {
    forall i | 0 <= i < |rows| ensures !FieldIs(rows[i], "Status", "Normal") {
      assert "Status" !in rows[i];
    }
  }

  /** The number of rows whose `column` holds a value (neither NaN nor None). */
  function CountHas(rows: seq<Record>, column: string): (r: nat)
    ensures r <= |rows|
  {
    if |rows| == 0 then 0 else (if Counted(rows[0], column) then 1 else 0) + CountHas(rows[1..], column)
  }

  /** The total of a list of counts. */
  function SumCounts(ps: seq<(Json, nat)>): nat {
    if |ps| == 0 then 0 else ps[0].1 + SumCounts(ps[1..])
  }

  /** The rows of each of `values`, summed. */
  function SumOver(rows: seq<Record>, column: string, values: seq<Json>): nat {
    if |values| == 0 then 0 else CountOf(rows, column, values[0]) + SumOver(rows, column, values[1..])
  }

  /** How often `v` occurs in `values`. */
  function Occ(values: seq<Json>, v: Json): nat {
    if |values| == 0 then 0 else (if values[0] == v then 1 else 0) + Occ(values[1..], v)
  }

  lemma {:induction false} SumInsert(x: (Json, nat), s: seq<(Json, nat)>)
    ensures SumCounts(Insert(x, s, PairCount)) == x.1 + SumCounts(s)
  {
    if |s| > 0 && PairCount(x) < PairCount(s[0]) {
      SumInsert(x, s[1..]);
      assert ([s[0]] + Insert(x, s[1..], PairCount))[1..] == Insert(x, s[1..], PairCount);
    } else {
      assert ([x] + s)[1..] == s;
    }
  }

  lemma {:induction false} SumSort(s: seq<(Json, nat)>)
    ensures SumCounts(SortDesc(s, PairCount)) == SumCounts(s)
  {
    if |s| > 0 {
      SumSort(s[1..]);
      SumInsert(s[0], SortDesc(s[1..], PairCount));
    }
  }

  lemma {:induction false} SumPairs(rows: seq<Record>, column: string, values: seq<Json>)
    ensures SumCounts(Pairs(rows, column, values)) == SumOver(rows, column, values)
  {
    if |values| > 0 {
      SumPairs(rows, column, values[1..]);
      assert Pairs(rows, column, values)[1..] == Pairs(rows, column, values[1..]);
    }
  }

  lemma {:induction false} CountOfSnoc(rows: seq<Record>, x: Record, column: string, v: Json)
    ensures CountOf(rows + [x], column, v) == CountOf(rows, column, v) + (if column in x && x[column] == v then 1 else 0)
  {
    if |rows| == 0 {
      assert (rows + [x])[1..] == [];
    } else {
      CountOfSnoc(rows[1..], x, column, v);
      assert (rows + [x])[1..] == rows[1..] + [x];
    }
  }

  lemma {:induction false} CountHasSnoc(rows: seq<Record>, x: Record, column: string)
    ensures CountHas(rows + [x], column) == CountHas(rows, column) + (if Counted(x, column) then 1 else 0)
  {
    if |rows| == 0 {
      assert (rows + [x])[1..] == [];
    } else {
      CountHasSnoc(rows[1..], x, column);
      assert (rows + [x])[1..] == rows[1..] + [x];
    }
  }

  lemma {:induction false} CountOfNone(rows: seq<Record>, column: string, v: Json)
    requires forall i :: 0 <= i < |rows| ==> !(column in rows[i] && rows[i][column] == v)
    ensures CountOf(rows, column, v) == 0
  {
    if |rows| > 0 {
      CountOfNone(rows[1..], column, v);
    }
  }

  lemma {:induction false} SumOverSnoc(rows: seq<Record>, x: Record, column: string, values: seq<Json>)
    ensures SumOver(rows + [x], column, values) == SumOver(rows, column, values) + (if column in x then Occ(values, x[column]) else 0)
  {
    if |values| > 0 {
      SumOverSnoc(rows, x, column, values[1..]);
      CountOfSnoc(rows, x, column, values[0]);
    }
  }

  lemma {:induction false} SumOverAppend(rows: seq<Record>, column: string, values: seq<Json>, v: Json)
    ensures SumOver(rows, column, values + [v]) == SumOver(rows, column, values) + CountOf(rows, column, v)
  {
    if |values| == 0 {
      assert (values + [v])[1..] == [];
    } else {
      SumOverAppend(rows, column, values[1..], v);
      assert (values + [v])[1..] == values[1..] + [v];
    }
  }

  lemma {:induction false} OccDistinct(values: seq<Json>, v: Json)
    requires forall i, j :: 0 <= i < j < |values| ==> values[i] != values[j]
    ensures Occ(values, v) == if v in values then 1 else 0
  {
    if |values| > 0 {
      OccDistinct(values[1..], v);
      if values[0] == v {
        assert v !in values[1..] by {
          forall j | 0 <= j < |values[1..]| ensures values[1..][j] != v { assert values[j + 1] != values[0]; }
        }
      }
    }
  }

  lemma {:induction false} SumOverPresent(rows: seq<Record>, column: string)
    ensures SumOver(rows, column, Present(rows, column)) == CountHas(rows, column)
    decreases |rows|
  {
    if |rows| > 0 {
      var init := rows[..|rows| - 1];
      var x := rows[|rows| - 1];
      assert rows == init + [x];
      var p := Present(init, column);
      SumOverPresent(init, column);
      CountHasSnoc(init, x, column);
      SumOverSnoc(init, x, column, p);
      if column in x {
        OccDistinct(p, x[column]);
      }
      if Counted(x, column) && x[column] !in p {
        SumOverAppend(rows, column, p, x[column]);
        CountOfSnoc(init, x, column, x[column]);
        CountOfNone(init, column, x[column]);
      }
    }
  }

  /** The slices of the pie add up to the rows that have a category: the counts drop the
      NaN and None cells and count no row twice. */
  lemma PieCoversRows(rows: seq<Record>)
    ensures SumCounts(ValueCounts(rows, "Category")) == CountHas(rows, "Category")
  {
    var pairs := Pairs(rows, "Category", Present(rows, "Category"));
    SumSort(pairs);
    SumPairs(rows, "Category", Present(rows, "Category"));
    SumOverPresent(rows, "Category");
  }

  // ---------------------------------------------------------------------------------------
  // Trend chart (`create_trend_chart`)
  // ---------------------------------------------------------------------------------------

  /** The direction of the last step of a series. */
  datatype Trend = Increasing | Decreasing | Stable

  /** What converting one value gives: a number; a value the handler of line 256 skips
      (`ValueError`, `TypeError`: unreadable text, None, a list or a dict); or blank text,
      where `value_str.split()[0]` raises `IndexError`, which that handler does not catch. */
  datatype Reading = Number(x: real) | Unparsable | Blank

  /** `float(value_str.split()[0])` for text, `float(value_str)` for anything else (a bool
      reads as 1.0 or 0.0). */
  function Convert(v: Json): (r: Reading)
    ensures r.Blank? <==> v.JStr? && AllSpace(v.s)
    ensures v.JStr? && r.Number? ==> exists t :: IsInfix(t, v.s) && ParseFloat(t) == Some(r.x)
  {
    match v
    case JStr(s) =>
      (match FirstToken(s)
       case None => Blank
       case Some(t) => (match ParseFloat(t) case Some(x) => Number(x) case None => Unparsable))
    case JNum(n) => Number(n)
    case JBool(b) => Number(if b then 1.0 else 0.0)
    case _ => Unparsable
  }

  /** The value a dict carries under 'value', else under 'Value'; anything else is its own
      value. None for a dict with neither key. */
  function ValueOf(v: Json): (r: Option<Json>)
    ensures !v.JObj? ==> r == Some(v)
    ensures v.JObj? ==> (r.None? <==> "value" !in v.fields && "Value" !in v.fields)
    ensures v.JObj? && "value" in v.fields ==> r == Some(v.fields["value"])
    ensures v.JObj? && "value" !in v.fields && "Value" in v.fields ==> r == Some(v.fields["Value"])
  {
    match v
    case JObj(d) => if "value" in d then Some(d["value"]) else if "Value" in d then Some(d["Value"]) else None
    case _ => Some(v)
  }

  /** How a previous value reads; a dict without a value field is skipped (`continue`). */
  function PreviousReading(v: Json): Reading {
    match ValueOf(v)
    case None => Unparsable
    case Some(x) => Convert(x)
  }

  /** The numbers `read` finds among the previous values, in order. */
  function Usable(read: Json -> Reading, previous: seq<Json>): (r: seq<real>)
    ensures |r| <= |previous|
  {
    if |previous| == 0 then []
    else
      var init := Usable(read, previous[..|previous| - 1]);
      match read(previous[|previous| - 1])
      case Number(x) => init + [x]
      case _ => init
  }

  /** `processed_values` as the loop of lines 239-258 leaves it; None when a blank previous
      value aborts the whole chart. */
  function Collected(read: Json -> Reading, previous: seq<Json>): (r: Option<seq<real>>)
    ensures r.Some? ==> r.value == Usable(read, previous)
  {
    if |previous| == 0 then Some([])
    else
      match Collected(read, previous[..|previous| - 1])
      case None => None
      case Some(values) =>
        match read(previous[|previous| - 1])
        case Number(x) => Some(values + [x])
        case Unparsable => Some(values)
        case Blank => None
  }

  /** One more previous value extends the collection as that value reads. */
  lemma CollectedSnoc(read: Json -> Reading, previous: seq<Json>, i: nat)
    requires i < |previous|
    ensures Collected(read, previous[..i + 1]) ==
      match Collected(read, previous[..i])
      case None => None
      case Some(values) =>
        match read(previous[i])
        case Number(x) => Some(values + [x])
        case Unparsable => Some(values)
        case Blank => None
  {
    assert previous[..i + 1][..i] == previous[..i];
  }

  /** A previous value that is blank text aborts the collection; nothing else does. */
  lemma {:induction false} CollectedAborts(read: Json -> Reading, previous: seq<Json>)
    ensures Collected(read, previous).None? <==> exists j :: 0 <= j < |previous| && read(previous[j]).Blank?
    decreases |previous|
  {
    if |previous| > 0 {
      var init := previous[..|previous| - 1];
      CollectedAborts(read, init);
      assert forall j :: 0 <= j < |init| ==> init[j] == previous[j];
    }
  }

  /** The current value as lines 261-276 read it; None where they raise. */
  function CurrentReading(current: Json): (r: Option<real>)
    ensures r.Some? <==> (ValueOf(current).Some? && Convert(ValueOf(current).value).Number?)
  {
    match ValueOf(current)
    case None => None
    case Some(x) => (match Convert(x) case Number(n) => Some(n) case _ => None)
  }

  /** The trend of lines 290-295: how the last value compares with the one before it; None
      for fewer than two values. */
  function Direction(values: seq<real>): (r: Option<Trend>)
    ensures r.None? <==> |values| < 2
    ensures r == Some(Increasing) <==> |values| >= 2 && values[|values| - 1] > values[|values| - 2]
    ensures r == Some(Decreasing) <==> |values| >= 2 && values[|values| - 1] < values[|values| - 2]
    ensures r == Some(Stable) <==> |values| >= 2 && values[|values| - 1] == values[|values| - 2]
  {
    if |values| < 2 then None
    else if values[|values| - 1] > values[|values| - 2] then Some(Increasing)
    else if values[|values| - 1] < values[|values| - 2] then Some(Decreasing)
    else Some(Stable)
  }

  /** `create_trend_chart` as written, reduced to the trend it draws (None where it returns
      None). */
  function TrendAsWritten(current: Json, previous: seq<Json>): (r: Option<Trend>)
    ensures r.Some? <==> CurrentReading(current).Some? && Collected(PreviousReading, previous).Some? &&
                         |Collected(PreviousReading, previous).value| >= 1
  {
    match Collected(PreviousReading, previous)
    case None => None
    case Some(values) =>
      match CurrentReading(current)
      case None => None
      case Some(c) => Direction(values + [c])
  }

  /** The trend with every unreadable previous value skipped, blank text included. */
  function CorrectedTrend(current: Json, previous: seq<Json>): (r: Option<Trend>)
    ensures r.Some? <==> CurrentReading(current).Some? && |Usable(PreviousReading, previous)| >= 1
  {
    match CurrentReading(current)
    case None => None
    case Some(c) => Direction(Usable(PreviousReading, previous) + [c])
  }

  /** The chart's value handling: the previous values are read one by one, skipping those
      that do not convert; then the current value; then the trend of the last step. */
  method CreateTrendChart(currentValue: Json, previousValues: seq<Json>) returns (trend: Option<Trend>)
    ensures trend == TrendAsWritten(currentValue, previousValues)
  {
    var processedValues: seq<real> := [];
    var i := 0;
    while i < |previousValues|
      invariant 0 <= i <= |previousValues|
      invariant Collected(PreviousReading, previousValues[..i]) == Some(processedValues)
    {
      var v := previousValues[i];
      CollectedSnoc(PreviousReading, previousValues, i);
      var valueStr: Json;
      if v.JObj? {
        if "value" in v.fields {
          valueStr := v.fields["value"];
        } else if "Value" in v.fields {
          valueStr := v.fields["Value"];
        } else {
          i := i + 1;
          continue;
        }
      } else {
        valueStr := v;
      }
      match Convert(valueStr) {
        case Blank =>
          assert Collected(PreviousReading, previousValues).None? by {
            assert PreviousReading(previousValues[i]).Blank?;
            CollectedAborts(PreviousReading, previousValues);
          }
          return None;
        case Unparsable =>
        case Number(x) =>
          processedValues := processedValues + [x];
      }
      i := i + 1;
    }
    assert previousValues[..i] == previousValues;
    var current := CurrentReading(currentValue);
    if current.None? {
      return None;
    }
    var allValues := processedValues + [current.value];
    if |allValues| < 2 {
      return None;
    }
    trend := Some(Stable);
    if allValues[|allValues| - 1] > allValues[|allValues| - 2] {
      trend := Some(Increasing);
    } else if allValues[|allValues| - 1] < allValues[|allValues| - 2] {
      trend := Some(Decreasing);
    }
  }

  /** A previous value the reader cannot read aborts the chart as written. */
  predicate AnyBlank(read: Json -> Reading, previous: seq<Json>) {
    exists j :: 0 <= j < |previous| && read(previous[j]).Blank?
  }

  /** The collection either aborts on blank text or yields exactly the usable numbers. */
  lemma CollectedIs(read: Json -> Reading, previous: seq<Json>)
    ensures Collected(read, previous) == if AnyBlank(read, previous) then None else Some(Usable(read, previous))
  {
    CollectedAborts(read, previous);
  }

  /** The code as written and the correction agree unless a previous value is blank text,
      in which case the code draws no chart at all. */
  lemma TrendAsWrittenVersusCorrected(current: Json, previous: seq<Json>)
    ensures AnyBlank(PreviousReading, previous) ==> TrendAsWritten(current, previous).None?
    ensures !AnyBlank(PreviousReading, previous) ==> TrendAsWritten(current, previous) == CorrectedTrend(current, previous)
  {
    CollectedIs(PreviousReading, previous);
  }

  /** Reading distributes over concatenation: the usable numbers keep their order. */
  lemma {:induction false} UsableAppend(read: Json -> Reading, a: seq<Json>, b: seq<Json>)
    ensures Usable(read, a + b) == Usable(read, a) + Usable(read, b)
    decreases |b|
  {
    if |b| == 0 {
      assert a + b == a;
    } else {
      UsableAppend(read, a, b[..|b| - 1]);
      assert (a + b)[..|a + b| - 1] == a + b[..|b| - 1];
      assert (a + b)[|a + b| - 1] == b[|b| - 1];
    }
  }

  /** A previous value that does not read as a number changes nothing (the intended reading). */
  lemma SkippedValueIgnored(current: Json, a: seq<Json>, v: Json, b: seq<Json>)
    requires !PreviousReading(v).Number?
    ensures CorrectedTrend(current, a + [v] + b) == CorrectedTrend(current, a + b)
  {
    UsableAppend(PreviousReading, a + [v], b);
    UsableAppend(PreviousReading, a, [v]);
    UsableAppend(PreviousReading, a, b);
    assert [v][..0] == [];
  }

  /** As written, an unreadable non-blank previous value is skipped too. */
  lemma UnparsableValueSkipped(current: Json, a: seq<Json>, v: Json, b: seq<Json>)
    requires PreviousReading(v).Unparsable?
    ensures TrendAsWritten(current, a + [v] + b) == TrendAsWritten(current, a + b)
  {
    TrendAsWrittenVersusCorrected(current, a + [v] + b);
    TrendAsWrittenVersusCorrected(current, a + b);
    SkippedValueIgnored(current, a, v, b);
    if AnyBlank(PreviousReading, a + [v] + b) {
      BlankAfterInsert(PreviousReading, a, v, b);
    }
    if AnyBlank(PreviousReading, a + b) {
      BlankBeforeInsert(PreviousReading, a, v, b);
    }
  }

  /** A blank value among the previous ones stays after one more value is put in. */
  lemma BlankBeforeInsert(read: Json -> Reading, a: seq<Json>, v: Json, b: seq<Json>)
    requires AnyBlank(read, a + b)
    ensures AnyBlank(read, a + [v] + b)
  {
    var s, t := a + b, a + [v] + b;
    var j :| 0 <= j < |s| && read(s[j]).Blank?;
    if j < |a| {
      assert t[j] == s[j];
    } else {
      assert t[j + 1] == s[j];
    }
  }

  /** Putting in a value that is not blank adds no blank one. */
  lemma BlankAfterInsert(read: Json -> Reading, a: seq<Json>, v: Json, b: seq<Json>)
    requires !read(v).Blank? && AnyBlank(read, a + [v] + b)
    ensures AnyBlank(read, a + b)
  {
    var s, t := a + b, a + [v] + b;
    var j :| 0 <= j < |t| && read(t[j]).Blank?;
    if j < |a| {
      assert s[j] == t[j];
    } else {
      assert j > |a| && s[j - 1] == t[j];
    }
  }

  /** Without a usable previous value there is no trend. */
  lemma TooFewValues(current: Json, previous: seq<Json>)
    requires Usable(PreviousReading, previous) == []
    ensures CorrectedTrend(current, previous).None?
    ensures TrendAsWritten(current, previous).None?
  {
    TrendAsWrittenVersusCorrected(current, previous);
  }

  /** Only the last usable previous value and the current value decide the trend. */
  lemma LastStepDecides(current: Json, previous: seq<Json>, earlier: seq<real>, last: real)
    requires Usable(PreviousReading, previous) == earlier + [last] && CurrentReading(current).Some?
    ensures CorrectedTrend(current, previous) == Direction([last, CurrentReading(current).value])
  {
    var vs := earlier + [last] + [CurrentReading(current).value];
    assert vs[|vs| - 1] == CurrentReading(current).value && vs[|vs| - 2] == last;
  }

  /** Blank text among the previous values: with readings x and "" (or any white space)
      before a current y > x, the code returns no chart, while skipping the blank value
      gives an increasing trend. */
  lemma BlankPreviousValue(x: real, y: real, blank: string)
    requires x < y && AllSpace(blank)
    ensures TrendAsWritten(JNum(y), [JNum(x), JStr(blank)]).None?
    ensures CorrectedTrend(JNum(y), [JNum(x), JStr(blank)]) == Some(Increasing)
  {
    NumberReads(x);
    BlankReads(blank);
    NumberReads(y);
    NumberThenBlankTrend(JNum(y), JNum(x), JStr(blank), x, y);
  }

  lemma NumberReads(x: real)
    ensures PreviousReading(JNum(x)) == Number(x) && CurrentReading(JNum(x)) == Some(x)
  {
  }

  lemma BlankReads(blank: string)
    requires AllSpace(blank)
    ensures PreviousReading(JStr(blank)).Blank?
  {
    assert ValueOf(JStr(blank)) == Some(JStr(blank));
  }

  /** A number followed by blank text, before a larger current value. */
  lemma NumberThenBlankTrend(current: Json, a: Json, b: Json, x: real, c: real)
    requires PreviousReading(a) == Number(x) && PreviousReading(b).Blank?
    requires CurrentReading(current) == Some(c) && x < c
    ensures TrendAsWritten(current, [a, b]).None?
    ensures CorrectedTrend(current, [a, b]) == Some(Increasing)
  {
    NumberThenBlank(PreviousReading, a, b, x);
    CollectedIs(PreviousReading, [a, b]);
    assert Collected(PreviousReading, [a, b]).None?;
    IncreasingAfter(current, [a, b], x, c);
  }

  /** A current value above the last usable previous one gives an increasing trend. */
  lemma IncreasingAfter(current: Json, previous: seq<Json>, x: real, c: real)
    requires Usable(PreviousReading, previous) == [x]
    requires CurrentReading(current) == Some(c) && x < c
    ensures CorrectedTrend(current, previous) == Some(Increasing)
  {
    LastStepDecides(current, previous, [], x);
    var vs := [x, c];
    assert vs[|vs| - 1] > vs[|vs| - 2];
  }

  lemma NumberThenBlank(read: Json -> Reading, a: Json, b: Json, x: real)
    requires read(a) == Number(x) && read(b).Blank?
    ensures Usable(read, [a, b]) == [x] && AnyBlank(read, [a, b])
  {
    assert [a, b][..1] == [a] && [a][..0] == [];
    assert [a, b][1] == b;
  }

  /** The first word of text, when the word has no white space and white space follows it. */
  lemma {:induction false} FirstWord(word: string, c: char, rest: string)
    requires word != [] && (forall i :: 0 <= i < |word| ==> !IsSpace(word[i])) && IsSpace(c)
    ensures FirstToken(word + [c] + rest) == Some(word)
  {
    var s := word + [c] + rest;
    assert StripLeft(s) == s;
    TakeWord(word, c, rest);
  }

  lemma {:induction false} TakeWord(word: string, c: char, rest: string)
    requires (forall i :: 0 <= i < |word| ==> !IsSpace(word[i])) && IsSpace(c)
    ensures TakeNonSpace(word + [c] + rest) == word
  {
    if word != [] {
      TakeWord(word[1..], c, rest);
      assert (word + [c] + rest)[1..] == word[1..] + [c] + rest;
      assert word == [word[0]] + word[1..];
    }
  }

  /** A value with units after it reads as the value alone: "5.2 mg/dL" reads as "5.2". */
  lemma UnitsIgnored(word: string, c: char, rest: string)
    requires word != [] && (forall i :: 0 <= i < |word| ==> !IsSpace(word[i])) && IsSpace(c)
    ensures Convert(JStr(word + [c] + rest)) == Convert(JStr(word))
  {
    FirstWord(word, c, rest);
    FirstTokenWhole(word);
  }
}
