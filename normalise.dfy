/** The per-record normalisation at the end of `analyze_lab_report`: every parsed record gains
    a `Category` (from keyword groups on its test name), a `Severity` (from how far its value
    lies from the middle of its reference range) and a `Status` (default `Normal`), each only
    when the record does not already have one. */
module Normalise {
  import opened Text
  import opened Data

  const BloodCountWords: seq<string> := ["hemoglobin", "wbc", "rbc", "platelet"]
  const MetabolicWords: seq<string> := ["glucose", "sodium", "potassium", "chloride"]
  const LipidWords: seq<string> := ["cholesterol", "triglycerides", "hdl", "ldl"]

  /** `any(x in name for x in words)`. */
  predicate AnyIn(words: seq<string>, name: string) {
    exists i :: 0 <= i < |words| && IsInfix(words[i], name)
  }

  /** The category `analyze_lab_report` gives a record that has none: the first keyword group
      of which some word occurs in the lower-cased test name, in the order blood count,
      metabolic panel, lipid panel; `Other Tests` when none does. */
  function CategoryFromName(testName: string): (r: string)
    ensures r == "Complete Blood Count" <==> AnyIn(BloodCountWords, Lower(testName))
    ensures r == "Metabolic Panel" <==>
      !AnyIn(BloodCountWords, Lower(testName)) && AnyIn(MetabolicWords, Lower(testName))
    ensures r == "Lipid Panel" <==>
      !AnyIn(BloodCountWords, Lower(testName)) && !AnyIn(MetabolicWords, Lower(testName)) &&
      AnyIn(LipidWords, Lower(testName))
    ensures r == "Other Tests" <==>
      !AnyIn(BloodCountWords, Lower(testName)) && !AnyIn(MetabolicWords, Lower(testName)) &&
      !AnyIn(LipidWords, Lower(testName))
  {
    var name := Lower(testName);
    if AnyIn(BloodCountWords, name) then "Complete Blood Count"
    else if AnyIn(MetabolicWords, name) then "Metabolic Panel"
    else if AnyIn(LipidWords, name) then "Lipid Panel"
    else "Other Tests"
  }

  lemma LowerIdempotent(s: string)
    ensures Lower(Lower(s)) == Lower(s)
  {
  }

  /** The category depends on the test name only up to letter case. */
  lemma CategoryIgnoresCase(testName: string)
    ensures CategoryFromName(Lower(testName)) == CategoryFromName(testName)
  {
    LowerIdempotent(testName);
  }

  /** A name holding only lipid words is a lipid panel, whichever lipid word it holds. */
  lemma HdlCholesterolIsLipid()
    ensures CategoryFromName("HDL Cholesterol") == "Lipid Panel"
  {
    var hdl := Lower("HDL Cholesterol");
    assert OccursAt("hdl", hdl, 0);
    assert !AnyIn(BloodCountWords, hdl) by {
      NotInfixMissingChar("hemoglobin", hdl, 2);
      NotInfixMissingChar("wbc", hdl, 0);
      NotInfixMissingChar("rbc", hdl, 1);
      NotInfixMissingChar("platelet", hdl, 0);
    }
    assert !AnyIn(MetabolicWords, hdl) by {
      NotInfixMissingChar("glucose", hdl, 0);
      NotInfixMissingChar("sodium", hdl, 4);
      NotInfixMissingChar("potassium", hdl, 0);
      NotInfixMissingChar("chloride", hdl, 5);
    }
    assert IsInfix(LipidWords[2], hdl);
  }

  /** Glycated hemoglobin is filed as a blood count: the blood-count group is checked first. */
  lemma HemoglobinA1cIsBloodCount()
    ensures CategoryFromName("Hemoglobin A1c") == "Complete Blood Count"
  {
    var a1c := Lower("Hemoglobin A1c");
    assert OccursAt("hemoglobin", a1c, 0);
    assert IsInfix(BloodCountWords[0], a1c);
  }

  /** For instance, a name holding a lipid word and a blood-count word is filed as a blood
      count, the group checked first. */
  lemma EarlierGroupWins()
    ensures CategoryFromName("LDL / Hemoglobin") == "Complete Blood Count"
  {
    var mixed := Lower("LDL / Hemoglobin");
    assert OccursAt("hemoglobin", mixed, 6);
    assert IsInfix(BloodCountWords[0], mixed);
  }

  /** The severity bands: more than half a range width from the middle is Severe, more than a
      quarter is Moderate, otherwise Mild. */
  function Band(dev: real): (r: string)
    ensures r == "Severe" || r == "Moderate" || r == "Mild"
    ensures r == "Mild" <==> dev <= 0.25
  {
    if dev > 0.5 then "Severe" else if dev > 0.25 then "Moderate" else "Mild"
  }

  /** The order of the severity vocabulary. */
  function Rank(severity: string): nat {
    if severity == "Severe" then 3 else if severity == "Moderate" then 2
    else if severity == "Mild" then 1 else 0
  }

  /** A larger deviation never gives a milder band, and the boundaries themselves belong to
      the milder band. */
  lemma BandMonotone(d1: real, d2: real)
    requires d1 <= d2
    ensures Rank(Band(d1)) <= Rank(Band(d2))
    ensures Band(0.25) == "Mild" && Band(0.5) == "Moderate"
  {
  }

  function Abs(x: real): (r: real)
    ensures r >= 0.0 && (r == x || r == -x)
  {
    if x < 0.0 then -x else x
  }

  /** The distance of `v` from the middle of `low-high`, in range widths. */
  function Deviation(v: real, low: real, high: real): (r: real)
    requires high != low
    ensures high > low ==> r >= 0.0
    ensures r == 0.0 <==> 2.0 * v == low + high
  {
    Abs(v - (low + high) / 2.0) / (high - low)
  }

  /** Comparing a quotient by a positive width is comparing against a multiple of the width. */
  lemma QuotientCompare(d: real, w: real, c: real)
    requires w > 0.0
    ensures d / w > c <==> d > c * w
  {
    var q := d / w;
    assert q * w == d;
    if q > c {
      assert (q - c) * w > 0.0;
    } else {
      assert (c - q) * w >= 0.0;
    }
  }

  /** On an ordinary range, Severe means exactly that the value lies outside the range. */
  lemma SevereIffOutside(v: real, low: real, high: real)
    requires low < high
    ensures Band(Deviation(v, low, high)) == "Severe" <==> v < low || high < v
  {
    QuotientCompare(Abs(v - (low + high) / 2.0), high - low, 0.5);
  }

  /** On an ordinary range, Mild means exactly that the value lies in the middle half. */
  lemma MildIffMiddleHalf(v: real, low: real, high: real)
    requires low < high
    ensures Band(Deviation(v, low, high)) == "Mild" <==>
      low + (high - low) / 4.0 <= v <= high - (high - low) / 4.0
  {
    QuotientCompare(Abs(v - (low + high) / 2.0), high - low, 0.25);
  }

  /** A reversed range (`high < low`) gives a non-positive deviation, so always Mild. */
  lemma ReversedRangeMild(v: real, low: real, high: real)
    requires high < low
    ensures Deviation(v, low, high) <= 0.0
    ensures Band(Deviation(v, low, high)) == "Mild"
  {
    var d := Abs(v - (low + high) / 2.0);
    assert Deviation(v, low, high) * (high - low) == d;
  }

  /** `float(value.split()[0])`; None where it raises (a value that is not a string, a
      blank string, a first token that is not a number). */
  function ValueOf(value: Json): (r: Option<real>)
    ensures !value.JStr? ==> r.None?
    ensures value.JStr? && AllSpace(value.s) ==> r.None?
    ensures value.JStr? && !AllSpace(value.s) ==>
      FirstToken(value.s).Some? && r == ParseFloat(FirstToken(value.s).value)
  {
    if !value.JStr? then None
    else match FirstToken(value.s)
      case None => None
      case Some(token) => ParseFloat(token)
  }

  /** `low, high = map(float, range.split('-'))`, reached only when `'-' in range`; None where
      that test fails or the code raises (a range that is not a string, not exactly two
      pieces, a piece that is not a number). */
  function BoundsOf(range: Json): (r: Option<(real, real)>)
    ensures r.Some? ==> range.JStr? && '-' in range.s && |Split(range.s, '-')| == 2
    ensures r.Some? ==> ParseFloat(Split(range.s, '-')[0]) == Some(r.value.0) &&
                        ParseFloat(Split(range.s, '-')[1]) == Some(r.value.1)
    ensures (range.JStr? && |Split(range.s, '-')| == 2 && ParseFloat(Split(range.s, '-')[0]).Some? &&
             ParseFloat(Split(range.s, '-')[1]).Some?) ==> r.Some?
  {
    if !range.JStr? || '-' !in range.s then None
    else
      var pieces := Split(range.s, '-');
      if |pieces| != 2 then None
      else match (ParseFloat(pieces[0]), ParseFloat(pieces[1]))
        case (Some(low), Some(high)) => Some((low, high))
        case _ => None
  }

  /** The Severity of a record that is not Normal: the band of the value's deviation, or
      `Moderate` whenever the value or range cannot be read (the bare `except`) or the range
      has zero width (ZeroDivisionError). */
  function BandOf(value: Json, range: Json): (r: string)
    ensures r == "Severe" || r == "Moderate" || r == "Mild"
    ensures ValueOf(value).None? || BoundsOf(range).None? ==> r == "Moderate"
    ensures BoundsOf(range).Some? && BoundsOf(range).value.0 == BoundsOf(range).value.1 ==> r == "Moderate"
    ensures ValueOf(value).Some? && BoundsOf(range).Some? && BoundsOf(range).value.0 != BoundsOf(range).value.1 ==>
      r == Band(Deviation(ValueOf(value).value, BoundsOf(range).value.0, BoundsOf(range).value.1))
  {
    match (ValueOf(value), BoundsOf(range))
    case (Some(v), Some((low, high))) => if high == low then "Moderate" else Band(Deviation(v, low, high))
    case _ => "Moderate"
  }

  /** The Severity `analyze_lab_report` gives a record that has none: `None` exactly for a
      Normal status, else `BandOf` its Value (default "0") and ReferenceRange (default ""). */
  function SeverityOf(d: Record): (r: string)
    ensures FieldIs(d, "Status", "Normal") <==> r == "None"
    ensures !FieldIs(d, "Status", "Normal") ==>
      r == BandOf(Get(d, "Value", JStr("0")), Get(d, "ReferenceRange", JStr("")))
  {
    if Get(d, "Status", JStr("")) == JStr("Normal") then "None"
    else BandOf(Get(d, "Value", JStr("0")), Get(d, "ReferenceRange", JStr("")))
  }

  /** Lines 261-271: a record without Category gets one from its `Test` field (default "");
      None where `.lower()` raises on a Test that is not a string. */
  function FillCategory(d: Record): (r: Option<Record>)
    ensures "Category" in d ==> r == Some(d)
    ensures r.None? <==> "Category" !in d && !Get(d, "Test", JStr("")).JStr?
    ensures r.Some? ==> r.value.Keys == d.Keys + {"Category"} && forall k :: k in d ==> r.value[k] == d[k]
    ensures r.Some? && "Category" !in d ==>
      r.value["Category"] == JStr(CategoryFromName(Get(d, "Test", JStr("")).s))
  {
    if "Category" in d then Some(d)
    else
      var test := Get(d, "Test", JStr(""));
      if test.JStr? then Some(d["Category" := JStr(CategoryFromName(test.s))]) else None
  }

  /** Lines 273-295: a record without Severity gets `SeverityOf`. */
  function FillSeverity(d: Record): (r: Record)
    ensures r.Keys == d.Keys + {"Severity"} && forall k :: k in d ==> r[k] == d[k]
    ensures "Severity" !in d ==> r["Severity"] == JStr(SeverityOf(d))
  {
    if "Severity" in d then d else d["Severity" := JStr(SeverityOf(d))]
  }

  /** Lines 297-299: a record without Status is marked Normal. */
  function FillStatus(d: Record): (r: Record)
    ensures r.Keys == d.Keys + {"Status"} && forall k :: k in d ==> r[k] == d[k]
    ensures "Status" !in d ==> r["Status"] == JStr("Normal")
  {
    if "Status" in d then d else d["Status" := JStr("Normal")]
  }

  /** One pass of the normalisation loop over an element of the parsed list; None where the
      loop body raises. A dict gets the three fields, in the order Category, Severity,
      Status. Any other element gets past the three `not in` tests only if it already
      "contains" all three names (substring for a string, element for a list); otherwise a
      `.get` or an item assignment raises, as does `in` on a number, boolean or null. */
  function NormaliseRecord(t: Json): (r: Option<Json>)
    ensures t.JObj? ==> (r.None? <==> "Category" !in t.fields && !Get(t.fields, "Test", JStr("")).JStr?)
    ensures !t.JObj? ==> r.None? || r == Some(t)
    ensures !t.JObj? ==> (r.Some? <==>
      PyIn("Category", t) == Some(true) && PyIn("Severity", t) == Some(true) && PyIn("Status", t) == Some(true))
    ensures r.Some? ==> r.value.JObj? == t.JObj?
  {
    match t
    case JObj(d) =>
      (match FillCategory(d)
       case None => None
       case Some(c) => Some(JObj(FillStatus(FillSeverity(c)))))
    case _ =>
      if PyIn("Category", t) == Some(true) && PyIn("Severity", t) == Some(true) && PyIn("Status", t) == Some(true)
      then Some(t) else None
  }

  const AddedKeys: set<string> := {"Category", "Severity", "Status"}

  /** A normalised dict has exactly its old keys plus the three, and every old field keeps its
      value. */
  lemma NormaliseKeepsFields(d: Record)
    requires NormaliseRecord(JObj(d)).Some?
    ensures NormaliseRecord(JObj(d)).value.JObj?
    ensures NormaliseRecord(JObj(d)).value.fields.Keys == d.Keys + AddedKeys
    ensures forall k :: k in d ==> NormaliseRecord(JObj(d)).value.fields[k] == d[k]
  {
  }

  /** A record that already has all three fields is left exactly as it is. */
  lemma CompleteRecordUnchanged(d: Record)
    requires AddedKeys <= d.Keys
    ensures NormaliseRecord(JObj(d)) == Some(JObj(d))
  {
  }

  /** Normalising is idempotent: its result is left unchanged by a second pass. */
  lemma NormaliseIdempotent(t: Json)
    requires NormaliseRecord(t).Some?
    ensures NormaliseRecord(NormaliseRecord(t).value) == NormaliseRecord(t)
  {
    if t.JObj? {
      NormaliseKeepsFields(t.fields);
      CompleteRecordUnchanged(NormaliseRecord(t).value.fields);
    }
  }

  /** Severity is decided before the Status default is applied: a record with neither field
      ends up Normal, yet with a band or Moderate Severity, never `None`. */
  lemma MissingStatusNotNoneSeverity(d: Record)
    requires "Status" !in d && "Severity" !in d && NormaliseRecord(JObj(d)).Some?
    ensures NormaliseRecord(JObj(d)).value.fields["Status"] == JStr("Normal")
    ensures NormaliseRecord(JObj(d)).value.fields["Severity"] != JStr("None")
  {
    var c := FillCategory(d).value;
    assert "Status" !in c;
    assert !FieldIs(c, "Status", "Normal");
  }

  /** The order the Status default evidently intends: Status is filled in before Severity,
      so that the severity rule sees the default. Elements that are not dicts are treated
      as in `NormaliseRecord`. */
  function NormaliseRecordStatusFirst(t: Json): (r: Option<Json>)
    ensures r.None? <==> NormaliseRecord(t).None?
  {
    match t
    case JObj(d) =>
      (match FillCategory(d)
       case None => None
       case Some(c) => Some(JObj(FillSeverity(FillStatus(c)))))
    case _ => NormaliseRecord(t)
  }

  /** With Status filled in first, a record that had no Severity ends up with Severity
      `None` exactly when its Status is Normal. */
  lemma StatusFirstNoneIffNormal(d: Record)
    requires "Severity" !in d && NormaliseRecordStatusFirst(JObj(d)).Some?
    ensures NormaliseRecordStatusFirst(JObj(d)).value.JObj?
    ensures var f := NormaliseRecordStatusFirst(JObj(d)).value.fields;
      FieldIs(f, "Status", "Normal") <==> FieldIs(f, "Severity", "None")
  {
    var s := FillStatus(FillCategory(d).value);
    assert "Severity" !in s;
    assert FieldIs(FillSeverity(s), "Status", "Normal") <==> FieldIs(s, "Status", "Normal");
  }

  /** The two orders differ only for records without a Status. */
  lemma StatusFirstAgrees(t: Json)
    requires !t.JObj? || "Status" in t.fields
    ensures NormaliseRecordStatusFirst(t) == NormaliseRecord(t)
  {
    if t.JObj? && FillCategory(t.fields).Some? {
      var c := FillCategory(t.fields).value;
      assert "Status" in c;
      assert "Status" in FillSeverity(c);
    }
  }

  /** A record whose `Status` is Normal but has no Severity gets Severity `None`, whatever
      its value and range. */
  lemma NormalStatusNoneSeverity(d: Record)
    requires FieldIs(d, "Status", "Normal") && "Severity" !in d && NormaliseRecord(JObj(d)).Some?
    ensures NormaliseRecord(JObj(d)).value.fields["Severity"] == JStr("None")
  {
    var c := FillCategory(d).value;
    assert FieldIs(c, "Status", "Normal");
  }

  /** A value given as a JSON number, not a string, always yields Moderate: `.split()` does
      not exist on it. */
  lemma NumericValueModerate(value: real, range: Json)
    ensures BandOf(JNum(value), range) == "Moderate"
  {
  }

  /** A range with no hyphen, such as `<200` or `>50`, yields Moderate. */
  lemma NoHyphenModerate(value: Json, range: string)
    requires '-' !in range
    ensures BandOf(value, JStr(range)) == "Moderate"
  {
  }

  /** A range with two hyphens, such as `1-2-3` or `-5-5`, does not unpack into two bounds and
      yields Moderate. */
  lemma TwoHyphensModerate(value: Json, range: string, i: nat, j: nat)
    requires i < j < |range| && range[i] == '-' && range[j] == '-'
    ensures BandOf(value, JStr(range)) == "Moderate"
  {
    SplitAtLeastThree(range, '-', i, j);
  }

  /** A range holding a character that no number contains, other than white space and the
      hyphen (a unit as in `13.5-17.5 g/dL`), has no bounds. */
  lemma ForeignCharNoBounds(range: string, k: nat)
    requires k < |range| && !FloatChar(range[k]) && !IsSpace(range[k])
    ensures BoundsOf(JStr(range)).None?
  {
    var pieces := Split(range, '-');
    SplitCovers(range, '-', k);
    var j :| 0 <= j < |pieces| && range[k] in pieces[j];
    var m :| 0 <= m < |pieces[j]| && pieces[j][m] == range[k];
    ParseFloatForeign(pieces[j], m);
    if |pieces| == 2 {
      assert j == 0 || j == 1;
      assert !(ParseFloat(pieces[0]).Some? && ParseFloat(pieces[1]).Some?);
    }
  }

  /** Such a range yields Moderate. */
  lemma ForeignRangeCharModerate(value: Json, range: string, k: nat)
    requires k < |range| && !FloatChar(range[k]) && !IsSpace(range[k])
    ensures BandOf(value, JStr(range)) == "Moderate"
  {
    ForeignCharNoBounds(range, k);
  }

  /** A range whose two bounds are equal has zero width and yields Moderate. */
  lemma ZeroWidthModerate(value: Json, bound: string)
    requires '-' !in bound && ParseFloat(bound).Some?
    ensures BandOf(value, JStr(bound + "-" + bound)) == "Moderate"
  {
    SplitTwo(bound, bound, '-');
    assert bound + "-" + bound == bound + ['-'] + bound;
  }

  /** A digit string is read as its decimal value. */
  lemma ValueOfDigits(s: string)
    requires s != [] && AllDigits(s)
    ensures ValueOf(JStr(s)) == Some(DigitsValue(s) as real)
  {
    FirstTokenWhole(s);
    ParseFloatDigits(s);
  }

  /** Two digit strings joined by a hyphen are read as those two bounds. */
  lemma BoundsOfDigits(low: string, high: string)
    requires low != [] && AllDigits(low) && high != [] && AllDigits(high)
    ensures BoundsOf(JStr(low + "-" + high)) == Some((DigitsValue(low) as real, DigitsValue(high) as real))
  {
    assert '-' !in low && '-' !in high;
    SplitTwo(low, high, '-');
    assert low + "-" + high == low + ['-'] + high;
    assert (low + ['-'] + high)[|low|] == '-';
    ParseFloatDigits(low);
    ParseFloatDigits(high);
  }

  /** A whole-number value outside a whole-number range `low-high` with `low < high` is
      Severe. */
  lemma DigitsOutsideSevere(value: string, low: string, high: string)
    requires value != [] && AllDigits(value) && low != [] && AllDigits(low) && high != [] && AllDigits(high)
    requires DigitsValue(low) < DigitsValue(high)
    requires DigitsValue(value) < DigitsValue(low) || DigitsValue(high) < DigitsValue(value)
    ensures BandOf(JStr(value), JStr(low + "-" + high)) == "Severe"
  {
    ValueOfDigits(value);
    BoundsOfDigits(low, high);
    SevereIffOutside(DigitsValue(value) as real, DigitsValue(low) as real, DigitsValue(high) as real);
  }

  /** Glucose 105 against the range 70-99 lies about 0.707 range widths from the middle:
      Severe (the text "105" and "70-99" read as these numbers by `DigitsOutsideSevere`). */
  lemma GlucoseExampleSevere()
    ensures Deviation(105.0, 70.0, 99.0) > 0.5
    ensures Band(Deviation(105.0, 70.0, 99.0)) == "Severe"
  {
    SevereIffOutside(105.0, 70.0, 99.0);
  }

  /** A record with no Value is read as the value 0, not as a failure. */
  lemma MissingValueIsZero(d: Record)
    requires "Value" !in d
    ensures ValueOf(Get(d, "Value", JStr("0"))) == Some(0.0)
  {
    ValueOfDigits("0");
    assert DigitsValue("0") == 0;
  }

  /** The normalisation of a whole parsed list: every element normalised, in order; None as
      soon as any element raises. */
  function NormaliseAll(items: seq<Json>): (r: Option<seq<Json>>)
    ensures r.Some? <==> forall i :: 0 <= i < |items| ==> NormaliseRecord(items[i]).Some?
    ensures r.Some? ==> |r.value| == |items|
    ensures r.Some? ==> forall i :: 0 <= i < |items| ==> Some(r.value[i]) == NormaliseRecord(items[i])
  {
    if forall i :: 0 <= i < |items| ==> NormaliseRecord(items[i]).Some? then
      Some(seq(|items|, i requires 0 <= i < |items| && NormaliseRecord(items[i]).Some? =>
        NormaliseRecord(items[i]).value))
    else None
  }

  /** The `for test in structured_data` loop (lines 260-299), which updates each record of
      the list in place and stops at the first one whose update raises. */
  method NormaliseInPlace(a: array<Json>) returns (ok: bool)
    modifies a
    ensures ok <==> NormaliseAll(old(a[..])).Some?
    ensures ok ==> a[..] == NormaliseAll(old(a[..])).value
  {
    ghost var before := a[..];
    var i := 0;
    while i < a.Length
      invariant 0 <= i <= a.Length
      invariant forall k :: 0 <= k < i ==> NormaliseRecord(before[k]) == Some(a[k])
      invariant forall k :: i <= k < a.Length ==> a[k] == before[k]
    {
      var t := NormaliseRecord(a[i]);
      if t.None? {
        assert NormaliseRecord(before[i]).None?;
        return false;
      }
      a[i] := t.value;
      i := i + 1;
    }
    ok := true;
    assert forall k :: 0 <= k < a.Length ==> Some(a[..][k]) == NormaliseRecord(before[k]);
  }
}
