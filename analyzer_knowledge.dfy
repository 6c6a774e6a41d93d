/** The embedded knowledge of the advanced report analyzer: per-test interpretation and
    recommendation texts, the lookups over them, and the canned fallback data and narrative
    returned when no real analysis is possible. */
module AnalyzerKnowledge {
  import opened Text
  import opened Data
  import opened Lookup

  /** The canned texts, by name. Tables refer to texts through these names, so that reasoning
      about a lookup never has to unfold the text itself. */
  datatype Phrase =
    | HemoglobinHighText | HemoglobinLowText | GlucoseHighText | GlucoseLowText
    | CholesterolHighText | CholesterolLowText
    | HemoglobinHighAdvice | HemoglobinLowAdvice | GlucoseHighAdvice | GlucoseLowAdvice
    | CholesterolHighAdvice | CholesterolLowAdvice | AdviceFallback
    | GlucoseMeasures | HbA1cMeasures | CholesterolMeasures | HdlMeasures | LdlMeasures
    | TriglyceridesMeasures | HemoglobinMeasures | IronMeasures | VitaminDMeasures
    | TshMeasures | CreatinineMeasures | MeasuresFallback
    | GlucoseTip1 | GlucoseTip2 | GlucoseTip3 | GlucoseTip4 | GlucoseTip5
    | HbA1cTip1 | HbA1cTip2 | HbA1cTip3 | HbA1cTip4 | HbA1cTip5
    | CholesterolTip1 | CholesterolTip2 | CholesterolTip3 | CholesterolTip4 | CholesterolTip5
    | FallbackTip1 | FallbackTip2 | FallbackTip3 | FallbackTip4
    | FallbackNarrative

  function Render(p: Phrase): string {
    match p
    case HemoglobinHighText => "Your hemoglobin (oxygen-carrying protein) is higher than normal. This might indicate polycythemia, dehydration, or living at high altitude."
    case HemoglobinLowText => "Your hemoglobin is low, which might make you feel tired or short of breath (anemia). This could be due to iron deficiency, chronic disease, or bleeding."
    case GlucoseHighText => "Your blood sugar is higher than normal, which might indicate pre-diabetes or diabetes if persistent. Other causes include stress, medications, or infection."
    case GlucoseLowText => "Your blood sugar is lower than normal, which might cause weakness, dizziness, confusion or shakiness. This could be due to excessive insulin, missed meals, or intense exercise."
    case CholesterolHighText => "Your cholesterol level is elevated, which may increase your risk of heart disease and stroke. This could be due to diet, genetics, or certain medical conditions."
    case CholesterolLowText => "Your cholesterol is lower than normal, which might affect hormone production and cell membrane integrity. This could be due to malnutrition, inflammation, or liver disease."
    case HemoglobinHighAdvice => "\U{2022} Stay well hydrated to reduce blood thickness\n\U{2022} Consider consulting a hematologist\n\U{2022} Regular exercise may help regulate blood cell production"
    case HemoglobinLowAdvice => "\U{2022} Include iron-rich foods (lean meats, spinach, beans)\n\U{2022} Consider iron supplements after consulting with your doctor\n\U{2022} Pair iron-rich foods with vitamin C sources to enhance absorption"
    case GlucoseHighAdvice => "\U{2022} Limit refined carbohydrates and added sugars\n\U{2022} Exercise regularly (30 minutes daily)\n\U{2022} Maintain healthy weight\n\U{2022} Consider consulting an endocrinologist"
    case GlucoseLowAdvice => "\U{2022} Eat regular, balanced meals\n\U{2022} Avoid long periods without eating\n\U{2022} Keep quick-acting carbohydrate sources available\n\U{2022} Consider small, frequent meals"
    case CholesterolHighAdvice => "\U{2022} Reduce saturated and trans fats in your diet\n\U{2022} Increase soluble fiber intake\n\U{2022} Exercise regularly\n\U{2022} Consider heart-healthy Mediterranean or DASH diet"
    case CholesterolLowAdvice => "\U{2022} Ensure adequate healthy fat intake\n\U{2022} Consider omega-3 rich foods\n\U{2022} Consult doctor about hormone health and nutritional status"
    case AdviceFallback => "\U{2022} Consult your healthcare provider for personalized advice\n\U{2022} Consider follow-up testing as recommended\n\U{2022} Monitor symptoms and changes"
    case GlucoseMeasures => "This test measures your blood sugar levels. Abnormal results may indicate issues with blood sugar regulation."
    case HbA1cMeasures => "This test shows your average blood sugar level over the past 2-3 months."
    case CholesterolMeasures => "This test measures blood fats that can affect your heart health."
    case HdlMeasures => "This measures 'good' cholesterol that helps remove other forms of cholesterol from your bloodstream."
    case LdlMeasures => "This measures 'bad' cholesterol that can build up in your arteries."
    case TriglyceridesMeasures => "This measures a type of fat in your blood that can affect heart health."
    case HemoglobinMeasures => "This measures the oxygen-carrying protein in your blood."
    case IronMeasures => "This measures the iron levels in your blood, which is important for producing red blood cells."
    case VitaminDMeasures => "This measures vitamin D levels, which is important for bone health and immune function."
    case TshMeasures => "This measures thyroid stimulating hormone, which indicates thyroid function."
    case CreatinineMeasures => "This measures kidney function by checking how well your kidneys filter waste."
    case MeasuresFallback => "This test result should be discussed with your healthcare provider for proper interpretation."
    case GlucoseTip1 => "Monitor your blood sugar levels as recommended"
    case GlucoseTip2 => "Follow a balanced diet low in simple sugars"
    case GlucoseTip3 => "Engage in regular physical activity"
    case GlucoseTip4 => "Maintain a healthy weight"
    case GlucoseTip5 => "Take medications as prescribed"
    case HbA1cTip1 => "Work with your healthcare provider on diabetes management"
    case HbA1cTip2 => "Monitor blood sugar levels regularly"
    case HbA1cTip3 => "Follow a balanced diet"
    case HbA1cTip4 => "Exercise regularly"
    case HbA1cTip5 => "Take medications as prescribed"
    case CholesterolTip1 => "Follow a heart-healthy diet"
    case CholesterolTip2 => "Exercise regularly"
    case CholesterolTip3 => "Maintain a healthy weight"
    case CholesterolTip4 => "Avoid smoking"
    case CholesterolTip5 => "Limit alcohol consumption"
    case FallbackTip1 => "Discuss these results with your healthcare provider"
    case FallbackTip2 => "Follow your provider's recommendations"
    case FallbackTip3 => "Report any concerning symptoms"
    case FallbackTip4 => "Schedule follow-up appointments as advised"
    // The narrative returned whenever no real analysis is available (the triple-quoted
    // literal, indentation included).
    case FallbackNarrative =>
    "\n"
    + "        EXECUTIVE SUMMARY\n"
    + "       \n"
    + "        We were unable to perform a complete analysis of your lab report. However, we've provided a basic interpretation based on common lab values.\n"
    + "       \n"
    + "        KEY CONCERNS AND RECOMMENDATIONS\n"
    + "       \n"
    + "        \U{2022} Please consult with your healthcare provider for a proper interpretation of your lab results\n"
    + "        \U{2022} Consider scheduling a follow-up appointment to discuss your results in detail\n"
    + "        \U{2022} Continue with any prescribed medications or treatments\n"
    + "       \n"
    + "        LIFESTYLE AND DIETARY ADVICE\n"
    + "       \n"
    + "        \U{2022} Maintain a balanced diet rich in fruits, vegetables, and whole grains\n"
    + "        \U{2022} Stay physically active with at least 150 minutes of moderate exercise per week\n"
    + "        \U{2022} Stay well-hydrated and get adequate sleep\n"
    + "        \U{2022} Manage stress through relaxation techniques or mindfulness practices\n"
    + "       \n"
    + "        Note: This is a fallback interpretation generated when our AI analysis system encounters difficulties. It is not based on your specific lab results.\n"
    + "        "
  }

  /** Per-test, per-status texts, in declaration order. */
  type StatusTable = seq<(string, map<string, Phrase>)>

  function InterpretationsDb(): (r: StatusTable)
    ensures forall i :: 0 <= i < |r| ==> r[i].1.Keys == {"High", "Low"}
  {
    [ ("Hemoglobin", map["High" := HemoglobinHighText, "Low" := HemoglobinLowText]),
      ("Glucose", map["High" := GlucoseHighText, "Low" := GlucoseLowText]),
      ("Total Cholesterol", map["High" := CholesterolHighText, "Low" := CholesterolLowText]) ]
  }

  function RecommendationsDb(): (r: StatusTable)
    ensures forall i :: 0 <= i < |r| ==> r[i].1.Keys == {"High", "Low"}
  {
    [ ("Hemoglobin", map["High" := HemoglobinHighAdvice, "Low" := HemoglobinLowAdvice]),
      ("Glucose", map["High" := GlucoseHighAdvice, "Low" := GlucoseLowAdvice]),
      ("Total Cholesterol", map["High" := CholesterolHighAdvice, "Low" := CholesterolLowAdvice]) ]
  }

  /** The text `db[test][status]` when `test in db and status in db[test]`; None otherwise. */
  function TableText(db: StatusTable, test: string, status: string): (r: Option<Phrase>)
    ensures r.Some? <==> exists j :: 0 <= j < |db| && db[j].0 == test && status in db[j].1 &&
                                      forall i :: 0 <= i < j ==> db[i].0 != test
    ensures r.Some? ==> exists j :: 0 <= j < |db| && db[j].0 == test && status in db[j].1 &&
                                    r.value == db[j].1[status]
  {
    match ExactFind(db, test)
    case Some(k) => if status in db[k].1 then Some(db[k].1[status]) else None
    case None => None
  }

  /** The tables have texts exactly for the three tests and the statuses High and Low. */
  lemma TableTextExactly(db: StatusTable, test: string, status: string)
    requires db == InterpretationsDb() || db == RecommendationsDb()
    ensures TableText(db, test, status).Some? <==>
      (test == "Hemoglobin" || test == "Glucose" || test == "Total Cholesterol") && (status == "High" || status == "Low")
  {
    var k := ExactFind(db, test);
    if test == "Hemoglobin" { assert k == Some(0); }
    else if test == "Glucose" { assert k == Some(1); }
    else if test == "Total Cholesterol" { assert k == Some(2); }
    else { assert k.None?; }
  }

  /** The sentence used when the interpretation table has no text. */
  function LaymanTemplate(status: string): string {
    "This test is " + Lower(status) + " than the normal range. Consult your healthcare provider for specific advice."
  }

  /** `generate_layman_interpretation(test, status, severity)`: the table text on an exact
      test and status hit, otherwise the template (the severity is not used). */
  function GenerateLaymanInterpretation(test: string, status: string): (r: string)
    ensures TableText(InterpretationsDb(), test, status).Some? ==> r == Render(TableText(InterpretationsDb(), test, status).value)
    ensures TableText(InterpretationsDb(), test, status).None? ==> r == LaymanTemplate(status)
  {
    match TableText(InterpretationsDb(), test, status)
    case Some(p) => Render(p)
    case None => LaymanTemplate(status)
  }

  /** `generate_recommendations(test, status)`: the table text on an exact hit, otherwise three
      fixed bullets. */
  function GenerateRecommendations(test: string, status: string): (r: string)
    ensures TableText(RecommendationsDb(), test, status).Some? ==> r == Render(TableText(RecommendationsDb(), test, status).value)
    ensures TableText(RecommendationsDb(), test, status).None? ==> r == Render(AdviceFallback)
  {
    Render(TableText(RecommendationsDb(), test, status).GetOr(AdviceFallback))
  }

  /** Only the exact spellings answer: any other capitalisation of a known test falls back. */
  lemma LaymanExactSpellingOnly(status: string)
    ensures GenerateLaymanInterpretation("hemoglobin", status) == LaymanTemplate(status)
    ensures GenerateLaymanInterpretation("Hemoglobin", "high") == LaymanTemplate("high")
  {
    TableTextExactly(InterpretationsDb(), "hemoglobin", status);
    TableTextExactly(InterpretationsDb(), "Hemoglobin", "high");
  }

  function GenericInterpretations(): (r: seq<(string, Phrase)>)
    ensures forall i :: 0 <= i < |r| ==> r[i].1 != MeasuresFallback
  {
    [ ("Glucose", GlucoseMeasures), ("HbA1c", HbA1cMeasures), ("Cholesterol", CholesterolMeasures),
      ("HDL", HdlMeasures), ("LDL", LdlMeasures), ("Triglycerides", TriglyceridesMeasures),
      ("Hemoglobin", HemoglobinMeasures), ("Iron", IronMeasures), ("Vitamin D", VitaminDMeasures),
      ("TSH", TshMeasures), ("Creatinine", CreatinineMeasures) ]
  }

  const MeasuresPrefix: string := "This test measures "
  const AbnormalSentence: string :=
    "Abnormal results may indicate various conditions and should be discussed with your healthcare provider."

  /** The sentence built from a table entry: its High text up to "is higher", stripped. */
  function MeasuresSentence(texts: map<string, Phrase>): (r: string)
    ensures IsPrefix(MeasuresPrefix, r)
  {
    var high := if "High" in texts then Render(texts["High"]) else "";
    MeasuresPrefix + Strip(BeforeFirst(high, "is higher")) + ". " + AbnormalSentence
  }

  /** Which text `_get_generic_interpretation` builds its answer from. */
  datatype GenericSource = FromTable(entry: nat) | FromGeneric(p: Phrase)

  /** The search order of `_get_generic_interpretation`: the interpretation table first
      (case-insensitive substring of the name), then the generic table, then a fixed sentence. */
  function GenericSourceOf(testName: string): (r: GenericSource)
    ensures r.FromTable? <==> exists j :: 0 <= j < |InterpretationsDb()| && Matches(InterpretationsDb()[j].0, testName)
    ensures r.FromTable? ==> r.entry < |InterpretationsDb()| && Matches(InterpretationsDb()[r.entry].0, testName)
    ensures r.FromTable? ==> FirstMatchIs(InterpretationsDb(), testName, r.entry)
    ensures NoMatch(InterpretationsDb(), testName) ==>
      forall j: nat :: FirstMatchIs(GenericInterpretations(), testName, j) ==> r == FromGeneric(GenericInterpretations()[j].1)
    ensures NoMatch(InterpretationsDb(), testName) && NoMatch(GenericInterpretations(), testName) ==>
      r == FromGeneric(MeasuresFallback)
    ensures r.FromGeneric? && r.p == MeasuresFallback ==>
      forall j :: 0 <= j < |GenericInterpretations()| ==> !Matches(GenericInterpretations()[j].0, testName)
  {
    match FirstMatch(InterpretationsDb(), testName)
    case Some(k) => FromTable(k)
    case None => FromGeneric(FirstMatchOr(GenericInterpretations(), testName, MeasuresFallback))
  }

  /** `_get_generic_interpretation(test_name)`. */
  function GenericInterpretation(testName: string): (r: string)
    ensures GenericSourceOf(testName).FromTable? ==> IsPrefix(MeasuresPrefix, r)
    ensures forall j: nat :: FirstMatchIs(InterpretationsDb(), testName, j) ==> r == MeasuresSentence(InterpretationsDb()[j].1)
    ensures GenericSourceOf(testName).FromGeneric? ==> r == Render(GenericSourceOf(testName).p)
  {
    match GenericSourceOf(testName)
    case FromTable(k) =>
      assert forall j: nat :: FirstMatchIs(InterpretationsDb(), testName, j) ==> j == k by {
        forall j: nat | FirstMatchIs(InterpretationsDb(), testName, j) ensures j == k {
          FirstMatchOnce(InterpretationsDb(), testName, j, k);
        }
      }
      MeasuresSentence(InterpretationsDb()[k].1)
    case FromGeneric(p) => Render(p)
  }

  /** The generic table's Glucose and Hemoglobin entries are never used: any name they match
      is caught by the interpretation table first. */
  lemma GenericEntriesShadowed(testName: string)
    requires Matches("Glucose", testName) || Matches("Hemoglobin", testName)
    ensures GenericSourceOf(testName).FromTable?
    ensures IsPrefix(MeasuresPrefix, GenericInterpretation(testName))
  {
    if Matches("Glucose", testName) {
      assert Matches(InterpretationsDb()[1].0, testName);
    } else {
      assert Matches(InterpretationsDb()[0].0, testName);
    }
  }

  /** What `_get_specific_recommendations` returns: in the first branch `list(set(...))`, whose
      order is unspecified, so it is modelled as a set; otherwise an ordered list. */
  datatype Advice = Unordered(lines: set<string>) | Ordered(items: seq<string>)

  /** Every line of every status text of a table entry. */
  function AllLines(texts: map<string, Phrase>): (r: set<string>)
    ensures forall p, l :: p in texts.Values && l in Split(Render(p), '\n') ==> l in r
    ensures forall l :: l in r ==> exists p :: p in texts.Values && l in Split(Render(p), '\n')
  {
    set p, l | p in texts.Values && l in Split(Render(p), '\n') :: l
  }

  function GenericRecommendations(): (r: seq<(string, seq<Phrase>)>)
    ensures forall i :: 0 <= i < |r| ==> |r[i].1| == 5
  {
    [ ("Glucose", [GlucoseTip1, GlucoseTip2, GlucoseTip3, GlucoseTip4, GlucoseTip5]),
      ("HbA1c", [HbA1cTip1, HbA1cTip2, HbA1cTip3, HbA1cTip4, HbA1cTip5]),
      ("Cholesterol", [CholesterolTip1, CholesterolTip2, CholesterolTip3, CholesterolTip4, CholesterolTip5]) ]
  }

  const GenericRecommendationsFallback: seq<Phrase> := [FallbackTip1, FallbackTip2, FallbackTip3, FallbackTip4]

  /** The per-status tables list each test once, as the dictionary literals do. */
  lemma StatusTablesDistinct()
    ensures DistinctKeys(InterpretationsDb()) && DistinctKeys(RecommendationsDb())
  {
  }

  /** The generic tables list each key once, as the dictionary literals do. */
  lemma GenericTablesDistinct()
    ensures DistinctKeys(GenericInterpretations()) && DistinctKeys(GenericRecommendations())
  {
  }

  /** `_get_specific_recommendations(test_name)`: for the first recommendations-table test that
      the name contains, every line of its texts; else the first matching generic list; else
      four fixed items. */
  function SpecificRecommendations(testName: string): (r: Advice)
    ensures r.Unordered? <==> exists j :: 0 <= j < |RecommendationsDb()| && Matches(RecommendationsDb()[j].0, testName)
    ensures r.Unordered? ==> exists j :: 0 <= j < |RecommendationsDb()| && Matches(RecommendationsDb()[j].0, testName) &&
                                         r.lines == AllLines(RecommendationsDb()[j].1)
    ensures forall j: nat :: FirstMatchIs(RecommendationsDb(), testName, j) ==> r == Unordered(AllLines(RecommendationsDb()[j].1))
    ensures NoMatch(RecommendationsDb(), testName) ==>
      forall j: nat :: FirstMatchIs(GenericRecommendations(), testName, j) ==> r == Ordered(RenderAll(Render, GenericRecommendations()[j].1))
    ensures NoMatch(RecommendationsDb(), testName) && NoMatch(GenericRecommendations(), testName) ==>
      r == Ordered(RenderAll(Render, GenericRecommendationsFallback))
    ensures r.Ordered? ==> |r.items| == 5 || r.items == RenderAll(Render, GenericRecommendationsFallback)
  {
    match FirstMatch(RecommendationsDb(), testName)
    case Some(k) => Unordered(AllLines(RecommendationsDb()[k].1))
    case None => Ordered(RenderAll(Render, FirstMatchOr(GenericRecommendations(), testName, GenericRecommendationsFallback)))
  }

  /** The three records returned whenever no real analysis is available. */
  function FallbackData(): (r: seq<Json>)
    ensures |r| == 3 && forall i :: 0 <= i < |r| ==> r[i].JObj? && "Test" in r[i].fields
  {
    [ JObj(map["Test" := JStr("Hemoglobin"), "Value" := JStr("14.5 g/dL"), "ReferenceRange" := JStr("13.5-17.5 g/dL"),
          "Status" := JStr("Normal"), "Category" := JStr("Complete Blood Count"), "Severity" := JStr("None")]),
      JObj(map["Test" := JStr("Glucose"), "Value" := JStr("95 mg/dL"), "ReferenceRange" := JStr("70-99 mg/dL"),
          "Status" := JStr("Normal"), "Category" := JStr("Metabolic Panel"), "Severity" := JStr("None")]),
      JObj(map["Test" := JStr("Total Cholesterol"), "Value" := JStr("210 mg/dL"), "ReferenceRange" := JStr("125-200 mg/dL"),
          "Status" := JStr("High"), "Category" := JStr("Lipid Panel"), "Severity" := JStr("Mild")]) ]
  }

  const SixFields: set<string> := {"Test", "Value", "ReferenceRange", "Status", "Category", "Severity"}

  /** Every fallback record has exactly the six fields, all strings, and the Normal ones have
      Severity "None" (and only they do). */
  lemma FallbackDataWellFormed()
    ensures |FallbackData()| == 3
    ensures forall i :: 0 <= i < 3 ==> FallbackData()[i].JObj? && FallbackData()[i].fields.Keys == SixFields
    ensures forall i, k :: 0 <= i < 3 && k in FallbackData()[i].fields ==> FallbackData()[i].fields[k].JStr?
    ensures forall i :: 0 <= i < 3 ==>
      (FieldIs(FallbackData()[i].fields, "Status", "Normal") <==> FieldIs(FallbackData()[i].fields, "Severity", "None"))
  {
  }
}
