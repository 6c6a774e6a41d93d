/** The embedded knowledge of the PDF report generator: the category names and the test-name
    mapping used to group results, the category descriptions, and the generic interpretation
    and recommendation tables. */
module GeneratorKnowledge {
  import opened Lookup

  /** The generator's canned texts, by name; tables refer to texts through these names. */
  datatype Wording =
    | CompleteBloodCountInfo | InflammatoryMarkersInfo | IronStudiesInfo | DiabetesProfileInfo
    | KidneyFunctionTestInfo | LipidProfileInfo | LiverFunctionTestInfo | UrineRoutineMicroscopyInfo
    | CalciumAndBoneHealthInfo | VitaminProfileInfo | ThyroidFunctionTestInfo | OtherTestsInfo
    | GlucoseNote | HbA1cNote | CholesterolNote | HDLNote | LDLNote | TriglyceridesNote
    | HemoglobinNote | IronNote | VitaminDNote | TSHNote | CreatinineNote | OutsideRangeNote
    | GlucoseStep1 | GlucoseStep2 | GlucoseStep3 | GlucoseStep4 | GlucoseStep5 | HbA1cStep1
    | HbA1cStep2 | HbA1cStep3 | HbA1cStep4 | HbA1cStep5 | CholesterolStep1 | CholesterolStep2
    | CholesterolStep3 | CholesterolStep4 | CholesterolStep5 | HDLStep1 | HDLStep2 | HDLStep3
    | HDLStep4 | HDLStep5 | LDLStep1 | LDLStep2 | LDLStep3 | LDLStep4 | LDLStep5
    | TriglyceridesStep1 | TriglyceridesStep2 | TriglyceridesStep3 | TriglyceridesStep4
    | TriglyceridesStep5 | HemoglobinStep1 | HemoglobinStep2 | HemoglobinStep3 | HemoglobinStep4
    | HemoglobinStep5 | IronStep1 | IronStep2 | IronStep3 | IronStep4 | IronStep5 | VitaminDStep1
    | VitaminDStep2 | VitaminDStep3 | VitaminDStep4 | VitaminDStep5 | TSHStep1 | TSHStep2 | TSHStep3
    | TSHStep4 | TSHStep5 | CreatinineStep1 | CreatinineStep2 | CreatinineStep3 | CreatinineStep4
    | CreatinineStep5

  function Render(w: Wording): string {
    match w
    case CompleteBloodCountInfo => "Gives an insight into the health of blood and blood cells which are essential to carry out various bodily functions like transporting oxygen, fighting infections, and clotting blood after an injury."
    case InflammatoryMarkersInfo => "Helps to understand presence of an inflammation in the body. Inflammation is bodies defence against infection or injury."
    case IronStudiesInfo => "Iron is a vital mineral. It helps our blood cells to transport oxygen. Iron studies are used to assess level of iron in blood and blood's ability to attach itself to iron."
    case DiabetesProfileInfo => "Measures the level of glucose in the body and helps identify the body's ability to process glucose. It can be used for screnning as well as monitoring the treatment of diabetes."
    case KidneyFunctionTestInfo => "Performed to determine how well the kidneys are working. Kidneys regulate elimination of waste from our body and maintain electrolyte balance."
    case LipidProfileInfo => "Measures the amount of Cholesterol and Triglycerides in your blood. This gives an insight into the health of heart and blood vessels."
    case LiverFunctionTestInfo => "Group of blood tests commonly performed to evaluate the function of the liver which is essential to digest food and removing toxins from the body."
    case UrineRoutineMicroscopyInfo => "Microscopic examination of urine sample to check for the presence of blood cells, crystals, bacteria, parasites, and cells from tumors in it."
    case CalciumAndBoneHealthInfo => "Measures the levels of calcium and vitamin D in the blood which are responsible for keeping bones, teeth, and muscles healthy."
    case VitaminProfileInfo => "Vitamins are the essential nutrients for human life. This profile offers tests to check level of different types of vitamin B, vitamin D, vitamin E and vitamin K."
    case ThyroidFunctionTestInfo => "Window to the health of the butterfly shaped gland - Thyroid, which detemines how the body uses energy."
    case OtherTestsInfo => "Additional laboratory tests that provide valuable information about your health status."
    case GlucoseNote => "Elevated glucose levels may indicate diabetes or prediabetes. This suggests that your body is having difficulty regulating blood sugar levels."
    case HbA1cNote => "HbA1c measures your average blood sugar level over the past 2-3 months. Elevated levels indicate that your blood sugar has been consistently high, which is associated with diabetes."
    case CholesterolNote => "Elevated total cholesterol may increase your risk of heart disease and stroke. It's important to maintain healthy cholesterol levels through diet, exercise, and sometimes medication."
    case HDLNote => "HDL is often called 'good' cholesterol. Low levels of HDL cholesterol may increase your risk of heart disease."
    case LDLNote => "LDL is often called 'bad' cholesterol. Elevated levels of LDL cholesterol may increase your risk of heart disease and stroke."
    case TriglyceridesNote => "Elevated triglyceride levels may contribute to hardening of the arteries or thickening of the artery walls, which increases the risk of stroke, heart attack, and heart disease."
    case HemoglobinNote => "Low hemoglobin levels may indicate anemia, which means you don't have enough red blood cells to carry adequate oxygen to your tissues."
    case IronNote => "Low iron levels may lead to iron deficiency anemia. Iron is essential for producing hemoglobin, which carries oxygen in your blood."
    case VitaminDNote => "Low vitamin D levels are common and may affect bone health, immune function, and overall health. Vitamin D is produced when your skin is exposed to sunlight."
    case TSHNote => "Abnormal TSH levels may indicate a thyroid disorder. The thyroid gland produces hormones that regulate metabolism."
    case CreatinineNote => "Elevated creatinine levels may indicate kidney problems. Creatinine is a waste product that your kidneys filter from your blood."
    case OutsideRangeNote => "This test result is outside the reference range. Please consult with your healthcare provider for interpretation."
    case GlucoseStep1 => "Monitor your blood sugar levels regularly as recommended by your healthcare provider"
    case GlucoseStep2 => "Follow a balanced diet low in simple sugars and high in fiber"
    case GlucoseStep3 => "Engage in regular physical activity, aiming for at least 150 minutes of moderate exercise per week"
    case GlucoseStep4 => "Maintain a healthy weight or work toward weight loss if overweight"
    case GlucoseStep5 => "Take medications as prescribed by your healthcare provider"
    case HbA1cStep1 => "Work with your healthcare provider to develop a diabetes management plan"
    case HbA1cStep2 => "Monitor your blood sugar levels regularly"
    case HbA1cStep3 => "Follow a balanced diet with consistent carbohydrate intake throughout the day"
    case HbA1cStep4 => "Engage in regular physical activity"
    case HbA1cStep5 => "Take medications as prescribed"
    case CholesterolStep1 => "Adopt a heart-healthy diet low in saturated and trans fats"
    case CholesterolStep2 => "Increase consumption of fruits, vegetables, whole grains, and lean proteins"
    case CholesterolStep3 => "Engage in regular physical activity"
    case CholesterolStep4 => "Maintain a healthy weight"
    case CholesterolStep5 => "Avoid smoking and limit alcohol consumption"
    case HDLStep1 => "Engage in regular aerobic exercise"
    case HDLStep2 => "Quit smoking if applicable"
    case HDLStep3 => "Maintain a healthy weight"
    case HDLStep4 => "Include healthy fats in your diet, such as olive oil, nuts, and avocados"
    case HDLStep5 => "Limit refined carbohydrates and added sugars"
    case LDLStep1 => "Reduce intake of saturated and trans fats"
    case LDLStep2 => "Increase consumption of soluble fiber from sources like oats, beans, and fruits"
    case LDLStep3 => "Consider plant sterols and stanols, which can help lower LDL cholesterol"
    case LDLStep4 => "Engage in regular physical activity"
    case LDLStep5 => "Take medications as prescribed by your healthcare provider"
    case TriglyceridesStep1 => "Limit added sugars and refined carbohydrates"
    case TriglyceridesStep2 => "Reduce alcohol consumption"
    case TriglyceridesStep3 => "Choose omega-3 rich foods like fatty fish"
    case TriglyceridesStep4 => "Maintain a healthy weight"
    case TriglyceridesStep5 => "Engage in regular physical activity"
    case HemoglobinStep1 => "Include iron-rich foods in your diet, such as lean meats, beans, and leafy greens"
    case HemoglobinStep2 => "Pair iron-rich foods with vitamin C sources to enhance absorption"
    case HemoglobinStep3 => "Avoid consuming calcium-rich foods or coffee/tea with iron-rich meals"
    case HemoglobinStep4 => "Consider iron supplements if recommended by your healthcare provider"
    case HemoglobinStep5 => "Follow up with your healthcare provider to monitor your hemoglobin levels"
    case IronStep1 => "Include iron-rich foods in your diet"
    case IronStep2 => "Consider iron supplements if recommended by your healthcare provider"
    case IronStep3 => "Pair iron-rich foods with vitamin C sources to enhance absorption"
    case IronStep4 => "Avoid consuming calcium-rich foods or coffee/tea with iron-rich meals"
    case IronStep5 => "Follow up with your healthcare provider to monitor your iron levels"
    case VitaminDStep1 => "Spend time outdoors in sunlight, but avoid sunburn"
    case VitaminDStep2 => "Include vitamin D-rich foods in your diet, such as fatty fish, egg yolks, and fortified foods"
    case VitaminDStep3 => "Consider vitamin D supplements if recommended by your healthcare provider"
    case VitaminDStep4 => "Follow up with your healthcare provider to monitor your vitamin D levels"
    case VitaminDStep5 => "Be aware that certain medications can affect vitamin D levels"
    case TSHStep1 => "Follow up with your healthcare provider for further evaluation"
    case TSHStep2 => "Take thyroid medications as prescribed, if applicable"
    case TSHStep3 => "Be consistent with the timing of thyroid medication"
    case TSHStep4 => "Inform your healthcare provider of all medications and supplements you are taking"
    case TSHStep5 => "Monitor for symptoms of thyroid dysfunction and report them to your healthcare provider"
    case CreatinineStep1 => "Stay well-hydrated"
    case CreatinineStep2 => "Follow a kidney-friendly diet if recommended by your healthcare provider"
    case CreatinineStep3 => "Monitor your blood pressure regularly"
    case CreatinineStep4 => "Avoid medications that can harm the kidneys, such as certain pain relievers"
    case CreatinineStep5 => "Follow up with your healthcare provider to monitor your kidney function"
  }

  /** The twelve groups of `_group_results_by_category`; a group's dict key is its name. */
  datatype Category =
    | CompleteBloodCount | InflammatoryMarkers | IronStudies | DiabetesProfile | KidneyFunctionTest
    | LipidProfile | LiverFunctionTest | UrineRoutineMicroscopy | CalciumAndBoneHealth
    | VitaminProfile | ThyroidFunctionTest | OtherTests

  function CategoryName(c: Category): string {
    match c
    case CompleteBloodCount => "Complete Blood Count"
    case InflammatoryMarkers => "Inflammatory markers"
    case IronStudies => "Iron Studies"
    case DiabetesProfile => "Diabetes Profile"
    case KidneyFunctionTest => "Kidney Function Test"
    case LipidProfile => "Lipid Profile"
    case LiverFunctionTest => "Liver Function Test"
    case UrineRoutineMicroscopy => "Urine Routine & Microscopy"
    case CalciumAndBoneHealth => "Calcium and Bone Health"
    case VitaminProfile => "Vitamin Profile"
    case ThyroidFunctionTest => "Thyroid Function Test"
    case OtherTests => "Other Tests"
  }

  /** The keys of the `categories` dict, in declaration order. */
  function Categories(): seq<Category> {
    [ CompleteBloodCount, InflammatoryMarkers, IronStudies, DiabetesProfile,
      KidneyFunctionTest, LipidProfile, LiverFunctionTest, UrineRoutineMicroscopy,
      CalciumAndBoneHealth, VitaminProfile, ThyroidFunctionTest, OtherTests ]
  }

  /** `category_mapping`: test-name key to category, in declaration order. */
  function CategoryMapping(): (r: seq<(string, Category)>)
    ensures forall i :: 0 <= i < |r| ==> r[i].1 != UrineRoutineMicroscopy && r[i].1 != OtherTests
  {
    [ ("Hemoglobin", CompleteBloodCount),
      ("RBC", CompleteBloodCount),
      ("WBC", CompleteBloodCount),
      ("Platelets", CompleteBloodCount),
      ("Erythrocyte Sedimentation Rate", InflammatoryMarkers),
      ("C-Reactive Protein", InflammatoryMarkers),
      ("Iron", IronStudies),
      ("Ferritin", IronStudies),
      ("Transferrin", IronStudies),
      ("Glucose", DiabetesProfile),
      ("HbA1c", DiabetesProfile),
      ("Creatinine", KidneyFunctionTest),
      ("BUN", KidneyFunctionTest),
      ("eGFR", KidneyFunctionTest),
      ("Sodium", KidneyFunctionTest),
      ("Potassium", KidneyFunctionTest),
      ("Cholesterol", LipidProfile),
      ("Triglycerides", LipidProfile),
      ("HDL", LipidProfile),
      ("LDL", LipidProfile),
      ("AST", LiverFunctionTest),
      ("ALT", LiverFunctionTest),
      ("Bilirubin", LiverFunctionTest),
      ("Alkaline Phosphatase", LiverFunctionTest),
      ("Calcium", CalciumAndBoneHealth),
      ("Vitamin D", VitaminProfile),
      ("Vitamin B12", VitaminProfile),
      ("TSH", ThyroidFunctionTest),
      ("T3", ThyroidFunctionTest),
      ("T4", ThyroidFunctionTest) ]
  }

  /** `_get_category_description`'s `descriptions` dict. */
  function DescriptionTable(): (r: seq<(string, Wording)>)
    ensures DistinctKeys(r)
  {
    [ ("Complete Blood Count", CompleteBloodCountInfo),
      ("Inflammatory markers", InflammatoryMarkersInfo),
      ("Iron Studies", IronStudiesInfo),
      ("Diabetes Profile", DiabetesProfileInfo),
      ("Kidney Function Test", KidneyFunctionTestInfo),
      ("Lipid Profile", LipidProfileInfo),
      ("Liver Function Test", LiverFunctionTestInfo),
      ("Urine Routine & Microscopy", UrineRoutineMicroscopyInfo),
      ("Calcium and Bone Health", CalciumAndBoneHealthInfo),
      ("Vitamin Profile", VitaminProfileInfo),
      ("Thyroid Function Test", ThyroidFunctionTestInfo),
      ("Other Tests", OtherTestsInfo) ]
  }

  /** `_get_generic_interpretation`'s `interpretations` dict. */
  function InterpretationTable(): (r: seq<(string, Wording)>)
    ensures DistinctKeys(r)
  {
    [ ("Glucose", GlucoseNote),
      ("HbA1c", HbA1cNote),
      ("Cholesterol", CholesterolNote),
      ("HDL", HDLNote),
      ("LDL", LDLNote),
      ("Triglycerides", TriglyceridesNote),
      ("Hemoglobin", HemoglobinNote),
      ("Iron", IronNote),
      ("Vitamin D", VitaminDNote),
      ("TSH", TSHNote),
      ("Creatinine", CreatinineNote) ]
  }

  /** `_get_specific_recommendations`'s `recommendations` dict: five steps per key. */
  function RecommendationTable(): (t: seq<(string, seq<Wording>)>)
    ensures forall j :: 0 <= j < |t| ==> |t[j].1| == 5
  {
    [ ("Glucose", [GlucoseStep1, GlucoseStep2, GlucoseStep3, GlucoseStep4, GlucoseStep5]),
      ("HbA1c", [HbA1cStep1, HbA1cStep2, HbA1cStep3, HbA1cStep4, HbA1cStep5]),
      ("Cholesterol", [CholesterolStep1, CholesterolStep2, CholesterolStep3, CholesterolStep4, CholesterolStep5]),
      ("HDL", [HDLStep1, HDLStep2, HDLStep3, HDLStep4, HDLStep5]),
      ("LDL", [LDLStep1, LDLStep2, LDLStep3, LDLStep4, LDLStep5]),
      ("Triglycerides", [TriglyceridesStep1, TriglyceridesStep2, TriglyceridesStep3, TriglyceridesStep4, TriglyceridesStep5]),
      ("Hemoglobin", [HemoglobinStep1, HemoglobinStep2, HemoglobinStep3, HemoglobinStep4, HemoglobinStep5]),
      ("Iron", [IronStep1, IronStep2, IronStep3, IronStep4, IronStep5]),
      ("Vitamin D", [VitaminDStep1, VitaminDStep2, VitaminDStep3, VitaminDStep4, VitaminDStep5]),
      ("TSH", [TSHStep1, TSHStep2, TSHStep3, TSHStep4, TSHStep5]),
      ("Creatinine", [CreatinineStep1, CreatinineStep2, CreatinineStep3, CreatinineStep4, CreatinineStep5]) ]
  }
}
