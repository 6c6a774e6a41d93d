# Lab report analysis: a verified model of the result pipeline

This project models, in Dafny, the core of a medical lab-report assistant. The assistant
asks a generative AI model to interpret a lab report and to extract its test results as a JSON
array. It repairs and normalises the extracted records. It groups and filters them for the PDF
report, and it derives the numbers shown on its charts (severity counts, category tallies, trend
direction, health score). The model covers:

- `ReportAnalyzer` (`analyzer.dfy`): the control flow of `analyze_lab_report`. This includes the
  primary/backup model fallback, the conversion of a response object to text, cutting out the
  JSON array, the repair-and-retry parse, list wrapping, and the fallback pair on every failure
  path. The AI models are functions from a prompt to a reply (raise or return); `json.loads`
  is a parameter.
- `Normalise` (`normalise.dfy`): the per-record defaults. That is the keyword category, the
  severity banding from the value and the reference range, and the default status, including
  every way the severity calculation falls back to "Moderate".
- `Salvage` (`salvage.dfy`): the text surgery on the extraction. That is the bracket slice and
  the two regular-expression repairs (quote bare keys, replace single quotes).
- `AnalyzerKnowledge` and `GeneratorKnowledge` (`analyzer_knowledge.dfy`,
  `generator_knowledge.dfy`): the built-in interpretation, recommendation, category and
  fallback tables, and the lookups over them.
- `ReportGenerator` (`report_generator.dfy`): grouping the results by category with the
  first-matching-keyword mapping, the description, interpretation and recommendation lookups,
  and the abnormal-result filter.
- `Visualization` (`visualization.dfy`): the severity chart's derived column and counts, the
  category chart's defaults, value counts and sorted tallies, the trend chart's value collection
  and direction, and the health-score extraction. The DataFrame is a class `Frame` whose rows and
  columns the chart methods update in place.
- `PdfProcessor` (`pdf_processor.dfy`): the table-of-contents line parser and the section-text
  cleaner.
- `Text`, `Data` and `Lookup` (`text.dfy`, `data.dfy`, `lookup.dfy`) hold the Python string
  operations (`strip`, `split`, `find`, `lower`, `float`), the JSON value type and the
  case-insensitive "key occurs in name" table lookup.

Python exceptions are modelled as `None` results that the caller turns into the same fallback the
source's `except` produces. Behaviours of the code that a reader might not expect, and that the
model keeps:

- Results are grouped in the fixed declaration order of the category dictionary.
- An extraction that cannot be parsed even after repair yields the fallback records.
- A record without a `Value` is read as `"0"`, that is as the value 0.
- Severity is filled in before the status default, so a record with neither field ends up
  `Normal` with a severity other than `None` (see Findings).

## Model

| member | source | states |
|---|---|---|
| `Text.Strip` | src/report_analyzer.py:231 | the result is the input with a white-space prefix and a white-space suffix removed, and it neither starts nor ends with white space |
| `Text.StripEmptyIffAllSpace` | src/pdf_processor.py:170 | a line strips to empty exactly when it is all white space |
| `Text.Find` | src/report_analyzer.py:234 | the index of the first `[`, or none when it does not occur |
| `Text.RFind` | src/report_analyzer.py:235 | the index of the last `]`, or none when it does not occur |
| `Text.Split` | src/pdf_processor.py:169 | at least one piece, none containing the separator, and the whole text when the separator does not occur |
| `Text.JoinSplit` | src/pdf_processor.py:186 | `'\n'.join(s.split('\n'))` is the identity |
| `Text.SplitLength` | src/pdf_processor.py:186 | splitting gives one more piece than there are separators |
| `Text.FirstToken` | src/report_analyzer.py:279 | `split()[0]`: a non-empty run of non-space characters that follows only white space and ends at white space or the end of the text; it fails exactly on blank text |
| `Text.ParseFloatDigits` | src/report_analyzer.py:279 | `float` of a digit string is its decimal value |
| `Text.ParseFloatForeign` | src/report_analyzer.py:280-282 | `float` fails on text holding a character that cannot occur in a number |
| `Data.Get` | src/report_analyzer.py:262 | `dict.get` returns the stored value when the key is present and the default otherwise |
| `Data.TextOf` | src/report_analyzer.py:213-227 | a response's `.text` when it has one, otherwise exactly the concatenation of its parts, otherwise its `str` |
| `Lookup.FirstMatch` | src/report_generator.py:1126-1129 | the index of the first key whose lower case occurs in the lower-cased name; none exactly when no key does |
| `Lookup.FirstMatchOr` | src/report_generator.py:1125-1129 | the value of the first matching key, or the default when no key matches |
| `Lookup.FirstMatchValue` | src/report_analyzer.py:458-460 | the value of the first matching key; none exactly when no key matches |
| `Lookup.FirstMatchUnique` | src/report_generator.py:1126-1129 | the first match is unique: any index that matches with no earlier match is the one found |
| `Lookup.ExactFind` | src/report_generator.py:1153 | the index of the entry whose key equals the name exactly; none exactly when there is none |
| `AnalyzerKnowledge.TableText` | src/report_analyzer.py:170 | a text exists exactly when the test is a key of the table and the status a key of its entry |
| `AnalyzerKnowledge.InterpretationsDb` | src/report_analyzer.py:69-86 | each test has a High and a Low text |
| `AnalyzerKnowledge.RecommendationsDb` | src/report_analyzer.py:88-103 | each test has a High and a Low text |
| `AnalyzerKnowledge.StatusTablesDistinct` | src/report_analyzer.py:69-103 | neither per-status table lists a test twice |
| `AnalyzerKnowledge.TableTextExactly` | src/report_analyzer.py:69-103 | in the interpretation and recommendation tables the lookup succeeds exactly for their listed tests and statuses |
| `AnalyzerKnowledge.GenerateLaymanInterpretation` | src/report_analyzer.py:168-172 | the table text when the exact test and status are listed, otherwise the "higher/lower than the normal range" template for the status |
| `AnalyzerKnowledge.LaymanExactSpellingOnly` | src/report_analyzer.py:168-172 | the lookup is case-sensitive: "hemoglobin", or the status "high", gets the template |
| `AnalyzerKnowledge.GenerateRecommendations` | src/report_analyzer.py:174-178 | the table text when listed, otherwise the three-line consult-your-provider advice |
| `AnalyzerKnowledge.MeasuresSentence` | src/report_analyzer.py:437-440 | the combined interpretation starts with "This test measures " |
| `AnalyzerKnowledge.GenericInterpretations` | src/report_analyzer.py:443-455 | no generic entry is the final default sentence, so that sentence is given only when no key matches |
| `AnalyzerKnowledge.GenericSourceOf` | src/report_analyzer.py:431-462 | the text comes from the interpretation table exactly when some table key occurs in the name, and then from the first such key; otherwise from the first matching generic key; the final default only when neither table matches |
| `AnalyzerKnowledge.GenericInterpretation` | src/report_analyzer.py:431-462 | the first interpretation-table match gives its "This test measures" sentence; otherwise the generic text chosen by `GenericSourceOf` |
| `AnalyzerKnowledge.GenericEntriesShadowed` | src/report_analyzer.py:443-460 | the generic "glucose" and "hemoglobin" entries can never be returned, because the table keys match first |
| `AnalyzerKnowledge.AllLines` | src/report_analyzer.py:470-473 | the set holds exactly the lines of all the entry's recommendation texts |
| `AnalyzerKnowledge.GenericRecommendations` | src/report_analyzer.py:476-498 | each generic key has five items |
| `AnalyzerKnowledge.GenericTablesDistinct` | src/report_analyzer.py:443-498 | neither generic table lists a key twice |
| `AnalyzerKnowledge.SpecificRecommendations` | src/report_analyzer.py:464-508 | the first recommendation-table match gives the set of its lines; with no table match, the five generic items of the first matching generic key; with neither, the four default items |
| `AnalyzerKnowledge.FallbackDataWellFormed` | src/report_analyzer.py:310-338 | the fallback data is three records with the same six string fields, each Normal exactly when its severity is None |
| `AnalyzerKnowledge.FallbackData` | src/report_analyzer.py:310-338 | three dictionaries, each with a test name |
| `GeneratorKnowledge.RecommendationTable` | src/report_generator.py:1180-1258 | every test in the generator's recommendation table has five recommendations |
| `GeneratorKnowledge.CategoryMapping` | src/report_generator.py:1087-1118 | no key maps to Urine Routine & Microscopy or to Other Tests, so those groups are reached only by the default |
| `GeneratorKnowledge.DescriptionTable` | src/report_generator.py:1138-1151 | the category descriptions, no category listed twice |
| `GeneratorKnowledge.InterpretationTable` | src/report_generator.py:1157-1169 | the generic interpretation keys, none listed twice |
| `Normalise.CategoryFromName` | src/report_analyzer.py:261-271 | the category is blood count exactly when a blood-count keyword occurs in the lower-cased name; metabolic exactly when a metabolic keyword does and no blood-count keyword; lipid and other likewise |
| `Normalise.CategoryIgnoresCase` | src/report_analyzer.py:262 | the category does not depend on the name's case |
| `Normalise.HdlCholesterolIsLipid` | src/report_analyzer.py:267-268 | "HDL Cholesterol" is a lipid test |
| `Normalise.HemoglobinA1cIsBloodCount` | src/report_analyzer.py:263-264 | "Hemoglobin A1c" is put under Complete Blood Count by the "hemoglobin" keyword |
| `Normalise.EarlierGroupWins` | src/report_analyzer.py:263-269 | an example of the rule `CategoryFromName` states: "LDL / Hemoglobin", with a lipid and a blood-count keyword, takes the blood-count group, which is tested first |
| `Normalise.Band` | src/report_analyzer.py:286-291 | the band is one of Severe, Moderate, Mild, and Mild exactly when the deviation is at most 0.25 |
| `Normalise.BandMonotone` | src/report_analyzer.py:286-291 | a larger deviation never gives a milder band; the boundaries 0.25 and 0.5 fall in the milder band |
| `Normalise.Deviation` | src/report_analyzer.py:283-284 | for a proper range the deviation is not negative, and it is zero exactly at the middle of the range |
| `Normalise.SevereIffOutside` | src/report_analyzer.py:283-291 | for a proper range, Severe exactly when the value lies outside the range |
| `Normalise.MildIffMiddleHalf` | src/report_analyzer.py:283-291 | for a proper range, Mild exactly when the value lies within the middle half of the range |
| `Normalise.ReversedRangeMild` | src/report_analyzer.py:283-291 | a range written high-to-low gives a negative deviation and so always Mild |
| `Normalise.GlucoseExampleSevere` | src/report_analyzer.py:283-291 | a glucose of 105 against 70-99 is Severe |
| `Normalise.ValueOf` | src/report_analyzer.py:279 | a non-string or blank value fails to parse; any other string gives the `float` of its first word |
| `Normalise.ValueOfDigits` | src/report_analyzer.py:279 | a digit-string value parses to its decimal value |
| `Normalise.MissingValueIsZero` | src/report_analyzer.py:279 | a record without a `Value` is read as 0 |
| `Normalise.BoundsOf` | src/report_analyzer.py:280-282 | bounds exist exactly for a string with one hyphen whose two sides both parse as floats, and they are those two floats |
| `Normalise.BoundsOfDigits` | src/report_analyzer.py:280-282 | "low-high" made of digit strings gives their values |
| `Normalise.BandOf` | src/report_analyzer.py:278-295 | Moderate when the value or range cannot be read or the range is empty, otherwise the band of the deviation |
| `Normalise.NumericValueModerate` | src/report_analyzer.py:279-295 | a value that is a JSON number (no `split`) gives Moderate |
| `Normalise.NoHyphenModerate` | src/report_analyzer.py:281-293 | a range without a hyphen gives Moderate |
| `Normalise.TwoHyphensModerate` | src/report_analyzer.py:282-295 | a range with two hyphens (such as a negative bound) gives Moderate |
| `Normalise.ForeignCharNoBounds` | src/report_analyzer.py:282 | a range holding a unit or other foreign character has no bounds |
| `Normalise.ForeignRangeCharModerate` | src/report_analyzer.py:282-295 | such a range gives Moderate |
| `Normalise.ZeroWidthModerate` | src/report_analyzer.py:284-295 | a range "x-x" divides by zero and gives Moderate |
| `Normalise.DigitsOutsideSevere` | src/report_analyzer.py:279-291 | digit-string value and bounds with the value outside the range give Severe |
| `Normalise.SeverityOf` | src/report_analyzer.py:273-295 | None exactly when the status is the string "Normal", otherwise the band from value and range |
| `Normalise.FillCategory` | src/report_analyzer.py:261-271 | a present category is kept; otherwise the category from the test name is added, and a non-string test name fails |
| `Normalise.FillSeverity` | src/report_analyzer.py:273-295 | a missing severity is added from `SeverityOf`; every other field is kept |
| `Normalise.FillStatus` | src/report_analyzer.py:297-299 | a missing status is added as "Normal"; every other field is kept |
| `Normalise.NormaliseRecord` | src/report_analyzer.py:260-299 | a record fails exactly when it lacks a category and its test name is not a string; a non-record item passes only if it supports the membership tests, unchanged |
| `Normalise.NormaliseKeepsFields` | src/report_analyzer.py:260-299 | normalising adds exactly Category, Severity and Status and keeps every existing field's value |
| `Normalise.CompleteRecordUnchanged` | src/report_analyzer.py:261-299 | a record holding all three fields is left as it is |
| `Normalise.NormaliseIdempotent` | src/report_analyzer.py:260-299 | normalising a normalised record changes nothing |
| `Normalise.NormalStatusNoneSeverity` | src/report_analyzer.py:273-275 | a record whose status is "Normal" gets severity None |
| `Normalise.MissingStatusNotNoneSeverity` | src/report_analyzer.py:273-299 | a record with neither status nor severity ends up Normal with a severity other than None |
| `Normalise.NormaliseRecordStatusFirst` | src/report_analyzer.py:273-299 | with the status default applied first, a record fails exactly when the source's order fails |
| `Normalise.StatusFirstNoneIffNormal` | src/report_analyzer.py:273-299 | with the status default applied first, a record without severity gets None exactly when its status is Normal |
| `Normalise.StatusFirstAgrees` | src/report_analyzer.py:273-299 | when the status is present, both orders give the same record |
| `Normalise.NormaliseAll` | src/report_analyzer.py:259-299 | succeeds exactly when every item normalises, keeping the length and each item's normalised form |
| `Normalise.NormaliseInPlace` | src/report_analyzer.py:259-299 | the array is normalised item by item in place, reporting failure exactly when some item fails |
| `Salvage.SalvageCases` | src/report_analyzer.py:232-240 | text starting with `[` is kept; the slice fails exactly when it does not start with `[` and lacks `[` or `]` |
| `Salvage.SalvageBounds` | src/report_analyzer.py:234-237 | the slice runs from the first `[` to the last `]` inclusive, and is empty when the last `]` comes before the first `[` |
| `Salvage.SalvageShape` | src/report_analyzer.py:232-237 | the result occurs in the text and, when not empty, starts with `[` |
| `Salvage.SalvageIdempotent` | src/report_analyzer.py:232-237 | cutting out the array a second time changes nothing |
| `Salvage.SalvageArray` | src/report_analyzer.py:232-237 | what is kept occurs in the reply; a cut-out slice that is not empty starts with `[` and ends with `]` |
| `Salvage.TakeWord` | src/report_analyzer.py:247 | the longest prefix of word characters |
| `Salvage.QuoteKeys` | src/report_analyzer.py:247 | quoting keys only inserts characters, so the text never shrinks |
| `Salvage.QuoteKeysNoBareKey` | src/report_analyzer.py:247 | after the key-quoting substitution no word character is directly followed by `:` |
| `Salvage.QuoteKeysFixed` | src/report_analyzer.py:247 | text without a bare key is left unchanged |
| `Salvage.QuoteKeysIdempotent` | src/report_analyzer.py:247 | quoting keys twice is the same as once |
| `Salvage.QuoteKeysOnlyAddsQuotes` | src/report_analyzer.py:247 | removing double quotes from the result gives the input without double quotes |
| `Salvage.ReplaceQuotes` | src/report_analyzer.py:248 | each single quote becomes a double quote and nothing else changes |
| `Salvage.RepairNormalForm` | src/report_analyzer.py:247-248 | the repaired text has no single quote and no bare key, and repairing it again changes nothing |
| `Salvage.Repair` | src/report_analyzer.py:247-248 | the repaired text has no single quote and is at least as long as the input |
| `ReportAnalyzer.Attempt` | src/report_analyzer.py:196-200 | an exception on the interpretation prompt leaves both variables as they were; otherwise the interpretation is the model's reply, and the extraction is either unchanged or the model's reply to its own prompt |
| `ReportAnalyzer.Responses` | src/report_analyzer.py:190-207 | with no model configured there is no response; an extraction response is only ever held together with an interpretation response |
| `ReportAnalyzer.PrimaryPreferred` | src/report_analyzer.py:193-207 | when the primary model answers both prompts with truthy responses, the backup is never consulted |
| `ReportAnalyzer.NoBackupPrimaryOnly` | src/report_analyzer.py:193-207 | without a backup, the responses are those of the primary |
| `ReportAnalyzer.ResponseProvenance` | src/report_analyzer.py:193-207 | each response present was returned by the primary or the backup model for its own prompt |
| `ReportAnalyzer.MixedResponses` | src/report_analyzer.py:201-207 | when the backup raises on its second prompt, the pair mixes the backup's interpretation with the primary's extraction |
| `ReportAnalyzer.CollectResponses` | src/report_analyzer.py:190-207 | the two responses are those of the primary/backup fallback specified by `Responses` |
| `ReportAnalyzer.CleanExtraction` | src/report_analyzer.py:230-240 | the extraction text is stripped and then cut to its array |
| `ReportAnalyzer.CutOutArray` | src/report_analyzer.py:232-240 | the array is cut out as `SalvageArray` specifies |
| `ReportAnalyzer.ParseExtraction` | src/report_analyzer.py:242-253 | text that parses is taken as it is; otherwise the repaired text is parsed |
| `ReportAnalyzer.ParseWithRepair` | src/report_analyzer.py:242-253 | the parse with one repair-and-retry, as `ParseExtraction` specifies |
| `ReportAnalyzer.AsList` | src/report_analyzer.py:255-257 | a list is kept, any other value becomes a one-item list |
| `ReportAnalyzer.Extraction` | src/report_analyzer.py:230-253 | no array in the text gives no data; otherwise the parse of the cut-out text |
| `ReportAnalyzer.Finish` | src/report_analyzer.py:255-308 | an unparsed extraction gives the fallback records with the model's interpretation; a record that cannot be normalised gives both fallbacks; otherwise the normalised list |
| `ReportAnalyzer.NormaliseRecords` | src/report_analyzer.py:259-299 | the loop over the records succeeds exactly when `NormaliseAll` does, with its result |
| `ReportAnalyzer.AnalyzeLabReport` | src/report_analyzer.py:180-308 | the data and interpretation are those specified by `Analysis` |
| `ReportAnalyzer.Analysis` | src/report_analyzer.py:180-308 | with no model, both fallbacks; the interpretation is the fallback narrative or the interpretation response's text; real records are returned only when both responses are truthy |
| `ReportAnalyzer.NoModelsFallback` | src/report_analyzer.py:183-185 | with no model configured, both fallbacks are returned |
| `ReportAnalyzer.NoResponsesFallback` | src/report_analyzer.py:209-211 | when either response is missing or falsy, both fallbacks are returned |
| `ReportAnalyzer.UnrecoverableExtraction` | src/report_analyzer.py:236-253 | an extraction with no array, or one that does not parse even after repair, gives the fallback records with the model's interpretation |
| `ReportAnalyzer.RecoveredRecords` | src/report_analyzer.py:255-301 | a parsed extraction whose records all normalise gives those records, normalised in order, with the model's interpretation |
| `ReportAnalyzer.FallbackDataNormalised` | src/report_analyzer.py:310-338 | the fallback records are already normalised |
| `ReportAnalyzer.RecordsComplete` | src/report_analyzer.py:180-338 | every dictionary the analysis returns carries Category, Severity and Status |
| `ReportAnalyzer.InterpretationSource` | src/report_analyzer.py:180-308 | the interpretation is either the fallback narrative or the text of the interpretation response |
| `ReportGenerator.CategoriesWellFormed` | src/report_generator.py:1071-1084 | the twelve categories are distinct and every category is among them |
| `ReportGenerator.TestName` | src/report_generator.py:1122 | a missing test name reads as the empty string; a non-string name or a non-dictionary record makes the lookup fail |
| `ReportGenerator.CategoryFor` | src/report_generator.py:1124-1129 | the category of the first mapping key occurring in the name, or Other Tests |
| `ReportGenerator.FindCategory` | src/report_generator.py:1124-1129 | the loop with `break` returns `CategoryFor` |
| `ReportGenerator.GroupKey` | src/report_generator.py:1121-1129 | a record's group is `CategoryFor` of its test name, and exists exactly when the name can be read |
| `ReportGenerator.Members` | src/report_generator.py:1121-1131 | a group holds only records of the input with that key |
| `ReportGenerator.Buckets` | src/report_generator.py:1121-1131 | every category has a list, and each list holds only records of the input whose test name maps to that category |
| `ReportGenerator.KeepNonEmpty` | src/report_generator.py:1134 | every group kept is non-empty and taken from the buckets under its own category |
| `ReportGenerator.Grouping` | src/report_generator.py:1069-1134 | grouping succeeds exactly when every record's test name can be read |
| `ReportGenerator.GroupResultsByCategory` | src/report_generator.py:1069-1134 | the appending loop and the final filter give `Grouping` |
| `ReportGenerator.PassStart` | src/report_generator.py:1121 | before the pass every category's list equals its members among no records |
| `ReportGenerator.PassStep` | src/report_generator.py:1131 | appending the next record to its own list keeps every list equal to that category's members so far |
| `ReportGenerator.PassDone` | src/report_generator.py:1134 | the filter over the filled dictionary equals the filter over the specified buckets |
| `ReportGenerator.GroupsPartition` | src/report_generator.py:1121-1134 | the sizes of the groups add up to the number of records: none lost, none duplicated |
| `ReportGenerator.MembersAppend` | src/report_generator.py:1121-1131 | grouping keeps the input order inside each group |
| `ReportGenerator.GroupsHoldMembers` | src/report_generator.py:1121-1134 | each group holds exactly the records whose test name maps to its category |
| `ReportGenerator.GroupsOrdered` | src/report_generator.py:1071-1134 | groups appear in the declaration order of the categories |
| `ReportGenerator.RecordsGrouped` | src/report_generator.py:1121-1134 | every record appears in some group |
| `ReportGenerator.RecordGroupIsOwn` | src/report_generator.py:1121-1134 | a record appears in the group of its own category and no other |
| `ReportGenerator.CategoryFieldIgnored` | src/report_generator.py:1122-1129 | a record's own Category field does not affect its group |
| `ReportGenerator.GlycatedHemoglobinGroup` | src/report_generator.py:1087-1129 | "Hemoglobin A1c (HbA1c)" lands in Complete Blood Count although an HbA1c key for the diabetes profile matches too |
| `ReportGenerator.DescriptionTableKeys` | src/report_generator.py:1138-1151 | the description table has one distinct entry per category, in declaration order |
| `ReportGenerator.CategoryDescription` | src/report_generator.py:1136-1153 | the description of a known category, and the empty string for any other |
| `ReportGenerator.GenericInterpretation` | src/report_generator.py:1155-1176 | the text of the first matching key, or the outside-the-range note |
| `ReportGenerator.SpecificRecommendations` | src/report_generator.py:1178-1265 | none exactly when no key matches, otherwise the five recommendations of the first match |
| `ReportGenerator.Abnormals` | src/report_generator.py:814 | exactly the records whose status is not the string "Normal", including those with no status |
| `ReportGenerator.AbnormalResults` | src/report_generator.py:961 | the filter succeeds exactly when every item is a dictionary, and never returns more than it was given |
| `ReportGenerator.AbnormalsAppend` | src/report_generator.py:814 | the filter keeps the input order |
| `ReportGenerator.AbnormalsCount` | src/report_generator.py:814 | abnormal and normal records together are all records |
| `ReportGenerator.Normals` | src/report_generator.py:814 | the records the filter drops are those marked Normal |
| `Visualization.DigitRun` | src/visualization.py:368 | the first maximal run of digits, and none exactly when there is no digit |
| `Visualization.FirstNumber` | src/visualization.py:368 | `re.search(r'\d+')` gives the value of the first digit run; it fails exactly when there is no digit |
| `Visualization.Parenthesised` | src/visualization.py:366 | the text after the first `(` up to the next `(` or `)`: it holds neither parenthesis and stops only at one of them or at the end |
| `Visualization.LineScore` | src/visualization.py:363-368 | a line yields a score exactly when it mentions "score", holds both parentheses and has a digit in the parenthesised text; the score is that text's first digit run |
| `Visualization.CorrectedLineScore` | src/visualization.py:363-368 | a qualifying line yields the first number before its `(`, and when there is none the number `LineScore` reads |
| `Visualization.ScanLines` | src/visualization.py:364-372 | the score of the first line that yields one, or 0 |
| `Visualization.ExtractHealthScore` | src/visualization.py:347-375 | a falsy interpretation scores 0; otherwise the score of the first line `LineScore` reads, and 0 when no line yields one |
| `Visualization.CorrectedHealthScore` | src/visualization.py:347-375 | a falsy interpretation scores 0; otherwise the score of the first line `CorrectedLineScore` reads, and 0 when no line yields one |
| `Visualization.ScoreCommentExample` | src/visualization.py:363-368 | the code's own example line "Health score: 75 (out of 100)" scores 100; the corrected reading gives 75 |
| `Visualization.CorrectionAgrees` | src/visualization.py:364-370 | when no line with a parenthesis has a number before it, both readings agree |
| `Visualization.CreateSeverityChart` | src/visualization.py:68-90 | a missing Severity column is derived from Status; the chart fails exactly when a Severity cell is a list or a dict, and otherwise gives the counts of the four severities in order |
| `Visualization.SeverityCounts` | src/visualization.py:78-90 | one count per severity of the chart's order, none above the number of rows |
| `Visualization.SeverityCountsMeaning` | src/visualization.py:78-90 | each severity's count is the number of rows holding it, and it is 0 exactly when no row does (the `fill_value=0` case) |
| `Visualization.CountOfRows` | src/visualization.py:78 | a value's count is the number of distinct rows holding it |
| `Visualization.SeverityCountsTotal` | src/visualization.py:78-90 | the four counts add up to the rows with a charted severity |
| `Visualization.DerivedSeverityCounts` | src/visualization.py:73-76 | a derived column has no Severe or Mild; None counts the Normal rows and Moderate the rest |
| `Visualization.DerivedSeverityChart` | src/visualization.py:73-90 | the derived chart shows only None and Moderate, adding up to all rows |
| `Visualization.SortDesc` | src/visualization.py:193-197 | the bars are a permutation of the tallies in descending order of abnormal count |
| `Visualization.SortDescStable` | src/visualization.py:193-197 | tallies with equal abnormal counts keep their order |
| `Visualization.Present` | src/visualization.py:153 | the distinct values of a column, each once; a value is listed exactly when some row holds it as neither NaN nor None |
| `Visualization.Pairs` | src/visualization.py:153 | each value paired with the number of rows holding it |
| `Visualization.TallyOf` | src/visualization.py:185-190 | a category's abnormal and normal counts add up to its rows; abnormal counts the rows not marked Normal |
| `Visualization.Tallies` | src/visualization.py:185-190 | one tally per counted category, in order |
| `Visualization.TallyCategories` | src/visualization.py:185-190 | the loop builds `Tallies` |
| `Visualization.WithDefaults` | src/visualization.py:147-150 | the row count is unchanged |
| `Visualization.Frame.constructor` | src/app.py:323 | `pd.DataFrame(records)`: the frame holds the records as rows, its columns are the keys they use, and every row's keys are columns |
| `Visualization.FillDefaults` | src/visualization.py:147-150 | the frame gains the Category and Status columns with their defaults |
| `Visualization.DefaultColumns` | src/visualization.py:147-150 | a missing Category column reads "Other Tests", a missing Status column reads "Normal", and existing cells are kept |
| `Visualization.CreateCategoryChart` | src/visualization.py:142-197 | the frame gains the defaults; the chart fails exactly when a Category cell is a list or a dict, and otherwise the pie counts the categories and the bars are the tallies sorted by abnormal count |
| `Visualization.DefaultsHashable` | src/visualization.py:147-153 | the default Category cells never make the counting fail |
| `Visualization.BarsAddUp` | src/visualization.py:185-197 | the bars are sorted and each bar's two parts add up to its category's rows |
| `Visualization.CountedValues` | src/visualization.py:153 | a value has a slice exactly when it is among the present values, so never None |
| `Visualization.BarCategories` | src/visualization.py:153-190 | a category has a bar exactly when it has a slice |
| `Visualization.BarsCoverCategories` | src/visualization.py:153-190 | a category has a bar exactly when some row holds it as neither NaN nor None |
| `Visualization.PieCoversRows` | src/visualization.py:153-160 | the slices add up to the rows whose category is neither NaN nor None |
| `Visualization.SeverityBeforeStatus` | src/visualization.py:73-150 | deriving severity before the Status default gives every row severity Moderate while its status becomes Normal |
| `Visualization.Convert` | src/visualization.py:252-255 | blank text fails as IndexError; a parsed number comes from the text |
| `Visualization.UnitsIgnored` | src/visualization.py:253 | only the first word of a value is read, so units after it are ignored |
| `Visualization.ValueOf` | src/visualization.py:242-250 | a dictionary gives `value` when it has one, otherwise `Value`, and is skipped when it has neither; any other item is its own value |
| `Visualization.Usable` | src/visualization.py:239-258 | at most one number per previous value |
| `Visualization.Collected` | src/visualization.py:239-258 | the collected numbers are the usable ones |
| `Visualization.CollectedAborts` | src/visualization.py:239-258 | collection aborts exactly when some previous value is blank text |
| `Visualization.CurrentReading` | src/visualization.py:261-275 | the current value exists exactly when its field is found and converts to a number |
| `Visualization.Direction` | src/visualization.py:280-297 | no trend below two values; Increasing, Decreasing or Stable exactly as the last value is above, below or equal to the one before |
| `Visualization.CreateTrendChart` | src/visualization.py:233-297 | the collection loop and direction give `TrendAsWritten` |
| `Visualization.TrendAsWritten` | src/visualization.py:233-297 | a trend exists exactly when the current value reads, the collection does not abort, and at least one previous number is collected |
| `Visualization.CorrectedTrend` | src/visualization.py:233-297 | a trend exists exactly when the current value reads and at least one previous value is usable |
| `Visualization.TrendAsWrittenVersusCorrected` | src/visualization.py:239-297 | a blank previous value makes the as-written chart fail; otherwise it agrees with the corrected one |
| `Visualization.UsableAppend` | src/visualization.py:239-258 | collection keeps the input order |
| `Visualization.SkippedValueIgnored` | src/visualization.py:239-258 | a previous value that yields no number does not affect the corrected trend |
| `Visualization.UnparsableValueSkipped` | src/visualization.py:256-258 | an unparsable previous value does not affect the as-written trend |
| `Visualization.TooFewValues` | src/visualization.py:280-282 | with no usable previous value there is no trend |
| `Visualization.LastStepDecides` | src/visualization.py:291-297 | the trend is decided by the last previous value and the current one |
| `Visualization.BlankPreviousValue` | src/visualization.py:252-258 | a blank previous value after a smaller one makes the as-written chart fail where the corrected one shows Increasing |
| `PdfProcessor.Collapse` | src/pdf_processor.py:184 | collapsing newline runs never lengthens the text |
| `PdfProcessor.CollapseNoTriple` | src/pdf_processor.py:184 | after collapsing no three newlines are adjacent |
| `PdfProcessor.CollapseFixes` | src/pdf_processor.py:184 | text without three adjacent newlines is unchanged |
| `PdfProcessor.CollapseIdempotent` | src/pdf_processor.py:184 | collapsing twice is the same as once |
| `PdfProcessor.CollapseKeepsText` | src/pdf_processor.py:184 | collapsing removes newlines only |
| `PdfProcessor.CollapseRun` | src/pdf_processor.py:184 | a run of three or more newlines becomes two; a shorter run is kept |
| `PdfProcessor.StripAll` | src/pdf_processor.py:186 | each line stripped, same number of lines |
| `PdfProcessor.CleanSectionText` | src/pdf_processor.py:181-187 | the cleaned text's lines are the collapsed text's lines, each stripped: as many lines, none starting or ending with white space |
| `PdfProcessor.CleanFixes` | src/pdf_processor.py:181-187 | text already collapsed and with stripped lines is unchanged |
| `PdfProcessor.CleanNotIdempotent` | src/pdf_processor.py:181-187 | cleaning is not idempotent: a white-space line turns into a new empty line that a second cleaning collapses |
| `PdfProcessor.DigitRun` | src/pdf_processor.py:171 | the maximal run of digits at a position |
| `PdfProcessor.SpaceRun` | src/pdf_processor.py:171 | the maximal run of white space at a position |
| `PdfProcessor.FirstTitleEnd` | src/pdf_processor.py:171 | the shortest title end from a position, as the lazy group requires |
| `PdfProcessor.TocMatch` | src/pdf_processor.py:171 | a match found ends within the line |
| `PdfProcessor.TocMatchReported` | src/pdf_processor.py:171 | the match exists exactly when some grouping fits the pattern, and the one found is the one `re.match` reports |
| `PdfProcessor.TocLineMatches` | src/pdf_processor.py:170-178 | a line gives an entry exactly when its stripped text matches, with the reported groups |
| `PdfProcessor.TocEntryShape` | src/pdf_processor.py:170-178 | an entry's number and page are non-empty digit strings and its title is stripped |
| `PdfProcessor.BlankLineNoEntry` | src/pdf_processor.py:170 | a blank line gives no entry |
| `PdfProcessor.NoNumberNoEntry` | src/pdf_processor.py:171 | a line not starting with a digit gives no entry |
| `PdfProcessor.SimpleTocLine` | src/pdf_processor.py:171-177 | "number title page" with a single-word title gives exactly that entry |
| `PdfProcessor.CollectAppend` | src/pdf_processor.py:169-178 | entries are collected in line order |
| `PdfProcessor.CollectMember` | src/pdf_processor.py:169-178 | an entry is collected exactly when some line gives it |
| `PdfProcessor.TocEntries` | src/pdf_processor.py:169-178 | at most one entry per line |
| `PdfProcessor.ParseToc` | src/pdf_processor.py:167-179 | the loop collects the entries of the text's lines in order |

## Left out

- AI configuration and prompt wording (src/report_analyzer.py:26-67, 363-429): the API key, model names and prompt texts are outside the model. The models are functions from a prompt kind to a reply.
- `json.loads` is a parameter of the analysis. The JSON grammar is not modelled.
- Rendering: ReportLab PDF building, matplotlib and plotly drawing, colours, fonts and layout. Only the data each chart or section is built from is modelled.
- `HealthReportGenerator.analyze_lab_report` and `display_test_results` (both modules), the Streamlit application, OCR, PDF and file I/O, and the helper scripts are not part of this model.
- `parse_medical_report`: its DOTALL section regular expressions are not modelled. The two helpers it relies on (`_parse_toc`, `_clean_section_text`) are.
- Floats are exact reals. NaN, infinities, underscores in numerals and non-ASCII digits are not modelled; `float` of such text is treated as a failure.
- `lower()`, `\d` and `\w` are modelled on ASCII only.
- Dictionary key order in output records is not modelled; a record is a map.
- Logging calls are left out; they do not affect results.
- `AnalyzerKnowledge.SpecificRecommendations`: `list(set(...))` has no defined order, so the table case is modelled as a set of lines.
- The reference-range, test-relationship and condition-pattern tables (src/report_analyzer.py:105-166) are loaded but never read by the modelled code.
- The outer `except json.JSONDecodeError` in `analyze_lab_report` cannot be reached, because every parse is guarded inside. The outer `except Exception` is modelled as the fallback pair.
- `Visualization.WithDefaults`: its contract states the row count only; the cell contents are stated by `DefaultColumns`.
- `Visualization.Present`: pandas hashes `True` like `1` and `False` like `0`, so `value_counts` merges a boolean cell with the equal number; the model keeps them as two values.
- `Visualization.CreateCategoryChart`: the failure on a list or dict Category cell is the TypeError `value_counts` raises; the model gives no chart and does not model the exception's message or how a caller handles it. The merging of booleans with numbers (see `Visualization.Present`) applies to its slices too.
- `Visualization.CreateSeverityChart`: as for the category chart, a list or dict Severity cell gives no chart; the exception itself is not modelled.
- `Visualization.ValueCounts`: pandas documents no order among values with equal counts; the model keeps them in order of first occurrence (a stable descending sort), which is a modelling choice.

## Findings

| source | as written | input that shows it | evidently intended | confidence | as-written member | corrected member |
|---|---|---|---|---|---|---|
| src/visualization.py:363-368 | the score is the first number inside the first parentheses of a line mentioning "score" | "Health score: 75 (out of 100)", the example in the code's own comment, gives 100 | the number before the parentheses, 75 | not executed | `Visualization.ScoreCommentExample` (`ExtractHealthScore`) | `Visualization.CorrectedHealthScore` |
| src/visualization.py:252-258 | `value_str.split()[0]` on blank text raises IndexError, which the inner handler does not catch, so the whole trend chart is None | previous values [5, ""] with current 7 | skip the blank value, as other unreadable values are skipped, and show Increasing | not executed | `Visualization.BlankPreviousValue` (`TrendAsWritten`) | `Visualization.CorrectedTrend`, `Visualization.SkippedValueIgnored` |
| src/report_analyzer.py:273-299 | Severity is computed before Status is defaulted to "Normal" | a record with Test "Glucose", Value "85", ReferenceRange "70-99" and no Status or Severity ends up Normal with severity Mild | a Normal result has severity None | not executed | `Normalise.MissingStatusNotNoneSeverity` | `Normalise.NormaliseRecordStatusFirst`, `Normalise.StatusFirstNoneIffNormal` |
