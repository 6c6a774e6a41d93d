/** `AdvancedReportAnalyzer.analyze_lab_report`: ask the primary model (then, if needed, the
    backup model) for an interpretation and an extraction of a lab report, cut the JSON array
    out of the extraction, parse it (repairing it once if needed) and normalise every
    record; fall back to canned data and narrative on failure. */
module ReportAnalyzer {
  import opened Text
  import opened Data
  import opened AnalyzerKnowledge
  import opened Normalise
  import opened Salvage

  /** The two requests sent for one report; their wording is not modelled. */
  datatype Prompt = InterpretationPrompt(report: string) | ExtractionPrompt(report: string)

  /** What one `generate_content` call gives: a reply object, or an exception. */
  datatype Reply = Raised | Returned(response: Response)

  /** A configured generative model, as the function from prompt to reply it computes. */
  type Model = Prompt -> Reply

  /** A response variable that is set and truthy. */
  predicate Usable(o: Option<Response>) {
    o.Some? && Truthy(o.value)
  }

  /** One `try` block with a model (lines 196-200, 204-207), from the current values of the
      two response variables: each is assigned only when its call returns, and an exception
      in the interpretation call skips the extraction call. */
  function Attempt(m: Model, report: string, ir: Option<Response>, er: Option<Response>): (r: (Option<Response>, Option<Response>))
    ensures m(InterpretationPrompt(report)).Raised? ==> r == (ir, er)
    ensures m(InterpretationPrompt(report)).Returned? ==> r.0 == Some(m(InterpretationPrompt(report)).response)
    ensures r.1 == er || (r.0.Some? && m(ExtractionPrompt(report)).Returned? && r.1 == Some(m(ExtractionPrompt(report)).response))
  {
    match m(InterpretationPrompt(report))
    case Raised => (ir, er)
    case Returned(i) =>
      match m(ExtractionPrompt(report))
      case Raised => (Some(i), er)
      case Returned(e) => (Some(i), Some(e))
  }

  /** The two response variables after the primary attempt and, when that did not leave both
      truthy, the backup attempt. */
  function Responses(primary: Option<Model>, backup: Option<Model>, report: string): (r: (Option<Response>, Option<Response>))
    ensures primary.None? && backup.None? ==> r == (None, None)
    ensures r.1.Some? ==> r.0.Some?
  {
    var first := if primary.Some? then Attempt(primary.value, report, None, None) else (None, None);
    if !(Usable(first.0) && Usable(first.1)) && backup.Some? then Attempt(backup.value, report, first.0, first.1)
    else first
  }

  /** When the primary model answers both prompts truthily its answers are used and the
      backup model is not consulted. */
  lemma PrimaryPreferred(p: Model, backup: Option<Model>, otherBackup: Option<Model>, report: string)
    requires p(InterpretationPrompt(report)).Returned? && Truthy(p(InterpretationPrompt(report)).response)
    requires p(ExtractionPrompt(report)).Returned? && Truthy(p(ExtractionPrompt(report)).response)
    ensures Responses(Some(p), backup, report) ==
      (Some(p(InterpretationPrompt(report)).response), Some(p(ExtractionPrompt(report)).response))
    ensures Responses(Some(p), backup, report) == Responses(Some(p), otherBackup, report)
  {
  }

  /** Without a backup model the primary attempt is final. */
  lemma NoBackupPrimaryOnly(primary: Option<Model>, report: string)
    ensures Responses(primary, None, report) ==
      (if primary.Some? then Attempt(primary.value, report, None, None) else (None, None))
  {
  }

  /** Every response in hand is a reply some configured model gave to that very prompt. */
  lemma ResponseProvenance(primary: Option<Model>, backup: Option<Model>, report: string)
    ensures Responses(primary, backup, report).0.Some? ==>
      (primary.Some? && primary.value(InterpretationPrompt(report)) == Returned(Responses(primary, backup, report).0.value)) ||
      (backup.Some? && backup.value(InterpretationPrompt(report)) == Returned(Responses(primary, backup, report).0.value))
    ensures Responses(primary, backup, report).1.Some? ==>
      (primary.Some? && primary.value(ExtractionPrompt(report)) == Returned(Responses(primary, backup, report).1.value)) ||
      (backup.Some? && backup.value(ExtractionPrompt(report)) == Returned(Responses(primary, backup, report).1.value))
  {
  }

  /** Because the backup attempt rebinds the variables one at a time, the interpretation can
      come from the backup model and the extraction from the primary model: here the
      primary's interpretation is an empty string and the backup's extraction call raises. */
  lemma MixedResponses()
    ensures var p: Model := (q: Prompt) => if q.InterpretationPrompt? then Returned(Other("")) else Returned(HasText("[]"));
            var b: Model := (q: Prompt) => if q.InterpretationPrompt? then Returned(HasText("summary")) else Raised;
            Responses(Some(p), Some(b), "report") == (Some(HasText("summary")), Some(HasText("[]")))
  {
  }

  /** Lines 243-253: parse; on failure parse the repaired text; None when both fail. */
  function ParseExtraction(loads: string -> Option<Json>, text: string): (r: Option<Json>)
    ensures loads(text).Some? ==> r == loads(text)
    ensures loads(text).None? ==> r == loads(Repair(text))
  {
    match loads(text)
    case Some(v) => Some(v)
    case None => loads(Repair(text))
  }

  /** Lines 256-257: a parse result that is not a list is wrapped in one. */
  function AsList(v: Json): (r: seq<Json>)
    ensures v.JArr? ==> r == v.items
    ensures !v.JArr? ==> r == [v]
  {
    if v.JArr? then v.items else [v]
  }

  /** Lines 230-253: the extraction text, stripped and cut down to its outermost brackets,
      parsed as it stands or else after repair; None when nothing can be recovered. */
  function Extraction(loads: string -> Option<Json>, extractionText: string): (r: Option<Json>)
    ensures SalvageArray(Strip(extractionText)).None? ==> r.None?
    ensures SalvageArray(Strip(extractionText)).Some? ==>
      r == ParseExtraction(loads, SalvageArray(Strip(extractionText)).value)
  {
    match SalvageArray(Strip(extractionText))
    case None => None
    case Some(text) => ParseExtraction(loads, text)
  }

  /** Lines 255-300: the parsed value as a list of normalised records, or the canned pair
      when an element cannot be normalised (the outer handler). */
  function Finish(interpretation: string, parsed: Option<Json>): (r: (seq<Json>, string))
    ensures parsed.None? ==> r == (FallbackData(), interpretation)
    ensures parsed.Some? && NormaliseAll(AsList(parsed.value)).None? ==> r == (FallbackData(), Render(FallbackNarrative))
    ensures parsed.Some? && NormaliseAll(AsList(parsed.value)).Some? ==>
      r == (NormaliseAll(AsList(parsed.value)).value, interpretation)
  {
    match parsed
    case None => (FallbackData(), interpretation)
    case Some(v) =>
      match NormaliseAll(AsList(v))
      case None => (FallbackData(), Render(FallbackNarrative))
      case Some(records) => (records, interpretation)
  }

  /** What `analyze_lab_report` returns: the structured records and the interpretation text. */
  function Analysis(report: string, primary: Option<Model>, backup: Option<Model>, loads: string -> Option<Json>): (r: (seq<Json>, string))
    ensures primary.None? && backup.None? ==> r == (FallbackData(), Render(FallbackNarrative))
    ensures r.1 == Render(FallbackNarrative) ||
      (Responses(primary, backup, report).0.Some? && r.1 == TextOf(Responses(primary, backup, report).0.value))
    ensures r.0 == FallbackData() || (Usable(Responses(primary, backup, report).0) && Usable(Responses(primary, backup, report).1))
  {
    if primary.None? && backup.None? then (FallbackData(), Render(FallbackNarrative))
    else
      var (ir, er) := Responses(primary, backup, report);
      if !(Usable(ir) && Usable(er)) then (FallbackData(), Render(FallbackNarrative))
      else Finish(TextOf(ir.value), Extraction(loads, TextOf(er.value)))
  }

  /** Lines 190-207: the two response variables, rebound by the primary attempt and then,
      unless both are truthy, by the backup attempt. */
  method CollectResponses(report: string, primary: Option<Model>, backup: Option<Model>)
    returns (interpretationResponse: Option<Response>, extractionResponse: Option<Response>)
    ensures (interpretationResponse, extractionResponse) == Responses(primary, backup, report)
  {
    interpretationResponse := None;
    extractionResponse := None;
    if primary.Some? {
      var reply := primary.value(InterpretationPrompt(report));
      if reply.Returned? {
        interpretationResponse := Some(reply.response);
        reply := primary.value(ExtractionPrompt(report));
        if reply.Returned? {
          extractionResponse := Some(reply.response);
        }
      }
    }
    if !(Usable(interpretationResponse) && Usable(extractionResponse)) && backup.Some? {
      var reply := backup.value(InterpretationPrompt(report));
      if reply.Returned? {
        interpretationResponse := Some(reply.response);
        reply := backup.value(ExtractionPrompt(report));
        if reply.Returned? {
          extractionResponse := Some(reply.response);
        }
      }
    }
  }

  /** Lines 231-240: the extraction text is stripped and, unless it opens with '[', cut from
      its first '[' to its last ']'. */
  method CleanExtraction(extractionText: string) returns (r: Option<string>)
    ensures r == SalvageArray(Strip(extractionText))
  {
    r := CutOutArray(Strip(extractionText));
  }

  /** Lines 232-240 on the stripped text: None stands for the early return with the fallback
      data. */
  method CutOutArray(text: string) returns (r: Option<string>)
    ensures r == SalvageArray(text)
  {
    if IsPrefix("[", text) {
      return Some(text);
    }
    var start := Find(text, '[');
    var end := RFind(text, ']');
    if start.None? || end.None? {
      return None;
    }
    if start.value <= end.value {
      r := Some(text[start.value..end.value + 1]);
    } else {
      r := Some([]);
    }
  }

  /** Lines 242-253: parse, and on failure rewrite the text (keys quoted, then single quotes
      replaced) and parse again. */
  method ParseWithRepair(loads: string -> Option<Json>, extractionText: string) returns (r: Option<Json>)
    ensures r == ParseExtraction(loads, extractionText)
  {
    var text := extractionText;
    r := loads(text);
    if r.None? {
      text := QuoteKeys(text);
      text := ReplaceQuotes(text);
      r := loads(text);
    }
  }

  /** Lines 255-300: the parsed list is copied into an array and normalised in place. */
  method NormaliseRecords(items: seq<Json>) returns (ok: bool, data: seq<Json>)
    ensures ok <==> NormaliseAll(items).Some?
    ensures ok ==> data == NormaliseAll(items).value
  {
    var records := new Json[|items|](i requires 0 <= i < |items| => items[i]);
    assert records[..] == items;
    ok := NormaliseInPlace(records);
    data := records[..];
  }

  /** The imperative flow of lines 180-308, stage by stage. */
  method AnalyzeLabReport(report: string, primary: Option<Model>, backup: Option<Model>, loads: string -> Option<Json>)
    returns (data: seq<Json>, interpretation: string)
    ensures (data, interpretation) == Analysis(report, primary, backup, loads)
  {
    if primary.None? && backup.None? {
      return FallbackData(), Render(FallbackNarrative);
    }
    var interpretationResponse, extractionResponse := CollectResponses(report, primary, backup);
    if !(Usable(interpretationResponse) && Usable(extractionResponse)) {
      return FallbackData(), Render(FallbackNarrative);
    }
    var extractionText := TextOf(extractionResponse.value);
    interpretation := TextOf(interpretationResponse.value);
    var cleaned := CleanExtraction(extractionText);
    if cleaned.None? {
      return FallbackData(), interpretation;
    }
    var parsed := ParseWithRepair(loads, cleaned.value);
    if parsed.None? {
      return FallbackData(), interpretation;
    }
    var ok;
    ok, data := NormaliseRecords(AsList(parsed.value));
    if !ok {
      return FallbackData(), Render(FallbackNarrative);
    }
  }

  /** Without any configured model the canned pair is returned. */
  lemma NoModelsFallback(report: string, loads: string -> Option<Json>)
    ensures Analysis(report, None, None, loads) == (FallbackData(), Render(FallbackNarrative))
  {
  }

  /** When the attempts do not leave two truthy responses the canned pair is returned. */
  lemma NoResponsesFallback(report: string, primary: Option<Model>, backup: Option<Model>, loads: string -> Option<Json>)
    requires !(Usable(Responses(primary, backup, report).0) && Usable(Responses(primary, backup, report).1))
    ensures Analysis(report, primary, backup, loads) == (FallbackData(), Render(FallbackNarrative))
  {
  }

  /** An extraction from which no JSON can be recovered gives the canned records, but with
      the real interpretation text. */
  lemma UnrecoverableExtraction(report: string, primary: Option<Model>, backup: Option<Model>, loads: string -> Option<Json>)
    requires Usable(Responses(primary, backup, report).0) && Usable(Responses(primary, backup, report).1)
    requires var text := SalvageArray(Strip(TextOf(Responses(primary, backup, report).1.value)));
             text.None? || ParseExtraction(loads, text.value).None?
    ensures Analysis(report, primary, backup, loads) ==
      (FallbackData(), TextOf(Responses(primary, backup, report).0.value))
  {
  }

  /** A recovered list whose every element normalises is returned normalised, element for
      element and in order, with the real interpretation text. */
  lemma RecoveredRecords(report: string, primary: Option<Model>, backup: Option<Model>, loads: string -> Option<Json>, v: Json)
    requires Usable(Responses(primary, backup, report).0) && Usable(Responses(primary, backup, report).1)
    requires var text := SalvageArray(Strip(TextOf(Responses(primary, backup, report).1.value)));
             text.Some? && ParseExtraction(loads, text.value) == Some(v)
    requires forall i :: 0 <= i < |AsList(v)| ==> NormaliseRecord(AsList(v)[i]).Some?
    ensures var (data, interpretation) := Analysis(report, primary, backup, loads);
      interpretation == TextOf(Responses(primary, backup, report).0.value) &&
      |data| == |AsList(v)| &&
      forall i :: 0 <= i < |data| ==> Some(data[i]) == NormaliseRecord(AsList(v)[i])
  {
  }

  /** The canned records are complete: normalising them changes nothing. */
  lemma FallbackDataNormalised()
    ensures NormaliseAll(FallbackData()) == Some(FallbackData())
  {
    var canned := FallbackData();
    FallbackDataWellFormed();
    assert AddedKeys <= SixFields;
    forall i | 0 <= i < |canned|
      ensures NormaliseRecord(canned[i]) == Some(canned[i])
    {
      assert canned[i] == JObj(canned[i].fields);
      CompleteRecordUnchanged(canned[i].fields);
    }
    var r := NormaliseAll(canned);
    assert r.Some?;
    assert forall i :: 0 <= i < |canned| ==> r.value[i] == canned[i];
    assert r.value == canned;
  }

  /** Whatever the models and the parser do, every dict record returned carries Category,
      Severity and Status. */
  lemma RecordsComplete(report: string, primary: Option<Model>, backup: Option<Model>, loads: string -> Option<Json>)
    ensures forall i :: (0 <= i < |Analysis(report, primary, backup, loads).0| &&
      Analysis(report, primary, backup, loads).0[i].JObj?) ==>
      AddedKeys <= Analysis(report, primary, backup, loads).0[i].fields.Keys
  {
    var data := Analysis(report, primary, backup, loads).0;
    FallbackDataWellFormed();
    if data != FallbackData() {
      var (ir, er) := Responses(primary, backup, report);
      var text := SalvageArray(Strip(TextOf(er.value)));
      var v := ParseExtraction(loads, text.value).value;
      forall i | 0 <= i < |data| && data[i].JObj?
        ensures AddedKeys <= data[i].fields.Keys
      {
        var item := AsList(v)[i];
        if item.JObj? {
          NormaliseKeepsFields(item.fields);
        }
      }
    }
  }

  /** The interpretation returned is the canned narrative or the text of the interpretation
      response in hand. */
  lemma InterpretationSource(report: string, primary: Option<Model>, backup: Option<Model>, loads: string -> Option<Json>)
    ensures var interpretation := Analysis(report, primary, backup, loads).1;
      interpretation == Render(FallbackNarrative) ||
      (Responses(primary, backup, report).0.Some? && interpretation == TextOf(Responses(primary, backup, report).0.value))
  {
  }
}
