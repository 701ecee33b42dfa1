/** The default priority of `get_zci`, and end-to-end cases of the resolver. */
module ZciDefaults {
  import opened Errors
  import opened Model
  import opened Selectors
  import opened Resolver
  import opened ResolverProperties

  /** The default priority as written: its last entry names `related`, which
      is not an attribute of the response. */
  const DefaultPriority: seq<string> := ["answer", "definition", "abstract", "related.0"]

  /** The evidently intended default: the first related topic. */
  const IntendedPriority: seq<string> := ["answer", "definition", "abstract", "related_topics.0"]

  /** The same, with the related topics named without an index. */
  const UnindexedPriority: seq<string> := ["answer", "definition", "abstract", "related_topics"]

  // How each entry of the two defaults parses, one string at a time.

  lemma SplitsAnswer() ensures Split("answer") == ["answer"] { SplitNoDot("answer"); }
  lemma SplitsDefinition() ensures Split("definition") == ["definition"] { SplitNoDot("definition"); }
  lemma SplitsAbstract() ensures Split("abstract") == ["abstract"] { SplitNoDot("abstract"); }
  lemma SplitsRelatedTopics() ensures Split("related_topics") == ["related_topics"] { SplitNoDot("related_topics"); }

  lemma SplitsRelatedTopicsFirst()
    ensures Split("related_topics.0") == ["related_topics", "0"]
  {
    SplitTwo("related_topics", "0");
    assert "related_topics" + "." + "0" == "related_topics.0";
  }

  lemma SplitsRelatedFirst()
    ensures Split("related.0") == ["related", "0"]
  {
    SplitTwo("related", "0");
    assert "related" + "." + "0" == "related.0";
  }

  lemma ParsesZero() ensures ParseInt("0") == Ok(0) { }

  lemma LooksUpAnswer() ensures LookupField("answer") == Ok(AnswerField) { }
  lemma LooksUpDefinition() ensures LookupField("definition") == Ok(DefinitionField) { }
  lemma LooksUpAbstract() ensures LookupField("abstract") == Ok(AbstractField) { }
  lemma LooksUpRelatedTopics() ensures LookupField("related_topics") == Ok(RelatedTopicsField) { }
  lemma LooksUpRelated() ensures LookupField("related") == Err(AttributeError("related")) { }

  lemma ParsesAnswer()
    ensures ParseSelector("answer") == Ok(Selector(AnswerField, None))
  {
    SplitsAnswer();
    LooksUpAnswer();
  }

  lemma ParsesDefinition()
    ensures ParseSelector("definition") == Ok(Selector(DefinitionField, None))
  {
    SplitsDefinition();
    LooksUpDefinition();
  }

  lemma ParsesAbstract()
    ensures ParseSelector("abstract") == Ok(Selector(AbstractField, None))
  {
    SplitsAbstract();
    LooksUpAbstract();
  }

  lemma ParsesRelatedTopics()
    ensures ParseSelector("related_topics") == Ok(Selector(RelatedTopicsField, None))
  {
    SplitsRelatedTopics();
    LooksUpRelatedTopics();
  }

  lemma ParsesRelatedTopicsFirst()
    ensures ParseSelector("related_topics.0") == Ok(Selector(RelatedTopicsField, Some(0)))
  {
    SplitsRelatedTopicsFirst();
    ParsesZero();
    LooksUpRelatedTopics();
  }

  /** `related.0` always fails: its index is read, then the name is not found. */
  lemma ParsesRelatedFirst()
    ensures ParseSelector("related.0") == Err(AttributeError("related"))
  {
    SplitsRelatedFirst();
    ParsesZero();
    LooksUpRelated();
  }

  /** The outcome of the first related topic as the intended default reads it. */
  function FirstTopicOutcome(ddg: Response, urls: bool): Outcome {
    if ddg.relatedTopics == [] || ddg.relatedTopics[0].text == "" then Skip
    else Match(WithUrl(ddg.relatedTopics[0].text, Some(ddg.relatedTopics[0].url), urls))
  }

  /** What a fourth selector contributes once the first three were skipped. */
  function AfterRecords(ddg: Response, last: Outcome, webFallback: bool): Result<string> {
    match last
    case Skip => Ok(Fallback(ddg, "", webFallback))
    case Match(t) => Ok(t)
    case Fail(e) => Err(e)
  }

  /** A four-entry priority that starts with the answer, the definition and
      the abstract. */
  ghost predicate RecordsLead(p: seq<string>) {
    && |p| == 4
    && ParseSelector(p[0]) == Ok(Selector(AnswerField, None))
    && ParseSelector(p[1]) == Ok(Selector(DefinitionField, None))
    && ParseSelector(p[2]) == Ok(Selector(AbstractField, None))
  }

  /** The outcome of each of the three leading entries. */
  lemma RecordsLeadSteps(ddg: Response, p: seq<string>, urls: bool)
    requires RecordsLead(p)
    ensures Step(ddg, p[0], urls) == if ddg.answer.text == "" then Skip else Match(ddg.answer.text)
    ensures Step(ddg, p[1], urls) ==
              if ddg.definition.text == "" then Skip
              else Match(WithUrl(ddg.definition.text, Some(ddg.definition.url), urls))
    ensures Step(ddg, p[2], urls) ==
              if ddg.abstractInfo.text == "" then Skip
              else Match(WithUrl(ddg.abstractInfo.text, Some(ddg.abstractInfo.url), urls))
  {
    AnswerSelection(ddg, urls);
    DefinitionSelection(ddg, urls);
    AbstractSelection(ddg, urls);
  }

  lemma {:induction false} AnswerLeads(ddg: Response, p: seq<string>, urls: bool)
    requires RecordsLead(p) && ddg.answer.text != ""
    ensures FirstMatch(ddg, p, urls) == Ok(ddg.answer.text)
  {
    RecordsLeadSteps(ddg, p, urls);
    FirstMatchAt(ddg, p, urls, 0);
  }

  lemma {:induction false} DefinitionNext(ddg: Response, p: seq<string>, urls: bool)
    requires RecordsLead(p) && ddg.answer.text == "" && ddg.definition.text != ""
    ensures FirstMatch(ddg, p, urls) == Ok(WithUrl(ddg.definition.text, Some(ddg.definition.url), urls))
  {
    RecordsLeadSteps(ddg, p, urls);
    assert SkippedBefore(ddg, p, urls, 1);
    FirstMatchAt(ddg, p, urls, 1);
  }

  lemma {:induction false} AbstractNext(ddg: Response, p: seq<string>, urls: bool)
    requires RecordsLead(p) && ddg.answer.text == "" && ddg.definition.text == "" && ddg.abstractInfo.text != ""
    ensures FirstMatch(ddg, p, urls) == Ok(WithUrl(ddg.abstractInfo.text, Some(ddg.abstractInfo.url), urls))
  {
    RecordsLeadSteps(ddg, p, urls);
    assert SkippedBefore(ddg, p, urls, 2);
    FirstMatchAt(ddg, p, urls, 2);
  }

  lemma {:induction false} LastDecides(ddg: Response, p: seq<string>, urls: bool)
    requires RecordsLead(p) && ddg.answer.text == "" && ddg.definition.text == "" && ddg.abstractInfo.text == ""
    ensures FirstMatch(ddg, p, urls) ==
              match Step(ddg, p[3], urls)
              case Skip => Ok("")
              case Match(t) => Ok(t)
              case Fail(e) => Err(e)
  {
    RecordsLeadSteps(ddg, p, urls);
    assert SkippedBefore(ddg, p, urls, 3);
    assert p[4..] == [];
    FirstMatchAt(ddg, p, urls, 3);
  }

  /** For such a priority the first of the three records with text wins, in
      that order, and only when all three are empty does the fourth entry
      matter. */
  lemma RecordsFirst(ddg: Response, p: seq<string>, webFallback: bool, urls: bool)
    requires RecordsLead(p)
    ensures ddg.answer.text != "" ==> Zci(ddg, p, webFallback, urls) == Ok(ddg.answer.text)
    ensures ddg.answer.text == "" && ddg.definition.text != "" ==>
              Zci(ddg, p, webFallback, urls) == Ok(WithUrl(ddg.definition.text, Some(ddg.definition.url), urls))
    ensures ddg.answer.text == "" && ddg.definition.text == "" && ddg.abstractInfo.text != "" ==>
              Zci(ddg, p, webFallback, urls) == Ok(WithUrl(ddg.abstractInfo.text, Some(ddg.abstractInfo.url), urls))
    ensures ddg.answer.text == "" && ddg.definition.text == "" && ddg.abstractInfo.text == "" ==>
              Zci(ddg, p, webFallback, urls) == AfterRecords(ddg, Step(ddg, p[3], urls), webFallback)
  {
    if ddg.answer.text != "" {
      AnswerLeads(ddg, p, urls);
    } else if ddg.definition.text != "" {
      DefinitionNext(ddg, p, urls);
    } else if ddg.abstractInfo.text != "" {
      AbstractNext(ddg, p, urls);
    } else {
      LastDecides(ddg, p, urls);
    }
  }

  /** As written, the default priority raises `AttributeError` whenever the
      answer, the definition and the abstract all have empty text, instead of
      trying the related topics; when one of them has text it is answered
      as intended. */
  lemma DefaultPriorityRaises(ddg: Response, webFallback: bool, urls: bool)
    ensures ddg.answer.text == "" && ddg.definition.text == "" && ddg.abstractInfo.text == "" ==>
              Zci(ddg, DefaultPriority, webFallback, urls) == Err(AttributeError("related"))
    ensures ddg.answer.text != "" ==> Zci(ddg, DefaultPriority, webFallback, urls) == Ok(ddg.answer.text)
  {
    var p := DefaultPriority;
    ParsesAnswer();
    ParsesDefinition();
    ParsesAbstract();
    ParsesRelatedFirst();
    RecordsFirst(ddg, p, webFallback, urls);
  }

  /** With the intended default the resolver never raises, and its answer is
      the first non-empty text among the answer, the definition, the
      abstract and the first related topic, then the fallbacks. */
  lemma IntendedPriorityAnswers(ddg: Response, webFallback: bool, urls: bool)
    ensures Zci(ddg, IntendedPriority, webFallback, urls).Ok?
    ensures ddg.answer.text != "" ==> Zci(ddg, IntendedPriority, webFallback, urls) == Ok(ddg.answer.text)
    ensures ddg.answer.text == "" && ddg.definition.text == "" && ddg.abstractInfo.text == "" ==>
              Zci(ddg, IntendedPriority, webFallback, urls) ==
                AfterRecords(ddg, FirstTopicOutcome(ddg, urls), webFallback)
  {
    var p := IntendedPriority;
    ParsesAnswer();
    ParsesDefinition();
    ParsesAbstract();
    ParsesRelatedTopicsFirst();
    RelatedTopicSelection(ddg, 0, urls);
    assert Step(ddg, p[3], urls) == FirstTopicOutcome(ddg, urls);
    RecordsFirst(ddg, p, webFallback, urls);
  }

  /** `get_zci` with its default arguments (web fallback and urls on) and the
      intended default priority. */
  method GetZciDefaults(ddg: Response) returns (answer: string)
    ensures Zci(ddg, IntendedPriority, true, true) == Ok(answer)
    ensures answer != ""
    ensures ddg.answer.text != "" ==> answer == ddg.answer.text
  {
    IntendedPriorityAnswers(ddg, true, true);
    var r := GetZci(ddg, IntendedPriority, true, true);
    answer := r.value;
  }

  /** The calculator answer to `1 + 1` is found first and has no url to append. */
  lemma CalculatorScenario(ddg: Response, webFallback: bool, urls: bool)
    requires ddg.answer == Answer("1 + 1 = 2", "calc")
    ensures Zci(ddg, DefaultPriority, webFallback, urls) == Ok("1 + 1 = 2")
    ensures Zci(ddg, IntendedPriority, webFallback, urls) == Ok("1 + 1 = 2")
  {
    DefaultPriorityRaises(ddg, webFallback, urls);
    IntendedPriorityAnswers(ddg, webFallback, urls);
  }

  lemma ParisText()
    ensures WithUrl("Paris is...", Some("https://x"), true) == "Paris is... (https://x)"
  {
    assert "Paris is..." + " (" + "https://x" + ")" == "Paris is... (https://x)";
  }

  /** A related topic answers with its url. */
  lemma RelatedTopicScenario(ddg: Response, webFallback: bool)
    requires ddg.answer.text == "" && ddg.definition.text == "" && ddg.abstractInfo.text == ""
    requires ddg.relatedTopics == [Topic("https://x", "", "Paris is...", "")]
    ensures Zci(ddg, IntendedPriority, webFallback, true) == Ok("Paris is... (https://x)")
  {
    IntendedPriorityAnswers(ddg, webFallback, true);
    ParisText();
  }

  /** Without an index the related-topics list itself has no `text`, so a
      non-empty list makes the resolver raise. */
  lemma UnindexedTopicsRaise(ddg: Response, webFallback: bool, urls: bool)
    requires ddg.answer.text == "" && ddg.definition.text == "" && ddg.abstractInfo.text == ""
    requires ddg.relatedTopics != []
    ensures Zci(ddg, UnindexedPriority, webFallback, urls) == Err(AttributeError("text"))
  {
    var p := UnindexedPriority;
    ParsesAnswer();
    ParsesDefinition();
    ParsesAbstract();
    ParsesRelatedTopics();
    TextlessSelection(ddg, urls);
    RecordsFirst(ddg, p, webFallback, urls);
  }

  /** With nothing to answer and no web fallback, the intended default gives
      the fixed sentence, and the default as written raises. */
  lemma EmptyScenario(ddg: Response, urls: bool)
    requires ddg.answer.text == "" && ddg.definition.text == "" && ddg.abstractInfo.text == ""
    requires ddg.relatedTopics == []
    ensures Zci(ddg, IntendedPriority, false, urls) == Ok(NoResults)
    ensures Zci(ddg, DefaultPriority, false, urls) == Err(AttributeError("related"))
  {
    IntendedPriorityAnswers(ddg, false, urls);
    DefaultPriorityRaises(ddg, false, urls);
  }
}
