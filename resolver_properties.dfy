/** What the resolver promises: strict left-to-right order with early exit,
    how each kind of attribute is treated, and the fallbacks. */
module ResolverProperties {
  import opened Errors
  import opened Model
  import opened Selectors
  import opened Resolver

  /** Every selector before position `k` was skipped. */
  ghost predicate SkippedBefore(ddg: Response, priority: seq<string>, urls: bool, k: nat)
    requires k <= |priority|
  {
    forall j :: 0 <= j < k ==> Step(ddg, priority[j], urls) == Skip
  }

  /** Once all selectors before `k` were skipped, the outcome of selector `k`
      decides the result, or the search goes on after it. */
  lemma {:induction false} FirstMatchAt(ddg: Response, priority: seq<string>, urls: bool, k: nat)
    requires k < |priority| && SkippedBefore(ddg, priority, urls, k)
    ensures FirstMatch(ddg, priority, urls) ==
              match Step(ddg, priority[k], urls)
              case Skip => FirstMatch(ddg, priority[k + 1..], urls)
              case Match(t) => Ok(t)
              case Fail(e) => Err(e)
    decreases k
  {
    if k > 0 {
      assert Step(ddg, priority[0], urls) == Skip;
      var rest := priority[1..];
      assert rest[k - 1] == priority[k] && rest[k..] == priority[k + 1..];
      forall j | 0 <= j < k - 1 ensures Step(ddg, rest[j], urls) == Skip {
        assert rest[j] == priority[j + 1];
      }
      FirstMatchAt(ddg, rest, urls, k - 1);
    }
  }

  /** Nothing is found exactly when every selector is skipped. */
  lemma {:induction false} FirstMatchNothing(ddg: Response, priority: seq<string>, urls: bool)
    ensures FirstMatch(ddg, priority, urls) == Ok("") <==> SkippedBefore(ddg, priority, urls, |priority|)
    decreases |priority|
  {
    if priority != [] {
      var rest := priority[1..];
      FirstMatchNothing(ddg, rest, urls);
      if SkippedBefore(ddg, priority, urls, |priority|) {
        forall j | 0 <= j < |rest| ensures Step(ddg, rest[j], urls) == Skip {
          assert rest[j] == priority[j + 1];
        }
      }
      if Step(ddg, priority[0], urls) == Skip && SkippedBefore(ddg, rest, urls, |rest|) {
        forall j | 0 <= j < |priority| ensures Step(ddg, priority[j], urls) == Skip {
          if j > 0 { assert priority[j] == rest[j - 1]; }
        }
      }
    }
  }

  /** A found text, or an error, comes from the first selector that was not
      skipped. */
  lemma {:induction false} FirstMatchDecidedBy(ddg: Response, priority: seq<string>, urls: bool)
    ensures FirstMatch(ddg, priority, urls).Ok? && FirstMatch(ddg, priority, urls).value != "" ==>
              exists k :: 0 <= k < |priority| && SkippedBefore(ddg, priority, urls, k) &&
                          Step(ddg, priority[k], urls) == Match(FirstMatch(ddg, priority, urls).value)
    ensures FirstMatch(ddg, priority, urls).Err? ==>
              exists k :: 0 <= k < |priority| && SkippedBefore(ddg, priority, urls, k) &&
                          Step(ddg, priority[k], urls) == Fail(FirstMatch(ddg, priority, urls).error)
    decreases |priority|
  {
    if priority != [] {
      var rest := priority[1..];
      var r := FirstMatch(ddg, priority, urls);
      if Step(ddg, priority[0], urls) == Skip {
        FirstMatchDecidedBy(ddg, rest, urls);
        if r.Err? || (r.Ok? && r.value != "") {
          var k :| 0 <= k < |rest| && SkippedBefore(ddg, rest, urls, k) &&
                   !Step(ddg, rest[k], urls).Skip? &&
                   Step(ddg, rest[k], urls) == (if r.Err? then Fail(r.error) else Match(r.value));
          assert priority[k + 1] == rest[k];
          forall j | 0 <= j < k + 1 ensures Step(ddg, priority[j], urls) == Skip {
            if j > 0 { assert priority[j] == rest[j - 1]; }
          }
          assert SkippedBefore(ddg, priority, urls, k + 1);
        }
      } else {
        assert SkippedBefore(ddg, priority, urls, 0);
      }
    }
  }

  /** Order is strict: the selectors of `p` are all tried before any of `q`,
      and `q` is consulted only when every selector of `p` was skipped. */
  lemma {:induction false} FirstMatchAppend(ddg: Response, p: seq<string>, q: seq<string>, urls: bool)
    ensures FirstMatch(ddg, p + q, urls) ==
              if FirstMatch(ddg, p, urls) == Ok("") then FirstMatch(ddg, q, urls)
              else FirstMatch(ddg, p, urls)
    decreases |p|
  {
    if p == [] {
      assert p + q == q;
    } else {
      assert (p + q)[0] == p[0] && (p + q)[1..] == p[1..] + q;
      FirstMatchAppend(ddg, p[1..], q, urls);
    }
  }

  /** Later selectors never contribute: once `p` has found text or failed,
      whatever follows it leaves the answer unchanged. */
  lemma LaterSelectorsIgnored(ddg: Response, p: seq<string>, q: seq<string>, webFallback: bool, urls: bool)
    requires FirstMatch(ddg, p, urls) != Ok("")
    ensures Zci(ddg, p + q, webFallback, urls) == Zci(ddg, p, webFallback, urls)
  {
    FirstMatchAppend(ddg, p, q, urls);
  }

  // The outcome of each kind of attribute: records with text and url append
  // the url, the answer has no url, and values without a `text` attribute
  // fail unless they are empty.

  lemma AnswerSelection(ddg: Response, urls: bool)
    ensures StepSelector(ddg, Selector(AnswerField, None), urls) ==
              if ddg.answer.text == "" then Skip else Match(ddg.answer.text)
  {
  }

  lemma DefinitionSelection(ddg: Response, urls: bool)
    ensures StepSelector(ddg, Selector(DefinitionField, None), urls) ==
              if ddg.definition.text == "" then Skip
              else Match(WithUrl(ddg.definition.text, Some(ddg.definition.url), urls))
  {
  }

  lemma AbstractSelection(ddg: Response, urls: bool)
    ensures StepSelector(ddg, Selector(AbstractField, None), urls) ==
              if ddg.abstractInfo.text == "" then Skip
              else Match(WithUrl(ddg.abstractInfo.text, Some(ddg.abstractInfo.url), urls))
  {
  }

  lemma RelatedTopicSelection(ddg: Response, i: nat, urls: bool)
    ensures i < |ddg.relatedTopics| ==>
              StepSelector(ddg, Selector(RelatedTopicsField, Some(i)), urls) ==
                if ddg.relatedTopics[i].text == "" then Skip
                else Match(WithUrl(ddg.relatedTopics[i].text, Some(ddg.relatedTopics[i].url), urls))
    ensures i >= |ddg.relatedTopics| ==> StepSelector(ddg, Selector(RelatedTopicsField, Some(i)), urls) == Skip
  {
  }

  lemma ResultSelection(ddg: Response, i: nat, urls: bool)
    ensures i < |ddg.results| ==>
              StepSelector(ddg, Selector(ResultsField, Some(i)), urls) ==
                if ddg.results[i].text == "" then Skip
                else Match(WithUrl(ddg.results[i].text, Some(ddg.results[i].url), urls))
    ensures i >= |ddg.results| ==> StepSelector(ddg, Selector(ResultsField, Some(i)), urls) == Skip
  {
  }

  lemma TextlessSelection(ddg: Response, urls: bool)
    ensures StepSelector(ddg, Selector(ImageField, None), urls) == Fail(AttributeError("text"))
    ensures StepSelector(ddg, Selector(RedirectField, None), urls) == Fail(AttributeError("text"))
    ensures StepSelector(ddg, Selector(HeadingField, None), urls) ==
              if ddg.heading == "" then Skip else Fail(AttributeError("text"))
    ensures StepSelector(ddg, Selector(KindField, None), urls) ==
              if ddg.kind == "" then Skip else Fail(AttributeError("text"))
    ensures StepSelector(ddg, Selector(RelatedTopicsField, None), urls) ==
              if ddg.relatedTopics == [] then Skip else Fail(AttributeError("text"))
    ensures StepSelector(ddg, Selector(ResultsField, None), urls) ==
              if ddg.results == [] then Skip else Fail(AttributeError("text"))
  {
  }

  /** An index past the end, including a non-negative index into an empty
      list or string, skips the selector; an index on a record is a `TypeError`; a negative index that
      reaches before the start is an `IndexError`. */
  lemma IndexedSelection(ddg: Response, f: Field, index: int, urls: bool)
    ensures Indexable(GetAttr(ddg, f)) && index >= Length(GetAttr(ddg, f)) ==>
              StepSelector(ddg, Selector(f, Some(index)), urls) == Skip
    ensures !Indexable(GetAttr(ddg, f)) ==>
              StepSelector(ddg, Selector(f, Some(index)), urls) ==
                Fail(TypeError(FieldName(f) + " field is not indexable"))
    ensures Indexable(GetAttr(ddg, f)) && Length(GetAttr(ddg, f)) + index < 0 ==>
              StepSelector(ddg, Selector(f, Some(index)), urls) == Fail(IndexError)
    ensures f in {AnswerField, DefinitionField, AbstractField, ImageField, RedirectField} ==> !Indexable(GetAttr(ddg, f))
  {
  }

  /** A negative index counts from the end: `related_topics.-1` tries the
      last topic, and one reaching before the start raises `IndexError`. */
  lemma NegativeTopicSelection(ddg: Response, i: int, urls: bool)
    requires i < 0
    ensures |ddg.relatedTopics| + i >= 0 ==>
              var t := ddg.relatedTopics[|ddg.relatedTopics| + i];
              StepSelector(ddg, Selector(RelatedTopicsField, Some(i)), urls) ==
                if t.text == "" then Skip else Match(WithUrl(t.text, Some(t.url), urls))
    ensures |ddg.relatedTopics| + i < 0 ==>
              StepSelector(ddg, Selector(RelatedTopicsField, Some(i)), urls) == Fail(IndexError)
  {
  }

  /** The same for `results.-i`. */
  lemma NegativeResultSelection(ddg: Response, i: int, urls: bool)
    requires i < 0
    ensures |ddg.results| + i >= 0 ==>
              var e := ddg.results[|ddg.results| + i];
              StepSelector(ddg, Selector(ResultsField, Some(i)), urls) ==
                if e.text == "" then Skip else Match(WithUrl(e.text, Some(e.url), urls))
    ensures |ddg.results| + i < 0 ==>
              StepSelector(ddg, Selector(ResultsField, Some(i)), urls) == Fail(IndexError)
  {
  }

  /** Indexing a string attribute (`heading.0`, `kind.-1`) picks one
      character, a non-empty string without `text`, so it raises
      `AttributeError` whenever the position exists. */
  lemma StringIndexSelection(ddg: Response, f: Field, i: int, urls: bool)
    requires f == HeadingField || f == KindField
    ensures var n := |GetAttr(ddg, f).s|;
            StepSelector(ddg, Selector(f, Some(i)), urls) ==
              if i >= n then Skip
              else if n + i < 0 then Fail(IndexError)
              else Fail(AttributeError("text"))
  {
  }

  /** A matched text is the winning entry's text, with `" (<url>)"` appended
      exactly when urls are wanted and the entry has a non-empty url. */
  lemma MatchIsTextWithUrl(ddg: Response, sel: Selector, urls: bool)
    requires StepSelector(ddg, sel, urls).Match?
    ensures Select(ddg, sel).Ok? && TextOf(Select(ddg, sel).value).Ok?
    ensures var v := Select(ddg, sel).value;
            var text := TextOf(v).value;
            text != "" &&
            StepSelector(ddg, sel, urls).text ==
              if urls && UrlOf(v).Some? && UrlOf(v).value != "" then text + " (" + UrlOf(v).value + ")"
              else text
  {
  }

  /** The fallbacks: text that was found is the answer; otherwise the
      redirect url when allowed and non-empty; otherwise the fixed sentence.
      The answer is never empty. */
  lemma ZciFallbacks(ddg: Response, priority: seq<string>, webFallback: bool, urls: bool)
    ensures Zci(ddg, priority, webFallback, urls).Ok? <==> FirstMatch(ddg, priority, urls).Ok?
    ensures FirstMatch(ddg, priority, urls).Ok? && FirstMatch(ddg, priority, urls).value != "" ==>
              Zci(ddg, priority, webFallback, urls) == FirstMatch(ddg, priority, urls)
    ensures SkippedBefore(ddg, priority, urls, |priority|) && webFallback && ddg.redirect.url != "" ==>
              Zci(ddg, priority, webFallback, urls) == Ok(ddg.redirect.url)
    ensures SkippedBefore(ddg, priority, urls, |priority|) && (!webFallback || ddg.redirect.url == "") ==>
              Zci(ddg, priority, webFallback, urls) == Ok(NoResults)
  {
    FirstMatchNothing(ddg, priority, urls);
  }

  /** Against the declared string type, reaching the web fallback raises;
      with the redirect read as a record its url is returned. */
  lemma DeclaredRedirectDiffers(ddg: Response, declared: string)
    requires ddg.redirect.url != ""
    ensures FallbackOnDeclaredRedirect(declared, "", true) == Err(AttributeError("url"))
    ensures Fallback(ddg, "", true) == ddg.redirect.url
  {
  }
}
