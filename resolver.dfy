/** `get_zci`: resolves a decoded response to one answer string by trying
    the priority selectors left to right. The query that produces the
    response is not part of this model: the response is a parameter. */
module Resolver {
  import opened Errors
  import opened Model
  import opened Selectors

  /** The final fallback when nothing produced text. */
  const NoResults: string := "Sorry, no results."

  /** What `getattr(ddg, name)` and indexing into it can yield. */
  datatype Value =
    | NoneValue
    | StrValue(s: string)
    | AnswerValue(answer: Answer)
    | DefinitionValue(definition: Definition)
    | AbstractValue(abstractInfo: Abstract)
    | ImageValue(image: Image)
    | RedirectValue(redirect: Redirect)
    | TopicValue(topic: Topic)
    | ResultValue(entry: ResultEntry)
    | TopicList(topics: seq<Topic>)
    | ResultList(entries: seq<ResultEntry>)

  /** The attribute of the response a field names: `kind` and `heading` are
      strings, `results` and `related_topics` lists, the rest records. */
  function GetAttr(ddg: Response, f: Field): (v: Value)
    ensures v.StrValue? <==> f == KindField || f == HeadingField
    ensures v.TopicList? || v.ResultList? <==> f == ResultsField || f == RelatedTopicsField
    ensures f == KindField ==> v == StrValue(ddg.kind)
    ensures f == HeadingField ==> v == StrValue(ddg.heading)
    ensures f == ResultsField ==> v == ResultList(ddg.results)
    ensures f == RelatedTopicsField ==> v == TopicList(ddg.relatedTopics)
    ensures f == AbstractField ==> v == AbstractValue(ddg.abstractInfo)
    ensures f == RedirectField ==> v == RedirectValue(ddg.redirect)
    ensures f == DefinitionField ==> v == DefinitionValue(ddg.definition)
    ensures f == AnswerField ==> v == AnswerValue(ddg.answer)
    ensures f == ImageField ==> v == ImageValue(ddg.image)
    ensures v != NoneValue
  {
    match f
    case KindField => StrValue(ddg.kind)
    case HeadingField => StrValue(ddg.heading)
    case ResultsField => ResultList(ddg.results)
    case RelatedTopicsField => TopicList(ddg.relatedTopics)
    case AbstractField => AbstractValue(ddg.abstractInfo)
    case RedirectField => RedirectValue(ddg.redirect)
    case DefinitionField => DefinitionValue(ddg.definition)
    case AnswerField => AnswerValue(ddg.answer)
    case ImageField => ImageValue(ddg.image)
  }

  /** Python truthiness: `None`, an empty string and an empty list are false;
      a dataclass instance is always true. */
  function Truthy(v: Value): (b: bool)
    ensures v.NoneValue? ==> !b
    ensures !b ==> v.NoneValue? || v.StrValue? || v.TopicList? || v.ResultList?
    ensures v.StrValue? || v.TopicList? || v.ResultList? ==> (b <==> Length(v) > 0)
  {
    match v
    case NoneValue => false
    case StrValue(s) => s != ""
    case TopicList(ts) => ts != []
    case ResultList(es) => es != []
    case _ => true
  }

  /** `hasattr(v, '__getitem__')`: strings and lists. */
  function Indexable(v: Value): (b: bool)
    ensures b <==> v.StrValue? || v.TopicList? || v.ResultList?
    ensures b ==> v != NoneValue && TextOf(v).Err?
  {
    match v
    case StrValue(_) => true
    case TopicList(_) => true
    case ResultList(_) => true
    case _ => false
  }

  /** `len(v)` of a string or list. */
  function Length(v: Value): (n: nat)
    requires Indexable(v)
    ensures v.StrValue? ==> n == |v.s|
    ensures v.TopicList? ==> n == |v.topics|
    ensures v.ResultList? ==> n == |v.entries|
  {
    match v
    case StrValue(s) => |s|
    case TopicList(ts) => |ts|
    case ResultList(es) => |es|
  }

  /** `v[k]` for a valid non-negative position; a string yields a one-character string. */
  function ItemAt(v: Value, k: nat): (r: Value)
    requires Indexable(v) && k < Length(v)
    ensures v.StrValue? ==> r == StrValue([v.s[k]]) && Truthy(r)
    ensures v.TopicList? ==> r == TopicValue(v.topics[k])
    ensures v.ResultList? ==> r == ResultValue(v.entries[k])
  {
    match v
    case StrValue(s) => StrValue([s[k]])
    case TopicList(ts) => TopicValue(ts[k])
    case ResultList(es) => ResultValue(es[k])
  }

  /** Where `v[index] if len(v) > index else None` lands. */
  datatype Position = Beyond | At(k: nat) | BeforeStart

  /** Python indexing of a sequence of length `n`: an index at or past the end
      gives `None`; a negative index counts from the end, and one that
      reaches before the start raises `IndexError`. */
  function Locate(n: nat, index: int): (r: Position)
    ensures r.Beyond? <==> index >= n
    ensures r.BeforeStart? <==> n + index < 0
    ensures r.At? ==> r.k < n && (if index >= 0 then r.k == index else r.k == n + index)
  {
    if n > index then
      if index >= 0 then At(index)
      else if 0 <= n + index then At(n + index)
      else BeforeStart
    else Beyond
  }

  /** `v.text`: present on the answer, definition, abstract, topic and result
      records; any other value raises `AttributeError`. */
  function TextOf(v: Value): (r: Result<string>)
    ensures r.Ok? <==> v.AnswerValue? || v.DefinitionValue? || v.AbstractValue? || v.TopicValue? || v.ResultValue?
    ensures r.Err? ==> r.error == AttributeError("text")
    ensures v.AnswerValue? ==> r == Ok(v.answer.text)
    ensures v.DefinitionValue? ==> r == Ok(v.definition.text)
    ensures v.AbstractValue? ==> r == Ok(v.abstractInfo.text)
    ensures v.TopicValue? ==> r == Ok(v.topic.text)
    ensures v.ResultValue? ==> r == Ok(v.entry.text)
  {
    match v
    case AnswerValue(a) => Ok(a.text)
    case DefinitionValue(d) => Ok(d.text)
    case AbstractValue(a) => Ok(a.text)
    case TopicValue(t) => Ok(t.text)
    case ResultValue(e) => Ok(e.text)
    case _ => Err(AttributeError("text"))
  }

  /** `v.url` when `hasattr(v, 'url')`; an answer has no url. */
  function UrlOf(v: Value): (r: Option<string>)
    ensures r.None? <==> v.NoneValue? || v.StrValue? || v.AnswerValue? || v.TopicList? || v.ResultList?
    ensures v.DefinitionValue? ==> r == Some(v.definition.url)
    ensures v.AbstractValue? ==> r == Some(v.abstractInfo.url)
    ensures v.ImageValue? ==> r == Some(v.image.url)
    ensures v.RedirectValue? ==> r == Some(v.redirect.url)
    ensures v.TopicValue? ==> r == Some(v.topic.url)
    ensures v.ResultValue? ==> r == Some(v.entry.url)
  {
    match v
    case DefinitionValue(d) => Some(d.url)
    case AbstractValue(a) => Some(a.url)
    case ImageValue(i) => Some(i.url)
    case RedirectValue(r) => Some(r.url)
    case TopicValue(t) => Some(t.url)
    case ResultValue(e) => Some(e.url)
    case _ => None
  }

  /** The entry a parsed selector picks out of the response, `NoneValue` when
      the index is past the end. */
  function Select(ddg: Response, sel: Selector): (r: Result<Value>)
    ensures sel.index.Some? && !Indexable(GetAttr(ddg, sel.field)) ==>
              r == Err(TypeError(FieldName(sel.field) + " field is not indexable"))
    ensures (sel.index.Some? && Indexable(GetAttr(ddg, sel.field)) &&
             sel.index.value >= Length(GetAttr(ddg, sel.field))) ==> r == Ok(NoneValue)
    ensures sel.index.None? ==> r == Ok(GetAttr(ddg, sel.field))
    ensures (sel.index.Some? && Indexable(GetAttr(ddg, sel.field)) &&
             Locate(Length(GetAttr(ddg, sel.field)), sel.index.value).At?) ==>
              r == Ok(ItemAt(GetAttr(ddg, sel.field), Locate(Length(GetAttr(ddg, sel.field)), sel.index.value).k))
    ensures (sel.index.Some? && Indexable(GetAttr(ddg, sel.field)) &&
             Length(GetAttr(ddg, sel.field)) + sel.index.value < 0) ==> r == Err(IndexError)
  {
    var v := GetAttr(ddg, sel.field);
    match sel.index
    case None => Ok(v)
    case Some(index) =>
      if !Indexable(v) then Err(TypeError(FieldName(sel.field) + " field is not indexable"))
      else
        match Locate(Length(v), index)
        case Beyond => Ok(NoneValue)
        case At(k) => Ok(ItemAt(v, k))
        case BeforeStart => Err(IndexError)
  }

  /** The answer text an entry contributes, with its url appended when asked. */
  function WithUrl(text: string, url: Option<string>, urls: bool): (r: string)
    ensures text <= r
    ensures r == text || (urls && url.Some? && url.value != "" && r == text + " (" + url.value + ")")
    ensures urls && url.Some? && url.value != "" ==> r == text + " (" + url.value + ")"
  {
    if urls && url.Some? && url.value != "" then text + " (" + url.value + ")" else text
  }

  /** The outcome of trying one selector. */
  datatype Outcome = Skip | Match(text: string) | Fail(error: Error)

  /** One entry's outcome: falsy entries and entries with empty text are skipped. */
  function Candidate(v: Value, urls: bool): (r: Outcome)
    ensures r.Match? ==> r.text != ""
    ensures !Truthy(v) ==> r == Skip
    ensures Truthy(v) && TextOf(v).Err? ==> r == Fail(TextOf(v).error)
    ensures Truthy(v) && TextOf(v) == Ok("") ==> r == Skip
    ensures Truthy(v) && TextOf(v).Ok? && TextOf(v).value != "" ==>
              r == Match(WithUrl(TextOf(v).value, UrlOf(v), urls))
  {
    if !Truthy(v) then Skip
    else
      match TextOf(v)
      case Err(e) => Fail(e)
      case Ok(t) => if t == "" then Skip else Match(WithUrl(t, UrlOf(v), urls))
  }

  /** Trying one parsed selector. */
  function StepSelector(ddg: Response, sel: Selector, urls: bool): (r: Outcome)
    ensures r.Match? ==> r.text != ""
    ensures Select(ddg, sel).Err? ==> r == Fail(Select(ddg, sel).error)
    ensures Select(ddg, sel).Ok? ==> r == Candidate(Select(ddg, sel).value, urls)
    // a selector without an index tries the attribute itself
    ensures sel.index.None? ==> r == Candidate(GetAttr(ddg, sel.field), urls)
  {
    match Select(ddg, sel)
    case Err(e) => Fail(e)
    case Ok(v) => Candidate(v, urls)
  }

  /** Trying one priority entry, parsing it first. */
  function Step(ddg: Response, p: string, urls: bool): (r: Outcome)
    ensures r.Match? ==> r.text != ""
    ensures ParseSelector(p).Err? ==> r == Fail(ParseSelector(p).error)
    ensures ParseSelector(p).Ok? ==> r == StepSelector(ddg, ParseSelector(p).value, urls)
  {
    match ParseSelector(p)
    case Err(e) => Fail(e)
    case Ok(sel) => StepSelector(ddg, sel, urls)
  }

  /** The reference for the loop: the text of the first selector that
      matches, `""` when every selector is skipped, or the first error. */
  function FirstMatch(ddg: Response, priority: seq<string>, urls: bool): (r: Result<string>)
    decreases |priority|
  {
    if priority == [] then Ok("")
    else
      match Step(ddg, priority[0], urls)
      case Skip => FirstMatch(ddg, priority[1..], urls)
      case Match(t) => Ok(t)
      case Fail(e) => Err(e)
  }

  /** The search from position `i` on is decided by selector `i`. */
  lemma FirstMatchUnfold(ddg: Response, priority: seq<string>, i: nat, urls: bool)
    requires i < |priority|
    ensures FirstMatch(ddg, priority[i..], urls) ==
              match Step(ddg, priority[i], urls)
              case Skip => FirstMatch(ddg, priority[i + 1..], urls)
              case Match(t) => Ok(t)
              case Fail(e) => Err(e)
  {
    assert priority[i..][0] == priority[i] && priority[i..][1..] == priority[i + 1..];
  }

  /** The fallbacks after the loop: the redirect url, then the fixed sentence. */
  function Fallback(ddg: Response, found: string, webFallback: bool): (r: string)
    ensures r != ""
    ensures found != "" ==> r == found
    ensures found == "" && webFallback && ddg.redirect.url != "" ==> r == ddg.redirect.url
    ensures found == "" && (!webFallback || ddg.redirect.url == "") ==> r == NoResults
  {
    var response := if found == "" && webFallback && ddg.redirect.url != "" then ddg.redirect.url else found;
    if response == "" then NoResults else response
  }

  /** The fallbacks as written against the declared type of `redirect`, a
      plain string: a string has no `url` attribute, so reaching the web
      fallback raises instead of returning. */
  function FallbackOnDeclaredRedirect(redirect: string, found: string, webFallback: bool): (r: Result<string>)
    ensures found == "" && webFallback ==> r == Err(AttributeError("url"))
    ensures found != "" ==> r == Ok(found)
    ensures found == "" && !webFallback ==> r == Ok(NoResults)
  {
    if found == "" && webFallback then Err(AttributeError("url"))
    else if found == "" then Ok(NoResults)
    else Ok(found)
  }

  /** What `get_zci` returns for a response, or the exception it raises. */
  function Zci(ddg: Response, priority: seq<string>, webFallback: bool, urls: bool): (r: Result<string>)
    ensures r.Ok? ==> r.value != ""
  {
    var found :- FirstMatch(ddg, priority, urls);
    Ok(Fallback(ddg, found, webFallback))
  }

  /** One pass of the loop body of `get_zci`: parse the selector, fetch the
      attribute, index it, and read its text and url. */
  method TrySelector(ddg: Response, p: string, urls: bool) returns (o: Outcome)
    ensures o == Step(ddg, p, urls)
  {
    // split on '.', read the index with int(), then look the name up
    var parsed := ParseSelector(p);
    if parsed.Err? {
      return Fail(parsed.error);
    }
    var sel := parsed.value;
    var index := sel.index;

    var result := GetAttr(ddg, sel.field);
    if index.Some? {
      if !Indexable(result) {
        return Fail(TypeError(FieldName(sel.field) + " field is not indexable"));
      }
      match Locate(Length(result), index.value)
      case Beyond =>
        result := NoneValue;
      case At(k) =>
        result := ItemAt(result, k);
      case BeforeStart =>
        return Fail(IndexError);
    }
    assert Select(ddg, sel) == Ok(result);

    if !Truthy(result) {
      return Skip;
    }
    var text := TextOf(result);
    if text.Err? {
      return Fail(text.error);
    }
    var response := "";
    if text.value != "" {
      response := text.value;
    }
    if text.value != "" && UrlOf(result).Some? && urls {
      if UrlOf(result).value != "" {
        response := response + " (" + UrlOf(result).value + ")";
      }
    }
    if response == "" {
      return Skip;
    }
    return Match(response);
  }

  /** The loop of `get_zci` followed by its two fallbacks. */
  method GetZci(ddg: Response, priority: seq<string>, webFallback: bool, urls: bool)
    returns (r: Result<string>)
    ensures r == Zci(ddg, priority, webFallback, urls)
    ensures r.Ok? ==> r.value != ""
  {
    var response := "";
    var i := 0;
    while i < |priority|
      invariant 0 <= i <= |priority|
      invariant response == ""
      invariant FirstMatch(ddg, priority, urls) == FirstMatch(ddg, priority[i..], urls)
    {
      FirstMatchUnfold(ddg, priority, i, urls);
      var outcome := TrySelector(ddg, priority[i], urls);
      if outcome.Fail? {
        return Err(outcome.error);
      }
      if outcome.Match? {
        response := outcome.text;
        break;
      }
      i := i + 1;
    }
    assert FirstMatch(ddg, priority, urls) == Ok(response);

    // if there still is no text, fall back to the redirect target
    if response == "" && webFallback {
      if ddg.redirect.url != "" {
        response := ddg.redirect.url;
      }
    }
    // final fallback
    if response == "" {
      response := NoResults;
    }
    r := Ok(response);
  }
}
