# python-duckduckgo: the answer resolver and its helpers

A Dafny model of the logic in `duckduckgo.py`, a client library for the
DuckDuckGo instant-answer ("zero-click info") API. The library builds the
request parameters for a query and decodes the JSON reply into dataclasses.
It then picks one answer string: `get_zci` tries an ordered list of
selectors such as `answer` or `related_topics.0`, stops at the first entry
with text, and otherwise falls back to the redirect url and then to
`'Sorry, no results.'`.

Modules, one per piece of the library:

- `Errors`: the Python exceptions the code can raise (`KeyError`,
  `AttributeError`, `TypeError`, `ValueError`, `IndexError`) and a `Result`
  type. An operation that raises returns `Err` instead.
- `Model`: the dataclasses `Answer`, `Definition`, `Abstract`, `Image`,
  `Topic`, `Result` (here `ResultEntry`) and `Response`, as immutable values.
  The `abstract` attribute is called `abstractInfo`, because `abstract` is a
  Dafny keyword.
- `Query`: the parameter dict that `query` builds.
- `SizeInteger`: blank-to-default normalisation of integer fields.
- `ResponseBuild`: the post-load hook's `Abstract`/`Answer` construction and
  the kind table.
- `Selectors`: how a priority entry is read. `str.split('.')`, `int()` on the
  index, and `getattr` by name are modelled with an enumerated `Field` type.
- `Resolver`: the `get_zci` loop. `GetZci` is a method with a `while` loop,
  proved equal to the reference function `Zci`, which runs the recursive
  search `FirstMatch` and then applies the fallbacks.
- `ResolverProperties`: order, early exit, per-attribute behaviour and the
  fallbacks, proved about `Zci`.
- `ZciDefaults`: the default priority of `get_zci`, the finding about it, and
  end-to-end cases.

The resolver follows Python's dynamic behaviour. `getattr` returns a `Value`:
a string, a record, a list, or `None` for an index past the end. Python
truthiness decides whether an entry is skipped. A dataclass is always truthy.
`None`, `''` and `[]` are falsy. Reading `.text` on a value that has no such
attribute raises `AttributeError`. Here is how each kind of selector behaves:

- An index on a record (answer, definition, abstract, image, redirect)
  raises `TypeError('<name> field is not indexable')`.
- An index at or past the end skips the selector.
- A negative index counts from the end, as in Python. One that reaches
  before the start raises `IndexError`. This happens because
  `len(x) > index` always holds for a negative index.
- A list or string selected without an index is skipped when it is empty.
  When it is not empty it raises `AttributeError`, since it has no `text`.
- The answer record has no `url`, so its text is never suffixed.

The code differs from what a reader of the API might expect in these ways,
and the model follows the code:

- The kind comes from the `Type` code alone. The answer type does not
  override it. This agrees with the docstring of `query`, which expects kind
  `'nothing'` and answer kind `'calc'` for `1 + 1`
  (`ResponseBuild.AnswerTypeDoesNotOverride`).
- The code has no step that flattens grouped related topics.
- A list selector without an index does not default to index 0. Selecting
  `related_topics` on a non-empty list raises
  (`ZciDefaults.UnindexedTopicsRaise`).
- Caller keyword arguments replace the fixed parameters with the same key,
  because `dict.update` does so.
- The redirect is read through `ddg.redirect.url`, so it is modelled as a
  record with a `url`. The declared string type is covered under Findings.

## Model

| member | source | states |
|---|---|---|
| Query.Query | duckduckgo.py:18-52 | The options default to safe search on, html off and meanings on, with no extra arguments. The dict's keys are the six fixed keys plus the caller's. Every kwarg wins over a fixed entry with the same key. Without an override: `q` is the query, `o` is `json`, `no_redirect` is `1`, `kp` is `1`/`-1` for safe search on/off, `no_html` is `0`/`1` for html allowed/not, and `d` is `0`/`1` for meanings on/off. When the caller does not override them, the three flags read back to the options given. |
| Query.ReadOptions | duckduckgo.py:41-43 | The inverse of the flag translation. It succeeds exactly when `kp`, `no_html` and `d` hold one of their two literals, and it recovers each boolean from its literal. |
| SizeInteger.FormatNum | duckduckgo.py:129-136 | A falsy value (`None`, `False`, `0`, `''`) becomes the configured default. Any other value is passed on unchanged. |
| SizeInteger.Falsy | duckduckgo.py:134 | `not value` holds exactly for `None`, `False`, `0` and `''`. |
| SizeInteger.FormatNumFalsyOnlyAsZero | duckduckgo.py:133-136 | The normalised value is falsy exactly when the input was falsy and the default is 0, and it is then the integer 0. |
| SizeInteger.FormatNumIdempotent | duckduckgo.py:133-136 | Normalising twice gives the same value as normalising once. |
| SizeInteger.DefaultBlanksAreZero | duckduckgo.py:129-136 | With the default `empty_default=0`, `''`, `None`, `0` and `False` all become 0. |
| ResponseBuild.KindName | duckduckgo.py:182-183 | `A`, `D`, `C`, `N`, `E` and `''` map to answer, disambiguation, category, name, exclusive and nothing. Every other code is a `KeyError` for that code. |
| ResponseBuild.KindRoundTrip | duckduckgo.py:182-183 | Reading the table backwards recovers the code, in both directions. |
| ResponseBuild.KindNameInjective | duckduckgo.py:182-183 | Two codes that map to the same kind are the same code. |
| ResponseBuild.Field | duckduckgo.py:177-183 | `data[key]` succeeds exactly when the key is present, gives its entry, and is otherwise `KeyError(key)`. |
| ResponseBuild.MakeAbstract | duckduckgo.py:177-180 | Succeeds exactly when the four abstract keys are present, and copies `abstract`, `abstract_text`, `abstract_url` and `abstract_source` into html, text, url and source. The keys are read in that order, and the first missing one raises its own `KeyError`. |
| ResponseBuild.MakeAnswer | duckduckgo.py:181 | Succeeds exactly when `answer` and `answer_type` are present, and builds the answer from them. A missing `answer` raises `KeyError('answer')`, and otherwise a missing `answer_type` raises `KeyError('answer_type')`. |
| ResponseBuild.MakeParts | duckduckgo.py:176-183 | Succeeds exactly when the abstract, the answer and the kind lookup all succeed. Errors come in the order of the code: the abstract's, then the answer's, then `KeyError('kind')`, then the table's `KeyError` for an unknown code. |
| ResponseBuild.MakePartsRoundTrip | duckduckgo.py:177-183 | The records are rebuilt exactly from the dict entries they are read from, and the kind is the code's table entry. |
| ResponseBuild.AnswerTypeDoesNotOverride | duckduckgo.py:181-183 | Changing `answer_type` gives the same parts with only the answer's kind replaced. The abstract, the answer text and the response kind are unchanged. |
| Selectors.Split | duckduckgo.py:208 | `split('.')` always gives at least one piece. The two lemmas below state that the pieces join back to the text and contain no dot. |
| Selectors.SplitJoin | duckduckgo.py:208 | Joining the pieces of `split('.')` with dots gives back the selector text. |
| Selectors.SplitPiecesDotFree | duckduckgo.py:208 | No piece of the split contains a dot. |
| Selectors.SplitNoDot | duckduckgo.py:208 | A text without dots splits into itself alone. |
| Selectors.SplitTwo | duckduckgo.py:208-210 | `name.index` with dot-free parts splits into exactly the name and the index text. |
| Selectors.ParseInt | duckduckgo.py:210 | Succeeds exactly on an optional `+` or `-` followed by one or more digits. The digits read as their decimal value, negated after `-`. Every other text is `ValueError` carrying that text. |
| Selectors.LeadingZeroIgnored | duckduckgo.py:210 | A leading zero does not change the value of a digit run. |
| Selectors.SignedLeadingZeroIgnored | duckduckgo.py:210 | After an optional sign, an extra leading zero reads the same integer, so `-007` is `-7`. |
| Selectors.ParseIntText | duckduckgo.py:210 | `int(str(n)) == n` for every integer, negative ones included. |
| Selectors.LookupField | duckduckgo.py:212 | A found field has the name looked up. An unknown name is `AttributeError(name)`, and no field has that name. |
| Selectors.LookupFieldName | duckduckgo.py:212 | Every field is found under its own name, and no field name contains a dot. |
| Selectors.ParseSelector | duckduckgo.py:208-212 | The field is named by the first piece. An index is present exactly when there is a second piece, and it is that piece's integer value. A bad index is a `ValueError` and is reported before an unknown name. Once the index is absent or reads, parsing succeeds exactly when the name is a field, and an unknown name is `AttributeError(name)`. |
| Selectors.ParseSelectorText | duckduckgo.py:208-212 | Every selector is parsed back from its text: `name` or `name.<int>`. |
| Resolver.Locate | duckduckgo.py:217 | Python indexing of `x[index] if len(x) > index else None`. Past the end gives `None`. In range gives the element, counting from the end for a negative index. Before the start gives `IndexError`. |
| Resolver.GetAttr | duckduckgo.py:212 | Each field yields the response's own attribute of that name: `kind` and `heading` as strings, `results` and `related_topics` as lists, the records as records. No attribute is `None`. |
| Resolver.Truthy | duckduckgo.py:218 | `None` is falsy. Only `None`, strings and lists can be falsy, and a string or list is truthy exactly when it is non-empty. |
| Resolver.Indexable | duckduckgo.py:214 | `hasattr(result, '__getitem__')` holds exactly for strings and the two lists, none of which has a `text` attribute. |
| Resolver.Length | duckduckgo.py:217 | `len(result)` is the string's or the list's own length. |
| Resolver.ItemAt | duckduckgo.py:217 | Indexing a list gives its `k`-th topic or result. Indexing a string gives its `k`-th character as a one-character string, which is truthy. |
| Resolver.UrlOf | duckduckgo.py:223-224 | `hasattr(result, 'url')` is false exactly for `None`, strings, lists and the answer record. For every other record, `result.url` is that record's own url. |
| Resolver.Select | duckduckgo.py:212-217 | Without an index, the attribute itself is selected. An index on a value without `__getitem__` is `TypeError('<name> field is not indexable')`. An index past the end gives `None`. An index in range gives the element at the position `Locate` finds, counting from the end when negative. An index before the start is `IndexError`. |
| Resolver.TextOf | duckduckgo.py:221 | `.text` exists exactly on the answer, definition, abstract, topic and result records, and is that record's own text. Any other value raises `AttributeError('text')`. |
| Resolver.WithUrl | duckduckgo.py:221-225 | The text is a prefix of the result. When urls are wanted and the url is present and non-empty, the result is the text followed by ` (<url>)`. Otherwise it is exactly the text. |
| Resolver.Candidate | duckduckgo.py:218-226 | A falsy entry is skipped, and so is an entry with empty text. A missing `text` attribute fails. A truthy entry with non-empty text matches that text, with its url appended by the `WithUrl` rule. A match is never empty. |
| Resolver.StepSelector | duckduckgo.py:212-226 | A selection error is the step's failure. Otherwise the selected value is tried as a candidate, and without an index that value is the attribute itself. A match is never empty. |
| Resolver.Step | duckduckgo.py:207-227 | A parse error of the selector is the step's error. A selector that parses behaves as its parsed `Selector` does under `StepSelector`. A match is never empty. |
| Resolver.FirstMatch | duckduckgo.py:207-227 | The reference for the loop: the text of the first selector that matches, `""` when every selector is skipped, or the first error. It has no contract of its own. `FirstMatchAt`, `FirstMatchNothing`, `FirstMatchDecidedBy` and `FirstMatchAppend` state its order and early exit, and `GetZci` is proved equal to it. |
| Resolver.Fallback | duckduckgo.py:229-236 | Found text is kept. Otherwise the redirect url is used when web fallback is on and the url is non-empty. Otherwise the result is `Sorry, no results.`. It is never empty. |
| Resolver.FallbackOnDeclaredRedirect | duckduckgo.py:118 | With `redirect` a plain string as declared, reaching the web fallback raises `AttributeError('url')`. |
| Resolver.Zci | duckduckgo.py:205-238 | A successful answer is never empty. |
| Resolver.FirstMatchUnfold | duckduckgo.py:207-227 | From position `i` on, the search is decided by selector `i`, or goes on after it when that selector is skipped. |
| Resolver.TrySelector | duckduckgo.py:208-226 | One pass of the loop body, with its parse, `getattr`, indexing, truthiness test and url suffix, returns exactly the reference outcome `Step` of that selector. |
| Resolver.GetZci | duckduckgo.py:205-238 | The loop over the priority, with its early exits and the two fallbacks, returns exactly what the reference `Zci` returns, errors included. A successful answer is never empty. |
| ResolverProperties.FirstMatchAt | duckduckgo.py:207-227 | When every selector before `k` was skipped, selector `k`'s match or error is the result. If `k` is also skipped, the search continues after it. |
| ResolverProperties.FirstMatchNothing | duckduckgo.py:207-227 | Nothing is found exactly when every selector is skipped (both directions). |
| ResolverProperties.FirstMatchDecidedBy | duckduckgo.py:207-227 | Found text, or an error, comes from a selector that every earlier selector was skipped before. |
| ResolverProperties.FirstMatchAppend | duckduckgo.py:207-227 | Selectors are strictly ordered. The selectors of `q` after `p` are consulted only when every selector of `p` was skipped. |
| ResolverProperties.LaterSelectorsIgnored | duckduckgo.py:207-238 | Once a prefix has found text or failed, appending any selectors leaves the answer unchanged. |
| ResolverProperties.AnswerSelection | duckduckgo.py:212-225 | `answer` gives its text with no url suffix, or is skipped when its text is empty. |
| ResolverProperties.DefinitionSelection | duckduckgo.py:212-225 | `definition` gives its text with its url appended when wanted and non-empty, or is skipped when its text is empty. |
| ResolverProperties.AbstractSelection | duckduckgo.py:212-225 | `abstract` gives its text with its url appended when wanted and non-empty, or is skipped when its text is empty. |
| ResolverProperties.RelatedTopicSelection | duckduckgo.py:212-225 | `related_topics.i` gives topic `i`'s text with its url, or is skipped when that text is empty or `i` is past the end. |
| ResolverProperties.ResultSelection | duckduckgo.py:212-225 | `results.i` gives result `i`'s text with its url, or is skipped when that text is empty or `i` is past the end. |
| ResolverProperties.NegativeTopicSelection | duckduckgo.py:212-225 | `related_topics.-i` tries the `i`-th topic from the end, or raises `IndexError` when `i` exceeds the list length. |
| ResolverProperties.NegativeResultSelection | duckduckgo.py:212-225 | `results.-i` tries the `i`-th result from the end, or raises `IndexError` when `i` exceeds the list length. |
| ResolverProperties.StringIndexSelection | duckduckgo.py:212-221 | `heading.i` and `kind.i` skip past the end and raise `IndexError` before the start. At an existing position they raise `AttributeError('text')`, because a character has no `text`. |
| ResolverProperties.TextlessSelection | duckduckgo.py:212-221 | `image` and `redirect` raise `AttributeError('text')`. `heading`, `kind`, `results` and `related_topics` without an index are skipped when empty and raise otherwise. |
| ResolverProperties.IndexedSelection | duckduckgo.py:213-219 | An index past the end skips. An index on a non-indexable field is a `TypeError`, and the five records are not indexable. A negative index before the start is an `IndexError`. |
| ResolverProperties.MatchIsTextWithUrl | duckduckgo.py:221-225 | A match is the selected entry's non-empty text. ` (<url>)` is appended exactly when urls are wanted and the entry has a non-empty url. |
| ResolverProperties.ZciFallbacks | duckduckgo.py:229-238 | The resolver fails exactly when the search fails. Found text is the answer. When everything is skipped, the answer is the redirect url if web fallback is on and the url is non-empty, and otherwise `Sorry, no results.`. |
| ResolverProperties.DeclaredRedirectDiffers | duckduckgo.py:230-232 | For the same situation, the declared-string reading raises, while the record reading returns the redirect url. |
| ZciDefaults.ParsesRelatedFirst | duckduckgo.py:188 | `related.0` parses its index and then fails with `AttributeError('related')`. |
| ZciDefaults.RecordsFirst | duckduckgo.py:207-227 | For a four-entry priority that starts answer, definition, abstract: the first of these with text wins, in that order. Only when all three are empty does the fourth entry decide. |
| ZciDefaults.DefaultPriorityRaises | duckduckgo.py:188 | With the default priority as written, empty answer, definition and abstract texts make `get_zci` raise `AttributeError('related')`. A non-empty answer is still returned. |
| ZciDefaults.IntendedPriorityAnswers | duckduckgo.py:188 | With `related_topics.0` in the last place, the resolver never raises. A non-empty answer wins. When the three records are empty, the first related topic with text (and its url) is used, and otherwise the fallbacks. |
| ZciDefaults.GetZciDefaults | duckduckgo.py:188-238 | `get_zci` with web fallback and urls on and the intended default priority returns a non-empty answer. That answer is the answer text whenever the answer text is non-empty. |
| ZciDefaults.CalculatorScenario | duckduckgo.py:26-32 | For the `1 + 1` calculator answer, both defaults return `1 + 1 = 2` with no url. |
| ZciDefaults.RelatedTopicScenario | duckduckgo.py:221-225 | With empty records and a related topic `Paris is...` at `https://x`, the answer is `Paris is... (https://x)`. |
| ZciDefaults.UnindexedTopicsRaise | duckduckgo.py:210-221 | With empty records, `related_topics` without an index on a non-empty list raises `AttributeError('text')`. |
| ZciDefaults.EmptyScenario | duckduckgo.py:229-236 | With nothing to answer and no web fallback, the intended default gives `Sorry, no results.`, while the default as written raises. |

## Findings

| source | as written | input that shows it | evidently intended | confidence | as-written member | corrected member |
|---|---|---|---|---|---|---|
| duckduckgo.py:188 | the default priority ends with `'related.0'`, but `Response` has no attribute `related` | any response whose answer, definition and abstract texts are empty, for example an empty response: `get_zci` raises `AttributeError` instead of trying the related topics | `'related_topics.0'`, the first related topic | high; not executed | ZciDefaults.DefaultPriorityRaises | ZciDefaults.IntendedPriorityAnswers |
| duckduckgo.py:118 | `redirect` is declared `str`, but line 231 reads `ddg.redirect.url` | a response where nothing matched, with `web_fallback=True`: a string has no `url`, so `get_zci` raises | the redirect holds a `url` that the web fallback returns | medium; not executed | Resolver.FallbackOnDeclaredRedirect | Resolver.Fallback |

`Resolver.GetZci` and `ZciDefaults.GetZciDefaults` use the corrected
reading of the redirect. `GetZciDefaults` also uses the corrected default
priority. `GetZci` accepts any priority, including the default as written.

## Left out

- The network part of `query` (`parse.urlencode`, `request.urlopen`, reading the body) is I/O. It is not modelled, and only the parameter dict is.
- The marshmallow schemas and `schema.loads` are foreign-library deserialisation. Decoded data is given directly as `Model` values, or as the loaded dict of string fields (`ResponseBuild`).
- SizeInteger.FormatNum: models only the normalisation. The integer conversion done by the schema library's `_format_num`, which the value is handed to, is not part of this model.
- `make_response_class` beyond line 183 is unfinished and does not parse. Nothing after the kind lookup is modelled, and the hook returns nothing in the source.
- The `'\\' + q` prefix and the call to `query` inside `get_zci` are transport. The resolver takes the response as a parameter.
- `show_all`, `answer` and `main` print to the console and read `argv`.
- `setup.py` holds packaging metadata only.
- Selectors.ParseInt: accepts only an optional sign followed by ASCII digits. Python's `int()` also strips surrounding whitespace, allows `_` between digits and accepts non-ASCII digits. Those texts are a `ValueError` here.
- Selectors.LookupField: knows only the nine declared `Response` attributes. Python's `getattr` would also find dunder and dataclass-generated attributes such as `__doc__`.
- SizeInteger.Falsy: covers `None`, booleans, integers and strings. Floats and other JSON values are not modelled.
- Error messages are not reproduced word for word. Each error carries the key, name or text that Python's message names.
