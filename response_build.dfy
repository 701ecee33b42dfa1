/** The part of building a `Response` that the post-load hook performs: the
    `Abstract` and `Answer` records and the kind name looked up from the
    `Type` code. The schema library's decoding that produces `data` is not
    modelled; `data` is the loaded dict restricted to its string fields. */
module ResponseBuild {
  import opened Errors
  import opened Model

  /** The fixed table from the one-letter `Type` code to the kind's name. */
  const KindTable: map<string, string> := map[
    "A" := "answer",
    "D" := "disambiguation",
    "C" := "category",
    "N" := "name",
    "E" := "exclusive",
    "" := "nothing"
  ]

  /** Looks a code up in the kind table; an unlisted code is a `KeyError`. */
  function KindName(code: string): (r: Result<string>)
    ensures r.Ok? <==> code in {"A", "D", "C", "N", "E", ""}
    ensures r.Err? ==> r.error == KeyError(code)
    ensures code == "A" ==> r == Ok("answer")
    ensures code == "D" ==> r == Ok("disambiguation")
    ensures code == "C" ==> r == Ok("category")
    ensures code == "N" ==> r == Ok("name")
    ensures code == "E" ==> r == Ok("exclusive")
    ensures code == "" ==> r == Ok("nothing")
  {
    if code in KindTable then Ok(KindTable[code]) else Err(KeyError(code))
  }

  /** The code a kind name came from: the table read backwards. */
  function KindCode(name: string): (r: Result<string>)
  {
    match name
    case "answer" => Ok("A")
    case "disambiguation" => Ok("D")
    case "category" => Ok("C")
    case "name" => Ok("N")
    case "exclusive" => Ok("E")
    case "nothing" => Ok("")
    case _ => Err(KeyError(name))
  }

  /** The table is one-to-one: looking a code up and reading it back gives
      the code, and every listed name comes from exactly one code. */
  lemma KindRoundTrip(code: string, name: string)
    ensures KindName(code) == Ok(name) ==> KindCode(name) == Ok(code)
    ensures KindCode(name) == Ok(code) ==> KindName(code) == Ok(name)
  {
  }

  /** Two different codes never give the same kind name. */
  lemma KindNameInjective(c1: string, c2: string)
    requires KindName(c1).Ok? && KindName(c2).Ok?
    requires KindName(c1) == KindName(c2)
    ensures c1 == c2
  {
    KindRoundTrip(c1, KindName(c1).value);
    KindRoundTrip(c2, KindName(c2).value);
  }

  /** Reads one key of the loaded dict. */
  function Field(data: map<string, string>, key: string): (r: Result<string>)
    ensures r.Ok? <==> key in data
    ensures r.Ok? ==> r.value == data[key]
    ensures r.Err? ==> r.error == KeyError(key)
  {
    if key in data then Ok(data[key]) else Err(KeyError(key))
  }

  /** `Abstract(html=data['abstract'], text=..., url=..., source=...)`;
      the keys are read in argument order, and the first absent one raises. */
  function MakeAbstract(data: map<string, string>): (r: Result<Abstract>)
    ensures r.Ok? <==> {"abstract", "abstract_text", "abstract_url", "abstract_source"} <= data.Keys
    ensures r.Ok? ==> r.value == Abstract(data["abstract"], data["abstract_text"],
                                          data["abstract_url"], data["abstract_source"])
    ensures "abstract" !in data ==> r == Err(KeyError("abstract"))
    ensures "abstract" in data && "abstract_text" !in data ==> r == Err(KeyError("abstract_text"))
    ensures {"abstract", "abstract_text"} <= data.Keys && "abstract_url" !in data ==>
              r == Err(KeyError("abstract_url"))
    ensures {"abstract", "abstract_text", "abstract_url"} <= data.Keys && "abstract_source" !in data ==>
              r == Err(KeyError("abstract_source"))
  {
    var html :- Field(data, "abstract");
    var text :- Field(data, "abstract_text");
    var url :- Field(data, "abstract_url");
    var source :- Field(data, "abstract_source");
    Ok(Abstract(html, text, url, source))
  }

  /** `Answer(text=data['answer'], kind=data['answer_type'])`. */
  function MakeAnswer(data: map<string, string>): (r: Result<Answer>)
    ensures r.Ok? <==> {"answer", "answer_type"} <= data.Keys
    ensures r.Ok? ==> r.value == Answer(data["answer"], data["answer_type"])
    ensures "answer" !in data ==> r == Err(KeyError("answer"))
    ensures "answer" in data && "answer_type" !in data ==> r == Err(KeyError("answer_type"))
  {
    var text :- Field(data, "answer");
    var kind :- Field(data, "answer_type");
    Ok(Answer(text, kind))
  }

  /** What the post-load hook computes before the unfinished part: the
      abstract, then the answer, then the kind name from `data['kind']`. */
  datatype Parts = Parts(abstractInfo: Abstract, answer: Answer, kind: string)

  function MakeParts(data: map<string, string>): (r: Result<Parts>)
    ensures r.Ok? <==> MakeAbstract(data).Ok? && MakeAnswer(data).Ok?
                       && "kind" in data && KindName(data["kind"]).Ok?
    ensures r.Ok? ==> r.value.abstractInfo == MakeAbstract(data).value
                      && r.value.answer == MakeAnswer(data).value
                      && r.value.kind == KindName(data["kind"]).value
    // the abstract is built first, so its error wins over the others
    ensures MakeAbstract(data).Err? ==> r == Err(MakeAbstract(data).error)
    ensures MakeAbstract(data).Ok? && MakeAnswer(data).Err? ==> r == Err(MakeAnswer(data).error)
    ensures MakeAbstract(data).Ok? && MakeAnswer(data).Ok? && "kind" !in data ==> r == Err(KeyError("kind"))
    ensures MakeAbstract(data).Ok? && MakeAnswer(data).Ok? && "kind" in data && KindName(data["kind"]).Err? ==>
              r == Err(KindName(data["kind"]).error)
  {
    var abstractInfo :- MakeAbstract(data);
    var answer :- MakeAnswer(data);
    var code :- Field(data, "kind");
    var kind :- KindName(code);
    Ok(Parts(abstractInfo, answer, kind))
  }

  /** The dict entries an abstract and answer are read from. */
  function PartsData(a: Abstract, ans: Answer, code: string): map<string, string> {
    map["abstract" := a.html, "abstract_text" := a.text, "abstract_url" := a.url,
        "abstract_source" := a.source, "answer" := ans.text, "answer_type" := ans.kind,
        "kind" := code]
  }

  /** Round trip: the records are rebuilt from the entries they were read from,
      and the kind is the `Type` code's name (the answer type does not override it). */
  lemma MakePartsRoundTrip(a: Abstract, ans: Answer, code: string)
    requires code in KindTable
    ensures MakeParts(PartsData(a, ans, code)) == Ok(Parts(a, ans, KindTable[code]))
  {
  }

  /** The kind comes from the `Type` code alone: changing the answer type
      changes the answer record and nothing else. */
  lemma AnswerTypeDoesNotOverride(data: map<string, string>, answerType: string)
    requires MakeParts(data).Ok?
    ensures MakeParts(data["answer_type" := answerType]) ==
              Ok(MakeParts(data).value.(answer := MakeParts(data).value.answer.(kind := answerType)))
  {
    var d := data["answer_type" := answerType];
    assert {"abstract", "abstract_text", "abstract_url", "abstract_source"} <= d.Keys;
    assert d["abstract"] == data["abstract"] && d["kind"] == data["kind"] && d["answer"] == data["answer"];
  }
}
