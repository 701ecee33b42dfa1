/** The decoded response: the dataclasses of the library, as immutable values. */
module Model {

  datatype Answer = Answer(text: string, kind: string)

  datatype Definition = Definition(text: string, url: string, source: string)

  datatype Abstract = Abstract(html: string, text: string, url: string, source: string)

  datatype Image = Image(url: string, height: int, width: int)

  /** One related-topic entry; `icon` is a plain string, as declared. */
  datatype Topic = Topic(url: string, result: string, text: string, icon: string)

  /** The `Result` dataclass: one primary result, which may group topics. */
  datatype ResultEntry = ResultEntry(topics: seq<Topic>, html: string, text: string, url: string, icon: string)

  /** The bang-redirect target. The field is declared as a string, but the
      resolver reads its `url` attribute, so it is modelled as a record. */
  datatype Redirect = Redirect(url: string)

  datatype Response = Response(
    kind: string,
    heading: string,
    results: seq<ResultEntry>,
    relatedTopics: seq<Topic>,
    abstractInfo: Abstract,   // `abstract` is a Dafny keyword
    redirect: Redirect,
    definition: Definition,
    answer: Answer,
    image: Image)
}
