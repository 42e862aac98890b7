/**
 * The shape of a quiz page as the remote content store returns it. Only the
 * properties the application reads are kept. A title or rich-text property is
 * a sequence of text fragments; select and number values are nullable.
 */
module NotionTypes {
  import opened Common

  /** One `{ text: { content } }` fragment of a title or rich-text property. */
  datatype TextFragment = TextFragment(content: string)

  /** The `name` of a select option (its `id` and `color` are never read). */
  datatype SelectOption = SelectOption(name: string)

  /** The typed properties of a quiz page. A property missing from the page is `None`. */
  datatype QuizProperties = QuizProperties(
    title: Option<seq<TextFragment>>,
    topic: Option<Option<SelectOption>>,
    numberOfQuestions: Option<Option<int>>,
    questionsContent: Option<seq<TextFragment>>
  )

  /** A retrieved page; `properties` may be missing when the id names some other object. */
  datatype Page = Page(id: string, properties: Option<QuizProperties>)

  /** `fragments[0]?.text.content`: the content of the first fragment, if any. */
  function FirstContent(fragments: seq<TextFragment>): (r: Option<string>)
    ensures r.Some? <==> |fragments| > 0
    ensures |fragments| > 0 ==> r.value == fragments[0].content
  {
    if |fragments| == 0 then None else Some(fragments[0].content)
  }
}
