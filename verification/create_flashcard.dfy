/**
 * The flashcard creation dialog: the form's acceptance rules, its default
 * values, the record sent to the store and the submission's effects.
 */
module CreateFlashcard {
  import opened Common
  import opened NotionTypes
  import opened CreateForms

  /** The form values: `topic` is optional. */
  datatype FlashcardForm = FlashcardForm(question: string, answer: string, topic: Option<string>)

  /** The rule a form value breaks. */
  datatype FieldError = QuestionTooShort | AnswerTooShort

  const MinQuestionLength: nat := 2
  const MinAnswerLength: nat := 2

  /** The values the dialog opens with. */
  const DefaultForm: FlashcardForm := FlashcardForm("", "", Some(DefaultTopic))

  /** The schema's acceptance rule; the topic is never checked. */
  predicate Accepted(f: FlashcardForm) {
    |f.question| >= MinQuestionLength && |f.answer| >= MinAnswerLength
  }

  /** Schema validation: one error per broken rule, in field order. */
  function Validate(f: FlashcardForm): (errors: seq<FieldError>)
    ensures errors == [] <==> Accepted(f)
    ensures QuestionTooShort in errors <==> |f.question| < MinQuestionLength
    ensures AnswerTooShort in errors <==> |f.answer| < MinAnswerLength
  {
    (if |f.question| < MinQuestionLength then [QuestionTooShort] else [])
    + (if |f.answer| < MinAnswerLength then [AnswerTooShort] else [])
  }

  /** The topic takes no part in validation. */
  lemma TopicNeverValidated(f: FlashcardForm, topic: Option<string>)
    ensures Validate(f.(topic := topic)) == Validate(f)
  {
  }

  /** The default form fails on both the question and the answer rule. */
  lemma DefaultFormRejectedOnBoth()
    ensures Validate(DefaultForm) == [QuestionTooShort, AnswerTooShort]
  {
  }

  /** The properties of the page the dialog creates. */
  datatype FlashcardRecord = FlashcardRecord(
    parent: string,
    question: seq<TextFragment>,
    answer: seq<TextFragment>,
    topic: SelectOption,
    createdAt: string)

  /** The record built from the form, the database id and the current ISO timestamp. */
  function BuildRecord(databaseId: string, f: FlashcardForm, isoNow: string): (r: FlashcardRecord)
    ensures r.parent == databaseId
    ensures FirstContent(r.question) == Some(f.question) && |r.question| == 1
    ensures FirstContent(r.answer) == Some(f.answer) && |r.answer| == 1
    ensures TruthyOpt(f.topic) ==> r.topic.name == f.topic.value
    ensures !TruthyOpt(f.topic) ==> r.topic.name == DefaultTopic
    ensures r.createdAt == DatePart(isoNow)
  {
    FlashcardRecord(databaseId, [TextFragment(f.question)], [TextFragment(f.answer)],
                    SelectOption(TopicOrDefault(f.topic)), DatePart(isoNow))
  }

  /**
   * Submitting the form: a rejected form never reaches `onSubmit`; an accepted
   * one goes through the shared flow with the record built above.
   */
  function Submit(databaseId: Option<string>, f: FlashcardForm, isoNow: string, outcome: CreateOutcome): (effects: seq<Effect<FlashcardRecord>>)
    ensures !Accepted(f) || !TruthyOpt(databaseId) ==> effects == []
    ensures Accepted(f) && TruthyOpt(databaseId) ==>
      |effects| > 0 && effects[0] == CreateCall(BuildRecord(databaseId.value, f, isoNow))
    ensures Accepted(f) && TruthyOpt(databaseId) && outcome.Created? ==>
      effects == [CreateCall(BuildRecord(databaseId.value, f, isoNow)), ResetForm, NotifyCreated, CloseDialog]
    ensures Accepted(f) && TruthyOpt(databaseId) && outcome.CreateFailed? ==>
      effects == [CreateCall(BuildRecord(databaseId.value, f, isoNow))]
  {
    if Validate(f) != [] then []
    else SubmitFlow(databaseId, id => BuildRecord(id, f, isoNow), outcome)
  }
}
