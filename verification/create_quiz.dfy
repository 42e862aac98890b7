/**
 * The quiz creation dialog: the form's acceptance rules, its default values,
 * the record sent to the store and the submission's effects.
 */
module CreateQuiz {
  import opened Common
  import opened NotionTypes
  import opened CreateForms

  /** The form values: `topic` is optional; the count is taken as an integer. */
  datatype QuizForm = QuizForm(title: string, topic: Option<string>, numberOfQuestions: int)

  /** The rule a form value breaks. */
  datatype FieldError = TitleTooShort | TooFewQuestions | TooManyQuestions

  const MinTitleLength: nat := 2
  const MinQuestions: int := 1
  const MaxQuestions: int := 50

  /** The values the dialog opens with. */
  const DefaultForm: QuizForm := QuizForm("", Some(DefaultTopic), 10)

  /** The schema's acceptance rule. */
  predicate Accepted(f: QuizForm) {
    |f.title| >= MinTitleLength && MinQuestions <= f.numberOfQuestions <= MaxQuestions
  }

  /** Schema validation: one error per broken rule, in field order. */
  function Validate(f: QuizForm): (errors: seq<FieldError>)
    ensures errors == [] <==> Accepted(f)
    ensures TitleTooShort in errors <==> |f.title| < MinTitleLength
    ensures TooFewQuestions in errors <==> f.numberOfQuestions < MinQuestions
    ensures TooManyQuestions in errors <==> f.numberOfQuestions > MaxQuestions
    ensures |errors| <= 2
  {
    (if |f.title| < MinTitleLength then [TitleTooShort] else [])
    + (if f.numberOfQuestions < MinQuestions then [TooFewQuestions] else [])
    + (if f.numberOfQuestions > MaxQuestions then [TooManyQuestions] else [])
  }

  /** The default form fails on the title rule and on nothing else. */
  lemma DefaultFormRejectedOnTitleOnly()
    ensures Validate(DefaultForm) == [TitleTooShort]
  {
  }

  /** The properties of the page the dialog creates. */
  datatype QuizRecord = QuizRecord(
    parent: string,
    title: seq<TextFragment>,
    topic: SelectOption,
    numberOfQuestions: int,
    createdAt: string)

  /** The record built from the form, the database id and the current ISO timestamp. */
  function BuildRecord(databaseId: string, f: QuizForm, isoNow: string): (r: QuizRecord)
    ensures r.parent == databaseId
    ensures FirstContent(r.title) == Some(f.title) && |r.title| == 1
    ensures r.numberOfQuestions == f.numberOfQuestions
    ensures TruthyOpt(f.topic) ==> r.topic.name == f.topic.value
    ensures !TruthyOpt(f.topic) ==> r.topic.name == DefaultTopic
    ensures r.createdAt == DatePart(isoNow)
  {
    QuizRecord(databaseId, [TextFragment(f.title)], SelectOption(TopicOrDefault(f.topic)),
               f.numberOfQuestions, DatePart(isoNow))
  }

  /**
   * Submitting the form: a rejected form never reaches `onSubmit`; an accepted
   * one goes through the shared flow with the record built above.
   */
  function Submit(databaseId: Option<string>, f: QuizForm, isoNow: string, outcome: CreateOutcome): (effects: seq<Effect<QuizRecord>>)
    ensures !Accepted(f) || !TruthyOpt(databaseId) ==> effects == []
    ensures Accepted(f) && TruthyOpt(databaseId) ==>
      |effects| > 0 && effects[0] == CreateCall(BuildRecord(databaseId.value, f, isoNow))
    ensures Accepted(f) && TruthyOpt(databaseId) && outcome.Created? ==>
      effects == [CreateCall(BuildRecord(databaseId.value, f, isoNow)), ResetForm, NotifyCreated, CloseDialog]
    ensures Accepted(f) && TruthyOpt(databaseId) && outcome.CreateFailed? ==>
      effects == [CreateCall(BuildRecord(databaseId.value, f, isoNow))]
  {
    if Validate(f) != [] then []
    else SubmitFlow(databaseId, id => BuildRecord(id, f, isoNow), outcome)
  }

  /** Submitting the untouched dialog never reaches the store. */
  lemma DefaultFormNeverCreates(databaseId: Option<string>, isoNow: string, outcome: CreateOutcome)
    ensures Submit(databaseId, DefaultForm, isoNow, outcome) == []
  {
  }
}
