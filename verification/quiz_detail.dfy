/**
 * The quiz detail resolver: fetch one quiz page by id from the remote content
 * store, check its shape, default each displayed field, and decode the
 * embedded question list, falling back to a single placeholder question when
 * decoding fails. The store and the JSON decoder are parameters.
 */
module QuizDetail {
  import opened Common
  import opened NotionTypes
  import opened QuizAttempt

  /** The outcome of retrieving a page by id: the page, or a thrown error. */
  datatype RetrieveOutcome = Retrieved(page: Page) | RetrieveFailed

  /** What `fetchQuizById` resolves to, together with the ids it passed to `retrieve`. */
  datatype Fetch = Fetch(quiz: Option<Page>, retrieveCalls: seq<string>)

  /** The shape check: the page has properties, among them `Title` and `QuestionsContent`. */
  predicate IsQuizPage(p: Page) {
    && p.properties.Some?
    && p.properties.value.title.Some?
    && p.properties.value.questionsContent.Some?
  }

  /**
   * `fetchQuizById`: without a configured quizzes database it returns null and
   * never calls the store; otherwise it retrieves the page once and keeps it only
   * if it passes the shape check. A failed retrieval is caught and yields null.
   */
  function FetchQuizById(databaseId: Option<string>, quizId: string, retrieve: string -> RetrieveOutcome): (r: Fetch)
    ensures !TruthyOpt(databaseId) ==> r.retrieveCalls == []
    ensures TruthyOpt(databaseId) ==> r.retrieveCalls == [quizId]
    ensures r.quiz.Some? <==>
      TruthyOpt(databaseId) && retrieve(quizId).Retrieved? && IsQuizPage(retrieve(quizId).page)
    ensures r.quiz.Some? ==> r.quiz.value == retrieve(quizId).page && IsQuizPage(r.quiz.value)
  {
    if !TruthyOpt(databaseId) then Fetch(None, [])
    else
      match retrieve(quizId)
      case RetrieveFailed => Fetch(None, [quizId])
      case Retrieved(p) => if IsQuizPage(p) then Fetch(Some(p), [quizId]) else Fetch(None, [quizId])
  }

  /**
   * The page's query: enabled only when the route supplies a non-empty `quizId`;
   * a disabled query fetches nothing and holds no data.
   */
  function RunQuery(quizId: Option<string>, databaseId: Option<string>, retrieve: string -> RetrieveOutcome): (r: Fetch)
    ensures !TruthyOpt(quizId) ==> r == Fetch(None, [])
    ensures TruthyOpt(quizId) ==> r == FetchQuizById(databaseId, quizId.value, retrieve)
  {
    if TruthyOpt(quizId) then FetchQuizById(databaseId, quizId.value, retrieve) else Fetch(None, [])
  }

  // ---------------------------------------------------------------------
  // Field defaults and the decode fallback

  /** Shown when the title is missing or empty ("untitled quiz"). */
  const UntitledQuiz: string := "اختبار بدون عنوان"

  /** Decoded when the questions text is missing or empty ("no questions available."). */
  const NoQuestionsText: string := "لا توجد أسئلة متاحة."

  /** The single question shown when the questions text does not decode ("failed to load the questions."). */
  const LoadFailedQuestion: Question := Question("فشل تحميل الأسئلة.", [], "")

  /** The resolved, displayable quiz. */
  datatype ResolvedQuiz = ResolvedQuiz(title: string, topic: string, numberOfQuestions: int, questions: seq<Question>)

  /** The first fragment of an optional text property, `prop?.…[0]?.text.content`. */
  function FirstText(prop: Option<seq<TextFragment>>): Option<string> {
    if prop.Some? then FirstContent(prop.value) else None
  }

  /** `Topic?.select?.name`. */
  function TopicName(prop: Option<Option<SelectOption>>): Option<string> {
    if prop.Some? && prop.value.Some? then Some(prop.value.value.name) else None
  }

  /** `["Number of Questions"]?.number || 0`. */
  function CountOrZero(prop: Option<Option<int>>): (n: int)
    ensures prop.Some? && prop.value.Some? ==> n == prop.value.value
    ensures !(prop.Some? && prop.value.Some?) ==> n == 0
  {
    if prop.Some? && prop.value.Some? && prop.value.value != 0 then prop.value.value else 0
  }

  /** The text handed to the decoder: the first content fragment, or `NoQuestionsText`. */
  function QuestionsText(props: QuizProperties): (t: string)
    ensures t != ""
    ensures TruthyOpt(FirstText(props.questionsContent)) ==> t == FirstText(props.questionsContent).value
    ensures !TruthyOpt(FirstText(props.questionsContent)) ==> t == NoQuestionsText
  {
    OrElse(FirstText(props.questionsContent), NoQuestionsText)
  }

  /** Decoding never fails: a text that does not decode yields exactly the placeholder question. */
  function DecodeQuestions(text: string, decode: string -> Option<seq<Question>>): (qs: seq<Question>)
    ensures decode(text).Some? ==> qs == decode(text).value
    ensures decode(text).None? ==> qs == [LoadFailedQuestion]
    ensures decode(text).None? ==> |qs| == 1 && qs[0].options == [] && qs[0].correctAnswer == ""
  {
    match decode(text)
    case Some(decoded) => decoded
    case None => [LoadFailedQuestion]
  }

  /** Field defaulting and question decoding for a page that passed the shape check. */
  function Resolve(p: Page, decode: string -> Option<seq<Question>>): (d: ResolvedQuiz)
    requires IsQuizPage(p)
    ensures d.title != "" && d.topic != ""
    ensures TruthyOpt(FirstText(p.properties.value.title)) ==> d.title == FirstText(p.properties.value.title).value
    ensures !TruthyOpt(FirstText(p.properties.value.title)) ==> d.title == UntitledQuiz
    ensures TruthyOpt(TopicName(p.properties.value.topic)) ==> d.topic == TopicName(p.properties.value.topic).value
    ensures !TruthyOpt(TopicName(p.properties.value.topic)) ==> d.topic == DefaultTopic
    ensures d.numberOfQuestions == CountOrZero(p.properties.value.numberOfQuestions)
    ensures d.questions == DecodeQuestions(QuestionsText(p.properties.value), decode)
  {
    var props := p.properties.value;
    ResolvedQuiz(
      OrElse(FirstText(props.title), UntitledQuiz),
      OrElse(TopicName(props.topic), DefaultTopic),
      CountOrZero(props.numberOfQuestions),
      DecodeQuestions(QuestionsText(props), decode))
  }

  // ---------------------------------------------------------------------
  // The page

  /** The states of the query as the page sees them. */
  datatype QueryStatus = Loading | Errored | Settled(data: Option<Page>)

  /** What the page renders. */
  datatype View = LoadingView | NotFoundView | DetailView(detail: ResolvedQuiz)

  /** Query data always comes from `FetchQuizById`, so any page in it passed the shape check. */
  predicate WellFormedStatus(status: QueryStatus) {
    status.Settled? && status.data.Some? ==> IsQuizPage(status.data.value)
  }

  /** The render: loading first, then error or no data as one not-found view, else the details. */
  function Render(status: QueryStatus, decode: string -> Option<seq<Question>>): (v: View)
    requires WellFormedStatus(status)
    ensures v.LoadingView? <==> status.Loading?
    ensures v.NotFoundView? <==> status.Errored? || status == Settled(None)
    ensures v.DetailView? ==> v.detail == Resolve(status.data.value, decode)
  {
    match status
    case Loading => LoadingView
    case Errored => NotFoundView
    case Settled(data) => if data.Some? then DetailView(Resolve(data.value, decode)) else NotFoundView
  }

  /**
   * The settled page for a route: the details exactly when the route names an
   * id, the database is configured, retrieval succeeds and the page passes the
   * shape check; every other path is the not-found view, and only an enabled
   * query with a configured database reaches the store.
   */
  lemma SettledPage(quizId: Option<string>, databaseId: Option<string>,
                    retrieve: string -> RetrieveOutcome, decode: string -> Option<seq<Question>>)
    ensures var f := RunQuery(quizId, databaseId, retrieve);
      && WellFormedStatus(Settled(f.quiz))
      && (Render(Settled(f.quiz), decode).DetailView? <==>
          TruthyOpt(quizId) && TruthyOpt(databaseId)
          && retrieve(quizId.value).Retrieved? && IsQuizPage(retrieve(quizId.value).page))
      && (f.retrieveCalls != [] <==> TruthyOpt(quizId) && TruthyOpt(databaseId))
  {
  }

  // ---------------------------------------------------------------------
  // Properties of the field defaults

  /** Only the first fragment of the title and of the questions text is read. */
  lemma OnlyFirstFragmentRead(p: Page, moreTitle: seq<TextFragment>, moreContent: seq<TextFragment>,
                              decode: string -> Option<seq<Question>>)
    requires IsQuizPage(p)
    requires |p.properties.value.title.value| > 0 && |p.properties.value.questionsContent.value| > 0
    ensures var props := p.properties.value;
      var p' := p.(properties := Some(props.(title := Some(props.title.value + moreTitle),
                                               questionsContent := Some(props.questionsContent.value + moreContent))));
      IsQuizPage(p') && Resolve(p', decode) == Resolve(p, decode)
  {
  }

  /**
   * A page with no questions text decodes `NoQuestionsText`; since that text is
   * not valid JSON, a decoder that rejects it turns the page into exactly the
   * placeholder question.
   */
  lemma MissingContentYieldsPlaceholder(p: Page, decode: string -> Option<seq<Question>>)
    requires IsQuizPage(p)
    requires !TruthyOpt(FirstText(p.properties.value.questionsContent))
    requires decode(NoQuestionsText).None?
    ensures Resolve(p, decode).questions == [LoadFailedQuestion]
  {
  }
}
