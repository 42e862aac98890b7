# Quiz lifecycle of the AI study companion, in Dafny

This project models the one part of the study-assistant web application that
has state and rules of its own: the quiz lifecycle. It covers four things:

- **Quiz attempt engine** (`QuizAttempt`). A state machine over the current
  question index, one answer slot per question and a results flag. It handles
  choose, next and previous; next on the last question submits. Submitting
  scores by exact string equality. The results view is a pure projection of questions and answers.
- **Quiz detail resolver** (`QuizDetail`). It fetches one quiz page by id and
  checks the page's shape. It defaults the title, topic and question count.
  Then it decodes the question list; when decoding fails, the list becomes one
  placeholder question.
- **Creation dialogs** (`CreateQuiz`, `CreateFlashcard`, with the shared
  `CreateForms`). These hold the form acceptance rules and default values, the
  record sent to the store, and the `Created At` date cut from an ISO
  timestamp. They also fix the order of effects after a submission.
- **Cross-component properties** (`QuizLifecycle`). What the quiz dialog writes,
  the detail page reads back. If the resolved questions of a quiz that does not
  decode were handed to the attempt engine, finishing it unanswered would report
  **1 of 1**.

`Common` holds `Option` and JavaScript's `||` defaulting on strings.
`NotionTypes` holds the page and property shapes that are actually read.

Everything outside the application code is a parameter. The remote store's
`retrieve` is a function from page id to `Retrieved(page) | RetrieveFailed`.
Its `create` is a `Created | CreateFailed` outcome. `JSON.parse` is an
abstract `decode: string -> Option<seq<Question>>`. The current time is an ISO
timestamp string. A database id from the environment is an `Option<string>`
that counts as configured when present and non-empty, which is JavaScript
truthiness.

## Model

| member | source | states |
|---|---|---|
| `QuizAttempt.Initial` | src/components/QuizAttempt.tsx:24-26 | A fresh attempt is at index 0, shows no results, and has one empty answer per question. It is a valid state whenever the quiz has a question. |
| `QuizAttempt.Answer` | src/components/QuizAttempt.tsx:30-34 | Choosing an option writes it into the current slot only. Length, the other slots, the index and the results flag are unchanged. |
| `QuizAttempt.AnswerLastWriteWins` | src/components/QuizAttempt.tsx:30-34 | Two choices on the same question leave only the second. |
| `QuizAttempt.Next` | src/components/QuizAttempt.tsx:36-43 | Away from the last question, next moves one question forward, emits no report and leaves the answers alone. On the last question it is exactly submit. The index stays in range. |
| `QuizAttempt.Previous` | src/components/QuizAttempt.tsx:45-49 | With the button enabled (index not 0), previous moves one question back. At index 0 it changes nothing. |
| `QuizAttempt.PreviousNoOpExactlyAtStart` | src/components/QuizAttempt.tsx:143-147 | Previous leaves the state unchanged if and only if its button is disabled, that is at index 0. It never leaves the valid index range. |
| `QuizAttempt.PreviousUndoesNext` | src/components/QuizAttempt.tsx:36-49 | Away from the last question, previous after next restores the state, and next emitted no report. |
| `QuizAttempt.NextUndoesPrevious` | src/components/QuizAttempt.tsx:36-49 | Away from the first question, next after previous restores the state and emits no report. |
| `QuizAttempt.Score` | src/components/QuizAttempt.tsx:52-57 | The per-question count never exceeds the number of questions. It reaches it only when every question is answered correctly. |
| `QuizAttempt.ScoreCountsMatches` | src/components/QuizAttempt.tsx:52-57 | The loop's count equals the size of the set of indices whose answer equals `correctAnswer` exactly. |
| `QuizAttempt.Submit` | src/components/QuizAttempt.tsx:51-60 | Submit reports `(score, total)`. The score is the number of exactly matching answers and the total is the number of questions, so `0 <= score <= total`. It switches on the results view and changes nothing else. |
| `QuizAttempt.CalculateScore` | src/components/QuizAttempt.tsx:62-70 | The results view's own counting loop returns the number of exactly matching answers, the same number submit reports. |
| `QuizAttempt.EmptyAnswerMatchesIff` | src/components/QuizAttempt.tsx:25-54 | An untouched (empty) answer counts as correct if and only if the expected answer is the empty string. |
| `QuizAttempt.UntouchedScore` | src/components/QuizAttempt.tsx:25-57 | Submitting an untouched attempt scores the number of questions whose `correctAnswer` is empty. |
| `QuizAttempt.Apply` | src/components/QuizAttempt.tsx:28-72 | The screen's actions are choosing an option, previous and next/finish. Each keeps the state valid. Once the results are shown, no action changes anything or reports again, since only the results screen renders. While the attempt is open, a choice writes its value into the current question's slot and changes nothing else. Next off the last question moves to the following question, and previous moves back one unless it is on the first question, where it does nothing. Only a choice changes the answers, and only next or previous moves the index. A report is emitted exactly by next on the last question while the attempt is still open, and that step is exactly submit, so there is no skip-ahead scoring and no second report. |
| `QuizAttempt.Run` | src/components/QuizAttempt.tsx:28-72 | Any sequence of actions keeps the state valid. Once the results are shown, the state is final: no further actions change it. Without a choice the answers are unchanged. Choices and previous alone never finish the quiz. |
| `QuizAttempt.ResultsView` | src/components/QuizAttempt.tsx:84-101 | There is one row per question, numbered from 1. Each row shows that question's text and the user's answer, or "لم تجب" when the answer is empty. A row is marked correct if and only if its answer matches. The correct answer is shown exactly on the incorrect rows, and it is the question's `correctAnswer`. |
| `QuizAttempt.ShownAnswer` | src/components/QuizAttempt.tsx:90 | A row shows the user's answer when it is non-empty. Otherwise it shows the "not answered" label "لم تجب". |
| `QuizAttempt.ResultsAgreeWithSubmit` | src/components/QuizAttempt.tsx:72-101 | The score line equals the number of rows marked correct. Score and total equal what submit reported for the same answers. |
| `QuizDetail.FetchQuizById` | src/pages/QuizDetailPage.tsx:12-33 | With no configured quizzes database, the fetch yields null and makes no `retrieve` call. Otherwise it calls `retrieve` once with the id. It yields the page if and only if retrieval succeeded and the page has properties with both `Title` and `QuestionsContent`. A failed retrieval yields null. |
| `QuizDetail.RunQuery` | src/pages/QuizDetailPage.tsx:38-42 | With no or an empty `quizId` the query is disabled: no fetch, no data. Otherwise it is the fetch. |
| `QuizDetail.Render` | src/pages/QuizDetailPage.tsx:44-66 | Loading shows the loading view. An error or null data both show the single not-found view. Otherwise the page shows the resolved details. |
| `QuizDetail.SettledPage` | src/pages/QuizDetailPage.tsx:35-66 | The details are shown if and only if there is an id, the database is configured, retrieval succeeds and the shape check passes. The store is reached if and only if there is an id and the database is configured. |
| `QuizDetail.CountOrZero` | src/pages/QuizDetailPage.tsx:70 | The question count is the stored number when there is one, and 0 when the property or its number is missing. |
| `QuizDetail.QuestionsText` | src/pages/QuizDetailPage.tsx:71 | The text handed to the decoder is the first questions fragment when that is non-empty. A missing or empty questions text becomes the fixed "no questions available" string. It is never empty. |
| `QuizDetail.DecodeQuestions` | src/pages/QuizDetailPage.tsx:73-79 | A successful decode yields the decoded list unchanged. A failed decode yields exactly one placeholder question with no options and an empty `correctAnswer`. It never fails. |
| `QuizDetail.Resolve` | src/pages/QuizDetailPage.tsx:68-79 | Title and topic are never empty. Each is the first fragment or select name when that is non-empty, otherwise "untitled quiz" or the general topic. The count is defaulted to 0. The questions are the decode-or-placeholder of the questions text. |
| `QuizDetail.OnlyFirstFragmentRead` | src/pages/QuizDetailPage.tsx:68-71 | Adding fragments after the first to the title or the questions text changes nothing that is displayed. |
| `QuizDetail.MissingContentYieldsPlaceholder` | src/pages/QuizDetailPage.tsx:71-79 | A page with no questions text gets exactly the placeholder question, given a decoder that rejects the "no questions available" string, as `JSON.parse` does. |
| `Common.OrElse` | src/pages/QuizDetailPage.tsx:68-71 | JavaScript's logical-or fallback on a possibly absent string: the string when present and non-empty, the fallback otherwise. A non-empty fallback gives a non-empty result. |
| `NotionTypes.FirstContent` | src/pages/QuizDetailPage.tsx:68 | `fragments[0]?.text.content` is present exactly when there is a fragment, and is the first fragment's content. |
| `Common.TopicOrDefault` | src/components/CreateQuizDialog.tsx:86 | The stored topic is never empty. It is the form's topic when present and non-empty, otherwise "عام". |
| `CreateQuiz.Validate` | src/components/CreateQuizDialog.tsx:29-39 | A quiz form is accepted if and only if the title has at least 2 characters and `1 <= numberOfQuestions <= 50`. Each broken rule is reported, and only those. |
| `CreateQuiz.DefaultFormRejectedOnTitleOnly` | src/components/CreateQuizDialog.tsx:52-58 | The default form (empty title, topic "عام", 10 questions) fails on the title rule and nothing else. |
| `CreateQuiz.BuildRecord` | src/components/CreateQuizDialog.tsx:70-97 | The record's parent is the database id. Its title is one fragment holding the form title. The count is copied and the topic is defaulted. `Created At` is the timestamp's date part (`split('T')[0]`). |
| `CreateQuiz.Submit` | src/components/CreateQuizDialog.tsx:61-108 | A rejected form or a missing database id does nothing. Otherwise `create` is called first with the built record. On success it is followed by reset, `onQuizCreated` and `onClose`, in that order. On failure the single create call is the only effect. |
| `CreateQuiz.DefaultFormNeverCreates` | src/components/CreateQuizDialog.tsx:53-65 | Submitting the untouched dialog never calls the store, whatever the configuration. |
| `CreateForms.SubmitFlow` | src/components/CreateFlashcardDialog.tsx:60-113 | The flow shared by both dialogs. No configured database means no effect. Otherwise the create call comes first. Callbacks happen only after a successful create, as exactly reset, created, close. A failed create is the one and only effect: there is no retry. |
| `CreateForms.DatePart` | src/components/CreateQuizDialog.tsx:94 | `split('T')[0]` is a prefix of the timestamp with no `'T'`. It stops at the first `'T'`, or at the end when there is none. |
| `CreateForms.DatePartUnique` | src/components/CreateFlashcardDialog.tsx:99 | The three properties of `DatePart` determine it: any prefix with them is the date part. |
| `CreateForms.IsoTimestampDate` | src/components/CreateFlashcardDialog.tsx:97-101 | For `<date>T<time>` with a `'T'`-free date, the stored `Created At` is exactly the date. |
| `CreateFlashcard.Validate` | src/components/CreateFlashcardDialog.tsx:30-38 | A flashcard form is accepted if and only if the question and the answer each have at least 2 characters. Each broken rule is reported, and only those. |
| `CreateFlashcard.TopicNeverValidated` | src/components/CreateFlashcardDialog.tsx:37 | The optional topic never affects validation. |
| `CreateFlashcard.DefaultFormRejectedOnBoth` | src/components/CreateFlashcardDialog.tsx:51-57 | The default form fails on both the question rule and the answer rule. |
| `CreateFlashcard.BuildRecord` | src/components/CreateFlashcardDialog.tsx:73-102 | The record's parent is the database id. Question and answer are each one fragment holding the form's text. The topic is defaulted to "عام". `Created At` is the timestamp's date part (`split('T')[0]`). |
| `CreateFlashcard.Submit` | src/components/CreateFlashcardDialog.tsx:60-113 | A rejected form or a missing database id does nothing. Otherwise `create` comes first. On success it is followed by reset, `onFlashcardCreated` and `onClose`. On failure the single create call is the only effect. |
| `QuizLifecycle.PlaceholderScoresOneOfOne` | src/pages/QuizDetailPage.tsx:73-79 | When the questions do not decode, the resolved list has one question. An attempt on that list starts on its last question. Pressing finish without choosing anything reports 1 of 1, because the empty answer equals the placeholder's empty `correctAnswer`. |
| `QuizLifecycle.PlaceholderAnsweredScoresZero` | src/components/QuizAttempt.tsx:30-58 | A model-level fact that the application cannot reach: recording a non-empty answer on the placeholder question would score 0 of 1. The placeholder offers no options, so in the application only the untouched 1 of 1 happens. |
| `QuizLifecycle.ThreeQuestionScenario` | src/components/QuizAttempt.tsx:30-58 | Answering A, B, C against expected A, X, C, and pressing next after each, reports 2 of 3. |
| `QuizLifecycle.CreatedQuizReadsBack` | src/components/CreateQuizDialog.tsx:74-91 | For an accepted form, the page the dialog creates shows the form's title, defaulted topic and question count on the detail page. |

### Empty answers against an empty expected answer

`userAnswers[index] === q.correctAnswer` (src/components/QuizAttempt.tsx:54)
counts an empty slot as correct when `correctAnswer` is `""`. The placeholder
that replaces an undecodable question list has exactly that empty
`correctAnswer` (src/pages/QuizDetailPage.tsx:78). An attempt on it that is
finished unanswered therefore scores 1 of 1. See
`QuizAttempt.EmptyAnswerMatchesIff` and `QuizLifecycle.PlaceholderScoresOneOfOne`.

## Left out

- The remote store client, environment loading and network calls. `retrieve` and `create` are parameters with abstract outcomes. The catalog's list query is not part of this model.
- Toast notifications and console logging. They are side effects only; the `toast.loading`/`success`/`error` calls are not among the modelled effects.
- React Query caching, refetching and deduplication. Only the `enabled` guard and the three render branches are modelled.
- A disabled query (no `quizId`) is modelled as settled with no data, so it renders the not-found view. This is the case when the query library reports a disabled query as not loading. Library versions that report it as loading would show the loading view instead.
- `JSON.parse` internals. `decode` is abstract, so a value that parses but is not a list of questions is not modelled.
- zod's string-to-number coercion. A non-numeric or fractional count and `NaN` are out of scope: the count is an `int`. The `.default(10)` for a missing count is covered only through the default form.
- String length: the model counts Unicode scalar values, while JavaScript's `length` counts UTF-16 code units. The two differ only for characters outside the Basic Multilingual Plane.
- `Date` and the real clock. The ISO timestamp is an input.
- The submit button's `isSubmitting` disable and the dialogs' open/close props. These are UI state.
- QuizAttempt.Answer: requires the current slot to exist. In JavaScript a write past the end would extend the array, but no valid state has the index past the answers.
- `QuizAttempt` has no caller among the modelled files. The detail page lists the decoded questions statically and never renders it, and the quizzes route shows a static page. The `QuizLifecycle` lemmas on the placeholder compose the resolver and the engine the way a caller would; they do not describe a path the application takes today.
- The attempt handlers themselves do not check the results flag. Once the flag is set, the component renders only the results screen, which has no option, previous or next control. The model therefore makes every action a no-op once the results are shown. The results screen's back button belongs to the caller and is not modelled.
- The `Choose` event accepts any string, not only one of the current question's options. The radio group can only produce an option's value, so answers outside `options` are unreachable in the application. The model does not restrict them, so its lemmas also cover answers the application cannot produce.
- Chat, summaries, summary sharing, authentication, navigation, routing and the static pages. They have no quiz-lifecycle logic.
