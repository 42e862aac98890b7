/**
 * Properties that cross components: what the creation dialog writes and the
 * detail page reads back, and how the detail page's decode fallback behaves
 * once the attempt engine scores it.
 */
module QuizLifecycle {
  import opened Common
  import opened NotionTypes
  import opened QuizAttempt
  import opened QuizDetail
  import CreateQuiz

  /**
   * A quiz whose questions text does not decode resolves to the one placeholder
   * question, whose expected answer is empty; a fresh attempt starts with an
   * empty answer, so finishing it without choosing anything reports 1 of 1,
   * whether by the finish button or by submit.
   */
  lemma {:induction false} PlaceholderScoresOneOfOne(p: Page, decode: string -> Option<seq<Question>>)
    requires IsQuizPage(p)
    requires decode(QuestionsText(p.properties.value)).None?
    ensures var qs := Resolve(p, decode).questions;
      && Valid(qs, Initial(qs))
      && OnLastQuestion(qs, Initial(qs))
      && Next(qs, Initial(qs)).finished == Some(Report(1, 1))
  {
    var qs := Resolve(p, decode).questions;
    assert qs == [LoadFailedQuestion];
    assert MatchIndices(qs, Initial(qs).answers) == {0} by {
      assert Matches(qs, Initial(qs).answers, 0);
    }
  }

  /**
   * A non-empty answer recorded on the placeholder would score 0 of 1. The
   * placeholder offers no options, so the application cannot record one; this
   * holds only because `Choose` accepts any string.
   */
  lemma {:induction false} PlaceholderAnsweredScoresZero(p: Page, decode: string -> Option<seq<Question>>, v: string)
    requires IsQuizPage(p)
    requires decode(QuestionsText(p.properties.value)).None?
    requires v != ""
    ensures var qs := Resolve(p, decode).questions;
      Submit(qs, Answer(Initial(qs), v)).finished == Some(Report(0, 1))
  {
    var qs := Resolve(p, decode).questions;
    assert qs == [LoadFailedQuestion];
    assert MatchIndices(qs, Answer(Initial(qs), v).answers) == {} by {
      assert !Matches(qs, Answer(Initial(qs), v).answers, 0);
    }
  }

  /** Three questions answered A, B, C against expected A, X, C: the finish button reports 2 of 3. */
  lemma {:induction false} ThreeQuestionScenario(a: string, b: string, c: string, x: string)
    requires x != b
    ensures var qs := [Question("1", [a, x], a), Question("2", [b, x], x), Question("3", [c], c)];
      var s0 := Initial(qs);
      var s1 := Next(qs, Answer(s0, a)).state;
      var s2 := Next(qs, Answer(s1, b)).state;
      Next(qs, Answer(s2, c)).finished == Some(Report(2, 3))
  {
    var qs := [Question("1", [a, x], a), Question("2", [b, x], x), Question("3", [c], c)];
    var s0 := Initial(qs);
    var s1 := Next(qs, Answer(s0, a)).state;
    var s2 := Next(qs, Answer(s1, b)).state;
    var s3 := Answer(s2, c);
    assert s3.answers == [a, b, c];
    assert MatchIndices(qs, s3.answers) == {0, 2} by {
      assert Matches(qs, s3.answers, 0) && !Matches(qs, s3.answers, 1) && Matches(qs, s3.answers, 2);
    }
  }

  /**
   * The page the quiz dialog creates, once the store returns it with a
   * questions property, shows the title, topic and count the form held.
   */
  lemma CreatedQuizReadsBack(databaseId: string, f: CreateQuiz.QuizForm, isoNow: string,
                             content: seq<TextFragment>, decode: string -> Option<seq<Question>>)
    requires CreateQuiz.Accepted(f)
    ensures var rec := CreateQuiz.BuildRecord(databaseId, f, isoNow);
      var p := Page("id", Some(QuizProperties(Some(rec.title), Some(Some(rec.topic)),
                                              Some(Some(rec.numberOfQuestions)), Some(content))));
      && IsQuizPage(p)
      && Resolve(p, decode).title == f.title
      && Resolve(p, decode).topic == TopicOrDefault(f.topic)
      && Resolve(p, decode).numberOfQuestions == f.numberOfQuestions
  {
  }
}
