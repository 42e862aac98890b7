/**
 * What the two creation dialogs share: the submit flow around the store's
 * `create` call and the `Created At` date taken from an ISO timestamp.
 */
module CreateForms {
  import opened Common

  /** The outcome of the store's `create` call: resolved, or threw. */
  datatype CreateOutcome = Created | CreateFailed

  /** The observable effects of one submission, in the order they happen. */
  datatype Effect<R> = CreateCall(record: R) | ResetForm | NotifyCreated | CloseDialog

  /**
   * `onSubmit` once the form passed validation: without a configured database
   * nothing happens; otherwise the record is sent to the store, and only if
   * that succeeds are the form reset, the creation callback and the close
   * callback run, in that order.
   */
  function SubmitFlow<R>(databaseId: Option<string>, build: string -> R, outcome: CreateOutcome): (effects: seq<Effect<R>>)
    ensures !TruthyOpt(databaseId) ==> effects == []
    ensures TruthyOpt(databaseId) ==> |effects| > 0 && effects[0] == CreateCall(build(databaseId.value))
    ensures TruthyOpt(databaseId) && outcome.CreateFailed? ==> effects == [CreateCall(build(databaseId.value))]
    ensures TruthyOpt(databaseId) && outcome.Created? ==> effects[1..] == [ResetForm, NotifyCreated, CloseDialog]
    ensures forall i :: 0 <= i < |effects| && !effects[i].CreateCall? ==> outcome.Created? && i > 0
  {
    if !TruthyOpt(databaseId) then []
    else
      var call := CreateCall(build(databaseId.value));
      match outcome
      case Created => [call, ResetForm, NotifyCreated, CloseDialog]
      case CreateFailed => [call]
  }

  /** `isoTimestamp.split('T')[0]`: the text before the first `'T'`, or all of it when there is none. */
  function DatePart(iso: string): (d: string)
    ensures 'T' !in d
    ensures d <= iso
    ensures |d| < |iso| ==> iso[|d|] == 'T'
    decreases |iso|
  {
    if |iso| == 0 || iso[0] == 'T' then "" else [iso[0]] + DatePart(iso[1..])
  }

  /** The three properties above determine `DatePart`: it is the only such prefix. */
  lemma DatePartUnique(iso: string, d: string)
    requires 'T' !in d && d <= iso
    requires |d| < |iso| ==> iso[|d|] == 'T'
    ensures d == DatePart(iso)
  {
  }

  /** An ISO timestamp `<date>T<time>` yields exactly its date. */
  lemma IsoTimestampDate(date: string, time: string)
    requires 'T' !in date
    ensures DatePart(date + "T" + time) == date
  {
    var iso := date + "T" + time;
    assert iso[|date|] == 'T';
    assert date <= iso;
    DatePartUnique(iso, date);
  }
}
