/** The client that starts one additional sysroot request and polls it to its end. */
module SysrootClient {
  import opened Basics

  datatype Call = Starting | AskingState | AskingError | Cancel | Release
  /** What a call of the endpoint gives; it also throws when the transport times out or the generation ends. */
  datatype Answer = Number(n: int) | Throws
  /** What a round of the loop finds: whether the generation has ended, and whether the deadline has passed. */
  datatype Round = Round(aborted: bool, late: bool)

  datatype Outcome =
    | Returned | TimedOut | RequestFailed(code: int) | ReleaseFailed
    | InvalidId | InvalidState | TransportFailed | Aborted
    | StillPolling

  predicate Never(calls: seq<Call>, call: Call) {
    forall k | 0 <= k < |calls| :: calls[k] != call
  }

  predicate AtMostOnce(calls: seq<Call>, call: Call) {
    forall j, k | 0 <= j < k < |calls| :: !(calls[j] == call && calls[k] == call)
  }

  /** The answer to call k says that the request has come to an end. */
  predicate SawTheEnd(calls: seq<Call>, answers: seq<Answer>, k: int) {
    0 <= k < |calls| && k < |answers| && calls[k].AskingState? && (answers[k] == Number(2) || answers[k] == Number(3))
  }

  /** A release is the last call, and comes right after the end was seen. */
  predicate ReleasedAtTheEnd(calls: seq<Call>, answers: seq<Answer>) {
    forall k | 0 <= k < |calls| && calls[k].Release? ::
      && k == |calls| - 1
      && (SawTheEnd(calls, answers, k - 1) || (k >= 2 && calls[k - 1].AskingError? && SawTheEnd(calls, answers, k - 2)))
  }

  predicate EndedBy(calls: seq<Call>, answers: seq<Answer>, call: Call, n: int) {
    0 < |calls| <= |answers| && calls[|calls| - 1] == call && answers[|calls| - 1] == Number(n)
  }

  /** How many states were asked for: one in each round that got as far. */
  function Asked(calls: seq<Call>): (n: nat)
    ensures n <= |calls|
  {
    if calls == [] then 0
    else Asked(calls[..|calls| - 1]) + if calls[|calls| - 1].AskingState? then 1 else 0
  }

  lemma AskedOneMore(calls: seq<Call>, call: Call)
    ensures Asked(calls + [call]) == Asked(calls) + if call.AskingState? then 1 else 0
  {
    assert (calls + [call])[..|calls|] == calls;
  }

  predicate SomeLate(rounds: seq<Round>, n: int) {
    exists i :: 0 <= i < |rounds| && i < n && rounds[i].late
  }

  /** What each outcome that is not about the request's end says about the calls that were made. */
  ghost predicate Explains(r: Outcome, calls: seq<Call>, answers: seq<Answer>, rounds: seq<Round>, abortedAtStart: bool)
    requires |calls| <= |answers|
  {
    match r
    case Aborted => abortedAtStart || (Asked(calls) < |rounds| && rounds[Asked(calls)].aborted)
    case StillPolling => |calls| == |answers| || Asked(calls) == |rounds|
    case TransportFailed => calls != [] && answers[|calls| - 1].Throws?
    case InvalidId => calls == [Starting] && answers[0].Number? && answers[0].n <= 0
    case InvalidState => exists n :: EndedBy(calls, answers, AskingState, n) && !(0 <= n <= 3)
    case ReleaseFailed => exists n :: EndedBy(calls, answers, Release, n) && n != 1
    case _ => true
  }

  /** Every call but the last was answered with a number. */
  ghost predicate AnsweredSoFar(calls: seq<Call>, answers: seq<Answer>)
    requires |calls| <= |answers|
  {
    forall k | 0 <= k < |calls| - 1 :: answers[k].Number?
  }

  /**
   * Polls until the request ends, cancels once when it is late, and releases it once.  The rounds and answers are those
   * that occur; when they run out the client is still polling.
   */
  method RunAcceptedTargetExtraction(abortedAtStart: bool, answers: seq<Answer>, rounds: seq<Round>)
    returns (r: Outcome, calls: seq<Call>)
    ensures |calls| <= |answers|
    ensures AtMostOnce(calls, Cancel) && AtMostOnce(calls, Release) && ReleasedAtTheEnd(calls, answers)
    ensures r.Returned? ==>
      && EndedBy(calls, answers, Release, 1) && EndedBy(calls[..|calls| - 1], answers, AskingState, 2)
      && Never(calls, Cancel)
    ensures r.TimedOut? || r.RequestFailed? ==> EndedBy(calls, answers, Release, 1)
    ensures r.RequestFailed? ==>
      && EndedBy(calls[..|calls| - 1], answers, AskingError, r.code)
      && EndedBy(calls[..|calls| - 2], answers, AskingState, 3)
    ensures r.TimedOut? || !Never(calls, Cancel) ==> SomeLate(rounds, Asked(calls))
    ensures Never(calls, Cancel) ==> !SomeLate(rounds, Asked(calls) - 1)
    ensures Explains(r, calls, answers, rounds, abortedAtStart) && AnsweredSoFar(calls, answers)
    ensures calls == [] <==> abortedAtStart || answers == []
    ensures calls != [] ==> calls[0].Starting?
  {
    hide AtMostOnce, Never, ReleasedAtTheEnd, Asked, SawTheEnd;
    calls := [];
    NothingYet(answers, rounds);
    if abortedAtStart { return Aborted, calls; }
    if answers == [] { return StillPolling, calls; }
    calls := Called(calls, Starting, answers);
    if answers[0].Throws? { return TransportFailed, calls; }
    if answers[0].n <= 0 { return InvalidId, calls; }
    var timedOut, cancelRequested := false, false;
    for i := 0 to |rounds|
      invariant 0 < |calls| <= |answers| && calls[0].Starting? && Never(calls, Release) && AtMostOnce(calls, Cancel)
      invariant Asked(calls) == i && AllAnswered(calls, answers)
      invariant (cancelRequested <==> !Never(calls, Cancel)) && (cancelRequested ==> timedOut)
      invariant timedOut <==> SomeLate(rounds, i)
      invariant cancelRequested || !SomeLate(rounds, i - 1)
    {
      NoReleaseYet(calls, answers);
      if rounds[i].aborted { return Aborted, calls; }
      if timedOut && !cancelRequested {
        if |calls| == |answers| { return StillPolling, calls; }
        calls := Called(calls, Cancel, answers);
        if answers[|calls| - 1].Throws? { return TransportFailed, calls; }
        cancelRequested := true;
      }
      if |calls| == |answers| { return StillPolling, calls; }
      calls := Called(calls, AskingState, answers);
      if answers[|calls| - 1].Throws? { return TransportFailed, calls; }
      var state := answers[|calls| - 1].n;
      assert EndedBy(calls, answers, AskingState, state);
      if state == 2 || state == 3 {
        r, calls := Conclude(answers, calls, state, timedOut);
        return;
      }
      if state != 0 && state != 1 { return InvalidState, calls; }
      if rounds[i].late { timedOut := true; }
    }
    NoReleaseYet(calls, answers);
    return StillPolling, calls;
  }

  /** One more call of the endpoint, other than a release. */
  method Called(made: seq<Call>, call: Call, answers: seq<Answer>) returns (calls: seq<Call>)
    requires |made| < |answers| && AllAnswered(made, answers) && Never(made, Release) && !call.Release?
    requires AtMostOnce(made, Cancel) && (call.Cancel? ==> Never(made, Cancel))
    ensures calls == made + [call] && AnsweredSoFar(calls, answers)
    ensures answers[|made|].Number? ==> AllAnswered(calls, answers)
    ensures Never(calls, Release) && ReleasedAtTheEnd(calls, answers)
    ensures AtMostOnce(calls, Cancel) && (Never(calls, Cancel) <==> Never(made, Cancel) && !call.Cancel?)
    ensures AtMostOnce(calls, Release)
    ensures Asked(calls) == Asked(made) + if call.AskingState? then 1 else 0
  {
    AskedOneMore(made, call);
    calls := made + [call];
    if Never(calls, Cancel) { assert forall k | 0 <= k < |made| :: calls[k] == made[k]; }
    assert call == calls[|made|];
  }

  ghost predicate AllAnswered(calls: seq<Call>, answers: seq<Answer>)
    requires |calls| <= |answers|
  {
    forall k | 0 <= k < |calls| :: answers[k].Number?
  }

  lemma NothingYet(answers: seq<Answer>, rounds: seq<Round>)
    ensures Never([], Release) && Never([], Cancel) && AtMostOnce([], Cancel) && AtMostOnce([], Release)
    ensures ReleasedAtTheEnd([], answers) && AllAnswered([], answers) && Asked([]) == 0
  {
  }

  lemma NoReleaseYet(calls: seq<Call>, answers: seq<Answer>)
    requires Never(calls, Release)
    ensures AtMostOnce(calls, Release) && ReleasedAtTheEnd(calls, answers)
  {
  }

  /** Reads the error of a failed request, and releases it. */
  method Conclude(answers: seq<Answer>, polled: seq<Call>, state: int, timedOut: bool)
    returns (r: Outcome, calls: seq<Call>)
    requires EndedBy(polled, answers, AskingState, state) && (state == 2 || state == 3) && AllAnswered(polled, answers)
    requires Never(polled, Release) && AtMostOnce(polled, Cancel) && (!timedOut ==> Never(polled, Cancel))
    ensures |calls| <= |answers| && polled <= calls && AtMostOnce(calls, Cancel) && AtMostOnce(calls, Release)
    ensures ReleasedAtTheEnd(calls, answers) && AnsweredSoFar(calls, answers)
    ensures r.Returned? ==>
      EndedBy(calls, answers, Release, 1) && EndedBy(calls[..|calls| - 1], answers, AskingState, 2)
    ensures r.Returned? ==> !timedOut
    ensures r.TimedOut? || r.RequestFailed? ==> EndedBy(calls, answers, Release, 1)
    ensures r.RequestFailed? ==>
      && EndedBy(calls[..|calls| - 1], answers, AskingError, r.code)
      && EndedBy(calls[..|calls| - 2], answers, AskingState, 3)
    ensures r.TimedOut? ==> timedOut
    ensures Asked(calls) == Asked(polled) && (Never(calls, Cancel) <==> Never(polled, Cancel))
    ensures r.TransportFailed? ==> calls != [] && answers[|calls| - 1].Throws?
    ensures r.StillPolling? ==> |calls| == |answers|
    ensures r.ReleaseFailed? ==> exists n :: EndedBy(calls, answers, Release, n) && n != 1
    ensures !r.Aborted? && !r.InvalidId? && !r.InvalidState?
  {
    hide ReleasedAtTheEnd, AtMostOnce, Never, SawTheEnd, Asked;
    calls := polled;
    var failure: Option<int> := None;
    EndIsSeen(polled, answers);
    NoReleaseYet(polled, answers);
    if state == 3 && !timedOut {
      if |calls| == |answers| { return StillPolling, calls; }
      calls := Called(calls, AskingError, answers);
      AskedError(polled, answers);
      if answers[|calls| - 1].Throws? { return TransportFailed, calls; }
      failure := Some(answers[|calls| - 1].n);
      assert calls[..|calls| - 1] == polled;
    }
    if |calls| == |answers| { return StillPolling, calls; }
    ghost var before := calls;
    calls := calls + [Release];
    AskedOneMore(before, Release);
    AskedRelease(before, answers);
    assert calls[..|calls| - 1] == before && (failure.Some? ==> calls[..|calls| - 2] == polled);
    if answers[|calls| - 1].Throws? { return TransportFailed, calls; }
    assert EndedBy(calls, answers, Release, answers[|calls| - 1].n);
    if answers[|calls| - 1].n != 1 { return ReleaseFailed, calls; }
    if timedOut { return TimedOut, calls; }
    if failure.Some? { return RequestFailed(failure.value), calls; }
    return Returned, calls;
  }

  /** Nothing was released yet, and the end was seen by the last call or the one before an error was read. */
  ghost predicate ReadyToRelease(calls: seq<Call>, answers: seq<Answer>) {
    && Never(calls, Release) && AtMostOnce(calls, Cancel)
    && (SawTheEnd(calls, answers, |calls| - 1)
        || (|calls| >= 2 && calls[|calls| - 1].AskingError? && SawTheEnd(calls, answers, |calls| - 2)))
  }

  lemma EndIsSeen(calls: seq<Call>, answers: seq<Answer>)
    requires Never(calls, Release) && AtMostOnce(calls, Cancel)
    requires EndedBy(calls, answers, AskingState, 2) || EndedBy(calls, answers, AskingState, 3)
    ensures ReadyToRelease(calls, answers) && ReleasedAtTheEnd(calls, answers)
  {
  }

  lemma AskedError(calls: seq<Call>, answers: seq<Answer>)
    requires Never(calls, Release) && AtMostOnce(calls, Cancel) && SawTheEnd(calls, answers, |calls| - 1)
    ensures var more := calls + [AskingError];
      && ReadyToRelease(more, answers) && ReleasedAtTheEnd(more, answers) && AtMostOnce(more, Cancel)
      && (Never(calls, Cancel) ==> Never(more, Cancel))
  {
    assert SawTheEnd(calls + [AskingError], answers, |calls| - 1);
  }

  lemma AskedRelease(calls: seq<Call>, answers: seq<Answer>)
    requires ReadyToRelease(calls, answers)
    ensures var more := calls + [Release];
      && ReleasedAtTheEnd(more, answers) && AtMostOnce(more, Cancel) && AtMostOnce(more, Release)
      && (Never(calls, Cancel) <==> Never(more, Cancel))
  {
    var more := calls + [Release];
    forall k | 0 <= k < |calls| && SawTheEnd(calls, answers, k) ensures SawTheEnd(more, answers, k) {}
    assert forall k | 0 <= k < |calls| :: more[k] == calls[k] && calls[k] != Release;
  }
}
