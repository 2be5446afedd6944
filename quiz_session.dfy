/** A student taking a timed quiz: the countdown and its display, the answers
    chosen, the proctoring counter and the submission, in the page's two versions. */
module QuizSession {
  import opened Wrappers
  import opened Text

  // ---------------------------------------------------------------------------
  // The clock

  /** The seconds a quiz allows. */
  function InitialTime(durationMinutes: int): int {
    durationMinutes * 60
  }

  /** `formatTime`: whole minutes, a colon, and the seconds padded to two digits. */
  function FormatTime(seconds: nat): string {
    NatToString(seconds / 60) + ":" + Pad2(seconds % 60)
  }

  /** Reads the pieces of a "m:ss" clock, split at the colon, back as seconds. */
  function ReadPieces(p: seq<string>): Option<nat> {
    if |p| == 2 && p[0] != "" && AllDigits(p[0]) && |p[1]| == 2 && AllDigits(p[1]) && DigitsValue(p[1]) < 60
    then Some(DigitsValue(p[0]) * 60 + DigitsValue(p[1]))
    else None
  }

  /** Reads a "m:ss" clock back as seconds. */
  function ReadClock(s: string): Option<nat> {
    ReadPieces(Split(s, ':'))
  }

  lemma ClockPieces(ms: string, ss: string)
    requires AllDigits(ms) && AllDigits(ss)
    ensures Split(ms + ":" + ss, ':') == [ms, ss]
  {
    assert ':' !in ms by { assert !IsDigit(':'); }
    assert ':' !in ss by { assert !IsDigit(':'); }
    assert ms + ":" + ss == ms + [':'] + ss;
    SplitAfterPiece(ms, ':', ss);
    SplitNoSep(ss, ':');
  }

  lemma ReadClockPieces(ms: string, ss: string)
    requires ms != "" && AllDigits(ms) && AllDigits(ss)
    requires |ss| == 2 && DigitsValue(ss) < 60
    ensures ReadPieces([ms, ss]) == Some(DigitsValue(ms) * 60 + DigitsValue(ss))
  {
    var p := [ms, ss];
    assert p[0] == ms && p[1] == ss;
  }

  /** Every clock shown reads back as the seconds it shows: no two times look alike. */
  lemma FormatTimeRoundTrip(seconds: nat)
    ensures ReadClock(FormatTime(seconds)) == Some(seconds)
  {
    var m, sec := seconds / 60, seconds % 60;
    var ms, ss := NatToString(m), Pad2(sec);
    ClockPieces(ms, ss);
    NatToStringRoundTrip(m);
    Pad2Value(sec);
    ReadClockPieces(ms, ss);
  }

  datatype TickResult = TickResult(timeLeft: int, autoSubmit: bool)

  /** One second of the interval: at one second or less the clock stops at zero
      and the quiz is submitted automatically. */
  function Tick(prev: int): (r: TickResult)
    ensures r.autoSubmit <==> prev <= 1
    ensures r.autoSubmit ==> r.timeLeft == 0
    ensures !r.autoSubmit ==> r.timeLeft == prev - 1 && r.timeLeft >= 1
  {
    if prev <= 1 then TickResult(0, true) else TickResult(prev - 1, false)
  }

  /** How many ticks a running clock showing `left` takes to submit. */
  function TicksToSubmit(left: int): nat
    decreases if left <= 1 then 0 else left
  {
    if Tick(left).autoSubmit then 1 else 1 + TicksToSubmit(Tick(left).timeLeft)
  }

  /** A clock started at n seconds submits on its n-th tick, and on the first when n
      is not positive. */
  lemma {:induction false} TicksToSubmitIs(left: int)
    ensures TicksToSubmit(left) == if left <= 1 then 1 else left
    decreases if left <= 1 then 0 else left
  {
    if left > 1 {
      TicksToSubmitIs(left - 1);
    }
  }

  // ---------------------------------------------------------------------------
  // The answers

  /** One chosen option. */
  datatype Answer = Answer(questionId: nat, optionId: int)

  /** The answers object. Its keys are integers, so JavaScript enumerates them in
      increasing order: the list is kept sorted by question id, one entry per key. */
  predicate Ordered(a: seq<Answer>) {
    forall i, j :: 0 <= i < j < |a| ==> a[i].questionId < a[j].questionId
  }

  function Lookup(a: seq<Answer>, q: nat): (r: Option<int>)
    ensures r.Some? <==> exists i :: 0 <= i < |a| && a[i].questionId == q
    decreases |a|
  {
    if a == [] then None
    else if a[0].questionId == q then Some(a[0].optionId)
    else
      var r := Lookup(a[1..], q);
      assert r.Some? ==> exists i :: 0 <= i < |a| && a[i].questionId == q by {
        if r.Some? {
          var i :| 0 <= i < |a[1..]| && a[1..][i].questionId == q;
          assert a[i + 1].questionId == q;
        }
      }
      r
  }

  /** `{ ...prev, [questionId]: optionId }`. */
  function Select(a: seq<Answer>, q: nat, o: int): (r: seq<Answer>)
    decreases |a|
  {
    if a == [] then [Answer(q, o)]
    else if q < a[0].questionId then [Answer(q, o)] + a
    else if q == a[0].questionId then [Answer(q, o)] + a[1..]
    else [a[0]] + Select(a[1..], q, o)
  }

  lemma {:induction false} SelectHead(a: seq<Answer>, q: nat, o: int)
    requires Ordered(a)
    ensures Select(a, q, o) != []
    ensures Select(a, q, o)[0].questionId == (if a == [] || q < a[0].questionId then q else a[0].questionId)
    ensures forall i :: 0 <= i < |Select(a, q, o)| ==>
              Select(a, q, o)[i].questionId == q || exists j :: 0 <= j < |a| && a[j].questionId == Select(a, q, o)[i].questionId
    decreases |a|
  {
    if a != [] && q > a[0].questionId {
      SelectHead(a[1..], q, o);
      var r := Select(a, q, o);
      forall i | 0 <= i < |r|
        ensures r[i].questionId == q || exists j :: 0 <= j < |a| && a[j].questionId == r[i].questionId
      {
        if i > 0 {
          assert r[i] == Select(a[1..], q, o)[i - 1];
          if r[i].questionId != q {
            var j :| 0 <= j < |a[1..]| && a[1..][j].questionId == r[i].questionId;
            assert a[j + 1].questionId == r[i].questionId;
          }
        }
      }
    } else if a != [] {
      var r := Select(a, q, o);
      forall i | 0 <= i < |r|
        ensures r[i].questionId == q || exists j :: 0 <= j < |a| && a[j].questionId == r[i].questionId
      {
        if q < a[0].questionId && i > 0 {
          assert r[i] == a[i - 1];
        } else if q == a[0].questionId && i > 0 {
          assert r[i] == a[i];
        }
      }
    }
  }

  /** Choosing an option keeps the answers ordered. */
  lemma {:induction false} SelectOrdered(a: seq<Answer>, q: nat, o: int)
    requires Ordered(a)
    ensures Ordered(Select(a, q, o))
    decreases |a|
  {
    if a != [] && q > a[0].questionId {
      SelectOrdered(a[1..], q, o);
      SelectHead(a[1..], q, o);
      var t := Select(a[1..], q, o);
      forall i | 0 <= i < |t|
        ensures a[0].questionId < t[i].questionId
      {
        if t[i].questionId != q {
          var j :| 0 <= j < |a[1..]| && a[1..][j].questionId == t[i].questionId;
          assert a[j + 1].questionId == t[i].questionId;
        }
      }
    }
  }

  /** After choosing option o for question q, q's answer is o and every other
      question's answer is as before. */
  lemma {:induction false} SelectLookup(a: seq<Answer>, q: nat, o: int, p: nat)
    ensures Lookup(Select(a, q, o), p) == if p == q then Some(o) else Lookup(a, p)
    decreases |a|
  {
    if a != [] && q > a[0].questionId {
      SelectLookup(a[1..], q, o, p);
      assert Select(a, q, o)[1..] == Select(a[1..], q, o);
    } else if a != [] && q < a[0].questionId {
      assert Select(a, q, o)[1..] == a;
    } else if a != [] {
      assert Select(a, q, o)[1..] == a[1..];
      if p != q {
        assert Lookup(a, p) == Lookup(a[1..], p);
      }
    }
  }

  /** The number of answered questions grows by one for a first answer, and stays
      the same when an answer is changed. */
  lemma {:induction false} SelectCount(a: seq<Answer>, q: nat, o: int)
    requires Ordered(a)
    ensures |Select(a, q, o)| == |a| + (if Lookup(a, q).None? then 1 else 0)
    decreases |a|
  {
    if a != [] && q > a[0].questionId {
      SelectCount(a[1..], q, o);
    } else if a != [] && q < a[0].questionId {
      assert forall i :: 0 <= i < |a| ==> a[i].questionId != q by {
        forall i | 0 < i < |a| ensures a[0].questionId < a[i].questionId { }
      }
    }
  }

  // ---------------------------------------------------------------------------
  // Submissions

  /** What is posted to the submit endpoint: in the current page the answers with
      how the quiz ended and the number of tab switches; in the older page the
      answers alone. */
  datatype Body =
    | Proctored(answers: seq<Answer>, autoTimeout: bool, tabSwitchCount: nat)
    | AnswersOnly(answers: seq<Answer>)

  /** A failed request: its status and the `detail` it carried ("" for none). */
  datatype Failure = Failure(status: int, detail: string)

  const SubmitFailed := "Failed to submit quiz. Please try again."
  const AnswerFirst := "Please answer at least one question before submitting."
  const TabWarning := "\U{26A0}\U{FE0F} WARNING: Tab switching is monitored! Focusing away from the quiz may lead to disqualification."

  function FailureText(f: Failure): string {
    if f.detail != "" then f.detail else SubmitFailed
  }

  class QuizSession {
    var loading: bool
    var hasQuiz: bool
    var timeLeft: int
    var timerRunning: bool
    var answers: seq<Answer>
    /** The answers the older page's timer callback sees: those of the render in
        which the timer was started. */
    var armedAnswers: seq<Answer>
    var submitting: bool
    var showConfirm: bool
    var message: Option<string>
    var tabSwitches: nat
    var leftPage: bool

    constructor ()
      ensures loading && !hasQuiz && timeLeft == 0 && !timerRunning && answers == [] && armedAnswers == []
      ensures !submitting && !showConfirm && message.None? && tabSwitches == 0 && !leftPage
    {
      loading := true;
      hasQuiz := false;
      timeLeft := 0;
      timerRunning := false;
      answers := [];
      armedAnswers := [];
      submitting := false;
      showConfirm := false;
      message := None;
      tabSwitches := 0;
      leftPage := false;
    }

    predicate Valid()
      reads this
    {
      Ordered(answers) && Ordered(armedAnswers)
    }

    /** The quiz arrived: the clock is set from its duration, loading ends, and the
        timer effect starts the interval unless the clock shows zero, capturing the
        answers of that render. */
    method Loaded(durationMinutes: int)
      requires Valid()
      modifies this
      ensures Valid()
      ensures hasQuiz && !loading && timeLeft == InitialTime(durationMinutes)
      ensures timerRunning <==> durationMinutes != 0
      ensures armedAnswers == answers == old(answers)
      ensures submitting == old(submitting) && tabSwitches == old(tabSwitches) && leftPage == old(leftPage)
      ensures showConfirm == old(showConfirm) && message == old(message)
    {
      hasQuiz := true;
      timeLeft := InitialTime(durationMinutes);
      loading := false;
      timerRunning := timeLeft != 0;
      armedAnswers := answers;
    }

    /** `handleOptionSelect`. */
    method SelectOption(questionId: nat, optionId: int)
      requires Valid()
      modifies this
      ensures Valid()
      ensures answers == Select(old(answers), questionId, optionId)
      ensures Lookup(answers, questionId) == Some(optionId)
      ensures forall p :: p != questionId ==> Lookup(answers, p) == Lookup(old(answers), p)
      ensures armedAnswers == old(armedAnswers) && timeLeft == old(timeLeft) && timerRunning == old(timerRunning)
      ensures submitting == old(submitting) && tabSwitches == old(tabSwitches) && leftPage == old(leftPage)
      ensures loading == old(loading) && hasQuiz == old(hasQuiz) && showConfirm == old(showConfirm)
      ensures message == old(message)
    {
      SelectOrdered(answers, questionId, optionId);
      forall p | true
        ensures Lookup(Select(answers, questionId, optionId), p) ==
                  if p == questionId then Some(optionId) else Lookup(answers, p)
      {
        SelectLookup(answers, questionId, optionId, p);
      }
      answers := Select(answers, questionId, optionId);
    }

    /** `handleSubmitClick` of the current page: with nothing answered a warning is
        shown instead of the confirmation. */
    method SubmitClick()
      modifies this
      ensures answers == [] ==> !showConfirm && message == Some(AnswerFirst)
      ensures answers != [] ==> showConfirm && message == old(message)
      ensures answers == old(answers) && armedAnswers == old(armedAnswers) && submitting == old(submitting)
      ensures timeLeft == old(timeLeft) && timerRunning == old(timerRunning) && tabSwitches == old(tabSwitches)
      ensures leftPage == old(leftPage) && Valid() == old(Valid())
      ensures loading == old(loading) && hasQuiz == old(hasQuiz)
    {
      if |answers| == 0 {
        message := Some(AnswerFirst);
        showConfirm := false;
        return;
      }
      showConfirm := true;
    }

    /** `handleSubmitClick` of the older page: always asks for confirmation. */
    method SubmitClickUnchecked()
      modifies this
      ensures showConfirm
      ensures answers == old(answers) && armedAnswers == old(armedAnswers) && submitting == old(submitting)
      ensures timeLeft == old(timeLeft) && timerRunning == old(timerRunning) && message == old(message)
      ensures tabSwitches == old(tabSwitches) && leftPage == old(leftPage) && Valid() == old(Valid())
      ensures loading == old(loading) && hasQuiz == old(hasQuiz)
    {
      showConfirm := true;
    }

    /** The document became hidden while the quiz is shown and not being
        submitted: the switch is counted and a warning shown. */
    method VisibilityHidden()
      modifies this
      ensures var watching := !loading && !submitting && hasQuiz;
              (watching ==> tabSwitches == old(tabSwitches) + 1 && message == Some(TabWarning))
              && (!watching ==> tabSwitches == old(tabSwitches) && message == old(message))
      ensures answers == old(answers) && armedAnswers == old(armedAnswers) && submitting == old(submitting)
      ensures timeLeft == old(timeLeft) && timerRunning == old(timerRunning) && showConfirm == old(showConfirm)
      ensures loading == old(loading) && hasQuiz == old(hasQuiz) && leftPage == old(leftPage)
      ensures Valid() == old(Valid())
    {
      if !loading && !submitting && hasQuiz {
        tabSwitches := tabSwitches + 1;
        message := Some(TabWarning);
      }
    }

    /** The request shared by both pages once a body is built: success leaves the
        page; a failure shows its text, leaves the page on status 400, and lets the
        student retry. */
    method Post(body: Body, failure: Option<Failure>)
      modifies this
      ensures failure.None? ==> leftPage && submitting && message == old(message)
      ensures failure.Some? ==> message == Some(FailureText(failure.value)) && !submitting
                                && (leftPage <==> old(leftPage) || failure.value.status == 400)
      ensures answers == old(answers) && armedAnswers == old(armedAnswers) && tabSwitches == old(tabSwitches)
      ensures timeLeft == old(timeLeft) && timerRunning == old(timerRunning) && showConfirm == old(showConfirm)
      ensures loading == old(loading) && hasQuiz == old(hasQuiz)
    {
      submitting := true;
      match failure {
        case None =>
          leftPage := true;
        case Some(f) =>
          message := Some(FailureText(f));
          if f.status == 400 {
            leftPage := true;
          }
          submitting := false;
      }
    }

    /** `submitQuiz` of the current page: nothing while a submission is in flight,
        else the current answers with the manner and the tab-switch count. */
    method SubmitQuiz(auto: bool, failure: Option<Failure>) returns (sent: Option<Body>)
      modifies this
      ensures old(submitting) ==> sent.None? && submitting && leftPage == old(leftPage) && message == old(message)
      ensures !old(submitting) ==> sent == Some(Proctored(old(answers), auto, old(tabSwitches)))
      ensures !old(submitting) && failure.Some? ==>
                !submitting && message == Some(FailureText(failure.value))
                && (leftPage <==> old(leftPage) || failure.value.status == 400)
      ensures !old(submitting) && failure.None? ==> leftPage && submitting && message == old(message)
      ensures answers == old(answers) && armedAnswers == old(armedAnswers) && tabSwitches == old(tabSwitches)
      ensures timeLeft == old(timeLeft) && timerRunning == old(timerRunning)
      ensures loading == old(loading) && hasQuiz == old(hasQuiz) && showConfirm == old(showConfirm)
    {
      if submitting {
        return None;
      }
      var body := Proctored(answers, auto, tabSwitches);
      Post(body, failure);
      return Some(body);
    }

    /** `submitQuiz` of the older page: the answers alone. */
    method SubmitAnswers(failure: Option<Failure>) returns (sent: Option<Body>)
      modifies this
      ensures old(submitting) ==> sent.None? && submitting && leftPage == old(leftPage) && message == old(message)
      ensures !old(submitting) ==> sent == Some(AnswersOnly(old(answers)))
      ensures !old(submitting) && failure.Some? ==>
                !submitting && message == Some(FailureText(failure.value))
                && (leftPage <==> old(leftPage) || failure.value.status == 400)
      ensures !old(submitting) && failure.None? ==> leftPage && submitting && message == old(message)
      ensures answers == old(answers) && armedAnswers == old(armedAnswers) && tabSwitches == old(tabSwitches)
      ensures timeLeft == old(timeLeft) && timerRunning == old(timerRunning)
      ensures loading == old(loading) && hasQuiz == old(hasQuiz) && showConfirm == old(showConfirm)
    {
      if submitting {
        return None;
      }
      var body := AnswersOnly(answers);
      Post(body, failure);
      return Some(body);
    }

    /** `confirmSubmit` of the current page: the dialog closes, then a manual
        `submitQuiz` runs. */
    method ConfirmSubmit(failure: Option<Failure>) returns (sent: Option<Body>)
      modifies this
      ensures !showConfirm
      ensures old(submitting) ==> sent.None? && submitting && leftPage == old(leftPage) && message == old(message)
      ensures !old(submitting) ==> sent == Some(Proctored(old(answers), false, old(tabSwitches)))
      ensures !old(submitting) && failure.Some? ==>
                !submitting && message == Some(FailureText(failure.value))
                && (leftPage <==> old(leftPage) || failure.value.status == 400)
      ensures !old(submitting) && failure.None? ==> leftPage && submitting && message == old(message)
      ensures answers == old(answers) && armedAnswers == old(armedAnswers) && tabSwitches == old(tabSwitches)
      ensures timeLeft == old(timeLeft) && timerRunning == old(timerRunning)
      ensures loading == old(loading) && hasQuiz == old(hasQuiz)
    {
      showConfirm := false;
      sent := SubmitQuiz(false, failure);
    }

    /** `confirmSubmit` of the older page: the dialog closes, then its `submitQuiz`. */
    method ConfirmSubmitAnswers(failure: Option<Failure>) returns (sent: Option<Body>)
      modifies this
      ensures !showConfirm
      ensures old(submitting) ==> sent.None? && submitting && leftPage == old(leftPage) && message == old(message)
      ensures !old(submitting) ==> sent == Some(AnswersOnly(old(answers)))
      ensures !old(submitting) && failure.Some? ==>
                !submitting && message == Some(FailureText(failure.value))
                && (leftPage <==> old(leftPage) || failure.value.status == 400)
      ensures !old(submitting) && failure.None? ==> leftPage && submitting && message == old(message)
      ensures answers == old(answers) && armedAnswers == old(armedAnswers) && tabSwitches == old(tabSwitches)
      ensures timeLeft == old(timeLeft) && timerRunning == old(timerRunning)
      ensures loading == old(loading) && hasQuiz == old(hasQuiz)
    {
      showConfirm := false;
      sent := SubmitAnswers(failure);
    }

    /** One second of the current page's interval. The callback was made when the
        timer started, so its `submitting` guard sees the value of that moment
        (false); the answers come through a ref and are the current ones. */
    method TimerTick(failure: Option<Failure>) returns (sent: Option<Body>)
      requires timerRunning
      modifies this
      ensures timeLeft == Tick(old(timeLeft)).timeLeft
      ensures timerRunning <==> !Tick(old(timeLeft)).autoSubmit
      ensures Tick(old(timeLeft)).autoSubmit ==> sent == Some(Proctored(old(answers), true, old(tabSwitches)))
      ensures !Tick(old(timeLeft)).autoSubmit ==> sent.None? && submitting == old(submitting)
      ensures Tick(old(timeLeft)).autoSubmit && failure.None? ==> leftPage && submitting && message == old(message)
      ensures Tick(old(timeLeft)).autoSubmit && failure.Some? ==>
                !submitting && message == Some(FailureText(failure.value))
                && (leftPage <==> old(leftPage) || failure.value.status == 400)
      ensures !Tick(old(timeLeft)).autoSubmit ==> leftPage == old(leftPage) && message == old(message)
      ensures answers == old(answers) && armedAnswers == old(armedAnswers) && tabSwitches == old(tabSwitches)
      ensures loading == old(loading) && hasQuiz == old(hasQuiz) && showConfirm == old(showConfirm)
    {
      var t := Tick(timeLeft);
      timeLeft := t.timeLeft;
      if !t.autoSubmit {
        return None;
      }
      timerRunning := false;
      var body := Proctored(answers, true, tabSwitches);
      Post(body, failure);
      return Some(body);
    }

    /** One second of the older page's interval: as above, but the callback also
        sees the answers of the render in which the timer started. */
    method TimerTickCaptured(failure: Option<Failure>) returns (sent: Option<Body>)
      requires timerRunning
      modifies this
      ensures timeLeft == Tick(old(timeLeft)).timeLeft
      ensures timerRunning <==> !Tick(old(timeLeft)).autoSubmit
      ensures Tick(old(timeLeft)).autoSubmit ==> sent == Some(AnswersOnly(old(armedAnswers)))
      ensures !Tick(old(timeLeft)).autoSubmit ==> sent.None? && submitting == old(submitting)
      ensures Tick(old(timeLeft)).autoSubmit && failure.None? ==> leftPage && submitting && message == old(message)
      ensures Tick(old(timeLeft)).autoSubmit && failure.Some? ==>
                !submitting && message == Some(FailureText(failure.value))
                && (leftPage <==> old(leftPage) || failure.value.status == 400)
      ensures !Tick(old(timeLeft)).autoSubmit ==> leftPage == old(leftPage) && message == old(message)
      ensures answers == old(answers) && armedAnswers == old(armedAnswers) && tabSwitches == old(tabSwitches)
      ensures loading == old(loading) && hasQuiz == old(hasQuiz) && showConfirm == old(showConfirm)
    {
      var t := Tick(timeLeft);
      timeLeft := t.timeLeft;
      if !t.autoSubmit {
        return None;
      }
      timerRunning := false;
      var body := AnswersOnly(armedAnswers);
      Post(body, failure);
      return Some(body);
    }
  }

  /** The older page's timeout: a one-minute quiz, one question answered, the clock
      left to run out. The automatic submission posts no answers although one was
      given. */
  method TimeoutDropsAnswers() returns (sent: Option<Body>, given: seq<Answer>)
    ensures given == [Answer(1, 7)]
    ensures sent == Some(AnswersOnly([]))
  {
    var s := new QuizSession();
    s.Loaded(1);
    s.SelectOption(1, 7);
    assert Select([], 1, 7) == [Answer(1, 7)];
    sent := None;
    while s.timerRunning
      invariant s.answers == [Answer(1, 7)] && s.armedAnswers == []
      invariant s.timerRunning ==> 1 <= s.timeLeft
      invariant !s.timerRunning ==> sent == Some(AnswersOnly([]))
      decreases s.timerRunning, s.timeLeft
    {
      sent := s.TimerTickCaptured(None);
    }
    given := s.answers;
  }

  /** The current page's timeout with the same answers posts them. */
  method TimeoutKeepsAnswers() returns (sent: Option<Body>, given: seq<Answer>)
    ensures given == [Answer(1, 7)]
    ensures sent == Some(Proctored(given, true, 0))
  {
    var s := new QuizSession();
    s.Loaded(1);
    s.SelectOption(1, 7);
    assert Select([], 1, 7) == [Answer(1, 7)];
    sent := None;
    while s.timerRunning
      invariant s.answers == [Answer(1, 7)] && s.tabSwitches == 0
      invariant s.timerRunning ==> 1 <= s.timeLeft
      invariant !s.timerRunning ==> sent == Some(Proctored([Answer(1, 7)], true, 0))
      decreases s.timerRunning, s.timeLeft
    {
      sent := s.TimerTick(None);
    }
    given := s.answers;
  }
}
