/**
 * The battle screen of the coliseum (src/components/coliseum/ArenaInterface.tsx): the clock,
 * the answered and marked counters, the answer being chosen for the current question and the
 * navigation buttons. What its callbacks do to the session is modelled in ColiseumPage.
 */
module ArenaInterface {
  import opened JsText
  import opened ColiseumEngine
  import ColiseumPage

  /** `formatTime(seconds)`: `h:mm:ss` from one hour on, `m:ss` below. */
  function FormatTime(seconds: nat): (r: string)
    ensures |r| >= 4 && r[|r| - 3..] == ":" + TwoDigits(seconds % 60)
  {
    ClockHead(seconds) + ":" + TwoDigits(seconds % 60)
  }

  /** What `formatTime` prints before the seconds: hours and padded minutes, or minutes alone. */
  function ClockHead(seconds: nat): (r: string)
    ensures seconds >= 3600 ==> r == NatToString(seconds / 3600) + ":" + TwoDigits(seconds % 3600 / 60)
    ensures seconds < 3600 ==> r == NatToString(seconds / 60)
  {
    var hours := seconds / 3600;
    var mins := seconds % 3600 / 60;
    if hours > 0 then NatToString(hours) + ":" + TwoDigits(mins) else NatToString(mins)
  }

  lemma SecondsFieldSplits(x: string, s: nat, y: string, t: nat)
    requires s < 100 && t < 100
    requires x + ":" + TwoDigits(s) == y + ":" + TwoDigits(t)
    ensures x == y && s == t
  {
    var l, r := x + ":" + TwoDigits(s), y + ":" + TwoDigits(t);
    assert x == l[..|l| - 3];
    assert y == r[..|r| - 3];
    assert TwoDigits(s) == l[|l| - 2..];
    assert TwoDigits(t) == r[|r| - 2..];
    TwoDigitsInjective(s, t);
  }

  /** A head with hours holds a colon, a head without does not. */
  lemma HoursHeadHasColon(h: nat, m: nat, k: nat)
    requires m < 100
    ensures NatToString(h) + ":" + TwoDigits(m) != NatToString(k)
  {
    var l := NatToString(h) + ":" + TwoDigits(m);
    assert l[|NatToString(h)|] == ':';
    assert !IsDigit(':');
  }

  /** The clock never shows two different times alike. */
  lemma FormatTimeInjective(a: nat, b: nat)
    requires FormatTime(a) == FormatTime(b)
    ensures a == b
  {
    SecondsFieldSplits(ClockHead(a), a % 60, ClockHead(b), b % 60);
    ClockHeadInjective(a, b);
  }

  /** Two durations with the same head and the same seconds field are equal. */
  lemma ClockHeadInjective(a: nat, b: nat)
    requires ClockHead(a) == ClockHead(b) && a % 60 == b % 60
    ensures a == b
  {
    if a >= 3600 && b >= 3600 {
      ClockFieldsUnique(a / 3600, a % 3600 / 60, b / 3600, b % 3600 / 60);
      HoursMinutesSeconds(a);
      HoursMinutesSeconds(b);
    } else if a < 3600 && b < 3600 {
      NatToStringInjective(a / 60, b / 60);
    } else {
      var (hours, other) := if a >= 3600 then (a, b) else (b, a);
      HoursHeadHasColon(hours / 3600, hours % 3600 / 60, other / 60);
    }
  }

  /** A duration is its hours, its minutes within the hour and its seconds. */
  lemma HoursMinutesSeconds(a: nat)
    ensures a == a / 3600 * 3600 + a % 3600 / 60 * 60 + a % 60
  {
    assert a % 3600 == a % 3600 / 60 * 60 + a % 3600 % 60;
    assert a % 3600 % 60 == a % 60;
  }

  /** The questions whose entry holds a chosen answer. */
  function AnsweredIds(answers: map<string, Answer>): set<string>
  {
    set id | id in answers && answers[id].selectedAnswer != ""
  }

  /** The questions marked for review. */
  function MarkedIds(answers: map<string, Answer>): set<string>
  {
    set id | id in answers && answers[id].markedForReview
  }

  /**
   * `answeredCount` and `reviewCount`: entries with a non-empty answer and entries with a mark;
   * neither exceeds the number of entries (a toggled, unanswered question has an entry).
   */
  lemma CountersWithinEntries(answers: map<string, Answer>)
    ensures |AnsweredIds(answers)| <= |answers|
    ensures |MarkedIds(answers)| <= |answers|
  {
    SubsetNoLarger(AnsweredIds(answers), answers.Keys);
    SubsetNoLarger(MarkedIds(answers), answers.Keys);
  }

  lemma {:induction false} SubsetNoLarger(a: set<string>, b: set<string>)
    requires a <= b
    ensures |a| <= |b|
  {
    if a != {} {
      var x :| x in a;
      SubsetNoLarger(a - {x}, b - {x});
    }
  }

  /** `currentAnswer?.selectedAnswer || ''`: what the radio group shows when a question opens. */
  function ShownSelection(session: ColiseumSession, questionId: string): (r: string)
    ensures r != "" <==> questionId in AnsweredIds(session.answers)
  {
    if questionId in session.answers then session.answers[questionId].selectedAnswer else ""
  }

  /** `handleAnswer()`: an empty selection submits nothing. */
  function AfterHandleAnswer(session: ColiseumSession, selected: string, now: int): (r: ColiseumSession)
    requires 0 <= session.currentQuestionIndex < |session.questions|
  {
    if selected != "" then
      ColiseumPage.AfterAnswer(session, session.questions[session.currentQuestionIndex].id, selected, now)
    else session
  }

  /**
   * Confirming a chosen answer records it for the current question, so reopening the question
   * shows it again; the answered counter grows by one exactly when the question had no answer,
   * and the review marks stay as they were.
   */
  lemma HandleAnswerCounts(session: ColiseumSession, selected: string, now: int)
    requires 0 <= session.currentQuestionIndex < |session.questions|
    requires selected != ""
    ensures var q := session.questions[session.currentQuestionIndex];
      var r := AfterHandleAnswer(session, selected, now);
      && ShownSelection(r, q.id) == selected
      && AnsweredIds(r.answers) == AnsweredIds(session.answers) + {q.id}
      && |AnsweredIds(r.answers)| == |AnsweredIds(session.answers)| + (if q.id in AnsweredIds(session.answers) then 0 else 1)
      && MarkedIds(r.answers) == MarkedIds(session.answers)
  {
    var q := session.questions[session.currentQuestionIndex];
    var r := AfterHandleAnswer(session, selected, now);
    assert q in session.questions;
    var i := ColiseumPage.FirstWithId(session.questions, q.id);
    assert r.answers[q.id].selectedAnswer == selected;
    assert r.answers[q.id].markedForReview == (q.id in session.answers && session.answers[q.id].markedForReview);
    assert AnsweredIds(r.answers) == AnsweredIds(session.answers) + {q.id};
    assert MarkedIds(r.answers) == MarkedIds(session.answers);
  }

  /** An empty selection leaves the session as it was. */
  lemma EmptySelectionIgnored(session: ColiseumSession, now: int)
    requires 0 <= session.currentQuestionIndex < |session.questions|
    ensures AfterHandleAnswer(session, "", now) == session
  {
  }

  /** `isLastQuestion`. */
  predicate IsLastQuestion(session: ColiseumSession)
  {
    session.currentQuestionIndex == |session.questions| - 1
  }

  /** The "previous" button is disabled on the first question. */
  predicate PreviousDisabled(session: ColiseumSession)
  {
    session.currentQuestionIndex == 0
  }

  /**
   * From a question inside the battle, the enabled "previous" button and the "next" button
   * (shown instead of "finish" unless on the last question) both lead to a question inside it.
   */
  lemma NavigationStaysInside(session: ColiseumSession)
    requires 0 <= session.currentQuestionIndex < |session.questions|
    ensures !PreviousDisabled(session) ==> 0 <= session.currentQuestionIndex - 1 < |session.questions|
    ensures !IsLastQuestion(session) ==> 0 <= session.currentQuestionIndex + 1 < |session.questions|
    ensures IsLastQuestion(session) <==> session.currentQuestionIndex + 1 == |session.questions|
  {
  }

  /** The component's own state: the answer chosen in the radio group. */
  class ArenaPanel {
    var selectedAnswer: string

    constructor ()
      ensures selectedAnswer == ""
    {
      selectedAnswer := "";
    }

    /** The effect that runs when the question or its stored answer changes. */
    method SyncWithSession(session: ColiseumSession)
      requires 0 <= session.currentQuestionIndex < |session.questions|
      modifies this
      ensures selectedAnswer == ShownSelection(session, session.questions[session.currentQuestionIndex].id)
    {
      var id := session.questions[session.currentQuestionIndex].id;
      selectedAnswer := if id in session.answers then session.answers[id].selectedAnswer else "";
    }

    /** A click in the radio group. */
    method Choose(option: string)
      modifies this
      ensures selectedAnswer == option
    {
      selectedAnswer := option;
    }

    /** `handleAnswer()`, returning the session after the callback. */
    method HandleAnswer(session: ColiseumSession, now: int) returns (next: ColiseumSession)
      requires 0 <= session.currentQuestionIndex < |session.questions|
      ensures next == AfterHandleAnswer(session, selectedAnswer, now)
    {
      next := session;
      if selectedAnswer != "" {
        next := ColiseumPage.AfterAnswer(session, session.questions[session.currentQuestionIndex].id, selectedAnswer, now);
      }
    }
  }
}
