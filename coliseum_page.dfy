/**
 * The coliseum page (src/pages/ColiseumPage.tsx): the view flow selection → configuration →
 * battle → report, the enemy summary it loads, and the session updates made while answering.
 * Toasts are left out; the clock reading, the enemy tables, the shuffle and the failures of the
 * reads are parameters.
 */
module ColiseumPage {
  import opened Wrappers
  import opened ColiseumTypes
  import opened ColiseumEngine

  datatype ViewState = Selection | Configuration | Battle | Report

  /** The summary `loadEnemiesData` computes over the enemies of every room. */
  datatype EnemySummary = EnemySummary(availableEnemies: nat, availableSubjects: seq<string>, totalQuestions: nat)

  function AllEnemies(e: EnemiesByRoom): seq<Enemy>
  {
    e.triagem + e.vermelha + e.amarela + e.verde
  }

  /** `Array.from(new Set(subjects))`: each subject once, in order of first appearance. */
  function DistinctSubjects(enemies: seq<Enemy>): (names: seq<string>)
  {
    if enemies == [] then []
    else
      var before := DistinctSubjects(enemies[..|enemies| - 1]);
      var s := enemies[|enemies| - 1].subjectName;
      if s in before then before else before + [s]
  }

  function SumQuestions(enemies: seq<Enemy>): nat
  {
    if enemies == [] then 0 else SumQuestions(enemies[..|enemies| - 1]) + enemies[|enemies| - 1].totalQuestions
  }

  /** The subject list has no repeats and names exactly the enemies' subjects. */
  lemma {:induction false} DistinctSubjectsAreTheSubjects(enemies: seq<Enemy>)
    ensures forall i, j :: 0 <= i < j < |DistinctSubjects(enemies)| ==> DistinctSubjects(enemies)[i] != DistinctSubjects(enemies)[j]
    ensures forall s :: s in DistinctSubjects(enemies) <==> exists e :: e in enemies && e.subjectName == s
  {
    if enemies != [] {
      var n := |enemies| - 1;
      DistinctSubjectsAreTheSubjects(enemies[..n]);
      assert forall e :: e in enemies <==> e in enemies[..n] || e == enemies[n];
    }
  }

  /** The total splits over any split of the enemy list, so it is the sum of the rooms' totals. */
  lemma {:induction false} SumQuestionsSplits(enemies: seq<Enemy>, more: seq<Enemy>)
    ensures SumQuestions(enemies + more) == SumQuestions(enemies) + SumQuestions(more)
  {
    if more == [] {
      assert enemies + more == enemies;
    } else {
      var m := |more| - 1;
      assert (enemies + more)[..|enemies + more| - 1] == enemies + more[..m];
      SumQuestionsSplits(enemies, more[..m]);
    }
  }

  lemma TotalIsSumOfRooms(e: EnemiesByRoom)
    ensures SumQuestions(AllEnemies(e)) ==
      SumQuestions(e.triagem) + SumQuestions(e.vermelha) + SumQuestions(e.amarela) + SumQuestions(e.verde)
  {
    SumQuestionsSplits(e.triagem, e.vermelha);
    SumQuestionsSplits(e.triagem + e.vermelha, e.amarela);
    SumQuestionsSplits(e.triagem + e.vermelha + e.amarela, e.verde);
  }

  /** The loop of `loadEnemiesData`. */
  method SummarizeEnemies(enemies: seq<Enemy>) returns (summary: EnemySummary)
    ensures summary == EnemySummary(|enemies|, DistinctSubjects(enemies), SumQuestions(enemies))
  {
    var count := 0;
    var subjects: seq<string> := [];
    var total := 0;
    var i := 0;
    while i < |enemies|
      invariant 0 <= i <= |enemies|
      invariant count == i
      invariant subjects == DistinctSubjects(enemies[..i])
      invariant total == SumQuestions(enemies[..i])
    {
      assert enemies[..i + 1][..i] == enemies[..i];
      count := count + 1;
      if enemies[i].subjectName !in subjects {
        subjects := subjects + [enemies[i].subjectName];
      }
      total := total + enemies[i].totalQuestions;
      i := i + 1;
    }
    assert enemies[..i] == enemies;
    summary := EnemySummary(count, subjects, total);
  }

  /** `handleAnswerQuestion(questionId, answer)` on a session, at clock reading `now` (milliseconds). */
  function AfterAnswer(session: ColiseumSession, questionId: string, answer: string, now: int): (r: ColiseumSession)
    ensures (forall q :: q in session.questions ==> q.id != questionId) ==> r == session
    ensures r == session.(answers := r.answers)
    ensures forall id :: id != questionId ==> (id in r.answers <==> id in session.answers)
    ensures forall id :: id != questionId && id in session.answers ==> r.answers[id] == session.answers[id]
  {
    if exists q :: q in session.questions && q.id == questionId then
      var q := session.questions[FirstWithId(session.questions, questionId)];
      var marked := questionId in session.answers && session.answers[questionId].markedForReview;
      session.(answers := session.answers[questionId :=
        Answer(answer, answer == q.correctAnswer, (now - session.startTime) / 1000, marked)])
    else session
  }

  /** The index `questions.find(q => q.id === id)` stops at. */
  function FirstWithId(questions: seq<ColiseumQuestion>, id: string): (i: nat)
    requires exists q :: q in questions && q.id == id
    ensures i < |questions| && questions[i].id == id
    ensures forall j :: 0 <= j < i ==> questions[j].id != id
  {
    if questions[0].id == id then 0
    else
      assert exists q :: q in questions[1..] && q.id == id by {
        var q :| q in questions && q.id == id;
        assert q in questions[1..];
      }
      1 + FirstWithId(questions[1..], id)
  }

  /**
   * Answering a question of the session records the answer, marks it correct exactly when it
   * equals the question's correct answer (the first question with that id), keeps the review
   * mark, and times it in whole seconds since the battle started.
   */
  lemma AnswerRecorded(session: ColiseumSession, q: ColiseumQuestion, answer: string, now: int)
    requires q in session.questions
    requires forall p :: p in session.questions && p.id == q.id ==> p == q
    ensures var r := AfterAnswer(session, q.id, answer, now);
      && q.id in r.answers
      && r.answers[q.id].selectedAnswer == answer
      && (r.answers[q.id].isCorrect <==> answer == q.correctAnswer)
      && r.answers[q.id].markedForReview == (q.id in session.answers && session.answers[q.id].markedForReview)
      && 1000 * r.answers[q.id].timeTaken <= now - session.startTime < 1000 * (r.answers[q.id].timeTaken + 1)
  {
  }

  const Unanswered := Answer("", false, 0, false)

  /** `handleToggleReview(questionId)`: flip the mark, starting from an unanswered entry. */
  function AfterToggleReview(session: ColiseumSession, questionId: string): (r: ColiseumSession)
    ensures r == session.(answers := r.answers)
    ensures questionId in r.answers
    ensures r.answers.Keys == session.answers.Keys + {questionId}
    ensures forall id :: id in session.answers && id != questionId ==> r.answers[id] == session.answers[id]
  {
    var current := if questionId in session.answers then session.answers[questionId] else Unanswered;
    session.(answers := session.answers[questionId := current.(markedForReview := !current.markedForReview)])
  }

  /**
   * A toggle flips only the mark; toggling twice restores the entry, or leaves an unanswered,
   * unmarked entry where there was none.
   */
  lemma ToggleTwice(session: ColiseumSession, questionId: string)
    ensures var once := AfterToggleReview(session, questionId);
      var current := if questionId in session.answers then session.answers[questionId] else Unanswered;
      && once.answers[questionId] == current.(markedForReview := !current.markedForReview)
      && AfterToggleReview(once, questionId).answers == session.answers[questionId := current]
  {
  }

  /** One second of the countdown: at or below zero (or undefined) the battle ends and shows 0. */
  datatype Tick = Tick(remaining: int, finishes: bool)

  function CountdownTick(prev: Option<int>): (t: Tick)
    ensures t.finishes <==> prev.None? || prev.value <= 0
    ensures t.remaining >= 0 <==> t.finishes || prev.value >= 1
  {
    if prev.None? || prev.value <= 0 then Tick(0, true) else Tick(prev.value - 1, false)
  }

  /** The remaining time after `k` ticks that did not finish the battle. */
  function Countdown(start: int, k: nat): (r: Option<int>)
  {
    if k == 0 then Some(start)
    else
      var prev := Countdown(start, k - 1);
      if prev.Some? && !CountdownTick(prev).finishes then Some(CountdownTick(prev).remaining) else None
  }

  /** A countdown from `n` seconds runs `n` ticks to reach 0 and the next tick ends the battle. */
  lemma {:induction false} CountdownEndsOnTime(n: nat)
    ensures forall k :: 0 <= k <= n ==> Countdown(n, k) == Some(n - k)
    ensures CountdownTick(Countdown(n, n)).finishes
  {
    forall k | 0 <= k <= n
      ensures Countdown(n, k) == Some(n - k)
    {
      CountdownSteps(n, k);
    }
  }

  lemma {:induction false} CountdownSteps(n: nat, k: nat)
    requires k <= n
    ensures Countdown(n, k) == Some(n - k)
  {
    if k > 0 {
      CountdownSteps(n, k - 1);
    }
  }

  datatype StartOutcome = NoModeSelected | InvalidConfig(error: string) | NoQuestions | Started

  /** The configuration `handleStartBattle` builds: no subjects means no filter, no explicit time limit. */
  function BattleConfig(mode: Mode, questionsCount: int, selectedSubjects: seq<string>): (c: ColiseumConfig)
    ensures c.mode == mode && c.questionsCount == questionsCount && c.timeLimit.None?
    ensures c.selectedSubjects.Some? <==> |selectedSubjects| > 0
  {
    ColiseumConfig(mode, questionsCount, if |selectedSubjects| > 0 then Some(selectedSubjects) else None, None)
  }

  class ColiseumPageState {
    var viewState: ViewState
    var selectedMode: Option<Mode>
    var session: Option<ColiseumSession>
    var report: Option<ColiseumReport>
    var summary: EnemySummary
    var timeRemaining: Option<int>

    constructor ()
      ensures viewState == Selection && selectedMode.None? && session.None? && report.None? && timeRemaining.None?
      ensures summary == EnemySummary(0, [], 0)
    {
      viewState, selectedMode, session, report := Selection, None, None, None;
      summary, timeRemaining := EnemySummary(0, [], 0), None;
    }

    /** `loadEnemiesData()`; a failing read leaves the summary as it was. */
    method LoadEnemiesData(enemies: EnemiesByRoom, fails: bool)
      modifies this`summary
      ensures fails ==> summary == old(summary)
      ensures !fails ==> summary == EnemySummary(|AllEnemies(enemies)|, DistinctSubjects(AllEnemies(enemies)),
                                                 SumQuestions(AllEnemies(enemies)))
    {
      if !fails {
        summary := SummarizeEnemies(AllEnemies(enemies));
      }
    }

    method SelectMode(mode: Mode)
      modifies this`selectedMode, this`viewState
      ensures selectedMode == Some(mode) && viewState == Configuration
    {
      selectedMode := Some(mode);
      viewState := Configuration;
    }

    /**
     * `handleStartBattle(questionsCount, selectedSubjects)`: validate against the questions
     * available, load them, and open the battle only when some were loaded.
     */
    method StartBattle(questionsCount: int, selectedSubjects: seq<string>, enemies: EnemiesByRoom,
                       questionsOf: string -> seq<ColiseumQuestion>,
                       shuffle: seq<ColiseumQuestion> -> seq<ColiseumQuestion>, loadFails: bool,
                       sessionId: string, now: int)
      returns (outcome: StartOutcome)
      requires forall xs :: multiset(shuffle(xs)) == multiset(xs)
      modifies this`session, this`timeRemaining, this`viewState
      ensures outcome == NoModeSelected <==> old(selectedMode).None?
      ensures old(selectedMode).Some? ==>
        var config := BattleConfig(old(selectedMode).value, questionsCount, selectedSubjects);
        && (outcome.InvalidConfig? <==> ValidateColiseumConfig(config, summary.totalQuestions).Invalid?)
        && (outcome.InvalidConfig? ==> outcome.error == ValidateColiseumConfig(config, summary.totalQuestions).error)
      ensures outcome != Started ==> session == old(session) && timeRemaining == old(timeRemaining) && viewState == old(viewState)
      ensures outcome == Started ==>
        && viewState == Battle
        && session.Some? && |session.value.questions| > 0
        && session.value == CreateColiseumSession(BattleConfig(old(selectedMode).value, questionsCount, selectedSubjects),
                                                  session.value.questions, sessionId, now)
        && timeRemaining == session.value.timeRemaining
        && !loadFails
        && multiset(session.value.questions) <= multiset(BattlePool(session.value.config, enemies, questionsOf))
      ensures old(selectedMode).Some? ==>
        var config := BattleConfig(old(selectedMode).value, questionsCount, selectedSubjects);
        ValidateColiseumConfig(config, summary.totalQuestions).Valid? ==>
          && (outcome == Started <==> !loadFails && |BattlePool(config, enemies, questionsOf)| > 0)
          && (outcome == NoQuestions <==> loadFails || |BattlePool(config, enemies, questionsOf)| == 0)
    {
      if selectedMode.None? {
        return NoModeSelected;
      }
      var config := BattleConfig(selectedMode.value, questionsCount, selectedSubjects);
      var validation := ValidateColiseumConfig(config, summary.totalQuestions);
      if validation.Invalid? {
        return InvalidConfig(validation.error);
      }
      var questions := LoadColiseumQuestions(config, enemies, questionsOf, shuffle, loadFails);
      ghost var pool := BattlePool(config, enemies, questionsOf);
      if !loadFails && config.mode == RescueOperation {
        assert |questions| == |pool| by { assert |multiset(questions)| == |multiset(pool)|; }
      }
      if |questions| == 0 {
        return NoQuestions;
      }
      var newSession := CreateColiseumSession(config, questions, sessionId, now);
      session := Some(newSession);
      timeRemaining := newSession.timeRemaining;
      viewState := Battle;
      outcome := Started;
    }

    method AnswerQuestion(questionId: string, answer: string, now: int)
      modifies this`session
      ensures session == if old(session).None? then None else Some(AfterAnswer(old(session).value, questionId, answer, now))
    {
      if session.Some? {
        session := Some(AfterAnswer(session.value, questionId, answer, now));
      }
    }

    method ToggleReview(questionId: string)
      modifies this`session
      ensures session == if old(session).None? then None else Some(AfterToggleReview(old(session).value, questionId))
    {
      if session.Some? {
        session := Some(AfterToggleReview(session.value, questionId));
      }
    }

    /** `handleNavigateQuestion(index)`: no bounds check. */
    method NavigateQuestion(index: int)
      modifies this`session
      ensures session == if old(session).None? then None else Some(old(session).value.(currentQuestionIndex := index))
    {
      if session.Some? {
        session := Some(session.value.(currentQuestionIndex := index));
      }
    }

    /** `handleFinishBattle()`: build the report and show it; the progress update is not part of this model. */
    method FinishBattle(now: int)
      modifies this`report, this`viewState
      ensures old(session).None? ==> report == old(report) && viewState == old(viewState)
      ensures old(session).Some? ==>
        && report == Some(ReportOf(old(session).value, TallyOf(old(session).value.questions, old(session).value.answers), now))
        && viewState == Report
    {
      if session.Some? {
        var r := GenerateColiseumReport(session.value, now);
        report := Some(r);
        viewState := Report;
      }
    }

    /** One second of the battle timer, which runs while a timed battle is shown. */
    method TimerTick(now: int)
      modifies this`timeRemaining, this`report, this`viewState
      ensures !(old(session).Some? && old(session).value.timeRemaining.Some? && old(viewState) == Battle) ==>
        timeRemaining == old(timeRemaining) && report == old(report) && viewState == old(viewState)
      ensures old(session).Some? && old(session).value.timeRemaining.Some? && old(viewState) == Battle ==>
        var t := CountdownTick(old(timeRemaining));
        && timeRemaining == Some(t.remaining)
        && (t.finishes <==> viewState == Report)
        && (t.finishes ==> report == Some(ReportOf(old(session).value, TallyOf(old(session).value.questions, old(session).value.answers), now)))
    {
      if session.Some? && session.value.timeRemaining.Some? && viewState == Battle {
        var t := CountdownTick(timeRemaining);
        if t.finishes {
          FinishBattle(now);
        }
        timeRemaining := Some(t.remaining);
      }
    }

    /** `handleBackToArena()`. */
    method BackToArena()
      modifies this`viewState, this`selectedMode, this`session, this`report, this`timeRemaining
      ensures viewState == Selection && selectedMode.None? && session.None? && report.None? && timeRemaining.None?
    {
      viewState, selectedMode, session, report, timeRemaining := Selection, None, None, None, None;
    }

    method BackToConfig()
      modifies this`viewState
      ensures viewState == Configuration
    {
      viewState := Configuration;
    }
  }
}
