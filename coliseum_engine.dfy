/**
 * The coliseum engine (src/utils/coliseumEngine.ts): gather the questions of a battle, open a
 * session, compute the XP of a result, build the battle report and validate a configuration.
 * The enemy tables of src/db/crud/enemies.ts are not part of this model: the enemies per room
 * and the questions of each enemy's topic are parameters, and so is the random shuffle, of
 * which only that it permutes its input is assumed.
 */
module ColiseumEngine {
  import opened Wrappers
  import opened JsText
  import opened JsArray
  import opened ColiseumTypes
  import QuestionStore

  /** A question as a battle uses it. */
  datatype ColiseumQuestion = ColiseumQuestion(
    id: string,
    topicId: string,
    topicName: string,
    subjectName: string,
    content: string,
    correctAnswer: string,
    difficulty: QuestionStore.Difficulty,
    room: QuestionStore.Room)

  datatype ColiseumConfig = ColiseumConfig(
    mode: Mode,
    questionsCount: int,
    selectedSubjects: Option<seq<string>>,
    timeLimit: Option<int>)

  /** The answer recorded for one question. */
  datatype Answer = Answer(selectedAnswer: string, isCorrect: bool, timeTaken: int, markedForReview: bool)

  datatype ColiseumSession = ColiseumSession(
    id: string,
    mode: Mode,
    config: ColiseumConfig,
    questions: seq<ColiseumQuestion>,
    answers: map<string, Answer>,
    startTime: int,
    currentQuestionIndex: int,
    timeRemaining: Option<int>,
    isCompleted: bool)

  /** An enemy: the topic it stands for, that topic's subject and how many questions it has. */
  datatype Enemy = Enemy(topicId: string, subjectName: string, totalQuestions: nat)

  /** `getEnemiesByRoom()`. */
  datatype EnemiesByRoom = EnemiesByRoom(triagem: seq<Enemy>, vermelha: seq<Enemy>, amarela: seq<Enemy>, verde: seq<Enemy>)

  /** `selectedSubjects && selectedSubjects.length > 0 && !selectedSubjects.includes(subject)`. */
  predicate Excluded(selectedSubjects: Option<seq<string>>, subject: string)
  {
    selectedSubjects.Some? && |selectedSubjects.value| > 0 && subject !in selectedSubjects.value
  }

  /** The questions of every enemy not excluded by the subject filter, enemy by enemy. */
  function Pool(enemies: seq<Enemy>, selectedSubjects: Option<seq<string>>, questionsOf: string -> seq<ColiseumQuestion>)
    : (pool: seq<ColiseumQuestion>)
    ensures forall q :: q in pool ==>
      exists e :: e in enemies && !Excluded(selectedSubjects, e.subjectName) && q in questionsOf(e.topicId)
    ensures forall e :: e in enemies && !Excluded(selectedSubjects, e.subjectName) ==>
      forall q :: q in questionsOf(e.topicId) ==> q in pool
  {
    if enemies == [] then []
    else
      var n := |enemies| - 1;
      var before := Pool(enemies[..n], selectedSubjects, questionsOf);
      assert forall e :: e in enemies <==> e in enemies[..n] || e == enemies[n];
      if Excluded(selectedSubjects, enemies[n].subjectName) then before else before + questionsOf(enemies[n].topicId)
  }

  /** The gathering loop of `loadColiseumQuestions`: push every kept enemy's questions. */
  method GatherQuestions(enemies: seq<Enemy>, selectedSubjects: Option<seq<string>>,
                         questionsOf: string -> seq<ColiseumQuestion>)
    returns (all: seq<ColiseumQuestion>)
    ensures all == Pool(enemies, selectedSubjects, questionsOf)
  {
    all := [];
    var i := 0;
    while i < |enemies|
      invariant 0 <= i <= |enemies|
      invariant all == Pool(enemies[..i], selectedSubjects, questionsOf)
    {
      assert enemies[..i + 1][..i] == enemies[..i];
      if !Excluded(selectedSubjects, enemies[i].subjectName) {
        all := all + questionsOf(enemies[i].topicId);
      }
      i := i + 1;
    }
    assert enemies[..i] == enemies;
  }

  /** The questions a battle draws from: the red room for a rescue, every room filtered by subject otherwise. */
  function BattlePool(config: ColiseumConfig, enemies: EnemiesByRoom, questionsOf: string -> seq<ColiseumQuestion>)
    : seq<ColiseumQuestion>
  {
    if config.mode == RescueOperation then Pool(enemies.vermelha, None, questionsOf)
    else Pool(enemies.triagem + enemies.vermelha + enemies.amarela + enemies.verde, config.selectedSubjects, questionsOf)
  }

  /**
   * `loadColiseumQuestions(config)`: a rescue operation takes every question of the red-room
   * enemies; other modes take the questions of all enemies of the selected subjects (all
   * subjects when none are selected), shuffled, and keep the first `questionsCount`. A failing
   * enemy read gives `[]`.
   */
  method LoadColiseumQuestions(config: ColiseumConfig, enemies: EnemiesByRoom,
                               questionsOf: string -> seq<ColiseumQuestion>,
                               shuffle: seq<ColiseumQuestion> -> seq<ColiseumQuestion>, fails: bool)
    returns (selected: seq<ColiseumQuestion>)
    requires forall xs :: multiset(shuffle(xs)) == multiset(xs)
    ensures fails ==> selected == []
    ensures !fails && config.mode == RescueOperation ==> multiset(selected) == multiset(Pool(enemies.vermelha, None, questionsOf))
    ensures !fails && config.mode != RescueOperation ==>
      var pool := Pool(enemies.triagem + enemies.vermelha + enemies.amarela + enemies.verde, config.selectedSubjects, questionsOf);
      && multiset(selected) <= multiset(pool)
      && (config.questionsCount >= 0 ==> |selected| == if config.questionsCount < |pool| then config.questionsCount else |pool|)
  {
    if fails {
      return [];
    }
    var all;
    if config.mode == RescueOperation {
      all := GatherQuestions(enemies.vermelha, None, questionsOf);
    } else {
      var allEnemies := enemies.triagem + enemies.vermelha + enemies.amarela + enemies.verde;
      all := GatherQuestions(allEnemies, config.selectedSubjects, questionsOf);
    }
    var shuffled := shuffle(all);
    assert |shuffled| == |all| by {
      assert |multiset(shuffled)| == |multiset(all)|;
    }
    if config.mode == RescueOperation {
      selected := shuffled;
    } else {
      selected := Slice(shuffled, config.questionsCount);
      assert shuffled == selected + shuffled[|selected|..];
      assert multiset(shuffled) == multiset(selected) + multiset(shuffled[|selected|..]);
    }
  }

  /** Every question a non-rescue battle draws belongs to an enemy of a selected subject. */
  lemma DrawnFromSelectedSubjects(enemies: seq<Enemy>, selectedSubjects: seq<string>,
                                  questionsOf: string -> seq<ColiseumQuestion>, selected: seq<ColiseumQuestion>)
    requires |selectedSubjects| > 0
    requires multiset(selected) <= multiset(Pool(enemies, Some(selectedSubjects), questionsOf))
    ensures forall q :: q in selected ==>
      exists e :: e in enemies && e.subjectName in selectedSubjects && q in questionsOf(e.topicId)
  {
    forall q | q in selected
      ensures exists e :: e in enemies && e.subjectName in selectedSubjects && q in questionsOf(e.topicId)
    {
      assert q in multiset(selected);
      assert q in Pool(enemies, Some(selectedSubjects), questionsOf);
    }
  }

  /** `config.timeLimit || default`, in minutes. */
  function EffectiveTimeLimit(config: ColiseumConfig): (minutes: int)
    ensures config.timeLimit.Some? && config.timeLimit.value != 0 ==> minutes == config.timeLimit.value
    ensures config.timeLimit.None? || config.timeLimit.value == 0 ==>
      minutes == TimeLimits(config.mode).default && (minutes > 0 <==> config.mode != RescueOperation)
  {
    if config.timeLimit.Some? && config.timeLimit.value != 0 then config.timeLimit.value
    else TimeLimits(config.mode).default
  }

  /** `createColiseumSession(config, questions)`; the id and the start time are parameters. */
  function CreateColiseumSession(config: ColiseumConfig, questions: seq<ColiseumQuestion>, id: string, startTime: int)
    : (s: ColiseumSession)
    ensures s.mode == config.mode && s.config == config && s.questions == questions
    ensures s.answers == map[] && s.currentQuestionIndex == 0 && !s.isCompleted
    ensures s.timeRemaining.Some? ==> s.timeRemaining.value > 0 && s.timeRemaining.value % 60 == 0
    ensures s.timeRemaining.None? <==> EffectiveTimeLimit(config) <= 0
  {
    var limit := EffectiveTimeLimit(config);
    ColiseumSession(id, config.mode, config, questions, map[], startTime, 0,
                    if limit > 0 then Some(limit * 60) else None, false)
  }

  /** A session opened without an explicit limit runs for the mode's default; a rescue never times out. */
  lemma DefaultSessionTimes(questions: seq<ColiseumQuestion>, id: string, startTime: int, count: int, subjects: Option<seq<string>>)
    ensures CreateColiseumSession(ColiseumConfig(Skirmish, count, subjects, None), questions, id, startTime).timeRemaining == Some(1200)
    ensures CreateColiseumSession(ColiseumConfig(TotalWar, count, subjects, None), questions, id, startTime).timeRemaining == Some(10800)
    ensures CreateColiseumSession(ColiseumConfig(RescueOperation, count, subjects, None), questions, id, startTime).timeRemaining.None?
  {
  }

  /** The accuracy bonus of a combat mode: the full bonus from 90%, half of it from 70%. */
  function AccuracyBonus(bonus: nat, correct: nat, total: nat): nat
  {
    if AccuracyAtLeast(correct, total, 90) then bonus
    else if AccuracyAtLeast(correct, total, 70) then bonus / 2
    else 0
  }

  /** `timeTaken / totalQuestions < 60` (with `x / 0` infinite for positive `x`, `NaN` for 0). */
  predicate Quick(timeTaken: int, total: nat)
  {
    if total == 0 then timeTaken < 0 else timeTaken < 60 * total
  }

  /** `calculateColiseumXP(mode, correct, total, timeTaken)`. */
  function CalculateColiseumXp(mode: Mode, correct: nat, total: nat, timeTaken: int): (xp: nat)
    ensures xp >= XpRewards(mode).base
    ensures XpRewards(mode).Rescue? ==> xp >= XpRewards(mode).base + correct * XpRewards(mode).perEnemy
    ensures XpRewards(mode).Combat? ==>
      xp <= XpRewards(mode).base + XpRewards(mode).bonus + XpRewards(mode).perfectBonus + 25
  {
    match XpRewards(mode)
    case Rescue(base, perEnemy, perfectBonus) =>
      base + correct * perEnemy + (if Perfect(correct, total) then perfectBonus else 0)
    case Combat(base, bonus, perfectBonus) =>
      base + AccuracyBonus(bonus, correct, total) + (if Perfect(correct, total) then perfectBonus else 0)
      + (if Quick(timeTaken, total) then 25 else 0)
  }

  /**
   * A rescue pays 50 plus 50 per enemy beaten, plus 100 when every answer is right; a combat
   * mode pays at least its base and at most base, bonus, perfect bonus and 25 for speed.
   */
  lemma XpBounds(mode: Mode, correct: nat, total: nat, timeTaken: int)
    ensures var xp := CalculateColiseumXp(mode, correct, total, timeTaken);
      && (mode == RescueOperation ==> xp == 50 + 50 * correct + (if correct == total && total > 0 then 100 else 0))
      && (mode != RescueOperation ==>
            var r := XpRewards(mode); r.base <= xp <= r.base + r.bonus + r.perfectBonus + 25)
      && (mode != RescueOperation && Perfect(correct, total) && timeTaken < 60 * total ==>
            xp == XpRewards(mode).base + XpRewards(mode).bonus + XpRewards(mode).perfectBonus + 25)
  {
  }

  /**
   * For a fixed number of questions and time, more correct answers never earn less XP, as
   * long as the counts stay within the number of questions (a count above it would lose the
   * perfect bonus).
   */
  lemma XpMonotoneInCorrect(mode: Mode, c1: nat, c2: nat, total: nat, timeTaken: int)
    requires total > 0 && c1 <= c2 <= total
    ensures CalculateColiseumXp(mode, c1, total, timeTaken) <= CalculateColiseumXp(mode, c2, total, timeTaken)
  {
    if AccuracyAtLeast(c1, total, 90) {
      AtLeastMonotone(c1, total, c2, total, 90);
    }
    if AccuracyAtLeast(c1, total, 70) {
      AtLeastMonotone(c1, total, c2, total, 70);
    }
  }

  /** The counts of one subject or difficulty. */
  datatype Bucket = Bucket(correct: nat, total: nat)

  /** `session.answers.get(question.id)?.isCorrect || false`. */
  predicate AnsweredCorrectly(answers: map<string, Answer>, q: ColiseumQuestion)
  {
    q.id in answers && answers[q.id].isCorrect
  }

  function Bump(b: Bucket, isCorrect: bool): (r: Bucket)
  {
    Bucket(b.correct + (if isCorrect then 1 else 0), b.total + 1)
  }

  predicate WellCounted(b: Bucket)
  {
    b.correct <= b.total
  }

  function SumTotals(tally: seq<(string, Bucket)>): nat
  {
    if tally == [] then 0 else tally[0].1.total + SumTotals(tally[1..])
  }

  /** The subject names of a tally, in insertion order. */
  function Subjects(tally: seq<(string, Bucket)>): (names: seq<string>)
    ensures |names| == |tally|
    ensures forall i :: 0 <= i < |tally| ==> names[i] == tally[i].0
  {
    if tally == [] then [] else [tally[0].0] + Subjects(tally[1..])
  }

  /** Each subject appears once, with a positive total and no more correct answers than questions. */
  predicate GoodTally(tally: seq<(string, Bucket)>)
  {
    DistinctNames(tally) && GoodBuckets(tally)
  }

  predicate DistinctNames(tally: seq<(string, Bucket)>)
  {
    forall i, j :: 0 <= i < j < |tally| ==> tally[i].0 != tally[j].0
  }

  predicate GoodBuckets(tally: seq<(string, Bucket)>)
  {
    forall i :: 0 <= i < |tally| ==> WellCounted(tally[i].1) && tally[i].1.total > 0
  }

  /**
   * `performanceBySubject[subject]`, created on first use, counts one more question; an object
   * lists string keys in insertion order, which holds here because subject names are taken not
   * to be integer-like (such keys would be listed first, in ascending numeric order).
   */
  function Counted(tally: seq<(string, Bucket)>, subject: string, isCorrect: bool): (r: seq<(string, Bucket)>)
    ensures r != [] && |r| <= |tally| + 1
  {
    if tally == [] then [(subject, Bump(Bucket(0, 0), isCorrect))]
    else if tally[0].0 == subject then [(subject, Bump(tally[0].1, isCorrect))] + tally[1..]
    else [tally[0]] + Counted(tally[1..], subject, isCorrect)
  }

  /** Counting a question gives its subject an entry and no other subject one. */
  lemma {:induction false} CountedNames(tally: seq<(string, Bucket)>, subject: string, isCorrect: bool)
    ensures forall s :: s in Subjects(Counted(tally, subject, isCorrect)) <==> s in Subjects(tally) || s == subject
  {
    var r := Counted(tally, subject, isCorrect);
    if tally != [] {
      assert Subjects(tally) == [tally[0].0] + Subjects(tally[1..]);
      assert Subjects(r) == [r[0].0] + Subjects(r[1..]);
      if tally[0].0 == subject {
        assert r[1..] == tally[1..];
      } else {
        CountedNames(tally[1..], subject, isCorrect);
        assert r[1..] == Counted(tally[1..], subject, isCorrect);
      }
    }
  }

  /** Counting keeps every subject once, with a positive total and no more correct than total. */
  lemma CountedGood(tally: seq<(string, Bucket)>, subject: string, isCorrect: bool)
    requires GoodTally(tally)
    ensures GoodTally(Counted(tally, subject, isCorrect))
  {
    CountedDistinct(tally, subject, isCorrect);
    CountedBuckets(tally, subject, isCorrect);
  }

  lemma {:induction false} CountedBuckets(tally: seq<(string, Bucket)>, subject: string, isCorrect: bool)
    requires GoodBuckets(tally)
    ensures GoodBuckets(Counted(tally, subject, isCorrect))
  {
    var r := Counted(tally, subject, isCorrect);
    if tally != [] && tally[0].0 == subject {
      assert forall i :: 1 <= i < |r| ==> r[i] == tally[i];
    } else if tally != [] {
      var rest := Counted(tally[1..], subject, isCorrect);
      assert forall i :: 0 <= i < |tally| - 1 ==> tally[1..][i] == tally[i + 1];
      CountedBuckets(tally[1..], subject, isCorrect);
      assert forall i :: 1 <= i < |r| ==> r[i] == rest[i - 1];
    }
  }

  lemma {:induction false} CountedDistinct(tally: seq<(string, Bucket)>, subject: string, isCorrect: bool)
    requires DistinctNames(tally)
    ensures DistinctNames(Counted(tally, subject, isCorrect))
  {
    var r := Counted(tally, subject, isCorrect);
    if tally != [] && tally[0].0 == subject {
      assert forall i :: 1 <= i < |r| ==> r[i] == tally[i];
    } else if tally != [] {
      var rest := Counted(tally[1..], subject, isCorrect);
      assert forall i :: 0 <= i < |tally| - 1 ==> tally[1..][i] == tally[i + 1];
      CountedDistinct(tally[1..], subject, isCorrect);
      CountedNames(tally[1..], subject, isCorrect);
      assert r == [tally[0]] + rest;
      forall j | 1 <= j < |r|
        ensures r[j].0 != r[0].0
      {
        assert r[j] == rest[j - 1];
        assert rest[j - 1].0 in Subjects(rest);
        if rest[j - 1].0 != subject {
          var k :| 0 <= k < |tally[1..]| && Subjects(tally[1..])[k] == rest[j - 1].0;
          assert tally[1..][k] == tally[k + 1];
        }
      }
    }
  }

  /** Counting a question adds one to the sum of the subject totals. */
  lemma {:induction false} CountedSum(tally: seq<(string, Bucket)>, subject: string, isCorrect: bool)
    ensures SumTotals(Counted(tally, subject, isCorrect)) == SumTotals(tally) + 1
  {
    var r := Counted(tally, subject, isCorrect);
    if tally != [] {
      if tally[0].0 == subject {
        assert r[1..] == tally[1..];
      } else {
        CountedSum(tally[1..], subject, isCorrect);
        assert r[1..] == Counted(tally[1..], subject, isCorrect);
      }
    }
  }

  datatype DifficultyBuckets = DifficultyBuckets(easy: Bucket, medium: Bucket, hard: Bucket)

  const NoDifficultyCounts := DifficultyBuckets(Bucket(0, 0), Bucket(0, 0), Bucket(0, 0))

  function CountedDifficulty(b: DifficultyBuckets, d: QuestionStore.Difficulty, isCorrect: bool): DifficultyBuckets
  {
    match d
    case Easy => b.(easy := Bump(b.easy, isCorrect))
    case Medium => b.(medium := Bump(b.medium, isCorrect))
    case Hard => b.(hard := Bump(b.hard, isCorrect))
  }

  /** The statistics loop of `generateColiseumReport` over the first questions. */
  datatype Tally = Tally(correctAnswers: nat, bySubject: seq<(string, Bucket)>, byDifficulty: DifficultyBuckets)

  function TallyOf(questions: seq<ColiseumQuestion>, answers: map<string, Answer>): (t: Tally)
    ensures GoodTally(t.bySubject)
  {
    if questions == [] then Tally(0, [], NoDifficultyCounts)
    else
      var n := |questions| - 1;
      var before := TallyOf(questions[..n], answers);
      var q := questions[n];
      var ok := AnsweredCorrectly(answers, q);
      CountedGood(before.bySubject, q.subjectName, ok);
      Tally(before.correctAnswers + (if ok then 1 else 0),
            Counted(before.bySubject, q.subjectName, ok),
            CountedDifficulty(before.byDifficulty, q.difficulty, ok))
  }

  /**
   * The tally's counts add up: the subject totals and the difficulty totals are both the number
   * of questions, the difficulty corrects add up to the correct count, no bucket has more
   * correct answers than questions, and every question's subject has an entry.
   */
  lemma TallyAddsUp(questions: seq<ColiseumQuestion>, answers: map<string, Answer>)
    ensures var t := TallyOf(questions, answers);
      && SumTotals(t.bySubject) == |questions|
      && t.correctAnswers <= |questions|
      && t.byDifficulty.easy.total + t.byDifficulty.medium.total + t.byDifficulty.hard.total == |questions|
      && t.byDifficulty.easy.correct + t.byDifficulty.medium.correct + t.byDifficulty.hard.correct == t.correctAnswers
      && WellCounted(t.byDifficulty.easy) && WellCounted(t.byDifficulty.medium) && WellCounted(t.byDifficulty.hard)
  {
    SubjectTotalsAddUp(questions, answers);
    DifficultyTotalsAddUp(questions, answers);
  }

  lemma {:induction false} SubjectTotalsAddUp(questions: seq<ColiseumQuestion>, answers: map<string, Answer>)
    ensures SumTotals(TallyOf(questions, answers).bySubject) == |questions|
  {
    if questions != [] {
      var n := |questions| - 1;
      SubjectTotalsAddUp(questions[..n], answers);
      var before := TallyOf(questions[..n], answers);
      var q := questions[n];
      var ok := AnsweredCorrectly(answers, q);
      assert TallyOf(questions, answers).bySubject == Counted(before.bySubject, q.subjectName, ok);
      CountedSum(before.bySubject, q.subjectName, ok);
    }
  }

  /** The three difficulty buckets of a tally, together. */
  function DifficultyTotal(b: DifficultyBuckets): nat
  {
    b.easy.total + b.medium.total + b.hard.total
  }

  function DifficultyCorrect(b: DifficultyBuckets): nat
  {
    b.easy.correct + b.medium.correct + b.hard.correct
  }

  predicate DifficultiesWellCounted(b: DifficultyBuckets)
  {
    WellCounted(b.easy) && WellCounted(b.medium) && WellCounted(b.hard)
  }

  lemma {:induction false} DifficultyTotalsAddUp(questions: seq<ColiseumQuestion>, answers: map<string, Answer>)
    ensures var t := TallyOf(questions, answers);
      && t.correctAnswers <= |questions|
      && DifficultyTotal(t.byDifficulty) == |questions|
      && DifficultyCorrect(t.byDifficulty) == t.correctAnswers
      && DifficultiesWellCounted(t.byDifficulty)
  {
    if questions != [] {
      var n := |questions| - 1;
      DifficultyTotalsAddUp(questions[..n], answers);
      var before := TallyOf(questions[..n], answers);
      var q := questions[n];
      var ok := AnsweredCorrectly(answers, q);
      var t := TallyOf(questions, answers);
      assert t.correctAnswers == before.correctAnswers + (if ok then 1 else 0);
      assert t.byDifficulty == CountedDifficulty(before.byDifficulty, q.difficulty, ok);
    }
  }

  /** Every question's subject has an entry in the subject tally, and no other subject does. */
  lemma {:induction false} TallyNamesSubjects(questions: seq<ColiseumQuestion>, answers: map<string, Answer>)
    ensures forall s :: s in Subjects(TallyOf(questions, answers).bySubject) <==>
      exists i :: 0 <= i < |questions| && questions[i].subjectName == s
  {
    if questions != [] {
      var n := |questions| - 1;
      TallyNamesSubjects(questions[..n], answers);
      var before := TallyOf(questions[..n], answers);
      var q := questions[n];
      var ok := AnsweredCorrectly(answers, q);
      var names := Subjects(TallyOf(questions, answers).bySubject);
      assert TallyOf(questions, answers).bySubject == Counted(before.bySubject, q.subjectName, ok);
      CountedNames(before.bySubject, q.subjectName, ok);
      assert forall s :: s in names <==> s in Subjects(before.bySubject) || s == q.subjectName;
      forall s | s in names
        ensures exists i :: 0 <= i < |questions| && questions[i].subjectName == s
      {
        if s != q.subjectName {
          var i :| 0 <= i < n && questions[..n][i].subjectName == s;
          assert questions[i].subjectName == s;
        }
      }
      forall s | exists i :: 0 <= i < |questions| && questions[i].subjectName == s
        ensures s in names
      {
        var i :| 0 <= i < |questions| && questions[i].subjectName == s;
        if i < n {
          assert questions[..n][i].subjectName == s;
        }
      }
    }
  }

  /**
   * `(correct / total) * 100`, kept as the exact ratio (a ratio over 0 is JavaScript's `NaN` or
   * `Infinity`), or the initial 0 of an untouched bucket.
   */
  datatype Accuracy = Zero | Ratio(correct: nat, total: nat)

  datatype Performance = Performance(correct: nat, total: nat, accuracy: Accuracy)

  /** Subject accuracies: every subject bucket counted a question, so none divides by zero. */
  function SubjectPerformance(tally: seq<(string, Bucket)>): (r: seq<(string, Performance)>)
    requires GoodTally(tally)
    ensures |r| == |tally|
    ensures forall i :: 0 <= i < |r| ==> r[i] == (tally[i].0, Performance(tally[i].1.correct, tally[i].1.total,
                                                                        Ratio(tally[i].1.correct, tally[i].1.total)))
  {
    seq(|tally|, i requires 0 <= i < |tally| =>
      (tally[i].0, Performance(tally[i].1.correct, tally[i].1.total, Ratio(tally[i].1.correct, tally[i].1.total))))
  }

  /** A difficulty bucket keeps accuracy 0 when no question had that difficulty. */
  function DifficultyPerformance(b: Bucket): (p: Performance)
    ensures p.total == 0 <==> p.accuracy == Zero
  {
    Performance(b.correct, b.total, if b.total > 0 then Ratio(b.correct, b.total) else Zero)
  }

  datatype ColiseumReport = ColiseumReport(
    sessionId: string,
    mode: Mode,
    totalQuestions: nat,
    correctAnswers: nat,
    accuracyRate: Accuracy,
    totalTime: int,
    xpEarned: nat,
    performanceBySubject: seq<(string, Performance)>,
    easy: Performance,
    medium: Performance,
    hard: Performance,
    classification: string)

  /** The report of a session whose statistics loop produced `t`, finished at `now` (milliseconds). */
  function ReportOf(session: ColiseumSession, t: Tally, now: int): (r: ColiseumReport)
    requires GoodTally(t.bySubject)
    ensures r.sessionId == session.id && r.mode == session.mode
    ensures r.totalQuestions == |session.questions| && r.correctAnswers == t.correctAnswers
    ensures |r.performanceBySubject| == |t.bySubject|
    ensures r.xpEarned >= XpRewards(session.mode).base
    ensures 0 < |session.questions| <= t.correctAnswers ==> r.classification == "Imperador do Coliseu"
  {
    var total := |session.questions|;
    var totalTime := (now - session.startTime) / 1000;
    ColiseumReport(session.id, session.mode, total, t.correctAnswers, Ratio(t.correctAnswers, total), totalTime,
                   CalculateColiseumXp(session.mode, t.correctAnswers, total, totalTime),
                   SubjectPerformance(t.bySubject), DifficultyPerformance(t.byDifficulty.easy),
                   DifficultyPerformance(t.byDifficulty.medium), DifficultyPerformance(t.byDifficulty.hard),
                   Classification(t.correctAnswers, total))
  }

  /**
   * `generateColiseumReport(session)`: one pass over the questions counts correct answers per
   * subject and per difficulty; `now` is the clock reading that dates the end of the battle.
   */
  method GenerateColiseumReport(session: ColiseumSession, now: int) returns (report: ColiseumReport)
    ensures report == ReportOf(session, TallyOf(session.questions, session.answers), now)
  {
    var tally := CountAnswers(session.questions, session.answers);
    report := ReportOf(session, tally, now);
  }

  /** The `forEach` of `generateColiseumReport` over the questions, in order. */
  method CountAnswers(questions: seq<ColiseumQuestion>, answers: map<string, Answer>) returns (tally: Tally)
    ensures tally == TallyOf(questions, answers)
  {
    var correctAnswers := 0;
    var bySubject: seq<(string, Bucket)> := [];
    var byDifficulty := NoDifficultyCounts;
    var i := 0;
    while i < |questions|
      invariant 0 <= i <= |questions|
      invariant correctAnswers == TallyOf(questions[..i], answers).correctAnswers
      invariant bySubject == TallyOf(questions[..i], answers).bySubject
      invariant byDifficulty == TallyOf(questions[..i], answers).byDifficulty
    {
      TallyStep(questions, i, answers);
      var q := questions[i];
      var isCorrect := AnsweredCorrectly(answers, q);
      if isCorrect {
        correctAnswers := correctAnswers + 1;
      }
      bySubject := Counted(bySubject, q.subjectName, isCorrect);
      byDifficulty := CountedDifficulty(byDifficulty, q.difficulty, isCorrect);
      i := i + 1;
    }
    assert questions[..i] == questions;
    tally := Tally(correctAnswers, bySubject, byDifficulty);
  }

  /** One more question of the statistics loop. */
  lemma TallyStep(questions: seq<ColiseumQuestion>, i: nat, answers: map<string, Answer>)
    requires i < |questions|
    ensures var before := TallyOf(questions[..i], answers);
      var ok := AnsweredCorrectly(answers, questions[i]);
      TallyOf(questions[..i + 1], answers) ==
        Tally(before.correctAnswers + (if ok then 1 else 0),
              Counted(before.bySubject, questions[i].subjectName, ok),
              CountedDifficulty(before.byDifficulty, questions[i].difficulty, ok))
  {
    assert questions[..i + 1][..i] == questions[..i];
  }

  /**
   * The report's counts are consistent: the subject totals and the difficulty totals both add
   * up to the number of questions, no bucket has more correct answers than questions, and the
   * XP and classification are those of the correct count.
   */
  lemma {:induction false} ReportIsConsistent(session: ColiseumSession, now: int)
    ensures var t := TallyOf(session.questions, session.answers);
      var r := ReportOf(session, t, now);
      && r.correctAnswers <= r.totalQuestions == |session.questions|
      && SumTotals(t.bySubject) == r.totalQuestions
      && r.easy.total + r.medium.total + r.hard.total == r.totalQuestions
      && r.easy.correct + r.medium.correct + r.hard.correct == r.correctAnswers
      && (forall i :: 0 <= i < |r.performanceBySubject| ==>
            r.performanceBySubject[i].1.correct <= r.performanceBySubject[i].1.total
            && r.performanceBySubject[i].1.total > 0)
      && (r.totalQuestions > 0 && r.correctAnswers == r.totalQuestions ==> r.classification == "Imperador do Coliseu")
  {
    var t := TallyOf(session.questions, session.answers);
    var r := ReportOf(session, t, now);
    TallyAddsUp(session.questions, session.answers);
    forall i | 0 <= i < |r.performanceBySubject|
      ensures r.performanceBySubject[i].1.correct <= r.performanceBySubject[i].1.total
      ensures r.performanceBySubject[i].1.total > 0
    {
      assert WellCounted(t.bySubject[i].1) && t.bySubject[i].1.total > 0;
    }
    if r.totalQuestions > 0 && r.correctAnswers == r.totalQuestions {
      PerfectIsEmperor(r.totalQuestions);
    }
  }

  /** A question counts as correct exactly when the answer recorded for its id says so. */
  lemma {:induction false} UnansweredCountsWrong(questions: seq<ColiseumQuestion>, answers: map<string, Answer>)
    requires forall i :: 0 <= i < |questions| ==> questions[i].id !in answers
    ensures TallyOf(questions, answers).correctAnswers == 0
  {
    if questions != [] {
      var n := |questions| - 1;
      assert forall i :: 0 <= i < n ==> questions[..n][i] == questions[i];
      UnansweredCountsWrong(questions[..n], answers);
    }
  }

  /** The outcome of `validateColiseumConfig`. */
  datatype Validation = Valid | Invalid(error: string)

  const NoRedEnemies := "Nenhum inimigo disponível na Sala Vermelha"
  const TooFewQuestions := "Mínimo de 10 questões necessário"
  const TotalWarNeeds25 := "Guerra Total requer mínimo de 25 inimigos disponíveis"

  function OnlyAvailable(available: nat): string
  {
    "Apenas " + NatToString(available) + " questões disponíveis"
  }

  /** `validateColiseumConfig(config, availableQuestionsCount)`. */
  function ValidateColiseumConfig(config: ColiseumConfig, available: nat): (v: Validation)
    ensures config.mode == RescueOperation ==> (v.Valid? <==> available > 0)
    ensures config.mode != RescueOperation ==>
      (v.Valid? <==> 10 <= config.questionsCount <= available && !(config.mode == TotalWar && available < 25))
    ensures config.mode != RescueOperation && config.questionsCount < 10 ==> v == Invalid(TooFewQuestions)
    ensures config.mode != RescueOperation && 10 <= config.questionsCount && config.questionsCount > available
      ==> v == Invalid(OnlyAvailable(available))
  {
    if config.mode == RescueOperation then
      if available == 0 then Invalid(NoRedEnemies) else Valid
    else if config.questionsCount < 10 then Invalid(TooFewQuestions)
    else if config.questionsCount > available then Invalid(OnlyAvailable(available))
    else if config.mode == TotalWar && available < 25 then Invalid(TotalWarNeeds25)
    else Valid
  }

  /** A valid battle never asks for more questions than are available, nor a rescue with none. */
  lemma ValidConfigFits(config: ColiseumConfig, available: nat)
    requires ValidateColiseumConfig(config, available).Valid?
    ensures config.mode != RescueOperation ==> 10 <= config.questionsCount <= available
    ensures config.mode == TotalWar ==> available >= 25
    ensures available > 0
  {
  }
}
