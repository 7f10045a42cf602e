/**
 * The results screen of a simulated exam (src/components/exam/ExamResults.tsx): the score,
 * the performance level, the elapsed time and the per-difficulty statistics, pairing the i-th
 * answer with the i-th question.
 */
module ExamResults {
  import opened Wrappers
  import opened JsText
  import opened ColiseumTypes
  import opened SimulatedExam
  import QuestionStore

  /** `answers.filter(a => a.isCorrect).length`. */
  function CorrectAnswers(answers: seq<ExamAnswer>): (n: nat)
    ensures n <= |answers|
  {
    if answers == [] then 0
    else CorrectAnswers(answers[..|answers| - 1]) + (if answers[|answers| - 1].isCorrect then 1 else 0)
  }

  /** The incorrect count shown next to the correct one. */
  function IncorrectAnswers(questions: seq<ExamQuestion>, answers: seq<ExamAnswer>): int
  {
    |questions| - CorrectAnswers(answers)
  }

  /** In a finished exam the correct and incorrect counts split the questions. */
  lemma CountsSplitTheExam(s: ExamState)
    requires Consistent(s)
    ensures 0 <= IncorrectAnswers(s.questions, s.answers)
    ensures CorrectAnswers(s.answers) + IncorrectAnswers(s.questions, s.answers) == |s.questions|
  {
  }

  datatype PerformanceLevel = Excelente | Bom | Regular | PrecisaMelhorar

  /** `getPerformanceLevel((correct / total) * 100)`. */
  function GetPerformanceLevel(correct: nat, total: nat): (l: PerformanceLevel)
    ensures 0 < total <= correct ==> l == Excelente
    ensures correct == 0 ==> l == PrecisaMelhorar
    ensures total > 0 ==> (l == Excelente <==> 100 * correct >= 80 * total)
    ensures total > 0 ==> (l == PrecisaMelhorar <==> 100 * correct < 40 * total)
  {
    if AccuracyAtLeast(correct, total, 80) then Excelente
    else if AccuracyAtLeast(correct, total, 60) then Bom
    else if AccuracyAtLeast(correct, total, 40) then Regular
    else PrecisaMelhorar
  }

  function LevelRank(l: PerformanceLevel): nat
  {
    match l
    case PrecisaMelhorar => 0
    case Regular => 1
    case Bom => 2
    case Excelente => 3
  }

  /**
   * The level is a step function of the accuracy at 80/60/40%: a higher accuracy never gets
   * a lower level, a perfect score is excellent and no correct answer needs improvement.
   */
  lemma PerformanceLevelMonotone(c1: nat, t1: nat, c2: nat, t2: nat)
    requires NoBetter(c1, t1, c2, t2)
    ensures LevelRank(GetPerformanceLevel(c1, t1)) <= LevelRank(GetPerformanceLevel(c2, t2))
    ensures GetPerformanceLevel(t2, t2) == Excelente
    ensures GetPerformanceLevel(0, t2) == PrecisaMelhorar
  {
    if AccuracyAtLeast(c1, t1, 80) {
      AtLeastMonotone(c1, t1, c2, t2, 80);
    }
    if AccuracyAtLeast(c1, t1, 60) {
      AtLeastMonotone(c1, t1, c2, t2, 60);
    }
    if AccuracyAtLeast(c1, t1, 40) {
      AtLeastMonotone(c1, t1, c2, t2, 40);
    }
  }

  /** `formatTime(ms)`: whole minutes, then the seconds padded to two digits. */
  function FormatTime(ms: nat): (r: string)
    ensures |r| >= 4 && r[|r| - 3] == ':' && r[|r| - 2..] == TwoDigits(ms / 1000 % 60)
  {
    var totalSeconds := ms / 1000;
    NatToString(totalSeconds / 60) + ":" + TwoDigits(totalSeconds % 60)
  }

  /** Two durations display alike exactly when they hold the same whole number of seconds. */
  lemma FormatTimeShowsWholeSeconds(a: nat, b: nat)
    ensures FormatTime(a) == FormatTime(b) <==> a / 1000 == b / 1000
  {
    if FormatTime(a) == FormatTime(b) {
      ClockFieldsUnique(a / 1000 / 60, a / 1000 % 60, b / 1000 / 60, b / 1000 % 60);
    }
  }

  datatype Bucket = Bucket(correct: nat, total: nat)

  datatype DifficultyStats = DifficultyStats(easy: Bucket, medium: Bucket, hard: Bucket)

  const NoStats := DifficultyStats(Bucket(0, 0), Bucket(0, 0), Bucket(0, 0))

  /** Whether `answers[index]?.isCorrect`. */
  predicate AnsweredCorrectly(answers: seq<ExamAnswer>, index: nat)
  {
    index < |answers| && answers[index].isCorrect
  }

  function Counted(b: Bucket, isCorrect: bool): Bucket
  {
    Bucket(b.correct + (if isCorrect then 1 else 0), b.total + 1)
  }

  /** One question of `getDifficultyStats`: a difficulty outside the three is skipped. */
  function StatsStep(stats: DifficultyStats, d: Option<QuestionStore.Difficulty>, isCorrect: bool): DifficultyStats
  {
    match d
    case None => stats
    case Some(Easy) => stats.(easy := Counted(stats.easy, isCorrect))
    case Some(Medium) => stats.(medium := Counted(stats.medium, isCorrect))
    case Some(Hard) => stats.(hard := Counted(stats.hard, isCorrect))
  }

  /** The statistics of the first `|questions|` questions. */
  function StatsOf(questions: seq<ExamQuestion>, answers: seq<ExamAnswer>): DifficultyStats
  {
    if questions == [] then NoStats
    else
      var n := |questions| - 1;
      StatsStep(StatsOf(questions[..n], answers), questions[n].difficulty, AnsweredCorrectly(answers, n))
  }

  function KnownDifficulty(questions: seq<ExamQuestion>): nat
  {
    if questions == [] then 0
    else KnownDifficulty(questions[..|questions| - 1]) + (if questions[|questions| - 1].difficulty.Some? then 1 else 0)
  }

  function CorrectSum(s: DifficultyStats): nat
  {
    s.easy.correct + s.medium.correct + s.hard.correct
  }

  /**
   * Each bucket has no more correct answers than questions, and the totals count exactly the
   * questions with a known difficulty.
   */
  lemma {:induction false} StatsAddUp(questions: seq<ExamQuestion>, answers: seq<ExamAnswer>)
    ensures var s := StatsOf(questions, answers);
      && s.easy.correct <= s.easy.total && s.medium.correct <= s.medium.total && s.hard.correct <= s.hard.total
      && s.easy.total + s.medium.total + s.hard.total == KnownDifficulty(questions)
  {
    if questions != [] {
      StatsAddUp(questions[..|questions| - 1], answers);
    }
  }

  /**
   * The correct answers the statistics count are among the correct answers given to the
   * questions they cover: the i-th answer only ever scores for the i-th question.
   */
  lemma {:induction false} StatsCountGivenAnswers(questions: seq<ExamQuestion>, answers: seq<ExamAnswer>)
    ensures CorrectSum(StatsOf(questions, answers)) <=
      CorrectAnswers(answers[..if |questions| < |answers| then |questions| else |answers|])
  {
    if questions != [] {
      var n := |questions| - 1;
      StatsCountGivenAnswers(questions[..n], answers);
      if n < |answers| {
        assert answers[..n + 1][..n] == answers[..n];
      }
    }
  }

  /** With at most one answer per question, the statistics never count more than the score. */
  lemma StatsWithinScore(s: ExamState)
    requires Consistent(s)
    ensures CorrectSum(StatsOf(s.questions, s.answers)) <= CorrectAnswers(s.answers)
  {
    StatsCountGivenAnswers(s.questions, s.answers);
    assert s.answers[..|s.answers|] == s.answers;
  }

  /** `getDifficultyStats()`: one pass over the questions. */
  method GetDifficultyStats(questions: seq<ExamQuestion>, answers: seq<ExamAnswer>) returns (stats: DifficultyStats)
    ensures stats == StatsOf(questions, answers)
  {
    stats := NoStats;
    var index := 0;
    while index < |questions|
      invariant 0 <= index <= |questions|
      invariant stats == StatsOf(questions[..index], answers)
    {
      assert questions[..index + 1][..index] == questions[..index];
      stats := StatsStep(stats, questions[index].difficulty, AnsweredCorrectly(answers, index));
      index := index + 1;
    }
    assert questions[..index] == questions;
  }
}
