/**
 * The simulated exam page (src/pages/SimulatedExam.tsx): setup → active → results, one answer
 * per question in order, and a countdown when a time limit is set. The question reads
 * (`getQuestionsByTopic`, `getQuestionsByRoom`), the shuffle and the clock are parameters.
 */
module SimulatedExam {
  import opened Wrappers
  import opened JsText
  import opened JsArray
  import QuestionStore

  /** A question as the exam shows it; a difficulty outside easy/medium/hard is `None`. */
  datatype ExamQuestion = ExamQuestion(
    id: string,
    topicId: string,
    correctAnswer: string,
    difficulty: Option<QuestionStore.Difficulty>,
    room: QuestionStore.Room)

  datatype ExamAnswer = ExamAnswer(questionId: string, selectedAnswer: string, isCorrect: bool, timeTaken: int)

  datatype ExamType = TopicExam | RoomExam | MixedExam

  datatype ExamConfig = ExamConfig(
    examType: ExamType,
    topicIds: Option<seq<string>>,
    room: Option<QuestionStore.Room>,
    questionCount: int,
    timeLimit: Option<int>,
    shuffleQuestions: bool,
    shuffleOptions: bool)

  datatype Phase = Setup | Active | Results

  datatype ExamState = ExamState(
    examState: Phase,
    examConfig: Option<ExamConfig>,
    questions: seq<ExamQuestion>,
    currentQuestionIndex: int,
    answers: seq<ExamAnswer>,
    startTime: int,
    questionStartTime: int,
    timeRemaining: int)

  const InitialState := ExamState(Setup, None, [], 0, [], 0, 0, 0)

  /** `topicIds.flatMap(getQuestionsByTopic)`. */
  function QuestionsOfTopics(topicIds: seq<string>, byTopic: string -> seq<ExamQuestion>): (r: seq<ExamQuestion>)
    ensures forall q :: q in r <==> exists t :: t in topicIds && q in byTopic(t)
  {
    if topicIds == [] then []
    else
      var rest := QuestionsOfTopics(topicIds[1..], byTopic);
      assert forall t :: t in topicIds <==> t == topicIds[0] || t in topicIds[1..];
      byTopic(topicIds[0]) + rest
  }

  /** The questions `startExam` loads before shuffling: none for a mixed exam or a missing selection. */
  function LoadedQuestions(config: ExamConfig, byTopic: string -> seq<ExamQuestion>,
                           byRoom: QuestionStore.Room -> seq<ExamQuestion>): (qs: seq<ExamQuestion>)
    ensures config.examType == MixedExam ==> qs == []
    ensures config.examType == TopicExam && config.topicIds.Some? ==>
      forall q :: q in qs <==> exists t :: t in config.topicIds.value && q in byTopic(t)
    ensures config.examType == RoomExam && config.room.Some? ==> qs == byRoom(config.room.value)
  {
    if config.examType == TopicExam && config.topicIds.Some? then QuestionsOfTopics(config.topicIds.value, byTopic)
    else if config.examType == RoomExam && config.room.Some? then byRoom(config.room.value)
    else []
  }

  /** `config.timeLimit` is truthy. */
  predicate HasTimeLimit(config: ExamConfig)
  {
    config.timeLimit.Some? && config.timeLimit.value != 0
  }

  /** `startExam(config)` at clock reading `now`; `shuffle` stands for the random reorder. */
  function AfterStart(s: ExamState, config: ExamConfig, byTopic: string -> seq<ExamQuestion>,
                      byRoom: QuestionStore.Room -> seq<ExamQuestion>,
                      shuffle: seq<ExamQuestion> -> seq<ExamQuestion>, now: int): (r: ExamState)
    ensures r.examState == Active && r.examConfig == Some(config)
    ensures r.answers == [] && r.currentQuestionIndex == 0 && r.startTime == now && r.questionStartTime == now
    ensures config.questionCount >= 0 ==> |r.questions| <= config.questionCount
    ensures HasTimeLimit(config) ==> r.timeRemaining == 60 * config.timeLimit.value
    ensures !HasTimeLimit(config) ==> r.timeRemaining == s.timeRemaining
  {
    var loaded := LoadedQuestions(config, byTopic, byRoom);
    var ordered := if config.shuffleQuestions then shuffle(loaded) else loaded;
    ExamState(Active, Some(config), Slice(ordered, config.questionCount), 0, [], now, now,
              if HasTimeLimit(config) then config.timeLimit.value * 60 else s.timeRemaining)
  }

  /**
   * A started exam is active with no answers at its first question, holds at most
   * `questionCount` of the loaded questions (all drawn from them), and a time limit of `t`
   * minutes gives `60 * t` seconds.
   */
  lemma StartShape(s: ExamState, config: ExamConfig, byTopic: string -> seq<ExamQuestion>,
                   byRoom: QuestionStore.Room -> seq<ExamQuestion>,
                   shuffle: seq<ExamQuestion> -> seq<ExamQuestion>, now: int)
    requires forall xs :: multiset(shuffle(xs)) == multiset(xs)
    ensures var r := AfterStart(s, config, byTopic, byRoom, shuffle, now);
      && r.examState == Active && r.answers == [] && r.currentQuestionIndex == 0
      && (config.questionCount >= 0 ==> |r.questions| <= config.questionCount)
      && (forall q :: q in r.questions ==> q in LoadedQuestions(config, byTopic, byRoom))
      && (config.examType == MixedExam ==> r.questions == [])
      && (HasTimeLimit(config) ==> r.timeRemaining == 60 * config.timeLimit.value)
  {
    var loaded := LoadedQuestions(config, byTopic, byRoom);
    var ordered := if config.shuffleQuestions then shuffle(loaded) else loaded;
    var r := AfterStart(s, config, byTopic, byRoom, shuffle, now);
    forall q | q in r.questions
      ensures q in loaded
    {
      assert q in ordered;
      assert q in multiset(ordered);
    }
  }

  /** `submitAnswer(selected)` at `now`; with no current question the call throws and nothing changes. */
  function AfterSubmit(s: ExamState, selected: string, now: int): (r: ExamState)
    ensures !(0 <= s.currentQuestionIndex < |s.questions|) ==> r == s
    ensures 0 <= s.currentQuestionIndex < |s.questions| ==>
      var q := s.questions[s.currentQuestionIndex];
      && r.questions == s.questions && r.examConfig == s.examConfig
      && |r.answers| == |s.answers| + 1 && r.answers[..|s.answers|] == s.answers
      && r.answers[|s.answers|].questionId == q.id && r.answers[|s.answers|].selectedAnswer == selected
      && (r.answers[|s.answers|].isCorrect <==> selected == q.correctAnswer)
      && r.answers[|s.answers|].timeTaken == now - s.questionStartTime
      && (s.currentQuestionIndex == |s.questions| - 1 ==> r.examState == Results)
      && (s.currentQuestionIndex < |s.questions| - 1 ==>
            r.examState == s.examState && r.currentQuestionIndex == s.currentQuestionIndex + 1)
  {
    if !(0 <= s.currentQuestionIndex < |s.questions|) then s
    else
      var q := s.questions[s.currentQuestionIndex];
      var answers := s.answers + [ExamAnswer(q.id, selected, selected == q.correctAnswer, now - s.questionStartTime)];
      if s.currentQuestionIndex < |s.questions| - 1 then
        s.(answers := answers, currentQuestionIndex := s.currentQuestionIndex + 1, questionStartTime := now)
      else s.(answers := answers, examState := Results)
  }

  /** `resetExam()`. */
  function AfterReset(s: ExamState): (r: ExamState)
    ensures r.examState == Setup && r.examConfig.None?
    ensures r.questions == [] && r.answers == [] && r.currentQuestionIndex == 0 && r.timeRemaining == 0
    ensures !TimerRuns(r)
  {
    s.(examState := Setup, examConfig := None, questions := [], currentQuestionIndex := 0, answers := [], timeRemaining := 0)
  }

  /** One second of the exam timer: at 1 or below the exam finishes showing 0. */
  datatype ExamTick = ExamTick(remaining: int, finishes: bool)

  function CountdownTick(prev: int): (t: ExamTick)
    ensures t.finishes <==> prev <= 1
    ensures t.remaining >= 0
  {
    if prev <= 1 then ExamTick(0, true) else ExamTick(prev - 1, false)
  }

  /** The timer runs only while the exam is active and its configuration has a limit. */
  predicate TimerRuns(s: ExamState)
  {
    s.examState == Active && s.examConfig.Some? && HasTimeLimit(s.examConfig.value)
  }

  function AfterTick(s: ExamState): (r: ExamState)
    ensures !TimerRuns(s) ==> r == s
    ensures r.questions == s.questions && r.answers == s.answers && r.examConfig == s.examConfig
    ensures r.currentQuestionIndex == s.currentQuestionIndex
    ensures TimerRuns(s) ==>
      && r.timeRemaining >= 0
      && (r.examState == Results <==> s.timeRemaining <= 1)
      && (s.timeRemaining > 1 ==> r.timeRemaining == s.timeRemaining - 1 && r.examState == Active)
  {
    if !TimerRuns(s) then s
    else
      var t := CountdownTick(s.timeRemaining);
      s.(timeRemaining := t.remaining, examState := if t.finishes then Results else s.examState)
  }

  /** `n` ticks of a running timer. */
  function Ticks(s: ExamState, n: nat): ExamState
  {
    if n == 0 then s else AfterTick(Ticks(s, n - 1))
  }

  /**
   * A running timer with `m >= 1` seconds left counts down one per tick and ends the exam on
   * tick `m`, not before (the coliseum's timer waits one tick more).
   */
  lemma {:induction false} TimerEndsOnTime(s: ExamState, m: nat, k: nat)
    requires TimerRuns(s) && s.timeRemaining == m && 1 <= m && k <= m
    ensures k < m ==> Ticks(s, k) == s.(timeRemaining := m - k)
    ensures k == m ==> Ticks(s, k) == s.(timeRemaining := 0, examState := Results)
  {
    if k > 0 {
      TimerEndsOnTime(s, m, k - 1);
    }
  }

  /**
   * The exam's bookkeeping: answers pair with questions by index, each marked correct exactly
   * when it equals that question's answer; while active, the current index is the number of
   * answers and points at a question (when there is one); in setup there are no questions.
   */
  predicate Consistent(s: ExamState)
  {
    && |s.answers| <= |s.questions|
    && (forall i :: 0 <= i < |s.answers| ==>
          s.answers[i].questionId == s.questions[i].id
          && (s.answers[i].isCorrect <==> s.answers[i].selectedAnswer == s.questions[i].correctAnswer))
    && (s.examState == Active ==> s.currentQuestionIndex == |s.answers| && (|s.questions| == 0 || |s.answers| < |s.questions|))
    && (s.examState == Setup ==> s.answers == [] && s.questions == [])
  }

  lemma InitialIsConsistent()
    ensures Consistent(InitialState)
  {
  }

  /**
   * Every operation keeps the bookkeeping (a submission as offered by the setup and active
   * views); a submission adds exactly one answer when it does anything.
   */
  lemma OperationsKeepConsistent(s: ExamState, config: ExamConfig, byTopic: string -> seq<ExamQuestion>,
                                 byRoom: QuestionStore.Room -> seq<ExamQuestion>,
                                 shuffle: seq<ExamQuestion> -> seq<ExamQuestion>, selected: string, now: int)
    requires Consistent(s)
    ensures Consistent(AfterStart(s, config, byTopic, byRoom, shuffle, now))
    ensures s.examState != Results ==> Consistent(AfterSubmit(s, selected, now))
    ensures Consistent(AfterReset(s))
    ensures Consistent(AfterTick(s))
    ensures s.examState == Active && |s.questions| > 0 ==>
      |AfterSubmit(s, selected, now).answers| == |s.answers| + 1
  {
  }

  /** Submitting at the last question ends the exam with every question answered. */
  lemma LastSubmissionFinishes(s: ExamState, selected: string, now: int)
    requires Consistent(s) && s.examState == Active && |s.questions| > 0
    requires s.currentQuestionIndex == |s.questions| - 1
    ensures AfterSubmit(s, selected, now).examState == Results
    ensures |AfterSubmit(s, selected, now).answers| == |s.questions|
  {
  }

  /** `formatTime(seconds)`: minutes and seconds, each padded to two digits. */
  function FormatTime(seconds: nat): (r: string)
    ensures |r| >= 5 && r[|r| - 3] == ':' && r[|r| - 2..] == TwoDigits(seconds % 60)
  {
    PadTwo(NatToString(seconds / 60)) + ":" + TwoDigits(seconds % 60)
  }

  /** Different times never display alike. */
  lemma FormatTimeInjective(a: nat, b: nat)
    requires FormatTime(a) == FormatTime(b)
    ensures a == b
  {
    PaddedReadsBack(a / 60);
    PaddedReadsBack(b / 60);
    DigitsSplitUnique(PadTwo(NatToString(a / 60)), TwoDigits(a % 60), PadTwo(NatToString(b / 60)), TwoDigits(b % 60), ":");
    TwoDigitsInjective(a % 60, b % 60);
  }

  class SimulatedExamPage {
    var examState: Phase
    var examConfig: Option<ExamConfig>
    var questions: seq<ExamQuestion>
    var currentQuestionIndex: int
    var answers: seq<ExamAnswer>
    var startTime: int
    var questionStartTime: int
    var timeRemaining: int

    function State(): ExamState
      reads this
    {
      ExamState(examState, examConfig, questions, currentQuestionIndex, answers, startTime, questionStartTime, timeRemaining)
    }

    constructor ()
      ensures State() == InitialState
    {
      examState, examConfig, questions, currentQuestionIndex := Setup, None, [], 0;
      answers, startTime, questionStartTime, timeRemaining := [], 0, 0, 0;
    }

    method StartExam(config: ExamConfig, byTopic: string -> seq<ExamQuestion>,
                     byRoom: QuestionStore.Room -> seq<ExamQuestion>,
                     shuffle: seq<ExamQuestion> -> seq<ExamQuestion>, now: int)
      modifies this
      ensures State() == AfterStart(old(State()), config, byTopic, byRoom, shuffle, now)
    {
      var all := LoadedQuestions(config, byTopic, byRoom);
      if config.shuffleQuestions {
        all := shuffle(all);
      }
      all := Slice(all, config.questionCount);
      examConfig := Some(config);
      questions := all;
      currentQuestionIndex := 0;
      answers := [];
      startTime := now;
      questionStartTime := now;
      if HasTimeLimit(config) {
        timeRemaining := config.timeLimit.value * 60;
      }
      examState := Active;
    }

    /** Returns false when there is no current question (the source throws there). */
    method SubmitAnswer(selected: string, now: int) returns (ok: bool)
      modifies this
      ensures State() == AfterSubmit(old(State()), selected, now)
      ensures ok <==> 0 <= old(currentQuestionIndex) < |old(questions)|
    {
      if !(0 <= currentQuestionIndex < |questions|) {
        return false;
      }
      var q := questions[currentQuestionIndex];
      answers := answers + [ExamAnswer(q.id, selected, selected == q.correctAnswer, now - questionStartTime)];
      if currentQuestionIndex < |questions| - 1 {
        currentQuestionIndex := currentQuestionIndex + 1;
        questionStartTime := now;
      } else {
        examState := Results;
      }
      ok := true;
    }

    method ResetExam()
      modifies this
      ensures State() == AfterReset(old(State()))
    {
      examState, examConfig, questions, currentQuestionIndex := Setup, None, [], 0;
      answers, timeRemaining := [], 0;
    }

    method TimerTick()
      modifies this
      ensures State() == AfterTick(old(State()))
    {
      if TimerRuns(State()) {
        var t := CountdownTick(timeRemaining);
        timeRemaining := t.remaining;
        if t.finishes {
          examState := Results;
        }
      }
    }
  }
}
