/**
 * The exam set-up form (src/components/exam/ExamSetup.tsx): the topics or the room to draw
 * from, the number of questions, an optional time limit in minutes and the two shuffle
 * switches, and the `ExamConfig` it hands to the exam page. The question reads are the same
 * parameters the exam page takes; a number input's `parseInt` is `None` when it yields `NaN`.
 */
module ExamSetup {
  import opened Wrappers
  import opened JsArray
  import opened SimulatedExam
  import QuestionStore

  /** The form offers two of the three exam types. */
  datatype SetupKind = ByTopic | ByRoom

  function ExamTypeOf(k: SetupKind): ExamType
  {
    match k
    case ByTopic => TopicExam
    case ByRoom => RoomExam
  }

  datatype SetupForm = SetupForm(
    kind: SetupKind,
    selectedTopics: seq<string>,
    selectedRoom: QuestionStore.Room,
    questionCount: int,
    timeLimit: Option<int>,
    shuffleQuestions: bool,
    shuffleOptions: bool)

  /** The form as it first renders: by topic, nothing selected, ten questions, no time limit. */
  const InitialForm := SetupForm(ByTopic, [], QuestionStore.Triagem, 10, None, true, true)

  /** `handleTopicToggle(topicId)`. */
  function AfterTopicToggle(f: SetupForm, topicId: string): (r: SetupForm)
    ensures topicId in r.selectedTopics <==> topicId !in f.selectedTopics
    ensures forall t :: t != topicId ==> (t in r.selectedTopics <==> t in f.selectedTopics)
    ensures r == f.(selectedTopics := r.selectedTopics)
  {
    f.(selectedTopics := Toggled(f.selectedTopics, topicId))
  }

  /** The question-count input: `parseInt(value) || 0`. */
  function AfterCountInput(f: SetupForm, parsed: Option<int>): (r: SetupForm)
    ensures parsed.Some? && parsed.value != 0 ==> r.questionCount == parsed.value
    ensures parsed.None? || parsed.value == 0 ==> r.questionCount == 0
    ensures r == f.(questionCount := r.questionCount)
  {
    f.(questionCount := if parsed.Some? then parsed.value else 0)
  }

  /** The time-limit checkbox: checking it sets 30 minutes, clearing it removes the limit. */
  function AfterTimeLimitCheck(f: SetupForm, checked: bool): (r: SetupForm)
    ensures r.timeLimit.Some? <==> checked
    ensures r == f.(timeLimit := r.timeLimit)
  {
    f.(timeLimit := if checked then Some(30) else None)
  }

  /** The minutes input: `parseInt(value) || 30`. */
  function AfterTimeLimitInput(f: SetupForm, parsed: Option<int>): (r: SetupForm)
    ensures r.timeLimit.Some?
    ensures parsed.Some? && parsed.value != 0 ==> r.timeLimit == parsed
    ensures parsed.None? || parsed.value == 0 ==> r.timeLimit == Some(30)
    ensures r == f.(timeLimit := r.timeLimit)
  {
    f.(timeLimit := if parsed.Some? && parsed.value != 0 then parsed else Some(30))
  }

  /** `selectedTopics.reduce((total, id) => total + getQuestionsByTopic(id).length, 0)`. */
  function QuestionsInTopics(topicIds: seq<string>, byTopic: string -> seq<ExamQuestion>): nat
  {
    if topicIds == [] then 0
    else QuestionsInTopics(topicIds[..|topicIds| - 1], byTopic) + |byTopic(topicIds[|topicIds| - 1])|
  }

  /** `getAvailableQuestions()`. */
  function AvailableQuestions(f: SetupForm, byTopic: string -> seq<ExamQuestion>,
                              byRoom: QuestionStore.Room -> seq<ExamQuestion>): (n: nat)
    ensures n == |LoadedQuestions(BuildConfig(f), byTopic, byRoom)|
  {
    if f.kind == ByTopic then
      QuestionsInTopicsCountsGathered(f.selectedTopics, byTopic);
      QuestionsInTopics(f.selectedTopics, byTopic)
    else
      |byRoom(f.selectedRoom)|
  }

  /** `canStartExam()`: a topic exam also needs a topic. */
  predicate CanStartExam(f: SetupForm, byTopic: string -> seq<ExamQuestion>,
                         byRoom: QuestionStore.Room -> seq<ExamQuestion>)
    ensures CanStartExam(f, byTopic, byRoom) ==> 0 < f.questionCount <= |LoadedQuestions(BuildConfig(f), byTopic, byRoom)|
    ensures f.kind == ByTopic && f.selectedTopics == [] ==> !CanStartExam(f, byTopic, byRoom)
  {
    (f.kind == ByTopic ==> |f.selectedTopics| > 0)
    && 0 < f.questionCount <= AvailableQuestions(f, byTopic, byRoom)
  }

  /** `handleStartExam()`: the topics go only into a topic exam, the room only into a room exam. */
  function BuildConfig(f: SetupForm): (c: ExamConfig)
    ensures c.examType == ExamTypeOf(f.kind)
    ensures c.topicIds.Some? <==> f.kind == ByTopic
    ensures c.room.Some? <==> f.kind == ByRoom
    ensures c.topicIds.Some? ==> c.topicIds.value == f.selectedTopics
    ensures c.room.Some? ==> c.room.value == f.selectedRoom
    ensures c.questionCount == f.questionCount && c.timeLimit == f.timeLimit
    ensures c.shuffleQuestions == f.shuffleQuestions && c.shuffleOptions == f.shuffleOptions
  {
    ExamConfig(ExamTypeOf(f.kind),
               if f.kind == ByTopic then Some(f.selectedTopics) else None,
               if f.kind == ByRoom then Some(f.selectedRoom) else None,
               f.questionCount, f.timeLimit, f.shuffleQuestions, f.shuffleOptions)
  }

  /** The sum of the per-topic counts is the number of questions the exam page gathers. */
  lemma {:induction false} QuestionsInTopicsCountsGathered(topicIds: seq<string>, byTopic: string -> seq<ExamQuestion>)
    ensures QuestionsInTopics(topicIds, byTopic) == |QuestionsOfTopics(topicIds, byTopic)|
  {
    if topicIds != [] {
      var n := |topicIds| - 1;
      QuestionsInTopicsCountsGathered(topicIds[..n], byTopic);
      QuestionsOfTopicsSplit(topicIds[..n], topicIds[n], byTopic);
      assert topicIds[..n] + [topicIds[n]] == topicIds;
    }
  }

  lemma {:induction false} QuestionsOfTopicsSplit(topicIds: seq<string>, last: string, byTopic: string -> seq<ExamQuestion>)
    ensures QuestionsOfTopics(topicIds + [last], byTopic) == QuestionsOfTopics(topicIds, byTopic) + byTopic(last)
  {
    if topicIds == [] {
      assert [last][1..] == [];
    } else {
      assert (topicIds + [last])[1..] == topicIds[1..] + [last];
      QuestionsOfTopicsSplit(topicIds[1..], last, byTopic);
    }
  }

  /** The count the form shows as available is the number of questions the exam would load. */
  lemma AvailableIsLoaded(f: SetupForm, byTopic: string -> seq<ExamQuestion>,
                          byRoom: QuestionStore.Room -> seq<ExamQuestion>)
    ensures AvailableQuestions(f, byTopic, byRoom) == |LoadedQuestions(BuildConfig(f), byTopic, byRoom)|
  {
    if f.kind == ByTopic {
      QuestionsInTopicsCountsGathered(f.selectedTopics, byTopic);
    }
  }

  /**
   * A form that lets the exam start yields an exam with exactly the number of questions asked
   * for, all of them from the selection, timed exactly when the time-limit box is checked.
   */
  lemma StartedExamHasRequestedCount(f: SetupForm, s: ExamState, byTopic: string -> seq<ExamQuestion>,
                                     byRoom: QuestionStore.Room -> seq<ExamQuestion>,
                                     shuffle: seq<ExamQuestion> -> seq<ExamQuestion>, now: int)
    requires forall xs :: multiset(shuffle(xs)) == multiset(xs)
    requires CanStartExam(f, byTopic, byRoom)
    requires TimeLimitShown(f)
    ensures var r := AfterStart(s, BuildConfig(f), byTopic, byRoom, shuffle, now);
      && |r.questions| == f.questionCount
      && (forall q :: q in r.questions ==> q in LoadedQuestions(BuildConfig(f), byTopic, byRoom))
      && (HasTimeLimit(BuildConfig(f)) <==> f.timeLimit.Some?)
  {
    var loaded := LoadedQuestions(BuildConfig(f), byTopic, byRoom);
    AvailableIsLoaded(f, byTopic, byRoom);
    assert |multiset(shuffle(loaded))| == |multiset(loaded)|;
    StartShape(s, BuildConfig(f), byTopic, byRoom, shuffle, now);
  }

  /** A checked time-limit box always holds a limit the exam takes as one (never `0`). */
  predicate TimeLimitShown(f: SetupForm)
  {
    f.timeLimit.Some? ==> f.timeLimit.value != 0
  }

  /** Every input keeps the time limit meaningful, so the box's state is the exam's timing. */
  lemma InputsKeepTimeLimitShown(f: SetupForm, topicId: string, parsed: Option<int>, checked: bool)
    ensures TimeLimitShown(InitialForm)
    ensures TimeLimitShown(AfterTimeLimitCheck(f, checked))
    ensures TimeLimitShown(AfterTimeLimitInput(f, parsed))
    ensures TimeLimitShown(f) ==> TimeLimitShown(AfterTopicToggle(f, topicId))
    ensures TimeLimitShown(f) ==> TimeLimitShown(AfterCountInput(f, parsed))
  {
  }

  /** An empty or unparsable count disables the start button. */
  lemma UnparsableCountBlocksStart(f: SetupForm, byTopic: string -> seq<ExamQuestion>,
                                   byRoom: QuestionStore.Room -> seq<ExamQuestion>)
    ensures !CanStartExam(AfterCountInput(f, None), byTopic, byRoom)
  {
  }

  class ExamSetupForm {
    var kind: SetupKind
    var selectedTopics: seq<string>
    var selectedRoom: QuestionStore.Room
    var questionCount: int
    var timeLimit: Option<int>
    var shuffleQuestions: bool
    var shuffleOptions: bool

    function State(): SetupForm
      reads this
    {
      SetupForm(kind, selectedTopics, selectedRoom, questionCount, timeLimit, shuffleQuestions, shuffleOptions)
    }

    constructor ()
      ensures State() == InitialForm
    {
      kind, selectedTopics, selectedRoom := ByTopic, [], QuestionStore.Triagem;
      questionCount, timeLimit := 10, None;
      shuffleQuestions, shuffleOptions := true, true;
    }

    method HandleTopicToggle(topicId: string)
      modifies this`selectedTopics
      ensures State() == AfterTopicToggle(old(State()), topicId)
    {
      if topicId in selectedTopics {
        selectedTopics := Without(selectedTopics, topicId);
      } else {
        selectedTopics := selectedTopics + [topicId];
      }
    }

    method SetQuestionCountFromInput(parsed: Option<int>)
      modifies this`questionCount
      ensures State() == AfterCountInput(old(State()), parsed)
    {
      questionCount := if parsed.Some? then parsed.value else 0;
    }

    method SetTimeLimitChecked(checked: bool)
      modifies this`timeLimit
      ensures State() == AfterTimeLimitCheck(old(State()), checked)
    {
      timeLimit := if checked then Some(30) else None;
    }

    method SetTimeLimitFromInput(parsed: Option<int>)
      modifies this`timeLimit
      ensures State() == AfterTimeLimitInput(old(State()), parsed)
    {
      if parsed.Some? && parsed.value != 0 {
        timeLimit := parsed;
      } else {
        timeLimit := Some(30);
      }
    }

    /** The exam-type select. */
    method SelectKind(k: SetupKind)
      modifies this`kind
      ensures State() == old(State()).(kind := k)
    {
      kind := k;
    }

    /** The room select. */
    method SelectRoom(room: QuestionStore.Room)
      modifies this`selectedRoom
      ensures State() == old(State()).(selectedRoom := room)
    {
      selectedRoom := room;
    }

    /** The question-shuffle checkbox. */
    method SetShuffleQuestions(checked: bool)
      modifies this`shuffleQuestions
      ensures State() == old(State()).(shuffleQuestions := checked)
    {
      shuffleQuestions := checked;
    }

    /** The option-shuffle checkbox. */
    method SetShuffleOptions(checked: bool)
      modifies this`shuffleOptions
      ensures State() == old(State()).(shuffleOptions := checked)
    {
      shuffleOptions := checked;
    }

    /** `handleStartExam()`: the configuration handed to the exam page; the form is unchanged. */
    method HandleStartExam() returns (config: ExamConfig)
      ensures config == BuildConfig(State())
    {
      config := ExamConfig(ExamTypeOf(kind),
                           if kind == ByTopic then Some(selectedTopics) else None,
                           if kind == ByRoom then Some(selectedRoom) else None,
                           questionCount, timeLimit, shuffleQuestions, shuffleOptions);
    }
  }
}
