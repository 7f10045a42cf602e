/**
 * The question tables of the relational store: `questions` (multiple-choice questions and
 * flashcards share it, told apart by `question_type`), `question_attempts`, and the
 * `study_topics` / `study_subjects` rows the reads join against. Tables are row sequences in
 * row order; two schema flags say whether the columns that later versions added exist yet.
 */
module QuestionStore {
  import opened Wrappers

  type Timestamp = int

  datatype Room = Triagem | Vermelha | Amarela | Verde

  datatype Difficulty = Easy | Medium | Hard

  /** A `questions` row; `None` is SQL `NULL`. */
  datatype QuestionRow = QuestionRow(
    id: string,
    topicId: string,
    title: string,
    content: string,
    options: Option<string>,
    correctAnswer: string,
    explanation: Option<string>,
    difficulty: Difficulty,
    tags: seq<string>,
    images: seq<string>,
    examiningBoard: Option<string>,
    position: Option<string>,
    examYear: Option<string>,
    institution: Option<string>,
    room: Room,
    questionType: Option<string>,
    timesAnswered: int,
    createdAt: Timestamp)

  datatype ConfidenceLevel = Certeza | Duvida | OtherConfidence

  /** A `question_attempts` row. */
  datatype AttemptRow = AttemptRow(
    id: string,
    questionId: string,
    battleSessionId: Option<string>,
    answer: string,
    isCorrect: bool,
    confidence: ConfidenceLevel,
    timeTaken: Option<int>,
    xpEarned: nat,
    errorType: Option<string>)

  /** A `study_topics` row. */
  datatype TopicRow = TopicRow(subjectId: string, name: string)

  /** `value || null` for an optional text column. */
  function OrNull(value: Option<string>): (r: Option<string>)
    ensures r.Some? <==> value.Some? && value.value != ""
    ensures r.Some? ==> r == value
  {
    if value.Some? && value.value != "" then value else None
  }

  /** The inner joins of every read: the row's topic exists and so does that topic's subject. */
  predicate Joined(topics: map<string, TopicRow>, subjects: map<string, string>, row: QuestionRow)
  {
    row.topicId in topics && topics[row.topicId].subjectId in subjects
  }

  class QuestionTables {
    var questions: seq<QuestionRow>
    var attempts: seq<AttemptRow>
    var topics: map<string, TopicRow>
    var subjects: map<string, string>
    /** Whether `questions` has the `images` … `institution` columns. */
    var questionsHaveMetadata: bool
    /** Whether `question_attempts` has the `error_type` column. */
    var attemptsHaveErrorType: bool

    constructor (questions: seq<QuestionRow>, topics: map<string, TopicRow>, subjects: map<string, string>,
                 questionsHaveMetadata: bool, attemptsHaveErrorType: bool)
      ensures this.questions == questions && this.attempts == []
      ensures this.topics == topics && this.subjects == subjects
      ensures this.questionsHaveMetadata == questionsHaveMetadata
      ensures this.attemptsHaveErrorType == attemptsHaveErrorType
    {
      this.questions, this.attempts := questions, [];
      this.topics, this.subjects := topics, subjects;
      this.questionsHaveMetadata, this.attemptsHaveErrorType := questionsHaveMetadata, attemptsHaveErrorType;
    }
  }
}
