/**
 * The question table operations of src/db/crud/questions.ts: create a question (retrying
 * once after adding missing columns), the XP an answer earns, record an attempt, delete a
 * question, count questions per room, and import a batch of questions with per-record failure
 * isolation. Generated ids and clock readings are parameters, and so is the outcome of every
 * insert the table might refuse; the enemy-room update after an attempt (src/db/crud/enemies.ts)
 * is not part of this model.
 */
module Questions {
  import opened Wrappers
  import opened QuestionStore

  /** JavaScript truthiness of an optional string: present and non-empty. */
  predicate Truthy(s: Option<string>)
  {
    s.Some? && s.value != ""
  }

  /** A question as a caller or an import file supplies it; absent arrays are empty. */
  datatype QuestionInput = QuestionInput(
    topicId: Option<string>,
    title: string,
    content: string,
    correctAnswer: string,
    options: Option<string>,
    explanation: Option<string>,
    difficulty: Option<Difficulty>,
    tags: seq<string>,
    images: seq<string>,
    examiningBoard: Option<string>,
    position: Option<string>,
    examYear: Option<string>,
    institution: Option<string>)

  /** The row `createQuestion` inserts: triage room, no question type, never answered. */
  function NewQuestionRow(id: string, topicId: string, q: QuestionInput, now: Timestamp): (r: QuestionRow)
    ensures r.id == id && r.topicId == topicId && r.room == Triagem && r.questionType.None?
    ensures r.options == q.options && r.timesAnswered == 0 && r.createdAt == now
    ensures q.difficulty.None? ==> r.difficulty == Medium
    ensures r.explanation.Some? <==> Truthy(q.explanation)
  {
    QuestionRow(id, topicId, q.title, q.content, q.options, q.correctAnswer, OrNull(q.explanation),
                q.difficulty.GetOr(Medium), q.tags, q.images, OrNull(q.examiningBoard), OrNull(q.position),
                OrNull(q.examYear), OrNull(q.institution), Triagem, None, 0, now)
  }

  /**
   * `createQuestion(...)`: the first insert fails when the metadata columns are missing or the
   * table refuses the row (`insertFails`); the failure adds the missing columns and the insert
   * is retried once, whose failure is rethrown.
   */
  method CreateQuestion(db: QuestionTables, topicId: string, q: QuestionInput, questionId: string,
                        now: Timestamp, insertFails: bool)
    returns (r: Result<string>)
    modifies db`questions, db`questionsHaveMetadata
    ensures r.Ok? <==> !insertFails
    ensures r.Ok? ==> r.value == questionId && db.questions == old(db.questions) + [NewQuestionRow(questionId, topicId, q, now)]
    ensures r.Err? ==> db.questions == old(db.questions)
    ensures db.questionsHaveMetadata
  {
    var row := NewQuestionRow(questionId, topicId, q, now);
    if db.questionsHaveMetadata && !insertFails {
      db.questions := db.questions + [row];
      return Ok(questionId);
    }
    db.questionsHaveMetadata := true;
    if insertFails {
      return Err("SQLITE_ERROR: insert into questions failed");
    }
    db.questions := db.questions + [row];
    return Ok(questionId);
  }

  /** `getQuestionById(id)`: the first joined row with that id, if any. */
  function QuestionById(rows: seq<QuestionRow>, topics: map<string, TopicRow>, subjects: map<string, string>,
                        id: string)
    : (r: Option<QuestionRow>)
    ensures r.Some? ==> r.value in rows && r.value.id == id && Joined(topics, subjects, r.value)
    ensures r.None? <==> forall i :: 0 <= i < |rows| ==> !(rows[i].id == id && Joined(topics, subjects, rows[i]))
  {
    if rows == [] then None
    else if rows[0].id == id && Joined(topics, subjects, rows[0]) then Some(rows[0])
    else
      var rest := QuestionById(rows[1..], topics, subjects, id);
      assert forall i :: 1 <= i < |rows| ==> rows[i] == rows[1..][i - 1];
      rest
  }

  /** Only the rows before `row` decide what a lookup of a fresh id appended at the end finds. */
  lemma {:induction false} QuestionByIdAppended(rows: seq<QuestionRow>, topics: map<string, TopicRow>,
                                                subjects: map<string, string>, row: QuestionRow)
    requires forall i :: 0 <= i < |rows| ==> rows[i].id != row.id
    requires Joined(topics, subjects, row)
    ensures QuestionById(rows + [row], topics, subjects, row.id) == Some(row)
  {
    if rows != [] {
      assert (rows + [row])[1..] == rows[1..] + [row];
      QuestionByIdAppended(rows[1..], topics, subjects, row);
    }
  }

  /**
   * A question created under a fresh id in a topic whose subject exists is what
   * `getQuestionById` then returns: in triage, with the caller's content.
   */
  lemma CreatedQuestionIsFound(rows: seq<QuestionRow>, topics: map<string, TopicRow>, subjects: map<string, string>,
                               topicId: string, q: QuestionInput, id: string, now: Timestamp)
    requires forall i :: 0 <= i < |rows| ==> rows[i].id != id
    requires topicId in topics && topics[topicId].subjectId in subjects
    ensures var found := QuestionById(rows + [NewQuestionRow(id, topicId, q, now)], topics, subjects, id);
      found.Some? && found.value.room == Triagem && found.value.title == q.title
      && found.value.correctAnswer == q.correctAnswer && found.value.topicId == topicId
  {
    QuestionByIdAppended(rows, topics, subjects, NewQuestionRow(id, topicId, q, now));
  }

  /**
   * The XP of an answer: nothing unless it is correct and the question exists; otherwise
   * `floor(10 * multiplier + bonus)` with multiplier 2 / 1.5 / 1 (hard / medium / easy) and
   * bonus 5 / 3 / 1 (certeza / duvida / other), written in whole numbers.
   */
  function XpEarned(isCorrect: bool, question: Option<QuestionRow>, confidence: ConfidenceLevel): (xp: nat)
  {
    if isCorrect && question.Some? then
      var base := match question.value.difficulty
        case Hard => 20
        case Medium => 15
        case Easy => 10;
      var bonus := match confidence
        case Certeza => 5
        case Duvida => 3
        case OtherConfidence => 1;
      base + bonus
    else 0
  }

  /** The XP is 0 exactly when the answer is wrong or the question is missing, else one of nine values. */
  lemma XpValues(isCorrect: bool, question: Option<QuestionRow>, confidence: ConfidenceLevel)
    ensures XpEarned(isCorrect, question, confidence) == 0 <==> !isCorrect || question.None?
    ensures XpEarned(isCorrect, question, confidence) in {0, 11, 13, 15, 16, 18, 20, 21, 23, 25}
    ensures 0 < XpEarned(isCorrect, question, confidence) ==> 11 <= XpEarned(isCorrect, question, confidence) <= 25
  {
  }

  function DifficultyRank(d: Difficulty): nat
  {
    match d
    case Easy => 0
    case Medium => 1
    case Hard => 2
  }

  function ConfidenceRank(c: ConfidenceLevel): nat
  {
    match c
    case OtherConfidence => 0
    case Duvida => 1
    case Certeza => 2
  }

  /** A harder question or a surer answer never earns less XP. */
  lemma XpMonotone(q1: QuestionRow, q2: QuestionRow, c1: ConfidenceLevel, c2: ConfidenceLevel)
    requires DifficultyRank(q1.difficulty) <= DifficultyRank(q2.difficulty)
    requires ConfidenceRank(c1) <= ConfidenceRank(c2)
    ensures XpEarned(true, Some(q1), c1) <= XpEarned(true, Some(q2), c2)
  {
  }

  /** `timeTaken || null`: zero seconds is stored as `NULL`. */
  function TimeOrNull(t: Option<int>): (r: Option<int>)
    ensures r.Some? <==> t.Some? && t.value != 0
    ensures r.Some? ==> r == t
  {
    if t.Some? && t.value != 0 then t else None
  }

  /** The row `recordQuestionAttempt` inserts. */
  function NewAttemptRow(id: string, questionId: string, answer: string, isCorrect: bool, confidence: ConfidenceLevel,
                         battleSessionId: Option<string>, timeTaken: Option<int>, errorType: Option<string>,
                         question: Option<QuestionRow>)
    : (r: AttemptRow)
    ensures r.id == id && r.questionId == questionId && r.isCorrect == isCorrect
    ensures r.xpEarned == XpEarned(isCorrect, question, confidence)
    ensures r.errorType.Some? <==> Truthy(errorType)
  {
    AttemptRow(id, questionId, OrNull(battleSessionId), answer, isCorrect, confidence, TimeOrNull(timeTaken),
               XpEarned(isCorrect, question, confidence), OrNull(errorType))
  }

  /**
   * `recordQuestionAttempt(...)`: looks the question up, computes the XP, and inserts the
   * attempt, retrying once after adding the `error_type` column; the retry's failure is rethrown.
   * For an existing question the enemy room is then updated inside the same `try`, so a failure
   * there is rethrown too, with the attempt already recorded (the room itself is not modelled).
   */
  method RecordQuestionAttempt(db: QuestionTables, attemptId: string, questionId: string, answer: string,
                               isCorrect: bool, confidence: ConfidenceLevel, battleSessionId: Option<string>,
                               timeTaken: Option<int>, errorType: Option<string>, insertFails: bool,
                               roomUpdateFails: bool)
    returns (r: Result<string>)
    modifies db`attempts, db`attemptsHaveErrorType
    ensures var question := QuestionById(db.questions, db.topics, db.subjects, questionId);
      && (r.Ok? <==> !insertFails && !(question.Some? && roomUpdateFails))
      && (r.Ok? ==> r.value == attemptId)
      && (!insertFails ==> db.attempts == old(db.attempts) + [NewAttemptRow(attemptId, questionId, answer, isCorrect,
                                       confidence, battleSessionId, timeTaken, errorType, question)])
      && (insertFails ==> db.attempts == old(db.attempts))
    ensures db.attemptsHaveErrorType
  {
    var question := QuestionById(db.questions, db.topics, db.subjects, questionId);
    var row := NewAttemptRow(attemptId, questionId, answer, isCorrect, confidence, battleSessionId, timeTaken,
                             errorType, question);
    if !db.attemptsHaveErrorType || insertFails {
      db.attemptsHaveErrorType := true;
      if insertFails {
        return Err("SQLITE_ERROR: insert into question_attempts failed");
      }
    }
    db.attempts := db.attempts + [row];
    if question.Some? && roomUpdateFails {
      return Err("updateEnemyRoom failed");
    }
    return Ok(attemptId);
  }

  /** A recorded attempt of a correct answer to an existing question carries positive XP. */
  lemma CorrectAnswerEarnsXp(rows: seq<QuestionRow>, topics: map<string, TopicRow>, subjects: map<string, string>,
                             i: nat, answer: string, confidence: ConfidenceLevel, attemptId: string)
    requires i < |rows| && Joined(topics, subjects, rows[i])
    ensures var question := QuestionById(rows, topics, subjects, rows[i].id);
      NewAttemptRow(attemptId, rows[i].id, answer, true, confidence, None, None, None, question).xpEarned >= 11
  {
    XpValues(true, QuestionById(rows, topics, subjects, rows[i].id), confidence);
  }

  /** `DELETE FROM questions WHERE id = ?`: the rows with any other id, in order. */
  function WithoutId(rows: seq<QuestionRow>, id: string): (r: seq<QuestionRow>)
    ensures |r| <= |rows|
    ensures forall x :: x in r <==> x in rows && x.id != id
  {
    if rows == [] then []
    else
      var rest := WithoutId(rows[1..], id);
      assert forall x :: x in rows <==> x == rows[0] || x in rows[1..];
      if rows[0].id == id then rest else [rows[0]] + rest
  }

  /** With no row of that id, deleting it changes nothing. */
  lemma {:induction false} DeleteUnknownChangesNothing(rows: seq<QuestionRow>, id: string)
    requires forall i :: 0 <= i < |rows| ==> rows[i].id != id
    ensures WithoutId(rows, id) == rows
  {
    if rows != [] {
      DeleteUnknownChangesNothing(rows[1..], id);
    }
  }

  /** Deleting twice is deleting once. */
  lemma DeleteIsIdempotent(rows: seq<QuestionRow>, id: string)
    ensures WithoutId(WithoutId(rows, id), id) == WithoutId(rows, id)
  {
    var once := WithoutId(rows, id);
    forall i | 0 <= i < |once|
      ensures once[i].id != id
    {
      assert once[i] in once;
    }
    DeleteUnknownChangesNothing(once, id);
  }

  /** `deleteQuestion(id)`: true and the rows removed, or false with the table unchanged. */
  method DeleteQuestion(db: QuestionTables, id: string, fails: bool) returns (ok: bool)
    modifies db`questions
    ensures ok == !fails
    ensures ok ==> db.questions == WithoutId(old(db.questions), id)
    ensures !ok ==> db.questions == old(db.questions)
  {
    if fails {
      return false;
    }
    db.questions := WithoutId(db.questions, id);
    return true;
  }

  datatype RoomCounts = RoomCounts(triagem: nat, vermelha: nat, amarela: nat, verde: nat)

  const NoRoomCounts := RoomCounts(0, 0, 0, 0)

  /** The number of rows in `room`. */
  function RoomCount(rows: seq<QuestionRow>, room: Room): (n: nat)
    ensures n <= |rows|
    ensures n == 0 <==> forall i :: 0 <= i < |rows| ==> rows[i].room != room
  {
    if rows == [] then 0
    else
      assert forall i :: 1 <= i < |rows| ==> rows[i] == rows[1..][i - 1];
      (if rows[0].room == room then 1 else 0) + RoomCount(rows[1..], room)
  }

  /** `getQuestionsCountByRoom()`: every room, a room with no question at 0; all zero on error. */
  function QuestionsCountByRoom(rows: seq<QuestionRow>, fails: bool): (r: RoomCounts)
    ensures fails ==> r == NoRoomCounts
    ensures !fails ==> r.triagem == RoomCount(rows, Triagem) && r.vermelha == RoomCount(rows, Vermelha)
    ensures !fails ==> r.amarela == RoomCount(rows, Amarela) && r.verde == RoomCount(rows, Verde)
  {
    if fails then NoRoomCounts
    else RoomCounts(RoomCount(rows, Triagem), RoomCount(rows, Vermelha), RoomCount(rows, Amarela), RoomCount(rows, Verde))
  }

  /** The four room counts add up to the number of questions. */
  lemma {:induction false} RoomCountsCoverTable(rows: seq<QuestionRow>)
    ensures var c := QuestionsCountByRoom(rows, false); c.triagem + c.vermelha + c.amarela + c.verde == |rows|
  {
    if rows != [] {
      RoomCountsCoverTable(rows[1..]);
    }
  }

  /** A created question adds one to the triage count and leaves the other rooms alone. */
  lemma {:induction false} CreationGoesToTriage(rows: seq<QuestionRow>, row: QuestionRow)
    requires row.room == Triagem
    ensures var before, after := QuestionsCountByRoom(rows, false), QuestionsCountByRoom(rows + [row], false);
      after == before.(triagem := before.triagem + 1)
  {
    if rows == [] {
      assert rows + [row] == [row];
    } else {
      assert (rows + [row])[1..] == rows[1..] + [row];
      CreationGoesToTriage(rows[1..], row);
    }
  }

  /** How one input of a batch import fares. */
  datatype Verdict = NoTopic | UnknownTopic(topicId: string) | InsertFailed(topicId: string) | Inserted(topicId: string)

  /** `questionData.topicId || defaultTopicId`, the topic check, then `createQuestion`. */
  function VerdictOf(q: QuestionInput, defaultTopicId: Option<string>, topics: map<string, TopicRow>, insertFails: bool)
    : (v: Verdict)
    ensures v.NoTopic? <==> !Truthy(q.topicId) && !Truthy(defaultTopicId)
    ensures v.UnknownTopic? || v.InsertFailed? || v.Inserted? ==>
      v.topicId == (if Truthy(q.topicId) then q.topicId.value else defaultTopicId.value)
    ensures v.Inserted? ==> v.topicId in topics && !insertFails
  {
    var topicId := if Truthy(q.topicId) then q.topicId else defaultTopicId;
    if !Truthy(topicId) then NoTopic
    else if topicId.value !in topics then UnknownTopic(topicId.value)
    else if insertFails then InsertFailed(topicId.value)
    else Inserted(topicId.value)
  }

  /** One entry of the per-question `results` list. */
  datatype ItemResult = ItemResult(success: bool, questionId: Option<string>, error: Option<string>, title: string)

  datatype BatchReport = BatchReport(success: nat, failed: nat, errors: seq<string>, results: seq<ItemResult>)

  const EmptyBatchReport := BatchReport(0, 0, [], [])

  /** The error line of an input with neither its own topic nor a default one. */
  function NoTopicLine(title: string): string
  {
    "Questão \"" + title + "\" não tem topicId e nenhum tópico padrão foi fornecido"
  }

  const TopicIdMissing := "TopicId não fornecido"

  /** The error line and the failed result an input's verdict adds. */
  function FailureText(v: Verdict, title: string, insertError: string): (r: (string, string))
    requires !v.Inserted?
  {
    match v
    case NoTopic => (NoTopicLine(title), TopicIdMissing)
    case UnknownTopic(t) =>
      ("Tópico " + t + " não encontrado para a questão \"" + title + "\"", "Tópico " + t + " não encontrado")
    case InsertFailed(_) =>
      ("Erro ao importar questão \"" + title + "\": " + insertError, insertError)
  }

  /** The report after one more input with verdict `v`. */
  function Reported(report: BatchReport, v: Verdict, title: string, id: string, insertError: string): (r: BatchReport)
  {
    if v.Inserted? then
      report.(success := report.success + 1, results := report.results + [ItemResult(true, Some(id), None, title)])
    else
      var (line, error) := FailureText(v, title, insertError);
      report.(failed := report.failed + 1, errors := report.errors + [line],
              results := report.results + [ItemResult(false, None, Some(error), title)])
  }

  /**
   * The report of a batch, input by input; input `i` gets id `ids(i)` and its insert fails
   * when `insertFails(i)`. Every input adds exactly one result, reporting that input, and
   * every failure exactly one error line.
   */
  function BatchReportOf(inputs: seq<QuestionInput>, defaultTopicId: Option<string>, topics: map<string, TopicRow>,
                         ids: nat -> string, insertFails: nat -> bool, insertError: string)
    : (r: BatchReport)
    ensures r.success + r.failed == |inputs| == |r.results|
    ensures |r.errors| == r.failed
  {
    if inputs == [] then EmptyBatchReport
    else
      var n := |inputs| - 1;
      var front := inputs[..n];
      assert forall j :: 0 <= j < n ==> front[j] == inputs[j];
      var before := BatchReportOf(front, defaultTopicId, topics, ids, insertFails, insertError);
      Reported(before, VerdictOf(inputs[n], defaultTopicId, topics, insertFails(n)), inputs[n].title, ids(n), insertError)
  }

  /**
   * Result `j` of a batch reports input `j`: its title, success exactly when the input was
   * inserted, and then the id it was inserted under.
   */
  lemma {:induction false} ResultsFollowInputs(inputs: seq<QuestionInput>, defaultTopicId: Option<string>,
                                               topics: map<string, TopicRow>, ids: nat -> string,
                                               insertFails: nat -> bool, insertError: string, j: nat)
    requires j < |inputs|
    ensures var r := BatchReportOf(inputs, defaultTopicId, topics, ids, insertFails, insertError);
      var v := VerdictOf(inputs[j], defaultTopicId, topics, insertFails(j));
      && r.results[j].title == inputs[j].title
      && (r.results[j].success <==> v.Inserted?)
      && (v.Inserted? ==> r.results[j].questionId == Some(ids(j)))
  {
    var n := |inputs| - 1;
    var front := inputs[..n];
    var before := BatchReportOf(front, defaultTopicId, topics, ids, insertFails, insertError);
    var r := BatchReportOf(inputs, defaultTopicId, topics, ids, insertFails, insertError);
    var last := VerdictOf(inputs[n], defaultTopicId, topics, insertFails(n));
    assert r == Reported(before, last, inputs[n].title, ids(n), insertError);
    ReportedAppendsResult(before, last, inputs[n].title, ids(n), insertError);
    if j < n {
      ResultsFollowInputs(front, defaultTopicId, topics, ids, insertFails, insertError, j);
      assert front[j] == inputs[j];
      assert r.results[j] == before.results[j];
    }
  }

  /** One more input appends one result, for that input, and keeps the earlier ones. */
  lemma ReportedAppendsResult(report: BatchReport, v: Verdict, title: string, id: string, insertError: string)
    ensures var r := Reported(report, v, title, id, insertError);
      && |r.results| == |report.results| + 1
      && (forall j :: 0 <= j < |report.results| ==> r.results[j] == report.results[j])
      && r.results[|report.results|].title == title
      && (r.results[|report.results|].success <==> v.Inserted?)
      && (v.Inserted? ==> r.results[|report.results|].questionId == Some(id))
  {
  }

  /** The rows a batch inserts, in input order. */
  function BatchRows(inputs: seq<QuestionInput>, defaultTopicId: Option<string>, topics: map<string, TopicRow>,
                     ids: nat -> string, now: Timestamp, insertFails: nat -> bool)
    : (rows: seq<QuestionRow>)
    ensures |rows| <= |inputs|
    ensures forall x :: x in rows ==> x.room == Triagem && x.topicId in topics
  {
    if inputs == [] then []
    else
      var n := |inputs| - 1;
      var before := BatchRows(inputs[..n], defaultTopicId, topics, ids, now, insertFails);
      var v := VerdictOf(inputs[n], defaultTopicId, topics, insertFails(n));
      if v.Inserted? then before + [NewQuestionRow(ids(n), v.topicId, inputs[n], now)] else before
  }

  /** Whether an input with this verdict reaches `createQuestion`. */
  predicate TriesInsert(v: Verdict)
  {
    v.Inserted? || v.InsertFailed?
  }

  /** Whether some input of the batch got as far as an insert (which adds any missing column). */
  predicate InsertTried(inputs: seq<QuestionInput>, defaultTopicId: Option<string>, topics: map<string, TopicRow>,
                        insertFails: nat -> bool)
  {
    if inputs == [] then false
    else
      var n := |inputs| - 1;
      InsertTried(inputs[..n], defaultTopicId, topics, insertFails)
      || TriesInsert(VerdictOf(inputs[n], defaultTopicId, topics, insertFails(n)))
  }

  /** The message of the error thrown when the default topic does not exist. */
  function MissingDefaultTopic(topicId: string): string
  {
    "Tópico padrão " + topicId + " não encontrado"
  }

  /** Handling input `i` extends the report of the inputs before it by that input's verdict. */
  lemma ReportStep(inputs: seq<QuestionInput>, i: nat, defaultTopicId: Option<string>, topics: map<string, TopicRow>,
                   ids: nat -> string, insertFails: nat -> bool, insertError: string)
    requires i < |inputs|
    ensures BatchReportOf(inputs[..i + 1], defaultTopicId, topics, ids, insertFails, insertError)
         == Reported(BatchReportOf(inputs[..i], defaultTopicId, topics, ids, insertFails, insertError),
                     VerdictOf(inputs[i], defaultTopicId, topics, insertFails(i)), inputs[i].title, ids(i), insertError)
  {
    assert inputs[..i + 1][..i] == inputs[..i];
  }

  /** Handling input `i` appends its row, when it is inserted, to the rows of the inputs before it. */
  lemma RowsStep(inputs: seq<QuestionInput>, i: nat, defaultTopicId: Option<string>, topics: map<string, TopicRow>,
                 ids: nat -> string, now: Timestamp, insertFails: nat -> bool)
    requires i < |inputs|
    ensures var v := VerdictOf(inputs[i], defaultTopicId, topics, insertFails(i));
      BatchRows(inputs[..i + 1], defaultTopicId, topics, ids, now, insertFails)
      == BatchRows(inputs[..i], defaultTopicId, topics, ids, now, insertFails)
         + (if v.Inserted? then [NewQuestionRow(ids(i), v.topicId, inputs[i], now)] else [])
  {
    assert inputs[..i + 1][..i] == inputs[..i];
  }

  /** Input `i` adds its own attempt, if any, to those of the inputs before it. */
  lemma InsertTriedStep(inputs: seq<QuestionInput>, i: nat, defaultTopicId: Option<string>, topics: map<string, TopicRow>,
                        insertFails: nat -> bool)
    requires i < |inputs|
    ensures InsertTried(inputs[..i + 1], defaultTopicId, topics, insertFails)
      <==> InsertTried(inputs[..i], defaultTopicId, topics, insertFails)
           || TriesInsert(VerdictOf(inputs[i], defaultTopicId, topics, insertFails(i)))
  {
    assert inputs[..i + 1][..i] == inputs[..i];
  }

  /** The body of the import loop for input `i`: decide its verdict and insert it if it gets that far. */
  method ImportOne(db: QuestionTables, q: QuestionInput, i: nat, defaultTopicId: Option<string>,
                   ids: nat -> string, now: Timestamp, insertFails: nat -> bool)
    returns (v: Verdict)
    modifies db`questions, db`questionsHaveMetadata
    ensures v == VerdictOf(q, defaultTopicId, db.topics, insertFails(i))
    ensures db.questions == old(db.questions) + (if v.Inserted? then [NewQuestionRow(ids(i), v.topicId, q, now)] else [])
    ensures db.questionsHaveMetadata == (old(db.questionsHaveMetadata) || TriesInsert(v))
  {
    v := VerdictOf(q, defaultTopicId, db.topics, insertFails(i));
    if TriesInsert(v) {
      var created := CreateQuestion(db, v.topicId, q, ids(i), now, insertFails(i));
    }
  }

  /**
   * `importQuestionsInBatch(questions, defaultTopicId)`: an unknown default topic throws before
   * anything is written; otherwise every input is handled in turn, a failing input being
   * reported and skipped, and the report is returned.
   */
  method ImportQuestionsInBatch(db: QuestionTables, inputs: seq<QuestionInput>, defaultTopicId: Option<string>,
                                ids: nat -> string, now: Timestamp, insertFails: nat -> bool, insertError: string)
    returns (r: Result<BatchReport>)
    modifies db`questions, db`questionsHaveMetadata
    ensures r.Err? <==> Truthy(defaultTopicId) && defaultTopicId.value !in db.topics
    ensures r.Err? ==> r.error == MissingDefaultTopic(defaultTopicId.value)
    ensures r.Err? ==> db.questions == old(db.questions) && db.questionsHaveMetadata == old(db.questionsHaveMetadata)
    ensures r.Ok? ==> r.value == BatchReportOf(inputs, defaultTopicId, db.topics, ids, insertFails, insertError)
    ensures r.Ok? ==> db.questions == old(db.questions) + BatchRows(inputs, defaultTopicId, db.topics, ids, now, insertFails)
    ensures r.Ok? ==> db.questionsHaveMetadata == (old(db.questionsHaveMetadata) || InsertTried(inputs, defaultTopicId, db.topics, insertFails))
  {
    if Truthy(defaultTopicId) && defaultTopicId.value !in db.topics {
      return Err(MissingDefaultTopic(defaultTopicId.value));
    }
    var report := ImportEach(db, inputs, defaultTopicId, ids, now, insertFails, insertError);
    return Ok(report);
  }

  /** The `for` loop of `importQuestionsInBatch`: every input in turn, each failure reported and skipped. */
  method ImportEach(db: QuestionTables, inputs: seq<QuestionInput>, defaultTopicId: Option<string>,
                    ids: nat -> string, now: Timestamp, insertFails: nat -> bool, insertError: string)
    returns (report: BatchReport)
    modifies db`questions, db`questionsHaveMetadata
    ensures report == BatchReportOf(inputs, defaultTopicId, db.topics, ids, insertFails, insertError)
    ensures db.questions == old(db.questions) + BatchRows(inputs, defaultTopicId, db.topics, ids, now, insertFails)
    ensures db.questionsHaveMetadata == (old(db.questionsHaveMetadata) || InsertTried(inputs, defaultTopicId, db.topics, insertFails))
  {
    var topics := db.topics;
    report := EmptyBatchReport;
    ghost var start := db.questions;
    ghost var hadMetadata := db.questionsHaveMetadata;
    var i := 0;
    assert inputs[..0] == [];
    while i < |inputs|
      invariant 0 <= i <= |inputs| && db.topics == topics
      invariant ImportedUpTo(inputs, i, defaultTopicId, topics, ids, now, insertFails, insertError,
                             start, report, db.questions)
      invariant db.questionsHaveMetadata == (hadMetadata || InsertTried(inputs[..i], defaultTopicId, topics, insertFails))
    {
      var q := inputs[i];
      ghost var (before, rows) := (report, db.questions);
      InsertTriedStep(inputs, i, defaultTopicId, topics, insertFails);
      var v := ImportOne(db, q, i, defaultTopicId, ids, now, insertFails);
      report := Reported(report, v, q.title, ids(i), insertError);
      ImportStep(inputs, i, defaultTopicId, topics, ids, now, insertFails, insertError, start, before, rows);
      i := i + 1;
    }
    assert inputs[..i] == inputs;
  }

  /** What the import loop has done after the first `i` inputs. */
  ghost predicate ImportedUpTo(inputs: seq<QuestionInput>, i: nat, defaultTopicId: Option<string>,
                               topics: map<string, TopicRow>, ids: nat -> string, now: Timestamp,
                               insertFails: nat -> bool, insertError: string, start: seq<QuestionRow>,
                               report: BatchReport, questions: seq<QuestionRow>)
    requires i <= |inputs|
  {
    && report == BatchReportOf(inputs[..i], defaultTopicId, topics, ids, insertFails, insertError)
    && questions == start + BatchRows(inputs[..i], defaultTopicId, topics, ids, now, insertFails)
  }

  /** Handling input `i` as the loop body does extends what the loop has done by that input. */
  lemma ImportStep(inputs: seq<QuestionInput>, i: nat, defaultTopicId: Option<string>, topics: map<string, TopicRow>,
                   ids: nat -> string, now: Timestamp, insertFails: nat -> bool, insertError: string,
                   start: seq<QuestionRow>, report: BatchReport, questions: seq<QuestionRow>)
    requires i < |inputs|
    requires ImportedUpTo(inputs, i, defaultTopicId, topics, ids, now, insertFails, insertError, start, report, questions)
    ensures var v := VerdictOf(inputs[i], defaultTopicId, topics, insertFails(i));
      ImportedUpTo(inputs, i + 1, defaultTopicId, topics, ids, now, insertFails, insertError, start,
                   Reported(report, v, inputs[i].title, ids(i), insertError),
                   questions + (if v.Inserted? then [NewQuestionRow(ids(i), v.topicId, inputs[i], now)] else []))
  {
    var v := VerdictOf(inputs[i], defaultTopicId, topics, insertFails(i));
    ReportStep(inputs, i, defaultTopicId, topics, ids, insertFails, insertError);
    assert Reported(report, v, inputs[i].title, ids(i), insertError)
        == BatchReportOf(inputs[..i + 1], defaultTopicId, topics, ids, insertFails, insertError);
    RowsStep(inputs, i, defaultTopicId, topics, ids, now, insertFails);
    var rows := BatchRows(inputs[..i], defaultTopicId, topics, ids, now, insertFails);
    var more := if v.Inserted? then [NewQuestionRow(ids(i), v.topicId, inputs[i], now)] else [];
    assert start + rows + more == start + (rows + more);
    assert questions + more == start + BatchRows(inputs[..i + 1], defaultTopicId, topics, ids, now, insertFails);
  }

  function SampleInput(topicId: Option<string>, title: string): QuestionInput
  {
    QuestionInput(topicId, title, "", "A", None, None, None, [], [], None, None, None, None)
  }

  function NeverFails(i: nat): bool { false }

  /** Three inputs of a known topic with the second lacking any topic: two successes, one failure. */
  lemma {:induction false} SecondOfThreeFails(topics: map<string, TopicRow>, ids: nat -> string, insertError: string)
    requires "t1" in topics
    ensures var inputs := [SampleInput(Some("t1"), "Q1"), SampleInput(None, "Q2"), SampleInput(Some("t1"), "Q3")];
      var r := BatchReportOf(inputs, None, topics, ids, NeverFails, insertError);
      && r.success == 2 && r.failed == 1
      && r.errors == [NoTopicLine("Q2")]
      && r.results[0].success && r.results[2].success
      && !r.results[1].success && r.results[1].error == Some(TopicIdMissing)
  {
    var inputs := [SampleInput(Some("t1"), "Q1"), SampleInput(None, "Q2"), SampleInput(Some("t1"), "Q3")];
    ReportStep(inputs, 0, None, topics, ids, NeverFails, insertError);
    ReportStep(inputs, 1, None, topics, ids, NeverFails, insertError);
    ReportStep(inputs, 2, None, topics, ids, NeverFails, insertError);
    assert inputs[..0] == [] && inputs[..3] == inputs;
    assert VerdictOf(inputs[0], None, topics, false) == Inserted("t1");
    assert VerdictOf(inputs[1], None, topics, false) == NoTopic;
    assert VerdictOf(inputs[2], None, topics, false) == Inserted("t1");
    var r0 := BatchReportOf(inputs[..1], None, topics, ids, NeverFails, insertError);
    assert r0 == Reported(EmptyBatchReport, Inserted("t1"), "Q1", ids(0), insertError);
    var r1 := BatchReportOf(inputs[..2], None, topics, ids, NeverFails, insertError);
    assert r1 == Reported(r0, NoTopic, "Q2", ids(1), insertError);
    assert r1.errors == [] + [NoTopicLine("Q2")];
    var r2 := BatchReportOf(inputs, None, topics, ids, NeverFails, insertError);
    assert r2 == Reported(r1, Inserted("t1"), "Q3", ids(2), insertError);
  }
}
