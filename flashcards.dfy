/**
 * The flashcard operations of src/db/crud/flashcards.ts. Flashcards live in the `questions`
 * table, told apart by `question_type = 'flashcard'` or, for older rows, by having neither a
 * type nor options. Reads are modelled as functions of the row list (the clock reading that
 * dates the next review is a parameter); creation and deletion change the table.
 */
module Flashcards {
  import opened Wrappers
  import opened QuestionStore
  import Sorting
  import Questions

  const FlashcardType := "flashcard"
  const DayMillis := 24 * 60 * 60 * 1000
  const DefaultMaxCards := 20

  /** `question_type = 'flashcard' OR question_type IS NULL AND options IS NULL`. */
  predicate IsFlashcardRow(row: QuestionRow)
  {
    row.questionType == Some(FlashcardType) || (row.questionType.None? && row.options.None?)
  }

  /** The topics a read is restricted to: all of them, or those listed. */
  datatype TopicScope = AllTopics | Topics(ids: seq<string>)

  predicate InScope(scope: TopicScope, topicId: string)
  {
    scope.AllTopics? || topicId in scope.ids
  }

  /** `topicIds && topicIds.length > 0` decides whether the optional topic filter applies. */
  function ScopeOf(topicIds: Option<seq<string>>): (scope: TopicScope)
    ensures scope.AllTopics? <==> topicIds.None? || topicIds.value == []
  {
    if topicIds.Some? && |topicIds.value| > 0 then Topics(topicIds.value) else AllTopics
  }

  /** The flashcard rows of the scope that survive the joins with topic and subject, in table order. */
  function Selected(rows: seq<QuestionRow>, topics: map<string, TopicRow>, subjects: map<string, string>,
                    scope: TopicScope)
    : (r: seq<QuestionRow>)
    ensures |r| <= |rows|
    ensures forall x :: x in r <==> x in rows && Joined(topics, subjects, x) && IsFlashcardRow(x) && InScope(scope, x.topicId)
  {
    if rows == [] then []
    else
      var rest := Selected(rows[1..], topics, subjects, scope);
      assert forall x :: x in rows <==> x == rows[0] || x in rows[1..];
      if Joined(topics, subjects, rows[0]) && IsFlashcardRow(rows[0]) && InScope(scope, rows[0].topicId)
      then [rows[0]] + rest
      else rest
  }

  /** A `FlashcardQuestion` as the reads build it; the floating ease factor is not modelled. */
  datatype Card = Card(
    id: string,
    topicId: string,
    question: string,
    answer: string,
    difficulty: Difficulty,
    tags: seq<string>,
    images: seq<string>,
    examiningBoard: Option<string>,
    position: Option<string>,
    examYear: Option<string>,
    institution: Option<string>,
    interval: nat,
    repetition: nat,
    nextReviewDate: Timestamp,
    averageQuality: nat,
    totalReviews: nat,
    streakCount: nat,
    failureCount: nat,
    createdAt: Timestamp,
    topicName: string,
    subjectName: string)

  /** A card with the default spaced-repetition values: due one day after `now`, never reviewed. */
  predicate IsFreshCard(c: Card, now: Timestamp)
  {
    c.interval == 1 && c.repetition == 0 && c.nextReviewDate == now + DayMillis
    && c.averageQuality == 0 && c.totalReviews == 0 && c.streakCount == 0 && c.failureCount == 0
  }

  /** The card a joined row becomes: the title is the question, the correct answer the answer. */
  function CardOf(row: QuestionRow, topics: map<string, TopicRow>, subjects: map<string, string>, now: Timestamp)
    : (c: Card)
    requires Joined(topics, subjects, row)
    ensures c.id == row.id && c.topicId == row.topicId && c.question == row.title && c.answer == row.correctAnswer
    ensures c.createdAt == row.createdAt && c.topicName == topics[row.topicId].name
    ensures IsFreshCard(c, now)
  {
    Card(row.id, row.topicId, row.title, row.correctAnswer, row.difficulty, row.tags, row.images,
         row.examiningBoard, row.position, row.examYear, row.institution, 1, 0, now + DayMillis, 0, 0, 0, 0,
         row.createdAt, topics[row.topicId].name, subjects[topics[row.topicId].subjectId])
  }

  /** The cards of joined rows, one per row, in the same order. */
  function CardsOf(rows: seq<QuestionRow>, topics: map<string, TopicRow>, subjects: map<string, string>, now: Timestamp)
    : (cards: seq<Card>)
    requires forall x :: x in rows ==> Joined(topics, subjects, x)
    ensures |cards| == |rows|
    ensures forall i :: 0 <= i < |rows| ==> cards[i] == CardOf(rows[i], topics, subjects, now)
  {
    seq(|rows|, i requires 0 <= i < |rows| => CardOf(rows[i], topics, subjects, now))
  }

  function CreatedAt(row: QuestionRow): int { row.createdAt }

  /** Sorting largest first by this key orders oldest first. */
  function Age(row: QuestionRow): int { -row.createdAt }

  /**
   * The selected rows ordered by creation time, newest first (`DESC`) or oldest first
   * (`ASC`), ties in table order.
   */
  function OrderedRows(rows: seq<QuestionRow>, topics: map<string, TopicRow>, subjects: map<string, string>,
                       scope: TopicScope, newestFirst: bool)
    : (sorted: seq<QuestionRow>)
    ensures |sorted| == |Selected(rows, topics, subjects, scope)|
    ensures forall x :: x in sorted <==> x in Selected(rows, topics, subjects, scope)
    ensures newestFirst ==> forall i, j :: 0 <= i < j < |sorted| ==> sorted[i].createdAt >= sorted[j].createdAt
    ensures !newestFirst ==> forall i, j :: 0 <= i < j < |sorted| ==> sorted[i].createdAt <= sorted[j].createdAt
  {
    var selected := Selected(rows, topics, subjects, scope);
    if newestFirst then
      Sorting.SortDescCorrect(selected, CreatedAt);
      Sorting.SortDescMembers(selected, CreatedAt);
      Sorting.SortDesc(selected, CreatedAt)
    else
      Sorting.SortDescCorrect(selected, Age);
      Sorting.SortDescMembers(selected, Age);
      Sorting.SortDesc(selected, Age)
  }

  /** The cards of the selected rows in creation order: exactly one card per selected row. */
  function OrderedCards(rows: seq<QuestionRow>, topics: map<string, TopicRow>, subjects: map<string, string>,
                        scope: TopicScope, newestFirst: bool, now: Timestamp)
    : (cards: seq<Card>)
    ensures |cards| == |Selected(rows, topics, subjects, scope)|
    ensures forall x :: x in Selected(rows, topics, subjects, scope) ==> CardOf(x, topics, subjects, now) in cards
    ensures forall i :: 0 <= i < |cards| ==> IsFreshCard(cards[i], now) && InScope(scope, cards[i].topicId)
    ensures newestFirst ==> forall i, j :: 0 <= i < j < |cards| ==> cards[i].createdAt >= cards[j].createdAt
    ensures !newestFirst ==> forall i, j :: 0 <= i < j < |cards| ==> cards[i].createdAt <= cards[j].createdAt
  {
    var sorted := OrderedRows(rows, topics, subjects, scope, newestFirst);
    CardsOfMembers(sorted, topics, subjects, now);
    CardsOf(sorted, topics, subjects, now)
  }

  /** Every row's card is among the cards of the rows. */
  lemma CardsOfMembers(rows: seq<QuestionRow>, topics: map<string, TopicRow>, subjects: map<string, string>, now: Timestamp)
    requires forall x :: x in rows ==> Joined(topics, subjects, x)
    ensures forall x :: x in rows ==> CardOf(x, topics, subjects, now) in CardsOf(rows, topics, subjects, now)
  {
    var cards := CardsOf(rows, topics, subjects, now);
    forall x | x in rows
      ensures CardOf(x, topics, subjects, now) in cards
    {
      var i :| 0 <= i < |rows| && rows[i] == x;
      assert cards[i] == CardOf(x, topics, subjects, now);
    }
  }

  /** `getFlashcardsByTopic(topicId)`: the topic's flashcards, newest first; `[]` on a read error. */
  function FlashcardsByTopic(rows: seq<QuestionRow>, topics: map<string, TopicRow>, subjects: map<string, string>,
                             topicId: string, now: Timestamp, fails: bool)
    : (cards: seq<Card>)
    ensures fails ==> cards == []
    ensures !fails ==> cards == OrderedCards(rows, topics, subjects, Topics([topicId]), true, now)
    ensures forall i :: 0 <= i < |cards| ==> cards[i].topicId == topicId
  {
    if fails then [] else OrderedCards(rows, topics, subjects, Topics([topicId]), true, now)
  }

  /**
   * `getFlashcardsByTopics(topicIds)`: no topics gives `[]` without reading; otherwise the
   * flashcards of any listed topic, newest first, or `[]` on a read error.
   */
  function FlashcardsByTopics(rows: seq<QuestionRow>, topics: map<string, TopicRow>, subjects: map<string, string>,
                              topicIds: seq<string>, now: Timestamp, fails: bool)
    : (cards: seq<Card>)
    ensures topicIds == [] || fails ==> cards == []
    ensures topicIds != [] && !fails ==> cards == OrderedCards(rows, topics, subjects, Topics(topicIds), true, now)
  {
    if |topicIds| == 0 then []
    else if fails then []
    else OrderedCards(rows, topics, subjects, Topics(topicIds), true, now)
  }

  /** `LIMIT n`: a negative limit means no limit. */
  function Limited<T>(s: seq<T>, n: int): (r: seq<T>)
    ensures n >= 0 ==> |r| == if n < |s| then n else |s|
    ensures n < 0 ==> r == s
    ensures r == s[..|r|]
  {
    if n < 0 || n >= |s| then s else s[..n]
  }

  /**
   * `getFlashcardsReadyForReview(topicIds, maxCards = 20)`: flashcards of the listed topics (all
   * topics when none are listed), oldest first, at most `maxCards` of them; `[]` on a read error.
   */
  function FlashcardsReadyForReview(rows: seq<QuestionRow>, topics: map<string, TopicRow>, subjects: map<string, string>,
                                    topicIds: Option<seq<string>>, maxCards: Option<int>, now: Timestamp, fails: bool)
    : (cards: seq<Card>)
    ensures fails ==> cards == []
    ensures !fails ==> cards == Limited(OrderedCards(rows, topics, subjects, ScopeOf(topicIds), false, now), maxCards.GetOr(DefaultMaxCards))
    ensures maxCards.GetOr(DefaultMaxCards) >= 0 ==> |cards| <= maxCards.GetOr(DefaultMaxCards)
    ensures forall i, j :: 0 <= i < j < |cards| ==> cards[i].createdAt <= cards[j].createdAt
  {
    if fails then []
    else
      var all := OrderedCards(rows, topics, subjects, ScopeOf(topicIds), false, now);
      Limited(all, maxCards.GetOr(DefaultMaxCards))
  }

  /** Without a limit argument, at most twenty cards come back, and all of them are the oldest ones. */
  lemma DefaultLimitIsTwenty(rows: seq<QuestionRow>, topics: map<string, TopicRow>, subjects: map<string, string>,
                             topicIds: Option<seq<string>>, now: Timestamp)
    ensures var all := OrderedCards(rows, topics, subjects, ScopeOf(topicIds), false, now);
      var due := FlashcardsReadyForReview(rows, topics, subjects, topicIds, None, now, false);
      |due| <= 20 && due == all[..|due|] && (|all| <= 20 ==> due == all)
  {
  }

  /** What a caller supplies to `createFlashcard`. */
  datatype FlashcardInput = FlashcardInput(
    question: string,
    answer: string,
    difficulty: Option<Difficulty>,
    tags: seq<string>,
    images: seq<string>,
    examiningBoard: Option<string>,
    position: Option<string>,
    examYear: Option<string>,
    institution: Option<string>)

  /** The row `createFlashcard` inserts. */
  function NewFlashcardRow(id: string, topicId: string, f: FlashcardInput, now: Timestamp): (r: QuestionRow)
    ensures r.id == id && r.topicId == topicId && r.title == f.question && r.content == ""
    ensures r.correctAnswer == f.answer && r.room == Triagem && r.questionType == Some(FlashcardType)
    ensures IsFlashcardRow(r)
  {
    QuestionRow(id, topicId, f.question, "", None, f.answer, None, f.difficulty.GetOr(Medium), f.tags, f.images,
                OrNull(f.examiningBoard), OrNull(f.position), OrNull(f.examYear), OrNull(f.institution),
                Triagem, Some(FlashcardType), 0, now)
  }

  /**
   * `createFlashcard(...)`: a single insert with no column-adding retry, so it fails on a table
   * still lacking the metadata columns as well as when the table refuses the row.
   */
  method CreateFlashcard(db: QuestionTables, topicId: string, f: FlashcardInput, flashcardId: string, now: Timestamp,
                         insertFails: bool)
    returns (r: Result<string>)
    modifies db`questions
    ensures r.Ok? <==> db.questionsHaveMetadata && !insertFails
    ensures r.Ok? ==> r.value == flashcardId && db.questions == old(db.questions) + [NewFlashcardRow(flashcardId, topicId, f, now)]
    ensures r.Err? ==> db.questions == old(db.questions)
  {
    if !db.questionsHaveMetadata || insertFails {
      return Err("SQLITE_ERROR: insert into questions failed");
    }
    db.questions := db.questions + [NewFlashcardRow(flashcardId, topicId, f, now)];
    return Ok(flashcardId);
  }

  /** A created flashcard in a topic whose subject exists is read back among that topic's cards. */
  lemma CreatedFlashcardIsRead(rows: seq<QuestionRow>, topics: map<string, TopicRow>, subjects: map<string, string>,
                               topicId: string, f: FlashcardInput, id: string, created: Timestamp, now: Timestamp)
    requires topicId in topics && topics[topicId].subjectId in subjects
    ensures var row := NewFlashcardRow(id, topicId, f, created);
      CardOf(row, topics, subjects, now) in FlashcardsByTopic(rows + [row], topics, subjects, topicId, now, false)
  {
    var row := NewFlashcardRow(id, topicId, f, created);
    assert row in rows + [row];
  }

  /**
   * A question created without options has neither a type nor options, so every flashcard
   * read also returns it.
   */
  lemma OptionlessQuestionReadsAsFlashcard(id: string, topicId: string, q: Questions.QuestionInput, now: Timestamp)
    requires q.options.None?
    ensures IsFlashcardRow(Questions.NewQuestionRow(id, topicId, q, now))
  {
  }

  /** `DELETE FROM questions WHERE id = ? AND question_type = 'flashcard'`. */
  function WithoutFlashcard(rows: seq<QuestionRow>, id: string): (r: seq<QuestionRow>)
    ensures |r| <= |rows|
    ensures forall x :: x in r <==> x in rows && !(x.id == id && x.questionType == Some(FlashcardType))
  {
    if rows == [] then []
    else
      var rest := WithoutFlashcard(rows[1..], id);
      assert forall x :: x in rows <==> x == rows[0] || x in rows[1..];
      if rows[0].id == id && rows[0].questionType == Some(FlashcardType) then rest else [rows[0]] + rest
  }

  /** `deleteFlashcard(id)`: true with the typed flashcard removed, or false with nothing changed. */
  method DeleteFlashcard(db: QuestionTables, id: string, fails: bool) returns (ok: bool)
    modifies db`questions
    ensures ok == !fails
    ensures ok ==> db.questions == WithoutFlashcard(old(db.questions), id)
    ensures !ok ==> db.questions == old(db.questions)
  {
    if fails {
      return false;
    }
    db.questions := WithoutFlashcard(db.questions, id);
    return true;
  }

  /**
   * Deleting removes a created flashcard but keeps an untyped legacy card, which the reads
   * still treat as a flashcard.
   */
  lemma DeleteSparesLegacyCards(rows: seq<QuestionRow>, id: string, legacy: QuestionRow, typed: QuestionRow)
    requires legacy in rows && legacy.questionType.None?
    requires typed.id == id && typed.questionType == Some(FlashcardType)
    ensures legacy in WithoutFlashcard(rows, id)
    ensures typed !in WithoutFlashcard(rows, id)
  {
  }

  /** The statistics `getFlashcardStats` reports; the floating average retention is not modelled. */
  datatype FlashcardStats = FlashcardStats(
    totalFlashcards: nat,
    readyForReview: nat,
    overdueCards: nat,
    cardsLearning: nat,
    cardsMastered: nat,
    todayReviewed: nat,
    streakDays: nat)

  const NoStats := FlashcardStats(0, 0, 0, 0, 0, 0, 0)

  /** The flashcard rows of the scope, joined or not. */
  function CountFlashcards(rows: seq<QuestionRow>, scope: TopicScope): (n: nat)
    ensures n <= |rows|
  {
    if rows == [] then 0
    else (if IsFlashcardRow(rows[0]) && InScope(scope, rows[0].topicId) then 1 else 0) + CountFlashcards(rows[1..], scope)
  }

  /**
   * `getFlashcardStats(topicIds)`: the count of flashcard rows (no join with topics), reported
   * as total, ready for review and learning; every other count 0; all zero on a read error.
   */
  function Stats(rows: seq<QuestionRow>, topicIds: Option<seq<string>>, fails: bool): (s: FlashcardStats)
    ensures fails ==> s == NoStats
    ensures !fails ==> s.totalFlashcards == CountFlashcards(rows, ScopeOf(topicIds))
    ensures s.readyForReview == s.cardsLearning == s.totalFlashcards
    ensures s.overdueCards == s.cardsMastered == s.todayReviewed == s.streakDays == 0
  {
    if fails then NoStats
    else
      var total := CountFlashcards(rows, ScopeOf(topicIds));
      FlashcardStats(total, total, 0, total, 0, 0, 0)
  }

  /** The joined rows a read selects never outnumber the rows the statistics count. */
  lemma {:induction false} SelectedWithinCount(rows: seq<QuestionRow>, topics: map<string, TopicRow>,
                                               subjects: map<string, string>, scope: TopicScope)
    ensures |Selected(rows, topics, subjects, scope)| <= CountFlashcards(rows, scope)
  {
    if rows != [] {
      SelectedWithinCount(rows[1..], topics, subjects, scope);
    }
  }

  /** Every read returns at most the total the statistics report for the same topics. */
  lemma ReviewQueueWithinStats(rows: seq<QuestionRow>, topics: map<string, TopicRow>, subjects: map<string, string>,
                               topicIds: Option<seq<string>>, maxCards: Option<int>, now: Timestamp)
    ensures |FlashcardsReadyForReview(rows, topics, subjects, topicIds, maxCards, now, false)|
            <= Stats(rows, topicIds, false).totalFlashcards
  {
    SelectedWithinCount(rows, topics, subjects, ScopeOf(topicIds));
  }
}
