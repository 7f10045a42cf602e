/**
 * The document store `HeroTaskDatabase` (src/db/dexie/database.ts): eight object stores,
 * each a finite map from primary key to record. Stores whose schema says `++id` use `nat`
 * keys chosen by the engine; tasks, habits and attributes are keyed by their string `id`.
 * Dates are millisecond timestamps.
 */
module DexieStore {
  import opened Wrappers
  import opened JsText

  type Timestamp = int

  datatype StageStatus = NotStarted | InProgress | StageCompleted

  datatype Task = Task(
    id: string,
    stageId: string,
    journeyId: string,
    title: string,
    description: Option<string>,
    completed: bool,
    completedAt: Option<Timestamp>,
    priority: int,
    estimatedMinutes: int,
    actualMinutes: int,
    startDate: Option<Timestamp>,
    dueDate: Option<Timestamp>,
    createdAt: Timestamp,
    updatedAt: Timestamp)

  datatype Stage = Stage(
    id: string,
    title: string,
    description: Option<string>,
    priority: int,
    estimatedHours: int,
    completedHours: int,
    status: StageStatus,
    order: int,
    tasks: seq<Task>,
    createdAt: Timestamp,
    updatedAt: Timestamp)

  datatype JourneyStatus = JourneyActive | JourneyCompleted | JourneyPaused | JourneyArchived

  /** A journey record; its auto-increment id is the key it is stored under. */
  datatype Journey = Journey(
    legacyId: Option<string>,
    title: string,
    description: Option<string>,
    examDate: Option<Timestamp>,
    totalHours: int,
    completedHours: int,
    focusAreas: seq<string>,
    status: JourneyStatus,
    stages: seq<Stage>,
    createdAt: Timestamp,
    updatedAt: Timestamp)

  datatype HabitType = DailyReview | Pomodoro | Flashcards | CustomHabit

  datatype Habit = Habit(
    id: string,
    stageId: string,
    journeyId: string,
    kind: HabitType,
    title: string,
    description: Option<string>,
    targetFrequency: int,
    currentStreak: int,
    longestStreak: int,
    lastCompletedAt: Option<Timestamp>,
    isActive: bool,
    createdAt: Timestamp,
    updatedAt: Timestamp)

  datatype HabitCompletion = HabitCompletion(habitId: string, completedAt: Timestamp, notes: Option<string>)

  datatype HeroProfile = HeroProfile(
    heroName: string,
    totalXp: int,
    level: int,
    xpForNextLevel: int,
    title: Option<string>,
    avatar: Option<string>,
    createdAt: Timestamp,
    updatedAt: Timestamp)

  datatype Area = Mental | Skill | Discipline

  datatype HeroAttribute = HeroAttribute(
    id: string,
    name: string,
    level: int,
    xp: int,
    xpForNextLevel: int,
    area: Area,
    description: string,
    icon: string,
    updatedAt: Timestamp)

  datatype AttributeHistory = AttributeHistory(
    attributeId: string,
    deltaXp: int,
    reason: string,
    sessionId: Option<string>,
    taskId: Option<string>,
    at: Timestamp)

  datatype AttributeGoal = AttributeGoal(
    attributeId: string,
    targetLevel: int,
    targetXp: int,
    currentXp: int,
    description: string,
    dueDate: Option<Timestamp>,
    isActive: bool,
    createdAt: Timestamp,
    updatedAt: Timestamp)

  /** The contents of all eight stores at one moment. */
  datatype Snapshot = Snapshot(
    heroProfile: map<nat, HeroProfile>,
    journeys: map<nat, Journey>,
    tasks: map<string, Task>,
    habits: map<string, Habit>,
    habitCompletions: map<nat, HabitCompletion>,
    heroAttributes: map<string, HeroAttribute>,
    attributeHistory: map<nat, AttributeHistory>,
    attributeGoals: map<nat, AttributeGoal>)

  /** Records keyed by a string `id` field are stored under that id. */
  ghost predicate KeysMatchIds(s: Snapshot)
  {
    && (forall k :: k in s.tasks ==> s.tasks[k].id == k)
    && (forall k :: k in s.habits ==> s.habits[k].id == k)
    && (forall k :: k in s.heroAttributes ==> s.heroAttributes[k].id == k)
  }

  /** The key of the singleton hero profile, the one the app reads (`heroProfile.get(1)`). */
  const ProfileKey: nat := 1

  /** The hero name a new profile gets. */
  const DefaultHeroName := "Herói dos Estudos"

  const EmptySnapshot := Snapshot(map[], map[], map[], map[], map[], map[], map[], map[])

  /** The least key of a non-empty numeric store. */
  ghost function Least(s: set<nat>): (m: nat)
    requires s != {}
    ensures m in s && forall x :: x in s ==> m <= x
  {
    var y :| y in s;
    var rest := s - {y};
    if rest == {} then
      assert forall x :: x in s ==> x == y || x in rest;
      y
    else
      var m := Least(rest);
      assert forall x :: x in s ==> x == y || x in rest;
      if y < m then y else m
  }

  /** The engine's key order: the keys of a numeric store, ascending (the order of `toArray()`). */
  ghost function SortedKeys(s: set<nat>): (r: seq<nat>)
    ensures |r| == |s|
    decreases |s|
  {
    if s == {} then [] else [Least(s)] + SortedKeys(s - {Least(s)})
  }

  /** Exactly the keys, each once, strictly ascending. */
  lemma SortedKeysOrdered(s: set<nat>)
    ensures forall i :: 0 <= i < |SortedKeys(s)| ==> SortedKeys(s)[i] in s
    ensures forall k :: k in s ==> k in SortedKeys(s)
    ensures forall i, j :: 0 <= i < j < |SortedKeys(s)| ==> SortedKeys(s)[i] < SortedKeys(s)[j]
  {
    SortedKeysWithin(s);
    SortedKeysCover(s);
    SortedKeysAscending(s);
  }

  lemma {:induction false} SortedKeysWithin(s: set<nat>)
    ensures forall i :: 0 <= i < |SortedKeys(s)| ==> SortedKeys(s)[i] in s
    decreases |s|
  {
    if s != {} {
      SortedKeysWithin(s - {Least(s)});
    }
  }

  lemma {:induction false} SortedKeysCover(s: set<nat>)
    ensures forall k :: k in s ==> k in SortedKeys(s)
    decreases |s|
  {
    if s != {} {
      var m := Least(s);
      SortedKeysCover(s - {m});
      forall k | k in s ensures k in SortedKeys(s) {
        assert k == m || k in SortedKeys(s - {m});
      }
    }
  }

  lemma {:induction false} SortedKeysAscending(s: set<nat>)
    ensures forall i, j :: 0 <= i < j < |SortedKeys(s)| ==> SortedKeys(s)[i] < SortedKeys(s)[j]
    decreases |s|
  {
    if s != {} {
      SortedKeysAscending(s - {Least(s)});
      SortedKeysWithin(s - {Least(s)});
    }
  }

  /** Reads the keys of a numeric store in the engine's order. */
  method AscendingKeys(s: set<nat>) returns (r: seq<nat>)
    ensures r == SortedKeys(s)
  {
    r := [];
    var remaining := s;
    while remaining != {}
      invariant SortedKeys(s) == r + SortedKeys(remaining)
      decreases |remaining|
    {
      ghost var least := Least(remaining);
      var k :| k in remaining && forall x :: x in remaining ==> k <= x;
      assert k == least;
      r := r + [k];
      remaining := remaining - {k};
    }
  }

  /**
   * Deleting journey `id` with its dependants: the journey, and every task and habit whose
   * `journeyId` is the journey id's decimal text; the other stores are untouched.
   */
  function JourneyDeleted(s: Snapshot, id: nat): (r: Snapshot)
    ensures r == s.(journeys := r.journeys, tasks := r.tasks, habits := r.habits)
    ensures r.journeys == s.journeys - {id}
    ensures forall k :: k in r.tasks <==> k in s.tasks && s.tasks[k].journeyId != NatToString(id)
    ensures forall k :: k in r.tasks ==> r.tasks[k] == s.tasks[k]
    ensures forall k :: k in r.habits <==> k in s.habits && s.habits[k].journeyId != NatToString(id)
    ensures forall k :: k in r.habits ==> r.habits[k] == s.habits[k]
  {
    var text := NatToString(id);
    s.(journeys := s.journeys - {id},
       tasks := map k | k in s.tasks && s.tasks[k].journeyId != text :: s.tasks[k],
       habits := map k | k in s.habits && s.habits[k].journeyId != text :: s.habits[k])
  }

  /** `completeTask`: completed now, with the minutes given (`actualMinutes || 0`). */
  function CompletedTask(t: Task, actualMinutes: Option<int>, now: Timestamp): (r: Task)
    ensures r.completed && r.completedAt == Some(now) && r.updatedAt == now
    ensures r.actualMinutes == actualMinutes.GetOr(0)
    ensures r.(completed := t.completed, completedAt := t.completedAt, actualMinutes := t.actualMinutes, updatedAt := t.updatedAt) == t
  {
    t.(completed := true, completedAt := Some(now), actualMinutes := actualMinutes.GetOr(0), updatedAt := now)
  }

  /**
   * The engine's key generators, one per `++id` store: the key the next `add` receives. A
   * generator only grows; clearing a store does not reset it.
   */
  datatype KeyGenerators = KeyGenerators(
    heroProfile: nat,
    journeys: nat,
    habitCompletions: nat,
    attributeHistory: nat,
    attributeGoals: nat)

  /** Every numeric key in use lies below its store's generator. */
  ghost predicate KeysBelowGenerators(s: Snapshot, g: KeyGenerators)
  {
    && (forall k :: k in s.heroProfile ==> k < g.heroProfile)
    && (forall k :: k in s.journeys ==> k < g.journeys)
    && (forall k :: k in s.habitCompletions ==> k < g.habitCompletions)
    && (forall k :: k in s.attributeHistory ==> k < g.attributeHistory)
    && (forall k :: k in s.attributeGoals ==> k < g.attributeGoals)
  }

  /** The database object: one field per object store, and the stores' key generators. */
  class HeroTaskDatabase {
    var heroProfile: map<nat, HeroProfile>
    var journeys: map<nat, Journey>
    var tasks: map<string, Task>
    var habits: map<string, Habit>
    var habitCompletions: map<nat, HabitCompletion>
    var heroAttributes: map<string, HeroAttribute>
    var attributeHistory: map<nat, AttributeHistory>
    var attributeGoals: map<nat, AttributeGoal>
    var keyGen: KeyGenerators

    function State(): Snapshot
      reads this
    {
      Snapshot(heroProfile, journeys, tasks, habits, habitCompletions, heroAttributes, attributeHistory, attributeGoals)
    }

    ghost predicate Valid()
      reads this
    {
      KeysMatchIds(State()) && KeysBelowGenerators(State(), keyGen)
    }

    /** A freshly opened database has empty stores. */
    constructor ()
      ensures Valid() && State() == EmptySnapshot && keyGen == KeyGenerators(1, 1, 1, 1, 1)
    {
      keyGen := KeyGenerators(1, 1, 1, 1, 1);
      heroProfile, journeys, tasks, habits := map[], map[], map[], map[];
      habitCompletions, heroAttributes, attributeHistory, attributeGoals := map[], map[], map[], map[];
    }
  }
}
