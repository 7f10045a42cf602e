/**
 * The habit operations of `useHabits` (src/hooks/dexie/useHabits.ts): create, patch,
 * complete (one completion record plus the streak), reset the streak, delete with the
 * habit's completions, and the "completed today" query.
 */
module UseHabits {
  import opened Wrappers
  import opened DexieStore

  /** Every habit's streak is non-negative and never above its longest streak. */
  ghost predicate StreaksConsistent(habits: map<string, Habit>)
  {
    forall k :: k in habits ==> 0 <= habits[k].currentStreak <= habits[k].longestStreak
  }

  /** The record `createHabit` adds: the caller's habit stamped with one creation time. */
  function NewHabit(data: Habit, now: Timestamp): (r: Habit)
    ensures r.createdAt == r.updatedAt == now
    ensures r.(createdAt := data.createdAt, updatedAt := data.updatedAt) == data
  {
    data.(createdAt := now, updatedAt := now)
  }

  /**
   * `createHabit`: `add` stores the habit under its own id; the engine rejects the call,
   * changing nothing, when that id is taken.
   */
  method CreateHabit(db: HeroTaskDatabase, data: Habit, now: Timestamp) returns (ok: bool)
    modifies db`habits
    ensures ok <==> data.id !in old(db.habits)
    ensures ok ==> db.habits == old(db.habits)[data.id := NewHabit(data, now)]
    ensures !ok ==> db.habits == old(db.habits)
    ensures old(db.Valid()) ==> db.Valid()
  {
    if data.id in db.habits {
      return false;
    }
    db.habits := db.habits[data.id := NewHabit(data, now)];
    return true;
  }

  /**
   * A `Partial<Habit>` without the primary key: `None` leaves a field as it is, and an
   * optional field is set by `Some(Some(v))` or cleared by `Some(None)`.
   */
  datatype HabitPatch = HabitPatch(
    stageId: Option<string>,
    journeyId: Option<string>,
    kind: Option<HabitType>,
    title: Option<string>,
    description: Option<Option<string>>,
    targetFrequency: Option<int>,
    currentStreak: Option<int>,
    longestStreak: Option<int>,
    lastCompletedAt: Option<Option<Timestamp>>,
    isActive: Option<bool>,
    createdAt: Option<Timestamp>)

  const NoHabitChanges := HabitPatch(None, None, None, None, None, None, None, None, None, None, None)

  /** `{...habit, ...updates, updatedAt}`: given fields replace stored ones, the rest stay. */
  function PatchedHabit(h: Habit, p: HabitPatch, now: Timestamp): (r: Habit)
    ensures r.id == h.id && r.updatedAt == now
    ensures p == NoHabitChanges ==> r == h.(updatedAt := now)
    ensures r.stageId == p.stageId.GetOr(h.stageId) && r.journeyId == p.journeyId.GetOr(h.journeyId)
    ensures r.kind == p.kind.GetOr(h.kind) && r.title == p.title.GetOr(h.title)
    ensures r.description == p.description.GetOr(h.description)
    ensures r.targetFrequency == p.targetFrequency.GetOr(h.targetFrequency)
    ensures r.currentStreak == p.currentStreak.GetOr(h.currentStreak)
    ensures r.longestStreak == p.longestStreak.GetOr(h.longestStreak)
    ensures r.lastCompletedAt == p.lastCompletedAt.GetOr(h.lastCompletedAt)
    ensures r.isActive == p.isActive.GetOr(h.isActive)
    ensures r.createdAt == p.createdAt.GetOr(h.createdAt)
  {
    Habit(h.id, p.stageId.GetOr(h.stageId), p.journeyId.GetOr(h.journeyId), p.kind.GetOr(h.kind),
          p.title.GetOr(h.title), p.description.GetOr(h.description),
          p.targetFrequency.GetOr(h.targetFrequency), p.currentStreak.GetOr(h.currentStreak),
          p.longestStreak.GetOr(h.longestStreak), p.lastCompletedAt.GetOr(h.lastCompletedAt),
          p.isActive.GetOr(h.isActive), p.createdAt.GetOr(h.createdAt), now)
  }

  /** The patch that gives every field but the key the value it has in `h2`. */
  function FullPatch(h2: Habit): (p: HabitPatch)
    ensures p.description == Some(h2.description) && p.lastCompletedAt == Some(h2.lastCompletedAt)
  {
    HabitPatch(Some(h2.stageId), Some(h2.journeyId), Some(h2.kind), Some(h2.title), Some(h2.description),
               Some(h2.targetFrequency), Some(h2.currentStreak), Some(h2.longestStreak),
               Some(h2.lastCompletedAt), Some(h2.isActive), Some(h2.createdAt))
  }

  /** Every habit with the same id is one patch away, optional fields cleared included. */
  lemma PatchReachesAnyHabit(h: Habit, h2: Habit, now: Timestamp)
    requires h2.id == h.id
    ensures PatchedHabit(h, FullPatch(h2), now) == h2.(updatedAt := now)
  {
  }

  /** Applying the same patch twice is applying it once. */
  lemma PatchIsIdempotent(h: Habit, p: HabitPatch, now: Timestamp)
    ensures PatchedHabit(PatchedHabit(h, p, now), p, now) == PatchedHabit(h, p, now)
  {
  }

  /** `update(id, …)`: patches the stored habit; a missing id is left missing. */
  function HabitsUpdated(habits: map<string, Habit>, id: string, p: HabitPatch, now: Timestamp): (r: map<string, Habit>)
    ensures r.Keys == habits.Keys
    ensures id in habits ==> r[id] == PatchedHabit(habits[id], p, now)
    ensures forall k :: k in habits && k != id ==> r[k] == habits[k]
  {
    if id in habits then habits[id := PatchedHabit(habits[id], p, now)] else habits
  }

  /** `updateHabit(id, updates)`. */
  method UpdateHabit(db: HeroTaskDatabase, id: string, p: HabitPatch, now: Timestamp)
    modifies db`habits
    ensures db.habits == HabitsUpdated(old(db.habits), id, p, now)
    ensures old(db.Valid()) ==> db.Valid()
  {
    if id in db.habits {
      db.habits := db.habits[id := PatchedHabit(db.habits[id], p, now)];
    }
  }

  /** The streak patch `completeHabit` writes for a stored habit. */
  function CompletionPatch(h: Habit, now: Timestamp): (p: HabitPatch)
    ensures p.currentStreak == Some(h.currentStreak + 1)
    ensures p.longestStreak.Some? && p.longestStreak.value >= h.longestStreak
    ensures p.longestStreak.value >= h.currentStreak + 1
    ensures p.longestStreak.value == h.longestStreak || p.longestStreak.value == h.currentStreak + 1
    ensures p.lastCompletedAt == Some(Some(now))
    ensures p == NoHabitChanges.(currentStreak := p.currentStreak, longestStreak := p.longestStreak,
                                 lastCompletedAt := p.lastCompletedAt)
  {
    var newStreak := h.currentStreak + 1;
    NoHabitChanges.(currentStreak := Some(newStreak),
                    longestStreak := Some(if h.longestStreak < newStreak then newStreak else h.longestStreak),
                    lastCompletedAt := Some(Some(now)))
  }

  /** The habits after `completeHabit(habitId)`: a stored habit gains one day of streak. */
  function HabitsAfterCompletion(habits: map<string, Habit>, habitId: string, now: Timestamp): (r: map<string, Habit>)
    ensures r.Keys == habits.Keys
    ensures habitId in habits ==>
      && r[habitId].currentStreak == habits[habitId].currentStreak + 1
      && r[habitId].currentStreak <= r[habitId].longestStreak
      && r[habitId].longestStreak >= habits[habitId].longestStreak
      && r[habitId].lastCompletedAt == Some(now)
    ensures forall k :: k in habits && k != habitId ==> r[k] == habits[k]
  {
    if habitId in habits then HabitsUpdated(habits, habitId, CompletionPatch(habits[habitId], now), now)
    else habits
  }

  /** The completion record `completeHabit` adds, under the store's next key. */
  function CompletionsAfter(completions: map<nat, HabitCompletion>, key: nat, habitId: string, notes: Option<string>, now: Timestamp): (r: map<nat, HabitCompletion>)
    ensures r.Keys == completions.Keys + {key}
    ensures r[key] == HabitCompletion(habitId, now, notes)
  {
    completions[key := HabitCompletion(habitId, now, notes)]
  }

  /**
   * `completeHabit(habitId, notes)`: adds one completion record whether or not the habit
   * exists, then, for a stored habit, raises the streak and stamps `lastCompletedAt`.
   */
  method CompleteHabit(db: HeroTaskDatabase, habitId: string, notes: Option<string>, now: Timestamp)
    modifies db`habitCompletions, db`keyGen, db`habits
    ensures db.habitCompletions == CompletionsAfter(old(db.habitCompletions), old(db.keyGen.habitCompletions), habitId, notes, now)
    ensures db.keyGen == old(db.keyGen).(habitCompletions := old(db.keyGen.habitCompletions) + 1)
    ensures db.habits == HabitsAfterCompletion(old(db.habits), habitId, now)
    ensures old(db.Valid()) ==> db.Valid()
  {
    AddCompletion(db, habitId, notes, now);
    if habitId in db.habits {
      var patch := CompletionPatch(db.habits[habitId], now);
      UpdateHabit(db, habitId, patch, now);
    }
  }

  /** `db.habitCompletions.add(...)`: the record goes under the generator's key. */
  method AddCompletion(db: HeroTaskDatabase, habitId: string, notes: Option<string>, now: Timestamp)
    modifies db`habitCompletions, db`keyGen
    ensures db.habitCompletions == CompletionsAfter(old(db.habitCompletions), old(db.keyGen.habitCompletions), habitId, notes, now)
    ensures db.keyGen == old(db.keyGen).(habitCompletions := old(db.keyGen.habitCompletions) + 1)
    ensures old(db.Valid()) ==> db.Valid()
  {
    var key := db.keyGen.habitCompletions;
    db.habitCompletions := db.habitCompletions[key := HabitCompletion(habitId, now, notes)];
    db.keyGen := db.keyGen.(habitCompletions := key + 1);
  }

  /** The streak reset of `resetHabitStreak`. */
  const ResetPatch := NoHabitChanges.(currentStreak := Some(0))

  /** `resetHabitStreak(habitId)`. */
  method ResetHabitStreak(db: HeroTaskDatabase, habitId: string, now: Timestamp)
    modifies db`habits
    ensures db.habits == HabitsUpdated(old(db.habits), habitId, ResetPatch, now)
    ensures old(db.Valid()) ==> db.Valid()
  {
    UpdateHabit(db, habitId, ResetPatch, now);
  }

  /** A reset zeroes the streak and keeps the record, including its longest streak. */
  lemma ResetKeepsLongestStreak(habits: map<string, Habit>, habitId: string, now: Timestamp)
    requires habitId in habits
    ensures var r := HabitsUpdated(habits, habitId, ResetPatch, now)[habitId];
      r.currentStreak == 0 && r.longestStreak == habits[habitId].longestStreak
      && r == habits[habitId].(currentStreak := 0, updatedAt := now)
  {
  }

  /** Completing and resetting keep every streak within its longest streak. */
  lemma {:induction false} CompletionKeepsStreaksConsistent(habits: map<string, Habit>, habitId: string, now: Timestamp)
    requires StreaksConsistent(habits)
    ensures StreaksConsistent(HabitsAfterCompletion(habits, habitId, now))
  {
    var r := HabitsAfterCompletion(habits, habitId, now);
    forall k | k in r
      ensures 0 <= r[k].currentStreak <= r[k].longestStreak
    {
      if k == habitId {
        assert habits[k].currentStreak >= 0;
      } else {
        assert r[k] == habits[k];
      }
    }
  }

  lemma {:induction false} ResetKeepsStreaksConsistent(habits: map<string, Habit>, habitId: string, now: Timestamp)
    requires StreaksConsistent(habits)
    ensures StreaksConsistent(HabitsUpdated(habits, habitId, ResetPatch, now))
  {
    var r := HabitsUpdated(habits, habitId, ResetPatch, now);
    forall k | k in r
      ensures 0 <= r[k].currentStreak <= r[k].longestStreak
    {
      if k == habitId {
        assert habits[k].longestStreak >= 0;
      } else {
        assert r[k] == habits[k];
      }
    }
  }

  /** The state after `deleteHabit(id)`: the habit and exactly its completions are gone. */
  function HabitDeleted(s: Snapshot, id: string): (r: Snapshot)
    ensures r == s.(habits := r.habits, habitCompletions := r.habitCompletions)
    ensures r.habits == s.habits - {id}
    ensures forall k :: k in r.habitCompletions <==> k in s.habitCompletions && s.habitCompletions[k].habitId != id
    ensures forall k :: k in r.habitCompletions ==> r.habitCompletions[k] == s.habitCompletions[k]
  {
    s.(habits := s.habits - {id},
       habitCompletions := map k | k in s.habitCompletions && s.habitCompletions[k].habitId != id :: s.habitCompletions[k])
  }

  /** `deleteHabit(id)`: one transaction deletes the completions and then the habit. */
  method DeleteHabit(db: HeroTaskDatabase, id: string)
    modifies db`habits, db`habitCompletions
    ensures db.State() == HabitDeleted(old(db.State()), id)
    ensures old(db.Valid()) ==> db.Valid()
  {
    db.habitCompletions := map k | k in db.habitCompletions && db.habitCompletions[k].habitId != id :: db.habitCompletions[k];
    db.habits := db.habits - {id};
  }

  /** Deleting twice deletes no more than deleting once. */
  lemma HabitDeleteIsIdempotent(s: Snapshot, id: string)
    ensures HabitDeleted(HabitDeleted(s, id), id) == HabitDeleted(s, id)
  {
    var once := HabitDeleted(s, id);
    var twice := HabitDeleted(once, id);
    assert twice.habitCompletions == once.habitCompletions;
  }

  /** A completion of `habitId` inside the day that starts at `today` and ends before `tomorrow`. */
  ghost predicate CompletedWithin(completions: map<nat, HabitCompletion>, habitId: string, today: Timestamp, tomorrow: Timestamp)
  {
    exists k :: k in completions && InDay(completions[k], habitId, today, tomorrow)
  }

  predicate InDay(c: HabitCompletion, habitId: string, today: Timestamp, tomorrow: Timestamp)
  {
    c.habitId == habitId && today <= c.completedAt < tomorrow
  }

  /** The index scan behind `wasCompletedToday`: the first matching key, in key order. */
  method FirstInDay(completions: map<nat, HabitCompletion>, keys: seq<nat>, habitId: string, today: Timestamp, tomorrow: Timestamp)
    returns (found: Option<nat>)
    requires forall i :: 0 <= i < |keys| ==> keys[i] in completions
    requires forall k :: k in completions ==> k in keys
    ensures found.Some? ==> found.value in completions && InDay(completions[found.value], habitId, today, tomorrow)
    ensures found.None? <==> !CompletedWithin(completions, habitId, today, tomorrow)
  {
    var i := 0;
    while i < |keys|
      invariant 0 <= i <= |keys|
      invariant forall j :: 0 <= j < i ==> !InDay(completions[keys[j]], habitId, today, tomorrow)
    {
      if InDay(completions[keys[i]], habitId, today, tomorrow) {
        return Some(keys[i]);
      }
      i := i + 1;
    }
    return None;
  }

  /**
   * `wasCompletedToday(habitId)`: `today` is the local midnight before the clock reading and
   * `tomorrow` the one after it, both supplied by the caller.
   */
  method WasCompletedToday(db: HeroTaskDatabase, habitId: string, today: Timestamp, tomorrow: Timestamp)
    returns (r: bool)
    ensures r <==> CompletedWithin(db.habitCompletions, habitId, today, tomorrow)
  {
    var keys := AscendingKeys(db.habitCompletions.Keys);
    SortedKeysOrdered(db.habitCompletions.Keys);
    var first := FirstInDay(db.habitCompletions, keys, habitId, today, tomorrow);
    r := first.Some?;
  }

  /** A completion recorded at a moment of the day makes the habit count as done that day. */
  lemma CompletionCountsToday(completions: map<nat, HabitCompletion>, key: nat, habitId: string, notes: Option<string>,
                              now: Timestamp, today: Timestamp, tomorrow: Timestamp)
    requires today <= now < tomorrow
    ensures CompletedWithin(CompletionsAfter(completions, key, habitId, notes, now), habitId, today, tomorrow)
  {
    var r := CompletionsAfter(completions, key, habitId, notes, now);
    assert InDay(r[key], habitId, today, tomorrow);
  }

  /** After `deleteHabit(id)` the habit never counts as completed, whatever the day. */
  lemma {:induction false} DeletedHabitNeverCompleted(s: Snapshot, id: string, today: Timestamp, tomorrow: Timestamp)
    ensures !CompletedWithin(HabitDeleted(s, id).habitCompletions, id, today, tomorrow)
  {
    var c := HabitDeleted(s, id).habitCompletions;
    forall k | k in c
      ensures !InDay(c[k], id, today, tomorrow)
    {
      assert c[k].habitId != id;
    }
  }
}
