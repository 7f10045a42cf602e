/**
 * Post-initialisation migrations of the document store (src/db/dexie/migrations/postInit.ts):
 * stage-id normalisation with the habit references that follow the stages, and the copy of
 * every task embedded in a journey's stages into the flat `tasks` store.
 */
module PostInit {
  import opened Wrappers
  import opened JsText
  import opened DexieStore

  // ---------------------------------------------------------------- stage ids

  /** `stage--{journeyId}--{index}`, the id every stage is normalised to. */
  function CanonicalStageId(journeyId: nat, index: nat): string
  {
    "stage--" + NatToString(journeyId) + "--" + NatToString(index)
  }

  /** Different (journey, index) pairs give different canonical ids. */
  lemma CanonicalStageIdInjective(j1: nat, i1: nat, j2: nat, i2: nat)
    requires CanonicalStageId(j1, i1) == CanonicalStageId(j2, i2)
    ensures j1 == j2 && i1 == i2
  {
    var prefix := "stage--";
    var x := NatToString(j1) + "--" + NatToString(i1);
    var y := NatToString(j2) + "--" + NatToString(i2);
    assert CanonicalStageId(j1, i1) == prefix + x;
    assert CanonicalStageId(j2, i2) == prefix + y;
    assert x == (prefix + x)[|prefix|..];
    assert y == (prefix + y)[|prefix|..];
    DigitsSplitUnique(NatToString(j1), NatToString(i1), NatToString(j2), NatToString(i2), "--");
    NatToStringInjective(j1, j2);
    NatToStringInjective(i1, i2);
  }

  /** The stage at `index` after normalisation: re-stamped only when its id changes. */
  function NormalizedStage(journeyId: nat, index: nat, stage: Stage, now: Timestamp): Stage
  {
    var expected := CanonicalStageId(journeyId, index);
    if stage.id != expected then stage.(id := expected, updatedAt := now) else stage
  }

  function NormalizedStages(journeyId: nat, stages: seq<Stage>, now: Timestamp): (r: seq<Stage>)
    ensures |r| == |stages|
    ensures forall i :: 0 <= i < |r| ==> r[i].id == CanonicalStageId(journeyId, i)
    ensures forall i :: 0 <= i < |r| && stages[i].id == CanonicalStageId(journeyId, i) ==> r[i] == stages[i]
  {
    seq(|stages|, i requires 0 <= i < |stages| => NormalizedStage(journeyId, i, stages[i], now))
  }

  // ------------------------------------------------ the old-id -> new-id record

  /**
   * A string-keyed record in property order: assigning an existing key keeps its place,
   * a new key is appended (the order `Object.entries` reports).
   */
  type Renames = seq<(string, string)>

  function Lookup(m: Renames, k: string): Option<string>
  {
    if m == [] then None
    else if m[0].0 == k then Some(m[0].1)
    else Lookup(m[1..], k)
  }

  lemma {:induction false} LookupAbsent(m: Renames, k: string)
    requires forall p :: 0 <= p < |m| ==> m[p].0 != k
    ensures Lookup(m, k) == None
  {
    if m != [] {
      LookupAbsent(m[1..], k);
    }
  }

  /** `record[k] = v`: an existing key keeps its place, a new one is appended. */
  function Put(m: Renames, k: string, v: string): (r: Renames)
    ensures r != [] && Lookup(r, k) == Some(v)
    ensures forall k' :: k' != k ==> Lookup(r, k') == Lookup(m, k')
    ensures Lookup(m, k).Some? ==> |r| == |m|
    ensures Lookup(m, k).None? ==> r == m + [(k, v)]
  {
    if m == [] then [(k, v)]
    else if m[0].0 == k then [(k, v)] + m[1..]
    else
      var rest := Put(m[1..], k, v);
      assert ([m[0]] + rest)[1..] == rest;
      assert Lookup(m, k).None? ==> m + [(k, v)] == [m[0]] + (m[1..] + [(k, v)]);
      [m[0]] + rest
  }

  /** The ids the stages carry. */
  function StageIds(stages: seq<Stage>): set<string>
  {
    set i | 0 <= i < |stages| :: stages[i].id
  }

  /** The record built while mapping the stages: every stage whose id is not canonical. */
  function StageRenames(journeyId: nat, stages: seq<Stage>): (r: Renames)
    ensures |r| <= |stages|
    ensures forall k :: Lookup(r, k).Some? ==> k in StageIds(stages)
  {
    if stages == [] then []
    else
      var i := |stages| - 1;
      var m := StageRenames(journeyId, stages[..i]);
      assert forall j :: 0 <= j < i ==> stages[..i][j] == stages[j];
      assert StageIds(stages[..i]) <= StageIds(stages);
      if stages[i].id != CanonicalStageId(journeyId, i) then Put(m, stages[i].id, CanonicalStageId(journeyId, i)) else m
  }

  /** The last index whose stage has id `oldId` and is renamed. */
  ghost predicate LastRenamedAt(journeyId: nat, stages: seq<Stage>, oldId: string, i: nat)
  {
    && i < |stages| && stages[i].id == oldId && oldId != CanonicalStageId(journeyId, i)
    && forall i' :: i < i' < |stages| && stages[i'].id == oldId ==> oldId == CanonicalStageId(journeyId, i')
  }

  /**
   * The record maps an old id to the canonical id of the LAST stage that carried it and is
   * renamed, and holds no other keys.
   */
  lemma {:induction false} StageRenamesLookup(journeyId: nat, stages: seq<Stage>, oldId: string)
    ensures Lookup(StageRenames(journeyId, stages), oldId).None? <==>
              forall i :: 0 <= i < |stages| && stages[i].id == oldId ==> oldId == CanonicalStageId(journeyId, i)
    ensures forall i: nat :: LastRenamedAt(journeyId, stages, oldId, i) ==>
              Lookup(StageRenames(journeyId, stages), oldId) == Some(CanonicalStageId(journeyId, i))
  {
    if stages != [] {
      var n := |stages| - 1;
      var prefix := stages[..n];
      StageRenamesLookup(journeyId, prefix, oldId);
      assert forall i :: 0 <= i < n ==> prefix[i] == stages[i];
      var m := StageRenames(journeyId, prefix);
      var r := StageRenames(journeyId, stages);
      if stages[n].id == oldId && oldId != CanonicalStageId(journeyId, n) {
        assert r == Put(m, oldId, CanonicalStageId(journeyId, n));
        forall i: nat | LastRenamedAt(journeyId, stages, oldId, i)
          ensures i == n
        {
        }
      } else {
        assert Lookup(r, oldId) == Lookup(m, oldId);
        forall i: nat | LastRenamedAt(journeyId, stages, oldId, i)
          ensures Lookup(r, oldId) == Some(CanonicalStageId(journeyId, i))
        {
          assert i < n && LastRenamedAt(journeyId, prefix, oldId, i);
        }
      }
    }
  }

  /** The journey is written exactly when some stage id is not canonical. */
  lemma {:induction false} StageRenamesEmpty(journeyId: nat, stages: seq<Stage>)
    ensures StageRenames(journeyId, stages) == [] <==>
              forall i :: 0 <= i < |stages| ==> stages[i].id == CanonicalStageId(journeyId, i)
  {
    if stages != [] {
      var n := |stages| - 1;
      StageRenamesEmpty(journeyId, stages[..n]);
      assert forall i :: 0 <= i < n ==> stages[..n][i] == stages[i];
    }
  }

  /** One journey after normalisation (`hasChanges` decides whether it is written). */
  function MigratedJourney(journeyId: nat, journey: Journey, now: Timestamp): (r: Journey)
    ensures r == journey.(stages := r.stages, updatedAt := r.updatedAt)
    ensures |r.stages| == |journey.stages|
    ensures forall i :: 0 <= i < |r.stages| ==> r.stages[i].id == CanonicalStageId(journeyId, i)
    ensures StageRenames(journeyId, journey.stages) != [] ==> r.updatedAt == now
  {
    StageRenamesEmpty(journeyId, journey.stages);
    if StageRenames(journeyId, journey.stages) == [] then journey
    else journey.(stages := NormalizedStages(journeyId, journey.stages, now), updatedAt := now)
  }

  // ------------------------------------------------------------ habit renames

  /** The corrected rename: every habit is looked up once in the record. */
  function RenamedHabit(habit: Habit, renames: Renames, journeyIdText: string, now: Timestamp): Habit
  {
    match Lookup(renames, habit.stageId)
    case None => habit
    case Some(newId) => habit.(stageId := newId, journeyId := journeyIdText, updatedAt := now)
  }

  function RenameHabitsAtOnce(habits: map<string, Habit>, renames: Renames, journeyIdText: string, now: Timestamp)
    : (r: map<string, Habit>)
    ensures r.Keys == habits.Keys
  {
    map k | k in habits :: RenamedHabit(habits[k], renames, journeyIdText, now)
  }

  /** One `where('stageId').equals(oldId).modify(...)` call. */
  function ModifyWhereStageId(habits: map<string, Habit>, oldId: string, newId: string, journeyIdText: string, now: Timestamp)
    : (r: map<string, Habit>)
    ensures r.Keys == habits.Keys
  {
    map k | k in habits ::
      if habits[k].stageId == oldId then habits[k].(stageId := newId, journeyId := journeyIdText, updatedAt := now)
      else habits[k]
  }

  /** The rename as written: one `modify` per record entry, in property order. */
  function RenameHabitsSequential(habits: map<string, Habit>, renames: Renames, journeyIdText: string, now: Timestamp)
    : (r: map<string, Habit>)
    ensures r.Keys == habits.Keys
  {
    if renames == [] then habits
    else RenameHabitsSequential(ModifyWhereStageId(habits, renames[0].0, renames[0].1, journeyIdText, now),
                                renames[1..], journeyIdText, now)
  }

  /** No new id is also an old id. */
  predicate OldAndNewDisjoint(m: Renames)
  {
    forall p, q :: 0 <= p < |m| && 0 <= q < |m| ==> m[p].1 != m[q].0
  }

  /** When no new id is also an old id, the sequential renames are the intended ones. */
  lemma {:induction false} SequentialAgreesWhenDisjoint(habits: map<string, Habit>, renames: Renames, journeyIdText: string, now: Timestamp)
    requires OldAndNewDisjoint(renames)
    ensures RenameHabitsSequential(habits, renames, journeyIdText, now) == RenameHabitsAtOnce(habits, renames, journeyIdText, now)
  {
    if renames != [] {
      var (o, n) := renames[0];
      var rest := renames[1..];
      var modified := ModifyWhereStageId(habits, o, n, journeyIdText, now);
      SequentialAgreesWhenDisjoint(modified, rest, journeyIdText, now);
      LookupAbsent(rest, n);
      var lhs := RenameHabitsAtOnce(modified, rest, journeyIdText, now);
      var rhs := RenameHabitsAtOnce(habits, renames, journeyIdText, now);
      forall k | k in habits ensures lhs[k] == rhs[k] {
        if habits[k].stageId != o {
          assert Lookup(renames, habits[k].stageId) == Lookup(rest, habits[k].stageId);
        }
      }
      assert lhs == rhs;
    }
  }

  /** Two stages of journey 1, each carrying the other's canonical id. */
  function SwappedStage(id: string): Stage
  {
    Stage(id, "", None, 1, 0, 0, NotStarted, 0, [], 0, 0)
  }

  function HabitOn(stageId: string): Habit
  {
    Habit("h", stageId, "1", DailyReview, "", None, 1, 0, 0, None, true, 0, 0)
  }

  /**
   * The habit of the stage at index 0 (old id `stage--1--1`, new id `stage--1--0`) ends on
   * `stage--1--1`, the stage at index 1, because the second `modify` renames it again.
   */
  lemma SwappedStageIdsRenameTwice()
    ensures var stages := [SwappedStage("stage--1--1"), SwappedStage("stage--1--0")];
            var renames := StageRenames(1, stages);
            var habits := map["h" := HabitOn("stage--1--1")];
            && renames == [("stage--1--1", "stage--1--0"), ("stage--1--0", "stage--1--1")]
            && RenameHabitsSequential(habits, renames, "1", 5)["h"].stageId == "stage--1--1"
            && RenameHabitsAtOnce(habits, renames, "1", 5)["h"].stageId == "stage--1--0"
  {
    assert NatToString(0) == "0" && NatToString(1) == "1";
    assert CanonicalStageId(1, 0) == "stage--1--0";
    assert CanonicalStageId(1, 1) == "stage--1--1";
    var stages := [SwappedStage("stage--1--1"), SwappedStage("stage--1--0")];
    assert stages[..1] == [SwappedStage("stage--1--1")];
    assert stages[..1][..0] == [];
    var renames := StageRenames(1, stages);
    assert StageRenames(1, stages[..1]) == [("stage--1--1", "stage--1--0")];
    assert "stage--1--1" != "stage--1--0" by { assert "stage--1--1"[10] != "stage--1--0"[10]; }
    assert Put([("stage--1--1", "stage--1--0")], "stage--1--0", "stage--1--1")
        == [("stage--1--1", "stage--1--0"), ("stage--1--0", "stage--1--1")];
    assert renames == [("stage--1--1", "stage--1--0"), ("stage--1--0", "stage--1--1")];
    var habits := map["h" := HabitOn("stage--1--1")];
    var once := ModifyWhereStageId(habits, "stage--1--1", "stage--1--0", "1", 5);
    assert once["h"].stageId == "stage--1--0";
    assert renames[1..] == [("stage--1--0", "stage--1--1")];
    var twice := ModifyWhereStageId(once, "stage--1--0", "stage--1--1", "1", 5);
    assert twice["h"].stageId == "stage--1--1";
    assert RenameHabitsSequential(habits, renames, "1", 5) == RenameHabitsSequential(twice, [], "1", 5);
  }

  // ------------------------------------------------- the whole stage-id pass

  /**
   * The journeys `keys` processed in order, each read from the snapshot `journeys` taken
   * when the transaction starts; habits are renamed after each changed journey.
   */
  function MigrateJourneys(keys: seq<nat>, journeys: map<nat, Journey>, habits: map<string, Habit>, now: Timestamp)
    : (r: (map<nat, Journey>, map<string, Habit>))
    requires forall i :: 0 <= i < |keys| ==> keys[i] in journeys
    ensures r.0.Keys == journeys.Keys && r.1.Keys == habits.Keys
  {
    if keys == [] then (journeys, habits)
    else
      var (js, hs) := MigrateJourneys(keys[..|keys| - 1], journeys, habits, now);
      var k := keys[|keys| - 1];
      MigrateOne(k, journeys[k], js, hs, now)
  }

  /** One journey of the pass: written, and its old stage ids renamed in the habits, if it changed. */
  function MigrateOne(k: nat, journey: Journey, js: map<nat, Journey>, hs: map<string, Habit>, now: Timestamp)
    : (r: (map<nat, Journey>, map<string, Habit>))
    requires k in js
    ensures r.0.Keys == js.Keys && r.1.Keys == hs.Keys
  {
    var renames := StageRenames(k, journey.stages);
    if renames == [] then (js, hs)
    else (js[k := MigratedJourney(k, journey, now)], RenameHabitsAtOnce(hs, renames, NatToString(k), now))
  }

  /** The store after `migrateStageIds` (with the corrected habit rename). */
  ghost function StageIdsMigrated(s: Snapshot, now: Timestamp): (r: Snapshot)
    ensures r == s.(journeys := r.journeys, habits := r.habits)
    ensures r.journeys.Keys == s.journeys.Keys && r.habits.Keys == s.habits.Keys
    ensures forall k :: k in s.journeys ==> |r.journeys[k].stages| == |s.journeys[k].stages|
  {
    var keys := SortedKeys(s.journeys.Keys);
    SortedKeysOrdered(s.journeys.Keys);
    MigrateJourneysAt(keys, s.journeys, s.habits, now);
    var (js, hs) := MigrateJourneys(keys, s.journeys, s.habits, now);
    s.(journeys := js, habits := hs)
  }

  /** Each journey that was processed holds its normalised form; the others are untouched. */
  lemma {:induction false} MigrateJourneysAt(keys: seq<nat>, journeys: map<nat, Journey>, habits: map<string, Habit>, now: Timestamp)
    requires forall i :: 0 <= i < |keys| ==> keys[i] in journeys
    ensures forall k :: k in journeys ==>
              MigrateJourneys(keys, journeys, habits, now).0[k] == if k in keys then MigratedJourney(k, journeys[k], now) else journeys[k]
  {
    if keys != [] {
      var n := |keys| - 1;
      MigrateJourneysAt(keys[..n], journeys, habits, now);
      var prev := MigrateJourneys(keys[..n], journeys, habits, now).0;
      var next := MigrateJourneys(keys, journeys, habits, now).0;
      forall k | k in journeys
        ensures next[k] == if k in keys then MigratedJourney(k, journeys[k], now) else journeys[k]
      {
        if k != keys[n] {
          assert next[k] == prev[k];
          assert keys == keys[..n] + [keys[n]];
          assert k in keys <==> k in keys[..n];
        }
      }
    }
  }

  /** After the pass the store holds every journey in normalised form. */
  lemma MigratedJourneysAre(s: Snapshot, now: Timestamp)
    ensures StageIdsMigrated(s, now).journeys.Keys == s.journeys.Keys
    ensures forall k :: k in s.journeys ==> StageIdsMigrated(s, now).journeys[k] == MigratedJourney(k, s.journeys[k], now)
  {
    SortedKeysOrdered(s.journeys.Keys);
    MigrateJourneysAt(SortedKeys(s.journeys.Keys), s.journeys, s.habits, now);
  }

  /** The stage at index i of journey k has id `stage--{k}--{i}`; stage count and order are kept. */
  lemma StageIdsCanonicalAfterMigration(s: Snapshot, now: Timestamp, k: nat, i: nat)
    requires k in s.journeys && i < |s.journeys[k].stages|
    ensures k in StageIdsMigrated(s, now).journeys
    ensures |StageIdsMigrated(s, now).journeys[k].stages| == |s.journeys[k].stages|
    ensures StageIdsMigrated(s, now).journeys[k].stages[i].id == CanonicalStageId(k, i)
    ensures StageIdsMigrated(s, now).journeys[k].stages[i] == NormalizedStage(k, i, s.journeys[k].stages[i], now)
  {
    MigratedJourneysAre(s, now);
    var stages := s.journeys[k].stages;
    NormalizedStagesAre(k, stages, now);
    if StageRenames(k, stages) == [] {
      StageRenamesEmpty(k, stages);
      assert stages[i].id == CanonicalStageId(k, i);
    }
  }

  /** No two stages anywhere in the store share an id after the pass. */
  lemma StageIdsDistinctAfterMigration(s: Snapshot, now: Timestamp, k1: nat, i1: nat, k2: nat, i2: nat)
    requires k1 in s.journeys && i1 < |s.journeys[k1].stages|
    requires k2 in s.journeys && i2 < |s.journeys[k2].stages|
    requires k1 != k2 || i1 != i2
    ensures StageIdsMigrated(s, now).journeys[k1].stages[i1].id != StageIdsMigrated(s, now).journeys[k2].stages[i2].id
  {
    StageIdsCanonicalAfterMigration(s, now, k1, i1);
    StageIdsCanonicalAfterMigration(s, now, k2, i2);
    if CanonicalStageId(k1, i1) == CanonicalStageId(k2, i2) {
      CanonicalStageIdInjective(k1, i1, k2, i2);
      assert false;
    }
  }

  /** A journey is rewritten (and re-stamped) only if one of its stage ids was not canonical. */
  lemma JourneyWrittenOnlyIfChanged(s: Snapshot, now: Timestamp, k: nat)
    requires k in s.journeys
    ensures StageIdsMigrated(s, now).journeys[k] == s.journeys[k] <==>
              forall i :: 0 <= i < |s.journeys[k].stages| ==> s.journeys[k].stages[i].id == CanonicalStageId(k, i)
    ensures StageIdsMigrated(s, now).journeys[k] != s.journeys[k] ==> StageIdsMigrated(s, now).journeys[k].updatedAt == now
  {
    MigratedJourneysAre(s, now);
    var stages := s.journeys[k].stages;
    StageRenamesEmpty(k, stages);
    if exists i :: 0 <= i < |stages| && stages[i].id != CanonicalStageId(k, i) {
      var i :| 0 <= i < |stages| && stages[i].id != CanonicalStageId(k, i);
      assert NormalizedStages(k, stages, now)[i].id != stages[i].id;
    }
  }

  /** Stages already canonical come back unchanged (same record, same `updatedAt`). */
  lemma CanonicalStageUnchanged(s: Snapshot, now: Timestamp, k: nat, i: nat)
    requires k in s.journeys && i < |s.journeys[k].stages|
    requires s.journeys[k].stages[i].id == CanonicalStageId(k, i)
    ensures StageIdsMigrated(s, now).journeys[k].stages[i] == s.journeys[k].stages[i]
  {
    StageIdsCanonicalAfterMigration(s, now, k, i);
  }

  /** If no journey needs a rename, the pass changes nothing. */
  lemma {:induction false} MigrateJourneysNoop(keys: seq<nat>, journeys: map<nat, Journey>, habits: map<string, Habit>, now: Timestamp)
    requires forall i :: 0 <= i < |keys| ==> keys[i] in journeys
    requires forall i :: 0 <= i < |keys| ==> StageRenames(keys[i], journeys[keys[i]].stages) == []
    ensures MigrateJourneys(keys, journeys, habits, now) == (journeys, habits)
  {
    if keys != [] {
      MigrateJourneysNoop(keys[..|keys| - 1], journeys, habits, now);
    }
  }

  /** Running the pass a second time, at any later moment, changes nothing. */
  lemma StageIdMigrationIdempotent(s: Snapshot, now: Timestamp, later: Timestamp)
    ensures StageIdsMigrated(StageIdsMigrated(s, now), later) == StageIdsMigrated(s, now)
  {
    var s1 := StageIdsMigrated(s, now);
    MigratedJourneysAre(s, now);
    SortedKeysOrdered(s1.journeys.Keys);
    var keys := SortedKeys(s1.journeys.Keys);
    forall p | 0 <= p < |keys| ensures StageRenames(keys[p], s1.journeys[keys[p]].stages) == []
    {
      var k := keys[p];
      forall i | 0 <= i < |s1.journeys[k].stages| ensures s1.journeys[k].stages[i].id == CanonicalStageId(k, i) {
        StageIdsCanonicalAfterMigration(s, now, k, i);
      }
      StageRenamesEmpty(k, s1.journeys[k].stages);
    }
    MigrateJourneysNoop(keys, s1.journeys, s1.habits, later);
  }

  /** A habit is renamed by a journey only if its stage id is one of that journey's old ids. */
  lemma {:induction false} HabitUntouchedAcrossJourneys(keys: seq<nat>, journeys: map<nat, Journey>, habits: map<string, Habit>, now: Timestamp, h: string)
    requires forall i :: 0 <= i < |keys| ==> keys[i] in journeys
    requires h in habits
    requires forall i :: 0 <= i < |keys| ==> Lookup(StageRenames(keys[i], journeys[keys[i]].stages), habits[h].stageId).None?
    ensures h in MigrateJourneys(keys, journeys, habits, now).1
    ensures MigrateJourneys(keys, journeys, habits, now).1[h] == habits[h]
  {
    if keys != [] {
      HabitUntouchedAcrossJourneys(keys[..|keys| - 1], journeys, habits, now, h);
    }
  }

  /** Habits that point at no stage needing a rename keep their record. */
  lemma HabitsWithoutRenamedStageUntouched(s: Snapshot, now: Timestamp, h: string)
    requires h in s.habits
    requires forall k, i :: k in s.journeys && 0 <= i < |s.journeys[k].stages| && s.journeys[k].stages[i].id == s.habits[h].stageId
               ==> s.habits[h].stageId == CanonicalStageId(k, i)
    ensures h in StageIdsMigrated(s, now).habits && StageIdsMigrated(s, now).habits[h] == s.habits[h]
  {
    SortedKeysOrdered(s.journeys.Keys);
    var keys := SortedKeys(s.journeys.Keys);
    forall p | 0 <= p < |keys| ensures Lookup(StageRenames(keys[p], s.journeys[keys[p]].stages), s.habits[h].stageId).None? {
      StageRenamesLookup(keys[p], s.journeys[keys[p]].stages, s.habits[h].stageId);
    }
    HabitUntouchedAcrossJourneys(keys, s.journeys, s.habits, now, h);
  }

  /**
   * For one journey: a habit on the last renamed stage carrying `oldId` moves to that stage's
   * canonical id and records the journey's id; its id and every other field are kept.
   */
  lemma HabitFollowsItsStage(journeyId: nat, stages: seq<Stage>, habits: map<string, Habit>, now: Timestamp, h: string, i: nat)
    requires h in habits && LastRenamedAt(journeyId, stages, habits[h].stageId, i)
    ensures var r := RenameHabitsAtOnce(habits, StageRenames(journeyId, stages), NatToString(journeyId), now);
            h in r && r[h] == habits[h].(stageId := CanonicalStageId(journeyId, i), journeyId := NatToString(journeyId), updatedAt := now)
  {
    StageRenamesLookup(journeyId, stages, habits[h].stageId);
  }

  /**
   * The `journey.stages.map(...)` callback of `migrateStageIds`, run over one journey: the
   * normalised stages, the old id -> new id record and the `hasChanges` flag.
   */
  method NormalizeJourneyStages(k: nat, journey: Journey, now: Timestamp)
    returns (stages: seq<Stage>, stageIdMapping: Renames, hasChanges: bool)
    ensures |stages| == |journey.stages|
    ensures forall p :: 0 <= p < |stages| ==> stages[p].id == CanonicalStageId(k, p)
    ensures stages == NormalizedStages(k, journey.stages, now)
    ensures stageIdMapping == StageRenames(k, journey.stages)
    ensures hasChanges == (stageIdMapping != [])
    ensures hasChanges <==> exists p :: 0 <= p < |journey.stages| && journey.stages[p].id != CanonicalStageId(k, p)
  {
    hasChanges := false;
    stageIdMapping := [];
    stages := [];
    var index := 0;
    while index < |journey.stages|
      invariant 0 <= index <= |journey.stages|
      invariant stages == NormalizedStages(k, journey.stages[..index], now)
      invariant stageIdMapping == StageRenames(k, journey.stages[..index])
      invariant hasChanges == (stageIdMapping != [])
    {
      var stage := journey.stages[index];
      var expectedId := CanonicalStageId(k, index);
      StageRenamesStep(k, journey.stages, index);
      NormalizedStagesStep(k, journey.stages, index, now);
      if stage.id != expectedId {
        stageIdMapping := Put(stageIdMapping, stage.id, expectedId);
        hasChanges := true;
        stages := stages + [stage.(id := expectedId, updatedAt := now)];
      } else {
        stages := stages + [stage];
      }
      index := index + 1;
    }
    assert journey.stages[..index] == journey.stages;
    StageRenamesEmpty(k, journey.stages);
    NormalizedStagesAre(k, journey.stages, now);
  }

  lemma NormalizedStagesStep(k: nat, stages: seq<Stage>, i: nat, now: Timestamp)
    requires i < |stages|
    ensures NormalizedStages(k, stages[..i + 1], now) == NormalizedStages(k, stages[..i], now) + [NormalizedStage(k, i, stages[i], now)]
  {
    var a, b := NormalizedStages(k, stages[..i + 1], now), NormalizedStages(k, stages[..i], now) + [NormalizedStage(k, i, stages[i], now)];
    assert |a| == |b|;
    forall p | 0 <= p < |a| ensures a[p] == b[p] {
      assert stages[..i + 1][p] == stages[p];
    }
  }

  /** One more stage of the mapping callback. */
  lemma StageRenamesStep(k: nat, stages: seq<Stage>, i: nat)
    requires i < |stages|
    ensures StageRenames(k, stages[..i + 1]) ==
      if stages[i].id != CanonicalStageId(k, i) then Put(StageRenames(k, stages[..i]), stages[i].id, CanonicalStageId(k, i))
      else StageRenames(k, stages[..i])
  {
    assert stages[..i + 1][..i] == stages[..i];
  }

  /** The normalised stages keep their number and carry the canonical ids. */
  lemma NormalizedStagesAre(k: nat, stages: seq<Stage>, now: Timestamp)
    ensures |NormalizedStages(k, stages, now)| == |stages|
    ensures forall p :: 0 <= p < |stages| ==> NormalizedStages(k, stages, now)[p] == NormalizedStage(k, p, stages[p], now)
    ensures forall p :: 0 <= p < |stages| ==> NormalizedStages(k, stages, now)[p].id == CanonicalStageId(k, p)
  {
  }

  /** One more journey of the pass. */
  lemma MigrateJourneysStep(keys: seq<nat>, n: nat, journeys: map<nat, Journey>, habits: map<string, Habit>, now: Timestamp)
    requires n < |keys| && forall i :: 0 <= i < |keys| ==> keys[i] in journeys
    ensures var prev := MigrateJourneys(keys[..n], journeys, habits, now);
            keys[n] in prev.0 &&
            MigrateJourneys(keys[..n + 1], journeys, habits, now) == MigrateOne(keys[n], journeys[keys[n]], prev.0, prev.1, now)
  {
    assert keys[..n + 1][..n] == keys[..n];
  }

  /** The body of the journey loop: write the journey and rename habits if it changed. */
  method MigrateJourney(db: HeroTaskDatabase, k: nat, journey: Journey, now: Timestamp)
    requires k in db.journeys
    modifies db`journeys, db`habits
    ensures (db.journeys, db.habits) == MigrateOne(k, journey, old(db.journeys), old(db.habits), now)
  {
    var stages, stageIdMapping, hasChanges := NormalizeJourneyStages(k, journey, now);
    if hasChanges {
      db.journeys := db.journeys[k := journey.(stages := stages, updatedAt := now)];
      db.habits := RenameHabitsAtOnce(db.habits, stageIdMapping, NatToString(k), now);
    }
  }

  /**
   * `migrateStageIds`: for every journey, in key order, normalise its stages; if anything
   * changed, write the journey and rename the habits that pointed at an old id.
   */
  method MigrateStageIds(db: HeroTaskDatabase, now: Timestamp)
    modifies db`journeys, db`habits
    ensures db.State() == StageIdsMigrated(old(db.State()), now)
  {
    var keys := AscendingKeys(db.journeys.Keys);
    SortedKeysOrdered(db.journeys.Keys);
    MigrateJourneysInOrder(db, keys, now);
  }

  /** The loop over the journeys, in the order given by `keys`, each read before the loop. */
  method MigrateJourneysInOrder(db: HeroTaskDatabase, keys: seq<nat>, now: Timestamp)
    requires forall j :: 0 <= j < |keys| ==> keys[j] in db.journeys
    modifies db`journeys, db`habits
    ensures (db.journeys, db.habits) == MigrateJourneys(keys, old(db.journeys), old(db.habits), now)
  {
    var journeys, habits := db.journeys, db.habits;
    var i := 0;
    while i < |keys|
      invariant 0 <= i <= |keys|
      invariant (db.journeys, db.habits) == MigrateJourneys(keys[..i], journeys, habits, now)
    {
      MigrateJourneysStep(keys, i, journeys, habits, now);
      MigrateJourney(db, keys[i], journeys[keys[i]], now);
      i := i + 1;
    }
    assert keys[..i] == keys;
  }

  // ------------------------------------------------------------------ task sync

  /** `task.id || task--{stageId}--{taskIndex}`. */
  function SyncedTaskId(task: Task, stageId: string, taskIndex: nat): (id: string)
    ensures id != ""
    ensures task.id != "" ==> id == task.id
  {
    if task.id != "" then task.id else "task--" + stageId + "--" + NatToString(taskIndex)
  }

  /** `{...task, id: taskId, stageId: stage.id, journeyId: String(journey.id), updatedAt}`. */
  function SyncedTask(task: Task, stageId: string, journeyIdText: string, taskIndex: nat, now: Timestamp): Task
  {
    task.(id := SyncedTaskId(task, stageId, taskIndex), stageId := stageId, journeyId := journeyIdText, updatedAt := now)
  }

  function KeepIfAbsent<T>(given: Option<T>, existing: Option<T>): Option<T>
  {
    if given.Some? then given else existing
  }

  /**
   * `table.update(key, changes)`: every property the object carries is written; an optional
   * property it does not carry keeps the stored value.
   */
  function MergeUpdate(existing: Task, changes: Task): (r: Task)
  {
    changes.(description := KeepIfAbsent(changes.description, existing.description),
             completedAt := KeepIfAbsent(changes.completedAt, existing.completedAt),
             startDate := KeepIfAbsent(changes.startDate, existing.startDate),
             dueDate := KeepIfAbsent(changes.dueDate, existing.dueDate))
  }

  /** Two records that agree on every property except possibly the optional ones. */
  predicate SameRequiredFields(a: Task, b: Task)
  {
    a.(description := b.description, completedAt := b.completedAt, startDate := b.startDate, dueDate := b.dueDate) == b
  }

  /** `get` then `update` if the row exists, else `add`. */
  function Upsert(tasks: map<string, Task>, row: Task): map<string, Task>
  {
    tasks[row.id := if row.id in tasks then MergeUpdate(tasks[row.id], row) else row]
  }

  function UpsertAll(tasks: map<string, Task>, rows: seq<Task>): map<string, Task>
  {
    if rows == [] then tasks else Upsert(UpsertAll(tasks, rows[..|rows| - 1]), rows[|rows| - 1])
  }

  /** The rows written for the first `n` tasks embedded in one stage. */
  function StageRows(stage: Stage, journeyIdText: string, n: nat, now: Timestamp): (r: seq<Task>)
    requires n <= |stage.tasks|
    ensures |r| == n
  {
    if n == 0 then []
    else StageRows(stage, journeyIdText, n - 1, now) + [SyncedTask(stage.tasks[n - 1], stage.id, journeyIdText, n - 1, now)]
  }

  function JourneyRows(stages: seq<Stage>, journeyIdText: string, now: Timestamp): seq<Task>
  {
    if stages == [] then []
    else
      var last := stages[|stages| - 1];
      JourneyRows(stages[..|stages| - 1], journeyIdText, now) + StageRows(last, journeyIdText, |last.tasks|, now)
  }

  function AllRows(keys: seq<nat>, journeys: map<nat, Journey>, now: Timestamp): seq<Task>
    requires forall i :: 0 <= i < |keys| ==> keys[i] in journeys
  {
    if keys == [] then []
    else
      var k := keys[|keys| - 1];
      AllRows(keys[..|keys| - 1], journeys, now) + JourneyRows(journeys[k].stages, NatToString(k), now)
  }

  /** The store after `syncTasksFromJourneys`. */
  ghost function TasksSynced(s: Snapshot, now: Timestamp): (r: Snapshot)
    ensures r == s.(tasks := r.tasks)
  {
    SortedKeysOrdered(s.journeys.Keys);
    s.(tasks := UpsertAll(s.tasks, AllRows(SortedKeys(s.journeys.Keys), s.journeys, now)))
  }

  lemma {:induction false} UpsertAllAppend(tasks: map<string, Task>, a: seq<Task>, b: seq<Task>)
    ensures UpsertAll(tasks, a + b) == UpsertAll(UpsertAll(tasks, a), b)
    decreases |b|
  {
    if b == [] {
      assert a + b == a;
    } else {
      var n := |b| - 1;
      assert (a + b)[..|a + b| - 1] == a + b[..n];
      UpsertAllAppend(tasks, a, b[..n]);
    }
  }

  ghost predicate WrittenBy(rows: seq<Task>, x: string)
  {
    exists p :: 0 <= p < |rows| && rows[p].id == x
  }

  /**
   * Upsert by id: the keys afterwards are the old keys plus the ids written, and a row whose
   * id is not written keeps its record.
   */
  lemma {:induction false} UpsertAllKeys(tasks: map<string, Task>, rows: seq<Task>)
    ensures forall x :: x in UpsertAll(tasks, rows) <==> x in tasks || WrittenBy(rows, x)
    ensures forall x :: x in tasks && !WrittenBy(rows, x) ==> UpsertAll(tasks, rows)[x] == tasks[x]
  {
    if rows != [] {
      var n := |rows| - 1;
      UpsertAllKeys(tasks, rows[..n]);
      assert forall x :: WrittenBy(rows[..n], x) ==> WrittenBy(rows, x);
      forall x | WrittenBy(rows, x) ensures WrittenBy(rows[..n], x) || rows[n].id == x {
        var p :| 0 <= p < |rows| && rows[p].id == x;
        if p < n { assert rows[..n][p] == rows[p]; }
      }
    }
  }

  /** The row for an id carries every required property of the last row written with that id. */
  lemma {:induction false} UpsertAllLastWins(tasks: map<string, Task>, rows: seq<Task>, p: nat)
    requires p < |rows|
    requires forall q :: p < q < |rows| ==> rows[q].id != rows[p].id
    ensures rows[p].id in UpsertAll(tasks, rows)
    ensures SameRequiredFields(UpsertAll(tasks, rows)[rows[p].id], rows[p])
  {
    var n := |rows| - 1;
    if p < n {
      assert rows[..n][p] == rows[p];
      UpsertAllLastWins(tasks, rows[..n], p);
    }
  }

  /** Re-running the sync over the same journeys adds no row. */
  lemma SyncRerunAddsNoRows(tasks: map<string, Task>, rows: seq<Task>)
    ensures UpsertAll(UpsertAll(tasks, rows), rows).Keys == UpsertAll(tasks, rows).Keys
  {
    UpsertAllKeys(tasks, rows);
    UpsertAllKeys(UpsertAll(tasks, rows), rows);
  }

  /** Every row is stored under its own id, before and after. */
  lemma {:induction false} UpsertAllKeepsIds(tasks: map<string, Task>, rows: seq<Task>)
    requires forall k :: k in tasks ==> tasks[k].id == k
    ensures forall k :: k in UpsertAll(tasks, rows) ==> UpsertAll(tasks, rows)[k].id == k
  {
    if rows != [] {
      UpsertAllKeepsIds(tasks, rows[..|rows| - 1]);
    }
  }

  /** The loop over one stage's embedded tasks. */
  method SyncStageTasks(db: HeroTaskDatabase, stage: Stage, journeyIdText: string, now: Timestamp)
    modifies db`tasks
    ensures db.tasks == UpsertAll(old(db.tasks), StageRows(stage, journeyIdText, |stage.tasks|, now))
  {
    ghost var start := db.tasks;
    var taskIndex := 0;
    while taskIndex < |stage.tasks|
      invariant taskIndex <= |stage.tasks|
      invariant db.tasks == UpsertAll(start, StageRows(stage, journeyIdText, taskIndex, now))
    {
      var task := stage.tasks[taskIndex];
      var taskId := if task.id != "" then task.id else "task--" + stage.id + "--" + NatToString(taskIndex);
      var taskData := task.(id := taskId, stageId := stage.id, journeyId := journeyIdText, updatedAt := now);
      assert taskId == SyncedTaskId(task, stage.id, taskIndex);
      assert taskData == SyncedTask(task, stage.id, journeyIdText, taskIndex, now);
      StageRowsStep(start, stage, journeyIdText, taskIndex, now);
      UpsertRow(db, taskData);
      taskIndex := taskIndex + 1;
    }
  }

  /** `db.tasks.get(taskId)`, then `update` when the row exists and `add` when it does not. */
  method UpsertRow(db: HeroTaskDatabase, taskData: Task)
    modifies db`tasks
    ensures db.tasks == Upsert(old(db.tasks), taskData)
  {
    if taskData.id in db.tasks {
      db.tasks := db.tasks[taskData.id := MergeUpdate(db.tasks[taskData.id], taskData)];
    } else {
      db.tasks := db.tasks[taskData.id := taskData];
    }
  }

  /** One more embedded task of the stage loop. */
  lemma StageRowsStep(start: map<string, Task>, stage: Stage, journeyIdText: string, n: nat, now: Timestamp)
    requires n < |stage.tasks|
    ensures UpsertAll(start, StageRows(stage, journeyIdText, n + 1, now))
         == Upsert(UpsertAll(start, StageRows(stage, journeyIdText, n, now)),
                   SyncedTask(stage.tasks[n], stage.id, journeyIdText, n, now))
  {
    var rows := StageRows(stage, journeyIdText, n + 1, now);
    assert rows[..|rows| - 1] == StageRows(stage, journeyIdText, n, now);
  }

  /** The loop over one journey's stages. */
  method SyncJourneyTasks(db: HeroTaskDatabase, stages: seq<Stage>, journeyIdText: string, now: Timestamp)
    modifies db`tasks
    ensures db.tasks == UpsertAll(old(db.tasks), JourneyRows(stages, journeyIdText, now))
  {
    ghost var start := db.tasks;
    var i := 0;
    while i < |stages|
      invariant i <= |stages|
      invariant db.tasks == UpsertAll(start, JourneyRows(stages[..i], journeyIdText, now))
    {
      SyncStageTasks(db, stages[i], journeyIdText, now);
      UpsertAllAppend(start, JourneyRows(stages[..i], journeyIdText, now),
                      StageRows(stages[i], journeyIdText, |stages[i].tasks|, now));
      assert stages[..i + 1][..i] == stages[..i];
      i := i + 1;
    }
    assert stages[..i] == stages;
  }

  lemma AllRowsStep(keys: seq<nat>, i: nat, journeys: map<nat, Journey>, now: Timestamp)
    requires i < |keys|
    requires forall j :: 0 <= j < |keys| ==> keys[j] in journeys
    ensures AllRows(keys[..i + 1], journeys, now)
         == AllRows(keys[..i], journeys, now) + JourneyRows(journeys[keys[i]].stages, NatToString(keys[i]), now)
  {
    assert keys[..i + 1][..i] == keys[..i];
  }

  /** The loop over the journeys, in the order given by `keys`. */
  method SyncJourneysInOrder(db: HeroTaskDatabase, journeys: map<nat, Journey>, keys: seq<nat>, now: Timestamp)
    requires forall j :: 0 <= j < |keys| ==> keys[j] in journeys
    modifies db`tasks
    ensures db.tasks == UpsertAll(old(db.tasks), AllRows(keys, journeys, now))
  {
    ghost var start := db.tasks;
    var i := 0;
    while i < |keys|
      invariant i <= |keys|
      invariant db.tasks == UpsertAll(start, AllRows(keys[..i], journeys, now))
    {
      var journey := journeys[keys[i]];
      SyncJourneyTasks(db, journey.stages, NatToString(keys[i]), now);
      UpsertAllAppend(start, AllRows(keys[..i], journeys, now),
                      JourneyRows(journey.stages, NatToString(keys[i]), now));
      AllRowsStep(keys, i, journeys, now);
      i := i + 1;
    }
    assert keys[..i] == keys;
  }

  /** `syncTasksFromJourneys`: every task embedded in a stage is upserted into the task table. */
  method SyncTasksFromJourneys(db: HeroTaskDatabase, now: Timestamp)
    modifies db`tasks
    ensures db.State() == TasksSynced(old(db.State()), now)
  {
    var keys := AscendingKeys(db.journeys.Keys);
    SortedKeysOrdered(db.journeys.Keys);
    SyncJourneysInOrder(db, db.journeys, keys, now);
  }

  // ------------------------------------------------------------------ which rows the sync writes

  /** `row` is what the sync writes for some task embedded in `stages`. */
  ghost predicate InJourney(stages: seq<Stage>, journeyIdText: string, now: Timestamp, row: Task)
  {
    exists si, ti :: 0 <= si < |stages| && 0 <= ti < |stages[si].tasks| &&
      row == SyncedTask(stages[si].tasks[ti], stages[si].id, journeyIdText, ti, now)
  }

  /** `row` is what the sync writes for some task embedded in some journey of the store. */
  ghost predicate EmbeddedRow(journeys: map<nat, Journey>, now: Timestamp, row: Task)
  {
    exists k :: k in journeys && InJourney(journeys[k].stages, NatToString(k), now, row)
  }

  lemma {:induction false} StageRowsAre(stage: Stage, journeyIdText: string, n: nat, now: Timestamp)
    requires n <= |stage.tasks|
    ensures forall p :: 0 <= p < n ==>
      StageRows(stage, journeyIdText, n, now)[p] == SyncedTask(stage.tasks[p], stage.id, journeyIdText, p, now)
  {
    if n > 0 {
      StageRowsAre(stage, journeyIdText, n - 1, now);
    }
  }

  /** The rows written for one journey are exactly its embedded tasks, re-keyed. */
  lemma {:induction false} JourneyRowsExactly(stages: seq<Stage>, journeyIdText: string, now: Timestamp)
    ensures forall row :: row in JourneyRows(stages, journeyIdText, now) <==> InJourney(stages, journeyIdText, now, row)
  {
    if stages != [] {
      var n := |stages| - 1;
      var last := stages[n];
      var pre := stages[..n];
      JourneyRowsExactly(pre, journeyIdText, now);
      StageRowsAre(last, journeyIdText, |last.tasks|, now);
      var lastRows := StageRows(last, journeyIdText, |last.tasks|, now);
      assert JourneyRows(stages, journeyIdText, now) == JourneyRows(pre, journeyIdText, now) + lastRows;
      forall row | row in JourneyRows(stages, journeyIdText, now)
        ensures InJourney(stages, journeyIdText, now, row)
      {
        if row in lastRows {
          var ti :| 0 <= ti < |lastRows| && lastRows[ti] == row;
          assert stages[n].tasks[ti] == last.tasks[ti];
        } else {
          var si, ti :| 0 <= si < |pre| && 0 <= ti < |pre[si].tasks| &&
            row == SyncedTask(pre[si].tasks[ti], pre[si].id, journeyIdText, ti, now);
          assert stages[si] == pre[si];
        }
      }
      forall row | InJourney(stages, journeyIdText, now, row)
        ensures row in JourneyRows(stages, journeyIdText, now)
      {
        var si, ti :| 0 <= si < |stages| && 0 <= ti < |stages[si].tasks| &&
          row == SyncedTask(stages[si].tasks[ti], stages[si].id, journeyIdText, ti, now);
        if si == n {
          assert lastRows[ti] == row;
        } else {
          assert pre[si] == stages[si];
          assert InJourney(pre, journeyIdText, now, row);
        }
      }
    }
  }

  /** `row` is what the sync writes for some task embedded in a journey listed in `keys`. */
  ghost predicate InListedJourney(keys: seq<nat>, journeys: map<nat, Journey>, now: Timestamp, row: Task)
    requires forall i :: 0 <= i < |keys| ==> keys[i] in journeys
  {
    exists i :: 0 <= i < |keys| && InJourney(journeys[keys[i]].stages, NatToString(keys[i]), now, row)
  }

  lemma {:induction false} AllRowsSound(keys: seq<nat>, journeys: map<nat, Journey>, now: Timestamp)
    requires forall i :: 0 <= i < |keys| ==> keys[i] in journeys
    ensures forall row :: row in AllRows(keys, journeys, now) ==> InListedJourney(keys, journeys, now, row)
  {
    if keys != [] {
      var n := |keys| - 1;
      var pre := keys[..n];
      var lastRows := JourneyRows(journeys[keys[n]].stages, NatToString(keys[n]), now);
      assert AllRows(keys, journeys, now) == AllRows(pre, journeys, now) + lastRows;
      AllRowsSound(pre, journeys, now);
      JourneyRowsExactly(journeys[keys[n]].stages, NatToString(keys[n]), now);
      forall row | row in AllRows(keys, journeys, now)
        ensures InListedJourney(keys, journeys, now, row)
      {
        if row !in lastRows {
          assert InListedJourney(pre, journeys, now, row);
          var i :| 0 <= i < |pre| && InJourney(journeys[pre[i]].stages, NatToString(pre[i]), now, row);
          assert keys[i] == pre[i];
        }
      }
    }
  }

  lemma {:induction false} AllRowsComplete(keys: seq<nat>, journeys: map<nat, Journey>, now: Timestamp)
    requires forall i :: 0 <= i < |keys| ==> keys[i] in journeys
    ensures forall row :: InListedJourney(keys, journeys, now, row) ==> row in AllRows(keys, journeys, now)
  {
    if keys != [] {
      var n := |keys| - 1;
      var pre := keys[..n];
      var preRows := AllRows(pre, journeys, now);
      var lastRows := JourneyRows(journeys[keys[n]].stages, NatToString(keys[n]), now);
      var all := AllRows(keys, journeys, now);
      assert all == preRows + lastRows;
      AllRowsComplete(pre, journeys, now);
      JourneyRowsExactly(journeys[keys[n]].stages, NatToString(keys[n]), now);
      forall row | InListedJourney(keys, journeys, now, row)
        ensures row in all
      {
        var i :| 0 <= i < |keys| && InJourney(journeys[keys[i]].stages, NatToString(keys[i]), now, row);
        if i < n {
          assert pre[i] == keys[i];
          assert InListedJourney(pre, journeys, now, row);
          assert row in preRows;
        } else {
          assert row in lastRows;
        }
      }
    }
  }

  /** The rows `syncTasksFromJourneys` writes are exactly the tasks embedded in the journeys. */
  lemma SyncRowsAreEmbeddedTasks(journeys: map<nat, Journey>, now: Timestamp)
    ensures forall i :: 0 <= i < |SortedKeys(journeys.Keys)| ==> SortedKeys(journeys.Keys)[i] in journeys
    ensures forall row :: row in AllRows(SortedKeys(journeys.Keys), journeys, now) <==> EmbeddedRow(journeys, now, row)
  {
    var keys := SortedKeys(journeys.Keys);
    SortedKeysOrdered(journeys.Keys);
    AllRowsSound(keys, journeys, now);
    AllRowsComplete(keys, journeys, now);
    forall row | EmbeddedRow(journeys, now, row)
      ensures row in AllRows(keys, journeys, now)
    {
      var k :| k in journeys && InJourney(journeys[k].stages, NatToString(k), now, row);
      var i :| 0 <= i < |keys| && keys[i] == k;
      assert InListedJourney(keys, journeys, now, row);
    }
    forall row | row in AllRows(keys, journeys, now)
      ensures EmbeddedRow(journeys, now, row)
    {
      var i :| 0 <= i < |keys| && InJourney(journeys[keys[i]].stages, NatToString(keys[i]), now, row);
    }
  }

  /** An id some embedded task is written under. */
  ghost predicate EmbeddedId(journeys: map<nat, Journey>, now: Timestamp, x: string)
  {
    exists row :: EmbeddedRow(journeys, now, row) && row.id == x
  }

  /** The ids the sync writes are exactly the ids of the embedded tasks. */
  lemma SyncWritesEmbeddedIds(journeys: map<nat, Journey>, now: Timestamp)
    ensures forall i :: 0 <= i < |SortedKeys(journeys.Keys)| ==> SortedKeys(journeys.Keys)[i] in journeys
    ensures forall x :: WrittenBy(AllRows(SortedKeys(journeys.Keys), journeys, now), x) <==> EmbeddedId(journeys, now, x)
  {
    SyncRowsAreEmbeddedTasks(journeys, now);
    var rows := AllRows(SortedKeys(journeys.Keys), journeys, now);
    forall x ensures WrittenBy(rows, x) <==> EmbeddedId(journeys, now, x) {
      if WrittenBy(rows, x) {
        var p :| 0 <= p < |rows| && rows[p].id == x;
        assert EmbeddedRow(journeys, now, rows[p]);
      }
      if EmbeddedId(journeys, now, x) {
        var row :| EmbeddedRow(journeys, now, row) && row.id == x;
        var p :| 0 <= p < |rows| && rows[p] == row;
      }
    }
  }

  /**
   * After the sync the task table holds the old rows plus one row per embedded task id, and a
   * row whose id no embedded task carries is untouched.
   */
  lemma TasksAfterSync(s: Snapshot, now: Timestamp)
    ensures forall x :: x in TasksSynced(s, now).tasks <==> x in s.tasks || EmbeddedId(s.journeys, now, x)
    ensures forall x :: x in s.tasks && !EmbeddedId(s.journeys, now, x) ==> TasksSynced(s, now).tasks[x] == s.tasks[x]
  {
    SyncWritesEmbeddedIds(s.journeys, now);
    UpsertAllKeys(s.tasks, AllRows(SortedKeys(s.journeys.Keys), s.journeys, now));
  }

  /** A row whose id some embedded task carries holds every required property of one of them. */
  lemma SyncedRowFromEmbeddedTask(s: Snapshot, now: Timestamp, x: string)
    requires EmbeddedId(s.journeys, now, x)
    ensures x in TasksSynced(s, now).tasks
    ensures exists row :: EmbeddedRow(s.journeys, now, row) && row.id == x && SameRequiredFields(TasksSynced(s, now).tasks[x], row)
  {
    SyncWritesEmbeddedIds(s.journeys, now);
    SyncRowsAreEmbeddedTasks(s.journeys, now);
    var rows := AllRows(SortedKeys(s.journeys.Keys), s.journeys, now);
    var p := LastWrite(rows, x);
    UpsertAllLastWins(s.tasks, rows, p);
    assert rows[p] in rows;
  }

  /** The last position a row with id `x` is written at. */
  ghost function LastWrite(rows: seq<Task>, x: string): (p: nat)
    requires WrittenBy(rows, x)
    ensures p < |rows| && rows[p].id == x
    ensures forall q :: p < q < |rows| ==> rows[q].id != x
  {
    var n := |rows| - 1;
    if rows[n].id == x then n
    else
      var p :| 0 <= p < |rows| && rows[p].id == x;
      assert rows[..n][p] == rows[p];
      var q := LastWrite(rows[..n], x);
      assert rows[q] == rows[..n][q];
      q
  }

  /** The sync stores every row under its own id when the store did. */
  lemma SyncKeepsKeysMatchingIds(s: Snapshot, now: Timestamp)
    requires KeysMatchIds(s)
    ensures KeysMatchIds(TasksSynced(s, now))
  {
    SortedKeysOrdered(s.journeys.Keys);
    UpsertAllKeepsIds(s.tasks, AllRows(SortedKeys(s.journeys.Keys), s.journeys, now));
  }

  /** Which ids the sync writes does not depend on the time stamp. */
  lemma EmbeddedIdAnyTime(journeys: map<nat, Journey>, now: Timestamp, later: Timestamp, x: string)
    requires EmbeddedId(journeys, now, x)
    ensures EmbeddedId(journeys, later, x)
  {
    var row :| EmbeddedRow(journeys, now, row) && row.id == x;
    var k :| k in journeys && InJourney(journeys[k].stages, NatToString(k), now, row);
    var twin := InJourneyAnyTime(journeys[k].stages, NatToString(k), now, later, row);
    assert EmbeddedRow(journeys, later, twin);
  }

  /** The same embedded task, written at another time, has the same id. */
  lemma InJourneyAnyTime(stages: seq<Stage>, journeyIdText: string, now: Timestamp, later: Timestamp, row: Task)
    returns (twin: Task)
    requires InJourney(stages, journeyIdText, now, row)
    ensures InJourney(stages, journeyIdText, later, twin) && twin.id == row.id
  {
    var si, ti :| 0 <= si < |stages| && 0 <= ti < |stages[si].tasks| &&
      row == SyncedTask(stages[si].tasks[ti], stages[si].id, journeyIdText, ti, now);
    twin := SyncedTask(stages[si].tasks[ti], stages[si].id, journeyIdText, ti, later);
  }

  /** Running the sync a second time over the same journeys adds no task row. */
  lemma SyncTwiceAddsNoRows(s: Snapshot, now: Timestamp, later: Timestamp)
    ensures TasksSynced(TasksSynced(s, now), later).tasks.Keys == TasksSynced(s, now).tasks.Keys
  {
    var once := TasksSynced(s, now);
    TasksAfterSync(s, now);
    TasksAfterSync(once, later);
    forall x | EmbeddedId(s.journeys, later, x) ensures x in once.tasks {
      EmbeddedIdAnyTime(s.journeys, later, now, x);
    }
  }

  // ------------------------------------------------------------------ both passes

  /** Where a foreign failure (a storage error inside one of the transactions) strikes. */
  datatype Failure = NoFailure | StageIdMigrationFails | TaskSyncFails

  /**
   * `runPostInitMigrations`: the stage-id migration strictly before the task sync, each in its
   * own transaction; a failure rolls back that transaction and is rethrown (`ok` false), so the
   * task sync never runs after a failed stage-id migration.
   */
  method RunPostInitMigrations(db: HeroTaskDatabase, now: Timestamp, failure: Failure) returns (ok: bool)
    modifies db`journeys, db`habits, db`tasks
    ensures ok <==> failure == NoFailure
    ensures failure == StageIdMigrationFails ==> db.State() == old(db.State())
    ensures failure == TaskSyncFails ==> db.State() == StageIdsMigrated(old(db.State()), now)
    ensures failure == NoFailure ==> db.State() == TasksSynced(StageIdsMigrated(old(db.State()), now), now)
  {
    if failure == StageIdMigrationFails {
      return false;
    }
    MigrateStageIds(db, now);
    if failure == TaskSyncFails {
      return false;
    }
    SyncTasksFromJourneys(db, now);
    return true;
  }

  /** A row the sync writes for an embedded task names that task's stage and journey. */
  lemma SyncedRowNamesStage(m: Snapshot, now: Timestamp, x: string)
    requires EmbeddedId(m.journeys, now, x)
    ensures x in TasksSynced(m, now).tasks
    ensures exists k, si ::
              k in m.journeys && 0 <= si < |m.journeys[k].stages| &&
              TasksSynced(m, now).tasks[x].stageId == m.journeys[k].stages[si].id &&
              TasksSynced(m, now).tasks[x].journeyId == NatToString(k)
  {
    SyncedRowFromEmbeddedTask(m, now, x);
    var synced := TasksSynced(m, now).tasks[x];
    var row :| EmbeddedRow(m.journeys, now, row) && row.id == x && SameRequiredFields(synced, row);
    RequiredFieldsAgree(synced, row);
    EmbeddedRowStage(m.journeys, now, row);
  }

  /** An embedded task's row names the stage and the journey the task sits in. */
  lemma EmbeddedRowStage(journeys: map<nat, Journey>, now: Timestamp, row: Task)
    requires EmbeddedRow(journeys, now, row)
    ensures exists k, si :: k in journeys && 0 <= si < |journeys[k].stages| &&
              row.stageId == journeys[k].stages[si].id && row.journeyId == NatToString(k)
  {
    var k :| k in journeys && InJourney(journeys[k].stages, NatToString(k), now, row);
    var stages := journeys[k].stages;
    var si, ti :| 0 <= si < |stages| && 0 <= ti < |stages[si].tasks| &&
      row == SyncedTask(stages[si].tasks[ti], stages[si].id, NatToString(k), ti, now);
  }

  lemma RequiredFieldsAgree(a: Task, b: Task)
    requires SameRequiredFields(a, b)
    ensures a.id == b.id && a.stageId == b.stageId && a.journeyId == b.journeyId
  {
    assert a.stageId == a.(description := b.description, completedAt := b.completedAt,
                           startDate := b.startDate, dueDate := b.dueDate).stageId;
  }

  /** A row the sync writes names a canonical stage of the journey it names. */
  lemma SyncedRowOfMigratedStage(s: Snapshot, now: Timestamp, x: string)
    requires EmbeddedId(StageIdsMigrated(s, now).journeys, now, x)
    ensures x in TasksSynced(StageIdsMigrated(s, now), now).tasks
    ensures exists k, si ::
              k in s.journeys && 0 <= si < |s.journeys[k].stages| &&
              TasksSynced(StageIdsMigrated(s, now), now).tasks[x].stageId == CanonicalStageId(k, si) &&
              TasksSynced(StageIdsMigrated(s, now), now).tasks[x].journeyId == NatToString(k)
  {
    var m := StageIdsMigrated(s, now);
    SyncedRowNamesStage(m, now, x);
    var k, si :| k in m.journeys && 0 <= si < |m.journeys[k].stages| &&
      TasksSynced(m, now).tasks[x].stageId == m.journeys[k].stages[si].id &&
      TasksSynced(m, now).tasks[x].journeyId == NatToString(k);
    StageIdsCanonicalAfterMigration(s, now, k, si);
  }

  /**
   * After both passes every task row is either an old row no embedded task touched, or a row
   * whose stage id is the canonical id of a stage of the journey it names.
   */
  lemma TaskRowsReferenceCanonicalStages(s: Snapshot, now: Timestamp, x: string)
    requires x in TasksSynced(StageIdsMigrated(s, now), now).tasks
    ensures var row := TasksSynced(StageIdsMigrated(s, now), now).tasks[x];
      (x in s.tasks && row == s.tasks[x]) ||
      (exists k, si :: k in s.journeys && 0 <= si < |s.journeys[k].stages| &&
         row.stageId == CanonicalStageId(k, si) && row.journeyId == NatToString(k))
  {
    var m := StageIdsMigrated(s, now);
    if EmbeddedId(m.journeys, now, x) {
      SyncedRowOfMigratedStage(s, now, x);
    } else {
      TasksAfterSync(m, now);
      assert m.tasks == s.tasks;
    }
  }
}
