/**
 * The journey operations of `useJourneys` (src/hooks/dexie/useJourneys.ts): create a journey
 * under the next generated key, delete it with its tasks and habits, and patch one stage of
 * its embedded stage list.
 */
module UseJourneys {
  import opened Wrappers
  import opened DexieStore

  /** The record `createJourney` adds: the caller's journey stamped with one creation time. */
  function NewJourney(data: Journey, now: Timestamp): (r: Journey)
    ensures r.createdAt == r.updatedAt == now
    ensures r.(createdAt := data.createdAt, updatedAt := data.updatedAt) == data
  {
    data.(createdAt := now, updatedAt := now)
  }

  /** `createJourney(data)`: `add` stores the journey under a fresh key and returns that key. */
  method CreateJourney(db: HeroTaskDatabase, data: Journey, now: Timestamp) returns (id: nat)
    modifies db`journeys, db`keyGen
    ensures id == old(db.keyGen.journeys)
    ensures db.journeys == old(db.journeys)[id := NewJourney(data, now)]
    ensures db.keyGen == old(db.keyGen).(journeys := id + 1)
    ensures old(db.Valid()) ==> db.Valid() && id !in old(db.journeys)
  {
    id := db.keyGen.journeys;
    db.journeys := db.journeys[id := NewJourney(data, now)];
    db.keyGen := db.keyGen.(journeys := id + 1);
  }

  /**
   * `deleteJourney(id)`: one transaction deletes the tasks and habits whose `journeyId` is the
   * decimal text of `id`, then the journey.
   */
  method DeleteJourney(db: HeroTaskDatabase, id: nat)
    modifies db`journeys, db`tasks, db`habits
    ensures db.State() == JourneyDeleted(old(db.State()), id)
    ensures old(db.Valid()) ==> db.Valid()
  {
    var text := JsText.NatToString(id);
    db.tasks := map k | k in db.tasks && db.tasks[k].journeyId != text :: db.tasks[k];
    db.habits := map k | k in db.habits && db.habits[k].journeyId != text :: db.habits[k];
    db.journeys := db.journeys - {id};
  }

  /** After `deleteJourney(id)` no task or habit names the journey any more. */
  lemma {:induction false} NothingReferencesDeletedJourney(s: Snapshot, id: nat)
    ensures var r := JourneyDeleted(s, id);
      && id !in r.journeys
      && (forall k :: k in r.tasks ==> r.tasks[k].journeyId != JsText.NatToString(id))
      && (forall k :: k in r.habits ==> r.habits[k].journeyId != JsText.NatToString(id))
  {
    var r := JourneyDeleted(s, id);
    forall k | k in r.tasks
      ensures r.tasks[k].journeyId != JsText.NatToString(id)
    {
      assert r.tasks[k] == s.tasks[k];
    }
    forall k | k in r.habits
      ensures r.habits[k].journeyId != JsText.NatToString(id)
    {
      assert r.habits[k] == s.habits[k];
    }
  }

  /** A `Partial<Stage>`: `None` leaves a field as it is. */
  datatype StagePatch = StagePatch(
    id: Option<string>,
    title: Option<string>,
    description: Option<Option<string>>,
    priority: Option<int>,
    estimatedHours: Option<int>,
    completedHours: Option<int>,
    status: Option<StageStatus>,
    order: Option<int>,
    tasks: Option<seq<Task>>,
    createdAt: Option<Timestamp>)

  const NoStageChanges := StagePatch(None, None, None, None, None, None, None, None, None, None)

  /** `{...stage, ...updates, updatedAt}`. */
  function PatchedStage(s: Stage, p: StagePatch, now: Timestamp): (r: Stage)
    ensures r.updatedAt == now
    ensures p == NoStageChanges ==> r == s.(updatedAt := now)
    ensures p.status.Some? ==> r.status == p.status.value
    ensures p.completedHours.Some? ==> r.completedHours == p.completedHours.value
    ensures p.id.None? ==> r.id == s.id
  {
    Stage(p.id.GetOr(s.id), p.title.GetOr(s.title), p.description.GetOr(s.description),
          p.priority.GetOr(s.priority), p.estimatedHours.GetOr(s.estimatedHours),
          p.completedHours.GetOr(s.completedHours), p.status.GetOr(s.status), p.order.GetOr(s.order),
          p.tasks.GetOr(s.tasks), p.createdAt.GetOr(s.createdAt), now)
  }

  /** Patching a stage twice with the same patch is patching it once. */
  lemma PatchIsIdempotent(s: Stage, p: StagePatch, now: Timestamp)
    ensures PatchedStage(PatchedStage(s, p, now), p, now) == PatchedStage(s, p, now)
  {
  }

  /**
   * `stages.map(stage => stage.id === stageId ? patched : stage)`: same length and order,
   * the stages with that id patched, every other stage as it was.
   */
  function StagesUpdated(stages: seq<Stage>, stageId: string, p: StagePatch, now: Timestamp): (r: seq<Stage>)
    ensures |r| == |stages|
    ensures forall i :: 0 <= i < |stages| && stages[i].id == stageId ==> r[i] == PatchedStage(stages[i], p, now)
    ensures forall i :: 0 <= i < |stages| && stages[i].id != stageId ==> r[i] == stages[i]
  {
    if stages == [] then []
    else
      var rest := StagesUpdated(stages[1..], stageId, p, now);
      var first := if stages[0].id == stageId then PatchedStage(stages[0], p, now) else stages[0];
      assert forall i :: 1 <= i < |stages| ==> stages[i] == stages[1..][i - 1];
      [first] + rest
  }

  /** With no stage of that id, the stage list is unchanged. */
  lemma {:induction false} UnknownStageChangesNothing(stages: seq<Stage>, stageId: string, p: StagePatch, now: Timestamp)
    requires forall i :: 0 <= i < |stages| ==> stages[i].id != stageId
    ensures StagesUpdated(stages, stageId, p, now) == stages
  {
    var r := StagesUpdated(stages, stageId, p, now);
    assert forall i :: 0 <= i < |stages| ==> r[i] == stages[i];
  }

  /** A patch that does not rename keeps the list of stage ids. */
  lemma {:induction false} StageIdsKept(stages: seq<Stage>, stageId: string, p: StagePatch, now: Timestamp)
    requires p.id.None?
    ensures forall i :: 0 <= i < |stages| ==> StagesUpdated(stages, stageId, p, now)[i].id == stages[i].id
  {
    var r := StagesUpdated(stages, stageId, p, now);
    forall i | 0 <= i < |stages|
      ensures r[i].id == stages[i].id
    {
      if stages[i].id == stageId {
        assert r[i] == PatchedStage(stages[i], p, now);
      }
    }
  }

  /** `updateStage(journeyId, stageId, updates)` followed by `updateJourney(journeyId, {stages})`. */
  function JourneysWithStageUpdated(journeys: map<nat, Journey>, journeyId: nat, stageId: string, p: StagePatch, now: Timestamp)
    : (r: map<nat, Journey>)
    ensures r.Keys == journeys.Keys
    ensures journeyId in journeys ==>
      r[journeyId] == journeys[journeyId].(stages := StagesUpdated(journeys[journeyId].stages, stageId, p, now), updatedAt := now)
    ensures forall k :: k in journeys && k != journeyId ==> r[k] == journeys[k]
  {
    if journeyId in journeys then
      var j := journeys[journeyId];
      journeys[journeyId := j.(stages := StagesUpdated(j.stages, stageId, p, now), updatedAt := now)]
    else journeys
  }

  /** `updateStage`: a missing journey is left alone; otherwise its stage list is rewritten. */
  method UpdateStage(db: HeroTaskDatabase, journeyId: nat, stageId: string, p: StagePatch, now: Timestamp)
    modifies db`journeys
    ensures db.journeys == JourneysWithStageUpdated(old(db.journeys), journeyId, stageId, p, now)
    ensures old(db.Valid()) ==> db.Valid()
  {
    if journeyId !in db.journeys {
      return;
    }
    var journey := db.journeys[journeyId];
    var stages := StagesUpdated(journey.stages, stageId, p, now);
    db.journeys := db.journeys[journeyId := journey.(stages := stages, updatedAt := now)];
  }

  /** The patch `completeStage` passes. */
  const CompletePatch := NoStageChanges.(status := Some(StageCompleted), completedHours := Some(0))

  /** `completeStage(journeyId, stageId)`. */
  method CompleteStage(db: HeroTaskDatabase, journeyId: nat, stageId: string, now: Timestamp)
    modifies db`journeys
    ensures db.journeys == JourneysWithStageUpdated(old(db.journeys), journeyId, stageId, CompletePatch, now)
    ensures old(db.Valid()) ==> db.Valid()
  {
    UpdateStage(db, journeyId, stageId, CompletePatch, now);
  }

  /**
   * After `completeStage`, every stage with that id is completed with zero hours and
   * otherwise as it was; other stages and other journeys are untouched.
   */
  lemma {:induction false} CompleteStageMarksStage(journeys: map<nat, Journey>, journeyId: nat, stageId: string, now: Timestamp)
    requires journeyId in journeys
    ensures var before := journeys[journeyId].stages;
      var after := JourneysWithStageUpdated(journeys, journeyId, stageId, CompletePatch, now)[journeyId].stages;
      && |after| == |before|
      && (forall i :: 0 <= i < |before| && before[i].id == stageId ==>
            after[i] == before[i].(status := StageCompleted, completedHours := 0, updatedAt := now))
      && (forall i :: 0 <= i < |before| && before[i].id != stageId ==> after[i] == before[i])
  {
    var before := journeys[journeyId].stages;
    var after := JourneysWithStageUpdated(journeys, journeyId, stageId, CompletePatch, now)[journeyId].stages;
    assert after == StagesUpdated(before, stageId, CompletePatch, now);
    forall i | 0 <= i < |before| && before[i].id == stageId
      ensures after[i] == before[i].(status := StageCompleted, completedHours := 0, updatedAt := now)
    {
      assert after[i] == PatchedStage(before[i], CompletePatch, now);
    }
  }
}
