/**
 * The persistence facade (src/utils/sqlitePersistence.ts): the active study plan kept in the
 * relational store, and the journey and task helpers it offers over the document store.
 */
module SqlitePersistence {
  import opened Wrappers
  import opened SqlStore
  import opened JsText
  import DexieStore

  /** The id a plan is saved under when it has none. */
  const DefaultActivePlanId := "active_plan"

  /** `plan.id || 'active_plan'`. */
  function ActivePlanId(plan: StudyPlan): (id: string)
    ensures id != ""
    ensures plan.id != "" ==> id == plan.id
  {
    if plan.id != "" then plan.id else DefaultActivePlanId
  }

  /**
   * `saved_plans` after `UPDATE … SET is_active = FALSE` and
   * `INSERT OR REPLACE … VALUES (planId, 'Plano Atual', planId, TRUE)`.
   */
  function ActivatedSavedPlans(rows: seq<SavedPlanRow>, planId: string): seq<SavedPlanRow>
  {
    ReplaceSavedRow(DeactivateAll(rows), SavedPlanRow(planId, CurrentPlanName, planId, true))
  }

  /** After activation exactly one row is active: the last one, which points at the plan. */
  lemma ExactlyOneActiveRow(rows: seq<SavedPlanRow>, planId: string)
    ensures var r := ActivatedSavedPlans(rows, planId);
      && r != []
      && r[|r| - 1] == SavedPlanRow(planId, CurrentPlanName, planId, true)
      && (forall i :: 0 <= i < |r| - 1 ==> !r[i].isActive)
      && FirstActive(r) == Some(r[|r| - 1])
  {
    var r := ActivatedSavedPlans(rows, planId);
    forall i | 0 <= i < |r| - 1 ensures !r[i].isActive {
      assert r[i] in DeactivateAll(rows);
    }
  }

  /** Activating the same plan again changes nothing, so in particular adds no row. */
  lemma ActivationIdempotent(rows: seq<SavedPlanRow>, planId: string)
    ensures ActivatedSavedPlans(ActivatedSavedPlans(rows, planId), planId) == ActivatedSavedPlans(rows, planId)
  {
    var row := SavedPlanRow(planId, CurrentPlanName, planId, true);
    var kept := SavedWithout(DeactivateAll(rows), planId);
    var once := ActivatedSavedPlans(rows, planId);
    assert once == kept + [row];
    forall i | 0 <= i < |kept| ensures !kept[i].isActive && kept[i].id != planId {
      assert kept[i] in DeactivateAll(rows);
    }
    assert DeactivateAll(kept) == kept;
    assert DeactivateAll(once) == kept + [row.(isActive := false)];
    SavedWithoutLast(kept, row.(isActive := false));
  }

  /** Activation keeps the primary key of `saved_plans` unique. */
  lemma ActivationKeepsUniqueIds(rows: seq<SavedPlanRow>, planId: string)
    requires UniqueSavedIds(rows)
    ensures UniqueSavedIds(ActivatedSavedPlans(rows, planId))
  {
    var d := DeactivateAll(rows);
    assert UniqueSavedIds(d);
    SavedWithoutUnique(d, planId);
  }

  /** Where the `saved_plans` block of `saveActiveStudyPlan` throws (the error is logged and swallowed). */
  datatype SavedPlansFailure = SavedPlansOk | DeactivateFails | InsertFails

  /** `saved_plans` after the try block of `saveActiveStudyPlan`. */
  function SavedPlansAfterSave(rows: seq<SavedPlanRow>, planId: string, failure: SavedPlansFailure): seq<SavedPlanRow>
  {
    match failure
    case SavedPlansOk => ActivatedSavedPlans(rows, planId)
    case DeactivateFails => rows
    case InsertFails => DeactivateAll(rows)
  }

  /**
   * `saveActiveStudyPlan`: the plan is stored under `plan.id || 'active_plan'` (stamped `now`),
   * the `active_plan_id` setting names it, and `saved_plans` gets one active row for it.
   */
  method SaveActiveStudyPlan(db: SqliteDatabase, plan: StudyPlan, now: Timestamp, failure: SavedPlansFailure)
    modifies db
    ensures db.studyPlans == ReplacePlanRow(old(db.studyPlans), PlanRow(plan.(id := ActivePlanId(plan)), now))
    ensures db.settings == old(db.settings)[ActivePlanKey := ActivePlanId(plan)]
    ensures db.savedPlans == SavedPlansAfterSave(old(db.savedPlans), ActivePlanId(plan), failure)
  {
    var planId := if plan.id != "" then plan.id else DefaultActivePlanId;
    var planWithId := plan.(id := planId);
    db.studyPlans := ReplacePlanRow(db.studyPlans, PlanRow(planWithId, now));
    db.settings := db.settings[ActivePlanKey := planId];
    if failure == DeactivateFails {
      return;
    }
    db.savedPlans := DeactivateAll(db.savedPlans);
    if failure == InsertFails {
      return;
    }
    db.savedPlans := ReplaceSavedRow(db.savedPlans, SavedPlanRow(planId, CurrentPlanName, planId, true));
  }

  /** Which of the three strategies of `loadActiveStudyPlan` produced the plan. */
  datatype Strategy = FromSetting | FromActiveSavedPlan | FromMostRecent | NoPlan

  datatype Loaded = Loaded(plan: Option<StudyPlan>, strategy: Strategy)

  /** The plan the `active_plan_id` setting names, when it is set and the plan exists. */
  function PlanFromSetting(settings: map<string, string>, plans: seq<PlanRow>): Option<StudyPlan>
  {
    match TruthySetting(settings, ActivePlanKey)
    case Some(id) => LoadPlan(plans, id)
    case None => None
  }

  /** `getActivePlan()`: the plan of the first active `saved_plans` row, when it exists. */
  function PlanFromActiveRow(plans: seq<PlanRow>, saved: seq<SavedPlanRow>): Option<StudyPlan>
  {
    match FirstActive(saved)
    case Some(row) => LoadPlan(plans, row.planId)
    case None => None
  }

  /** The most recently updated plan, when its id is truthy. */
  function PlanFromMostRecent(plans: seq<PlanRow>): Option<StudyPlan>
  {
    match MostRecent(plans)
    case Some(row) => if row.plan.id != "" then LoadPlan(plans, row.plan.id) else None
    case None => None
  }

  /** The outcome of `loadActiveStudyPlan`: the three strategies in order, then null. */
  function ActivePlanSource(settings: map<string, string>, plans: seq<PlanRow>, saved: seq<SavedPlanRow>): (r: Loaded)
    ensures r.plan.None? <==> r.strategy == NoPlan
    ensures r.plan.Some? ==> exists i :: 0 <= i < |plans| && plans[i].plan == r.plan.value
  {
    if PlanFromSetting(settings, plans).Some? then Loaded(PlanFromSetting(settings, plans), FromSetting)
    else if PlanFromActiveRow(plans, saved).Some? then Loaded(PlanFromActiveRow(plans, saved), FromActiveSavedPlan)
    else if PlanFromMostRecent(plans).Some? then Loaded(PlanFromMostRecent(plans), FromMostRecent)
    else Loaded(None, NoPlan)
  }

  /**
   * Strategy 3 as written: the query calls `getAsObject()` without parameters, so it reads no row
   * and no plan is ever found this way.
   */
  function PlanFromMostRecentAsWritten(plans: seq<PlanRow>): (r: Option<StudyPlan>)
    ensures r.None?
  {
    match GetAsObject(MostRecent(plans), false)
    case Some(row) => if row.plan.id != "" then LoadPlan(plans, row.plan.id) else None
    case None => None
  }

  /** `loadActiveStudyPlan` as written, with the unstepped read in its last strategy. */
  function ActivePlanSourceAsWritten(settings: map<string, string>, plans: seq<PlanRow>, saved: seq<SavedPlanRow>): (r: Loaded)
    ensures r.strategy != FromMostRecent
    ensures r.strategy != NoPlan ==> r == ActivePlanSource(settings, plans, saved)
  {
    if PlanFromSetting(settings, plans).Some? then Loaded(PlanFromSetting(settings, plans), FromSetting)
    else if PlanFromActiveRow(plans, saved).Some? then Loaded(PlanFromActiveRow(plans, saved), FromActiveSavedPlan)
    else if PlanFromMostRecentAsWritten(plans).Some? then Loaded(PlanFromMostRecentAsWritten(plans), FromMostRecent)
    else Loaded(None, NoPlan)
  }

  /**
   * When neither the setting nor an active row names a stored plan but plans with ids are stored,
   * the code as written returns null and repairs nothing, while the stepped read finds the most
   * recent plan and points the setting at it.
   */
  lemma UnsteppedReadMissesRecentPlan(settings: map<string, string>, plans: seq<PlanRow>, saved: seq<SavedPlanRow>)
    requires PlanFromSetting(settings, plans).None? && PlanFromActiveRow(plans, saved).None?
    requires plans != [] && forall i :: 0 <= i < |plans| ==> plans[i].plan.id != ""
    ensures ActivePlanSourceAsWritten(settings, plans, saved) == Loaded(None, NoPlan)
    ensures SettingsAfterLoad(settings, ActivePlanSourceAsWritten(settings, plans, saved)) == settings
    ensures ActivePlanSource(settings, plans, saved).strategy == FromMostRecent
    ensures SettingsAfterLoad(settings, ActivePlanSource(settings, plans, saved))[ActivePlanKey]
              == MostRecent(plans).value.plan.id
  {
    LoadFindsAPlanIffAnyStored(settings, plans, saved);
  }

  /** The settings after a load: only the last strategy repairs `active_plan_id`. */
  function SettingsAfterLoad(settings: map<string, string>, loaded: Loaded): map<string, string>
  {
    if loaded.strategy == FromMostRecent && loaded.plan.Some? then settings[ActivePlanKey := loaded.plan.value.id]
    else settings
  }

  /** `loadActiveStudyPlan`. */
  method LoadActiveStudyPlan(db: SqliteDatabase) returns (plan: Option<StudyPlan>)
    modifies db`settings
    ensures plan == ActivePlanSource(old(db.settings), db.studyPlans, db.savedPlans).plan
    ensures db.settings == SettingsAfterLoad(old(db.settings), ActivePlanSource(old(db.settings), db.studyPlans, db.savedPlans))
  {
    // Strategy 1: the setting
    var activePlanId := TruthySetting(db.settings, ActivePlanKey);
    if activePlanId.Some? {
      plan := LoadPlan(db.studyPlans, activePlanId.value);
      if plan.Some? {
        return;
      }
    }
    // Strategy 2: the active saved_plans row
    var activeRow := FirstActive(db.savedPlans);
    if activeRow.Some? {
      plan := LoadPlan(db.studyPlans, activeRow.value.planId);
      if plan.Some? {
        return;
      }
    }
    // Strategy 3: the most recent plan, repairing the setting
    var recent := MostRecent(db.studyPlans);
    if recent.Some? && recent.value.plan.id != "" {
      var planId := recent.value.plan.id;
      plan := LoadPlan(db.studyPlans, planId);
      if plan.Some? {
        db.settings := db.settings[ActivePlanKey := planId];
        return;
      }
    }
    plan := None;
  }

  /** With no plan stored there is nothing to load; with plans whose ids are set, one is always found. */
  lemma LoadFindsAPlanIffAnyStored(settings: map<string, string>, plans: seq<PlanRow>, saved: seq<SavedPlanRow>)
    requires forall i :: 0 <= i < |plans| ==> plans[i].plan.id != ""
    ensures ActivePlanSource(settings, plans, saved).plan.Some? <==> plans != []
  {
    if plans != [] {
      MostRecentIsLatest(plans);
      var row := MostRecent(plans).value;
      var i :| 0 <= i < |plans| && plans[i] == row;
    }
  }

  /** A setting that names a stored plan wins over `saved_plans` and recency. */
  lemma SettingTakesPrecedence(settings: map<string, string>, plans: seq<PlanRow>, saved: seq<SavedPlanRow>, i: nat)
    requires ActivePlanKey in settings && settings[ActivePlanKey] != ""
    requires i < |plans| && plans[i].plan.id == settings[ActivePlanKey]
    ensures ActivePlanSource(settings, plans, saved).strategy == FromSetting
    ensures ActivePlanSource(settings, plans, saved).plan.value.id == settings[ActivePlanKey]
  {
  }

  /** The repair makes the next load take the first strategy and return the same plan. */
  lemma RepairedLoadIsStable(settings: map<string, string>, plans: seq<PlanRow>, saved: seq<SavedPlanRow>)
    requires ActivePlanSource(settings, plans, saved).strategy == FromMostRecent
    ensures var repaired := SettingsAfterLoad(settings, ActivePlanSource(settings, plans, saved));
      ActivePlanSource(repaired, plans, saved) == Loaded(ActivePlanSource(settings, plans, saved).plan, FromSetting)
  {
    var p := ActivePlanSource(settings, plans, saved).plan.value;
    var i :| 0 <= i < |plans| && plans[i].plan == p;
  }

  /** A load that does not take the last strategy writes nothing. */
  lemma OnlyLastStrategyWrites(settings: map<string, string>, plans: seq<PlanRow>, saved: seq<SavedPlanRow>)
    requires ActivePlanSource(settings, plans, saved).strategy != FromMostRecent
    ensures SettingsAfterLoad(settings, ActivePlanSource(settings, plans, saved)) == settings
  {
  }

  /** Saving a plan as active and loading again gives back that plan, through the setting. */
  lemma SaveThenLoad(settings: map<string, string>, plans: seq<PlanRow>, saved: seq<SavedPlanRow>,
                     plan: StudyPlan, now: Timestamp, failure: SavedPlansFailure)
    ensures var planId := ActivePlanId(plan);
      ActivePlanSource(settings[ActivePlanKey := planId],
                       ReplacePlanRow(plans, PlanRow(plan.(id := planId), now)),
                       SavedPlansAfterSave(saved, planId, failure))
      == Loaded(Some(plan.(id := planId)), FromSetting)
  {
    var planId := ActivePlanId(plan);
    var rows := ReplacePlanRow(plans, PlanRow(plan.(id := planId), now));
    var kept := Without(plans, planId);
    assert rows[|rows| - 1].plan == plan.(id := planId);
    assert forall i :: 0 <= i < |kept| ==> rows[i].plan.id != planId;
    LoadPlanFindsLast(kept, PlanRow(plan.(id := planId), now));
  }

  lemma {:induction false} LoadPlanFindsLast(rows: seq<PlanRow>, last: PlanRow)
    requires forall i :: 0 <= i < |rows| ==> rows[i].plan.id != last.plan.id
    ensures LoadPlan(rows + [last], last.plan.id) == Some(last.plan)
  {
    if rows != [] {
      assert (rows + [last])[1..] == rows[1..] + [last];
      LoadPlanFindsLast(rows[1..], last);
    }
  }

  /**
   * After a save whose `saved_plans` block succeeded, exactly one row is active and it points at
   * the plan the setting names.
   */
  lemma ActiveSettingAgreesAfterSave(saved: seq<SavedPlanRow>, settings: map<string, string>, plan: StudyPlan)
    ensures var planId := ActivePlanId(plan);
      var rows := SavedPlansAfterSave(saved, planId, SavedPlansOk);
      && (forall i :: 0 <= i < |rows| ==> (rows[i].isActive <==> i == |rows| - 1))
      && rows[|rows| - 1].planId == settings[ActivePlanKey := planId][ActivePlanKey]
  {
    ExactlyOneActiveRow(saved, ActivePlanId(plan));
  }

  /**
   * `saveStudyPlan(plan, name)`: `saveNamedStudyPlan` (given here as its outcome) returns an id,
   * which becomes the `active_plan_id` setting and is returned; a failure returns `''`.
   */
  method SaveStudyPlan(db: SqliteDatabase, named: Result<string>) returns (planId: string)
    modifies db`settings
    ensures named.Ok? ==> planId == named.value && db.settings == old(db.settings)[ActivePlanKey := planId]
    ensures named.Err? ==> planId == "" && db.settings == old(db.settings)
  {
    if named.Err? {
      return "";
    }
    planId := named.value;
    db.settings := db.settings[ActivePlanKey := planId];
  }

  // ------------------------------------------------------------------ document-store helpers

  /**
   * `deleteJourney(id)`: one transaction deletes the tasks and habits of the journey and the
   * journey itself; a failure rolls it back and the function returns false.
   */
  method DeleteJourney(db: DexieStore.HeroTaskDatabase, id: nat, fails: bool) returns (ok: bool)
    modifies db`journeys, db`tasks, db`habits
    ensures ok <==> !fails
    ensures ok ==> db.State() == DexieStore.JourneyDeleted(old(db.State()), id)
    ensures !ok ==> db.State() == old(db.State())
  {
    if fails {
      return false;
    }
    var text := NatToString(id);
    db.tasks := map k | k in db.tasks && db.tasks[k].journeyId != text :: db.tasks[k];
    db.habits := map k | k in db.habits && db.habits[k].journeyId != text :: db.habits[k];
    db.journeys := db.journeys - {id};
    return true;
  }

  /** The record `saveTask` puts: the stored `createdAt` is kept when the id exists. */
  function SavedTask(tasks: map<string, DexieStore.Task>, task: DexieStore.Task, now: DexieStore.Timestamp): (r: DexieStore.Task)
    ensures r.updatedAt == now
    ensures r.createdAt == (if task.id != "" && task.id in tasks then tasks[task.id].createdAt else now)
    ensures r.(createdAt := task.createdAt, updatedAt := task.updatedAt) == task
  {
    var createdAt := if task.id != "" && task.id in tasks then tasks[task.id].createdAt else now;
    task.(createdAt := createdAt, updatedAt := now)
  }

  /** `saveTask`: a `put` under the task's id. */
  method SaveTask(db: DexieStore.HeroTaskDatabase, task: DexieStore.Task, now: DexieStore.Timestamp)
    modifies db`tasks
    ensures db.tasks == old(db.tasks)[task.id := SavedTask(old(db.tasks), task, now)]
  {
    var createdAt := now;
    if task.id != "" && task.id in db.tasks {
      createdAt := db.tasks[task.id].createdAt;
    }
    db.tasks := db.tasks[task.id := task.(createdAt := createdAt, updatedAt := now)];
  }

  /** Saving a task twice keeps the creation time of the first save. */
  lemma SaveTaskTwiceKeepsCreation(tasks: map<string, DexieStore.Task>, task: DexieStore.Task, now: DexieStore.Timestamp, later: DexieStore.Timestamp)
    requires task.id != ""
    ensures var once := tasks[task.id := SavedTask(tasks, task, now)];
      SavedTask(once, task, later).createdAt == once[task.id].createdAt
  {
  }

  /** `completeTask(taskId, actualMinutes)`: an `update`, which does nothing when the key is absent. */
  method CompleteTask(db: DexieStore.HeroTaskDatabase, taskId: string, actualMinutes: Option<int>, now: DexieStore.Timestamp)
    modifies db`tasks
    ensures taskId in old(db.tasks) ==> db.tasks == old(db.tasks)[taskId := DexieStore.CompletedTask(old(db.tasks)[taskId], actualMinutes, now)]
    ensures taskId !in old(db.tasks) ==> db.tasks == old(db.tasks)
  {
    if taskId in db.tasks {
      db.tasks := db.tasks[taskId := DexieStore.CompletedTask(db.tasks[taskId], actualMinutes, now)];
    }
  }
}
