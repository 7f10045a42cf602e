/**
 * The one-shot repair of the `active_plan_id` setting (src/db/migration-active-plan.ts): it fills in
 * a missing `active_plan_id` setting from `saved_plans` or from the most recent plan, makes sure
 * a `saved_plans` row points at that plan, and prunes `study_plans` to the six most recent.
 * `RepairActivePlan` is that repair with its two row reads stepping to the first row, as intended;
 * `RepairActivePlanAsWritten` keeps the unstepped reads of the code, which never find a row.
 */
module ActivePlanMigration {
  import opened Wrappers
  import opened Sorting
  import opened SqlStore

  /** How many of the most recent plans the cleanup keeps. */
  const KeptPlans := 6

  /** The three tables the repair reads and writes. */
  datatype Tables = Tables(settings: map<string, string>, plans: seq<PlanRow>, saved: seq<SavedPlanRow>)

  /** The ids of a run of rows. */
  function IdsOf(rows: seq<PlanRow>): (r: set<string>)
    ensures |r| <= |rows|
    ensures forall i :: 0 <= i < |rows| ==> rows[i].plan.id in r
    ensures forall id :: id in r ==> exists i :: 0 <= i < |rows| && rows[i].plan.id == id
  {
    if rows == [] then {}
    else
      var rest := IdsOf(rows[1..]);
      assert forall i :: 1 <= i < |rows| ==> rows[i] == rows[1..][i - 1];
      {rows[0].plan.id} + rest
  }

  /** `SELECT id FROM study_plans ORDER BY updated_at DESC LIMIT 6`. */
  function RecentIds(plans: seq<PlanRow>): (r: set<string>)
    ensures |r| <= KeptPlans
  {
    var sorted := ByRecency(plans);
    IdsOf(sorted[..if |sorted| < KeptPlans then |sorted| else KeptPlans])
  }

  /** The rows whose id is in `keep` or is `activeId`, in row order. */
  function KeepPlans(rows: seq<PlanRow>, keep: set<string>, activeId: string): (r: seq<PlanRow>)
    ensures |r| <= |rows|
    ensures forall i :: 0 <= i < |r| ==> r[i] in rows && (r[i].plan.id in keep || r[i].plan.id == activeId)
    ensures forall i :: 0 <= i < |rows| && (rows[i].plan.id in keep || rows[i].plan.id == activeId) ==> rows[i] in r
  {
    if rows == [] then []
    else
      var tail := KeepPlans(rows[1..], keep, activeId);
      assert forall i :: 1 <= i < |rows| ==> rows[i] == rows[1..][i - 1];
      if rows[0].plan.id in keep || rows[0].plan.id == activeId then [rows[0]] + tail else tail
  }

  /** `DELETE FROM study_plans WHERE id NOT IN (<six most recent>) AND id != activeId`. */
  function Cleaned(plans: seq<PlanRow>, activeId: string): seq<PlanRow>
  {
    KeepPlans(plans, RecentIds(plans), activeId)
  }

  /** `SELECT id FROM saved_plans WHERE plan_id = ?` finds a row with a truthy id. */
  predicate ReferencesPlan(saved: seq<SavedPlanRow>, planId: string)
  {
    exists i :: 0 <= i < |saved| && saved[i].planId == planId && saved[i].id != "" &&
      forall j :: 0 <= j < i ==> saved[j].planId != planId
  }

  predicate HasSavedId(saved: seq<SavedPlanRow>, id: string)
  {
    exists i :: 0 <= i < |saved| && saved[i].id == id
  }

  /** What `migrateActivePlanPersistence` leaves behind. */
  function RepairActivePlan(t: Tables): (r: Tables)
    ensures TruthySetting(t.settings, ActivePlanKey).Some? ==> r == t
    ensures TruthySetting(r.settings, ActivePlanKey).Some? || r == t
    ensures forall k :: k != ActivePlanKey ==> (k in r.settings <==> k in t.settings)
    ensures forall k :: k != ActivePlanKey && k in t.settings ==> r.settings[k] == t.settings[k]
  {
    if TruthySetting(t.settings, ActivePlanKey).Some? then t
    else
      var active := FirstActive(t.saved);
      if active.Some? && active.value.planId != "" then t.(settings := t.settings[ActivePlanKey := active.value.planId])
      else
        var recent := MostRecent(t.plans);
        if recent.None? || recent.value.plan.id == "" then t
        else PointAtPlan(t, recent.value.plan.id)
  }

  /**
   * `migrateActivePlanPersistence` as written: the active-row and most-recent-plan queries call
   * `getAsObject()` without parameters, so neither reads a row and only the first check can act.
   */
  function RepairActivePlanAsWritten(t: Tables): (r: Tables)
    ensures r == t
  {
    if TruthySetting(t.settings, ActivePlanKey).Some? then t
    else
      // a column missing from the result object reads as undefined, which is falsy like ""
      var activePlanId := match GetAsObject(FirstActive(t.saved), false) case Some(row) => row.planId case None => "";
      if activePlanId != "" then t.(settings := t.settings[ActivePlanKey := activePlanId])
      else
        var recentId := match GetAsObject(MostRecent(t.plans), false) case Some(row) => row.plan.id case None => "";
        if recentId == "" then t else PointAtPlan(t, recentId)
  }

  /**
   * Whenever the setting is missing and an active row or a stored plan could supply it, the code as
   * written leaves it missing while the repair with stepped reads fills it in.
   */
  lemma UnsteppedReadsSkipRepair(t: Tables)
    requires TruthySetting(t.settings, ActivePlanKey).None?
    requires (FirstActive(t.saved).Some? && FirstActive(t.saved).value.planId != "") || TakesMostRecent(t)
    ensures TruthySetting(RepairActivePlanAsWritten(t).settings, ActivePlanKey).None?
    ensures TruthySetting(RepairActivePlan(t).settings, ActivePlanKey).Some?
  {
    RepairFillsActiveSetting(t);
  }

  /**
   * The repair once it has chosen the most recent plan: the setting is set, a `saved_plans` row
   * is found or created, and the plans are pruned unless the insert collided.
   */
  function PointAtPlan(t: Tables, planId: string): (r: Tables)
    ensures r.settings == t.settings[ActivePlanKey := planId]
  {
    var settings := t.settings[ActivePlanKey := planId];
    if ReferencesPlan(t.saved, planId) then Tables(settings, Cleaned(t.plans, planId), t.saved)
    else if HasSavedId(t.saved, planId) then Tables(settings, t.plans, DeactivateAll(t.saved))
    else Tables(settings, Cleaned(t.plans, planId), DeactivateAll(t.saved) + [SavedPlanRow(planId, CurrentPlanName, planId, true)])
  }

  /** `SELECT id FROM saved_plans WHERE plan_id = ?`, the first matching row. */
  method FindReferencingRow(saved: seq<SavedPlanRow>, planId: string) returns (found: bool)
    ensures found <==> ReferencesPlan(saved, planId)
  {
    var i := 0;
    while i < |saved| && saved[i].planId != planId
      invariant i <= |saved|
      invariant forall j :: 0 <= j < i ==> saved[j].planId != planId
    {
      i := i + 1;
    }
    found := i < |saved| && saved[i].id != "";
  }

  /**
   * `migrateActivePlanPersistence`. The `INSERT` fails when a row already holds the plan's id as
   * its own key; the error is caught and the cleanup after it does not run.
   */
  method MigrateActivePlanPersistence(db: SqliteDatabase)
    modifies db
    ensures Tables(db.settings, db.studyPlans, db.savedPlans) == RepairActivePlan(old(Tables(db.settings, db.studyPlans, db.savedPlans)))
  {
    if TruthySetting(db.settings, ActivePlanKey).Some? {
      return;
    }
    var active := FirstActive(db.savedPlans);
    if active.Some? && active.value.planId != "" {
      db.settings := db.settings[ActivePlanKey := active.value.planId];
      return;
    }
    var recent := MostRecent(db.studyPlans);
    if recent.Some? && recent.value.plan.id != "" {
      var planId := recent.value.plan.id;
      db.settings := db.settings[ActivePlanKey := planId];
      var referenced := FindReferencingRow(db.savedPlans, planId);
      if !referenced {
        if HasSavedId(db.savedPlans, planId) {
          // the INSERT violates the primary key: everything was already marked inactive
          db.savedPlans := DeactivateAll(db.savedPlans);
          return;
        }
        db.savedPlans := DeactivateAll(db.savedPlans) + [SavedPlanRow(planId, CurrentPlanName, planId, true)];
      }
      db.studyPlans := Cleaned(db.studyPlans, planId);
    }
  }

  /** The repair falls through to the most recent plan: no setting, no usable active row, a truthy plan id. */
  predicate TakesMostRecent(t: Tables)
  {
    && TruthySetting(t.settings, ActivePlanKey).None?
    && !(FirstActive(t.saved).Some? && FirstActive(t.saved).value.planId != "")
    && MostRecent(t.plans).Some? && MostRecent(t.plans).value.plan.id != ""
  }

  /**
   * The setting ends up set exactly when it was set, an active row names a plan, or a plan with an
   * id is stored; and it then names the old setting, that row's plan or the most recent plan.
   */
  lemma RepairFillsActiveSetting(t: Tables)
    ensures var r := RepairActivePlan(t);
      && (TruthySetting(r.settings, ActivePlanKey).Some? <==>
            || TruthySetting(t.settings, ActivePlanKey).Some?
            || (FirstActive(t.saved).Some? && FirstActive(t.saved).value.planId != "")
            || TakesMostRecent(t))
      && (forall k :: k != ActivePlanKey ==> (k in r.settings <==> k in t.settings))
      && (forall k :: k != ActivePlanKey && k in t.settings ==> r.settings[k] == t.settings[k])
      && (TruthySetting(t.settings, ActivePlanKey).None? && FirstActive(t.saved).Some? && FirstActive(t.saved).value.planId != "" ==>
            r.settings[ActivePlanKey] == FirstActive(t.saved).value.planId && r.plans == t.plans && r.saved == t.saved)
      && (TakesMostRecent(t) ==> r.settings[ActivePlanKey] == MostRecent(t.plans).value.plan.id)
  {
    var r := RepairActivePlan(t);
    if TruthySetting(t.settings, ActivePlanKey).Some? {
      assert r == t;
    } else if FirstActive(t.saved).Some? && FirstActive(t.saved).value.planId != "" {
      assert r.settings == t.settings[ActivePlanKey := FirstActive(t.saved).value.planId];
    } else if TakesMostRecent(t) {
      assert r.settings == t.settings[ActivePlanKey := MostRecent(t.plans).value.plan.id];
    } else {
      assert r == t;
    }
  }

  /** A second run changes nothing: the repair can run at every start-up. */
  lemma RepairIsIdempotent(t: Tables)
    ensures RepairActivePlan(RepairActivePlan(t)) == RepairActivePlan(t)
  {
    var r := RepairActivePlan(t);
    RepairFillsActiveSetting(t);
    if TruthySetting(r.settings, ActivePlanKey).None? {
      assert r == t;
    }
  }

  /** Rows with distinct ids, all drawn from `ids`, are no more than `ids`. */
  lemma {:induction false} DistinctIdsWithin(rows: seq<PlanRow>, ids: set<string>)
    requires UniquePlanIds(rows)
    requires forall i :: 0 <= i < |rows| ==> rows[i].plan.id in ids
    ensures |rows| <= |ids|
  {
    if rows != [] {
      var rest := rows[1..];
      var smaller := ids - {rows[0].plan.id};
      forall i | 0 <= i < |rest| ensures rest[i].plan.id in smaller {
        assert rest[i] == rows[i + 1];
      }
      assert UniquePlanIds(rest) by {
        forall a, b | 0 <= a < b < |rest| ensures rest[a].plan.id != rest[b].plan.id {
          assert rest[a] == rows[a + 1] && rest[b] == rows[b + 1];
        }
      }
      DistinctIdsWithin(rest, smaller);
    }
  }

  /** Keeping some rows keeps their ids distinct. */
  lemma {:induction false} KeepPlansUnique(rows: seq<PlanRow>, keep: set<string>, activeId: string)
    requires UniquePlanIds(rows)
    ensures UniquePlanIds(KeepPlans(rows, keep, activeId))
  {
    if rows != [] {
      var rest := rows[1..];
      assert UniquePlanIds(rest) by {
        forall a, b | 0 <= a < b < |rest| ensures rest[a].plan.id != rest[b].plan.id {
          assert rest[a] == rows[a + 1] && rest[b] == rows[b + 1];
        }
      }
      KeepPlansUnique(rest, keep, activeId);
      var tail := KeepPlans(rest, keep, activeId);
      forall k | 0 <= k < |tail| ensures rows[0].plan.id != tail[k].plan.id {
        var j :| 0 <= j < |rest| && rest[j] == tail[k];
        assert rows[j + 1] == tail[k];
      }
      if rows[0].plan.id in keep || rows[0].plan.id == activeId {
        var r := [rows[0]] + tail;
        forall a, b | 0 <= a < b < |r| ensures r[a].plan.id != r[b].plan.id {
          if a > 0 {
            assert r[a] == tail[a - 1] && r[b] == tail[b - 1];
          } else {
            assert r[b] == tail[b - 1];
          }
        }
      }
    }
  }

  /** The most recent plan is among the six most recent. */
  lemma MostRecentIsKept(plans: seq<PlanRow>)
    requires plans != []
    ensures MostRecent(plans).value.plan.id in RecentIds(plans)
  {
    var sorted := ByRecency(plans);
    var n := if |sorted| < KeptPlans then |sorted| else KeptPlans;
    assert sorted[..n][0] == sorted[0];
  }

  /** When the setting comes from the most recent plan, the cleanup leaves at most six plans. */
  lemma CleanupKeepsAtMostSix(t: Tables)
    requires UniquePlanIds(t.plans)
    requires TakesMostRecent(t)
    ensures |RepairActivePlan(t).plans| <= KeptPlans || RepairActivePlan(t).plans == t.plans
  {
    var planId := MostRecent(t.plans).value.plan.id;
    var kept := Cleaned(t.plans, planId);
    MostRecentIsKept(t.plans);
    KeepPlansUnique(t.plans, RecentIds(t.plans), planId);
    DistinctIdsWithin(kept, RecentIds(t.plans));
  }

  /**
   * Unless the insert collided, the cleanup keeps exactly the rows among the six most recent, so
   * the plan the setting names is still stored.
   */
  lemma CleanupKeepsRecentPlans(t: Tables)
    requires TakesMostRecent(t)
    requires ReferencesPlan(t.saved, MostRecent(t.plans).value.plan.id) || !HasSavedId(t.saved, MostRecent(t.plans).value.plan.id)
    ensures var r := RepairActivePlan(t);
      && (forall i :: 0 <= i < |r.plans| ==> r.plans[i] in t.plans && r.plans[i].plan.id in RecentIds(t.plans))
      && (forall i :: 0 <= i < |t.plans| && t.plans[i].plan.id in RecentIds(t.plans) ==> t.plans[i] in r.plans)
      && LoadPlan(r.plans, r.settings[ActivePlanKey]).Some?
  {
    var recent := MostRecent(t.plans).value;
    MostRecentIsKept(t.plans);
    MostRecentIsLatest(t.plans);
    var i :| 0 <= i < |t.plans| && t.plans[i] == recent;
    var r := RepairActivePlan(t);
    assert recent in r.plans;
  }

  /** A primary-key collision on the insert leaves every saved plan inactive and no cleanup done. */
  lemma CollisionLeavesNoActiveRow(t: Tables)
    requires TakesMostRecent(t)
    requires !ReferencesPlan(t.saved, MostRecent(t.plans).value.plan.id) && HasSavedId(t.saved, MostRecent(t.plans).value.plan.id)
    ensures var r := RepairActivePlan(t);
      && r.plans == t.plans
      && |r.saved| == |t.saved|
      && FirstActive(r.saved).None?
  {
  }

  /** A newly created `saved_plans` row is the only active one and points at the chosen plan. */
  lemma CreatedRowIsOnlyActive(t: Tables)
    requires TakesMostRecent(t)
    requires !ReferencesPlan(t.saved, MostRecent(t.plans).value.plan.id) && !HasSavedId(t.saved, MostRecent(t.plans).value.plan.id)
    ensures var r := RepairActivePlan(t);
      && FirstActive(r.saved) == Some(SavedPlanRow(r.settings[ActivePlanKey], CurrentPlanName, r.settings[ActivePlanKey], true))
      && |r.saved| == |t.saved| + 1
      && (UniqueSavedIds(t.saved) ==> UniqueSavedIds(r.saved))
  {
    var planId := MostRecent(t.plans).value.plan.id;
    var row := SavedPlanRow(planId, CurrentPlanName, planId, true);
    var saved := DeactivateAll(t.saved) + [row];
    assert RepairActivePlan(t) == Tables(t.settings[ActivePlanKey := planId], Cleaned(t.plans, planId), saved);
    AppendedRowFirstActive(t.saved, row);
  }

  /** After every row is deactivated, an appended active row is the first active one. */
  lemma AppendedRowFirstActive(saved: seq<SavedPlanRow>, row: SavedPlanRow)
    requires row.isActive
    ensures FirstActive(DeactivateAll(saved) + [row]) == Some(row)
  {
    var all := DeactivateAll(saved) + [row];
    assert forall i :: 0 <= i < |saved| ==> !all[i].isActive;
    assert all[|saved|].isActive;
    var first := FirstActive(all).value;
    var k :| 0 <= k < |all| && all[k] == first && forall j :: 0 <= j < k ==> !all[j].isActive;
    assert all[k] == row;
  }
}
