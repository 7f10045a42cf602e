/**
 * The relational store (sql.js): the `app_settings` key/value table, `study_plans` and
 * `saved_plans`, each table a sequence of rows in row order. A row is addressed by its primary
 * key `id`; `INSERT OR REPLACE` deletes the row holding that key and appends the new one.
 */
module SqlStore {
  import opened Wrappers
  import opened Sorting

  type Timestamp = int

  /** The setting that names the active study plan. */
  const ActivePlanKey := "active_plan_id"

  /** The name given to the `saved_plans` row that holds the active plan. */
  const CurrentPlanName := "Plano Atual"

  /** A study plan as the app edits it; `id` is empty when the plan has not been saved yet. */
  datatype StudyPlan = StudyPlan(id: string, kind: string, subjectIds: seq<string>, totalHours: int, focusAreas: seq<string>)

  /** A `study_plans` row: the plan stored under `plan.id`, and its `updated_at` column. */
  datatype PlanRow = PlanRow(plan: StudyPlan, updatedAt: Timestamp)

  /** A `saved_plans` row. */
  datatype SavedPlanRow = SavedPlanRow(id: string, name: string, planId: string, isActive: bool)

  function RowUpdatedAt(r: PlanRow): int
  {
    r.updatedAt
  }

  /** No two rows share a primary key. */
  predicate UniquePlanIds(rows: seq<PlanRow>)
  {
    forall i, j :: 0 <= i < j < |rows| ==> rows[i].plan.id != rows[j].plan.id
  }

  predicate UniqueSavedIds(rows: seq<SavedPlanRow>)
  {
    forall i, j :: 0 <= i < j < |rows| ==> rows[i].id != rows[j].id
  }

  /** `loadTypedSetting(key)` when the stored value is truthy (a non-empty string). */
  function TruthySetting(settings: map<string, string>, key: string): (r: Option<string>)
    ensures r.Some? <==> key in settings && settings[key] != ""
    ensures r.Some? ==> r.value == settings[key]
  {
    if key in settings && settings[key] != "" then Some(settings[key]) else None
  }

  /** `SELECT … FROM study_plans WHERE id = ?`: the plan stored under `id`, if any. */
  function LoadPlan(rows: seq<PlanRow>, id: string): (r: Option<StudyPlan>)
    ensures r.Some? <==> exists i :: 0 <= i < |rows| && rows[i].plan.id == id
    ensures r.Some? ==> r.value.id == id && exists i :: 0 <= i < |rows| && rows[i].plan == r.value
  {
    if rows == [] then None
    else if rows[0].plan.id == id then Some(rows[0].plan)
    else
      var r := LoadPlan(rows[1..], id);
      assert forall i :: 1 <= i < |rows| ==> rows[i] == rows[1..][i - 1];
      r
  }

  /** `ORDER BY updated_at DESC`: most recently updated first, ties in row order. */
  function ByRecency(rows: seq<PlanRow>): (r: seq<PlanRow>)
    ensures |r| == |rows| && multiset(r) == multiset(rows)
  {
    SortDesc(rows, RowUpdatedAt)
  }

  /** `SELECT id FROM study_plans ORDER BY updated_at DESC LIMIT 1`. */
  function MostRecent(rows: seq<PlanRow>): (r: Option<PlanRow>)
    ensures r.Some? <==> rows != []
  {
    if rows == [] then None else Some(ByRecency(rows)[0])
  }

  /**
   * `prepare(sql).getAsObject(params)` given the first row the query selects: sql.js binds the
   * parameters and steps to that row only when parameters are passed; called without them it
   * reads no row and yields an object with no columns.
   */
  function GetAsObject<T>(firstRow: Option<T>, withParams: bool): (r: Option<T>)
    ensures !withParams ==> r.None?
    ensures withParams ==> r == firstRow
  {
    if withParams then firstRow else None
  }

  /** The most recent row is a stored row, and no row was updated later. */
  lemma MostRecentIsLatest(rows: seq<PlanRow>)
    requires rows != []
    ensures MostRecent(rows).value in rows
    ensures forall i :: 0 <= i < |rows| ==> rows[i].updatedAt <= MostRecent(rows).value.updatedAt
  {
    var sorted := ByRecency(rows);
    SortDescCorrect(rows, RowUpdatedAt);
    assert sorted[0] in multiset(rows);
    forall i | 0 <= i < |rows| ensures rows[i].updatedAt <= sorted[0].updatedAt {
      assert rows[i] in multiset(sorted);
      var j :| 0 <= j < |sorted| && sorted[j] == rows[i];
      if j > 0 {
        assert RowUpdatedAt(sorted[0]) >= RowUpdatedAt(sorted[j]);
      }
    }
  }

  /** `INSERT OR REPLACE`: the row holding the same key is deleted and the new row appended. */
  function ReplacePlanRow(rows: seq<PlanRow>, row: PlanRow): (r: seq<PlanRow>)
    ensures |r| <= |rows| + 1
    ensures r != [] && r[|r| - 1] == row
    ensures forall i :: 0 <= i < |r| - 1 ==> r[i].plan.id != row.plan.id && r[i] in rows
    ensures forall i :: 0 <= i < |rows| && rows[i].plan.id != row.plan.id ==> rows[i] in r
  {
    Without(rows, row.plan.id) + [row]
  }

  function Without(rows: seq<PlanRow>, id: string): (r: seq<PlanRow>)
    ensures |r| <= |rows|
    ensures forall i :: 0 <= i < |r| ==> r[i].plan.id != id && r[i] in rows
    ensures forall i :: 0 <= i < |rows| && rows[i].plan.id != id ==> rows[i] in r
  {
    if rows == [] then []
    else
      var tail := Without(rows[1..], id);
      assert forall i :: 1 <= i < |rows| ==> rows[i] == rows[1..][i - 1];
      if rows[0].plan.id == id then tail else [rows[0]] + tail
  }

  function ReplaceSavedRow(rows: seq<SavedPlanRow>, row: SavedPlanRow): (r: seq<SavedPlanRow>)
    ensures |r| <= |rows| + 1
    ensures r != [] && r[|r| - 1] == row
    ensures forall i :: 0 <= i < |r| - 1 ==> r[i].id != row.id && r[i] in rows
    ensures forall i :: 0 <= i < |rows| && rows[i].id != row.id ==> rows[i] in r
  {
    SavedWithout(rows, row.id) + [row]
  }

  function SavedWithout(rows: seq<SavedPlanRow>, id: string): (r: seq<SavedPlanRow>)
    ensures |r| <= |rows|
    ensures forall i :: 0 <= i < |r| ==> r[i].id != id && r[i] in rows
    ensures forall i :: 0 <= i < |rows| && rows[i].id != id ==> rows[i] in r
    ensures (forall i :: 0 <= i < |rows| ==> rows[i].id != id) ==> r == rows
  {
    if rows == [] then []
    else
      var tail := SavedWithout(rows[1..], id);
      assert forall i :: 1 <= i < |rows| ==> rows[i] == rows[1..][i - 1];
      assert rows == [rows[0]] + rows[1..];
      if rows[0].id == id then tail else [rows[0]] + tail
  }

  lemma {:induction false} SavedWithoutUnique(rows: seq<SavedPlanRow>, id: string)
    requires UniqueSavedIds(rows)
    ensures UniqueSavedIds(SavedWithout(rows, id))
  {
    if rows != [] {
      assert UniqueSavedIds(rows[1..]) by {
        forall a, b | 0 <= a < b < |rows[1..]| ensures rows[1..][a].id != rows[1..][b].id {
          assert rows[1..][a] == rows[a + 1] && rows[1..][b] == rows[b + 1];
        }
      }
      SavedWithoutUnique(rows[1..], id);
      var tail := SavedWithout(rows[1..], id);
      forall k | 0 <= k < |tail| ensures rows[0].id != tail[k].id {
        var m :| 0 <= m < |rows[1..]| && rows[1..][m] == tail[k];
        assert rows[m + 1] == tail[k];
      }
    }
  }

  /** Removing a key that only the appended last row holds removes exactly that row. */
  lemma {:induction false} SavedWithoutLast(rows: seq<SavedPlanRow>, last: SavedPlanRow)
    requires forall i :: 0 <= i < |rows| ==> rows[i].id != last.id
    ensures SavedWithout(rows + [last], last.id) == rows
  {
    var all := rows + [last];
    if rows == [] {
      assert all[1..] == [];
    } else {
      var rest := rows[1..];
      assert all[0] == rows[0] && all[1..] == rest + [last];
      assert forall i :: 0 <= i < |rest| ==> rest[i] == rows[i + 1];
      SavedWithoutLast(rest, last);
      assert SavedWithout(all, last.id) == [rows[0]] + SavedWithout(all[1..], last.id);
      assert rows == [rows[0]] + rest;
    }
  }

  /** `UPDATE saved_plans SET is_active = FALSE`. */
  function DeactivateAll(rows: seq<SavedPlanRow>): (r: seq<SavedPlanRow>)
    ensures |r| == |rows|
    ensures forall i :: 0 <= i < |r| ==> r[i] == rows[i].(isActive := false)
  {
    seq(|rows|, i requires 0 <= i < |rows| => rows[i].(isActive := false))
  }

  /** `SELECT … FROM saved_plans WHERE is_active = TRUE LIMIT 1`. */
  function FirstActive(rows: seq<SavedPlanRow>): (r: Option<SavedPlanRow>)
    ensures r.None? <==> forall i :: 0 <= i < |rows| ==> !rows[i].isActive
    ensures r.Some? ==> r.value.isActive
    ensures r.Some? ==> exists i ::
                          0 <= i < |rows| && rows[i] == r.value && forall j :: 0 <= j < i ==> !rows[j].isActive
  {
    if rows == [] then None
    else if rows[0].isActive then Some(rows[0])
    else
      var r := FirstActive(rows[1..]);
      assert forall i :: 1 <= i < |rows| ==> rows[i] == rows[1..][i - 1];
      r
  }

  /** The connection: one field per table. */
  class SqliteDatabase {
    var settings: map<string, string>
    var studyPlans: seq<PlanRow>
    var savedPlans: seq<SavedPlanRow>

    ghost predicate Valid()
      reads this
    {
      UniquePlanIds(studyPlans) && UniqueSavedIds(savedPlans)
    }

    constructor (settings: map<string, string>, studyPlans: seq<PlanRow>, savedPlans: seq<SavedPlanRow>)
      ensures this.settings == settings && this.studyPlans == studyPlans && this.savedPlans == savedPlans
    {
      this.settings, this.studyPlans, this.savedPlans := settings, studyPlans, savedPlans;
    }
  }
}
