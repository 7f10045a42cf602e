/**
 * JSON backup of the document store (src/db/dexie/backup.ts): export every store as an array
 * of records, import such arrays either replacing the stores or merging into them, and count
 * the records per store. A store's array is modelled as its (key, record) pairs; records of
 * the string-keyed stores carry their key as their `id`.
 */
module Backup {
  import opened Wrappers
  import opened DexieStore

  const BackupVersion := "1.0.0"
  const InvalidFormat := "Invalid backup data format"

  /** No key occurs twice among the rows. */
  predicate DistinctKeys<K(==), V>(rows: seq<(K, V)>)
  {
    forall i, j | 0 <= i < j < |rows| :: rows[i].0 != rows[j].0
  }

  /** The store the rows describe; a later row for the same key wins. */
  function AsMap<K(!new), V>(rows: seq<(K, V)>): (m: map<K, V>)
    ensures forall k :: k in m <==> exists i :: 0 <= i < |rows| && rows[i].0 == k
    ensures forall k :: k in m ==> exists i :: 0 <= i < |rows| && rows[i] == (k, m[k])
  {
    if rows == [] then map[]
    else
      var front := rows[..|rows| - 1];
      assert forall i :: 0 <= i < |front| ==> front[i] == rows[i];
      AsMap(front)[rows[|rows| - 1].0 := rows[|rows| - 1].1]
  }

  /** Distinct rows describe a store of exactly that many records, each as listed. */
  lemma AsMapOfDistinct<K(!new), V>(rows: seq<(K, V)>)
    requires DistinctKeys(rows)
    ensures |AsMap(rows)| == |rows|
    ensures forall i :: 0 <= i < |rows| ==> AsMap(rows)[rows[i].0] == rows[i].1
  {
    AsMapSize(rows);
    AsMapLookup(rows);
  }

  lemma {:induction false} AsMapSize<K(!new), V>(rows: seq<(K, V)>)
    requires DistinctKeys(rows)
    ensures |AsMap(rows)| == |rows|
  {
    if rows != [] {
      FrontDistinct(rows);
      AsMapSize(rows[..|rows| - 1]);
      LastKeyNew(rows);
    }
  }

  lemma {:induction false} AsMapLookup<K(!new), V>(rows: seq<(K, V)>)
    requires DistinctKeys(rows)
    ensures forall i :: 0 <= i < |rows| ==> AsMap(rows)[rows[i].0] == rows[i].1
  {
    if rows != [] {
      var front := rows[..|rows| - 1];
      FrontDistinct(rows);
      AsMapLookup(front);
      forall i | 0 <= i < |front|
        ensures AsMap(rows)[rows[i].0] == rows[i].1
      {
        assert front[i] == rows[i];
      }
    }
  }

  /** Dropping the last row keeps the keys distinct. */
  lemma FrontDistinct<K(!new), V>(rows: seq<(K, V)>)
    requires rows != [] && DistinctKeys(rows)
    ensures DistinctKeys(rows[..|rows| - 1])
  {
    var front := rows[..|rows| - 1];
    assert forall i :: 0 <= i < |front| ==> front[i] == rows[i];
  }

  /** The last of distinct rows has a key the rows before it do not describe. */
  lemma LastKeyNew<K(!new), V>(rows: seq<(K, V)>)
    requires rows != [] && DistinctKeys(rows)
    ensures rows[|rows| - 1].0 !in AsMap(rows[..|rows| - 1])
  {
    var front := rows[..|rows| - 1];
    assert forall i :: 0 <= i < |front| ==> front[i].0 != rows[|rows| - 1].0;
  }

  /** The rows list every record of `m` exactly once. */
  ghost predicate Lists<K(!new), V>(rows: seq<(K, V)>, m: map<K, V>)
  {
    DistinctKeys(rows) && AsMap(rows) == m
  }

  /** Appending a row with a new key extends the described store by that record. */
  lemma AppendRow<K(!new), V>(rows: seq<(K, V)>, k: K, v: V)
    requires DistinctKeys(rows) && k !in AsMap(rows)
    ensures DistinctKeys(rows + [(k, v)])
    ensures AsMap(rows + [(k, v)]) == AsMap(rows)[k := v]
  {
    var longer := rows + [(k, v)];
    assert longer[..|rows|] == rows;
    forall i | 0 <= i < |rows|
      ensures rows[i].0 != k
    {
      assert rows[i].0 in AsMap(rows);
    }
  }

  /** Moving one key from the rest to the listed part keeps their union. */
  lemma MoveKey<K, V>(listed: map<K, V>, rest: map<K, V>, m: map<K, V>, k: K)
    requires listed.Keys !! rest.Keys && listed + rest == m && k in rest
    ensures listed[k := rest[k]].Keys !! (rest - {k}).Keys
    ensures listed[k := rest[k]] + (rest - {k}) == m
  {
    var l2, r2 := listed[k := rest[k]], rest - {k};
    assert (l2 + r2).Keys == m.Keys;
    forall x | x in m
      ensures (l2 + r2)[x] == m[x]
    {
      if x == k {
      } else if x in rest {
        assert x in r2;
      } else {
        assert x in listed && x !in r2;
      }
    }
  }

  /** `toArray()` of one store, in an order the model leaves open. */
  method Entries<K(!new), V>(m: map<K, V>) returns (rows: seq<(K, V)>)
    ensures Lists(rows, m)
  {
    rows := [];
    ghost var listed: map<K, V> := map[];
    var rest := m;
    while rest != map[]
      invariant DistinctKeys(rows) && AsMap(rows) == listed
      invariant listed.Keys !! rest.Keys
      invariant listed + rest == m
      decreases |rest|
    {
      var k :| k in rest;
      AppendRow(rows, k, rest[k]);
      MoveKey(listed, rest, m, k);
      rows := rows + [(k, rest[k])];
      listed := listed[k := rest[k]];
      rest := rest - {k};
    }
    assert listed + rest == listed;
  }

  /** The records of a string-keyed store, paired with their `id`. */
  function Keyed<V>(records: seq<V>, id: V -> string): (rows: seq<(string, V)>)
    ensures |rows| == |records|
    ensures forall i :: 0 <= i < |rows| ==> rows[i] == (id(records[i]), records[i])
  {
    seq(|records|, i requires 0 <= i < |records| => (id(records[i]), records[i]))
  }

  /** The records of the rows, without their keys. */
  function Records<K, V>(rows: seq<(K, V)>): (records: seq<V>)
    ensures |records| == |rows|
    ensures forall i :: 0 <= i < |rows| ==> records[i] == rows[i].1
  {
    seq(|rows|, i requires 0 <= i < |rows| => rows[i].1)
  }

  function TaskId(t: Task): string { t.id }
  function HabitId(h: Habit): string { h.id }
  function AttributeId(a: HeroAttribute): string { a.id }

  /** The parsed backup object; an absent array is modelled as an empty one. */
  datatype BackupData = BackupData(
    version: string,
    exportedAt: string,
    heroProfile: seq<(nat, HeroProfile)>,
    journeys: seq<(nat, Journey)>,
    tasks: seq<Task>,
    habits: seq<Habit>,
    habitCompletions: seq<(nat, HabitCompletion)>,
    heroAttributes: seq<HeroAttribute>,
    attributeHistory: seq<(nat, AttributeHistory)>,
    attributeGoals: seq<(nat, AttributeGoal)>)

  /** Each array of the backup lists its store exactly. */
  ghost predicate Exports(b: BackupData, s: Snapshot)
  {
    && Lists(b.heroProfile, s.heroProfile)
    && Lists(b.journeys, s.journeys)
    && Lists(Keyed(b.tasks, TaskId), s.tasks)
    && Lists(Keyed(b.habits, HabitId), s.habits)
    && Lists(b.habitCompletions, s.habitCompletions)
    && Lists(Keyed(b.heroAttributes, AttributeId), s.heroAttributes)
    && Lists(b.attributeHistory, s.attributeHistory)
    && Lists(b.attributeGoals, s.attributeGoals)
  }

  /** A string-keyed store's records, when every record sits under its own id. */
  method RecordsOf<V>(m: map<string, V>, id: V -> string) returns (records: seq<V>)
    requires forall k :: k in m ==> id(m[k]) == k
    ensures Lists(Keyed(records, id), m)
  {
    var rows := Entries(m);
    records := Records(rows);
    forall i | 0 <= i < |rows|
      ensures Keyed(records, id)[i] == rows[i]
    {
      assert rows[i].0 in AsMap(rows);
    }
    assert Keyed(records, id) == rows;
  }

  /** `exportDexieData()`: version 1.0.0, the export time, and every store in full. */
  method ExportDexieData(db: HeroTaskDatabase, exportedAt: string) returns (b: BackupData)
    requires KeysMatchIds(db.State())
    ensures b.version == BackupVersion && b.exportedAt == exportedAt
    ensures Exports(b, db.State())
  {
    var heroProfile := Entries(db.heroProfile);
    var journeys := Entries(db.journeys);
    var tasks := RecordsOf(db.tasks, TaskId);
    var habits := RecordsOf(db.habits, HabitId);
    var habitCompletions := Entries(db.habitCompletions);
    var heroAttributes := RecordsOf(db.heroAttributes, AttributeId);
    var attributeHistory := Entries(db.attributeHistory);
    var attributeGoals := Entries(db.attributeGoals);
    b := BackupData(BackupVersion, exportedAt, heroProfile, journeys, tasks, habits, habitCompletions,
                    heroAttributes, attributeHistory, attributeGoals);
  }

  /**
   * `bulkAdd(rows)` when `rows.length > 0`: fails on a key already stored or repeated among
   * the rows, otherwise adds every row; an empty array leaves the store alone.
   */
  function BulkAdded<K(==,!new), V>(m: map<K, V>, rows: seq<(K, V)>): (r: Option<map<K, V>>)
    ensures rows == [] ==> r == Some(m)
    ensures r.None? <==> rows != [] && (!DistinctKeys(rows) || exists i :: 0 <= i < |rows| && rows[i].0 in m)
    ensures r.Some? ==> forall k :: k in m ==> k in r.value && r.value[k] == m[k]
    ensures r.Some? ==> r.value.Keys == m.Keys + AsMap(rows).Keys
  {
    if rows == [] then Some(m)
    else if DistinctKeys(rows) && forall i | 0 <= i < |rows| :: rows[i].0 !in m then Some(m + AsMap(rows))
    else None
  }

  /** An explicit numeric key lifts the store's generator above it. */
  function Raised<V>(g: nat, rows: seq<(nat, V)>): (r: nat)
    ensures r >= g
    ensures forall i :: 0 <= i < |rows| ==> rows[i].0 < r
  {
    if rows == [] then g
    else
      var front := rows[..|rows| - 1];
      var last := rows[|rows| - 1].0;
      assert forall i :: 0 <= i < |front| ==> front[i] == rows[i];
      var before := Raised(g, front);
      if last + 1 > before then last + 1 else before
  }

  function RaisedGenerators(g: KeyGenerators, b: BackupData): KeyGenerators
  {
    KeyGenerators(Raised(g.heroProfile, b.heroProfile), Raised(g.journeys, b.journeys),
                  Raised(g.habitCompletions, b.habitCompletions), Raised(g.attributeHistory, b.attributeHistory),
                  Raised(g.attributeGoals, b.attributeGoals))
  }

  /** Every record of `m` is still in `m2`, unchanged. */
  predicate Extends<K, V(==)>(m: map<K, V>, m2: map<K, V>)
  {
    forall k :: k in m ==> k in m2 && m2[k] == m[k]
  }

  /**
   * The transaction of `importDexieData`: optionally clear all eight stores, then bulk-add
   * each array; any failed add aborts the whole transaction.
   */
  function Imported(s: Snapshot, g: KeyGenerators, b: BackupData, replace: bool): (r: Option<(Snapshot, KeyGenerators)>)
    ensures r.Some? ==> r.value.1 == RaisedGenerators(g, b)
    ensures r.Some? && !replace ==>
      var t := r.value.0;
      && Extends(s.heroProfile, t.heroProfile) && Extends(s.journeys, t.journeys) && Extends(s.tasks, t.tasks)
      && Extends(s.habits, t.habits) && Extends(s.habitCompletions, t.habitCompletions)
      && Extends(s.heroAttributes, t.heroAttributes) && Extends(s.attributeHistory, t.attributeHistory)
      && Extends(s.attributeGoals, t.attributeGoals)
  {
    var base := if replace then EmptySnapshot else s;
    var heroProfile := BulkAdded(base.heroProfile, b.heroProfile);
    var journeys := BulkAdded(base.journeys, b.journeys);
    var tasks := BulkAdded(base.tasks, Keyed(b.tasks, TaskId));
    var habits := BulkAdded(base.habits, Keyed(b.habits, HabitId));
    var habitCompletions := BulkAdded(base.habitCompletions, b.habitCompletions);
    var heroAttributes := BulkAdded(base.heroAttributes, Keyed(b.heroAttributes, AttributeId));
    var attributeHistory := BulkAdded(base.attributeHistory, b.attributeHistory);
    var attributeGoals := BulkAdded(base.attributeGoals, b.attributeGoals);
    if heroProfile.Some? && journeys.Some? && tasks.Some? && habits.Some? && habitCompletions.Some?
       && heroAttributes.Some? && attributeHistory.Some? && attributeGoals.Some? then
      Some((Snapshot(heroProfile.value, journeys.value, tasks.value, habits.value, habitCompletions.value,
                     heroAttributes.value, attributeHistory.value, attributeGoals.value),
            RaisedGenerators(g, b)))
    else None
  }

  /** `!backupData.version || !backupData.exportedAt`. */
  predicate WellFormed(b: BackupData)
  {
    b.version != "" && b.exportedAt != ""
  }

  /** The transaction's commit: every store and generator takes its new value at once. */
  method Commit(db: HeroTaskDatabase, s: Snapshot, g: KeyGenerators)
    modifies db`heroProfile, db`journeys, db`tasks, db`habits, db`habitCompletions,
             db`heroAttributes, db`attributeHistory, db`attributeGoals, db`keyGen
    ensures db.State() == s && db.keyGen == g
  {
    db.heroProfile, db.journeys, db.tasks, db.habits := s.heroProfile, s.journeys, s.tasks, s.habits;
    db.habitCompletions, db.heroAttributes := s.habitCompletions, s.heroAttributes;
    db.attributeHistory, db.attributeGoals := s.attributeHistory, s.attributeGoals;
    db.keyGen := g;
  }

  /**
   * `importDexieData(json, replaceExisting)`: `parsed` is `None` when the text is not JSON.
   * A malformed backup is refused before any write; a failed transaction leaves every store
   * as it was; both rethrow.
   */
  method ImportDexieData(db: HeroTaskDatabase, parsed: Option<BackupData>, replace: bool) returns (r: Result<()>)
    modifies db`heroProfile, db`journeys, db`tasks, db`habits, db`habitCompletions,
             db`heroAttributes, db`attributeHistory, db`attributeGoals, db`keyGen
    ensures r.Ok? <==> parsed.Some? && WellFormed(parsed.value)
                       && Imported(old(db.State()), old(db.keyGen), parsed.value, replace).Some?
    ensures r.Ok? ==> (db.State(), db.keyGen) == Imported(old(db.State()), old(db.keyGen), parsed.value, replace).value
    ensures r.Err? ==> db.State() == old(db.State()) && db.keyGen == old(db.keyGen)
    ensures parsed.Some? && !WellFormed(parsed.value) ==> r == Err(InvalidFormat)
    ensures old(db.Valid()) ==> db.Valid()
  {
    if parsed.None? {
      return Err("SyntaxError: not JSON");
    }
    var b := parsed.value;
    if b.version == "" || b.exportedAt == "" {
      return Err(InvalidFormat);
    }
    var result := Imported(db.State(), db.keyGen, b, replace);
    if result.None? {
      return Err("ConstraintError: key already exists");
    }
    if db.Valid() {
      ImportKeepsIdsMatched(db.State(), db.keyGen, b, replace);
      ImportKeepsKeysBelow(db.State(), db.keyGen, b, replace);
    }
    Commit(db, result.value.0, result.value.1);
    return Ok(());
  }

  /** Rows that list a store are accepted into an empty store, which then equals it. */
  lemma ListedRowsRebuild<K(!new), V>(rows: seq<(K, V)>, m: map<K, V>)
    requires Lists(rows, m)
    ensures BulkAdded(map[], rows) == Some(m)
  {
    if rows != [] {
      assert map[] + AsMap(rows) == AsMap(rows);
    }
  }

  /** Rows that list a non-empty store collide with that store. */
  lemma {:induction false} ListedRowsCollide<K(!new), V>(rows: seq<(K, V)>, m: map<K, V>)
    requires Lists(rows, m) && m != map[]
    ensures BulkAdded(m, rows) == None
  {
    var k :| k in m;
    var i :| 0 <= i < |rows| && rows[i].0 == k;
  }

  /**
   * Export followed by a replace-mode import restores every store exactly, whatever the
   * database held before.
   */
  lemma {:induction false} ReplaceImportRestoresExport(s: Snapshot, b: BackupData, t: Snapshot, g: KeyGenerators)
    requires Exports(b, s)
    ensures Imported(t, g, b, true) == Some((s, RaisedGenerators(g, b)))
  {
    ListedRowsRebuild(b.heroProfile, s.heroProfile);
    ListedRowsRebuild(b.journeys, s.journeys);
    ListedRowsRebuild(Keyed(b.tasks, TaskId), s.tasks);
    ListedRowsRebuild(Keyed(b.habits, HabitId), s.habits);
    ListedRowsRebuild(b.habitCompletions, s.habitCompletions);
    ListedRowsRebuild(Keyed(b.heroAttributes, AttributeId), s.heroAttributes);
    ListedRowsRebuild(b.attributeHistory, s.attributeHistory);
    ListedRowsRebuild(b.attributeGoals, s.attributeGoals);
  }

  /** Merging a database's own export back into it fails as soon as any store holds a record. */
  lemma {:induction false} MergeOfOwnExportFails(s: Snapshot, b: BackupData, g: KeyGenerators)
    requires Exports(b, s) && s != EmptySnapshot
    ensures Imported(s, g, b, false).None?
  {
    if s.heroProfile != map[] {
      ListedRowsCollide(b.heroProfile, s.heroProfile);
    } else if s.journeys != map[] {
      ListedRowsCollide(b.journeys, s.journeys);
    } else if s.tasks != map[] {
      ListedRowsCollide(Keyed(b.tasks, TaskId), s.tasks);
    } else if s.habits != map[] {
      ListedRowsCollide(Keyed(b.habits, HabitId), s.habits);
    } else if s.habitCompletions != map[] {
      ListedRowsCollide(b.habitCompletions, s.habitCompletions);
    } else if s.heroAttributes != map[] {
      ListedRowsCollide(Keyed(b.heroAttributes, AttributeId), s.heroAttributes);
    } else if s.attributeHistory != map[] {
      ListedRowsCollide(b.attributeHistory, s.attributeHistory);
    } else {
      ListedRowsCollide(b.attributeGoals, s.attributeGoals);
    }
    OneCollisionFails(s, g, b);
  }

  /** A merge fails when any one store's rows collide with what it holds. */
  lemma OneCollisionFails(s: Snapshot, g: KeyGenerators, b: BackupData)
    requires || BulkAdded(s.heroProfile, b.heroProfile).None?
             || BulkAdded(s.journeys, b.journeys).None?
             || BulkAdded(s.tasks, Keyed(b.tasks, TaskId)).None?
             || BulkAdded(s.habits, Keyed(b.habits, HabitId)).None?
             || BulkAdded(s.habitCompletions, b.habitCompletions).None?
             || BulkAdded(s.heroAttributes, Keyed(b.heroAttributes, AttributeId)).None?
             || BulkAdded(s.attributeHistory, b.attributeHistory).None?
             || BulkAdded(s.attributeGoals, b.attributeGoals).None?
    ensures Imported(s, g, b, false).None?
  {
  }

  /** A store's rows added by a successful import sit under their own ids. */
  lemma {:induction false} KeyedRowsMatchIds<V>(m: map<string, V>, records: seq<V>, id: V -> string)
    requires forall k :: k in m ==> id(m[k]) == k
    requires BulkAdded(m, Keyed(records, id)).Some?
    ensures var r := BulkAdded(m, Keyed(records, id)).value; forall k :: k in r ==> id(r[k]) == k
  {
    var rows := Keyed(records, id);
    var r := BulkAdded(m, rows).value;
    forall k | k in r
      ensures id(r[k]) == k
    {
      if k !in m {
        var i :| 0 <= i < |rows| && rows[i] == (k, AsMap(rows)[k]);
        assert r[k] == AsMap(rows)[k];
      }
    }
  }

  /** Numeric rows added by a successful import stay below the raised generator. */
  lemma {:induction false} RowsBelowRaised<V>(m: map<nat, V>, g: nat, rows: seq<(nat, V)>, added: map<nat, V>)
    requires forall k :: k in m ==> k < g
    requires BulkAdded(m, rows) == Some(added)
    ensures forall k :: k in added ==> k < Raised(g, rows)
  {
    forall k | k in added
      ensures k < Raised(g, rows)
    {
      if k !in m {
        var i :| 0 <= i < |rows| && rows[i].0 == k;
      }
    }
  }

  /** A successful import keeps every string-keyed record under its own id. */
  lemma {:induction false} ImportKeepsIdsMatched(s: Snapshot, g: KeyGenerators, b: BackupData, replace: bool)
    requires KeysMatchIds(s)
    requires Imported(s, g, b, replace).Some?
    ensures KeysMatchIds(Imported(s, g, b, replace).value.0)
  {
    var base := if replace then EmptySnapshot else s;
    KeyedRowsMatchIds(base.tasks, b.tasks, TaskId);
    KeyedRowsMatchIds(base.habits, b.habits, HabitId);
    KeyedRowsMatchIds(base.heroAttributes, b.heroAttributes, AttributeId);
  }

  /** A successful import keeps every numeric key below its store's generator. */
  lemma {:induction false} ImportKeepsKeysBelow(s: Snapshot, g: KeyGenerators, b: BackupData, replace: bool)
    requires KeysBelowGenerators(s, g)
    requires Imported(s, g, b, replace).Some?
    ensures KeysBelowGenerators(Imported(s, g, b, replace).value.0, Imported(s, g, b, replace).value.1)
  {
    var base := if replace then EmptySnapshot else s;
    var r := Imported(s, g, b, replace).value;
    RowsBelowRaised(base.heroProfile, g.heroProfile, b.heroProfile, r.0.heroProfile);
    RowsBelowRaised(base.journeys, g.journeys, b.journeys, r.0.journeys);
    RowsBelowRaised(base.habitCompletions, g.habitCompletions, b.habitCompletions, r.0.habitCompletions);
    RowsBelowRaised(base.attributeHistory, g.attributeHistory, b.attributeHistory, r.0.attributeHistory);
    RowsBelowRaised(base.attributeGoals, g.attributeGoals, b.attributeGoals, r.0.attributeGoals);
  }

  /** The record counts `getBackupStats()` reports, one per store. */
  datatype Stats = Stats(
    heroProfile: nat,
    journeys: nat,
    tasks: nat,
    habits: nat,
    habitCompletions: nat,
    heroAttributes: nat,
    attributeHistory: nat,
    attributeGoals: nat)

  /** `getBackupStats()`: the record count of every store, or `{}` (`None`) when counting fails. */
  function BackupStats(s: Snapshot, fails: bool): (r: Option<Stats>)
    ensures fails <==> r.None?
    ensures r.Some? ==> r.value.heroProfile == |s.heroProfile| && r.value.journeys == |s.journeys|
    ensures r.Some? ==> r.value.tasks == |s.tasks| && r.value.habits == |s.habits|
    ensures r.Some? ==> r.value.habitCompletions == |s.habitCompletions| && r.value.heroAttributes == |s.heroAttributes|
    ensures r.Some? ==> r.value.attributeHistory == |s.attributeHistory| && r.value.attributeGoals == |s.attributeGoals|
  {
    if fails then None
    else Some(Stats(|s.heroProfile|, |s.journeys|, |s.tasks|, |s.habits|, |s.habitCompletions|,
                    |s.heroAttributes|, |s.attributeHistory|, |s.attributeGoals|))
  }

  /** Rows that list a store are as many as its records. */
  lemma ListedCount<K(!new), V>(rows: seq<(K, V)>, m: map<K, V>)
    requires Lists(rows, m)
    ensures |rows| == |m|
  {
    AsMapOfDistinct(rows);
  }

  /** An export's arrays have exactly the lengths `getBackupStats` reports for the stores. */
  lemma {:induction false} ExportMatchesStats(s: Snapshot, b: BackupData)
    requires Exports(b, s)
    ensures BackupStats(s, false) == Some(Stats(|b.heroProfile|, |b.journeys|, |b.tasks|, |b.habits|,
      |b.habitCompletions|, |b.heroAttributes|, |b.attributeHistory|, |b.attributeGoals|))
  {
    ListedCount(b.heroProfile, s.heroProfile);
    ListedCount(b.journeys, s.journeys);
    ListedCount(Keyed(b.tasks, TaskId), s.tasks);
    ListedCount(Keyed(b.habits, HabitId), s.habits);
    ListedCount(b.habitCompletions, s.habitCompletions);
    ListedCount(Keyed(b.heroAttributes, AttributeId), s.heroAttributes);
    ListedCount(b.attributeHistory, s.attributeHistory);
    ListedCount(b.attributeGoals, s.attributeGoals);
  }
}
