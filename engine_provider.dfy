/**
 * The database-engine provider (src/contexts/DBEngineProvider.tsx): which engine the app uses,
 * whether it is being or has been initialised, and the `db_engine` preference it persists. The
 * Dexie start-up (`initializeDexieDB`, modelled in DexieInit) and the legacy migration
 * (`migrateFromSQLiteOnce`, modelled in SqliteToDexie) enter here only through whether they
 * fail and whether the migration is still pending.
 */
module EngineProvider {
  import opened Wrappers

  datatype Engine = Sqlite | Dexie

  const EngineKey := "db_engine"

  function EngineName(e: Engine): string
  {
    match e
    case Sqlite => "sqlite"
    case Dexie => "dexie"
  }

  /** The saved preference, when it names one of the two engines. */
  function ParseEngine(saved: Option<string>): (r: Option<Engine>)
    ensures r.Some? <==> saved == Some("sqlite") || saved == Some("dexie")
    ensures r.Some? ==> saved == Some(EngineName(r.value))
  {
    if saved == Some("sqlite") then Some(Sqlite)
    else if saved == Some("dexie") then Some(Dexie)
    else None
  }

  lemma ParseNamedEngine(e: Engine)
    ensures ParseEngine(Some(EngineName(e))) == Some(e)
  {
  }

  /** The provider's state together with the settings table the preference lives in. */
  datatype ProviderState = ProviderState(
    engine: Engine,
    isInitializing: bool,
    isInitialized: bool,
    settings: map<string, string>)

  function Saved(s: ProviderState): Option<string>
  {
    if EngineKey in s.settings then Some(s.settings[EngineKey]) else None
  }

  /** A mounted provider: the engine starts as SQLite, nothing is initialised. */
  function Initial(settings: map<string, string>): (s: ProviderState)
    ensures s.engine == Sqlite && !s.isInitializing && !s.isInitialized
  {
    ProviderState(Sqlite, false, false, settings)
  }

  /** How a Dexie start-up ends: the open/seed/migrate step and the legacy migration. */
  datatype DexieStartup = DexieStartup(initFails: bool, migrationPending: bool, migrationFails: bool)

  predicate StartupFails(selected: Engine, startup: DexieStartup)
  {
    selected == Dexie && (startup.initFails || (startup.migrationPending && startup.migrationFails))
  }

  /**
   * `initializeDBEngine(selected)`: ignored while another initialisation runs; otherwise a
   * successful start marks the provider initialised, and a failed Dexie start falls back to
   * SQLite and persists that choice, leaving `isInitialized` as it was.
   */
  function AfterInit(s: ProviderState, selected: Engine, startup: DexieStartup): (r: ProviderState)
    ensures s.isInitializing ==> r == s
    ensures !s.isInitializing ==> !r.isInitializing
    ensures !s.isInitializing && !StartupFails(selected, startup) ==>
      r == s.(isInitialized := true)
    ensures !s.isInitializing && StartupFails(selected, startup) ==>
      r == s.(engine := Sqlite, settings := s.settings[EngineKey := "sqlite"])
  {
    if s.isInitializing then s
    else if StartupFails(selected, startup) then
      s.(engine := Sqlite, settings := s.settings[EngineKey := EngineName(Sqlite)])
    else s.(isInitialized := true)
  }

  /** Whether the legacy migration is attempted: only on a Dexie start whose open succeeded. */
  predicate MigrationAttempted(s: ProviderState, selected: Engine, startup: DexieStartup)
  {
    !s.isInitializing && selected == Dexie && !startup.initFails && startup.migrationPending
  }

  /** `setEngine(e)`: switch, persist, and initialise only when switching to Dexie. */
  function AfterSetEngine(s: ProviderState, e: Engine, startup: DexieStartup): (r: ProviderState)
    ensures r.isInitializing == s.isInitializing
    ensures r.engine == e || (e == Dexie && StartupFails(e, startup) && r.engine == Sqlite)
    ensures EngineKey in r.settings && r.settings[EngineKey] == EngineName(r.engine)
    ensures forall k :: k != EngineKey && k in s.settings ==> k in r.settings && r.settings[k] == s.settings[k]
  {
    var switched := s.(engine := e, settings := s.settings[EngineKey := EngineName(e)]);
    if e == Dexie then AfterInit(switched, e, startup) else switched
  }

  /** The persisted preference names the engine in use. */
  predicate PreferenceAgrees(s: ProviderState)
  {
    Saved(s) == Some(EngineName(s.engine))
  }

  /**
   * After `setEngine` the persisted preference names the engine in use, whether the switch
   * succeeded or fell back to SQLite; a switch to SQLite never touches `isInitialized`.
   */
  lemma SetEngineKeepsPreference(s: ProviderState, e: Engine, startup: DexieStartup)
    ensures PreferenceAgrees(AfterSetEngine(s, e, startup))
    ensures e == Sqlite ==> AfterSetEngine(s, e, startup).isInitialized == s.isInitialized
    ensures !s.isInitializing && !StartupFails(e, startup) ==> AfterSetEngine(s, e, startup).engine == e
    ensures !s.isInitializing && StartupFails(e, startup) ==> AfterSetEngine(s, e, startup).engine == Sqlite
  {
  }

  /** An initialisation keeps the preference agreeing with the engine. */
  lemma InitKeepsPreference(s: ProviderState, selected: Engine, startup: DexieStartup)
    requires PreferenceAgrees(s)
    ensures PreferenceAgrees(AfterInit(s, selected, startup))
  {
  }

  /** A SQLite start never fails and never changes the engine or the settings. */
  lemma SqliteStartAlwaysSucceeds(s: ProviderState, startup: DexieStartup)
    requires !s.isInitializing
    ensures AfterInit(s, Sqlite, startup) == s.(isInitialized := true)
    ensures !MigrationAttempted(s, Sqlite, startup)
  {
  }

  /**
   * The mount-time effect: a saved `'dexie'` preference starts Dexie, any other saved engine,
   * a missing or unknown value, or a failing read marks the provider initialised at once.
   */
  function AfterMount(s: ProviderState, readFails: bool, startup: DexieStartup): (r: ProviderState)
    ensures readFails ==> r == s.(isInitialized := true)
    ensures !readFails && ParseEngine(Saved(s)) != Some(Dexie) ==>
      r.isInitialized && r.settings == s.settings
    ensures !readFails && ParseEngine(Saved(s)).Some? ==> PreferenceAgrees(r)
  {
    if readFails then s.(isInitialized := true)
    else
      match ParseEngine(Saved(s))
      case Some(Dexie) => AfterInit(s.(engine := Dexie), Dexie, startup)
      case Some(Sqlite) => s.(engine := Sqlite, isInitialized := true)
      case None => s.(isInitialized := true)
  }

  /** Right after mounting, the provider is initialised unless a saved Dexie preference failed to start. */
  lemma MountInitialises(settings: map<string, string>, readFails: bool, startup: DexieStartup)
    ensures var r := AfterMount(Initial(settings), readFails, startup);
      && !r.isInitializing
      && (r.isInitialized <==> readFails || ParseEngine(Saved(Initial(settings))) != Some(Dexie) || !StartupFails(Dexie, startup))
      && (!r.isInitialized ==> r.engine == Sqlite && r.settings == settings[EngineKey := "sqlite"])
  {
  }

  /** `forceReinitialize()`: clear `isInitialized`, then initialise the current engine. */
  function AfterForceReinitialize(s: ProviderState, startup: DexieStartup): (r: ProviderState)
    ensures s.isInitializing ==> r == s.(isInitialized := false)
    ensures !s.isInitializing ==> (r.isInitialized <==> !StartupFails(s.engine, startup))
    ensures r.engine == s.engine || (StartupFails(s.engine, startup) && r.engine == Sqlite)
  {
    AfterInit(s.(isInitialized := false), s.engine, startup)
  }

  /** A forced reinitialisation ends initialised exactly when the start-up succeeds. */
  lemma ForceReinitializeOutcome(s: ProviderState, startup: DexieStartup)
    requires !s.isInitializing
    ensures AfterForceReinitialize(s, startup).isInitialized <==> !StartupFails(s.engine, startup)
  {
  }

  class DBEngineProvider {
    var engine: Engine
    var isInitializing: bool
    var isInitialized: bool
    /** The general settings table that holds `db_engine`. */
    var settings: map<string, string>

    function State(): ProviderState
      reads this
    {
      ProviderState(engine, isInitializing, isInitialized, settings)
    }

    constructor (settings: map<string, string>)
      ensures State() == Initial(settings)
    {
      this.engine, this.isInitializing, this.isInitialized := Sqlite, false, false;
      this.settings := settings;
    }

    /** `initializeDBEngine(selected)`; returns whether the legacy migration was run. */
    method InitializeDBEngine(selected: Engine, startup: DexieStartup) returns (migrated: bool)
      modifies this
      ensures State() == AfterInit(old(State()), selected, startup)
      ensures migrated <==> MigrationAttempted(old(State()), selected, startup)
    {
      migrated := false;
      if isInitializing {
        return;
      }
      isInitializing := true;
      var failed := false;
      if selected == Dexie {
        if startup.initFails {
          failed := true;
        } else if startup.migrationPending {
          migrated := true;
          failed := startup.migrationFails;
        }
      }
      if !failed {
        isInitialized := true;
      } else if selected == Dexie {
        engine := Sqlite;
        settings := settings[EngineKey := EngineName(Sqlite)];
      }
      isInitializing := false;
    }

    /** `setEngine(e)`. */
    method SetEngine(e: Engine, startup: DexieStartup)
      modifies this
      ensures State() == AfterSetEngine(old(State()), e, startup)
    {
      engine := e;
      settings := settings[EngineKey := EngineName(e)];
      if e == Dexie {
        var _ := InitializeDBEngine(e, startup);
      }
    }

    /** `forceReinitialize()`. */
    method ForceReinitialize(startup: DexieStartup)
      modifies this
      ensures State() == AfterForceReinitialize(old(State()), startup)
    {
      isInitialized := false;
      var _ := InitializeDBEngine(engine, startup);
    }

    /** The mount-time effect that loads the saved preference. */
    method LoadPreference(readFails: bool, startup: DexieStartup)
      modifies this
      ensures State() == AfterMount(old(State()), readFails, startup)
    {
      if readFails {
        isInitialized := true;
        return;
      }
      var saved := if EngineKey in settings then Some(settings[EngineKey]) else None;
      var parsed := ParseEngine(saved);
      if parsed.Some? {
        engine := parsed.value;
        if parsed.value == Dexie {
          var _ := InitializeDBEngine(Dexie, startup);
        } else {
          isInitialized := true;
        }
      } else {
        isInitialized := true;
      }
    }
  }
}
