/**
 * Start-up of the document store (src/db/dexie/database.ts): the default hero profile, the four
 * base attributes, the flag-gated post-init migrations and the start-up sequence.
 */
module DexieInit {
  import opened Wrappers
  import opened DexieStore
  import PostInit
  import Browser

  const PostInitFlag := "dexie_post_init_migrations_completed"

  /** Level 1, no XP, 100 XP to the next level. */
  function DefaultProfile(now: Timestamp): HeroProfile
  {
    HeroProfile(DefaultHeroName, 0, 1, 100, None, None, now, now)
  }

  // ---------------------------------------------------------------------------------------------
  // The default profile, as written and as intended

  /**
   * `initializeDefaultProfile` as written: it looks for profile 1 but `add`s without a key, so the
   * profile lands under the store's generator, which is past 1 once the store has ever held a
   * record. Returns the profiles and the generator afterwards.
   */
  function ProfilesAfterInitAsWritten(profiles: map<nat, HeroProfile>, next: nat, now: Timestamp): (map<nat, HeroProfile>, nat)
  {
    if ProfileKey in profiles then (profiles, next) else (profiles[next := DefaultProfile(now)], next + 1)
  }

  /** A failing `get` or `add` (`fails`) is caught and logged, and leaves the store as it was. */
  method InitializeDefaultProfileAsWritten(db: HeroTaskDatabase, now: Timestamp, fails: bool)
    modifies db`heroProfile, db`keyGen
    ensures fails ==> db.heroProfile == old(db.heroProfile) && db.keyGen == old(db.keyGen)
    ensures !fails ==>
      (db.heroProfile, db.keyGen.heroProfile) == ProfilesAfterInitAsWritten(old(db.heroProfile), old(db.keyGen.heroProfile), now)
    ensures db.keyGen == old(db.keyGen).(heroProfile := db.keyGen.heroProfile)
  {
    if !fails && ProfileKey !in db.heroProfile {
      var key := db.keyGen.heroProfile;
      db.heroProfile := db.heroProfile[key := DefaultProfile(now)];
      db.keyGen := db.keyGen.(heroProfile := key + 1);
    }
  }

  /**
   * A profile store that was emptied after holding profile 1 (a replace-mode import of a backup
   * without profiles clears it, and clearing keeps the generator at 2): each start-up adds another
   * profile, and none of them is the profile 1 the app reads.
   */
  lemma DefaultProfileDuplicatedAsWritten(now: Timestamp)
    ensures var (once, n1) := ProfilesAfterInitAsWritten(map[], 2, now);
      var (twice, n2) := ProfilesAfterInitAsWritten(once, n1, now);
      && |once| == 1 && |twice| == 2
      && ProfileKey !in twice
  {
    var (once, n1) := ProfilesAfterInitAsWritten(map[], 2, now);
    assert once == map[2 := DefaultProfile(now)];
    var (twice, n2) := ProfilesAfterInitAsWritten(once, n1, now);
    assert twice == map[2 := DefaultProfile(now), 3 := DefaultProfile(now)];
    assert twice.Keys == {2, 3};
  }

  /** The intended behaviour: the default profile is put under key 1 when that key is free. */
  function ProfilesAfterInit(profiles: map<nat, HeroProfile>, now: Timestamp): (r: map<nat, HeroProfile>)
    ensures ProfileKey in r
    ensures ProfileKey in profiles ==> r == profiles
    ensures ProfileKey !in profiles ==> r[ProfileKey] == DefaultProfile(now) && r - {ProfileKey} == profiles
  {
    if ProfileKey in profiles then profiles else profiles[ProfileKey := DefaultProfile(now)]
  }

  /** Running the intended initialisation again, at any time, changes nothing. */
  lemma ProfileInitIdempotent(profiles: map<nat, HeroProfile>, now: Timestamp, later: Timestamp)
    ensures ProfilesAfterInit(ProfilesAfterInit(profiles, now), later) == ProfilesAfterInit(profiles, now)
    ensures |ProfilesAfterInit(profiles, now)| <= |profiles| + 1
  {
    if ProfileKey !in profiles {
      assert ProfilesAfterInit(profiles, now).Keys == profiles.Keys + {ProfileKey};
    }
  }

  /**
   * `initializeDefaultProfile` with the profile put under key 1; a failing `get` or `add`
   * (`fails`) is caught and logged, and leaves the store as it was.
   */
  method InitializeDefaultProfile(db: HeroTaskDatabase, now: Timestamp, fails: bool)
    requires db.Valid()
    modifies db`heroProfile, db`keyGen
    ensures db.Valid()
    ensures fails ==> db.heroProfile == old(db.heroProfile) && db.keyGen == old(db.keyGen)
    ensures !fails ==> db.heroProfile == ProfilesAfterInit(old(db.heroProfile), now)
    ensures db.keyGen.(heroProfile := old(db.keyGen.heroProfile)) == old(db.keyGen)
  {
    if !fails && ProfileKey !in db.heroProfile {
      db.heroProfile := db.heroProfile[ProfileKey := DefaultProfile(now)];
      if db.keyGen.heroProfile <= ProfileKey {
        db.keyGen := db.keyGen.(heroProfile := ProfileKey + 1);
      }
    }
  }

  // ---------------------------------------------------------------------------------------------
  // Base attributes

  function BaseAttribute(id: string, name: string, area: Area, description: string, icon: string, now: Timestamp): HeroAttribute
  {
    HeroAttribute(id, name, 1, 0, 100, area, description, icon, now)
  }

  /** The ids of `BASE_ATTRIBUTES`, in the order the source lists them. */
  const BaseIds: seq<string> := ["knowledge", "focus", "consistency", "speed"]

  /** The entry of `BASE_ATTRIBUTES` with the given id, stamped `now`. */
  function BaseAttributeFor(id: string, now: Timestamp): (a: HeroAttribute)
    requires id in BaseIds
    ensures a.id == id && a.level == 1 && a.xp == 0 && a.xpForNextLevel == 100 && a.updatedAt == now
  {
    if id == "knowledge" then
      BaseAttribute(id, "Conhecimento", Mental,
        "Representa o quanto você absorveu de conhecimento através dos estudos", "🧠", now)
    else if id == "focus" then
      BaseAttribute(id, "Foco", Mental, "Sua capacidade de manter concentração durante os estudos", "🎯", now)
    else if id == "consistency" then
      BaseAttribute(id, "Consistência", Discipline, "Quão regular você tem sido nos seus estudos", "📈", now)
    else
      BaseAttribute(id, "Velocidade", Skill,
        "Quão rápido você consegue processar e compreender informações", "⚡", now)
  }

  /** `bulkAdd` of the base attributes: each stored under its id. */
  function BaseAttributeStore(now: Timestamp): map<string, HeroAttribute>
  {
    map id | id in BaseIds :: BaseAttributeFor(id, now)
  }

  /** The attributes store after `initializeHeroAttributes`: filled only when empty. */
  function AttributesAfterInit(attributes: map<string, HeroAttribute>, now: Timestamp): map<string, HeroAttribute>
  {
    if |attributes| == 0 then BaseAttributeStore(now) else attributes
  }

  /**
   * An empty store gets exactly the four base attributes, each at level 1 with no XP and 100 to
   * the next level, stored under its id; a store holding anything is left alone, so a second run
   * changes nothing.
   */
  lemma BaseAttributesSeeded(attributes: map<string, HeroAttribute>, now: Timestamp, later: Timestamp)
    ensures |attributes| == 0 ==>
      && AttributesAfterInit(attributes, now).Keys == {"knowledge", "focus", "consistency", "speed"}
      && forall k :: k in AttributesAfterInit(attributes, now) ==>
           var a := AttributesAfterInit(attributes, now)[k];
           a.id == k && a.level == 1 && a.xp == 0 && a.xpForNextLevel == 100
    ensures |attributes| != 0 ==> AttributesAfterInit(attributes, now) == attributes
    ensures AttributesAfterInit(AttributesAfterInit(attributes, now), later) == AttributesAfterInit(attributes, now)
  {
    if |attributes| == 0 {
      BaseStoreContents(now);
    }
    BaseStoreNonEmpty(now);
  }

  lemma BaseStoreNonEmpty(now: Timestamp)
    ensures |BaseAttributeStore(now)| != 0
  {
    assert BaseIds[0] in BaseIds;
    assert BaseIds[0] in BaseAttributeStore(now);
  }

  /** The seeded store holds the four base attributes, each under its own id, at level 1. */
  lemma BaseStoreContents(now: Timestamp)
    ensures BaseAttributeStore(now).Keys == {"knowledge", "focus", "consistency", "speed"}
    ensures forall k :: k in BaseAttributeStore(now) ==>
      var a := BaseAttributeStore(now)[k];
      a.id == k && a.level == 1 && a.xp == 0 && a.xpForNextLevel == 100
  {
    assert BaseAttributeStore(now).Keys == set id | id in BaseIds;
  }

  /** `initializeHeroAttributes`; a failing `count` or `bulkAdd` (`fails`) is caught and logged. */
  method InitializeHeroAttributes(db: HeroTaskDatabase, now: Timestamp, fails: bool)
    modifies db`heroAttributes
    ensures db.heroAttributes == if fails then old(db.heroAttributes) else AttributesAfterInit(old(db.heroAttributes), now)
  {
    if !fails && |db.heroAttributes| == 0 {
      db.heroAttributes := BaseAttributeStore(now);
    }
  }

  // ---------------------------------------------------------------------------------------------
  // Migrations and start-up

  /**
   * The flag-gated `runPostInitMigrations`: nothing once the flag is `'true'`; otherwise the
   * migrations run and the flag is set only when they succeed; a failure is logged and swallowed.
   */
  method RunPostInitMigrationsOnce(db: HeroTaskDatabase, storage: Browser.LocalStorage, now: Timestamp,
                                   failure: PostInit.Failure)
    modifies db`journeys, db`habits, db`tasks, storage
    ensures old(storage.GetItem(PostInitFlag)) == Some("true") ==>
      db.State() == old(db.State()) && storage.items == old(storage.items)
    ensures old(storage.GetItem(PostInitFlag)) != Some("true") ==>
      && (failure == PostInit.NoFailure ==> storage.items == old(storage.items)[PostInitFlag := "true"])
      && (failure != PostInit.NoFailure ==> storage.items == old(storage.items))
      && (failure == PostInit.NoFailure ==> db.State() == PostInit.TasksSynced(PostInit.StageIdsMigrated(old(db.State()), now), now))
      && (failure == PostInit.StageIdMigrationFails ==> db.State() == old(db.State()))
      && (failure == PostInit.TaskSyncFails ==> db.State() == PostInit.StageIdsMigrated(old(db.State()), now))
  {
    var completed := storage.GetItem(PostInitFlag);
    if completed == Some("true") {
      return;
    }
    var ok := PostInit.RunPostInitMigrations(db, now, failure);
    if ok {
      storage.SetItem(PostInitFlag, "true");
    }
  }

  /** Why `initializeDexieDB` rethrows. */
  datatype InitFailure = OpenFails | MigrationFails(failure: PostInit.Failure)

  /**
   * `initializeDexieDB`: opens the database, seeds the profile and attributes, then runs the
   * migrations without the flag (they are idempotent); opening or migration errors are rethrown,
   * while a failed seeding step is swallowed and leaves its store as it was.
   */
  method InitializeDexieDB(db: HeroTaskDatabase, now: Timestamp, openFails: bool,
                           profileFails: bool, attributesFails: bool, failure: PostInit.Failure)
    returns (r: Option<InitFailure>)
    requires db.Valid()
    modifies db`heroProfile, db`keyGen, db`heroAttributes, db`journeys, db`habits, db`tasks
    ensures openFails ==> r == Some(OpenFails) && db.State() == old(db.State())
    ensures !openFails ==> (r.None? <==> failure == PostInit.NoFailure)
    ensures !openFails ==> r.Some? ==> r.value == MigrationFails(failure)
    ensures !openFails ==>
      && db.heroProfile == (if profileFails then old(db.heroProfile) else ProfilesAfterInit(old(db.heroProfile), now))
      && db.heroAttributes == (if attributesFails then old(db.heroAttributes) else AttributesAfterInit(old(db.heroAttributes), now))
    ensures !openFails && failure == PostInit.NoFailure ==>
      var seeded := old(db.State()).(heroProfile := db.heroProfile, heroAttributes := db.heroAttributes);
      db.State() == PostInit.TasksSynced(PostInit.StageIdsMigrated(seeded, now), now)
    ensures !openFails && failure == PostInit.StageIdMigrationFails ==>
      db.State() == old(db.State()).(heroProfile := db.heroProfile, heroAttributes := db.heroAttributes)
    ensures !openFails && failure == PostInit.TaskSyncFails ==>
      var seeded := old(db.State()).(heroProfile := db.heroProfile, heroAttributes := db.heroAttributes);
      db.State() == PostInit.StageIdsMigrated(seeded, now)
  {
    if openFails {
      return Some(OpenFails);
    }
    InitializeDefaultProfile(db, now, profileFails);
    InitializeHeroAttributes(db, now, attributesFails);
    ghost var seeded := db.State();
    assert seeded == old(db.State()).(heroProfile := db.heroProfile, heroAttributes := db.heroAttributes);
    var ok := PostInit.RunPostInitMigrations(db, now, failure);
    if !ok {
      return Some(MigrationFails(failure));
    }
    assert db.State() == PostInit.TasksSynced(PostInit.StageIdsMigrated(seeded, now), now);
    r := None;
  }
}
