/**
 * The hero profile hook (src/hooks/dexie/useHeroProfile.ts): XP gain with level-ups and the
 * reset, on the singleton profile stored under key 1.
 */
module UseHeroProfile {
  import opened Wrappers
  import opened DexieStore

  /** The level reached from `level` with `totalXp`: levels go up while `totalXp >= level * 100`. */
  function LevelReached(totalXp: int, level: int): (r: int)
    ensures r >= level
    ensures totalXp < r * 100
    ensures r > level ==> totalXp >= (r - 1) * 100
    decreases totalXp - level * 100
  {
    if totalXp >= level * 100 then LevelReached(totalXp, level + 1) else level
  }

  /** The profile after `addXp(amount)`: the total moves by `amount` (unclamped) and levels only rise. */
  function ProfileAfterXp(p: HeroProfile, amount: int, now: Timestamp): (r: HeroProfile)
    ensures r.totalXp == p.totalXp + amount
    ensures r.level >= p.level && r.totalXp < r.level * 100
    ensures r.level > p.level ==> r.xpForNextLevel == r.level * 100 && r.totalXp >= (r.level - 1) * 100
    ensures r.level == p.level ==> r.xpForNextLevel == p.xpForNextLevel
    ensures r == p.(totalXp := r.totalXp, level := r.level, xpForNextLevel := r.xpForNextLevel, updatedAt := now)
  {
    var total := p.totalXp + amount;
    var level := LevelReached(total, p.level);
    p.(totalXp := total, level := level, xpForNextLevel := if level == p.level then p.xpForNextLevel else level * 100,
       updatedAt := now)
  }

  /** More XP never gives a lower level. */
  lemma {:induction false} LevelReachedMonotone(t1: int, t2: int, level: int)
    requires t1 <= t2
    ensures LevelReached(t1, level) <= LevelReached(t2, level)
    decreases t2 - level * 100
  {
    if t1 >= level * 100 {
      LevelReachedMonotone(t1, t2, level + 1);
    }
  }

  /** Gaining XP in two steps, the second non-negative, reaches the same level as in one step. */
  lemma {:induction false} LevelReachedInSteps(t1: int, t2: int, level: int)
    requires t1 <= t2
    ensures LevelReached(t2, LevelReached(t1, level)) == LevelReached(t2, level)
    decreases t1 - level * 100
  {
    if t1 >= level * 100 {
      LevelReachedInSteps(t1, t2, level + 1);
    }
  }

  /** `addXp`: nothing without a profile; otherwise the level-up loop, then one update of profile 1. */
  method AddXp(db: HeroTaskDatabase, amount: int, now: Timestamp)
    modifies db`heroProfile
    ensures ProfileKey !in old(db.heroProfile) ==> db.heroProfile == old(db.heroProfile)
    ensures ProfileKey in old(db.heroProfile) ==>
      db.heroProfile == old(db.heroProfile)[ProfileKey := ProfileAfterXp(old(db.heroProfile[ProfileKey]), amount, now)]
  {
    if ProfileKey !in db.heroProfile {
      return;
    }
    var profile := db.heroProfile[ProfileKey];
    var newTotalXp := profile.totalXp + amount;
    var newLevel := profile.level;
    var newXpForNextLevel := profile.xpForNextLevel;
    while newTotalXp >= newLevel * 100
      invariant LevelReached(newTotalXp, newLevel) == LevelReached(newTotalXp, profile.level)
      invariant newLevel >= profile.level
      invariant newXpForNextLevel == if newLevel == profile.level then profile.xpForNextLevel else newLevel * 100
      decreases newTotalXp - newLevel * 100
    {
      newLevel := newLevel + 1;
      newXpForNextLevel := newLevel * 100;
    }
    db.heroProfile := db.heroProfile[ProfileKey := profile.(totalXp := newTotalXp, level := newLevel,
                                                           xpForNextLevel := newXpForNextLevel, updatedAt := now)];
  }

  /**
   * A `Partial<HeroProfile>` without the key: `None` keeps a field, and an optional field is set
   * by `Some(Some(v))` or cleared by `Some(None)`.
   */
  datatype ProfilePatch = ProfilePatch(
    heroName: Option<string>,
    totalXp: Option<int>,
    level: Option<int>,
    xpForNextLevel: Option<int>,
    title: Option<Option<string>>,
    avatar: Option<Option<string>>,
    createdAt: Option<Timestamp>)

  /** Dexie's `update`: the given fields replace the stored ones, and `updatedAt` is stamped. */
  function PatchedProfile(p: HeroProfile, patch: ProfilePatch, now: Timestamp): (r: HeroProfile)
    ensures r.heroName == patch.heroName.GetOr(p.heroName) && r.totalXp == patch.totalXp.GetOr(p.totalXp)
    ensures r.level == patch.level.GetOr(p.level) && r.xpForNextLevel == patch.xpForNextLevel.GetOr(p.xpForNextLevel)
    ensures r.title == patch.title.GetOr(p.title) && r.avatar == patch.avatar.GetOr(p.avatar)
    ensures r.createdAt == patch.createdAt.GetOr(p.createdAt) && r.updatedAt == now
  {
    HeroProfile(patch.heroName.GetOr(p.heroName), patch.totalXp.GetOr(p.totalXp), patch.level.GetOr(p.level),
                patch.xpForNextLevel.GetOr(p.xpForNextLevel), patch.title.GetOr(p.title),
                patch.avatar.GetOr(p.avatar), patch.createdAt.GetOr(p.createdAt), now)
  }

  /** Every profile is one patch away from any other, optional fields cleared included. */
  lemma PatchReachesAnyProfile(p: HeroProfile, q: HeroProfile, now: Timestamp)
    ensures PatchedProfile(p, ProfilePatch(Some(q.heroName), Some(q.totalXp), Some(q.level), Some(q.xpForNextLevel),
                                           Some(q.title), Some(q.avatar), Some(q.createdAt)), now)
      == q.(updatedAt := now)
  {
  }

  /** `addXp` writes exactly the total, the level and the threshold, through `updateHeroProfile`. */
  lemma AddXpPatchesThreeFields(p: HeroProfile, amount: int, now: Timestamp)
    ensures var r := ProfileAfterXp(p, amount, now);
      r == PatchedProfile(p, ProfilePatch(None, Some(r.totalXp), Some(r.level), Some(r.xpForNextLevel), None, None, None), now)
  {
  }

  /** `updateHeroProfile`: nothing without a profile. */
  method UpdateHeroProfile(db: HeroTaskDatabase, patch: ProfilePatch, now: Timestamp)
    modifies db`heroProfile
    ensures ProfileKey !in old(db.heroProfile) ==> db.heroProfile == old(db.heroProfile)
    ensures ProfileKey in old(db.heroProfile) ==>
      db.heroProfile == old(db.heroProfile)[ProfileKey := PatchedProfile(old(db.heroProfile[ProfileKey]), patch, now)]
  {
    if ProfileKey in db.heroProfile {
      db.heroProfile := db.heroProfile[ProfileKey := PatchedProfile(db.heroProfile[ProfileKey], patch, now)];
    }
  }

  /** The reset profile: no XP, level 1, 100 to the next level. */
  function ResetProfileOf(p: HeroProfile, now: Timestamp): (r: HeroProfile)
    ensures r.totalXp == 0 && r.level == 1 && r.xpForNextLevel == 100
    ensures r == p.(totalXp := 0, level := 1, xpForNextLevel := 100, updatedAt := now)
  {
    PatchedProfile(p, ProfilePatch(None, Some(0), Some(1), Some(100), None, None, None), now)
  }

  /** A reset profile is already consistent: gaining no XP changes nothing but the stamp. */
  lemma ResetIsConsistent(p: HeroProfile, now: Timestamp, later: Timestamp)
    ensures ProfileAfterXp(ResetProfileOf(p, now), 0, later) == ResetProfileOf(p, later)
  {
  }

  /** `resetProfile`: an `update` of profile 1, which does nothing when it is missing. */
  method ResetProfile(db: HeroTaskDatabase, now: Timestamp)
    modifies db`heroProfile
    ensures ProfileKey !in old(db.heroProfile) ==> db.heroProfile == old(db.heroProfile)
    ensures ProfileKey in old(db.heroProfile) ==>
      db.heroProfile == old(db.heroProfile)[ProfileKey := ResetProfileOf(old(db.heroProfile[ProfileKey]), now)]
  {
    if ProfileKey in db.heroProfile {
      db.heroProfile := db.heroProfile[ProfileKey := ResetProfileOf(db.heroProfile[ProfileKey], now)];
    }
  }
}
