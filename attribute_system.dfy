/**
 * The attribute hook (src/hooks/dexie/useAttributeSystem.ts): XP for one attribute with
 * level-ups, the history record of each gain, goals reached, and the totals over the loaded list.
 */
module UseAttributeSystem {
  import opened Wrappers
  import opened DexieStore

  /**
   * The level-up loop from `level` with threshold `next`: while `xp >= threshold` the level rises
   * and the threshold becomes `level * 100`. Returns the final level and threshold.
   */
  function LevelUp(xp: int, level: int, next: int): (r: (int, int))
    ensures r.0 >= level && xp < r.1
    ensures r.0 == level ==> r.1 == next
    ensures r.0 > level ==> r.1 == r.0 * 100
    decreases if next == level * 100 then 0 else 1, xp - level * 100
  {
    if xp >= next then LevelUp(xp, level + 1, (level + 1) * 100) else (level, next)
  }

  /** The attribute after gaining `delta`: XP is clamped at 0, levels only rise. */
  function GainedAttribute(a: HeroAttribute, delta: int, now: Timestamp): (r: HeroAttribute)
    ensures r.xp >= 0 && (a.xp + delta >= 0 ==> r.xp == a.xp + delta)
    ensures a.xp + delta < 0 ==> r.xp == 0
    ensures r.level >= a.level && r.xp < r.xpForNextLevel
    ensures r.level > a.level ==> r.xpForNextLevel == r.level * 100
    ensures r.level == a.level ==> r.xpForNextLevel == a.xpForNextLevel
    ensures r == a.(xp := r.xp, level := r.level, xpForNextLevel := r.xpForNextLevel, updatedAt := now)
  {
    var xp := if a.xp + delta > 0 then a.xp + delta else 0;
    var (level, next) := LevelUp(xp, a.level, a.xpForNextLevel);
    a.(xp := xp, level := level, xpForNextLevel := next, updatedAt := now)
  }

  /** Once the threshold is the level's, it is strictly above the XP, and it never exceeds XP + 100. */
  lemma {:induction false} LevelUpTight(xp: int, level: int)
    requires xp >= level * 100
    ensures LevelUp(xp, level, level * 100).0 * 100 <= xp + 100
    decreases xp - level * 100
  {
    if xp >= (level + 1) * 100 {
      LevelUpTight(xp, level + 1);
    }
  }

  /** A second gain of nothing changes nothing but the stamp: the result is already levelled. */
  lemma GainIsStable(a: HeroAttribute, delta: int, now: Timestamp, later: Timestamp)
    ensures GainedAttribute(GainedAttribute(a, delta, now), 0, later) == GainedAttribute(a, delta, now).(updatedAt := later)
  {
  }

  /** Whether a goal of the attribute is active and reached at this level and XP. */
  predicate GoalReached(g: AttributeGoal, attributeId: string, level: int, xp: int)
  {
    g.attributeId == attributeId && g.isActive && level >= g.targetLevel && xp >= g.targetXp
  }

  /** `checkAttributeGoals`: the reached goals become inactive, stamped `now`; the rest stay. */
  function GoalsAfterCheck(goals: map<nat, AttributeGoal>, attributeId: string, level: int, xp: int, now: Timestamp)
    : (r: map<nat, AttributeGoal>)
    ensures r.Keys == goals.Keys
    ensures forall k :: k in goals ==> (r[k].isActive <==> goals[k].isActive && !GoalReached(goals[k], attributeId, level, xp))
    ensures forall k :: k in goals && !GoalReached(goals[k], attributeId, level, xp) ==> r[k] == goals[k]
    ensures forall k :: k in goals && GoalReached(goals[k], attributeId, level, xp) ==>
              r[k] == goals[k].(isActive := false, updatedAt := now)
  {
    map k | k in goals :: if GoalReached(goals[k], attributeId, level, xp) then goals[k].(isActive := false, updatedAt := now) else goals[k]
  }

  /** Checking again at the same level and XP changes nothing. */
  lemma GoalCheckIdempotent(goals: map<nat, AttributeGoal>, attributeId: string, level: int, xp: int, now: Timestamp, later: Timestamp)
    ensures GoalsAfterCheck(GoalsAfterCheck(goals, attributeId, level, xp, now), attributeId, level, xp, later)
         == GoalsAfterCheck(goals, attributeId, level, xp, now)
  {
  }

  /** One goal after the check. */
  function CheckedGoal(g: AttributeGoal, attributeId: string, level: int, xp: int, now: Timestamp): AttributeGoal
  {
    if GoalReached(g, attributeId, level, xp) then g.(isActive := false, updatedAt := now) else g
  }

  /** The goals once the keys in `done` have been checked. */
  function CheckedSoFar(goals: map<nat, AttributeGoal>, done: seq<nat>, attributeId: string, level: int, xp: int, now: Timestamp)
    : map<nat, AttributeGoal>
  {
    map k | k in goals :: if k in done then CheckedGoal(goals[k], attributeId, level, xp, now) else goals[k]
  }

  lemma CheckedSoFarStep(goals: map<nat, AttributeGoal>, done: seq<nat>, k: nat, attributeId: string, level: int, xp: int, now: Timestamp)
    requires k in goals && k !in done
    ensures CheckedSoFar(goals, done + [k], attributeId, level, xp, now)
         == CheckedSoFar(goals, done, attributeId, level, xp, now)[k := CheckedGoal(goals[k], attributeId, level, xp, now)]
  {
    var after := CheckedSoFar(goals, done + [k], attributeId, level, xp, now);
    var step := CheckedSoFar(goals, done, attributeId, level, xp, now)[k := CheckedGoal(goals[k], attributeId, level, xp, now)];
    assert after.Keys == step.Keys;
    forall j | j in after ensures after[j] == step[j] {
      assert j in done + [k] <==> j in done || j == k;
    }
  }

  /** A goal not yet visited is still as it was. */
  lemma UncheckedGoal(goals: map<nat, AttributeGoal>, done: seq<nat>, k: nat, attributeId: string, level: int, xp: int, now: Timestamp)
    requires k in goals && k !in done
    ensures k in CheckedSoFar(goals, done, attributeId, level, xp, now)
    ensures CheckedSoFar(goals, done, attributeId, level, xp, now)[k] == goals[k]
  {
  }

  lemma CheckedAll(goals: map<nat, AttributeGoal>, done: seq<nat>, attributeId: string, level: int, xp: int, now: Timestamp)
    requires forall k :: k in goals ==> k in done
    ensures CheckedSoFar(goals, done, attributeId, level, xp, now) == GoalsAfterCheck(goals, attributeId, level, xp, now)
  {
    var a := CheckedSoFar(goals, done, attributeId, level, xp, now);
    var b := GoalsAfterCheck(goals, attributeId, level, xp, now);
    assert a.Keys == b.Keys;
    forall j | j in a ensures a[j] == b[j] {
    }
  }

  lemma NextKeyIsNew(keys: seq<nat>, i: nat)
    requires i < |keys|
    requires forall a, b :: 0 <= a < b < |keys| ==> keys[a] < keys[b]
    ensures keys[i] !in keys[..i] && keys[..i + 1] == keys[..i] + [keys[i]]
  {
  }

  /** `checkAttributeGoals`: the goals are visited in key order. */
  method CheckAttributeGoals(db: HeroTaskDatabase, attributeId: string, level: int, xp: int, now: Timestamp)
    modifies db`attributeGoals
    ensures db.attributeGoals == GoalsAfterCheck(old(db.attributeGoals), attributeId, level, xp, now)
  {
    var keys := AscendingKeys(db.attributeGoals.Keys);
    SortedKeysOrdered(db.attributeGoals.Keys);
    CheckGoalsInOrder(db, keys, attributeId, level, xp, now);
  }

  /** The loop over the goals' keys. */
  method CheckGoalsInOrder(db: HeroTaskDatabase, keys: seq<nat>, attributeId: string, level: int, xp: int, now: Timestamp)
    requires forall a, b :: 0 <= a < b < |keys| ==> keys[a] < keys[b]
    requires forall k :: k in db.attributeGoals <==> k in keys
    modifies db`attributeGoals
    ensures db.attributeGoals == GoalsAfterCheck(old(db.attributeGoals), attributeId, level, xp, now)
  {
    ghost var goals := db.attributeGoals;
    var i := 0;
    while i < |keys|
      invariant i <= |keys|
      invariant db.attributeGoals == CheckedSoFar(goals, keys[..i], attributeId, level, xp, now)
    {
      NextKeyIsNew(keys, i);
      CheckedSoFarStep(goals, keys[..i], keys[i], attributeId, level, xp, now);
      UncheckedGoal(goals, keys[..i], keys[i], attributeId, level, xp, now);
      CheckGoal(db, keys[i], attributeId, level, xp, now);
      i := i + 1;
    }
    assert keys[..i] == keys;
    CheckedAll(goals, keys, attributeId, level, xp, now);
  }

  /** One goal of the loop: a reached goal is closed, stamped `now`; any other is left alone. */
  method CheckGoal(db: HeroTaskDatabase, k: nat, attributeId: string, level: int, xp: int, now: Timestamp)
    requires k in db.attributeGoals
    modifies db`attributeGoals
    ensures db.attributeGoals == old(db.attributeGoals)[k := CheckedGoal(old(db.attributeGoals[k]), attributeId, level, xp, now)]
  {
    var goal := db.attributeGoals[k];
    if GoalReached(goal, attributeId, level, xp) {
      db.attributeGoals := db.attributeGoals[k := goal.(isActive := false, updatedAt := now)];
    } else {
      assert db.attributeGoals == db.attributeGoals[k := goal];
    }
  }

  /**
   * `addAttributeXp`: nothing for an unknown attribute; otherwise the attribute is levelled, one
   * history record carrying the delta is added, and the reached goals are closed.
   */
  method AddAttributeXp(db: HeroTaskDatabase, attributeId: string, deltaXp: int, reason: string,
                        sessionId: Option<string>, taskId: Option<string>, now: Timestamp)
    modifies db`heroAttributes, db`attributeHistory, db`attributeGoals, db`keyGen
    ensures attributeId !in old(db.heroAttributes) ==>
      && db.heroAttributes == old(db.heroAttributes) && db.attributeHistory == old(db.attributeHistory)
      && db.attributeGoals == old(db.attributeGoals) && db.keyGen == old(db.keyGen)
    ensures attributeId in old(db.heroAttributes) ==>
      var a := GainedAttribute(old(db.heroAttributes[attributeId]), deltaXp, now);
      && db.heroAttributes == old(db.heroAttributes)[attributeId := a]
      && db.attributeHistory == old(db.attributeHistory)[old(db.keyGen.attributeHistory) :=
           AttributeHistory(attributeId, deltaXp, reason, sessionId, taskId, now)]
      && db.keyGen == old(db.keyGen).(attributeHistory := old(db.keyGen.attributeHistory) + 1)
      && db.attributeGoals == GoalsAfterCheck(old(db.attributeGoals), attributeId, a.level, a.xp, now)
  {
    if attributeId !in db.heroAttributes {
      return;
    }
    var attribute := db.heroAttributes[attributeId];
    var newXp := if attribute.xp + deltaXp > 0 then attribute.xp + deltaXp else 0;
    var newLevel := attribute.level;
    var newXpForNextLevel := attribute.xpForNextLevel;
    while newXp >= newXpForNextLevel
      invariant LevelUp(newXp, newLevel, newXpForNextLevel) == LevelUp(newXp, attribute.level, attribute.xpForNextLevel)
      decreases if newXpForNextLevel == newLevel * 100 then 0 else 1, newXp - newLevel * 100
    {
      newLevel := newLevel + 1;
      newXpForNextLevel := newLevel * 100;
    }
    db.heroAttributes := db.heroAttributes[attributeId := attribute.(xp := newXp, level := newLevel,
                                                                     xpForNextLevel := newXpForNextLevel, updatedAt := now)];
    var key := db.keyGen.attributeHistory;
    db.attributeHistory := db.attributeHistory[key := AttributeHistory(attributeId, deltaXp, reason, sessionId, taskId, now)];
    db.keyGen := db.keyGen.(attributeHistory := key + 1);
    CheckAttributeGoals(db, attributeId, newLevel, newXp, now);
  }

  // ---------------------------------------------------------------------------------------------
  // Totals over the loaded list (`orderBy('id').toArray()`, absent while loading)

  function SumXp(attributes: seq<HeroAttribute>): int
  {
    if attributes == [] then 0 else SumXp(attributes[..|attributes| - 1]) + attributes[|attributes| - 1].xp
  }

  /** `getTotalXp`: the XP summed over the attributes, 0 while loading. */
  function GetTotalXp(attributes: Option<seq<HeroAttribute>>): (r: int)
    ensures attributes.None? ==> r == 0
    ensures attributes.Some? ==> r == SumXp(attributes.value)
  {
    if attributes.None? then 0 else SumXp(attributes.value)
  }

  lemma {:induction false} SumXpAppend(a: seq<HeroAttribute>, b: seq<HeroAttribute>)
    ensures SumXp(a + b) == SumXp(a) + SumXp(b)
    decreases |b|
  {
    if b == [] {
      assert a + b == a;
    } else {
      assert (a + b)[..|a + b| - 1] == a + b[..|b| - 1];
      assert (a + b)[|a + b| - 1] == b[|b| - 1];
      SumXpAppend(a, b[..|b| - 1]);
    }
  }

  /** The attributes grouped by area: `{ mental, skill, discipline }`. */
  datatype ByArea = ByArea(mental: seq<HeroAttribute>, skill: seq<HeroAttribute>, discipline: seq<HeroAttribute>)

  function AddToArea(acc: ByArea, a: HeroAttribute): ByArea
  {
    match a.area
    case Mental => acc.(mental := acc.mental + [a])
    case Skill => acc.(skill := acc.skill + [a])
    case Discipline => acc.(discipline := acc.discipline + [a])
  }

  /** The `reduce` of `getAttributesByArea`, over the list in order. */
  function GroupByArea(attributes: seq<HeroAttribute>): (g: ByArea)
    ensures |g.mental| + |g.skill| + |g.discipline| == |attributes|
    ensures forall a :: a in g.mental ==> a in attributes && a.area == Mental
    ensures forall a :: a in g.skill ==> a in attributes && a.area == Skill
    ensures forall a :: a in g.discipline ==> a in attributes && a.area == Discipline
  {
    if attributes == [] then ByArea([], [], [])
    else AddToArea(GroupByArea(attributes[..|attributes| - 1]), attributes[|attributes| - 1])
  }

  /** `getAttributesByArea`: three empty groups while loading. */
  function GetAttributesByArea(attributes: Option<seq<HeroAttribute>>): (g: ByArea)
    ensures attributes.None? ==> g.mental == [] && g.skill == [] && g.discipline == []
    ensures attributes.Some? ==> |g.mental| + |g.skill| + |g.discipline| == |attributes.value|
  {
    if attributes.None? then ByArea([], [], []) else GroupByArea(attributes.value)
  }

  /**
   * The groups partition the list: each group holds exactly the attributes of its area, the
   * sizes add up to the list's, and so do the XP totals.
   */
  lemma GroupByAreaPartitions(attributes: seq<HeroAttribute>)
    ensures var g := GroupByArea(attributes);
      && (forall a :: a in g.mental <==> a in attributes && a.area == Mental)
      && (forall a :: a in g.skill <==> a in attributes && a.area == Skill)
      && (forall a :: a in g.discipline <==> a in attributes && a.area == Discipline)
      && |g.mental| + |g.skill| + |g.discipline| == |attributes|
      && SumXp(g.mental) + SumXp(g.skill) + SumXp(g.discipline) == SumXp(attributes)
  {
    GroupByAreaMembers(attributes);
    GroupByAreaTotals(attributes);
  }

  lemma {:induction false} GroupByAreaMembers(attributes: seq<HeroAttribute>)
    ensures var g := GroupByArea(attributes);
      && (forall a :: a in g.mental <==> a in attributes && a.area == Mental)
      && (forall a :: a in g.skill <==> a in attributes && a.area == Skill)
      && (forall a :: a in g.discipline <==> a in attributes && a.area == Discipline)
  {
    if attributes != [] {
      var pre := attributes[..|attributes| - 1];
      GroupByAreaMembers(pre);
      assert attributes == pre + [attributes[|attributes| - 1]];
    }
  }

  lemma {:induction false} GroupByAreaTotals(attributes: seq<HeroAttribute>)
    ensures var g := GroupByArea(attributes);
      && |g.mental| + |g.skill| + |g.discipline| == |attributes|
      && SumXp(g.mental) + SumXp(g.skill) + SumXp(g.discipline) == SumXp(attributes)
  {
    if attributes != [] {
      var pre := attributes[..|attributes| - 1];
      var last := attributes[|attributes| - 1];
      GroupByAreaTotals(pre);
      var g := GroupByArea(pre);
      match last.area
      case Mental => SumXpAppend(g.mental, [last]);
      case Skill => SumXpAppend(g.skill, [last]);
      case Discipline => SumXpAppend(g.discipline, [last]);
    }
  }
}
