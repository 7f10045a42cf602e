/**
 * The constant tables of the coliseum (src/types/coliseum.ts): XP rewards, time limits and
 * question counts per mode, and the classification by accuracy. An accuracy is the exact
 * ratio `correct / total`; every threshold test on the percentage is stated in whole numbers,
 * keeping JavaScript's division by zero (`0/0` is `NaN`, below every threshold, and a positive
 * number over `0` is `Infinity`, above every threshold).
 */
module ColiseumTypes {

  datatype Mode = Skirmish | TotalWar | RescueOperation

  /** The XP table of a mode; rescue operations pay per enemy instead of an accuracy bonus. */
  datatype XpReward =
    | Combat(base: nat, bonus: nat, perfectBonus: nat)
    | Rescue(base: nat, perEnemy: nat, perfectBonus: nat)

  function XpRewards(mode: Mode): (r: XpReward)
    ensures r.Rescue? <==> mode == RescueOperation
  {
    match mode
    case Skirmish => Combat(100, 50, 50)
    case TotalWar => Combat(200, 100, 100)
    case RescueOperation => Rescue(50, 50, 100)
  }

  /** Total war pays exactly twice what a skirmish pays, and every mode pays a perfect run extra. */
  lemma TotalWarPaysDouble()
    ensures XpRewards(TotalWar).base == 2 * XpRewards(Skirmish).base
    ensures XpRewards(TotalWar).bonus == 2 * XpRewards(Skirmish).bonus
    ensures XpRewards(TotalWar).perfectBonus == 2 * XpRewards(Skirmish).perfectBonus
    ensures forall m :: XpRewards(m).perfectBonus > 0
  {
  }

  /** A `{ min, max, default }` entry. */
  datatype Range = Range(min: nat, max: nat, default: nat)

  predicate Ordered(r: Range)
  {
    r.min <= r.default <= r.max
  }

  /** Minutes per mode; the all-zero entry of a rescue operation means no limit. */
  function TimeLimits(mode: Mode): Range
  {
    match mode
    case Skirmish => Range(15, 30, 20)
    case TotalWar => Range(120, 240, 180)
    case RescueOperation => Range(0, 0, 0)
  }

  function QuestionCounts(mode: Mode): Range
  {
    match mode
    case Skirmish => Range(10, 20, 15)
    case TotalWar => Range(50, 100, 75)
    case RescueOperation => Range(1, 999, 10)
  }

  /** Every table entry has its default between its bounds; only rescue has no time limit. */
  lemma TablesAreOrdered(mode: Mode)
    ensures Ordered(TimeLimits(mode)) && Ordered(QuestionCounts(mode))
    ensures TimeLimits(mode) == Range(0, 0, 0) <==> mode == RescueOperation
    ensures QuestionCounts(mode).min >= 1
  {
  }

  /** `(correct / total) * 100 >= pct`. */
  predicate AccuracyAtLeast(correct: nat, total: nat, pct: nat)
  {
    if total == 0 then correct > 0 else 100 * correct >= pct * total
  }

  /** `(correct / total) * 100 === 100`. */
  predicate Perfect(correct: nat, total: nat)
  {
    total > 0 && correct == total
  }

  /** The classification thresholds, lowest first. */
  const Thresholds: seq<nat> := [50, 60, 70, 80, 85, 90, 95]

  const TierNames: seq<string> := ["Recruta da Arena", "Gladiador em Treinamento", "Combatente Experiente",
    "Guerreiro Valoroso", "Gladiador Veterano", "Gladiador Lendário", "Campeão Invicto", "Imperador do Coliseu"]

  /** The rank `getColiseumClassification` assigns, 0 (lowest) to 7 (highest). */
  function Tier(correct: nat, total: nat): (t: nat)
    ensures t < |TierNames|
  {
    if AccuracyAtLeast(correct, total, 95) then 7
    else if AccuracyAtLeast(correct, total, 90) then 6
    else if AccuracyAtLeast(correct, total, 85) then 5
    else if AccuracyAtLeast(correct, total, 80) then 4
    else if AccuracyAtLeast(correct, total, 70) then 3
    else if AccuracyAtLeast(correct, total, 60) then 2
    else if AccuracyAtLeast(correct, total, 50) then 1
    else 0
  }

  /** `getColiseumClassification(accuracyRate)`. */
  function Classification(correct: nat, total: nat): string
  {
    TierNames[Tier(correct, total)]
  }

  /** A higher threshold is harder to reach. */
  lemma AtLeastWeakens(correct: nat, total: nat, p: nat, q: nat)
    requires p <= q && AccuracyAtLeast(correct, total, q)
    ensures AccuracyAtLeast(correct, total, p)
  {
    if total > 0 {
      assert p * total <= q * total by {
        assert (q - p) * total >= 0;
      }
    }
  }

  /** The tier is the number of thresholds the accuracy reaches. */
  lemma {:induction false} TierCountsThresholds(correct: nat, total: nat)
    ensures forall k :: 0 <= k < |Thresholds| ==> (Tier(correct, total) > k <==> AccuracyAtLeast(correct, total, Thresholds[k]))
  {
    forall k | 0 <= k < |Thresholds|
      ensures Tier(correct, total) > k <==> AccuracyAtLeast(correct, total, Thresholds[k])
    {
      forall j | k <= j < |Thresholds|
        ensures AccuracyAtLeast(correct, total, Thresholds[j]) ==> AccuracyAtLeast(correct, total, Thresholds[k])
      {
        if AccuracyAtLeast(correct, total, Thresholds[j]) {
          AtLeastWeakens(correct, total, Thresholds[k], Thresholds[j]);
        }
      }
    }
  }

  /** `correct1 / total1 <= correct2 / total2`, both totals positive. */
  predicate NoBetter(correct1: nat, total1: nat, correct2: nat, total2: nat)
  {
    total1 > 0 && total2 > 0 && correct1 * total2 <= correct2 * total1
  }

  /** A threshold reached by a lower accuracy is reached by a higher one. */
  lemma AtLeastMonotone(c1: nat, t1: nat, c2: nat, t2: nat, pct: nat)
    requires NoBetter(c1, t1, c2, t2) && AccuracyAtLeast(c1, t1, pct)
    ensures AccuracyAtLeast(c2, t2, pct)
  {
    assert 100 * c1 * t2 >= pct * t1 * t2 by {
      assert 100 * c1 >= pct * t1;
    }
    assert 100 * c2 * t1 >= 100 * c1 * t2 by {
      assert c2 * t1 >= c1 * t2;
    }
    assert (100 * c2) * t1 >= (pct * t2) * t1;
  }

  /** A higher accuracy never gets a lower classification. */
  lemma {:induction false} TierMonotone(c1: nat, t1: nat, c2: nat, t2: nat)
    requires NoBetter(c1, t1, c2, t2)
    ensures Tier(c1, t1) <= Tier(c2, t2)
  {
    TierCountsThresholds(c1, t1);
    TierCountsThresholds(c2, t2);
    var k := Tier(c1, t1);
    if k > 0 {
      assert AccuracyAtLeast(c1, t1, Thresholds[k - 1]);
      AtLeastMonotone(c1, t1, c2, t2, Thresholds[k - 1]);
    }
  }

  /** A perfect score is the top tier and no score lands below the lowest. */
  lemma PerfectIsEmperor(total: nat)
    requires total > 0
    ensures Classification(total, total) == "Imperador do Coliseu"
    ensures Classification(0, total) == "Recruta da Arena"
  {
  }
}
