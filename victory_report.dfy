/**
 * The report screen after a battle (src/components/coliseum/VictoryReport.tsx): the XP counter
 * animation, the time formats and the colour that grades an accuracy. The report itself is
 * built by ColiseumEngine.
 */
module VictoryReport {
  import opened Wrappers
  import opened JsText
  import opened ColiseumTypes
  import opened ColiseumEngine

  /** The number of timer ticks the XP animation is spread over. */
  const Steps := 60

  /**
   * The value the counter shows after `k` ticks: the running total `k * xp / 60`, rounded
   * down, until it reaches `xp`.
   */
  function DisplayedAfter(xp: nat, k: nat): (shown: nat)
    ensures shown <= xp
    ensures k >= Steps || xp == 0 ==> shown == xp
    ensures k < Steps && xp > 0 ==> Steps * shown <= k * xp < Steps * (shown + 1)
  {
    if xp == 0 || k >= Steps then xp
    else
      assert k * xp < Steps * xp;
      k * xp / Steps
  }

  /** The running total `k * xp / 60` reaches `xp` exactly after 60 ticks, or at once for 0. */
  lemma Reached(xp: nat, k: nat)
    ensures k * xp >= Steps * xp <==> xp == 0 || k >= Steps
  {
    if xp > 0 && k < Steps {
      assert k * xp < Steps * xp;
    }
  }

  /**
   * The XP counter effect: every tick adds `xp / 60` and shows the floor of the total, and the
   * tick that reaches `xp` shows `xp` and stops the timer. Returns what each tick shows; the
   * counter never goes back, never passes `xp`, and ends on `xp` after 60 ticks (one for 0).
   */
  method AnimateXp(xp: nat) returns (shown: seq<nat>)
    ensures |shown| == if xp == 0 then 1 else Steps
    ensures forall i :: 0 <= i < |shown| ==> shown[i] == DisplayedAfter(xp, i + 1)
    ensures forall i :: 0 <= i < |shown| ==> shown[i] <= xp
    ensures forall i, j :: 0 <= i <= j < |shown| ==> shown[i] <= shown[j]
    ensures shown[|shown| - 1] == xp
  {
    shown := [];
    var current: nat := 0;
    var done := false;
    while !done
      invariant current <= (if xp == 0 then 1 else Steps)
      invariant |shown| == current
      invariant done <==> current > 0 && (xp == 0 || current >= Steps)
      invariant forall i :: 0 <= i < |shown| ==> shown[i] == DisplayedAfter(xp, i + 1)
      decreases Steps - current
    {
      current := current + 1;
      shown := shown + [DisplayedAfter(xp, current)];
      Reached(xp, current);
      done := current * xp >= Steps * xp;
    }
    forall i, j | 0 <= i <= j < |shown|
      ensures shown[i] <= shown[j]
    {
      DisplayedMonotone(xp, i + 1, j + 1);
    }
  }

  /** A later tick never shows less than an earlier one. */
  lemma DisplayedMonotone(xp: nat, k1: nat, k2: nat)
    requires k1 <= k2
    ensures DisplayedAfter(xp, k1) <= DisplayedAfter(xp, k2)
  {
    if xp > 0 && k2 < Steps {
      assert k1 * xp + (k2 - k1) * xp == k2 * xp;
    }
  }

  /** `formatTime(seconds)`: `"{m}m {s}s"`. */
  function FormatTime(seconds: nat): (r: string)
    ensures |r| >= 5 && r[|r| - 1] == 's'
  {
    NatToString(seconds / 60) + "m " + NatToString(seconds % 60) + "s"
  }

  /** Minutes and seconds can be read back, so two durations never print alike. */
  lemma FormatTimeInjective(a: nat, b: nat)
    requires FormatTime(a) == FormatTime(b)
    ensures a == b
  {
    var ra, rb := FormatTime(a), FormatTime(b);
    assert ra == NatToString(a / 60) + "m " + (NatToString(a % 60) + "s");
    assert rb == NatToString(b / 60) + "m " + (NatToString(b % 60) + "s");
    DigitsSplitUnique(NatToString(a / 60), NatToString(a % 60) + "s", NatToString(b / 60), NatToString(b % 60) + "s", "m ");
    NatToStringInjective(a / 60, b / 60);
    assert NatToString(a % 60) == (NatToString(a % 60) + "s")[..|NatToString(a % 60)|];
    assert NatToString(b % 60) == (NatToString(b % 60) + "s")[..|NatToString(b % 60)|];
    NatToStringInjective(a % 60, b % 60);
  }

  /**
   * `Math.floor(totalTime / totalQuestions)`, the average time per question; with no question
   * the division has no number to show.
   */
  function AverageTime(totalTime: nat, totalQuestions: nat): (avg: Option<nat>)
    ensures avg.None? <==> totalQuestions == 0
    ensures avg.Some? ==> totalQuestions * avg.value <= totalTime < totalQuestions * (avg.value + 1)
  {
    if totalQuestions == 0 then None else Some(totalTime / totalQuestions)
  }

  datatype GradeColor = Green | Blue | Yellow | Red

  function GradeRank(g: GradeColor): nat
  {
    match g
    case Red => 0
    case Yellow => 1
    case Blue => 2
    case Green => 3
  }

  /** `accuracy >= pct` for a report's accuracy; an untouched bucket's 0 meets no threshold. */
  predicate Meets(a: Accuracy, pct: nat)
  {
    match a
    case Zero => pct == 0
    case Ratio(correct, total) => AccuracyAtLeast(correct, total, pct)
  }

  /** `getGradeColor(accuracy)`: green from 90%, blue from 70%, yellow from 50%, red below. */
  function GetGradeColor(a: Accuracy): (c: GradeColor)
    ensures a == Zero ==> c == Red
    ensures a.Ratio? && 0 < a.total <= a.correct ==> c == Green
    ensures a.Ratio? && a.correct == 0 ==> c == Red
    ensures a.Ratio? && a.total > 0 ==> (c == Green <==> 100 * a.correct >= 90 * a.total)
  {
    if Meets(a, 90) then Green
    else if Meets(a, 70) then Blue
    else if Meets(a, 50) then Yellow
    else Red
  }

  /**
   * A battle's colour only improves with its accuracy; a perfect battle is green, and an empty
   * bucket or a battle without a correct answer is red.
   */
  lemma GradeColorMonotone(c1: nat, t1: nat, c2: nat, t2: nat)
    requires NoBetter(c1, t1, c2, t2)
    ensures GradeRank(GetGradeColor(Ratio(c1, t1))) <= GradeRank(GetGradeColor(Ratio(c2, t2)))
    ensures t2 > 0 ==> GetGradeColor(Ratio(t2, t2)) == Green
    ensures GetGradeColor(Ratio(0, t2)) == Red
    ensures GetGradeColor(Zero) == Red
  {
    if AccuracyAtLeast(c1, t1, 90) {
      AtLeastMonotone(c1, t1, c2, t2, 90);
    }
    if AccuracyAtLeast(c1, t1, 70) {
      AtLeastMonotone(c1, t1, c2, t2, 70);
    }
    if AccuracyAtLeast(c1, t1, 50) {
      AtLeastMonotone(c1, t1, c2, t2, 50);
    }
  }
}
