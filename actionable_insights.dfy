/**
 * The insights card (src/components/insights/ActionableInsights.tsx): the insights it is given
 * are sorted in place, most severe first and actionable before the rest within a severity,
 * and the first `maxInsights` of them are shown. The insights engine that produces them is
 * not part of this model; an insight carries only what the card orders and dispatches on.
 */
module ActionableInsights {
  import opened Wrappers
  import opened JsArray
  import opened Sorting

  datatype Severity = Critical | High | Medium | Low

  datatype Insight = Insight(id: string, severity: Severity, actionable: bool)

  /** `severityOrder`. */
  function SeverityOrder(s: Severity): nat
  {
    match s
    case Critical => 4
    case High => 3
    case Medium => 2
    case Low => 1
  }

  /**
   * The comparator as one key: its severity difference, when not zero, outweighs the
   * actionable difference, so ordering by this key largest first is the comparator's order.
   */
  function Key(i: Insight): int
  {
    2 * SeverityOrder(i.severity) + (if i.actionable then 1 else 0)
  }

  /** `maxInsights = 5` when the prop is left out. */
  function MaxInsights(given: Option<int>): int
  {
    if given.Some? then given.value else 5
  }

  /** The insights shown: the sorted list cut at `maxInsights`. */
  function Shown(insights: seq<Insight>, maxInsights: int): (r: seq<Insight>)
    ensures 0 <= maxInsights ==> |r| == if maxInsights < |insights| then maxInsights else |insights|
    ensures multiset(r) <= multiset(insights)
  {
    var sorted := SortDesc(insights, Key);
    assert sorted == Slice(sorted, maxInsights) + sorted[|Slice(sorted, maxInsights)|..];
    Slice(sorted, maxInsights)
  }

  /**
   * The card shows at most `maxInsights` insights (five by default), all from its input,
   * most severe first and, within a severity, actionable ones first; within the same
   * severity and actionability the input order is kept.
   */
  lemma {:induction false} ShownInOrder(insights: seq<Insight>, maxInsights: int)
    ensures var r := Shown(insights, maxInsights);
      && (0 <= maxInsights ==> |r| == if maxInsights < |insights| then maxInsights else |insights|)
      && (forall x :: x in r ==> x in insights)
      && (forall i, j :: 0 <= i < j < |r| ==> SeverityOrder(r[i].severity) >= SeverityOrder(r[j].severity))
      && (forall i, j :: 0 <= i < j < |r| && r[i].severity == r[j].severity ==> r[i].actionable || !r[j].actionable)
    ensures forall k :: WithKey(SortDesc(insights, Key), Key, k) == WithKey(insights, Key, k)
  {
    var sorted := SortDesc(insights, Key);
    var r := Shown(insights, maxInsights);
    SortDescCorrect(insights, Key);
    SortDescMembers(insights, Key);
    forall i, j | 0 <= i < j < |r|
      ensures SeverityOrder(r[i].severity) >= SeverityOrder(r[j].severity)
      ensures r[i].severity == r[j].severity ==> r[i].actionable || !r[j].actionable
    {
      assert r[i] == sorted[i] && r[j] == sorted[j];
      assert Key(sorted[i]) >= Key(sorted[j]);
    }
  }

  /** No insight left out of the card ranks above one it shows. */
  lemma NothingHiddenOutranks(insights: seq<Insight>, maxInsights: int)
    ensures var r := Shown(insights, maxInsights);
      forall x, y :: x in insights && x !in r && y in r ==> Key(y) >= Key(x)
  {
    var sorted := SortDesc(insights, Key);
    var r := Shown(insights, maxInsights);
    SortDescCorrect(insights, Key);
    SortDescMembers(insights, Key);
    forall x, y | x in insights && x !in r && y in r
      ensures Key(y) >= Key(x)
    {
      var j :| 0 <= j < |sorted| && sorted[j] == x;
      var i :| 0 <= i < |r| && r[i] == y;
      assert r[i] == sorted[i];
      assert j >= |r|;
    }
  }

  /** The "see all" button appears exactly when some insight is left out. */
  predicate ShowAllButton(insights: seq<Insight>, maxInsights: int)
  {
    |insights| > maxInsights
  }

  lemma ShowAllIffTruncated(insights: seq<Insight>, maxInsights: int)
    requires maxInsights >= 0
    ensures ShowAllButton(insights, maxInsights) <==> |Shown(insights, maxInsights)| < |insights|
  {
  }

  /** A click on an insight: the callback fires, with that insight, only for an actionable one. */
  function ClickTarget(insight: Insight, hasCallback: bool): (fired: Option<Insight>)
    ensures fired.Some? <==> insight.actionable && hasCallback
    ensures fired.Some? ==> fired.value == insight
  {
    if insight.actionable && hasCallback then Some(insight) else None
  }

  /**
   * The render: `insights.sort(...)` reorders the caller's array in place, and
   * `.slice(0, maxInsights)` keeps its first elements.
   */
  method SortAndSlice(insights: array<Insight>, maxInsights: int) returns (shown: seq<Insight>)
    modifies insights
    ensures insights[..] == SortDesc(old(insights[..]), Key)
    ensures shown == Shown(old(insights[..]), maxInsights)
  {
    var sorted := SortDesc(insights[..], Key);
    forall i | 0 <= i < insights.Length {
      insights[i] := sorted[i];
    }
    shown := Slice(insights[..], maxInsights);
  }
}
