/**
 * The quick-actions card (src/components/insights/QuickActions.tsx): which next steps it
 * suggests from the study sessions, in which order, and which of them it renders. Sessions
 * carry only their start time (milliseconds) and their performance label; the clock is a
 * parameter.
 */
module QuickActions {
  import opened JsArray
  import opened Sorting

  datatype StudySession = StudySession(startTime: int, performance: string)

  datatype QuickAction = StartReview | NewSession | ViewAnalytics | ConfigureReviews | ImproveTechnique

  datatype Priority = HighPriority | MediumPriority | LowPriority

  function ActionPriority(a: QuickAction): Priority
  {
    match a
    case StartReview => HighPriority
    case NewSession => HighPriority
    case ViewAnalytics => MediumPriority
    case ConfigureReviews => LowPriority
    case ImproveTechnique => HighPriority
  }

  /** `priorityOrder`. */
  function PriorityOrder(a: QuickAction): int
  {
    match ActionPriority(a)
    case HighPriority => 3
    case MediumPriority => 2
    case LowPriority => 1
  }

  /** The callbacks the card's props offer. */
  datatype Callback = OnStartReview | OnStartSession | OnViewAnalytics | OnConfigureSettings

  /** What a click on an action calls: improving the technique opens the settings too. */
  function OnClick(a: QuickAction): Callback
  {
    match a
    case StartReview => OnStartReview
    case NewSession => OnStartSession
    case ViewAnalytics => OnViewAnalytics
    case ConfigureReviews => OnConfigureSettings
    case ImproveTechnique => OnConfigureSettings
  }

  const DayMs := 1000 * 60 * 60 * 24

  /**
   * `daysSince >= 1 && daysSince <= 7` with `daysSince = (now - start) / DayMs` taken
   * exactly: the session started between one and seven days before `now`.
   */
  predicate StartedLastWeek(s: StudySession, now: int)
  {
    DayMs <= now - s.startTime <= 7 * DayMs
  }

  /** `sessions.filter(...).length` for the one-to-seven-day window. */
  function RecentCount(sessions: seq<StudySession>, now: int): (n: nat)
    ensures n <= |sessions|
  {
    if sessions == [] then 0
    else RecentCount(sessions[..|sessions| - 1], now) + (if StartedLastWeek(sessions[|sessions| - 1], now) then 1 else 0)
  }

  /** The filter finds a session exactly when some session lies in the window. */
  lemma {:induction false} RecentCountPositive(sessions: seq<StudySession>, now: int)
    ensures RecentCount(sessions, now) > 0 <==> exists s :: s in sessions && StartedLastWeek(s, now)
  {
    if sessions != [] {
      var n := |sessions| - 1;
      RecentCountPositive(sessions[..n], now);
      assert sessions == sessions[..n] + [sessions[n]];
      assert forall s :: s in sessions <==> s in sessions[..n] || s == sessions[n];
    }
  }

  /** `.filter(s => s.performance === 'low').length`. */
  function LowCount(sessions: seq<StudySession>): (n: nat)
    ensures n <= |sessions|
  {
    if sessions == [] then 0
    else LowCount(sessions[..|sessions| - 1]) + (if sessions[|sessions| - 1].performance == "low" then 1 else 0)
  }

  predicate HasRecentSessions(sessions: seq<StudySession>, now: int)
  {
    RecentCount(sessions, now) > 0
  }

  /** At least two of the last five sessions went badly. */
  predicate LowPerformanceDetected(sessions: seq<StudySession>)
  {
    LowCount(LastN(sessions, 5)) >= 2
  }

  /** The suggestions in the order the card lists them: high priority, then medium, then low. */
  function Suggestions(sessions: seq<StudySession>, now: int): (r: seq<QuickAction>)
    ensures 2 <= |r| <= 5
    ensures SortedDesc(r, PriorityOrder)
  {
    ListedSorted(LowPerformanceDetected(sessions), HasRecentSessions(sessions, now), |sessions| >= 3);
    Listed(LowPerformanceDetected(sessions), HasRecentSessions(sessions, now), |sessions| >= 3)
  }

  /** The list for each combination of the three conditional rules. */
  function Listed(low: bool, recent: bool, many: bool): seq<QuickAction>
  {
    (if low then [ImproveTechnique] else []) + Pushed(recent, many)
  }

  /** The actions the rules push, before the improvement is put in front. */
  function Pushed(recent: bool, many: bool): seq<QuickAction>
  {
    (if recent then [StartReview] else []) + [NewSession] + (if many then [ViewAnalytics] else []) + [ConfigureReviews]
  }

  /** Which actions the list holds, and that an improvement comes first. */
  lemma ListedMembers(low: bool, recent: bool, many: bool)
    ensures var s := Listed(low, recent, many);
      && NewSession in s && ConfigureReviews in s
      && (StartReview in s <==> recent)
      && (ViewAnalytics in s <==> many)
      && (ImproveTechnique in s <==> low)
      && (low ==> s[0] == ImproveTechnique)
  {
    var p := Pushed(recent, many);
    assert ImproveTechnique !in p;
    assert NewSession in p && ConfigureReviews in p;
  }

  /**
   * `getQuickActions()`: push the rules' actions, put an improvement first when performance is
   * low, then sort by priority. The pushes already list every high action before the medium
   * and the low one, so the stable sort keeps the list as built.
   */
  method GetQuickActions(sessions: seq<StudySession>, now: int) returns (actions: seq<QuickAction>)
    ensures actions == Suggestions(sessions, now)
  {
    var hasRecentSessions := HasRecentSessions(sessions, now);
    var many := |sessions| >= 3;
    actions := [];
    if hasRecentSessions {
      actions := actions + [StartReview];
    }
    actions := actions + [NewSession];
    if many {
      actions := actions + [ViewAnalytics];
    }
    actions := actions + [ConfigureReviews];
    assert actions == Pushed(hasRecentSessions, many);
    var low := LowPerformanceDetected(sessions);
    if low {
      actions := [ImproveTechnique] + actions;
    }
    actions := SortByPriority(low, hasRecentSessions, many, actions);
  }

  /** `actions.sort((a, b) => priorityOrder[b.priority] - priorityOrder[a.priority])` on the built list. */
  method SortByPriority(low: bool, recent: bool, many: bool, actions: seq<QuickAction>) returns (sorted: seq<QuickAction>)
    requires actions == Listed(low, recent, many)
    ensures sorted == actions
  {
    ListedSorted(low, recent, many);
    SortedIsFixed(actions, PriorityOrder);
    sorted := SortDesc(actions, PriorityOrder);
  }

  /** The list as built is already in priority order (so the stable sort leaves it as it is). */
  lemma ListedSorted(low: bool, recent: bool, many: bool)
    ensures SortedDesc(Listed(low, recent, many), PriorityOrder)
  {
    var s := Listed(low, recent, many);
    var highs := |s| - 1 - (if many then 1 else 0);
    ListedRanks(low, recent, many);
    forall i, j | 0 <= i < j < |s|
      ensures PriorityOrder(s[i]) >= PriorityOrder(s[j])
    {
      assert PriorityOrder(s[i]) == Rank(i, highs, |s|);
      assert PriorityOrder(s[j]) == Rank(j, highs, |s|);
    }
  }

  /** The priority at position `i` of a list of `n` actions whose first `highs` are high. */
  function Rank(i: int, highs: int, n: int): int
  {
    if i < highs then 3 else if i < n - 1 then 2 else 1
  }

  /** The built list holds its high actions first, then the analytics if any, then the settings. */
  lemma ListedRanks(low: bool, recent: bool, many: bool)
    ensures var s := Listed(low, recent, many);
      forall i :: 0 <= i < |s| ==> PriorityOrder(s[i]) == Rank(i, |s| - 1 - (if many then 1 else 0), |s|)
  {
    var h := (if low then [ImproveTechnique] else []) + (if recent then [StartReview] else []) + [NewSession];
    var s := Listed(low, recent, many);
    assert s == h + (if many then [ViewAnalytics] else []) + [ConfigureReviews];
    assert forall i :: 0 <= i < |h| ==> PriorityOrder(h[i]) == 3;
  }

  /**
   * Each rule: a new session and the review settings are always suggested, a review exactly
   * when a session started one to seven days ago, the analytics exactly from three sessions
   * on, and an improvement exactly when two of the last five sessions went badly, first.
   */
  lemma {:induction false} SuggestionRules(sessions: seq<StudySession>, now: int)
    ensures var s := Suggestions(sessions, now);
      && NewSession in s && ConfigureReviews in s
      && (StartReview in s <==> exists x :: x in sessions && StartedLastWeek(x, now))
      && (ViewAnalytics in s <==> |sessions| >= 3)
      && (ImproveTechnique in s <==> LowCount(LastN(sessions, 5)) >= 2)
      && (ImproveTechnique in s ==> s[0] == ImproveTechnique)
  {
    RecentCountPositive(sessions, now);
    ListedMembers(LowPerformanceDetected(sessions), HasRecentSessions(sessions, now), |sessions| >= 3);
  }

  /** `actions.slice(0, 4)`: the rendered cards. */
  function Rendered(actions: seq<QuickAction>): seq<QuickAction>
  {
    Slice(actions, 4)
  }

  /**
   * At most four actions are rendered, a new session always among them; the review settings
   * drop off the card exactly when all four other suggestions apply.
   */
  lemma RenderedActions(sessions: seq<StudySession>, now: int)
    ensures var r := Rendered(Suggestions(sessions, now));
      && |r| <= 4
      && NewSession in r
      && (ConfigureReviews !in r <==>
            LowPerformanceDetected(sessions) && HasRecentSessions(sessions, now) && |sessions| >= 3)
  {
    RenderedListed(LowPerformanceDetected(sessions), HasRecentSessions(sessions, now), |sessions| >= 3);
  }

  /** The first four of a built list: the settings are cut exactly when the list has five entries. */
  lemma RenderedListed(low: bool, recent: bool, many: bool)
    ensures var r := Rendered(Listed(low, recent, many));
      && |r| <= 4
      && NewSession in r
      && (ConfigureReviews !in r <==> low && recent && many)
  {
    var s := Listed(low, recent, many);
    var r := Rendered(s);
    var n := if low then 1 else 0;
    var m := n + if recent then 1 else 0;
    assert s[m] == NewSession;
    assert ConfigureReviews !in s[..|s| - 1];
    if low && recent && many {
      assert r == s[..|s| - 1];
    } else {
      assert r == s;
    }
  }
}
