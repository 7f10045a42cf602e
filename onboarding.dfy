/**
 * The onboarding flag (src/hooks/useOnboarding.ts): whether the tour is shown follows one
 * `localStorage` key. Each storage call may throw; whether it does is a parameter.
 */
module Onboarding {
  import opened Wrappers
  import Browser

  const OnboardingKey := "lovable-study-app-onboarding-completed"

  /** The hook's state with the stored flag. */
  datatype OnboardingState = OnboardingState(showOnboarding: bool, loading: bool, flag: Option<string>)

  /** A mounted hook before the status check. */
  function Mounted(flag: Option<string>): (s: OnboardingState)
    ensures s.loading && !s.showOnboarding && s.flag == flag
  {
    OnboardingState(false, true, flag)
  }

  /** `!completed`: a missing or empty stored value means not completed. */
  predicate Completed(flag: Option<string>)
    ensures flag == Some("true") ==> Completed(flag)
    ensures Completed(flag) ==> flag.Some?
  {
    flag.Some? && flag.value != ""
  }

  /** `checkOnboardingStatus()`: show unless completed; show when the read throws; stop loading. */
  function Checked(s: OnboardingState, readFails: bool): (r: OnboardingState)
    ensures !r.loading && r.flag == s.flag
    ensures r.showOnboarding <==> readFails || !Completed(s.flag)
  {
    OnboardingState(readFails || !Completed(s.flag), false, s.flag)
  }

  /** `completeOnboarding()`: store `'true'` and hide; a throwing write changes nothing. */
  function AfterComplete(s: OnboardingState, writeFails: bool): (r: OnboardingState)
    ensures writeFails ==> r == s
    ensures !writeFails ==> r.flag == Some("true") && !r.showOnboarding && r.loading == s.loading
  {
    if writeFails then s else s.(flag := Some("true"), showOnboarding := false)
  }

  /** `resetOnboarding()`: remove the flag and show; a throwing remove changes nothing. */
  function AfterReset(s: OnboardingState, removeFails: bool): (r: OnboardingState)
    ensures removeFails ==> r == s
    ensures !removeFails ==> r.flag.None? && r.showOnboarding && r.loading == s.loading
  {
    if removeFails then s else s.(flag := None, showOnboarding := true)
  }

  /** What the hook shows agrees with the stored flag. */
  predicate ShowsPerFlag(s: OnboardingState)
  {
    s.showOnboarding <==> !Completed(s.flag)
  }

  /** A successful check, completion or reset leaves the display agreeing with the flag. */
  lemma OperationsKeepDisplayInStep(s: OnboardingState, fails: bool)
    ensures ShowsPerFlag(Checked(s, false))
    ensures ShowsPerFlag(s) ==> ShowsPerFlag(AfterComplete(s, fails)) && ShowsPerFlag(AfterReset(s, fails))
  {
  }

  /** Completing and then resetting a fresh install restores the state after its first check. */
  lemma CompleteThenResetRestores(readFails: bool)
    ensures var first := Checked(Mounted(None), readFails);
      AfterReset(AfterComplete(first, false), false) == first
  {
  }

  /** Once completed, every later check hides the tour; once reset, every later check shows it. */
  lemma CheckAfterCompleteOrReset(s: OnboardingState)
    ensures !Checked(AfterComplete(s, false), false).showOnboarding
    ensures Checked(AfterReset(s, false), false).showOnboarding
  {
  }

  class OnboardingHook {
    var showOnboarding: bool
    var loading: bool

    /** The hook's state together with the flag in `storage`. */
    function State(storage: Browser.LocalStorage): OnboardingState
      reads this, storage
    {
      OnboardingState(showOnboarding, loading, storage.GetItem(OnboardingKey))
    }

    constructor ()
      ensures !showOnboarding && loading
    {
      showOnboarding, loading := false, true;
    }

    method CheckOnboardingStatus(storage: Browser.LocalStorage, readFails: bool)
      modifies this
      ensures State(storage) == Checked(old(State(storage)), readFails)
    {
      if readFails {
        showOnboarding := true;
      } else {
        var completed := storage.GetItem(OnboardingKey);
        showOnboarding := !Completed(completed);
      }
      loading := false;
    }

    method CompleteOnboarding(storage: Browser.LocalStorage, writeFails: bool)
      modifies this, storage
      ensures State(storage) == AfterComplete(old(State(storage)), writeFails)
      ensures storage.items == if writeFails then old(storage.items) else old(storage.items)[OnboardingKey := "true"]
    {
      if writeFails {
        return;
      }
      storage.SetItem(OnboardingKey, "true");
      showOnboarding := false;
    }

    method ResetOnboarding(storage: Browser.LocalStorage, removeFails: bool)
      modifies this, storage
      ensures State(storage) == AfterReset(old(State(storage)), removeFails)
      ensures storage.items == if removeFails then old(storage.items) else old(storage.items) - {OnboardingKey}
    {
      if removeFails {
        return;
      }
      storage.RemoveItem(OnboardingKey);
      showOnboarding := true;
    }

    /** `skipOnboarding()` is `completeOnboarding()`. */
    method SkipOnboarding(storage: Browser.LocalStorage, writeFails: bool)
      modifies this, storage
      ensures State(storage) == AfterComplete(old(State(storage)), writeFails)
      ensures storage.items == if writeFails then old(storage.items) else old(storage.items)[OnboardingKey := "true"]
    {
      CompleteOnboarding(storage, writeFails);
    }
  }
}
