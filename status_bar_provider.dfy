/** CursorUsageProvider in the editor extension: single and double clicks on
    the status bar, the refresh flags, and what happens after a fetch of the
    usage data ends.

    Timers and fetches are asynchronous.  Here arming a timer or starting a
    fetch is an Effect a transition returns, and "the timer fired" or "the
    fetch ended with this outcome" is a later call.  A cleared timer never
    fires. */
module Provider {
  import opened Common

  /** CONFIG.MAX_RETRY_COUNT. */
  const MaxRetryCount: nat := 3
  /** CONFIG.DOUBLE_CLICK_DELAY, in milliseconds. */
  const DoubleClickDelayMs: nat := 300
  /** CONFIG.RETRY_DELAY, in milliseconds. */
  const RetryDelayMs: nat := 1000

  /** The fields the click and refresh logic reads and writes.  A timer is
      only its presence; retryTimer remembers the count the scheduled retry
      will fetch with. */
  datatype ProviderState = ProviderState(
    clickCount: int,
    clickTimerArmed: bool,
    isRefreshing: bool,
    isManualRefresh: bool,
    retryTimer: Option<nat>)

  /** What a transition asks the outside world to do. */
  datatype Effect =
    | NoEffect
    | OpenSessionSettings          // the cursorUsage.updateSession command
    | ArmClickTimer                // setTimeout(..., DoubleClickDelayMs)
    | StartFetch(retryCount: nat)  // fetchData(retryCount)
    | ShowUsage                    // updateStatusBar after a fetch that worked
    | ShowSetSessionMessage        // the "Please set your Cursor session token" warning
    | ShowFetchError(retryable: bool)
    | ScheduleRetry(retryCount: nat) // setTimeout(() => fetchData(retryCount), RetryDelayMs)

  datatype Transition = Transition(next: ProviderState, effect: Effect)

  /** How a fetchData call ended. */
  datatype FetchOutcome = Fetched | NoSessionToken | Failed(retryable: bool)

  /** The state right after the constructor ran initialize(): refreshing
      exactly when a session token is configured; a fetch is started. */
  function Initial(hasToken: bool): ProviderState {
    ProviderState(0, false, hasToken, false, None)
  }

  /** clearClickTimer. */
  function ClickTimerCleared(s: ProviderState): ProviderState {
    s.(clickCount := 0, clickTimerArmed := false)
  }

  /** handleStatusBarClick. */
  function AfterClick(s: ProviderState): Transition {
    if s.isRefreshing then Transition(s, NoEffect)
    else
      var counted := s.(clickCount := s.clickCount + 1);
      if s.clickTimerArmed then Transition(ClickTimerCleared(counted), OpenSessionSettings)
      else Transition(counted.(clickTimerArmed := true), ArmClickTimer)
  }

  /** refresh, as the refresh command and a single click call it. */
  function AfterRefresh(s: ProviderState): Transition {
    Transition(s.(isManualRefresh := true, isRefreshing := true), StartFetch(0))
  }

  /** The click timer's callback: refresh on exactly one click, then clear. */
  function AfterClickTimer(s: ProviderState): Transition {
    if !s.clickTimerArmed then Transition(s, NoEffect)
    else if s.clickCount == 1 then
      var r := AfterRefresh(s);
      Transition(ClickTimerCleared(r.next), r.effect)
    else Transition(ClickTimerCleared(s), NoEffect)
  }

  /** resetRefreshState. */
  function RefreshStateReset(s: ProviderState): ProviderState {
    s.(isManualRefresh := false, isRefreshing := false)
  }

  /** fetchData when every request worked. */
  function AfterFetched(s: ProviderState): Transition {
    Transition(RefreshStateReset(s), ShowUsage)
  }

  /** scheduleRetry(retryCount): the retry fetches with retryCount + 1. */
  function AfterScheduleRetry(s: ProviderState, retryCount: nat): Transition {
    Transition(s.(retryTimer := Some(retryCount + 1)), ScheduleRetry(retryCount + 1))
  }

  /** handleNoSessionToken as written: only a manual refresh resets the flags. */
  function AfterNoTokenAsWritten(s: ProviderState): (t: Transition)
    ensures t.next.isRefreshing <==> s.isRefreshing && !s.isManualRefresh
    ensures !t.next.isManualRefresh
    ensures t.effect == ShowSetSessionMessage <==> s.isManualRefresh
    ensures t.effect != ShowSetSessionMessage ==> t.effect == NoEffect
    ensures t.next.(isRefreshing := s.isRefreshing, isManualRefresh := s.isManualRefresh) == s
  {
    if s.isManualRefresh then Transition(RefreshStateReset(s), ShowSetSessionMessage)
    else Transition(s.(isManualRefresh := false), NoEffect)
  }

  /** handleFetchError as written: a manual refresh shows the error and
      resets; otherwise a retry is scheduled while retryCount < 3, and after
      that nothing happens, so isRefreshing is left as it was. */
  function AfterFetchErrorAsWritten(s: ProviderState, retryable: bool, retryCount: nat): (t: Transition)
    ensures t.next.isRefreshing <==> s.isRefreshing && !s.isManualRefresh
    ensures t.effect.ScheduleRetry? <==> !s.isManualRefresh && retryCount < MaxRetryCount
    ensures s.isManualRefresh ==> t.effect == ShowFetchError(retryable) && !t.next.isManualRefresh
    ensures !s.isManualRefresh && retryCount >= MaxRetryCount ==> t == Transition(s, NoEffect)
  {
    if s.isManualRefresh then Transition(RefreshStateReset(s), ShowFetchError(retryable))
    else if retryCount < MaxRetryCount then AfterScheduleRetry(s, retryCount)
    else Transition(s, NoEffect)
  }

  /** handleNoSessionToken with the flags reset on every path. */
  function AfterNoToken(s: ProviderState): Transition {
    if s.isManualRefresh then Transition(RefreshStateReset(s), ShowSetSessionMessage)
    else Transition(RefreshStateReset(s), NoEffect)
  }

  /** handleFetchError with the flags reset when the retries are used up. */
  function AfterFetchError(s: ProviderState, retryable: bool, retryCount: nat): Transition {
    if s.isManualRefresh then Transition(RefreshStateReset(s), ShowFetchError(retryable))
    else if retryCount < MaxRetryCount then AfterScheduleRetry(s, retryCount)
    else Transition(RefreshStateReset(s), NoEffect)
  }

  /** The end of fetchData(retryCount), as written and as corrected. */
  function AfterFetchAsWritten(s: ProviderState, o: FetchOutcome, retryCount: nat): (t: Transition)
    ensures t.next.isRefreshing <==> !o.Fetched? && s.isRefreshing && !s.isManualRefresh
  {
    match o
    case Fetched => AfterFetched(s)
    case NoSessionToken => AfterNoTokenAsWritten(s)
    case Failed(retryable) => AfterFetchErrorAsWritten(s, retryable, retryCount)
  }

  function AfterFetch(s: ProviderState, o: FetchOutcome, retryCount: nat): Transition {
    match o
    case Fetched => AfterFetched(s)
    case NoSessionToken => AfterNoToken(s)
    case Failed(retryable) => AfterFetchError(s, retryable, retryCount)
  }

  /** The auto-refresh interval's callback: only when not already refreshing. */
  function AfterAutoRefreshTick(s: ProviderState): Transition {
    if !s.isRefreshing then Transition(s.(isRefreshing := true), StartFetch(0))
    else Transition(s, NoEffect)
  }

  /** The retry timer's callback starts fetchData with its count. */
  function AfterRetryTimer(s: ProviderState, retryCount: nat): Transition {
    Transition(s, StartFetch(retryCount))
  }

  /** Everything that can happen to the provider. */
  datatype Event =
    | Click
    | ClickTimerFires
    | RefreshCommand
    | FetchEnded(outcome: FetchOutcome, retryCount: nat)
    | RetryTimerFires(retryCount: nat)
    | AutoRefreshTick

  function Step(s: ProviderState, e: Event): Transition {
    match e
    case Click => AfterClick(s)
    case ClickTimerFires => AfterClickTimer(s)
    case RefreshCommand => AfterRefresh(s)
    case FetchEnded(o, k) => AfterFetch(s, o, k)
    case RetryTimerFires(k) => AfterRetryTimer(s, k)
    case AutoRefreshTick => AfterAutoRefreshTick(s)
  }

  function StepAsWritten(s: ProviderState, e: Event): Transition {
    match e
    case FetchEnded(o, k) => AfterFetchAsWritten(s, o, k)
    case _ => Step(s, e)
  }

  class CursorUsageProvider {
    var clickCount: int
    var clickTimerArmed: bool
    var isRefreshing: bool
    var isManualRefresh: bool
    var retryTimer: Option<nat>

    function State(): ProviderState
      reads this
    {
      ProviderState(clickCount, clickTimerArmed, isRefreshing, isManualRefresh, retryTimer)
    }

    /** The constructor and initialize(); the fetch it starts is StartFetch(0). */
    constructor (hasToken: bool)
      ensures State() == Initial(hasToken)
    {
      clickCount := 0;
      clickTimerArmed := false;
      isRefreshing := hasToken;
      isManualRefresh := false;
      retryTimer := None;
    }

    method ClearClickTimer()
      modifies this
      ensures State() == ClickTimerCleared(old(State()))
    {
      clickTimerArmed := false;
      clickCount := 0;
    }

    method HandleStatusBarClick() returns (effect: Effect)
      modifies this
      ensures Transition(State(), effect) == AfterClick(old(State()))
    {
      if isRefreshing {
        return NoEffect;
      }
      clickCount := clickCount + 1;
      if clickTimerArmed {
        ClearClickTimer();
        effect := OpenSessionSettings;
      } else {
        clickTimerArmed := true;
        effect := ArmClickTimer;
      }
    }

    method Refresh() returns (effect: Effect)
      modifies this
      ensures Transition(State(), effect) == AfterRefresh(old(State()))
    {
      isManualRefresh := true;
      isRefreshing := true;
      effect := StartFetch(0);
    }

    method OnClickTimer() returns (effect: Effect)
      modifies this
      ensures Transition(State(), effect) == AfterClickTimer(old(State()))
    {
      effect := NoEffect;
      if !clickTimerArmed {
        return;
      }
      if clickCount == 1 {
        effect := Refresh();
      }
      ClearClickTimer();
    }

    method ResetRefreshState()
      modifies this
      ensures State() == RefreshStateReset(old(State()))
    {
      isManualRefresh := false;
      isRefreshing := false;
    }

    method OnFetched() returns (effect: Effect)
      modifies this
      ensures Transition(State(), effect) == AfterFetched(old(State()))
    {
      ResetRefreshState();
      effect := ShowUsage;
    }

    method ScheduleRetry(retryCount: nat) returns (effect: Effect)
      modifies this
      ensures Transition(State(), effect) == AfterScheduleRetry(old(State()), retryCount)
    {
      retryTimer := Some(retryCount + 1);
      effect := Effect.ScheduleRetry(retryCount + 1);
    }

    method HandleNoSessionToken() returns (effect: Effect)
      modifies this
      ensures Transition(State(), effect) == AfterNoToken(old(State()))
    {
      effect := NoEffect;
      if isManualRefresh {
        effect := ShowSetSessionMessage;
      }
      ResetRefreshState();
    }

    method HandleFetchError(retryable: bool, retryCount: nat) returns (effect: Effect)
      modifies this
      ensures Transition(State(), effect) == AfterFetchError(old(State()), retryable, retryCount)
    {
      if isManualRefresh {
        ResetRefreshState();
        return ShowFetchError(retryable);
      }
      if retryCount < MaxRetryCount {
        effect := ScheduleRetry(retryCount);
      } else {
        ResetRefreshState();
        effect := NoEffect;
      }
    }

    method OnAutoRefreshTick() returns (effect: Effect)
      modifies this
      ensures Transition(State(), effect) == AfterAutoRefreshTick(old(State()))
    {
      effect := NoEffect;
      if !isRefreshing {
        isRefreshing := true;
        effect := StartFetch(0);
      }
    }
  }

  // ------------------------------------------------------------- clicks

  /** clickCount counts the clicks the armed timer is waiting on. */
  predicate ClickConsistent(s: ProviderState) {
    s.clickCount == if s.clickTimerArmed then 1 else 0
  }

  /** Every event keeps the click count and the click timer in step. */
  lemma StepKeepsClickConsistent(s: ProviderState, e: Event)
    requires ClickConsistent(s)
    ensures ClickConsistent(Step(s, e).next) && ClickConsistent(StepAsWritten(s, e).next)
  {
  }

  /** While refreshing, a click changes nothing and does nothing. */
  lemma ClicksIgnoredWhileRefreshing(s: ProviderState)
    requires s.isRefreshing
    ensures AfterClick(s) == Transition(s, NoEffect)
  {
  }

  /** Two clicks before the timer fires open the session settings, start no
      fetch and leave the count at zero with no timer armed. */
  lemma DoubleClickOpensSettings(s: ProviderState)
    requires ClickConsistent(s) && !s.isRefreshing && !s.clickTimerArmed
    ensures var first := AfterClick(s);
            var second := AfterClick(first.next);
            && first.effect == ArmClickTimer
            && second.effect == OpenSessionSettings
            && second.next == s
  {
  }

  /** One click and then the timer: a manual refresh from retry count zero,
      and the click state is back to idle. */
  lemma SingleClickRefreshes(s: ProviderState)
    requires ClickConsistent(s) && !s.isRefreshing && !s.clickTimerArmed
    ensures var fired := AfterClickTimer(AfterClick(s).next);
            && fired.effect == StartFetch(0)
            && fired.next.isManualRefresh && fired.next.isRefreshing
            && fired.next.clickCount == 0 && !fired.next.clickTimerArmed
  {
  }

  // ------------------------------------------------------------- retries

  /** A failure during a manual refresh shows the error, resets both flags
      and never schedules a retry. */
  lemma ManualFailureNeverRetries(s: ProviderState, retryable: bool, retryCount: nat)
    requires s.isManualRefresh
    ensures var t := AfterFetchError(s, retryable, retryCount);
            && t.effect == ShowFetchError(retryable)
            && !t.next.isRefreshing && !t.next.isManualRefresh
  {
  }

  /** Otherwise a retry is scheduled exactly when retryCount < 3, and it will
      fetch with retryCount + 1. */
  lemma RetryScheduledIff(s: ProviderState, retryable: bool, retryCount: nat)
    requires !s.isManualRefresh
    ensures AfterFetchError(s, retryable, retryCount).effect.ScheduleRetry? <==> retryCount < MaxRetryCount
    ensures retryCount < MaxRetryCount ==>
      AfterFetchError(s, retryable, retryCount).effect == ScheduleRetry(retryCount + 1)
  {
  }

  /** How many fetches a chain makes from fetchData(retryCount) on when every
      one of them fails: each scheduled retry fires and fails again. */
  function AttemptsWhenAllFail(s: ProviderState, retryCount: nat): nat
    decreases if retryCount < MaxRetryCount then MaxRetryCount - retryCount else 0
  {
    var t := AfterFetchError(s, true, retryCount);
    if t.effect.ScheduleRetry? then
      var fired := AfterRetryTimer(t.next, t.effect.retryCount);
      1 + AttemptsWhenAllFail(fired.next, fired.effect.retryCount)
    else 1
  }

  /** A chain begun by the auto refresh makes 4 attempts, one begun by a manual
      refresh makes 1. */
  lemma {:induction false} RetryChainLength(s: ProviderState, retryCount: nat)
    requires retryCount <= MaxRetryCount
    ensures AttemptsWhenAllFail(s, retryCount) ==
      if s.isManualRefresh then 1 else MaxRetryCount + 1 - retryCount
    decreases MaxRetryCount - retryCount
  {
    if !s.isManualRefresh && retryCount < MaxRetryCount {
      var t := AfterFetchError(s, true, retryCount);
      RetryChainLength(AfterRetryTimer(t.next, t.effect.retryCount).next, retryCount + 1);
    }
  }

  // ------------------------------------------------------------- the refresh lock

  /** As written: once the token is gone, an auto refresh leaves isRefreshing
      set, after which clicks and later auto refreshes do nothing. */
  lemma NoTokenAutoRefreshLocks()
    ensures var s1 := StepAsWritten(Initial(false), AutoRefreshTick).next;
            var s2 := StepAsWritten(s1, FetchEnded(NoSessionToken, 0)).next;
            && s2.isRefreshing
            && StepAsWritten(s2, Click) == Transition(s2, NoEffect)
            && StepAsWritten(s2, AutoRefreshTick) == Transition(s2, NoEffect)
  {
  }

  /** As written: when the fourth automatic attempt fails, isRefreshing stays
      set, and clicks and auto refreshes do nothing from then on. */
  lemma ExhaustedRetriesLock(s: ProviderState)
    requires s.isRefreshing && !s.isManualRefresh
    ensures var s2 := StepAsWritten(s, FetchEnded(Failed(true), MaxRetryCount)).next;
            && s2.isRefreshing
            && StepAsWritten(s2, Click) == Transition(s2, NoEffect)
            && StepAsWritten(s2, AutoRefreshTick) == Transition(s2, NoEffect)
  {
  }

  /** As written, a refresh that ends up locked is unlocked only by a fetch
      that works or by the end of a manual refresh: no click, timer or tick
      clears isRefreshing. */
  lemma AsWrittenUnlockOnlyBySuccessOrManual(s: ProviderState, e: Event)
    requires s.isRefreshing
    ensures !StepAsWritten(s, e).next.isRefreshing ==>
      e.FetchEnded? && (e.outcome.Fetched? || s.isManualRefresh)
  {
  }

  /** Corrected: every fetch that ends without scheduling a retry clears both
      refresh flags, so clicks and auto refreshes work again. */
  lemma FetchEndUnlocks(s: ProviderState, o: FetchOutcome, retryCount: nat)
    ensures var t := AfterFetch(s, o, retryCount);
            !t.effect.ScheduleRetry? ==>
              !t.next.isRefreshing && !t.next.isManualRefresh &&
              AfterAutoRefreshTick(t.next).effect == StartFetch(0)
  {
  }

  /** The correction changes only the two paths that left the flag set. */
  lemma CorrectionOnlyOnLockingPaths(s: ProviderState, o: FetchOutcome, retryCount: nat)
    ensures AfterFetch(s, o, retryCount) != AfterFetchAsWritten(s, o, retryCount) ==>
      && !s.isManualRefresh
      && s.isRefreshing
      && (o.NoSessionToken? || (o.Failed? && retryCount >= MaxRetryCount))
  {
  }
}
