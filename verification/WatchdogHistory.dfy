/** The watchdog told from the events of a trace and the configured seconds alone: when it signals, when it
    asks for deactivation, and when it does nothing.
  */
module WatchdogHistory {
  import opened Basics
  import opened Watchdog

  // ---------------------------------------------------------------------------
  // What has happened before an event
  // ---------------------------------------------------------------------------

  /** A check is running before event `k`. */
  predicate Checking(events: seq<Event>, k: nat)
    requires k <= |events|
  {
    k > 0 && (events[k - 1].CheckStarted? || (!events[k - 1].Reply? && Checking(events, k - 1)))
  }

  /** The browser is suspended before event `k`. */
  predicate SuspendedBefore(events: seq<Event>, k: nat)
    requires k <= |events|
  {
    k > 0 && if events[k - 1].Suspension? then events[k - 1].suspended else SuspendedBefore(events, k - 1)
  }

  /** Event `k` is a reply to a check, and the process did not respond. */
  predicate Unanswered(events: seq<Event>, k: nat)
    requires k < |events|
  {
    events[k] == Reply(false) && Checking(events, k)
  }

  /** Event `k` reports that the process responds. */
  predicate Recovered(events: seq<Event>, k: nat)
    requires k < |events|
  {
    events[k].BecameResponsive? || (events[k] == Reply(true) && Checking(events, k))
  }

  /** How many unresponsive replies there have been before event `k` since the process last responded. */
  function Streak(events: seq<Event>, k: nat): nat
    requires k <= |events|
  {
    if k == 0 || Recovered(events, k - 1) then 0
    else Streak(events, k - 1) + if Unanswered(events, k - 1) then 1 else 0
  }

  /** One of these replies came while suspended. */
  predicate SuspendedInStreak(events: seq<Event>, k: nat)
    requires k <= |events|
  {
    && k > 0 && !Recovered(events, k - 1)
    && (SuspendedInStreak(events, k - 1) || (Unanswered(events, k - 1) && SuspendedBefore(events, k - 1)))
  }

  // ---------------------------------------------------------------------------
  // A process that hangs while the browser is not suspended
  // ---------------------------------------------------------------------------

  lemma {:induction false} CounterIsStreak(c: Config, events: seq<Event>, k: nat)
    requires Enabled(c) && k <= |events|
    ensures DogAfter(c, events, k).inProgress == Checking(events, k)
    ensures DogAfter(c, events, k).suspended == SuspendedBefore(events, k)
    ensures !SuspendedInStreak(events, k) ==> DogAfter(c, events, k).unresponsive == Streak(events, k) % COUNTER_SIZE
  {
    if k == 0 {
    } else {
      CounterIsStreak(c, events, k - 1);
      NextCount(Streak(events, k - 1));
    }
  }

  /** Without suspended replies in the streak, the `j`-th unresponsive reply of every trace is answered with the
      signal exactly when the threshold has room for `j` check intervals and no more, with expiry exactly
      when `j` is twice such a number, and otherwise with nothing; `j` counts modulo 2^32. */
  lemma UnsuspendedEpisode(c: Config, events: seq<Event>, k: nat)
    requires 1 <= c.interval <= c.threshold && k < |events|
    requires Unanswered(events, k) && !SuspendedBefore(events, k) && !SuspendedInStreak(events, k)
    ensures var j := (Streak(events, k) + 1) % 0x1_0000_0000;
            ActionsAt(c, events, k) ==
            if Intervals(c, j) then [Signal]
            else if j % 2 == 0 && Intervals(c, j / 2) then [Deactivate(WatchdogExpired)]
            else []
  {
    var j := (Streak(events, k) + 1) % COUNTER_SIZE;
    CounterIsStreak(c, events, k);
    NextCount(Streak(events, k));
    LimitIsZeroExactly(c);
    LimitInSeconds(c, j);
    LimitInSeconds(c, j / 2);
  }

  /** Without a threshold or without an interval the watchdog never does anything. */
  lemma NothingWithoutSettings(c: Config, events: seq<Event>, k: nat)
    requires (c.threshold == 0 || c.interval == 0) && k < |events|
    ensures ActionsAt(c, events, k) == []
  {
  }

  // ---------------------------------------------------------------------------
  // Suspended replies, and replies after the signal
  // ---------------------------------------------------------------------------

  lemma {:induction false} EpisodeIsStreak(limit: nat, events: seq<Event>, k: nat)
    requires k <= |events|
    ensures var p := EpisodeAfter(limit, events, k);
            && p.inProgress == Checking(events, k) && p.suspended == SuspendedBefore(events, k)
            && p.replies == Streak(events, k)
  {
    if k == 0 {
    } else {
      EpisodeIsStreak(limit, events, k - 1);
    }
  }

  /** The signal was sent at event `i`, and the process has not responded from there to event `k`. */
  ghost predicate SignalledSince(c: Config, events: seq<Event>, i: nat, k: nat)
    requires i < k <= |events|
  {
    ActionsAt(c, events, i) == [Signal] && forall m :: i <= m < k ==> !Recovered(events, m)
  }

  lemma SinceIsAt(c: Config, events: seq<Event>, i: nat, k: nat)
    requires Enabled(c) && i < k <= |events|
    ensures SignalledSince(c, events, i, k) <==> SignalledAt(c, events, i, k)
  {
    forall m | i <= m < k
      ensures EndsEpisode(Limit(c), events, m) <==> Recovered(events, m)
    {
      EpisodeIsStreak(Limit(c), events, m);
    }
  }

  /** A reply while suspended signals when there was no signal since the process last responded, and asks for
      deactivation when there was one. */
  lemma SuspendedReply(c: Config, events: seq<Event>, k: nat)
    requires 1 <= c.interval <= c.threshold && k < |events| && NoMisfires(Limit(c), events, k + 1)
    requires Unanswered(events, k) && SuspendedBefore(events, k)
    ensures ActionsAt(c, events, k) ==
            if exists i :: 0 <= i < k && SignalledSince(c, events, i, k) then [Deactivate(Failure)] else [Signal]
  {
    LimitIsZeroExactly(c);
    CounterFollowsPolicy(c, events, k + 1);
    assert AsDue(c, events, k);
    EpisodeIsStreak(Limit(c), events, k);
    SignalsRemembered(c, events, k);
    forall i | 0 <= i < k
      ensures SignalledSince(c, events, i, k) <==> SignalledAt(c, events, i, k)
    {
      SinceIsAt(c, events, i, k);
    }
  }

  /** The episode remembers which reply was answered with the signal. */
  lemma {:induction false} SignalPlace(c: Config, events: seq<Event>, i: nat, k: nat)
    requires Enabled(c) && Limit(c) >= 1 && i < k <= |events| && NoMisfires(Limit(c), events, k)
    requires SignalledAt(c, events, i, k)
    ensures EpisodeAfter(Limit(c), events, k).signalledAt == Some(Streak(events, i) + 1)
    decreases k
  {
    CounterFollowsPolicy(c, events, k);
    assert AsDue(c, events, i) && AsDue(c, events, k - 1);
    assert !EndsEpisode(Limit(c), events, k - 1);
    if k == i + 1 {
      EpisodeIsStreak(Limit(c), events, i);
    } else {
      SignalledStep(c, events, i, k);
      SignalPlace(c, events, i, k - 1);
    }
  }

  /** After the signal, an unresponsive reply while not suspended asks for expiry exactly when it is the last of
      as many replies since the signal as the threshold has room for check intervals. */
  lemma ExpiryAfterSignal(c: Config, events: seq<Event>, i: nat, k: nat)
    requires 1 <= c.interval <= c.threshold && i < k < |events| && NoMisfires(Limit(c), events, k + 1)
    requires SignalledSince(c, events, i, k) && Unanswered(events, k) && !SuspendedBefore(events, k)
    ensures Streak(events, i) <= Streak(events, k)
    ensures ActionsAt(c, events, k) ==
            if Intervals(c, Streak(events, k) - Streak(events, i)) then [Deactivate(WatchdogExpired)] else []
  {
    LimitIsZeroExactly(c);
    SinceIsAt(c, events, i, k);
    SignalPlace(c, events, i, k);
    CounterFollowsPolicy(c, events, k + 1);
    assert InLine(c, events, k) by {
      CounterFollowsPolicy(c, events, k);
    }
    assert AsDue(c, events, k);
    EpisodeIsStreak(Limit(c), events, k);
    LimitInSeconds(c, Streak(events, k) - Streak(events, i));
  }
}
