/** The watchdog over the web process: it counts unresponsive replies, first kills the process
    with a signal and later asks for the browser to be deactivated.
  */
module Watchdog {
  import opened Basics

  /** Both settings are 16-bit numbers of seconds. */
  type Seconds = x: nat | x < 0x1_0000

  datatype Config = Config(threshold: Seconds, interval: Seconds)

  const COUNTER_SIZE: nat := 0x1_0000_0000

  datatype Reason = Failure | WatchdogExpired

  datatype Action = Signal | Deactivate(reason: Reason)

  datatype Event =
    | CheckStarted
    | Reply(responsive: bool)
    | BecameResponsive
    | Suspension(suspended: bool)

  predicate Enabled(c: Config) {
    c.threshold != 0 && c.interval != 0
  }

  /** Unresponsive replies to wait for before the process counts as hung. */
  function Limit(c: Config): nat
    requires Enabled(c)
  {
    c.threshold / c.interval
  }

  // ---------------------------------------------------------------------------
  // The counter
  // ---------------------------------------------------------------------------

  /** The fields of the watchdog; the counter is a 32-bit number. */
  datatype Dog = Dog(inProgress: bool, unresponsive: nat, suspended: bool)

  /** The reply to a running check is counted, and decides what to do. */
  function CountReply(limit: nat, d: Dog, responsive: bool): (Dog, seq<Action>) {
    var idle := d.(inProgress := false);
    if responsive && d.unresponsive == 0 then (idle, [])
    else
      var num := if responsive then 0 else (d.unresponsive + 1) % COUNTER_SIZE;
      var counted := idle.(unresponsive := num);
      if !responsive && d.suspended then
        if num <= limit then (idle.(unresponsive := limit), [Signal])
        else (counted, [Deactivate(Failure)])
      else if num == limit then (counted, [Signal])
      else if num == 2 * limit then (counted, [Deactivate(WatchdogExpired)])
      else (counted, [])
  }

  function ReplyActions(c: Config, d: Dog, responsive: bool): (Dog, seq<Action>) {
    if !Enabled(c) || !d.inProgress then (d, []) else CountReply(Limit(c), d, responsive)
  }

  function DogStep(c: Config, d: Dog, e: Event): (Dog, seq<Action>) {
    match e
    case CheckStarted => (d.(inProgress := true), [])
    case Reply(responsive) => ReplyActions(c, d, responsive)
    case BecameResponsive => (d.(unresponsive := 0), [])
    case Suspension(suspended) => (d.(suspended := suspended), [])
  }

  function DogAfter(c: Config, events: seq<Event>, k: nat): Dog
    requires k <= |events|
  {
    if k == 0 then Dog(false, 0, false) else DogStep(c, DogAfter(c, events, k - 1), events[k - 1]).0
  }

  /** What the watchdog does on event `k`. */
  function ActionsAt(c: Config, events: seq<Event>, k: nat): seq<Action>
    requires k < |events|
  {
    DogStep(c, DogAfter(c, events, k), events[k]).1
  }

  // ---------------------------------------------------------------------------
  // The policy, in terms of episodes
  // ---------------------------------------------------------------------------

  /** An episode starts when the process recovers: how many unresponsive replies it has had, and which of
      them was answered with the signal. */
  datatype Episode = Episode(
    inProgress: bool, suspended: bool, replies: nat, signalledAt: Option<nat>)

  /** The event is a reply to a check, and the process did not respond. */
  predicate Unresponsive(p: Episode, e: Event) {
    e.Reply? && p.inProgress && !e.responsive
  }

  /** The event reports that the process responds. */
  predicate Recovers(p: Episode, e: Event) {
    e.BecameResponsive? || (e.Reply? && p.inProgress && e.responsive)
  }

  /** The signal is due once an episode: at the limit, or at once when suspended. Deactivation is due
      after that: at any reply while suspended, otherwise `limit` replies later. */
  function Due(limit: nat, p: Episode, e: Event): seq<Action> {
    if !Unresponsive(p, e) then []
    else
      var j := p.replies + 1;
      match p.signalledAt
      case None => if p.suspended || j == limit then [Signal] else []
      case Some(at) =>
        if p.suspended then [Deactivate(Failure)]
        else if j == at + limit then [Deactivate(WatchdogExpired)] else []
  }

  function PolicyStep(limit: nat, p: Episode, e: Event): Episode {
    var checked := match e
                   case CheckStarted => p.(inProgress := true)
                   case Reply(_) => p.(inProgress := false)
                   case Suspension(suspended) => p.(suspended := suspended)
                   case BecameResponsive => p;
    if Recovers(p, e) then checked.(replies := 0, signalledAt := None)
    else if Unresponsive(p, e) then
      checked.(replies := p.replies + 1,
               signalledAt := if Due(limit, p, e) == [Signal] then Some(p.replies + 1) else p.signalledAt)
    else checked
  }

  function EpisodeAfter(limit: nat, events: seq<Event>, k: nat): Episode
    requires k <= |events|
  {
    if k == 0 then Episode(false, false, 0, None)
    else PolicyStep(limit, EpisodeAfter(limit, events, k - 1), events[k - 1])
  }

  // ---------------------------------------------------------------------------
  // The counter carries out the policy
  // ---------------------------------------------------------------------------

  /** What the counter would read without wrapping once the event has been counted. */
  function TrueCount(limit: nat, p: Episode, at: nat): nat
    requires at <= p.replies
  {
    limit + (p.replies - at) + 1
  }

  /** The event is an unresponsive reply, after the signal of its episode, for which the count has passed
      the 32 bits of the counter and the counter, wrapped, is taken for an early one. */
  predicate Misfires(limit: nat, p: Episode, e: Event) {
    && Unresponsive(p, e) && p.signalledAt.Some? && p.signalledAt.value <= p.replies
    && var count := TrueCount(limit, p, p.signalledAt.value);
       var num := count % COUNTER_SIZE;
       && count >= COUNTER_SIZE
       && if p.suspended then num <= limit else num == limit || num == 2 * limit
  }

  /** The one number stands for the count and the place of the signal, modulo its size. */
  ghost predicate Tracks(limit: nat, d: Dog, p: Episode) {
    && d.inProgress == p.inProgress && d.suspended == p.suspended
    && match p.signalledAt
       case None => d.unresponsive == p.replies < limit
       case Some(at) => 1 <= at <= p.replies && d.unresponsive == (limit + (p.replies - at)) % COUNTER_SIZE
  }

  /** A counted reply is answered with what is due exactly when it does not misfire, and then the counter
      goes on in line with the policy. */
  lemma CountTracks(limit: nat, d: Dog, p: Episode, responsive: bool)
    requires 1 <= limit < 0x1_0000 && d.inProgress && Tracks(limit, d, p)
    ensures CountReply(limit, d, responsive).1 == Due(limit, p, Reply(responsive))
            <==> !Misfires(limit, p, Reply(responsive))
    ensures !Misfires(limit, p, Reply(responsive)) ==>
              Tracks(limit, CountReply(limit, d, responsive).0, PolicyStep(limit, p, Reply(responsive)))
  {
    if responsive {
    } else if p.signalledAt.Some? {
      NextCount(limit + (p.replies - p.signalledAt.value));
      if TrueCount(limit, p, p.signalledAt.value) < COUNTER_SIZE {
        SmallCount(TrueCount(limit, p, p.signalledAt.value));
      }
    } else {
      SmallCount(d.unresponsive + 1);
      SmallCount(limit);
    }
  }

  lemma SmallCount(n: nat)
    requires n < COUNTER_SIZE
    ensures n % COUNTER_SIZE == n
  {
  }

  lemma NextCount(k: nat)
    ensures (k % COUNTER_SIZE + 1) % COUNTER_SIZE == (k + 1) % COUNTER_SIZE
  {
  }

  lemma LimitIsSmall(c: Config)
    requires Enabled(c)
    ensures Limit(c) < 0x1_0000
  {
    var q := Limit(c);
    assert c.threshold == q * c.interval + c.threshold % c.interval;
    assert q * c.interval >= q;
  }

  lemma StepTracks(c: Config, d: Dog, p: Episode, e: Event)
    requires Enabled(c) && Limit(c) >= 1 && Tracks(Limit(c), d, p)
    ensures DogStep(c, d, e).1 == Due(Limit(c), p, e) <==> !Misfires(Limit(c), p, e)
    ensures !Misfires(Limit(c), p, e) ==>
              Tracks(Limit(c), DogStep(c, d, e).0, PolicyStep(Limit(c), p, e))
  {
    LimitIsSmall(c);
    if e.Reply? && d.inProgress {
      CountTracks(Limit(c), d, p, e.responsive);
    }
  }

  /** Event `k` misfires. */
  predicate MisfiresAt(limit: nat, events: seq<Event>, k: nat)
    requires k < |events|
  {
    Misfires(limit, EpisodeAfter(limit, events, k), events[k])
  }

  /** The watchdog answers event `k` with what is due. */
  predicate AsDue(c: Config, events: seq<Event>, k: nat)
    requires Enabled(c) && k < |events|
  {
    ActionsAt(c, events, k) == Due(Limit(c), EpisodeAfter(Limit(c), events, k), events[k])
  }

  /** None of the first `k` events misfires. */
  ghost predicate NoMisfires(limit: nat, events: seq<Event>, k: nat)
    requires k <= |events|
  {
    forall i :: 0 <= i < k ==> !MisfiresAt(limit, events, i)
  }

  ghost predicate AllAsDue(c: Config, events: seq<Event>, k: nat)
    requires Enabled(c) && k <= |events|
  {
    forall i :: 0 <= i < k ==> AsDue(c, events, i)
  }

  /** The counter is in line with the policy before event `k`. */
  ghost predicate InLine(c: Config, events: seq<Event>, k: nat)
    requires Enabled(c) && k <= |events|
  {
    Tracks(Limit(c), DogAfter(c, events, k), EpisodeAfter(Limit(c), events, k))
  }

  lemma InLineStep(c: Config, events: seq<Event>, k: nat)
    requires Enabled(c) && Limit(c) >= 1 && k < |events| && InLine(c, events, k)
    ensures AsDue(c, events, k) <==> !MisfiresAt(Limit(c), events, k)
    ensures !MisfiresAt(Limit(c), events, k) ==> InLine(c, events, k + 1)
  {
    StepTracks(c, DogAfter(c, events, k), EpisodeAfter(Limit(c), events, k), events[k]);
  }

  /** Of every trace, however long, the watchdog answers the first `k` events exactly as the policy says if
      and only if none of them misfires. */
  lemma {:induction false} CounterFollowsPolicy(c: Config, events: seq<Event>, k: nat)
    requires Enabled(c) && Limit(c) >= 1 && k <= |events|
    ensures AllAsDue(c, events, k) <==> NoMisfires(Limit(c), events, k)
    ensures NoMisfires(Limit(c), events, k) ==> InLine(c, events, k)
  {
    if k == 0 {
    } else {
      CounterFollowsPolicy(c, events, k - 1);
      if NoMisfires(Limit(c), events, k - 1) {
        InLineStep(c, events, k - 1);
      }
    }
  }

  /** A process that never answers any of `n` checks. */
  function Hang(n: nat): seq<Event> {
    seq(2 * n, i => if i % 2 == 0 then CheckStarted else Reply(false))
  }

  lemma {:induction false} HangCounts(c: Config, n: nat, k: nat)
    requires Enabled(c) && Limit(c) >= 1 && k <= n
    ensures DogAfter(c, Hang(n), 2 * k) == Dog(false, k % COUNTER_SIZE, false)
  {
    if k == 0 {
    } else {
      HangCounts(c, n, k - 1);
      HangChecks(c, n, k);
      HangReply(Limit(c), (k - 1) % COUNTER_SIZE);
      NextCount(k - 1);
    }
  }

  /** The `j`-th check of a hang. */
  lemma HangChecks(c: Config, n: nat, j: nat)
    requires 1 <= j <= n
    ensures Hang(n)[2 * j - 1] == Reply(false)
    ensures DogAfter(c, Hang(n), 2 * j - 1) == DogAfter(c, Hang(n), 2 * j - 2).(inProgress := true)
    ensures DogAfter(c, Hang(n), 2 * j) == DogStep(c, DogAfter(c, Hang(n), 2 * j - 1), Reply(false)).0
  {
    assert Hang(n)[2 * j - 2] == CheckStarted;
  }

  lemma HangReply(limit: nat, m: nat)
    requires limit >= 1
    ensures CountReply(limit, Dog(true, m, false), false).0 == Dog(false, (m + 1) % COUNTER_SIZE, false)
    ensures CountReply(limit, Dog(true, m, false), false).1 == [Signal] <==> (m + 1) % COUNTER_SIZE == limit
  {
    var num := (m + 1) % COUNTER_SIZE;
    assert num != limit ==> CountReply(limit, Dog(true, m, false), false).1 != [Signal];
  }

  /** In a hang without end the wrap shows: the signal is sent with every reply whose number modulo 2^32 is
      the number of check intervals in the threshold, not only with the first of them. */
  lemma HangSignalsAgain(c: Config, n: nat, j: nat)
    requires 1 <= c.interval <= c.threshold && 1 <= j <= n
    ensures ActionsAt(c, Hang(n), 2 * j - 1) == [Signal] <==> Intervals(c, j % 0x1_0000_0000)
  {
    LimitInSeconds(c, 1);
    LimitInSeconds(c, j % COUNTER_SIZE);
    LimitIsZeroExactly(c);
    HangCounts(c, n, j - 1);
    HangChecks(c, n, j);
    HangReply(Limit(c), (j - 1) % COUNTER_SIZE);
    NextCount(j - 1);
  }

  /** The threshold has room for `n` check intervals and no more. */
  predicate Intervals(c: Config, n: nat) {
    n * c.interval <= c.threshold < (n + 1) * c.interval
  }

  lemma LimitInSeconds(c: Config, n: nat)
    requires Enabled(c)
    ensures Limit(c) == n <==> Intervals(c, n)
  {
    var q, i := Limit(c), c.interval;
    assert c.threshold == q * i + c.threshold % i;
    if n < q {
      Products(n + 1, q, i);
    } else if n > q {
      Products(q + 1, n, i);
    }
  }

  lemma {:induction false} Products(a: nat, b: nat, i: nat)
    requires a <= b
    ensures a * i <= b * i
  {
    if a < b {
      Products(a, b - 1, i);
    }
  }

  /** Event `k` ends an episode. */
  predicate EndsEpisode(limit: nat, events: seq<Event>, k: nat)
    requires k < |events|
  {
    Recovers(EpisodeAfter(limit, events, k), events[k])
  }

  ghost predicate SameEpisode(limit: nat, events: seq<Event>, i: nat, k: nat)
    requires i <= k <= |events|
  {
    forall m :: i <= m < k ==> !EndsEpisode(limit, events, m)
  }

  /** A signal was sent at event `i`, in the episode that is still going on at `k`. */
  ghost predicate SignalledAt(c: Config, events: seq<Event>, i: nat, k: nat)
    requires Enabled(c) && i < k <= |events|
  {
    ActionsAt(c, events, i) == [Signal] && SameEpisode(Limit(c), events, i, k)
  }

  lemma SignalledStep(c: Config, events: seq<Event>, i: nat, k: nat)
    requires Enabled(c) && i < k - 1 && k <= |events|
    ensures SignalledAt(c, events, i, k) <==>
            SignalledAt(c, events, i, k - 1) && !EndsEpisode(Limit(c), events, k - 1)
  {
  }

  /** Signals are remembered for the rest of their episode, and only then. */
  lemma {:induction false} SignalsRemembered(c: Config, events: seq<Event>, k: nat)
    requires Enabled(c) && Limit(c) >= 1 && k <= |events| && NoMisfires(Limit(c), events, k)
    ensures EpisodeAfter(Limit(c), events, k).signalledAt.Some? <==>
            exists i :: 0 <= i < k && SignalledAt(c, events, i, k)
  {
    if k == 0 {
    } else {
      var limit := Limit(c);
      SignalsRemembered(c, events, k - 1);
      CounterFollowsPolicy(c, events, k);
      assert AsDue(c, events, k - 1);
      if EpisodeAfter(limit, events, k).signalledAt.Some? {
        if ActionsAt(c, events, k - 1) == [Signal] {
          assert SignalledAt(c, events, k - 1, k);
        } else {
          var i :| 0 <= i < k - 1 && SignalledAt(c, events, i, k - 1);
          SignalledStep(c, events, i, k);
        }
      } else {
        forall i | 0 <= i < k
          ensures !SignalledAt(c, events, i, k)
        {
          if i < k - 1 {
            SignalledStep(c, events, i, k);
          }
        }
      }
    }
  }

  /** On every trace without a misfire: an episode has at most one signal; a deactivation is only asked for
      in an episode that had its signal at an earlier event; and an event that reports recovery does
      neither. */
  lemma SignalThenDeactivate(c: Config, events: seq<Event>, k: nat)
    requires Enabled(c) && Limit(c) >= 1 && k < |events| && NoMisfires(Limit(c), events, k + 1)
    ensures ActionsAt(c, events, k) == [Signal] ==>
              forall i :: 0 <= i < k ==> !SignalledAt(c, events, i, k)
    ensures ActionsAt(c, events, k) != [] && ActionsAt(c, events, k) != [Signal] ==>
              exists i :: 0 <= i < k && SignalledAt(c, events, i, k)
    ensures EndsEpisode(Limit(c), events, k) ==> ActionsAt(c, events, k) == []
  {
    CounterFollowsPolicy(c, events, k + 1);
    assert AsDue(c, events, k);
    SignalsRemembered(c, events, k);
  }

  /** A reply that reports recovery triggers nothing exactly when the hang threshold is at least the
      check interval. With a shorter threshold the limit is zero, and the process that has just
      recovered is sent the signal. */
  lemma RecoveryIsHarmlessExactly(c: Config, d: Dog)
    requires Enabled(c) && d.inProgress && d.unresponsive != 0
    ensures ReplyActions(c, d, true).1 == [] <==> c.threshold >= c.interval
    ensures c.threshold < c.interval ==> ReplyActions(c, d, true).1 == [Signal]
  {
    LimitIsZeroExactly(c);
  }

  lemma LimitIsZeroExactly(c: Config)
    requires Enabled(c)
    ensures Limit(c) == 0 <==> c.threshold < c.interval
  {
    QuotientIsZeroExactly(c.threshold, c.interval);
  }

  lemma QuotientIsZeroExactly(t: nat, i: nat)
    requires i > 0
    ensures t / i == 0 <==> t < i
  {
    var q := t / i;
    assert t == q * i + t % i;
    if q >= 1 {
      assert q * i >= i;
    }
  }

  class WebProcessWatchdog {
    const config: Config
    var webProcessCheckInProgress: bool
    var unresponsiveReplyNum: nat
    var suspended: bool

    ghost function Now(): Dog
      reads this
    {
      Dog(webProcessCheckInProgress, unresponsiveReplyNum, suspended)
    }

    constructor (config: Config)
      ensures this.config == config && Now() == Dog(false, 0, false)
    {
      this.config := config;
      webProcessCheckInProgress, unresponsiveReplyNum, suspended := false, 0, false;
    }

    /** Starts a check unless one is running; true when the process is asked. */
    method CheckWebProcess() returns (asked: bool)
      modifies `webProcessCheckInProgress
      ensures Now() == DogStep(config, old(Now()), CheckStarted).0
      ensures asked == !old(webProcessCheckInProgress)
    {
      if webProcessCheckInProgress {
        return false;
      }
      webProcessCheckInProgress := true;
      asked := true;
    }

    method DidReceiveWebProcessResponsivenessReply(isWebProcessResponsive: bool) returns (actions: seq<Action>)
      modifies `webProcessCheckInProgress, `unresponsiveReplyNum
      ensures (Now(), actions) == DogStep(config, old(Now()), Reply(isWebProcessResponsive))
    {
      actions := [];
      if config.threshold == 0 || config.interval == 0 {
        return;
      }
      var limit := config.threshold / config.interval;
      if !webProcessCheckInProgress {
        return;
      }
      webProcessCheckInProgress := false;
      if isWebProcessResponsive && unresponsiveReplyNum == 0 {
        return;
      }
      if isWebProcessResponsive {
        unresponsiveReplyNum := 0;
      } else {
        unresponsiveReplyNum := (unresponsiveReplyNum + 1) % COUNTER_SIZE;
      }
      if !isWebProcessResponsive && suspended {
        if unresponsiveReplyNum <= limit {
          unresponsiveReplyNum := limit;
          actions := [Signal];
        } else {
          actions := [Deactivate(Failure)];
        }
        return;
      }
      if unresponsiveReplyNum == limit {
        actions := [Signal];
      } else if unresponsiveReplyNum == 2 * limit {
        actions := [Deactivate(WatchdogExpired)];
      }
    }

    method IsWebProcessResponsiveCallback(responsive: bool)
      modifies `unresponsiveReplyNum
      ensures Now() == if responsive then DogStep(config, old(Now()), BecameResponsive).0 else old(Now())
    {
      if responsive {
        if unresponsiveReplyNum > 0 {
          unresponsiveReplyNum := 0;
        }
      }
    }
  }
}
