/** The part of the page lifecycle that both engine versions share: the logical page state and the
    timer that asks the engine to release memory while the page is hidden or frozen.
  */
module PageLifecycleDelegate {
  import opened PageLifecycle

  /** The state of a delegate, with two counters of the pressure events it has sent:
      since memory saving was last enabled, and in the present hidden or frozen stretch. */
  datatype Saving = Saving(
    state: PageState, armed: bool, iteration: nat, limit: nat,
    sinceEnabled: nat, inStretch: nat)

  datatype SavingEvent = StateRequested(target: PageState) | TimerFired

  predicate OutOfSight(s: PageState) {
    s.Hidden? || s.Frozen?
  }

  function Enable(m: Saving): Saving {
    if m.armed || m.limit == 0 then m else m.(armed := true, iteration := 0, sinceEnabled := 0)
  }

  function Disable(m: Saving): Saving {
    m.(armed := false)
  }

  function ChangeTo(m: Saving, next: PageState): Saving {
    var timed :=
      if next.Passive? && (m.state.Hidden? || m.state.Initializing?) then Disable(m)
      else if next.Hidden? && (m.state.Initializing? || m.state.Passive?) then Enable(m)
      else m;
    timed.(state := next, inStretch := if OutOfSight(next) then m.inStretch else 0)
  }

  function Request(m: Saving, target: PageState): Saving
    decreases Distance(m.state, target)
  {
    if !Accepted(m.state, target) then m
    else
      NextStateApproaches(m.state, target);
      Request(ChangeTo(m, NextState(m.state, target)), target)
  }

  function Timeout(m: Saving): Saving {
    if !OutOfSight(m.state) then m.(armed := false, iteration := 0)
    else
      m.(iteration := m.iteration + 1, armed := m.iteration + 1 < m.limit,
         sinceEnabled := m.sinceEnabled + 1, inStretch := m.inStretch + 1)
  }

  /** The effect of an event; a timer that is not armed cannot fire. */
  function OnEvent(m: Saving, event: SavingEvent): Saving {
    match event
    case StateRequested(target) => Request(m, target)
    case TimerFired => if m.armed then Timeout(m) else m
  }

  function RunSaving(m: Saving, events: seq<SavingEvent>): Saving
    decreases |events|
  {
    if events == [] then m else RunSaving(OnEvent(m, events[0]), events[1..])
  }

  /** The delegate as view creation leaves it. */
  function CreatedSaving(limit: nat): Saving {
    Request(Saving(Initializing, false, 0, limit, 0, 0), Hidden)
  }

  ghost predicate SavingInv(m: Saving) {
    && (m.armed ==> OutOfSight(m.state) || m.state.Terminated?)
    && (m.armed ==> m.iteration == m.sinceEnabled < m.limit)
    && (OutOfSight(m.state) ==> m.inStretch == if m.armed then m.iteration else m.limit)
    && (!OutOfSight(m.state) ==> m.inStretch == 0)
  }

  lemma ChangeKeepsSaving(m: Saving, next: PageState)
    requires SavingInv(m) && Edge(m.state, next)
    ensures SavingInv(ChangeTo(m, next))
  {
  }

  lemma {:induction false} RequestKeepsSaving(m: Saving, target: PageState)
    requires SavingInv(m) || m == Saving(Initializing, false, 0, m.limit, 0, 0)
    ensures SavingInv(Request(m, target))
    ensures Request(m, target).state == AfterRequest(m.state, target)
    ensures Request(m, target).limit == m.limit
    decreases Distance(m.state, target)
  {
    if Accepted(m.state, target) {
      NextStateApproaches(m.state, target);
      ChangeKeepsSaving(m, NextState(m.state, target));
      RequestKeepsSaving(ChangeTo(m, NextState(m.state, target)), target);
    }
  }

  /** Under every interleaving of requests and timeouts, the timer is armed only in Hidden, Frozen or
      Terminated; while armed, its iteration counts the events sent since it was enabled and is below
      the limit; a stretch out of sight sends at most `limit` events, exactly `limit` once the timer
      has stopped by itself. */
  lemma {:induction false} TimerStaysBounded(limit: nat, events: seq<SavingEvent>)
    ensures SavingInv(RunSaving(CreatedSaving(limit), events))
    ensures RunSaving(CreatedSaving(limit), events).limit == limit
    ensures RunSaving(CreatedSaving(limit), events).inStretch <= limit
  {
    RequestKeepsSaving(Saving(Initializing, false, 0, limit, 0, 0), Hidden);
    RunKeepsSaving(CreatedSaving(limit), events);
  }

  lemma {:induction false} RunKeepsSaving(m: Saving, events: seq<SavingEvent>)
    requires SavingInv(m)
    ensures SavingInv(RunSaving(m, events)) && RunSaving(m, events).limit == m.limit
    decreases |events|
  {
    if events == [] {
    } else {
      if events[0].StateRequested? {
        RequestKeepsSaving(m, events[0].target);
      }
      RunKeepsSaving(OnEvent(m, events[0]), events[1..]);
    }
  }

  /** How many pressure events a run sends. */
  function Sent(m: Saving, events: seq<SavingEvent>): nat
    decreases |events|
  {
    if events == [] then 0
    else (if events[0].TimerFired? && m.armed && OutOfSight(m.state) then 1 else 0)
         + Sent(OnEvent(m, events[0]), events[1..])
  }

  /** The page is out of sight before and after every event. */
  ghost predicate StaysOutOfSight(m: Saving, events: seq<SavingEvent>)
    decreases |events|
  {
    OutOfSight(m.state) && (events != [] ==> StaysOutOfSight(OnEvent(m, events[0]), events[1..]))
  }

  /** No continuation of a reachable state sends more than `limit` events while the page
      stays out of sight. */
  lemma {:induction false} StretchIsBounded(limit: nat, before: seq<SavingEvent>, events: seq<SavingEvent>)
    requires StaysOutOfSight(RunSaving(CreatedSaving(limit), before), events)
    ensures Sent(RunSaving(CreatedSaving(limit), before), events) <= limit
  {
    TimerStaysBounded(limit, before);
    SentIsCounted(RunSaving(CreatedSaving(limit), before), events);
  }

  lemma {:induction false} SentIsCounted(m: Saving, events: seq<SavingEvent>)
    requires SavingInv(m) && StaysOutOfSight(m, events)
    ensures m.inStretch + Sent(m, events) <= m.limit
    decreases |events|
  {
    if events == [] {
    } else {
      var m' := OnEvent(m, events[0]);
      if events[0].StateRequested? {
        RequestKeepsSaving(m, events[0].target);
        RequestOutOfSight(m, events[0].target);
      }
      SentIsCounted(m', events[1..]);
    }
  }

  /** What is left of the timer after termination: it may fire once more, sends nothing then, and is
      stopped for the rest of the run. */
  lemma {:induction false} TerminatedTimerStops(m: Saving, events: seq<SavingEvent>)
    requires m.state.Terminated?
    ensures var last := RunSaving(m, events);
            && last.state.Terminated? && Sent(m, events) == 0
            && (TimerFired in events ==> !last.armed)
            && (!m.armed ==> !last.armed)
    decreases |events|
  {
    if events == [] {
    } else {
      var m' := OnEvent(m, events[0]);
      assert m'.state.Terminated? && (events[0].TimerFired? || !m.armed ==> !m'.armed);
      TerminatedTimerStops(m', events[1..]);
    }
  }

  function Firings(k: nat): seq<SavingEvent> {
    seq(k, _ => TimerFired)
  }

  /** A page left hidden is sent all the events: each firing below the limit sends one, and the timer stops
      with the last. */
  lemma {:induction false} HiddenPageIsSentAll(m: Saving, k: nat)
    requires OutOfSight(m.state) && SavingInv(m) && m.inStretch + k <= m.limit
    ensures Sent(m, Firings(k)) == k
    ensures var last := RunSaving(m, Firings(k));
            last.inStretch == m.inStretch + k && (last.armed <==> last.inStretch < last.limit) && last.limit == m.limit
    decreases k
  {
    if k == 0 {
    } else {
      var m' := OnEvent(m, TimerFired);
      assert Firings(k)[0] == TimerFired && Firings(k)[1..] == Firings(k - 1);
      assert m'.inStretch == m.inStretch + 1 && m'.state == m.state && m'.limit == m.limit;
      HiddenPageIsSentAll(m', k - 1);
    }
  }

  lemma RequestOutOfSight(m: Saving, target: PageState)
    requires OutOfSight(m.state) && OutOfSight(Request(m, target).state)
    ensures Request(m, target).inStretch == m.inStretch
  {
    if Accepted(m.state, target) {
      NextStateApproaches(m.state, target);
      var m' := ChangeTo(m, NextState(m.state, target));
      assert Request(m, target) == Request(m', target);
      RequestKeepsStateOnly(m', target);
    }
  }

  lemma {:induction false} RequestKeepsStateOnly(m: Saving, target: PageState)
    ensures Request(m, target).state == AfterRequest(m.state, target)
    decreases Distance(m.state, target)
  {
    if Accepted(m.state, target) {
      NextStateApproaches(m.state, target);
      RequestKeepsStateOnly(ChangeTo(m, NextState(m.state, target)), target);
    }
  }

  /** One step of a request, for the delegate and for the calls it makes. */
  lemma RequestUnfolds(m: Saving, target: PageState)
    requires Accepted(m.state, target)
    ensures var next := NextState(m.state, target);
            && Distance(next, target) < Distance(m.state, target)
            && (next == target || Accepted(next, target))
            && Request(m, target) == Request(ChangeTo(m, next), target)
            && RequestOperations(m.state, target) == Operations(m.state, next) + RequestOperations(next, target)
  {
    NextStateApproaches(m.state, target);
  }

  lemma RequestEnds(m: Saving, target: PageState)
    requires m.state == target
    ensures Request(m, target) == m && RequestOperations(m.state, target) == []
  {
  }

  lemma Associate(a: seq<Op>, b: seq<Op>, c: seq<Op>)
    ensures a + (b + c) == a + b + c
  {
  }

  /** The logical state and the timer, with the calls that a state change makes on the page
      returned in the order they are made. */
  class Delegate {
    var currState: PageState
    const maxMemorySavingIterations: nat
    var timerArmed: bool
    var timerIteration: nat
    ghost var sinceEnabled: nat
    ghost var inStretch: nat

    ghost function View(): Saving
      reads this
    {
      Saving(currState, timerArmed, timerIteration, maxMemorySavingIterations, sinceEnabled, inStretch)
    }

    constructor (maxMemorySavingIterations: nat)
      ensures View() == Saving(Initializing, false, 0, maxMemorySavingIterations, 0, 0)
    {
      this.maxMemorySavingIterations := maxMemorySavingIterations;
      currState := Initializing;
      timerArmed, timerIteration := false, 0;
      sinceEnabled, inStretch := 0, 0;
    }

    method EnableMemorySaving()
      modifies this
      ensures View() == Enable(old(View()))
    {
      if timerArmed {
        return;
      }
      if maxMemorySavingIterations > 0 {
        timerIteration := 0;
        timerArmed := true;
        sinceEnabled := 0;
      }
    }

    method DisableMemorySaving()
      modifies this
      ensures View() == Disable(old(View()))
    {
      if !timerArmed {
        return;
      }
      timerArmed := false;
    }

    /** The timer fires; `pressure` tells whether a pressure event is sent. */
    method OnMemorySavingTimerTimeout() returns (pressure: bool)
      requires timerArmed
      modifies this
      ensures View() == Timeout(old(View()))
      ensures pressure == OutOfSight(currState)
    {
      timerArmed := false;
      if currState != Hidden && currState != Frozen {
        timerIteration := 0;
        pressure := false;
      } else {
        pressure := true;
        sinceEnabled, inStretch := sinceEnabled + 1, inStretch + 1;
        timerIteration := timerIteration + 1;
        if timerIteration < maxMemorySavingIterations {
          timerArmed := true;
        }
      }
    }

    method ChangeState(newState: PageState) returns (calls: seq<Op>)
      modifies this
      ensures View() == ChangeTo(old(View()), newState)
      ensures calls == Operations(old(currState), newState)
    {
      calls := [];
      match newState {
        case Active =>
          if currState == Initializing {
            calls := calls + [Show];
          }
          calls := calls + [Focus];
        case Passive =>
          match currState {
            case Active =>
              calls := calls + [Blur];
            case Hidden | Initializing =>
              DisableMemorySaving();
              calls := calls + [Show];
            case _ =>
          }
        case Hidden =>
          if currState == Initializing {
            calls := calls + [Blur];
          }
          match currState {
            case Initializing | Passive =>
              EnableMemorySaving();
              calls := calls + [Hide];
            case Frozen =>
              calls := calls + [Resume];
            case _ =>
          }
        case Frozen =>
          calls := calls + [Freeze];
        case Terminated | Initializing =>
      }
      currState := newState;
      inStretch := if OutOfSight(newState) then inStretch else 0;
    }

    /** One step of a request: nearer to the target, with the rest of the request unchanged. */
    method Advance(target: PageState) returns (calls: seq<Op>)
      requires Accepted(currState, target)
      modifies this
      ensures Distance(currState, target) < Distance(old(currState), target)
      ensures currState == target || Accepted(currState, target)
      ensures Request(View(), target) == Request(old(View()), target)
      ensures calls + RequestOperations(currState, target) == RequestOperations(old(currState), target)
    {
      RequestUnfolds(View(), target);
      calls := ChangeState(NextState(currState, target));
    }

    /** Takes the page to `newState` step by step; true exactly when it is there afterwards. */
    method SetState(newState: PageState) returns (ok: bool, calls: seq<Op>)
      modifies this
      ensures View() == Request(old(View()), newState)
      ensures currState == AfterRequest(old(currState), newState)
      ensures calls == RequestOperations(old(currState), newState)
      ensures ok <==> currState == newState
    {
      ghost var goal, allCalls := Request(View(), newState), RequestOperations(currState, newState);
      calls := [];
      if currState == newState {
        return true, calls;
      }
      if newState == Initializing {
        return false, calls;
      }
      if currState == Terminated {
        return false, calls;
      }
      calls := Advance(newState);
      while currState != newState
        invariant currState == newState || Accepted(currState, newState)
        invariant Request(View(), newState) == goal
        invariant calls + RequestOperations(currState, newState) == allCalls
        decreases Distance(currState, newState)
      {
        var more := Advance(newState);
        Associate(calls, more, RequestOperations(currState, newState));
        calls := calls + more;
      }
      RequestEnds(View(), newState);
      ok := true;
    }
  }
}
