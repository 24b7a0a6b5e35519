/** What the queued lifecycle does for a page that cooperates: everything that was asked for is put in flight,
    takes effect, and succeeds.
  */
module PageLifecycleV2Progress {
  import opened PageLifecycle
  import opened PageLifecycleV2
  import opened PageLifecycleV2Refinement
  import opened PageLifecycleV2Failures

  // ---------------------------------------------------------------------------
  // A cooperative page
  // ---------------------------------------------------------------------------

  /** The page accepts the operation that is started, and reports success. Closing is never accepted. */
  predicate Cooperative(e: Engine, event: Event) {
    match event
    case Dispatch(accepted, _) => !e.inProgress && e.queue != [] && !e.queue[0].TryClose? ==> accepted
    case Complete(ok) => ok
    case _ => true
  }

  ghost predicate AllCooperative(hideBlurs: bool, e: Engine, events: seq<Event>)
    requires Legal(hideBlurs, e, events)
    decreases |events|
  {
    events != [] ==>
      Cooperative(e, events[0]) && AllCooperative(hideBlurs, Step(hideBlurs, e, events[0]), events[1..])
  }

  /** An operation that the page accepts is in flight: it stays at the front until it is reported, and a
      report of success gives the page its effect. */
  lemma AcceptedIsInFlight(hideBlurs: bool, e: Engine, work: seq<seq<Call>>, ok: bool)
    requires e.scheduled && !e.inProgress && e.queue != [] && !e.queue[0].TryClose?
    ensures Enabled(e, Dispatch(true, work))
    ensures var flying := Step(hideBlurs, e, Dispatch(true, work));
            && flying.inProgress && flying.queue == e.queue
            && flying.finished == e.finished && flying.page == e.page
            && Enabled(flying, Complete(ok))
            && var landed := Step(hideBlurs, flying, Complete(ok));
               && !landed.inProgress && landed.queue == e.queue[1..]
               && landed.finished == e.finished + [Outcome(e.queue[0], ok)]
               && landed.page == if ok then Apply(hideBlurs, e.queue[0], e.page) else e.page
  {
  }

  lemma StepSucceeds(hideBlurs: bool, e: Engine, event: Event)
    requires Enabled(e, event) && Cooperative(e, event) && AllSucceeded(e.finished)
    ensures AllSucceeded(Step(hideBlurs, e, event).finished)
  {
    match event {
      case Called(call) =>
        CallEffect(e, call);
      case Dispatch(_, work) =>
        if !e.inProgress && e.queue == [] {
          BatchFinishesNothing(e.(scheduled := false, idle := []), e.idle, work);
        }
      case _ =>
    }
  }

  lemma {:induction false} RunSucceeds(hideBlurs: bool, e: Engine, events: seq<Event>)
    requires Legal(hideBlurs, e, events) && AllCooperative(hideBlurs, e, events) && AllSucceeded(e.finished)
    ensures AllSucceeded(Run(hideBlurs, e, events).finished)
    decreases |events|
  {
    if events == [] {
    } else {
      StepSucceeds(hideBlurs, e, events[0]);
      RunSucceeds(hideBlurs, Step(hideBlurs, e, events[0]), events[1..]);
    }
  }

  /** What is going on well: no failure so far, and all invariants. */
  ghost predicate GoingWell(hideBlurs: bool, e: Engine) {
    EngineInv(e) && PageInv(hideBlurs, e) && AllSucceeded(e.finished)
  }

  /** The next step when nothing new is asked for. */
  function NextQuiet(e: Engine): Event {
    if e.inProgress then Complete(true)
    else Dispatch(e.queue != [] && !e.queue[0].TryClose?, seq(|e.idle|, _ => []))
  }

  lemma NextQuietGoesOn(hideBlurs: bool, e: Engine)
    requires GoingWell(hideBlurs, e) && (e.queue != [] || e.idle != [])
    ensures Enabled(e, NextQuiet(e)) && Cooperative(e, NextQuiet(e)) && Quiet(NextQuiet(e))
    ensures var e' := Step(hideBlurs, e, NextQuiet(e));
            GoingWell(hideBlurs, e') && Measure(e') < Measure(e) && e'.state == e.state
  {
    var event := NextQuiet(e);
    StepKeepsEngine(hideBlurs, e, event);
    StepKeepsPage(hideBlurs, e, event);
    StepSucceeds(hideBlurs, e, event);
    QuietStepDecreases(hideBlurs, e, event);
    if !e.inProgress && e.queue == [] {
      QuietBatch(e.(scheduled := false, idle := []), e.idle, event.work);
    }
  }

  lemma {:induction false} Drains(hideBlurs: bool, e: Engine) returns (events: seq<Event>)
    requires GoingWell(hideBlurs, e)
    ensures Legal(hideBlurs, e, events) && AllCooperative(hideBlurs, e, events)
    ensures forall i :: 0 <= i < |events| ==> Quiet(events[i])
    ensures var last := Run(hideBlurs, e, events);
            && GoingWell(hideBlurs, last) && last.queue == [] && last.idle == []
            && last.state == e.state
    decreases Measure(e)
  {
    if e.queue == [] && e.idle == [] {
      events := [];
    } else {
      NextQuietGoesOn(hideBlurs, e);
      var rest := Drains(hideBlurs, Step(hideBlurs, e, NextQuiet(e)));
      events := [NextQuiet(e)] + rest;
      assert events[1..] == rest;
    }
  }

  /** With a cooperative page no operation of any run fails; and every such run can be continued, without
      anything new being asked for, until the queue is empty, all callbacks have run, and the page is
      exactly what the logical state stands for. */
  lemma CooperativePageFollows(hideBlurs: bool, visible: bool, focused: bool, events: seq<Event>)
    returns (more: seq<Event>)
    requires Legal(hideBlurs, Created(visible, focused), events)
    requires AllCooperative(hideBlurs, Created(visible, focused), events)
    ensures var e := Run(hideBlurs, Created(visible, focused), events);
            && AllSucceeded(e.finished)
            && Legal(hideBlurs, e, more) && AllCooperative(hideBlurs, e, more)
            && (forall i :: 0 <= i < |more| ==> Quiet(more[i]))
            && var last := Run(hideBlurs, e, more);
               && last.queue == [] && last.idle == [] && AllSucceeded(last.finished)
               && last.state == e.state && !last.state.Initializing?
               && last.page == StateFlags(last.state)
  {
    var e := Run(hideBlurs, Created(visible, focused), events);
    CreatedEngine(visible, focused);
    RunSucceeds(hideBlurs, Created(visible, focused), events);
    assert Reachable(hideBlurs, e);
    ReachableEngine(hideBlurs, e);
    ReachablePage(hideBlurs, e);
    more := Drains(hideBlurs, e);
    DrainedWell(hideBlurs, Run(hideBlurs, e, more));
  }

  lemma DrainedWell(hideBlurs: bool, e: Engine)
    requires GoingWell(hideBlurs, e) && e.queue == []
    ensures !e.state.Initializing? && e.page == StateFlags(e.state)
  {
    assert Pending(hideBlurs, e) == e.page;
    forall flag
      ensures Get(e.page, flag) == Get(StateFlags(e.state), flag)
    {
      SuccessIsClean(hideBlurs, e.finished, flag);
    }
    SameFlags(e.page, StateFlags(e.state));
  }

  // ---------------------------------------------------------------------------
  // Nothing that was asked for is lost
  // ---------------------------------------------------------------------------

  function Flatten(work: seq<seq<Call>>): seq<Call> {
    if work == [] then [] else work[0] + Flatten(work[1..])
  }

  /** All calls made during a run in order, those of idle callbacks included. */
  ghost function AllCalls(hideBlurs: bool, e: Engine, events: seq<Event>): seq<Call>
    requires Legal(hideBlurs, e, events)
    decreases |events|
  {
    if events == [] then []
    else
      var here :=
        match events[0]
        case Called(call) => [call]
        case Dispatch(_, work) => if !e.inProgress && e.queue == [] then Flatten(work) else []
        case _ => [];
      here + AllCalls(hideBlurs, Step(hideBlurs, e, events[0]), events[1..])
  }

  /** The operations that calls ask for, in order. */
  function OpsOfCalls(state: PageState, calls: seq<Call>): seq<Op>
    decreases |calls|
  {
    if calls == [] then []
    else
      match calls[0]
      case CallSetState(target) =>
        RequestOperations(state, target) + OpsOfCalls(AfterRequest(state, target), calls[1..])
      case CallTryClose => [TryClose] + OpsOfCalls(state, calls[1..])
      case CallWhenIdle => OpsOfCalls(state, calls[1..])
  }

  /** How many callbacks calls register. */
  function Registered(calls: seq<Call>): nat {
    if calls == [] then 0 else (if calls[0].CallWhenIdle? then 1 else 0) + Registered(calls[1..])
  }

  /** The engine has enqueued and registered what the calls ask for, and nothing else. */
  ghost predicate Did(e: Engine, calls: seq<Call>, e': Engine) {
    && e'.state == StateAfter(e.state, Targets(calls))
    && e'.enqueued == e.enqueued + OpsOfCalls(e.state, calls)
    && |e'.marks| == |e.marks| + Registered(calls)
  }

  lemma {:induction false} TargetsCompose(a: seq<Call>, b: seq<Call>)
    ensures Targets(a + b) == Targets(a) + Targets(b)
    ensures Registered(a + b) == Registered(a) + Registered(b)
    decreases |a|
  {
    if a == [] {
      assert a + b == b;
    } else {
      assert (a + b)[0] == a[0] && (a + b)[1..] == a[1..] + b;
      TargetsCompose(a[1..], b);
    }
  }

  lemma {:induction false} OpsCompose(state: PageState, a: seq<Call>, b: seq<Call>)
    ensures OpsOfCalls(state, a + b) == OpsOfCalls(state, a) + OpsOfCalls(StateAfter(state, Targets(a)), b)
    decreases |a|
  {
    if a == [] {
      assert a + b == b;
    } else {
      var next := CallState(state, a[0]);
      OpsCompose(next, a[1..], b);
      FirstCall(state, a);
      FirstCall(state, a + b);
      assert (a + b)[0] == a[0] && (a + b)[1..] == a[1..] + b;
    }
  }

  lemma FirstCall(state: PageState, calls: seq<Call>)
    requires calls != []
    ensures var next := CallState(state, calls[0]);
            && OpsOfCalls(state, calls) == CallOps(state, calls[0]) + OpsOfCalls(next, calls[1..])
            && StateAfter(state, Targets(calls)) == StateAfter(next, Targets(calls[1..]))
  {
    if calls[0].CallSetState? {
      assert Targets(calls)[1..] == Targets(calls[1..]);
    } else {
      assert Targets(calls) == Targets(calls[1..]);
    }
  }

  lemma DidBoth(e: Engine, a: seq<Call>, e': Engine, b: seq<Call>, e'': Engine)
    requires Did(e, a, e') && Did(e', b, e'')
    ensures Did(e, a + b, e'')
  {
    TargetsCompose(a, b);
    OpsCompose(e.state, a, b);
    StateAfterAppend(e.state, Targets(a), Targets(b));
  }

  lemma CallDid(e: Engine, call: Call)
    ensures Did(e, [call], Perform(e, call))
  {
    CallEffect(e, call);
    assert [call][1..] == [];
    assert OpsOfCalls(e.state, [call]) == CallOps(e.state, call);
    assert Targets([call]) == if call.CallSetState? then [call.target] else [];
  }

  lemma {:induction false} CallsDid(e: Engine, calls: seq<Call>)
    ensures Did(e, calls, PerformCalls(e, calls))
    decreases |calls|
  {
    if calls == [] {
    } else {
      CallDid(e, calls[0]);
      CallsDid(Perform(e, calls[0]), calls[1..]);
      DidBoth(e, [calls[0]], Perform(e, calls[0]), calls[1..], PerformCalls(e, calls));
      assert [calls[0]] + calls[1..] == calls;
    }
  }

  lemma {:induction false} BatchDid(e: Engine, batch: seq<nat>, work: seq<seq<Call>>)
    requires |batch| == |work|
    ensures Did(e, Flatten(work), RunBatch(e, batch, work))
    decreases |batch|
  {
    if batch == [] {
    } else {
      var e' := RunCallback(e, batch[0], work[0]);
      CallsDid(e.(ran := e.ran + [CallbackRun(batch[0], |e.finished|)]), work[0]);
      BatchDid(e', batch[1..], work[1..]);
      DidBoth(e, work[0], e', Flatten(work[1..]), RunBatch(e, batch, work));
    }
  }

  lemma StepDid(hideBlurs: bool, e: Engine, event: Event)
    requires Enabled(e, event)
    ensures var calls :=
              match event
              case Called(call) => [call]
              case Dispatch(_, work) => if !e.inProgress && e.queue == [] then Flatten(work) else []
              case _ => [];
            Did(e, calls, Step(hideBlurs, e, event))
  {
    match event {
      case Called(call) =>
        CallDid(e, call);
      case Dispatch(_, work) =>
        if !e.inProgress && e.queue == [] {
          BatchDid(e.(scheduled := false, idle := []), e.idle, work);
        }
      case _ =>
    }
  }

  /** Over every run, the operations enqueued are exactly those that all calls made so far ask for, in the
      order they were made, calls of idle callbacks included; closing is enqueued once for each call for
      it; and one callback is registered for each call for one. */
  lemma {:induction false} RunDid(hideBlurs: bool, e: Engine, events: seq<Event>)
    requires Legal(hideBlurs, e, events)
    ensures Did(e, AllCalls(hideBlurs, e, events), Run(hideBlurs, e, events))
    decreases |events|
  {
    if events == [] {
    } else {
      var e' := Step(hideBlurs, e, events[0]);
      var rest := AllCalls(hideBlurs, e', events[1..]);
      StepDid(hideBlurs, e, events[0]);
      RunDid(hideBlurs, e', events[1..]);
      var here :=
        match events[0]
        case Called(call) => [call]
        case Dispatch(_, work) => if !e.inProgress && e.queue == [] then Flatten(work) else []
        case _ => [];
      DidBoth(e, here, e', rest, Run(hideBlurs, e, events));
    }
  }
}
