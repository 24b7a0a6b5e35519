/** The queued page lifecycle refines the immediate one: the pending operations, applied to the page
    as it is, always lead to the page of the logical state, and with no new work the queue drains.
  */
module PageLifecycleV2Refinement {
  import opened PageLifecycle
  import opened PageLifecycleV2
  import V1 = PageLifecycleV1

  // ---------------------------------------------------------------------------
  // The pending operations lead to the logical state
  // ---------------------------------------------------------------------------

  /** The last finished operation that writes the flag succeeded, or none has written it. */
  predicate Clean(hideBlurs: bool, finished: seq<Outcome>, flag: Flag) {
    if finished == [] then true
    else
      var last := finished[|finished| - 1];
      if Writes(hideBlurs, last.op, flag) then last.ok
      else Clean(hideBlurs, finished[..|finished| - 1], flag)
  }

  /** The page with the pending operations, the one in flight included, applied in order. */
  function Pending(hideBlurs: bool, e: Engine): Flags {
    ApplyAll(hideBlurs, e.queue, e.page)
  }

  /** A flag is accounted for when its last finished write succeeded or a write is still pending.
      Every such flag is on its way to what the logical state stands for. */
  ghost predicate PageInv(hideBlurs: bool, e: Engine) {
    && !e.state.Initializing?
    && forall flag :: Clean(hideBlurs, e.finished, flag) || WritesAny(hideBlurs, e.queue, flag) ==>
         Get(Pending(hideBlurs, e), flag) == Get(StateFlags(e.state), flag)
  }

  lemma {:induction false} WritesAnyAppend(hideBlurs: bool, a: seq<Op>, b: seq<Op>, flag: Flag)
    ensures WritesAny(hideBlurs, a + b, flag) <==> WritesAny(hideBlurs, a, flag) || WritesAny(hideBlurs, b, flag)
  {
    if a == [] {
      assert a + b == b;
    } else {
      assert (a + b)[1..] == a[1..] + b;
      WritesAnyAppend(hideBlurs, a[1..], b, flag);
    }
  }

  lemma AppendKeepsPage(hideBlurs: bool, e: Engine, e': Engine, ops: seq<Op>)
    requires PageInv(hideBlurs, e) && !e'.state.Initializing?
    requires Drives(hideBlurs, ops, e.state, e'.state)
    requires e'.queue == e.queue + ops && e'.page == e.page && e'.finished == e.finished
    ensures PageInv(hideBlurs, e')
  {
    ApplyAllAppend(hideBlurs, e.queue, ops, e.page);
    forall flag | Clean(hideBlurs, e'.finished, flag) || WritesAny(hideBlurs, e'.queue, flag)
      ensures Get(Pending(hideBlurs, e'), flag) == Get(StateFlags(e'.state), flag)
    {
      WritesAnyAppend(hideBlurs, e.queue, ops, flag);
      if WritesAny(hideBlurs, ops, flag) {
        LastWriteWins(hideBlurs, ops, flag, Pending(hideBlurs, e), StateFlags(e.state));
      } else {
        UnwrittenStays(hideBlurs, ops, flag, Pending(hideBlurs, e));
      }
    }
  }

  lemma CallKeepsPage(hideBlurs: bool, e: Engine, call: Call)
    requires PageInv(hideBlurs, e)
    ensures PageInv(hideBlurs, Perform(e, call))
  {
    CallEffect(e, call);
    match call {
      case CallSetState(target) =>
        RequestDrives(hideBlurs, e.state, target);
        AppendKeepsPage(hideBlurs, e, Perform(e, call), RequestOperations(e.state, target));
      case CallTryClose =>
        assert ApplyAll(hideBlurs, [TryClose], StateFlags(e.state)) == StateFlags(e.state);
        AppendKeepsPage(hideBlurs, e, Perform(e, call), [TryClose]);
      case CallWhenIdle =>
        assert e.queue + [] == e.queue;
    }
  }

  lemma {:induction false} CallsKeepPage(hideBlurs: bool, e: Engine, calls: seq<Call>)
    requires PageInv(hideBlurs, e)
    ensures PageInv(hideBlurs, PerformCalls(e, calls))
    decreases |calls|
  {
    if calls == [] {
    } else {
      CallKeepsPage(hideBlurs, e, calls[0]);
      CallsKeepPage(hideBlurs, Perform(e, calls[0]), calls[1..]);
    }
  }

  lemma {:induction false} BatchKeepsPage(hideBlurs: bool, e: Engine, batch: seq<nat>, work: seq<seq<Call>>)
    requires |batch| == |work| && PageInv(hideBlurs, e)
    ensures PageInv(hideBlurs, RunBatch(e, batch, work))
    decreases |batch|
  {
    if batch == [] {
    } else {
      CallsKeepPage(hideBlurs, e.(ran := e.ran + [CallbackRun(batch[0], |e.finished|)]), work[0]);
      BatchKeepsPage(hideBlurs, RunCallback(e, batch[0], work[0]), batch[1..], work[1..]);
    }
  }

  /** The front operation leaves the queue: after success the page has its effect, after failure
      only flags that a later operation writes are still accounted for. */
  lemma FinishKeepsPage(hideBlurs: bool, e: Engine, ok: bool)
    requires PageInv(hideBlurs, e) && e.queue != []
    ensures var applied := if ok then e.(page := Apply(hideBlurs, e.queue[0], e.page)) else e;
            PageInv(hideBlurs, Finish(applied, ok))
  {
    var e' := Finish(if ok then e.(page := Apply(hideBlurs, e.queue[0], e.page)) else e, ok);
    assert e'.finished[..|e'.finished| - 1] == e.finished;
    forall flag | Clean(hideBlurs, e'.finished, flag) || WritesAny(hideBlurs, e'.queue, flag)
      ensures Get(Pending(hideBlurs, e'), flag) == Get(StateFlags(e'.state), flag)
    {
      assert Get(Pending(hideBlurs, e), flag) == Get(StateFlags(e.state), flag);
      if !ok {
        WithoutFront(hideBlurs, e.queue, flag, e.page);
      }
    }
  }

  /** The front operation makes no difference to a flag that it does not write or a later one writes. */
  lemma WithoutFront(hideBlurs: bool, queue: seq<Op>, flag: Flag, page: Flags)
    requires queue != []
    requires Writes(hideBlurs, queue[0], flag) ==> WritesAny(hideBlurs, queue[1..], flag)
    ensures Get(ApplyAll(hideBlurs, queue[1..], page), flag) == Get(ApplyAll(hideBlurs, queue, page), flag)
  {
    var front, rest := queue[0], queue[1..];
    var after := Apply(hideBlurs, front, page);
    if WritesAny(hideBlurs, rest, flag) {
      LastWriteWins(hideBlurs, rest, flag, page, after);
    } else {
      UnwrittenStays(hideBlurs, rest, flag, page);
      UnwrittenStays(hideBlurs, rest, flag, after);
      ApplyWrites(hideBlurs, front, flag, page, page);
    }
  }

  lemma StepKeepsPage(hideBlurs: bool, e: Engine, event: Event)
    requires PageInv(hideBlurs, e) && Enabled(e, event)
    ensures PageInv(hideBlurs, Step(hideBlurs, e, event))
  {
    match event {
      case Called(call) =>
        CallKeepsPage(hideBlurs, e, call);
      case Dispatch(accepted, work) =>
        if !e.inProgress && e.queue == [] {
          BatchKeepsPage(hideBlurs, e.(scheduled := false, idle := []), e.idle, work);
        } else if !e.inProgress && !accepted {
          var begun := e.(scheduled := false, started := e.started + [e.queue[0]]);
          assert PageInv(hideBlurs, begun);
          FinishKeepsPage(hideBlurs, begun, e.queue[0].TryClose?);
        }
      case TakesEffect =>
        var op := e.queue[0];
        assert Apply(hideBlurs, op, Apply(hideBlurs, op, e.page)) == Apply(hideBlurs, op, e.page);
      case Complete(ok) =>
        FinishKeepsPage(hideBlurs, e, ok);
    }
  }

  lemma {:induction false} RunKeepsPage(hideBlurs: bool, e: Engine, events: seq<Event>)
    requires PageInv(hideBlurs, e) && Legal(hideBlurs, e, events)
    ensures PageInv(hideBlurs, Run(hideBlurs, e, events))
    decreases |events|
  {
    if events == [] {
    } else {
      StepKeepsPage(hideBlurs, e, events[0]);
      RunKeepsPage(hideBlurs, Step(hideBlurs, e, events[0]), events[1..]);
    }
  }

  lemma CreatedPage(hideBlurs: bool, visible: bool, focused: bool)
    ensures PageInv(hideBlurs, Created(visible, focused))
  {
    CreatedEngine(visible, focused);
    FirstRequestHides(hideBlurs, Flags(visible, focused, false));
  }

  predicate AllSucceeded(finished: seq<Outcome>) {
    forall i :: 0 <= i < |finished| ==> finished[i].ok
  }

  lemma {:induction false} SuccessIsClean(hideBlurs: bool, finished: seq<Outcome>, flag: Flag)
    requires AllSucceeded(finished)
    ensures Clean(hideBlurs, finished, flag)
  {
    if finished == [] {
    } else {
      SuccessIsClean(hideBlurs, finished[..|finished| - 1], flag);
    }
  }

  /** In every reachable state in which no operation has failed, the pending operations applied in
      order to the page as it is give exactly the flags that the logical state stands for. */
  lemma PendingReachesState(hideBlurs: bool, e: Engine)
    requires Reachable(hideBlurs, e) && AllSucceeded(e.finished)
    ensures !e.state.Initializing?
    ensures Pending(hideBlurs, e) == StateFlags(e.state)
  {
    ReachablePage(hideBlurs, e);
    forall flag
      ensures Get(Pending(hideBlurs, e), flag) == Get(StateFlags(e.state), flag)
    {
      SuccessIsClean(hideBlurs, e.finished, flag);
    }
    SameFlags(Pending(hideBlurs, e), StateFlags(e.state));
  }

  lemma SameFlags(p: Flags, q: Flags)
    requires forall flag :: Get(p, flag) == Get(q, flag)
    ensures p == q
  {
    assert Get(p, VisibleFlag) == Get(q, VisibleFlag);
    assert Get(p, FocusedFlag) == Get(q, FocusedFlag);
    assert Get(p, FrozenFlag) == Get(q, FrozenFlag);
  }

  lemma ReachablePage(hideBlurs: bool, e: Engine)
    requires Reachable(hideBlurs, e)
    ensures PageInv(hideBlurs, e)
  {
    var visible, focused, events :| Legal(hideBlurs, Created(visible, focused), events)
                                    && e == Run(hideBlurs, Created(visible, focused), events);
    CreatedPage(hideBlurs, visible, focused);
    RunKeepsPage(hideBlurs, Created(visible, focused), events);
  }

  // ---------------------------------------------------------------------------
  // Agreement with the first version
  // ---------------------------------------------------------------------------

  function Targets(calls: seq<Call>): seq<PageState> {
    if calls == [] then []
    else (if calls[0].CallSetState? then [calls[0].target] else []) + Targets(calls[1..])
  }

  function AllTargets(work: seq<seq<Call>>): seq<PageState> {
    if work == [] then [] else Targets(work[0]) + AllTargets(work[1..])
  }

  /** The state requests of a run, those made by idle callbacks included. */
  ghost function Requests(hideBlurs: bool, e: Engine, events: seq<Event>): seq<PageState>
    requires Legal(hideBlurs, e, events)
    decreases |events|
  {
    if events == [] then []
    else
      var here :=
        match events[0]
        case Called(call) => Targets([call])
        case Dispatch(_, work) => if !e.inProgress && e.queue == [] then AllTargets(work) else []
        case _ => [];
      here + Requests(hideBlurs, Step(hideBlurs, e, events[0]), events[1..])
  }

  function StateAfter(s: PageState, targets: seq<PageState>): PageState
    decreases |targets|
  {
    if targets == [] then s else StateAfter(AfterRequest(s, targets[0]), targets[1..])
  }

  lemma {:induction false} StateAfterAppend(s: PageState, a: seq<PageState>, b: seq<PageState>)
    ensures StateAfter(s, a + b) == StateAfter(StateAfter(s, a), b)
    decreases |a|
  {
    if a == [] {
      assert a + b == b;
    } else {
      assert (a + b)[1..] == a[1..] + b;
      StateAfterAppend(AfterRequest(s, a[0]), a[1..], b);
    }
  }

  lemma {:induction false} CallsState(e: Engine, calls: seq<Call>)
    ensures PerformCalls(e, calls).state == StateAfter(e.state, Targets(calls))
    decreases |calls|
  {
    if calls == [] {
    } else {
      CallEffect(e, calls[0]);
      CallsState(Perform(e, calls[0]), calls[1..]);
      StateAfterAppend(e.state, if calls[0].CallSetState? then [calls[0].target] else [], Targets(calls[1..]));
    }
  }

  lemma {:induction false} BatchState(e: Engine, batch: seq<nat>, work: seq<seq<Call>>)
    requires |batch| == |work|
    ensures RunBatch(e, batch, work).state == StateAfter(e.state, AllTargets(work))
    decreases |batch|
  {
    if batch == [] {
    } else {
      CallsState(e.(ran := e.ran + [CallbackRun(batch[0], |e.finished|)]), work[0]);
      BatchState(RunCallback(e, batch[0], work[0]), batch[1..], work[1..]);
      StateAfterAppend(e.state, Targets(work[0]), AllTargets(work[1..]));
    }
  }

  lemma {:induction false} RunState(hideBlurs: bool, e: Engine, events: seq<Event>)
    requires Legal(hideBlurs, e, events)
    ensures Run(hideBlurs, e, events).state == StateAfter(e.state, Requests(hideBlurs, e, events))
    decreases |events|
  {
    if events == [] {
    } else {
      var e' := Step(hideBlurs, e, events[0]);
      var rest := Requests(hideBlurs, e', events[1..]);
      RunState(hideBlurs, e', events[1..]);
      match events[0] {
        case Called(call) =>
          CallsState(e, [call]);
          assert PerformCalls(e, [call]) == e';
          StateAfterAppend(e.state, Targets([call]), rest);
        case Dispatch(accepted, work) =>
          if !e.inProgress && e.queue == [] {
            BatchState(e.(scheduled := false, idle := []), e.idle, work);
            StateAfterAppend(e.state, AllTargets(work), rest);
          } else {
            assert [] + rest == rest;
          }
        case _ =>
          assert [] + rest == rest;
      }
    }
  }

  lemma {:induction false} RunV1State(v: V1.View, targets: seq<PageState>)
    ensures V1.RunV1(v, targets).state == StateAfter(v.state, targets)
    decreases |targets|
  {
    if targets == [] {
    } else {
      RunV1State(V1.RequestV1(v, targets[0]), targets[1..]);
    }
  }

  /** Once the queue is empty with every operation successful, the page and the logical state are
      those that the first version reaches with the same requests. */
  lemma DrainedAgreesWithV1(hideBlurs: bool, visible: bool, focused: bool, events: seq<Event>)
    requires Legal(hideBlurs, Created(visible, focused), events)
    requires Run(hideBlurs, Created(visible, focused), events).queue == []
    requires AllSucceeded(Run(hideBlurs, Created(visible, focused), events).finished)
    ensures var e := Run(hideBlurs, Created(visible, focused), events);
            var v := V1.RunV1(V1.CreatedV1(), Requests(hideBlurs, Created(visible, focused), events));
            e.state == v.state && e.page == V1.BackendFlags(v.backend)
  {
    var e := Run(hideBlurs, Created(visible, focused), events);
    var requests := Requests(hideBlurs, Created(visible, focused), events);
    CreatedEngine(visible, focused);
    PendingReachesState(hideBlurs, e);
    assert e.page == Pending(hideBlurs, e);
    RunState(hideBlurs, Created(visible, focused), events);
    V1.CreatedInStep();
    V1.RunInStep(V1.CreatedV1(), requests);
    RunV1State(V1.CreatedV1(), requests);
  }

  // ---------------------------------------------------------------------------
  // Progress
  // ---------------------------------------------------------------------------

  function Measure(e: Engine): nat {
    4 * |e.queue| + |e.idle| + (if e.scheduled then 1 else 0) + (if e.inProgress then 0 else 2)
  }

  /** A dispatch whose callbacks call nothing, the page changing, or a completion. */
  predicate Quiet(event: Event) {
    match event
    case Dispatch(_, work) => forall i :: 0 <= i < |work| ==> work[i] == []
    case TakesEffect | Complete(_) => true
    case Called(_) => false
  }

  /** How many dispatches and completions there are. */
  function Moves(events: seq<Event>): nat
    decreases |events|
  {
    if events == [] then 0 else (if events[0].TakesEffect? then 0 else 1) + Moves(events[1..])
  }

  lemma {:induction false} QuietBatch(e: Engine, batch: seq<nat>, work: seq<seq<Call>>)
    requires |batch| == |work|
    requires forall i :: 0 <= i < |work| ==> work[i] == []
    ensures RunBatch(e, batch, work) == e.(ran := RunBatch(e, batch, work).ran)
    decreases |batch|
  {
    if batch == [] {
    } else {
      QuietBatch(RunCallback(e, batch[0], work[0]), batch[1..], work[1..]);
    }
  }

  lemma QuietStepDecreases(hideBlurs: bool, e: Engine, event: Event)
    requires Enabled(e, event) && Quiet(event)
    ensures event.TakesEffect? ==> Measure(Step(hideBlurs, e, event)) == Measure(e)
    ensures !event.TakesEffect? ==> Measure(Step(hideBlurs, e, event)) < Measure(e)
  {
    if event.Dispatch? && !e.inProgress && e.queue == [] {
      QuietBatch(e.(scheduled := false, idle := []), e.idle, event.work);
    }
  }

  lemma {:induction false} QuietRunDecreases(hideBlurs: bool, e: Engine, events: seq<Event>)
    requires Legal(hideBlurs, e, events)
    requires forall i :: 0 <= i < |events| ==> Quiet(events[i])
    ensures Moves(events) + Measure(Run(hideBlurs, e, events)) <= Measure(e)
    decreases |events|
  {
    if events == [] {
    } else {
      QuietStepDecreases(hideBlurs, e, events[0]);
      QuietRunDecreases(hideBlurs, Step(hideBlurs, e, events[0]), events[1..]);
    }
  }

  /** With no new work, a run from a reachable state has no more dispatches and completions than the
      measure, however often the page changes in between, and where it can go no further nothing is
      queued, nobody waits, and everything that was enqueued has finished. */
  lemma QuietRunDrains(hideBlurs: bool, e: Engine, events: seq<Event>)
    requires Reachable(hideBlurs, e) && Legal(hideBlurs, e, events)
    requires forall i :: 0 <= i < |events| ==> Quiet(events[i])
    ensures Moves(events) <= Measure(e)
    ensures var last := Run(hideBlurs, e, events);
            (forall event :: Quiet(event) ==> !Enabled(last, event)) ==>
              last.queue == [] && last.idle == [] && OpsOf(last.finished) == last.enqueued
  {
    QuietRunDecreases(hideBlurs, e, events);
    ReachableEngine(hideBlurs, e);
    RunKeepsEngine(hideBlurs, e, events);
    var last := Run(hideBlurs, e, events);
    if last.inProgress {
      assert Quiet(Complete(true)) && Enabled(last, Complete(true));
    } else if last.scheduled {
      var work := seq(|last.idle|, i => []);
      assert Quiet(Dispatch(false, work)) && Enabled(last, Dispatch(false, work));
    } else {
      assert OpsOf(last.finished) + last.queue == OpsOf(last.finished);
    }
  }
}
