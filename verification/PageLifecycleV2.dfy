/** The second version of the page lifecycle: operations are queued and carried out one at a time by
    the main loop, and callbacks wait until the queue is empty.

    The environment is the main loop, which dispatches the scheduled source, and the page, which
    completes an operation that it accepted. It never completes one while it is being started.
  */
module PageLifecycleV2 {
  import opened PageLifecycle

  /** An operation that is no longer queued, and whether the page reported success. */
  datatype Outcome = Outcome(op: Op, ok: bool)

  /** A callback that was run, and how many operations had finished by then. */
  datatype CallbackRun = CallbackRun(id: nat, finishedBefore: nat)

  /** The engine with its history. Idle callbacks are named by their registration number;
      `marks[id]` is the number of operations enqueued before callback `id` was registered.
      `effects` are the operations that took effect on the page, whatever they reported. */
  datatype Engine = Engine(
    state: PageState, queue: seq<Op>, inProgress: bool, idle: seq<nat>, scheduled: bool, page: Flags,
    enqueued: seq<Op>, started: seq<Op>, finished: seq<Outcome>, effects: seq<Op>,
    marks: seq<nat>, ran: seq<CallbackRun>)

  /** What code outside the engine, idle callbacks included, can ask of it. */
  datatype Call = CallSetState(target: PageState) | CallTryClose | CallWhenIdle

  /** A step of the system. The fields of Dispatch and Complete are the environment's choices:
      whether the page accepts the operation it is asked to start, what each idle callback calls,
      and whether the operation succeeds. TakesEffect is the page changing before it says so. */
  datatype Event =
    | Called(call: Call)
    | Dispatch(accepted: bool, work: seq<seq<Call>>)
    | TakesEffect
    | Complete(ok: bool)

  // ---------------------------------------------------------------------------
  // Steps
  // ---------------------------------------------------------------------------

  function Schedule(e: Engine): Engine {
    if e.queue == [] && e.idle == [] then e else e.(scheduled := true)
  }

  function Enqueue(e: Engine, op: Op): Engine {
    Schedule(e.(queue := e.queue + [op], enqueued := e.enqueued + [op]))
  }

  function EnqueueAll(e: Engine, ops: seq<Op>): Engine
    decreases |ops|
  {
    if ops == [] then e else EnqueueAll(Enqueue(e, ops[0]), ops[1..])
  }

  function RequestState(e: Engine, target: PageState): Engine {
    EnqueueAll(e.(state := AfterRequest(e.state, target)), RequestOperations(e.state, target))
  }

  function WhenIdle(e: Engine): Engine {
    Schedule(e.(idle := e.idle + [|e.marks|], marks := e.marks + [|e.enqueued|]))
  }

  function Perform(e: Engine, call: Call): Engine {
    match call
    case CallSetState(target) => RequestState(e, target)
    case CallTryClose => Enqueue(e, TryClose)
    case CallWhenIdle => WhenIdle(e)
  }

  function PerformCalls(e: Engine, calls: seq<Call>): Engine
    decreases |calls|
  {
    if calls == [] then e else PerformCalls(Perform(e, calls[0]), calls[1..])
  }

  function RunCallback(e: Engine, id: nat, calls: seq<Call>): Engine {
    PerformCalls(e.(ran := e.ran + [CallbackRun(id, |e.finished|)]), calls)
  }

  /** Runs the callbacks of a batch that was taken from the idle list. */
  function RunBatch(e: Engine, batch: seq<nat>, work: seq<seq<Call>>): Engine
    requires |batch| == |work|
    decreases |batch|
  {
    if batch == [] then e else RunBatch(RunCallback(e, batch[0], work[0]), batch[1..], work[1..])
  }

  /** The front operation leaves the queue. */
  function Finish(e: Engine, ok: bool): Engine
    requires e.queue != []
  {
    Schedule(e.(queue := e.queue[1..], inProgress := false,
                finished := e.finished + [Outcome(e.queue[0], ok)],
                effects := if ok then e.effects + [e.queue[0]] else e.effects))
  }

  /** The engine runs one item. An operation that the page does not accept is dropped; closing is
      never accepted, since nothing reports its completion. */
  function ProcessNext(e: Engine, accepted: bool, work: seq<seq<Call>>): Engine
    requires Runnable(e, accepted, work)
  {
    if e.inProgress then e
    else if e.queue == [] then RunBatch(e.(idle := []), e.idle, work)
    else
      var begun := e.(started := e.started + [e.queue[0]]);
      if accepted then begun.(inProgress := true) else Finish(begun, e.queue[0].TryClose?)
  }

  /** The environment's choices fit the item that is to be run. */
  predicate Runnable(e: Engine, accepted: bool, work: seq<seq<Call>>) {
    !e.inProgress ==>
      && (e.queue == [] ==> |work| == |e.idle|)
      && (e.queue != [] && e.queue[0].TryClose? ==> !accepted)
  }

  predicate Enabled(e: Engine, event: Event) {
    match event
    case Called(_) => true
    case Dispatch(accepted, work) => e.scheduled && Runnable(e, accepted, work)
    case TakesEffect | Complete(_) => e.inProgress && e.queue != []
  }

  function Step(hideBlurs: bool, e: Engine, event: Event): Engine
    requires Enabled(e, event)
  {
    match event
    case Called(call) => Perform(e, call)
    case Dispatch(accepted, work) => ProcessNext(e.(scheduled := false), accepted, work)
    case TakesEffect =>
      e.(page := Apply(hideBlurs, e.queue[0], e.page), effects := e.effects + [e.queue[0]])
    case Complete(ok) =>
      Finish(if ok then e.(page := Apply(hideBlurs, e.queue[0], e.page)) else e, ok)
  }

  ghost predicate Legal(hideBlurs: bool, e: Engine, events: seq<Event>)
    decreases |events|
  {
    events != [] ==> Enabled(e, events[0]) && Legal(hideBlurs, Step(hideBlurs, e, events[0]), events[1..])
  }

  ghost function Run(hideBlurs: bool, e: Engine, events: seq<Event>): Engine
    requires Legal(hideBlurs, e, events)
    decreases |events|
  {
    if events == [] then e else Run(hideBlurs, Step(hideBlurs, e, events[0]), events[1..])
  }

  /** View creation: the page, not frozen but otherwise unknown, is asked to hide, and the
      view-ready callback, number 0, is registered. */
  function Created(visible: bool, focused: bool): Engine {
    WhenIdle(RequestState(
      Engine(Initializing, [], false, [], false, Flags(visible, focused, false), [], [], [], [], [], []), Hidden))
  }

  // ---------------------------------------------------------------------------
  // Queue and callback invariants
  // ---------------------------------------------------------------------------

  function OpsOf(outcomes: seq<Outcome>): seq<Op> {
    seq(|outcomes|, i requires 0 <= i < |outcomes| => outcomes[i].op)
  }

  function IdsOf(runs: seq<CallbackRun>): seq<nat> {
    seq(|runs|, i requires 0 <= i < |runs| => runs[i].id)
  }

  function FirstNumbers(n: nat): seq<nat> {
    seq(n, i => i)
  }

  /** What was enqueued is what has finished followed by what is queued. What was started is what has
      finished and, while an operation is in flight, the front of the queue. */
  ghost predicate QueueInv(e: Engine) {
    && e.enqueued == OpsOf(e.finished) + e.queue
    && e.started == OpsOf(e.finished) + (if e.inProgress then e.queue[..if e.queue == [] then 0 else 1] else [])
    && (e.inProgress ==> e.queue != [])
  }

  /** Work that waits for nothing in flight has a scheduled source, and a source is only scheduled when
      there is something besides the operation in flight. */
  ghost predicate WakeupInv(e: Engine) {
    && (!e.inProgress && (e.queue != [] || e.idle != []) ==> e.scheduled)
    && (e.scheduled ==> |e.queue| > (if e.inProgress then 1 else 0) || e.idle != [])
  }

  /** `batch` holds callbacks taken from the idle list that have not run yet. Those that ran, those in
      the batch and those waiting are all callbacks in registration order, and none ran before
      everything enqueued ahead of its registration had finished. */
  ghost predicate CallbackInv(e: Engine, batch: seq<nat>) {
    && IdsOf(e.ran) + batch + e.idle == FirstNumbers(|e.marks|)
    && (forall i :: 0 <= i < |e.marks| ==> e.marks[i] <= |e.enqueued|)
    && (forall i :: 0 <= i < |e.ran| && i < |e.marks| ==> e.marks[i] <= e.ran[i].finishedBefore <= |e.finished|)
  }

  /** Every callback of the batch waits for nothing more. */
  ghost predicate BatchReady(e: Engine, batch: seq<nat>) {
    forall k :: 0 <= k < |batch| ==> batch[k] < |e.marks| && e.marks[batch[k]] <= |e.finished|
  }

  ghost predicate EngineInv(e: Engine) {
    QueueInv(e) && WakeupInv(e) && CallbackInv(e, [])
  }

  lemma {:induction false} EnqueueAllEffect(e: Engine, ops: seq<Op>)
    ensures EnqueueAll(e, ops) ==
            e.(queue := e.queue + ops, enqueued := e.enqueued + ops,
               scheduled := e.scheduled || ops != [])
    decreases |ops|
  {
    if ops == [] {
      assert e.queue + ops == e.queue && e.enqueued + ops == e.enqueued;
    } else {
      EnqueueAllEffect(Enqueue(e, ops[0]), ops[1..]);
      assert e.queue + [ops[0]] + ops[1..] == e.queue + ops;
      assert e.enqueued + [ops[0]] + ops[1..] == e.enqueued + ops;
    }
  }

  /** The operations that a call enqueues. */
  function CallOps(state: PageState, call: Call): seq<Op> {
    match call
    case CallSetState(target) => RequestOperations(state, target)
    case CallTryClose => [TryClose]
    case CallWhenIdle => []
  }

  function CallState(state: PageState, call: Call): PageState {
    match call
    case CallSetState(target) => AfterRequest(state, target)
    case _ => state
  }

  /** A call appends operations or one callback; it finishes nothing, runs nothing and leaves
      the page alone. */
  lemma CallEffect(e: Engine, call: Call)
    ensures var ops := CallOps(e.state, call);
            Perform(e, call) ==
            e.(state := CallState(e.state, call),
               queue := e.queue + ops, enqueued := e.enqueued + ops,
               idle := if call.CallWhenIdle? then e.idle + [|e.marks|] else e.idle,
               marks := if call.CallWhenIdle? then e.marks + [|e.enqueued|] else e.marks,
               scheduled := e.scheduled || ops != [] || call.CallWhenIdle?)
  {
    match call {
      case CallSetState(target) =>
        EnqueueAllEffect(e.(state := AfterRequest(e.state, target)), RequestOperations(e.state, target));
      case CallTryClose =>
      case CallWhenIdle =>
        assert e.queue + [] == e.queue && e.enqueued + [] == e.enqueued;
    }
  }

  /** Adding operations at the back of the queue, with the source scheduled, keeps everything. */
  lemma AppendKeepsEngine(e: Engine, e': Engine, ops: seq<Op>, batch: seq<nat>)
    requires QueueInv(e) && WakeupInv(e) && CallbackInv(e, batch) && BatchReady(e, batch)
    requires e' == e.(state := e'.state, queue := e.queue + ops, enqueued := e.enqueued + ops,
                      scheduled := e.scheduled || ops != [])
    ensures QueueInv(e') && WakeupInv(e') && CallbackInv(e', batch) && BatchReady(e', batch)
  {
    assert OpsOf(e.finished) + (e.queue + ops) == OpsOf(e.finished) + e.queue + ops;
  }

  lemma RegisterKeepsEngine(e: Engine, batch: seq<nat>)
    requires QueueInv(e) && WakeupInv(e) && CallbackInv(e, batch) && BatchReady(e, batch)
    ensures var e' := WhenIdle(e);
            QueueInv(e') && WakeupInv(e') && CallbackInv(e', batch) && BatchReady(e', batch)
  {
    var e' := WhenIdle(e);
    assert FirstNumbers(|e'.marks|) == FirstNumbers(|e.marks|) + [|e.marks|];
    assert IdsOf(e.ran) + batch + e'.idle == IdsOf(e.ran) + batch + e.idle + [|e.marks|];
  }

  lemma CallKeepsEngine(e: Engine, call: Call, batch: seq<nat>)
    requires QueueInv(e) && WakeupInv(e) && CallbackInv(e, batch) && BatchReady(e, batch)
    ensures var e' := Perform(e, call);
            QueueInv(e') && WakeupInv(e') && CallbackInv(e', batch) && BatchReady(e', batch)
  {
    if call.CallWhenIdle? {
      RegisterKeepsEngine(e, batch);
    } else {
      CallEffect(e, call);
      AppendKeepsEngine(e, Perform(e, call), CallOps(e.state, call), batch);
    }
  }

  lemma {:induction false} CallsKeepEngine(e: Engine, calls: seq<Call>, batch: seq<nat>)
    requires QueueInv(e) && WakeupInv(e) && CallbackInv(e, batch) && BatchReady(e, batch)
    ensures var e' := PerformCalls(e, calls);
            QueueInv(e') && WakeupInv(e') && CallbackInv(e', batch) && BatchReady(e', batch)
    decreases |calls|
  {
    if calls == [] {
    } else {
      CallKeepsEngine(e, calls[0], batch);
      CallsKeepEngine(Perform(e, calls[0]), calls[1..], batch);
    }
  }

  lemma CallbackKeepsEngine(e: Engine, batch: seq<nat>, calls: seq<Call>)
    requires batch != []
    requires QueueInv(e) && WakeupInv(e) && CallbackInv(e, batch) && BatchReady(e, batch)
    ensures var e' := RunCallback(e, batch[0], calls);
            QueueInv(e') && WakeupInv(e') && CallbackInv(e', batch[1..]) && BatchReady(e', batch[1..])
  {
    var noted := e.(ran := e.ran + [CallbackRun(batch[0], |e.finished|)]);
    assert IdsOf(noted.ran) == IdsOf(e.ran) + [batch[0]];
    assert IdsOf(noted.ran) + batch[1..] + e.idle == IdsOf(e.ran) + batch + e.idle;
    assert (IdsOf(e.ran) + batch + e.idle)[|e.ran|] == batch[0];
    assert forall k :: 0 <= k < |batch[1..]| ==> batch[1..][k] == batch[k + 1];
    assert CallbackInv(noted, batch[1..]);
    CallsKeepEngine(noted, calls, batch[1..]);
  }

  lemma {:induction false} BatchKeepsEngine(e: Engine, batch: seq<nat>, work: seq<seq<Call>>)
    requires |batch| == |work|
    requires QueueInv(e) && WakeupInv(e) && CallbackInv(e, batch) && BatchReady(e, batch)
    ensures EngineInv(RunBatch(e, batch, work))
    decreases |batch|
  {
    if batch == [] {
    } else {
      CallbackKeepsEngine(e, batch, work[0]);
      BatchKeepsEngine(RunCallback(e, batch[0], work[0]), batch[1..], work[1..]);
    }
  }

  /** With an empty queue everything has finished, so every waiting callback may run. */
  lemma IdleIsReady(e: Engine)
    requires QueueInv(e) && CallbackInv(e, []) && e.queue == []
    ensures var taken := e.(idle := []);
            CallbackInv(taken, e.idle) && BatchReady(taken, e.idle)
  {
    assert IdsOf(e.ran) + e.idle + [] == IdsOf(e.ran) + [] + e.idle;
    assert |e.enqueued| == |e.finished|;
    forall k | 0 <= k < |e.idle|
      ensures e.idle[k] < |e.marks|
    {
      assert (IdsOf(e.ran) + [] + e.idle)[|e.ran| + k] == e.idle[k];
    }
  }

  /** The front operation was started exactly once before it leaves the queue. */
  lemma FinishKeepsEngine(e: Engine, ok: bool)
    requires e.queue != []
    requires e.enqueued == OpsOf(e.finished) + e.queue
    requires e.started == OpsOf(e.finished) + [e.queue[0]]
    requires CallbackInv(e, []) && (e.scheduled ==> |e.queue| > 1 || e.idle != [])
    ensures EngineInv(Finish(e, ok))
  {
    var e' := Finish(e, ok);
    assert OpsOf(e'.finished) == OpsOf(e.finished) + [e.queue[0]];
    assert e'.enqueued == OpsOf(e'.finished) + e'.queue;
  }

  lemma StepKeepsEngine(hideBlurs: bool, e: Engine, event: Event)
    requires EngineInv(e) && Enabled(e, event)
    ensures EngineInv(Step(hideBlurs, e, event))
  {
    match event {
      case Called(call) =>
        CallKeepsEngine(e, call, []);
      case Dispatch(accepted, work) =>
        var woken := e.(scheduled := false);
        if !e.inProgress && e.queue == [] {
          IdleIsReady(woken);
          BatchKeepsEngine(woken.(idle := []), e.idle, work);
        } else if !e.inProgress {
          var begun := woken.(started := e.started + [e.queue[0]]);
          assert begun.started == OpsOf(e.finished) + [e.queue[0]];
          if !accepted {
            FinishKeepsEngine(begun, e.queue[0].TryClose?);
          }
        }
      case TakesEffect =>
      case Complete(ok) =>
        assert e.queue[..1] == [e.queue[0]];
        FinishKeepsEngine(if ok then e.(page := Apply(hideBlurs, e.queue[0], e.page)) else e, ok);
    }
  }

  lemma CreatedEngine(visible: bool, focused: bool)
    ensures var e := Created(visible, focused);
            && EngineInv(e) && e.state == Hidden && e.queue == e.enqueued == [Blur, Hide]
            && e.marks == [2] && e.page == Flags(visible, focused, false) && e.finished == []
  {
    var e0 := Engine(Initializing, [], false, [], false, Flags(visible, focused, false), [], [], [], [], [], []);
    FirstRequestHides(true, e0.page);
    CallEffect(e0, CallSetState(Hidden));
    var e1 := RequestState(e0, Hidden);
    assert e1.queue == e1.enqueued == [Blur, Hide] && e1.state == Hidden && e1.page == e0.page;
    assert WhenIdle(e1).marks == [2];
  }

  lemma {:induction false} RunKeepsEngine(hideBlurs: bool, e: Engine, events: seq<Event>)
    requires EngineInv(e) && Legal(hideBlurs, e, events)
    ensures EngineInv(Run(hideBlurs, e, events))
    decreases |events|
  {
    if events == [] {
    } else {
      StepKeepsEngine(hideBlurs, e, events[0]);
      RunKeepsEngine(hideBlurs, Step(hideBlurs, e, events[0]), events[1..]);
    }
  }

  /** A state that some run of the system reaches. */
  ghost predicate Reachable(hideBlurs: bool, e: Engine) {
    exists visible, focused, events ::
      Legal(hideBlurs, Created(visible, focused), events)
      && e == Run(hideBlurs, Created(visible, focused), events)
  }

  /** Queue safety in every reachable state: at most one operation is in flight and it is the front
      of the queue; what was enqueued is what finished followed by what is queued; and each operation
      was started once, in that order. */
  lemma QueueIsFifo(hideBlurs: bool, e: Engine)
    requires Reachable(hideBlurs, e)
    ensures e.enqueued == OpsOf(e.finished) + e.queue
    ensures e.started <= e.enqueued
    ensures |e.started| == |e.finished| + if e.inProgress then 1 else 0
    ensures e.inProgress ==> e.queue != [] && e.started[|e.started| - 1] == e.queue[0]
  {
    ReachableEngine(hideBlurs, e);
  }

  /** No wake-up is lost and none is idle: with nothing in flight the source is scheduled exactly when
      work waits; with an operation in flight it is scheduled only for work behind that. */
  lemma NoLostWakeup(hideBlurs: bool, e: Engine)
    requires Reachable(hideBlurs, e)
    ensures !e.inProgress ==> (e.scheduled <==> e.queue != [] || e.idle != [])
    ensures e.inProgress && e.scheduled ==> |e.queue| > 1 || e.idle != []
  {
    ReachableEngine(hideBlurs, e);
  }

  /** Callbacks run in registration order, each at most once, and each only after every operation
      enqueued before its registration has finished. In particular the view is never reported ready
      before the first blur and hide have finished. */
  lemma CallbacksWaitTheirTurn(hideBlurs: bool, e: Engine)
    requires Reachable(hideBlurs, e)
    ensures IdsOf(e.ran) + e.idle == FirstNumbers(|e.marks|)
    ensures forall i :: 0 <= i < |e.ran| ==>
              e.ran[i].id == i < |e.marks| && e.marks[i] <= e.ran[i].finishedBefore <= |e.finished|
    ensures e.ran != [] ==>
              2 <= e.ran[0].finishedBefore && OpsOf(e.finished)[..2] == [Blur, Hide]
  {
    ReachableEngine(hideBlurs, e);
    RanInOrder(e);
    if e.ran != [] {
      assert e.marks[0] == [2][0];
      assert e.marks[0] <= e.ran[0].finishedBefore <= |e.finished|;
      assert OpsOf(e.finished)[..2] == e.enqueued[..2];
    }
  }

  lemma RanInOrder(e: Engine)
    requires CallbackInv(e, [])
    ensures IdsOf(e.ran) + e.idle == FirstNumbers(|e.marks|)
    ensures forall i :: 0 <= i < |e.ran| ==> e.ran[i].id == i < |e.marks|
  {
    assert IdsOf(e.ran) + [] == IdsOf(e.ran);
    forall i | 0 <= i < |e.ran|
      ensures e.ran[i].id == i < |e.marks|
    {
      assert (IdsOf(e.ran) + e.idle)[i] == e.ran[i].id;
    }
  }

  lemma ReachableEngine(hideBlurs: bool, e: Engine)
    requires Reachable(hideBlurs, e)
    ensures EngineInv(e)
    ensures [Blur, Hide] <= e.enqueued && [2] <= e.marks
  {
    var visible, focused, events :| Legal(hideBlurs, Created(visible, focused), events)
                                    && e == Run(hideBlurs, Created(visible, focused), events);
    CreatedEngine(visible, focused);
    RunKeepsEngine(hideBlurs, Created(visible, focused), events);
    RunOnlyAppends(hideBlurs, Created(visible, focused), events);
  }

  // ---------------------------------------------------------------------------
  // Histories only grow
  // ---------------------------------------------------------------------------

  ghost predicate Extends(e: Engine, e': Engine) {
    e.enqueued <= e'.enqueued && e.marks <= e'.marks
  }

  lemma {:induction false} CallsOnlyAppend(e: Engine, calls: seq<Call>)
    ensures Extends(e, PerformCalls(e, calls))
    decreases |calls|
  {
    if calls == [] {
    } else {
      CallEffect(e, calls[0]);
      CallsOnlyAppend(Perform(e, calls[0]), calls[1..]);
    }
  }

  lemma {:induction false} BatchOnlyAppends(e: Engine, batch: seq<nat>, work: seq<seq<Call>>)
    requires |batch| == |work|
    ensures Extends(e, RunBatch(e, batch, work))
    decreases |batch|
  {
    if batch == [] {
    } else {
      CallsOnlyAppend(e.(ran := e.ran + [CallbackRun(batch[0], |e.finished|)]), work[0]);
      BatchOnlyAppends(RunCallback(e, batch[0], work[0]), batch[1..], work[1..]);
    }
  }

  lemma {:induction false} RunOnlyAppends(hideBlurs: bool, e: Engine, events: seq<Event>)
    requires Legal(hideBlurs, e, events)
    ensures Extends(e, Run(hideBlurs, e, events))
    decreases |events|
  {
    if events == [] {
    } else {
      match events[0] {
        case Called(call) =>
          CallEffect(e, call);
        case Dispatch(accepted, work) =>
          if !e.inProgress && e.queue == [] {
            BatchOnlyAppends(e.(scheduled := false, idle := []), e.idle, work);
          }
        case _ =>
      }
      RunOnlyAppends(hideBlurs, Step(hideBlurs, e, events[0]), events[1..]);
    }
  }
}
