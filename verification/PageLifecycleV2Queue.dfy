/** The queue of the second lifecycle version as an object: the methods update its fields in place and
    do what the steps of `PageLifecycleV2` describe.
  */
module PageLifecycleV2Queue {
  import opened PageLifecycle
  import opened PageLifecycleDelegate
  import opened PageLifecycleV2
  import opened PageLifecycleV2Refinement

  class LifecycleV2 {
    const delegate: Delegate
    var asyncStateChangeInProgress: bool
    var stateChangeQueue: seq<Op>
    var idleCallbacks: seq<nat>
    var scheduled: bool
    ghost var page: Flags
    ghost var enqueued: seq<Op>
    ghost var started: seq<Op>
    ghost var finished: seq<Outcome>
    ghost var effects: seq<Op>
    ghost var marks: seq<nat>
    ghost var ran: seq<CallbackRun>
    var registered: nat

    ghost function Now(): Engine
      reads this, delegate
    {
      Engine(delegate.currState, stateChangeQueue, asyncStateChangeInProgress, idleCallbacks, scheduled, page,
             enqueued, started, finished, effects, marks, ran)
    }

    ghost predicate Valid()
      reads this, delegate
    {
      registered == |marks| && EngineInv(Now())
    }

    /** Creates the view on a page that is not frozen, hides it, and registers the view-ready callback. */
    constructor CreateView(maxMemorySavingIterations: nat, visible: bool, focused: bool)
      ensures fresh(delegate) && Valid()
      ensures Now() == Created(visible, focused)
      ensures delegate.View() == CreatedSaving(maxMemorySavingIterations)
    {
      delegate := new Delegate(maxMemorySavingIterations);
      asyncStateChangeInProgress, scheduled := false, false;
      stateChangeQueue, idleCallbacks := [], [];
      page := Flags(visible, focused, false);
      enqueued, started, finished, effects, marks, ran := [], [], [], [], [], [];
      registered := 0;
      new;
      var ok := SetState(Hidden);
      var id := WhenIdle();
      CreatedEngine(visible, focused);
    }

    method ScheduleNextItemProcessing()
      modifies `scheduled
      ensures Now() == Schedule(old(Now()))
    {
      if scheduled {
        return;
      }
      if stateChangeQueue == [] && idleCallbacks == [] {
        return;
      }
      scheduled := true;
    }

    method EnqueueAsyncChange(change: Op)
      modifies `scheduled, `stateChangeQueue, `enqueued
      ensures Now() == Enqueue(old(Now()), change)
    {
      stateChangeQueue := stateChangeQueue + [change];
      enqueued := enqueued + [change];
      ScheduleNextItemProcessing();
    }

    /** Registers a callback and returns its number. */
    method WhenIdle() returns (id: nat)
      requires registered == |marks|
      modifies `scheduled, `idleCallbacks, `marks, `registered
      ensures Now() == PageLifecycleV2.WhenIdle(old(Now()))
      ensures registered == |marks| && id == old(registered)
    {
      id := registered;
      registered := registered + 1;
      idleCallbacks := idleCallbacks + [id];
      marks := marks + [|enqueued|];
      ScheduleNextItemProcessing();
    }

    method SetState(newState: PageState) returns (ok: bool)
      modifies this, delegate
      ensures Now() == RequestState(old(Now()), newState)
      ensures registered == old(registered)
      ensures delegate.View() == Request(old(delegate.View()), newState)
      ensures ok <==> delegate.currState == newState
    {
      ghost var before := Now();
      var calls;
      ok, calls := delegate.SetState(newState);
      var i := 0;
      while i < |calls|
        invariant 0 <= i <= |calls|
        invariant registered == old(registered)
        invariant delegate.View() == Request(old(delegate.View()), newState)
        invariant EnqueueAll(Now(), calls[i..]) ==
                  EnqueueAll(before.(state := AfterRequest(before.state, newState)), calls)
      {
        EnqueueAsyncChange(calls[i]);
        assert calls[i..][1..] == calls[i + 1..];
        i := i + 1;
      }
    }

    method TryClosePage()
      modifies `scheduled, `stateChangeQueue, `enqueued
      ensures Now() == Enqueue(old(Now()), TryClose)
    {
      EnqueueAsyncChange(TryClose);
    }

    /** One call made by code outside the engine. */
    method Make(call: Call)
      requires registered == |marks|
      modifies this, delegate
      ensures Now() == Perform(old(Now()), call)
      ensures registered == |marks|
      ensures old(Valid()) ==> Valid()
    {
      CallEffect(Now(), call);
      if EngineInv(Now()) {
        CallKeepsEngine(Now(), call, []);
      }
      match call {
        case CallSetState(target) => var ok := SetState(target);
        case CallTryClose => TryClosePage();
        case CallWhenIdle => var id := WhenIdle();
      }
    }

    /** Runs one idle callback, which makes the given calls. */
    method RunIdleCallback(id: nat, calls: seq<Call>)
      requires registered == |marks|
      modifies this, delegate
      ensures Now() == RunCallback(old(Now()), id, calls)
      ensures registered == |marks|
    {
      ran := ran + [CallbackRun(id, |finished|)];
      var i := 0;
      while i < |calls|
        invariant 0 <= i <= |calls|
        invariant registered == |marks|
        invariant PerformCalls(Now(), calls[i..]) == RunCallback(old(Now()), id, calls)
      {
        Make(calls[i]);
        assert calls[i..][1..] == calls[i + 1..];
        i := i + 1;
      }
    }

    /** The front operation leaves the queue, and the next item is scheduled. */
    method FinishFront(ok: bool)
      requires stateChangeQueue != []
      modifies `scheduled, `stateChangeQueue, `asyncStateChangeInProgress, `finished, `effects
      ensures Now() == Finish(old(Now()), ok)
    {
      finished := finished + [Outcome(stateChangeQueue[0], ok)];
      effects := if ok then effects + [stateChangeQueue[0]] else effects;
      stateChangeQueue := stateChangeQueue[1..];
      asyncStateChangeInProgress := false;
      ScheduleNextItemProcessing();
    }

    /** Processes the next item. `accepted` is the page's answer when an operation is started, `work`
        what each idle callback calls. */
    method ProcessNextItem(accepted: bool, work: seq<seq<Call>>)
      requires registered == |marks| && Runnable(Now(), accepted, work)
      modifies this, delegate
      ensures Now() == ProcessNext(old(Now()), accepted, work)
      ensures registered == |marks|
    {
      if asyncStateChangeInProgress {
        return;
      }
      if stateChangeQueue == [] {
        var callbacks := idleCallbacks;
        idleCallbacks := [];
        var i := 0;
        while i < |callbacks|
          invariant 0 <= i <= |callbacks|
          invariant registered == |marks|
          invariant RunBatch(Now(), callbacks[i..], work[i..]) == ProcessNext(old(Now()), accepted, work)
        {
          RunIdleCallback(callbacks[i], work[i]);
          assert callbacks[i..][1..] == callbacks[i + 1..] && work[i..][1..] == work[i + 1..];
          i := i + 1;
        }
        return;
      }
      var stateChange := stateChangeQueue[0];
      started := started + [stateChange];
      asyncStateChangeInProgress := accepted;
      if !asyncStateChangeInProgress {
        FinishFront(stateChange.TryClose?);
      }
    }

    /** The main loop dispatches the scheduled source. */
    method OnIdleSource(accepted: bool, work: seq<seq<Call>>)
      requires Valid() && Enabled(Now(), Dispatch(accepted, work))
      modifies this, delegate
      ensures Valid()
      ensures forall hideBlurs :: Now() == Step(hideBlurs, old(Now()), Dispatch(accepted, work))
      ensures forall hideBlurs :: PageInv(hideBlurs, old(Now())) ==> PageInv(hideBlurs, Now())
    {
      ghost var before := Now();
      StepKeepsEngine(true, before, Dispatch(accepted, work));
      scheduled := false;
      ProcessNextItem(accepted, work);
      forall hideBlurs | PageInv(hideBlurs, before)
        ensures PageInv(hideBlurs, Now())
      {
        StepKeepsPage(hideBlurs, before, Dispatch(accepted, work));
      }
    }

    /** The page completes the operation in flight. */
    method OnCompleted(ret: bool, ghost hideBlurs: bool)
      requires Valid() && asyncStateChangeInProgress
      modifies this
      ensures Valid()
      ensures Now() == Step(hideBlurs, old(Now()), Complete(ret))
      ensures PageInv(hideBlurs, old(Now())) ==> PageInv(hideBlurs, Now())
    {
      ghost var before := Now();
      StepKeepsEngine(hideBlurs, before, Complete(ret));
      page := if ret then Apply(hideBlurs, stateChangeQueue[0], page) else page;
      FinishFront(ret);
      if PageInv(hideBlurs, before) {
        StepKeepsPage(hideBlurs, before, Complete(ret));
      }
    }
  }
}
