/** What failed operations leave behind: when exactly the page agrees with the logical state once the
    queue is empty.
  */
module PageLifecycleV2Failures {
  import opened PageLifecycle
  import opened PageLifecycleV2
  import opened PageLifecycleV2Refinement

  /** The value the last write of the flag sets; `start` if none of the operations writes it. */
  function LastValue(hideBlurs: bool, ops: seq<Op>, flag: Flag, start: bool): bool {
    if ops == [] then start
    else
      var last := ops[|ops| - 1];
      if Writes(hideBlurs, last, flag) then last.Show? || last.Focus? || last.Freeze?
      else LastValue(hideBlurs, ops[..|ops| - 1], flag, start)
  }

  lemma {:induction false} AppliedIsLastValue(hideBlurs: bool, ops: seq<Op>, flag: Flag, page: Flags)
    ensures Get(ApplyAll(hideBlurs, ops, page), flag) == LastValue(hideBlurs, ops, flag, Get(page, flag))
  {
    if ops == [] {
    } else {
      var front, last := ops[..|ops| - 1], ops[|ops| - 1];
      assert ops == front + [last];
      AppliedIsLastValue(hideBlurs, front, flag, page);
      ApplyOneMore(hideBlurs, front, last, page);
    }
  }

  lemma ApplyOneMore(hideBlurs: bool, ops: seq<Op>, op: Op, page: Flags)
    ensures ApplyAll(hideBlurs, ops + [op], page) == Apply(hideBlurs, op, ApplyAll(hideBlurs, ops, page))
  {
    ApplyAllAppend(hideBlurs, ops, [op], page);
  }

  // ---------------------------------------------------------------------------
  // Two histories
  // ---------------------------------------------------------------------------

  /** The page is what the operations that took effect made of the initial one; the logical state is
      what all the enqueued ones would have made of it. */
  ghost predicate TwoHistories(hideBlurs: bool, start: Flags, e: Engine) {
    && !e.state.Initializing?
    && e.page == ApplyAll(hideBlurs, e.effects, start)
    && StateFlags(e.state) == ApplyAll(hideBlurs, e.enqueued, start)
  }

  lemma CallKeepsHistories(hideBlurs: bool, start: Flags, e: Engine, call: Call)
    requires TwoHistories(hideBlurs, start, e)
    ensures TwoHistories(hideBlurs, start, Perform(e, call))
  {
    CallEffect(e, call);
    var ops := CallOps(e.state, call);
    ApplyAllAppend(hideBlurs, e.enqueued, ops, start);
    if call.CallSetState? {
      RequestDrives(hideBlurs, e.state, call.target);
    } else if call.CallTryClose? {
      assert ApplyAll(hideBlurs, [TryClose], StateFlags(e.state)) == StateFlags(e.state);
    }
  }

  lemma {:induction false} CallsKeepHistories(hideBlurs: bool, start: Flags, e: Engine, calls: seq<Call>)
    requires TwoHistories(hideBlurs, start, e)
    ensures TwoHistories(hideBlurs, start, PerformCalls(e, calls))
    decreases |calls|
  {
    if calls == [] {
    } else {
      CallKeepsHistories(hideBlurs, start, e, calls[0]);
      CallsKeepHistories(hideBlurs, start, Perform(e, calls[0]), calls[1..]);
    }
  }

  lemma {:induction false} BatchKeepsHistories(hideBlurs: bool, start: Flags, e: Engine, batch: seq<nat>,
                                               work: seq<seq<Call>>)
    requires |batch| == |work| && TwoHistories(hideBlurs, start, e)
    ensures TwoHistories(hideBlurs, start, RunBatch(e, batch, work))
    decreases |batch|
  {
    if batch == [] {
    } else {
      CallsKeepHistories(hideBlurs, start, e.(ran := e.ran + [CallbackRun(batch[0], |e.finished|)]), work[0]);
      BatchKeepsHistories(hideBlurs, start, RunCallback(e, batch[0], work[0]), batch[1..], work[1..]);
    }
  }

  lemma StepKeepsHistories(hideBlurs: bool, start: Flags, e: Engine, event: Event)
    requires TwoHistories(hideBlurs, start, e) && Enabled(e, event)
    ensures TwoHistories(hideBlurs, start, Step(hideBlurs, e, event))
  {
    match event {
      case Called(call) =>
        CallKeepsHistories(hideBlurs, start, e, call);
      case Dispatch(accepted, work) =>
        if e.queue != [] {
          ApplyOneMore(hideBlurs, e.effects, e.queue[0], start);
        } else if !e.inProgress {
          BatchKeepsHistories(hideBlurs, start, e.(scheduled := false, idle := []), e.idle, work);
        }
      case TakesEffect | Complete(_) =>
        ApplyOneMore(hideBlurs, e.effects, e.queue[0], start);
    }
  }

  lemma {:induction false} RunKeepsHistories(hideBlurs: bool, start: Flags, e: Engine, events: seq<Event>)
    requires TwoHistories(hideBlurs, start, e) && Legal(hideBlurs, e, events)
    ensures TwoHistories(hideBlurs, start, Run(hideBlurs, e, events))
    decreases |events|
  {
    if events == [] {
    } else {
      StepKeepsHistories(hideBlurs, start, e, events[0]);
      RunKeepsHistories(hideBlurs, start, Step(hideBlurs, e, events[0]), events[1..]);
    }
  }

  lemma CreatedHistories(hideBlurs: bool, visible: bool, focused: bool)
    ensures TwoHistories(hideBlurs, Flags(visible, focused, false), Created(visible, focused))
    ensures Created(visible, focused).effects == []
  {
    var start := Flags(visible, focused, false);
    var e := Engine(Initializing, [], false, [], false, start, [], [], [], [], [], []);
    CreatedEngine(visible, focused);
    FirstRequestHides(hideBlurs, start);
    CallEffect(e, CallSetState(Hidden));
  }

  // ---------------------------------------------------------------------------
  // When a drained page is right
  // ---------------------------------------------------------------------------

  /** After any run that empties the queue, with failures or without, the page agrees with the logical
      state in a flag exactly when the last write that took effect sets the same value as the last
      write that was finished, the initial value standing in for a missing write. In particular it
      agrees when the last finished write of the flag reported success, whatever failed before. */
  lemma DrainedPageHeals(hideBlurs: bool, visible: bool, focused: bool, events: seq<Event>, flag: Flag)
    requires Legal(hideBlurs, Created(visible, focused), events)
    requires Run(hideBlurs, Created(visible, focused), events).queue == []
    ensures var e := Run(hideBlurs, Created(visible, focused), events);
            var start := Get(Flags(visible, focused, false), flag);
            && !e.state.Initializing?
            && (Get(e.page, flag) == Get(StateFlags(e.state), flag) <==>
                  LastValue(hideBlurs, e.effects, flag, start)
                  == LastValue(hideBlurs, OpsOf(e.finished), flag, start))
            && (Clean(hideBlurs, e.finished, flag) ==> Get(e.page, flag) == Get(StateFlags(e.state), flag))
  {
    var start := Flags(visible, focused, false);
    var e := Run(hideBlurs, Created(visible, focused), events);
    assert Reachable(hideBlurs, e);
    ReachableEngine(hideBlurs, e);
    assert OpsOf(e.finished) + e.queue == OpsOf(e.finished);
    CreatedHistories(hideBlurs, visible, focused);
    RunKeepsHistories(hideBlurs, start, Created(visible, focused), events);
    AppliedIsLastValue(hideBlurs, e.effects, flag, start);
    AppliedIsLastValue(hideBlurs, OpsOf(e.finished), flag, start);
    ReachablePage(hideBlurs, e);
    assert Pending(hideBlurs, e) == e.page;
  }

  /** The operations that reported success. */
  function Succeeded(finished: seq<Outcome>): seq<Op> {
    if finished == [] then []
    else
      var last := finished[|finished| - 1];
      Succeeded(finished[..|finished| - 1]) + if last.ok then [last.op] else []
  }

  /** While the page changes only with a report, what took effect is what reported success. */
  lemma {:induction false} EffectsAreReported(hideBlurs: bool, e: Engine, events: seq<Event>)
    requires Legal(hideBlurs, e, events) && e.effects == Succeeded(e.finished)
    requires forall i :: 0 <= i < |events| ==> !events[i].TakesEffect?
    ensures Run(hideBlurs, e, events).effects == Succeeded(Run(hideBlurs, e, events).finished)
    decreases |events|
  {
    if events == [] {
    } else {
      StepReports(hideBlurs, e, events[0]);
      EffectsAreReported(hideBlurs, Step(hideBlurs, e, events[0]), events[1..]);
    }
  }

  lemma StepReports(hideBlurs: bool, e: Engine, event: Event)
    requires Enabled(e, event) && !event.TakesEffect? && e.effects == Succeeded(e.finished)
    ensures Step(hideBlurs, e, event).effects == Succeeded(Step(hideBlurs, e, event).finished)
  {
    match event {
      case Called(call) =>
        CallEffect(e, call);
      case Dispatch(accepted, work) =>
        if e.queue == [] && !e.inProgress {
          BatchFinishesNothing(e.(scheduled := false, idle := []), e.idle, work);
        } else if !e.inProgress && !accepted {
          FinishReports(e.(scheduled := false, started := e.started + [e.queue[0]]), e.queue[0].TryClose?);
        }
      case Complete(ok) =>
        FinishReports(if ok then e.(page := Apply(hideBlurs, e.queue[0], e.page)) else e, ok);
    }
  }

  lemma FinishReports(e: Engine, ok: bool)
    requires e.queue != [] && e.effects == Succeeded(e.finished)
    ensures Finish(e, ok).effects == Succeeded(Finish(e, ok).finished)
  {
    SucceededOneMore(e.finished, Outcome(e.queue[0], ok));
  }

  lemma SucceededOneMore(finished: seq<Outcome>, last: Outcome)
    ensures Succeeded(finished + [last]) == Succeeded(finished) + if last.ok then [last.op] else []
  {
    assert (finished + [last])[..|finished|] == finished;
  }

  lemma {:induction false} BatchFinishesNothing(e: Engine, batch: seq<nat>, work: seq<seq<Call>>)
    requires |batch| == |work|
    ensures RunBatch(e, batch, work).finished == e.finished && RunBatch(e, batch, work).effects == e.effects
    decreases |batch|
  {
    if batch == [] {
    } else {
      CallsFinishNothing(e.(ran := e.ran + [CallbackRun(batch[0], |e.finished|)]), work[0]);
      BatchFinishesNothing(RunCallback(e, batch[0], work[0]), batch[1..], work[1..]);
    }
  }

  lemma {:induction false} CallsFinishNothing(e: Engine, calls: seq<Call>)
    ensures PerformCalls(e, calls).finished == e.finished && PerformCalls(e, calls).effects == e.effects
    decreases |calls|
  {
    if calls == [] {
    } else {
      CallEffect(e, calls[0]);
      CallsFinishNothing(Perform(e, calls[0]), calls[1..]);
    }
  }

  /** When the page changes only with a report, the page is right in a flag exactly when the last write
      that reported success sets the same value as the last write. */
  lemma DrainedPageIsRightExactly(hideBlurs: bool, visible: bool, focused: bool, events: seq<Event>, flag: Flag)
    requires Legal(hideBlurs, Created(visible, focused), events)
    requires Run(hideBlurs, Created(visible, focused), events).queue == []
    requires forall i :: 0 <= i < |events| ==> !events[i].TakesEffect?
    ensures var e := Run(hideBlurs, Created(visible, focused), events);
            var start := Get(Flags(visible, focused, false), flag);
            && !e.state.Initializing?
            && (Get(e.page, flag) == Get(StateFlags(e.state), flag) <==>
                  LastValue(hideBlurs, Succeeded(e.finished), flag, start)
                  == LastValue(hideBlurs, OpsOf(e.finished), flag, start))
  {
    DrainedPageHeals(hideBlurs, visible, focused, events, flag);
    CreatedHistories(hideBlurs, visible, focused);
    CreatedEngine(visible, focused);
    EffectsAreReported(hideBlurs, Created(visible, focused), events);
  }

  /** A page can end up wrong: when the first blur and hide are both refused, the queue is empty and the
      logical state is Hidden, and the page is still visible and focused. */
  lemma RefusedHideStaysVisible(hideBlurs: bool) returns (events: seq<Event>)
    ensures Legal(hideBlurs, Created(true, true), events)
    ensures var e := Run(hideBlurs, Created(true, true), events);
            e.queue == [] && e.state == Hidden && e.page == Flags(true, true, false)
  {
    events := [Dispatch(false, []), Dispatch(false, [])];
    CreatedEngine(true, true);
    var e := Created(true, true);
    Refused(hideBlurs, e);
    Refused(hideBlurs, Step(hideBlurs, e, events[0]));
    assert events[1..] == [events[1]] && events[1..][1..] == [];
    TwoSteps(hideBlurs, e, events);
  }

  /** The page refuses the front operation. */
  lemma Refused(hideBlurs: bool, e: Engine)
    requires e.scheduled && !e.inProgress && e.queue != [] && !e.queue[0].TryClose?
    ensures Enabled(e, Dispatch(false, []))
    ensures var e' := Step(hideBlurs, e, Dispatch(false, []));
            && e'.queue == e.queue[1..] && e'.state == e.state && e'.page == e.page && !e'.inProgress
            && (e'.scheduled <==> e'.queue != [] || e'.idle != [])
  {
  }

  lemma TwoSteps(hideBlurs: bool, e: Engine, events: seq<Event>)
    requires |events| == 2 && Enabled(e, events[0]) && Enabled(Step(hideBlurs, e, events[0]), events[1])
    ensures Legal(hideBlurs, e, events)
    ensures Run(hideBlurs, e, events) == Step(hideBlurs, Step(hideBlurs, e, events[0]), events[1])
  {
    var e1 := Step(hideBlurs, e, events[0]);
    var rest := events[1..];
    assert rest[0] == events[1] && rest[1..] == [];
    assert Legal(hideBlurs, e1, rest);
    assert Run(hideBlurs, e1, rest) == Step(hideBlurs, e1, rest[0]);
  }
}
