/** The first version of the page lifecycle: every operation acts on the view backend at once. */
module PageLifecycleV1 {
  import opened PageLifecycle
  import opened PageLifecycleDelegate

  /** The activity flags of the backend, whether the view is suspended, and how often a freeze
      found the page visible or focused. */
  datatype Backend = Backend(visible: bool, focused: bool, suspended: bool, freezeWarnings: nat)

  function Perform(op: Op, b: Backend): Backend {
    match op
    case Show => b.(visible := true)
    case Hide => b.(visible := false, focused := false)
    case Focus => b.(focused := true)
    case Blur => b.(focused := false)
    case Freeze =>
      var hidden := if b.visible || b.focused
                    then b.(visible := false, focused := false, freezeWarnings := b.freezeWarnings + 1)
                    else b;
      hidden.(suspended := true)
    case Resume => b.(suspended := false)
    case TryClose => b
  }

  function PerformAll(ops: seq<Op>, b: Backend): Backend {
    if ops == [] then b else PerformAll(ops[1..], Perform(ops[0], b))
  }

  /** The logical state and the backend together. */
  datatype View = View(state: PageState, backend: Backend)

  function RequestV1(v: View, target: PageState): View {
    View(AfterRequest(v.state, target), PerformAll(RequestOperations(v.state, target), v.backend))
  }

  function RunV1(v: View, targets: seq<PageState>): View
    decreases |targets|
  {
    if targets == [] then v else RunV1(RequestV1(v, targets[0]), targets[1..])
  }

  /** View creation sets the visibility and focus flags of a view that is not suspended, and
      requests Hidden. */
  function CreatedV1(): View {
    RequestV1(View(Initializing, Backend(true, true, false, 0)), Hidden)
  }

  function BackendFlags(b: Backend): Flags {
    Flags(b.visible, b.focused, b.suspended)
  }

  /** The backend shows exactly the flags of the logical state, and no freeze has found
      the page visible. */
  ghost predicate InStep(v: View) {
    && !v.state.Initializing?
    && BackendFlags(v.backend) == StateFlags(v.state)
    && v.backend.freezeWarnings == 0
  }

  /** In every run of requests after creation the backend is visible exactly in Active and Passive,
      focused exactly in Active, suspended exactly in Frozen; the branch that warns about freezing a
      visible page is never taken; and a terminated page stays terminated. */
  lemma {:induction false} BackendFollowsState(targets: seq<PageState>)
    ensures var v := RunV1(CreatedV1(), targets);
            && (v.backend.visible <==> v.state.Active? || v.state.Passive?)
            && (v.backend.focused <==> v.state.Active?)
            && (v.backend.suspended <==> v.state.Frozen?)
            && v.backend.freezeWarnings == 0
    ensures forall i :: 0 <= i <= |targets| && RunV1(CreatedV1(), targets[..i]).state.Terminated? ==>
              RunV1(CreatedV1(), targets).state.Terminated?
  {
    CreatedInStep();
    RunInStep(CreatedV1(), targets);
    forall i | 0 <= i <= |targets| && RunV1(CreatedV1(), targets[..i]).state.Terminated?
      ensures RunV1(CreatedV1(), targets).state.Terminated?
    {
      RunSplits(CreatedV1(), targets, i);
      TerminatedStays(RunV1(CreatedV1(), targets[..i]), targets[i..]);
    }
  }

  lemma CreatedInStep()
    ensures InStep(CreatedV1())
  {
    FirstRequestHides(true, Flags(true, true, false));
    var b := Backend(true, true, false, 0);
    assert PerformAll([Blur, Hide], b) == PerformAll([Hide], Perform(Blur, b));
  }

  lemma {:induction false} RunInStep(v: View, targets: seq<PageState>)
    requires InStep(v)
    ensures InStep(RunV1(v, targets))
    decreases |targets|
  {
    if targets == [] {
    } else {
      RequestInStep(v, targets[0]);
      RunInStep(RequestV1(v, targets[0]), targets[1..]);
    }
  }

  lemma {:induction false} RequestInStep(v: View, target: PageState)
    requires InStep(v)
    ensures InStep(RequestV1(v, target))
    decreases Distance(v.state, target)
  {
    if Accepted(v.state, target) {
      NextStateApproaches(v.state, target);
      var next := NextState(v.state, target);
      var v' := View(next, PerformAll(Operations(v.state, next), v.backend));
      StepInStep(v, next);
      RequestInStep(v', target);
      PerformAllAppend(Operations(v.state, next), RequestOperations(next, target), v.backend);
    }
  }

  lemma StepInStep(v: View, next: PageState)
    requires InStep(v) && Edge(v.state, next)
    ensures InStep(View(next, PerformAll(Operations(v.state, next), v.backend)))
  {
    var ops := Operations(v.state, next);
    if ops != [] {
      assert ops == [ops[0]];
      assert PerformAll(ops, v.backend) == Perform(ops[0], v.backend);
    }
  }

  lemma {:induction false} PerformAllAppend(a: seq<Op>, b: seq<Op>, backend: Backend)
    ensures PerformAll(a + b, backend) == PerformAll(b, PerformAll(a, backend))
  {
    if a == [] {
      assert a + b == b;
    } else {
      assert (a + b)[1..] == a[1..] + b;
      PerformAllAppend(a[1..], b, Perform(a[0], backend));
    }
  }

  lemma {:induction false} RunSplits(v: View, targets: seq<PageState>, i: nat)
    requires i <= |targets|
    ensures RunV1(v, targets) == RunV1(RunV1(v, targets[..i]), targets[i..])
    decreases |targets|
  {
    if i > 0 {
      RunSplits(RequestV1(v, targets[0]), targets[1..], i - 1);
      assert targets[..i][1..] == targets[1..][..i - 1];
      assert targets[i..] == targets[1..][i - 1..];
    } else {
      assert targets[i..] == targets;
    }
  }

  lemma {:induction false} TerminatedStays(v: View, targets: seq<PageState>)
    requires v.state.Terminated?
    ensures RunV1(v, targets).state.Terminated?
    decreases |targets|
  {
    if targets == [] {
    } else {
      TerminatedStays(RequestV1(v, targets[0]), targets[1..]);
    }
  }

  /** Freezing suspends and hides whatever page it finds, and warns exactly about one that it had to hide. */
  lemma FreezeAlwaysHides(b: Backend)
    ensures Perform(Freeze, b) ==
            Backend(false, false, true, b.freezeWarnings + if b.visible || b.focused then 1 else 0)
  {
  }

  class LifecycleV1 {
    const delegate: Delegate
    var visible: bool
    var focused: bool
    var suspended: bool
    var freezeWarnings: nat

    ghost function Now(): View
      reads this, delegate
    {
      View(delegate.currState, Backend(visible, focused, suspended, freezeWarnings))
    }

    /** Creates the view: synchronises the backend flags and hides the page. */
    constructor CreateView(maxMemorySavingIterations: nat)
      ensures fresh(delegate)
      ensures Now() == CreatedV1() && InStep(Now())
      ensures delegate.View() == CreatedSaving(maxMemorySavingIterations)
    {
      delegate := new Delegate(maxMemorySavingIterations);
      visible, focused, suspended := true, true, false;
      freezeWarnings := 0;
      new;
      var ok := SetState(Hidden);
      CreatedInStep();
    }

    method HidePage()
      modifies this
      ensures Now() == old(Now()).(backend := Perform(Hide, old(Now()).backend))
    {
      visible, focused := false, false;
    }

    method FreezePage()
      modifies this
      ensures Now() == old(Now()).(backend := Perform(Freeze, old(Now()).backend))
    {
      if visible || focused {
        freezeWarnings := freezeWarnings + 1;
        HidePage();
      }
      if !suspended {
        suspended := true;
      }
    }

    method ResumePage()
      modifies this
      ensures Now() == old(Now()).(backend := Perform(Resume, old(Now()).backend))
    {
      if suspended {
        suspended := false;
      }
    }

    /** Carries out one call of the delegate. */
    method PerformCall(op: Op)
      modifies this
      ensures Now() == old(Now()).(backend := Perform(op, old(Now()).backend))
    {
      match op {
        case Show => visible := true;
        case Hide => HidePage();
        case Focus => focused := true;
        case Blur => focused := false;
        case Freeze => FreezePage();
        case Resume => ResumePage();
        case TryClose =>
      }
    }

    /** Requests a state; the backend is in step with the logical state again when it returns. */
    method SetState(newState: PageState) returns (ok: bool)
      modifies this, delegate
      ensures Now() == RequestV1(old(Now()), newState)
      ensures delegate.View() == Request(old(delegate.View()), newState)
      ensures ok <==> delegate.currState == newState
      ensures old(InStep(Now())) ==> InStep(Now())
    {
      ghost var before := Now();
      var calls;
      ok, calls := delegate.SetState(newState);
      var i := 0;
      while i < |calls|
        invariant 0 <= i <= |calls|
        invariant Now().state == AfterRequest(before.state, newState)
        invariant delegate.View() == Request(old(delegate.View()), newState)
        invariant PerformAll(calls[i..], Now().backend) == PerformAll(calls, before.backend)
      {
        PerformCall(calls[i]);
        assert calls[i..][1..] == calls[i + 1..];
        i := i + 1;
      }
      if InStep(before) {
        RequestInStep(before, newState);
      }
    }

    method OnMemorySavingTimerTimeout() returns (pressure: bool)
      requires delegate.timerArmed
      modifies delegate
      ensures Now() == old(Now())
      ensures delegate.View() == Timeout(old(delegate.View()))
      ensures pressure == OutOfSight(delegate.currState)
    {
      pressure := delegate.OnMemorySavingTimerTimeout();
    }
  }
}
