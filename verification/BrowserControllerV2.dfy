/** The controller on top of the queued page lifecycle: events of the application, steps of the main loop
    and completions of the page in any order.
  */
module BrowserControllerV2 {
  import opened PageLifecycle
  import V2 = PageLifecycleV2
  import Refinement = PageLifecycleV2Refinement
  import Failures = PageLifecycleV2Failures
  import Progress = PageLifecycleV2Progress
  import opened BrowserController

  datatype System = System(control: Control, engine: V2.Engine)

  /** An event for the controller, or a step of the engine that is not a request for a state. */
  datatype Event = ForController(event: ControlEvent) | ForEngine(step: V2.Event)

  /** The states that the controller requests on an event, in order. */
  function Requested(c: Control, event: ControlEvent): seq<PageState> {
    match event
    case LifecycleChanged(changes) =>
      seq(|changes|, i requires 0 <= i < |changes| => ToPageState(changes[i], c.focused))
    case FocusChanged(focused) =>
      if c.focused != focused && c.lifecycle.AppActive? then [if focused then Active else Passive] else []
    case CloseRequested => if c.lifecycle.AppTerminating? then [] else [Terminated]
  }

  function Calls(targets: seq<PageState>): seq<V2.Call> {
    seq(|targets|, i requires 0 <= i < |targets| => V2.CallSetState(targets[i]))
  }

  /** The step leaves the choice of the page state to the controller. */
  predicate NoRequests(step: V2.Event) {
    match step
    case Called(call) => !call.CallSetState?
    case Dispatch(_, work) => forall i :: 0 <= i < |work| ==> Refinement.Targets(work[i]) == []
    case _ => true
  }

  predicate Enabled(s: System, e: Event) {
    e.ForEngine? ==> V2.Enabled(s.engine, e.step) && NoRequests(e.step)
  }

  /** The controller makes its requests while the main loop waits for it. */
  function Step(hideBlurs: bool, s: System, e: Event): System
    requires Enabled(s, e)
  {
    match e
    case ForController(event) =>
      System(OnControlEvent(s.control, event), V2.PerformCalls(s.engine, Calls(Requested(s.control, event))))
    case ForEngine(step) => s.(engine := V2.Step(hideBlurs, s.engine, step))
  }

  ghost predicate Legal(hideBlurs: bool, s: System, events: seq<Event>)
    decreases |events|
  {
    events != [] ==> Enabled(s, events[0]) && Legal(hideBlurs, Step(hideBlurs, s, events[0]), events[1..])
  }

  ghost function Run(hideBlurs: bool, s: System, events: seq<Event>): System
    requires Legal(hideBlurs, s, events)
    decreases |events|
  {
    if events == [] then s else Run(hideBlurs, Step(hideBlurs, s, events[0]), events[1..])
  }

  /** A new controller on a page that view creation has asked to hide. */
  function Created(visible: bool, focused: bool): System {
    System(NewControl(), V2.Created(visible, focused))
  }

  /** What the application told the controller during a run. */
  function ControlEvents(events: seq<Event>): seq<ControlEvent>
    decreases |events|
  {
    if events == [] then []
    else (if events[0].ForController? then [events[0].event] else []) + ControlEvents(events[1..])
  }

  // ---------------------------------------------------------------------------
  // The logical state is the controller's
  // ---------------------------------------------------------------------------

  ghost predicate InStep(hideBlurs: bool, s: System) {
    s.engine.state == s.control.page && V2.EngineInv(s.engine) && Refinement.PageInv(hideBlurs, s.engine)
  }

  lemma {:induction false} ChangesAreRequests(c: Control, changes: seq<AppState>)
    ensures ApplyChanges(c, changes).page ==
            Refinement.StateAfter(c.page, Requested(c, LifecycleChanged(changes)))
    decreases |changes|
  {
    var targets := Requested(c, LifecycleChanged(changes));
    if changes == [] {
    } else {
      var c' := ApplyChange(c, changes[0]);
      assert targets[1..] == Requested(c', LifecycleChanged(changes[1..]));
      ChangesAreRequests(c', changes[1..]);
    }
  }

  lemma EventIsRequests(c: Control, event: ControlEvent)
    ensures OnControlEvent(c, event).page == Refinement.StateAfter(c.page, Requested(c, event))
  {
    var targets := Requested(c, event);
    if event.LifecycleChanged? {
      ChangesAreRequests(c, event.changes);
    } else if targets != [] {
      assert targets[1..] == [];
      assert Refinement.StateAfter(c.page, targets) == AfterRequest(c.page, targets[0]);
    }
  }

  lemma {:induction false} CallsAreRequests(targets: seq<PageState>)
    ensures Refinement.Targets(Calls(targets)) == targets
  {
    if targets == [] {
    } else {
      assert Calls(targets)[1..] == Calls(targets[1..]);
      CallsAreRequests(targets[1..]);
      assert targets == [targets[0]] + targets[1..];
    }
  }

  lemma {:induction false} NoTargets(work: seq<seq<V2.Call>>)
    requires forall i :: 0 <= i < |work| ==> Refinement.Targets(work[i]) == []
    ensures Refinement.AllTargets(work) == []
  {
    if work == [] {
    } else {
      NoTargets(work[1..]);
    }
  }

  lemma StepKeepsState(hideBlurs: bool, e: V2.Engine, step: V2.Event)
    requires V2.Enabled(e, step) && NoRequests(step)
    ensures V2.Step(hideBlurs, e, step).state == e.state
  {
    match step {
      case Called(call) =>
        V2.CallEffect(e, call);
      case Dispatch(_, work) =>
        if !e.inProgress && e.queue == [] {
          Refinement.BatchState(e.(scheduled := false, idle := []), e.idle, work);
          NoTargets(work);
        }
      case _ =>
    }
  }

  lemma StepKeepsInStep(hideBlurs: bool, s: System, e: Event)
    requires InStep(hideBlurs, s) && Enabled(s, e)
    ensures InStep(hideBlurs, Step(hideBlurs, s, e))
  {
    match e {
      case ForController(event) =>
        var targets := Requested(s.control, event);
        EventIsRequests(s.control, event);
        CallsAreRequests(targets);
        Refinement.CallsState(s.engine, Calls(targets));
        V2.CallsKeepEngine(s.engine, Calls(targets), []);
        Refinement.CallsKeepPage(hideBlurs, s.engine, Calls(targets));
      case ForEngine(step) =>
        StepKeepsState(hideBlurs, s.engine, step);
        V2.StepKeepsEngine(hideBlurs, s.engine, step);
        Refinement.StepKeepsPage(hideBlurs, s.engine, step);
    }
  }

  lemma {:induction false} RunKeepsInStep(hideBlurs: bool, s: System, events: seq<Event>)
    requires InStep(hideBlurs, s) && Legal(hideBlurs, s, events)
    ensures InStep(hideBlurs, Run(hideBlurs, s, events))
    ensures Run(hideBlurs, s, events).control == RunControl(s.control, ControlEvents(events))
    decreases |events|
  {
    if events == [] {
    } else {
      var s' := Step(hideBlurs, s, events[0]);
      StepKeepsInStep(hideBlurs, s, events[0]);
      RunKeepsInStep(hideBlurs, s', events[1..]);
      var rest := ControlEvents(events[1..]);
      if events[0].ForController? {
        assert ControlEvents(events) == [events[0].event] + rest && ([events[0].event] + rest)[1..] == rest;
      } else {
        assert ControlEvents(events) == rest;
      }
    }
  }

  /** In every run of application events, main-loop dispatches and completions, once the queue is empty with
      every operation successful: the page has the flags of the controller's page state. If the application
      last reported a state other than Initializing, and after the end only Terminating, the page is visible
      exactly while the application is active, focused exactly while it is also focused, and frozen exactly
      while it is suspended or hibernated. */
  lemma DrainedPageFollowsController(hideBlurs: bool, visible: bool, focused: bool, events: seq<Event>)
    requires Legal(hideBlurs, Created(visible, focused), events)
    requires Run(hideBlurs, Created(visible, focused), events).engine.queue == []
    requires Refinement.AllSucceeded(Run(hideBlurs, Created(visible, focused), events).engine.finished)
    ensures var s := Run(hideBlurs, Created(visible, focused), events);
            var told := ControlEvents(events);
            && s.control == RunControl(NewControl(), told)
            && !s.control.page.Initializing?
            && s.engine.page == StateFlags(s.control.page)
            && (s.control.page.Terminated? <==> Ended(told))
            && (LastState(told) != AppInitializing && (Ended(told) ==> LastState(told) == AppTerminating) ==>
                  PageAsTold(s.engine.page, LastState(told), LastFocus(told)))
  {
    var s := Run(hideBlurs, Created(visible, focused), events);
    var told := ControlEvents(events);
    V2.CreatedEngine(visible, focused);
    Refinement.CreatedPage(hideBlurs, visible, focused);
    RunKeepsInStep(hideBlurs, Created(visible, focused), events);
    PageFollowsController(told);
    if LastState(told) != AppInitializing && (Ended(told) ==> LastState(told) == AppTerminating) {
      PageIsAsTold(told);
    }
    Progress.DrainedWell(hideBlurs, s.engine);
  }

  // ---------------------------------------------------------------------------
  // A cooperative page follows the application
  // ---------------------------------------------------------------------------

  /** The page accepts and carries out what it is asked for. */
  ghost predicate AllCooperative(hideBlurs: bool, s: System, events: seq<Event>)
    requires Legal(hideBlurs, s, events)
    decreases |events|
  {
    events != [] ==>
      && (events[0].ForEngine? ==> Progress.Cooperative(s.engine, events[0].step))
      && AllCooperative(hideBlurs, Step(hideBlurs, s, events[0]), events[1..])
  }

  lemma {:induction false} CooperativeRunSucceeds(hideBlurs: bool, s: System, events: seq<Event>)
    requires Legal(hideBlurs, s, events) && AllCooperative(hideBlurs, s, events)
    requires Refinement.AllSucceeded(s.engine.finished)
    ensures Refinement.AllSucceeded(Run(hideBlurs, s, events).engine.finished)
    decreases |events|
  {
    if events == [] {
    } else {
      match events[0] {
        case ForController(event) =>
          Failures.CallsFinishNothing(s.engine, Calls(Requested(s.control, event)));
        case ForEngine(step) =>
          Progress.StepSucceeds(hideBlurs, s.engine, step);
      }
      CooperativeRunSucceeds(hideBlurs, Step(hideBlurs, s, events[0]), events[1..]);
    }
  }

  /** With a cooperative page, every run can be continued by dispatches and completions alone until the page
      shows what the application was last told to expect. */
  lemma CooperativePageFollowsController(hideBlurs: bool, visible: bool, focused: bool, events: seq<Event>)
    returns (more: seq<V2.Event>)
    requires Legal(hideBlurs, Created(visible, focused), events)
    requires AllCooperative(hideBlurs, Created(visible, focused), events)
    requires LastState(ControlEvents(events)) != AppInitializing
    requires Ended(ControlEvents(events)) ==> LastState(ControlEvents(events)) == AppTerminating
    ensures var e := Run(hideBlurs, Created(visible, focused), events).engine;
            && V2.Legal(hideBlurs, e, more) && (forall i :: 0 <= i < |more| ==> Refinement.Quiet(more[i]))
            && var last := V2.Run(hideBlurs, e, more);
               && last.queue == [] && last.idle == []
               && PageAsTold(last.page, LastState(ControlEvents(events)), LastFocus(ControlEvents(events)))
  {
    var s := Run(hideBlurs, Created(visible, focused), events);
    V2.CreatedEngine(visible, focused);
    Refinement.CreatedPage(hideBlurs, visible, focused);
    RunKeepsInStep(hideBlurs, Created(visible, focused), events);
    CooperativeRunSucceeds(hideBlurs, Created(visible, focused), events);
    more := Progress.Drains(hideBlurs, s.engine);
    Progress.DrainedWell(hideBlurs, V2.Run(hideBlurs, s.engine, more));
    PageIsAsTold(ControlEvents(events));
  }
}
