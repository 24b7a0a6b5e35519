/** The controller that turns the application's lifecycle and focus events into page states. */
module BrowserController {
  import opened PageLifecycle
  import opened PageLifecycleDelegate

  datatype AppState = AppInitializing | AppActive | AppPaused | AppSuspended | AppHibernated | AppTerminating

  /** What the controller remembers, and the logical state of the page it drives. */
  datatype Control = Control(focused: bool, lifecycle: AppState, page: PageState)

  datatype ControlEvent =
    | LifecycleChanged(changes: seq<AppState>)
    | FocusChanged(focused: bool)
    | CloseRequested

  /** The page state that an application state stands for. */
  function ToPageState(state: AppState, focused: bool): PageState {
    match state
    case AppActive => if focused then Active else Passive
    case AppPaused => Hidden
    case AppSuspended | AppHibernated => Frozen
    case AppTerminating => Terminated
    case AppInitializing => Initializing
  }

  function ApplyChange(c: Control, state: AppState): Control {
    c.(lifecycle := state, page := AfterRequest(c.page, ToPageState(state, c.focused)))
  }

  function ApplyChanges(c: Control, changes: seq<AppState>): Control
    decreases |changes|
  {
    if changes == [] then c else ApplyChanges(ApplyChange(c, changes[0]), changes[1..])
  }

  function ChangeFocus(c: Control, focused: bool): Control {
    if c.focused == focused then c
    else c.(focused := focused,
            page := if c.lifecycle.AppActive?
                    then AfterRequest(c.page, if focused then Active else Passive) else c.page)
  }

  function CloseControl(c: Control): Control {
    if c.lifecycle.AppTerminating? then c
    else c.(lifecycle := AppTerminating, page := AfterRequest(c.page, Terminated))
  }

  function OnControlEvent(c: Control, event: ControlEvent): Control {
    match event
    case LifecycleChanged(changes) => ApplyChanges(c, changes)
    case FocusChanged(focused) => ChangeFocus(c, focused)
    case CloseRequested => CloseControl(c)
  }

  function RunControl(c: Control, events: seq<ControlEvent>): Control
    decreases |events|
  {
    if events == [] then c else RunControl(OnControlEvent(c, events[0]), events[1..])
  }

  /** A new controller drives a page that view creation has hidden. */
  function NewControl(): Control {
    Control(false, AppInitializing, Hidden)
  }

  /** Termination was reported or requested somewhere in the run. */
  predicate Ended(events: seq<ControlEvent>)
    decreases |events|
  {
    events != [] && (Ends(events[0]) || Ended(events[1..]))
  }

  predicate Ends(event: ControlEvent) {
    event.CloseRequested? || (event.LifecycleChanged? && AppTerminating in event.changes)
  }

  /** The page is what the remembered state and focus stand for, except before the first report
      and after termination. */
  ghost predicate ControlInv(c: Control) {
    && !c.page.Initializing?
    && (c.lifecycle.AppTerminating? ==> c.page.Terminated?)
    && (c.page.Terminated? || c.lifecycle.AppInitializing? || c.page == ToPageState(c.lifecycle, c.focused))
  }

  lemma {:induction false} ChangesKeepControl(c: Control, changes: seq<AppState>)
    requires ControlInv(c)
    ensures ControlInv(ApplyChanges(c, changes))
    ensures ApplyChanges(c, changes).page.Terminated? <==> c.page.Terminated? || AppTerminating in changes
    decreases |changes|
  {
    if changes == [] {
    } else {
      ChangesKeepControl(ApplyChange(c, changes[0]), changes[1..]);
    }
  }

  lemma {:induction false} RunKeepsControl(c: Control, events: seq<ControlEvent>)
    requires ControlInv(c)
    ensures ControlInv(RunControl(c, events))
    ensures RunControl(c, events).page.Terminated? <==> c.page.Terminated? || Ended(events)
    decreases |events|
  {
    if events == [] {
    } else {
      if events[0].LifecycleChanged? {
        ChangesKeepControl(c, events[0].changes);
      }
      RunKeepsControl(OnControlEvent(c, events[0]), events[1..]);
    }
  }

  /** In every run of lifecycle, focus and close events the page is terminated exactly when
      termination was reported or requested, and it is what the last reported state and the focus
      stand for exactly when a state other than Initializing was reported last and, once ended, that
      state is Terminating. */
  lemma PageFollowsController(events: seq<ControlEvent>)
    ensures var c := RunControl(NewControl(), events);
            && (c.page.Terminated? <==> Ended(events))
            && (c.page == ToPageState(c.lifecycle, c.focused) <==>
                  !c.lifecycle.AppInitializing? && (Ended(events) ==> c.lifecycle.AppTerminating?))
  {
    RunKeepsControl(NewControl(), events);
  }

  // ---------------------------------------------------------------------------
  // What the controller was told
  // ---------------------------------------------------------------------------

  /** The focus last reported. */
  function LastFocus(events: seq<ControlEvent>): bool {
    && events != []
    && var last := events[|events| - 1];
       if last.FocusChanged? then last.focused else LastFocus(events[..|events| - 1])
  }

  /** The application state last reported; closing counts as Terminating. */
  function LastState(events: seq<ControlEvent>): AppState {
    if events == [] then AppInitializing
    else
      match events[|events| - 1]
      case CloseRequested => AppTerminating
      case LifecycleChanged(changes) =>
        if changes == [] then LastState(events[..|events| - 1]) else changes[|changes| - 1]
      case FocusChanged(_) => LastState(events[..|events| - 1])
  }

  lemma {:induction false} ChangesRemembered(c: Control, changes: seq<AppState>)
    ensures ApplyChanges(c, changes).focused == c.focused
    ensures ApplyChanges(c, changes).lifecycle == if changes == [] then c.lifecycle else changes[|changes| - 1]
    decreases |changes|
  {
    if changes == [] {
    } else {
      ChangesRemembered(ApplyChange(c, changes[0]), changes[1..]);
    }
  }

  lemma {:induction false} RunOneMore(c: Control, events: seq<ControlEvent>, last: ControlEvent)
    ensures RunControl(c, events + [last]) == OnControlEvent(RunControl(c, events), last)
    decreases |events|
  {
    if events == [] {
      assert (events + [last])[0] == last && (events + [last])[1..] == [];
    } else {
      assert (events + [last])[0] == events[0] && (events + [last])[1..] == events[1..] + [last];
      RunOneMore(OnControlEvent(c, events[0]), events[1..], last);
    }
  }

  /** The controller remembers the focus and the application state last reported. */
  lemma {:induction false} ControllerRemembers(events: seq<ControlEvent>)
    ensures RunControl(NewControl(), events).focused == LastFocus(events)
    ensures RunControl(NewControl(), events).lifecycle == LastState(events)
    decreases |events|
  {
    if events == [] {
    } else {
      var front, last := events[..|events| - 1], events[|events| - 1];
      assert events == front + [last];
      ControllerRemembers(front);
      RunOneMore(NewControl(), front, last);
      if last.LifecycleChanged? {
        ChangesRemembered(RunControl(NewControl(), front), last.changes);
      }
    }
  }

  /** The page that the application was told to expect. */
  ghost predicate PageAsTold(page: Flags, state: AppState, focused: bool) {
    && (page.visible <==> state == AppActive)
    && (page.focused <==> state == AppActive && focused)
    && (page.frozen <==> state == AppSuspended || state == AppHibernated)
  }

  /** In every run, unless no state other than Initializing was reported last, or a state was reported after
      the end: the page state is one that is visible exactly while the application is active, focused exactly
      while it is also focused, and frozen exactly while it is suspended or hibernated; a paused application's
      page is hidden, and an ended one's terminated. */
  lemma PageIsAsTold(events: seq<ControlEvent>)
    requires LastState(events) != AppInitializing
    requires Ended(events) ==> LastState(events) == AppTerminating
    ensures var c := RunControl(NewControl(), events);
            && !c.page.Initializing?
            && PageAsTold(StateFlags(c.page), LastState(events), LastFocus(events))
            && (c.page == Hidden <==> LastState(events) == AppPaused)
            && (c.page == Terminated <==> LastState(events) == AppTerminating)
  {
    PageFollowsController(events);
    ControllerRemembers(events);
    RunKeepsControl(NewControl(), events);
  }

  class Controller {
    const browser: Delegate
    var isFocused: bool
    var lifecycleState: AppState

    ghost function Now(): Control
      reads this, browser
    {
      Control(isFocused, lifecycleState, browser.currState)
    }

    constructor (browser: Delegate)
      requires browser.currState == Hidden
      ensures this.browser == browser && Now() == NewControl()
    {
      this.browser := browser;
      isFocused, lifecycleState := false, AppInitializing;
    }

    method Close()
      modifies this, browser
      ensures Now() == CloseControl(old(Now()))
      ensures old(ControlInv(Now())) ==> ControlInv(Now())
    {
      if lifecycleState != AppTerminating {
        lifecycleState := AppTerminating;
        var ok, calls := browser.SetState(Terminated);
      }
    }

    method OnLifecycleStateChanged(changes: seq<AppState>)
      modifies this, browser
      ensures Now() == ApplyChanges(old(Now()), changes)
      ensures old(ControlInv(Now())) ==> ControlInv(Now())
    {
      if ControlInv(Now()) {
        ChangesKeepControl(Now(), changes);
      }
      var i := 0;
      while i < |changes|
        invariant 0 <= i <= |changes|
        invariant ApplyChanges(Now(), changes[i..]) == ApplyChanges(old(Now()), changes)
      {
        lifecycleState := changes[i];
        var ok, calls := browser.SetState(ToPageState(changes[i], isFocused));
        assert changes[i..][1..] == changes[i + 1..];
        i := i + 1;
      }
    }

    method OnFocusedChanged(focused: bool)
      modifies this, browser
      ensures Now() == ChangeFocus(old(Now()), focused)
      ensures old(ControlInv(Now())) ==> ControlInv(Now())
    {
      if isFocused == focused {
        return;
      }
      isFocused := focused;
      if lifecycleState == AppActive {
        var ok, calls := browser.SetState(if focused then Active else Passive);
      }
    }
  }
}
