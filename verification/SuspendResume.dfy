/** Suspending and resuming the browser plugin: requests change the state at once until the main loop's
    context exists, and are posted to the main loop from then on; clients are told of every change.
  */
module SuspendResume {

  datatype State = Uninitialized | Suspended | Resumed

  datatype Command = SuspendCommand | ResumeCommand | OtherCommand

  /** The plugin with its history: the commands posted and those dispatched so far, and the states
      notified. Posted commands wait in `queue`. */
  datatype Plugin = Plugin(
    state: State, context: bool, running: bool, queue: seq<Command>,
    posted: seq<Command>, dispatched: seq<Command>, notified: seq<State>)

  datatype Event = Requested(command: Command) | ContextCreated | StartedUp | Dispatched

  function StateOf(command: Command): State {
    if command.SuspendCommand? then Suspended else Resumed
  }

  /** The request is carried out: before initialisation any command is, later only one that asks for
      the other state. */
  predicate Accepts(p: Plugin, command: Command) {
    || p.state.Uninitialized?
    || (p.state.Resumed? && command.SuspendCommand?)
    || (p.state.Suspended? && command.ResumeCommand?)
  }

  /** At once without a context, posted with one. */
  function CarryOut(p: Plugin, command: Command): Plugin {
    if !p.context then p.(state := StateOf(command))
    else p.(queue := p.queue + [command], posted := p.posted + [command])
  }

  function Request(p: Plugin, command: Command): Plugin {
    if !Accepts(p, command) then p
    else if p.state.Uninitialized? then p.(state := StateOf(command))
    else CarryOut(p, command)
  }

  function ChangeState(p: Plugin, newState: State): Plugin {
    if p.state == newState then p else p.(state := newState, notified := p.notified + [newState])
  }

  function StartUp(p: Plugin): Plugin {
    var target := if p.state.Resumed? then Resumed else Suspended;
    ChangeState(p.(state := Uninitialized), target).(running := true)
  }

  function Dispatch(p: Plugin): Plugin
    requires p.queue != []
  {
    ChangeState(p.(queue := p.queue[1..], dispatched := p.dispatched + [p.queue[0]]), StateOf(p.queue[0]))
  }

  predicate Enabled(p: Plugin, e: Event) {
    match e
    case Requested(_) => true
    case ContextCreated => !p.context
    case StartedUp => p.context && !p.running
    case Dispatched => p.running && p.queue != []
  }

  function Step(p: Plugin, e: Event): Plugin
    requires Enabled(p, e)
  {
    match e
    case Requested(command) => Request(p, command)
    case ContextCreated => p.(context := true)
    case StartedUp => StartUp(p)
    case Dispatched => Dispatch(p)
  }

  ghost predicate Legal(p: Plugin, events: seq<Event>)
    decreases |events|
  {
    events != [] ==> Enabled(p, events[0]) && Legal(Step(p, events[0]), events[1..])
  }

  ghost function Run(p: Plugin, events: seq<Event>): Plugin
    requires Legal(p, events)
    decreases |events|
  {
    if events == [] then p else Run(Step(p, events[0]), events[1..])
  }

  function Initial(): Plugin {
    Plugin(Uninitialized, false, false, [], [], [], [])
  }

  function Opposite(s: State): State {
    match s
    case Suspended => Resumed
    case _ => Suspended
  }

  /** Posted commands are dispatched in order; the last one dispatched decides the state. */
  ghost predicate PostInv(p: Plugin) {
    && p.posted == p.dispatched + p.queue
    && (p.posted != [] ==> p.context)
    && (p.dispatched != [] ==> p.running && p.state == StateOf(p.dispatched[|p.dispatched| - 1]))
  }

  /** Each notified state differs from the one before, and the last one is the present state. */
  ghost predicate NotifyInv(p: Plugin) {
    && (p.notified != [] ==> p.state == p.notified[|p.notified| - 1])
    && (forall i :: 0 < i < |p.notified| ==> p.notified[i] == Opposite(p.notified[i - 1]))
    && (forall i :: 0 <= i < |p.notified| ==> !p.notified[i].Uninitialized?)
  }

  ghost predicate Inv(p: Plugin) {
    PostInv(p) && NotifyInv(p) && (p.running <==> p.notified != []) && (p.running ==> p.context)
  }

  lemma ChangeKeepsNotify(p: Plugin, newState: State)
    requires NotifyInv(p) && !newState.Uninitialized?
    ensures NotifyInv(ChangeState(p, newState))
  {
  }

  lemma RequestKeepsInv(p: Plugin, command: Command)
    requires Inv(p)
    ensures Inv(Request(p, command))
  {
    assert p.dispatched + (p.queue + [command]) == p.dispatched + p.queue + [command];
  }

  lemma DispatchKeepsInv(p: Plugin)
    requires Inv(p) && p.running && p.queue != []
    ensures Inv(Dispatch(p))
  {
    assert p.dispatched + p.queue == p.dispatched + [p.queue[0]] + p.queue[1..];
    ChangeKeepsNotify(p.(queue := p.queue[1..], dispatched := p.dispatched + [p.queue[0]]), StateOf(p.queue[0]));
  }

  lemma StepKeepsInv(p: Plugin, e: Event)
    requires Inv(p) && Enabled(p, e)
    ensures Inv(Step(p, e))
  {
    match e {
      case Requested(command) => RequestKeepsInv(p, command);
      case Dispatched => DispatchKeepsInv(p);
      case _ =>
    }
  }

  lemma {:induction false} RunKeepsInv(p: Plugin, events: seq<Event>)
    requires Inv(p) && Legal(p, events)
    ensures Inv(Run(p, events))
    decreases |events|
  {
    if events == [] {
    } else {
      StepKeepsInv(p, events[0]);
      RunKeepsInv(Step(p, events[0]), events[1..]);
    }
  }

  /** In every interleaving of requests, start-up and dispatches: clients are told nothing before
      start-up and something from then on; the states they are told strictly alternate between suspended
      and resumed; and the last one is the present state. */
  lemma NotificationsAlternate(events: seq<Event>)
    requires Legal(Initial(), events)
    ensures var p := Run(Initial(), events);
            && (p.notified != [] <==> p.running)
            && (p.notified != [] ==> p.state == p.notified[|p.notified| - 1])
            && (forall i :: 0 <= i < |p.notified| ==>
                  p.notified[i] == if (i % 2 == 0) then p.notified[0] else Opposite(p.notified[0]))
  {
    RunKeepsInv(Initial(), events);
    var p := Run(Initial(), events);
    forall i | 0 <= i < |p.notified|
      ensures p.notified[i] == if (i % 2 == 0) then p.notified[0] else Opposite(p.notified[0])
    {
      Alternates(p.notified, i);
    }
  }

  lemma {:induction false} Alternates(s: seq<State>, i: nat)
    requires i < |s|
    requires forall j :: 0 < j < |s| ==> s[j] == Opposite(s[j - 1])
    requires forall j :: 0 <= j < |s| ==> !s[j].Uninitialized?
    ensures s[i] == if i % 2 == 0 then s[0] else Opposite(s[0])
  {
    if i == 0 {
    } else {
      Alternates(s, i - 1);
    }
  }

  /** Posted commands are dispatched once each, in order, and once all have been the state is the one that
      the last posted command asked for. */
  lemma LastPostedCommandWins(events: seq<Event>)
    requires Legal(Initial(), events)
    ensures var p := Run(Initial(), events);
            && p.posted == p.dispatched + p.queue
            && (p.posted != [] && p.queue == [] ==> p.state == StateOf(p.posted[|p.posted| - 1]))
  {
    RunKeepsInv(Initial(), events);
    var p := Run(Initial(), events);
    if p.queue == [] {
      assert p.dispatched + p.queue == p.dispatched;
    }
  }

  // ---------------------------------------------------------------------------
  // What each command comes to
  // ---------------------------------------------------------------------------

  /** The commands that come before the main loop's context exists. */
  function Early(commands: seq<Command>): seq<Event> {
    seq(|commands|, i requires 0 <= i < |commands| => Requested(commands[i]))
  }

  /** The state that early commands ask for: the last suspend or resume decides. When there is neither, the
      browser is to be suspended without any command, and resumed by the first of other commands. */
  function Wanted(commands: seq<Command>): (s: State)
    ensures !s.Uninitialized?
  {
    if commands == [] then Suspended
    else
      match commands[|commands| - 1]
      case SuspendCommand => Suspended
      case ResumeCommand => Resumed
      case OtherCommand => if |commands| == 1 then Resumed else Wanted(commands[..|commands| - 1])
  }

  /** Start-up moves into the state that the early commands ask for, and tells the clients of it once. */
  lemma StartUpDoesAsWanted(commands: seq<Command>)
    ensures Legal(Initial(), Early(commands) + [ContextCreated, StartedUp])
    ensures var p := Run(Initial(), Early(commands) + [ContextCreated, StartedUp]);
            && p.state == Wanted(commands) && p.notified == [Wanted(commands)]
            && p.posted == [] && p.running
  {
    var p := EarlyRequests(commands);
    var rest := [ContextCreated, StartedUp];
    var created := Step(p, ContextCreated);
    assert rest[1..] == [StartedUp] && [StartedUp][1..] == [];
    assert Legal(created, rest[1..]);
    assert Run(created, rest[1..]) == Step(created, StartedUp);
    assert Legal(p, rest) && Run(p, rest) == Step(created, StartedUp);
    RunsInSequence(Initial(), Early(commands), rest);
  }

  lemma {:induction false} RunsInSequence(p: Plugin, a: seq<Event>, b: seq<Event>)
    requires Legal(p, a) && Legal(Run(p, a), b)
    ensures Legal(p, a + b) && Run(p, a + b) == Run(Run(p, a), b)
    decreases |a|
  {
    if a == [] {
      assert a + b == b;
    } else {
      assert (a + b)[0] == a[0] && (a + b)[1..] == a[1..] + b;
      RunsInSequence(Step(p, a[0]), a[1..], b);
    }
  }

  lemma {:induction false} EarlyRequests(commands: seq<Command>) returns (p: Plugin)
    ensures Legal(Initial(), Early(commands)) && p == Run(Initial(), Early(commands))
    ensures p == Initial().(state := if commands == [] then Uninitialized else Wanted(commands))
    decreases |commands|
  {
    if commands == [] {
      p := Initial();
    } else {
      var front, last := commands[..|commands| - 1], commands[|commands| - 1];
      var before := EarlyRequests(front);
      assert [Requested(last)][1..] == [];
      RunsInSequence(Initial(), Early(front), [Requested(last)]);
      assert Early(commands) == Early(front) + [Requested(last)];
      p := Step(before, Requested(last));
    }
  }

  /** What every request does. Before there is a state it sets one at once. After that exactly the command for
      the other state is accepted: it is posted when there is a context and changes the state at once when
      there is none. A refused command changes nothing. */
  lemma RequestDoes(p: Plugin, command: Command)
    ensures p.state == Uninitialized ==>
              Step(p, Requested(command)) == p.(state := if command == SuspendCommand then Suspended else Resumed)
    ensures p.state == Resumed ==>
              Step(p, Requested(command)) ==
              if command != SuspendCommand then p
              else if p.context then p.(queue := p.queue + [SuspendCommand], posted := p.posted + [SuspendCommand])
              else p.(state := Suspended)
    ensures p.state == Suspended ==>
              Step(p, Requested(command)) ==
              if command != ResumeCommand then p
              else if p.context then p.(queue := p.queue + [ResumeCommand], posted := p.posted + [ResumeCommand])
              else p.(state := Resumed)
    ensures Accepts(p, command) <==> Step(p, Requested(command)) != p
  {
    if p.context {
      assert |(p.posted + [command])| != |p.posted|;
    }
  }

  /** On a running browser with nothing posted, dispatching an accepted command reaches its state and tells the
      clients. */
  lemma CommandTakesEffect(p: Plugin, command: Command)
    requires p.context && p.running && p.queue == [] && !p.state.Uninitialized? && Accepts(p, command)
    ensures var posted := Step(p, Requested(command));
            && Enabled(posted, Dispatched) && posted.state == p.state && posted.notified == p.notified
            && var q := Step(posted, Dispatched);
               && q.state == (if command == SuspendCommand then Suspended else Resumed) && q.state != p.state
               && q.queue == [] && q.notified == p.notified + [q.state]
  {
  }

  /** Whatever is posted meanwhile, dispatching a suspend command leaves the browser suspended, and dispatching
      a resume command leaves it resumed. */
  lemma DispatchReachesState(p: Plugin)
    requires Enabled(p, Dispatched) && p.queue[0] != OtherCommand
    ensures Step(p, Dispatched).state == if p.queue[0] == SuspendCommand then Suspended else Resumed
    ensures Step(p, Dispatched).queue == p.queue[1..]
  {
  }

  /** Only suspend and resume commands are ever posted. */
  lemma {:induction false} OnlyCommandsPosted(p: Plugin, events: seq<Event>)
    requires Legal(p, events) && OtherCommand !in p.posted
    ensures OtherCommand !in Run(p, events).posted
    decreases |events|
  {
    if events == [] {
    } else {
      OnlyCommandsPosted(Step(p, events[0]), events[1..]);
    }
  }

  /** In every run in which all posted work has been dispatched, the browser is suspended if the last posted
      command was suspend, and resumed if it was resume, and nothing else is ever posted. */
  lemma DrainedStateIsLastCommand(events: seq<Event>)
    requires Legal(Initial(), events)
    requires Run(Initial(), events).posted != [] && Run(Initial(), events).queue == []
    ensures var p := Run(Initial(), events);
            var last := p.posted[|p.posted| - 1];
            (last == SuspendCommand && p.state == Suspended) || (last == ResumeCommand && p.state == Resumed)
  {
    LastPostedCommandWins(events);
    OnlyCommandsPosted(Initial(), events);
  }

  class StateControl {
    var state: State
    var context: bool
    var running: bool
    var queue: seq<Command>
    var clients: seq<seq<State>>
    ghost var posted: seq<Command>
    ghost var dispatched: seq<Command>
    ghost var notified: seq<State>

    ghost function Now(): Plugin
      reads this
    {
      Plugin(state, context, running, queue, posted, dispatched, notified)
    }

    /** Every client has been told the same. */
    ghost predicate Valid()
      reads this
    {
      Inv(Now()) && forall i :: 0 <= i < |clients| ==> clients[i] == notified
    }

    constructor (clientCount: nat)
      ensures Valid() && Now() == Initial() && |clients| == clientCount
    {
      state, context, running := Uninitialized, false, false;
      queue, posted, dispatched, notified := [], [], [], [];
      clients := seq(clientCount, _ => []);
    }

    method Suspend()
      modifies `state, `queue, `posted
      ensures Now() == CarryOut(old(Now()), SuspendCommand)
    {
      if !context {
        state := Suspended;
      } else {
        queue, posted := queue + [SuspendCommand], posted + [SuspendCommand];
      }
    }

    method Resume()
      modifies `state, `queue, `posted
      ensures Now() == CarryOut(old(Now()), ResumeCommand)
    {
      if !context {
        state := Resumed;
      } else {
        queue, posted := queue + [ResumeCommand], posted + [ResumeCommand];
      }
    }

    /** True when the request is carried out or posted, false for an illegal state. */
    method RequestCommand(command: Command) returns (accepted: bool)
      requires Valid()
      modifies `state, `queue, `posted
      ensures Valid() && Now() == Request(old(Now()), command)
      ensures accepted == Accepts(old(Now()), command)
    {
      StepKeepsInv(Now(), Requested(command));
      accepted := false;
      if state == Uninitialized {
        state := if command == SuspendCommand then Suspended else Resumed;
        accepted := true;
      } else {
        match command {
          case SuspendCommand =>
            if state == Resumed {
              Suspend();
              accepted := true;
            }
          case ResumeCommand =>
            if state == Suspended {
              Resume();
              accepted := true;
            }
          case OtherCommand =>
        }
      }
    }

    method CreateContext()
      requires Valid() && !context
      modifies `context
      ensures Valid() && Now() == Step(old(Now()), ContextCreated)
    {
      context := true;
    }

    /** Changes the state and tells every client, if it is a change. */
    method OnStateChange(newState: State)
      requires forall i :: 0 <= i < |clients| ==> clients[i] == notified
      modifies `state, `clients, `notified
      ensures Now() == ChangeState(old(Now()), newState)
      ensures |clients| == |old(clients)| && forall i :: 0 <= i < |clients| ==> clients[i] == notified
    {
      if state != newState {
        state := newState;
        notified := notified + [newState];
        var index := 0;
        while index < |clients|
          invariant 0 <= index <= |clients| == |old(clients)|
          invariant Now() == ChangeState(old(Now()), newState)
          invariant forall i :: 0 <= i < index ==> clients[i] == notified
          invariant forall i :: index <= i < |clients| ==> clients[i] == old(notified)
        {
          clients := clients[index := clients[index] + [newState]];
          index := index + 1;
        }
      }
    }

    /** Moves into the state asked for so far; the main loop runs from then on. */
    method BeginLoop()
      requires Valid() && context && !running
      modifies `state, `clients, `notified, `running
      ensures Valid() && Now() == StartUp(old(Now()))
    {
      StepKeepsInv(Now(), StartedUp);
      if state == Suspended || state == Uninitialized {
        state := Uninitialized;
        OnStateChange(Suspended);
      } else {
        state := Uninitialized;
        OnStateChange(Resumed);
      }
      running := true;
    }

    /** The main loop carries out the oldest posted command. */
    method DispatchNext()
      requires Valid() && running && queue != []
      modifies `state, `clients, `notified, `queue, `dispatched
      ensures Valid() && Now() == Dispatch(old(Now()))
    {
      StepKeepsInv(Now(), Dispatched);
      var command := queue[0];
      queue, dispatched := queue[1..], dispatched + [command];
      match command {
        case SuspendCommand => OnStateChange(Suspended);
        case ResumeCommand => OnStateChange(Resumed);
        case OtherCommand => OnStateChange(Resumed);
      }
    }
  }
}
