/** Matching JSON-RPC responses to requests: a map of promises shared by any number of calling threads
    and one receiving thread. Each section under the mutex is one atomic step.
  */
module JsonRpc {
  import opened Basics

  type Id = x: nat | x < 0x1_0000_0000
  type Thread = nat

  /** A response as it parses: whether it is a valid response, the id inside it, and whether it is a
      result whose "success" label is true. */
  datatype Message = Message(valid: bool, id: Id, isResult: bool, success: bool)

  /** The shared state: which promise waits for each id, and what each promise was given. */
  datatype Shared = Shared(promises: map<Id, nat>, values: seq<Option<Message>>)

  ghost predicate Bounded(s: Shared) {
    forall id :: id in s.promises ==> s.promises[id] < |s.values|
  }

  function Emplace(s: Shared, id: Id): Shared {
    if id in s.promises then s
    else Shared(s.promises[id := |s.values|], s.values + [None])
  }

  function Erase(s: Shared, id: Id): Shared {
    s.(promises := s.promises - {id})
  }

  /** A promise that already has a value refuses another one. */
  predicate Refused(s: Shared, id: Id)
    requires Bounded(s)
  {
    id in s.promises && s.values[s.promises[id]].Some?
  }

  function Deliver(s: Shared, id: Id, message: Message): Shared
    requires Bounded(s)
  {
    if id in s.promises && !Refused(s, id) then s.(values := s.values[s.promises[id] := Some(message)]) else s
  }

  function ProcessResponse(id: Id, message: Message): bool {
    message.valid && message.id == id && message.isResult && message.success
  }

  // ---------------------------------------------------------------------------
  // All interleavings
  // ---------------------------------------------------------------------------

  datatype Result =
    | Rejected                                    // a request with this id is being processed
    | NotSent
    | NoResponse
    | Answered(message: Message, success: bool)

  /** Where a caller is inside sendRequest. */
  datatype Phase =
    | Checking
    | Creating
    | Sending(promise: nat)
    | Waiting(promise: nat)
    | Removing(promise: nat, ready: bool, sent: bool)
    | Processing(promise: nat)
    | Done(result: Result)

  /** A caller, with the number of entries it has inserted and erased. */
  datatype Caller = Caller(id: Id, phase: Phase, inserted: nat, erased: nat)

  /** The whole system. `owners` and `born` tell of each promise which thread made it and how many
      responses had arrived before; `responses` are all responses in order of arrival. */
  datatype System = System(
    shared: Shared, owners: seq<Thread>, born: seq<nat>,
    callers: map<Thread, Caller>, responses: seq<(Id, Message)>, doubleFulfilled: bool)

  datatype Event =
    | Begin(t: Thread, id: Id)
    | Check(t: Thread)
    | Create(t: Thread)
    | Send(t: Thread, ok: bool)
    | BecomeReady(t: Thread)
    | TimeOut(t: Thread)
    | Remove(t: Thread)
    | Process(t: Thread)
    | Respond(id: Id, message: Message)

  ghost predicate Enabled(s: System, e: Event) {
    && Shape(s)
    && match e
       case Begin(t, _) => t !in s.callers
       case Check(t) => t in s.callers && s.callers[t].phase.Checking?
       case Create(t) => t in s.callers && s.callers[t].phase.Creating?
       case Send(t, _) => t in s.callers && s.callers[t].phase.Sending?
       case BecomeReady(t) =>
         && t in s.callers && s.callers[t].phase.Waiting?
         && s.callers[t].phase.promise < |s.shared.values|
         && s.shared.values[s.callers[t].phase.promise].Some?
       case TimeOut(t) => t in s.callers && s.callers[t].phase.Waiting?
       case Remove(t) => t in s.callers && s.callers[t].phase.Removing?
       case Process(t) =>
         && t in s.callers && s.callers[t].phase.Processing?
         && s.callers[t].phase.promise < |s.shared.values|
         && s.shared.values[s.callers[t].phase.promise].Some?
       case Respond(_, _) => true
  }

  function Goto(s: System, t: Thread, phase: Phase): System
    requires t in s.callers
  {
    s.(callers := s.callers[t := s.callers[t].(phase := phase)])
  }

  ghost function Step(s: System, e: Event): System
    requires Enabled(s, e)
  {
    match e
    case Begin(t, id) => s.(callers := s.callers[t := Caller(id, Checking, 0, 0)])
    case Check(t) =>
      Goto(s, t, if s.callers[t].id in s.shared.promises then Done(Rejected) else Creating)
    case Create(t) =>
      var c := s.callers[t];
      if c.id in s.shared.promises then Goto(s, t, Done(Rejected))
      else
        s.(shared := Emplace(s.shared, c.id), owners := s.owners + [t], born := s.born + [|s.responses|],
           callers := s.callers[t := c.(phase := Sending(|s.shared.values|), inserted := c.inserted + 1)])
    case Send(t, ok) =>
      var p := s.callers[t].phase.promise;
      Goto(s, t, if ok then Waiting(p) else Removing(p, false, false))
    case BecomeReady(t) => Goto(s, t, Removing(s.callers[t].phase.promise, true, true))
    case TimeOut(t) => Goto(s, t, Removing(s.callers[t].phase.promise, false, true))
    case Remove(t) =>
      var c := s.callers[t];
      var own := c.id in s.shared.promises && s.shared.promises[c.id] == c.phase.promise;
      var next := if c.phase.ready then Processing(c.phase.promise)
                  else Done(if c.phase.sent then NoResponse else NotSent);
      s.(shared := Erase(s.shared, c.id),
         callers := s.callers[t := c.(phase := next, erased := c.erased + if own then 1 else 0)])
    case Process(t) =>
      var m := s.shared.values[s.callers[t].phase.promise].value;
      Goto(s, t, Done(Answered(m, ProcessResponse(s.callers[t].id, m))))
    case Respond(id, message) =>
      s.(shared := Deliver(s.shared, id, message),
         responses := s.responses + [(id, message)],
         doubleFulfilled := s.doubleFulfilled || Refused(s.shared, id))
  }

  ghost predicate Legal(s: System, events: seq<Event>)
    decreases |events|
  {
    events != [] ==> Enabled(s, events[0]) && Legal(Step(s, events[0]), events[1..])
  }

  ghost function Run(s: System, events: seq<Event>): System
    requires Legal(s, events)
    decreases |events|
  {
    if events == [] then s else Run(Step(s, events[0]), events[1..])
  }

  function Initial(): System {
    System(Shared(map[], []), [], [], map[], [], false)
  }

  // ---------------------------------------------------------------------------
  // The invariant
  // ---------------------------------------------------------------------------

  ghost predicate Shape(s: System) {
    Bounded(s.shared) && |s.owners| == |s.born| == |s.shared.values|
  }

  /** The caller's entry is in the map. */
  predicate Holding(c: Caller) {
    c.phase.Sending? || c.phase.Waiting? || c.phase.Removing?
  }

  /** Every entry belongs to a caller that is between inserting and erasing it. */
  ghost predicate EntryInv(s: System, id: Id)
    requires Shape(s) && id in s.shared.promises
  {
    var p := s.shared.promises[id];
    var t := s.owners[p];
    t in s.callers && s.callers[t].id == id && Holding(s.callers[t]) && s.callers[t].phase.promise == p
  }

  /** A response with the promise's id arrived after the promise was made. */
  ghost predicate AnsweredSince(s: System, id: Id, from: nat) {
    exists k :: from <= k < |s.responses| && s.responses[k].0 == id
  }

  /** The response at `k` is the first one with the id from `from` on, and brings the message. */
  ghost predicate FirstAt(responses: seq<(Id, Message)>, id: Id, from: nat, m: Message, k: int) {
    && from <= k < |responses| && responses[k] == (id, m)
    && forall j :: from <= j < k ==> responses[j].0 != id
  }

  /** The first response with the id from `from` on brought the message. */
  ghost predicate Delivered(s: System, id: Id, from: nat, m: Message) {
    exists k :: FirstAt(s.responses, id, from, m, k)
  }

  /** What holds of a caller in its phase; one that holds an entry has inserted it and not erased it. */
  ghost predicate CallerInv(s: System, t: Thread)
    requires Shape(s) && t in s.callers
  {
    var c := s.callers[t];
    if Holding(c) then
      var p := c.phase.promise;
      && c.inserted == 1 && c.erased == 0
      && c.id in s.shared.promises && s.shared.promises[c.id] == p && s.owners[p] == t
      && (c.phase.Removing? && c.phase.ready ==> s.shared.values[p].Some?)
    else
      match c.phase
      case Processing(p) =>
        && c.inserted == c.erased == 1
        && p < |s.shared.values| && s.owners[p] == t
        && s.shared.values[p].Some? && Delivered(s, c.id, s.born[p], s.shared.values[p].value)
      case Done(Answered(m, success)) =>
        && c.inserted == c.erased == 1
        && success == ProcessResponse(c.id, m)
        && OwnResponse(s, t, m)
      case Done(NotSent) => c.inserted == c.erased == 1
      case Done(NoResponse) => c.inserted == c.erased == 1
      case _ => c.inserted == c.erased == 0
  }

  /** The message is the first that arrived under the caller's id after the caller had made a promise. */
  ghost predicate OwnResponse(s: System, t: Thread, m: Message)
    requires Shape(s) && t in s.callers
  {
    exists p :: 0 <= p < |s.owners| && s.owners[p] == t && Delivered(s, s.callers[t].id, s.born[p], m)
  }

  /** A waiting promise has a value exactly when a response with its id has arrived since it was
      made, and then it has the first one. */
  ghost predicate ValueInv(s: System, id: Id)
    requires Shape(s) && id in s.shared.promises
  {
    var p := s.shared.promises[id];
    && s.born[p] <= |s.responses|
    && (s.shared.values[p].Some? <==> AnsweredSince(s, id, s.born[p]))
    && (s.shared.values[p].Some? ==> Delivered(s, id, s.born[p], s.shared.values[p].value))
  }

  /** Two responses have had the same id. */
  ghost predicate RepeatedId(responses: seq<(Id, Message)>) {
    exists j, k :: 0 <= j < k < |responses| && responses[j].0 == responses[k].0
  }

  ghost predicate Inv(s: System) {
    && Shape(s)
    && (forall id :: id in s.shared.promises ==> EntryInv(s, id))
    && (forall id :: id in s.shared.promises ==> ValueInv(s, id))
    && (forall t :: t in s.callers ==> CallerInv(s, t))
    && (s.doubleFulfilled ==> RepeatedId(s.responses))
  }

  /** Histories only grow, and a value given to a promise stays. */
  ghost predicate Extends(s: System, s': System)
    requires Shape(s) && Shape(s')
  {
    && s.owners <= s'.owners && s.born <= s'.born && s.responses <= s'.responses
    && forall p :: 0 <= p < |s.shared.values| && s.shared.values[p].Some? ==>
         s'.shared.values[p] == s.shared.values[p]
  }

  lemma DeliveredStays(s: System, s': System, id: Id, from: nat, m: Message)
    requires s.responses <= s'.responses && Delivered(s, id, from, m)
    ensures Delivered(s', id, from, m)
  {
    var k :| FirstAt(s.responses, id, from, m, k);
    assert FirstAt(s'.responses, id, from, m, k);
  }

  /** A caller that does not move keeps its part of the invariant while its entry stays. */
  lemma OtherCaller(s: System, s': System, t: Thread)
    requires Shape(s) && Shape(s') && Extends(s, s')
    requires t in s.callers && t in s'.callers && s'.callers[t] == s.callers[t]
    requires CallerInv(s, t)
    requires var c := s.callers[t];
             Holding(c) ==> c.id in s'.shared.promises && s'.shared.promises[c.id] == s.shared.promises[c.id]
    ensures CallerInv(s', t)
  {
    var c := s.callers[t];
    if c.phase.Processing? {
      DeliveredStays(s, s', c.id, s.born[c.phase.promise], s.shared.values[c.phase.promise].value);
    } else if c.phase.Done? && c.phase.result.Answered? {
      var m := c.phase.result.message;
      var p :| 0 <= p < |s.owners| && s.owners[p] == t && Delivered(s, c.id, s.born[p], m);
      DeliveredStays(s, s', c.id, s.born[p], m);
      assert s'.owners[p] == t;
    }
  }

  /** A step in which one caller moves and the entries stay. */
  lemma MoveKeepsInv(s: System, s': System, t: Thread)
    requires Inv(s) && t in s'.callers
    requires s' == s.(callers := s.callers[t := s'.callers[t]])
    requires CallerInv(s', t)
    requires t in s.callers && Holding(s.callers[t]) ==>
               Holding(s'.callers[t]) && s'.callers[t].id == s.callers[t].id
               && s'.callers[t].phase.promise == s.callers[t].phase.promise
    ensures Inv(s')
  {
    forall u | u in s'.callers
      ensures CallerInv(s', u)
    {
      if u != t {
        OtherCaller(s, s', u);
      }
    }
    forall id | id in s'.shared.promises
      ensures EntryInv(s', id) && ValueInv(s', id)
    {
      assert EntryInv(s, id) && ValueInv(s, id);
    }
  }

  lemma CallerStepKeepsInv(s: System, e: Event)
    requires Inv(s) && Enabled(s, e)
    requires !e.Create? && !e.Remove? && !e.Respond?
    ensures Inv(Step(s, e))
  {
    var s' := Step(s, e);
    assert !e.Begin? ==> CallerInv(s, e.t);
    if e.Process? {
      var p := s.callers[e.t].phase.promise;
      assert s'.owners[p] == e.t && Delivered(s', s'.callers[e.t].id, s'.born[p], s.shared.values[p].value);
    }
    MoveKeepsInv(s, s', e.t);
  }

  /** All callers but one stay, and so do their entries. */
  lemma OtherCallers(s: System, s': System, mover: Thread)
    requires Inv(s) && Shape(s') && Extends(s, s') && s'.callers.Keys == s.callers.Keys
    requires forall t :: t in s.callers && t != mover ==> s'.callers[t] == s.callers[t]
    requires forall id :: id in s.shared.promises && s.owners[s.shared.promises[id]] != mover ==>
               id in s'.shared.promises && s'.shared.promises[id] == s.shared.promises[id]
    ensures forall t :: t in s'.callers && t != mover ==> CallerInv(s', t)
  {
    forall t | t in s'.callers && t != mover
      ensures CallerInv(s', t)
    {
      OtherCaller(s, s', t);
    }
  }

  lemma CreateKeepsInv(s: System, e: Event)
    requires Inv(s) && Enabled(s, e) && e.Create?
    ensures Inv(Step(s, e))
  {
    var s', c := Step(s, e), s.callers[e.t];
    assert CallerInv(s, e.t);
    if c.id in s.shared.promises {
      MoveKeepsInv(s, s', e.t);
    } else {
      CreateKeepsCallers(s, e);
      CreateKeepsEntries(s, e);
    }
  }

  lemma CreateKeepsCallers(s: System, e: Event)
    requires Inv(s) && Enabled(s, e) && e.Create? && s.callers[e.t].id !in s.shared.promises
    ensures var s' := Step(s, e);
            Shape(s') && forall t :: t in s'.callers ==> CallerInv(s', t)
  {
    assert CallerInv(s, e.t);
    OtherCallers(s, Step(s, e), e.t);
  }

  lemma CreateKeepsEntries(s: System, e: Event)
    requires Inv(s) && Enabled(s, e) && e.Create? && s.callers[e.t].id !in s.shared.promises
    ensures var s' := Step(s, e);
            Shape(s') && forall id :: id in s'.shared.promises ==> EntryInv(s', id) && ValueInv(s', id)
  {
    var s' := Step(s, e);
    assert CallerInv(s, e.t);
    forall id | id in s'.shared.promises
      ensures EntryInv(s', id) && ValueInv(s', id)
    {
      if id in s.shared.promises {
        OldEntry(s, s', e.t, id);
      }
    }
  }

  /** An entry stays in order while its value stays and only some other caller moves. */
  lemma OldEntry(s: System, s': System, mover: Thread, id: Id)
    requires Shape(s) && Shape(s') && Extends(s, s') && s'.responses == s.responses
    requires id in s.shared.promises && id in s'.shared.promises
    requires s'.shared.promises[id] == s.shared.promises[id]
    requires s'.shared.values[s.shared.promises[id]] == s.shared.values[s.shared.promises[id]]
    requires forall t :: t in s.callers && t != mover ==> t in s'.callers && s'.callers[t] == s.callers[t]
    requires s.owners[s.shared.promises[id]] != mover
    requires EntryInv(s, id) && ValueInv(s, id)
    ensures EntryInv(s', id) && ValueInv(s', id)
  {
    OldValue(s, s', id);
  }

  lemma OldValue(s: System, s': System, id: Id)
    requires Shape(s) && Shape(s') && Extends(s, s') && s'.responses == s.responses
    requires id in s.shared.promises && id in s'.shared.promises
    requires s'.shared.promises[id] == s.shared.promises[id]
    requires s'.shared.values[s.shared.promises[id]] == s.shared.values[s.shared.promises[id]]
    requires ValueInv(s, id)
    ensures ValueInv(s', id)
  {
  }

  /** The caller erases its own entry and no other. */
  lemma RemoveKeepsInv(s: System, e: Event)
    requires Inv(s) && Enabled(s, e) && e.Remove?
    ensures Inv(Step(s, e))
  {
    var s', c := Step(s, e), s.callers[e.t];
    assert CallerInv(s, e.t) && ValueInv(s, c.id);
    if c.phase.ready {
      DeliveredStays(s, s', c.id, s.born[c.phase.promise], s.shared.values[c.phase.promise].value);
    }
    assert CallerInv(s', e.t);
    OtherCallers(s, s', e.t);
    RemoveKeepsEntries(s, e);
  }

  lemma RemoveKeepsEntries(s: System, e: Event)
    requires Inv(s) && Enabled(s, e) && e.Remove?
    ensures var s' := Step(s, e);
            Shape(s') && forall id :: id in s'.shared.promises ==> EntryInv(s', id) && ValueInv(s', id)
  {
    var s' := Step(s, e);
    assert CallerInv(s, e.t);
    forall id | id in s'.shared.promises
      ensures EntryInv(s', id) && ValueInv(s', id)
    {
      OldEntry(s, s', e.t, id);
    }
  }

  lemma RespondKeepsInv(s: System, e: Event)
    requires Inv(s) && Enabled(s, e) && e.Respond?
    ensures Inv(Step(s, e))
  {
    var s' := Step(s, e);
    forall t | t in s'.callers
      ensures CallerInv(s', t)
    {
      OtherCaller(s, s', t);
    }
    forall id | id in s'.shared.promises
      ensures EntryInv(s', id) && ValueInv(s', id)
    {
      assert EntryInv(s, id);
      RespondKeepsValue(s, e, id);
    }
    if Refused(s.shared, e.id) {
      assert ValueInv(s, e.id);
      var p := s.shared.promises[e.id];
      var j :| s.born[p] <= j < |s.responses| && s.responses[j].0 == e.id;
      assert s'.responses[j].0 == s'.responses[|s.responses|].0;
    }
    if s.doubleFulfilled {
      var j, k :| 0 <= j < k < |s.responses| && s.responses[j].0 == s.responses[k].0;
      assert s'.responses[j].0 == s'.responses[k].0;
    }
  }

  lemma RespondKeepsValue(s: System, e: Event, id: Id)
    requires Inv(s) && Enabled(s, e) && e.Respond? && id in s.shared.promises
    ensures ValueInv(Step(s, e), id)
  {
    var s', p := Step(s, e), s.shared.promises[id];
    assert ValueInv(s, id) && EntryInv(s, id);
    assert s'.responses[|s.responses|] == (e.id, e.message);
    if e.id == id {
      if s.shared.values[p].Some? {
        DeliveredStays(s, s', id, s.born[p], s.shared.values[p].value);
      } else {
        assert FirstAt(s'.responses, id, s.born[p], e.message, |s.responses|);
      }
    } else {
      assert e.id in s.shared.promises ==> EntryInv(s, e.id);
      if s.shared.values[p].Some? {
        DeliveredStays(s, s', id, s.born[p], s.shared.values[p].value);
      }
    }
  }

  lemma StepKeepsInv(s: System, e: Event)
    requires Inv(s) && Enabled(s, e)
    ensures Inv(Step(s, e))
  {
    match e {
      case Create(_) => CreateKeepsInv(s, e);
      case Remove(_) => RemoveKeepsInv(s, e);
      case Respond(_, _) => RespondKeepsInv(s, e);
      case _ => CallerStepKeepsInv(s, e);
    }
  }

  lemma {:induction false} RunKeepsInv(s: System, events: seq<Event>)
    requires Inv(s) && Legal(s, events)
    ensures Inv(Run(s, events))
    decreases |events|
  {
    if events == [] {
    } else {
      StepKeepsInv(s, events[0]);
      RunKeepsInv(Step(s, events[0]), events[1..]);
    }
  }

  ghost predicate Reachable(s: System) {
    exists events :: Legal(Initial(), events) && s == Run(Initial(), events)
  }

  lemma ReachableInv(s: System)
    requires Reachable(s)
    ensures Inv(s)
  {
    var events :| Legal(Initial(), events) && s == Run(Initial(), events);
    RunKeepsInv(Initial(), events);
  }

  // ---------------------------------------------------------------------------
  // What holds in every interleaving
  // ---------------------------------------------------------------------------

  /** The keys of the map are exactly the ids of the callers between inserting and erasing an entry,
      and no two of those have the same id. */
  lemma KeysAreWaitingCallers(s: System)
    requires Reachable(s)
    ensures s.shared.promises.Keys == set t | t in s.callers && Holding(s.callers[t]) :: s.callers[t].id
    ensures forall t, u :: t in s.callers && u in s.callers && t != u
                           && Holding(s.callers[t]) && Holding(s.callers[u]) ==>
              s.callers[t].id != s.callers[u].id
  {
    ReachableInv(s);
    forall id | id in s.shared.promises
      ensures id in set t | t in s.callers && Holding(s.callers[t]) :: s.callers[t].id
    {
      assert EntryInv(s, id);
      var t := s.owners[s.shared.promises[id]];
      assert t in s.callers && Holding(s.callers[t]) && s.callers[t].id == id;
    }
    forall t | t in s.callers && Holding(s.callers[t])
      ensures s.callers[t].id in s.shared.promises
      ensures s.owners[s.shared.promises[s.callers[t].id]] == t
    {
      assert CallerInv(s, t);
    }
  }

  /** A caller that has returned erased its entry once if it inserted one, and inserted none if it
      was rejected. */
  lemma ReturnedCallersCleanedUp(s: System, t: Thread)
    requires Reachable(s) && t in s.callers && s.callers[t].phase.Done?
    ensures s.callers[t].erased == s.callers[t].inserted <= 1
    ensures s.callers[t].inserted == 0 <==> s.callers[t].phase.result.Rejected?
  {
    ReachableInv(s);
    assert CallerInv(s, t);
  }

  /** Erasing takes away the caller's own entry, and every other entry stays. */
  lemma RemoveTakesOwnEntry(s: System, t: Thread)
    requires Reachable(s) && Enabled(s, Remove(t))
    ensures var id, s' := s.callers[t].id, Step(s, Remove(t));
            && id in s.shared.promises && s.owners[s.shared.promises[id]] == t
            && s'.shared.promises.Keys == s.shared.promises.Keys - {id}
            && (forall other :: other in s'.shared.promises ==> s'.shared.promises[other] == s.shared.promises[other])
            && s'.callers[t].erased == s'.callers[t].inserted == 1
  {
    ReachableInv(s);
    assert CallerInv(s, t);
  }

  /** The event is a check or an insertion for an id that is already waited for, or a response that
      nobody waits for. */
  ghost predicate Stray(s: System, e: Event) {
    && Enabled(s, e)
    && match e
       case Check(t) => s.callers[t].id in s.shared.promises
       case Create(t) => s.callers[t].id in s.shared.promises
       case Respond(id, _) => id !in s.shared.promises
       case _ => false
  }

  /** The systems are the same to everyone but the thread `rejected`. */
  ghost predicate Alike(s: System, s': System, rejected: Option<Thread>) {
    && Shape(s) && Shape(s')
    && s'.shared == s.shared && s'.owners == s.owners && s'.doubleFulfilled == s.doubleFulfilled
    && s'.callers.Keys == s.callers.Keys
    && forall t :: t in s.callers && Some(t) != rejected ==> s'.callers[t] == s.callers[t]
  }

  /** The event is not a step of the thread. */
  predicate NotBy(e: Event, thread: Option<Thread>) {
    e.Respond? || Some(e.t) != thread
  }

  /** The thread that a stray event rejects. */
  function RejectedBy(e: Event): Option<Thread> {
    if e.Check? || e.Create? then Some(e.t) else None
  }

  /** Rejected requests and stray responses leave no trace: whatever the others go on to do, they could
      have done without them, and shared state and all other callers are the same after it. */
  lemma StrayTrafficChangesNothing(s: System, e: Event, events: seq<Event>)
    requires Stray(s, e)
    requires forall i :: 0 <= i < |events| ==> NotBy(events[i], RejectedBy(e))
    ensures e.Check? || e.Create? ==> Step(s, e).callers[e.t].phase == Done(Rejected)
    ensures Legal(s, events) <==> Legal(Step(s, e), events)
    ensures Legal(s, events) ==> Alike(Run(s, events), Run(Step(s, e), events), RejectedBy(e))
  {
    assert Alike(s, Step(s, e), RejectedBy(e));
    AlikeRuns(s, Step(s, e), events, RejectedBy(e));
  }

  lemma AlikeStep(s: System, s': System, e: Event, rejected: Option<Thread>)
    requires Alike(s, s', rejected) && NotBy(e, rejected)
    ensures Enabled(s, e) <==> Enabled(s', e)
    ensures Enabled(s, e) ==> Alike(Step(s, e), Step(s', e), rejected)
  {
    match e {
      case Create(_) =>
      case Remove(_) =>
      case Respond(_, _) =>
      case _ => AlikeMove(s, s', e, rejected);
    }
  }

  /** A step that moves only the caller itself. */
  lemma AlikeMove(s: System, s': System, e: Event, rejected: Option<Thread>)
    requires Alike(s, s', rejected) && NotBy(e, rejected)
    requires !e.Create? && !e.Remove? && !e.Respond?
    ensures Enabled(s, e) <==> Enabled(s', e)
    ensures Enabled(s, e) ==> Alike(Step(s, e), Step(s', e), rejected)
  {
  }

  lemma {:induction false} AlikeRuns(s: System, s': System, events: seq<Event>, rejected: Option<Thread>)
    requires Alike(s, s', rejected)
    requires forall i :: 0 <= i < |events| ==> NotBy(events[i], rejected)
    ensures Legal(s, events) <==> Legal(s', events)
    ensures Legal(s, events) ==> Alike(Run(s, events), Run(s', events), rejected)
    decreases |events|
  {
    if events == [] {
    } else {
      AlikeStep(s, s', events[0], rejected);
      if Enabled(s, events[0]) {
        AlikeRuns(Step(s, events[0]), Step(s', events[0]), events[1..], rejected);
      }
    }
  }

  /** A caller that returns an answer got a message that arrived under its id after it had made its
      promise, and reports success exactly when that message is a valid, successful result with its id. */
  lemma AnswersAreOwn(s: System, t: Thread)
    requires Reachable(s) && t in s.callers
    requires s.callers[t].phase.Done? && s.callers[t].phase.result.Answered?
    ensures Shape(s)
    ensures var r := s.callers[t].phase.result;
            && OwnResponse(s, t, r.message)
            && (r.success <==> r.message.valid && r.message.id == s.callers[t].id
                               && r.message.isResult && r.message.success)
  {
    ReachableInv(s);
    assert CallerInv(s, t);
  }

  /** A response fulfils a promise a second time exactly when its id is waited for and a response with
      that id has already arrived since the entry was made. */
  lemma SecondFulfilmentExactly(s: System, id: Id, m: Message)
    requires Reachable(s)
    ensures Inv(s)
    ensures Refused(s.shared, id) <==>
            id in s.shared.promises && AnsweredSince(s, id, s.born[s.shared.promises[id]])
    ensures Step(s, Respond(id, m)).doubleFulfilled <==>
            || s.doubleFulfilled
            || (id in s.shared.promises && AnsweredSince(s, id, s.born[s.shared.promises[id]]))
  {
    ReachableInv(s);
    if id in s.shared.promises {
      assert ValueInv(s, id);
    }
  }

  /** It does happen: two responses under the id of a waiting caller fulfil its promise twice. */
  lemma DoubleFulfilmentHappens(t: Thread, id: Id, m: Message) returns (s: System)
    ensures Reachable(s) && s.doubleFulfilled
  {
    var s1 := Step(Initial(), Begin(t, id));
    var s2 := Step(s1, Check(t));
    var s3 := Step(s2, Create(t));
    var s4 := Step(s3, Respond(id, m));
    s := Step(s4, Respond(id, m));
    var events: seq<Event> := [];
    assert Run(Initial(), events) == Initial();
    OneMore(Initial(), events, Begin(t, id));
    OneMore(Initial(), events + [Begin(t, id)], Check(t));
    OneMore(Initial(), events + [Begin(t, id)] + [Check(t)], Create(t));
    var three := events + [Begin(t, id)] + [Check(t)] + [Create(t)];
    OneMore(Initial(), three, Respond(id, m));
    OneMore(Initial(), three + [Respond(id, m)], Respond(id, m));
  }

  lemma {:induction false} OneMore(s: System, events: seq<Event>, e: Event)
    requires Legal(s, events) && Enabled(Run(s, events), e)
    ensures Legal(s, events + [e]) && Run(s, events + [e]) == Step(Run(s, events), e)
    decreases |events|
  {
    if events == [] {
      assert (events + [e])[0] == e && (events + [e])[1..] == [];
    } else {
      assert (events + [e])[1..] == events[1..] + [e];
      OneMore(Step(s, events[0]), events[1..], e);
    }
  }

  /** If the peer answers every id at most once, no promise is ever fulfilled twice. */
  lemma NoDoubleFulfilment(s: System)
    requires Reachable(s)
    requires forall j, k :: 0 <= j < k < |s.responses| ==> s.responses[j].0 != s.responses[k].0
    ensures !s.doubleFulfilled
  {
    ReachableInv(s);
  }

  /** Steps a caller is away from returning. */
  function StepsLeft(phase: Phase): nat {
    match phase
    case Checking => 6
    case Creating => 5
    case Sending(_) => 4
    case Waiting(_) => 3
    case Removing(_, _, _) => 2
    case Processing(_) => 1
    case Done(_) => 0
  }

  /** No caller is ever stuck: until it has returned it can move, whatever the others do. */
  lemma CallersCanMove(s: System, t: Thread) returns (e: Event)
    requires Reachable(s) && t in s.callers && !s.callers[t].phase.Done?
    ensures Enabled(s, e) && !e.Begin? && !e.Respond? && e.t == t
  {
    ReachableInv(s);
    assert CallerInv(s, t);
    match s.callers[t].phase {
      case Checking => e := Check(t);
      case Creating => e := Create(t);
      case Sending(_) => e := Send(t, true);
      case Waiting(_) => e := TimeOut(t);
      case Removing(_, _, _) => e := Remove(t);
      case Processing(_) => e := Process(t);
    }
  }

  /** Each move brings a caller nearer to returning, and no step of anybody else takes it back. */
  lemma MovesApproachReturn(s: System, t: Thread, e: Event)
    requires Enabled(s, e) && t in s.callers
    ensures t in Step(s, e).callers
    ensures !e.Begin? && !e.Respond? && e.t == t ==>
              StepsLeft(Step(s, e).callers[t].phase) < StepsLeft(s.callers[t].phase)
    ensures e.Respond? || e.t != t ==> Step(s, e).callers[t] == s.callers[t]
  {
    match e {
      case Begin(_, _) =>
      case Check(_) =>
      case Create(_) =>
      case _ =>
    }
  }

  // ---------------------------------------------------------------------------
  // The interface object
  // ---------------------------------------------------------------------------

  /** A step that another thread takes on the map. */
  datatype Traffic = Inserts(id: Id) | Erases(id: Id) | Arrives(id: Id, message: Message)

  function Other(s: Shared, traffic: Traffic): (s': Shared)
    requires Bounded(s)
    ensures Bounded(s')
  {
    match traffic
    case Inserts(id) => Emplace(s, id)
    case Erases(id) => Erase(s, id)
    case Arrives(id, message) => Deliver(s, id, message)
  }

  function Others(s: Shared, meanwhile: seq<Traffic>): (s': Shared)
    requires Bounded(s)
    ensures Bounded(s')
    decreases |meanwhile|
  {
    if meanwhile == [] then s
    else Other(Others(s, meanwhile[..|meanwhile| - 1]), meanwhile[|meanwhile| - 1])
  }

  datatype Delivery = Dropped | Stored | AlreadyFulfilled

  class JsonRpcInterface {
    var responseToPromise: map<Id, nat>
    var values: seq<Option<Message>>

    ghost function Now(): Shared
      reads this
    {
      Shared(responseToPromise, values)
    }

    constructor ()
      ensures Now() == Initial().shared && Bounded(Now())
    {
      responseToPromise, values := map[], [];
    }

    method IsRequestProcessingOngoing(id: Id) returns (ongoing: bool)
      ensures ongoing <==> id in responseToPromise
    {
      ongoing := id in responseToPromise;
    }

    /** Inserts a promise for the id; none when one is already there. */
    method CreateFutureResponse(id: Id) returns (future: Option<nat>)
      requires Bounded(Now())
      modifies this
      ensures Bounded(Now()) && Now() == Emplace(old(Now()), id)
      ensures future == if id in old(responseToPromise) then None else Some(|old(values)|)
    {
      if id in responseToPromise {
        return None;
      }
      future := Some(|values|);
      responseToPromise := responseToPromise[id := |values|];
      values := values + [None];
    }

    method RemovePromise(id: Id)
      requires Bounded(Now())
      modifies `responseToPromise
      ensures Bounded(Now()) && Now() == Erase(old(Now()), id)
    {
      responseToPromise := responseToPromise - {id};
    }

    /** Hands a response to the promise that waits for its id. */
    method HandleResponse(id: Id, message: Message) returns (delivery: Delivery)
      requires Bounded(Now())
      modifies `values
      ensures Bounded(Now()) && Now() == Deliver(old(Now()), id, message)
      ensures delivery == if id !in responseToPromise then Dropped
                          else if old(Refused(Now(), id)) then AlreadyFulfilled else Stored
    {
      if id !in responseToPromise {
        return Dropped;
      }
      var promise := responseToPromise[id];
      if values[promise].Some? {
        return AlreadyFulfilled;
      }
      values := values[promise := Some(message)];
      delivery := Stored;
    }

    /** What another thread does with the map. */
    method LetOther(traffic: Traffic)
      requires Bounded(Now())
      modifies this
      ensures Bounded(Now()) && Now() == Other(old(Now()), traffic)
    {
      match traffic {
        case Inserts(other) => var future := CreateFutureResponse(other);
        case Erases(other) => RemovePromise(other);
        case Arrives(other, message) => var delivery := HandleResponse(other, message);
      }
    }

    /** A whole request: `sent` is whether sending succeeds and `meanwhile` what other threads do before the
        wait ends. Nobody else erases the entry, since callers erase only their own. On return the map
        has exactly the ids that the others left in it, and success is reported exactly when the request was
        sent and the first response under its id is a successful result with that id. */
    method SendRequest(id: Id, sent: bool, meanwhile: seq<Traffic>) returns (success: bool)
      requires Bounded(Now())
      requires forall i :: 0 <= i < |meanwhile| ==> meanwhile[i] != Erases(id)
      modifies this
      ensures Bounded(Now())
      ensures id in old(responseToPromise) ==> Now() == old(Now())
      ensures id !in old(responseToPromise) ==>
                Now() == Erase(Others(Emplace(old(Now()), id), if sent then meanwhile else []), id)
      ensures id !in old(responseToPromise) ==>
                responseToPromise.Keys == KeysOfOthers(old(responseToPromise).Keys, id, if sent then meanwhile else [])
      ensures success <==>
              && id !in old(responseToPromise) && sent
              && exists k :: FirstAnswer(meanwhile, id, k) && ProcessResponse(id, meanwhile[k].message)
    {
      var ongoing := IsRequestProcessingOngoing(id);
      if ongoing {
        return false;
      }
      var future := CreateFutureResponse(id);
      if future.None? {
        return false;
      }
      if !sent {
        RemovePromise(id);
        return false;
      }
      success := GetAsyncResponse(id, future.value, old(responseToPromise).Keys, meanwhile);
    }

    /** Waits for the promise while others go on, erases its entry, and processes what it was given. */
    method GetAsyncResponse(id: Id, promise: nat, ghost keys: set<Id>, meanwhile: seq<Traffic>)
      returns (success: bool)
      requires Waits(Now(), id, promise, keys, [])
      requires forall i :: 0 <= i < |meanwhile| ==> meanwhile[i] != Erases(id)
      modifies this
      ensures Bounded(Now()) && Now() == Erase(Others(old(Now()), meanwhile), id)
      ensures responseToPromise.Keys == KeysOfOthers(keys, id, meanwhile)
      ensures success <==> exists k :: FirstAnswer(meanwhile, id, k) && ProcessResponse(id, meanwhile[k].message)
    {
      var i := 0;
      assert meanwhile[..0] == [];
      while i < |meanwhile|
        invariant 0 <= i <= |meanwhile|
        invariant Waits(Now(), id, promise, keys, meanwhile[..i])
        invariant Now() == Others(old(Now()), meanwhile[..i])
      {
        WaitsOn(Now(), id, promise, keys, meanwhile[..i], meanwhile[i]);
        LetOther(meanwhile[i]);
        assert meanwhile[..i] + [meanwhile[i]] == meanwhile[..i + 1];
        assert meanwhile[..i + 1][..i] == meanwhile[..i];
        i := i + 1;
      }
      assert meanwhile[..i] == meanwhile;
      RemovePromise(id);
      if values[promise].None? {
        return false;
      }
      success := ProcessResponse(id, values[promise].value);
    }
  }

  /** What the others have done to the keys of the map; nobody but the caller touches `id`. */
  function KeysOfOthers(keys: set<Id>, id: Id, meanwhile: seq<Traffic>): set<Id> {
    if meanwhile == [] then keys
    else
      var before := KeysOfOthers(keys, id, meanwhile[..|meanwhile| - 1]);
      match meanwhile[|meanwhile| - 1]
      case Inserts(other) => if other == id then before else before + {other}
      case Erases(other) => before - {other}
      case Arrives(_, _) => before
  }

  /** The first response under the id is the one at `k`. */
  ghost predicate FirstAnswer(meanwhile: seq<Traffic>, id: Id, k: int) {
    && 0 <= k < |meanwhile| && meanwhile[k].Arrives? && meanwhile[k].id == id
    && forall j :: 0 <= j < k ==> !(meanwhile[j].Arrives? && meanwhile[j].id == id)
  }

  /** The caller's promise is still its own, and has the first answer if there was one. */
  ghost predicate Waits(s: Shared, id: Id, promise: nat, keys: set<Id>, meanwhile: seq<Traffic>) {
    && Bounded(s) && promise < |s.values|
    && id in s.promises && s.promises[id] == promise
    && (forall other :: other in s.promises && other != id ==> s.promises[other] != promise)
    && id !in KeysOfOthers(keys, id, meanwhile)
    && s.promises.Keys == KeysOfOthers(keys, id, meanwhile) + {id}
    && match s.values[promise]
       case None => forall j :: 0 <= j < |meanwhile| ==> !(meanwhile[j].Arrives? && meanwhile[j].id == id)
       case Some(m) => exists k :: FirstAnswer(meanwhile, id, k) && meanwhile[k].message == m
  }

  lemma WaitsOn(s: Shared, id: Id, promise: nat, keys: set<Id>, meanwhile: seq<Traffic>, traffic: Traffic)
    requires Waits(s, id, promise, keys, meanwhile) && traffic != Erases(id)
    ensures Waits(Other(s, traffic), id, promise, keys, meanwhile + [traffic])
  {
    var more := meanwhile + [traffic];
    var s' := Other(s, traffic);
    assert more[..|more| - 1] == meanwhile && more[|meanwhile|] == traffic;
    if s.values[promise].Some? {
      var k :| FirstAnswer(meanwhile, id, k) && meanwhile[k].message == s.values[promise].value;
      assert FirstAnswer(more, id, k);
    } else if traffic.Arrives? && traffic.id == id {
      assert FirstAnswer(more, id, |meanwhile|);
    }
  }
}
