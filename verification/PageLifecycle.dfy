/** The page lifecycle of the browser launcher: the six page states, the route that a request
    for a state takes through them, and the page operations that each step issues.
  */
module PageLifecycle {

  datatype PageState = Initializing | Active | Passive | Hidden | Frozen | Terminated

  /** The calls that a state change makes on the page. */
  datatype Op = Show | Hide | Focus | Blur | Freeze | Resume | TryClose

  /** The state to go to next on the way from `current` to `target`. */
  function NextState(current: PageState, target: PageState): PageState {
    match current
    case Initializing =>
      (match target case Frozen | Terminated => Hidden case _ => target)
    case Active =>
      (match target case Hidden | Frozen | Terminated => Passive case _ => target)
    case Passive =>
      (match target case Frozen | Terminated => Hidden case _ => target)
    case Hidden =>
      (match target case Active => Passive case _ => target)
    case Frozen =>
      (match target case Passive | Active | Terminated => Hidden case _ => target)
    case Terminated => target
  }

  // ---------------------------------------------------------------------------
  // The documented diagram
  // ---------------------------------------------------------------------------

  /** The seven lines of the diagram. */
  predicate Line(a: PageState, b: PageState) {
    match (a, b)
    case (Initializing, Active) => true
    case (Initializing, Passive) => true
    case (Initializing, Hidden) => true
    case (Active, Passive) => true
    case (Passive, Hidden) => true
    case (Hidden, Terminated) => true
    case (Hidden, Frozen) => true
    case _ => false
  }

  predicate Linked(a: PageState, b: PageState) {
    Line(a, b) || Line(b, a)
  }

  /** A step that a page can take: along a line, never out of Terminated or back into Initializing. */
  predicate Edge(a: PageState, b: PageState) {
    Linked(a, b) && !a.Terminated? && !b.Initializing?
  }

  /** `steps` leads from `a` to `b` along the lines of the diagram, in either direction. */
  ghost predicate IsWalk(a: PageState, steps: seq<PageState>, b: PageState)
    decreases |steps|
  {
    if steps == [] then a == b else Linked(a, steps[0]) && IsWalk(steps[0], steps[1..], b)
  }

  /** As `IsWalk`, but only with steps a page can take. */
  ghost predicate IsPath(a: PageState, steps: seq<PageState>, b: PageState)
    decreases |steps|
  {
    if steps == [] then a == b else Edge(a, steps[0]) && IsPath(steps[0], steps[1..], b)
  }

  /** How many steps `s` is away from `target`. */
  function Distance(s: PageState, target: PageState): nat {
    match target
    case Initializing =>
      (match s
       case Initializing => 0
       case Active | Passive | Hidden => 1
       case Frozen | Terminated => 2)
    case Active =>
      (match s
       case Active => 0
       case Initializing | Passive => 1
       case Hidden => 2
       case Frozen | Terminated => 3)
    case Passive =>
      (match s
       case Passive => 0
       case Initializing | Active | Hidden => 1
       case Frozen | Terminated => 2)
    case Hidden =>
      (match s
       case Hidden => 0
       case Initializing | Passive | Frozen | Terminated => 1
       case Active => 2)
    case Frozen =>
      (match s
       case Frozen => 0
       case Hidden => 1
       case Initializing | Passive | Terminated => 2
       case Active => 3)
    case Terminated =>
      (match s
       case Terminated => 0
       case Hidden => 1
       case Initializing | Passive | Frozen => 2
       case Active => 3)
  }

  /** No walk through the diagram is shorter than the distance. */
  lemma {:induction false} DistanceIsShortest(a: PageState, steps: seq<PageState>, b: PageState)
    requires IsWalk(a, steps, b)
    ensures |steps| >= Distance(a, b)
    decreases |steps|
  {
    if steps == [] {
    } else {
      DistanceIsShortest(steps[0], steps[1..], b);
    }
  }

  /** A request is carried out unless it is for the present state, for Initializing, or comes too late. */
  predicate Accepted(current: PageState, target: PageState) {
    current != target && !target.Initializing? && !current.Terminated?
  }

  lemma NextStateApproaches(current: PageState, target: PageState)
    requires Accepted(current, target)
    ensures Edge(current, NextState(current, target))
    ensures Distance(NextState(current, target), target) == Distance(current, target) - 1
    ensures NextState(current, target) == target || Accepted(NextState(current, target), target)
  {
  }

  /** The states that a request for `target` passes through, `target` last. */
  function Route(current: PageState, target: PageState): seq<PageState>
    requires Accepted(current, target)
    decreases Distance(current, target)
  {
    NextStateApproaches(current, target);
    var next := NextState(current, target);
    [next] + if next == target then [] else Route(next, target)
  }

  /** Every route follows the diagram, has at most three steps, and no walk is shorter. */
  lemma {:induction false} RouteIsShortestPath(current: PageState, target: PageState)
    requires Accepted(current, target)
    ensures IsPath(current, Route(current, target), target)
    ensures 1 <= |Route(current, target)| <= 3
    ensures forall steps :: IsWalk(current, steps, target) ==> |Route(current, target)| <= |steps|
  {
    RouteIsPath(current, target);
    forall steps | IsWalk(current, steps, target)
      ensures |Route(current, target)| <= |steps|
    {
      DistanceIsShortest(current, steps, target);
    }
  }

  lemma {:induction false} RouteIsPath(current: PageState, target: PageState)
    requires Accepted(current, target)
    ensures IsPath(current, Route(current, target), target)
    ensures |Route(current, target)| == Distance(current, target)
    decreases Distance(current, target)
  {
    NextStateApproaches(current, target);
    var next := NextState(current, target);
    if next != target {
      RouteIsPath(next, target);
      assert Route(current, target)[1..] == Route(next, target);
    } else {
      assert Route(current, target)[1..] == [];
    }
  }

  // ---------------------------------------------------------------------------
  // Page operations
  // ---------------------------------------------------------------------------

  /** The calls made on the page when the state changes from `current` to `next`. */
  function Operations(current: PageState, next: PageState): seq<Op> {
    match next
    case Active => (if current.Initializing? then [Show] else []) + [Focus]
    case Passive =>
      (match current
       case Active => [Blur]
       case Hidden | Initializing => [Show]
       case _ => [])
    case Hidden =>
      (match current
       case Initializing => [Blur, Hide]
       case Passive => [Hide]
       case Frozen => [Resume]
       case _ => [])
    case Frozen => [Freeze]
    case Terminated | Initializing => []
  }

  /** The calls made along the route to `target`; none when the request is not carried out. */
  function RequestOperations(current: PageState, target: PageState): seq<Op>
    decreases Distance(current, target)
  {
    if !Accepted(current, target) then []
    else
      NextStateApproaches(current, target);
      var next := NextState(current, target);
      Operations(current, next) + RequestOperations(next, target)
  }

  /** The state after a request for `target`. */
  function AfterRequest(current: PageState, target: PageState): PageState {
    if Accepted(current, target) then target else current
  }

  /** A request leads to its target, unless the target is Initializing or the page is terminated. */
  lemma RequestLeadsToTarget(current: PageState, target: PageState)
    ensures AfterRequest(current, target) ==
            if target.Initializing? || current.Terminated? then current else target
  {
  }

  datatype Flags = Flags(visible: bool, focused: bool, frozen: bool)

  datatype Flag = VisibleFlag | FocusedFlag | FrozenFlag

  function Get(page: Flags, flag: Flag): bool {
    match flag
    case VisibleFlag => page.visible
    case FocusedFlag => page.focused
    case FrozenFlag => page.frozen
  }

  /** What an operation does to the page. Whether hiding also takes the focus away depends on
      the engine, so every result below is stated for both. */
  function Apply(hideBlurs: bool, op: Op, page: Flags): Flags {
    match op
    case Show => page.(visible := true)
    case Hide => page.(visible := false, focused := page.focused && !hideBlurs)
    case Focus => page.(focused := true)
    case Blur => page.(focused := false)
    case Freeze => page.(frozen := true)
    case Resume => page.(frozen := false)
    case TryClose => page
  }

  function ApplyAll(hideBlurs: bool, ops: seq<Op>, page: Flags): Flags {
    if ops == [] then page else ApplyAll(hideBlurs, ops[1..], Apply(hideBlurs, ops[0], page))
  }

  /** The operation decides the flag. */
  predicate Writes(hideBlurs: bool, op: Op, flag: Flag) {
    match flag
    case VisibleFlag => op.Show? || op.Hide?
    case FocusedFlag => op.Focus? || op.Blur? || (op.Hide? && hideBlurs)
    case FrozenFlag => op.Freeze? || op.Resume?
  }

  predicate WritesAny(hideBlurs: bool, ops: seq<Op>, flag: Flag) {
    ops != [] && (Writes(hideBlurs, ops[0], flag) || WritesAny(hideBlurs, ops[1..], flag))
  }

  /** The flags a page in this state should have. A terminated page is closed while hidden. */
  function StateFlags(s: PageState): Flags
    requires !s.Initializing?
  {
    match s
    case Active => Flags(true, true, false)
    case Passive => Flags(true, false, false)
    case Hidden | Terminated => Flags(false, false, false)
    case Frozen => Flags(false, false, true)
  }

  lemma {:induction false} ApplyAllAppend(hideBlurs: bool, a: seq<Op>, b: seq<Op>, page: Flags)
    ensures ApplyAll(hideBlurs, a + b, page) == ApplyAll(hideBlurs, b, ApplyAll(hideBlurs, a, page))
  {
    if a == [] {
      assert a + b == b;
    } else {
      assert (a + b)[1..] == a[1..] + b;
      ApplyAllAppend(hideBlurs, a[1..], b, Apply(hideBlurs, a[0], page));
    }
  }

  lemma ApplyWrites(hideBlurs: bool, op: Op, flag: Flag, p: Flags, q: Flags)
    ensures Writes(hideBlurs, op, flag) ==>
              Get(Apply(hideBlurs, op, p), flag) == Get(Apply(hideBlurs, op, q), flag)
    ensures !Writes(hideBlurs, op, flag) ==> Get(Apply(hideBlurs, op, p), flag) == Get(p, flag)
  {
  }

  /** A flag that no operation writes stays. */
  lemma {:induction false} UnwrittenStays(hideBlurs: bool, ops: seq<Op>, flag: Flag, p: Flags)
    requires !WritesAny(hideBlurs, ops, flag)
    ensures Get(ApplyAll(hideBlurs, ops, p), flag) == Get(p, flag)
  {
    if ops == [] {
    } else {
      ApplyWrites(hideBlurs, ops[0], flag, p, p);
      UnwrittenStays(hideBlurs, ops[1..], flag, Apply(hideBlurs, ops[0], p));
    }
  }

  /** Whatever the page was before, the last operation that writes a flag decides it. */
  lemma {:induction false} LastWriteWins(hideBlurs: bool, ops: seq<Op>, flag: Flag, p: Flags, q: Flags)
    requires WritesAny(hideBlurs, ops, flag)
    ensures Get(ApplyAll(hideBlurs, ops, p), flag) == Get(ApplyAll(hideBlurs, ops, q), flag)
  {
    var p', q' := Apply(hideBlurs, ops[0], p), Apply(hideBlurs, ops[0], q);
    if WritesAny(hideBlurs, ops[1..], flag) {
      LastWriteWins(hideBlurs, ops[1..], flag, p', q');
    } else {
      UnwrittenStays(hideBlurs, ops[1..], flag, p');
      UnwrittenStays(hideBlurs, ops[1..], flag, q');
      ApplyWrites(hideBlurs, ops[0], flag, p, q);
    }
  }

  /** `ops` turns a page with the flags of state `a` into one with those of state `b`, and does so
      robustly: a flag it writes ends up right from any page, a flag it does not write was right. */
  ghost predicate Drives(hideBlurs: bool, ops: seq<Op>, a: PageState, b: PageState)
    requires !a.Initializing? && !b.Initializing?
  {
    && ApplyAll(hideBlurs, ops, StateFlags(a)) == StateFlags(b)
    && forall flag :: !WritesAny(hideBlurs, ops, flag) ==> Get(StateFlags(a), flag) == Get(StateFlags(b), flag)
  }

  lemma StepDrives(hideBlurs: bool, a: PageState, b: PageState)
    requires Edge(a, b) && !a.Initializing?
    ensures ApplyAll(hideBlurs, Operations(a, b), StateFlags(a)) == StateFlags(b)
  {
    var ops := Operations(a, b);
    if ops != [] {
      assert ops == [ops[0]];
      assert ApplyAll(hideBlurs, ops, StateFlags(a)) == Apply(hideBlurs, ops[0], StateFlags(a));
    }
  }

  /** A request issues exactly the operations that turn the page of the old state into the page
      of the new one. */
  lemma {:induction false} RequestDrives(hideBlurs: bool, current: PageState, target: PageState)
    requires !current.Initializing?
    ensures !AfterRequest(current, target).Initializing?
    ensures Drives(hideBlurs, RequestOperations(current, target), current, AfterRequest(current, target))
    decreases Distance(current, target)
  {
    if Accepted(current, target) {
      NextStateApproaches(current, target);
      var next := NextState(current, target);
      StepDrives(hideBlurs, current, next);
      RequestDrives(hideBlurs, next, target);
      ApplyAllAppend(hideBlurs, Operations(current, next), RequestOperations(next, target), StateFlags(current));
    }
    var ops := RequestOperations(current, target);
    forall flag | !WritesAny(hideBlurs, ops, flag)
      ensures Get(StateFlags(current), flag) == Get(StateFlags(AfterRequest(current, target)), flag)
    {
      UnwrittenStays(hideBlurs, ops, flag, StateFlags(current));
    }
  }

  /** The first request, made by view creation, blurs and hides a page of unknown visibility and focus. */
  lemma FirstRequestHides(hideBlurs: bool, page: Flags)
    ensures RequestOperations(Initializing, Hidden) == [Blur, Hide]
    ensures ApplyAll(hideBlurs, [Blur, Hide], page) == StateFlags(Hidden).(frozen := page.frozen)
  {
    assert RequestOperations(Hidden, Hidden) == [];
    assert ApplyAll(hideBlurs, [Blur, Hide], page) == ApplyAll(hideBlurs, [Hide], Apply(hideBlurs, Blur, page));
  }

  /** The calls that the first request of all makes for each target. */
  lemma FirstRequestCalls()
    ensures RequestOperations(Initializing, Active) == [Show, Focus]
    ensures RequestOperations(Initializing, Passive) == [Show]
    ensures RequestOperations(Initializing, Frozen) == [Blur, Hide, Freeze]
    ensures RequestOperations(Initializing, Terminated) == [Blur, Hide]
  {
    NoMoreCalls(Active);
    NoMoreCalls(Passive);
    NoMoreCalls(Frozen);
    NoMoreCalls(Terminated);
    assert RequestOperations(Hidden, Frozen) == [Freeze];
    assert RequestOperations(Hidden, Terminated) == [];
  }

  lemma NoMoreCalls(s: PageState)
    ensures RequestOperations(s, s) == []
  {
  }

  /** They turn a page that is not frozen, but otherwise unknown, into the page of the target; only a page
      that is made Passive keeps the focus it has. */
  lemma FirstRequestPage(hideBlurs: bool, target: PageState, page: Flags)
    requires !target.Initializing? && !page.frozen
    ensures ApplyAll(hideBlurs, RequestOperations(Initializing, target), page)
            == if target.Passive? then StateFlags(Passive).(focused := page.focused) else StateFlags(target)
  {
    FirstRequestCalls();
    FirstRequestHides(hideBlurs, page);
    match target {
      case Active =>
        ApplyAllAppend(hideBlurs, [Show], [Focus], page);
        assert [Show] + [Focus] == [Show, Focus];
      case Frozen =>
        ApplyAllAppend(hideBlurs, [Blur, Hide], [Freeze], page);
        assert [Blur, Hide] + [Freeze] == [Blur, Hide, Freeze];
      case _ =>
    }
  }

  /** Each operation changes the page as it is at its turn. */
  predicate EachMatters(hideBlurs: bool, ops: seq<Op>, page: Flags) {
    ops != [] ==>
      var after := Apply(hideBlurs, ops[0], page);
      after != page && EachMatters(hideBlurs, ops[1..], after)
  }

  lemma {:induction false} EachMattersAppend(hideBlurs: bool, a: seq<Op>, b: seq<Op>, page: Flags)
    requires EachMatters(hideBlurs, a, page) && EachMatters(hideBlurs, b, ApplyAll(hideBlurs, a, page))
    ensures EachMatters(hideBlurs, a + b, page)
  {
    if a == [] {
      assert a + b == b;
    } else {
      assert (a + b)[0] == a[0] && (a + b)[1..] == a[1..] + b;
      EachMattersAppend(hideBlurs, a[1..], b, Apply(hideBlurs, a[0], page));
    }
  }

  lemma StepMatters(hideBlurs: bool, a: PageState, b: PageState)
    requires Edge(a, b) && !a.Initializing?
    ensures EachMatters(hideBlurs, Operations(a, b), StateFlags(a)) && |Operations(a, b)| <= 1
  {
    var ops := Operations(a, b);
    assert ops != [] ==> ops[1..] == [];
  }

  /** No request makes an idle call: on a page in the state it stands for, every call changes a flag at its
      turn, and there are no more calls than steps. */
  lemma {:induction false} RequestCallsMatter(hideBlurs: bool, current: PageState, target: PageState)
    requires !current.Initializing?
    ensures EachMatters(hideBlurs, RequestOperations(current, target), StateFlags(current))
    ensures |RequestOperations(current, target)| <= Distance(current, target)
    decreases Distance(current, target)
  {
    if Accepted(current, target) {
      NextStateApproaches(current, target);
      var next := NextState(current, target);
      StepDrives(hideBlurs, current, next);
      StepMatters(hideBlurs, current, next);
      RequestCallsMatter(hideBlurs, next, target);
      EachMattersAppend(hideBlurs, Operations(current, next), RequestOperations(next, target), StateFlags(current));
    }
  }
}
