/** What a request comes to, told from the events of the run alone: which of its own events a caller had,
    and which responses arrived when.
  */
module JsonRpcHistory {
  import opened Basics
  import opened JsonRpc

  // ---------------------------------------------------------------------------
  // How a caller returns
  // ---------------------------------------------------------------------------

  /** The ways through sendRequest after the request was let in. */
  datatype Way = Let | SendFailed | TimedOut | BecameReady

  /** The caller has taken this way. */
  predicate Took(way: Way, phase: Phase) {
    match way
    case Let => !phase.Checking? && !phase.Creating? && !phase.Sending? && phase != Done(Rejected)
    case SendFailed => phase == Done(NotSent) || (phase.Removing? && !phase.ready && !phase.sent)
    case TimedOut => phase == Done(NoResponse) || (phase.Removing? && !phase.ready && phase.sent)
    case BecameReady =>
      || (phase.Removing? && phase.ready)
      || phase.Processing?
      || (phase.Done? && phase.result.Answered?)
  }

  /** The event at which thread `t` takes the way. */
  predicate Takes(way: Way, t: Thread, e: Event) {
    match way
    case Let => e.Send? && e.t == t
    case SendFailed => e == Send(t, false)
    case TimedOut => e == TimeOut(t)
    case BecameReady => e == BecomeReady(t)
  }

  lemma StepTakes(s: System, e: Event, t: Thread, way: Way)
    requires Enabled(s, e) && t in Step(s, e).callers
    ensures Took(way, Step(s, e).callers[t].phase) <==>
            Takes(way, t, e) || (t in s.callers && Took(way, s.callers[t].phase))
  {
    match e {
      case Begin(_, _) =>
      case Create(_) =>
      case Remove(_) =>
      case _ =>
    }
  }

  lemma StepKeepsCaller(s: System, e: Event, t: Thread)
    requires Enabled(s, e) && t in s.callers
    ensures t in Step(s, e).callers && Step(s, e).callers[t].id == s.callers[t].id
  {
  }

  lemma {:induction false} RunKeepsCaller(s: System, events: seq<Event>, t: Thread)
    requires Legal(s, events) && t in s.callers
    ensures t in Run(s, events).callers && Run(s, events).callers[t].id == s.callers[t].id
    decreases |events|
  {
    if events == [] {
    } else {
      StepKeepsCaller(s, events[0], t);
      RunKeepsCaller(Step(s, events[0]), events[1..], t);
    }
  }

  lemma {:induction false} RunTakes(s: System, events: seq<Event>, t: Thread, way: Way)
    requires Legal(s, events) && t in Run(s, events).callers
    ensures Took(way, Run(s, events).callers[t].phase) <==>
            || (exists i :: 0 <= i < |events| && Takes(way, t, events[i]))
            || (t in s.callers && Took(way, s.callers[t].phase))
    decreases |events|
  {
    if events == [] {
    } else {
      var s', rest := Step(s, events[0]), events[1..];
      RunTakes(s', rest, t, way);
      if t in s'.callers {
        StepTakes(s, events[0], t, way);
      } else {
        NotYet(s, events[0], t, way);
      }
      assert forall i :: 0 <= i < |rest| ==> rest[i] == events[i + 1];
      assert forall i :: 0 < i < |events| ==> events[i] == rest[i - 1];
    }
  }

  /** A thread that has not begun takes no way. */
  lemma NotYet(s: System, e: Event, t: Thread, way: Way)
    requires Enabled(s, e) && t !in Step(s, e).callers
    ensures t !in s.callers && !Takes(way, t, e)
  {
    if t in s.callers {
      StepKeepsCaller(s, e, t);
    }
  }

  /** The result of a request is decided by the events of the run: it is rejected exactly when it never
      came to sending, reported as not sent exactly when sending failed, as unanswered exactly when the
      wait timed out, and answered exactly when the promise became ready first. */
  lemma ResultFollowsEvents(events: seq<Event>, t: Thread)
    requires Legal(Initial(), events)
    requires t in Run(Initial(), events).callers && Run(Initial(), events).callers[t].phase.Done?
    ensures var result := Run(Initial(), events).callers[t].phase.result;
            && (result.Rejected? <==> !exists i :: 0 <= i < |events| && events[i].Send? && events[i].t == t)
            && (result.NotSent? <==> Send(t, false) in events)
            && (result.NoResponse? <==> TimeOut(t) in events)
            && (result.Answered? <==> BecomeReady(t) in events)
  {
    RunTakes(Initial(), events, t, Let);
    RunTakes(Initial(), events, t, SendFailed);
    RunTakes(Initial(), events, t, TimedOut);
    RunTakes(Initial(), events, t, BecameReady);
  }

  // ---------------------------------------------------------------------------
  // Which answer it gets
  // ---------------------------------------------------------------------------

  function ReplyOf(e: Event): seq<(Id, Message)> {
    if e.Respond? then [(e.id, e.message)] else []
  }

  /** The responses of a run in order. */
  function Replies(events: seq<Event>): seq<(Id, Message)>
    decreases |events|
  {
    if events == [] then []
    else ReplyOf(events[0]) + Replies(events[1..])
  }

  /** The first response under the id. */
  function FirstReply(events: seq<Event>, id: Id): Option<Message>
    decreases |events|
  {
    if events == [] then None
    else if events[0].Respond? && events[0].id == id then Some(events[0].message)
    else FirstReply(events[1..], id)
  }

  lemma {:induction false} RunCollectsReplies(s: System, events: seq<Event>)
    requires Legal(s, events)
    ensures Run(s, events).responses == s.responses + Replies(events)
    decreases |events|
  {
    if events == [] {
    } else {
      var s', rest := Step(s, events[0]), events[1..];
      StepCollectsReply(s, events[0]);
      RunCollectsReplies(s', rest);
      Associate(s.responses, ReplyOf(events[0]), Replies(rest));
    }
  }

  lemma Associate<T>(a: seq<T>, b: seq<T>, c: seq<T>)
    ensures a + (b + c) == a + b + c
  {
  }

  lemma StepCollectsReply(s: System, e: Event)
    requires Enabled(s, e)
    ensures Step(s, e).responses == s.responses + ReplyOf(e)
  {
  }

  lemma {:induction false} RepliesSplit(events: seq<Event>, i: nat)
    requires i <= |events|
    ensures Replies(events) == Replies(events[..i]) + Replies(events[i..])
    decreases |events|
  {
    if i == 0 {
      assert events[i..] == events;
    } else {
      RepliesSplit(events[1..], i - 1);
      assert events[..i][1..] == events[1..][..i - 1] && events[i..] == events[1..][i - 1..];
      assert events[..i][0] == events[0];
    }
  }

  lemma {:induction false} FirstIsFirstReply(before: seq<(Id, Message)>, events: seq<Event>, id: Id, m: Message, k: int)
    requires FirstAt(before + Replies(events), id, |before|, m, k)
    ensures FirstReply(events, id) == Some(m)
    decreases |events|
  {
    var all := before + Replies(events);
    if events == [] {
      assert false;
    } else if events[0].Respond? {
      var first := (events[0].id, events[0].message);
      assert all == before + [first] + Replies(events[1..]);
      assert all[|before|] == first;
      if events[0].id != id {
        FirstIsFirstReply(before + [first], events[1..], id, m, k);
      }
    } else {
      assert Replies(events) == Replies(events[1..]);
      FirstIsFirstReply(before, events[1..], id, m, k);
    }
  }

  /** Where the promise was made. */
  lemma {:induction false} MadeAt(s: System, events: seq<Event>, p: nat) returns (i: nat)
    requires Inv(s) && Legal(s, events)
    requires |s.owners| <= p < |Run(s, events).owners|
    ensures Shape(Run(s, events)) && i < |events|
    ensures events[i] == Create(Run(s, events).owners[p])
    ensures Run(s, events).born[p] == |s.responses| + |Replies(events[..i])|
    decreases |events|
  {
    var s', rest := Step(s, events[0]), events[1..];
    StepKeepsInv(s, events[0]);
    RunKeepsInv(s', rest);
    if p < |s'.owners| {
      i := 0;
      PromisesStay(s', rest);
    } else {
      var j := MadeAt(s', rest, p);
      i := j + 1;
      assert events[..i][1..] == rest[..j] && events[..i][0] == events[0];
    }
  }

  lemma {:induction false} PromisesStay(s: System, events: seq<Event>)
    requires Legal(s, events)
    ensures s.owners <= Run(s, events).owners && s.born <= Run(s, events).born
    decreases |events|
  {
    if events == [] {
    } else {
      PromisesStay(Step(s, events[0]), events[1..]);
    }
  }

  /** A caller whose promise became ready returns the first response that arrived under its id after it
      had inserted its entry, and reports success exactly when that is a valid result with its id whose
      success label is true. */
  lemma ReadyCallerGetsFirstReply(events: seq<Event>, t: Thread) returns (i: nat)
    requires Legal(Initial(), events) && BecomeReady(t) in events
    requires t in Run(Initial(), events).callers && Run(Initial(), events).callers[t].phase.Done?
    ensures var c := Run(Initial(), events).callers[t];
            && i < |events| && events[i] == Create(t)
            && FirstReply(events[i + 1..], c.id).Some?
            && var m := FirstReply(events[i + 1..], c.id).value;
               c.phase.result == Answered(m, m.valid && m.id == c.id && m.isResult && m.success)
  {
    var s := Run(Initial(), events);
    ResultFollowsEvents(events, t);
    assert Reachable(s);
    AnswersAreOwn(s, t);
    i := AnswerIsFirstReply(events, t, s.callers[t].id, s.callers[t].phase.result.message);
  }

  lemma AnswerIsFirstReply(events: seq<Event>, t: Thread, id: Id, m: Message) returns (i: nat)
    requires Legal(Initial(), events) && Shape(Run(Initial(), events))
    requires t in Run(Initial(), events).callers && Run(Initial(), events).callers[t].id == id
    requires OwnResponse(Run(Initial(), events), t, m)
    ensures i < |events| && events[i] == Create(t) && FirstReply(events[i + 1..], id) == Some(m)
  {
    var s := Run(Initial(), events);
    var p, k := OwnPromise(s, t, id, m);
    i := MadeAt(Initial(), events, p);
    AllReplies(events);
    FirstReplyAfter(events, i, id, m, k);
  }

  /** The promise that the message answered, and where in the responses it did. */
  lemma OwnPromise(s: System, t: Thread, id: Id, m: Message) returns (p: nat, k: int)
    requires Shape(s) && t in s.callers && s.callers[t].id == id && OwnResponse(s, t, m)
    ensures p < |s.owners| && s.owners[p] == t && FirstAt(s.responses, id, s.born[p], m, k)
  {
    p :| p < |s.owners| && s.owners[p] == t && Delivered(s, id, s.born[p], m);
    k :| FirstAt(s.responses, id, s.born[p], m, k);
  }

  lemma AllReplies(events: seq<Event>)
    requires Legal(Initial(), events)
    ensures Run(Initial(), events).responses == Replies(events)
  {
    RunCollectsReplies(Initial(), events);
    assert [] + Replies(events) == Replies(events);
  }

  lemma FirstReplyAfter(events: seq<Event>, i: nat, id: Id, m: Message, k: int)
    requires i < |events| && !events[i].Respond?
    requires FirstAt(Replies(events), id, |Replies(events[..i])|, m, k)
    ensures FirstReply(events[i + 1..], id) == Some(m)
  {
    RepliesSplit(events, i);
    var later := events[i..];
    assert later[0] == events[i] && later[1..] == events[i + 1..];
    assert Replies(later) == Replies(later[1..]);
    FirstIsFirstReply(Replies(events[..i]), events[i + 1..], id, m, k);
  }

  /** The id of a caller is the one it began with. */
  lemma {:induction false} CallerKeepsId(s: System, events: seq<Event>, i: nat)
    requires Legal(s, events) && i < |events| && events[i].Begin?
    ensures events[i].t in Run(s, events).callers
    ensures Run(s, events).callers[events[i].t].id == events[i].id
    decreases |events|
  {
    if i == 0 {
      RunKeepsCaller(Step(s, events[0]), events[1..], events[0].t);
    } else {
      CallerKeepsId(Step(s, events[0]), events[1..], i - 1);
    }
  }

  /** A request is turned away, at the check or at the insertion, exactly when another caller holds the entry
      of its id at that moment; otherwise it goes on, with a fresh promise of its own once inserted. */
  lemma RejectedExactly(s: System, t: Thread)
    requires Reachable(s) && t in s.callers
    ensures Inv(s)
    ensures var id := s.callers[t].id;
            var taken := exists u :: u in s.callers && u != t && Holding(s.callers[u]) && s.callers[u].id == id;
            && (Enabled(s, Check(t)) ==>
                  Step(s, Check(t)).callers[t].phase == if taken then Done(Rejected) else Creating)
            && (Enabled(s, Create(t)) ==>
                  var s' := Step(s, Create(t));
                  if taken then s'.callers[t].phase == Done(Rejected) && s'.shared == s.shared
                  else
                    && s'.callers[t].phase.Sending? && s'.callers[t].phase.promise == |s.shared.values|
                    && s'.shared.promises == s.shared.promises[id := |s.shared.values|]
                    && s'.shared.values == s.shared.values + [None])
  {
    ReachableInv(s);
    KeysAreWaitingCallers(s);
  }

  /** A waiting caller can be handed its answer exactly when a response under its id has arrived since it
      made its promise. */
  lemma ReadyExactlyWhenAnswered(s: System, t: Thread)
    requires Reachable(s) && t in s.callers && s.callers[t].phase.Waiting?
    ensures Inv(s) && s.callers[t].phase.promise < |s.born|
    ensures Enabled(s, BecomeReady(t)) <==> AnsweredSince(s, s.callers[t].id, s.born[s.callers[t].phase.promise])
  {
    ReachableInv(s);
    assert CallerInv(s, t) && ValueInv(s, s.callers[t].id);
  }

  /** The steps of one request that is answered in time. */
  function AnsweredRequest(t: Thread, id: Id, m: Message): seq<Event> {
    [Begin(t, id), Check(t), Create(t), Send(t, true), Respond(id, m), BecomeReady(t), Remove(t), Process(t)]
  }

  /** A request on its own that is answered in time returns its answer, and leaves the map empty. */
  lemma AnsweredRequestReturns(t: Thread, id: Id, m: Message)
    ensures Legal(Initial(), AnsweredRequest(t, id, m))
    ensures var s := Run(Initial(), AnsweredRequest(t, id, m));
            && t in s.callers
            && s.callers[t].phase == Done(Answered(m, m.valid && m.id == id && m.isResult && m.success))
            && s.shared.promises == map[]
  {
    var begun := [Begin(t, id), Check(t), Create(t), Send(t, true)];
    var rest := [Respond(id, m), BecomeReady(t), Remove(t), Process(t)];
    var s4 := Waited(t, id);
    HandedOver(s4, t, id, m);
    FourSteps(s4, rest);
    RunsInSequence(Initial(), begun, rest);
    assert begun + rest == AnsweredRequest(t, id, m);
  }

  lemma FourSteps(s: System, events: seq<Event>)
    requires |events| == 4 && Enabled(s, events[0])
    requires var s1 := Step(s, events[0]);
             && Enabled(s1, events[1])
             && var s2 := Step(s1, events[1]);
                Enabled(s2, events[2]) && Enabled(Step(s2, events[2]), events[3])
    ensures Legal(s, events)
    ensures Run(s, events) == Step(Step(Step(Step(s, events[0]), events[1]), events[2]), events[3])
  {
    var s1 := Step(s, events[0]);
    var s2 := Step(s1, events[1]);
    var s3 := Step(s2, events[2]);
    assert events[3..][1..] == [] && events[3..][0] == events[3];
    FirstStep(s3, events[3..]);
    assert events[2..][1..] == events[3..] && events[2..][0] == events[2];
    FirstStep(s2, events[2..]);
    assert events[1..][1..] == events[2..] && events[1..][0] == events[1];
    FirstStep(s1, events[1..]);
    FirstStep(s, events);
  }

  lemma FirstStep(s: System, events: seq<Event>)
    requires events != [] && Enabled(s, events[0]) && Legal(Step(s, events[0]), events[1..])
    ensures Legal(s, events) && Run(s, events) == Run(Step(s, events[0]), events[1..])
  {
  }

  lemma {:induction false} RunsInSequence(s: System, a: seq<Event>, b: seq<Event>)
    requires Legal(s, a) && Legal(Run(s, a), b)
    ensures Legal(s, a + b) && Run(s, a + b) == Run(Run(s, a), b)
    decreases |a|
  {
    if a == [] {
      assert a + b == b;
    } else {
      assert (a + b)[1..] == a[1..] + b;
      RunsInSequence(Step(s, a[0]), a[1..], b);
    }
  }

  lemma HandedOver(s: System, t: Thread, id: Id, m: Message)
    requires s == System(Shared(map[id := 0], [None]), [t], [0], map[t := Caller(id, Waiting(0), 1, 0)], [], false)
    ensures var s5 := Step(s, Respond(id, m));
            && Enabled(s5, BecomeReady(t))
            && var s6 := Step(s5, BecomeReady(t));
               && Enabled(s6, Remove(t))
               && var s7 := Step(s6, Remove(t));
                  && Enabled(s7, Process(t))
                  && var s8 := Step(s7, Process(t));
                     && s8.callers.Keys == {t} && s8.shared.promises == map[]
                     && s8.callers[t].phase == Done(Answered(m, m.valid && m.id == id && m.isResult && m.success))
  {
    var s6 := Step(Step(s, Respond(id, m)), BecomeReady(t));
    assert Step(s6, Remove(t)).shared.promises == map[];
  }

  lemma Waited(t: Thread, id: Id) returns (s: System)
    ensures var events := [Begin(t, id), Check(t), Create(t), Send(t, true)];
            Legal(Initial(), events) && s == Run(Initial(), events)
    ensures s == System(Shared(map[id := 0], [None]), [t], [0], map[t := Caller(id, Waiting(0), 1, 0)], [], false)
  {
    var s1 := Step(Initial(), Begin(t, id));
    var s2 := Step(s1, Check(t));
    var s3 := Step(s2, Create(t));
    s := Step(s3, Send(t, true));
    var none: seq<Event> := [];
    assert Run(Initial(), none) == Initial();
    OneMore(Initial(), none, Begin(t, id));
    OneMore(Initial(), none + [Begin(t, id)], Check(t));
    OneMore(Initial(), none + [Begin(t, id)] + [Check(t)], Create(t));
    OneMore(Initial(), none + [Begin(t, id)] + [Check(t)] + [Create(t)], Send(t, true));
    assert none + [Begin(t, id)] + [Check(t)] + [Create(t)] + [Send(t, true)]
           == [Begin(t, id), Check(t), Create(t), Send(t, true)];
  }
}
