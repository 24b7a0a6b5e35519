/** The front panel's blink player: it shows a list of settings one after the other, the whole list once
    and then as often again as asked for.
  */
module Blink {

  /** The player with the items it has shown since it was started. */
  datatype Player<T> = Player(
    list: seq<T>, index: nat, blinks: nat, repeats: int, blinking: bool, scheduled: bool, shown: seq<T>)

  datatype Event = TimerFired | Stopped

  function Stop<T>(p: Player<T>): Player<T> {
    p.(blinking := false, scheduled := false)
  }

  function Start<T>(p: Player<T>, repeats: int): Player<T> {
    var started := Stop(p).(blinks := 0, blinking := true, repeats := repeats, index := 0, shown := []);
    if p.list == [] then started else started.(shown := [p.list[0]], scheduled := true)
  }

  /** Shows the item at the index and keeps the timer going. */
  function ShowNext<T>(p: Player<T>): Player<T>
    requires p.index < |p.list|
  {
    p.(shown := p.shown + [p.list[p.index]], scheduled := p.blinking)
  }

  function Fire<T>(p: Player<T>): Player<T>
    requires p.list != []
  {
    var moved := p.(index := p.index + 1, scheduled := false);
    if moved.index < |p.list| then ShowNext(moved)
    else
      var wrapped := moved.(index := 0, blinks := p.blinks + 1);
      if p.repeats < 0 || wrapped.blinks <= p.repeats then ShowNext(wrapped) else wrapped
  }

  /** A timer that is not scheduled cannot fire. */
  function Step<T>(p: Player<T>, e: Event): Player<T> {
    match e
    case TimerFired => if p.scheduled && p.list != [] then Fire(p) else p
    case Stopped => Stop(p)
  }

  function Run<T>(p: Player<T>, events: seq<Event>): Player<T>
    decreases |events|
  {
    if events == [] then p else Run(Step(p, events[0]), events[1..])
  }

  function Firings(k: nat): seq<Event> {
    seq(k, _ => TimerFired)
  }

  /** The first `k` items of the list repeated for ever. */
  function Cyclic<T>(list: seq<T>, k: nat): seq<T>
    requires list != []
  {
    seq(k, i requires 0 <= i < k => list[i % |list|])
  }

  /** How many items a run shows: the whole list once and `repeats` times more. */
  function Total(n: nat, repeats: nat): nat {
    n * (repeats + 1)
  }

  /** While the timer is scheduled, `k` firings have shown `k + 1` items, and index and repeat counter say
      where in the list and in which round that is. */
  ghost predicate InRound<T>(p: Player<T>, k: nat) {
    && p.list != [] && p.index == k % |p.list| && p.blinks == k / |p.list|
    && p.shown == Cyclic(p.list, k + 1)
    && p.blinking && p.scheduled
    && (p.repeats >= 0 ==> p.blinks <= p.repeats)
  }

  lemma NextPlace(k: nat, n: nat)
    requires n >= 1
    ensures k % n + 1 < n ==> (k + 1) % n == k % n + 1 && (k + 1) / n == k / n
    ensures k % n + 1 == n ==> (k + 1) % n == 0 && (k + 1) / n == k / n + 1
  {
    var q, r := k / n, k % n;
    assert k == q * n + r;
    if r + 1 < n {
      PlaceIs(k + 1, n, q, r + 1);
    } else {
      assert (q + 1) * n == q * n + n;
      PlaceIs(k + 1, n, q + 1, 0);
    }
  }

  lemma PlaceIs(k: nat, n: nat, q: nat, r: nat)
    requires n >= 1 && r < n && k == q * n + r
    ensures k / n == q && k % n == r
  {
    var q', r' := k / n, k % n;
    assert k == q' * n + r';
    if q' < q {
      RoundApart(q', q, n);
    } else if q' > q {
      RoundApart(q, q', n);
    }
  }

  lemma {:induction false} RoundApart(q: nat, q': nat, n: nat)
    requires q < q'
    ensures q * n + n <= q' * n
  {
    if q + 1 < q' {
      RoundApart(q, q' - 1, n);
    }
  }

  /** A place is in the last round or an earlier one exactly when it is below the total. */
  lemma RoundWithinTotal(k: nat, n: nat, repeats: nat)
    requires n >= 1
    ensures k / n <= repeats <==> k < Total(n, repeats)
  {
    var q, r := k / n, k % n;
    assert k == q * n + r;
    if q <= repeats {
      assert q * n <= repeats * n;
      assert n * (repeats + 1) == repeats * n + n;
    } else {
      assert q * n >= (repeats + 1) * n == n * (repeats + 1);
    }
  }

  lemma CyclicGrows<T>(list: seq<T>, k: nat)
    requires list != []
    ensures Cyclic(list, k + 1) == Cyclic(list, k) + [list[k % |list|]]
  {
  }

  lemma StartInRound<T>(p: Player<T>, repeats: int)
    requires p.list != []
    ensures InRound(Start(p, repeats), 0)
  {
    PlaceIs(0, |p.list|, 0, 0);
    assert Cyclic(p.list, 1) == [p.list[0]];
  }

  /** A firing shows the next item, or ends the run after the last round. */
  lemma FireInRound<T>(p: Player<T>, k: nat)
    requires InRound(p, k)
    ensures var p' := Fire(p);
            && p'.list == p.list && p'.repeats == p.repeats
            && if p.repeats < 0 || k + 1 < Total(|p.list|, p.repeats) then InRound(p', k + 1)
               else k + 1 == Total(|p.list|, p.repeats) && p'.shown == p.shown && !p'.scheduled
  {
    NextPlace(k, |p.list|);
    CyclicGrows(p.list, k + 1);
    if p.repeats >= 0 {
      RoundWithinTotal(k, |p.list|, p.repeats);
      RoundWithinTotal(k + 1, |p.list|, p.repeats);
    }
  }

  lemma {:induction false} FireAgain<T>(p: Player<T>, k: nat)
    ensures Run(p, Firings(k + 1)) == Step(Run(p, Firings(k)), TimerFired)
    decreases k
  {
    assert Firings(k + 1)[1..] == Firings(k);
    if k == 0 {
    } else {
      FireAgain(Step(p, TimerFired), k - 1);
      assert Firings(k)[1..] == Firings(k - 1);
    }
  }

  /** After `k` firings a run over a list of `n >= 1` items with `repeats >= 0` has shown the first `k + 1`
      items of the cyclic list, but never more than `n * (repeats + 1)`, and its timer is still scheduled
      exactly while `k < n * (repeats + 1)`. */
  lemma {:induction false} RunShowsList<T>(p: Player<T>, repeats: nat, k: nat)
    requires p.list != []
    ensures var total := Total(|p.list|, repeats);
            var q := Run(Start(p, repeats), Firings(k));
            && q.scheduled == (k < total)
            && q.shown == Cyclic(p.list, if k + 1 < total then k + 1 else total)
            && q.list == p.list && q.repeats == repeats
            && (k < total ==> InRound(q, k))
  {
    var n := |p.list|;
    var total := Total(n, repeats);
    assert total >= 1 by {
      RoundWithinTotal(0, n, repeats);
      PlaceIs(0, n, 0, 0);
    }
    if k == 0 {
      StartInRound(p, repeats);
    } else {
      RunShowsList(p, repeats, k - 1);
      FireAgain(Start(p, repeats), k - 1);
      if k - 1 < total {
        FireInRound(Run(Start(p, repeats), Firings(k - 1)), k - 1);
      }
    }
  }

  /** The run ends by itself after `n * (repeats + 1)` firings, having shown as many items, and leaves the
      last item of the list shown. */
  lemma RunEndsOnLastItem<T>(p: Player<T>, repeats: nat)
    requires p.list != []
    ensures var q := Run(Start(p, repeats), Firings(Total(|p.list|, repeats)));
            && !q.scheduled
            && |q.shown| == Total(|p.list|, repeats) > 0
            && q.shown[|q.shown| - 1] == p.list[|p.list| - 1]
  {
    var n := |p.list|;
    var total := Total(n, repeats);
    RunShowsList(p, repeats, total);
    assert total == repeats * n + n;
    PlaceIs(total - 1, n, repeats, n - 1);
  }

  /** With a negative repeat count the list is shown for ever. */
  lemma {:induction false} EndlessRun<T>(p: Player<T>, repeats: int, k: nat)
    requires p.list != [] && repeats < 0
    ensures var q := Run(Start(p, repeats), Firings(k));
            q.scheduled && q.shown == Cyclic(p.list, k + 1) && q.list == p.list && q.repeats == repeats
            && InRound(q, k)
  {
    if k == 0 {
      StartInRound(p, repeats);
    } else {
      EndlessRun(p, repeats, k - 1);
      FireAgain(Start(p, repeats), k - 1);
      FireInRound(Run(Start(p, repeats), Firings(k - 1)), k - 1);
    }
  }

  /** A run that is not stopped, one that has ended by itself, or one that was stopped. */
  ghost predicate Playing<T>(p: Player<T>, repeats: int) {
    && p.list != [] && p.repeats == repeats
    && if p.scheduled then exists k: nat :: InRound(p, k)
       else exists k: nat :: p.shown == Cyclic(p.list, k) && (repeats >= 0 ==> k <= Total(|p.list|, repeats))
  }

  lemma StepKeepsPlaying<T>(p: Player<T>, repeats: int, e: Event)
    requires Playing(p, repeats)
    ensures Playing(Step(p, e), repeats)
  {
    if p.scheduled {
      var k: nat :| InRound(p, k);
      if repeats >= 0 {
        RoundWithinTotal(k, |p.list|, repeats);
      }
      assert p.shown == Cyclic(p.list, k + 1);
      FireInRound(p, k);
    }
  }

  lemma {:induction false} RunKeepsPlaying<T>(p: Player<T>, repeats: int, events: seq<Event>)
    requires Playing(p, repeats)
    ensures Playing(Run(p, events), repeats) && Run(p, events).list == p.list
    decreases |events|
  {
    if events == [] {
    } else {
      StepKeepsPlaying(p, repeats, events[0]);
      RunKeepsPlaying(Step(p, events[0]), repeats, events[1..]);
    }
  }

  /** However firings and stops interleave, what is shown is the beginning of the cyclic list, never more
      than the asked-for rounds of it. */
  lemma ShownIsCyclic<T>(p: Player<T>, repeats: int, events: seq<Event>)
    requires p.list != []
    ensures var q := Run(Start(p, repeats), events);
            && q.shown == Cyclic(p.list, |q.shown|)
            && (repeats >= 0 ==> |q.shown| <= Total(|p.list|, repeats))
  {
    StartInRound(p, repeats);
    RunKeepsPlaying(Start(p, repeats), repeats, events);
    var q := Run(Start(p, repeats), events);
    if q.scheduled {
      var k: nat :| InRound(q, k);
      if repeats >= 0 {
        RoundWithinTotal(k, |q.list|, repeats);
      }
    }
  }

  /** A stopped player shows nothing more, whatever happens next. */
  lemma {:induction false} StoppedShowsNothing<T>(p: Player<T>, events: seq<Event>)
    ensures var q := Run(Step(p, Stopped), events);
            q.shown == p.shown && !q.scheduled && !q.blinking
    decreases |events|
  {
    var stopped := Step(p, Stopped);
    if events == [] {
    } else {
      assert Step(stopped, events[0]) == Step(stopped, Stopped);
      StoppedShowsNothing(stopped, events[1..]);
    }
  }

  /** A player with an empty list shows nothing at all. */
  lemma {:induction false} EmptyListShowsNothing<T>(p: Player<T>, repeats: int, events: seq<Event>)
    requires p.list == []
    ensures var q := Run(Start(p, repeats), events);
            q.shown == [] && !q.scheduled
  {
    EmptyListStaysIdle(Start(p, repeats), events);
  }

  lemma {:induction false} EmptyListStaysIdle<T>(p: Player<T>, events: seq<Event>)
    requires !p.scheduled
    ensures Run(p, events).shown == p.shown && !Run(p, events).scheduled
    decreases |events|
  {
    if events == [] {
    } else {
      EmptyListStaysIdle(Step(p, events[0]), events[1..]);
    }
  }

  class BlinkPlayer<T> {
    var blinkList: seq<T>
    var currentBlinkListIndex: nat
    var numberOfBlinks: nat
    var maxNumberOfBlinkRepeats: int
    var isBlinking: bool
    var scheduled: bool
    ghost var shown: seq<T>

    ghost function Now(): Player<T>
      reads this
    {
      Player(blinkList, currentBlinkListIndex, numberOfBlinks, maxNumberOfBlinkRepeats, isBlinking, scheduled, shown)
    }

    constructor (blinkList: seq<T>)
      ensures Now() == Player(blinkList, 0, 0, 0, false, false, [])
    {
      this.blinkList := blinkList;
      currentBlinkListIndex, numberOfBlinks, maxNumberOfBlinkRepeats := 0, 0, 0;
      isBlinking, scheduled, shown := false, false, [];
    }

    method SetBlinkLed(blinkInfo: T)
      modifies `shown
      ensures shown == old(shown) + [blinkInfo]
    {
      shown := shown + [blinkInfo];
    }

    method StopBlinkTimer()
      modifies `isBlinking, `scheduled
      ensures Now() == Stop(old(Now()))
    {
      isBlinking := false;
      scheduled := false;
    }

    method StartBlinkTimer(numberOfBlinkRepeats: int)
      modifies this
      ensures Now() == Start(old(Now()), numberOfBlinkRepeats)
    {
      StopBlinkTimer();
      numberOfBlinks := 0;
      isBlinking := true;
      maxNumberOfBlinkRepeats := numberOfBlinkRepeats;
      currentBlinkListIndex := 0;
      shown := [];
      if |blinkList| > 0 {
        SetBlinkLed(blinkList[0]);
        if isBlinking {
          scheduled := true;
        }
      }
    }

    method OnBlinkTimer()
      requires scheduled && blinkList != []
      modifies this
      ensures Now() == Fire(old(Now()))
    {
      scheduled := false;
      currentBlinkListIndex := currentBlinkListIndex + 1;
      var blinkAgain := true;
      if currentBlinkListIndex >= |blinkList| {
        blinkAgain := false;
        currentBlinkListIndex := 0;
        numberOfBlinks := numberOfBlinks + 1;
        if maxNumberOfBlinkRepeats < 0 || numberOfBlinks <= maxNumberOfBlinkRepeats {
          blinkAgain := true;
        }
      }
      if blinkAgain {
        SetBlinkLed(blinkList[currentBlinkListIndex]);
        if isBlinking {
          scheduled := true;
        }
      }
    }
  }
}
