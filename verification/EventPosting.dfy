/**
  Posting functors to an event loop from other threads: `postEvent` and `onCustomEvent` of
  `EventLoop.h`, as atomic steps of any number of posting threads and the loop thread.

  A post is two steps: push the event under the mutex, then wake the loop up with the address of
  that event. The delivery of a wakeup pops whatever event is in front, not the one it names.
  The loop thread may itself be one of the posters, so callbacks that post are covered.
 */
module EventPosting {
  import opened Counting

  type EventId = nat

  /** Between the two steps a poster holds the event it pushed. */
  datatype Poster = Idle | Pushed(ev: EventId)

  datatype Loop = Loop(
    posters: seq<Poster>,
    customEvents: seq<EventId>,
    wakeups: multiset<EventId>,   // posted to hloop and not delivered
    pushed: seq<EventId>,         // history: every event pushed, in push order
    executed: seq<EventId>)       // history: every functor run, in order

  datatype Label =
    | Push(p: nat)          // a poster makes an event and pushes it
    | Post(p: nat)          // the same poster calls hloop_post_event
    | Deliver(ev: EventId)  // the loop thread gets the wakeup naming ev

  function Start(n: nat): Loop {
    Loop(seq(n, _ => Idle), [], multiset{}, [], [])
  }

  predicate Enabled(l: Loop, a: Label) {
    match a
    case Push(p) => p < |l.posters| && l.posters[p].Idle?
    case Post(p) => p < |l.posters| && l.posters[p].Pushed?
    case Deliver(ev) => ev in l.wakeups
  }

  /** The queue has no front to take only if a delivery comes too early. */
  predicate Safe(l: Loop, a: Label) {
    a.Deliver? ==> l.customEvents != []
  }

  function Step(l: Loop, a: Label): Loop
    requires Enabled(l, a) && Safe(l, a)
  {
    match a
    case Push(p) =>
      var ev := |l.pushed|;
      l.(posters := l.posters[p := Pushed(ev)],
         customEvents := l.customEvents + [ev],
         pushed := l.pushed + [ev])
    case Post(p) =>
      l.(posters := l.posters[p := Idle], wakeups := l.wakeups + multiset{l.posters[p].ev})
    case Deliver(ev) =>
      l.(wakeups := l.wakeups - multiset{ev},
         customEvents := l.customEvents[1..],
         executed := l.executed + [l.customEvents[0]])
  }

  predicate IsPushed(p: Poster) {
    p.Pushed?
  }

  ghost predicate Inv(l: Loop) {
    && |l.customEvents| == |l.wakeups| + Count(IsPushed, l.posters)
    && l.executed + l.customEvents == l.pushed
    && (forall i :: 0 <= i < |l.pushed| ==> l.pushed[i] == i)
  }

  lemma StartInv(n: nat)
    ensures Inv(Start(n))
  {
    CountNone(IsPushed, Start(n).posters);
  }

  /** No delivery ever finds the queue empty, however the steps interleave. */
  lemma FrontIsThere(l: Loop, a: Label)
    requires Inv(l) && Enabled(l, a)
    ensures Safe(l, a)
  {
    if a.Deliver? {
      assert multiset{a.ev} <= l.wakeups;
      assert |l.wakeups| == |l.wakeups - multiset{a.ev}| + 1;
    }
  }

  lemma StepKeepsInv(l: Loop, a: Label)
    requires Inv(l) && Enabled(l, a)
    ensures Safe(l, a) && Inv(Step(l, a))
  {
    FrontIsThere(l, a);
    match a
    case Push(p) => CountUpdate(IsPushed, l.posters, p, Pushed(|l.pushed|));
    case Post(p) => CountUpdate(IsPushed, l.posters, p, Idle);
    case Deliver(ev) =>
      assert l.customEvents == [l.customEvents[0]] + l.customEvents[1..];
      assert |l.wakeups| == |l.wakeups - multiset{ev}| + 1;
  }

  /**
    Where a schedule leads; labels not enabled when their turn comes are skipped. An enabled one is
    always safe: QueueCountsDueDeliveries.
   */
  function Run(n: nat, schedule: seq<Label>): Loop
    decreases |schedule|
  {
    if schedule == [] then Start(n)
    else
      var l, a := Run(n, schedule[..|schedule| - 1]), schedule[|schedule| - 1];
      if Enabled(l, a) && Safe(l, a) then Step(l, a) else l
  }

  lemma {:induction false} RunInv(n: nat, schedule: seq<Label>)
    ensures Inv(Run(n, schedule))
    decreases |schedule|
  {
    if schedule == [] {
      StartInv(n);
    } else {
      var l, a := Run(n, schedule[..|schedule| - 1]), schedule[|schedule| - 1];
      RunInv(n, schedule[..|schedule| - 1]);
      if Enabled(l, a) {
        StepKeepsInv(l, a);
      }
    }
  }

  /**
    In every run functors run in push order and at most once, and once every post is complete and
    every wakeup delivered, each has run exactly once.
   */
  lemma ExactlyOnceInPushOrder(n: nat, schedule: seq<Label>)
    ensures var l := Run(n, schedule);
            && l.executed <= l.pushed
            && (forall i, j :: 0 <= i < j < |l.executed| ==> l.executed[i] != l.executed[j])
            && (l.wakeups == multiset{} && (forall p :: 0 <= p < |l.posters| ==> l.posters[p].Idle?)
                ==> l.executed == l.pushed && l.customEvents == [])
  {
    RunInv(n, schedule);
    var l := Run(n, schedule);
    if forall p :: 0 <= p < |l.posters| ==> l.posters[p].Idle? {
      CountNone(IsPushed, l.posters);
    }
    assert forall i :: 0 <= i < |l.executed| ==> l.executed[i] == l.pushed[i];
  }

  /** In every run a delivery has an event to take, and the queue counts the deliveries still due. */
  lemma QueueCountsDueDeliveries(n: nat, schedule: seq<Label>, a: Label)
    requires Enabled(Run(n, schedule), a)
    ensures Safe(Run(n, schedule), a)
    ensures var l := Run(n, schedule);
            |l.customEvents| == |l.wakeups| + Count(IsPushed, l.posters)
  {
    RunInv(n, schedule);
    FrontIsThere(Run(n, schedule), a);
  }

  /** Nothing is ever stuck: as long as an event is queued, a post or a delivery can happen. */
  lemma QueuedEventsCanMove(n: nat, schedule: seq<Label>)
    requires Run(n, schedule).customEvents != []
    ensures exists a :: Enabled(Run(n, schedule), a) && !a.Push?
  {
    RunInv(n, schedule);
    var l := Run(n, schedule);
    if l.wakeups == multiset{} {
      var p := CountSome(IsPushed, l.posters);
      assert Enabled(l, Post(p));
    } else {
      var ev :| ev in l.wakeups;
      assert Enabled(l, Deliver(ev));
    }
  }

  /** Two posters have pushed. */
  const BOTH_PUSHED := Loop([Pushed(0), Pushed(1)], [0, 1], multiset{}, [0, 1], [])

  lemma BothPush()
    ensures Run(2, [Push(0), Push(1)]) == BOTH_PUSHED
  {
    var s := [Push(0), Push(1)];
    assert s[..1] == [Push(0)] && s[..1][..0] == [];
    assert Run(2, []) == Start(2);
    var l1 := Loop([Pushed(0), Idle], [0], multiset{}, [0], []);
    assert Step(Start(2), Push(0)) == l1;
    assert Run(2, s[..1]) == l1;
  }

  /** Wakeups do overtake each other: the one delivered need not name the functor that runs. */
  lemma WakeupsOvertake()
    ensures var l := Run(2, [Push(0), Push(1), Post(1)]);
            Enabled(l, Deliver(1)) && Safe(l, Deliver(1)) && Step(l, Deliver(1)).executed == [0]
  {
    var s := [Push(0), Push(1), Post(1)];
    assert s[..2] == [Push(0), Push(1)];
    BothPush();
    assert Run(2, s) == Step(BOTH_PUSHED, Post(1));
  }
}
