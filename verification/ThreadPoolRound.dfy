/**
  The effect of a whole round of a worker of `HThreadPool`, from the top of its loop back to it or
  to its end, when only that worker moves: it runs the oldest task, or goes on waiting, or retires.
 */
module ThreadPoolRound {
  import opened Wrappers
  import opened ThreadPool
  import opened ThreadPoolRuns
  import opened ThreadPoolAlone

  /** The next move of worker w inside a round. */
  function OwnWork(w: nat, notified: bool): State -> Option<State> {
    (s: State) =>
      if Enabled(s, Work(w, notified)) && !s.workers[w].Top? && !s.workers[w].Exited? then
        Some(Step(s, Work(w, notified)))
      else None
  }

  ghost predicate Gets(s: State, w: nat, notified: bool, s': State) {
    exists k: nat :: Path(OwnWork(w, notified), s, k, s')
  }

  /** Worker w at the top of its loop, moving alone, is there again or has ended in s'. */
  ghost predicate Rounds(s: State, w: nat, notified: bool, s': State) {
    && Enabled(s, Work(w, notified)) && s.workers[w].Top?
    && Gets(Step(s, Work(w, notified)), w, notified, s')
    && w < |s'.workers| && (s'.workers[w].Top? || s'.workers[w].Exited?)
  }

  lemma GetsOn(s: State, w: nat, notified: bool, s1: State, s2: State)
    requires Gets(s, w, notified, s1) && Gets(s1, w, notified, s2)
    ensures Gets(s, w, notified, s2)
  {
    var j: nat :| Path(OwnWork(w, notified), s, j, s1);
    var k: nat :| Path(OwnWork(w, notified), s1, k, s2);
    PathsJoin(OwnWork(w, notified), s, j, s1, k, s2);
  }

  lemma WorkGets(s: State, w: nat, notified: bool)
    requires OwnWork(w, notified)(s).Some?
    ensures Gets(s, w, notified, OwnWork(w, notified)(s).value)
  {
    var s' := OwnWork(w, notified)(s).value;
    assert Path(OwnWork(w, notified), s', 0, s');
    assert Path(OwnWork(w, notified), s, 1, s');
  }

  lemma RoundsOnce(s: State, w: nat, notified: bool, s1: State)
    requires Rounds(s, w, notified, s1)
    ensures forall s2 :: Rounds(s, w, notified, s2) ==> s2 == s1
  {
    var t := Step(s, Work(w, notified));
    forall s2 | Rounds(s, w, notified, s2) ensures s2 == s1 {
      var j: nat :| Path(OwnWork(w, notified), t, j, s1);
      var k: nat :| Path(OwnWork(w, notified), t, k, s2);
      OneEnd(OwnWork(w, notified), t, j, s1, k, s2);
    }
  }

  /** k moves of worker w inside a round, on its own state. */
  function OwnTurns(sh: Shared, w: nat, pc: Worker, notified: bool, k: nat): Option<(Shared, Worker)>
    decreases k
  {
    if k == 0 then Some((sh, pc))
    else if !WorkerReady(sh, pc) || pc.Top? || pc.Exited? then None
    else
      var (sh', pc') := WorkerMove(sh, w, pc, notified);
      OwnTurns(sh', w, pc', notified, k - 1)
  }

  lemma OneTurn(s: State, w: nat, notified: bool)
    requires w < |s.workers| && WorkerReady(s.sh, s.workers[w]) && !s.workers[w].Top? && !s.workers[w].Exited?
    ensures Gets(s, w, notified, WorkerMoved(s, w, notified))
  {
    WorkerStepIs(s, w, notified);
    WorkGets(s, w, notified);
  }

  lemma {:induction false} WorkTurns(s: State, w: nat, notified: bool, k: nat, sh: Shared, pc: Worker)
    requires w < |s.workers| && OwnTurns(s.sh, w, s.workers[w], notified, k) == Some((sh, pc))
    ensures Gets(s, w, notified, State(sh, s.workers[w := pc], s.clients))
    decreases k
  {
    if k == 0 {
      assert Path(OwnWork(w, notified), s, 0, s);
      assert s == State(sh, s.workers[w := pc], s.clients);
    } else {
      var s1 := WorkerMoved(s, w, notified);
      OneTurn(s, w, notified);
      WorkTurns(s1, w, notified, k - 1, sh, pc);
      assert s1.workers[w := pc] == s.workers[w := pc];
      GetsOn(s, w, notified, s1, State(sh, s.workers[w := pc], s.clients));
    }
  }

  // ---------- A round with a task ----------

  /** Up to the wait on the condition variable. */
  lemma LockTurns(sh: Shared, w: nat, notified: bool)
    requires sh.status == RUNNING && sh.taskMutex.None?
    ensures OwnTurns(sh, w, Spin, notified, 2) == Some((sh.(taskMutex := Some(W(w))), Hold))
  {
    assert OwnTurns(sh, w, WantTask, notified, 1) == Some((sh.(taskMutex := Some(W(w))), Hold));
  }

  /** The shared variables once the oldest task is taken. */
  function Taken(sh: Shared): Shared
    requires sh.tasks != []
  {
    sh.(idle := sh.idle - 1, tasks := sh.tasks[1..], started := sh.started + [sh.tasks[0]])
  }

  lemma TakeTurns(sh: Shared, w: nat, notified: bool)
    requires sh.status == RUNNING && sh.tasks != []
    ensures OwnTurns(sh, w, Hold, notified, 3) == Some((sh, DecIdle))
    ensures OwnTurns(sh, w, DecIdle, notified, 2) == Some((Taken(sh), Unlock(sh.tasks[0])))
  {
    assert OwnTurns(sh, w, Awake, notified, 1) == Some((sh, DecIdle));
    assert OwnTurns(sh, w, Woken, notified, 2) == Some((sh, DecIdle));
    var less := sh.(idle := sh.idle - 1);
    assert OwnTurns(less, w, Pop, notified, 1) == Some((Taken(sh), Unlock(sh.tasks[0])));
  }

  /** The shared variables once a taken task has run. */
  function Ran(sh: Shared, t: TaskId): Shared {
    sh.(taskMutex := None, finished := sh.finished + {t}, idle := sh.idle + 1)
  }

  lemma RunTurns(sh: Shared, w: nat, notified: bool, t: TaskId)
    ensures OwnTurns(sh, w, Unlock(t), notified, 3) == Some((Ran(sh, t), Top))
  {
    var free := sh.(taskMutex := None);
    var done := free.(finished := sh.finished + {t});
    assert OwnTurns(done, w, IncIdle, notified, 1) == Some((Ran(sh, t), Top));
    assert OwnTurns(free, w, Worker.Run(t), notified, 2) == Some((Ran(sh, t), Top));
  }

  lemma Same(s: State, w: nat, a: Worker, b: Worker)
    requires w < |s.workers|
    ensures s.workers[w := a][w := b] == s.workers[w := b]
  {
  }

  /** From its first line to the test of the queue, with the mutex. */
  lemma EnterGets(s: State, w: nat, notified: bool)
    requires w < |s.workers| && s.workers[w].Spin? && s.sh.status == RUNNING && s.sh.taskMutex.None?
    ensures Gets(s, w, notified, State(s.sh.(taskMutex := Some(W(w))), s.workers[w := Hold], s.clients))
  {
    LockTurns(s.sh, w, notified);
    WorkTurns(s, w, notified, 2, s.sh.(taskMutex := Some(W(w))), Hold);
  }

  lemma TaskGets(s: State, w: nat, notified: bool)
    requires w < |s.workers| && s.workers[w].Hold? && s.sh.status == RUNNING && s.sh.tasks != []
    ensures Gets(s, w, notified, State(Ran(Taken(s.sh), s.sh.tasks[0]), s.workers[w := Top], s.clients))
  {
    var t := s.sh.tasks[0];
    TakeTurns(s.sh, w, notified);
    RunTurns(Taken(s.sh), w, notified, t);
    var s1 := State(s.sh, s.workers[w := DecIdle], s.clients);
    var s2 := State(Taken(s.sh), s.workers[w := Unlock(t)], s.clients);
    WorkTurns(s, w, notified, 3, s.sh, DecIdle);
    WorkTurns(s1, w, notified, 2, Taken(s.sh), Unlock(t));
    Same(s, w, DecIdle, Unlock(t));
    GetsOn(s, w, notified, s1, s2);
    WorkTurns(s2, w, notified, 3, Ran(Taken(s.sh), t), Top);
    Same(s, w, Unlock(t), Top);
    GetsOn(s, w, notified, s2, State(Ran(Taken(s.sh), t), s.workers[w := Top], s.clients));
  }

  /** The first step of a round. */
  lemma RoundBegins(s: State, w: nat, notified: bool, s': State)
    requires w < |s.workers| && s.workers[w].Top? && s.sh.status == RUNNING && s.sh.taskMutex.None?
    requires Gets(State(s.sh.(taskMutex := Some(W(w))), s.workers[w := Hold], s.clients), w, notified, s')
    requires w < |s'.workers| && (s'.workers[w].Top? || s'.workers[w].Exited?)
    ensures Rounds(s, w, notified, s')
  {
    WorkerStepIs(s, w, notified);
    var s1 := Step(s, Work(w, notified));
    EnterGets(s1, w, notified);
    Same(s, w, Spin, Hold);
    GetsOn(s1, w, notified, State(s.sh.(taskMutex := Some(W(w))), s.workers[w := Hold], s.clients), s');
  }

  /**
    With a task queued, a worker alone runs the oldest one and no other, and is as idle as before.
   */
  lemma TaskRound(s: State, w: nat, notified: bool)
    requires w < |s.workers| && s.workers[w].Top? && s.sh.status == RUNNING && s.sh.taskMutex.None?
    requires s.sh.tasks != []
    ensures forall s' :: Rounds(s, w, notified, s') <==>
              s' == s.(sh := s.sh.(tasks := s.sh.tasks[1..], started := s.sh.started + [s.sh.tasks[0]],
                                   finished := s.sh.finished + {s.sh.tasks[0]}))
  {
    var held := State(s.sh.(taskMutex := Some(W(w))), s.workers[w := Hold], s.clients);
    TaskGets(held, w, notified);
    Same(s, w, Hold, Top);
    var s' := State(Ran(Taken(held.sh), s.sh.tasks[0]), s.workers[w := Top], s.clients);
    assert s.workers[w := Top] == s.workers;
    RoundBegins(s, w, notified, s');
    RoundsOnce(s, w, notified, s');
  }

  // ---------- A round without ----------

  lemma TimeoutTurns(sh: Shared, w: nat)
    requires sh.status == RUNNING && sh.tasks == [] && sh.taskMutex == Some(W(w))
    ensures OwnTurns(sh, w, Hold, false, 3) == Some((sh, Woken))
    ensures OwnTurns(sh, w, Woken, false, 2) == Some((sh, ReadCur))
  {
    var free := sh.(taskMutex := None);
    assert OwnTurns(free, w, WakeUp(true), false, 1) == Some((sh, Woken));
    assert OwnTurns(free, w, Sleep, false, 2) == Some((sh, Woken));
    assert OwnTurns(sh, w, Awake, false, 1) == Some((sh, ReadCur));
  }

  lemma TimeoutGets(s: State, w: nat)
    requires w < |s.workers| && s.workers[w].Hold? && s.sh.status == RUNNING && s.sh.tasks == []
    requires s.sh.taskMutex == Some(W(w))
    ensures Gets(s, w, false, s.(workers := s.workers[w := ReadCur]))
  {
    TimeoutTurns(s.sh, w);
    var s1 := s.(workers := s.workers[w := Woken]);
    WorkTurns(s, w, false, 3, s.sh, Woken);
    WorkTurns(s1, w, false, 2, s.sh, ReadCur);
    Same(s, w, Woken, ReadCur);
    GetsOn(s, w, false, s1, s.(workers := s.workers[w := ReadCur]));
  }

  lemma ReleaseTurns(sh: Shared, w: nat)
    requires sh.cur <= sh.min
    ensures OwnTurns(sh, w, ReadCur, false, 2) == Some((sh.(taskMutex := None), Top))
  {
    assert OwnTurns(sh, w, Release, false, 1) == Some((sh.(taskMutex := None), Top));
  }

  /** Without a task for its whole time, and not more threads than the minimum, it goes on waiting. */
  lemma IdleRound(s: State, w: nat)
    requires w < |s.workers| && s.workers[w].Top? && s.sh.status == RUNNING && s.sh.taskMutex.None?
    requires s.sh.tasks == [] && s.sh.cur <= s.sh.min
    ensures forall s' :: Rounds(s, w, false, s') <==> s' == s
  {
    var held := State(s.sh.(taskMutex := Some(W(w))), s.workers[w := Hold], s.clients);
    var s1 := held.(workers := s.workers[w := ReadCur]);
    TimeoutGets(held, w);
    Same(s, w, Hold, ReadCur);
    ReleaseTurns(s1.sh, w);
    WorkTurns(s1, w, false, 2, s.sh, Top);
    Same(s, w, ReadCur, Top);
    assert s.workers[w := Top] == s.workers;
    GetsOn(held, w, false, s1, s);
    RoundBegins(s, w, false, s);
    RoundsOnce(s, w, false, s);
  }

  // ---------- Retirement ----------

  /** The list after a walk of worker w: old entries marked STOP are gone, and its own is marked. */
  function Swept(threads: seq<Entry>, w: nat, clock: int): seq<Entry> {
    if threads == [] then []
    else
      var e := threads[0];
      (if e.stopped && e.stopTime < clock then [] else if e.id == w then [Entry(w, true, clock)] else [e])
        + Swept(threads[1..], w, clock)
  }

  /** All workers the walk has to join have ended. */
  ghost predicate Joinable(s: State, w: nat, i: nat) {
    forall j :: i <= j < |s.sh.threads| && s.sh.threads[j].stopped && s.sh.threads[j].stopTime < s.sh.clock ==>
      var v := s.sh.threads[j].id;
      v < |s.workers| && v != w && s.workers[v] == Exited
  }

  /** One entry of the walk is dealt with. */
  function Walked(s: State, w: nat, i: nat): State
    requires w < |s.workers| && i < |s.sh.threads|
  {
    var e, now := s.sh.threads[i], s.sh.clock;
    if e.stopped && e.stopTime < now then
      State(s.sh.(threads := s.sh.threads[..i] + s.sh.threads[i + 1..]), s.workers[w := Scan(i, now)], s.clients)
    else if e.id == w then
      State(s.sh.(threads := s.sh.threads[i := Entry(w, true, now)]), s.workers[w := Scan(i + 1, now)], s.clients)
    else State(s.sh, s.workers[w := Scan(i + 1, now)], s.clients)
  }

  lemma WalkOne(s: State, w: nat, i: nat)
    requires w < |s.workers| && s.workers[w] == Scan(i, s.sh.clock) && i < |s.sh.threads| && Joinable(s, w, i)
    ensures Gets(s, w, false, Walked(s, w, i))
  {
    OneTurn(s, w, false);
    var s1 := WorkerMoved(s, w, false);
    var e := s.sh.threads[i];
    if e.stopped && e.stopTime < s.sh.clock {
      assert s1.workers[e.id] == Exited;
      WorkGets(s1, w, false);
      Same(s, w, Join(i, s.sh.clock), Scan(i, s.sh.clock));
      GetsOn(s, w, false, s1, Walked(s, w, i));
    }
  }

  /** What is left of the list if the entries from i on are still to be walked. */
  function SweptFrom(sh: Shared, w: nat, i: nat): seq<Entry>
    requires i <= |sh.threads|
  {
    sh.threads[..i] + Swept(sh.threads[i..], w, sh.clock)
  }

  lemma WalkedSweeps(s: State, w: nat, i: nat)
    requires w < |s.workers| && i < |s.sh.threads|
    ensures var s', e := Walked(s, w, i), s.sh.threads[i];
            var i' := if e.stopped && e.stopTime < s.sh.clock then i else i + 1;
            && s'.workers[w] == Scan(i', s.sh.clock) && i' <= |s'.sh.threads|
            && SweptFrom(s'.sh, w, i') == SweptFrom(s.sh, w, i)
            && |s'.sh.threads| - i' == |s.sh.threads| - i - 1
  {
    var s', e := Walked(s, w, i), s.sh.threads[i];
    var rest := s.sh.threads[i..];
    assert rest[0] == e && rest[1..] == s.sh.threads[i + 1..];
    if e.stopped && e.stopTime < s.sh.clock {
      assert s'.sh.threads[..i] == s.sh.threads[..i] && s'.sh.threads[i..] == s.sh.threads[i + 1..];
    } else {
      assert s'.sh.threads[..i + 1] == s.sh.threads[..i] + [if e.id == w then Entry(w, true, s.sh.clock) else e];
      assert s'.sh.threads[i + 1..] == s.sh.threads[i + 1..];
    }
  }

  /** So it stays while the list from i' on is what it was behind entry i. */
  lemma StaysJoinable(s: State, s': State, w: nat, i: nat, i': nat)
    requires Joinable(s, w, i) && i < |s.sh.threads| && i' <= |s'.sh.threads|
    requires s'.sh.clock == s.sh.clock && s'.sh.threads[i'..] == s.sh.threads[i + 1..]
    requires |s'.workers| == |s.workers| && forall v :: 0 <= v < |s.workers| && v != w ==> s'.workers[v] == s.workers[v]
    ensures Joinable(s', w, i')
  {
    forall j | i' <= j < |s'.sh.threads| && s'.sh.threads[j].stopped && s'.sh.threads[j].stopTime < s'.sh.clock
      ensures var v := s'.sh.threads[j].id; v < |s'.workers| && v != w && s'.workers[v] == Exited
    {
      assert s'.sh.threads[j] == s'.sh.threads[i'..][j - i'] == s.sh.threads[j - i' + i + 1];
    }
  }

  lemma EraseJoinable(s: State, w: nat, i: nat)
    requires w < |s.workers| && i < |s.sh.threads| && Joinable(s, w, i)
    requires s.sh.threads[i].stopped && s.sh.threads[i].stopTime < s.sh.clock
    ensures Joinable(Walked(s, w, i), w, i)
  {
    var s' := Walked(s, w, i);
    assert s'.sh.threads[i..] == s.sh.threads[i + 1..];
    StaysJoinable(s, s', w, i, i);
  }

  lemma PassJoinable(s: State, w: nat, i: nat)
    requires w < |s.workers| && i < |s.sh.threads| && Joinable(s, w, i)
    requires !(s.sh.threads[i].stopped && s.sh.threads[i].stopTime < s.sh.clock)
    ensures Joinable(Walked(s, w, i), w, i + 1)
  {
    var s' := Walked(s, w, i);
    assert s'.sh.threads[i + 1..] == s.sh.threads[i + 1..];
    StaysJoinable(s, s', w, i, i + 1);
  }

  lemma WalkedJoinable(s: State, w: nat, i: nat)
    requires w < |s.workers| && i < |s.sh.threads| && Joinable(s, w, i)
    ensures var s', e := Walked(s, w, i), s.sh.threads[i];
            Joinable(s', w, if e.stopped && e.stopTime < s.sh.clock then i else i + 1)
  {
    if s.sh.threads[i].stopped && s.sh.threads[i].stopTime < s.sh.clock {
      EraseJoinable(s, w, i);
    } else {
      PassJoinable(s, w, i);
    }
  }

  /** The whole walk. */
  lemma {:induction false} WalkGets(s: State, w: nat, i: nat)
    requires w < |s.workers| && i <= |s.sh.threads| && s.workers[w] == Scan(i, s.sh.clock) && Joinable(s, w, i)
    ensures Gets(s, w, false, State(s.sh.(threads := SweptFrom(s.sh, w, i)), s.workers[w := UnlockThread], s.clients))
    decreases |s.sh.threads| - i
  {
    if i == |s.sh.threads| {
      assert s.sh.threads[..i] == s.sh.threads && s.sh.threads[i..] == [];
      OneTurn(s, w, false);
      assert WorkerMoved(s, w, false).sh.threads == SweptFrom(s.sh, w, i);
    } else {
      var s1 := Walked(s, w, i);
      WalkOne(s, w, i);
      WalkedSweeps(s, w, i);
      WalkedJoinable(s, w, i);
      WalkGets(s1, w, s1.workers[w].i);
      Same(s, w, s1.workers[w], UnlockThread);
      GetsOn(s, w, false, s1, State(s.sh.(threads := SweptFrom(s.sh, w, i)), s.workers[w := UnlockThread], s.clients));
    }
  }

  lemma QuitTurns(sh: Shared, w: nat)
    requires sh.cur > sh.min && sh.threadMutex.None?
    ensures var locked := sh.(threadMutex := Some(W(w)));
            && OwnTurns(sh, w, ReadCur, false, 2) == Some((locked, DecCur(sh.clock)))
            && OwnTurns(locked, w, DecCur(sh.clock), false, 2)
                 == Some((locked.(cur := sh.cur - 1, idle := sh.idle - 1), Scan(0, sh.clock)))
  {
    var locked := sh.(threadMutex := Some(W(w)));
    assert OwnTurns(sh, w, WantThread(sh.clock), false, 1) == Some((locked, DecCur(sh.clock)));
    var less := locked.(cur := sh.cur - 1);
    assert OwnTurns(less, w, DelIdle(sh.clock), false, 1) == Some((less.(idle := sh.idle - 1), Scan(0, sh.clock)));
  }

  lemma LeaveTurns(sh: Shared, w: nat)
    ensures OwnTurns(sh, w, UnlockThread, false, 3) == Some((sh.(threadMutex := None, taskMutex := None), Exited))
  {
    var free := sh.(threadMutex := None, taskMutex := None);
    assert OwnTurns(free, w, Leaving, false, 1) == Some((free, Exited));
    assert OwnTurns(sh.(threadMutex := None), w, ReturnLocked, false, 2) == Some((free, Exited));
  }

  /** The shared variables when delThread begins to walk, and when it has walked. */
  function Quit(sh: Shared, w: nat): Shared {
    sh.(threadMutex := Some(W(w)), cur := sh.cur - 1, idle := sh.idle - 1)
  }

  function WalkDone(sh: Shared, w: nat): Shared {
    Quit(sh, w).(threads := Swept(sh.threads, w, sh.clock))
  }

  lemma QuitSwept(sh: Shared, w: nat)
    ensures Quit(sh, w).(threads := SweptFrom(Quit(sh, w), w, 0)) == WalkDone(sh, w)
  {
    assert sh.threads[..0] == [] && sh.threads[0..] == sh.threads;
    assert [] + Swept(sh.threads, w, sh.clock) == Swept(sh.threads, w, sh.clock);
  }

  lemma QuitGets(s: State, w: nat)
    requires w < |s.workers| && s.workers[w].ReadCur? && s.sh.cur > s.sh.min && s.sh.threadMutex.None?
    ensures Gets(s, w, false, State(Quit(s.sh, w), s.workers[w := Scan(0, s.sh.clock)], s.clients))
  {
    var now, locked := s.sh.clock, s.sh.(threadMutex := Some(W(w)));
    QuitTurns(s.sh, w);
    var s1 := State(locked, s.workers[w := DecCur(now)], s.clients);
    WorkTurns(s, w, false, 2, locked, DecCur(now));
    WorkTurns(s1, w, false, 2, Quit(s.sh, w), Scan(0, now));
    Same(s, w, DecCur(now), Scan(0, now));
    GetsOn(s, w, false, s1, State(Quit(s.sh, w), s1.workers[w := Scan(0, now)], s.clients));
  }

  /** delThread, from its lock to its unlock. */
  lemma DelGets(s: State, w: nat)
    requires w < |s.workers| && s.workers[w].ReadCur? && s.sh.cur > s.sh.min && s.sh.threadMutex.None?
    requires Joinable(s, w, 0)
    ensures Gets(s, w, false, State(WalkDone(s.sh, w), s.workers[w := UnlockThread], s.clients))
  {
    var s1 := State(Quit(s.sh, w), s.workers[w := Scan(0, s.sh.clock)], s.clients);
    QuitGets(s, w);
    WalkGets(s1, w, 0);
    QuitSwept(s.sh, w);
    Same(s, w, Scan(0, s.sh.clock), UnlockThread);
    GetsOn(s, w, false, s1, State(WalkDone(s.sh, w), s1.workers[w := UnlockThread], s.clients));
  }

  lemma LeaveGets(s: State, w: nat)
    requires w < |s.workers| && s.workers[w].UnlockThread?
    ensures Gets(s, w, false, State(s.sh.(threadMutex := None, taskMutex := None), s.workers[w := Exited], s.clients))
  {
    LeaveTurns(s.sh, w);
    WorkTurns(s, w, false, 3, s.sh.(threadMutex := None, taskMutex := None), Exited);
  }

  /** From the decision to the end of the thread. */
  lemma RetireGets(s: State, w: nat)
    requires w < |s.workers| && s.workers[w].ReadCur? && s.sh.cur > s.sh.min && s.sh.threadMutex.None?
    requires Joinable(s, w, 0)
    ensures Gets(s, w, false, State(WalkDone(s.sh, w).(threadMutex := None, taskMutex := None),
                                    s.workers[w := Exited], s.clients))
  {
    var s1 := State(WalkDone(s.sh, w), s.workers[w := UnlockThread], s.clients);
    DelGets(s, w);
    LeaveGets(s1, w);
    Same(s, w, UnlockThread, Exited);
    GetsOn(s, w, false, s1, State(s1.sh.(threadMutex := None, taskMutex := None), s1.workers[w := Exited], s.clients));
  }

  /**
    Without a task for its whole time, and more threads than the minimum, it retires: it is counted
    no longer, its entry is marked, and the threads that retired in an earlier second are joined
    and off the list, provided they have ended.
   */
  lemma RetireRound(s: State, w: nat)
    requires w < |s.workers| && s.workers[w].Top? && s.sh.status == RUNNING
    requires s.sh.taskMutex.None? && s.sh.threadMutex.None?
    requires s.sh.tasks == [] && s.sh.cur > s.sh.min && Joinable(s, w, 0)
    ensures forall s' :: Rounds(s, w, false, s') <==>
              s' == State(s.sh.(cur := s.sh.cur - 1, idle := s.sh.idle - 1,
                                threads := Swept(s.sh.threads, w, s.sh.clock)),
                          s.workers[w := Exited], s.clients)
  {
    var held := State(s.sh.(taskMutex := Some(W(w))), s.workers[w := Hold], s.clients);
    var s1 := held.(workers := s.workers[w := ReadCur]);
    TimeoutGets(held, w);
    Same(s, w, Hold, ReadCur);
    RetireGets(s1, w);
    Same(s, w, ReadCur, Exited);
    var s' := State(s.sh.(cur := s.sh.cur - 1, idle := s.sh.idle - 1,
                          threads := Swept(s.sh.threads, w, s.sh.clock)), s.workers[w := Exited], s.clients);
    GetsOn(held, w, false, s1, s');
    RoundBegins(s, w, false, s');
    RoundsOnce(s, w, false, s');
  }
}
