/**
  Two clients and their calls, as building blocks for concrete runs of `HThreadPool`: what one
  client does while the other one is idle.
 */
module ThreadPoolStage {
  import opened Wrappers
  import opened ThreadPool
  import opened ThreadPoolTheorems
  import opened ThreadPoolWait
  import opened ThreadPoolRuns

  /** What the clients may do, and the limits of the pool. */
  datatype Setup = Setup(overlap: bool, curFirst: bool, min: nat, max: nat)
  {
    ghost function Rules(): Rule {
      Polite(overlap, curFirst)
    }
  }

  ghost predicate Here(u: Setup, s: State) {
    Reachable(u.Rules(), 2, u.min, u.max, s) && |s.clients| == 2
  }

  lemma FreshIsHere(u: Setup)
    ensures Here(u, Fresh(2, u.min, u.max)) && Fresh(2, u.min, u.max).clients == [Idle, Idle]
  {
    FreshIsReachable(u.Rules(), 2, u.min, u.max);
  }

  /** Client 0 calls op while the other one is idle. */
  lemma Call(u: Setup, s: State, op: Op) returns (s': State)
    requires Here(u, s) && s.clients == [Idle, Idle]
    ensures Here(u, s') && s' == State(s.sh, s.workers, [Called(op), Idle])
  {
    s' := Next(u.Rules(), 2, u.min, u.max, s, Act(0, op));
  }

  /** k moves of client c inside a call. */
  lemma Moves(u: Setup, s: State, c: nat, k: nat, sh: Shared, pc: Client) returns (s': State)
    requires Here(u, s) && c < 2 && ClientTurns(s.sh, c, s.clients[c], k) == Some((sh, pc))
    ensures Here(u, s') && s' == State(sh, s.workers, s.clients[c := pc])
  {
    s' := ClientTakes(u.Rules(), 2, u.min, u.max, s, c, k);
  }

  /** k moves of worker w. */
  lemma Works(u: Setup, s: State, w: nat, notified: bool, k: nat, sh: Shared, pc: Worker) returns (s': State)
    requires Here(u, s) && w < |s.workers|
    requires WorkerTurns(s.sh, w, s.workers[w], notified, k) == Some((sh, pc))
    ensures Here(u, s') && s' == State(sh, s.workers[w := pc], s.clients)
  {
    s' := WorkerTakes(u.Rules(), 2, u.min, u.max, s, w, notified, k);
  }

  /** A client that has found the queue empty settles which counter it reads first. */
  lemma Settle(u: Setup, s: State, c: nat, curFirst: bool) returns (s': State)
    requires Here(u, s) && c < 2 && s.clients[c] == WaitTasks && s.sh.tasks == [] && (curFirst ==> u.curFirst)
    ensures Here(u, s')
    ensures s' == State(s.sh, s.workers, s.clients[c := if curFirst then WaitCurFirst else WaitIdle])
  {
    s' := Next(u.Rules(), 2, u.min, u.max, s, Act(c, Wait(curFirst)));
  }

  // ---------- start ----------

  /** Nothing queued, no mutex held, k workers counted. */
  function Started(u: Setup, k: nat, threads: seq<Entry>): Shared {
    Shared(u.min, u.max, RUNNING, k, k, [], threads, None, None, 0, [], {})
  }

  /** Client 0 at pc, k workers all at their first line. */
  predicate Prepared(s: State, u: Setup, k: nat, pc: Client) {
    s.clients == [pc, Idle] && s.workers == seq(k, _ => Top) && s.sh == Started(u, k, s.sh.threads)
  }

  lemma OneMoreTop(k: nat)
    ensures seq(k, _ => Top) + [Top] == seq(k + 1, _ => Top)
  {
  }

  lemma AddOne(u: Setup, s: State, i: nat, k: Cont) returns (s': State)
    requires Here(u, s) && Prepared(s, u, i, Launch(k))
    ensures Here(u, s') && Prepared(s', u, i + 1, AfterCreate(k))
  {
    s' := CreateOne(u.Rules(), 2, u.min, u.max, s, 0, k);
    OneMoreTop(i);
    assert [Launch(k), Idle][0 := AfterCreate(k)] == [AfterCreate(k), Idle];
  }

  lemma StartCheck(u: Setup, s: State, i: nat, n: nat) returns (s': State)
    requires i < n <= u.max && Here(u, s) && Prepared(s, u, i, StartLoop(i, n, ThenReturn))
    ensures Here(u, s') && Prepared(s', u, i, Launch(InStart(i, n, ThenReturn)))
  {
    CheckTurns(s.sh, 0, i, n);
    s' := Moves(u, s, 0, 2, s.sh, Launch(InStart(i, n, ThenReturn)));
    assert s'.clients == [Launch(InStart(i, n, ThenReturn)), Idle];
  }

  /** One round of the loop in start(). */
  lemma StartOne(u: Setup, s: State, i: nat, n: nat) returns (s': State)
    requires i < n <= u.max && Here(u, s) && Prepared(s, u, i, StartLoop(i, n, ThenReturn))
    ensures Here(u, s') && Prepared(s', u, i + 1, StartLoop(i + 1, n, ThenReturn))
  {
    s' := StartCheck(u, s, i, n);
    s' := AddOne(u, s', i, InStart(i, n, ThenReturn));
  }

  /** The loop in start(n) gets to round i. */
  ghost predicate Round(u: Setup, n: nat, i: nat) {
    exists s :: Here(u, s) && Prepared(s, u, i, StartLoop(i, n, ThenReturn))
  }

  lemma NextRound(u: Setup, n: nat, i: nat)
    requires i < n <= u.max && Round(u, n, i)
    ensures Round(u, n, Up(i))
  {
    var s :| Here(u, s) && Prepared(s, u, i, StartLoop(i, n, ThenReturn));
    var s' := StartOne(u, s, i, n);
  }

  lemma StartRest(u: Setup, s: State, n: nat) returns (s': State)
    requires n <= u.max && Here(u, s) && Prepared(s, u, 0, StartLoop(0, n, ThenReturn))
    ensures Here(u, s') && Prepared(s', u, n, StartLoop(n, n, ThenReturn))
  {
    forall i: nat | i < n && Round(u, n, i) ensures Round(u, n, Up(i)) {
      NextRound(u, n, i);
    }
    Climb((i: nat) => Round(u, n, i), n);
    s' :| Here(u, s') && Prepared(s', u, n, StartLoop(n, n, ThenReturn));
  }

  lemma StartTurns(sh: Shared, n: nat)
    requires sh.status == STOP && Clamped(n, sh.min, sh.max) == n
    ensures ClientTurns(sh, 0, StartStatus(n, ThenReturn), 2)
         == Some((sh.(status := RUNNING), StartLoop(0, n, ThenReturn)))
  {
    assert ClientTurns(sh, 0, StartSet(n, ThenReturn), 1)
        == Some((sh.(status := RUNNING), StartLoop(0, n, ThenReturn)));
  }

  /** start(n), up to its loop, when the pool is stopped. */
  lemma StartFirst(u: Setup, s: State, n: nat) returns (s': State)
    requires Here(u, s) && s.clients == [Idle, Idle] && s.sh.status == STOP && Clamped(n, s.sh.min, s.sh.max) == n
    ensures Here(u, s')
    ensures s' == State(s.sh.(status := RUNNING), s.workers, [StartLoop(0, n, ThenReturn), Idle])
  {
    s' := Call(u, s, Start(n));
    StartTurns(s.sh, n);
    s' := Moves(u, s', 0, 2, s.sh.(status := RUNNING), StartLoop(0, n, ThenReturn));
    assert [Called(Start(n)), Idle][0 := StartLoop(0, n, ThenReturn)] == [StartLoop(0, n, ThenReturn), Idle];
  }

  lemma StartFresh(u: Setup, n: nat) returns (s: State)
    requires Clamped(n, u.min, u.max) == n
    ensures Here(u, s) && Prepared(s, u, 0, StartLoop(0, n, ThenReturn))
  {
    FreshIsHere(u);
    s := StartFirst(u, Fresh(2, u.min, u.max), n);
    assert s.workers == seq(0, _ => Top);
  }

  lemma ReturnTurn(sh: Shared, n: nat)
    ensures ClientTurns(sh, 0, StartLoop(n, n, ThenReturn), 1) == Some((sh, Idle))
  {
  }

  /** start(n) on a new pool. */
  lemma StartAll(u: Setup, n: nat) returns (s: State)
    requires Clamped(n, u.min, u.max) == n
    ensures Here(u, s) && Prepared(s, u, n, Idle)
  {
    s := StartFresh(u, n);
    s := StartRest(u, s, n);
    ReturnTurn(s.sh, n);
    s := Moves(u, s, 0, 1, s.sh, Idle);
    assert s.clients == [Idle, Idle];
  }

  // ---------- commit ----------

  lemma DecideTurns(sh: Shared, n: nat)
    requires n > 0 && sh.status == RUNNING && sh.idle == n && sh.tasks == []
    ensures ClientTurns(sh, 0, CommitStatus, 3) == Some((sh, WantTaskC))
  {
    assert ClientTurns(sh, 0, ReadTasks(n), 1) == Some((sh, WantTaskC));
    assert ClientTurns(sh, 0, ReadIdle, 2) == Some((sh, WantTaskC));
  }

  lemma PushTurns(sh: Shared)
    requires sh.taskMutex.None? && sh.started == [] && sh.tasks == []
    ensures ClientTurns(sh, 0, WantTaskC, 4) == Some((sh.(tasks := [0]), Idle))
  {
    var locked, pushed := sh.(taskMutex := Some(C(0))), sh.(tasks := [0]);
    assert sh.tasks + [Committed(sh)] == [0];
    assert ClientTurns(pushed, 0, Notify, 1) == Some((pushed, Idle));
    assert ClientTurns(locked.(tasks := [0]), 0, UnlockTaskC, 2) == Some((pushed, Idle));
    assert ClientTurns(locked, 0, Push, 3) == Some((pushed, Idle));
  }

  /** commit() with every worker idle. */
  lemma CommitOne(u: Setup, s: State, n: nat) returns (s': State)
    requires n > 0 && Here(u, s) && Prepared(s, u, n, Idle)
    ensures Here(u, s') && s' == State(s.sh.(tasks := [0]), s.workers, [Idle, Idle])
  {
    DecideTurns(s.sh, n);
    PushTurns(s.sh);
    s' := Call(u, s, Commit);
    s' := Moves(u, s', 0, 3, s.sh, WantTaskC);
    s' := Moves(u, s', 0, 4, s.sh.(tasks := [0]), Idle);
    assert s'.clients == [Idle, Idle];
  }

  // ---------- A worker takes the task ----------

  lemma FindTurns(sh: Shared, w: nat)
    requires sh.status == RUNNING && sh.taskMutex.None? && sh.tasks == [0]
    ensures var held := sh.(taskMutex := Some(W(w)));
            && WorkerTurns(sh, w, Top, true, 3) == Some((held, Hold))
            && WorkerTurns(held, w, Hold, true, 3) == Some((held, DecIdle))
  {
    var held := sh.(taskMutex := Some(W(w)));
    assert WorkerTurns(sh, w, WantTask, true, 1) == Some((held, Hold));
    assert WorkerTurns(sh, w, Spin, true, 2) == Some((held, Hold));
    assert WorkerTurns(held, w, Awake, true, 1) == Some((held, DecIdle));
    assert WorkerTurns(held, w, Woken, true, 2) == Some((held, DecIdle));
  }

  /** The shared variables once task 0 is taken. */
  function Taken(sh: Shared): Shared {
    sh.(idle := sh.idle - 1, tasks := [], started := sh.started + [0], taskMutex := None)
  }

  lemma PopTurns(sh: Shared, w: nat)
    requires sh.tasks == [0]
    ensures WorkerTurns(sh, w, DecIdle, true, 3) == Some((Taken(sh), Worker.Run(0)))
  {
    var popped := sh.(idle := sh.idle - 1, tasks := [], started := sh.started + [0]);
    assert sh.tasks[1..] == [];
    assert WorkerTurns(popped, w, Unlock(0), true, 1) == Some((Taken(sh), Worker.Run(0)));
    assert WorkerTurns(sh.(idle := sh.idle - 1), w, Pop, true, 2) == Some((Taken(sh), Worker.Run(0)));
  }

  /** Worker w takes the task and is about to run it. */
  lemma TakeOne(u: Setup, s: State, w: nat) returns (s': State)
    requires Here(u, s) && w < |s.workers| && s.workers[w] == Top
    requires s.sh.status == RUNNING && s.sh.taskMutex.None? && s.sh.tasks == [0]
    ensures Here(u, s') && s' == State(Taken(s.sh), s.workers[w := Worker.Run(0)], s.clients)
  {
    var held := s.sh.(taskMutex := Some(W(w)));
    FindTurns(s.sh, w);
    PopTurns(held, w);
    s' := Works(u, s, w, true, 3, held, Hold);
    s' := Works(u, s', w, true, 3, held, DecIdle);
    s' := Works(u, s', w, true, 3, Taken(held), Worker.Run(0));
  }

  // ---------- A worker retires ----------

  lemma SleepTurns(sh: Shared, w: nat)
    requires sh.status == RUNNING && sh.taskMutex.None? && sh.tasks == []
    ensures var held := sh.(taskMutex := Some(W(w)));
            && WorkerTurns(sh, w, Top, false, 3) == Some((held, Hold))
            && WorkerTurns(held, w, Hold, false, 3) == Some((held, Woken))
  {
    var held := sh.(taskMutex := Some(W(w)));
    assert WorkerTurns(sh, w, WantTask, false, 1) == Some((held, Hold));
    assert WorkerTurns(sh, w, Spin, false, 2) == Some((held, Hold));
    assert WorkerTurns(sh, w, WakeUp(true), false, 1) == Some((held, Woken));
    assert WorkerTurns(sh, w, Sleep, false, 2) == Some((held, Woken));
  }

  /** The shared variables with worker w half way through delThread. */
  function HalfGone(sh: Shared, w: nat): Shared {
    sh.(threadMutex := Some(W(w)), cur := sh.cur - 1)
  }

  lemma DecideQuitTurns(sh: Shared, w: nat)
    requires sh.status == RUNNING && sh.tasks == [] && sh.cur > sh.min
    ensures WorkerTurns(sh, w, Woken, false, 3) == Some((sh, WantThread(sh.clock)))
  {
    assert WorkerTurns(sh, w, ReadCur, false, 1) == Some((sh, WantThread(sh.clock)));
    assert WorkerTurns(sh, w, Awake, false, 2) == Some((sh, WantThread(sh.clock)));
  }

  lemma QuitTurns(sh: Shared, w: nat)
    requires sh.threadMutex.None?
    ensures WorkerTurns(sh, w, WantThread(sh.clock), false, 2) == Some((HalfGone(sh, w), DelIdle(sh.clock)))
  {
    var locked := sh.(threadMutex := Some(W(w)));
    assert WorkerTurns(locked, w, DecCur(sh.clock), false, 1) == Some((HalfGone(sh, w), DelIdle(sh.clock)));
  }

  /** Worker w waits for its whole time and gets half way through delThread. */
  lemma RetireHalf(u: Setup, s: State, w: nat) returns (s': State)
    requires Here(u, s) && w < |s.workers| && s.workers[w] == Top
    requires s.sh.status == RUNNING && s.sh.taskMutex.None? && s.sh.threadMutex.None?
    requires s.sh.tasks == [] && s.sh.cur > s.sh.min
    ensures Here(u, s') && s'.clients == s.clients && s'.workers == s.workers[w := DelIdle(s.sh.clock)]
    ensures s'.sh == HalfGone(s.sh.(taskMutex := Some(W(w))), w)
  {
    var held := s.sh.(taskMutex := Some(W(w)));
    SleepTurns(s.sh, w);
    DecideQuitTurns(held, w);
    QuitTurns(held, w);
    s' := Works(u, s, w, false, 3, held, Hold);
    s' := Works(u, s', w, false, 3, held, Woken);
    s' := Works(u, s', w, false, 3, held, WantThread(held.clock));
    s' := Works(u, s', w, false, 2, HalfGone(held, w), DelIdle(held.clock));
  }

  // ---------- wait ----------

  /** A client in wait() that has seen the pool running goes on to the queue. */
  lemma EnterTurns(sh: Shared, c: nat)
    requires sh.status != STOP
    ensures ClientTurns(sh, c, WaitStatus, 1) == Some((sh, WaitTasks))
  {
  }
}
