/**
  `HThreadPool::wait` overlapped by a `start`: a task left over from an earlier stop is taken by a
  worker that start has launched and not counted yet. A wait that reads `cur_thread_num` before the
  worker is counted, and `idle_thread_num` after it, leaves its loop while the task is running.
 */
module ThreadPoolLate {
  import opened Wrappers
  import opened ThreadPool
  import opened ThreadPoolEntries
  import opened ThreadPoolTheorems
  import opened ThreadPoolWait
  import opened ThreadPoolRuns
  import opened ThreadPoolStage

  // ---------- stop with a task in the queue ----------

  /** A step of client 0 in stop(), past setting the status. */
  lemma StopStep(u: Setup, s: State, sh: Shared, pc: Client) returns (s': State)
    requires Here(u, s) && InStop(s.clients[0]) && !s.clients[0].StopSet? && WaitsFor(s, C(0)).None?
    requires ClientMove(s.sh, 0, s.clients[0], Wait(false), |s.workers|) == (sh, pc)
    ensures Here(u, s') && s' == State(sh, s.workers, s.clients[0 := pc])
  {
    s' := Next(u.Rules(), 2, u.min, u.max, s, Act(0, Wait(false)));
  }

  /** stop() is called while every worker is at its first line. */
  lemma StopSetStep(u: Setup, s: State, k: nat) returns (s': State)
    requires Here(u, s) && s.clients == [StopSet, Idle] && s.workers == seq(k, _ => Top)
    ensures Here(u, s') && s' == State(s.sh.(status := STOP), s.workers, [StopNotify, Idle])
  {
    assert forall w :: 0 <= w < |s.workers| ==> !Retiring(s, w);
    s' := Next(u.Rules(), 2, u.min, u.max, s, Act(0, Wait(false)));
  }

  lemma StopTurns(sh: Shared, n: nat)
    ensures sh.status != STOP ==> ClientMove(sh, 0, StopStatus, Wait(false), n) == (sh, StopSet)
    ensures ClientMove(sh, 0, StopNotify, Wait(false), n) == (sh, StopJoin(0))
  {
  }

  lemma StopCalled(u: Setup, s: State) returns (s': State)
    requires Here(u, s) && s.clients == [Idle, Idle] && s.sh.status == RUNNING
    ensures Here(u, s') && s' == State(s.sh, s.workers, [StopSet, Idle])
  {
    StopTurns(s.sh, |s.workers|);
    s' := Call(u, s, Stop);
    s' := StopStep(u, s', s.sh, StopSet);
    assert s'.clients == [StopSet, Idle];
  }

  lemma StopBegins(u: Setup, s: State, k: nat) returns (s': State)
    requires Here(u, s) && s.clients == [Idle, Idle] && s.workers == seq(k, _ => Top) && s.sh.status == RUNNING
    ensures Here(u, s') && s' == State(s.sh.(status := STOP), s.workers, [StopJoin(0), Idle])
  {
    var stopped := s.sh.(status := STOP);
    s' := StopCalled(u, s);
    s' := StopSetStep(u, s', k);
    StopTurns(stopped, |s.workers|);
    s' := StopStep(u, s', stopped, StopJoin(0));
    assert s'.clients == [StopJoin(0), Idle];
  }

  function Gone(k: nat, j: nat): seq<Worker> {
    seq(k, i => if i < j then Exited else Top)
  }

  lemma LeaveTurns(sh: Shared, w: nat)
    requires sh.status == STOP
    ensures WorkerTurns(sh, w, Top, true, 2) == Some((sh, Exited))
  {
    assert WorkerTurns(sh, w, Leaving, true, 1) == Some((sh, Exited));
  }

  /** The state with the first j of k workers gone. */
  function Left(s: State, k: nat, j: nat): State {
    State(s.sh, Gone(k, j), s.clients)
  }

  lemma LeaveOne(u: Setup, s: State, k: nat, j: nat)
    requires Here(u, Left(s, k, j)) && s.sh.status == STOP && j < k
    ensures Here(u, Left(s, k, Up(j)))
  {
    LeaveTurns(s.sh, j);
    var s' := Works(u, Left(s, k, j), j, true, 2, s.sh, Exited);
    assert Gone(k, j)[j := Exited] == Gone(k, j + 1);
  }

  /** The workers see the status and end, one after the other. */
  lemma WorkersLeave(u: Setup, s: State, k: nat) returns (s': State)
    requires Here(u, s) && s.workers == seq(k, _ => Top) && s.sh.status == STOP
    ensures Here(u, s') && s' == State(s.sh, s'.workers, s.clients) && AllExited(s')
  {
    assert Left(s, k, 0) == s;
    forall j: nat | j < k && Here(u, Left(s, k, j)) ensures Here(u, Left(s, k, Up(j))) {
      LeaveOne(u, s, k, j);
    }
    Climb((j: nat) => Here(u, Left(s, k, j)), k);
    s' := Left(s, k, k);
  }

  lemma JoinTurn(s: State, i: nat)
    requires AllExited(s) && s.clients == [StopJoin(i), Idle]
    ensures WaitsFor(s, C(0)).None?
    ensures ClientMove(s.sh, 0, StopJoin(i), Wait(false), |s.workers|)
         == (s.sh, if i < |s.sh.threads| then StopJoin(i + 1) else StopClear)
  {
  }

  /** The state with client 0 about to join entry i. */
  function Joining(s: State, i: nat): State {
    State(s.sh, s.workers, [StopJoin(i), Idle])
  }

  lemma JoinOne(u: Setup, s: State, i: nat)
    requires Here(u, Joining(s, i)) && AllExited(s) && i < |s.sh.threads|
    ensures Here(u, Joining(s, Up(i)))
  {
    JoinTurn(Joining(s, i), i);
    var s' := StopStep(u, Joining(s, i), s.sh, StopJoin(i + 1));
    assert s'.clients == [StopJoin(i + 1), Idle];
  }

  /** stop() joins them all, in the order of its list. */
  lemma JoinAll(u: Setup, s: State) returns (s': State)
    requires Here(u, s) && AllExited(s) && s.clients == [StopJoin(0), Idle]
    ensures Here(u, s') && s' == State(s.sh, s.workers, [StopClear, Idle])
  {
    assert s == Joining(s, 0);
    forall i: nat | i < |s.sh.threads| && Here(u, Joining(s, i)) ensures Here(u, Joining(s, Up(i))) {
      JoinOne(u, s, i);
    }
    Climb((i: nat) => Here(u, Joining(s, i)), |s.sh.threads|);
    var last := Joining(s, |s.sh.threads|);
    JoinTurn(last, |s.sh.threads|);
    s' := StopStep(u, last, s.sh, StopClear);
    assert s'.clients == [StopClear, Idle];
  }

  lemma ResetTurns(sh: Shared, n: nat)
    ensures ClientMove(sh, 0, StopClear, Wait(false), n) == (sh.(threads := []), StopCur)
    ensures ClientMove(sh, 0, StopCur, Wait(false), n) == (sh.(cur := 0), StopIdle)
    ensures ClientMove(sh, 0, StopIdle, Wait(false), n) == (sh.(idle := 0), Idle)
  {
  }

  /** The resets at the end of stop(). */
  lemma Resets(u: Setup, s: State) returns (s': State)
    requires Here(u, s) && s.clients == [StopClear, Idle]
    ensures Here(u, s') && s' == State(s.sh.(threads := [], cur := 0, idle := 0), s.workers, [Idle, Idle])
  {
    var cleared := s.sh.(threads := []);
    ResetTurns(s.sh, |s.workers|);
    s' := StopStep(u, s, cleared, StopCur);
    ResetTurns(cleared, |s.workers|);
    s' := StopStep(u, s', cleared.(cur := 0), StopIdle);
    ResetTurns(cleared.(cur := 0), |s.workers|);
    s' := StopStep(u, s', cleared.(cur := 0, idle := 0), Idle);
    assert s'.clients == [Idle, Idle];
  }

  /** A stopped pool with task 0 in its queue. */
  function LeftOver(u: Setup): Shared {
    Shared(u.min, u.max, STOP, 0, 0, [0], [], None, None, 0, [], {})
  }

  /** start, commit, and stop before any worker has had its turn. */
  lemma LeaveTask(u: Setup) returns (s: State)
    requires u.max > 0
    ensures Here(u, s) && s.sh == LeftOver(u) && s.clients == [Idle, Idle]
  {
    s := StartAll(u, u.max);
    s := CommitOne(u, s, u.max);
    s := StopBegins(u, s, u.max);
    s := WorkersLeave(u, s, u.max);
    s := JoinAll(u, s);
    s := Resets(u, s);
  }

  // ---------- start again ----------

  /** start() gets as far as launching its first worker, which is not counted yet. */
  lemma LaunchFirst(u: Setup, s: State) returns (s': State)
    requires u.max > 0 && Here(u, s) && s.sh == LeftOver(u) && s.clients == [Idle, Idle]
    ensures Here(u, s') && s'.sh == LeftOver(u).(status := RUNNING) && s'.workers == s.workers + [Top]
    ensures s'.clients == [WantThreadC(|s.workers|, InStart(0, u.max, ThenReturn)), Idle]
  {
    var k := InStart(0, u.max, ThenReturn);
    s' := StartFirst(u, s, u.max);
    CheckTurns(s'.sh, 0, 0, u.max);
    s' := Moves(u, s', 0, 2, s'.sh, Launch(k));
    LaunchIs(s', 0);
    s' := Next(u.Rules(), 2, u.min, u.max, s', Act(0, Wait(false)));
    assert s'.clients == [WantThreadC(|s.workers|, k), Idle];
  }

  /** The rules let client 1 wait while client 0 is in a start() of its own. */
  lemma MayWait(u: Setup, s: State)
    requires u.overlap && |s.clients| == 2 && s.clients[1] == Idle
    requires s.clients[0].WantThreadC? && !ForCommit(s.clients[0].k)
    ensures Enabled(s, Act(1, Wait(true))) && u.Rules()(s, 1, Wait(true))
  {
  }

  lemma CallWait(u: Setup, s: State) returns (s': State)
    requires Here(u, s) && u.overlap && s.clients[1] == Idle
    requires s.clients[0].WantThreadC? && !ForCommit(s.clients[0].k)
    ensures Here(u, s') && s' == State(s.sh, s.workers, s.clients[1 := WaitStatus])
  {
    MayWait(u, s);
    s' := Next(u.Rules(), 2, u.min, u.max, s, Act(1, Wait(true)));
  }

  /** It finds the queue empty and means to read cur_thread_num first. */
  lemma SeeEmpty(u: Setup, s: State) returns (s': State)
    requires Here(u, s) && u.curFirst && s.clients[1] == WaitStatus && s.sh.status == RUNNING && s.sh.tasks == []
    ensures Here(u, s') && s' == State(s.sh, s.workers, s.clients[1 := WaitCurFirst])
  {
    EnterTurns(s.sh, 1);
    s' := Moves(u, s, 1, 1, s.sh, WaitTasks);
    s' := Settle(u, s', 1, true);
    assert s'.clients == s.clients[1 := WaitCurFirst];
  }

  lemma ReadTurn(sh: Shared)
    ensures ClientTurns(sh, 1, WaitCurFirst, 1) == Some((sh, WaitIdleAfter(sh.cur)))
  {
  }

  /** All of wait() up to its first read. */
  lemma ReadCurFirst(u: Setup, s: State) returns (s': State)
    requires Here(u, s) && u.overlap && u.curFirst && s.clients[1] == Idle
    requires s.clients[0].WantThreadC? && !ForCommit(s.clients[0].k)
    requires s.sh.status == RUNNING && s.sh.tasks == []
    ensures Here(u, s') && s'.sh == s.sh && s'.clients == [s.clients[0], WaitIdleAfter(s.sh.cur)]
  {
    s' := CallWait(u, s);
    s' := SeeEmpty(u, s');
    ReadTurn(s.sh);
    s' := Moves(u, s', 1, 1, s.sh, WaitIdleAfter(s.sh.cur));
    assert s'.clients == [s.clients[0], WaitIdleAfter(s.sh.cur)];
  }

  lemma EqualTurn(sh: Shared)
    ensures ClientTurns(sh, 1, WaitIdleAfter(sh.idle), 1) == Some((sh, WaitDone(true)))
  {
  }

  /** start() counts its worker, and wait() reads the idle count. */
  lemma CountAndBreak(u: Setup, s: State, w: nat, k: Cont) returns (s': State)
    requires Here(u, s) && s.clients == [WantThreadC(w, k), WaitIdleAfter(s.sh.cur)]
    requires s.sh.threadMutex.None? && s.sh.idle + 1 == s.sh.cur
    ensures Here(u, s') && s'.clients == [Emplace(w, k), WaitDone(true)]
    ensures s'.sh == s.sh.(threadMutex := Some(C(0)), cur := s.sh.cur + 1, idle := s.sh.idle + 1)
  {
    var counted := s.sh.(threadMutex := Some(C(0)), cur := s.sh.cur + 1, idle := s.sh.idle + 1);
    CountTurns(s.sh, 0, w, k);
    s' := Moves(u, s, 0, 3, counted, Emplace(w, k));
    EqualTurn(counted);
    s' := Moves(u, s', 1, 1, counted, WaitDone(true));
    assert s'.clients == [Emplace(w, k), WaitDone(true)];
  }

  /** The worker that is busy was counted idle only after wait() had read how many there are. */
  lemma WaitCanMissAStart(min: nat, max: nat) returns (schedule: seq<Label>)
    requires max > 0
    ensures Obeys(Polite(true, true), 2, min, max, schedule)
    ensures var s := StateAfter(2, min, max, schedule);
            s.clients[1] == WaitDone(true) && Committed(s.sh) == 1 && s.sh.finished == {}
  {
    var u := Setup(true, true, min, max);
    var s0 := LeaveTask(u);
    var w := |s0.workers|;
    var s := LaunchFirst(u, s0);
    s := TakeOne(u, s, w);
    s := ReadCurFirst(u, s);
    s := CountAndBreak(u, s, w, InStart(0, max, ThenReturn));
    schedule :| Obeys(u.Rules(), 2, min, max, schedule) && StateAfter(2, min, max, schedule) == s;
  }
}
