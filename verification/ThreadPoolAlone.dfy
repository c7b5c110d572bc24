/**
  The effect of a whole call of `HThreadPool`: what commit, start, pause and resume leave behind,
  from any state, when only the calling client moves.
 */
module ThreadPoolAlone {
  import opened Wrappers
  import opened ThreadPool
  import opened ThreadPoolRuns

  // ---------- One client moving alone ----------

  /** k times `next` takes x to y. */
  ghost predicate Path<T>(next: T -> Option<T>, x: T, k: nat, y: T)
    decreases k
  {
    if k == 0 then y == x
    else next(x).Some? && Path(next, next(x).value, k - 1, y)
  }

  lemma {:induction false} PathsJoin<T>(next: T -> Option<T>, x: T, j: nat, y: T, k: nat, z: T)
    requires Path(next, x, j, y) && Path(next, y, k, z)
    ensures Path(next, x, j + k, z)
    decreases j
  {
    if j > 0 {
      PathsJoin(next, next(x).value, j - 1, y, k, z);
    }
  }

  /** What every step keeps holds at the end. */
  lemma {:induction false} PathKeeps<T(!new)>(next: T -> Option<T>, p: T -> bool, x: T, k: nat, y: T)
    requires forall t: T {:trigger next(t)} :: p(t) && next(t).Some? ==> p(next(t).value)
    requires p(x) && Path(next, x, k, y)
    ensures p(y)
    decreases k
  {
    if k > 0 {
      PathKeeps(next, p, next(x).value, k - 1, y);
    }
  }

  /** Paths that cannot be continued end in the same place. */
  lemma {:induction false} OneEnd<T>(next: T -> Option<T>, x: T, j: nat, y: T, k: nat, z: T)
    requires Path(next, x, j, y) && Path(next, x, k, z) && next(y).None? && next(z).None?
    ensures y == z
    decreases j
  {
    if j > 0 && k > 0 {
      OneEnd(next, next(x).value, j - 1, y, k - 1, z);
    }
  }

  /** The next move of client c inside a call. */
  function OwnMove(c: nat): State -> Option<State> {
    (s: State) =>
      if Enabled(s, Act(c, Wait(false))) && !s.clients[c].Idle? then Some(Step(s, Act(c, Wait(false)))) else None
  }

  /** Client c, moving alone inside a call, gets from s to s'. */
  ghost predicate Leads(s: State, c: nat, s': State) {
    exists k: nat :: Path(OwnMove(c), s, k, s')
  }

  /** An idle client calls op and, moving alone, gets to the end of the call in s'. */
  ghost predicate Returns(s: State, c: nat, op: Op, s': State) {
    && Enabled(s, Act(c, op)) && s.clients[c].Idle?
    && Leads(Step(s, Act(c, op)), c, s') && c < |s'.clients| && s'.clients[c].Idle?
  }

  lemma LeadsOn(s: State, c: nat, s1: State, s2: State)
    requires Leads(s, c, s1) && Leads(s1, c, s2)
    ensures Leads(s, c, s2)
  {
    var j: nat :| Path(OwnMove(c), s, j, s1);
    var k: nat :| Path(OwnMove(c), s1, k, s2);
    PathsJoin(OwnMove(c), s, j, s1, k, s2);
  }

  lemma MoveLeads(s: State, c: nat)
    requires OwnMove(c)(s).Some?
    ensures Leads(s, c, OwnMove(c)(s).value)
  {
    var s' := OwnMove(c)(s).value;
    assert Path(OwnMove(c), s', 0, s');
    assert Path(OwnMove(c), s, 1, s');
  }

  /** A call has one end. */
  lemma ReturnsOnce(s: State, c: nat, op: Op, s1: State)
    requires Returns(s, c, op, s1)
    ensures forall s2 :: Returns(s, c, op, s2) ==> s2 == s1
  {
    var t := Step(s, Act(c, op));
    forall s2 | Returns(s, c, op, s2) ensures s2 == s1 {
      var j: nat :| Path(OwnMove(c), t, j, s1);
      var k: nat :| Path(OwnMove(c), t, k, s2);
      OneEnd(OwnMove(c), t, j, s1, k, s2);
    }
  }

  /** Client c, evaluated on its own state. */
  lemma Turns(s: State, c: nat, k: nat, sh: Shared, pc: Client)
    requires c < |s.clients| && ClientTurns(s.sh, c, s.clients[c], k) == Some((sh, pc))
    ensures Leads(s, c, State(sh, s.workers, s.clients[c := pc]))
  {
    assert Path(OwnMove(c), s, 0, s);
    forall t: State | Leads(s, c, t) && c < |t.clients| && ClientReady(t.sh, t.clients[c])
      ensures Leads(s, c, ClientMoved(t, c))
    {
      ClientStepIs(t, c);
      MoveLeads(t, c);
      LeadsOn(s, c, t, ClientMoved(t, c));
    }
    ClientAfterHolds((t: State) => Leads(s, c, t), s, c, k);
  }

  // ---------- Growing ----------

  /** The list entries of m workers from number `first` on. */
  function NewEntries(first: nat, m: nat): seq<Entry> {
    seq(m, i requires 0 <= i < m => Entry(first + i, false, 0))
  }

  /** The pool with m more workers, all new, counted, idle and listed; client c at pc. */
  function Grown(s: State, c: nat, m: nat, pc: Client): State
    requires c < |s.clients|
  {
    var sh := s.sh.(cur := s.sh.cur + m, idle := s.sh.idle + m,
                    threads := s.sh.threads + NewEntries(|s.workers|, m));
    State(sh, s.workers + seq(m, _ => Top), s.clients[c := pc])
  }

  lemma GrownTwice(s: State, c: nat, j: nat, pc: Client, k: nat, pc': Client)
    requires c < |s.clients|
    ensures Grown(Grown(s, c, j, pc), c, k, pc') == Grown(s, c, j + k, pc')
  {
    var s1, s2 := Grown(s, c, j, pc), Grown(s, c, j + k, pc');
    assert s1.workers + seq(k, _ => Top) == s2.workers;
    assert s1.sh.threads + NewEntries(|s1.workers|, k) == s2.sh.threads;
  }

  lemma GrownByNone(s: State, c: nat, pc: Client)
    requires c < |s.clients|
    ensures Grown(s, c, 0, pc) == s.(clients := s.clients[c := pc])
  {
    assert s.workers + seq(0, _ => Top) == s.workers;
    assert s.sh.threads + NewEntries(|s.workers|, 0) == s.sh.threads;
  }

  /** addThread. */
  function Added(sh: Shared, id: nat): Shared {
    sh.(cur := sh.cur + 1, idle := sh.idle + 1, threads := sh.threads + [Entry(id, false, 0)])
  }

  lemma AddLeads(s: State, c: nat, id: nat, k: Cont)
    requires c < |s.clients| && s.clients[c] == WantThreadC(id, k) && s.sh.threadMutex.None?
    ensures Leads(s, c, State(Added(s.sh, id), s.workers, s.clients[c := AfterCreate(k)]))
  {
    var counted := s.sh.(threadMutex := Some(C(c)), cur := s.sh.cur + 1, idle := s.sh.idle + 1);
    var s1 := State(counted, s.workers, s.clients[c := Emplace(id, k)]);
    CountTurns(s.sh, c, id, k);
    Turns(s, c, 3, counted, Emplace(id, k));
    ListTurns(counted, c, id, k);
    Turns(s1, c, 2, Added(s.sh, id), AfterCreate(k));
    assert s1.clients[c := AfterCreate(k)] == s.clients[c := AfterCreate(k)];
    LeadsOn(s, c, s1, State(Added(s.sh, id), s.workers, s.clients[c := AfterCreate(k)]));
  }

  /** createThread past its check. */
  lemma CreateLeads(s: State, c: nat, k: Cont)
    requires c < |s.clients| && s.clients[c] == Launch(k) && s.sh.threadMutex.None?
    ensures Leads(s, c, Grown(s, c, 1, AfterCreate(k)))
  {
    var id := |s.workers|;
    LaunchIs(s, c);
    MoveLeads(s, c);
    var s1 := State(s.sh, s.workers + [Top], s.clients[c := WantThreadC(id, k)]);
    AddLeads(s1, c, id, k);
    var s2 := State(Added(s.sh, id), s1.workers, s1.clients[c := AfterCreate(k)]);
    LeadsOn(s, c, s1, s2);
    assert NewEntries(id, 1) == [Entry(id, false, 0)];
    assert s2 == Grown(s, c, 1, AfterCreate(k));
  }

  /** How many of n threads there is room for. */
  function Room(sh: Shared, n: nat): nat {
    if sh.cur >= sh.max then 0 else if n < sh.max - sh.cur then n else sh.max - sh.cur
  }

  lemma RoundTurns(sh: Shared, c: nat, i: nat, n: nat, after: After)
    requires i < n
    ensures var k := InStart(i, n, after);
            ClientTurns(sh, c, StartLoop(i, n, after), 2)
              == Some((sh, if sh.cur >= sh.max then StartLoop(i + 1, n, after) else Launch(k)))
  {
    var k := InStart(i, n, after);
    var pc := if sh.cur >= sh.max then StartLoop(i + 1, n, after) else Launch(k);
    assert ClientTurns(sh, c, CreateCheck(k), 1) == Some((sh, pc));
  }

  lemma ExitTurn(sh: Shared, c: nat, n: nat, after: After)
    ensures ClientTurns(sh, c, StartLoop(n, n, after), 1) == Some((sh, AfterStart(after)))
  {
  }

  /** One round of the loop in start(). */
  lemma RoundLeads(s: State, c: nat, i: nat, n: nat, after: After)
    requires c < |s.clients| && i < n && s.clients[c] == StartLoop(i, n, after) && s.sh.threadMutex.None?
    ensures Leads(s, c, Grown(s, c, Room(s.sh, 1), StartLoop(i + 1, n, after)))
  {
    RoundTurns(s.sh, c, i, n, after);
    if s.sh.cur >= s.sh.max {
      Turns(s, c, 2, s.sh, StartLoop(i + 1, n, after));
      GrownByNone(s, c, StartLoop(i + 1, n, after));
    } else {
      CreateRound(s, c, i, n, after);
    }
  }

  lemma CreateRound(s: State, c: nat, i: nat, n: nat, after: After)
    requires c < |s.clients| && i < n && s.clients[c] == StartLoop(i, n, after)
    requires s.sh.cur < s.sh.max && s.sh.threadMutex.None?
    ensures Leads(s, c, Grown(s, c, 1, StartLoop(i + 1, n, after)))
  {
    var k := InStart(i, n, after);
    RoundTurns(s.sh, c, i, n, after);
    Turns(s, c, 2, s.sh, Launch(k));
    var s1 := s.(clients := s.clients[c := Launch(k)]);
    CreateLeads(s1, c, k);
    assert s1.clients[c := AfterCreate(k)] == s.clients[c := AfterCreate(k)];
    LeadsOn(s, c, s1, Grown(s, c, 1, AfterCreate(k)));
  }

  /** The loop of start(), from round i on. */
  lemma {:induction false} LoopLeads(s: State, c: nat, i: nat, n: nat, after: After)
    requires c < |s.clients| && i <= n && s.clients[c] == StartLoop(i, n, after) && s.sh.threadMutex.None?
    ensures Leads(s, c, Grown(s, c, Room(s.sh, n - i), AfterStart(after)))
    decreases n - i
  {
    if i == n {
      ExitTurn(s.sh, c, n, after);
      Turns(s, c, 1, s.sh, AfterStart(after));
      GrownByNone(s, c, AfterStart(after));
    } else {
      RoundLeads(s, c, i, n, after);
      var s1 := Grown(s, c, Room(s.sh, 1), StartLoop(i + 1, n, after));
      var m := Room(s1.sh, n - i - 1);
      LoopLeads(s1, c, i + 1, n, after);
      LeadsOn(s, c, s1, Grown(s1, c, m, AfterStart(after)));
      GrownTwice(s, c, Room(s.sh, 1), StartLoop(i + 1, n, after), m, AfterStart(after));
    }
  }

  lemma SetTurns(sh: Shared, c: nat, want: nat, after: After)
    requires sh.status == STOP
    ensures ClientTurns(sh, c, StartStatus(want, after), 2)
         == Some((sh.(status := RUNNING), StartLoop(0, Clamped(want, sh.min, sh.max), after)))
  {
    var pc := StartLoop(0, Clamped(want, sh.min, sh.max), after);
    assert ClientTurns(sh, c, StartSet(want, after), 1) == Some((sh.(status := RUNNING), pc));
  }

  /** How many threads start(want) adds. */
  function Starters(sh: Shared, want: nat): nat {
    if sh.status == STOP then Room(sh, Clamped(want, sh.min, sh.max)) else 0
  }

  function Awakened(sh: Shared): Shared {
    if sh.status == STOP then sh.(status := RUNNING) else sh
  }

  lemma SetLeads(s: State, c: nat, want: nat, after: After)
    requires c < |s.clients| && s.clients[c] == StartStatus(want, after) && s.sh.status == STOP
    ensures var n := Clamped(want, s.sh.min, s.sh.max);
            Leads(s, c, State(Awakened(s.sh), s.workers, s.clients[c := StartLoop(0, n, after)]))
  {
    SetTurns(s.sh, c, want, after);
    Turns(s, c, 2, Awakened(s.sh), StartLoop(0, Clamped(want, s.sh.min, s.sh.max), after));
  }

  lemma StartStopped(s: State, c: nat, want: nat, after: After)
    requires c < |s.clients| && s.clients[c] == StartStatus(want, after) && s.sh.threadMutex.None?
    requires s.sh.status == STOP
    ensures Leads(s, c, Grown(s.(sh := Awakened(s.sh)), c, Starters(s.sh, want), AfterStart(after)))
  {
    var n := Clamped(want, s.sh.min, s.sh.max);
    var s1 := State(Awakened(s.sh), s.workers, s.clients[c := StartLoop(0, n, after)]);
    SetLeads(s, c, want, after);
    LoopLeads(s1, c, 0, n, after);
    assert s1.clients[c := AfterStart(after)] == s.clients[c := AfterStart(after)];
    LeadsOn(s, c, s1, Grown(s.(sh := Awakened(s.sh)), c, Starters(s.sh, want), AfterStart(after)));
  }

  lemma StartLeads(s: State, c: nat, want: nat, after: After)
    requires c < |s.clients| && s.clients[c] == StartStatus(want, after) && s.sh.threadMutex.None?
    ensures Leads(s, c, Grown(s.(sh := Awakened(s.sh)), c, Starters(s.sh, want), AfterStart(after)))
  {
    if s.sh.status == STOP {
      StartStopped(s, c, want, after);
    } else {
      assert ClientTurns(s.sh, c, s.clients[c], 1) == Some((s.sh, AfterStart(after)));
      Turns(s, c, 1, s.sh, AfterStart(after));
      GrownByNone(s, c, AfterStart(after));
    }
  }

  // ---------- Whole calls ----------

  /** s with m more workers and what else `sh` says. */
  ghost predicate Grew(s: State, s': State, m: nat) {
    && s'.workers == s.workers + seq(m, _ => Top)
    && s'.clients == s.clients
    && s'.sh.cur == s.sh.cur + m && s'.sh.idle == s.sh.idle + m
    && s'.sh.threads == s.sh.threads + NewEntries(|s.workers|, m)
    && s'.sh == s.sh.(status := s'.sh.status, cur := s'.sh.cur, idle := s'.sh.idle,
                      threads := s'.sh.threads, tasks := s'.sh.tasks)
  }

  /**
    start(want), alone: nothing if the pool is started; else it is running, with one more worker
    for each of the threads wanted, at least min and at most max of them, that there is room for.
   */
  lemma StartAlone(s: State, c: nat, want: nat)
    requires c < |s.clients| && s.clients[c].Idle? && Enabled(s, Act(c, Start(want))) && s.sh.threadMutex.None?
    ensures exists s' :: Returns(s, c, Start(want), s')
    ensures forall s' :: Returns(s, c, Start(want), s') ==>
              && Grew(s, s', Starters(s.sh, want))
              && (s.sh.status == STOP && s.sh.cur == 0 ==>
                    |s'.workers| - |s.workers| == var (min, max) := (s.sh.min, s.sh.max);
                      if max <= min || max <= want then max else if want < min then min else want)
              && s'.sh.tasks == s.sh.tasks
              && s'.sh.status == if s.sh.status == STOP then RUNNING else s.sh.status
  {
    var s1 := Step(s, Act(c, Start(want)));
    var end := Grown(s.(sh := Awakened(s.sh)), c, Starters(s.sh, want), Idle);
    StartLeads(s1, c, want, ThenReturn);
    assert Grown(s1.(sh := Awakened(s1.sh)), c, Starters(s1.sh, want), AfterStart(ThenReturn)) == end;
    assert Returns(s, c, Start(want), end);
    ReturnsOnce(s, c, Start(want), end);
    assert end.clients == s.clients;
  }

  /** pause(), alone: a running pool is paused, and nothing else happens. */
  lemma PauseAlone(s: State, c: nat)
    requires c < |s.clients| && s.clients[c].Idle? && Enabled(s, Act(c, Pause))
    ensures forall s' :: Returns(s, c, Pause, s') <==>
              s' == if s.sh.status == RUNNING then s.(sh := s.sh.(status := PAUSE)) else s
  {
    var s1 := Step(s, Act(c, Pause));
    var end := if s.sh.status == RUNNING then s.(sh := s.sh.(status := PAUSE)) else s;
    var k := if s.sh.status == RUNNING then 2 else 1;
    assert ClientTurns(end.sh, c, Idle, 0) == Some((end.sh, Idle));
    assert s.sh.status == RUNNING ==> ClientTurns(s.sh, c, PauseSet, 1) == Some((end.sh, Idle));
    assert ClientTurns(s1.sh, c, PauseStatus, k) == Some((end.sh, Idle));
    Turns(s1, c, k, end.sh, Idle);
    assert s1.clients[c := Idle] == s.clients;
    ReturnsOnce(s, c, Pause, end);
  }

  /** resume(), alone: a paused pool is running again, and nothing else happens. */
  lemma ResumeAlone(s: State, c: nat)
    requires c < |s.clients| && s.clients[c].Idle? && Enabled(s, Act(c, Resume))
    ensures forall s' :: Returns(s, c, Resume, s') <==>
              s' == if s.sh.status == PAUSE then s.(sh := s.sh.(status := RUNNING)) else s
  {
    var s1 := Step(s, Act(c, Resume));
    var end := if s.sh.status == PAUSE then s.(sh := s.sh.(status := RUNNING)) else s;
    var k := if s.sh.status == PAUSE then 2 else 1;
    assert ClientTurns(end.sh, c, Idle, 0) == Some((end.sh, Idle));
    assert s.sh.status == PAUSE ==> ClientTurns(s.sh, c, ResumeSet, 1) == Some((end.sh, Idle));
    assert ClientTurns(s1.sh, c, ResumeStatus, k) == Some((end.sh, Idle));
    Turns(s1, c, k, end.sh, Idle);
    assert s1.clients[c := Idle] == s.clients;
    ReturnsOnce(s, c, Resume, end);
  }

  // ---------- wait ----------

  /** What wait() looks for. */
  predicate Over(sh: Shared) {
    sh.status == STOP || (sh.tasks == [] && sh.idle == sh.cur)
  }

  /** In the loop of wait(), everything being as in s. */
  predicate InLoop(s: State, c: nat, t: State) {
    && c < |t.clients| && t.sh == s.sh
    && (t.clients[c] == WaitStatus || t.clients[c] == WaitTasks
        || (s.sh.tasks == [] && (t.clients[c] == WaitIdle || t.clients[c] == WaitCur(s.sh.idle))))
  }

  lemma LoopGoesOn(s: State, c: nat, t: State)
    requires InLoop(s, c, t) && !Over(s.sh) && OwnMove(c)(t).Some?
    ensures InLoop(s, c, OwnMove(c)(t).value)
  {
  }

  lemma NeverReturns(s: State, c: nat, op: Op, s': State)
    requires op.Wait? && Returns(s, c, op, s')
    ensures Over(s.sh)
  {
    var next, s1 := OwnMove(c), Step(s, Act(c, op));
    if !Over(s.sh) {
      var k: nat :| Path(next, s1, k, s');
      forall t: State | InLoop(s, c, t) && next(t).Some? ensures InLoop(s, c, next(t).value) {
        LoopGoesOn(s, c, t);
      }
      PathKeeps(next, (t: State) => InLoop(s, c, t), s1, k, s');
      assert false;
    }
  }

  lemma StoppedTurns(sh: Shared, c: nat)
    requires sh.status == STOP
    ensures ClientTurns(sh, c, WaitStatus, 2) == Some((sh, Idle))
  {
    assert ClientTurns(sh, c, WaitDone(false), 1) == Some((sh, Idle));
  }

  lemma BreakTurns(sh: Shared, c: nat)
    requires sh.idle == sh.cur
    ensures ClientTurns(sh, c, WaitIdle, 3) == Some((sh, Idle))
  {
    assert ClientTurns(sh, c, WaitDone(true), 1) == Some((sh, Idle));
    assert ClientTurns(sh, c, WaitCur(sh.idle), 2) == Some((sh, Idle));
  }

  lemma BreakLeads(s: State, c: nat)
    requires c < |s.clients| && s.clients[c] == WaitStatus
    requires s.sh.status != STOP && s.sh.tasks == [] && s.sh.idle == s.sh.cur
    ensures Leads(s, c, s.(clients := s.clients[c := Idle]))
  {
    var s1, s2 := s.(clients := s.clients[c := WaitTasks]), s.(clients := s.clients[c := WaitIdle]);
    assert ClientTurns(s.sh, c, WaitStatus, 1) == Some((s.sh, WaitTasks));
    Turns(s, c, 1, s.sh, WaitTasks);
    MoveLeads(s1, c);
    assert s1.clients[c := WaitIdle] == s2.clients;
    LeadsOn(s, c, s1, s2);
    BreakTurns(s.sh, c);
    Turns(s2, c, 3, s.sh, Idle);
    assert s2.clients[c := Idle] == s.clients[c := Idle];
    LeadsOn(s, c, s2, s.(clients := s.clients[c := Idle]));
  }

  /**
    wait(), alone: it changes nothing, and comes back exactly if the pool is stopped, or the queue
    is empty and as many workers are idle as there are; otherwise it loops.
   */
  lemma WaitAlone(s: State, c: nat, op: Op)
    requires c < |s.clients| && s.clients[c].Idle? && op.Wait? && Enabled(s, Act(c, op))
    ensures forall s' :: Returns(s, c, op, s') <==> s' == s && Over(s.sh)
  {
    var s1 := Step(s, Act(c, op));
    assert s1 == s.(clients := s.clients[c := WaitStatus]);
    assert s1.clients[c := Idle] == s.clients;
    if Over(s.sh) {
      if s.sh.status == STOP {
        StoppedTurns(s.sh, c);
        Turns(s1, c, 2, s.sh, Idle);
      } else {
        BreakLeads(s1, c);
      }
      ReturnsOnce(s, c, op, s);
    }
    forall s' | Returns(s, c, op, s') ensures Over(s.sh) {
      NeverReturns(s, c, op, s');
    }
  }

  // ---------- commit ----------

  /** With m threads added by its start(), does commit() add one itself? */
  function OneMore(sh: Shared, m: nat): nat {
    if 0 <= sh.idle + m <= |sh.tasks| && sh.cur + m < sh.max then 1 else 0
  }

  lemma DecideTurns(sh: Shared, c: nat)
    ensures ClientTurns(sh, c, ReadIdle, if 0 <= sh.idle <= |sh.tasks| then 3 else 2)
         == Some((sh, if OneMore(sh, 0) == 1 then CreateCheck(InCommit) else WantTaskC))
  {
    if 0 <= sh.idle <= |sh.tasks| {
      assert ClientTurns(sh, c, ReadMax, 1) == Some((sh, if sh.cur < sh.max then CreateCheck(InCommit) else WantTaskC));
      assert ClientTurns(sh, c, ReadTasks(sh.idle), 2) == ClientTurns(sh, c, ReadMax, 1);
    } else {
      assert ClientTurns(sh, c, ReadTasks(sh.idle), 1) == Some((sh, WantTaskC));
    }
  }

  lemma LaunchTurn(sh: Shared, c: nat, k: Cont)
    requires sh.cur < sh.max
    ensures ClientTurns(sh, c, CreateCheck(k), 1) == Some((sh, Launch(k)))
  {
  }

  lemma DecideToCreate(s: State, c: nat)
    requires c < |s.clients| && s.clients[c] == ReadIdle && OneMore(s.sh, 0) == 1
    ensures Leads(s, c, s.(clients := s.clients[c := Launch(InCommit)]))
  {
    DecideTurns(s.sh, c);
    Turns(s, c, 3, s.sh, CreateCheck(InCommit));
    var s1 := s.(clients := s.clients[c := CreateCheck(InCommit)]);
    LaunchTurn(s.sh, c, InCommit);
    Turns(s1, c, 1, s.sh, Launch(InCommit));
    assert s1.clients[c := Launch(InCommit)] == s.clients[c := Launch(InCommit)];
    LeadsOn(s, c, s1, s.(clients := s.clients[c := Launch(InCommit)]));
  }

  /** commit() decides and creates its thread, if it does. */
  lemma DecideLeads(s: State, c: nat)
    requires c < |s.clients| && s.clients[c] == ReadIdle && s.sh.threadMutex.None?
    ensures Leads(s, c, Grown(s, c, OneMore(s.sh, 0), WantTaskC))
  {
    if OneMore(s.sh, 0) == 1 {
      var s1 := s.(clients := s.clients[c := Launch(InCommit)]);
      DecideToCreate(s, c);
      CreateLeads(s1, c, InCommit);
      assert s1.clients[c := WantTaskC] == s.clients[c := WantTaskC];
      LeadsOn(s, c, s1, Grown(s, c, 1, WantTaskC));
    } else {
      DecideTurns(s.sh, c);
      Turns(s, c, if 0 <= s.sh.idle <= |s.sh.tasks| then 3 else 2, s.sh, WantTaskC);
      GrownByNone(s, c, WantTaskC);
    }
  }

  lemma PushTurns(sh: Shared, c: nat)
    requires sh.taskMutex.None?
    ensures ClientTurns(sh, c, WantTaskC, 4) == Some((sh.(tasks := sh.tasks + [Committed(sh)]), Idle))
  {
    var locked, pushed := sh.(taskMutex := Some(C(c))), sh.(tasks := sh.tasks + [Committed(sh)]);
    assert ClientTurns(pushed, c, Notify, 1) == Some((pushed, Idle));
    assert ClientTurns(pushed.(taskMutex := Some(C(c))), c, UnlockTaskC, 2) == Some((pushed, Idle));
    assert ClientTurns(locked, c, Push, 3) == Some((pushed, Idle));
  }

  /** commit() up to its decision. */
  lemma BeginLeads(s: State, c: nat)
    requires c < |s.clients| && s.clients[c] == CommitStatus && s.sh.threadMutex.None?
    ensures Leads(s, c, Grown(s.(sh := Awakened(s.sh)), c, Starters(s.sh, 0), ReadIdle))
  {
    var pc := if s.sh.status == STOP then StartStatus(0, ThenCommit) else ReadIdle;
    assert ClientTurns(s.sh, c, CommitStatus, 1) == Some((s.sh, pc));
    Turns(s, c, 1, s.sh, pc);
    if s.sh.status == STOP {
      var s1 := s.(clients := s.clients[c := pc]);
      StartLeads(s1, c, 0, ThenCommit);
      var end := Grown(s.(sh := Awakened(s.sh)), c, Starters(s.sh, 0), ReadIdle);
      assert Grown(s1.(sh := Awakened(s1.sh)), c, Starters(s1.sh, 0), ReadIdle) == end;
      LeadsOn(s, c, s1, end);
    } else {
      GrownByNone(s, c, ReadIdle);
    }
  }

  /** Where a commit() alone ends. */
  function Queued(s: State, c: nat, m: nat): State
    requires c < |s.clients|
  {
    var s1 := Grown(s.(sh := Awakened(s.sh)), c, m, Idle);
    s1.(sh := s1.sh.(tasks := s.sh.tasks + [Committed(s.sh)]))
  }

  function Pushed(s: State, c: nat): State
    requires c < |s.clients|
  {
    State(s.sh.(tasks := s.sh.tasks + [Committed(s.sh)]), s.workers, s.clients[c := Idle])
  }

  lemma PushLeads(s: State, c: nat)
    requires c < |s.clients| && s.clients[c] == WantTaskC && s.sh.taskMutex.None?
    ensures Leads(s, c, Pushed(s, c))
  {
    PushTurns(s.sh, c);
    Turns(s, c, 4, s.sh.(tasks := s.sh.tasks + [Committed(s.sh)]), Idle);
  }

  /** commit() up to its lock of task_mutex. */
  lemma GrowLeads(s: State, c: nat)
    requires c < |s.clients| && s.clients[c] == CommitStatus && s.sh.threadMutex.None?
    ensures var s0, m := s.(sh := Awakened(s.sh)), Starters(s.sh, 0);
            Leads(s, c, Grown(s0, c, m + OneMore(s.sh, m), WantTaskC))
  {
    var s0, m := s.(sh := Awakened(s.sh)), Starters(s.sh, 0);
    BeginLeads(s, c);
    var s1 := Grown(s0, c, m, ReadIdle);
    DecideLeads(s1, c);
    assert OneMore(s1.sh, 0) == OneMore(s.sh, m);
    LeadsOn(s, c, s1, Grown(s1, c, OneMore(s.sh, m), WantTaskC));
    GrownTwice(s0, c, m, ReadIdle, OneMore(s.sh, m), WantTaskC);
  }

  lemma PushedIsQueued(s: State, c: nat, m: nat)
    requires c < |s.clients|
    ensures Pushed(Grown(s.(sh := Awakened(s.sh)), c, m, WantTaskC), c) == Queued(s, c, m)
  {
    assert s.clients[c := WantTaskC][c := Idle] == s.clients[c := Idle];
  }

  lemma CommitLeads(s: State, c: nat)
    requires c < |s.clients| && s.clients[c] == CommitStatus && s.sh.threadMutex.None? && s.sh.taskMutex.None?
    ensures var m := Starters(s.sh, 0); Leads(s, c, Queued(s, c, m + OneMore(s.sh, m)))
  {
    var m := Starters(s.sh, 0) + OneMore(s.sh, Starters(s.sh, 0));
    GrowLeads(s, c);
    var s1 := Grown(s.(sh := Awakened(s.sh)), c, m, WantTaskC);
    PushLeads(s1, c);
    PushedIsQueued(s, c, m);
    LeadsOn(s, c, s1, Pushed(s1, c));
  }

  lemma CommitReturns(s: State, c: nat)
    requires c < |s.clients| && s.clients[c].Idle? && Enabled(s, Act(c, Commit))
    requires s.sh.taskMutex.None? && s.sh.threadMutex.None?
    ensures var m := Starters(s.sh, 0); Returns(s, c, Commit, Queued(s, c, m + OneMore(s.sh, m)))
  {
    var s1 := s.(clients := s.clients[c := CommitStatus]);
    var m := Starters(s.sh, 0) + OneMore(s.sh, Starters(s.sh, 0));
    assert Step(s, Act(c, Commit)) == s1;
    CommitLeads(s1, c);
    SameQueued(s, c, m);
  }

  lemma SameQueued(s: State, c: nat, m: nat)
    requires c < |s.clients|
    ensures Queued(s.(clients := s.clients[c := CommitStatus]), c, m) == Queued(s, c, m)
  {
    assert s.clients[c := CommitStatus][c := Idle] == s.clients[c := Idle];
  }

  lemma QueuedGrew(s: State, c: nat, m: nat)
    requires c < |s.clients| && s.clients[c].Idle?
    ensures var s' := Queued(s, c, m);
            && Grew(s, s', m)
            && s'.sh.tasks == s.sh.tasks + [Committed(s.sh)]
            && s'.sh.status == if s.sh.status == STOP then RUNNING else s.sh.status
  {
    assert s.clients[c := Idle] == s.clients;
  }

  /**
    commit(), alone, in any state in which both mutexes are free: the task is queued behind the
    others, the pool is started if it was stopped, and exactly if the idle workers are not more
    than the tasks queued before, and there is room, there is one worker more.
   */
  lemma CommitAlone(s: State, c: nat)
    requires c < |s.clients| && s.clients[c].Idle? && Enabled(s, Act(c, Commit))
    requires s.sh.taskMutex.None? && s.sh.threadMutex.None?
    ensures exists s' :: Returns(s, c, Commit, s')
    ensures forall s' :: Returns(s, c, Commit, s') ==>
              var started := Starters(s.sh, 0);
              var more := 0 <= s.sh.idle + started <= |s.sh.tasks| && s.sh.cur + started < s.sh.max;
              && Grew(s, s', if more then started + 1 else started)
              && s'.sh.tasks == s.sh.tasks + [Committed(s.sh)]
              && s'.sh.status == if s.sh.status == STOP then RUNNING else s.sh.status
  {
    var m := Starters(s.sh, 0) + OneMore(s.sh, Starters(s.sh, 0));
    CommitReturns(s, c);
    ReturnsOnce(s, c, Commit, Queued(s, c, m));
    QueuedGrew(s, c, m);
  }
}
