/**
  Which tasks of `HThreadPool` find a worker: after a commit that nothing overlaps there always is
  one; in general exactly if the minimum is not 0; and a paused pool only finishes what it has begun.
 */
module ThreadPoolService {
  import opened Wrappers
  import opened Counting
  import opened ThreadPool
  import opened ThreadPoolLocks
  import opened ThreadPoolEntries
  import opened ThreadPoolCounts
  import opened ThreadPoolTheorems
  import opened ThreadPoolWait
  import opened ThreadPoolRuns
  import opened ThreadPoolStage
  import opened ThreadPoolAlone

  // ---------- cur_thread_num counts the workers ----------

  /** Where a client can be while the pool is stopped. */
  predicate BeforeStart(pc: Client) {
    || Quiet(pc) || InStop(pc)
    || pc.CommitStatus? || pc.StartStatus? || pc.StartSet? || pc.PauseStatus? || pc.ResumeStatus?
  }

  ghost predicate NoneStopping(s: State) {
    forall c :: 0 <= c < |s.clients| ==> !Stopping(s.clients[c])
  }

  /** A started pool counts its workers, and those about to be counted; a stopped one has none. */
  ghost predicate Staffed(s: State) {
    && (s.sh.status != STOP ==> Count(IsMember, s.workers) == s.sh.cur + Count(IsPending, s.clients))
    && (s.sh.status == STOP ==> forall c :: 0 <= c < |s.clients| ==> BeforeStart(s.clients[c]))
    && (s.sh.status == STOP && NoneStopping(s) ==> AllExited(s) && s.sh.cur == 0)
  }

  lemma WorkerMoveStaff(s: Shared, w: nat, pc: Worker, notified: bool)
    ensures var (s', pc') := WorkerMove(s, w, pc, notified);
            && s'.status == s.status
            && (s.status != STOP ==> One(IsMember(pc')) - One(IsMember(pc)) == s'.cur - s.cur)
            && (pc == Exited ==> pc' == Exited && s' == s)
  {
  }

  lemma WorkerKeepsStaffed(s: State, w: nat, notified: bool)
    requires Staffed(s) && w < |s.workers| && WaitsFor(s, W(w)).None?
    ensures Staffed(WorkerStep(s, w, notified))
  {
    var s' := WorkerStep(s, w, notified);
    WorkerMoveStaff(s.sh, w, s.workers[w], notified);
    CountUpdate(IsMember, s.workers, w, s'.workers[w]);
    assert NoneStopping(s') <==> NoneStopping(s);
  }

  lemma ClientMoveStopped(s: Shared, c: nat, pc: Client, op: Op, next: nat)
    requires s.status == STOP && BeforeStart(pc)
    ensures var (s', pc') := ClientMove(s, c, pc, op, next);
            s'.status == STOP ==> BeforeStart(pc')
  {
  }

  lemma ClientMoveApart(s: Shared, c: nat, pc: Client, op: Op, next: nat)
    requires s.status == STOP && BeforeStart(pc)
    ensures var (s', pc') := ClientMove(s, c, pc, op, next);
            && !pc.Launch? && !IsPending(pc')
            && (Stopping(pc) && !Stopping(pc') ==> pc.StopIdle?)
  {
  }

  lemma ClientMoveCount(s: Shared, c: nat, pc: Client, op: Op, next: nat)
    requires s.status == STOP && BeforeStart(pc)
    ensures var s' := ClientMove(s, c, pc, op, next).0;
            && (s'.status == STOP ==> s'.cur == s.cur || pc.StopCur?)
            && (s'.status != STOP ==> pc.StartSet? && s'.cur == s.cur)
  {
  }

  lemma ClientMoveRunning(s: Shared, c: nat, pc: Client, op: Op, next: nat)
    requires s.status != STOP && (pc.PauseSet? || pc.ResumeSet? || !Stopping(pc))
    ensures var (s', pc') := ClientMove(s, c, pc, op, next);
            && (s'.status == STOP ==> pc.StopSet? && pc'.StopNotify?)
            && s'.cur + One(IsPending(pc')) == s.cur + One(IsPending(pc)) + One(pc.Launch?)
  {
  }

  lemma RunningKeepsStaffed(s: State, c: nat, op: Op)
    requires Entries(s) && Staffed(s) && c < |s.clients| && WaitsFor(s, C(c)).None? && Allowed(s, c, op)
    requires s.sh.status != STOP
    ensures Staffed(ClientStep(s, c, op))
  {
    var s', pc := ClientStep(s, c, op), s.clients[c];
    assert StopProgress(s, pc);
    ClientMoveRunning(s.sh, c, pc, op, |s.workers|);
    CountUpdate(IsPending, s.clients, c, s'.clients[c]);
    CountAppend(IsMember, s.workers, Top);
    if s'.sh.status == STOP {
      assert Stopping(s'.clients[c]);
      assert forall d :: 0 <= d < |s.clients| && d != c ==> Quiet(s.clients[d]);
    }
  }

  lemma StoppedHasNobody(s: State)
    requires Staffed(s) && s.sh.status == STOP && NoneStopping(s)
    ensures Count(IsMember, s.workers) == 0 && Count(IsPending, s.clients) == 0 && s.sh.cur == 0
  {
    assert forall c :: 0 <= c < |s.clients| ==> BeforeStart(s.clients[c]);
    CountNone(IsMember, s.workers);
    CountNone(IsPending, s.clients);
  }

  /** start() makes a stopped pool a running one: it has nobody yet, and nobody is counted. */
  lemma AwakenedIsStaffed(s: State, c: nat, op: Op)
    requires Entries(s) && Staffed(s) && c < |s.clients| && s.clients[c].StartSet? && s.sh.status == STOP
    ensures Staffed(ClientStep(s, c, op))
  {
    var s' := ClientStep(s, c, op);
    StoppedHasNobody(s);
    CountUpdate(IsPending, s.clients, c, s'.clients[c]);
  }

  /** Nobody is left when stop() is over. */
  lemma StoppedLeavesNobody(s: State, c: nat, op: Op)
    requires Staffed(s) && c < |s.clients| && WaitsFor(s, C(c)).None? && StopProgress(s, s.clients[c])
    requires s.sh.status == STOP && BeforeStart(s.clients[c]) && !s.clients[c].StartSet?
    requires NoneStopping(ClientStep(s, c, op))
    ensures AllExited(s) && s.sh.cur == 0 && ClientStep(s, c, op).workers == s.workers
  {
    var s', pc := ClientStep(s, c, op), s.clients[c];
    ClientMoveStopped(s.sh, c, pc, op, |s.workers|);
    ClientMoveApart(s.sh, c, pc, op, |s.workers|);
    ClientMoveCount(s.sh, c, pc, op, |s.workers|);
    assert !Stopping(s'.clients[c]);
    if !Stopping(pc) {
      assert forall d :: 0 <= d < |s.clients| && d != c ==> s'.clients[d] == s.clients[d];
      assert NoneStopping(s);
    }
  }

  lemma StoppedKeepsStaffed(s: State, c: nat, op: Op)
    requires Entries(s) && Staffed(s) && c < |s.clients| && WaitsFor(s, C(c)).None?
    requires s.sh.status == STOP
    ensures Staffed(ClientStep(s, c, op))
  {
    var s', pc := ClientStep(s, c, op), s.clients[c];
    assert StopProgress(s, pc) && BeforeStart(pc);
    ClientMoveStopped(s.sh, c, pc, op, |s.workers|);
    ClientMoveApart(s.sh, c, pc, op, |s.workers|);
    ClientMoveCount(s.sh, c, pc, op, |s.workers|);
    if pc.StartSet? {
      AwakenedIsStaffed(s, c, op);
    } else if NoneStopping(s') {
      StoppedLeavesNobody(s, c, op);
    }
  }

  lemma StepKeepsStaffed(s: State, a: Label)
    requires Entries(s) && Staffed(s) && Enabled(s, a)
    ensures Staffed(Step(s, a))
  {
    match a
    case Work(w, notified) => WorkerKeepsStaffed(s, w, notified);
    case Act(c, op) =>
      if s.sh.status == STOP {
        StoppedKeepsStaffed(s, c, op);
      } else {
        RunningKeepsStaffed(s, c, op);
      }
    case Tick =>
      assert NoneStopping(Step(s, Tick)) <==> NoneStopping(s);
  }

  lemma {:induction false} StaffedAfter(n: nat, min: nat, max: nat, schedule: seq<Label>)
    ensures Staffed(StateAfter(n, min, max, schedule))
    decreases |schedule|
  {
    if schedule == [] {
      CountNone(IsMember, Fresh(n, min, max).workers);
    } else {
      var before, a := schedule[..|schedule| - 1], schedule[|schedule| - 1];
      StaffedAfter(n, min, max, before);
      InvAfter(n, min, max, before);
      if Enabled(StateAfter(n, min, max, before), a) {
        StepKeepsStaffed(StateAfter(n, min, max, before), a);
      }
    }
  }

  // ---------- A commit that nothing overlaps ----------

  /** Some worker is there and not on its way out. */
  ghost predicate HasWorker(s: State) {
    exists w :: 0 <= w < |s.workers| && IsMember(s.workers[w])
  }

  lemma NobodyIdle(s: State)
    requires Inv(s) && s.sh.cur == 0 && s.sh.threadMutex.None? && Count(IsMember, s.workers) == 0
    requires forall c :: 0 <= c < |s.clients| ==> !s.clients[c].StopIdle?
    ensures s.sh.idle == 0
  {
    CountWeaker(IsBusy, IsMember, s.workers);
    assert forall c :: 0 <= c < |s.clients| ==> OwnC(s.sh, c, s.clients[c]);
    assert forall w :: 0 <= w < |s.workers| ==> OwnW(s.sh, w, s.workers[w]);
    CountNone(IsHalfAdd, s.clients);
    CountNone(IsHalfDel, s.workers);
  }

  lemma NoMember(s: State)
    requires !HasWorker(s)
    ensures Count(IsMember, s.workers) == 0
  {
    CountNone(IsMember, s.workers);
  }

  lemma GrewHasWorker(s: State, s': State, m: nat)
    requires Grew(s, s', m) && (m > 0 || HasWorker(s))
    ensures HasWorker(s')
  {
    if m > 0 {
      assert s'.workers[|s.workers|] == Top;
    } else {
      var w :| 0 <= w < |s.workers| && IsMember(s.workers[w]);
      assert s'.workers[w] == s.workers[w];
    }
  }

  /** Without a worker, the counters say so. */
  lemma NoWorkerNoCount(s: State, c: nat)
    requires Inv(s) && Staffed(s) && !HasWorker(s) && s.sh.threadMutex.None?
    requires c < |s.clients| && forall d :: 0 <= d < |s.clients| ==> !InStop(s.clients[d])
    ensures s.sh.cur == 0 && s.sh.idle == 0
  {
    assert ClientFloor(s.sh, s.clients[c]);
    NoMember(s);
    NobodyIdle(s);
  }

  lemma CommitHires(s: State, c: nat, s': State)
    requires Inv(s) && Staffed(s) && s.sh.max > 0 && Returns(s, c, Commit, s')
    requires s.sh.taskMutex.None? && s.sh.threadMutex.None?
    ensures HasWorker(s')
  {
    CommitAlone(s, c);
    assert forall d :: 0 <= d < |s.clients| ==> !InStop(s.clients[d]);
    var started := Starters(s.sh, 0);
    var more := 0 <= s.sh.idle + started <= |s.sh.tasks| && s.sh.cur + started < s.sh.max;
    if !HasWorker(s) {
      NoWorkerNoCount(s, c);
    }
    GrewHasWorker(s, s', if more then started + 1 else started);
  }

  /**
    In every run: a commit() that nothing overlaps leaves its task behind the others and the pool
    with a worker, whatever the minimum, as long as the maximum lets there be one.
   */
  lemma CommitLeavesAWorker(n: nat, min: nat, max: nat, schedule: seq<Label>, c: nat)
    requires max > 0 && c < n
    requires var s := StateAfter(n, min, max, schedule);
             && s.clients[c].Idle? && Enabled(s, Act(c, Commit))
             && s.sh.taskMutex.None? && s.sh.threadMutex.None?
    ensures var s := StateAfter(n, min, max, schedule);
            && (exists s' :: Returns(s, c, Commit, s'))
            && forall s' :: Returns(s, c, Commit, s') ==>
                 HasWorker(s') && s'.sh.tasks == s.sh.tasks + [Committed(s.sh)] && s'.sh.status != STOP
  {
    var s := StateAfter(n, min, max, schedule);
    InvAfter(n, min, max, schedule);
    StaffedAfter(n, min, max, schedule);
    CommitAlone(s, c);
    forall s' | Returns(s, c, Commit, s') ensures HasWorker(s') {
      CommitHires(s, c, s');
    }
  }

  // ---------- The end of stop() ----------

  /** The pool is stopped, and nothing of it is left but its queue. */
  ghost predicate Down(s: State) {
    s.sh.status == STOP && AllExited(s) && s.sh.cur == 0 && s.sh.idle == 0
  }

  lemma StoppedIsDown(s: State, c: nat)
    requires Inv(s) && Staffed(s) && s.sh.status == STOP && c < |s.clients| && s.clients[c].StopStatus?
    ensures Down(s)
  {
    assert forall d :: 0 <= d < |s.clients| && d != c ==> Quiet(s.clients[d]);
    assert NoneStopping(s);
    NobodyThere(s);
  }

  lemma NobodyThere(s: State)
    requires Balanced(s) && AllExited(s) && s.sh.cur == 0
    requires forall d :: 0 <= d < |s.clients| ==> Quiet(s.clients[d]) || s.clients[d].StopStatus?
    ensures s.sh.idle == 0
  {
    CountNone(IsBusy, s.workers);
    CountNone(IsHalfDel, s.workers);
    CountNone(IsHalfAdd, s.clients);
  }

  lemma StopExits(s: Shared, c: nat, pc: Client, op: Op, next: nat)
    requires InStop(pc)
    ensures var (s', pc') := ClientMove(s, c, pc, op, next);
            !InStop(pc') ==> (pc.StopStatus? && s.status == STOP && s' == s) || (pc.StopIdle? && s' == s.(idle := 0))
  {
  }

  lemma StopDown(s: State, c: nat, op: Op)
    requires Inv(s) && Staffed(s) && c < |s.clients| && InStop(s.clients[c]) && WaitsFor(s, C(c)).None?
    requires !InStop(ClientStep(s, c, op).clients[c])
    ensures Down(ClientStep(s, c, op))
  {
    StopExits(s.sh, c, s.clients[c], op, |s.workers|);
    assert StopProgress(s, s.clients[c]);
    if s.clients[c].StopStatus? {
      StoppedIsDown(s, c);
    }
  }

  /**
    In every run: whenever a call of stop() ends, whether it had to do anything or not, the pool is
    stopped, all its workers have ended and both counters are 0.
   */
  lemma StopEndsDown(n: nat, min: nat, max: nat, schedule: seq<Label>, c: nat, op: Op)
    requires c < n
    requires var s := StateAfter(n, min, max, schedule);
             && InStop(s.clients[c]) && Enabled(s, Act(c, op)) && !InStop(ClientStep(s, c, op).clients[c])
    ensures Down(ClientStep(StateAfter(n, min, max, schedule), c, op))
  {
    InvAfter(n, min, max, schedule);
    StaffedAfter(n, min, max, schedule);
    StopDown(StateAfter(n, min, max, schedule), c, op);
  }

  // ---------- A started pool ----------

  /** A started pool that no client is still starting has a worker, if its minimum lets it. */
  lemma StartedHasWorker(n: nat, min: nat, max: nat, schedule: seq<Label>)
    requires min > 0 && max > 0
    requires var s := StateAfter(n, min, max, schedule);
             s.sh.status != STOP && forall c :: 0 <= c < n ==> Goal(s.clients[c]).None?
    ensures HasWorker(StateAfter(n, min, max, schedule))
  {
    var s := StateAfter(n, min, max, schedule);
    ThreadsNeverTooFew(n, min, max, schedule);
    StaffedAfter(n, min, max, schedule);
    var w := CountSome(IsMember, s.workers);
  }

  /** A task is queued in a started pool, nobody is in start(), and there is no worker. */
  ghost predicate Stranded(s: State) {
    && s.sh.tasks != [] && s.sh.status != STOP && !HasWorker(s)
    && forall c :: 0 <= c < |s.clients| ==> Goal(s.clients[c]).None?
  }

  ghost function Anything(): Rule {
    (s: State, c: nat, op: Op) => true
  }

  lemma OwnMoveIsReachable(n: nat, min: nat, max: nat, s: State, c: nat)
    requires Reachable(Anything(), n, min, max, s) && OwnMove(c)(s).Some?
    ensures Reachable(Anything(), n, min, max, OwnMove(c)(s).value)
  {
    var s1 := Next(Anything(), n, min, max, s, Act(c, Wait(false)));
  }

  lemma LeadsIsReachable(n: nat, min: nat, max: nat, s: State, c: nat, s': State)
    requires Reachable(Anything(), n, min, max, s) && Leads(s, c, s')
    ensures Reachable(Anything(), n, min, max, s')
  {
    var next := OwnMove(c);
    var k: nat :| Path(next, s, k, s');
    forall t: State | Reachable(Anything(), n, min, max, t) && next(t).Some?
      ensures Reachable(Anything(), n, min, max, next(t).value)
    {
      OwnMoveIsReachable(n, min, max, t, c);
    }
    PathKeeps(next, (t: State) => Reachable(Anything(), n, min, max, t), s, k, s');
  }

  /** Without room for a worker, the first task is stranded. */
  lemma NoRoomStrands(min: nat) returns (schedule: seq<Label>)
    ensures Stranded(StateAfter(1, min, 0, schedule))
  {
    var s := Fresh(1, min, 0);
    FreshIsReachable(Anything(), 1, min, 0);
    CommitAlone(s, 0);
    var s1 := Next(Anything(), 1, min, 0, s, Act(0, Commit));
    var s' :| Returns(s, 0, Commit, s');
    LeadsIsReachable(1, min, 0, s1, 0, s');
    schedule :| Obeys(Anything(), 1, min, 0, schedule) && StateAfter(1, min, 0, schedule) == s';
  }

  // ---------- The last worker retires while a task is on its way ----------

  /** With one worker, at the top of its loop, and no client adding one, the list is its entry. */
  lemma OneEntry(s: State)
    requires Entries(s) && s.workers == [Top] && s.clients == [Idle, Idle]
    ensures |s.sh.threads| == 1 && s.sh.threads[0].id == 0 && !s.sh.threads[0].stopped
  {
    var threads := s.sh.threads;
    assert Accounted(s, 0) && WalkOk(s.sh, 0, s.workers[0]);
    assert forall c :: 0 <= c < |s.clients| ==> Adding(s.clients[c]).None?;
    assert Listed(threads, 0);
    AtMostOne(threads);
  }

  lemma AtMostOne(threads: seq<Entry>)
    requires forall j :: 0 <= j < |threads| ==> threads[j].id < 1
    requires forall i, j :: 0 <= i < j < |threads| ==> threads[i].id != threads[j].id
    ensures |threads| <= 1
  {
    assert |threads| > 1 ==> threads[0].id < 1 && threads[1].id < 1;
  }

  lemma HereIsEntries(u: Setup, s: State)
    requires Here(u, s)
    ensures Entries(s)
  {
    var schedule :| Obeys(u.Rules(), 2, u.min, u.max, schedule) && StateAfter(2, u.min, u.max, schedule) == s;
    InvAfter(2, u.min, u.max, schedule);
  }

  lemma WalkTurns(sh: Shared, w: nat)
    requires |sh.threads| == 1 && sh.threads[0].id == w && !sh.threads[0].stopped
    ensures var walked := sh.(idle := sh.idle - 1, threads := [Entry(w, true, sh.clock)]);
            && WorkerTurns(sh, w, DelIdle(sh.clock), false, 3) == Some((walked, UnlockThread))
  {
    var less := sh.(idle := sh.idle - 1);
    var walked := less.(threads := [Entry(w, true, sh.clock)]);
    assert sh.threads[0 := Entry(w, true, sh.clock)] == walked.threads;
    assert WorkerTurns(walked, w, Scan(1, sh.clock), false, 1) == Some((walked, UnlockThread));
    assert WorkerTurns(less, w, Scan(0, sh.clock), false, 2) == Some((walked, UnlockThread));
  }

  lemma EndTurns(sh: Shared, w: nat)
    ensures WorkerTurns(sh, w, UnlockThread, false, 3)
         == Some((sh.(threadMutex := None, taskMutex := None), Exited))
  {
    var free := sh.(threadMutex := None, taskMutex := None);
    assert WorkerTurns(free, w, Leaving, false, 1) == Some((free, Exited));
    assert WorkerTurns(sh.(threadMutex := None), w, ReturnLocked, false, 2) == Some((free, Exited));
  }

  /** The rest of delThread, the list having one entry. */
  lemma FinishRetiring(u: Setup, s: State) returns (s': State)
    requires Here(u, s) && s.workers == [DelIdle(s.sh.clock)]
    requires |s.sh.threads| == 1 && s.sh.threads[0].id == 0 && !s.sh.threads[0].stopped
    ensures Here(u, s') && s'.clients == s.clients && s'.workers == [Exited]
    ensures s'.sh == s.sh.(idle := s.sh.idle - 1, threads := [Entry(0, true, s.sh.clock)],
                           threadMutex := None, taskMutex := None)
  {
    var walked := s.sh.(idle := s.sh.idle - 1, threads := [Entry(0, true, s.sh.clock)]);
    WalkTurns(s.sh, 0);
    s' := Works(u, s, 0, false, 3, walked, UnlockThread);
    EndTurns(walked, 0);
    s' := Works(u, s', 0, false, 3, walked.(threadMutex := None, taskMutex := None), Exited);
  }

  /** The only worker of a pool waits for its whole time and retires. */
  lemma RetireLast(u: Setup, s: State) returns (s': State)
    requires Here(u, s) && s.workers == [Top]
    requires s.sh.status == RUNNING && s.sh.taskMutex.None? && s.sh.threadMutex.None?
    requires s.sh.tasks == [] && s.sh.cur > s.sh.min
    requires |s.sh.threads| == 1 && s.sh.threads[0].id == 0 && !s.sh.threads[0].stopped
    ensures Here(u, s') && s'.clients == s.clients && s'.workers == [Exited]
    ensures s'.sh == s.sh.(cur := s.sh.cur - 1, idle := s.sh.idle - 1, threads := s'.sh.threads)
  {
    var half := RetireHalf(u, s, 0);
    s' := FinishRetiring(u, half);
  }

  /** A client has seen the idle worker and decided to launch none; it retires before the push. */
  lemma RetirementStrands(max: nat) returns (schedule: seq<Label>)
    requires max > 0
    ensures Stranded(StateAfter(2, 0, max, schedule))
  {
    var u := Setup(false, false, 0, max);
    var s := StartAll(u, 1);
    HereIsEntries(u, s);
    OneEntry(s);
    ThreadPoolStage.DecideTurns(s.sh, 1);
    s := Call(u, s, Commit);
    s := Moves(u, s, 0, 3, s.sh, WantTaskC);
    s := RetireLast(u, s);
    ThreadPoolStage.PushTurns(s.sh);
    s := Moves(u, s, 0, 4, s.sh.(tasks := [0]), Idle);
    assert s.clients == [Idle, Idle];
    schedule :| Obeys(u.Rules(), 2, 0, max, schedule) && StateAfter(2, 0, max, schedule) == s;
  }

  ghost predicate NeverStrands(min: nat, max: nat) {
    forall n: nat, schedule: seq<Label> :: !Stranded(StateAfter(n, min, max, schedule))
  }

  lemma OnceStranded(n: nat, min: nat, max: nat, schedule: seq<Label>)
    requires Stranded(StateAfter(n, min, max, schedule))
    ensures !NeverStrands(min, max)
  {
  }

  /**
    In all runs a task queued in a started pool finds a worker exactly if neither limit is 0; with
    a minimum of 0 the last worker can retire between the decision of a commit() and its push.
   */
  lemma NoTaskIsStrandedIff(min: nat, max: nat)
    ensures NeverStrands(min, max) <==> min > 0 && max > 0
  {
    if min > 0 && max > 0 {
      forall n: nat, schedule: seq<Label> ensures !Stranded(StateAfter(n, min, max, schedule)) {
        if Stranded(StateAfter(n, min, max, schedule)) {
          StartedHasWorker(n, min, max, schedule);
        }
      }
    } else if max == 0 {
      var schedule := NoRoomStrands(min);
      OnceStranded(1, min, max, schedule);
    } else {
      var schedule := RetirementStrands(max);
      OnceStranded(2, min, max, schedule);
    }
  }

  // ---------- A paused pool ----------

  /** Past the spin of line 153 and not yet with a task. */
  predicate IsTaker(pc: Worker) {
    || pc.WantTask? || pc.Hold? || pc.Sleep? || pc.WakeUp? || pc.Woken? || pc.Awake? || pc.DecIdle? || pc.Pop?
  }

  lemma PausedWorker(s: Shared, w: nat, pc: Worker, notified: bool)
    requires s.status == PAUSE
    ensures var (s', pc') := WorkerMove(s, w, pc, notified);
            |s'.started| + One(IsTaker(pc')) <= |s.started| + One(IsTaker(pc))
  {
  }

  lemma ClientStartsNothing(s: Shared, c: nat, pc: Client, op: Op, next: nat)
    ensures ClientMove(s, c, pc, op, next).0.started == s.started
  {
  }

  lemma PausedStep(s: State, a: Label)
    requires s.sh.status == PAUSE && Enabled(s, a)
    ensures var s' := Step(s, a);
            |s'.sh.started| + Count(IsTaker, s'.workers) <= |s.sh.started| + Count(IsTaker, s.workers)
  {
    match a
    case Work(w, notified) =>
      PausedWorker(s.sh, w, s.workers[w], notified);
      CountUpdate(IsTaker, s.workers, w, Step(s, a).workers[w]);
    case Act(c, op) =>
      ClientStartsNothing(s.sh, c, s.clients[c], op, |s.workers|);
      CountAppend(IsTaker, s.workers, Top);
    case Tick =>
  }

  /** The pool is paused before each of the labels from number i on. */
  ghost predicate PausedFrom(n: nat, min: nat, max: nat, schedule: seq<Label>, i: nat) {
    forall j :: i <= j < |schedule| ==> StateAfter(n, min, max, schedule[..j]).sh.status == PAUSE
  }

  /**
    While a pool is paused, however long and whatever is committed, it starts no more tasks than
    there were workers past the spin when the pause began, each at most one.
   */
  lemma {:induction false} PausedPoolStartsNoMore(n: nat, min: nat, max: nat, schedule: seq<Label>, i: nat)
    requires i <= |schedule| && PausedFrom(n, min, max, schedule, i)
    ensures var s, s' := StateAfter(n, min, max, schedule[..i]), StateAfter(n, min, max, schedule);
            |s'.sh.started| + Count(IsTaker, s'.workers) <= |s.sh.started| + Count(IsTaker, s.workers)
    decreases |schedule|
  {
    if i == |schedule| {
      assert schedule[..i] == schedule;
    } else {
      var before, a := schedule[..|schedule| - 1], schedule[|schedule| - 1];
      assert forall j :: 0 <= j <= |before| ==> before[..j] == schedule[..j];
      PausedPoolStartsNoMore(n, min, max, before, i);
      assert StateAfter(n, min, max, schedule[..|before|]).sh.status == PAUSE;
      if Enabled(StateAfter(n, min, max, before), a) {
        PausedStep(StateAfter(n, min, max, before), a);
      }
    }
  }
}
