/**
  `HThreadPool::wait` while no `commit` overlaps it: leaving the loop by `break` can mean that every
  task has run. Whether a `start` may overlap it depends on which of the two counters in line 112
  is read first.
 */
module ThreadPoolWait {
  import opened Wrappers
  import opened Counting
  import opened ThreadPool
  import opened ThreadPoolLocks
  import opened ThreadPoolEntries
  import opened ThreadPoolCounts
  import opened ThreadPoolTasks
  import opened ThreadPoolTheorems
  import opened ThreadPoolBounds

  // ---------- Nobody commits while somebody waits ----------

  predicate Waiting(pc: Client) {
    Quiet(pc) && !pc.Idle?
  }

  predicate ForCommit(k: Cont) {
    k.InCommit? || k.after.ThenCommit?
  }

  /** In commit(), or in the start() that it calls. */
  predicate InCommitCall(pc: Client) {
    match pc
    case StartStatus(_, after) => after.ThenCommit?
    case StartSet(_, after) => after.ThenCommit?
    case StartLoop(_, _, after) => after.ThenCommit?
    case CreateCheck(k) => ForCommit(k)
    case Launch(k) => ForCommit(k)
    case WantThreadC(_, k) => ForCommit(k)
    case AddCur(_, k) => ForCommit(k)
    case AddIdle(_, k) => ForCommit(k)
    case Emplace(_, k) => ForCommit(k)
    case UnlockThreadC(k) => ForCommit(k)
    case CommitStatus => true
    case ReadIdle => true
    case ReadTasks(_) => true
    case ReadMax => true
    case WantTaskC => true
    case Push => true
    case UnlockTaskC => true
    case Notify => true
    case _ => false
  }

  /** What must not go on during a wait(): a commit(), and unless they may overlap a start(). */
  predicate Disturbs(pc: Client, overlap: bool) {
    if overlap then InCommitCall(pc) else Committing(pc)
  }

  /** `overlap`: whether start() and wait() may overlap; commit() and wait() must not. */
  predicate Separate(s: State, c: nat, op: Op, overlap: bool) {
    && Orderly(s, c, op)
    && (Calls(s, c) && (op.Commit? || (op.Start? && !overlap)) ==>
          forall d :: 0 <= d < |s.clients| ==> !Waiting(s.clients[d]))
    && (Calls(s, c) && op.Wait? ==> forall d :: 0 <= d < |s.clients| ==> !Disturbs(s.clients[d], overlap))
  }

  /** `curFirst`: whether line 112 may read cur_thread_num before idle_thread_num. */
  predicate Settles(s: State, c: nat, op: Op, curFirst: bool) {
    Calls(s, c) || op != Wait(true) || curFirst
  }

  ghost function Polite(overlap: bool, curFirst: bool): Rule {
    (s: State, c: nat, op: Op) => Separate(s, c, op, overlap) && Settles(s, c, op, curFirst)
  }

  ghost predicate Unwatched(s: State, overlap: bool) {
    forall c, d :: 0 <= c < |s.clients| && 0 <= d < |s.clients| && Waiting(s.clients[d]) ==>
      !Disturbs(s.clients[c], overlap)
  }

  lemma ClientMoveWaits(s: Shared, c: nat, pc: Client, op: Op, next: nat)
    ensures var (s', pc') := ClientMove(s, c, pc, op, next);
            Waiting(pc') ==> Waiting(pc) || (pc.Idle? && op.Wait?)
  {
  }

  lemma ClientMoveDisturbs(s: Shared, c: nat, pc: Client, op: Op, next: nat)
    ensures var (s', pc') := ClientMove(s, c, pc, op, next);
            InCommitCall(pc') ==> InCommitCall(pc) || (pc.Idle? && op.Commit?)
  {
  }

  lemma StepKeepsUnwatched(s: State, a: Label, overlap: bool)
    requires Unwatched(s, overlap) && Enabled(s, a)
    requires IsChoice(s, a) ==> Separate(s, a.c, a.op, overlap)
    ensures Unwatched(Step(s, a), overlap)
  {
    if a.Act? {
      ClientMoveCommits(s.sh, a.c, s.clients[a.c], a.op, |s.workers|);
      ClientMoveDisturbs(s.sh, a.c, s.clients[a.c], a.op, |s.workers|);
      ClientMoveWaits(s.sh, a.c, s.clients[a.c], a.op, |s.workers|);
    }
  }

  // ---------- The order of the two reads ----------

  /** Line 112 has been or is about to be evaluated beginning with cur_thread_num. */
  predicate ReadsCurFirst(pc: Client) {
    pc.WaitCurFirst? || pc.WaitIdleAfter?
  }

  ghost predicate NoneCurFirst(s: State) {
    forall c :: 0 <= c < |s.clients| ==> !ReadsCurFirst(s.clients[c])
  }

  lemma StepKeepsNoneCurFirst(s: State, a: Label)
    requires NoneCurFirst(s) && Enabled(s, a) && (IsChoice(s, a) ==> Settles(s, a.c, a.op, false))
    ensures NoneCurFirst(Step(s, a))
  {
    if a.Act? {
      MoveKeepsOrder(s.sh, a.c, s.clients[a.c], a.op, |s.workers|);
    }
  }

  lemma MoveKeepsOrder(s: Shared, c: nat, pc: Client, op: Op, next: nat)
    requires !ReadsCurFirst(pc) && (pc.WaitTasks? ==> op != Wait(true))
    ensures !ReadsCurFirst(ClientMove(s, c, pc, op, next).1)
  {
  }

  /** A start() may overlap a wait(), but then not one that reads cur_thread_num first. */
  ghost predicate InOrder112(s: State, overlap: bool) {
    overlap && s.sh.max > 0 ==> NoneCurFirst(s)
  }

  // ---------- Members ----------

  /** Launched, and not past its --cur_thread_num. */
  predicate IsMember(pc: Worker) {
    !(pc.DelIdle? || pc.Scan? || pc.Join? || pc.UnlockThread? || pc.ReturnLocked? || pc.Leaving? || pc.Exited?)
  }

  /** Has launched a worker that is not counted yet. */
  predicate IsPending(pc: Client) {
    pc.WantThreadC? || pc.AddCur?
  }

  ghost predicate Members(s: State) {
    Count(IsMember, s.workers) <= s.sh.cur + Count(IsPending, s.clients)
  }

  lemma WorkerMoveMembers(s: Shared, w: nat, pc: Worker, notified: bool)
    ensures var (s', pc') := WorkerMove(s, w, pc, notified);
            One(IsMember(pc')) - One(IsMember(pc)) <= s'.cur - s.cur
  {
  }

  lemma ClientMoveMembers(s: Shared, c: nat, pc: Client, op: Op, next: nat)
    requires !pc.StopCur?
    ensures var (s', pc') := ClientMove(s, c, pc, op, next);
            s'.cur + One(IsPending(pc')) == s.cur + One(IsPending(pc)) + One(pc.Launch?)
  {
  }

  lemma StepKeepsMembers(s: State, a: Label)
    requires Entries(s) && Members(s) && Enabled(s, a)
    ensures Members(Step(s, a))
  {
    var s' := Step(s, a);
    match a
    case Tick =>
    case Work(w, notified) =>
      WorkerMoveMembers(s.sh, w, s.workers[w], notified);
      CountUpdate(IsMember, s.workers, w, s'.workers[w]);
    case Act(c, op) =>
      if s.clients[c].StopCur? {
        assert StopProgress(s, s.clients[c]);
        CountNone(IsMember, s.workers);
      } else {
        ClientMoveMembers(s.sh, c, s.clients[c], op, |s.workers|);
        CountUpdate(IsPending, s.clients, c, s'.clients[c]);
        CountAppend(IsMember, s.workers, Top);
      }
  }

  /** With one thread at most, the one that retires leaves nobody busy behind. */
  lemma LastOneRetires(s: State, w: nat)
    requires Calm(s) && Members(s) && s.sh.max <= 1 && w < |s.workers| && s.workers[w].DecCur?
    ensures Count(IsBusy, s.workers) == 0
  {
    CountWeaker(IsPending, IsAdmitted, s.clients);
    CountUpdate(IsMember, s.workers, w, Exited);
    CountUpdate(IsBusy, s.workers, w, Exited);
    CountWeaker(IsBusy, IsMember, s.workers[w := Exited]);
  }

  /** Without room for a thread nobody is ever busy. */
  lemma NoRoomNobodyBusy(s: State)
    requires Calm(s) && Members(s) && s.sh.max == 0
    ensures Count(IsBusy, s.workers) == 0
  {
    CountWeaker(IsPending, IsAdmitted, s.clients);
    CountWeaker(IsBusy, IsMember, s.workers);
  }

  // ---------- What wait() has read ----------

  /** wait() has seen the queue empty. */
  predicate SawEmpty(pc: Client) {
    pc.WaitIdle? || pc.WaitCur? || pc.WaitCurFirst? || pc.WaitIdleAfter? || (pc.WaitDone? && pc.byBreak)
  }

  /** No worker can retire while another one is busy. */
  predicate SizeIsFixed(min: nat, max: nat) {
    max <= min || max <= 1
  }

  /** What a client in wait() has read still says something, `busy` being the number of busy workers. */
  predicate ReadOk(sh: Shared, pc: Client, busy: nat) {
    && (SawEmpty(pc) ==> sh.tasks == [])
    && (pc.WaitCur? ==> pc.idle + busy <= sh.cur || busy == 0)
    && (pc.WaitIdleAfter? ==> pc.cur == sh.cur || busy == 0)
    && (pc == WaitDone(true) ==> busy == 0)
  }

  ghost predicate Steady(s: State) {
    && (s.sh.max <= s.sh.min ==> forall w :: 0 <= w < |s.workers| ==> Now(s.workers[w]).None?)
    && (Count(IsHalfDel, s.workers) > 0 ==> Count(IsBusy, s.workers) == 0)
    && (forall c :: 0 <= c < |s.clients| ==> ReadOk(s.sh, s.clients[c], Count(IsBusy, s.workers)))
  }

  lemma WorkerMoveSteady(s: Shared, w: nat, pc: Worker, notified: bool)
    requires HeldOk(s, pc)
    ensures var (s', pc') := WorkerMove(s, w, pc, notified);
            && (Now(pc).None? && s.cur <= s.min ==> Now(pc').None?)
            && s'.cur == s.cur - One(pc.DecCur?)
            && (s.tasks == [] ==> s'.tasks == [] && (IsBusy(pc') ==> IsBusy(pc)))
  {
  }

  /** delThread runs under task_mutex, so no other worker takes a task meanwhile. */
  lemma TakerIsAlone(s: State, w: nat)
    requires Locks(s) && w < |s.workers| && s.workers[w].DecIdle?
    ensures Count(IsHalfDel, s.workers) == 0
  {
    assert OwnW(s.sh, w, s.workers[w]);
    forall v | 0 <= v < |s.workers| ensures !IsHalfDel(s.workers[v]) {
      assert OwnW(s.sh, v, s.workers[v]);
    }
    CountNone(IsHalfDel, s.workers);
  }

  /** How a step of a worker changes who is busy. */
  lemma WorkerStepBusy(s: State, w: nat, notified: bool)
    requires Locks(s) && Calm(s) && Members(s) && Tasks(s) && Steady(s) && SizeIsFixed(s.sh.min, s.sh.max)
    requires w < |s.workers| && WaitsFor(s, W(w)).None?
    ensures var s' := WorkerStep(s, w, notified);
            var busy, busy' := Count(IsBusy, s.workers), Count(IsBusy, s'.workers);
            && (s.sh.tasks == [] ==> busy' <= busy)
            && (s.workers[w].DecCur? ==> busy' == 0)
            && (Count(IsHalfDel, s'.workers) > 0 ==> busy' == 0)
  {
    var s', pc := WorkerStep(s, w, notified), s.workers[w];
    assert HeldOk(s.sh, pc);
    WorkerMoveSteady(s.sh, w, pc, notified);
    WorkerMoveCounts(s.sh, w, pc, notified);
    CountUpdate(IsBusy, s.workers, w, s'.workers[w]);
    CountUpdate(IsHalfDel, s.workers, w, s'.workers[w]);
    if pc.DecCur? {
      assert Now(pc).Some?;
      LastOneRetires(s, w);
    } else if pc.DecIdle? {
      TakerIsAlone(s, w);
    }
  }

  lemma WorkerKeepsSteady(s: State, w: nat, notified: bool)
    requires Locks(s) && Calm(s) && Members(s) && Tasks(s) && Steady(s) && SizeIsFixed(s.sh.min, s.sh.max)
    requires w < |s.workers| && WaitsFor(s, W(w)).None?
    ensures Steady(WorkerStep(s, w, notified))
  {
    var s' := WorkerStep(s, w, notified);
    assert HeldOk(s.sh, s.workers[w]);
    WorkerStepBusy(s, w, notified);
    WorkerMoveCounts(s.sh, w, s.workers[w], notified);
    WorkerMoveSteady(s.sh, w, s.workers[w], notified);
    forall c | 0 <= c < |s'.clients|
      ensures ReadOk(s'.sh, s'.clients[c], Count(IsBusy, s'.workers))
    {
      assert ReadOk(s.sh, s.clients[c], Count(IsBusy, s.workers));
    }
  }

  lemma WaitMoves(s: Shared, c: nat, pc: Client, op: Op, next: nat)
    ensures var (s', pc') := ClientMove(s, c, pc, op, next);
            && (SawEmpty(pc') ==> s' == s && Waiting(pc) && ((pc.WaitTasks? && s.tasks == []) || SawEmpty(pc)))
            && (pc'.WaitCur? ==> pc.WaitIdle? && pc'.idle == s.idle)
            && (pc'.WaitIdleAfter? ==> pc'.cur == s.cur)
            && (pc' == WaitDone(true) ==> pc == WaitCur(s.cur) || pc == WaitIdleAfter(s.idle))
  {
  }

  /** The idle count that a wait() reads. */
  lemma IdleWhenRead(s: State)
    requires Entries(s) && Balanced(s) && Steady(s)
    ensures s.sh.idle + Count(IsBusy, s.workers) <= s.sh.cur || Count(IsBusy, s.workers) == 0
  {
    if exists d :: 0 <= d < |s.clients| && s.clients[d].StopIdle? {
      var d :| 0 <= d < |s.clients| && s.clients[d].StopIdle?;
      StopLeavesNoneCounted(s, d);
    }
  }

  lemma ClientStepReads(s: State, c: nat, op: Op)
    requires Entries(s) && Balanced(s) && Steady(s)
    requires c < |s.clients| && WaitsFor(s, C(c)).None?
    ensures var s' := ClientStep(s, c, op);
            ReadOk(s'.sh, s'.clients[c], Count(IsBusy, s.workers))
  {
    var pc := s.clients[c];
    assert ReadOk(s.sh, pc, Count(IsBusy, s.workers));
    WaitMoves(s.sh, c, pc, op, |s.workers|);
    IdleWhenRead(s);
  }

  /** start() pushes no task, and only raises the counter. */
  lemma StartMoveOutside(s: Shared, c: nat, pc: Client, op: Op, next: nat)
    requires Committing(pc) && !InCommitCall(pc)
    ensures var (s', pc') := ClientMove(s, c, pc, op, next);
            s'.tasks == s.tasks && s'.cur >= s.cur
  {
  }

  lemma ClientStepLeavesReads(s: State, c: nat, op: Op, d: nat, overlap: bool)
    requires Entries(s) && Unwatched(s, overlap) && InOrder112(s, overlap) && Steady(s) && Calm(s) && Members(s)
    requires c < |s.clients| && WaitsFor(s, C(c)).None? && d < |s.clients| && d != c
    ensures ReadOk(ClientStep(s, c, op).sh, s.clients[d], Count(IsBusy, s.workers))
  {
    assert ReadOk(s.sh, s.clients[d], Count(IsBusy, s.workers));
    if !Committing(s.clients[c]) {
      ClientMoveOutside(s.sh, c, s.clients[c], op, |s.workers|);
      if s.clients[c].StopCur? {
        StopLeavesNoneCounted(s, c);
      }
    } else if !InCommitCall(s.clients[c]) {
      StartMoveOutside(s.sh, c, s.clients[c], op, |s.workers|);
      if s.sh.max == 0 {
        NoRoomNobodyBusy(s);
      }
    }
  }

  lemma ClientKeepsSteady(s: State, c: nat, op: Op, overlap: bool)
    requires Entries(s) && Balanced(s) && Steady(s) && Calm(s) && Members(s)
    requires Unwatched(s, overlap) && InOrder112(s, overlap)
    requires c < |s.clients| && WaitsFor(s, C(c)).None?
    ensures Steady(ClientStep(s, c, op))
  {
    var s' := ClientStep(s, c, op);
    CountAppend(IsBusy, s.workers, Top);
    CountAppend(IsHalfDel, s.workers, Top);
    StepBounds(s.sh, c, s.clients[c], op, |s.workers|);
    forall d | 0 <= d < |s'.clients| ensures ReadOk(s'.sh, s'.clients[d], Count(IsBusy, s'.workers)) {
      if d == c {
        ClientStepReads(s, c, op);
      } else {
        ClientStepLeavesReads(s, c, op, d, overlap);
      }
    }
  }

  lemma StepBounds(s: Shared, c: nat, pc: Client, op: Op, next: nat)
    ensures var (s', pc') := ClientMove(s, c, pc, op, next);
            s'.min == s.min && s'.max == s.max
  {
  }

  lemma StepKeepsSteady(s: State, a: Label, overlap: bool)
    requires Entries(s) && Balanced(s) && Calm(s) && Members(s) && Tasks(s) && Steady(s)
    requires Unwatched(s, overlap) && InOrder112(s, overlap)
    requires SizeIsFixed(s.sh.min, s.sh.max) && Enabled(s, a)
    ensures Steady(Step(s, a))
  {
    match a
    case Work(w, notified) => WorkerKeepsSteady(s, w, notified);
    case Act(c, op) => ClientKeepsSteady(s, c, op, overlap);
    case Tick =>
      assert forall c :: 0 <= c < |s.clients| ==> ReadOk(s.sh, s.clients[c], Count(IsBusy, s.workers));
      assert forall c :: 0 <= c < |s.clients| ==> ReadOk(Step(s, a).sh, s.clients[c], Count(IsBusy, s.workers));
  }

  // ---------- Runs ----------

  /** `curFirst`: whether wait() may read cur_thread_num first; it is then that no start() may overlap it. */
  predicate OrderIsSafe(max: nat, overlap: bool, curFirst: bool) {
    max == 0 || !overlap || !curFirst
  }

  lemma PoliteIsOrderly(n: nat, min: nat, max: nat, schedule: seq<Label>, overlap: bool, curFirst: bool)
    requires Obeys(Polite(overlap, curFirst), n, min, max, schedule)
    ensures Obeys(Orderly, n, min, max, schedule)
  {
    ObeysWeaker(Polite(overlap, curFirst), Orderly, n, min, max, schedule);
  }

  lemma {:induction false} PoliteAfter(n: nat, min: nat, max: nat, schedule: seq<Label>, overlap: bool, curFirst: bool)
    requires Obeys(Polite(overlap, curFirst), n, min, max, schedule)
    ensures var s := StateAfter(n, min, max, schedule);
            && Unwatched(s, overlap) && Members(s) && (!curFirst ==> NoneCurFirst(s))
            && (SizeIsFixed(min, max) && OrderIsSafe(max, overlap, curFirst) ==> Steady(s))
    decreases |schedule|
  {
    if schedule != [] {
      var before, a := schedule[..|schedule| - 1], schedule[|schedule| - 1];
      PoliteAfter(n, min, max, before, overlap, curFirst);
      InvAfter(n, min, max, before);
      PoliteIsOrderly(n, min, max, before, overlap, curFirst);
      CalmAfter(n, min, max, before);
      var s := StateAfter(n, min, max, before);
      if Enabled(s, a) {
        StepKeepsUnwatched(s, a, overlap);
        StepKeepsMembers(s, a);
        if !curFirst {
          StepKeepsNoneCurFirst(s, a);
        }
        if SizeIsFixed(min, max) && OrderIsSafe(max, overlap, curFirst) {
          StepKeepsSteady(s, a, overlap);
        }
      }
    }
  }

  ghost predicate AllFinished(s: State) {
    forall t :: 0 <= t < Committed(s.sh) ==> t in s.sh.finished
  }

  /**
    With a fixed size, and with start() kept away from a wait() that reads cur_thread_num first:
    when wait() leaves its loop by break every committed task is finished.
   */
  lemma WaitMeansDone(n: nat, min: nat, max: nat, schedule: seq<Label>, overlap: bool, curFirst: bool, c: nat)
    requires Obeys(Polite(overlap, curFirst), n, min, max, schedule)
    requires SizeIsFixed(min, max) && OrderIsSafe(max, overlap, curFirst)
    requires c < n && StateAfter(n, min, max, schedule).clients[c] == WaitDone(true)
    ensures AllFinished(StateAfter(n, min, max, schedule))
  {
    var s := StateAfter(n, min, max, schedule);
    InvAfter(n, min, max, schedule);
    PoliteAfter(n, min, max, schedule, overlap, curFirst);
    assert ReadOk(s.sh, s.clients[c], Count(IsBusy, s.workers));
    NothingBusyAllFinished(s);
  }

  lemma NothingBusyAllFinished(s: State)
    requires Tasks(s) && s.sh.tasks == [] && Count(IsBusy, s.workers) == 0
    ensures AllFinished(s)
  {
    forall t | 0 <= t < Committed(s.sh) ensures t in s.sh.finished {
      if SomeoneHolds(s.workers, t) {
        var w: nat :| w < |s.workers| && Held(s.workers[w]) == Some(t);
        CountUpdate(IsBusy, s.workers, w, Exited);
      }
    }
  }
}
