/** The two counters of `HThreadPool`: what they add up to, and the lower bound on `cur_thread_num`. */
module ThreadPoolCounts {
  import opened Wrappers
  import opened Counting
  import opened ThreadPool
  import opened ThreadPoolLocks
  import opened ThreadPoolEntries

  /** Between --idle_thread_num and ++idle_thread_num. */
  predicate IsBusy(pc: Worker) {
    pc.Pop? || pc.Unlock? || pc.Run? || pc.IncIdle?
  }

  /** Between the two decrements of delThread. */
  predicate IsHalfDel(pc: Worker) {
    pc.DelIdle?
  }

  /** Between the two increments of addThread. */
  predicate IsHalfAdd(pc: Client) {
    pc.AddIdle?
  }

  function One(b: bool): nat {
    if b then 1 else 0
  }

  // ---------- Conservation ----------

  /** Except inside stop(), between its two resets. */
  ghost predicate Balanced(s: State) {
    (forall c :: 0 <= c < |s.clients| ==> !s.clients[c].StopIdle?) ==>
      s.sh.idle + Count(IsBusy, s.workers)
        == s.sh.cur - Count(IsHalfAdd, s.clients) + Count(IsHalfDel, s.workers)
  }

  lemma WorkerMoveCounts(s: Shared, w: nat, pc: Worker, notified: bool)
    ensures var (s', pc') := WorkerMove(s, w, pc, notified);
            && s'.idle + One(IsBusy(pc')) - One(IsBusy(pc)) - s.idle
                 == s'.cur + One(IsHalfDel(pc')) - One(IsHalfDel(pc)) - s.cur
            && s'.cur == (if pc.DecCur? then s.cur - 1 else s.cur)
            && s'.min == s.min && s'.max == s.max && s'.status == s.status
            && (IsBusy(pc') && !IsBusy(pc) ==> pc.DecIdle?)
            && (IsHalfDel(pc') ==> pc.DecCur?)
  {
  }

  lemma ClientMoveCounts(s: Shared, c: nat, pc: Client, op: Op, next: nat)
    ensures var (s', pc') := ClientMove(s, c, pc, op, next);
            && (!pc.StopCur? && !pc.StopIdle? ==>
                  s'.idle - s.idle == s'.cur - One(IsHalfAdd(pc')) + One(IsHalfAdd(pc)) - s.cur)
            && (pc.StopIdle? ==> s'.idle == 0 && s'.cur == s.cur && pc' == Idle)
            && (pc.StopCur? ==> s'.cur == 0)
            && (pc'.StopIdle? <==> pc.StopCur?)
            && s'.min == s.min && s'.max == s.max
  {
  }

  lemma WorkerKeepsBalanced(s: State, w: nat, notified: bool)
    requires Entries(s) && Balanced(s) && w < |s.workers| && WaitsFor(s, W(w)).None?
    ensures Balanced(WorkerStep(s, w, notified))
  {
    var s' := WorkerStep(s, w, notified);
    WorkerMoveCounts(s.sh, w, s.workers[w], notified);
    CountUpdate(IsBusy, s.workers, w, s'.workers[w]);
    CountUpdate(IsHalfDel, s.workers, w, s'.workers[w]);
  }

  lemma ClientKeepsBalanced(s: State, c: nat, op: Op)
    requires Entries(s) && Balanced(s) && c < |s.clients| && WaitsFor(s, C(c)).None? && Allowed(s, c, op)
    ensures Balanced(ClientStep(s, c, op))
  {
    if s.clients[c].StopIdle? {
      LastResetBalances(s, c, op);
    } else if s.clients[c].StopCur? || exists d :: 0 <= d < |s.clients| && s.clients[d].StopIdle? {
      BetweenResets(s, c, op);
    } else {
      PlainKeepsBalanced(s, c, op);
    }
  }

  /** Between the two resets nothing is claimed. */
  lemma BetweenResets(s: State, c: nat, op: Op)
    requires c < |s.clients| && WaitsFor(s, C(c)).None? && !s.clients[c].StopIdle?
    requires s.clients[c].StopCur? || exists d :: 0 <= d < |s.clients| && s.clients[d].StopIdle?
    ensures Balanced(ClientStep(s, c, op))
  {
    var s' := ClientStep(s, c, op);
    var d :| 0 <= d < |s.clients| && (s.clients[d].StopIdle? || (d == c && s.clients[c].StopCur?));
    assert s'.clients[d].StopIdle?;
  }

  lemma PlainKeepsBalanced(s: State, c: nat, op: Op)
    requires Balanced(s) && c < |s.clients| && WaitsFor(s, C(c)).None?
    requires !s.clients[c].StopCur? && forall d :: 0 <= d < |s.clients| ==> !s.clients[d].StopIdle?
    ensures Balanced(ClientStep(s, c, op))
  {
    ClientMoveCounts(s.sh, c, s.clients[c], op, |s.workers|);
    CountUpdate(IsHalfAdd, s.clients, c, ClientStep(s, c, op).clients[c]);
    CountAppend(IsBusy, s.workers, Top);
    CountAppend(IsHalfDel, s.workers, Top);
  }

  lemma LastResetBalances(s: State, c: nat, op: Op)
    requires Entries(s) && c < |s.clients| && s.clients[c].StopIdle?
    ensures Balanced(ClientStep(s, c, op))
  {
    var s' := ClientStep(s, c, op);
    StopLeavesNoneCounted(s, c);
    assert forall d :: 0 <= d < |s'.clients| ==> !IsHalfAdd(s'.clients[d]);
    CountNone(IsHalfAdd, s'.clients);
  }

  /** At its resets stop() is alone with workers that have all ended. */
  lemma StopLeavesNoneCounted(s: State, c: nat)
    requires Entries(s) && c < |s.clients| && (s.clients[c].StopIdle? || s.clients[c].StopCur?)
    ensures Count(IsBusy, s.workers) == 0 && Count(IsHalfDel, s.workers) == 0
    ensures s.clients[c].StopIdle? ==> s.sh.cur == 0
    ensures forall d :: 0 <= d < |s.clients| && d != c ==> Quiet(s.clients[d])
  {
    assert StopProgress(s, s.clients[c]);
    CountNone(IsBusy, s.workers);
    CountNone(IsHalfDel, s.workers);
  }

  /** thread_mutex lets at most one addThread or delThread be half done. */
  lemma OneHalfDone(s: State)
    requires Locks(s)
    ensures Count(IsHalfAdd, s.clients) + Count(IsHalfDel, s.workers) <= 1
  {
    assert forall w :: 0 <= w < |s.workers| && IsHalfDel(s.workers[w]) ==> OwnW(s.sh, w, s.workers[w]);
    assert forall c :: 0 <= c < |s.clients| && IsHalfAdd(s.clients[c]) ==> OwnC(s.sh, c, s.clients[c]);
    CountUnique(IsHalfDel, s.workers);
    CountUnique(IsHalfAdd, s.clients);
    if Count(IsHalfDel, s.workers) > 0 {
      var w := CountSome(IsHalfDel, s.workers);
      CountNone(IsHalfAdd, s.clients);
    }
  }

  // ---------- The lower bound ----------

  /** How many threads a call of start() has accounted for. */
  function Reached(pc: Client): nat {
    match pc
    case StartLoop(i, _, _) => i
    case CreateCheck(k) => Index(k)
    case Launch(k) => Index(k)
    case WantThreadC(_, k) => Index(k)
    case AddCur(_, k) => Index(k)
    case AddIdle(_, k) => After(k)
    case Emplace(_, k) => After(k)
    case UnlockThreadC(k) => After(k)
    case _ => 0
  }

  function Index(k: Cont): nat {
    if k.InStart? then k.i else 0
  }

  function After(k: Cont): nat {
    if k.InStart? then k.i + 1 else 0
  }

  /** The goal of the start() a client is in. */
  function Goal(pc: Client): Option<nat> {
    match pc
    case StartLoop(_, n, _) => Some(n)
    case CreateCheck(k) => GoalOf(k)
    case Launch(k) => GoalOf(k)
    case WantThreadC(_, k) => GoalOf(k)
    case AddCur(_, k) => GoalOf(k)
    case AddIdle(_, k) => GoalOf(k)
    case Emplace(_, k) => GoalOf(k)
    case UnlockThreadC(k) => GoalOf(k)
    case _ => None
  }

  function GoalOf(k: Cont): Option<nat> {
    if k.InStart? then Some(k.n) else None
  }

  /** Decided to retire, before --cur_thread_num. */
  predicate IsQuitting(pc: Worker) {
    pc.WantThread? || pc.DecCur?
  }

  /** The least number of threads of a started pool: the minimum, cut at the maximum as start() does. */
  function Floor(min: nat, max: nat): nat {
    if min <= max then min else max
  }

  /** What a client knows of the counter and the status. */
  predicate ClientFloor(s: Shared, pc: Client) {
    && (s.cur >= Floor(s.min, s.max) || s.cur >= Reached(pc))
    && (Goal(pc).Some? ==> Goal(pc).value >= Floor(s.min, s.max))
    && (pc.PauseSet? || pc.ResumeSet? ==> s.status != STOP)
  }

  ghost predicate Lower(s: State) {
    && (forall w :: 0 <= w < |s.workers| && IsQuitting(s.workers[w]) ==> s.sh.cur > s.sh.min)
    && (forall c :: 0 <= c < |s.clients| ==> ClientFloor(s.sh, s.clients[c]))
    && (s.sh.status != STOP ==>
          s.sh.cur >= Floor(s.sh.min, s.sh.max) || exists c :: 0 <= c < |s.clients| && Goal(s.clients[c]).Some?)
  }

  lemma WorkerMoveFloor(s: Shared, w: nat, pc: Worker, notified: bool)
    requires IsQuitting(pc) ==> s.cur > s.min
    ensures var (s', pc') := WorkerMove(s, w, pc, notified);
            && (IsQuitting(pc') ==> s'.cur > s'.min)
            && (s'.cur == s.cur || (pc.DecCur? && s'.cur >= s'.min))
            && s'.min == s.min && s'.max == s.max && s'.status == s.status
  {
  }

  lemma WorkerKeepsLower(s: State, w: nat, notified: bool)
    requires Locks(s) && Lower(s) && w < |s.workers| && WaitsFor(s, W(w)).None?
    ensures Lower(WorkerStep(s, w, notified))
  {
    var s' := WorkerStep(s, w, notified);
    WorkerMoveFloor(s.sh, w, s.workers[w], notified);
    forall v | 0 <= v < |s'.workers| && IsQuitting(s'.workers[v]) ensures s'.sh.cur > s'.sh.min {
      if v != w {
        assert IsQuitting(s.workers[v]);
        assert OwnW(s.sh, v, s.workers[v]) && OwnW(s.sh, w, s.workers[w]);
      }
    }
    forall c | 0 <= c < |s'.clients| ensures ClientFloor(s'.sh, s'.clients[c]) {
      assert ClientFloor(s.sh, s.clients[c]);
    }
  }

  lemma ClientMoveFloor(s: Shared, c: nat, pc: Client, op: Op, next: nat)
    requires ClientFloor(s, pc)
    ensures var (s', pc') := ClientMove(s, c, pc, op, next);
            var floor := Floor(s.min, s.max);
            && (s'.cur >= floor || s'.cur >= Reached(pc'))
            && (Goal(pc').Some? ==> Goal(pc').value >= floor)
            && (Goal(pc).Some? && Goal(pc').None? ==> s'.cur >= floor)
            && s'.min == s.min && s'.max == s.max
  {
    match pc
    case StartSet(want, after) =>
    case StartLoop(i, n, after) =>
    case CreateCheck(k) =>
    case UnlockThreadC(k) =>
    case _ =>
      SteadyFloor(s, c, pc, op, next);
      SteadyReach(s, c, pc, op, next);
  }

  lemma SteadyFloor(s: Shared, c: nat, pc: Client, op: Op, next: nat)
    requires !pc.StartSet? && !pc.StartLoop? && !pc.CreateCheck? && !pc.UnlockThreadC?
    ensures var (s', pc') := ClientMove(s, c, pc, op, next);
            && Goal(pc') == Goal(pc)
            && (!pc.StopCur? ==> s'.cur >= s.cur)
            && s'.min == s.min && s'.max == s.max
  {
  }

  lemma SteadyReach(s: Shared, c: nat, pc: Client, op: Op, next: nat)
    requires !pc.StartSet? && !pc.StartLoop? && !pc.CreateCheck? && !pc.UnlockThreadC?
    ensures var (s', pc') := ClientMove(s, c, pc, op, next);
            && (Reached(pc') == 0 || Reached(pc') - Reached(pc) == s'.cur - s.cur)
            && (pc.StopCur? ==> Reached(pc') == 0 <= s'.cur)
  {
  }

  lemma ClientMoveStatus(s: Shared, c: nat, pc: Client, op: Op, next: nat)
    requires pc.PauseSet? || pc.ResumeSet? ==> s.status != STOP
    ensures var (s', pc') := ClientMove(s, c, pc, op, next);
            && (s'.cur >= s.cur || (pc.StopCur? && s'.cur == 0))
            && (pc'.PauseSet? || pc'.ResumeSet? ==> s'.status != STOP)
            && (s'.status != STOP ==> s.status != STOP || Goal(pc').Some?)
            && (s'.status == STOP ==> s.status == STOP || pc.StopSet?)
            && (Quiet(pc) ==> s' == s)
            && s'.min == s.min && s'.max == s.max
  {
  }

  /** What clients know, after a step of client c. */
  lemma ClientKeepsFloors(s: State, c: nat, op: Op, d: nat)
    requires Entries(s) && Lower(s)
    requires c < |s.clients| && d < |s.clients| && WaitsFor(s, C(c)).None? && Allowed(s, c, op)
    ensures ClientFloor(ClientStep(s, c, op).sh, ClientStep(s, c, op).clients[d])
  {
    var pc := s.clients[c];
    assert ClientFloor(s.sh, s.clients[d]) && ClientFloor(s.sh, pc);
    ClientMoveStatus(s.sh, c, pc, op, |s.workers|);
    if d == c {
      ClientMoveFloor(s.sh, c, pc, op, |s.workers|);
    } else if InStop(pc) {
      assert Quiet(s.clients[d]);
    }
  }

  /** A worker that has decided to retire stays right about it. */
  lemma ClientKeepsQuits(s: State, c: nat, op: Op, w: nat)
    requires Entries(s) && Lower(s) && c < |s.clients| && WaitsFor(s, C(c)).None?
    requires w < |s.workers| && IsQuitting(s.workers[w])
    ensures var s' := ClientStep(s, c, op);
            s'.sh.cur > s'.sh.min
  {
    ClientMoveStatus(s.sh, c, s.clients[c], op, |s.workers|);
    assert StopProgress(s, s.clients[c]);
  }

  /** A running pool below the minimum is one that a client is still starting. */
  lemma ClientKeepsStarter(s: State, c: nat, op: Op)
    requires Entries(s) && Lower(s)
    requires c < |s.clients| && WaitsFor(s, C(c)).None? && Allowed(s, c, op)
    ensures var s' := ClientStep(s, c, op);
            s'.sh.status != STOP ==>
              s'.sh.cur >= Floor(s'.sh.min, s'.sh.max) || exists d :: 0 <= d < |s'.clients| && Goal(s'.clients[d]).Some?
  {
    var s', pc := ClientStep(s, c, op), s.clients[c];
    assert ClientFloor(s.sh, pc);
    ClientMoveFloor(s.sh, c, pc, op, |s.workers|);
    ClientMoveStatus(s.sh, c, pc, op, |s.workers|);
    if pc.StopCur? {
      assert StopProgress(s, pc);
    }
    if s'.sh.status != STOP && s'.sh.cur < Floor(s.sh.min, s.sh.max) && Goal(s'.clients[c]).None? {
      assert s.sh.cur < Floor(s.sh.min, s.sh.max);
      var d :| 0 <= d < |s.clients| && Goal(s.clients[d]).Some?;
      assert Goal(s'.clients[d]).Some?;
    }
  }

  lemma ClientKeepsLower(s: State, c: nat, op: Op)
    requires Entries(s) && Lower(s)
    requires c < |s.clients| && WaitsFor(s, C(c)).None? && Allowed(s, c, op)
    ensures Lower(ClientStep(s, c, op))
  {
    var s' := ClientStep(s, c, op);
    forall d | 0 <= d < |s'.clients| ensures ClientFloor(s'.sh, s'.clients[d]) {
      ClientKeepsFloors(s, c, op, d);
    }
    forall w | 0 <= w < |s'.workers| && IsQuitting(s'.workers[w]) ensures s'.sh.cur > s'.sh.min {
      ClientKeepsQuits(s, c, op, w);
    }
    ClientKeepsStarter(s, c, op);
  }

  lemma StepKeepsLower(s: State, a: Label)
    requires Entries(s) && Lower(s) && Enabled(s, a)
    ensures Lower(Step(s, a))
  {
    match a
    case Work(w, notified) => WorkerKeepsLower(s, w, notified);
    case Act(c, op) => ClientKeepsLower(s, c, op);
    case Tick =>
      assert forall c :: 0 <= c < |s.clients| ==> ClientFloor(s.sh, s.clients[c]);
      assert forall c :: 0 <= c < |s.clients| ==> ClientFloor(Step(s, Tick).sh, s.clients[c]);
  }

  /** Only the reset in stop() takes the counter below the floor again. */
  lemma StepKeepsFloor(s: State, a: Label)
    requires Lower(s) && Enabled(s, a) && s.sh.cur >= Floor(s.sh.min, s.sh.max)
    requires a.Act? ==> !s.clients[a.c].StopCur?
    ensures Step(s, a).sh.cur >= Floor(s.sh.min, s.sh.max)
  {
    match a
    case Work(w, notified) => WorkerMoveFloor(s.sh, w, s.workers[w], notified);
    case Act(c, op) =>
      assert ClientFloor(s.sh, s.clients[c]);
      ClientMoveStatus(s.sh, c, s.clients[c], op, |s.workers|);
    case Tick =>
  }

  lemma StepKeepsBalanced(s: State, a: Label)
    requires Entries(s) && Balanced(s) && Enabled(s, a)
    ensures Balanced(Step(s, a))
  {
    match a
    case Work(w, notified) => WorkerKeepsBalanced(s, w, notified);
    case Act(c, op) => ClientKeepsBalanced(s, c, op);
    case Tick =>
  }
}
