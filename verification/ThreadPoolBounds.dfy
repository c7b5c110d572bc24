/**
  The upper bound on `cur_thread_num` of `HThreadPool`: createThread checks it and addThread raises
  it later, so several clients in `commit` or `start` can overshoot the maximum together.
 */
module ThreadPoolBounds {
  import opened Counting
  import opened ThreadPool
  import opened ThreadPoolEntries
  import opened ThreadPoolCounts
  import opened ThreadPoolTheorems

  /** In commit() or start(). */
  predicate Committing(pc: Client) {
    match pc
    case CommitStatus => true
    case ReadIdle => true
    case ReadTasks(_) => true
    case ReadMax => true
    case WantTaskC => true
    case Push => true
    case UnlockTaskC => true
    case Notify => true
    case StartStatus(_, _) => true
    case StartSet(_, _) => true
    case StartLoop(_, _, _) => true
    case CreateCheck(_) => true
    case Launch(_) => true
    case WantThreadC(_, _) => true
    case AddCur(_, _) => true
    case AddIdle(_, _) => true
    case Emplace(_, _) => true
    case UnlockThreadC(_) => true
    case _ => false
  }

  predicate Commits(op: Op) {
    op.Commit? || op.Start?
  }

  /** Past createThread's own check, before ++cur_thread_num. */
  predicate IsAdmitted(pc: Client) {
    pc.Launch? || pc.WantThreadC? || pc.AddCur?
  }

  lemma ClientMoveAdmits(s: Shared, c: nat, pc: Client, op: Op, next: nat)
    ensures var (s', pc') := ClientMove(s, c, pc, op, next);
            && (IsAdmitted(pc') && !IsAdmitted(pc) ==> s.cur < s.max && s'.cur == s.cur)
            && (!pc.StopCur? ==> s'.cur + One(IsAdmitted(pc')) <= s.cur + One(IsAdmitted(pc))
                                 || (IsAdmitted(pc') && !IsAdmitted(pc)))
            && (pc.StopCur? ==> s'.cur == 0 && !IsAdmitted(pc'))
            && s'.max == s.max
  {
  }

  lemma ClientMoveCommits(s: Shared, c: nat, pc: Client, op: Op, next: nat)
    ensures Committing(ClientMove(s, c, pc, op, next).1) ==> Committing(pc) || (pc.Idle? && Commits(op))
  {
  }

  lemma ClientMoveOutside(s: Shared, c: nat, pc: Client, op: Op, next: nat)
    requires !Committing(pc)
    ensures var (s', pc') := ClientMove(s, c, pc, op, next);
            && (!pc.StopCur? ==> s'.cur == s.cur)
            && s'.max == s.max && s'.min == s.min && s'.tasks == s.tasks && !IsAdmitted(pc')
  {
  }

  // ---------- m clients that commit or start ----------

  /** Only the first m clients call commit() or start(). */
  ghost function FirstOnly(m: nat): Rule {
    (s: State, c: nat, op: Op) => Calls(s, c) && Commits(op) ==> c < m
  }

  /** The most threads m committing clients can reach. */
  function MostThreads(m: nat, max: nat): nat {
    if m == 0 || max == 0 then 0 else max + m - 1
  }

  ghost predicate OthersOutside(s: State, m: nat) {
    m <= |s.clients| && forall c :: m <= c < |s.clients| ==> !Committing(s.clients[c])
  }

  ghost predicate Upper(s: State, m: nat) {
    && OthersOutside(s, m)
    && s.sh.cur + Count(IsAdmitted, s.clients[..m]) <= MostThreads(m, s.sh.max)
    && (m == 0 || s.sh.max == 0 ==>
          s.workers == [] && s.sh.cur == 0 && forall c :: 0 <= c < m ==> !IsAdmitted(s.clients[c]))
  }

  /** Without committing clients, or with a maximum of 0, no thread ever comes to be. */
  lemma EmptyStaysEmpty(s: State, c: nat, op: Op, m: nat)
    requires Upper(s, m) && (m == 0 || s.sh.max == 0) && c < |s.clients| && WaitsFor(s, C(c)).None?
    ensures var s' := ClientStep(s, c, op);
            s'.workers == [] && s'.sh.cur == 0 && !IsAdmitted(s'.clients[c])
  {
    ClientMoveAdmits(s.sh, c, s.clients[c], op, |s.workers|);
    if !Committing(s.clients[c]) {
      ClientMoveOutside(s.sh, c, s.clients[c], op, |s.workers|);
    } else {
      assert !IsAdmitted(s.clients[c]);
      EmptyMove(s.sh, c, s.clients[c], op, |s.workers|);
    }
  }

  lemma EmptyMove(s: Shared, c: nat, pc: Client, op: Op, next: nat)
    requires !IsAdmitted(pc) && s.cur == 0 && (s.max == 0 || !pc.CreateCheck?)
    ensures var (s', pc') := ClientMove(s, c, pc, op, next);
            s'.cur == 0 && !IsAdmitted(pc')
  {
  }

  /** A committing client is let in while at most m - 1 others are. */
  lemma CommitterKeepsUpper(s: State, c: nat, op: Op, m: nat)
    requires Upper(s, m) && m > 0 && s.sh.max > 0 && c < m && WaitsFor(s, C(c)).None? && !s.clients[c].StopCur?
    ensures var s' := ClientStep(s, c, op);
            s'.sh.cur + Count(IsAdmitted, s'.clients[..m]) <= MostThreads(m, s'.sh.max)
  {
    var s' := ClientStep(s, c, op);
    ClientMoveAdmits(s.sh, c, s.clients[c], op, |s.workers|);
    assert s'.clients[..m] == s.clients[..m][c := s'.clients[c]];
    CountUpdate(IsAdmitted, s.clients[..m], c, s'.clients[c]);
    CountAtMost(IsAdmitted, s.clients[..m]);
    assert !IsAdmitted(s.clients[c]) ==> !IsAdmitted(s.clients[..m][c]);
  }

  lemma OutsiderKeepsUpper(s: State, c: nat, op: Op, m: nat)
    requires Upper(s, m) && m <= c < |s.clients| && WaitsFor(s, C(c)).None? && !s.clients[c].StopCur?
    ensures var s' := ClientStep(s, c, op);
            s'.sh.cur + Count(IsAdmitted, s'.clients[..m]) <= MostThreads(m, s'.sh.max)
  {
    var s' := ClientStep(s, c, op);
    ClientMoveOutside(s.sh, c, s.clients[c], op, |s.workers|);
    assert s'.clients[..m] == s.clients[..m];
  }

  lemma ResetKeepsUpper(s: State, c: nat, op: Op, m: nat)
    requires Entries(s) && m <= |s.clients| && c < |s.clients| && s.clients[c].StopCur?
    ensures var s' := ClientStep(s, c, op);
            s'.sh.cur + Count(IsAdmitted, s'.clients[..m]) <= MostThreads(m, s'.sh.max)
  {
    var s' := ClientStep(s, c, op);
    StopLeavesNoneCounted(s, c);
    assert forall d :: 0 <= d < |s'.clients| ==> !IsAdmitted(s'.clients[d]);
    CountNone(IsAdmitted, s'.clients[..m]);
  }

  lemma StepKeepsOthersOutside(s: State, a: Label, m: nat)
    requires OthersOutside(s, m) && Enabled(s, a) && (IsChoice(s, a) ==> FirstOnly(m)(s, a.c, a.op))
    ensures OthersOutside(Step(s, a), m)
  {
    if a.Act? {
      ClientMoveCommits(s.sh, a.c, s.clients[a.c], a.op, |s.workers|);
    }
  }

  lemma ClientKeepsUpper(s: State, c: nat, op: Op, m: nat)
    requires Entries(s) && Upper(s, m) && c < |s.clients| && WaitsFor(s, C(c)).None?
    requires OthersOutside(ClientStep(s, c, op), m)
    ensures Upper(ClientStep(s, c, op), m)
  {
    ClientMoveCounts(s.sh, c, s.clients[c], op, |s.workers|);
    if m == 0 || s.sh.max == 0 {
      EmptyStaysEmpty(s, c, op, m);
      CountNone(IsAdmitted, ClientStep(s, c, op).clients[..m]);
    } else if s.clients[c].StopCur? {
      ResetKeepsUpper(s, c, op, m);
    } else if c < m {
      CommitterKeepsUpper(s, c, op, m);
    } else {
      OutsiderKeepsUpper(s, c, op, m);
    }
  }

  lemma StepKeepsUpper(s: State, a: Label, m: nat)
    requires Entries(s) && Upper(s, m) && Enabled(s, a) && (IsChoice(s, a) ==> FirstOnly(m)(s, a.c, a.op))
    ensures Upper(Step(s, a), m)
  {
    StepKeepsOthersOutside(s, a, m);
    match a
    case Tick =>
    case Work(w, notified) => WorkerMoveCounts(s.sh, w, s.workers[w], notified);
    case Act(c, op) => ClientKeepsUpper(s, c, op, m);
  }

  lemma {:induction false} UpperAfter(n: nat, min: nat, max: nat, schedule: seq<Label>, m: nat)
    requires m <= n && Obeys(FirstOnly(m), n, min, max, schedule)
    ensures Upper(StateAfter(n, min, max, schedule), m)
    decreases |schedule|
  {
    if schedule == [] {
      CountNone(IsAdmitted, Fresh(n, min, max).clients[..m]);
    } else {
      var before, a := schedule[..|schedule| - 1], schedule[|schedule| - 1];
      UpperAfter(n, min, max, before, m);
      InvAfter(n, min, max, before);
      if Enabled(StateAfter(n, min, max, before), a) {
        StepKeepsUpper(StateAfter(n, min, max, before), a, m);
      }
    }
  }

  /** In every run in which m clients commit or start, cur_thread_num is at most max + m - 1. */
  lemma ThreadsNeverTooMany(n: nat, min: nat, max: nat, schedule: seq<Label>, m: nat)
    requires m <= n && Obeys(FirstOnly(m), n, min, max, schedule)
    ensures StateAfter(n, min, max, schedule).sh.cur <= MostThreads(m, max)
  {
    UpperAfter(n, min, max, schedule, m);
  }

  // ---------- Commits in good order ----------

  /** createThread was called by start(), the client's own or the one in commit(). */
  predicate Starting(pc: Client) {
    match pc
    case StartStatus(_, _) => true
    case StartSet(_, _) => true
    case StartLoop(_, _, _) => true
    case CreateCheck(k) => k.InStart?
    case Launch(k) => k.InStart?
    case WantThreadC(_, k) => k.InStart?
    case AddCur(_, k) => k.InStart?
    case AddIdle(_, k) => k.InStart?
    case Emplace(_, k) => k.InStart?
    case UnlockThreadC(k) => k.InStart?
    case _ => false
  }

  /** commit() and start() are called while nobody else is in either. */
  predicate OneAtATime(s: State, c: nat, op: Op) {
    Calls(s, c) && Commits(op) ==> forall d :: 0 <= d < |s.clients| ==> !Committing(s.clients[d])
  }

  /** Two clients may both be in commit(), the pool having a fixed size and being fully started. */
  predicate MayOverlap(s: State, pc: Client) {
    s.sh.max <= s.sh.min && s.sh.status != STOP && !Starting(pc)
  }

  /** As OneAtATime, but commits to a pool of fixed size may overlap each other once it is started. */
  predicate Orderly(s: State, c: nat, op: Op) {
    Calls(s, c) && Commits(op) ==>
      forall d :: 0 <= d < |s.clients| && Committing(s.clients[d]) ==> op.Commit? && MayOverlap(s, s.clients[d])
  }

  ghost predicate Apart(s: State) {
    forall c, d :: 0 <= c < |s.clients| && 0 <= d < |s.clients| && c != d && Committing(s.clients[c]) ==>
      !Committing(s.clients[d]) || MayOverlap(s, s.clients[c])
  }

  ghost predicate Calm(s: State) {
    Apart(s) && s.sh.cur + Count(IsAdmitted, s.clients) <= s.sh.max
  }

  lemma ClientMoveStarts(s: Shared, c: nat, pc: Client, op: Op, next: nat)
    requires pc.PauseSet? || pc.ResumeSet? ==> s.status != STOP
    ensures var (s', pc') := ClientMove(s, c, pc, op, next);
            && (Starting(pc') ==> Starting(pc) || (pc.CommitStatus? && s.status == STOP) || (pc.Idle? && op.Start?))
            && (s'.status == STOP ==> s.status == STOP || pc.StopSet?)
            && s'.min == s.min && s'.max == s.max
  {
  }

  /** Of two clients that commit after a step of c, each may overlap the other. */
  lemma ClientKeepsApart(s: State, c: nat, op: Op, d: nat)
    requires Entries(s) && Lower(s) && Apart(s) && c < |s.clients| && WaitsFor(s, C(c)).None?
    requires s.clients[c].Idle? ==> Orderly(s, c, op)
    requires d < |s.clients| && d != c
    ensures var s' := ClientStep(s, c, op);
            Committing(s'.clients[c]) && Committing(s.clients[d]) ==>
              MayOverlap(s', s'.clients[c]) && MayOverlap(s', s.clients[d])
  {
    assert ClientFloor(s.sh, s.clients[c]);
    ClientMoveCommits(s.sh, c, s.clients[c], op, |s.workers|);
    ClientMoveStarts(s.sh, c, s.clients[c], op, |s.workers|);
    assert Committing(s.clients[c]) && Committing(s.clients[d]) ==>
             MayOverlap(s, s.clients[c]) && MayOverlap(s, s.clients[d]);
  }

  /** Nor does the step come between two others. */
  lemma ClientLeavesOthersApart(s: State, c: nat, op: Op, d: nat, e: nat)
    requires Entries(s) && Lower(s) && Apart(s) && c < |s.clients| && WaitsFor(s, C(c)).None?
    requires d < |s.clients| && e < |s.clients| && d != c && e != c && d != e
    requires Committing(s.clients[d]) && Committing(s.clients[e])
    ensures MayOverlap(ClientStep(s, c, op), s.clients[d])
  {
    assert ClientFloor(s.sh, s.clients[c]);
    ClientMoveStarts(s.sh, c, s.clients[c], op, |s.workers|);
    assert MayOverlap(s, s.clients[d]);
    assert !InStop(s.clients[c]) by {
      assert !Quiet(s.clients[d]);
    }
  }

  lemma StepKeepsApart(s: State, a: Label)
    requires Entries(s) && Lower(s) && Apart(s) && Enabled(s, a) && (IsChoice(s, a) ==> Orderly(s, a.c, a.op))
    ensures Apart(Step(s, a))
  {
    var s' := Step(s, a);
    match a
    case Tick =>
    case Work(w, notified) => WorkerMoveFloor(s.sh, w, s.workers[w], notified);
    case Act(c, op) =>
      forall d, e | 0 <= d < |s.clients| && 0 <= e < |s.clients| && d != e && Committing(s'.clients[d])
        ensures !Committing(s'.clients[e]) || MayOverlap(s', s'.clients[d])
      {
        if d == c {
          ClientKeepsApart(s, c, op, e);
        } else if e == c {
          ClientKeepsApart(s, c, op, d);
        } else if Committing(s.clients[e]) {
          ClientLeavesOthersApart(s, c, op, d, e);
        }
      }
  }

  /** Whoever is about to be let in by createThread is alone in commit() or start(). */
  lemma AdmittedAlone(s: State, c: nat)
    requires Lower(s) && Calm(s) && c < |s.clients| && s.clients[c].CreateCheck? && s.sh.cur < s.sh.max
    ensures Count(IsAdmitted, s.clients) == 0
  {
    forall d | 0 <= d < |s.clients| && d != c ensures !Committing(s.clients[d]) {
      TwoMeanFull(s, c, d);
    }
    CountNone(IsAdmitted, s.clients);
  }

  /** While two clients commit, nobody is in start(), so the pool is full. */
  lemma TwoMeanFull(s: State, c: nat, d: nat)
    requires Lower(s) && Apart(s) && c < |s.clients| && d < |s.clients| && c != d && Committing(s.clients[c])
    ensures Committing(s.clients[d]) ==> s.sh.cur >= s.sh.max
  {
    if Committing(s.clients[d]) {
      forall e | 0 <= e < |s.clients| && Committing(s.clients[e]) ensures MayOverlap(s, s.clients[e]) {
        assert Committing(s.clients[if e == c then d else c]);
      }
      assert forall e :: 0 <= e < |s.clients| && Goal(s.clients[e]).Some? ==>
        Committing(s.clients[e]) && Starting(s.clients[e]);
      assert MayOverlap(s, s.clients[c]);
    }
  }

  lemma ResetKeepsCalm(s: State, c: nat, op: Op)
    requires Entries(s) && c < |s.clients| && s.clients[c].StopCur?
    ensures var s' := ClientStep(s, c, op);
            s'.sh.cur + Count(IsAdmitted, s'.clients) <= s'.sh.max
  {
    var s' := ClientStep(s, c, op);
    StopLeavesNoneCounted(s, c);
    assert forall d :: 0 <= d < |s'.clients| ==> !IsAdmitted(s'.clients[d]);
    CountNone(IsAdmitted, s'.clients);
  }

  lemma MoveKeepsCalm(s: State, c: nat, op: Op)
    requires Lower(s) && Calm(s) && c < |s.clients| && WaitsFor(s, C(c)).None? && !s.clients[c].StopCur?
    ensures var s' := ClientStep(s, c, op);
            s'.sh.cur + Count(IsAdmitted, s'.clients) <= s'.sh.max
  {
    var pc, pc' := s.clients[c], ClientStep(s, c, op).clients[c];
    CountUpdate(IsAdmitted, s.clients, c, pc');
    ClientMoveAdmits(s.sh, c, pc, op, |s.workers|);
    OnlyCheckAdmits(s.sh, c, pc, op, |s.workers|);
    if pc.CreateCheck? && s.sh.cur < s.sh.max {
      AdmittedAlone(s, c);
    }
  }

  lemma ClientKeepsCalm(s: State, c: nat, op: Op)
    requires Entries(s) && Lower(s) && Calm(s) && c < |s.clients| && WaitsFor(s, C(c)).None?
    ensures var s' := ClientStep(s, c, op);
            s'.sh.cur + Count(IsAdmitted, s'.clients) <= s'.sh.max
  {
    if s.clients[c].StopCur? {
      ResetKeepsCalm(s, c, op);
    } else {
      MoveKeepsCalm(s, c, op);
    }
  }

  lemma OnlyCheckAdmits(s: Shared, c: nat, pc: Client, op: Op, next: nat)
    ensures IsAdmitted(ClientMove(s, c, pc, op, next).1) ==> IsAdmitted(pc) || pc.CreateCheck?
  {
  }

  lemma StepKeepsCalm(s: State, a: Label)
    requires Entries(s) && Lower(s) && Calm(s) && Enabled(s, a) && (IsChoice(s, a) ==> Orderly(s, a.c, a.op))
    ensures Calm(Step(s, a))
  {
    StepKeepsApart(s, a);
    match a
    case Tick =>
    case Work(w, notified) => WorkerMoveCounts(s.sh, w, s.workers[w], notified);
    case Act(c, op) => ClientKeepsCalm(s, c, op);
  }

  lemma {:induction false} CalmAfter(n: nat, min: nat, max: nat, schedule: seq<Label>)
    requires Obeys(Orderly, n, min, max, schedule)
    ensures Calm(StateAfter(n, min, max, schedule))
    decreases |schedule|
  {
    if schedule == [] {
      CountNone(IsAdmitted, Fresh(n, min, max).clients);
    } else {
      var before, a := schedule[..|schedule| - 1], schedule[|schedule| - 1];
      CalmAfter(n, min, max, before);
      InvAfter(n, min, max, before);
      if Enabled(StateAfter(n, min, max, before), a) {
        StepKeepsCalm(StateAfter(n, min, max, before), a);
      }
    }
  }

  /**
    With commit() and start() in good order, whatever other clients do meanwhile, cur_thread_num
    never exceeds the maximum.
   */
  lemma OrderlyKeepsMax(n: nat, min: nat, max: nat, schedule: seq<Label>)
    requires Obeys(Orderly, n, min, max, schedule)
    ensures StateAfter(n, min, max, schedule).sh.cur <= max
  {
    CalmAfter(n, min, max, schedule);
  }

  /** In particular with one client at a time in either. */
  lemma OneCommitterKeepsMax(n: nat, min: nat, max: nat, schedule: seq<Label>)
    requires Obeys(OneAtATime, n, min, max, schedule)
    ensures StateAfter(n, min, max, schedule).sh.cur <= max
  {
    ObeysWeaker(OneAtATime, Orderly, n, min, max, schedule);
    OrderlyKeepsMax(n, min, max, schedule);
  }
}
