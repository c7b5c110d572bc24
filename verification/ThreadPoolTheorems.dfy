/** What holds in every run of `HThreadPool`. */
module ThreadPoolTheorems {
  import opened Wrappers
  import opened Counting
  import opened ThreadPool
  import opened ThreadPoolLocks
  import opened ThreadPoolEntries
  import opened ThreadPoolCounts
  import opened ThreadPoolTasks

  ghost predicate Inv(s: State) {
    Entries(s) && Balanced(s) && Tasks(s) && Lower(s)
  }

  lemma FreshInv(n: nat, min: nat, max: nat)
    ensures Inv(Fresh(n, min, max))
  {
    var s := Fresh(n, min, max);
    FreshEntries(n, min, max);
    CountNone(IsBusy, s.workers);
    CountNone(IsHalfDel, s.workers);
    CountNone(IsHalfAdd, s.clients);
  }

  lemma StepSizes(s: State, a: Label)
    requires Enabled(s, a)
    ensures var s' := Step(s, a);
            && s'.sh.min == s.sh.min && s'.sh.max == s.sh.max && |s'.clients| == |s.clients|
  {
    match a
    case Work(w, notified) => WorkerMoveCounts(s.sh, w, s.workers[w], notified);
    case Act(c, op) => ClientMoveCounts(s.sh, c, s.clients[c], op, |s.workers|);
    case Tick =>
  }

  lemma StepKeepsInv(s: State, a: Label)
    requires Inv(s) && Enabled(s, a)
    ensures Inv(Step(s, a))
  {
    StepSizes(s, a);
    StepKeepsEntries(s, a);
    StepKeepsBalanced(s, a);
    StepKeepsTasks(s, a);
    StepKeepsLower(s, a);
  }

  /** Where a schedule leads a new pool of n clients; labels not enabled in their turn are skipped. */
  ghost function StateAfter(n: nat, min: nat, max: nat, schedule: seq<Label>): (s: State)
    ensures |s.clients| == n && s.sh.min == min && s.sh.max == max
    decreases |schedule|
  {
    if schedule == [] then Fresh(n, min, max)
    else
      var s, a := StateAfter(n, min, max, schedule[..|schedule| - 1]), schedule[|schedule| - 1];
      if Enabled(s, a) then
        StepSizes(s, a);
        Step(s, a)
      else s
  }

  lemma {:induction false} InvAfter(n: nat, min: nat, max: nat, schedule: seq<Label>)
    ensures Inv(StateAfter(n, min, max, schedule))
    decreases |schedule|
  {
    if schedule == [] {
      FreshInv(n, min, max);
    } else {
      var before, a := schedule[..|schedule| - 1], schedule[|schedule| - 1];
      InvAfter(n, min, max, before);
      if Enabled(StateAfter(n, min, max, before), a) {
        StepKeepsInv(StateAfter(n, min, max, before), a);
      }
    }
  }

  /** Client c is about to call something. */
  predicate Calls(s: State, c: nat) {
    c < |s.clients| && s.clients[c].Idle?
  }

  /** An idle client begins an operation, or one in wait() settles which counter it reads first. */
  predicate IsChoice(s: State, a: Label) {
    a.Act? && (Calls(s, a.c) || (a.c < |s.clients| && s.clients[a.c].WaitTasks?))
  }

  /** What clients are asked to respect: may client c choose this now? */
  type Rule = (State, nat, Op) -> bool

  /** Every choice in the schedule respects the rule. */
  ghost predicate Obeys(rule: Rule, n: nat, min: nat, max: nat, schedule: seq<Label>)
    decreases |schedule|
  {
    schedule == [] ||
    (var before, a := schedule[..|schedule| - 1], schedule[|schedule| - 1];
     var s := StateAfter(n, min, max, before);
     && Obeys(rule, n, min, max, before)
     && (IsChoice(s, a) && Enabled(s, a) ==> rule(s, a.c, a.op)))
  }

  lemma {:induction false} ObeysWeaker(strict: Rule, rule: Rule, n: nat, min: nat, max: nat, schedule: seq<Label>)
    requires Obeys(strict, n, min, max, schedule) && forall s, c, op :: strict(s, c, op) ==> rule(s, c, op)
    ensures Obeys(rule, n, min, max, schedule)
    decreases |schedule|
  {
    if schedule != [] {
      ObeysWeaker(strict, rule, n, min, max, schedule[..|schedule| - 1]);
    }
  }

  // ---------- Deadlock ----------

  predicate Active(s: State, a: Actor)
    requires Exists(s, a)
  {
    match a
    case W(w) => s.workers[w] != Exited
    case C(c) => s.clients[c] != Idle
  }

  /** How many waits deep an actor can be. */
  function Depth(s: State, a: Actor): nat
    requires Exists(s, a)
  {
    match a
    case W(w) =>
      (match s.workers[w]
       case WantTask => 3
       case WakeUp(_) => 3
       case WantThread(_) => 2
       case Join(_, _) => 1
       case _ => 0)
    case C(c) =>
      (match s.clients[c]
       case StopJoin(_) => 4
       case WantTaskC => 3
       case WantThreadC(_, _) => 2
       case _ => 0)
  }

  lemma TaskHolder(s: State, b: Actor)
    requires Locks(s) && s.sh.taskMutex == Some(b)
    ensures Exists(s, b) && Active(s, b) && Depth(s, b) <= 2 && (b.C? ==> !InStop(s.clients[b.id]))
  {
    match b
    case W(w) => assert OwnW(s.sh, w, s.workers[w]);
    case C(c) => assert OwnC(s.sh, c, s.clients[c]);
  }

  lemma ThreadHolder(s: State, b: Actor)
    requires Locks(s) && s.sh.threadMutex == Some(b)
    ensures Exists(s, b) && Active(s, b) && Depth(s, b) <= 1 && (b.C? ==> !InStop(s.clients[b.id]))
  {
    match b
    case W(w) => assert OwnW(s.sh, w, s.workers[w]);
    case C(c) => assert OwnC(s.sh, c, s.clients[c]);
  }

  /** The holder of a mutex some actor wants, or the worker it joins. */
  predicate GoesDown(s: State, b: Actor, depth: nat) {
    && Exists(s, b) && Active(s, b) && Depth(s, b) < depth
    && (b.C? ==> !InStop(s.clients[b.id]))
  }

  lemma WorkerWaitsDown(s: State, w: nat)
    requires Entries(s) && w < |s.workers| && WaitsFor(s, W(w)).Some?
    ensures GoesDown(s, WaitsFor(s, W(w)).value, Depth(s, W(w)))
  {
    var b := WaitsFor(s, W(w)).value;
    match s.workers[w]
    case WantTask => TaskHolder(s, b);
    case WakeUp(_) => TaskHolder(s, b);
    case WantThread(_) => ThreadHolder(s, b);
    case Join(_, _) => JoinIsSafe(s, w);
  }

  lemma ClientWaitsDown(s: State, c: nat)
    requires Entries(s) && c < |s.clients| && WaitsFor(s, C(c)).Some?
    ensures GoesDown(s, WaitsFor(s, C(c)).value, Depth(s, C(c)))
  {
    var b := WaitsFor(s, C(c)).value;
    match s.clients[c]
    case WantTaskC => TaskHolder(s, b);
    case WantThreadC(_, _) => ThreadHolder(s, b);
    case StopJoin(_) =>
  }

  /** Every wait is for something less deep: there is no cycle to be deadlocked in. */
  lemma WaitsGoDown(s: State, a: Actor)
    requires Entries(s) && Exists(s, a) && WaitsFor(s, a).Some?
    ensures GoesDown(s, WaitsFor(s, a).value, Depth(s, a))
  {
    match a
    case W(w) => WorkerWaitsDown(s, w);
    case C(c) => ClientWaitsDown(s, c);
  }

  /** The end of a chain of waits. */
  ghost function Root(s: State, a: Actor): (r: Actor)
    requires Entries(s) && Exists(s, a)
    ensures Exists(s, r)
    decreases Depth(s, a)
  {
    if WaitsFor(s, a).None? then a
    else
      WaitsGoDown(s, a);
      Root(s, WaitsFor(s, a).value)
  }

  lemma {:induction false} RootIsFree(s: State, a: Actor)
    requires Entries(s) && Exists(s, a) && Active(s, a)
    ensures var r := Root(s, a);
            Active(s, r) && WaitsFor(s, r).None? && (r == a || r.W? || !InStop(s.clients[r.id]))
    decreases Depth(s, a)
  {
    if WaitsFor(s, a).Some? {
      WaitsGoDown(s, a);
      RootIsFree(s, WaitsFor(s, a).value);
    }
  }

  predicate Blocked(s: State, a: Actor) {
    Exists(s, a) && Active(s, a) && WaitsFor(s, a).Some?
  }

  /** The next step of an actor that is not blocked; an idle client calls wait(). */
  function Turn(a: Actor): Label {
    if a.W? then Work(a.id, true) else Act(a.id, Wait(false))
  }

  /** An actor gets on: its step takes it to another line, or it is made to spin by a pause. */
  predicate CanMove(s: State, a: Actor) {
    && Exists(s, a) && Active(s, a) && Enabled(s, Turn(a))
    && match a
       case W(w) => Step(s, Turn(a)).workers[w] != s.workers[w] || (s.workers[w] == Spin && s.sh.status == PAUSE)
       case C(c) => Step(s, Turn(a)).clients[c] != s.clients[c]
  }

  lemma WorkerGetsOn(s: Shared, w: nat, pc: Worker)
    requires pc != Exited && HeldOk(s, pc) && WalkOk(s, w, pc)
    ensures WorkerMove(s, w, pc, true).1 != pc || (pc == Spin && s.status == PAUSE)
  {
  }

  lemma ClientGetsOn(s: Shared, c: nat, pc: Client, next: nat)
    ensures ClientMove(s, c, pc, Wait(false), next).1 != pc
  {
  }

  lemma UnblockedCanMove(s: State, a: Actor)
    requires Entries(s) && Tasks(s) && Exists(s, a) && Active(s, a) && WaitsFor(s, a).None?
    requires a.C? ==> !InStop(s.clients[a.id])
    ensures CanMove(s, a)
  {
    match a
    case W(w) =>
      assert HeldOk(s.sh, s.workers[w]) && WalkOk(s.sh, w, s.workers[w]);
      WorkerGetsOn(s.sh, w, s.workers[w]);
    case C(c) => ClientGetsOn(s.sh, c, s.clients[c], |s.workers|);
  }

  /**
    In every run, an actor that is blocked on a mutex or on a join is blocked, at the end of a
    finite chain, on an actor that can take its next step and gets on by it.
   */
  lemma NoDeadlock(n: nat, min: nat, max: nat, schedule: seq<Label>)
    ensures var s := StateAfter(n, min, max, schedule);
            Entries(s) && forall a :: Blocked(s, a) ==> CanMove(s, Root(s, a))
  {
    InvAfter(n, min, max, schedule);
    var s := StateAfter(n, min, max, schedule);
    forall a | Blocked(s, a) ensures CanMove(s, Root(s, a)) {
      RootIsFree(s, a);
      UnblockedCanMove(s, Root(s, a));
    }
  }

  /**
    In every run, a worker about to join holds both mutexes, and the worker it joins has released
    every lock, will take none, and is on its last line or gone.
   */
  lemma JoinsAreSafe(n: nat, min: nat, max: nat, schedule: seq<Label>, w: nat)
    requires var s := StateAfter(n, min, max, schedule); w < |s.workers| && s.workers[w].Join?
    ensures var s := StateAfter(n, min, max, schedule);
            && s.sh.taskMutex == Some(W(w)) && s.sh.threadMutex == Some(W(w))
            && s.workers[w].i < |s.sh.threads|
            && var t := s.sh.threads[s.workers[w].i].id;
               t != w && t < |s.workers| && (s.workers[t] == Leaving || s.workers[t] == Exited)
  {
    InvAfter(n, min, max, schedule);
    JoinIsSafe(StateAfter(n, min, max, schedule), w);
  }

  // ---------- Counters ----------

  /**
    In every run, unless stop() is between its two resets, idle workers plus busy ones are
    cur_thread_num, up to one half-finished addThread (-1) or delThread (+1).
   */
  lemma CountersBalance(n: nat, min: nat, max: nat, schedule: seq<Label>)
    requires forall c :: 0 <= c < n ==> !StateAfter(n, min, max, schedule).clients[c].StopIdle?
    ensures var s := StateAfter(n, min, max, schedule);
            var adding, deleting := Count(IsHalfAdd, s.clients), Count(IsHalfDel, s.workers);
            && s.sh.idle + Count(IsBusy, s.workers) == s.sh.cur - adding + deleting
            && adding + deleting <= 1
  {
    InvAfter(n, min, max, schedule);
    OneHalfDone(StateAfter(n, min, max, schedule));
  }

  /** A client gets to the end of start(), its own or the one in commit(). */
  predicate StartReturns(s: State, a: Label)
    requires Enabled(s, a)
  {
    a.Act? && Goal(s.clients[a.c]).Some? && Goal(Step(s, a).clients[a.c]).None?
  }

  /** Some start() has got to its end, and no stop() has reset the counter since. */
  ghost predicate HasStarted(n: nat, min: nat, max: nat, schedule: seq<Label>)
    decreases |schedule|
  {
    schedule != [] &&
    var before, a := schedule[..|schedule| - 1], schedule[|schedule| - 1];
    var s := StateAfter(n, min, max, before);
    if !Enabled(s, a) then HasStarted(n, min, max, before)
    else if a.Act? && s.clients[a.c].StopCur? then false
    else StartReturns(s, a) || HasStarted(n, min, max, before)
  }

  /**
    In every run: from the step in which any start() gets to its end until a stop() resets it,
    cur_thread_num is at least min (cut at max), whoever else is in start() meanwhile; and so it is
    whenever the pool is not stopped and no client is inside start().
   */
  lemma {:induction false} ThreadsNeverTooFew(n: nat, min: nat, max: nat, schedule: seq<Label>)
    ensures var s := StateAfter(n, min, max, schedule);
            && (HasStarted(n, min, max, schedule) ==> s.sh.cur >= Floor(min, max))
            && (s.sh.status != STOP && (forall c :: 0 <= c < n ==> Goal(s.clients[c]).None?) ==>
                  s.sh.cur >= Floor(min, max))
    decreases |schedule|
  {
    InvAfter(n, min, max, schedule);
    if HasStarted(n, min, max, schedule) {
      var before, a := schedule[..|schedule| - 1], schedule[|schedule| - 1];
      var s := StateAfter(n, min, max, before);
      InvAfter(n, min, max, before);
      ThreadsNeverTooFew(n, min, max, before);
      if Enabled(s, a) {
        if StartReturns(s, a) {
          assert ClientFloor(s.sh, s.clients[a.c]);
          ClientMoveFloor(s.sh, a.c, s.clients[a.c], a.op, |s.workers|);
        } else {
          StepKeepsFloor(s, a);
        }
      }
    }
  }

  // ---------- Tasks ----------

  /**
    In every run each committed task is in exactly one of three places: queued, held by exactly
    one worker, or finished. Tasks start in commit order.
   */
  lemma TasksAreConserved(n: nat, min: nat, max: nat, schedule: seq<Label>)
    ensures var s := StateAfter(n, min, max, schedule);
            && (forall i :: 0 <= i < Committed(s.sh) ==> (s.sh.started + s.sh.tasks)[i] == i)
            && (forall t :: t in s.sh.tasks ==> t !in s.sh.finished && !SomeoneHolds(s.workers, t))
            && (forall t :: t in s.sh.finished ==> !SomeoneHolds(s.workers, t))
            && (forall v, w :: 0 <= v < w < |s.workers| && Held(s.workers[v]).Some? ==>
                  Held(s.workers[v]) != Held(s.workers[w]))
            && (forall t :: 0 <= t < Committed(s.sh) ==>
                  t in s.sh.tasks || t in s.sh.finished || SomeoneHolds(s.workers, t))
  {
    InvAfter(n, min, max, schedule);
    var s := StateAfter(n, min, max, schedule);
    assert forall w :: 0 <= w < |s.workers| ==> HeldOk(s.sh, s.workers[w]);
    forall t | 0 <= t < Committed(s.sh)
      ensures t in s.sh.tasks || t in s.sh.finished || SomeoneHolds(s.workers, t)
    {
      if t >= |s.sh.started| {
        assert s.sh.tasks[t - |s.sh.started|] == t;
      }
    }
  }

  /**
    In every run, when stop() is about to return nothing is running: all workers have ended, every
    task ever started is finished, and the unstarted ones are still queued in commit order.
   */
  lemma StopLeavesNothingRunning(n: nat, min: nat, max: nat, schedule: seq<Label>, c: nat)
    requires c < n && StateAfter(n, min, max, schedule).clients[c].StopIdle?
    ensures Stopped(ClientStep(StateAfter(n, min, max, schedule), c, Stop), c)
  {
    InvAfter(n, min, max, schedule);
    StopEnds(StateAfter(n, min, max, schedule), c);
  }

  /** stop() has just returned to client c, and has done its work. */
  ghost predicate Stopped(s: State, c: nat) {
    && c < |s.clients| && s.clients[c].Idle?
    && AllExited(s) && s.sh.threads == [] && s.sh.cur == s.sh.idle == 0 && s.sh.status == STOP
    && (forall t :: 0 <= t < |s.sh.started| ==> t in s.sh.finished)
    && (forall i :: 0 <= i < |s.sh.tasks| ==> s.sh.tasks[i] == |s.sh.started| + i)
  }

  lemma StopEnds(s: State, c: nat)
    requires Entries(s) && Tasks(s) && c < |s.clients| && s.clients[c].StopIdle?
    ensures Stopped(ClientStep(s, c, Stop), c)
  {
    assert StopProgress(s, s.clients[c]);
    assert ClientStep(s, c, Stop) == State(s.sh.(idle := 0), s.workers, s.clients[c := Idle]);
    forall t | 0 <= t < |s.sh.started| ensures t in s.sh.finished {
      assert !SomeoneHolds(s.workers, t);
    }
  }
}
