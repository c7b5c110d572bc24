/**
  `HThreadPool` as interleaved atomic steps: any number of client threads that start, stop, pause,
  resume, commit and wait, and the worker threads they launch. Every program counter names the
  source line about to run. A step is one access to a shared variable or one mutex operation.
 */
module ThreadPool {
  import opened Wrappers

  datatype Status = STOP | RUNNING | PAUSE

  type TaskId = nat

  /** Actors: worker or client number so-and-so. */
  datatype Actor = W(id: nat) | C(id: nat)

  datatype Entry = Entry(id: nat, stopped: bool, stopTime: int)

  datatype Worker =
    | Top                          // 152: while (status != STOP)
    | Spin                         // 153: while (status == PAUSE)
    | WantTask                     // 159: locking task_mutex
    | Hold                         // 160: wait_for tests its predicate, mutex held
    | Sleep                        // 160: wait_for sleeps, mutex released
    | WakeUp(timedOut: bool)       // 160: wait_for relocks
    | Woken                        // 163: status == STOP?
    | Awake                        // 164: tasks.empty()?
    | ReadCur                      // 165: cur_thread_num > min_thread_num?
    | Release                      // 169: continue, unlocking
    | DecIdle                      // 171
    | Pop                          // 172-173
    | Unlock(task: TaskId)         // 174
    | Run(task: TaskId)            // 176
    | IncIdle                      // 177
    | WantThread(now: int)         // 201: locking thread_mutex
    | DecCur(now: int)             // 202
    | DelIdle(now: int)            // 203
    | Scan(i: nat, now: int)       // 205: the walk over `threads`
    | Join(i: nat, now: int)       // 208: joining the worker of entry i
    | UnlockThread                 // 218
    | ReturnLocked                 // 163, 167: return, unlocking task_mutex
    | Leaving                      // past every lock, the thread is about to end
    | Exited

  datatype After = ThenReturn | ThenCommit

  /** Where createThread was called from. */
  datatype Cont = InStart(i: nat, n: nat, after: After) | InCommit

  datatype Client =
    | Idle
    // commit
    | CommitStatus                 // 129
    | ReadIdle                     // 130: idle_thread_num
    | ReadTasks(idle: int)         // 130: tasks.size()
    | ReadMax                      // 130: cur_thread_num < max_thread_num
    | WantTaskC                    // 138
    | Push                         // 139
    | UnlockTaskC                  // 142
    | Notify                       // 144
    // start
    | StartStatus(want: nat, after: After)           // 71
    | StartSet(want: nat, after: After)              // 72-74
    | StartLoop(i: nat, n: nat, after: After)        // 75
    // createThread and addThread
    | CreateCheck(k: Cont)                           // 150
    | Launch(k: Cont)                                // 151
    | WantThreadC(id: nat, k: Cont)                  // 186
    | AddCur(id: nat, k: Cont)                       // 187
    | AddIdle(id: nat, k: Cont)                      // 188
    | Emplace(id: nat, k: Cont)                      // 189-195
    | UnlockThreadC(k: Cont)                         // 196
    // stop
    | StopStatus                   // 82
    | StopSet                      // 83
    | StopNotify                   // 84
    | StopJoin(i: nat)             // 85-89
    | StopClear                    // 90
    | StopCur                      // 91
    | StopIdle                     // 92
    // pause and resume
    | PauseStatus                  // 97
    | PauseSet                     // 98
    | ResumeStatus                 // 104
    | ResumeSet                    // 105
    // wait
    | WaitStatus                   // 111
    | WaitTasks                    // 112: tasks.empty()
    | WaitIdle                     // 112: idle_thread_num, first
    | WaitCur(idle: int)           // 112: then cur_thread_num
    | WaitCurFirst                 // 112: cur_thread_num, first
    | WaitIdleAfter(cur: int)      // 112: then idle_thread_num
    | WaitDone(byBreak: bool)      // 117

  datatype Op = Commit | Start(want: nat) | Stop | Pause | Resume | Wait(curFirst: bool)

  /** What the threads share. */
  datatype Shared = Shared(
    min: nat, max: nat,
    status: Status, cur: int, idle: int,
    tasks: seq<TaskId>, threads: seq<Entry>,
    taskMutex: Option<Actor>, threadMutex: Option<Actor>,
    clock: int,
    started: seq<TaskId>,    // history: tasks in the order they were popped
    finished: set<TaskId>)   // history: tasks that returned

  datatype State = State(sh: Shared, workers: seq<Worker>, clients: seq<Client>)

  /** Tasks are numbered in the order they are pushed. */
  function Committed(sh: Shared): nat {
    |sh.started| + |sh.tasks|
  }

  function Fresh(n: nat, min: nat, max: nat): State {
    State(Shared(min, max, STOP, 0, 0, [], [], None, None, 0, [], {}), [], seq(n, _ => Idle))
  }

  // ---------- Who waits for whom ----------

  predicate Exists(s: State, a: Actor) {
    match a
    case W(w) => w < |s.workers|
    case C(c) => c < |s.clients|
  }

  function JoinTarget(s: State, i: nat): Option<Actor> {
    if i < |s.sh.threads| && s.sh.threads[i].id < |s.workers| && s.workers[s.sh.threads[i].id] != Exited
    then Some(W(s.sh.threads[i].id)) else None
  }

  /** The actor whose next release or end this one is blocked on, if it is blocked. */
  function WaitsFor(s: State, a: Actor): Option<Actor>
    requires Exists(s, a)
  {
    match a
    case W(w) =>
      (match s.workers[w]
       case WantTask => s.sh.taskMutex
       case WakeUp(_) => s.sh.taskMutex
       case WantThread(_) => s.sh.threadMutex
       case Join(i, _) => JoinTarget(s, i)
       case _ => None)
    case C(c) =>
      (match s.clients[c]
       case WantTaskC => s.sh.taskMutex
       case WantThreadC(_, _) => s.sh.threadMutex
       case StopJoin(i) => JoinTarget(s, i)
       case _ => None)
  }

  // ---------- Steps of a worker ----------

  /**
    What worker w does at `pc`, to the shared variables and to itself. `notified`: what ends a
    sleep, a notification (or nothing at all) rather than the timeout.
   */
  function WorkerMove(s: Shared, w: nat, pc: Worker, notified: bool): (Shared, Worker) {
    match pc
    case Top => (s, if s.status == STOP then Leaving else Spin)
    case Spin => (s, if s.status == PAUSE then Spin else WantTask)
    case WantTask => (s.(taskMutex := Some(W(w))), Hold)
    case Hold =>
      if s.status == STOP || s.tasks != [] then (s, Woken) else (s.(taskMutex := None), Sleep)
    case Sleep => (s, WakeUp(!notified))
    case WakeUp(timedOut) => (s.(taskMutex := Some(W(w))), if timedOut then Woken else Hold)
    case Woken => (s, if s.status == STOP then ReturnLocked else Awake)
    case Awake => (s, if s.tasks == [] then ReadCur else DecIdle)
    case ReadCur => (s, if s.cur > s.min then WantThread(s.clock) else Release)
    case Release => (s.(taskMutex := None), Top)
    case DecIdle => (s.(idle := s.idle - 1), Pop)
    case Pop =>
      if s.tasks == [] then (s, Pop)
      else (s.(tasks := s.tasks[1..], started := s.started + [s.tasks[0]]), Unlock(s.tasks[0]))
    case Unlock(t) => (s.(taskMutex := None), Run(t))
    case Run(t) => (s.(finished := s.finished + {t}), IncIdle)
    case IncIdle => (s.(idle := s.idle + 1), Top)
    case WantThread(now) => (s.(threadMutex := Some(W(w))), DecCur(now))
    case DecCur(now) => (s.(cur := s.cur - 1), DelIdle(now))
    case DelIdle(now) => (s.(idle := s.idle - 1), Scan(0, now))
    case Scan(i, now) =>
      if i >= |s.threads| then (s, UnlockThread)
      else if s.threads[i].stopped && now > s.threads[i].stopTime then (s, Join(i, now))
      else if s.threads[i].id == w then
        (s.(threads := s.threads[i := Entry(w, true, s.clock)]), Scan(i + 1, now))
      else (s, Scan(i + 1, now))
    case Join(i, now) =>
      if i >= |s.threads| then (s, Join(i, now))
      else (s.(threads := s.threads[..i] + s.threads[i + 1..]), Scan(i, now))
    case UnlockThread => (s.(threadMutex := None), ReturnLocked)
    case ReturnLocked => (s.(taskMutex := None), Leaving)
    case Leaving => (s, Exited)
    case Exited => (s, Exited)
  }

  function WorkerStep(s: State, w: nat, notified: bool): State
    requires w < |s.workers| && WaitsFor(s, W(w)).None?
  {
    var (sh, pc) := WorkerMove(s.sh, w, s.workers[w], notified);
    State(sh, s.workers[w := pc], s.clients)
  }

  // ---------- Steps of a client ----------

  function Clamped(want: nat, min: nat, max: nat): nat {
    var n := if want < min then min else want;
    if n > max then max else n
  }

  function AfterStart(after: After): Client {
    if after.ThenCommit? then ReadIdle else Idle
  }

  function AfterCreate(k: Cont): Client {
    match k
    case InStart(i, n, after) => StartLoop(i + 1, n, after)
    case InCommit => WantTaskC
  }

  function Called(op: Op): Client {
    match op
    case Commit => CommitStatus
    case Start(want) => StartStatus(want, ThenReturn)
    case Stop => StopStatus
    case Pause => PauseStatus
    case Resume => ResumeStatus
    case Wait(_) => WaitStatus
  }

  /**
    What client c does at `pc`. `op`: what an idle client calls; and since C++ leaves open which
    operand of the comparison in line 112 is read first, Wait(true) lets one that is there begin
    with cur_thread_num. `next`: the number the next worker will have.
   */
  function ClientMove(s: Shared, c: nat, pc: Client, op: Op, next: nat): (Shared, Client) {
    match pc
    case Idle => (s, Called(op))
    case CommitStatus => (s, if s.status == STOP then StartStatus(0, ThenCommit) else ReadIdle)
    case ReadIdle => (s, ReadTasks(s.idle))
    // the comparison is unsigned: a negative idle count is larger than any size
    case ReadTasks(v) => (s, if 0 <= v <= |s.tasks| then ReadMax else WantTaskC)
    case ReadMax => (s, if s.cur < s.max then CreateCheck(InCommit) else WantTaskC)
    case WantTaskC => (s.(taskMutex := Some(C(c))), Push)
    case Push => (s.(tasks := s.tasks + [Committed(s)]), UnlockTaskC)
    case UnlockTaskC => (s.(taskMutex := None), Notify)
    case Notify => (s, Idle)

    case StartStatus(want, after) =>
      (s, if s.status != STOP then AfterStart(after) else StartSet(want, after))
    case StartSet(want, after) =>
      (s.(status := RUNNING), StartLoop(0, Clamped(want, s.min, s.max), after))
    case StartLoop(i, n, after) =>
      (s, if i < n then CreateCheck(InStart(i, n, after)) else AfterStart(after))

    case CreateCheck(k) => (s, if s.cur >= s.max then AfterCreate(k) else Launch(k))
    case Launch(k) => (s, WantThreadC(next, k))
    case WantThreadC(id, k) => (s.(threadMutex := Some(C(c))), AddCur(id, k))
    case AddCur(id, k) => (s.(cur := s.cur + 1), AddIdle(id, k))
    case AddIdle(id, k) => (s.(idle := s.idle + 1), Emplace(id, k))
    case Emplace(id, k) => (s.(threads := s.threads + [Entry(id, false, 0)]), UnlockThreadC(k))
    case UnlockThreadC(k) => (s.(threadMutex := None), AfterCreate(k))

    case StopStatus => (s, if s.status == STOP then Idle else StopSet)
    case StopSet => (s.(status := STOP), StopNotify)
    case StopNotify => (s, StopJoin(0))
    case StopJoin(i) => (s, if i < |s.threads| then StopJoin(i + 1) else StopClear)
    case StopClear => (s.(threads := []), StopCur)
    case StopCur => (s.(cur := 0), StopIdle)
    case StopIdle => (s.(idle := 0), Idle)

    case PauseStatus => (s, if s.status == RUNNING then PauseSet else Idle)
    case PauseSet => (s.(status := PAUSE), Idle)
    case ResumeStatus => (s, if s.status == PAUSE then ResumeSet else Idle)
    case ResumeSet => (s.(status := RUNNING), Idle)

    case WaitStatus => (s, if s.status != STOP then WaitTasks else WaitDone(false))
    case WaitTasks =>
      (s, if s.tasks != [] then WaitStatus else if op == Wait(true) then WaitCurFirst else WaitIdle)
    case WaitIdle => (s, WaitCur(s.idle))
    case WaitCur(v) => (s, if v == s.cur then WaitDone(true) else WaitStatus)
    case WaitCurFirst => (s, WaitIdleAfter(s.cur))
    case WaitIdleAfter(v) => (s, if s.idle == v then WaitDone(true) else WaitStatus)
    case WaitDone(_) => (s, Idle)
  }

  function ClientStep(s: State, c: nat, op: Op): State
    requires c < |s.clients| && WaitsFor(s, C(c)).None?
  {
    var (sh, pc) := ClientMove(s.sh, c, s.clients[c], op, |s.workers|);
    State(sh, if s.clients[c].Launch? then s.workers + [Top] else s.workers, s.clients[c := pc])
  }

  // ---------- Discipline ----------

  predicate InStop(pc: Client) {
    pc.StopStatus? || pc.StopSet? || pc.StopNotify? || pc.StopJoin? || pc.StopClear? || pc.StopCur? || pc.StopIdle?
  }

  /** Idle or only waiting: touches nothing. */
  predicate Quiet(pc: Client) {
    || pc.Idle? || pc.WaitStatus? || pc.WaitTasks? || pc.WaitDone?
    || pc.WaitIdle? || pc.WaitCur? || pc.WaitCurFirst? || pc.WaitIdleAfter?
  }

  /** Past the stop check on the way to retirement, up to the end of delThread. */
  predicate Retiring(s: State, w: nat)
    requires w < |s.workers|
  {
    match s.workers[w]
    case Awake => s.sh.tasks == []
    case ReadCur => true
    case WantThread(_) => true
    case DecCur(_) => true
    case DelIdle(_) => true
    case Scan(_, _) => true
    case Join(_, _) => true
    case UnlockThread => true
    case _ => false
  }

  /**
    stop() walks `threads` without thread_mutex, so callers keep it apart: while a client is in
    stop() the others at most wait, and it does not overlap a worker's retirement.
   */
  predicate Allowed(s: State, c: nat, op: Op)
    requires c < |s.clients|
  {
    match s.clients[c]
    case Idle =>
      && (op == Stop ==> forall d :: 0 <= d < |s.clients| ==> Quiet(s.clients[d]))
      && (!op.Wait? ==> forall d :: 0 <= d < |s.clients| ==> !InStop(s.clients[d]))
    case StopSet => forall w :: 0 <= w < |s.workers| ==> !Retiring(s, w)
    case _ => true
  }

  // ---------- Schedules ----------

  datatype Label = Work(w: nat, notified: bool) | Act(c: nat, op: Op) | Tick

  predicate Enabled(s: State, a: Label) {
    match a
    case Work(w, _) => w < |s.workers| && WaitsFor(s, W(w)).None?
    case Act(c, op) => c < |s.clients| && WaitsFor(s, C(c)).None? && Allowed(s, c, op)
    case Tick => true
  }

  function Step(s: State, a: Label): State
    requires Enabled(s, a)
  {
    match a
    case Work(w, notified) => WorkerStep(s, w, notified)
    case Act(c, op) => ClientStep(s, c, op)
    case Tick => s.(sh := s.sh.(clock := s.sh.clock + 1))
  }
}
