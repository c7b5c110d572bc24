/**
  The list of thread entries in `HThreadPool`: which worker each entry is for, what it means that
  an entry is marked STOP, and what `stop()` and `delThread` may conclude from the list.
 */
module ThreadPoolEntries {
  import opened Wrappers
  import opened ThreadPool
  import opened ThreadPoolLocks

  // ---------- stop() is alone ----------

  /** While one client is in stop() the others are quiet. */
  ghost predicate StopAlone(s: State) {
    forall c, d :: 0 <= c < |s.clients| && 0 <= d < |s.clients| && c != d && InStop(s.clients[c]) ==>
      Quiet(s.clients[d])
  }

  lemma ClientMoveStops(s: Shared, c: nat, pc: Client, op: Op, next: nat)
    ensures var (_, pc') := ClientMove(s, c, pc, op, next);
            && (InStop(pc') ==> InStop(pc) || (pc.Idle? && op == Stop))
            && (Quiet(pc) && !(pc.Idle? && !op.Wait?) ==> Quiet(pc'))
  {
  }

  lemma StepKeepsStopAlone(s: State, a: Label)
    requires StopAlone(s) && Enabled(s, a)
    ensures StopAlone(Step(s, a))
  {
    if a.Act? {
      ClientMoveStops(s.sh, a.c, s.clients[a.c], a.op, |s.workers|);
    }
  }

  // ---------- One entry per worker ----------

  /** The worker a client has launched and not yet put on the list. */
  function Adding(pc: Client): Option<nat> {
    match pc
    case WantThreadC(id, _) => Some(id)
    case AddCur(id, _) => Some(id)
    case AddIdle(id, _) => Some(id)
    case Emplace(id, _) => Some(id)
    case _ => None
  }

  ghost predicate Listed(threads: seq<Entry>, w: nat) {
    exists j :: 0 <= j < |threads| && threads[j].id == w
  }

  ghost predicate Ids(s: State) {
    && (forall j :: 0 <= j < |s.sh.threads| ==> s.sh.threads[j].id < |s.workers|)
    && (forall i, j :: 0 <= i < j < |s.sh.threads| ==> s.sh.threads[i].id != s.sh.threads[j].id)
    && (forall c :: 0 <= c < |s.clients| && Adding(s.clients[c]).Some? ==>
          Adding(s.clients[c]).value < |s.workers| && !Listed(s.sh.threads, Adding(s.clients[c]).value))
    && (forall c, d :: 0 <= c < d < |s.clients| && Adding(s.clients[c]).Some? ==>
          Adding(s.clients[c]) != Adding(s.clients[d]))
  }

  /** Worker w is listed or about to be. */
  ghost predicate Accounted(s: State, w: nat) {
    Listed(s.sh.threads, w) || exists c :: 0 <= c < |s.clients| && Adding(s.clients[c]) == Some(w)
  }

  /** Every worker that has not ended is. */
  ghost predicate Covered(s: State) {
    forall w :: 0 <= w < |s.workers| && s.workers[w] != Exited ==> Accounted(s, w)
  }

  /** It stays so if no entry is lost, and no worker on its way to the list but by getting there. */
  lemma KeepsCovered(s: State, s': State)
    requires Covered(s) && |s'.clients| == |s.clients|
    requires forall v :: 0 <= v < |s'.workers| && s'.workers[v] != Exited ==>
               (v < |s.workers| && s.workers[v] != Exited) || Accounted(s', v)
    requires forall v :: Listed(s.sh.threads, v) ==> Listed(s'.sh.threads, v)
    requires forall d :: 0 <= d < |s.clients| && Adding(s.clients[d]).Some? ==>
               Adding(s'.clients[d]) == Adding(s.clients[d]) || Listed(s'.sh.threads, Adding(s.clients[d]).value)
    ensures Covered(s')
  {
    forall v | 0 <= v < |s'.workers| && s'.workers[v] != Exited ensures Accounted(s', v) {
      if v < |s.workers| && s.workers[v] != Exited && !Listed(s.sh.threads, v) {
        var d :| 0 <= d < |s.clients| && Adding(s.clients[d]) == Some(v);
        assert Adding(s'.clients[d]) == Some(v) || Listed(s'.sh.threads, v);
      }
    }
  }

  // ---------- Entries marked STOP ----------

  /** Where a worker can be once its entry is marked. */
  predicate Past(pc: Worker) {
    pc.Scan? || pc.Join? || pc.UnlockThread? || pc.ReturnLocked? || pc.Leaving? || pc.Exited?
  }

  /** The time delThread read on entry. */
  function Now(pc: Worker): Option<int> {
    match pc
    case WantThread(now) => Some(now)
    case DecCur(now) => Some(now)
    case DelIdle(now) => Some(now)
    case Scan(_, now) => Some(now)
    case Join(_, now) => Some(now)
    case _ => None
  }

  /**
    The walk of delThread is on the list and never about to join its own thread; an entry marked
    STOP belongs to a worker past marking it.
   */
  predicate WalkOk(s: Shared, w: nat, pc: Worker) {
    && (pc.Scan? ==> pc.i <= |s.threads|)
    && (pc.Join? ==> pc.i < |s.threads| && s.threads[pc.i].stopped && s.threads[pc.i].id != w)
    && (Now(pc).Some? ==> Now(pc).value <= s.clock)
    && (forall j :: 0 <= j < |s.threads| && s.threads[j].id == w && s.threads[j].stopped ==>
          Past(pc) && (Now(pc).Some? ==> s.threads[j].stopTime >= Now(pc).value))
  }

  ghost predicate Walks(s: State) {
    forall w :: 0 <= w < |s.workers| ==> WalkOk(s.sh, w, s.workers[w])
  }

  // ---------- stop() and the list ----------

  ghost predicate AllExited(s: State) {
    forall w :: 0 <= w < |s.workers| ==> s.workers[w] == Exited
  }

  predicate Stopping(pc: Client) {
    pc.StopNotify? || pc.StopJoin? || pc.StopClear? || pc.StopCur? || pc.StopIdle?
  }

  ghost predicate StopProgress(s: State, pc: Client) {
    && (Stopping(pc) ==> s.sh.status == STOP && forall w :: 0 <= w < |s.workers| ==> !Retiring(s, w))
    && (pc.StopJoin? ==>
          && pc.i <= |s.sh.threads|
          && (forall j :: 0 <= j < pc.i ==>
                s.sh.threads[j].id < |s.workers| && s.workers[s.sh.threads[j].id] == Exited))
    && (pc.StopClear? || pc.StopCur? || pc.StopIdle? ==> AllExited(s))
    && (pc.StopCur? || pc.StopIdle? ==> s.sh.threads == [])
    && (pc.StopIdle? ==> s.sh.cur == 0)
  }

  ghost predicate Stops(s: State) {
    forall c :: 0 <= c < |s.clients| ==> StopProgress(s, s.clients[c])
  }

  ghost predicate Entries(s: State) {
    Locks(s) && StopAlone(s) && Ids(s) && Covered(s) && Walks(s) && Stops(s)
  }

  // ---------- Steps that leave the list alone ----------

  lemma WorkerMoveEntries(s: Shared, w: nat, pc: Worker, notified: bool)
    requires WalkOk(s, w, pc)
    ensures var (s', pc') := WorkerMove(s, w, pc, notified);
            && (s'.threads == s.threads || pc.Join? || (pc.Scan? && pc' == Scan(pc.i + 1, pc.now)))
            && (s'.threads == s.threads ==> WalkOk(s', w, pc'))
  {
    WorkerMovePast(s, w, pc, notified);
  }

  lemma WorkerMovePast(s: Shared, w: nat, pc: Worker, notified: bool)
    ensures var (s', pc') := WorkerMove(s, w, pc, notified);
            && s'.status == s.status && s'.clock == s.clock
            && (Past(pc) ==> Past(pc'))
            && (pc == Exited ==> pc' == Exited && s' == s)
            && (pc' == Exited ==> pc == Exited || pc == Leaving)
  {
  }

  /** With STOP set, a worker not on its way to retirement does not set out for it. */
  lemma WorkerMoveUnderStop(s: Shared, w: nat, pc: Worker, notified: bool)
    requires s.status == STOP && !OnTheWay(s, pc)
    ensures var (s', pc') := WorkerMove(s, w, pc, notified);
            && s'.threads == s.threads && s'.cur == s.cur && !OnTheWay(s', pc')
            && (s'.tasks != s.tasks ==> HoldsTaskW(pc))
  {
  }

  /** Retiring, as a property of one program counter. */
  predicate OnTheWay(s: Shared, pc: Worker) {
    (pc.Awake? && s.tasks == []) || pc.ReadCur? || pc.UnlockThread? || Now(pc).Some?
  }

  lemma RetiringIsOnTheWay(s: State, w: nat)
    requires w < |s.workers|
    ensures Retiring(s, w) <==> OnTheWay(s.sh, s.workers[w])
  {
  }

  lemma WorkerKeepsStops(s: State, w: nat, notified: bool)
    requires Locks(s) && Stops(s) && w < |s.workers| && WaitsFor(s, W(w)).None?
    ensures Stops(WorkerStep(s, w, notified))
  {
    var s' := WorkerStep(s, w, notified);
    forall c | 0 <= c < |s'.clients| ensures StopProgress(s', s'.clients[c]) {
      if Stopping(s.clients[c]) {
        RetiringIsOnTheWay(s, w);
        WorkerMoveUnderStop(s.sh, w, s.workers[w], notified);
        WorkerStatus(s.sh, w, s.workers[w], notified);
        forall v | 0 <= v < |s'.workers| ensures !Retiring(s', v) {
          RetiringIsOnTheWay(s', v);
          RetiringIsOnTheWay(s, v);
          assert OwnW(s.sh, v, s.workers[v]) && OwnW(s.sh, w, s.workers[w]);
        }
      }
    }
  }

  lemma WorkerStatus(s: Shared, w: nat, pc: Worker, notified: bool)
    ensures var (s', pc') := WorkerMove(s, w, pc, notified);
            s'.status == s.status && s'.clock == s.clock && (pc == Exited ==> pc' == Exited)
  {
  }

  lemma WorkerPlainKeepsEntries(s: State, w: nat, notified: bool)
    requires Entries(s) && w < |s.workers| && WaitsFor(s, W(w)).None?
    requires WorkerStep(s, w, notified).sh.threads == s.sh.threads
    ensures var s' := WorkerStep(s, w, notified);
            Ids(s') && Covered(s') && Walks(s')
  {
    var s' := WorkerStep(s, w, notified);
    assert WalkOk(s.sh, w, s.workers[w]);
    WorkerMoveEntries(s.sh, w, s.workers[w], notified);
    WorkerMovePast(s.sh, w, s.workers[w], notified);
    forall v | 0 <= v < |s'.workers| ensures WalkOk(s'.sh, v, s'.workers[v]) {
      assert WalkOk(s.sh, v, s.workers[v]);
    }
    KeepsCovered(s, s');
  }

  // ---------- delThread marks and erases ----------

  lemma OnlyWalker(s: State, w: nat, v: nat)
    requires Locks(s) && w < |s.workers| && v < |s.workers| && v != w && HoldsThreadW(s.workers[w])
    ensures !HoldsThreadW(s.workers[v])
  {
    assert OwnW(s.sh, w, s.workers[w]) && OwnW(s.sh, v, s.workers[v]);
  }

  /** s' is s with entry i, that of worker w, marked STOP, and w one entry further. */
  ghost predicate Marked(s: State, s': State, w: nat, i: nat) {
    && w < |s.workers| && i < |s.sh.threads| && s.workers[w].Scan? && s.workers[w].i == i && s.sh.threads[i].id == w
    && s'.clients == s.clients && s'.sh.clock == s.sh.clock
    && s'.workers == s.workers[w := Scan(i + 1, s.workers[w].now)]
    && s'.sh.threads == s.sh.threads[i := Entry(w, true, s.sh.clock)]
  }

  lemma MarkedWalks(s: State, s': State, w: nat, i: nat)
    requires Locks(s) && Ids(s) && Walks(s) && Marked(s, s', w, i)
    ensures Walks(s')
  {
    assert WalkOk(s.sh, w, s.workers[w]);
    forall v | 0 <= v < |s'.workers| ensures WalkOk(s'.sh, v, s'.workers[v]) {
      assert WalkOk(s.sh, v, s.workers[v]);
      if v != w {
        OnlyWalker(s, w, v);
      }
    }
  }

  lemma MarkKeepsEntries(s: State, w: nat, notified: bool)
    requires Entries(s) && w < |s.workers| && s.workers[w].Scan?
    requires var i := s.workers[w].i; i < |s.sh.threads| && s.sh.threads[i].id == w
    requires WorkerStep(s, w, notified).workers[w] == Scan(s.workers[w].i + 1, s.workers[w].now)
    requires WorkerStep(s, w, notified).sh.threads != s.sh.threads
    ensures var s' := WorkerStep(s, w, notified);
            Ids(s') && Covered(s') && Walks(s')
  {
    var s' := WorkerStep(s, w, notified);
    MarkedWalks(s, s', w, s.workers[w].i);
    SameListed(s.sh.threads, s'.sh.threads);
    KeepsCovered(s, s');
  }

  lemma SameListed(a: seq<Entry>, b: seq<Entry>)
    requires |a| == |b| && forall j :: 0 <= j < |a| ==> a[j].id == b[j].id
    ensures forall w :: Listed(a, w) <==> Listed(b, w)
  {
  }

  /** b is a without entry i. */
  ghost predicate Without(a: seq<Entry>, b: seq<Entry>, i: nat) {
    && i < |a| && |b| == |a| - 1
    && (forall j {:trigger b[j]} :: 0 <= j < |b| ==> b[j] == a[if j < i then j else j + 1])
    && (forall j {:trigger a[j]} :: 0 <= j < |a| && j != i ==> a[j] == b[if j < i then j else j - 1])
  }

  lemma EraseKeepsIds(s: State, s': State, i: nat)
    requires Ids(s) && Without(s.sh.threads, s'.sh.threads, i)
    requires |s'.workers| == |s.workers| && s'.clients == s.clients
    ensures Ids(s')
  {
    ErasedListed(s.sh.threads, s'.sh.threads, i);
  }

  lemma EraseKeepsWalks(s: State, s': State, w: nat)
    requires Locks(s) && Walks(s) && w < |s.workers| && s.workers[w].Join? && s'.sh.clock == s.sh.clock
    requires s'.workers == s.workers[w := Scan(s.workers[w].i, s.workers[w].now)]
    requires Without(s.sh.threads, s'.sh.threads, s.workers[w].i)
    ensures Walks(s')
  {
    assert WalkOk(s.sh, w, s.workers[w]);
    forall v | 0 <= v < |s'.workers| ensures WalkOk(s'.sh, v, s'.workers[v]) {
      assert WalkOk(s.sh, v, s.workers[v]);
      if v != w {
        OnlyWalker(s, w, v);
      }
    }
  }

  lemma EraseKeepsCovered(s: State, s': State, w: nat, i: nat)
    requires Covered(s) && w < |s.workers| && s.workers[w] != Exited
    requires |s'.workers| == |s.workers| && s'.workers == s.workers[w := s'.workers[w]] && s'.clients == s.clients
    requires Without(s.sh.threads, s'.sh.threads, i)
    requires s.sh.threads[i].id < |s.workers| && s.workers[s.sh.threads[i].id] == Exited
    ensures Covered(s')
  {
    ErasedListed(s.sh.threads, s'.sh.threads, i);
    forall v | 0 <= v < |s'.workers| && s'.workers[v] != Exited
      ensures Listed(s'.sh.threads, v) || exists c :: 0 <= c < |s'.clients| && Adding(s'.clients[c]) == Some(v)
    {
      assert s.workers[v] != Exited && v != s.sh.threads[i].id;
    }
  }

  lemma SliceWithout(a: seq<Entry>, i: nat)
    requires i < |a|
    ensures Without(a, a[..i] + a[i + 1..], i)
  {
    var b := a[..i] + a[i + 1..];
    assert forall j {:trigger b[j]} :: 0 <= j < |b| ==> b[j] == a[if j < i then j else j + 1];
    forall j | 0 <= j < |a| && j != i ensures a[j] == b[if j < i then j else j - 1] {
      if j < i {
        assert b[j] == a[j];
      } else {
        assert b[j - 1] == a[i + 1..][j - 1 - i];
      }
    }
  }

  lemma EraseKeepsEntries(s: State, w: nat, notified: bool)
    requires Entries(s) && w < |s.workers| && s.workers[w].Join? && WaitsFor(s, W(w)).None?
    ensures var s' := WorkerStep(s, w, notified);
            Ids(s') && Covered(s') && Walks(s')
  {
    var s' := WorkerStep(s, w, notified);
    var i := s.workers[w].i;
    assert WalkOk(s.sh, w, s.workers[w]);
    SliceWithout(s.sh.threads, i);
    EraseKeepsIds(s, s', i);
    EraseKeepsWalks(s, s', w);
    EraseKeepsCovered(s, s', w, i);
  }

  lemma ErasedListed(a: seq<Entry>, b: seq<Entry>, i: nat)
    requires Without(a, b, i)
    ensures forall w :: Listed(b, w) ==> Listed(a, w)
    ensures forall w :: Listed(a, w) && w != a[i].id ==> Listed(b, w)
  {
    forall w | Listed(b, w) ensures Listed(a, w) {
      var j :| 0 <= j < |b| && b[j].id == w;
      assert a[if j < i then j else j + 1].id == w;
    }
    forall w | Listed(a, w) && w != a[i].id ensures Listed(b, w) {
      var j :| 0 <= j < |a| && a[j].id == w;
      assert b[if j < i then j else j - 1].id == w;
    }
  }

  lemma WorkerKeepsEntries(s: State, w: nat, notified: bool)
    requires Entries(s) && w < |s.workers| && WaitsFor(s, W(w)).None?
    ensures Entries(WorkerStep(s, w, notified))
  {
    StepKeepsLocks(s, Work(w, notified));
    StepKeepsStopAlone(s, Work(w, notified));
    WorkerKeepsStops(s, w, notified);
    var s' := WorkerStep(s, w, notified);
    assert WalkOk(s.sh, w, s.workers[w]);
    if s'.sh.threads == s.sh.threads {
      WorkerPlainKeepsEntries(s, w, notified);
    } else if s.workers[w].Join? {
      EraseKeepsEntries(s, w, notified);
    } else {
      WorkerMoveEntries(s.sh, w, s.workers[w], notified);
      MarkKeepsEntries(s, w, notified);
    }
  }

  // ---------- Steps of a client ----------

  lemma ClientMoveEntries(s: Shared, c: nat, pc: Client, op: Op, next: nat)
    ensures var (s', pc') := ClientMove(s, c, pc, op, next);
            && s'.clock == s.clock
            && (s'.threads == s.threads || pc.Emplace? || pc.StopClear?)
            && (Adding(pc') == Adding(pc) || pc.Launch? || pc.Emplace?)
            && (pc.Emplace? ==> Adding(pc').None?)
  {
  }

  lemma ClientMoveAside(s: Shared, c: nat, pc: Client, op: Op, next: nat)
    ensures var (s', pc') := ClientMove(s, c, pc, op, next);
            && (Quiet(pc) ==> s' == s)
            && (Stopping(pc') ==> Stopping(pc) || pc.StopSet?)
  {
  }

  lemma ClientPlainKeepsEntries(s: State, c: nat, op: Op)
    requires Entries(s) && c < |s.clients| && WaitsFor(s, C(c)).None?
    requires !s.clients[c].Launch? && !s.clients[c].Emplace? && !s.clients[c].StopClear?
    ensures var s' := ClientStep(s, c, op);
            Ids(s') && Covered(s') && Walks(s')
  {
    var s' := ClientStep(s, c, op);
    ClientMoveEntries(s.sh, c, s.clients[c], op, |s.workers|);
    assert forall d :: 0 <= d < |s.clients| ==> Adding(s'.clients[d]) == Adding(s.clients[d]);
    forall v | 0 <= v < |s'.workers| ensures WalkOk(s'.sh, v, s'.workers[v]) {
      assert WalkOk(s.sh, v, s.workers[v]);
    }
    KeepsCovered(s, s');
  }

  lemma LaunchKeepsEntries(s: State, c: nat, op: Op)
    requires Entries(s) && c < |s.clients| && s.clients[c].Launch?
    ensures var s' := ClientStep(s, c, op);
            Ids(s') && Covered(s') && Walks(s')
  {
    var s' := ClientStep(s, c, op);
    var next := |s.workers|;
    assert Adding(s'.clients[c]) == Some(next);
    assert !Listed(s.sh.threads, next);
    forall v | 0 <= v < |s'.workers| ensures WalkOk(s'.sh, v, s'.workers[v]) {
      if v < next {
        assert WalkOk(s.sh, v, s.workers[v]);
      }
    }
    assert Accounted(s', next);
    KeepsCovered(s, s');
  }

  lemma AppendListed(a: seq<Entry>, e: Entry)
    ensures forall w :: Listed(a + [e], w) <==> Listed(a, w) || w == e.id
  {
    forall w | Listed(a, w) || w == e.id ensures Listed(a + [e], w) {
      if Listed(a, w) {
        var j :| 0 <= j < |a| && a[j].id == w;
        assert (a + [e])[j].id == w;
      } else {
        assert (a + [e])[|a|].id == w;
      }
    }
  }

  /** s' is s with worker id on the list, its client past adding it. */
  ghost predicate Emplaced(s: State, s': State, c: nat, id: nat) {
    && c < |s.clients| && Adding(s.clients[c]) == Some(id)
    && s'.workers == s.workers && |s'.clients| == |s.clients| && s'.sh.clock == s.sh.clock
    && s'.sh.threads == s.sh.threads + [Entry(id, false, 0)]
    && (forall d :: 0 <= d < |s.clients| ==>
          Adding(s'.clients[d]) == if d == c then None else Adding(s.clients[d]))
  }

  lemma EmplacedIds(s: State, s': State, c: nat, id: nat)
    requires Ids(s) && Emplaced(s, s', c, id)
    ensures Ids(s')
  {
    AppendListed(s.sh.threads, Entry(id, false, 0));
    forall j | 0 <= j < |s.sh.threads| ensures s.sh.threads[j].id != id {
      assert Listed(s.sh.threads, s.sh.threads[j].id);
    }
  }

  lemma EmplacedWalks(s: State, s': State, c: nat, id: nat)
    requires Walks(s) && Emplaced(s, s', c, id)
    ensures Walks(s')
  {
    forall v | 0 <= v < |s'.workers| ensures WalkOk(s'.sh, v, s'.workers[v]) {
      assert WalkOk(s.sh, v, s.workers[v]);
    }
  }

  lemma EmplaceKeepsEntries(s: State, c: nat, op: Op)
    requires Entries(s) && c < |s.clients| && s.clients[c].Emplace?
    ensures var s' := ClientStep(s, c, op);
            Ids(s') && Covered(s') && Walks(s')
  {
    var s', id := ClientStep(s, c, op), s.clients[c].id;
    EmplacedIds(s, s', c, id);
    EmplacedWalks(s, s', c, id);
    AppendListed(s.sh.threads, Entry(id, false, 0));
    KeepsCovered(s, s');
  }

  lemma StopClearKeepsEntries(s: State, c: nat, op: Op)
    requires Entries(s) && c < |s.clients| && s.clients[c].StopClear?
    ensures var s' := ClientStep(s, c, op);
            Ids(s') && Covered(s') && Walks(s')
  {
    var s' := ClientStep(s, c, op);
    assert StopProgress(s, s.clients[c]);
    assert forall d :: 0 <= d < |s.clients| && d != c ==> Quiet(s.clients[d]);
    assert forall d :: 0 <= d < |s'.clients| ==> Adding(s'.clients[d]).None?;
  }

  /** When stop() has walked the whole list, no worker is left. */
  lemma JoinedAll(s: State, c: nat)
    requires Ids(s) && Covered(s) && StopAlone(s) && c < |s.clients|
    requires s.clients[c].StopJoin? && StopProgress(s, s.clients[c]) && s.clients[c].i == |s.sh.threads|
    ensures AllExited(s)
  {
    assert forall d :: 0 <= d < |s.clients| ==> d == c || Quiet(s.clients[d]);
    assert forall d :: 0 <= d < |s.clients| ==> Adding(s.clients[d]).None?;
  }

  lemma ClientKeepsStops(s: State, c: nat, op: Op)
    requires Entries(s) && c < |s.clients| && WaitsFor(s, C(c)).None? && Allowed(s, c, op)
    ensures Stops(ClientStep(s, c, op))
  {
    var s' := ClientStep(s, c, op);
    var pc := s.clients[c];
    ClientMoveAside(s.sh, c, pc, op, |s.workers|);
    if pc.StopJoin? && pc.i == |s.sh.threads| {
      JoinedAll(s, c);
    }
    forall d | 0 <= d < |s'.clients| ensures StopProgress(s', s'.clients[d]) {
      assert StopProgress(s, s.clients[d]);
      if d != c {
        if Stopping(s.clients[d]) {
          assert Quiet(pc);
          assert s'.sh == s.sh && s'.workers == s.workers;
          assert forall w :: 0 <= w < |s.workers| ==> (Retiring(s', w) <==> Retiring(s, w));
        }
      } else {
        StoppingClientProgresses(s, c, op);
      }
    }
  }

  lemma StoppingClientProgresses(s: State, c: nat, op: Op)
    requires Ids(s) && c < |s.clients| && WaitsFor(s, C(c)).None? && Allowed(s, c, op)
    requires StopProgress(s, s.clients[c])
    requires s.clients[c].StopJoin? && s.clients[c].i == |s.sh.threads| ==> AllExited(s)
    ensures StopProgress(ClientStep(s, c, op), ClientStep(s, c, op).clients[c])
  {
    var s', pc := ClientStep(s, c, op), s.clients[c];
    ClientMoveAside(s.sh, c, pc, op, |s.workers|);
    if pc.StopSet? || Stopping(pc) {
      assert s'.workers == s.workers && s'.sh.tasks == s.sh.tasks;
      assert forall w :: 0 <= w < |s.workers| ==> (Retiring(s', w) <==> Retiring(s, w));
    }
  }

  lemma StepKeepsEntries(s: State, a: Label)
    requires Entries(s) && Enabled(s, a)
    ensures Entries(Step(s, a))
  {
    match a
    case Work(w, notified) => WorkerKeepsEntries(s, w, notified);
    case Act(c, op) =>
      StepKeepsLocks(s, a);
      StepKeepsStopAlone(s, a);
      ClientKeepsStops(s, c, op);
      if s.clients[c].Launch? {
        LaunchKeepsEntries(s, c, op);
      } else if s.clients[c].Emplace? {
        EmplaceKeepsEntries(s, c, op);
      } else if s.clients[c].StopClear? {
        StopClearKeepsEntries(s, c, op);
      } else {
        ClientPlainKeepsEntries(s, c, op);
      }
    case Tick => TickKeepsEntries(s);
  }

  lemma TickKeepsEntries(s: State)
    requires Entries(s)
    ensures Entries(Step(s, Tick))
  {
    var s' := Step(s, Tick);
    assert Locks(s') && StopAlone(s') && Ids(s') && Covered(s');
    forall v | 0 <= v < |s'.workers| ensures WalkOk(s'.sh, v, s'.workers[v]) {
      assert WalkOk(s.sh, v, s.workers[v]);
    }
    forall d | 0 <= d < |s'.clients| ensures StopProgress(s', s'.clients[d]) {
      assert StopProgress(s, s.clients[d]);
      assert forall w :: 0 <= w < |s.workers| ==> (Retiring(s', w) <==> Retiring(s, w));
    }
  }

  lemma FreshEntries(n: nat, min: nat, max: nat)
    ensures Entries(Fresh(n, min, max))
  {
  }

  // ---------- Join safety ----------

  /**
    When delThread is about to join an entry, holding both mutexes, that worker has released every
    lock and is on its last line or gone.
   */
  lemma JoinIsSafe(s: State, w: nat)
    requires Entries(s) && w < |s.workers| && s.workers[w].Join?
    ensures s.sh.taskMutex == Some(W(w)) && s.sh.threadMutex == Some(W(w))
    ensures s.workers[w].i < |s.sh.threads|
    ensures var t := s.sh.threads[s.workers[w].i].id;
            t != w && t < |s.workers| && (s.workers[t].Leaving? || s.workers[t].Exited?)
  {
    assert WalkOk(s.sh, w, s.workers[w]) && OwnW(s.sh, w, s.workers[w]);
    var t := s.sh.threads[s.workers[w].i].id;
    assert WalkOk(s.sh, t, s.workers[t]) && OwnW(s.sh, t, s.workers[t]);
  }
}
