/** Building concrete runs of `HThreadPool`: several turns of one actor, evaluated on its own state. */
module ThreadPoolRuns {
  import opened Wrappers
  import opened ThreadPool
  import opened ThreadPoolTheorems

  /** Some schedule that obeys the rule leads to s. */
  ghost predicate Reachable(rule: Rule, n: nat, min: nat, max: nat, s: State) {
    exists schedule :: Obeys(rule, n, min, max, schedule) && StateAfter(n, min, max, schedule) == s
  }

  lemma FreshIsReachable(rule: Rule, n: nat, min: nat, max: nat)
    ensures Reachable(rule, n, min, max, Fresh(n, min, max))
  {
    assert Obeys(rule, n, min, max, []) && StateAfter(n, min, max, []) == Fresh(n, min, max);
  }

  /** One more step of a run. */
  lemma Next(rule: Rule, n: nat, min: nat, max: nat, s: State, a: Label) returns (s': State)
    requires Reachable(rule, n, min, max, s) && Enabled(s, a) && (IsChoice(s, a) ==> rule(s, a.c, a.op))
    ensures Reachable(rule, n, min, max, s') && s' == Step(s, a)
  {
    var schedule :| Obeys(rule, n, min, max, schedule) && StateAfter(n, min, max, schedule) == s;
    s' := Step(s, a);
    assert (schedule + [a])[..|schedule|] == schedule;
    assert StateAfter(n, min, max, schedule + [a]) == s';
    assert Obeys(rule, n, min, max, schedule + [a]);
  }

  function Up(i: nat): nat {
    i + 1
  }

  /** Induction over the numbers up to n, with p kept abstract. */
  lemma {:induction false} Climb(p: nat -> bool, n: nat)
    requires p(0) && forall i: nat {:trigger Up(i)} :: i < n && p(i) ==> p(Up(i))
    ensures p(n)
  {
    if n > 0 {
      Climb(p, n - 1);
      assert p(Up(n - 1));
    }
  }

  // ---------- Several turns of one actor ----------

  predicate ClientReady(sh: Shared, pc: Client) {
    && (pc.WantTaskC? ==> sh.taskMutex.None?) && (pc.WantThreadC? ==> sh.threadMutex.None?)
    && !InStop(pc) && !pc.Idle? && !pc.WaitTasks? && !pc.Launch?
  }

  /** k moves of client c inside a call. */
  function ClientTurns(sh: Shared, c: nat, pc: Client, k: nat): Option<(Shared, Client)>
    decreases k
  {
    if k == 0 then Some((sh, pc))
    else if !ClientReady(sh, pc) then None
    else
      var (sh', pc') := ClientMove(sh, c, pc, Wait(false), 0);
      ClientTurns(sh', c, pc', k - 1)
  }

  predicate WorkerReady(sh: Shared, pc: Worker) {
    && (pc.WantTask? || pc.WakeUp? ==> sh.taskMutex.None?) && (pc.WantThread? ==> sh.threadMutex.None?) && !pc.Join?
  }

  /** k moves of worker w. */
  function WorkerTurns(sh: Shared, w: nat, pc: Worker, notified: bool, k: nat): Option<(Shared, Worker)>
    decreases k
  {
    if k == 0 then Some((sh, pc))
    else if !WorkerReady(sh, pc) then None
    else
      var (sh', pc') := WorkerMove(sh, w, pc, notified);
      WorkerTurns(sh', w, pc', notified, k - 1)
  }

  /** The whole state after k moves of client c. */
  function ClientAfter(s: State, c: nat, k: nat): State
    requires c < |s.clients| && ClientTurns(s.sh, c, s.clients[c], k).Some?
  {
    var (sh, pc) := ClientTurns(s.sh, c, s.clients[c], k).value;
    State(sh, s.workers, s.clients[c := pc])
  }

  function ClientMoved(s: State, c: nat): State
    requires c < |s.clients|
  {
    var (sh, pc) := ClientMove(s.sh, c, s.clients[c], Wait(false), 0);
    State(sh, s.workers, s.clients[c := pc])
  }

  lemma ClientStepIs(s: State, c: nat)
    requires c < |s.clients| && ClientReady(s.sh, s.clients[c])
    ensures Enabled(s, Act(c, Wait(false))) && Step(s, Act(c, Wait(false))) == ClientMoved(s, c)
  {
  }

  lemma ClientFirst(s: State, c: nat, k: nat)
    requires c < |s.clients| && k > 0 && ClientTurns(s.sh, c, s.clients[c], k).Some?
    ensures ClientReady(s.sh, s.clients[c])
    ensures var s1 := ClientMoved(s, c);
            ClientTurns(s1.sh, c, s1.clients[c], k - 1).Some? && ClientAfter(s1, c, k - 1) == ClientAfter(s, c, k)
  {
  }

  lemma ClientTakesOne(rule: Rule, n: nat, min: nat, max: nat, s: State, c: nat)
    requires Reachable(rule, n, min, max, s) && c < |s.clients| && ClientReady(s.sh, s.clients[c])
    ensures Reachable(rule, n, min, max, ClientMoved(s, c))
  {
    ClientStepIs(s, c);
    var s' := Next(rule, n, min, max, s, Act(c, Wait(false)));
  }

  lemma {:induction false} ClientAfterHolds(p: State -> bool, s: State, c: nat, k: nat)
    requires forall t: State {:trigger ClientMoved(t, c)} ::
               p(t) && c < |t.clients| && ClientReady(t.sh, t.clients[c]) ==> p(ClientMoved(t, c))
    requires p(s) && c < |s.clients| && ClientTurns(s.sh, c, s.clients[c], k).Some?
    ensures p(ClientAfter(s, c, k))
    decreases k
  {
    if k > 0 {
      ClientFirst(s, c, k);
      ClientAfterHolds(p, ClientMoved(s, c), c, k - 1);
    } else {
      assert ClientAfter(s, c, 0) == s;
    }
  }

  lemma ClientTakes(rule: Rule, n: nat, min: nat, max: nat, s: State, c: nat, k: nat) returns (s': State)
    requires Reachable(rule, n, min, max, s) && c < |s.clients|
    requires ClientTurns(s.sh, c, s.clients[c], k).Some?
    ensures Reachable(rule, n, min, max, s') && s' == ClientAfter(s, c, k)
  {
    forall t: State | Reachable(rule, n, min, max, t) && c < |t.clients| && ClientReady(t.sh, t.clients[c])
      ensures Reachable(rule, n, min, max, ClientMoved(t, c))
    {
      ClientTakesOne(rule, n, min, max, t, c);
    }
    ClientAfterHolds((t: State) => Reachable(rule, n, min, max, t), s, c, k);
    s' := ClientAfter(s, c, k);
  }

  /** The whole state after k moves of worker w. */
  function WorkerAfter(s: State, w: nat, notified: bool, k: nat): State
    requires w < |s.workers| && WorkerTurns(s.sh, w, s.workers[w], notified, k).Some?
  {
    var (sh, pc) := WorkerTurns(s.sh, w, s.workers[w], notified, k).value;
    State(sh, s.workers[w := pc], s.clients)
  }

  function WorkerMoved(s: State, w: nat, notified: bool): State
    requires w < |s.workers|
  {
    var (sh, pc) := WorkerMove(s.sh, w, s.workers[w], notified);
    State(sh, s.workers[w := pc], s.clients)
  }

  lemma WorkerStepIs(s: State, w: nat, notified: bool)
    requires w < |s.workers| && WorkerReady(s.sh, s.workers[w])
    ensures Enabled(s, Work(w, notified)) && Step(s, Work(w, notified)) == WorkerMoved(s, w, notified)
  {
  }

  lemma WorkerFirst(s: State, w: nat, notified: bool, k: nat)
    requires w < |s.workers| && k > 0 && WorkerTurns(s.sh, w, s.workers[w], notified, k).Some?
    ensures WorkerReady(s.sh, s.workers[w])
    ensures var s1 := WorkerMoved(s, w, notified);
            && WorkerTurns(s1.sh, w, s1.workers[w], notified, k - 1).Some?
            && WorkerAfter(s1, w, notified, k - 1) == WorkerAfter(s, w, notified, k)
  {
  }

  lemma WorkerTakesOne(rule: Rule, n: nat, min: nat, max: nat, s: State, w: nat, notified: bool)
    requires Reachable(rule, n, min, max, s) && w < |s.workers| && WorkerReady(s.sh, s.workers[w])
    ensures Reachable(rule, n, min, max, WorkerMoved(s, w, notified))
  {
    WorkerStepIs(s, w, notified);
    var s' := Next(rule, n, min, max, s, Work(w, notified));
  }

  lemma {:induction false} WorkerAfterHolds(p: State -> bool, s: State, w: nat, notified: bool, k: nat)
    requires forall t: State {:trigger WorkerMoved(t, w, notified)} ::
               p(t) && w < |t.workers| && WorkerReady(t.sh, t.workers[w]) ==> p(WorkerMoved(t, w, notified))
    requires p(s) && w < |s.workers| && WorkerTurns(s.sh, w, s.workers[w], notified, k).Some?
    ensures p(WorkerAfter(s, w, notified, k))
    decreases k
  {
    if k > 0 {
      WorkerFirst(s, w, notified, k);
      WorkerAfterHolds(p, WorkerMoved(s, w, notified), w, notified, k - 1);
    } else {
      assert WorkerAfter(s, w, notified, 0) == s;
    }
  }

  lemma WorkerTakes(rule: Rule, n: nat, min: nat, max: nat, s: State, w: nat, notified: bool, k: nat)
    returns (s': State)
    requires Reachable(rule, n, min, max, s) && w < |s.workers|
    requires WorkerTurns(s.sh, w, s.workers[w], notified, k).Some?
    ensures Reachable(rule, n, min, max, s') && s' == WorkerAfter(s, w, notified, k)
  {
    forall t: State | Reachable(rule, n, min, max, t) && w < |t.workers| && WorkerReady(t.sh, t.workers[w])
      ensures Reachable(rule, n, min, max, WorkerMoved(t, w, notified))
    {
      WorkerTakesOne(rule, n, min, max, t, w, notified);
    }
    WorkerAfterHolds((t: State) => Reachable(rule, n, min, max, t), s, w, notified, k);
    s' := WorkerAfter(s, w, notified, k);
  }

  // ---------- createThread ----------

  lemma CheckTurns(sh: Shared, c: nat, i: nat, n: nat)
    requires i < n && sh.cur < sh.max
    ensures ClientTurns(sh, c, StartLoop(i, n, ThenReturn), 2) == Some((sh, Launch(InStart(i, n, ThenReturn))))
  {
    var k := InStart(i, n, ThenReturn);
    assert ClientTurns(sh, c, CreateCheck(k), 1) == Some((sh, Launch(k)));
  }

  lemma CountTurns(sh: Shared, c: nat, id: nat, k: Cont)
    requires sh.threadMutex.None?
    ensures ClientTurns(sh, c, WantThreadC(id, k), 3)
         == Some((sh.(threadMutex := Some(C(c)), cur := sh.cur + 1, idle := sh.idle + 1), Emplace(id, k)))
  {
    var locked := sh.(threadMutex := Some(C(c)));
    var counted := locked.(cur := sh.cur + 1, idle := sh.idle + 1);
    assert ClientTurns(locked.(cur := sh.cur + 1), c, AddIdle(id, k), 1) == Some((counted, Emplace(id, k)));
    assert ClientTurns(locked, c, AddCur(id, k), 2) == Some((counted, Emplace(id, k)));
  }

  lemma ListTurns(sh: Shared, c: nat, id: nat, k: Cont)
    ensures ClientTurns(sh, c, Emplace(id, k), 2)
         == Some((sh.(threads := sh.threads + [Entry(id, false, 0)], threadMutex := None), AfterCreate(k)))
  {
    var listed := sh.(threads := sh.threads + [Entry(id, false, 0)]);
    assert ClientTurns(listed, c, UnlockThreadC(k), 1) == Some((listed.(threadMutex := None), AfterCreate(k)));
  }

  lemma LaunchIs(s: State, c: nat)
    requires c < |s.clients| && s.clients[c].Launch?
    ensures Enabled(s, Act(c, Wait(false)))
    ensures Step(s, Act(c, Wait(false)))
         == State(s.sh, s.workers + [Top], s.clients[c := WantThreadC(|s.workers|, s.clients[c].k)])
  {
  }

  /** createThread past its check: one more worker, and all counters say so. */
  lemma CreateOne(rule: Rule, n: nat, min: nat, max: nat, s: State, c: nat, k: Cont) returns (s': State)
    requires Reachable(rule, n, min, max, s) && c < |s.clients|
    requires s.clients[c] == Launch(k) && s.sh.threadMutex.None?
    ensures Reachable(rule, n, min, max, s')
    ensures s'.workers == s.workers + [Top] && s'.clients == s.clients[c := AfterCreate(k)]
    ensures s'.sh == s.sh.(cur := s.sh.cur + 1, idle := s.sh.idle + 1, threads := s'.sh.threads)
  {
    var id := |s.workers|;
    LaunchIs(s, c);
    s' := Next(rule, n, min, max, s, Act(c, Wait(false)));
    CountTurns(s'.sh, c, id, k);
    s' := ClientTakes(rule, n, min, max, s', c, 3);
    ListTurns(s'.sh, c, id, k);
    s' := ClientTakes(rule, n, min, max, s', c, 2);
  }
}
