/**
  `HThreadPool` with m clients that all call `start` before any of them has set the status: they
  overshoot the maximum by m - 1 threads, which is as far as m clients can get.
 */
module ThreadPoolCrowd {
  import opened Wrappers
  import opened ThreadPool
  import opened ThreadPoolTheorems
  import opened ThreadPoolBounds
  import opened ThreadPoolRuns

  /** A state on the way: m of n clients take part. */
  ghost predicate There(m: nat, n: nat, min: nat, max: nat, s: State) {
    && m <= n && Reachable(FirstOnly(m), n, min, max, s)
    && |s.clients| == n && s.sh.min == min && s.sh.max == max && s.sh.threadMutex.None?
  }

  /** k moves of client c inside a call. */
  lemma Moves(m: nat, n: nat, min: nat, max: nat, s: State, c: nat, k: nat, sh: Shared, pc: Client) returns (s': State)
    requires There(m, n, min, max, s) && c < n && ClientTurns(s.sh, c, s.clients[c], k) == Some((sh, pc))
    requires sh.min == min && sh.max == max && sh.threadMutex.None?
    ensures There(m, n, min, max, s') && s' == State(sh, s.workers, s.clients[c := pc])
  {
    s' := ClientTakes(FirstOnly(m), n, min, max, s, c, k);
  }

  // ---------- Everybody finds the pool stopped ----------

  /** Clients from..to are all at pc. */
  predicate At(s: State, from: nat, to: nat, pc: Client) {
    to <= |s.clients| && forall c :: from <= c < to ==> s.clients[c] == pc
  }

  /** An idle client calls start(max) while nobody is in stop(). */
  lemma CallStart(m: nat, n: nat, min: nat, max: nat, s: State, j: nat) returns (s': State)
    requires There(m, n, min, max, s) && j < m && s.clients[j] == Idle
    requires forall c :: 0 <= c < n ==> !InStop(s.clients[c])
    ensures There(m, n, min, max, s')
    ensures s' == State(s.sh, s.workers, s.clients[j := StartStatus(max, ThenReturn)])
  {
    var call := Act(j, Start(max));
    assert Enabled(s, call);
    s' := Next(FirstOnly(m), n, min, max, s, call);
  }

  lemma PassTurn(sh: Shared, c: nat)
    requires sh.status == STOP
    ensures ClientTurns(sh, c, StartStatus(sh.max, ThenReturn), 1) == Some((sh, StartSet(sh.max, ThenReturn)))
  {
  }

  lemma PassOne(m: nat, n: nat, min: nat, max: nat, s: State, j: nat) returns (s': State)
    requires There(m, n, min, max, s) && j < m && s.sh.status == STOP && s.clients[j] == Idle
    requires forall c :: 0 <= c < n ==> !InStop(s.clients[c])
    ensures There(m, n, min, max, s') && s' == State(s.sh, s.workers, s.clients[j := StartSet(max, ThenReturn)])
  {
    s' := CallStart(m, n, min, max, s, j);
    PassTurn(s.sh, j);
    s' := Moves(m, n, min, max, s', j, 1, s.sh, StartSet(max, ThenReturn));
    assert s'.clients == s.clients[j := StartSet(max, ThenReturn)];
  }

  lemma {:induction false} AllPass(m: nat, n: nat, min: nat, max: nat, j: nat) returns (s: State)
    requires j <= m <= n
    ensures There(m, n, min, max, s) && s.sh == Fresh(n, min, max).sh
    ensures At(s, 0, j, StartSet(max, ThenReturn)) && At(s, j, n, Idle)
    decreases j
  {
    if j == 0 {
      FreshIsReachable(FirstOnly(m), n, min, max);
      s := Fresh(n, min, max);
    } else {
      s := AllPass(m, n, min, max, j - 1);
      forall c | 0 <= c < n ensures !InStop(s.clients[c]) {
        assert s.clients[c] == StartSet(max, ThenReturn) || s.clients[c] == Idle;
      }
      s := PassOne(m, n, min, max, s, j - 1);
    }
  }

  // ---------- The first one fills the pool but for one thread ----------

  lemma SetTurns(sh: Shared, c: nat)
    ensures ClientTurns(sh, c, StartSet(sh.max, ThenReturn), 1)
         == Some((sh.(status := RUNNING), StartLoop(0, sh.max, ThenReturn)))
  {
  }

  /** The counter, which is all that matters here. */
  lemma AddOne(m: nat, n: nat, min: nat, max: nat, s: State, c: nat, k: Cont) returns (s': State)
    requires There(m, n, min, max, s) && c < n && s.clients[c] == Launch(k)
    ensures There(m, n, min, max, s') && s'.clients == s.clients[c := AfterCreate(k)]
    ensures s'.sh.cur == s.sh.cur + 1
  {
    s' := CreateOne(FirstOnly(m), n, min, max, s, c, k);
  }

  lemma {:induction false} FillUp(m: nat, n: nat, min: nat, max: nat, s: State, i: nat) returns (s': State)
    requires There(m, n, min, max, s) && 0 < n && i < max
    requires s.clients[0] == StartLoop(i, max, ThenReturn) && s.sh.cur == i
    ensures There(m, n, min, max, s') && s'.sh.cur == max - 1
    ensures s'.clients == s.clients[0 := Launch(InStart(max - 1, max, ThenReturn))]
    decreases max - i
  {
    CheckTurns(s.sh, 0, i, max);
    s' := Moves(m, n, min, max, s, 0, 2, s.sh, Launch(InStart(i, max, ThenReturn)));
    if i + 1 < max {
      s' := AddOne(m, n, min, max, s', 0, InStart(i, max, ThenReturn));
      s' := FillUp(m, n, min, max, s', i + 1);
    }
  }

  lemma First(m: nat, n: nat, min: nat, max: nat) returns (s: State)
    requires 0 < m <= n && 0 < max
    ensures There(m, n, min, max, s) && s.sh.cur == max - 1 && s.clients[0].Launch?
    ensures At(s, 1, m, StartSet(max, ThenReturn))
  {
    s := AllPass(m, n, min, max, m);
    SetTurns(s.sh, 0);
    s := Moves(m, n, min, max, s, 0, 1, s.sh.(status := RUNNING), StartLoop(0, max, ThenReturn));
    s := FillUp(m, n, min, max, s, 0);
  }

  // ---------- The others are let in as well ----------

  ghost predicate AtLaunch(s: State, from: nat, to: nat) {
    to <= |s.clients| && forall c :: from <= c < to ==> s.clients[c].Launch?
  }

  lemma AdmitOne(m: nat, n: nat, min: nat, max: nat, s: State, c: nat) returns (s': State)
    requires There(m, n, min, max, s) && c < n && s.clients[c] == StartSet(max, ThenReturn) && s.sh.cur == max - 1 >= 0
    ensures There(m, n, min, max, s') && s'.sh.cur == max - 1
    ensures s'.clients == s.clients[c := Launch(InStart(0, max, ThenReturn))]
  {
    SetTurns(s.sh, c);
    var running := s.sh.(status := RUNNING);
    s' := Moves(m, n, min, max, s, c, 1, running, StartLoop(0, max, ThenReturn));
    CheckTurns(running, c, 0, max);
    s' := Moves(m, n, min, max, s', c, 2, running, Launch(InStart(0, max, ThenReturn)));
  }

  lemma {:induction false} AdmitAll(m: nat, n: nat, min: nat, max: nat, j: nat) returns (s: State)
    requires 0 < j <= m <= n && 0 < max
    ensures There(m, n, min, max, s) && s.sh.cur == max - 1
    ensures AtLaunch(s, 0, j) && At(s, j, m, StartSet(max, ThenReturn))
    decreases j
  {
    if j == 1 {
      s := First(m, n, min, max);
    } else {
      s := AdmitAll(m, n, min, max, j - 1);
      s := AdmitOne(m, n, min, max, s, j - 1);
    }
  }

  // ---------- And all of them add their thread ----------

  lemma {:induction false} AddAll(m: nat, n: nat, min: nat, max: nat, j: nat) returns (s: State)
    requires 0 < m <= n && j <= m && 0 < max
    ensures There(m, n, min, max, s) && s.sh.cur == max - 1 + j && AtLaunch(s, j, m)
    decreases j
  {
    if j == 0 {
      s := AdmitAll(m, n, min, max, m);
    } else {
      s := AddAll(m, n, min, max, j - 1);
      s := AddOne(m, n, min, max, s, j - 1, s.clients[j - 1].k);
    }
  }

  /** The bound of ThreadsNeverTooMany is reached, whatever the limits and however many clients there are. */
  lemma MostThreadsAreReached(n: nat, min: nat, max: nat, m: nat) returns (schedule: seq<Label>)
    requires m <= n
    ensures Obeys(FirstOnly(m), n, min, max, schedule)
    ensures StateAfter(n, min, max, schedule).sh.cur == MostThreads(m, max)
  {
    if m == 0 || max == 0 {
      schedule := [];
    } else {
      var s := AddAll(m, n, min, max, m);
      schedule :| Obeys(FirstOnly(m), n, min, max, schedule) && StateAfter(n, min, max, schedule) == s;
    }
  }

  /** The maximum itself is kept in every run exactly if at most one client ever commits or starts, or it is 0. */
  lemma MaximumIsKeptIffOneCommitter(n: nat, min: nat, max: nat, m: nat)
    requires m <= n
    ensures (forall schedule :: Obeys(FirstOnly(m), n, min, max, schedule) ==>
               StateAfter(n, min, max, schedule).sh.cur <= max)
              <==> m <= 1 || max == 0
  {
    if m <= 1 || max == 0 {
      forall schedule | Obeys(FirstOnly(m), n, min, max, schedule)
        ensures StateAfter(n, min, max, schedule).sh.cur <= max
      {
        ThreadsNeverTooMany(n, min, max, schedule, m);
      }
    } else {
      var schedule := MostThreadsAreReached(n, min, max, m);
      assert StateAfter(n, min, max, schedule).sh.cur > max;
    }
  }
}
