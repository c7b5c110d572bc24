/**
  `HObjectPool`: objects lent out and given back. `Pool` is what the mutex guards; the functions
  on it are the critical sections, and the class at the end is proved against them. The protocol
  in between interleaves those sections for any number of clients: `Borrow` drops the lock to
  create an object, with the slot already counted.
 */
module ObjectPool {
  import opened Wrappers
  import opened Counting

  type Obj = nat

  datatype Pool = Pool(idle: seq<Obj>, num: int, max: int)

  function Take(p: Pool): (Pool, Option<Obj>) {
    if p.idle == [] then (p, None) else (p.(idle := p.idle[1..]), Some(p.idle[0]))
  }

  function Reserve(p: Pool): (Pool, bool) {
    if p.num < p.max then (p.(num := p.num + 1), true) else (p, false)
  }

  function GiveBack(p: Pool, o: Obj): Pool {
    p.(idle := p.idle + [o])
  }

  function AddTo(p: Pool, o: Obj): (Pool, bool) {
    if p.num >= p.max then (p, false) else (Pool(p.idle + [o], p.num + 1, p.max), true)
  }

  function IndexOf(s: seq<Obj>, o: Obj): (i: nat)
    ensures i <= |s| && (i < |s| ==> s[i] == o) && o !in s[..i]
  {
    if s == [] || s[0] == o then 0
    else
      var i := IndexOf(s[1..], o);
      assert s[..i + 1] == [s[0]] + s[1..][..i];
      i + 1
  }

  function RemoveFrom(p: Pool, o: Obj): (Pool, bool) {
    var i := IndexOf(p.idle, o);
    if i == |p.idle| then (p, false)
    else (Pool(p.idle[..i] + p.idle[i + 1..], p.num - 1, p.max), true)
  }

  function Cleared(p: Pool): Pool {
    Pool([], 0, p.max)
  }

  // ---------- The protocol ----------

  datatype Stage =
    | Away         // in no call of the pool
    | Missed       // Borrow found nothing idle and is about to lock again
    | Creating     // Borrow counted a slot and runs the factory without the lock
    | Waiting      // Borrow waits on the condition variable

  datatype State = State(
    pool: Pool,
    timeout: int,
    stages: seq<Stage>,
    held: seq<set<Obj>>,   // what each client has borrowed and not returned
    outside: set<Obj>,     // objects removed or cleared from the pool
    next: Obj,             // objects from here on do not exist yet
    forgotten: nat)        // history: what was lent or being created at the last Clear

  datatype Label =
    | TryBorrow(c: nat)                  // the public call
    | Borrow(c: nat)                     // the first half of Borrow
    | Retry(c: nat)                      // Borrow under its own lock
    | Created(c: nat, ok: bool)          // the factory returned
    | Wake(c: nat, timedOut: bool)
    | Return(c: nat, o: Obj)
    | Add(c: nat, o: Obj)
    | Remove(c: nat, o: Obj)
    | Clear(c: nat)

  predicate Shaped(s: State) {
    |s.stages| == |s.held|
  }

  /** A client returns only what it holds and adds only what the pool does not have. */
  predicate Enabled(s: State, a: Label)
    requires Shaped(s)
  {
    a.c < |s.stages| &&
    match a
    case Retry(c) => s.stages[c] == Missed
    case Created(c, _) => s.stages[c] == Creating
    case Wake(c, _) => s.stages[c] == Waiting
    case Return(c, o) => s.stages[c] == Away && o in s.held[c]
    case Add(c, o) => s.stages[c] == Away && (o in s.outside || o == s.next)
    case _ => s.stages[a.c] == Away
  }

  /** A client leaves the pool with what it was given, if anything. */
  function Leave(s: State, c: nat, pool: Pool, got: Option<Obj>): State
    requires Shaped(s) && c < |s.stages|
  {
    s.(pool := pool, stages := s.stages[c := Away],
       held := s.held[c := s.held[c] + if got.Some? then {got.value} else {}])
  }

  ghost function Lent(held: seq<set<Obj>>): nat {
    if held == [] then 0 else Lent(held[..|held| - 1]) + |held[|held| - 1]|
  }

  predicate IsCreating(g: Stage) {
    g == Creating
  }

  /** How many objects clients have or are about to have. */
  ghost function Out(s: State): nat {
    Lent(s.held) + Count(IsCreating, s.stages)
  }

  ghost function Step(s: State, a: Label): (s': State)
    requires Shaped(s) && Enabled(s, a)
    ensures Shaped(s') && |s'.stages| == |s.stages| && s'.pool.max == s.pool.max
  {
    match a
    case TryBorrow(c) =>
      Leave(s, c, Take(s.pool).0, Take(s.pool).1)
    case Borrow(c) =>
      var (pool, got) := Take(s.pool);
      if got.Some? then Leave(s, c, pool, got) else s.(stages := s.stages[c := Missed])
    case Retry(c) =>
      var (pool, ok) := Reserve(s.pool);
      if ok then s.(pool := pool, stages := s.stages[c := Creating])
      else s.(stages := s.stages[c := if s.timeout > 0 then Waiting else Away])
    case Created(c, ok) =>
      if ok then Leave(s, c, s.pool, Some(s.next)).(next := s.next + 1)
      else Leave(s, c, s.pool.(num := s.pool.num - 1), None)
    case Wake(c, timedOut) =>
      if timedOut then Leave(s, c, s.pool, None) else Leave(s, c, Take(s.pool).0, Take(s.pool).1)
    case Return(c, o) =>
      s.(pool := GiveBack(s.pool, o), held := s.held[c := s.held[c] - {o}])
    case Add(c, o) =>
      var (pool, ok) := AddTo(s.pool, o);
      s.(pool := pool, outside := if ok then s.outside - {o} else s.outside + {o},
         next := if o == s.next then s.next + 1 else s.next)
    case Remove(c, o) =>
      var (pool, ok) := RemoveFrom(s.pool, o);
      s.(pool := pool, outside := if ok then s.outside + {o} else s.outside)
    case Clear(c) =>
      s.(pool := Cleared(s.pool), outside := s.outside + (set o | o in s.pool.idle), forgotten := Out(s))
  }

  // ---------- Ownership ----------

  /** Every object is idle once, or held by one client, or outside, or does not exist. */
  ghost predicate Owned(s: State)
    requires Shaped(s)
  {
    && (forall i, j :: 0 <= i < j < |s.pool.idle| ==> s.pool.idle[i] != s.pool.idle[j])
    && (forall i :: 0 <= i < |s.pool.idle| ==> s.pool.idle[i] < s.next && s.pool.idle[i] !in s.outside)
    && (forall c, o {:trigger o in s.held[c]} :: 0 <= c < |s.held| && o in s.held[c] ==>
          o < s.next && o !in s.outside && o !in s.pool.idle)
    && (forall c, d, o {:trigger o in s.held[c], o in s.held[d]} ::
          0 <= c < d < |s.held| && o in s.held[c] ==> o !in s.held[d])
    && (forall o :: o in s.outside ==> o < s.next)
  }

  lemma TakeKeepsOwned(s: State, c: nat)
    requires Shaped(s) && Owned(s) && c < |s.stages|
    ensures Owned(Leave(s, c, Take(s.pool).0, Take(s.pool).1))
  {
    if s.pool.idle != [] {
      assert s.pool.idle[0] in s.pool.idle;
    }
  }

  lemma CreatedKeepsOwned(s: State, c: nat)
    requires Shaped(s) && Owned(s) && c < |s.stages|
    ensures Owned(Leave(s, c, s.pool, Some(s.next)).(next := s.next + 1))
  {
  }

  lemma ReturnKeepsOwned(s: State, c: nat, o: Obj)
    requires Shaped(s) && Owned(s) && Enabled(s, Return(c, o))
    ensures Owned(Step(s, Return(c, o)))
  {
    var s' := Step(s, Return(c, o));
    assert forall i :: 0 <= i < |s.pool.idle| ==> s'.pool.idle[i] == s.pool.idle[i] && s.pool.idle[i] in s.pool.idle;
  }

  lemma AddKeepsOwned(s: State, c: nat, o: Obj)
    requires Shaped(s) && Owned(s) && Enabled(s, Add(c, o))
    ensures Owned(Step(s, Add(c, o)))
  {
  }

  lemma RemoveKeepsOwned(s: State, c: nat, o: Obj)
    requires Shaped(s) && Owned(s) && Enabled(s, Remove(c, o))
    ensures Owned(Step(s, Remove(c, o)))
  {
    var i := IndexOf(s.pool.idle, o);
    if i < |s.pool.idle| {
      DistinctWithout(s.pool.idle, i);
      OutsideKeepsOwned(s, s.pool.idle[..i] + s.pool.idle[i + 1..], o, s.pool.num - 1);
    }
  }

  /** One idle object leaves the pool. */
  lemma OutsideKeepsOwned(s: State, idle: seq<Obj>, o: Obj, num: int)
    requires Shaped(s) && Owned(s) && o in s.pool.idle && o !in idle
    requires forall i, j :: 0 <= i < j < |idle| ==> idle[i] != idle[j]
    requires forall x :: x in idle ==> x in s.pool.idle
    ensures Owned(s.(pool := Pool(idle, num, s.pool.max), outside := s.outside + {o}))
  {
    forall i | 0 <= i < |idle| ensures idle[i] < s.next && idle[i] !in s.outside + {o} {
      assert idle[i] in s.pool.idle;
    }
  }

  lemma DistinctWithout(a: seq<Obj>, i: nat)
    requires i < |a| && forall j, k :: 0 <= j < k < |a| ==> a[j] != a[k]
    ensures var b := a[..i] + a[i + 1..];
            && (forall j, k :: 0 <= j < k < |b| ==> b[j] != b[k])
            && (forall x :: x in b ==> x in a && x != a[i])
  {
    var b := a[..i] + a[i + 1..];
    assert forall j :: 0 <= j < |b| ==> b[j] == if j < i then a[j] else a[j + 1];
  }

  lemma StepKeepsOwned(s: State, a: Label)
    requires Shaped(s) && Owned(s) && Enabled(s, a)
    ensures Owned(Step(s, a))
  {
    match a
    case TryBorrow(c) => TakeKeepsOwned(s, c);
    case Borrow(c) => TakeKeepsOwned(s, c);
    case Wake(c, timedOut) => TakeKeepsOwned(s, c);
    case Created(c, ok) => CreatedKeepsOwned(s, c);
    case Return(c, o) => ReturnKeepsOwned(s, c, o);
    case Add(c, o) => AddKeepsOwned(s, c, o);
    case Remove(c, o) => RemoveKeepsOwned(s, c, o);
    case Clear(c) =>
    case Retry(c) =>
  }

  // ---------- The count ----------

  lemma {:induction false} LentUpdate(held: seq<set<Obj>>, c: nat, objs: set<Obj>)
    requires c < |held|
    ensures Lent(held[c := objs]) == Lent(held) - |held[c]| + |objs|
  {
    var last := |held| - 1;
    if c < last {
      LentUpdate(held[..last], c, objs);
      assert held[c := objs][..last] == held[..last][c := objs];
    } else {
      assert held[c := objs][..last] == held[..last];
    }
  }

  /** `_object_num` counts the idle objects, the lent ones and those being created, but for what a Clear forgot. */
  ghost predicate Counted(s: State) {
    s.pool.num == |s.pool.idle| + Out(s) - s.forgotten
  }

  /** The count means what it is for. */
  ghost predicate Exact(s: State) {
    s.pool.num == |s.pool.idle| + Out(s)
  }

  function Max(a: int, b: int): int {
    if a < b then b else a
  }

  /** Leaving with an object not held before moves it from where it was counted to lent. */
  lemma LeaveCounts(s: State, c: nat, pool: Pool, got: Option<Obj>)
    requires Shaped(s) && c < |s.stages| && (got.Some? ==> got.value !in s.held[c])
    ensures var s' := Leave(s, c, pool, got);
            && Lent(s'.held) == Lent(s.held) + (if got.Some? then 1 else 0)
            && Count(IsCreating, s'.stages) == Count(IsCreating, s.stages) - if IsCreating(s.stages[c]) then 1 else 0
  {
    var extra := if got.Some? then {got.value} else {};
    LentUpdate(s.held, c, s.held[c] + extra);
    CountUpdate(IsCreating, s.stages, c, Away);
  }

  lemma TakeCounts(s: State, c: nat)
    requires Shaped(s) && Owned(s) && Counted(s) && c < |s.stages| && s.stages[c] != Creating
    ensures Counted(Leave(s, c, Take(s.pool).0, Take(s.pool).1))
  {
    if s.pool.idle != [] {
      assert s.pool.idle[0] in s.pool.idle;
    }
    LeaveCounts(s, c, Take(s.pool).0, Take(s.pool).1);
  }

  lemma StepKeepsCounted(s: State, a: Label)
    requires Shaped(s) && Owned(s) && Counted(s) && Enabled(s, a)
    ensures Counted(Step(s, a))
  {
    match a
    case TryBorrow(c) => TakeCounts(s, c);
    case Borrow(c) =>
      TakeCounts(s, c);
      CountUpdate(IsCreating, s.stages, c, Missed);
    case Retry(c) => CountUpdate(IsCreating, s.stages, c, Step(s, a).stages[c]);
    case Created(c, ok) =>
      assert s.next !in s.held[c];
      LeaveCounts(s, c, s.pool, Some(s.next));
      LeaveCounts(s, c, s.pool.(num := s.pool.num - 1), None);
    case Wake(c, timedOut) =>
      TakeCounts(s, c);
      LeaveCounts(s, c, s.pool, None);
    case Return(c, o) => LentUpdate(s.held, c, s.held[c] - {o});
    case Add(_, _) =>
    case Remove(_, _) =>
    case Clear(_) =>
  }

  // ---------- Runs ----------

  /** The constructor leaves `made` objects: as many factory calls as succeeded. */
  function Start(clients: nat, made: nat, max: int, timeout: int): State {
    State(Pool(seq(made, i => i), made, max), timeout, seq(clients, _ => Away), seq(clients, _ => {}), {}, made, 0)
  }

  ghost predicate Inv(s: State, made: nat) {
    Shaped(s) && Owned(s) && Counted(s) && s.pool.num <= Max(s.pool.max, made)
  }

  lemma {:induction false} NothingLent(held: seq<set<Obj>>)
    requires forall c :: 0 <= c < |held| ==> held[c] == {}
    ensures Lent(held) == 0
  {
    if held != [] {
      NothingLent(held[..|held| - 1]);
    }
  }

  lemma StartInv(clients: nat, made: nat, max: int, timeout: int)
    ensures Inv(Start(clients, made, max, timeout), made)
  {
    var s := Start(clients, made, max, timeout);
    NothingLent(s.held);
    CountNone(IsCreating, s.stages);
  }

  lemma StepKeepsInv(s: State, a: Label, made: nat)
    requires Inv(s, made) && Enabled(s, a)
    ensures Inv(Step(s, a), made)
  {
    StepKeepsOwned(s, a);
    StepKeepsCounted(s, a);
  }

  /** Where a schedule leads; labels not enabled when their turn comes are skipped. */
  ghost function Run(clients: nat, made: nat, max: int, timeout: int, schedule: seq<Label>): (s: State)
    ensures Shaped(s) && s.pool.max == max
    decreases |schedule|
  {
    if schedule == [] then Start(clients, made, max, timeout)
    else
      var s := Run(clients, made, max, timeout, schedule[..|schedule| - 1]);
      var a := schedule[|schedule| - 1];
      if Enabled(s, a) then Step(s, a) else s
  }

  lemma {:induction false} RunKeepsInv(clients: nat, made: nat, max: int, timeout: int, schedule: seq<Label>)
    ensures Inv(Run(clients, made, max, timeout, schedule), made)
    decreases |schedule|
  {
    if schedule == [] {
      StartInv(clients, made, max, timeout);
    } else {
      var s := Run(clients, made, max, timeout, schedule[..|schedule| - 1]);
      var a := schedule[|schedule| - 1];
      RunKeepsInv(clients, made, max, timeout, schedule[..|schedule| - 1]);
      if Enabled(s, a) {
        StepKeepsInv(s, a, made);
      }
    }
  }

  /**
    In every interleaving, Clear included, no object is idle twice, idle and lent, or lent to two
    clients, and the count stays within its bound.
   */
  lemma EveryRunOwns(clients: nat, made: nat, max: int, timeout: int, schedule: seq<Label>)
    ensures var s := Run(clients, made, max, timeout, schedule);
            && s.pool.num <= Max(max, made)
            && (forall i, j :: 0 <= i < j < |s.pool.idle| ==> s.pool.idle[i] != s.pool.idle[j])
            && (forall c :: 0 <= c < |s.held| ==> s.held[c] !! (set o | o in s.pool.idle))
            && (forall c, d :: 0 <= c < d < |s.held| ==> s.held[c] !! s.held[d])
  {
    RunKeepsInv(clients, made, max, timeout, schedule);
  }

  /** What was out when the last Clear of a run took place; 0 if there was none. */
  ghost function OutAtLastClear(clients: nat, made: nat, max: int, timeout: int, schedule: seq<Label>): nat
    decreases |schedule|
  {
    if schedule == [] then 0
    else
      var before, a := schedule[..|schedule| - 1], schedule[|schedule| - 1];
      var s := Run(clients, made, max, timeout, before);
      if a.Clear? && Enabled(s, a) then Out(s) else OutAtLastClear(clients, made, max, timeout, before)
  }

  lemma {:induction false} ForgottenAtLastClear(clients: nat, made: nat, max: int, timeout: int, schedule: seq<Label>)
    ensures Run(clients, made, max, timeout, schedule).forgotten
         == OutAtLastClear(clients, made, max, timeout, schedule)
    decreases |schedule|
  {
    if schedule != [] {
      ForgottenAtLastClear(clients, made, max, timeout, schedule[..|schedule| - 1]);
    }
  }

  /**
    In every interleaving the count is exact, so that BorrowNum (the difference the class reports)
    is what is lent or being created, exactly if nothing was lent or being created at the last
    Clear, if any. What was is how much the count falls short.
   */
  lemma CountIsExactIffNothingWasOut(clients: nat, made: nat, max: int, timeout: int, schedule: seq<Label>)
    ensures var s := Run(clients, made, max, timeout, schedule);
            var forgotten := OutAtLastClear(clients, made, max, timeout, schedule);
            && s.pool.num - |s.pool.idle| == Out(s) - forgotten
            && (Exact(s) <==> forgotten == 0)
  {
    RunKeepsInv(clients, made, max, timeout, schedule);
    ForgottenAtLastClear(clients, made, max, timeout, schedule);
  }

  /** Every Clear of the schedule comes when BorrowNum reports 0. */
  ghost predicate ClearsWhenIdle(clients: nat, made: nat, max: int, timeout: int, schedule: seq<Label>)
    decreases |schedule|
  {
    schedule == [] ||
    (var before, a := schedule[..|schedule| - 1], schedule[|schedule| - 1];
     var s := Run(clients, made, max, timeout, before);
     && ClearsWhenIdle(clients, made, max, timeout, before)
     && (a.Clear? && Enabled(s, a) ==> s.pool.num == |s.pool.idle|))
  }

  /** A caller that clears only then, as without any Clear, always has an exact count. */
  lemma {:induction false} EveryRunCounts(clients: nat, made: nat, max: int, timeout: int, schedule: seq<Label>)
    requires ClearsWhenIdle(clients, made, max, timeout, schedule)
    ensures var s := Run(clients, made, max, timeout, schedule);
            s.forgotten == 0 && s.pool.num - |s.pool.idle| == Out(s)
    decreases |schedule|
  {
    RunKeepsInv(clients, made, max, timeout, schedule);
    if schedule != [] {
      EveryRunCounts(clients, made, max, timeout, schedule[..|schedule| - 1]);
    }
  }

  lemma RunOneMore(clients: nat, made: nat, max: int, timeout: int, schedule: seq<Label>, a: Label)
    requires Enabled(Run(clients, made, max, timeout, schedule), a)
    ensures Run(clients, made, max, timeout, schedule + [a]) == Step(Run(clients, made, max, timeout, schedule), a)
  {
    assert (schedule + [a])[..|schedule|] == schedule;
  }

  /** The steps of that run, state by state. */
  lemma BorrowClearReturn(max: int, timeout: int)
    ensures var s0 := Start(1, 1, max, timeout);
            && Step(s0, TryBorrow(0)) == Lending(max, timeout, Pool([], 1, max), 0)
            && Step(Lending(max, timeout, Pool([], 1, max), 0), Clear(0)) == Lending(max, timeout, Pool([], 0, max), 1)
  {
    var s0 := Start(1, 1, max, timeout);
    assert s0.pool.idle == [0];
    var none: set<Obj> := {};
    assert s0.held == [none] && none + {0} == {0};
    assert s0.held[0 := none + {0}] == [{0}];
    assert s0.stages == [Away];
    var s1 := Lending(max, timeout, Pool([], 1, max), 0);
    assert Lent(s1.held[..0]) == 0 && Count(IsCreating, s1.stages[..0]) == 0;
  }

  /** One client that holds object 0. */
  function Lending(max: int, timeout: int, pool: Pool, forgotten: nat): State {
    State(pool, timeout, [Away], [{0}], {}, 1, forgotten)
  }

  /** Borrow, Clear, Return: more objects idle than counted, and BorrowNum is negative. */
  lemma ClearCanLoseCount(max: int, timeout: int)
    ensures var s := Run(1, 1, max, timeout, [TryBorrow(0), Clear(0), Return(0, 0)]);
            s.pool.num == 0 && s.pool.idle == [0]
  {
    BorrowClearReturn(max, timeout);
    assert Run(1, 1, max, timeout, []) == Start(1, 1, max, timeout);
    RunOneMore(1, 1, max, timeout, [], TryBorrow(0));
    assert [] + [TryBorrow(0)] == [TryBorrow(0)];
    RunOneMore(1, 1, max, timeout, [TryBorrow(0)], Clear(0));
    assert [TryBorrow(0)] + [Clear(0)] == [TryBorrow(0), Clear(0)];
    RunOneMore(1, 1, max, timeout, [TryBorrow(0), Clear(0)], Return(0, 0));
    assert [TryBorrow(0), Clear(0)] + [Return(0, 0)] == [TryBorrow(0), Clear(0), Return(0, 0)];
  }

  // ---------- Who gets an object ----------

  /**
    In every run, a borrower that found nothing idle creates an object exactly if there are fewer
    than max, idle ones and those out together but for what a Clear forgot; otherwise it waits, or
    leaves without if there is no timeout.
   */
  lemma RetryCreatesIffRoom(clients: nat, made: nat, max: int, timeout: int, schedule: seq<Label>, c: nat)
    requires Enabled(Run(clients, made, max, timeout, schedule), Retry(c))
    ensures var s := Run(clients, made, max, timeout, schedule);
            var s' := Step(s, Retry(c));
            && (s'.stages[c] == Creating <==> s.pool.num < max)
            && (s'.stages[c] == Creating <==> |s.pool.idle| + Out(s) - s.forgotten < max)
            && (s'.stages[c] != Creating ==> s' == s.(stages := s.stages[c := if s.timeout > 0 then Waiting else Away]))
            && (s'.stages[c] == Creating ==> |s'.pool.idle| + Out(s') == |s.pool.idle| + Out(s) + 1)
  {
    RunKeepsInv(clients, made, max, timeout, schedule);
    var s := Run(clients, made, max, timeout, schedule);
    StepKeepsCounted(s, Retry(c));
  }

  /** The steps of one Borrow whose factory works, nobody else doing anything. */
  function BorrowSteps(c: nat): seq<Label> {
    [Borrow(c), Retry(c), Created(c, true)]
  }

  /** What a client has got, and what is left in the pool. */
  ghost predicate Borrowed(s: State, s': State, c: nat)
    requires c < |s.held|
  {
    if s.pool.idle != [] then
      && s'.held == s.held[c := s.held[c] + {s.pool.idle[0]}] && s'.stages == s.stages
      && s'.pool == s.pool.(idle := s.pool.idle[1..]) && s'.next == s.next
    else if s.pool.num < s.pool.max then
      && s'.held == s.held[c := s.held[c] + {s.next}] && s'.stages == s.stages
      && s'.pool == s.pool.(num := s.pool.num + 1) && s'.next == s.next + 1
    else
      s'.held == s.held && s'.pool == s.pool && (s.timeout <= 0 ==> s'.stages == s.stages)
  }

  ghost function StepIf(s: State, a: Label): State
    requires Shaped(s)
  {
    if Enabled(s, a) then Step(s, a) else s
  }

  lemma BorrowIdle(s: State, c: nat)
    requires Shaped(s) && c < |s.stages| && s.stages[c] == Away && s.pool.idle != []
    ensures var s1 := StepIf(s, Borrow(c));
            Shaped(s1) && StepIf(s1, Retry(c)) == s1 && StepIf(s1, Created(c, true)) == s1 && Borrowed(s, s1, c)
  {
    assert s.stages[c := Away] == s.stages;
  }

  lemma BorrowNew(s: State, c: nat)
    requires Shaped(s) && c < |s.stages| && s.stages[c] == Away && s.pool.idle == []
    ensures var s1 := StepIf(s, Borrow(c));
            Shaped(s1) && Shaped(StepIf(s1, Retry(c))) && Borrowed(s, StepIf(StepIf(s1, Retry(c)), Created(c, true)), c)
  {
    var s1 := StepIf(s, Borrow(c));
    assert s1 == s.(stages := s.stages[c := Missed]);
    var s2 := StepIf(s1, Retry(c));
    assert s2.stages == s.stages[c := s2.stages[c]];
    assert s.stages[c := Away] == s.stages;
  }

  /**
    What a client gets from a whole Borrow, alone: the oldest idle object if there is one, else a
    new one if there is room, else nothing.
   */
  lemma BorrowAlone(clients: nat, made: nat, max: int, timeout: int, schedule: seq<Label>, c: nat)
    requires var s := Run(clients, made, max, timeout, schedule); c < |s.stages| && s.stages[c] == Away
    ensures var s := Run(clients, made, max, timeout, schedule);
            Borrowed(s, Run(clients, made, max, timeout, schedule + BorrowSteps(c)), c)
  {
    var s := Run(clients, made, max, timeout, schedule);
    var one, two := schedule + [Borrow(c)], schedule + [Borrow(c)] + [Retry(c)];
    assert schedule + BorrowSteps(c) == two + [Created(c, true)];
    RunSkips(clients, made, max, timeout, schedule, Borrow(c));
    RunSkips(clients, made, max, timeout, one, Retry(c));
    RunSkips(clients, made, max, timeout, two, Created(c, true));
    if s.pool.idle != [] {
      BorrowIdle(s, c);
    } else {
      BorrowNew(s, c);
    }
  }

  lemma RunSkips(clients: nat, made: nat, max: int, timeout: int, schedule: seq<Label>, a: Label)
    ensures var s := Run(clients, made, max, timeout, schedule);
            Run(clients, made, max, timeout, schedule + [a]) == StepIf(s, a)
  {
    assert (schedule + [a])[..|schedule|] == schedule;
  }

  lemma {:induction false} TimeoutStays(clients: nat, made: nat, max: int, timeout: int, schedule: seq<Label>)
    ensures var s := Run(clients, made, max, timeout, schedule); s.timeout == timeout && |s.stages| == clients
    decreases |schedule|
  {
    if schedule != [] {
      TimeoutStays(clients, made, max, timeout, schedule[..|schedule| - 1]);
    }
  }

  /** The whole Borrow of clients 0 to j - 1, one after the other. */
  function BorrowAll(j: nat): seq<Label> {
    if j == 0 then [] else BorrowAll(j - 1) + BorrowSteps(j - 1)
  }

  function Larger(a: nat, b: nat): nat {
    if a < b then b else a
  }

  /** Clients 0 to j - 1 each have the object of their own number, and the others nothing. */
  ghost predicate Served(s: State, made: nat, j: nat) {
    && |s.held| == |s.stages|
    && (forall c :: 0 <= c < |s.stages| ==> s.stages[c] == Away && s.held[c] == if c < j then {c} else {})
    && s.pool.num == s.next == Larger(made, j)
    && s.pool.idle == seq(Larger(made, j) - j, i requires 0 <= i => j + i)
  }

  lemma ServedFromIdle(s: State, s': State, made: nat, j: nat)
    requires Served(s, made, j) && j < made && j < |s.stages|
    requires s'.stages == s.stages && s'.held == s.held[j := s.held[j] + {s.pool.idle[0]}]
    requires s'.pool == s.pool.(idle := s.pool.idle[1..]) && s'.next == s.next
    ensures Served(s', made, j + 1)
  {
    assert s.pool.idle[0] == j;
    assert s.held[j] + {j} == {j};
  }

  lemma ServedAnew(s: State, s': State, made: nat, j: nat)
    requires Served(s, made, j) && j >= made && j < |s.stages|
    requires s'.stages == s.stages && s'.held == s.held[j := s.held[j] + {s.next}]
    requires s'.pool == s.pool.(num := s.pool.num + 1) && s'.next == s.next + 1
    ensures Served(s', made, j + 1)
  {
    assert s.held[j] + {j} == {j};
  }

  lemma NobodyServed(clients: nat, made: nat, max: int, timeout: int)
    ensures Served(Start(clients, made, max, timeout), made, 0)
  {
    assert seq(made, i requires 0 <= i => 0 + i) == seq(made, i => i);
  }

  lemma NextServed(clients: nat, made: nat, max: nat, timeout: int, schedule: seq<Label>, j: nat)
    requires made <= max && j < max && j < clients && Served(Run(clients, made, max, timeout, schedule), made, j)
    ensures Served(Run(clients, made, max, timeout, schedule + BorrowSteps(j)), made, j + 1)
  {
    var s := Run(clients, made, max, timeout, schedule);
    var s' := Run(clients, made, max, timeout, schedule + BorrowSteps(j));
    TimeoutStays(clients, made, max, timeout, schedule);
    BorrowAlone(clients, made, max, timeout, schedule, j);
    if j < made {
      ServedFromIdle(s, s', made, j);
    } else {
      ServedAnew(s, s', made, j);
    }
  }

  lemma {:induction false} BorrowersServed(clients: nat, made: nat, max: nat, timeout: int, j: nat)
    requires made <= max && j <= max && j <= clients
    ensures Served(Run(clients, made, max, timeout, BorrowAll(j)), made, j)
    decreases j
  {
    if j == 0 {
      NobodyServed(clients, made, max, timeout);
    } else {
      BorrowersServed(clients, made, max, timeout, j - 1);
      NextServed(clients, made, max, timeout, BorrowAll(j - 1), j - 1);
    }
  }

  lemma {:induction false} LentToAll(held: seq<set<Obj>>, j: nat)
    requires j <= |held| && forall c :: 0 <= c < |held| ==> held[c] == if c < j then {c} else {}
    ensures Lent(held) == j
  {
    if held == [] {
    } else if j == |held| {
      LentToAll(held[..|held| - 1], j - 1);
    } else {
      LentToAll(held[..|held| - 1], j);
    }
  }

  /**
    Whatever was created in advance, within the maximum: as many borrowers as the maximum says can
    each hold an object at once, and then there is none left and no room for another.
   */
  lemma AllSlotsCanBeLent(clients: nat, made: nat, max: nat, timeout: int)
    requires made <= max <= clients
    ensures var s := Run(clients, made, max, timeout, BorrowAll(max));
            && Lent(s.held) == s.pool.num == max && s.pool.idle == []
            && |s.held| == clients && forall c :: 0 <= c < max ==> |s.held[c]| == 1
  {
    BorrowersServed(clients, made, max, timeout, max);
    TimeoutStays(clients, made, max, timeout, BorrowAll(max));
    LentToAll(Run(clients, made, max, timeout, BorrowAll(max)).held, max);
  }

  /** In every run an object offered to the pool is taken in exactly if there is room for it. */
  lemma AddedIffRoom(clients: nat, made: nat, max: int, timeout: int, schedule: seq<Label>, c: nat, o: Obj)
    requires Enabled(Run(clients, made, max, timeout, schedule), Add(c, o))
    ensures var s := Run(clients, made, max, timeout, schedule);
            var s' := Step(s, Add(c, o));
            && (o in s'.pool.idle <==> |s.pool.idle| + Out(s) - s.forgotten < max)
            && (o in s'.pool.idle <==> o !in s'.outside)
            && (forall x :: x != o ==> (x in s'.pool.idle <==> x in s.pool.idle))
  {
    RunKeepsInv(clients, made, max, timeout, schedule);
    var s := Run(clients, made, max, timeout, schedule);
    assert o !in s.pool.idle;
  }

  /** b is a without one o, in the same order. */
  ghost predicate Without(a: seq<Obj>, b: seq<Obj>, o: Obj) {
    exists i :: 0 <= i <= |b| && a == b[..i] + [o] + b[i..]
  }

  lemma CutOut(a: seq<Obj>, i: nat)
    requires i < |a|
    ensures Without(a, a[..i] + a[i + 1..], a[i])
  {
    var b := a[..i] + a[i + 1..];
    assert b[..i] == a[..i] && b[i..] == a[i + 1..];
  }

  /** In every run Remove takes the object it is given out of the idle ones, if it is idle, and no other. */
  lemma RemovedIsOut(clients: nat, made: nat, max: int, timeout: int, schedule: seq<Label>, c: nat, o: Obj)
    requires Enabled(Run(clients, made, max, timeout, schedule), Remove(c, o))
    ensures var s := Run(clients, made, max, timeout, schedule);
            var s' := Step(s, Remove(c, o));
            if o in s.pool.idle then
              Without(s.pool.idle, s'.pool.idle, o) && o !in s'.pool.idle && o in s'.outside
            else s' == s
  {
    RunKeepsInv(clients, made, max, timeout, schedule);
    var idle := Run(clients, made, max, timeout, schedule).pool.idle;
    if IndexOf(idle, o) < |idle| {
      DistinctWithout(idle, IndexOf(idle, o));
      CutOut(idle, IndexOf(idle, o));
    }
  }

  // ---------- First in, first out ----------

  /** What a step puts behind the idle objects. */
  function EnteredBy(s: State, a: Label): seq<Obj> {
    match a
    case Return(_, o) => [o]
    case Add(_, o) => if s.pool.num < s.pool.max then [o] else []
    case _ => []
  }

  /** The idle object that a client has got by a step. */
  ghost function GotBy(s: State, a: Label): seq<Obj>
    requires Shaped(s) && Enabled(s, a)
  {
    var got := if a.Created? then {} else Step(s, a).held[a.c] - s.held[a.c];
    if got == {} then [] else
      var o :| o in got;
      [o]
  }

  ghost function Entered(clients: nat, made: nat, max: int, timeout: int, schedule: seq<Label>): seq<Obj>
    decreases |schedule|
  {
    if schedule == [] then seq(made, i => i)
    else
      var before, a := schedule[..|schedule| - 1], schedule[|schedule| - 1];
      var s := Run(clients, made, max, timeout, before);
      Entered(clients, made, max, timeout, before) + if Enabled(s, a) then EnteredBy(s, a) else []
  }

  ghost function Got(clients: nat, made: nat, max: int, timeout: int, schedule: seq<Label>): seq<Obj>
    decreases |schedule|
  {
    if schedule == [] then []
    else
      var before, a := schedule[..|schedule| - 1], schedule[|schedule| - 1];
      var s := Run(clients, made, max, timeout, before);
      Got(clients, made, max, timeout, before) + if Enabled(s, a) then GotBy(s, a) else []
  }

  /** Taking the front is getting exactly that. */
  lemma GotFront(s: State, a: Label)
    requires Shaped(s) && Owned(s) && Enabled(s, a)
    requires a.TryBorrow? || a.Borrow? || (a.Wake? && !a.timedOut)
    ensures GotBy(s, a) == if s.pool.idle == [] then [] else [s.pool.idle[0]]
    ensures Step(s, a).pool.idle == if s.pool.idle == [] then [] else s.pool.idle[1..]
  {
    if s.pool.idle != [] {
      assert s.pool.idle[0] in s.pool.idle;
      assert Step(s, a).held[a.c] - s.held[a.c] == {s.pool.idle[0]};
    } else {
      assert Step(s, a).held[a.c] == s.held[a.c];
    }
  }

  lemma GotNothing(s: State, a: Label)
    requires Shaped(s) && Enabled(s, a)
    requires !(a.TryBorrow? || a.Borrow? || (a.Wake? && !a.timedOut))
    ensures GotBy(s, a) == []
  {
    if !a.Created? {
      assert Step(s, a).held[a.c] <= s.held[a.c];
    }
  }

  lemma StepQueues(s: State, a: Label)
    requires Shaped(s) && Owned(s) && Enabled(s, a) && !a.Remove? && !a.Clear?
    ensures s.pool.idle + EnteredBy(s, a) == GotBy(s, a) + Step(s, a).pool.idle
  {
    if a.TryBorrow? || a.Borrow? || (a.Wake? && !a.timedOut) {
      GotFront(s, a);
    } else {
      GotNothing(s, a);
    }
  }

  lemma PassOn(entered: seq<Obj>, got: seq<Obj>, idle: seq<Obj>, enter: seq<Obj>, get: seq<Obj>, idle': seq<Obj>)
    requires entered == got + idle && idle + enter == get + idle'
    ensures entered + enter == got + get + idle'
  {
    assert entered + enter == got + (idle + enter);
    assert got + (get + idle') == got + get + idle';
  }

  /**
    In every interleaving without Remove and Clear the pool is a queue: the objects made at first,
    returned and added, in that order, are those borrowed from it, in that order, and then the idle.
   */
  lemma {:induction false} FirstInFirstOut(clients: nat, made: nat, max: int, timeout: int, schedule: seq<Label>)
    requires forall i :: 0 <= i < |schedule| ==> !schedule[i].Remove? && !schedule[i].Clear?
    ensures Entered(clients, made, max, timeout, schedule)
         == Got(clients, made, max, timeout, schedule) + Run(clients, made, max, timeout, schedule).pool.idle
    decreases |schedule|
  {
    if schedule != [] {
      var before, a := schedule[..|schedule| - 1], schedule[|schedule| - 1];
      var s := Run(clients, made, max, timeout, before);
      FirstInFirstOut(clients, made, max, timeout, before);
      RunKeepsInv(clients, made, max, timeout, before);
      if Enabled(s, a) {
        StepQueues(s, a);
        PassOn(Entered(clients, made, max, timeout, before), Got(clients, made, max, timeout, before),
               s.pool.idle, EnteredBy(s, a), GotBy(s, a), Step(s, a).pool.idle);
      }
    }
  }

  // ---------- The class ----------

  /** The objects among the first n results of the factory. */
  function Kept(created: seq<Option<Obj>>, n: int): seq<Obj>
    requires n <= |created|
    decreases n
  {
    if n <= 0 then []
    else Kept(created, n - 1) + if created[n - 1].Some? then [created[n - 1].value] else []
  }

  class HObjectPool {
    var objects: seq<Obj>
    var objectNum: int
    const maxNum: int

    ghost function View(): Pool
      reads this
    {
      Pool(objects, objectNum, maxNum)
    }

    /** `created`: what the factory returns, call by call; None is a null pointer. */
    constructor (init: int, max: int, created: seq<Option<Obj>>)
      requires init <= |created|
      ensures View() == Pool(Kept(created, init), |Kept(created, init)|, max)
    {
      objects := [];
      objectNum := 0;
      maxNum := max;
      new;
      var i := 0;
      while i < init
        invariant 0 <= i <= |created| && (i <= init || i == 0)
        invariant objects == Kept(created, i) && maxNum == max
      {
        if created[i].Some? {
          objects := objects + [created[i].value];
        }
        i := i + 1;
      }
      objectNum := |objects|;
    }

    method TryBorrow() returns (obj: Option<Obj>)
      modifies this`objects
      ensures (View(), obj) == Take(old(View()))
    {
      obj := None;
      if objects != [] {
        obj := Some(objects[0]);
        objects := objects[1..];
      }
    }

    /** The part of Borrow before it drops the lock. */
    method ReserveSlot() returns (ok: bool)
      modifies this`objectNum
      ensures (View(), ok) == Reserve(old(View()))
    {
      ok := objectNum < maxNum;
      if ok {
        objectNum := objectNum + 1;
      }
    }

    method Return(obj: Obj)
      modifies this`objects
      ensures View() == GiveBack(old(View()), obj)
    {
      objects := objects + [obj];
    }

    method Add(obj: Obj) returns (ok: bool)
      modifies this`objects, this`objectNum
      ensures (View(), ok) == AddTo(old(View()), obj)
    {
      if objectNum >= maxNum {
        return false;
      }
      objects := objects + [obj];
      objectNum := objectNum + 1;
      return true;
    }

    method Remove(obj: Obj) returns (ok: bool)
      modifies this`objects, this`objectNum
      ensures (View(), ok) == RemoveFrom(old(View()), obj)
    {
      var i := 0;
      while i != |objects|
        invariant 0 <= i <= |objects| && obj !in objects[..i]
        invariant objects == old(objects) && objectNum == old(objectNum)
        decreases |objects| - i
      {
        if objects[i] == obj {
          FirstIndex(objects, obj, i);
          objects := objects[..i] + objects[i + 1..];
          objectNum := objectNum - 1;
          return true;
        }
        i := i + 1;
      }
      return false;
    }

    method Clear()
      modifies this`objects, this`objectNum
      ensures View() == Cleared(old(View()))
    {
      objects := [];
      objectNum := 0;
    }
  }

  lemma {:induction false} FirstIndex(s: seq<Obj>, o: Obj, i: nat)
    requires i < |s| && s[i] == o && o !in s[..i]
    ensures IndexOf(s, o) == i
  {
    if i > 0 {
      assert s[0] in s[..i] && forall x :: x in s[1..][..i - 1] ==> x in s[..i];
      FirstIndex(s[1..], o, i - 1);
    }
  }
}
