/**
  The accept path of `TcpServer.h` as atomic steps of one acceptor and n worker loops: `onAccept`,
  `newConnEvent` with its check-then-add, and the `onclose` lambda.
 */
module TcpServer {
  import opened Counting

  type Conn = nat

  /**
    What a worker loop is in the middle of. Between the two halves of onclose the user's callback
    runs, which may close further channels of the loop: the innermost close is the last of `stack`.
   */
  datatype Worker =
    | Idle
    | Admitted(conn: Conn)       // newConnEvent passed the limit check, addChannel comes next
    | Closing(stack: seq<Conn>)  // onclose decremented connectionNum for each, removeChannel comes next

  datatype Acceptor = Ready | Picked(loop: nat, conn: Conn)

  datatype Place = Accepted | Waiting(loop: nat) | Checked(loop: nat) | Open(loop: nat) | Gone

  datatype Server = Server(
    limit: nat,                   // max_connections
    acceptor: Acceptor,
    workers: seq<Worker>,
    waiting: seq<set<Conn>>,      // newConnEvent functors queued in each loop
    nums: seq<int>,               // connectionNum of each loop
    channels: map<Conn, nat>,     // the server's channels, with the loop each is attached to
    rejected: seq<nat>,           // history: connections each loop turned away
    place: seq<Place>)            // history: where every connection ever accepted is

  datatype Label =
    | Accept(loop: nat)           // onAccept up to ++connectionNum; the balancer chose the loop
    | Dispatch                    // runInLoop(newConnEvent)
    | Check(loop: nat, conn: Conn)
    | Add(loop: nat)
    | BeginClose(loop: nat, conn: Conn)
    | EndClose(loop: nat)

  function Start(n: nat, limit: nat): Server {
    Server(limit, Ready, seq(n, _ => Idle), seq(n, _ => {}), seq(n, _ => 0), map[], seq(n, _ => 0), [])
  }

  /** The closes of a loop that are half done. */
  function HalfClosed(w: Worker): seq<Conn> {
    if w.Closing? then w.stack else []
  }

  function Innermost(w: Worker): Conn
    requires HalfClosed(w) != []
  {
    w.stack[|w.stack| - 1]
  }

  /** Back to the close around it, or to none. */
  function Outer(stack: seq<Conn>): Worker {
    if |stack| <= 1 then Idle else Closing(stack[..|stack| - 1])
  }

  predicate Shaped(s: Server) {
    |s.workers| == |s.waiting| == |s.nums| == |s.rejected|
  }

  predicate Enabled(s: Server, a: Label)
    requires Shaped(s)
  {
    match a
    case Accept(l) => l < |s.workers| && s.acceptor.Ready?
    case Dispatch => s.acceptor.Picked? && s.acceptor.loop < |s.workers| && s.acceptor.conn < |s.place|
    case Check(l, c) => l < |s.workers| && s.workers[l].Idle? && c in s.waiting[l] && c < |s.place|
    case Add(l) => l < |s.workers| && s.workers[l].Admitted? && s.workers[l].conn < |s.place|
    case BeginClose(l, c) =>
      && l < |s.workers| && !s.workers[l].Admitted? && c !in HalfClosed(s.workers[l])
      && c in s.channels && s.channels[c] == l
    case EndClose(l) =>
      l < |s.workers| && HalfClosed(s.workers[l]) != [] && Innermost(s.workers[l]) < |s.place|
  }

  function Step(s: Server, a: Label): (s': Server)
    requires Shaped(s) && Enabled(s, a)
    ensures Shaped(s') && |s'.workers| == |s.workers| && s'.limit == s.limit
  {
    match a
    case Accept(l) =>
      s.(acceptor := Picked(l, |s.place|), nums := s.nums[l := s.nums[l] + 1], place := s.place + [Accepted])
    case Dispatch =>
      var l, c := s.acceptor.loop, s.acceptor.conn;
      s.(acceptor := Ready, waiting := s.waiting[l := s.waiting[l] + {c}], place := s.place[c := Waiting(l)])
    case Check(l, c) =>
      var s1 := s.(waiting := s.waiting[l := s.waiting[l] - {c}]);
      if |s.channels| >= s.limit then
        s1.(rejected := s.rejected[l := s.rejected[l] + 1], place := s.place[c := Gone])
      else
        s1.(workers := s.workers[l := Admitted(c)], place := s.place[c := Checked(l)])
    case Add(l) =>
      var c := s.workers[l].conn;
      s.(workers := s.workers[l := Idle], channels := s.channels[c := l], place := s.place[c := Open(l)])
    case BeginClose(l, c) =>
      s.(workers := s.workers[l := Closing(HalfClosed(s.workers[l]) + [c])], nums := s.nums[l := s.nums[l] - 1])
    case EndClose(l) =>
      var c := Innermost(s.workers[l]);
      s.(workers := s.workers[l := Outer(s.workers[l].stack)],
         channels := s.channels - {c}, place := s.place[c := Gone])
  }

  // ---------- Every connection is in one place ----------

  /** Channels of loop l, each being closed once. */
  ghost predicate StackOk(channels: map<Conn, nat>, l: nat, stack: seq<Conn>) {
    && (forall i :: 0 <= i < |stack| ==> stack[i] in channels && channels[stack[i]] == l)
    && (forall i, j :: 0 <= i < j < |stack| ==> stack[i] != stack[j])
  }

  ghost predicate Placed(s: Server)
    requires Shaped(s)
  {
    && (s.acceptor.Picked? ==>
          && s.acceptor.loop < |s.workers| && s.acceptor.conn < |s.place|
          && s.place[s.acceptor.conn] == Accepted)
    && (forall l, c {:trigger c in s.waiting[l]} :: 0 <= l < |s.waiting| && c in s.waiting[l] ==>
          c < |s.place| && s.place[c] == Waiting(l))
    && (forall l :: 0 <= l < |s.workers| && s.workers[l].Admitted? ==>
          s.workers[l].conn < |s.place| && s.place[s.workers[l].conn] == Checked(l))
    && (forall l :: 0 <= l < |s.workers| ==> StackOk(s.channels, l, HalfClosed(s.workers[l])))
    && (forall c {:trigger c in s.channels} :: c in s.channels ==> c < |s.place| && s.place[c] == Open(s.channels[c]))
  }

  /** c, queued in loop l before the step and still after it, is where it was. */
  lemma WaitingStays(s: Server, a: Label, l: nat, c: Conn)
    requires Shaped(s) && Placed(s) && Enabled(s, a)
    requires l < |s.waiting| && c in s.waiting[l] && c in Step(s, a).waiting[l]
    ensures c < |Step(s, a).place| && Step(s, a).place[c] == Waiting(l)
  {
    assert s.place[c] == Waiting(l);
    match a
    case Check(m, d) => assert s.place[d] == Waiting(m);
    case Add(m) => assert s.place[s.workers[m].conn] == Checked(m);
    case EndClose(m) => assert s.place[Innermost(s.workers[m])] == Open(m);
    case _ =>
  }

  lemma WaitingPlaced(s: Server, a: Label)
    requires Shaped(s) && Placed(s) && Enabled(s, a)
    ensures var s' := Step(s, a);
            forall l, c {:trigger c in s'.waiting[l]} :: 0 <= l < |s'.waiting| && c in s'.waiting[l] ==>
              c < |s'.place| && s'.place[c] == Waiting(l)
  {
    var s' := Step(s, a);
    forall l, c | 0 <= l < |s'.waiting| && c in s'.waiting[l]
      ensures c < |s'.place| && s'.place[c] == Waiting(l)
    {
      if c in s.waiting[l] {
        WaitingStays(s, a, l, c);
      }
    }
  }

  lemma OpenPlaced(s: Server, a: Label)
    requires Shaped(s) && Placed(s) && Enabled(s, a)
    ensures var s' := Step(s, a);
            forall c {:trigger c in s'.channels} :: c in s'.channels ==>
              c < |s'.place| && s'.place[c] == Open(s'.channels[c])
  {
    var s' := Step(s, a);
    forall c | c in s'.channels ensures c < |s'.place| && s'.place[c] == Open(s'.channels[c]) {
      if c in s.channels {
        assert s.place[c] == Open(s.channels[c]);
        match a
        case Check(m, d) => assert s.place[d] == Waiting(m);
        case _ =>
      }
    }
  }

  lemma EndCloseKeepsStacks(s: Server, m: nat, l: nat)
    requires Shaped(s) && Enabled(s, EndClose(m)) && l < |s.workers|
    requires StackOk(s.channels, m, HalfClosed(s.workers[m])) && StackOk(s.channels, l, HalfClosed(s.workers[l]))
    ensures var s' := Step(s, EndClose(m));
            StackOk(s'.channels, l, HalfClosed(s'.workers[l]))
  {
    var stack := HalfClosed(s.workers[m]);
    var c := Innermost(s.workers[m]);
    assert s.channels[c] == m;
    assert forall i :: 0 <= i < |stack| - 1 ==> stack[i] != stack[|stack| - 1];
  }

  lemma StacksPlaced(s: Server, a: Label, l: nat)
    requires Shaped(s) && Placed(s) && Enabled(s, a) && l < |s.workers|
    ensures var s' := Step(s, a);
            StackOk(s'.channels, l, HalfClosed(s'.workers[l]))
  {
    assert StackOk(s.channels, l, HalfClosed(s.workers[l]));
    match a
    case EndClose(m) => EndCloseKeepsStacks(s, m, l);
    case Add(m) => assert s.place[s.workers[m].conn] == Checked(m);
    case _ =>
  }

  lemma StepKeepsPlaced(s: Server, a: Label)
    requires Shaped(s) && Placed(s) && Enabled(s, a)
    ensures Placed(Step(s, a))
  {
    WaitingPlaced(s, a);
    OpenPlaced(s, a);
    forall l | 0 <= l < |s.workers| ensures StackOk(Step(s, a).channels, l, HalfClosed(Step(s, a).workers[l])) {
      StacksPlaced(s, a, l);
    }
  }

  // ---------- Admission ----------

  predicate IsAdmitted(w: Worker) {
    w.Admitted?
  }

  /** The most channels n loops can end up with. */
  function Bound(n: nat, limit: nat): nat
    requires n > 0
  {
    if limit == 0 then 0 else limit + n - 1
  }

  ghost predicate WithinBound(s: Server) {
    |s.workers| > 0 && |s.channels| + Count(IsAdmitted, s.workers) <= Bound(|s.workers|, s.limit)
  }

  lemma CheckKeepsWithinBound(s: Server, l: nat, c: Conn)
    requires Shaped(s) && WithinBound(s) && Enabled(s, Check(l, c))
    ensures WithinBound(Step(s, Check(l, c)))
  {
    CountUpdate(IsAdmitted, s.workers, l, Admitted(c));
    CountAtMost(IsAdmitted, s.workers);
    assert !IsAdmitted(s.workers[l]);
  }

  lemma AddKeepsWithinBound(s: Server, l: nat)
    requires Shaped(s) && WithinBound(s) && Enabled(s, Add(l))
    ensures WithinBound(Step(s, Add(l)))
  {
    var c := s.workers[l].conn;
    CountUpdate(IsAdmitted, s.workers, l, Idle);
    assert s.channels[c := l].Keys == s.channels.Keys + {c};
  }

  lemma EndCloseKeepsWithinBound(s: Server, l: nat)
    requires Shaped(s) && WithinBound(s) && Enabled(s, EndClose(l))
    ensures WithinBound(Step(s, EndClose(l)))
  {
    var after := s.channels - {Innermost(s.workers[l])};
    CountUpdate(IsAdmitted, s.workers, l, Outer(s.workers[l].stack));
    assert after.Keys <= s.channels.Keys;
    SubsetSize(after.Keys, s.channels.Keys);
  }

  lemma StepKeepsWithinBound(s: Server, a: Label)
    requires Shaped(s) && Placed(s) && WithinBound(s) && Enabled(s, a)
    ensures WithinBound(Step(s, a))
  {
    match a
    case Accept(_) =>
    case Dispatch =>
    case Check(l, c) => CheckKeepsWithinBound(s, l, c);
    case Add(l) => AddKeepsWithinBound(s, l);
    case BeginClose(l, c) => CountUpdate(IsAdmitted, s.workers, l, Closing(HalfClosed(s.workers[l]) + [c]));
    case EndClose(l) => EndCloseKeepsWithinBound(s, l);
  }

  lemma {:induction false} SubsetSize<T>(a: set<T>, b: set<T>)
    requires a <= b
    ensures |a| <= |b|
  {
    if a != {} {
      var x :| x in a;
      SubsetSize(a - {x}, b - {x});
    }
  }

  // ---------- Conservation ----------

  ghost function OnLoop(s: Server, l: nat): set<Conn> {
    set c | c in s.channels && s.channels[c] == l
  }

  /**
    connectionNum plus the closes half done, against the channels, the connections on their way to
    becoming one, and those turned away.
   */
  ghost predicate Conserved(s: Server, l: nat)
    requires Shaped(s) && l < |s.workers|
  {
    s.nums[l] + |HalfClosed(s.workers[l])|
      == |OnLoop(s, l)| + |s.waiting[l]| + (if s.workers[l].Admitted? then 1 else 0)
         + (if s.acceptor.Picked? && s.acceptor.loop == l then 1 else 0) + s.rejected[l]
  }

  lemma StepKeepsConserved(s: Server, a: Label, l: nat)
    requires Shaped(s) && Placed(s) && Enabled(s, a) && l < |s.workers| && Conserved(s, l)
    ensures Conserved(Step(s, a), l)
  {
    match a
    case Add(m) => AddKeepsConserved(s, m, l);
    case EndClose(m) => EndCloseKeepsConserved(s, m, l);
    case Check(m, c) => CheckKeepsConserved(s, m, c, l);
    case Dispatch => DispatchKeepsConserved(s, l);
    case Accept(_) => assert OnLoop(Step(s, a), l) == OnLoop(s, l);
    case BeginClose(_, _) => assert OnLoop(Step(s, a), l) == OnLoop(s, l);
  }

  lemma CheckKeepsConserved(s: Server, m: nat, c: Conn, l: nat)
    requires Shaped(s) && Enabled(s, Check(m, c)) && l < |s.workers| && Conserved(s, l)
    ensures Conserved(Step(s, Check(m, c)), l)
  {
    assert OnLoop(Step(s, Check(m, c)), l) == OnLoop(s, l);
    assert |s.waiting[m] - {c}| == |s.waiting[m]| - 1;
  }

  lemma DispatchKeepsConserved(s: Server, l: nat)
    requires Shaped(s) && Placed(s) && Enabled(s, Dispatch) && l < |s.workers| && Conserved(s, l)
    ensures Conserved(Step(s, Dispatch), l)
  {
    assert OnLoop(Step(s, Dispatch), l) == OnLoop(s, l);
    assert s.acceptor.conn !in s.waiting[s.acceptor.loop];
  }

  /** The channels of loop l once loop m has added c. */
  lemma OnLoopAdd(s: Server, m: nat, c: Conn, l: nat)
    requires c !in s.channels
    ensures var after := s.(channels := s.channels[c := m]);
            |OnLoop(after, l)| == |OnLoop(s, l)| + if m == l then 1 else 0
  {
    assert OnLoop(s.(channels := s.channels[c := m]), l) == if m == l then OnLoop(s, l) + {c} else OnLoop(s, l);
  }

  lemma AddKeepsConserved(s: Server, m: nat, l: nat)
    requires Shaped(s) && Placed(s) && Enabled(s, Add(m)) && l < |s.workers| && Conserved(s, l)
    ensures Conserved(Step(s, Add(m)), l)
  {
    var c := s.workers[m].conn;
    assert c !in s.channels;
    OnLoopAdd(s, m, c, l);
    assert OnLoop(Step(s, Add(m)), l) == OnLoop(s.(channels := s.channels[c := m]), l);
  }

  lemma EndCloseKeepsConserved(s: Server, m: nat, l: nat)
    requires Shaped(s) && Placed(s) && Enabled(s, EndClose(m)) && l < |s.workers| && Conserved(s, l)
    ensures Conserved(Step(s, EndClose(m)), l)
  {
    var s', c := Step(s, EndClose(m)), Innermost(s.workers[m]);
    assert c in OnLoop(s, m);
    assert OnLoop(s', l) == if m == l then OnLoop(s, l) - {c} else OnLoop(s, l);
  }

  /** The unsigned counter is positive whenever a close decrements it. */
  lemma NoUnderflow(s: Server, l: nat, c: Conn)
    requires Shaped(s) && Placed(s) && l < |s.workers| && Conserved(s, l) && Enabled(s, BeginClose(l, c))
    ensures s.nums[l] > 0
  {
    var stack := HalfClosed(s.workers[l]);
    assert StackOk(s.channels, l, stack);
    DistinctFit(stack + [c], OnLoop(s, l));
  }

  /** A loop has at least the channels it is closing. */
  lemma StackFits(s: Server, l: nat)
    requires Shaped(s) && Placed(s) && l < |s.workers|
    ensures |HalfClosed(s.workers[l])| <= |OnLoop(s, l)|
  {
    var stack := HalfClosed(s.workers[l]);
    assert StackOk(s.channels, l, stack);
    DistinctFit(stack, OnLoop(s, l));
  }

  lemma {:induction false} DistinctFit(stack: seq<Conn>, ids: set<Conn>)
    requires forall i :: 0 <= i < |stack| ==> stack[i] in ids
    requires forall i, j :: 0 <= i < j < |stack| ==> stack[i] != stack[j]
    ensures |stack| <= |ids|
  {
    if stack != [] {
      var last := stack[|stack| - 1];
      DistinctFit(stack[..|stack| - 1], ids - {last});
    }
  }

  lemma NeverNegative(s: Server, l: nat)
    requires Shaped(s) && Placed(s) && l < |s.workers| && Conserved(s, l)
    ensures s.nums[l] >= s.rejected[l]
  {
    StackFits(s, l);
  }

  // ---------- Runs ----------

  ghost predicate Inv(s: Server) {
    && Shaped(s) && Placed(s) && WithinBound(s)
    && (forall l :: 0 <= l < |s.workers| ==> Conserved(s, l))
  }

  lemma StartInv(n: nat, limit: nat)
    requires n > 0
    ensures Inv(Start(n, limit))
  {
    var s := Start(n, limit);
    CountNone(IsAdmitted, s.workers);
    forall l | 0 <= l < n ensures Conserved(s, l) {
      assert OnLoop(s, l) == {};
    }
  }

  lemma StepKeepsInv(s: Server, a: Label)
    requires Inv(s) && Enabled(s, a)
    ensures Inv(Step(s, a))
  {
    StepKeepsPlaced(s, a);
    StepKeepsWithinBound(s, a);
    forall l | 0 <= l < |s.workers| ensures Conserved(Step(s, a), l) {
      StepKeepsConserved(s, a, l);
    }
  }

  /** Where a schedule leads; a label not enabled when its turn comes is skipped. */
  ghost function RunFrom(s: Server, schedule: seq<Label>): (s': Server)
    requires Shaped(s)
    ensures Shaped(s') && |s'.workers| == |s.workers| && s'.limit == s.limit
    decreases |schedule|
  {
    if schedule == [] then s
    else
      var s1 := RunFrom(s, schedule[..|schedule| - 1]);
      var a := schedule[|schedule| - 1];
      if Enabled(s1, a) then Step(s1, a) else s1
  }

  lemma {:induction false} RunKeepsInv(s: Server, schedule: seq<Label>)
    requires Inv(s)
    ensures Inv(RunFrom(s, schedule))
    decreases |schedule|
  {
    if schedule != [] {
      RunKeepsInv(s, schedule[..|schedule| - 1]);
      var s1 := RunFrom(s, schedule[..|schedule| - 1]);
      if Enabled(s1, schedule[|schedule| - 1]) {
        StepKeepsInv(s1, schedule[|schedule| - 1]);
      }
    }
  }

  ghost function Run(n: nat, limit: nat, schedule: seq<Label>): (s: Server)
    ensures Shaped(s) && |s.workers| == n && s.limit == limit
  {
    RunFrom(Start(n, limit), schedule)
  }

  lemma RunInv(n: nat, limit: nat, schedule: seq<Label>)
    requires n > 0
    ensures Inv(Run(n, limit, schedule))
  {
    StartInv(n, limit);
    RunKeepsInv(Start(n, limit), schedule);
  }

  /** In every interleaving the channels stay within limit + n - 1. */
  lemma AdmissionBound(n: nat, limit: nat, schedule: seq<Label>)
    requires n > 0
    ensures |Run(n, limit, schedule).channels| <= Bound(n, limit)
  {
    RunInv(n, limit, schedule);
  }

  /** In every interleaving every loop's connectionNum balances and none is ever negative. */
  lemma ConnectionNumBalances(n: nat, limit: nat, schedule: seq<Label>, l: nat)
    requires l < n
    ensures Conserved(Run(n, limit, schedule), l) && Run(n, limit, schedule).nums[l] >= 0
  {
    RunInv(n, limit, schedule);
    NeverNegative(Run(n, limit, schedule), l);
  }

  // ---------- The bound is met ----------

  lemma {:induction false} RunJoins(s: Server, a: seq<Label>, b: seq<Label>)
    requires Shaped(s)
    ensures RunFrom(s, a + b) == RunFrom(RunFrom(s, a), b)
    decreases |b|
  {
    if b == [] {
      assert a + b == a;
    } else {
      RunJoins(s, a, b[..|b| - 1]);
      assert (a + b)[..|a + b| - 1] == a + b[..|b| - 1];
    }
  }

  lemma RunOne(s: Server, a: Label)
    requires Shaped(s) && Enabled(s, a)
    ensures RunFrom(s, [a]) == Step(s, a)
  {
    assert [a][..0] == [];
    assert RunFrom(s, []) == s;
  }

  /** A connection goes through accept, dispatch and the check of loop l: it is let in. */
  lemma LetIn(s: Server, l: nat) returns (t: seq<Label>, s': Server)
    requires Inv(s) && l < |s.workers| && s.workers[l].Idle? && s.acceptor.Ready? && |s.channels| < s.limit
    ensures Inv(s') && s' == RunFrom(s, t)
    ensures s'.acceptor.Ready? && s'.channels == s.channels && s'.limit == s.limit
    ensures exists c :: s'.workers == s.workers[l := Admitted(c)]
    ensures |s'.place| == |s.place| + 1
  {
    var c := |s.place|;
    var s1 := Step(s, Accept(l));
    StepKeepsInv(s, Accept(l));
    RunOne(s, Accept(l));
    var s2 := Step(s1, Dispatch);
    StepKeepsInv(s1, Dispatch);
    RunOne(s1, Dispatch);
    s' := Step(s2, Check(l, c));
    StepKeepsInv(s2, Check(l, c));
    RunOne(s2, Check(l, c));
    RunJoins(s, [Accept(l)], [Dispatch]);
    RunJoins(s, [Accept(l)] + [Dispatch], [Check(l, c)]);
    t := [Accept(l)] + [Dispatch] + [Check(l, c)];
    assert s'.workers == s.workers[l := Admitted(c)];
  }

  lemma AddOne(s: Server, l: nat) returns (s': Server)
    requires Inv(s) && l < |s.workers| && s.workers[l].Admitted?
    ensures Inv(s') && s' == RunFrom(s, [Add(l)])
    ensures s'.acceptor == s.acceptor && s'.workers == s.workers[l := Idle] && |s'.channels| == |s.channels| + 1
    ensures s'.limit == s.limit && |s'.place| == |s.place|
  {
    var c := s.workers[l].conn;
    s' := Step(s, Add(l));
    StepKeepsInv(s, Add(l));
    RunOne(s, Add(l));
    assert s'.channels.Keys == s.channels.Keys + {c};
  }

  ghost predicate Quiet(s: Server) {
    s.acceptor.Ready? && forall l :: 0 <= l < |s.workers| ==> s.workers[l].Idle?
  }

  /** One loop alone can fill the server up to its limit. */
  lemma {:induction false} Fill(s: Server, k: nat) returns (t: seq<Label>, s': Server)
    requires Inv(s) && Quiet(s) && |s.channels| + k <= s.limit
    ensures Inv(s') && s' == RunFrom(s, t) && Quiet(s') && |s'.channels| == |s.channels| + k
    ensures s'.limit == s.limit && |s'.workers| == |s.workers| && |s'.place| == |s.place| + k
    decreases k
  {
    if k == 0 {
      t, s' := [], s;
    } else {
      var t1, s1 := LetIn(s, 0);
      var s2 := AddOne(s1, 0);
      RunJoins(s, t1, [Add(0)]);
      var t3, s3 := Fill(s2, k - 1);
      RunJoins(s, t1 + [Add(0)], t3);
      t, s' := t1 + [Add(0)] + t3, s3;
    }
  }

  /** With one place left, loops 0 to k - 1 can all pass the check before any of them adds. */
  lemma {:induction false} LetAllIn(s: Server, k: nat) returns (t: seq<Label>, s': Server)
    requires Inv(s) && Quiet(s) && k <= |s.workers| && |s.channels| < s.limit
    ensures Inv(s') && s' == RunFrom(s, t) && s'.channels == s.channels && s'.limit == s.limit
    ensures |s'.workers| == |s.workers| && s'.acceptor.Ready?
    ensures forall l :: 0 <= l < |s.workers| ==> if l < k then s'.workers[l].Admitted? else s'.workers[l].Idle?
    decreases k
  {
    if k == 0 {
      t, s' := [], s;
    } else {
      var t1, s1 := LetAllIn(s, k - 1);
      var t2, s2 := LetIn(s1, k - 1);
      RunJoins(s, t1, t2);
      t, s' := t1 + t2, s2;
    }
  }

  ghost predicate FirstAdmitted(s: Server, k: nat) {
    k <= |s.workers| && forall l :: 0 <= l < k ==> s.workers[l].Admitted?
  }

  lemma AddLast(s: Server, k: nat) returns (s': Server)
    requires Inv(s) && k > 0 && FirstAdmitted(s, k)
    ensures Inv(s') && s' == RunFrom(s, [Add(k - 1)]) && FirstAdmitted(s', k - 1)
    ensures |s'.channels| == |s.channels| + 1
  {
    s' := AddOne(s, k - 1);
  }

  lemma {:induction false} AddAll(s: Server, k: nat) returns (t: seq<Label>, s': Server)
    requires Inv(s) && FirstAdmitted(s, k)
    ensures Inv(s') && s' == RunFrom(s, t) && |s'.channels| == |s.channels| + k
    decreases k
  {
    if k == 0 {
      t, s' := [], s;
    } else {
      var s1 := AddLast(s, k);
      var t2, s2 := AddAll(s1, k - 1);
      RunJoins(s, [Add(k - 1)], t2);
      t, s' := [Add(k - 1)] + t2, s2;
    }
  }

  lemma BoundIsMet(n: nat, limit: nat) returns (schedule: seq<Label>)
    requires n > 0
    ensures |Run(n, limit, schedule).channels| == Bound(n, limit)
  {
    StartInv(n, limit);
    var s := Start(n, limit);
    if limit == 0 {
      schedule := [];
      AdmissionBound(n, limit, schedule);
    } else {
      var t1, s1 := Fill(s, limit - 1);
      var t2, s2 := LetAllIn(s1, n);
      RunJoins(s, t1, t2);
      var t3, s3 := AddAll(s2, n);
      RunJoins(s, t1 + t2, t3);
      schedule := t1 + t2 + t3;
    }
  }

  /** The configured limit itself is kept in every run exactly with one loop, or if it is 0. */
  lemma LimitIsExactIffOneLoop(n: nat, limit: nat)
    requires n > 0
    ensures (forall schedule :: |Run(n, limit, schedule).channels| <= limit) <==> n == 1 || limit == 0
  {
    forall schedule ensures |Run(n, limit, schedule).channels| <= Bound(n, limit) {
      AdmissionBound(n, limit, schedule);
    }
    var schedule := BoundIsMet(n, limit);
    assert |Run(n, limit, schedule).channels| == Bound(n, limit);
  }

  // ---------- When connectionNum counts the live connections ----------

  /** Nobody was ever turned away: connectionNum counts exactly what is open or about to be. */
  ghost predicate NoneRejected(s: Server) {
    forall l :: 0 <= l < |s.rejected| ==> s.rejected[l] == 0
  }

  predicate IsLive(p: Place) {
    p != Gone
  }

  /** The connections there are: accepted, and neither turned away nor closed. */
  ghost function Live(s: Server): nat {
    Count(IsLive, s.place)
  }

  /** At most k of them at every moment of the run. */
  ghost predicate FewLive(s: Server, k: nat, schedule: seq<Label>)
    requires Shaped(s)
    decreases |schedule|
  {
    && Live(RunFrom(s, schedule)) <= k
    && (schedule == [] || FewLive(s, k, schedule[..|schedule| - 1]))
  }

  lemma {:induction false} IndicesCounted(p: Place -> bool, place: seq<Place>, ids: set<nat>)
    requires forall i :: i in ids ==> i < |place| && p(place[i])
    ensures |ids| <= Count(p, place)
  {
    if place == [] {
      assert ids == {};
    } else {
      var last := |place| - 1;
      IndicesCounted(p, place[..last], ids - {last});
      if last !in ids {
        assert ids - {last} == ids;
      }
    }
  }

  /** Whoever is turned away is one live connection too many. */
  lemma RejectedNeedsMore(s: Server, l: nat, c: Conn)
    requires Shaped(s) && Placed(s) && Enabled(s, Check(l, c)) && |s.channels| >= s.limit
    ensures Live(s) > s.limit
  {
    assert s.place[c] == Waiting(l) && c !in s.channels;
    IndicesCounted(IsLive, s.place, s.channels.Keys + {c});
  }

  lemma {:induction false} FewAreNeverRejected(s: Server, schedule: seq<Label>)
    requires Inv(s) && NoneRejected(s) && FewLive(s, s.limit, schedule)
    ensures NoneRejected(RunFrom(s, schedule))
    decreases |schedule|
  {
    if schedule != [] {
      var before, a := schedule[..|schedule| - 1], schedule[|schedule| - 1];
      var s1 := RunFrom(s, before);
      RunKeepsInv(s, before);
      FewAreNeverRejected(s, before);
      if a.Check? && Enabled(s1, a) && |s1.channels| >= s1.limit {
        RejectedNeedsMore(s1, a.loop, a.conn);
      }
    }
  }

  /** There are never more connections than were ever accepted. */
  lemma {:induction false} AcceptedBoundsLive(s: Server, schedule: seq<Label>, k: nat)
    requires Shaped(s) && |RunFrom(s, schedule).place| <= k
    ensures FewLive(s, k, schedule)
    decreases |schedule|
  {
    CountAtMost(IsLive, RunFrom(s, schedule).place);
    if schedule != [] {
      AcceptedBoundsLive(s, schedule[..|schedule| - 1], k);
    }
  }

  lemma FewLiveWeaker(s: Server, schedule: seq<Label>, k: nat, k': nat)
    requires Shaped(s) && FewLive(s, k, schedule) && k <= k'
    ensures FewLive(s, k', schedule)
    decreases |schedule|
  {
    if schedule != [] {
      FewLiveWeaker(s, schedule[..|schedule| - 1], k, k');
    }
  }

  /** One connection more than the limit, and somebody is turned away. */
  lemma TurnAway(n: nat, limit: nat) returns (schedule: seq<Label>)
    requires n > 0
    ensures var s := Run(n, limit, schedule);
            |s.place| == limit + 1 && s.rejected[0] == 1 && |s.channels| == limit
  {
    StartInv(n, limit);
    var t1, s1 := Fill(Start(n, limit), limit);
    AcceptedBoundsLive(Start(n, limit), t1, limit);
    FewAreNeverRejected(Start(n, limit), t1);
    var t2, s2 := Rejects(s1, 0);
    RunJoins(Start(n, limit), t1, t2);
    schedule := t1 + t2;
  }

  lemma Rejects(s: Server, l: nat) returns (t: seq<Label>, s': Server)
    requires Inv(s) && Quiet(s) && l < |s.workers| && |s.channels| >= s.limit
    ensures s' == RunFrom(s, t) && s'.channels == s.channels && |s'.place| == |s.place| + 1
    ensures s'.rejected == s.rejected[l := s.rejected[l] + 1]
  {
    var c := |s.place|;
    var s1 := Step(s, Accept(l));
    RunOne(s, Accept(l));
    var s2 := Step(s1, Dispatch);
    RunOne(s1, Dispatch);
    s' := Step(s2, Check(l, c));
    RunOne(s2, Check(l, c));
    RunJoins(s, [Accept(l)], [Dispatch]);
    RunJoins(s, [Accept(l)] + [Dispatch], [Check(l, c)]);
    t := [Accept(l)] + [Dispatch] + [Check(l, c)];
  }

  /**
    With at most k connections there at any moment, no run turns anybody away exactly if k is
    within the limit; only then does every connectionNum count just the connections there are.
   */
  lemma NoneRejectedIffFewLive(n: nat, limit: nat, k: nat)
    requires n > 0
    ensures (forall schedule :: FewLive(Start(n, limit), k, schedule) ==> NoneRejected(Run(n, limit, schedule))) <==>
              k <= limit
  {
    StartInv(n, limit);
    if k <= limit {
      forall schedule | FewLive(Start(n, limit), k, schedule)
        ensures NoneRejected(Run(n, limit, schedule))
      {
        FewLiveWeaker(Start(n, limit), schedule, k, limit);
        FewAreNeverRejected(Start(n, limit), schedule);
      }
    } else {
      var schedule := TurnAway(n, limit);
      AcceptedBoundsLive(Start(n, limit), schedule, k);
      assert !NoneRejected(Run(n, limit, schedule));
    }
  }

  /** What a loop's connectionNum should count. */
  ghost predicate CountsLive(s: Server, l: nat)
    requires Shaped(s) && l < |s.workers|
  {
    s.nums[l] + |HalfClosed(s.workers[l])|
      == |OnLoop(s, l)| + |s.waiting[l]| + (if s.workers[l].Admitted? then 1 else 0)
         + (if s.acceptor.Picked? && s.acceptor.loop == l then 1 else 0)
  }

  /** In every run a loop's counter is off by exactly the connections that loop turned away. */
  lemma CountsLiveIffNoneRejected(n: nat, limit: nat, schedule: seq<Label>, l: nat)
    requires l < n
    ensures CountsLive(Run(n, limit, schedule), l) <==> Run(n, limit, schedule).rejected[l] == 0
  {
    RunInv(n, limit, schedule);
    assert Conserved(Run(n, limit, schedule), l);
  }
}
