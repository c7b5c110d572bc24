/** `EventLoopThreadPool::nextLoop`: which worker loop gets the next connection. */
module LoadBalance {
  import opened Wrappers

  datatype Policy = RoundRobin | Random | LeastConnections | IpHash | UrlHash

  // ---------- One choice ----------

  /** The first loop with the fewest connections. */
  ghost predicate IsLeast(counts: seq<nat>, idx: nat) {
    && idx < |counts|
    && (forall j :: 0 <= j < |counts| ==> counts[idx] <= counts[j])
    && (forall j :: 0 <= j < idx ==> counts[idx] < counts[j])
  }

  lemma LeastIsUnique(counts: seq<nat>, a: nat, b: nat)
    requires IsLeast(counts, a) && IsLeast(counts, b)
    ensures a == b
  {
    assert counts[a] <= counts[b] <= counts[a];
  }

  class EventLoop {
    var connectionNum: nat

    constructor ()
      ensures connectionNum == 0
    {
      connectionNum := 0;
    }
  }

  class EventLoopThreadPool {
    const loops: seq<EventLoop>
    var nextLoopIdx: nat

    ghost function Counts(): (c: seq<nat>)
      reads loops
      ensures |c| == |loops|
    {
      seq(|loops|, i requires 0 <= i < |loops| reads loops => loops[i].connectionNum)
    }

    constructor (loops: seq<EventLoop>)
      ensures this.loops == loops && nextLoopIdx == 0
    {
      this.loops := loops;
      nextLoopIdx := 0;
    }

    /** None is the null pointer of a pool without loops; `roll` is what hv_rand returned. */
    method NextLoop(lb: Policy, roll: nat) returns (idx: Option<nat>)
      requires lb == Random && loops != [] ==> roll < |loops|
      modifies this`nextLoopIdx
      ensures idx.None? <==> loops == []
      ensures lb != RoundRobin || loops == [] ==> nextLoopIdx == old(nextLoopIdx)
      ensures loops != [] ==>
                match lb
                case RoundRobin => idx.value == nextLoopIdx == Turn(|loops|, old(nextLoopIdx))
                case Random => idx.value == roll
                case LeastConnections => idx.value == Least(Counts())
                case _ => idx.value == 0
    {
      if |loops| == 0 {
        return None;
      }
      var i := 0;
      if lb == RoundRobin {
        nextLoopIdx := nextLoopIdx + 1;
        if nextLoopIdx >= |loops| {
          nextLoopIdx := 0;
        }
        i := nextLoopIdx;
      } else if lb == Random {
        i := roll;
      } else if lb == LeastConnections {
        for k := 1 to |loops|
          invariant i < k
          invariant forall j :: 0 <= j < k ==> loops[i].connectionNum <= loops[j].connectionNum
          invariant forall j :: 0 <= j < i ==> loops[i].connectionNum < loops[j].connectionNum
        {
          if loops[k].connectionNum < loops[i].connectionNum {
            i := k;
          }
        }
        LeastIsUnique(Counts(), i, Least(Counts()));
      }
      return Some(i);
    }
  }

  function Turn(n: nat, idx: nat): (next: nat)
    requires n > 0
    ensures next < n
  {
    if idx + 1 >= n then 0 else idx + 1
  }

  /** The loop LeastConnections picks, as a value. */
  ghost function Least(counts: seq<nat>): (idx: nat)
    requires counts != []
    ensures IsLeast(counts, idx)
  {
    if |counts| == 1 then 0
    else
      var rest := Least(counts[..|counts| - 1]);
      if counts[|counts| - 1] < counts[rest] then |counts| - 1 else rest
  }

  // ---------- Runs that only accept ----------

  ghost function Total(counts: seq<nat>): nat {
    if counts == [] then 0 else Total(counts[..|counts| - 1]) + counts[|counts| - 1]
  }

  function Zeros(n: nat): seq<nat> {
    seq(n, _ => 0)
  }

  /** Each of n loops has its fair share of k connections: k/n rounded down or up. */
  ghost predicate Fair(counts: seq<nat>, k: nat) {
    && |counts| > 0
    && (forall j :: 0 <= j < |counts| ==>
          counts[j] == k / |counts| || (k % |counts| != 0 && counts[j] == k / |counts| + 1))
  }

  /** One more connection for the loop LeastConnections picks. */
  ghost function Accepted(counts: seq<nat>): (after: seq<nat>)
    requires counts != []
    ensures |after| == |counts|
  {
    var i := Least(counts);
    counts[i := counts[i] + 1]
  }

  ghost function LeastRun(n: nat, k: nat): (counts: seq<nat>)
    requires n > 0
    ensures |counts| == n
  {
    if k == 0 then Zeros(n)
    else Accepted(LeastRun(n, k - 1))
  }

  /** Counts and the cursor after k turns, the cursor starting anywhere. */
  ghost function RoundRobinRun(n: nat, start: nat, k: nat): (r: (seq<nat>, nat))
    requires n > 0 && start < n
    ensures |r.0| == n && r.1 < n
  {
    if k == 0 then (Zeros(n), start)
    else
      var (before, idx) := RoundRobinRun(n, start, k - 1);
      (before[Turn(n, idx) := before[Turn(n, idx)] + 1], Turn(n, idx))
  }

  lemma {:induction false} TotalUpdate(counts: seq<nat>, i: nat, v: nat)
    requires i < |counts|
    ensures Total(counts[i := v]) == Total(counts) - counts[i] + v
  {
    var last := |counts| - 1;
    if i < last {
      TotalUpdate(counts[..last], i, v);
      assert counts[i := v][..last] == counts[..last][i := v];
    } else {
      assert counts[i := v][..last] == counts[..last];
    }
  }

  lemma {:induction false} TotalBetween(counts: seq<nat>, low: nat)
    requires Level(counts, low)
    ensures low * |counts| <= Total(counts) <= (low + 1) * |counts|
    ensures Total(counts) == low * |counts| ==> forall j :: 0 <= j < |counts| ==> counts[j] == low
    ensures Total(counts) == (low + 1) * |counts| ==> forall j :: 0 <= j < |counts| ==> counts[j] == low + 1
  {
    if counts != [] {
      var n := |counts| - 1;
      TotalBetween(counts[..n], low);
      OneMore(low, n);
      OneMore(low + 1, n);
      assert forall j :: 0 <= j < n ==> counts[j] == counts[..n][j];
    }
  }

  lemma OneMore(a: nat, n: nat)
    ensures a * (n + 1) == a * n + a
  {
  }

  lemma {:induction false} TotalOfZeros(n: nat)
    ensures Total(Zeros(n)) == 0
  {
    if n > 0 {
      TotalOfZeros(n - 1);
      assert Zeros(n)[..n - 1] == Zeros(n - 1);
    }
  }

  /** Counts that differ by at most one are a fair split of their total. */
  lemma LevelIsFair(counts: seq<nat>, low: nat)
    requires counts != [] && Level(counts, low)
    ensures Fair(counts, Total(counts))
  {
    var n, k := |counts|, Total(counts);
    TotalBetween(counts, low);
    if k == (low + 1) * n {
      Quotient(k, n, low + 1);
    } else {
      Quotient(k, n, low);
    }
  }

  lemma Quotient(k: nat, n: nat, q: nat)
    requires n > 0 && q * n <= k < (q + 1) * n
    ensures k / n == q && k % n == k - q * n
  {
    var d := k / n;
    assert k == d * n + k % n;
    MulMono(d + 1, q, n);
    MulMono(q + 1, d, n);
  }

  lemma MulMono(a: nat, b: nat, n: nat)
    ensures a <= b ==> a * n <= b * n
  {
  }

  ghost predicate Level(counts: seq<nat>, low: nat) {
    forall j :: 0 <= j < |counts| ==> low <= counts[j] <= low + 1
  }

  lemma AcceptKeepsLevel(before: seq<nat>, low: nat) returns (low': nat)
    requires before != [] && Level(before, low)
    ensures Level(Accepted(before), low') && Total(Accepted(before)) == Total(before) + 1
  {
    var i := Least(before);
    TotalUpdate(before, i, before[i] + 1);
    low' := before[i];
  }

  lemma {:induction false} LeastStaysLevel(n: nat, k: nat) returns (low: nat)
    requires n > 0
    ensures Total(LeastRun(n, k)) == k && Level(LeastRun(n, k), low)
  {
    if k == 0 {
      TotalOfZeros(n);
      low := 0;
    } else {
      low := LeastStaysLevel(n, k - 1);
      low := AcceptKeepsLevel(LeastRun(n, k - 1), low);
    }
  }

  lemma LeastConnectionsIsFair(n: nat, k: nat)
    requires n > 0
    ensures Fair(LeastRun(n, k), k)
  {
    var low := LeastStaysLevel(n, k);
    LevelIsFair(LeastRun(n, k), low);
  }

  /** Loop j is among the first r after `start`, going round. */
  predicate Within(n: nat, start: nat, r: nat, j: nat) {
    start < j <= start + r || j + n <= start + r
  }

  /** n loops after q full rounds and r more turns from `start`. */
  ghost predicate Rounds(counts: seq<nat>, idx: nat, start: nat, q: nat, r: nat) {
    && r < |counts|
    && idx == (if start + r < |counts| then start + r else start + r - |counts|)
    && (forall j :: 0 <= j < |counts| ==> counts[j] == q + if Within(|counts|, start, r, j) then 1 else 0)
  }

  lemma TurnKeepsRounds(counts: seq<nat>, idx: nat, start: nat, q: nat, r: nat)
    requires start < |counts| && Rounds(counts, idx, start, q, r)
    ensures var next := Turn(|counts|, idx);
            var after := counts[next := counts[next] + 1];
            if r == |counts| - 1 then Rounds(after, next, start, q + 1, 0) else Rounds(after, next, start, q, r + 1)
  {
  }

  lemma {:induction false} RoundRobinRounds(n: nat, start: nat, k: nat) returns (q: nat, r: nat)
    requires n > 0 && start < n
    ensures q * n + r == k && Rounds(RoundRobinRun(n, start, k).0, RoundRobinRun(n, start, k).1, start, q, r)
  {
    if k == 0 {
      q, r := 0, 0;
    } else {
      q, r := RoundRobinRounds(n, start, k - 1);
      var (before, idx) := RoundRobinRun(n, start, k - 1);
      TurnKeepsRounds(before, idx, start, q, r);
      if r == n - 1 {
        assert (q + 1) * n == q * n + n;
        q, r := q + 1, 0;
      } else {
        r := r + 1;
      }
    }
  }

  lemma RoundRobinShape(n: nat, start: nat, k: nat)
    requires n > 0 && start < n
    ensures var (counts, idx) := RoundRobinRun(n, start, k);
            Rounds(counts, idx, start, k / n, k % n)
  {
    var q, r := RoundRobinRounds(n, start, k);
    OneMore(n, q);
    Quotient(k, n, q);
  }

  /** Round robin is fair too, from wherever its cursor stands. */
  lemma RoundRobinIsFair(n: nat, start: nat, k: nat)
    requires n > 0 && start < n
    ensures Fair(RoundRobinRun(n, start, k).0, k)
  {
    RoundRobinShape(n, start, k);
    assert forall j :: 0 <= j < n && k % n == 0 ==> !Within(n, start, 0, j);
  }

  // ---------- Accepts while connections close ----------

  /**
    The acceptor thread, one counter read a step. Which of the two counters in the comparison is
    read first is not fixed by C++: `ofIdx` tells which one has been.
   */
  datatype Acceptor =
    | Ready
    | Reading(i: nat, idx: nat)                            // 41: about to compare loops i and idx
    | Comparing(i: nat, idx: nat, seen: nat, ofIdx: bool)  // 42: has read one of the two
    | Chosen(idx: nat)                                     // about to run ++connectionNum

  datatype Balance = Balance(
    counts: seq<nat>,
    acceptor: Acceptor,
    begun: seq<nat>,   // history: the counters when the scan under way began
    peak: nat)         // history: the most connections ever open at once

  datatype Label = Advance(idxFirst: bool) | Close(loop: nat)

  function Scanned(n: nat, i: nat, idx: nat): Acceptor {
    if i < n then Reading(i, idx) else Chosen(idx)
  }

  predicate Shaped(b: Balance) {
    && |b.counts| == |b.begun| > 0
    && match b.acceptor
       case Ready => true
       case Reading(i, idx) => idx < i < |b.counts|
       case Comparing(i, idx, _, _) => idx < i < |b.counts|
       case Chosen(idx) => idx < |b.counts|
  }

  ghost function Incremented(counts: seq<nat>, i: nat): (after: seq<nat>)
    requires i < |counts|
    ensures |after| == |counts|
  {
    counts[i := counts[i] + 1]
  }

  ghost function Step(b: Balance, a: Label): (b': Balance)
    requires Shaped(b)
    ensures Shaped(b') && |b'.counts| == |b.counts|
  {
    match a
    case Close(l) =>
      if l < |b.counts| && b.counts[l] > 0 then b.(counts := b.counts[l := b.counts[l] - 1]) else b
    case Advance(idxFirst) =>
      match b.acceptor
      case Ready => b.(begun := b.counts, acceptor := Scanned(|b.counts|, 1, 0))
      case Reading(i, idx) =>
        b.(acceptor := Comparing(i, idx, if idxFirst then b.counts[idx] else b.counts[i], idxFirst))
      case Comparing(i, idx, seen, ofIdx) =>
        var less := if ofIdx then b.counts[i] < seen else seen < b.counts[idx];
        b.(acceptor := Scanned(|b.counts|, i + 1, if less then i else idx))
      case Chosen(idx) =>
        var after := Incremented(b.counts, idx);
        b.(counts := after, acceptor := Ready, peak := if Total(after) > b.peak then Total(after) else b.peak)
  }

  ghost function RunFrom(b: Balance, schedule: seq<Label>): (b': Balance)
    requires Shaped(b)
    ensures Shaped(b') && |b'.counts| == |b.counts|
    decreases |schedule|
  {
    if schedule == [] then b
    else Step(RunFrom(b, schedule[..|schedule| - 1]), schedule[|schedule| - 1])
  }

  function Start(n: nat): Balance {
    Balance(Zeros(n), Ready, Zeros(n), 0)
  }

  ghost function Run(n: nat, schedule: seq<Label>): (b: Balance)
    requires n > 0
    ensures Shaped(b) && |b.counts| == n
  {
    RunFrom(Start(n), schedule)
  }

  // ---------- What closes during a scan leave of the balance ----------

  /** c - 1 is at most peak / n, written without a division. */
  predicate AlmostShare(c: nat, n: nat, peak: nat) {
    c > 0 ==> (c - 1) * n <= peak
  }

  /** c is at most peak / n rounded up. */
  predicate AtMostShare(c: nat, n: nat, peak: nat) {
    c > 0 ==> (c - 1) * n < peak
  }

  /** x is no more than each of the first i counters was when the scan began. */
  ghost predicate Below(x: nat, begun: seq<nat>, i: nat) {
    forall j :: 0 <= j < i && j < |begun| ==> x <= begun[j]
  }

  ghost predicate ScanOk(b: Balance)
    requires Shaped(b)
  {
    && Total(b.begun) <= b.peak
    && (forall j :: 0 <= j < |b.counts| ==> b.counts[j] <= b.begun[j])
    && match b.acceptor
       case Ready => true
       case Reading(i, idx) => Below(b.counts[idx], b.begun, i)
       case Comparing(i, idx, seen, true) => Below(seen, b.begun, i) && b.counts[idx] <= seen
       case Comparing(i, idx, seen, false) => Below(b.counts[idx], b.begun, i) && b.counts[i] <= seen <= b.begun[i]
       case Chosen(idx) => Below(b.counts[idx], b.begun, |b.counts|)
  }

  ghost predicate Inv(b: Balance) {
    && Shaped(b) && Total(b.counts) <= b.peak
    && (!b.acceptor.Ready? ==> ScanOk(b))
    && (forall j :: 0 <= j < |b.counts| ==> AlmostShare(b.counts[j], |b.counts|, b.peak))
  }

  lemma {:induction false} TotalAtLeast(counts: seq<nat>, low: nat)
    requires forall j :: 0 <= j < |counts| ==> low <= counts[j]
    ensures low * |counts| <= Total(counts)
  {
    if counts != [] {
      var n := |counts| - 1;
      TotalAtLeast(counts[..n], low);
      OneMore(low, n);
    }
  }

  lemma AlmostShareShrinks(c: nat, c': nat, n: nat, peak: nat, peak': nat)
    requires c' <= c && peak <= peak' && AlmostShare(c, n, peak)
    ensures AlmostShare(c', n, peak')
  {
    if c' > 0 {
      MulMono(c' - 1, c - 1, n);
    }
  }

  lemma CloseKeepsInv(b: Balance, l: nat)
    requires Inv(b)
    ensures Inv(Step(b, Close(l)))
  {
    var b' := Step(b, Close(l));
    if l < |b.counts| && b.counts[l] > 0 {
      TotalUpdate(b.counts, l, b.counts[l] - 1);
    }
    forall j | 0 <= j < |b'.counts| ensures AlmostShare(b'.counts[j], |b.counts|, b.peak) {
      AlmostShareShrinks(b.counts[j], b'.counts[j], |b.counts|, b.peak, b.peak);
    }
  }

  lemma IncrementKeepsInv(b: Balance, idxFirst: bool)
    requires Inv(b) && b.acceptor.Chosen?
    ensures Inv(Step(b, Advance(idxFirst)))
  {
    var b', idx := Step(b, Advance(idxFirst)), b.acceptor.idx;
    TotalAtLeast(b.begun, b.counts[idx]);
    forall j | 0 <= j < |b'.counts| ensures AlmostShare(b'.counts[j], |b.counts|, b'.peak) {
      if j != idx {
        AlmostShareShrinks(b.counts[j], b.counts[j], |b.counts|, b.peak, b'.peak);
      }
    }
  }

  lemma ScanKeepsInv(b: Balance, idxFirst: bool)
    requires Inv(b) && !b.acceptor.Chosen?
    ensures Inv(Step(b, Advance(idxFirst)))
  {
    assert Step(b, Advance(idxFirst)).counts == b.counts;
  }

  lemma {:induction false} RunKeepsInv(n: nat, schedule: seq<Label>)
    requires n > 0
    ensures Inv(Run(n, schedule))
    decreases |schedule|
  {
    if schedule == [] {
      TotalOfZeros(n);
    } else {
      var before, a := schedule[..|schedule| - 1], schedule[|schedule| - 1];
      RunKeepsInv(n, before);
      var b := Run(n, before);
      match a
      case Close(l) => CloseKeepsInv(b, l);
      case Advance(idxFirst) =>
        if b.acceptor.Chosen? {
          IncrementKeepsInv(b, idxFirst);
        } else {
          ScanKeepsInv(b, idxFirst);
        }
    }
  }

  /**
    In every interleaving of one acceptor with closes, a loop carries at most one connection more
    than its share of the largest number ever open at once.
   */
  lemma LoadNearPeakShare(n: nat, schedule: seq<Label>)
    requires n > 0
    ensures var b := Run(n, schedule);
            forall j :: 0 <= j < n ==> AlmostShare(b.counts[j], n, b.peak)
  {
    RunKeepsInv(n, schedule);
  }

  // ---------- Without closes during scans ----------

  /** Every close in the schedule comes while no accept is under way. */
  ghost predicate StillDuringScans(n: nat, schedule: seq<Label>)
    requires n > 0
    decreases |schedule|
  {
    schedule == [] ||
    (var before := schedule[..|schedule| - 1];
     && StillDuringScans(n, before)
     && (schedule[|schedule| - 1].Close? ==> Run(n, before).acceptor.Ready?))
  }

  /** idx is the first of the loops before i with the fewest connections. */
  ghost predicate StillOk(b: Balance)
    requires Shaped(b)
  {
    match b.acceptor
    case Ready => true
    case Reading(i, idx) => IsLeast(b.counts[..i], idx)
    case Comparing(i, idx, seen, ofIdx) => IsLeast(b.counts[..i], idx) && seen == b.counts[if ofIdx then idx else i]
    case Chosen(idx) => IsLeast(b.counts, idx)
  }

  ghost predicate Strict(b: Balance) {
    && |b.counts| > 0
    && (forall j :: 0 <= j < |b.counts| ==> AtMostShare(b.counts[j], |b.counts|, b.peak))
  }

  lemma AdvanceStill(b: Balance, idxFirst: bool)
    requires Shaped(b) && StillOk(b)
    ensures StillOk(Step(b, Advance(idxFirst)))
  {
    if b.acceptor.Comparing? {
      var i := b.acceptor.i;
      LeastOfMore(b.counts, i, b.acceptor.idx);
      assert b.counts[..|b.counts|] == b.counts;
    } else if b.acceptor.Ready? {
      assert |b.counts| == 1 ==> IsLeast(b.counts, 0);
    }
  }

  lemma LeastOfMore(counts: seq<nat>, i: nat, idx: nat)
    requires i < |counts| && IsLeast(counts[..i], idx)
    ensures IsLeast(counts[..i + 1], if counts[i] < counts[idx] then i else idx)
  {
    assert forall j :: 0 <= j < i ==> counts[..i + 1][j] == counts[..i][j];
  }

  lemma AtMostShareShrinks(c: nat, c': nat, n: nat, peak: nat, peak': nat)
    requires c' <= c && peak <= peak' && AtMostShare(c, n, peak)
    ensures AtMostShare(c', n, peak')
  {
    if c' > 0 {
      MulMono(c' - 1, c - 1, n);
    }
  }

  /** The loop an accept goes to had at most an even share of what was open. */
  lemma IncrementKeepsStrict(b: Balance, idxFirst: bool)
    requires Inv(b) && b.acceptor.Chosen? && StillOk(b) && Strict(b)
    ensures Strict(Step(b, Advance(idxFirst)))
  {
    var b', idx := Step(b, Advance(idxFirst)), b.acceptor.idx;
    TotalAtLeast(b.counts, b.counts[idx]);
    TotalUpdate(b.counts, idx, b.counts[idx] + 1);
    forall j | 0 <= j < |b'.counts| ensures AtMostShare(b'.counts[j], |b.counts|, b'.peak) {
      if j != idx {
        AtMostShareShrinks(b.counts[j], b.counts[j], |b.counts|, b.peak, b'.peak);
      }
    }
  }

  lemma CloseKeepsStrict(b: Balance, l: nat)
    requires Shaped(b) && Strict(b)
    ensures Strict(Step(b, Close(l)))
  {
    var b' := Step(b, Close(l));
    forall j | 0 <= j < |b'.counts| ensures AtMostShare(b'.counts[j], |b.counts|, b.peak) {
      AtMostShareShrinks(b.counts[j], b'.counts[j], |b.counts|, b.peak, b.peak);
    }
  }

  lemma {:induction false} StillRuns(n: nat, schedule: seq<Label>)
    requires n > 0 && StillDuringScans(n, schedule)
    ensures StillOk(Run(n, schedule)) && Strict(Run(n, schedule))
    decreases |schedule|
  {
    if schedule != [] {
      var before, a := schedule[..|schedule| - 1], schedule[|schedule| - 1];
      StillRuns(n, before);
      RunKeepsInv(n, before);
      var b := Run(n, before);
      match a
      case Close(l) => CloseKeepsStrict(b, l);
      case Advance(idxFirst) =>
        AdvanceStill(b, idxFirst);
        if b.acceptor.Chosen? {
          IncrementKeepsStrict(b, idxFirst);
        }
    }
  }

  /** With the counters still, the scan chooses what nextLoop returns for them. */
  lemma StillScanIsNextLoop(n: nat, schedule: seq<Label>)
    requires n > 0 && StillDuringScans(n, schedule) && Run(n, schedule).acceptor.Chosen?
    ensures Run(n, schedule).acceptor.idx == Least(Run(n, schedule).counts)
  {
    StillRuns(n, schedule);
    var b := Run(n, schedule);
    LeastIsUnique(b.counts, b.acceptor.idx, Least(b.counts));
  }

  // ---------- The highest load ----------

  ghost predicate IsPeak(counts: seq<nat>, m: nat) {
    && (forall j :: 0 <= j < |counts| ==> counts[j] <= m)
    && (exists j :: 0 <= j < |counts| && counts[j] == m)
  }

  ghost predicate AllEqual(counts: seq<nat>, m: nat) {
    forall j :: 0 <= j < |counts| ==> counts[j] == m
  }

  /** The increment about to happen raises the highest load exactly if all loops are tied. */
  ghost predicate RisesOnlyOnTies(b: Balance)
    requires Shaped(b)
  {
    b.acceptor.Chosen? ==>
      forall m: nat :: IsPeak(b.counts, m) ==>
        (IsPeak(Incremented(b.counts, b.acceptor.idx), m + 1) <==> AllEqual(b.counts, m))
  }

  lemma LeastRisesOnlyOnTies(counts: seq<nat>, i: nat, m: nat)
    requires IsLeast(counts, i) && IsPeak(counts, m)
    ensures IsPeak(Incremented(counts, i), m + 1) <==> AllEqual(counts, m)
  {
    var after := Incremented(counts, i);
    if counts[i] == m {
      assert after[i] == m + 1;
    } else {
      assert forall j :: 0 <= j < |after| ==> after[j] <= m;
    }
  }

  // ---------- The run that overshoots ----------

  lemma {:induction false} RunJoins(b: Balance, s: seq<Label>, t: seq<Label>)
    requires Shaped(b)
    ensures RunFrom(b, s + t) == RunFrom(RunFrom(b, s), t)
    decreases |t|
  {
    if t == [] {
      assert s + t == s;
    } else {
      RunJoins(b, s, t[..|t| - 1]);
      assert (s + t)[..|s + t| - 1] == s + t[..|t| - 1];
    }
  }

  lemma RunOne(b: Balance, a: Label)
    requires Shaped(b)
    ensures RunFrom(b, [a]) == Step(b, a)
  {
    assert [a][..0] == [];
    assert RunFrom(b, []) == b;
  }

  function ToGo(n: nat, acceptor: Acceptor): nat {
    match acceptor
    case Ready => 2 * n + 2
    case Reading(i, _) => if i < n then 2 * (n - i) + 1 else 1
    case Comparing(i, _, _, _) => if i < n then 2 * (n - i) else 1
    case Chosen(_) => 0
  }

  /** Left to itself the acceptor finishes its scan. */
  lemma {:induction false} FinishScan(b: Balance) returns (t: seq<Label>, b': Balance)
    requires Shaped(b) && StillOk(b)
    ensures Shaped(b') && StillOk(b') && b' == RunFrom(b, t)
    ensures b'.acceptor.Chosen? && b'.counts == b.counts && b'.peak == b.peak
    decreases ToGo(|b.counts|, b.acceptor)
  {
    if b.acceptor.Chosen? {
      t, b' := [], b;
    } else {
      var b1 := Step(b, Advance(false));
      AdvanceStill(b, false);
      RunOne(b, Advance(false));
      var t2, b2 := FinishScan(b1);
      RunJoins(b, [Advance(false)], t2);
      t, b' := [Advance(false)] + t2, b2;
    }
  }

  lemma AcceptOnce(b: Balance) returns (t: seq<Label>, b': Balance)
    requires Shaped(b) && b.acceptor.Ready?
    ensures Shaped(b') && b' == RunFrom(b, t)
    ensures b'.acceptor.Ready? && b'.counts == Accepted(b.counts)
    ensures b'.peak == if Total(b'.counts) > b.peak then Total(b'.counts) else b.peak
  {
    var t1, b1 := FinishScan(b);
    LeastIsUnique(b1.counts, b1.acceptor.idx, Least(b1.counts));
    b' := Step(b1, Advance(false));
    RunOne(b1, Advance(false));
    RunJoins(b, t1, [Advance(false)]);
    t := t1 + [Advance(false)];
  }

  lemma {:induction false} AcceptMany(n: nat, k: nat) returns (t: seq<Label>, b: Balance)
    requires n > 0
    ensures Shaped(b) && b == RunFrom(Start(n), t)
    ensures b.acceptor.Ready? && b.counts == LeastRun(n, k) && b.peak == k
    decreases k
  {
    if k == 0 {
      t, b := [], Start(n);
    } else {
      var t1, b1 := AcceptMany(n, k - 1);
      var t2;
      t2, b := AcceptOnce(b1);
      var low := LeastStaysLevel(n, k);
      RunJoins(Start(n), t1, t2);
      t := t1 + t2;
    }
  }

  /** The scan settles on one of several loops that all have m connections; another one loses a connection. */
  lemma CloseBesideChosen(b: Balance, m: nat) returns (t: seq<Label>, b': Balance)
    requires Shaped(b) && b.acceptor.Ready? && |b.counts| > 1 && m > 0 && AllEqual(b.counts, m)
    ensures Shaped(b') && b' == RunFrom(b, t) && |b'.counts| == |b.counts|
    ensures b'.acceptor.Chosen? && b'.peak == b.peak && Total(b'.counts) == Total(b.counts) - 1
    ensures b'.counts[b'.acceptor.idx] == m && IsPeak(b'.counts, m) && !AllEqual(b'.counts, m)
  {
    var t1, b1 := FinishScan(b);
    var l := if b1.acceptor.idx == 0 then 1 else 0;
    b' := Step(b1, Close(l));
    RunOne(b1, Close(l));
    RunJoins(b, t1, [Close(l)]);
    t := t1 + [Close(l)];
    TotalUpdate(b1.counts, l, m - 1);
    assert b'.counts[b'.acceptor.idx] == m && b'.counts[l] == m - 1;
  }

  lemma CloseInBetween(n: nat, m: nat) returns (t: seq<Label>, b: Balance)
    requires n > 1 && m > 0
    ensures Shaped(b) && b == Run(n, t)
    ensures b.acceptor.Chosen? && b.peak == m * n && Total(b.counts) == m * n - 1
    ensures b.counts[b.acceptor.idx] == m && IsPeak(b.counts, m) && !AllEqual(b.counts, m)
  {
    var k := m * n;
    EvenRun(n, m);
    var t1, b1 := AcceptMany(n, k);
    var t2;
    t2, b := CloseBesideChosen(b1, m);
    RunJoins(Start(n), t1, t2);
    t := t1 + t2;
  }

  lemma EvenRun(n: nat, m: nat)
    requires n > 0
    ensures AllEqual(LeastRun(n, m * n), m) && Total(LeastRun(n, m * n)) == m * n
  {
    LeastConnectionsIsFair(n, m * n);
    Quotient(m * n, n, m);
    var low := LeastStaysLevel(n, m * n);
  }

  /** The bound cannot be improved: a loop can carry one connection more than its even share. */
  lemma NearShareIsReached(n: nat, m: nat) returns (t: seq<Label>)
    requires n > 1 && m > 0
    ensures var b := Run(n, t);
            exists j :: 0 <= j < n && b.counts[j] == m + 1 && m * n == b.peak
  {
    var t1, b1 := CloseInBetween(n, m);
    RunOne(b1, Advance(false));
    RunJoins(Start(n), t1, [Advance(false)]);
    t := t1 + [Advance(false)];
    TotalUpdate(b1.counts, b1.acceptor.idx, m + 1);
    assert Run(n, t).counts[b1.acceptor.idx] == m + 1;
  }

  // ---------- Exactly when the balance is perfect ----------

  /** `overlap`: whether connections may close between the first read of a scan and its increment. */
  ghost predicate Permitted(n: nat, schedule: seq<Label>, overlap: bool)
    requires n > 0
  {
    overlap || StillDuringScans(n, schedule)
  }

  /** With one loop there is nothing to choose. */
  lemma OneLoopIsPerfect(schedule: seq<Label>)
    ensures Strict(Run(1, schedule)) && RisesOnlyOnTies(Run(1, schedule))
  {
    RunKeepsInv(1, schedule);
    var b := Run(1, schedule);
    assert b.counts == [b.counts[0]] && Total(b.counts[..0]) == 0;
    assert Total(b.counts) == b.counts[0];
    if b.acceptor.Chosen? {
      forall m: nat | IsPeak(b.counts, m)
        ensures IsPeak(Incremented(b.counts, b.acceptor.idx), m + 1) <==> AllEqual(b.counts, m)
      {
        LeastRisesOnlyOnTies(b.counts, 0, m);
      }
    }
  }

  /**
    No loop ever carries more than its rounded-up share of the peak number of open connections:
    this holds in all runs exactly if no close falls between the first read of a scan and the
    increment, or there is only one loop.
   */
  lemma ShareIsKeptIffNoOverlap(n: nat, overlap: bool)
    requires n > 0
    ensures (forall schedule :: Permitted(n, schedule, overlap) ==> Strict(Run(n, schedule))) <==> !overlap || n == 1
  {
    if n == 1 {
      forall schedule ensures Strict(Run(n, schedule)) {
        OneLoopIsPerfect(schedule);
      }
    } else if !overlap {
      forall schedule | Permitted(n, schedule, overlap) ensures Strict(Run(n, schedule)) {
        StillRuns(n, schedule);
      }
    } else {
      var t := NearShareIsReached(n, 1);
      var b := Run(n, t);
      var j :| 0 <= j < n && b.counts[j] == 2;
      assert Permitted(n, t, overlap) && !AtMostShare(b.counts[j], n, b.peak);
    }
  }

  /** An accept raises the highest load only when all loops are tied: under the same condition. */
  lemma PeakRisesOnlyOnTiesIffNoOverlap(n: nat, overlap: bool)
    requires n > 0
    ensures (forall schedule :: Permitted(n, schedule, overlap) ==> RisesOnlyOnTies(Run(n, schedule)))
              <==> !overlap || n == 1
  {
    if n == 1 {
      forall schedule ensures RisesOnlyOnTies(Run(n, schedule)) {
        OneLoopIsPerfect(schedule);
      }
    } else if !overlap {
      forall schedule | Permitted(n, schedule, overlap) ensures RisesOnlyOnTies(Run(n, schedule)) {
        StillRisesOnlyOnTies(n, schedule);
      }
    } else {
      var t, b := CloseInBetween(n, 1);
      assert Incremented(b.counts, b.acceptor.idx)[b.acceptor.idx] == 2;
      assert IsPeak(Incremented(b.counts, b.acceptor.idx), 2);
      assert Permitted(n, t, overlap) && !RisesOnlyOnTies(b);
    }
  }

  lemma StillRisesOnlyOnTies(n: nat, schedule: seq<Label>)
    requires n > 0 && StillDuringScans(n, schedule)
    ensures RisesOnlyOnTies(Run(n, schedule))
  {
    StillRuns(n, schedule);
    var b := Run(n, schedule);
    if b.acceptor.Chosen? {
      forall m: nat | IsPeak(b.counts, m)
        ensures IsPeak(Incremented(b.counts, b.acceptor.idx), m + 1) <==> AllEqual(b.counts, m)
      {
        LeastRisesOnlyOnTies(b.counts, b.acceptor.idx, m);
      }
    }
  }
}
