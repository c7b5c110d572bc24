/**
  `HThreadPool::wait` when workers can retire: with min < max and at least two threads there is a
  run of one client in which `wait` leaves its loop by `break` while a task is still running.
 */
module ThreadPoolEarly {
  import opened Wrappers
  import opened ThreadPool
  import opened ThreadPoolTheorems
  import opened ThreadPoolWait
  import opened ThreadPoolRuns
  import opened ThreadPoolStage

  lemma BreakTurns(sh: Shared)
    requires sh.cur == sh.idle
    ensures ClientTurns(sh, 0, WaitIdle, 2) == Some((sh, WaitDone(true)))
  {
    assert ClientTurns(sh, 0, WaitCur(sh.idle), 1) == Some((sh, WaitDone(true)));
  }

  /** wait() reads an empty queue and two equal counters. */
  lemma WaitOnce(u: Setup, s: State) returns (s': State)
    requires Here(u, s) && s.clients == [Idle, Idle]
    requires s.sh.status != STOP && s.sh.tasks == [] && s.sh.cur == s.sh.idle
    ensures Here(u, s') && s'.clients == [WaitDone(true), Idle] && s'.sh == s.sh
  {
    EnterTurns(s.sh, 0);
    BreakTurns(s.sh);
    s' := Call(u, s, Wait(false));
    s' := Moves(u, s', 0, 1, s.sh, WaitTasks);
    s' := Settle(u, s', 0, false);
    s' := Moves(u, s', 0, 2, s.sh, WaitDone(true));
    assert s'.clients == [WaitDone(true), Idle];
  }

  /** A worker half way through delThread makes up for the one that is busy. */
  lemma WaitCanLeaveEarly(min: nat, max: nat, overlap: bool, curFirst: bool) returns (schedule: seq<Label>)
    requires !SizeIsFixed(min, max)
    ensures Obeys(Polite(overlap, curFirst), 2, min, max, schedule)
    ensures var s := StateAfter(2, min, max, schedule);
            s.clients[0] == WaitDone(true) && Committed(s.sh) == 1 && s.sh.finished == {}
  {
    var u := Setup(overlap, curFirst, min, max);
    var n := if min == 0 then 2 else min + 1;
    var s := StartAll(u, n);
    s := CommitOne(u, s, n);
    s := TakeOne(u, s, 0);
    s := RetireHalf(u, s, 1);
    s := WaitOnce(u, s);
    schedule :| Obeys(u.Rules(), 2, min, max, schedule) && StateAfter(2, min, max, schedule) == s;
  }
}
