/** Exactly when `HThreadPool::wait` can be relied on. */
module ThreadPoolVerdict {
  import opened ThreadPool
  import opened ThreadPoolTheorems
  import opened ThreadPoolWait
  import opened ThreadPoolEarly
  import opened ThreadPoolLate

  /** Whenever a wait() leaves its loop by break, every committed task is finished. */
  ghost predicate WaitIsSound(min: nat, max: nat, overlap: bool, curFirst: bool) {
    forall n: nat, schedule, c: nat ::
      Obeys(Polite(overlap, curFirst), n, min, max, schedule) && c < n
      && StateAfter(n, min, max, schedule).clients[c] == WaitDone(true) ==>
        AllFinished(StateAfter(n, min, max, schedule))
  }

  /**
    If no commit() overlaps it, wait() can be relied on exactly in a pool that has a fixed size or
    one thread at most; and if moreover start() may overlap it and line 112 may read cur_thread_num
    first, only in a pool without any thread.
   */
  lemma WaitIsSoundIff(min: nat, max: nat, overlap: bool, curFirst: bool)
    ensures WaitIsSound(min, max, overlap, curFirst) <==>
              SizeIsFixed(min, max) && (max == 0 || !overlap || !curFirst)
  {
    if SizeIsFixed(min, max) && OrderIsSafe(max, overlap, curFirst) {
      forall n: nat, schedule, c: nat |
        Obeys(Polite(overlap, curFirst), n, min, max, schedule) && c < n
        && StateAfter(n, min, max, schedule).clients[c] == WaitDone(true)
        ensures AllFinished(StateAfter(n, min, max, schedule))
      {
        WaitMeansDone(n, min, max, schedule, overlap, curFirst, c);
      }
    } else if !SizeIsFixed(min, max) {
      var schedule := WaitCanLeaveEarly(min, max, overlap, curFirst);
      var s := StateAfter(2, min, max, schedule);
      assert s.clients[0] == WaitDone(true) && 0 !in s.sh.finished;
    } else {
      var schedule := WaitCanMissAStart(min, max);
      var s := StateAfter(2, min, max, schedule);
      assert s.clients[1] == WaitDone(true) && 0 !in s.sh.finished;
    }
  }
}
