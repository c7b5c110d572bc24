/** Where every committed task of `HThreadPool` is. */
module ThreadPoolTasks {
  import opened Wrappers
  import opened ThreadPool
  import opened ThreadPoolLocks

  /** The task a worker has taken and not finished. */
  function Held(pc: Worker): Option<TaskId> {
    match pc
    case Unlock(t) => Some(t)
    case Run(t) => Some(t)
    case _ => None
  }

  /** Found a task in the queue and has not taken it yet. */
  predicate IsTaking(pc: Worker) {
    pc.DecIdle? || pc.Pop?
  }

  /** Tasks are popped in the order they were pushed, and the rest are queued in that order. */
  ghost predicate InOrder(s: Shared) {
    && (forall i :: 0 <= i < |s.started| ==> s.started[i] == i)
    && (forall i :: 0 <= i < |s.tasks| ==> s.tasks[i] == |s.started| + i)
  }

  predicate HeldOk(s: Shared, pc: Worker) {
    && (Held(pc).Some? ==> Held(pc).value < |s.started| && Held(pc).value !in s.finished)
    && (IsTaking(pc) ==> s.tasks != [])
  }

  ghost predicate SomeoneHolds(workers: seq<Worker>, t: TaskId) {
    exists w :: 0 <= w < |workers| && Held(workers[w]) == Some(t)
  }

  ghost predicate Tasks(s: State) {
    && InOrder(s.sh)
    && (forall w :: 0 <= w < |s.workers| ==> HeldOk(s.sh, s.workers[w]))
    && (forall v, w :: 0 <= v < w < |s.workers| && Held(s.workers[v]).Some? ==>
          Held(s.workers[v]) != Held(s.workers[w]))
    && (forall t :: t in s.sh.finished ==> t < |s.sh.started|)
    && (forall t :: 0 <= t < |s.sh.started| ==> t in s.sh.finished || SomeoneHolds(s.workers, t))
  }

  lemma WorkerMoveTasks(s: Shared, w: nat, pc: Worker, notified: bool)
    requires InOrder(s) && HeldOk(s, pc)
    ensures var (s', pc') := WorkerMove(s, w, pc, notified);
            && InOrder(s')
            && (pc.Pop? ==>
                  Held(pc') == Some(|s.started|) && |s'.started| == |s.started| + 1 && s'.finished == s.finished)
            && (pc.Run? ==> Held(pc').None? && s'.started == s.started && s'.finished == s.finished + {pc.task})
            && (!pc.Pop? && !pc.Run? ==>
                  Held(pc') == Held(pc) && s'.started == s.started && s'.finished == s.finished)
            && (!pc.Pop? ==> s'.tasks == s.tasks)
            && (IsTaking(pc') ==> s'.tasks != [])
            && (pc.Pop? ==> HoldsTaskW(pc) && !IsTaking(pc'))
  {
  }

  lemma WorkerKeepsTasks(s: State, w: nat, notified: bool)
    requires Locks(s) && Tasks(s) && w < |s.workers| && WaitsFor(s, W(w)).None?
    ensures Tasks(WorkerStep(s, w, notified))
  {
    var s', pc := WorkerStep(s, w, notified), s.workers[w];
    assert HeldOk(s.sh, pc);
    WorkerMoveTasks(s.sh, w, pc, notified);
    forall v | 0 <= v < |s'.workers| ensures HeldOk(s'.sh, s'.workers[v]) {
      assert HeldOk(s.sh, s.workers[v]);
      if v != w {
        assert OwnW(s.sh, v, s.workers[v]) && OwnW(s.sh, w, s.workers[w]);
      }
    }
    forall t | 0 <= t < |s'.sh.started| ensures t in s'.sh.finished || SomeoneHolds(s'.workers, t) {
      if t == |s.sh.started| {
        assert Held(s'.workers[w]) == Some(t);
      } else if t !in s.sh.finished {
        var v :| 0 <= v < |s.workers| && Held(s.workers[v]) == Some(t);
        if v != w || !pc.Run? {
          assert Held(s'.workers[v]) == Some(t);
        }
      }
    }
    OnlyOneHolds(s, s', w);
  }

  /** A task just taken is new, so nobody else holds it. */
  lemma OnlyOneHolds(s: State, s': State, w: nat)
    requires Tasks(s) && w < |s.workers| == |s'.workers| && s'.workers == s.workers[w := s'.workers[w]]
    requires Held(s'.workers[w]).None? || Held(s'.workers[w]) == Held(s.workers[w])
             || Held(s'.workers[w]) == Some(|s.sh.started|)
    ensures forall u, v :: 0 <= u < v < |s'.workers| && Held(s'.workers[u]).Some? ==>
              Held(s'.workers[u]) != Held(s'.workers[v])
  {
    assert forall v :: 0 <= v < |s.workers| ==> HeldOk(s.sh, s.workers[v]);
  }

  lemma ClientMoveTasks(s: Shared, c: nat, pc: Client, op: Op, next: nat)
    requires InOrder(s)
    ensures var (s', pc') := ClientMove(s, c, pc, op, next);
            && InOrder(s') && s'.started == s.started && s'.finished == s.finished
            && s'.tasks == (if pc.Push? then s.tasks + [Committed(s)] else s.tasks)
  {
  }

  lemma ClientKeepsTasks(s: State, c: nat, op: Op)
    requires Tasks(s) && c < |s.clients| && WaitsFor(s, C(c)).None?
    ensures Tasks(ClientStep(s, c, op))
  {
    var s' := ClientStep(s, c, op);
    ClientMoveTasks(s.sh, c, s.clients[c], op, |s.workers|);
    forall v | 0 <= v < |s'.workers| ensures HeldOk(s'.sh, s'.workers[v]) {
      if v < |s.workers| {
        assert HeldOk(s.sh, s.workers[v]);
      }
    }
    forall t | 0 <= t < |s'.sh.started| ensures t in s'.sh.finished || SomeoneHolds(s'.workers, t) {
      if t !in s.sh.finished {
        var v :| 0 <= v < |s.workers| && Held(s.workers[v]) == Some(t);
        assert Held(s'.workers[v]) == Some(t);
      }
    }
  }

  lemma StepKeepsTasks(s: State, a: Label)
    requires Locks(s) && Tasks(s) && Enabled(s, a)
    ensures Tasks(Step(s, a))
  {
    match a
    case Work(w, notified) => WorkerKeepsTasks(s, w, notified);
    case Act(c, op) => ClientKeepsTasks(s, c, op);
    case Tick =>
      assert forall w :: 0 <= w < |s.workers| ==> HeldOk(s.sh, s.workers[w]);
      assert forall w :: 0 <= w < |s.workers| ==> HeldOk(Step(s, a).sh, s.workers[w]);
  }
}
