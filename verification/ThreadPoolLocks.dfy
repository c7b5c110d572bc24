/** Mutual exclusion in `HThreadPool`: a mutex is held by exactly the actor between its lock and unlock. */
module ThreadPoolLocks {
  import opened Wrappers
  import opened ThreadPool

  predicate HoldsTaskW(pc: Worker) {
    match pc
    case Top => false
    case Spin => false
    case WantTask => false
    case Sleep => false
    case WakeUp(_) => false
    case Run(_) => false
    case IncIdle => false
    case Leaving => false
    case Exited => false
    case _ => true
  }

  predicate HoldsThreadW(pc: Worker) {
    pc.DecCur? || pc.DelIdle? || pc.Scan? || pc.Join? || pc.UnlockThread?
  }

  predicate HoldsTaskC(pc: Client) {
    pc.Push? || pc.UnlockTaskC?
  }

  predicate HoldsThreadC(pc: Client) {
    pc.AddCur? || pc.AddIdle? || pc.Emplace? || pc.UnlockThreadC?
  }

  /** The actor holds exactly the mutexes its program counter says. */
  predicate OwnW(s: Shared, w: nat, pc: Worker) {
    && (HoldsTaskW(pc) <==> s.taskMutex == Some(W(w)))
    && (HoldsThreadW(pc) <==> s.threadMutex == Some(W(w)))
  }

  predicate OwnC(s: Shared, c: nat, pc: Client) {
    && (HoldsTaskC(pc) <==> s.taskMutex == Some(C(c)))
    && (HoldsThreadC(pc) <==> s.threadMutex == Some(C(c)))
  }

  ghost predicate Locks(s: State) {
    && (s.sh.taskMutex.Some? ==> Exists(s, s.sh.taskMutex.value))
    && (s.sh.threadMutex.Some? ==> Exists(s, s.sh.threadMutex.value))
    && (forall w :: 0 <= w < |s.workers| ==> OwnW(s.sh, w, s.workers[w]))
    && (forall c :: 0 <= c < |s.clients| ==> OwnC(s.sh, c, s.clients[c]))
  }

  /** A mutex changes hands only between nobody and the actor that moves. */
  predicate Passes(m: Option<Actor>, m': Option<Actor>, a: Actor) {
    m' == m || ((m.None? || m.value == a) && (m'.None? || m'.value == a))
  }

  /** No move of a takes a mutex from someone else. */
  predicate Free(m: Option<Actor>, wants: bool) {
    wants ==> m.None?
  }

  lemma WorkerMoveLocks(s: Shared, w: nat, pc: Worker, notified: bool)
    requires OwnW(s, w, pc)
    requires Free(s.taskMutex, pc.WantTask? || pc.WakeUp?) && Free(s.threadMutex, pc.WantThread?)
    ensures var (s', pc') := WorkerMove(s, w, pc, notified);
            && OwnW(s', w, pc')
            && Passes(s.taskMutex, s'.taskMutex, W(w)) && Passes(s.threadMutex, s'.threadMutex, W(w))
  {
  }

  lemma ClientMoveLocks(s: Shared, c: nat, pc: Client, op: Op, next: nat)
    requires OwnC(s, c, pc)
    requires Free(s.taskMutex, pc.WantTaskC?) && Free(s.threadMutex, pc.WantThreadC?)
    ensures var (s', pc') := ClientMove(s, c, pc, op, next);
            && OwnC(s', c, pc')
            && Passes(s.taskMutex, s'.taskMutex, C(c)) && Passes(s.threadMutex, s'.threadMutex, C(c))
  {
  }

  /** An actor is untouched by what another one does with the mutexes. */
  lemma OthersKeepOwn(s: Shared, s': Shared, a: Actor)
    requires Passes(s.taskMutex, s'.taskMutex, a) && Passes(s.threadMutex, s'.threadMutex, a)
    ensures forall w, pc :: W(w) != a && OwnW(s, w, pc) ==> OwnW(s', w, pc)
    ensures forall c, pc :: C(c) != a && OwnC(s, c, pc) ==> OwnC(s', c, pc)
  {
  }

  lemma StepKeepsLocks(s: State, a: Label)
    requires Locks(s) && Enabled(s, a)
    ensures Locks(Step(s, a))
  {
    match a
    case Work(w, notified) =>
      WorkerMoveLocks(s.sh, w, s.workers[w], notified);
      OthersKeepOwn(s.sh, Step(s, a).sh, W(w));
    case Act(c, op) =>
      ClientMoveLocks(s.sh, c, s.clients[c], op, |s.workers|);
      OthersKeepOwn(s.sh, Step(s, a).sh, C(c));
    case Tick =>
  }
}
