/**
  The timer table of `EventLoop.h`: `setTimer`, `killTimer`, `resetTimer` and the trampoline
  `onTimer`, whose callback may itself set, kill and reset timers, its own included.

  A callback is the list of calls it makes. Every ID is used for one timer only, as
  `generateTimerID` provides.
 */
module Timers {
  import opened Wrappers

  const U32 := 0x1_0000_0000
  const INFINITE := U32 - 1

  type TimerID = nat

  datatype Action = Set(id: TimerID, repeat: nat) | Kill(id: TimerID) | Reset(id: TimerID)

  datatype Event = Fire(id: TimerID, script: seq<Action>) | Call(action: Action)

  /**
    What ever happened under an ID: its initial repeat, callbacks run, re-arms by resetTimer, and
    whether the first callback ran before any re-arm.
   */
  datatype History = History(initial: nat, runs: nat, rearms: nat, firedFirst: bool)

  /** `timers`: the stored repeats. `log`: the history of every ID ever set. */
  datatype Table = Table(timers: map<TimerID, nat>, log: map<TimerID, History>)

  function Act(t: Table, a: Action): Table
    requires t.timers.Keys <= t.log.Keys
  {
    match a
    case Set(id, repeat) =>
      if id in t.log then t
      else Table(t.timers[id := repeat], t.log[id := History(repeat, 0, 0, false)])
    case Kill(id) => t.(timers := t.timers - {id})
    case Reset(id) =>
      if id in t.timers && t.timers[id] == 0 then
        Table(t.timers[id := 1], t.log[id := t.log[id].(rearms := t.log[id].rearms + 1)])
      else t
  }

  function Acts(t: Table, script: seq<Action>): (t': Table)
    requires t.timers.Keys <= t.log.Keys
    ensures t'.timers.Keys <= t'.log.Keys
    decreases |script|
  {
    if script == [] then t else Act(Acts(t, script[..|script| - 1]), script[|script| - 1])
  }

  /** A finite repeat counts down, in 32 bits. */
  function CountDown(repeat: nat): nat {
    if repeat == INFINITE then INFINITE else (repeat - 1) % U32
  }

  function Fired(h: History): History {
    h.(runs := h.runs + 1, firedFirst := if h.runs == 0 then h.rearms == 0 else h.firedFirst)
  }

  function Begun(t: Table, id: TimerID): Table
    requires id in t.timers && id in t.log
  {
    Table(t.timers[id := CountDown(t.timers[id])], t.log[id := Fired(t.log[id])])
  }

  function Ended(t: Table, id: TimerID): Table {
    if id in t.timers && t.timers[id] == 0 then t.(timers := t.timers - {id}) else t
  }

  function Do(t: Table, e: Event): (t': Table)
    requires t.timers.Keys <= t.log.Keys
    ensures t'.timers.Keys <= t'.log.Keys
  {
    match e
    case Call(a) => Act(t, a)
    case Fire(id, script) =>
      if id in t.timers then Ended(Acts(Begun(t, id), script), id) else t
  }

  function Run(t: Table, events: seq<Event>): (t': Table)
    requires t.timers.Keys <= t.log.Keys
    ensures t'.timers.Keys <= t'.log.Keys
    decreases |events|
  {
    if events == [] then t else Do(Run(t, events[..|events| - 1]), events[|events| - 1])
  }

  const EMPTY := Table(map[], map[])

  // ---------- Accounting ----------

  predicate Finite(repeat: nat) {
    0 < repeat < INFINITE
  }

  /** The books of one stored timer balance; `mayBeZero` while its own callback runs. */
  ghost predicate Balanced(repeat: nat, h: History, mayBeZero: bool) {
    && (h.initial == INFINITE ==> repeat == INFINITE)
    && (Finite(h.initial) ==>
          && h.runs + repeat == h.initial + h.rearms
          && repeat < INFINITE
          && (repeat == 0 ==> mayBeZero))
  }

  ghost predicate Books(t: Table, running: Option<TimerID>) {
    && t.timers.Keys <= t.log.Keys
    && (forall id :: id in t.timers ==> Balanced(t.timers[id], t.log[id], running == Some(id)))
    && (forall id :: id in t.log && Finite(t.log[id].initial) ==>
          t.log[id].runs <= t.log[id].initial + t.log[id].rearms)
  }

  lemma ActKeepsBooks(t: Table, a: Action, running: Option<TimerID>)
    requires Books(t, running)
    ensures Books(Act(t, a), running)
  {
  }

  lemma {:induction false} ActsKeepBooks(t: Table, script: seq<Action>, running: Option<TimerID>)
    requires Books(t, running)
    ensures Books(Acts(t, script), running)
    decreases |script|
  {
    if script != [] {
      ActsKeepBooks(t, script[..|script| - 1], running);
      ActKeepsBooks(Acts(t, script[..|script| - 1]), script[|script| - 1], running);
    }
  }

  lemma DoKeepsBooks(t: Table, e: Event)
    requires Books(t, None)
    ensures Books(Do(t, e), None)
  {
    match e
    case Call(a) => ActKeepsBooks(t, a, None);
    case Fire(id, script) =>
      if id in t.timers {
        assert Books(Begun(t, id), Some(id));
        ActsKeepBooks(Begun(t, id), script, Some(id));
      }
  }

  /**
    In every run of fires, kills, resets and sets, inside callbacks and out: while a timer set
    with a finite n >= 1 is stored, callbacks run plus stored repeat is n plus its re-arms, and
    between events no stored repeat is 0; stored or not, it never ran more often than that.
   */
  lemma {:induction false} BooksAlwaysBalance(events: seq<Event>)
    ensures Books(Run(EMPTY, events), None)
    decreases |events|
  {
    if events != [] {
      BooksAlwaysBalance(events[..|events| - 1]);
      DoKeepsBooks(Run(EMPTY, events[..|events| - 1]), events[|events| - 1]);
    }
  }

  /** A timer leaves the table by itself exactly when its last callback left the repeat at 0. */
  lemma ErasedWhenSpent(t: Table, id: TimerID, script: seq<Action>)
    requires Books(t, None) && id in t.timers && Finite(t.log[id].initial)
    requires forall i :: 0 <= i < |script| ==> script[i] != Kill(id)
    ensures var t' := Do(t, Fire(id, script));
            id in t'.log && (id !in t'.timers <==> t'.log[id].runs == t'.log[id].initial + t'.log[id].rearms)
  {
    ActsKeepBooks(Begun(t, id), script, Some(id));
    UnkilledStays(Begun(t, id), script, id);
    DoKeepsBooks(t, Fire(id, script));
  }

  lemma {:induction false} UnkilledStays(t: Table, script: seq<Action>, id: TimerID)
    requires t.timers.Keys <= t.log.Keys && id in t.timers
    requires forall i :: 0 <= i < |script| ==> script[i] != Kill(id)
    ensures id in Acts(t, script).timers
    ensures Acts(t, script).log[id].initial == t.log[id].initial
    decreases |script|
  {
    if script != [] {
      UnkilledStays(t, script[..|script| - 1], id);
    }
  }

  // ---------- After erasure ----------

  /** The ID was used and is not stored any more. */
  ghost predicate Gone(t: Table, id: TimerID, h: History) {
    t.timers.Keys <= t.log.Keys && id !in t.timers && id in t.log && t.log[id] == h
  }

  lemma {:induction false} GoneThroughScript(t: Table, script: seq<Action>, id: TimerID, h: History)
    requires Gone(t, id, h)
    ensures Gone(Acts(t, script), id, h)
    decreases |script|
  {
    if script != [] {
      GoneThroughScript(t, script[..|script| - 1], id, h);
    }
  }

  /** Once erased a timer stays erased, and nothing that follows runs its callback again. */
  lemma {:induction false} ErasedForGood(t: Table, events: seq<Event>, id: TimerID, h: History)
    requires Gone(t, id, h)
    ensures Gone(Run(t, events), id, h)
    decreases |events|
  {
    if events != [] {
      ErasedForGood(t, events[..|events| - 1], id, h);
      var before := Run(t, events[..|events| - 1]);
      match events[|events| - 1]
      case Call(_) =>
      case Fire(fired, script) =>
        if fired in before.timers {
          GoneThroughScript(Begun(before, fired), script, id, h);
        }
    }
  }

  // ---------- What a callback leaves behind ----------

  /** Where the script sets id, if it does; later attempts to set it again are no fresh timer. */
  predicate SetAt(script: seq<Action>, id: TimerID, i: nat) {
    && i < |script| && script[i].Set? && script[i].id == id
    && forall j :: 0 <= j < i ==> !(script[j].Set? && script[j].id == id)
  }

  /** What is left of a stored repeat after these calls, none of which kills the timer. */
  function Rearmed(repeat: nat, id: TimerID, calls: seq<Action>): nat {
    if repeat == 0 && Reset(id) in calls then 1 else repeat
  }

  /** An ID used before: stored afterwards exactly if it was and no call kills it. */
  ghost predicate OldLeft(t: Table, t': Table, id: TimerID, calls: seq<Action>) {
    && (id in t'.timers <==> id in t.timers && Kill(id) !in calls)
    && (id in t'.timers ==> id in t.timers && t'.timers[id] == Rearmed(t.timers[id], id, calls))
  }

  /** An unused ID: stored exactly if it is set and not killed later. */
  ghost predicate NewLeft(t': Table, id: TimerID, calls: seq<Action>) {
    && (id in t'.timers <==> exists i: nat :: SetAt(calls, id, i) && Kill(id) !in calls[i + 1..])
    && (forall i: nat :: SetAt(calls, id, i) ==>
          && id in t'.log && t'.log[id].initial == calls[i].repeat
          && (id in t'.timers ==> t'.timers[id] == Rearmed(calls[i].repeat, id, calls[i + 1..])))
  }

  lemma {:induction false} OldScript(t: Table, script: seq<Action>, id: TimerID)
    requires t.timers.Keys <= t.log.Keys && id in t.log
    ensures OldLeft(t, Acts(t, script), id, script)
    ensures var h := Acts(t, script).log; id in h && h[id].initial == t.log[id].initial && h[id].runs == t.log[id].runs
    decreases |script|
  {
    if script != [] {
      var before, last := script[..|script| - 1], script[|script| - 1];
      OldScript(t, before, id);
      assert script == before + [last];
    }
  }

  lemma {:induction false} ScriptJoins(t: Table, a: seq<Action>, b: seq<Action>)
    requires t.timers.Keys <= t.log.Keys
    ensures Acts(t, a + b) == Acts(Acts(t, a), b)
    decreases |b|
  {
    if b == [] {
      assert a + b == a;
    } else {
      ScriptJoins(t, a, b[..|b| - 1]);
      assert (a + b)[..|a + b| - 1] == a + b[..|b| - 1];
    }
  }

  lemma {:induction false} UnsetStaysUnused(t: Table, script: seq<Action>, id: TimerID)
    requires t.timers.Keys <= t.log.Keys && id !in t.log
    requires forall j :: 0 <= j < |script| ==> !(script[j].Set? && script[j].id == id)
    ensures id !in Acts(t, script).log
    decreases |script|
  {
    if script != [] {
      UnsetStaysUnused(t, script[..|script| - 1], id);
    }
  }

  lemma SetOnce(script: seq<Action>, id: TimerID, i: nat, j: nat)
    requires SetAt(script, id, i) && SetAt(script, id, j)
    ensures i == j
  {
  }

  /** The calls from the one that sets id on. */
  lemma FromSet(t: Table, script: seq<Action>, id: TimerID, i: nat)
    requires t.timers.Keys <= t.log.Keys && id !in t.log && SetAt(script, id, i)
    ensures var t' := Acts(t, script);
            && (id in t'.timers <==> Kill(id) !in script[i + 1..])
            && id in t'.log && t'.log[id].initial == script[i].repeat
            && (id in t'.timers ==> t'.timers[id] == Rearmed(script[i].repeat, id, script[i + 1..]))
  {
    var set1, rest := script[..i + 1], script[i + 1..];
    assert script == set1 + rest && set1[..i] == script[..i];
    UnsetStaysUnused(t, script[..i], id);
    ScriptJoins(t, set1, rest);
    assert Acts(t, set1) == Act(Acts(t, script[..i]), script[i]);
    OldScript(Acts(t, set1), rest, id);
  }

  lemma {:induction false} SetSomewhere(script: seq<Action>, id: TimerID, j: nat) returns (i: nat)
    requires j < |script| && script[j].Set? && script[j].id == id
    ensures SetAt(script, id, i)
    decreases j
  {
    if k: nat :| k < j && script[k].Set? && script[k].id == id {
      i := SetSomewhere(script, id, k);
    } else {
      i := j;
    }
  }

  lemma SetLeft(t: Table, script: seq<Action>, id: TimerID, i: nat)
    requires t.timers.Keys <= t.log.Keys && id !in t.log && SetAt(script, id, i)
    ensures NewLeft(Acts(t, script), id, script)
  {
    FromSet(t, script, id, i);
    forall j: nat | SetAt(script, id, j) ensures i == j {
      SetOnce(script, id, i, j);
    }
  }

  lemma NeverSetLeft(t: Table, script: seq<Action>, id: TimerID)
    requires t.timers.Keys <= t.log.Keys && id !in t.log && forall i: nat :: !SetAt(script, id, i)
    ensures NewLeft(Acts(t, script), id, script)
  {
    forall j | 0 <= j < |script| ensures !(script[j].Set? && script[j].id == id) {
      if script[j].Set? && script[j].id == id {
        var k := SetSomewhere(script, id, j);
      }
    }
    UnsetStaysUnused(t, script, id);
  }

  lemma NewScript(t: Table, script: seq<Action>, id: TimerID)
    requires t.timers.Keys <= t.log.Keys && id !in t.log
    ensures NewLeft(Acts(t, script), id, script)
  {
    if i: nat :| SetAt(script, id, i) {
      SetLeft(t, script, id, i);
    } else {
      NeverSetLeft(t, script, id);
    }
  }

  /** A repeat as the callback finds it: one less, but infinite stays infinite, and 0 turns into it. */
  function Counted(repeat: nat): nat {
    if repeat == 0 || repeat == INFINITE then INFINITE else repeat - 1
  }

  /**
    What a fire leaves of every timer, whatever its callback calls. The timer that fires is there
    afterwards exactly if it was not killed and has a repeat left or was reset at its last; any
    other timer only by what the callback calls for it.
   */
  lemma FireLeaves(t: Table, id: TimerID, script: seq<Action>)
    requires t.timers.Keys <= t.log.Keys && id in t.timers && t.timers[id] < U32
    ensures var t' := Do(t, Fire(id, script));
            var left := Rearmed(Counted(t.timers[id]), id, script);
            && (id in t'.timers <==> Kill(id) !in script && left > 0)
            && (id in t'.timers ==> t'.timers[id] == left)
            && id in t'.log && t'.log[id].runs == t.log[id].runs + 1
            && (forall other :: other in t.log && other != id ==>
                  OldLeft(t, t', other, script) && other in t'.log && t'.log[other].runs == t.log[other].runs)
            && (forall other :: other !in t.log ==> NewLeft(t', other, script))
  {
    var begun := Begun(t, id);
    var t1, t' := Acts(begun, script), Do(t, Fire(id, script));
    OldScript(begun, script, id);
    forall other | other in t.log && other != id
      ensures OldLeft(t, t', other, script) && other in t'.log && t'.log[other].runs == t.log[other].runs
    {
      OldScript(begun, script, other);
    }
    forall other | other !in t.log ensures NewLeft(t', other, script) {
      NewScript(begun, script, other);
      assert NewLeft(t1, other, script);
    }
  }

  /** What a call outside callbacks leaves of every timer. */
  lemma CallLeaves(t: Table, a: Action)
    requires t.timers.Keys <= t.log.Keys
    ensures var t' := Do(t, Call(a));
            && (forall id :: id in t.log ==> OldLeft(t, t', id, [a]))
            && (forall id :: id !in t.log ==> NewLeft(t', id, [a]))
  {
    assert [a][..0] == [] && Acts(t, []) == t;
    assert Acts(t, [a]) == Do(t, Call(a));
    forall id | id in t.log ensures OldLeft(t, Do(t, Call(a)), id, [a]) {
      OldScript(t, [a], id);
    }
    forall id | id !in t.log ensures NewLeft(Do(t, Call(a)), id, [a]) {
      NewScript(t, [a], id);
    }
  }

  // ---------- A repeat of 0 ----------

  /**
    The books of a timer set with 0: infinite once it fired before any re-arm; otherwise runs and
    stored repeat add up to the re-arms, and it is 0 only before the first of either.
   */
  ghost predicate ZeroBooks(repeat: nat, h: History, mayBeZero: bool) {
    if h.runs > 0 && h.firedFirst then repeat == INFINITE
    else
      && h.runs + repeat == h.rearms && repeat < INFINITE
      && (repeat == 0 && h.rearms > 0 ==> mayBeZero)
  }

  ghost predicate ZerosOk(t: Table, running: Option<TimerID>) {
    && t.timers.Keys <= t.log.Keys
    && (forall id :: id in t.timers && t.log[id].initial == 0 ==>
          ZeroBooks(t.timers[id], t.log[id], running == Some(id)))
  }

  lemma {:induction false} ActsKeepZeros(t: Table, script: seq<Action>, running: Option<TimerID>)
    requires ZerosOk(t, running)
    ensures ZerosOk(Acts(t, script), running)
    decreases |script|
  {
    if script != [] {
      ActsKeepZeros(t, script[..|script| - 1], running);
      ActKeepsZeros(Acts(t, script[..|script| - 1]), script[|script| - 1], running);
    }
  }

  lemma ActKeepsZeros(t: Table, a: Action, running: Option<TimerID>)
    requires ZerosOk(t, running)
    ensures ZerosOk(Act(t, a), running)
  {
  }

  lemma DoKeepsZeros(t: Table, e: Event)
    requires ZerosOk(t, None)
    ensures ZerosOk(Do(t, e), None)
  {
    match e
    case Call(a) => ActKeepsZeros(t, a, None);
    case Fire(id, script) =>
      if id in t.timers {
        assert ZerosOk(Begun(t, id), Some(id));
        ActsKeepZeros(Begun(t, id), script, Some(id));
      }
  }

  lemma {:induction false} ZerosAlwaysOk(events: seq<Event>)
    ensures ZerosOk(Run(EMPTY, events), None)
    decreases |events|
  {
    if events != [] {
      ZerosAlwaysOk(events[..|events| - 1]);
      DoKeepsZeros(Run(EMPTY, events[..|events| - 1]), events[|events| - 1]);
    }
  }

  /**
    In every run, callbacks included: a stored timer that was set with a repeat of 0 has become
    infinite exactly if it fired before any resetTimer; otherwise it runs once for each re-arm.
   */
  lemma ZeroIsInfiniteIffItFiredFirst(events: seq<Event>, id: TimerID)
    requires var t := Run(EMPTY, events); id in t.timers && t.log[id].initial == 0
    ensures var t := Run(EMPTY, events);
            && (t.timers[id] == INFINITE <==> t.log[id].runs > 0 && t.log[id].firedFirst)
            && (t.timers[id] != INFINITE ==> t.log[id].runs + t.timers[id] == t.log[id].rearms)
  {
    ZerosAlwaysOk(events);
  }

  /** Such a run: set with 0, and the first thing to happen is a fire. */
  lemma ZeroCanBecomeInfinite(id: TimerID)
    ensures Run(EMPTY, [Call(Set(id, 0)), Fire(id, [])]).timers == map[id := INFINITE]
  {
    var events := [Call(Set(id, 0)), Fire(id, [])];
    assert events[..1] == [Call(Set(id, 0))] && events[..1][..0] == [];
    assert Run(EMPTY, []) == EMPTY;
    assert Run(EMPTY, events[..1]) == Act(EMPTY, Set(id, 0));
    assert Run(EMPTY, events).timers.Keys == {id};
  }

  // ---------- Timer IDs ----------

  /** The owning thread's number in the upper half, a counter in the lower. */
  function GeneratedID(tid: nat, count: nat): TimerID {
    tid % U32 * U32 + count
  }

  lemma GeneratedIDsDiffer(tid: nat, count: nat, tid': nat, count': nat)
    requires count < U32 && count' < U32
    ensures GeneratedID(tid, count) == GeneratedID(tid', count') <==> tid % U32 == tid' % U32 && count == count'
  {
    var a, b := tid % U32, tid' % U32;
    if a < b {
      assert (b - a) * U32 >= U32;
    }
  }

  // ---------- The class ----------

  /** The IDs a callback sets are unused, each until it is set. */
  ghost predicate FreshSets(script: seq<Action>, used: set<TimerID>) {
    && (forall i :: 0 <= i < |script| && script[i].Set? ==> script[i].id !in used)
    && (forall i, j :: 0 <= i < j < |script| && script[i].Set? && script[j].Set? ==> script[i].id != script[j].id)
  }

  class Timer {
    var repeat: nat

    constructor (repeat: nat)
      ensures this.repeat == repeat
    {
      this.repeat := repeat;
    }
  }

  class EventLoop {
    var timers: map<TimerID, Timer>
    ghost var log: map<TimerID, History>

    ghost predicate Valid()
      reads this
    {
      && timers.Keys <= log.Keys
      && (forall a, b :: a in timers && b in timers && a != b ==> timers[a] != timers[b])
    }

    ghost function View(): Table
      reads this, timers.Values
    {
      Table(map id | id in timers :: timers[id].repeat, log)
    }

    constructor ()
      ensures Valid() && View() == EMPTY
    {
      timers := map[];
      log := map[];
    }

    method SetTimer(id: TimerID, repeat: nat)
      requires Valid() && id !in log
      modifies this
      ensures Valid() && View() == Act(old(View()), Set(id, repeat))
      ensures timers.Keys == old(timers).Keys + {id} && fresh(timers[id])
      ensures forall other :: other in old(timers) ==> timers[other] == old(timers)[other]
      ensures log.Keys == old(log).Keys + {id}
    {
      var timer := new Timer(repeat);
      timers := timers[id := timer];
      log := log[id := History(repeat, 0, 0, false)];
    }

    method KillTimer(id: TimerID)
      requires Valid()
      modifies this`timers
      ensures Valid() && View() == Act(old(View()), Kill(id))
      ensures timers == old(timers) - {id} && log == old(log)
    {
      if id in timers {
        timers := timers - {id};
      }
    }

    method ResetTimer(id: TimerID)
      requires Valid()
      modifies this`log, timers.Values
      ensures Valid() && View() == Act(old(View()), Reset(id))
      ensures timers == old(timers) && log.Keys == old(log).Keys
    {
      if id in timers {
        var timer := timers[id];
        if timer.repeat == 0 {
          timer.repeat := 1;
          log := log[id := log[id].(rearms := log[id].rearms + 1)];
        }
      }
    }

    /** One call made by a callback. */
    method Perform(a: Action)
      requires Valid() && (a.Set? ==> a.id !in log)
      modifies this, timers.Values
      ensures Valid() && View() == Act(old(View()), a)
      ensures forall id :: id in timers ==> (id in old(timers) && timers[id] == old(timers)[id]) || fresh(timers[id])
      ensures forall id :: id in old(timers) && id in timers ==> timers[id] == old(timers)[id]
      ensures log.Keys == old(log).Keys + if a.Set? then {a.id} else {}
      ensures timers.Keys <= old(timers).Keys + if a.Set? then {a.id} else {}
    {
      match a
      case Set(id, repeat) => SetTimer(id, repeat);
      case Kill(id) => KillTimer(id);
      case Reset(id) => ResetTimer(id);
    }

    /** The calls of a callback, one after the other; `id` is the timer that is running it. */
    method RunCallback(script: seq<Action>, ghost id: TimerID)
      requires Valid() && FreshSets(script, log.Keys) && id in timers
      modifies this, timers.Values
      ensures Valid() && View() == Acts(old(View()), script)
      ensures id in timers ==> timers[id] == old(timers[id])
    {
      ghost var begun := View();
      for k := 0 to |script|
        invariant Valid() && View() == Acts(begun, script[..k])
        invariant id in log && (id in timers ==> timers[id] == old(timers[id]))
        invariant forall other :: other in timers ==> timers[other] in old(timers.Values) || fresh(timers[other])
        invariant forall i :: k <= i < |script| && script[i].Set? ==> script[i].id !in log
      {
        assert script[..k + 1][..k] == script[..k];
        Perform(script[k]);
      }
      assert script[..|script|] == script;
    }

    method CountFire(id: TimerID)
      requires Valid() && id in timers
      modifies this`log, timers[id]
      ensures Valid() && View() == Begun(old(View()), id)
      ensures timers == old(timers) && log.Keys == old(log).Keys
    {
      var timer := timers[id];
      if timer.repeat != INFINITE {
        timer.repeat := (timer.repeat - 1) % U32;
      }
      log := log[id := Fired(log[id])];
    }

    /** The table may have lost the timer meanwhile; the caller still holds it. */
    method DropIfSpent(timer: Timer, id: TimerID)
      requires Valid() && (id in timers ==> timers[id] == timer)
      modifies this`timers
      ensures Valid() && View() == Ended(old(View()), id)
    {
      if timer.repeat == 0 {
        if id !in timers {
          assert timers - {id} == timers;
        }
        timers := timers - {id};
      }
    }

    /** htimer fires: count down, run the callback, drop the timer if it is spent. */
    method OnTimer(id: TimerID, script: seq<Action>)
      requires Valid() && FreshSets(script, log.Keys)
      modifies this, timers.Values
      ensures Valid() && View() == Do(old(View()), Fire(id, script))
    {
      if id in timers {
        var timer := timers[id];
        CountFire(id);
        RunCallback(script, id);
        DropIfSpent(timer, id);
      }
    }
  }
}
