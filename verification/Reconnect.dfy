/**
  The reconnect backoff (`reconn_setting_t` of `hloop.h`) and the client cycle that drives it
  (`TcpClient.h`). All numbers are uint32, and additions and products wrap.
 */
module Reconnect {
  import opened Wrappers

  const U32 := 0x1_0000_0000
  const INFINITE := U32 - 1

  datatype Setting = Setting(
    minDelay: nat, maxDelay: nat, curDelay: nat, policy: nat, maxRetry: nat, curRetry: nat)
  {
    predicate Fits() {
      minDelay < U32 && maxDelay < U32 && curDelay < U32 && policy < U32 && maxRetry < U32 && curRetry < U32
    }
  }

  function Min(a: nat, b: nat): nat {
    if a < b then a else b
  }

  function Max(a: nat, b: nat): nat {
    if a < b then b else a
  }

  function ResetStep(s: Setting): Setting {
    s.(curDelay := 0, curRetry := 0)
  }

  function RetryStep(s: Setting): Setting {
    s.(curRetry := (s.curRetry + 1) % U32)
  }

  predicate MayRetry(s: Setting) {
    s.maxRetry == INFINITE || s.curRetry < s.maxRetry
  }

  function DelayStep(s: Setting): Setting {
    var raw :=
      if s.policy == 0 then s.minDelay
      else if s.policy == 1 then (s.curDelay + s.minDelay) % U32
      else s.curDelay * s.policy % U32;
    s.(curDelay := Min(Max(raw, s.minDelay), s.maxDelay))
  }

  class ReconnSetting {
    var minDelay: nat
    var maxDelay: nat
    var curDelay: nat
    var policy: nat
    var maxRetry: nat
    var curRetry: nat

    ghost function View(): Setting
      reads this
    {
      Setting(minDelay, maxDelay, curDelay, policy, maxRetry, curRetry)
    }

    constructor (s: Setting)
      ensures View() == s
    {
      minDelay, maxDelay, curDelay := s.minDelay, s.maxDelay, s.curDelay;
      policy, maxRetry, curRetry := s.policy, s.maxRetry, s.curRetry;
    }

    method Reset()
      modifies this`curDelay, this`curRetry
      ensures View() == ResetStep(old(View()))
    {
      curDelay := 0;
      curRetry := 0;
    }

    method CanRetry() returns (ok: bool)
      modifies this`curRetry
      ensures View() == RetryStep(old(View())) && ok == MayRetry(View())
    {
      curRetry := (curRetry + 1) % U32;
      ok := maxRetry == INFINITE || curRetry < maxRetry;
    }

    method CalcDelay() returns (delay: nat)
      modifies this`curDelay
      ensures View() == DelayStep(old(View())) && delay == View().curDelay
    {
      if policy == 0 {
        curDelay := minDelay;
      } else if policy == 1 {
        curDelay := (curDelay + minDelay) % U32;
      } else {
        curDelay := curDelay * policy % U32;
      }
      curDelay := Max(curDelay, minDelay);
      curDelay := Min(curDelay, maxDelay);
      delay := curDelay;
    }
  }

  // ---------- The delays since a reset ----------

  function Pow(p: nat, n: nat): nat {
    if n == 0 then 1 else p * Pow(p, n - 1)
  }

  /** The documented n-th delay: fixed, linear or exponential, never above the maximum. */
  function Promised(s: Setting, n: nat): nat
    requires n > 0
  {
    if s.policy == 0 then Min(s.maxDelay, s.minDelay)
    else if s.policy == 1 then Min(s.maxDelay, n * s.minDelay)
    else Min(s.maxDelay, s.minDelay * Pow(s.policy, n - 1))
  }

  /** The setting after n delays were computed since a reset. */
  function Delayed(s: Setting, n: nat): Setting {
    if n == 0 then s.(curDelay := 0) else DelayStep(Delayed(s, n - 1))
  }

  /** Multiplying the delay d does not wrap, or wraps to something the maximum still caps. */
  predicate Survives(s: Setting, d: nat) {
    d * s.policy < U32 || d * s.policy % U32 >= s.maxDelay
  }

  /** The last of d, d * p, d * p * p, ... below max. */
  function LastBelow(d: nat, max: nat, p: nat): nat
    requires p > 1 && d > 0
    decreases max - d
  {
    GrowsByFactor(d, p);
    if d * p < max && d < d * p then LastBelow(d * p, max, p) else d
  }

  /**
    Only a step from the maximum, or the one that reaches it, can wrap at all: the two steps a
    caller has to look at.
   */
  predicate NoHarmfulWrap(s: Setting) {
    0 < s.minDelay < s.maxDelay ==>
      && (s.policy == 1 ==> s.maxDelay + s.minDelay < U32)
      && (s.policy > 1 ==>
            Survives(s, s.maxDelay) && Survives(s, LastBelow(s.minDelay, s.maxDelay, s.policy)))
  }

  lemma {:induction false} DelayedKeepsSetting(s: Setting, n: nat)
    ensures Delayed(s, n) == s.(curDelay := Delayed(s, n).curDelay)
  {
    if n > 0 {
      DelayedKeepsSetting(s, n - 1);
    }
  }

  lemma {:induction false} PowPositive(p: nat, n: nat)
    requires p > 0
    ensures Pow(p, n) > 0
  {
    if n > 0 {
      PowPositive(p, n - 1);
    }
  }

  lemma MulAssoc(a: nat, b: nat, c: nat)
    ensures a * (b * c) == a * c * b
  {
  }

  lemma GrowsByFactor(x: nat, p: nat)
    requires p > 0
    ensures x <= x * p
  {
  }

  lemma StrictlyGrows(x: nat, p: nat)
    requires x > 0 && p > 1
    ensures x < x * p
  {
  }

  lemma FirstDelay(s: Setting)
    requires s.Fits()
    ensures Delayed(s, 1).curDelay == Promised(s, 1)
  {
    assert Delayed(s, 1) == DelayStep(s.(curDelay := 0));
    assert s.minDelay * Pow(s.policy, 0) == s.minDelay;
  }

  lemma LinearStep(s: Setting, n: nat)
    requires s.policy == 1 && s.maxDelay + s.minDelay < U32 && n > 0
    ensures DelayStep(s.(curDelay := Promised(s, n))).curDelay == Promised(s, n + 1)
  {
    OneMoreMinimum(n, s.minDelay);
    LinearMin(s.minDelay, s.maxDelay, n * s.minDelay);
  }

  lemma OneMoreMinimum(n: nat, min: nat)
    ensures (n + 1) * min == n * min + min
  {
  }

  lemma LinearMin(min: nat, max: nat, sum: nat)
    requires max + min < U32
    ensures Min(Max((Min(max, sum) + min) % U32, min), max) == Min(max, sum + min)
  {
  }

  /** The promised exponential delays, by factors. */
  lemma PromisedNext(s: Setting, n: nat)
    requires s.policy > 1 && n > 0
    ensures var d := s.minDelay * Pow(s.policy, n - 1);
            Promised(s, n) == Min(s.maxDelay, d) && Promised(s, n + 1) == Min(s.maxDelay, d * s.policy)
            && d <= d * s.policy
  {
    MulAssoc(s.minDelay, s.policy, Pow(s.policy, n - 1));
    GrowsByFactor(s.minDelay * Pow(s.policy, n - 1), s.policy);
  }

  lemma PowShift(min: nat, p: nat, k: nat)
    ensures min * p * Pow(p, k) == min * Pow(p, k + 1)
  {
    var w := Pow(p, k);
    assert min * p * w == min * (p * w);
  }

  lemma LastStep(min: nat, max: nat, p: nat)
    requires p > 1 && min > 0 && min * p < max
    ensures LastBelow(min, max, p) == LastBelow(min * p, max, p)
  {
    StrictlyGrows(min, p);
  }

  lemma {:induction false} LastIs(min: nat, max: nat, p: nat, k: nat, d: nat)
    requires p > 1 && min > 0 && d == min * Pow(p, k) && d < max <= d * p
    ensures LastBelow(min, max, p) == d
    decreases k
  {
    if k == 0 {
      assert d == min;
    } else {
      var m := min * p;
      PowShift(min, p, k - 1);
      PowPositive(p, k - 1);
      GrowsByFactor(m, Pow(p, k - 1));
      StrictlyGrows(min, p);
      LastStep(min, max, p);
      LastIs(m, max, p, k - 1, d);
    }
  }

  lemma {:induction false} LastShape(min: nat, max: nat, p: nat) returns (k: nat)
    requires p > 1 && 0 < min < max
    ensures var d := min * Pow(p, k); LastBelow(min, max, p) == d < max <= d * p
    decreases max - min
  {
    StrictlyGrows(min, p);
    if min * p < max {
      k := LastShape(min * p, max, p);
      PowShift(min, p, k);
      k := k + 1;
    } else {
      k := 0;
      assert min * Pow(p, 0) == min;
    }
  }

  /** A step from the maximum stays there exactly if it survives. */
  lemma StepFromMaximum(s: Setting)
    requires s.Fits() && s.minDelay < s.maxDelay && s.policy > 1
    ensures DelayStep(s.(curDelay := s.maxDelay)).curDelay == s.maxDelay <==> Survives(s, s.maxDelay)
  {
    GrowsByFactor(s.maxDelay, s.policy);
  }

  /** So does the step that ought to reach the maximum. */
  lemma StepToMaximum(s: Setting, d: nat)
    requires s.Fits() && s.minDelay < s.maxDelay <= d * s.policy && s.policy > 1
    ensures DelayStep(s.(curDelay := d)).curDelay == s.maxDelay <==> Survives(s, d)
  {
  }

  lemma StepBelowMaximum(s: Setting, d: nat)
    requires s.Fits() && s.policy > 1 && s.minDelay <= d && d * s.policy < s.maxDelay
    ensures DelayStep(s.(curDelay := d)).curDelay == d * s.policy
  {
    GrowsByFactor(d, s.policy);
  }

  lemma ExponentialStep(s: Setting, n: nat)
    requires s.Fits() && NoHarmfulWrap(s) && 0 < s.minDelay < s.maxDelay && s.policy > 1 && n > 0
    ensures DelayStep(s.(curDelay := Promised(s, n))).curDelay == Promised(s, n + 1)
  {
    PromisedNext(s, n);
    var d := s.minDelay * Pow(s.policy, n - 1);
    if d >= s.maxDelay {
      StepFromMaximum(s);
    } else if d * s.policy >= s.maxDelay {
      LastIs(s.minDelay, s.maxDelay, s.policy, n - 1, d);
      StepToMaximum(s, d);
    } else {
      PowPositive(s.policy, n - 1);
      GrowsByFactor(s.minDelay, Pow(s.policy, n - 1));
      StepBelowMaximum(s, d);
    }
  }

  lemma PromisedStep(s: Setting, n: nat)
    requires s.Fits() && NoHarmfulWrap(s) && 0 < s.minDelay < s.maxDelay && n > 0
    ensures DelayStep(s.(curDelay := Promised(s, n))).curDelay == Promised(s, n + 1)
  {
    if s.policy == 1 {
      LinearStep(s, n);
    } else if s.policy > 1 {
      ExponentialStep(s, n);
    }
  }

  /** Delays that start at 0 or at the maximum stay there, wrapping or not. */
  lemma {:induction false} ConstantDelays(s: Setting, n: nat)
    requires s.Fits() && (s.minDelay == 0 || s.minDelay >= s.maxDelay) && n > 0
    ensures Delayed(s, n).curDelay == Promised(s, n) == Min(s.maxDelay, s.minDelay)
  {
    if n == 1 {
      FirstDelay(s);
    } else {
      ConstantDelays(s, n - 1);
      DelayedKeepsSetting(s, n - 1);
    }
    if s.policy == 1 {
      GrowsByFactor(s.minDelay, n);
      assert n * s.minDelay == s.minDelay * n;
    } else if s.policy > 1 {
      PowPositive(s.policy, n - 1);
      GrowsByFactor(s.minDelay, Pow(s.policy, n - 1));
    }
  }

  lemma {:induction false} DelaysKeepTheirPromise(s: Setting, n: nat)
    requires s.Fits() && NoHarmfulWrap(s) && n > 0
    ensures Delayed(s, n).curDelay == Promised(s, n)
  {
    if s.minDelay == 0 || s.minDelay >= s.maxDelay {
      ConstantDelays(s, n);
    } else if n == 1 {
      FirstDelay(s);
    } else {
      DelaysKeepTheirPromise(s, n - 1);
      DelayedKeepsSetting(s, n - 1);
      PromisedStep(s, n - 1);
      assert Delayed(s, n) == DelayStep(s.(curDelay := Promised(s, n - 1)));
    }
  }

  lemma {:induction false} PowAtLeast(p: nat, n: nat)
    requires p > 1
    ensures Pow(p, n) > n
  {
    if n > 0 {
      PowAtLeast(p, n - 1);
      assert p * Pow(p, n - 1) >= 2 * Pow(p, n - 1);
    }
  }

  lemma AtMaximum(s: Setting, n: nat)
    requires n > s.maxDelay > 0 && s.minDelay > 0 && s.policy > 0
    ensures Promised(s, n) == s.maxDelay
  {
    if s.policy == 1 {
      assert n * s.minDelay >= n;
    } else {
      PowAtLeast(s.policy, n - 1);
      assert s.minDelay * Pow(s.policy, n - 1) >= Pow(s.policy, n - 1);
    }
  }

  /** If delay n is as promised, delay n + 1 is the step from it. */
  lemma StepFromPromised(s: Setting, n: nat)
    requires n > 0 && Delayed(s, n).curDelay == Promised(s, n)
    ensures Delayed(s, n + 1) == DelayStep(s.(curDelay := Promised(s, n)))
  {
    DelayedKeepsSetting(s, n);
  }

  /** A promise kept for every n needs the step from the maximum to survive. */
  lemma KeptAtMaximum(s: Setting)
    requires s.Fits() && 0 < s.minDelay < s.maxDelay && s.policy > 0
    requires forall n: nat :: n > 0 ==> Delayed(s, n).curDelay == Promised(s, n)
    ensures DelayStep(s.(curDelay := s.maxDelay)).curDelay == s.maxDelay
  {
    var n := s.maxDelay + 1;
    AtMaximum(s, n);
    AtMaximum(s, n + 1);
    StepFromPromised(s, n);
    assert Delayed(s, n + 1).curDelay == s.maxDelay;
  }

  /** And the step that reaches it. */
  lemma KeptTowardsMaximum(s: Setting)
    requires s.Fits() && 0 < s.minDelay < s.maxDelay && s.policy > 1
    requires forall n: nat :: n > 0 ==> Delayed(s, n).curDelay == Promised(s, n)
    ensures Survives(s, LastBelow(s.minDelay, s.maxDelay, s.policy))
  {
    var k := LastShape(s.minDelay, s.maxDelay, s.policy);
    var d := s.minDelay * Pow(s.policy, k);
    PromisedNext(s, k + 1);
    StepFromPromised(s, k + 1);
    assert Delayed(s, k + 2).curDelay == Promised(s, k + 2) == s.maxDelay;
    StepToMaximum(s, d);
  }

  lemma KeptPromiseMeansNoHarm(s: Setting)
    requires s.Fits() && 0 < s.minDelay < s.maxDelay && s.policy > 0
    requires forall n: nat :: n > 0 ==> Delayed(s, n).curDelay == Promised(s, n)
    ensures NoHarmfulWrap(s)
  {
    KeptAtMaximum(s);
    if s.policy > 1 {
      StepFromMaximum(s);
      KeptTowardsMaximum(s);
    }
  }

  /** For every setting: all delays are as documented exactly if neither of the two steps wraps to harm. */
  lemma PromiseHoldsIffNoHarmfulWrap(s: Setting)
    requires s.Fits()
    ensures (forall n: nat :: n > 0 ==> Delayed(s, n).curDelay == Promised(s, n)) <==> NoHarmfulWrap(s)
  {
    if NoHarmfulWrap(s) {
      forall n: nat | n > 0 ensures Delayed(s, n).curDelay == Promised(s, n) {
        DelaysKeepTheirPromise(s, n);
      }
    } else if forall n: nat :: n > 0 ==> Delayed(s, n).curDelay == Promised(s, n) {
      KeptPromiseMeansNoHarm(s);
    }
  }

  /** Half the word doubled is 0: the second delay falls back to the minimum. */
  lemma DelaysCanWrap()
    ensures var s := Setting(0x8000_0000, 0x8000_0001, 0, 2, INFINITE, 0);
            && s.Fits() && !NoHarmfulWrap(s)
            && Delayed(s, 2).curDelay == 0x8000_0000 && Promised(s, 2) == 0x8000_0001
  {
    var s := Setting(0x8000_0000, 0x8000_0001, 0, 2, INFINITE, 0);
    assert Delayed(s, 1) == DelayStep(Delayed(s, 0));
    assert Pow(2, 1) == 2 * Pow(2, 0);
  }

  // ---------- The client cycle ----------

  datatype Phase = Down | Trying | Connected | Waiting

  /** `delays`: the reconnects scheduled since the last successful connect. */
  datatype Client = Client(phase: Phase, setting: Option<Setting>, delays: seq<nat>)

  datatype Event =
    | OnConnect              // the attempt under way succeeds
    | OnClose                // the attempt fails, or the connection is lost
    | TimerFires(ok: bool)   // the scheduled startConnect runs; not ok: no socket could be made
    | UserCloses             // closesocket()

  function Reconnecting(c: Client, s: Setting): Client {
    var counted := RetryStep(s);
    if !MayRetry(counted) then
      Client(Down, Some(counted), c.delays)
    else
      var delayed := DelayStep(counted);
      Client(Waiting, Some(delayed), c.delays + [delayed.curDelay])
  }

  /** What an event does; events that cannot occur in a phase leave the client alone. */
  function Step(c: Client, e: Event): Client {
    match e
    case OnConnect =>
      if c.phase != Trying then c
      else if c.setting.Some? then Client(Connected, Some(ResetStep(c.setting.value)), [])
      else Client(Connected, None, [])
    case OnClose =>
      if c.phase != Trying && c.phase != Connected then c
      else if c.setting.Some? then Reconnecting(c, c.setting.value)
      else c.(phase := Down)
    case TimerFires(ok) =>
      if c.phase != Waiting then c else c.(phase := if ok then Trying else Down)
    case UserCloses =>
      Client(if c.phase == Waiting then Waiting else Down, None, c.delays)
  }

  function Run(c: Client, events: seq<Event>): Client
    decreases |events|
  {
    if events == [] then c else Step(Run(c, events[..|events| - 1]), events[|events| - 1])
  }

  function Start(s: Setting): Client {
    Client(Trying, Some(ResetStep(s)), [])
  }

  /** The setting is what the delays computed since the last reset have made of it. */
  ghost predicate Consistent(s: Setting, c: Client) {
    && (forall i :: 0 <= i < |c.delays| ==> c.delays[i] == Delayed(s, i + 1).curDelay)
    && (s.maxRetry != INFINITE ==> |c.delays| <= Max(1, s.maxRetry) - 1)
    && (c.setting.Some? ==>
          && c.setting.value == Delayed(s, |c.delays|).(curRetry := c.setting.value.curRetry)
          && (s.maxRetry != INFINITE && c.phase != Down ==> c.setting.value.curRetry == |c.delays|))
  }

  lemma StepKeepsConsistent(s: Setting, c: Client, e: Event)
    requires s.Fits() && Consistent(s, c)
    ensures Consistent(s, Step(c, e))
  {
    DelayedKeepsSetting(s, |c.delays|);
    if e == OnClose && c.setting.Some? && (c.phase == Trying || c.phase == Connected) {
      ReconnectingKeepsConsistent(s, c);
    }
  }

  lemma ReconnectingKeepsConsistent(s: Setting, c: Client)
    requires s.Fits() && Consistent(s, c) && c.setting.Some? && c.phase != Down
    ensures Consistent(s, Reconnecting(c, c.setting.value))
  {
    var n, now := |c.delays|, c.setting.value;
    DelayedKeepsSetting(s, n);
    RetryCounts(s.maxRetry, now, n);
    if MayRetry(RetryStep(now)) {
      NextDelay(s, now, n);
      ScheduledKeepsConsistent(s, c, DelayStep(RetryStep(now)));
    }
  }

  lemma RetryCounts(max: nat, now: Setting, n: nat)
    requires max < U32 && now.maxRetry == max
    requires max != INFINITE ==> now.curRetry == n <= Max(1, max) - 1
    ensures max != INFINITE && MayRetry(RetryStep(now)) ==> RetryStep(now).curRetry == n + 1 <= Max(1, max) - 1
  {
  }

  lemma ScheduledKeepsConsistent(s: Setting, c: Client, next: Setting)
    requires Consistent(s, c) && next == Delayed(s, |c.delays| + 1).(curRetry := next.curRetry)
    requires s.maxRetry != INFINITE ==> next.curRetry == |c.delays| + 1 <= Max(1, s.maxRetry) - 1
    ensures Consistent(s, Client(Waiting, Some(next), c.delays + [next.curDelay]))
  {
    var delays := c.delays + [next.curDelay];
    forall i | 0 <= i < |delays| ensures delays[i] == Delayed(s, i + 1).curDelay {
      if i < |c.delays| {
        assert delays[i] == c.delays[i];
      }
    }
  }

  /** Whatever the retry count, one more delay after n is delay n + 1. */
  lemma NextDelay(s: Setting, now: Setting, n: nat)
    requires now == Delayed(s, n).(curRetry := now.curRetry)
    ensures DelayStep(RetryStep(now)) == Delayed(s, n + 1).(curRetry := RetryStep(now).curRetry)
  {
    CountIsIndependent(Delayed(s, n), RetryStep(now).curRetry);
  }

  /** The retry count plays no part in the delay. */
  lemma CountIsIndependent(s: Setting, count: nat)
    ensures DelayStep(s.(curRetry := count)) == DelayStep(s).(curRetry := count)
  {
  }

  lemma {:induction false} RunKeepsConsistent(s: Setting, events: seq<Event>)
    requires s.Fits()
    ensures Consistent(s, Run(Start(s), events))
    decreases |events|
  {
    if events != [] {
      RunKeepsConsistent(s, events[..|events| - 1]);
      StepKeepsConsistent(s, Run(Start(s), events[..|events| - 1]), events[|events| - 1]);
    }
  }

  /** In every run at most max(0, N - 1) reconnects are scheduled between successful connects for a finite N. */
  lemma ReconnectsAreBounded(s: Setting, events: seq<Event>)
    requires s.Fits() && s.maxRetry != INFINITE
    ensures |Run(Start(s), events).delays| <= Max(1, s.maxRetry) - 1
  {
    RunKeepsConsistent(s, events);
  }

  /** In every run the i-th reconnect since a successful connect waits as long as promised. */
  lemma ReconnectsArePaced(s: Setting, events: seq<Event>)
    requires s.Fits() && NoHarmfulWrap(s)
    ensures var c := Run(Start(s), events);
            forall i :: 0 <= i < |c.delays| ==> c.delays[i] == Promised(s, i + 1)
  {
    RunKeepsConsistent(s, events);
    var c := Run(Start(s), events);
    forall i | 0 <= i < |c.delays| ensures c.delays[i] == Promised(s, i + 1) {
      DelaysKeepTheirPromise(s, i + 1);
    }
  }

  lemma RetryDecision(max: nat, now: Setting, n: nat)
    requires max < U32 && now.maxRetry == max
    requires max != INFINITE ==> now.curRetry == n < U32 - 1
    ensures MayRetry(RetryStep(now)) <==> max == INFINITE || n + 1 < max
  {
  }

  /** In every run a lost attempt is retried exactly while fewer than N - 1 retries were scheduled. */
  lemma RetriedIffAllowed(s: Setting, events: seq<Event>)
    requires s.Fits()
    requires var c := Run(Start(s), events);
             c.setting.Some? && (c.phase == Trying || c.phase == Connected)
    ensures var c := Run(Start(s), events);
            Step(c, OnClose).phase == Waiting <==> s.maxRetry == INFINITE || |c.delays| + 1 < s.maxRetry
  {
    RunKeepsConsistent(s, events);
    var c := Run(Start(s), events);
    DelayedKeepsSetting(s, |c.delays|);
    RetryDecision(s.maxRetry, c.setting.value, |c.delays|);
  }

  /** No scheduled attempt ever failed to make a socket. */
  ghost predicate SocketsMade(s: Setting, events: seq<Event>) {
    forall i :: 0 <= i < |events| && events[i] == TimerFires(false) ==> Run(Start(s), events[..i]).phase != Waiting
  }

  lemma SocketsMadeStep(s: Setting, events: seq<Event>, e: Event)
    ensures SocketsMade(s, events + [e]) <==>
              SocketsMade(s, events) && (e == TimerFires(false) ==> Run(Start(s), events).phase != Waiting)
  {
    var all := events + [e];
    assert all[..|events|] == events;
    assert forall i :: 0 <= i < |events| ==> all[..i] == events[..i] && all[i] == events[i];
  }

  /** Only the user takes the setting away. */
  lemma {:induction false} SettingStays(s: Setting, events: seq<Event>)
    requires UserCloses !in events
    ensures Run(Start(s), events).setting.Some?
    decreases |events|
  {
    if events != [] {
      assert events == events[..|events| - 1] + [events[|events| - 1]];
      SettingStays(s, events[..|events| - 1]);
    }
  }

  /**
    A client with infinite retries that its user has not closed is down exactly if once no socket
    could be made for a scheduled attempt: nothing schedules another one after that.
   */
  lemma {:induction false} NeverDownIffSocketsMade(s: Setting, events: seq<Event>)
    requires s.Fits() && s.maxRetry == INFINITE && UserCloses !in events
    ensures Run(Start(s), events).phase != Down <==> SocketsMade(s, events)
    decreases |events|
  {
    if events != [] {
      var before, e := events[..|events| - 1], events[|events| - 1];
      assert events == before + [e];
      NeverDownIffSocketsMade(s, before);
      SocketsMadeStep(s, before, e);
      SettingStays(s, before);
      if e == OnClose && Run(Start(s), before).phase in {Trying, Connected} {
        RetriedIffAllowed(s, before);
      }
    }
  }

  /** An attempt is lost and the next one starts, k times over. */
  lemma {:induction false} LoseAgain(s: Setting, k: nat) returns (events: seq<Event>)
    requires s.Fits() && k <= Max(1, s.maxRetry) - 1
    ensures UserCloses !in events && TimerFires(false) !in events
    ensures var c := Run(Start(s), events);
            c.phase == Trying && c.setting.Some? && |c.delays| == k
  {
    if k == 0 {
      events := [];
    } else {
      var before := LoseAgain(s, k - 1);
      RetriedIffAllowed(s, before);
      var lost := before + [OnClose];
      assert lost[..|before|] == before;
      events := lost + [TimerFires(true)];
      assert events[..|lost|] == lost;
    }
  }

  /** Infinite retries are the only setting that gives no client up while sockets can be made. */
  lemma NeverGivenUpIffInfinite(s: Setting)
    requires s.Fits()
    ensures (forall events :: UserCloses !in events && SocketsMade(s, events) ==>
               Run(Start(s), events).phase != Down) <==> s.maxRetry == INFINITE
  {
    if s.maxRetry == INFINITE {
      forall events | UserCloses !in events && SocketsMade(s, events)
        ensures Run(Start(s), events).phase != Down
      {
        NeverDownIffSocketsMade(s, events);
      }
    } else {
      var before := LoseAgain(s, Max(1, s.maxRetry) - 1);
      RetriedIffAllowed(s, before);
      var events := before + [OnClose];
      assert events[..|before|] == before;
      assert UserCloses !in events && TimerFires(false) !in events;
      assert SocketsMade(s, events) && Run(Start(s), events).phase == Down;
    }
  }

  lemma {:induction false} DownForGood(c: Client, events: seq<Event>)
    requires c.phase == Down && c.setting.None?
    ensures Run(c, events).phase == Down && Run(c, events).setting.None?
    decreases |events|
  {
    if events != [] {
      DownForGood(c, events[..|events| - 1]);
    }
  }

  /**
    In every run, a client closed by its user stays down whatever happens next exactly if no
    reconnect was pending: closing does not cancel the timer of a scheduled one.
   */
  lemma ClosedStaysDownIffNothingPending(s: Setting, before: seq<Event>)
    ensures var c := Run(Start(s), before);
            (forall after :: Run(Step(c, UserCloses), after).phase == Down) <==> c.phase != Waiting
  {
    var c := Run(Start(s), before);
    var closed := Step(c, UserCloses);
    if c.phase != Waiting {
      forall after ensures Run(closed, after).phase == Down {
        DownForGood(closed, after);
      }
    } else {
      assert Run(closed, []).phase == Waiting;
    }
  }

  /** In every run, a connection or attempt lost after the user closed is the last one. */
  lemma LostAfterCloseIsLast(s: Setting, before: seq<Event>, after: seq<Event>)
    requires var c := Run(Start(s), before);
             c.setting.None? && (c.phase == Trying || c.phase == Connected)
    ensures Run(Step(Run(Start(s), before), OnClose), after).phase == Down
  {
    DownForGood(Step(Run(Start(s), before), OnClose), after);
  }

  /** Nor does the attempt fail to start: the pending timer still connects. */
  lemma PendingAttemptStarts(c: Client)
    requires c.phase == Waiting
    ensures Run(Step(c, UserCloses), [Event.TimerFires(true), Event.OnConnect]).phase == Connected
  {
    var events := [Event.TimerFires(true), Event.OnConnect];
    assert events[..1] == [Event.TimerFires(true)] && events[..1][..0] == [];
    assert Run(Step(c, UserCloses), []) == Step(c, UserCloses);
    assert Run(Step(c, UserCloses), events[..1]).phase == Trying;
  }

  /** The callbacks of TcpClient on its own fields. */
  class TcpClient {
    var phase: Phase
    var setting: ReconnSetting?
    ghost var delays: seq<nat>

    ghost function View(): Client
      reads this, setting
    {
      Client(phase, if setting == null then None else Some(setting.View()), delays)
    }

    constructor (s: Setting)
      ensures View() == Start(s) && fresh(setting)
    {
      phase := Trying;
      setting := new ReconnSetting(ResetStep(s));
      delays := [];
    }

    method OnConnect()
      requires phase == Trying
      modifies this`phase, this`delays, setting
      ensures View() == Step(old(View()), Event.OnConnect)
    {
      phase := Connected;
      if setting != null {
        setting.Reset();
      }
      delays := [];
    }

    method OnClose() returns (scheduled: Option<nat>)
      requires phase == Trying || phase == Connected
      modifies this`phase, this`delays, setting
      ensures View() == Step(old(View()), Event.OnClose)
      ensures scheduled.Some? <==> phase == Waiting
      ensures scheduled.Some? ==> delays == old(delays) + [scheduled.value]
    {
      phase := Down;
      scheduled := None;
      if setting != null {
        scheduled := StartReconnect();
      }
    }

    method StartReconnect() returns (scheduled: Option<nat>)
      requires phase == Down
      modifies this`phase, this`delays, setting
      ensures setting == null ==> View() == old(View())
      ensures setting != null ==> View() == Reconnecting(old(View()), old(setting.View()))
      ensures scheduled.Some? <==> phase == Waiting
      ensures scheduled.Some? ==> delays == old(delays) + [scheduled.value]
    {
      if setting == null {
        return None;
      }
      var ok := setting.CanRetry();
      if !ok {
        return None;
      }
      var delay := setting.CalcDelay();
      phase := Waiting;
      delays := delays + [delay];
      scheduled := Some(delay);
    }

    method TimerFires(ok: bool)
      requires phase == Waiting
      modifies this`phase
      ensures View() == Step(old(View()), Event.TimerFires(ok))
    {
      phase := if ok then Trying else Down;
    }

    method CloseSocket()
      modifies this`phase, this`setting
      ensures View() == Step(old(View()), UserCloses)
    {
      setting := null;
      if phase != Waiting {
        phase := Down;
      }
    }
  }
}
