/** How many elements of a sequence satisfy a predicate. */
module Counting {
  ghost function Count<T>(p: T -> bool, s: seq<T>): nat {
    if s == [] then 0 else Count(p, s[..|s| - 1]) + if p(s[|s| - 1]) then 1 else 0
  }

  lemma {:induction false} CountUpdate<T>(p: T -> bool, s: seq<T>, i: nat, x: T)
    requires i < |s|
    ensures Count(p, s[i := x]) == Count(p, s) - (if p(s[i]) then 1 else 0) + if p(x) then 1 else 0
  {
    var last := |s| - 1;
    if i < last {
      CountUpdate(p, s[..last], i, x);
      assert s[i := x][..last] == s[..last][i := x];
    } else {
      assert s[i := x][..last] == s[..last];
    }
  }

  lemma CountAppend<T>(p: T -> bool, s: seq<T>, x: T)
    ensures Count(p, s + [x]) == Count(p, s) + if p(x) then 1 else 0
  {
    assert (s + [x])[..|s|] == s;
  }

  lemma {:induction false} CountNone<T>(p: T -> bool, s: seq<T>)
    requires forall i :: 0 <= i < |s| ==> !p(s[i])
    ensures Count(p, s) == 0
  {
    if s != [] {
      CountNone(p, s[..|s| - 1]);
    }
  }

  lemma {:induction false} CountSome<T>(p: T -> bool, s: seq<T>) returns (i: nat)
    requires Count(p, s) > 0
    ensures i < |s| && p(s[i])
  {
    i := |s| - 1;
    if !p(s[i]) {
      i := CountSome(p, s[..|s| - 1]);
    }
  }

  lemma {:induction false} CountAtMost<T>(p: T -> bool, s: seq<T>)
    ensures Count(p, s) <= |s|
    ensures Count(p, s) == |s| ==> forall i :: 0 <= i < |s| ==> p(s[i])
  {
    if s != [] {
      CountAtMost(p, s[..|s| - 1]);
      assert forall i :: 0 <= i < |s| - 1 ==> s[i] == s[..|s| - 1][i];
    }
  }

  /** At most one element satisfies p if any two that do are the same. */
  lemma {:induction false} CountUnique<T>(p: T -> bool, s: seq<T>)
    requires forall i, j :: 0 <= i < j < |s| ==> !p(s[i]) || !p(s[j])
    ensures Count(p, s) <= 1
  {
    if s != [] {
      var last := |s| - 1;
      CountUnique(p, s[..last]);
      if p(s[last]) {
        CountNone(p, s[..last]);
      }
    }
  }

  lemma {:induction false} CountWeaker<T>(p: T -> bool, q: T -> bool, s: seq<T>)
    requires forall i :: 0 <= i < |s| && p(s[i]) ==> q(s[i])
    ensures Count(p, s) <= Count(q, s)
  {
    if s != [] {
      CountWeaker(p, q, s[..|s| - 1]);
    }
  }
}
