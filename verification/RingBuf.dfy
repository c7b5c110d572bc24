/**
  `HRingBuf`: a FIFO allocator of contiguous blocks inside one fixed buffer.

  `Ring` holds the four numbers the class keeps; `AllocStep` and `FreeStep` are its two operations on
  them. The blocks handed out and not yet freed are not stored anywhere in the original: they are
  the ghost sequence `live`, oldest first. The class at the end has the real buffer and is proved
  against these functions.
 */
module RingBuf {
  import opened Wrappers

  datatype Block = Block(start: nat, len: nat)

  datatype Ring = Ring(cap: nat, head: nat, tail: nat, size: nat)

  function Empty(cap: nat): Ring {
    Ring(cap, 0, 0, 0)
  }

  /** Null stays null: a buffer without capacity has no address to hand out. */
  function Pointer(r: Ring, offset: nat): Option<nat> {
    if r.cap == 0 then None else Some(offset)
  }

  /** The new state, and the offset handed out (None is the null pointer). */
  function AllocStep(r: Ring, len: nat): (Ring, Option<nat>)
    requires r.head <= r.cap && r.tail <= r.cap
  {
    var (tail, ret) :=
      if r.head < r.tail || r.size == 0 then
        if r.cap - r.tail >= len then
          (if r.tail + len == r.cap then 0 else r.tail + len, Pointer(r, r.tail))
        else if r.head >= len then
          (len, Pointer(r, 0))
        else
          (r.tail, None)
      else if r.head - r.tail >= len then
        (r.tail + len, Pointer(r, r.tail))
      else
        (r.tail, None);
    (Ring(r.cap, r.head, tail, r.size + if ret.Some? then len else 0), ret)
  }

  function FreeStep(r: Ring, len: nat): Ring
    requires r.head <= r.cap && len <= r.size
  {
    var head :=
      if len <= r.cap - r.head then
        if r.head + len == r.cap then 0 else r.head + len
      else
        len;
    Ring(r.cap, head, r.tail, r.size - len)
  }

  // ---------- The layout of the live blocks ----------

  ghost function Sum(bs: seq<Block>): nat {
    if bs == [] then 0 else bs[0].len + Sum(bs[1..])
  }

  /** The blocks lie end to end from `from`; an empty block has no place of its own. */
  ghost predicate Contiguous(bs: seq<Block>, from: nat) {
    bs == [] ||
    ((bs[0].len > 0 ==> bs[0].start == from) && Contiguous(bs[1..], from + bs[0].len))
  }

  /** No block has wrapped: they fill [head, head + Sum). */
  ghost predicate Straight(r: Ring, live: seq<Block>) {
    && Contiguous(live, r.head)
    && r.head + Sum(live) <= r.cap
    && r.tail == (if r.head + Sum(live) == r.cap then 0 else r.head + Sum(live))
  }

  /**
    Blocks k, k+1, ... start again at 0. Block k was too long for the bytes left behind block
    k-1: that remainder is the hidden gap, whose length is recorded nowhere.
   */
  ghost predicate WrappedAt(r: Ring, live: seq<Block>, k: nat) {
    && k < |live|
    && Contiguous(live[..k], r.head)
    && Contiguous(live[k..], 0)
    && r.head + Sum(live[..k]) <= r.cap < r.head + Sum(live[..k]) + live[k].len
    && r.tail == Sum(live[k..]) <= r.head
  }

  ghost predicate Inv(r: Ring, live: seq<Block>) {
    && (r.head < r.cap || r.head == r.cap == 0)
    && r.tail <= r.cap
    && r.size == Sum(live)
    && (forall i :: 0 <= i < |live| ==> live[i].start + live[i].len <= r.cap)
    && (Straight(r, live) || exists k :: WrappedAt(r, live, k))
  }

  lemma {:induction false} SumAppend(a: seq<Block>, b: seq<Block>)
    ensures Sum(a + b) == Sum(a) + Sum(b)
  {
    if a == [] {
      assert a + b == b;
    } else {
      assert (a + b)[1..] == a[1..] + b;
      SumAppend(a[1..], b);
    }
  }

  lemma {:induction false} ContiguousAppend(a: seq<Block>, b: seq<Block>, from: nat)
    ensures Contiguous(a + b, from) <==> Contiguous(a, from) && Contiguous(b, from + Sum(a))
  {
    if a == [] {
      assert a + b == b;
    } else {
      assert (a + b)[1..] == a[1..] + b;
      ContiguousAppend(a[1..], b, from + a[0].len);
    }
  }

  lemma {:induction false} EmptyBlocksAnywhere(a: seq<Block>, from: nat)
    requires Sum(a) == 0
    ensures Contiguous(a, from)
  {
    if a != [] {
      EmptyBlocksAnywhere(a[1..], from);
    }
  }

  lemma {:induction false} SumMember(bs: seq<Block>, i: nat)
    requires i < |bs|
    ensures bs[i].len <= Sum(bs)
  {
    if i > 0 {
      SumMember(bs[1..], i - 1);
    }
  }

  /** A non-empty block of a contiguous run lies where the lengths before it put it. */
  lemma {:induction false} ContiguousAt(bs: seq<Block>, from: nat, i: nat)
    requires Contiguous(bs, from) && i < |bs| && bs[i].len > 0
    ensures bs[i].start == from + Sum(bs[..i])
    ensures bs[i].start + bs[i].len <= from + Sum(bs)
  {
    if i > 0 {
      ContiguousAt(bs[1..], from + bs[0].len, i - 1);
      assert bs[..i][1..] == bs[1..][..i - 1];
    }
  }

  lemma {:induction false} ContiguousOrdered(bs: seq<Block>, from: nat, i: nat, j: nat)
    requires Contiguous(bs, from) && i < j < |bs| && bs[i].len > 0 && bs[j].len > 0
    ensures bs[i].start + bs[i].len <= bs[j].start
  {
    if i == 0 {
      ContiguousAt(bs, from, j);
      assert bs[..j][1..] == bs[1..][..j - 1];
    } else {
      ContiguousOrdered(bs[1..], from + bs[0].len, i - 1, j - 1);
    }
  }

  // ---------- Every operation keeps the layout ----------

  lemma SumOne(b: Block)
    ensures Sum([b]) == b.len
  {
    assert [b][1..] == [];
  }

  lemma AllocFromStraight(r: Ring, live: seq<Block>, len: nat)
    requires Inv(r, live) && Straight(r, live) && AllocStep(r, len).1.Some?
    ensures var (r', ret) := AllocStep(r, len);
            var live' := live + [Block(ret.value, len)];
            Straight(r', live') || WrappedAt(r', live', |live|)
  {
    var (r', ret) := AllocStep(r, len);
    var b := Block(ret.value, len);
    var live' := live + [b];
    SumOne(b);
    SumAppend(live, [b]);
    if r.head + Sum(live) + len <= r.cap {
      ContiguousAppend(live, [b], r.head);
      assert Straight(r', live');
    } else {
      assert live'[..|live|] == live && live'[|live|..] == [b];
      assert WrappedAt(r', live', |live|);
    }
  }

  lemma AllocFromWrapped(r: Ring, live: seq<Block>, len: nat, k: nat)
    requires Inv(r, live) && WrappedAt(r, live, k) && AllocStep(r, len).1.Some?
    ensures var (r', ret) := AllocStep(r, len);
            WrappedAt(r', live + [Block(ret.value, len)], k)
  {
    var (r', ret) := AllocStep(r, len);
    var b := Block(ret.value, len);
    var live' := live + [b];
    SumOne(b);
    WrappedNotEmpty(r, live, k);
    assert live'[..k] == live[..k] && live'[k..] == live[k..] + [b];
    SumAppend(live[k..], [b]);
    ContiguousAppend(live[k..], [b], 0);
  }

  /** A served request becomes the newest live block; a refused one changes nothing. */
  lemma AllocKeepsLayout(r: Ring, live: seq<Block>, len: nat)
    requires Inv(r, live)
    ensures var (r', ret) := AllocStep(r, len);
            && (ret.Some? ==> Inv(r', live + [Block(ret.value, len)]))
            && (ret.None? ==> r' == r)
  {
    var ret := AllocStep(r, len).1;
    if ret.None? {
      RefusalChangesNothing(r, live, len);
    } else {
      SumOne(Block(ret.value, len));
      SumAppend(live, [Block(ret.value, len)]);
      if Straight(r, live) {
        AllocFromStraight(r, live, len);
      } else {
        var k: nat :| WrappedAt(r, live, k);
        AllocFromWrapped(r, live, len, k);
      }
    }
  }

  lemma WrappedNotEmpty(r: Ring, live: seq<Block>, k: nat)
    requires WrappedAt(r, live, k)
    ensures Sum(live) > 0 && Sum(live) == Sum(live[..k]) + Sum(live[k..]) && live[k].len <= Sum(live[k..])
  {
    assert live == live[..k] + live[k..];
    SumAppend(live[..k], live[k..]);
    SumMember(live[k..], 0);
  }

  lemma RefusalChangesNothing(r: Ring, live: seq<Block>, len: nat)
    requires Inv(r, live) && AllocStep(r, len).1.None?
    ensures AllocStep(r, len).0 == r
  {
    if r.cap == 0 && len == 0 {
      if k: nat :| WrappedAt(r, live, k) {
        WrappedNotEmpty(r, live, k);
      }
    }
  }

  lemma FreeFromStraight(r: Ring, live: seq<Block>)
    requires Inv(r, live) && live != [] && Straight(r, live)
    ensures live[0].len <= r.size && Straight(FreeStep(r, live[0].len), live[1..])
  {
    if r.head + live[0].len == r.cap {
      EmptyBlocksAnywhere(live[1..], 0);
    }
  }

  /** The oldest block is not the first of the wrapped ones; freeing it may use up the unwrapped bytes. */
  lemma FreeFromWrapped(r: Ring, live: seq<Block>, k: nat)
    requires Inv(r, live) && WrappedAt(r, live, k) && k > 0
    ensures live[0].len <= r.size
    ensures var r' := FreeStep(r, live[0].len);
            Straight(r', live[1..]) || WrappedAt(r', live[1..], k - 1)
  {
    WrappedNotEmpty(r, live, k);
    var front := live[1..][..k - 1];
    assert live[..k][1..] == front && live[1..][k - 1..] == live[k..];
    if r.head + live[0].len == r.cap {
      EmptyBlocksAnywhere(front, 0);
      assert live[1..] == front + live[k..];
      ContiguousAppend(front, live[k..], 0);
      SumAppend(front, live[k..]);
    }
  }

  /** Freeing with the length of the oldest block leaves exactly the younger blocks, unmoved. */
  lemma FreeKeepsLayout(r: Ring, live: seq<Block>)
    requires Inv(r, live) && live != []
    ensures live[0].len <= r.size && Inv(FreeStep(r, live[0].len), live[1..])
  {
    if Straight(r, live) {
      FreeFromStraight(r, live);
    } else {
      var k: nat :| WrappedAt(r, live, k);
      WrappedNotEmpty(r, live, k);
      if k == 0 {
        assert live[..0] == [] && live[0..] == live;
        assert Straight(FreeStep(r, live[0].len), live[1..]);
      } else {
        FreeFromWrapped(r, live, k);
      }
    }
  }

  // ---------- What the layout means ----------

  ghost predicate Disjoint(a: Block, b: Block) {
    a.len == 0 || b.len == 0 || a.start + a.len <= b.start || b.start + b.len <= a.start
  }

  ghost predicate Safe(r: Ring, live: seq<Block>) {
    && r.size == Sum(live) <= r.cap
    && (forall i :: 0 <= i < |live| ==> live[i].start + live[i].len <= r.cap)
    && (forall i, j :: 0 <= i < j < |live| ==> Disjoint(live[i], live[j]))
  }

  lemma LayoutIsSafe(r: Ring, live: seq<Block>)
    requires Inv(r, live)
    ensures Safe(r, live)
  {
    if Straight(r, live) {
      forall i, j | 0 <= i < j < |live| ensures Disjoint(live[i], live[j]) {
        if live[i].len > 0 && live[j].len > 0 {
          ContiguousOrdered(live, r.head, i, j);
        }
      }
    } else {
      var k: nat :| WrappedAt(r, live, k);
      WrappedNotEmpty(r, live, k);
      forall i, j | 0 <= i < j < |live| ensures Disjoint(live[i], live[j]) {
        if live[i].len > 0 && live[j].len > 0 {
          WrappedDisjoint(r, live, k, i, j);
        }
      }
    }
  }

  lemma WrappedDisjoint(r: Ring, live: seq<Block>, k: nat, i: nat, j: nat)
    requires WrappedAt(r, live, k) && i < j < |live| && live[i].len > 0 && live[j].len > 0
    ensures Disjoint(live[i], live[j])
  {
    if j < k {
      ContiguousOrdered(live[..k], r.head, i, j);
    } else if k <= i {
      ContiguousOrdered(live[k..], 0, i - k, j - k);
    } else {
      ContiguousAt(live[..k], r.head, i);
      ContiguousAt(live[k..], 0, j - k);
    }
  }

  // ---------- Runs ----------

  datatype Op = AllocOp(len: nat) | FreeOldest | ClearAll

  /** One call by a caller that frees oldest first, each block with its own length. */
  ghost function Do(r: Ring, live: seq<Block>, op: Op): (Ring, seq<Block>)
    requires Inv(r, live)
  {
    match op
    case AllocOp(len) =>
      var (r', ret) := AllocStep(r, len);
      (r', if ret.Some? then live + [Block(ret.value, len)] else live)
    case FreeOldest =>
      if live == [] then (r, live)
      else
        FreeKeepsLayout(r, live);
        (FreeStep(r, live[0].len), live[1..])
    case ClearAll => (Empty(r.cap), [])
  }

  lemma DoKeepsLayout(r: Ring, live: seq<Block>, op: Op)
    requires Inv(r, live)
    ensures Inv(Do(r, live, op).0, Do(r, live, op).1) && Do(r, live, op).0.cap == r.cap
  {
    match op
    case AllocOp(len) => AllocKeepsLayout(r, live, len);
    case FreeOldest => if live != [] { FreeKeepsLayout(r, live); }
    case ClearAll =>
  }

  /** Where a history of calls (latest last) takes a fresh ring: its numbers and its live blocks. */
  ghost function Run(cap: nat, ops: seq<Op>): (s: (Ring, seq<Block>))
    ensures s.0.cap == cap && Inv(s.0, s.1)
  {
    if ops == [] then (Empty(cap), [])
    else
      var (r, live) := Run(cap, ops[..|ops| - 1]);
      DoKeepsLayout(r, live, ops[|ops| - 1]);
      Do(r, live, ops[|ops| - 1])
  }

  /** In every run the live blocks are inside the buffer, disjoint, and their lengths add up to `size`. */
  lemma EveryRunIsSafe(cap: nat, ops: seq<Op>)
    ensures Safe(Run(cap, ops).0, Run(cap, ops).1)
  {
    LayoutIsSafe(Run(cap, ops).0, Run(cap, ops).1);
  }

  // ---------- Fragmentation ----------

  /**
    With no live or requested block longer than m, a request is refused only when at most 2m - 2
    bytes are unallocated.
   */
  lemma FragmentationBound(r: Ring, live: seq<Block>, len: nat, m: nat)
    requires Inv(r, live) && 0 < len <= m
    requires forall i :: 0 <= i < |live| ==> live[i].len <= m
    requires AllocStep(r, len).1.None?
    ensures r.cap - r.size <= 2 * m - 2
  {
    if !Straight(r, live) {
      var k: nat :| WrappedAt(r, live, k);
      WrappedNotEmpty(r, live, k);
      assert live[k].len <= m;
    }
  }

  /** An empty ring serves every request up to half its capacity, wherever head and tail stand. */
  lemma EmptyRingServesHalf(r: Ring, live: seq<Block>, len: nat)
    requires Inv(r, live) && r.size == 0 && 0 < len
    ensures AllocStep(r, len).1.Some? <==> len <= r.head || len <= r.cap - r.head
    ensures 2 * len <= r.cap + 1 ==> AllocStep(r, len).1.Some?
  {
    if !Straight(r, live) {
      var k: nat :| WrappedAt(r, live, k);
      WrappedNotEmpty(r, live, k);
      assert false;
    }
  }

  /** The bound cannot be improved: for every m > 1 some run meets it exactly. */
  lemma FragmentationBoundIsTight(m: nat)
    requires m > 1
    ensures var (r, live) := Run(2 * m - 2, [AllocOp(m - 1), FreeOldest]);
            AllocStep(r, m).1.None? && r.cap - r.size == 2 * m - 2
  {
    var cap := 2 * m - 2;
    var ops := [AllocOp(m - 1), FreeOldest];
    assert ops[..1] == [AllocOp(m - 1)] && ops[..1][..0] == [];
    assert Run(cap, []) == (Empty(cap), []);
    assert [] + [Block(0, m - 1)] == [Block(0, m - 1)];
    assert Do(Empty(cap), [], ops[..1][0]) == (Ring(cap, 0, m - 1, m - 1), [Block(0, m - 1)]);
    assert Run(cap, ops[..1]) == (Ring(cap, 0, m - 1, m - 1), [Block(0, m - 1)]);
  }

  // ---------- The class ----------

  ghost function Bytes(mem: seq<byte>, b: Block): seq<byte>
    requires b.start + b.len <= |mem|
  {
    mem[b.start..b.start + b.len]
  }

  ghost predicate InBounds(mem: seq<byte>, live: seq<Block>) {
    forall i :: 0 <= i < |live| ==> live[i].start + live[i].len <= |mem|
  }

  ghost function Contents(mem: seq<byte>, live: seq<Block>): (q: seq<seq<byte>>)
    requires InBounds(mem, live)
    ensures |q| == |live|
  {
    seq(|live|, i requires 0 <= i < |live| => Bytes(mem, live[i]))
  }

  lemma ContentsAppend(mem: seq<byte>, live: seq<Block>, b: Block)
    requires InBounds(mem, live) && b.start + b.len <= |mem|
    ensures InBounds(mem, live + [b]) && Contents(mem, live + [b]) == Contents(mem, live) + [Bytes(mem, b)]
  {
  }

  /** Seen from outside a ring buffer is a FIFO queue of byte blocks. */
  class HRingBuf {
    var base: array<byte>
    var head: nat
    var tail: nat
    var size: nat
    ghost var live: seq<Block>

    ghost function View(): Ring
      reads this
    {
      Ring(base.Length, head, tail, size)
    }

    ghost predicate Valid()
      reads this
    {
      Inv(View(), live)
    }

    ghost function Queue(): seq<seq<byte>>
      requires Valid()
      reads this, base
    {
      Contents(base[..], live)
    }

    constructor (cap: nat)
      ensures Valid() && fresh(base)
      ensures View() == Empty(cap) && live == [] && Queue() == []
    {
      base := new byte[cap];
      head, tail, size := 0, 0, 0;
      live := [];
    }

    /** A served request appends a block, holding whatever bytes lie there, to the queue. */
    method Alloc(len: nat) returns (ret: Option<nat>)
      requires Valid()
      modifies this`tail, this`size, this`live
      ensures Valid()
      ensures (View(), ret) == AllocStep(old(View()), len)
      ensures ret.None? ==> live == old(live) && Queue() == old(Queue())
      ensures ret.Some? ==> live == old(live) + [Block(ret.value, len)]
      ensures ret.Some? ==> Queue() == old(Queue()) + [Bytes(base[..], Block(ret.value, len))]
    {
      ghost var view := View();
      ret := None;
      if head < tail || size == 0 {
        if base.Length - tail >= len {
          ret := if base.Length == 0 then None else Some(tail);
          tail := tail + len;
          if tail == base.Length {
            tail := 0;
          }
        } else if head >= len {
          ret := if base.Length == 0 then None else Some(0);
          tail := len;
        }
      } else if head - tail >= len {
        ret := if base.Length == 0 then None else Some(tail);
        tail := tail + len;
      }
      size := size + if ret.Some? then len else 0;
      assert (View(), ret) == AllocStep(view, len);
      AllocKeepsLayout(view, live, len);
      if ret.Some? {
        ghost var b := Block(ret.value, len);
        assert (live + [b])[|live|] == b;
        ContentsAppend(base[..], live, b);
        live := live + [b];
      }
    }

    /** The caller gives back the oldest block: the queue loses its first element and nothing else. */
    method Free(len: nat)
      requires Valid() && live != [] && len == live[0].len
      modifies this`head, this`size, this`live
      ensures Valid()
      ensures View() == FreeStep(old(View()), len)
      ensures live == old(live)[1..] && Queue() == old(Queue())[1..]
    {
      FreeKeepsLayout(View(), live);
      size := size - len;
      if len <= base.Length - head {
        head := head + len;
        if head == base.Length {
          head := 0;
        }
      } else {
        head := len;
      }
      live := live[1..];
    }

    method Clear()
      modifies this`head, this`tail, this`size, this`live
      ensures Valid() && View() == Empty(base.Length) && Queue() == []
    {
      head, tail, size := 0, 0, 0;
      live := [];
    }

    /** The caller fills a live block through the pointer it was given: no other block changes. */
    method Fill(p: nat, data: seq<byte>, ghost i: nat)
      requires Valid() && i < |live| && live[i] == Block(p, |data|)
      modifies base
      ensures Valid() && Queue() == old(Queue())[i := data]
    {
      LayoutIsSafe(View(), live);
      forall j | 0 <= j < |data| {
        base[p + j] := data[j];
      }
      forall k | 0 <= k < |live|
        ensures Queue()[k] == old(Queue())[i := data][k]
      {
        assert k != i ==> Disjoint(live[k], live[i]);
      }
    }
  }
}
