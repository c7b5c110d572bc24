/**
  `HVLBuf`: a byte deque inside one growable buffer.

  The class is proved against the plain sequence it stands for. How far its buffer grows depends
  only on the lengths pushed and popped, so that is a function on two numbers, `Room`, with its own
  theorem about all runs.
 */
module VLBuf {
  import opened Wrappers

  // ---------- Growth ----------

  datatype Room = Room(cap: nat, size: nat)

  function Max(a: nat, b: nat): nat {
    if a < b then b else a
  }

  /** The capacity a push of `len` bytes leaves: the same, or at least doubled. */
  function Grown(r: Room, len: nat): nat
    requires r.size <= r.cap
  {
    if len > r.cap - r.size then Max(r.cap, len) * 2 else r.cap
  }

  datatype Op = Push(len: nat) | Pop(len: nat) | ClearAll

  function Do(r: Room, op: Op): (r': Room)
    requires r.size <= r.cap
    ensures r'.size <= r'.cap
  {
    match op
    case Push(len) => Room(Grown(r, len), r.size + len)
    case Pop(len) => if len <= r.size then r.(size := r.size - len) else r
    case ClearAll => r.(size := 0)
  }

  /** What a run did: its final room, the largest size on the way, the bytes reallocations moved. */
  datatype Tally = Tally(room: Room, peak: nat, copied: nat)

  function Run(r: Room, ops: seq<Op>): (t: Tally)
    requires r.size <= r.cap
    ensures t.room.size <= t.room.cap
    decreases |ops|
  {
    if ops == [] then Tally(r, r.size, 0)
    else
      var t := Run(r, ops[..|ops| - 1]);
      var room := Do(t.room, ops[|ops| - 1]);
      Tally(room, Max(t.peak, room.size), t.copied + if room.cap == t.room.cap then 0 else t.room.cap)
  }

  /**
    In every run the capacity stays within twice the peak size (or is the initial one), and all
    reallocations together copy at most the final capacity.
   */
  lemma {:induction false} GrowthIsBounded(r: Room, ops: seq<Op>)
    requires r.size <= r.cap
    ensures var t := Run(r, ops);
            && r.cap <= t.room.cap <= Max(r.cap, 2 * t.peak)
            && t.copied + r.cap <= t.room.cap
    decreases |ops|
  {
    if ops != [] {
      GrowthIsBounded(r, ops[..|ops| - 1]);
    }
  }

  // ---------- The class ----------

  /** memmove inside one buffer: all bytes are read before any is written, so the ranges may overlap. */
  method MoveWithin(a: array<byte>, dst: nat, src: nat, n: nat)
    requires dst + n <= a.Length && src + n <= a.Length
    modifies a
    ensures a[dst..dst + n] == old(a[src..src + n])
    ensures forall i :: 0 <= i < a.Length && !(dst <= i < dst + n) ==> a[i] == old(a[i])
  {
    forall i | 0 <= i < n {
      a[dst + i] := a[src + i];
    }
  }

  class HVLBuf {
    var base: array<byte>
    var offset: nat
    var size: nat

    ghost predicate Valid()
      reads this
    {
      offset + size <= base.Length
    }

    ghost function Contents(): seq<byte>
      requires Valid()
      reads this, base
    {
      base[offset..offset + size]
    }

    ghost function View(): Room
      reads this
    {
      Room(base.Length, size)
    }

    constructor (cap: nat)
      ensures Valid() && fresh(base)
      ensures Contents() == [] && View() == Room(cap, 0)
    {
      base := new byte[cap];
      offset, size := 0, 0;
    }

    /** The bytes of the old buffer survive as far as there is room; the contents do if they fit. */
    method Resize(cap: nat)
      modifies this`base
      ensures base.Length == cap && (base == old(base) || fresh(base))
      ensures var kept := if cap < old(base.Length) then cap else old(base.Length);
              base[..kept] == old(base[..kept])
      ensures old(Valid()) && offset + size <= cap ==> Valid() && Contents() == old(Contents())
    {
      if cap == base.Length {
        return;
      }
      var moved := new byte[cap];
      forall i | 0 <= i < cap && i < base.Length {
        moved[i] := base[i];
      }
      base := moved;
    }

    method SlideTo(place: nat)
      requires Valid() && place + size <= base.Length
      modifies this`offset, base
      ensures Valid() && offset == place && Contents() == old(Contents())
    {
      MoveWithin(base, place, offset, size);
      offset := place;
    }

    /** memcpy of outside data into the bytes in front of the contents, which then start there. */
    method StoreFront(data: seq<byte>)
      requires Valid() && |data| <= offset
      modifies this`offset, this`size, base
      ensures Valid() && size == old(size) + |data| && Contents() == data + old(Contents())
    {
      forall i | 0 <= i < |data| {
        base[offset - |data| + i] := data[i];
      }
      offset := offset - |data|;
      size := size + |data|;
    }

    method StoreBack(data: seq<byte>)
      requires Valid() && offset + size + |data| <= base.Length
      modifies this`size, base
      ensures Valid() && size == old(size) + |data| && Contents() == old(Contents()) + data
    {
      forall i | 0 <= i < |data| {
        base[offset + size + i] := data[i];
      }
      size := size + |data|;
    }

    method PushFront(data: seq<byte>)
      requires Valid()
      modifies this, base
      ensures Valid() && (base == old(base) || fresh(base))
      ensures Contents() == data + old(Contents())
      ensures View() == Do(old(View()), Push(|data|))
    {
      if |data| > base.Length - size {
        Resize(Max(base.Length, |data|) * 2);
      }
      if offset < |data| {
        SlideTo(base.Length - size);
      }
      StoreFront(data);
    }

    method PushBack(data: seq<byte>)
      requires Valid()
      modifies this, base
      ensures Valid() && (base == old(base) || fresh(base))
      ensures Contents() == old(Contents()) + data
      ensures View() == Do(old(View()), Push(|data|))
    {
      if |data| > base.Length - size {
        Resize(Max(base.Length, |data|) * 2);
      } else if |data| > base.Length - offset - size {
        SlideTo(0);
      }
      StoreBack(data);
    }

    /** More bytes than there are: nothing happens. Otherwise they are read out and dropped. */
    method PopFront(len: nat) returns (out: Option<seq<byte>>)
      requires Valid()
      modifies this`offset, this`size
      ensures Valid()
      ensures out.Some? <==> len <= old(size)
      ensures out.Some? ==> |out.value| == len && old(Contents()) == out.value + Contents()
      ensures out.None? ==> Contents() == old(Contents())
      ensures View() == Do(old(View()), Pop(len))
    {
      out := None;
      if len <= size {
        out := Some(base[offset..offset + len]);
        offset := offset + len;
        if offset >= base.Length {
          offset := 0;
        }
        size := size - len;
      }
    }

    method PopBack(len: nat) returns (out: Option<seq<byte>>)
      requires Valid()
      modifies this`size
      ensures Valid()
      ensures out.Some? <==> len <= old(size)
      ensures out.Some? ==> |out.value| == len && old(Contents()) == Contents() + out.value
      ensures out.None? ==> Contents() == old(Contents())
      ensures View() == Do(old(View()), Pop(len))
    {
      out := None;
      if len <= size {
        out := Some(base[offset + size - len..offset + size]);
        size := size - len;
      }
    }

    method Clear()
      requires Valid()
      modifies this`offset, this`size
      ensures Valid() && Contents() == [] && View() == Do(old(View()), ClearAll)
    {
      offset, size := 0, 0;
    }
  }
}
