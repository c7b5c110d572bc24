/**
  The chunked transfer coding of section 7.1 of RFC 9112, without extensions and trailer fields:
  how one chunk is printed, and an independent decoder.
 */
module Chunked {
  import opened Wrappers

  type Bytes = seq<byte>

  const CR: byte := 13
  const LF: byte := 10
  const CRLF: Bytes := [CR, LF]

  // ---------- Printing ----------

  function HexDigit(d: nat): byte
    requires d < 16
  {
    if d < 10 then 48 + d as byte else 87 + d as byte
  }

  /** printf's %x. */
  function Hex(n: nat): (h: Bytes)
    ensures h != []
  {
    if n < 16 then [HexDigit(n)] else Hex(n / 16) + [HexDigit(n % 16)]
  }

  /** A chunk; without data it is the last chunk with an empty trailer section. */
  function Chunk(data: Bytes): Bytes {
    Hex(|data|) + CRLF + data + CRLF
  }

  function Concat(parts: seq<Bytes>): Bytes {
    if parts == [] then [] else Concat(parts[..|parts| - 1]) + parts[|parts| - 1]
  }

  function Chunks(parts: seq<Bytes>): Bytes {
    if parts == [] then [] else Chunks(parts[..|parts| - 1]) + Chunk(parts[|parts| - 1])
  }

  // ---------- Decoding ----------

  /** HEXDIG, in either case. */
  function HexValue(b: byte): Option<nat> {
    if 48 <= b <= 57 then Some((b - 48) as nat)
    else if 97 <= b <= 102 then Some((b - 87) as nat)
    else if 65 <= b <= 70 then Some((b - 55) as nat)
    else None
  }

  /** How many hex digits the bytes begin with. */
  function HexSpan(bs: Bytes): (n: nat)
    ensures n <= |bs|
    ensures forall i :: 0 <= i < n ==> HexValue(bs[i]).Some?
  {
    if bs == [] || HexValue(bs[0]).None? then 0 else 1 + HexSpan(bs[1..])
  }

  function Number(digits: Bytes): nat
    requires forall i :: 0 <= i < |digits| ==> HexValue(digits[i]).Some?
  {
    if digits == [] then 0 else 16 * Number(digits[..|digits| - 1]) + HexValue(digits[|digits| - 1]).value
  }

  predicate StartsWith(bs: Bytes, prefix: Bytes) {
    prefix <= bs
  }

  /** The decoded body and the bytes after it, or None if the input is not a complete chunked body. */
  function Decode(bs: Bytes): Option<(Bytes, Bytes)>
    decreases |bs|
  {
    var n := HexSpan(bs);
    if n == 0 || !StartsWith(bs[n..], CRLF) then None
    else
      var size := Number(bs[..n]);
      var after := bs[n + 2..];
      if size == 0 then
        if StartsWith(after, CRLF) then Some(([], after[2..])) else None
      else if |after| < size || !StartsWith(after[size..], CRLF) then None
      else
        match Decode(after[size + 2..])
        case None => None
        case Some((body, rest)) => Some((after[..size] + body, rest))
  }

  // ---------- Round trip ----------

  lemma {:induction false} HexReadsBack(n: nat)
    ensures forall i :: 0 <= i < |Hex(n)| ==> HexValue(Hex(n)[i]).Some?
    ensures Number(Hex(n)) == n
  {
    if n >= 16 {
      HexReadsBack(n / 16);
      assert Hex(n)[..|Hex(n)| - 1] == Hex(n / 16);
    } else {
      assert Hex(n)[..0] == [];
    }
  }

  lemma {:induction false} SpanOfDigits(digits: Bytes, rest: Bytes)
    requires forall i :: 0 <= i < |digits| ==> HexValue(digits[i]).Some?
    requires rest != [] && HexValue(rest[0]).None?
    ensures HexSpan(digits + rest) == |digits|
  {
    if digits == [] {
      assert digits + rest == rest;
    } else {
      assert (digits + rest)[1..] == digits[1..] + rest;
      SpanOfDigits(digits[1..], rest);
    }
  }

  /** What follows the size line, split off. */
  lemma DecodeSizeLine(size: nat, after: Bytes)
    ensures var bs := Hex(size) + CRLF + after;
            && HexSpan(bs) == |Hex(size)| && StartsWith(bs[|Hex(size)|..], CRLF)
            && Number(bs[..|Hex(size)|]) == size && bs[|Hex(size)| + 2..] == after
  {
    var bs := Hex(size) + CRLF + after;
    HexReadsBack(size);
    assert bs == Hex(size) + (CRLF + after);
    SpanOfDigits(Hex(size), CRLF + after);
    assert bs[..|Hex(size)|] == Hex(size) && bs[|Hex(size)|..] == CRLF + after;
  }

  lemma ChunkThen(data: Bytes, rest: Bytes)
    ensures var after := data + CRLF + rest;
            && Chunk(data) + rest == Hex(|data|) + CRLF + after
            && |after| >= |data| + 2 && after[..|data|] == data
            && StartsWith(after[|data|..], CRLF) && after[|data| + 2..] == rest
  {
    var after := data + CRLF + rest;
    Associative(Hex(|data|) + CRLF, data, CRLF);
    Associative(Hex(|data|) + CRLF, data + CRLF, rest);
    Associative(data, CRLF, rest);
    assert after[|data|..] == CRLF + rest;
  }

  lemma DecodeOneChunk(data: Bytes, rest: Bytes)
    requires data != []
    ensures Decode(Chunk(data) + rest) ==
              match Decode(rest)
              case None => None
              case Some((body, more)) => Some((data + body, more))
  {
    ChunkThen(data, rest);
    DecodeSizeLine(|data|, data + CRLF + rest);
  }

  lemma DecodeLastChunk(rest: Bytes)
    ensures Decode(Chunk([]) + rest) == Some(([], rest))
  {
    assert Chunk([]) + rest == Hex(0) + CRLF + (CRLF + rest);
    DecodeSizeLine(0, CRLF + rest);
  }

  lemma Associative(a: Bytes, b: Bytes, c: Bytes)
    ensures a + b + c == a + (b + c)
  {
  }

  lemma SplitLast(parts: seq<Bytes>, body: Bytes, tail: Bytes)
    requires parts != []
    ensures var front, last := parts[..|parts| - 1], parts[|parts| - 1];
            && Chunks(parts) + tail == Chunks(front) + (Chunk(last) + tail)
            && Concat(parts) + body == Concat(front) + (last + body)
  {
    var front, last := parts[..|parts| - 1], parts[|parts| - 1];
    Associative(Chunks(front), Chunk(last), tail);
    Associative(Concat(front), last, body);
  }

  /** Any non-empty pieces printed as chunks and closed by a last chunk decode to their concatenation. */
  lemma {:induction false} RoundTrip(parts: seq<Bytes>, body: Bytes, tail: Bytes, rest: Bytes)
    requires forall i :: 0 <= i < |parts| ==> parts[i] != []
    requires Decode(tail) == Some((body, rest))
    ensures Decode(Chunks(parts) + tail) == Some((Concat(parts) + body, rest))
  {
    if parts == [] {
      assert Chunks(parts) + tail == tail && Concat(parts) + body == body;
    } else {
      SplitLast(parts, body, tail);
      DecodeOneChunk(parts[|parts| - 1], tail);
      RoundTrip(parts[..|parts| - 1], parts[|parts| - 1] + body, Chunk(parts[|parts| - 1]) + tail, rest);
    }
  }

  // ---------- Empty pieces ----------

  lemma {:induction false} ChunksJoin(a: seq<Bytes>, b: seq<Bytes>)
    ensures Chunks(a + b) == Chunks(a) + Chunks(b) && Concat(a + b) == Concat(a) + Concat(b)
    decreases |b|
  {
    if b == [] {
      assert a + b == a;
    } else {
      var front, last := b[..|b| - 1], b[|b| - 1];
      ChunksJoin(a, front);
      assert (a + b)[..|a + b| - 1] == a + front;
      Associative(Chunks(a), Chunks(front), Chunk(last));
      Associative(Concat(a), Concat(front), last);
    }
  }

  /** An empty piece ends the body for the decoder: what is printed behind it is left over. */
  lemma EmptyPieceEndsBody(before: seq<Bytes>, after: seq<Bytes>, tail: Bytes)
    requires forall i :: 0 <= i < |before| ==> before[i] != []
    ensures Decode(Chunks(before + [[]] + after) + tail) == Some((Concat(before), Chunks(after) + tail))
  {
    var rest := Chunks(after) + tail;
    DecodeLastChunk(rest);
    RoundTrip(before, [], Chunk([]) + rest, rest);
    assert Concat(before) + [] == Concat(before);
    OneChunk([]);
    ChunksJoin(before, [[]]);
    ChunksJoin(before + [[]], after);
    Associative(Chunks(before) + Chunk([]), Chunks(after), tail);
    Associative(Chunks(before), Chunk([]), rest);
  }

  lemma OneChunk(data: Bytes)
    ensures Chunks([data]) == Chunk(data)
  {
    assert [data][..0] == [];
    assert [] + Chunk(data) == Chunk(data);
  }

  predicate AllNonEmpty(parts: seq<Bytes>) {
    forall i :: 0 <= i < |parts| ==> parts[i] != []
  }

  /** The pieces split at the first empty one. */
  lemma {:induction false} FirstEmpty(parts: seq<Bytes>) returns (before: seq<Bytes>, after: seq<Bytes>)
    requires !AllNonEmpty(parts)
    ensures AllNonEmpty(before) && parts == before + [[]] + after
    decreases |parts|
  {
    if AllNonEmpty(parts[..|parts| - 1]) {
      before, after := parts[..|parts| - 1], [];
    } else {
      before, after := FirstEmpty(parts[..|parts| - 1]);
      after := after + [parts[|parts| - 1]];
    }
  }

  lemma ChunksNotEmpty(parts: seq<Bytes>)
    requires parts != []
    ensures Chunks(parts) != []
  {
  }

  /** With an empty piece among the others, or anything printed behind it, the decoder stops early. */
  lemma EmptyPieceSpoils(parts: seq<Bytes>, tail: Bytes)
    requires !AllNonEmpty(parts)
    requires tail != [] || parts[|parts| - 1] != []
    ensures Decode(Chunks(parts) + tail).Some? && Decode(Chunks(parts) + tail).value.1 != []
  {
    var before, after := FirstEmpty(parts);
    EmptyPieceEndsBody(before, after, tail);
    if tail == [] {
      assert parts[|before|] == [];
      ChunksNotEmpty(after);
    }
  }
}
