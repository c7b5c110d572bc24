/** Little-endian varints and the neighbouring powers of two (`hmath.h`). */
module HMath {
  import opened Wrappers

  function Pow2(e: nat): (p: nat)
    ensures p > 0
  {
    if e == 0 then 1 else 2 * Pow2(e - 1)
  }

  lemma {:induction false} Pow2Adds(a: nat, b: nat)
    ensures Pow2(a + b) == Pow2(a) * Pow2(b)
  {
    if a > 0 {
      Pow2Adds(a - 1, b);
      assert Pow2(a + b) == 2 * (Pow2(a - 1) * Pow2(b));
    }
  }

  lemma {:induction false} Pow2Grows(a: nat, b: nat)
    requires a < b
    ensures 2 * Pow2(a) <= Pow2(b)
  {
    if a + 1 < b {
      Pow2Grows(a, b - 1);
    }
  }

  // ---------- Varints ----------

  const WORD := 0x1_0000_0000_0000_0000
  const MAX_VARINT_BYTES := 10

  /** A 64-bit pattern read as a signed integer. */
  function Signed(pattern: nat): int
    requires pattern < WORD
  {
    if pattern < WORD / 2 then pattern else pattern - WORD
  }

  function Encoded(value: nat): (bs: seq<byte>)
    ensures bs != []
  {
    if value < 128 then [value as byte] else [(value % 128 + 128) as byte] + Encoded(value / 128)
  }

  /** The number whose base-128 digits, lowest first, are the low seven bits of the bytes. */
  function Digits(bs: seq<byte>): nat {
    if bs == [] then 0 else (bs[0] % 128) as nat + 128 * Digits(bs[1..])
  }

  /** The index of the first byte without the continuation bit, or the length. */
  function Terminator(bs: seq<byte>): (n: nat)
    ensures n <= |bs|
    ensures n < |bs| ==> bs[n] < 128
    ensures forall i :: 0 <= i < n ==> bs[i] >= 128
  {
    if bs == [] || bs[0] < 128 then 0 else 1 + Terminator(bs[1..])
  }

  /** The value and the new `*len` of a decode; a limit that is absent, 0 or negative is no limit. */
  function Decoded(buf: seq<byte>, limit: Option<int>): (int, int)
    requires Readable(buf, limit)
  {
    var n := Terminator(buf);
    if n < MAX_VARINT_BYTES && !(Limited(limit) && limit.value <= n) then
      (Signed(Digits(buf[..n + 1]) % WORD), n + 1)
    else if Limited(limit) && limit.value < MAX_VARINT_BYTES then
      (0, 0)
    else
      (Signed(Digits(buf[..MAX_VARINT_BYTES]) % WORD), -1)
  }

  predicate Limited(limit: Option<int>) {
    limit.Some? && limit.value > 0
  }

  /** The caller's side: the bytes the scan may touch exist. */
  predicate Readable(buf: seq<byte>, limit: Option<int>) {
    || Terminator(buf) < |buf|
    || |buf| >= MAX_VARINT_BYTES
    || (Limited(limit) && limit.value <= |buf|)
  }

  /** Bitwise or, bit by bit. */
  function Or(a: nat, b: nat): nat
    decreases a + b
  {
    if a == 0 && b == 0 then 0
    else Or(a / 2, b / 2) * 2 + (if a % 2 == 1 || b % 2 == 1 then 1 else 0)
  }

  lemma {:induction false} OrZero(b: nat)
    ensures Or(0, b) == b
  {
    if b > 0 {
      OrZero(b / 2);
    }
  }

  /** Or adds where the bits of one number all lie below those of the other. */
  lemma {:induction false} OrAdds(a: nat, k: nat, d: nat)
    requires a < Pow2(k)
    ensures Or(a, d * Pow2(k)) == a + d * Pow2(k)
  {
    if k == 0 {
      OrZero(d);
    } else {
      var b := d * Pow2(k - 1);
      assert d * Pow2(k) == 2 * b;
      OrAdds(a / 2, k - 1, d);
    }
  }

  /** What one turn of the encoder's loop does to what is still to be written. */
  lemma EncodedStep(written: seq<byte>, value: nat, all: seq<byte>)
    requires written + Encoded(value) == all
    ensures value < 128 ==> written + [value as byte] == all
    ensures value >= 128 ==> written + [(value % 128 + 128) as byte] + Encoded(value / 128) == all
  {
  }

  lemma ContinuationBit(ch: nat)
    requires ch < 128
    ensures Or(ch, 0x80) == ch + 0x80
  {
    assert Pow2(7) == 128;
    OrAdds(ch, 7, 1);
  }

  /** One byte written at i: what was before it stays, and so does what is behind it. */
  method PutByte(buf: array<byte>, i: nat, b: byte)
    requires i < buf.Length
    modifies buf
    ensures buf[..i + 1] == old(buf[..i]) + [b]
    ensures buf[i + 1..] == old(buf[i + 1..])
  {
    buf[i] := b;
  }

  method VarintEncode(value: nat, buf: array<byte>) returns (bytes: nat)
    requires |Encoded(value)| <= buf.Length
    modifies buf
    ensures bytes == |Encoded(value)| && buf[..bytes] == Encoded(value)
    ensures buf[bytes..] == old(buf[bytes..])
  {
    var rest := value;
    bytes := 0;
    while true
      invariant bytes + |Encoded(rest)| == |Encoded(value)|
      invariant buf[..bytes] + Encoded(rest) == Encoded(value)
      invariant buf[bytes..] == old(buf[bytes..])
      decreases rest
    {
      EncodedStep(buf[..bytes], rest, Encoded(value));
      var ch := rest % 128;
      ContinuationBit(ch);
      rest := rest / 128;
      PutByte(buf, bytes, (if rest == 0 then ch else Or(ch, 0x80)) as byte);
      bytes := bytes + 1;
      if rest == 0 {
        break;
      }
    }
  }

  method VarintDecode(buf: seq<byte>, limit: Option<int>) returns (ret: int, len: int)
    requires Readable(buf, limit)
    ensures (ret, len) == Decoded(buf, limit)
  {
    var pattern := 0;
    var bytes := 0;
    var weight := 1;
    while bytes < MAX_VARINT_BYTES
      invariant 0 <= bytes <= MAX_VARINT_BYTES && bytes <= Terminator(buf)
      invariant Limited(limit) ==> bytes <= limit.value
      invariant weight == Pow2(7 * bytes)
      invariant pattern == Digits(buf[..bytes]) % WORD
      decreases MAX_VARINT_BYTES - bytes
    {
      if Limited(limit) && bytes == limit.value {
        return 0, 0;
      }
      OrDigit(buf, bytes);
      pattern := Or(pattern, (buf[bytes] % 128) as nat * weight % WORD);
      bytes := bytes + 1;
      if buf[bytes - 1] < 128 {
        return Signed(pattern), bytes;
      }
      weight := 128 * weight;
    }
    return Signed(pattern), -1;
  }

  /** Shifting seven bits into place, cutting at 64, and or-ing them in adds the next digit. */
  lemma OrDigit(buf: seq<byte>, i: nat)
    requires i < |buf| && i < MAX_VARINT_BYTES
    ensures Or(Digits(buf[..i]) % WORD, (buf[i] % 128) as nat * Pow2(7 * i) % WORD) == Digits(buf[..i + 1]) % WORD
    ensures Pow2(7 * (i + 1)) == 128 * Pow2(7 * i)
  {
    AddDigit(buf, i);
    DigitsFit(buf[..i]);
    Pow2Of63();
    if i < 9 {
      Pow2Grows(7 * i, 63);
    }
    OrCut(Digits(buf[..i]), 7 * i, (buf[i] % 128) as nat);
  }

  lemma OrCut(a: nat, k: nat, d: nat)
    requires k <= 63 && a < Pow2(k)
    ensures Or(a % WORD, d * Pow2(k) % WORD) == (a % WORD + d * Pow2(k)) % WORD
  {
    var e := KeptBits(a, k, d);
    OrAdds(a, k, e);
    ModOfSum(a, d * Pow2(k), e * Pow2(k));
  }

  /** What is left of d, shifted by k, in a word; it still lies above a. */
  lemma KeptBits(a: nat, k: nat, d: nat) returns (e: nat)
    requires k <= 63 && a < Pow2(k)
    ensures d * Pow2(k) % WORD == e * Pow2(k) && a + e * Pow2(k) < WORD
  {
    var m := Pow2(64 - k);
    Pow2Of63();
    Pow2Adds(k, 64 - k);
    e := d % m;
    CutShift(d, Pow2(k), m);
    FitsBelow(a, e, Pow2(k), m);
  }

  lemma ModOfSum(a: nat, x: nat, y: nat)
    requires x % WORD == y && a + y < WORD
    ensures a % WORD == a && (a % WORD + x) % WORD == a + y
  {
    ModAdd(x, a);
  }

  /** Cutting a shifted number at the top is cutting the number first. */
  lemma CutShift(d: nat, q: nat, m: nat)
    requires q > 0 && m > 0 && q * m == WORD
    ensures d * q % WORD == d % m * q
  {
    var h, l := d / m, d % m;
    assert d * q == h * (q * m) + l * q by {
      assert d == h * m + l;
      assert (h * m) * q == h * (q * m);
    }
    assert l * q <= (m - 1) * q;
    assert (m - 1) * q == WORD - q;
    SplitWord(h, l * q);
  }

  lemma SplitWord(h: nat, l: nat)
    requires l < WORD
    ensures (h * WORD + l) % WORD == l
  {
  }

  lemma FitsBelow(a: nat, d: nat, q: nat, m: nat)
    requires a < q && d < m && q * m == WORD
    ensures a + d * q < WORD
  {
    assert d * q <= (m - 1) * q;
    assert (m - 1) * q == WORD - q;
  }

  lemma AddDigit(buf: seq<byte>, i: nat)
    requires i < |buf|
    ensures Digits(buf[..i + 1]) % WORD
         == (Digits(buf[..i]) % WORD + (buf[i] % 128) as nat * Pow2(7 * i)) % WORD
    ensures Pow2(7 * (i + 1)) == 128 * Pow2(7 * i)
  {
    DigitsAppend(buf[..i], buf[i]);
    assert buf[..i] + [buf[i]] == buf[..i + 1];
    ModAdd(Digits(buf[..i]), (buf[i] % 128) as nat * Pow2(7 * i));
    Pow2Adds(7, 7 * i);
    assert Pow2(7) == 128;
  }

  lemma ModAdd(a: nat, b: nat)
    ensures (a % WORD + b) % WORD == (a + b) % WORD
  {
    assert a == a / WORD * WORD + a % WORD;
    var q := (a % WORD + b) / WORD;
    assert a + b == (a / WORD + q) * WORD + (a % WORD + b) % WORD;
  }

  lemma {:induction false} DigitsAppend(bs: seq<byte>, b: byte)
    ensures Digits(bs + [b]) == Digits(bs) + (b % 128) as nat * Pow2(7 * |bs|)
  {
    if bs == [] {
      assert [b][1..] == [];
    } else {
      assert (bs + [b])[1..] == bs[1..] + [b];
      DigitsAppend(bs[1..], b);
      Pow2Adds(7, 7 * |bs[1..]|);
      assert Pow2(7) == 128;
      var d := (b % 128) as nat;
      var p := Pow2(7 * |bs[1..]|);
      assert 128 * (d * p) == d * (128 * p);
    }
  }

  /** Seven bits a byte: what is decoded so far is below the weight of the next byte. */
  lemma {:induction false} DigitsFit(bs: seq<byte>)
    ensures Digits(bs) < Pow2(7 * |bs|)
  {
    if bs != [] {
      DigitsFit(bs[1..]);
      Pow2Adds(7, 7 * |bs[1..]|);
      assert Pow2(7) == 128;
    }
  }

  /** The encoder's loop variable after k shifts; a shift of a negative number rounds down. */
  function Shifted(value: int, k: nat): int
    decreases k
  {
    if k == 0 then value else Shifted(value / 128, k - 1)
  }

  lemma {:induction false} NegativeStaysNegative(value: int, k: nat)
    requires value < 0
    ensures Shifted(value, k) < 0
    decreases k
  {
    if k > 0 {
      NegativeStaysNegative(value / 128, k - 1);
    }
  }

  lemma {:induction false} SmallReachesZero(value: nat, k: nat)
    requires value < Pow2(7 * k)
    ensures Shifted(value, k) == 0
  {
    if k > 0 {
      Pow2Adds(7, 7 * (k - 1));
      assert Pow2(7) == 128;
      SmallReachesZero(value / 128, k - 1);
    }
  }

  lemma {:induction false} BelowItsPow2(value: nat)
    ensures value < Pow2(value)
  {
    if value > 0 {
      BelowItsPow2(value - 1);
    }
  }

  /** The encoder's loop, which runs until the value is 0, ends exactly for non-negative values. */
  lemma EncodingEndsIffNonNegative(value: int)
    ensures (exists k: nat :: Shifted(value, k) == 0) <==> value >= 0
  {
    if value >= 0 {
      BelowItsPow2(value);
      if value > 0 {
        Pow2Grows(value, 7 * value);
      }
      SmallReachesZero(value, value);
    } else {
      forall k: nat ensures Shifted(value, k) < 0 {
        NegativeStaysNegative(value, k);
      }
    }
  }

  // ---------- Round trips ----------

  lemma ShapeStep(b: byte, bs: seq<byte>, rest: seq<byte>)
    requires b >= 128 && bs != [] && Terminator(bs + rest) == |bs| - 1
    ensures Terminator([b] + bs + rest) == |bs|
    ensures Digits([b] + bs) == (b % 128) as nat + 128 * Digits(bs)
  {
    assert ([b] + bs + rest)[1..] == bs + rest;
    assert ([b] + bs)[1..] == bs;
  }

  lemma LowDigit(v: nat)
    ensures ((v % 128 + 128) as byte % 128) as nat + 128 * (v / 128) == v
  {
  }

  /** An encoding ends at its first byte without continuation bit and spells its value. */
  lemma {:induction false} EncodedShape(v: nat, rest: seq<byte>)
    ensures Terminator(Encoded(v) + rest) == |Encoded(v)| - 1
    ensures Digits(Encoded(v)) == v
  {
    if v < 128 {
      assert Encoded(v)[1..] == [];
    } else {
      EncodedShape(v / 128, rest);
      ShapeStep((v % 128 + 128) as byte, Encoded(v / 128), rest);
      LowDigit(v);
    }
  }

  lemma {:induction false} EncodedLength(v: nat, k: nat)
    requires k > 0 && v < Pow2(7 * k)
    ensures |Encoded(v)| <= k
  {
    if v >= 128 {
      assert Pow2(7) == 128;
      Pow2Adds(7, 7 * (k - 1));
      EncodedLength(v / 128, k - 1);
    }
  }

  lemma Pow2Of63()
    ensures Pow2(63) == WORD / 2
  {
    assert Pow2(7) == 128;
    Pow2Adds(7, 7);
    Pow2Adds(7, 14);
    Pow2Adds(21, 21);
    Pow2Adds(21, 42);
  }

  lemma ShortEncoding(v: nat)
    requires v < WORD / 2
    ensures |Encoded(v)| < MAX_VARINT_BYTES
  {
    Pow2Of63();
    EncodedLength(v, 9);
  }

  lemma SignedSmall(v: nat)
    requires v < WORD / 2
    ensures Signed(v % WORD) == v
  {
  }

  /** Whatever follows it, a non-negative 64-bit value reads back, and exactly its bytes are used. */
  lemma RoundTrip(v: nat, rest: seq<byte>, limit: Option<int>)
    requires v < WORD / 2
    requires Limited(limit) ==> limit.value >= |Encoded(v)|
    ensures Readable(Encoded(v) + rest, limit)
    ensures Decoded(Encoded(v) + rest, limit) == (v, |Encoded(v)|)
  {
    ShortEncoding(v);
    EncodedShape(v, rest);
    SignedSmall(v);
    assert (Encoded(v) + rest)[..|Encoded(v)|] == Encoded(v);
  }

  function EncodedAll(vs: seq<nat>): seq<byte> {
    if vs == [] then [] else Encoded(vs[0]) + EncodedAll(vs[1..])
  }

  /** A reader that passes the bytes left as `*len`, and gives up when a decode does. */
  function DecodedAll(buf: seq<byte>): Option<seq<int>>
    decreases |buf|
  {
    if buf == [] then Some([])
    else
      var (v, n) := Decoded(buf, Some(|buf|));
      if n <= 0 then None
      else
        match DecodedAll(buf[n..])
        case None => None
        case Some(vs) => Some([v] + vs)
  }

  lemma DecodedAllStep(v: nat, rest: seq<byte>)
    requires v < WORD / 2
    ensures DecodedAll(Encoded(v) + rest) ==
              match DecodedAll(rest)
              case None => None
              case Some(vs) => Some([v] + vs)
  {
    var buf := Encoded(v) + rest;
    RoundTrip(v, rest, Some(|buf|));
    assert buf[|Encoded(v)|..] == rest;
  }

  lemma {:induction false} ListRoundTrip(vs: seq<nat>)
    requires forall i :: 0 <= i < |vs| ==> vs[i] < WORD / 2
    ensures DecodedAll(EncodedAll(vs)) == Some(vs)
  {
    if vs != [] {
      DecodedAllStep(vs[0], EncodedAll(vs[1..]));
      ListRoundTrip(vs[1..]);
      assert vs == [vs[0]] + vs[1..];
    }
  }

  /** A cut-off encoding asks for more bytes, whatever lies behind the limit. */
  lemma PrefixNeedsMore(v: nat, k: nat, rest: seq<byte>)
    requires v < WORD / 2 && 0 < k < |Encoded(v)|
    ensures Decoded(Encoded(v)[..k] + rest, Some(k)) == (0, 0)
  {
    ShortEncoding(v);
    EncodedShape(v, []);
    assert Encoded(v) + [] == Encoded(v);
    var buf := Encoded(v)[..k] + rest;
    assert forall i :: 0 <= i < k ==> buf[i] == Encoded(v)[i] && buf[i] >= 128;
  }

  /** Nothing behind the limit, or behind ten bytes, plays a part: buffers that agree up to there decode alike. */
  lemma OnlyLimitedBytesMatter(a: seq<byte>, b: seq<byte>, limit: int)
    requires limit > 0
    requires var n := if limit < MAX_VARINT_BYTES then limit else MAX_VARINT_BYTES;
             |a| >= n && |b| >= n && a[..n] == b[..n]
    ensures Decoded(a, Some(limit)) == Decoded(b, Some(limit))
  {
    var n := if limit < MAX_VARINT_BYTES then limit else MAX_VARINT_BYTES;
    assert forall i :: 0 <= i < n ==> a[..n][i] == a[i] && b[..n][i] == b[i];
    var m := Terminator(a);
    if m < n {
      assert Terminator(b) == m;
      assert a[..m + 1] == a[..n][..m + 1] && b[..m + 1] == b[..n][..m + 1];
    } else {
      assert Terminator(b) >= n;
    }
  }

  /** Ten continuation bytes are an error, whatever the limit, once it lets ten bytes be read. */
  lemma TooLongIsAnError(buf: seq<byte>, limit: Option<int>)
    requires |buf| >= MAX_VARINT_BYTES
    ensures Decoded(buf, limit).1 == -1 <==>
              && (forall i :: 0 <= i < MAX_VARINT_BYTES ==> buf[i] >= 128)
              && (Limited(limit) ==> limit.value >= MAX_VARINT_BYTES)
  {
    assert Terminator(buf) < MAX_VARINT_BYTES ==> buf[Terminator(buf)] < 128;
  }

  /** No continuation bits before the last byte, none on it. */
  predicate Complete(bs: seq<byte>) {
    bs != [] && Terminator(bs) == |bs| - 1
  }

  lemma FirstDigit(bs: seq<byte>)
    requires Complete(bs) && |bs| > 1
    ensures Complete(bs[1..]) && bs[0] >= 128
    ensures Digits(bs) % 128 == (bs[0] - 128) as nat && Digits(bs) / 128 == Digits(bs[1..])
  {
    SplitDigit((bs[0] % 128) as nat, Digits(bs[1..]));
  }

  lemma SplitDigit(d: nat, q: nat)
    requires d < 128
    ensures (d + 128 * q) % 128 == d && (d + 128 * q) / 128 == q
  {
  }

  lemma EncodedFirst(bs: seq<byte>)
    requires Complete(bs) && |bs| > 1 && Digits(bs[1..]) > 0
    ensures Encoded(Digits(bs)) == bs <==> Encoded(Digits(bs[1..])) == bs[1..]
  {
    FirstDigit(bs);
    EncodedCons(Digits(bs), Digits(bs[1..]), bs[0]);
    SameTail(bs, Encoded(Digits(bs[1..])));
  }

  lemma EncodedCons(v: nat, q: nat, b: byte)
    requires q > 0 && v / 128 == q && b >= 128 && v % 128 == (b - 128) as nat
    ensures Encoded(v) == [b] + Encoded(q)
  {
  }

  lemma SameTail(bs: seq<byte>, tail: seq<byte>)
    requires bs != []
    ensures [bs[0]] + tail == bs <==> tail == bs[1..]
  {
    assert ([bs[0]] + tail)[1..] == tail;
    assert bs == [bs[0]] + bs[1..];
  }

  /** The other direction: bytes read back as they were exactly when they carry no padding zero. */
  lemma {:induction false} OnlyUnpaddedBytesReturn(bs: seq<byte>)
    requires Complete(bs)
    ensures Encoded(Digits(bs)) == bs <==> |bs| == 1 || bs[|bs| - 1] != 0
  {
    if |bs| == 1 {
      assert bs[1..] == [];
    } else {
      FirstDigit(bs);
      OnlyUnpaddedBytesReturn(bs[1..]);
      if Digits(bs[1..]) == 0 {
        ZeroDigits(bs[1..]);
      } else {
        EncodedFirst(bs);
        if |bs| == 2 {
          assert bs[1..][1..] == [];
        }
      }
    }
  }

  lemma {:induction false} ZeroDigits(bs: seq<byte>)
    requires Complete(bs) && Digits(bs) == 0
    ensures bs[|bs| - 1] == 0
  {
    if |bs| > 1 {
      ZeroDigits(bs[1..]);
    }
  }

  // ---------- Powers of two ----------

  ghost predicate IsPow2(p: nat) {
    exists e: nat :: p == Pow2(e)
  }

  /** The position of the highest bit. */
  function Log2(n: nat): nat {
    if n < 2 then 0 else 1 + Log2(n / 2)
  }

  lemma {:induction false} Log2Bounds(n: nat)
    requires n > 0
    ensures Pow2(Log2(n)) <= n < Pow2(Log2(n) + 1)
  {
    if n >= 2 {
      Log2Bounds(n / 2);
    }
  }

  /** The bits of n above the lowest, counted by shifting it to nothing. */
  method CountShifts(num: nat) returns (e: nat)
    ensures num > 0 ==> Pow2(e) <= num < Pow2(e + 1)
    ensures num == 0 ==> e == 0
  {
    e := 0;
    var n: nat := num / 2;
    while n != 0
      invariant Log2(num) == e + if n == 0 then 0 else 1 + Log2(n)
      decreases n
    {
      e := e + 1;
      n := n / 2;
    }
    if num > 0 {
      Log2Bounds(num);
    }
  }

  function Shl1(e: nat, width: nat): nat {
    if e < width then Pow2(e) else 0
  }

  lemma ShiftOneMore(e: nat, width: nat)
    requires width > 0
    ensures Shl1(e, width) * 2 % Pow2(width) == Shl1(e + 1, width)
  {
    if e + 1 < width {
      Pow2Grows(e + 1, width);
      ModCases(Pow2(e + 1), Pow2(width));
    } else {
      ModCases(0, Pow2(width));
      ModCases(Pow2(width), Pow2(width));
    }
  }

  lemma ModCases(x: nat, p: nat)
    requires p > 0
    ensures x < p ==> x % p == x
    ensures x == p ==> x % p == 0
  {
  }

  /** 1 shifted left e times in a word of `width` bits. */
  method ShiftOne(e: nat, width: nat) returns (ret: nat)
    requires width > 0
    ensures ret == Shl1(e, width)
  {
    ret := 1;
    var left: nat := e;
    while left != 0
      invariant left <= e
      invariant ret == Shl1(e - left, width)
      decreases left
    {
      ShiftOneMore(e - left, width);
      ret := ret * 2 % Pow2(width);
      left := left - 1;
    }
  }

  /** The largest power of two not above num (1 for 0). */
  method Floor2e(num: nat, width: nat) returns (ret: nat)
    requires width > 0 && num < Pow2(width)
    ensures IsPow2(ret)
    ensures num > 0 ==> ret <= num < 2 * ret
    ensures num == 0 ==> ret == 1
  {
    var e := CountShifts(num);
    if width <= e {
      if width < e { Pow2Grows(width, e); }
      assert false;
    }
    ret := ShiftOne(e, width);
  }

  /** The least power of two not below num, as long as the word can hold it; then 0. */
  method Ceil2e(num: nat, width: nat) returns (ret: nat)
    requires width > 0 && num < Pow2(width)
    ensures num <= Pow2(width - 1) ==> IsPow2(ret) && num <= ret && (ret > 1 ==> ret < 2 * num)
    ensures num > Pow2(width - 1) ==> ret == 0
  {
    if num == 0 || num == 1 {
      assert Pow2(0) == 1;
      return 1;
    }
    var e := CountShifts(num - 1);
    e := e + 1;
    ret := ShiftOne(e, width);
    if e < width {
      if e < width - 1 { Pow2Grows(e, width - 1); }
    } else {
      if width < e { Pow2Grows(width - 1, e - 1); }
    }
  }
}
