/**
 The binary frame sent over the WebSocket: one key-frame byte, PTS and DTS as 64-bit
 little-endian integers, a 32-bit little-endian payload size, and the payload.
 The encoder is the C++ relayer, the decoder is the JavaScript client, whose 64-bit reads
 go through IEEE double arithmetic.
 */
module WireFormat {
  import opened Basics

  const TWO_31: int := 0x8000_0000
  const TWO_53: int := 0x20_0000_0000_0000
  const TWO_64: int := 0x1_0000_0000_0000_0000

  type int64 = n: int | -0x8000_0000_0000_0000 <= n < 0x8000_0000_0000_0000

  /** What the encoder hands over; `payload` has the packet's `size` bytes. */
  datatype Packet = Packet(isKey: bool, pts: int64, dts: int64, payload: seq<byte>)

  /** The packet size is a C++ int. */
  predicate Encodable(p: Packet) {
    |p.payload| < TWO_31
  }

  // ---------- Little-endian numbers ----------

  /** The four low-order bytes of `val`, least significant first; division floors, as `>>` does on a signed value. */
  function Le32(val: int): (b: seq<byte>)
    ensures |b| == 4
  {
    [val % 0x100, (val / 0x100) % 0x100, (val / 0x1_0000) % 0x100, (val / 0x100_0000) % 0x100]
  }

  /** The eight low-order bytes of `val`. */
  function Le64(val: int): (b: seq<byte>)
    ensures |b| == 8
  {
    Le32(val) + Le32(val / TWO_32)
  }

  /** The unsigned number that little-endian bytes denote. */
  function Unsigned(b: seq<byte>): nat {
    if b == [] then 0 else (b[0] as int) + 0x100 * Unsigned(b[1..])
  }

  lemma UnsignedFour(b: seq<byte>, tail: nat)
    requires |b| >= 4 && Unsigned(b[4..]) == tail
    ensures Unsigned(b) == (b[0] as int) + 0x100 * (b[1] as int) + 0x1_0000 * (b[2] as int)
                           + 0x100_0000 * (b[3] as int) + TWO_32 * tail
  {
    assert b[1..][1..] == b[2..] && b[2..][1..] == b[3..] && b[3..][1..] == b[4..];
    assert Unsigned(b[1..]) == (b[1] as int) + 0x100 * Unsigned(b[2..]);
    assert Unsigned(b[2..]) == (b[2] as int) + 0x100 * Unsigned(b[3..]);
    assert Unsigned(b[3..]) == (b[3] as int) + 0x100 * Unsigned(b[4..]);
  }

  lemma FourBytesOf(val: int)
    ensures Unsigned(Le32(val)) == val % TWO_32
  {
    var q1 := val / 0x100;
    var q2 := val / 0x1_0000;
    var q3 := val / 0x100_0000;
    var q4 := val / TWO_32;
    assert q2 == q1 / 0x100;
    assert q3 == q2 / 0x100;
    assert q4 == q3 / 0x100;
    UnsignedFour(Le32(val), 0);
  }

  lemma UnsignedSplit(a: seq<byte>, b: seq<byte>)
    requires |a| == 4
    ensures Unsigned(a + b) == Unsigned(a) + TWO_32 * Unsigned(b)
  {
    UnsignedFour(a, 0);
    assert (a + b)[4..] == b;
    UnsignedFour(a + b, Unsigned(b));
  }

  lemma HalvesModulo(val: int)
    ensures val % TWO_32 + TWO_32 * ((val / TWO_32) % TWO_32) == val % TWO_64
  {
    var high := val / TWO_32;
    var top := high / TWO_32;
    assert val == TWO_64 * top + TWO_32 * (high % TWO_32) + val % TWO_32;
  }

  /** Every int64 is written as its value modulo 2^64, every size as its value modulo 2^32. */
  lemma WrittenModulo(val: int)
    ensures Unsigned(Le32(val)) == val % TWO_32
    ensures Unsigned(Le64(val)) == val % TWO_64
  {
    FourBytesOf(val);
    FourBytesOf(val / TWO_32);
    UnsignedSplit(Le32(val), Le32(val / TWO_32));
    HalvesModulo(val);
  }

  method WriteUint32LE(buf: array<byte>, off: nat, val: int)
    requires 0 <= val < TWO_32 && off + 4 <= buf.Length
    modifies buf
    ensures buf[..] == old(buf[..off]) + Le32(val) + old(buf[off + 4..])
  {
    buf[off + 0] := val % 0x100;
    buf[off + 1] := (val / 0x100) % 0x100;
    buf[off + 2] := (val / 0x1_0000) % 0x100;
    buf[off + 3] := (val / 0x100_0000) % 0x100;
  }

  /** The upper four bytes as the source extracts them, by shifts of the whole value. */
  lemma Le64High(val: int)
    ensures Le64(val)[4..] == [(val / 0x1_0000_0000) % 0x100, (val / 0x100_0000_0000) % 0x100,
                               (val / 0x1_0000_0000_0000) % 0x100, (val / 0x100_0000_0000_0000) % 0x100]
  {
    ShiftAgain(val);
    assert Le64(val)[4..] == Le32(val / TWO_32);
  }

  lemma ShiftAgain(val: int)
    ensures (val / TWO_32) / 0x100 == val / 0x100_0000_0000
    ensures (val / TWO_32) / 0x1_0000 == val / 0x1_0000_0000_0000
    ensures (val / TWO_32) / 0x100_0000 == val / 0x100_0000_0000_0000
  {
  }

  method WriteInt64LE(buf: array<byte>, off: nat, val: int64)
    requires off + 8 <= buf.Length
    modifies buf
    ensures buf[..] == old(buf[..off]) + Le64(val) + old(buf[off + 8..])
  {
    Le64High(val);
    ghost var b := Le64(val);
    buf[off + 0] := val % 0x100;
    buf[off + 1] := (val / 0x100) % 0x100;
    buf[off + 2] := (val / 0x1_0000) % 0x100;
    buf[off + 3] := (val / 0x100_0000) % 0x100;
    assert buf[off..off + 4] == b[..4];
    buf[off + 4] := (val / 0x1_0000_0000) % 0x100;
    buf[off + 5] := (val / 0x100_0000_0000) % 0x100;
    buf[off + 6] := (val / 0x1_0000_0000_0000) % 0x100;
    buf[off + 7] := (val / 0x100_0000_0000_0000) % 0x100;
    assert buf[off + 4..off + 8] == b[4..];
    assert buf[off..off + 4] == b[..4];
    assert buf[off..off + 8] == b;
  }

  // ---------- The frame ----------

  function EncodeFrame(p: Packet): seq<byte> {
    [if p.isKey then 1 else 0] + Le64(p.pts) + Le64(p.dts)
    + Le32(|p.payload|) + p.payload
  }

  /** The relayer's frame construction: five writes that fill the buffer completely. */
  method BuildFrame(p: Packet) returns (frame: array<byte>)
    requires Encodable(p)
    ensures fresh(frame) && frame[..] == EncodeFrame(p)
  {
    hide Le32, Le64;
    frame := new byte[1 + 8 + 8 + 4 + |p.payload|](_ => 0);
    frame[0] := if p.isKey then 1 else 0;
    WriteInt64LE(frame, 1, p.pts);
    WriteInt64LE(frame, 9, p.dts);
    WriteUint32LE(frame, 17, |p.payload|);
    assert frame[..21] == [if p.isKey then 1 else 0] + Le64(p.pts) + Le64(p.dts)
                          + Le32(|p.payload|);
    forall i | 0 <= i < |p.payload| {
      frame[21 + i] := p.payload[i];
    }
    assert frame[..] == frame[..21] + frame[21..];
    assert frame[21..] == p.payload;
  }

  /** `sent` holds the frames of the first `n` packets of `feed`, in order. */
  predicate SentAs(sent: seq<seq<byte>>, feed: seq<Packet>, n: nat) {
    |sent| == n <= |feed| && forall i :: 0 <= i < n ==> sent[i] == EncodeFrame(feed[i])
  }

  // ---------- JavaScript numbers ----------

  /** The spacing of IEEE doubles around the natural number `n` (53 significant bits). */
  function Ulp(n: nat): (u: nat)
    ensures u > 0 && (n < TWO_53 ==> u == 1)
  {
    if n < TWO_53 then 1 else 2 * Ulp(n / 2)
  }

  /** Rounding of a natural number to the nearest double, ties to even. */
  function RoundToDouble(n: nat): nat {
    var u := Ulp(n);
    var q, r := n / u, n % u;
    if 2 * r < u || (2 * r == u && q % 2 == 0) then q * u else (q + 1) * u
  }

  lemma RoundExactIff(n: nat)
    ensures RoundToDouble(n) == n <==> n % Ulp(n) == 0
  {
    DivMod(n, Ulp(n));
  }

  lemma DivMod(n: nat, u: nat)
    requires u > 0
    ensures n == (n / u) * u + n % u && ((n / u) + 1) * u == (n / u) * u + u
  {
  }

  predicate IsPowerOfTwo(u: nat) {
    u == 1 || (u > 0 && u % 2 == 0 && IsPowerOfTwo(u / 2))
  }

  lemma HalvedTwice(n: nat, u: nat)
    requires u > 0
    ensures n / (2 * u) == (n / 2) / u
  {
    var q := n / (2 * u);
    var r := n % (2 * u);
    assert n == q * (2 * u) + r;
    assert n / 2 == q * u + r / 2 by {
      assert n == 2 * (q * u) + r;
    }
    assert r / 2 < u;
    Quotient(n / 2, u, q, r / 2);
  }

  lemma Multiple(d: int, u: nat)
    ensures d >= 1 ==> d * u >= u
    ensures d <= -1 ==> d * u <= 0 - u
  {
  }

  lemma Quotient(n: nat, u: nat, q: nat, r: nat)
    requires u > 0 && r < u && n == q * u + r
    ensures n / u == q && n % u == r
  {
    var d := n / u - q;
    DivMod(n, u);
    assert d * u == r - n % u;
    Multiple(d, u);
  }

  /** The spacing is the power of two that leaves 53 significant bits. */
  lemma {:induction false} UlpIsSpacing(n: nat)
    ensures IsPowerOfTwo(Ulp(n))
    ensures n >= TWO_53 ==> TWO_53 / 2 <= n / Ulp(n) < TWO_53
    decreases n
  {
    if n >= TWO_53 {
      UlpIsSpacing(n / 2);
      HalvedTwice(n, Ulp(n / 2));
      assert n / 2 < TWO_53 ==> Ulp(n / 2) == 1;
    }
  }

  /** `low` is the multiple of the spacing at or below `n`, the `q`-th. */
  lemma NearestOfTwo(n: nat, u: nat, q: nat, rest: nat, low: nat)
    requires n == low + rest && rest < u
    ensures var down := 2 * rest < u || (2 * rest == u && q % 2 == 0);
            var r, to := if down then low else low + u, if down then q else q + 1;
            2 * n - u <= 2 * r <= 2 * n + u && (2 * r == 2 * n - u || 2 * r == 2 * n + u ==> to % 2 == 0)
  {
  }

  lemma RoundCases(n: nat) returns (to: nat)
    ensures RoundToDouble(n) == to * Ulp(n)
    ensures 2 * n - Ulp(n) <= 2 * RoundToDouble(n) <= 2 * n + Ulp(n)
    ensures 2 * RoundToDouble(n) == 2 * n - Ulp(n) || 2 * RoundToDouble(n) == 2 * n + Ulp(n) ==> to % 2 == 0
  {
    hide Ulp;
    var u := Ulp(n);
    var q, rest := n / u, n % u;
    DivMod(n, u);
    NearestOfTwo(n, u, q, rest, q * u);
    to := if 2 * rest < u || (2 * rest == u && q % 2 == 0) then q else q + 1;
  }

  /** The result is a double, at most half a spacing away, and the even one of two that are equally near. */
  lemma RoundIsNearest(n: nat)
    ensures var r, u := RoundToDouble(n), Ulp(n);
            && r % u == 0
            && 2 * n - u <= 2 * r <= 2 * n + u
            && (2 * r == 2 * n - u || 2 * r == 2 * n + u ==> (r / u) % 2 == 0)
  {
    hide RoundToDouble, Ulp;
    var to := RoundCases(n);
    Quotient(RoundToDouble(n), Ulp(n), to, 0);
  }

  // ---------- The decoder ----------

  datatype Chunk = Chunk(isKey: bool, pts: nat, dts: nat, payload: seq<byte>)

  /** DataView.getUint32(off, true). */
  function GetUint32(msg: seq<byte>, off: nat): nat
    requires off + 4 <= |msg|
  {
    (msg[off] as int) + 0x100 * (msg[off + 1] as int) + 0x1_0000 * (msg[off + 2] as int) + 0x100_0000 * (msg[off + 3] as int)
  }

  /** The client's getInt64: two 32-bit reads merged in double arithmetic. */
  function GetInt64(msg: seq<byte>, off: nat): nat
    requires off + 8 <= |msg|
  {
    RoundToDouble(GetUint32(msg, off + 4) * TWO_32 + GetUint32(msg, off))
  }

  /** The client's frame reader; a read past the end of the buffer throws, which is None here. */
  function Decode(msg: seq<byte>): Option<Chunk> {
    if |msg| < 21 || 21 + GetUint32(msg, 17) > |msg| then None
    else Some(Chunk(msg[0] == 1, GetInt64(msg, 1), GetInt64(msg, 9), msg[21..21 + GetUint32(msg, 17)]))
  }

  lemma GetUint32IsUnsigned(msg: seq<byte>, off: nat)
    requires off + 4 <= |msg|
    ensures GetUint32(msg, off) == Unsigned(msg[off..off + 4])
  {
    UnsignedFour(msg[off..off + 4], 0);
  }

  lemma GetInt64IsRounded(msg: seq<byte>, off: nat)
    requires off + 8 <= |msg|
    ensures GetInt64(msg, off) == RoundToDouble(Unsigned(msg[off..off + 8]))
  {
    var b := msg[off..off + 8];
    UnsignedFour(b[4..], 0);
    UnsignedFour(b, Unsigned(b[4..]));
  }

  /** The fields tile the frame: consecutive, non-overlapping and covering it. */
  lemma FrameLayout(p: Packet)
    ensures var f := EncodeFrame(p);
            && |f| == 21 + |p.payload|
            && f[0] == (if p.isKey then 1 else 0)
            && f[1..9] == Le64(p.pts)
            && f[9..17] == Le64(p.dts)
            && f[17..21] == Le32(|p.payload|)
            && f[21..] == p.payload
  {
  }

  lemma ReadBackTimestamp(f: seq<byte>, off: nat, t: int64)
    requires off + 8 <= |f| && f[off..off + 8] == Le64(t)
    ensures GetInt64(f, off) == RoundToDouble(t % TWO_64)
  {
    GetInt64IsRounded(f, off);
    WrittenModulo(t);
  }

  lemma ReadBackSize(f: seq<byte>, off: nat, size: int)
    requires off + 4 <= |f| && f[off..off + 4] == Le32(size) && 0 <= size < TWO_32
    ensures GetUint32(f, off) == size
  {
    GetUint32IsUnsigned(f, off);
    WrittenModulo(size);
  }

  /** What the client sees of any encodable packet, whatever its timestamps. */
  lemma DecodeOfEncode(p: Packet)
    requires Encodable(p)
    ensures Decode(EncodeFrame(p))
         == Some(Chunk(p.isKey, RoundToDouble(p.pts % TWO_64), RoundToDouble(p.dts % TWO_64), p.payload))
  {
    var f := EncodeFrame(p);
    FrameLayout(p);
    ReadBackTimestamp(f, 1, p.pts);
    ReadBackTimestamp(f, 9, p.dts);
    ReadBackSize(f, 17, |p.payload|);
    assert f[21..21 + |p.payload|] == f[21..];
  }

  /** A timestamp that survives the trip: not negative, and on the grid of doubles at its magnitude. */
  predicate Representable(t: int64) {
    t >= 0 && t % Ulp(t) == 0
  }

  function ChunkOf(p: Packet): Chunk
    requires p.pts >= 0 && p.dts >= 0
  {
    Chunk(p.isKey, p.pts, p.dts, p.payload)
  }

  lemma TimestampExactIff(t: int64)
    ensures RoundToDouble(t % TWO_64) == t <==> Representable(t)
  {
    if t >= 0 {
      assert t % TWO_64 == t;
      RoundExactIff(t);
    }
  }

  /** Exactly the packets with representable timestamps are recovered field by field. */
  lemma RoundTripIff(p: Packet)
    requires Encodable(p)
    ensures (Representable(p.pts) && Representable(p.dts))
       <==> (p.pts >= 0 && p.dts >= 0 && Decode(EncodeFrame(p)) == Some(ChunkOf(p)))
  {
    DecodeOfEncode(p);
    TimestampExactIff(p.pts);
    TimestampExactIff(p.dts);
  }

  /** In particular every timestamp below 2^53 survives. */
  lemma RoundTrip(p: Packet)
    requires Encodable(p) && 0 <= p.pts < TWO_53 && 0 <= p.dts < TWO_53
    ensures Decode(EncodeFrame(p)) == Some(ChunkOf(p))
  {
    RoundTripIff(p);
  }

  /** The first integer that does not survive is 2^53 + 1. */
  lemma FirstLostTimestamp()
    ensures !Representable(0x20_0000_0000_0001)
    ensures forall t: int64 :: 0 <= t <= TWO_53 ==> Representable(t)
  {
    assert Ulp(0x10_0000_0000_0000) == 1;
    assert Ulp(0x20_0000_0000_0001) == 2 * Ulp(0x10_0000_0000_0000);
    assert Ulp(TWO_53) == 2 * Ulp(0x10_0000_0000_0000);
  }
}
