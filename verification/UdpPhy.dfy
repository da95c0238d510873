/** Framing of the UDP PHY (lib/phy-udp.c): a datagram is the fragments followed by their CRC. */
module UdpPhy {
  import opened Words
  import opened MacTypes
  import opened Crc

  const MAX_PACKET := 256
  const MTU := MAX_PACKET - 2

  function CrcOf(s: seq<bv8>): bv16 { FeedAll(0, Bits(s)) }

  /** A uint16_t in memory, least significant byte first. */
  function Word(c: bv16): seq<bv8> { [(c & 0xFF) as bv8, (c >> 8) as bv8] }

  function Datagram(payload: seq<bv8>): seq<bv8> { payload + Word(CrcOf(payload)) }

  function Truncated(d: seq<bv8>): seq<bv8> {
    if |d| <= MAX_PACKET then d else d[..MAX_PACKET]
  }

  /** The payload of a datagram whose last two bytes are its CRC. */
  function Payload(d: seq<bv8>): Option<seq<bv8>> {
    var n := |d| - 2;
    if n >= 0 && d[n..] == Word(CrcOf(d[..n])) then Some(d[..n]) else None
  }

  /** The first pass of phy_send: the CRC of all fragments. */
  method CrcOfAll(bufs: seq<seq<bv8>>) returns (crc: bv16)
    ensures crc == CrcOf(Flatten(bufs))
  {
    crc := 0;
    var n := 0;
    while n < |bufs|
      invariant n <= |bufs|
      invariant FeedAll(crc, Bits(Flatten(bufs[n..]))) == CrcOf(Flatten(bufs))
    {
      FlattenRest(bufs, n);
      BitsConcat(bufs[n], Flatten(bufs[n + 1..]));
      FeedAllConcat(crc, Bits(bufs[n]), Bits(Flatten(bufs[n + 1..])));
      crc := UpdateCrc(crc, bufs[n]);
      n := n + 1;
    }
  }

  /** The second pass of phy_send: the fragments, one after another. */
  method Gather(bufs: seq<seq<bv8>>) returns (d: seq<bv8>)
    ensures d == Flatten(bufs)
  {
    d := [];
    var n := 0;
    while n < |bufs|
      invariant n <= |bufs|
      invariant d + Flatten(bufs[n..]) == Flatten(bufs)
    {
      FlattenRest(bufs, n);
      d := d + bufs[n];
      n := n + 1;
    }
  }

  /** phy_send: the datagram it builds. */
  method Send(bufs: seq<seq<bv8>>) returns (d: seq<bv8>)
    ensures d == Datagram(Flatten(bufs))
  {
    var crc := CrcOfAll(bufs);
    d := Gather(bufs);
    d := d + Word(crc);
  }

  lemma WordValue(c: bv16, lo: bv8, hi: bv8)
    ensures c == ((hi as bv16) << 8) | (lo as bv16) <==> lo == (c & 0xFF) as bv8 && hi == (c >> 8) as bv8
  {
  }

  method Matches(crc: bv16, lo: bv8, hi: bv8) returns (same: bool)
    ensures same <==> [lo, hi] == Word(crc)
  {
    WordValue(crc, lo, hi);
    same := crc == ((hi as bv16) << 8) | (lo as bv16);
    assert [lo, hi] == Word(crc) ==> [lo, hi][0] == Word(crc)[0] && [lo, hi][1] == Word(crc)[1];
  }

  /** phy_event_handler: what is passed up for a datagram that has arrived, if anything. */
  method Receive(datagram: seq<bv8>, listening: bool) returns (r: Option<seq<bv8>>)
    ensures r == if listening then Payload(Truncated(datagram)) else None
  {
    var d := if |datagram| <= MAX_PACKET then datagram else datagram[..MAX_PACKET];
    var size := |d|;
    if size < 2 {
      return None;
    }
    var ours := UpdateCrc(0, d[..size - 2]);
    var same := Matches(ours, d[size - 2], d[size - 1]);
    assert d[size - 2..] == [d[size - 2], d[size - 1]];
    r := if same && listening then Some(d[..size - 2]) else None;
  }

  /** A listening receiver passes up exactly the concatenated fragments, up to the MTU. */
  lemma SentIsReceived(bufs: seq<seq<bv8>>)
    requires |Flatten(bufs)| <= MTU
    ensures Payload(Truncated(Datagram(Flatten(bufs)))) == Some(Flatten(bufs))
  {
    var p, d := Flatten(bufs), Datagram(Flatten(bufs));
    assert d[..|d| - 2] == p && d[|d| - 2..] == Word(CrcOf(p));
  }

  lemma WordInjective(c: bv16, d: bv16)
    requires Word(c) == Word(d)
    ensures c == d
  {
    assert Word(c)[0] == Word(d)[0] && Word(c)[1] == Word(d)[1];
    SameHalves(c, d);
  }

  lemma SameHalves(c: bv16, d: bv16)
    requires (c & 0xFF) as bv8 == (d & 0xFF) as bv8 && (c >> 8) as bv8 == (d >> 8) as bv8
    ensures c == d
  {
  }

  /** A datagram damaged inside sixteen consecutive bits of its payload is dropped. */
  lemma DamagedPayloadDropped(payload: seq<bv8>, damaged: seq<bv8>, p: int)
    requires |damaged| == |payload| && damaged != payload && Within(Bits(payload), Bits(damaged), p)
    ensures Payload(damaged + Word(CrcOf(payload))) == None
    ensures |payload| <= MTU ==> Payload(Truncated(damaged + Word(CrcOf(payload)))) == None
  {
    BurstDetected(payload, damaged, p);
    var d := damaged + Word(CrcOf(payload));
    assert d[..|d| - 2] == damaged && d[|d| - 2..] == Word(CrcOf(payload));
    if Word(CrcOf(payload)) == Word(CrcOf(damaged)) {
      WordInjective(CrcOf(payload), CrcOf(damaged));
    }
  }

  /** So is one whose damage is all in its CRC. */
  lemma DamagedCrcDropped(payload: seq<bv8>, check: seq<bv8>)
    requires |check| == 2 && check != Word(CrcOf(payload))
    ensures Payload(payload + check) == None
    ensures |payload| <= MTU ==> Payload(Truncated(payload + check)) == None
  {
    var d := payload + check;
    assert d[..|d| - 2] == payload && d[|d| - 2..] == check;
  }

  // The CRC travels low byte first, so a burst across the end of the payload can escape.

  lemma FlippedRegisters(c: bv16, b: bv8)
    ensures Sum(c ^ ((b as bv16) << 8), 0x100, c ^ (((b ^ 1) as bv16) << 8))
  {
  }

  lemma EightFromTop()
    ensures Zeros(0x100, 8) == POLYNOMIAL
  {
    ZerosOfOne();
  }

  lemma LastBitFlips(c: bv16, b: bv8)
    ensures Sum(FeedAll(c, ByteBits(b)), POLYNOMIAL, FeedAll(c, ByteBits(b ^ 1)))
  {
    FeedByte(c, b, 8);
    FeedByte(c, b ^ 1, 8);
    FlippedRegisters(c, b);
    ZerosSum(c ^ ((b as bv16) << 8), 0x100, c ^ (((b ^ 1) as bv16) << 8), 8);
    EightFromTop();
  }

  lemma CrcOfSnoc(s: seq<bv8>, b: bv8)
    ensures CrcOf(s + [b]) == FeedAll(CrcOf(s), ByteBits(b))
  {
    BitsConcat(s, [b]);
    BitsOfOne(b);
    FeedAllConcat(0, Bits(s), Bits([b]));
  }

  /** The low bit of the last payload byte and three bits of the CRC. */
  function Straddled(s: seq<bv8>, b: bv8): seq<bv8> {
    s + [b ^ 1] + Word(CrcOf(s + [b]) ^ POLYNOMIAL)
  }

  lemma StraddledAccepted(s: seq<bv8>, b: bv8)
    ensures Payload(Straddled(s, b)) == Some(s + [b ^ 1])
  {
    CrcOfSnoc(s, b);
    CrcOfSnoc(s, b ^ 1);
    LastBitFlips(CrcOf(s), b);
    var d := Straddled(s, b);
    assert d[..|d| - 2] == s + [b ^ 1] && d[|d| - 2..] == Word(CrcOf(s + [b ^ 1]));
  }

  function Tail(b: bv8, lo: bv8, hi: bv8): seq<bool> { ByteBits(b) + (ByteBits(lo) + ByteBits(hi)) }

  lemma ShiftSum(u: bv16, d: bv16, v: bv16)
    requires Sum(u, d, v)
    ensures Sum(u << 1, d << 1, v << 1)
  {
  }

  lemma TopSame(u: bv16, d: bv16, v: bv16)
    requires Sum(u, d, v) && !Top(d)
    ensures Top(u) == Top(v)
  {
  }

  lemma {:induction false} UnflippedBit(u: bv16, d: bv16, v: bv16, n: nat, k: nat)
    requires Sum(u, d, v) && k < n && !Top(Left(d, k))
    ensures |TopBits(u, n)| == |TopBits(v, n)| == n && TopBits(u, n)[k] == TopBits(v, n)[k]
    decreases n
  {
    TopBitsLength(u, n);
    TopBitsLength(v, n);
    if k == 0 {
      TopSame(u, d, v);
    } else {
      ShiftSum(u, d, v);
      UnflippedBit(u << 1, d << 1, v << 1, n - 1, k - 1);
    }
  }

  lemma LowBitDown(k: nat)
    requires k < 7
    ensures !Top(Left(0x100, k))
  {
    assert Left(0x100, k) == Left(0x100, 0) || k > 0;
    assert Left(0x100, 1) == 0x200 && Left(0x100, 2) == 0x400 && Left(0x100, 3) == 0x800;
    assert Left(0x100, 4) == 0x1000 && Left(0x100, 5) == 0x2000 && Left(0x100, 6) == 0x4000;
  }

  lemma FlipInByte(b: bv8)
    ensures Sum((b as bv16) << 8, 0x100, ((b ^ 1) as bv16) << 8)
    ensures Sum((b as bv16) << 8, 0x1000, ((b ^ 0x10) as bv16) << 8)
  {
  }

  lemma FlipLow(b: bv8, k: nat)
    requires k < 7
    ensures |ByteBits(b)| == |ByteBits(b ^ 1)| == 8 && ByteBits(b)[k] == ByteBits(b ^ 1)[k]
  {
    FlipInByte(b);
    LowBitDown(k);
    UnflippedBit((b as bv16) << 8, 0x100, ((b ^ 1) as bv16) << 8, 8, k);
  }

  lemma FlipHigh(b: bv8)
    ensures |ByteBits(b)| == |ByteBits(b ^ 0x10)| == 8 && ByteBits(b)[7] == ByteBits(b ^ 0x10)[7]
  {
    FlipInByte(b);
    LeftTwo(0x1000, 5);
    LeftTwo(0x4000, 3);
    assert Left(0, 3) == Left(0, 2) == Left(0, 1) == 0;
    UnflippedBit((b as bv16) << 8, 0x1000, ((b ^ 0x10) as bv16) << 8, 8, 7);
  }

  lemma ByteLength(b: bv8)
    ensures |ByteBits(b)| == 8
  {
    TopBitsLength((b as bv16) << 8, 8);
  }

  lemma TailsDiffer(b: bv8, lo: bv8, hi: bv8)
    ensures Within(Tail(b, lo, hi), Tail(b ^ 1, lo ^ 0x21, hi ^ 0x10), 7)
  {
    forall k | 0 <= k < 7
      ensures |ByteBits(b)| == |ByteBits(b ^ 1)| == 8 && ByteBits(b)[k] == ByteBits(b ^ 1)[k]
    {
      FlipLow(b, k);
    }
    FlipHigh(hi);
    ByteLength(b);
    ByteLength(b ^ 1);
    ByteLength(lo);
    ByteLength(lo ^ 0x21);
    SpliceWithin(ByteBits(b), ByteBits(lo), ByteBits(hi), ByteBits(b ^ 1), ByteBits(lo ^ 0x21), ByteBits(hi ^ 0x10));
  }

  lemma SpliceWithin(a: seq<bool>, b: seq<bool>, c: seq<bool>, x: seq<bool>, y: seq<bool>, z: seq<bool>)
    requires |a| == |b| == |c| == |x| == |y| == |z| == 8
    requires forall k :: 0 <= k < 8 && a[k] != x[k] ==> k == 7
    requires c[7] == z[7]
    ensures Within(a + (b + c), x + (y + z), 7)
  {
  }

  lemma WordFlips(c: bv16)
    ensures ((c ^ POLYNOMIAL) & 0xFF) as bv8 == (c & 0xFF) as bv8 ^ 0x21
    ensures ((c ^ POLYNOMIAL) >> 8) as bv8 == (c >> 8) as bv8 ^ 0x10
  {
  }

  lemma BitsOfOne(b: bv8)
    ensures Bits([b]) == ByteBits(b)
  {
    assert [b][1..] == [];
  }

  lemma BitsOfTail(s: seq<bv8>, b: bv8, lo: bv8, hi: bv8)
    ensures Bits(s + [b] + [lo, hi]) == Bits(s) + Tail(b, lo, hi)
  {
    BitsConcat(s + [b], [lo, hi]);
    BitsConcat(s, [b]);
    BitsConcat([lo], [hi]);
    assert [lo] + [hi] == [lo, hi];
    BitsOfOne(b);
    BitsOfOne(lo);
    BitsOfOne(hi);
    Regroup(Bits(s), ByteBits(b), ByteBits(lo) + ByteBits(hi));
  }

  lemma WithinAfter<T>(a: seq<T>, p: seq<T>, q: seq<T>, i: int)
    requires Within(p, q, i)
    ensures Within(a + p, a + q, |a| + i)
  {
    forall k | 0 <= k < |a + p| && (a + p)[k] != (a + q)[k]
      ensures |a| + i <= k < |a| + i + 16
    {
      assert k >= |a| && p[k - |a|] != q[k - |a|];
    }
  }

  /** Every datagram with a payload has damage, inside sixteen consecutive bits across the end of
      the payload, that the receiver passes up as a different payload. */
  lemma StraddlingBurstEscapes(s: seq<bv8>, b: bv8)
    ensures Within(Bits(Datagram(s + [b])), Bits(Straddled(s, b)), 8 * |s| + 7)
    ensures Payload(Straddled(s, b)) == Some(s + [b ^ 1]) && s + [b ^ 1] != s + [b]
    ensures |s| < MTU ==> Payload(Truncated(Straddled(s, b))) == Some(s + [b ^ 1])
  {
    StraddledAccepted(s, b);
    StraddledWithin(s, b, CrcOf(s + [b]));
    LastByteDiffers(s, b);
  }

  lemma StraddledWithin(s: seq<bv8>, b: bv8, c: bv16)
    ensures Within(Bits(s + [b] + Word(c)), Bits(s + [b ^ 1] + Word(c ^ POLYNOMIAL)), 8 * |s| + 7)
  {
    FlippedWord(c);
    StraddledBits(s, b, Word(c)[0], Word(c)[1]);
  }

  lemma FlippedWord(c: bv16)
    ensures var w := Word(c); w == [w[0], w[1]] && Word(c ^ POLYNOMIAL) == [w[0] ^ 0x21, w[1] ^ 0x10]
  {
    WordFlips(c);
  }

  lemma LastByteDiffers(s: seq<bv8>, b: bv8)
    ensures s + [b ^ 1] != s + [b]
  {
    assert (s + [b ^ 1])[|s|] == b ^ 1 && (s + [b])[|s|] == b;
    assert b ^ 1 != b;
  }

  lemma StraddledBits(s: seq<bv8>, b: bv8, lo: bv8, hi: bv8)
    ensures Within(Bits(s + [b] + [lo, hi]), Bits(s + [b ^ 1] + [lo ^ 0x21, hi ^ 0x10]), 8 * |s| + 7)
  {
    BitsOfTail(s, b, lo, hi);
    BitsOfTail(s, b ^ 1, lo ^ 0x21, hi ^ 0x10);
    TailsDiffer(b, lo, hi);
    BitsLength(s);
    WithinAfter(Bits(s), Tail(b, lo, hi), Tail(b ^ 1, lo ^ 0x21, hi ^ 0x10), 7);
  }
}
