/** The CRC of the UDP PHY (lib/phy-udp.c): the table loop, the long division it stands for, and the
    errors it detects. */
module Crc {
  const POLYNOMIAL: bv16 := 0x1021

  // phy_crc_table, by rows of eight

  const FIRST: seq<seq<bv16>> := [
    [0x0000, 0x1021, 0x2042, 0x3063, 0x4084, 0x50A5, 0x60C6, 0x70E7],
    [0x8108, 0x9129, 0xA14A, 0xB16B, 0xC18C, 0xD1AD, 0xE1CE, 0xF1EF],
    [0x1231, 0x0210, 0x3273, 0x2252, 0x52B5, 0x4294, 0x72F7, 0x62D6],
    [0x9339, 0x8318, 0xB37B, 0xA35A, 0xD3BD, 0xC39C, 0xF3FF, 0xE3DE],
    [0x2462, 0x3443, 0x0420, 0x1401, 0x64E6, 0x74C7, 0x44A4, 0x5485],
    [0xA56A, 0xB54B, 0x8528, 0x9509, 0xE5EE, 0xF5CF, 0xC5AC, 0xD58D],
    [0x3653, 0x2672, 0x1611, 0x0630, 0x76D7, 0x66F6, 0x5695, 0x46B4],
    [0xB75B, 0xA77A, 0x9719, 0x8738, 0xF7DF, 0xE7FE, 0xD79D, 0xC7BC]
  ]

  const SECOND: seq<seq<bv16>> := [
    [0x48C4, 0x58E5, 0x6886, 0x78A7, 0x0840, 0x1861, 0x2802, 0x3823],
    [0xC9CC, 0xD9ED, 0xE98E, 0xF9AF, 0x8948, 0x9969, 0xA90A, 0xB92B],
    [0x5AF5, 0x4AD4, 0x7AB7, 0x6A96, 0x1A71, 0x0A50, 0x3A33, 0x2A12],
    [0xDBFD, 0xCBDC, 0xFBBF, 0xEB9E, 0x9B79, 0x8B58, 0xBB3B, 0xAB1A],
    [0x6CA6, 0x7C87, 0x4CE4, 0x5CC5, 0x2C22, 0x3C03, 0x0C60, 0x1C41],
    [0xEDAE, 0xFD8F, 0xCDEC, 0xDDCD, 0xAD2A, 0xBD0B, 0x8D68, 0x9D49],
    [0x7E97, 0x6EB6, 0x5ED5, 0x4EF4, 0x3E13, 0x2E32, 0x1E51, 0x0E70],
    [0xFF9F, 0xEFBE, 0xDFDD, 0xCFFC, 0xBF1B, 0xAF3A, 0x9F59, 0x8F78]
  ]

  const THIRD: seq<seq<bv16>> := [
    [0x9188, 0x81A9, 0xB1CA, 0xA1EB, 0xD10C, 0xC12D, 0xF14E, 0xE16F],
    [0x1080, 0x00A1, 0x30C2, 0x20E3, 0x5004, 0x4025, 0x7046, 0x6067],
    [0x83B9, 0x9398, 0xA3FB, 0xB3DA, 0xC33D, 0xD31C, 0xE37F, 0xF35E],
    [0x02B1, 0x1290, 0x22F3, 0x32D2, 0x4235, 0x5214, 0x6277, 0x7256],
    [0xB5EA, 0xA5CB, 0x95A8, 0x8589, 0xF56E, 0xE54F, 0xD52C, 0xC50D],
    [0x34E2, 0x24C3, 0x14A0, 0x0481, 0x7466, 0x6447, 0x5424, 0x4405],
    [0xA7DB, 0xB7FA, 0x8799, 0x97B8, 0xE75F, 0xF77E, 0xC71D, 0xD73C],
    [0x26D3, 0x36F2, 0x0691, 0x16B0, 0x6657, 0x7676, 0x4615, 0x5634]
  ]

  const FOURTH: seq<seq<bv16>> := [
    [0xD94C, 0xC96D, 0xF90E, 0xE92F, 0x99C8, 0x89E9, 0xB98A, 0xA9AB],
    [0x5844, 0x4865, 0x7806, 0x6827, 0x18C0, 0x08E1, 0x3882, 0x28A3],
    [0xCB7D, 0xDB5C, 0xEB3F, 0xFB1E, 0x8BF9, 0x9BD8, 0xABBB, 0xBB9A],
    [0x4A75, 0x5A54, 0x6A37, 0x7A16, 0x0AF1, 0x1AD0, 0x2AB3, 0x3A92],
    [0xFD2E, 0xED0F, 0xDD6C, 0xCD4D, 0xBDAA, 0xAD8B, 0x9DE8, 0x8DC9],
    [0x7C26, 0x6C07, 0x5C64, 0x4C45, 0x3CA2, 0x2C83, 0x1CE0, 0x0CC1],
    [0xEF1F, 0xFF3E, 0xCF5D, 0xDF7C, 0xAF9B, 0xBFBA, 0x8FD9, 0x9FF8],
    [0x6E17, 0x7E36, 0x4E55, 0x5E74, 0x2E93, 0x3EB2, 0x0ED1, 0x1EF0]
  ]

  const TABLE := FIRST + SECOND + THIRD + FOURTH

  // Bit by bit

  /** Shifts the register; what falls off the top comes back as x^12 + x^5 + 1. */
  function Zero(c: bv16): bv16 {
    (c << 1) ^ (c >> 15) ^ ((c >> 15) << 5) ^ ((c >> 15) << 12)
  }

  /** The same with a message bit added to the one that falls off. */
  function Feed(c: bv16, b: bool): bv16 {
    if b then Zero(c) ^ POLYNOMIAL else Zero(c)
  }

  function FeedAll(c: bv16, bits: seq<bool>): bv16
    decreases |bits|
  {
    if bits == [] then c else FeedAll(Feed(c, bits[0]), bits[1..])
  }

  function Zeros(c: bv16, n: nat): bv16
    decreases n, c
  {
    if n == 0 then c else Zeros(Zero(c), n - 1)
  }

  predicate Top(u: bv16) { u & 0x8000 != 0 }

  /** The first `n` bits of a word, most significant first. */
  function TopBits(u: bv16, n: nat): seq<bool>
    decreases n, u
  {
    if n == 0 then [] else [Top(u)] + TopBits(u << 1, n - 1)
  }

  function ByteBits(b: bv8): seq<bool> {
    TopBits((b as bv16) << 8, 8)
  }

  function Bits(s: seq<bv8>): seq<bool>
    decreases |s|
  {
    if s == [] then [] else ByteBits(s[0]) + Bits(s[1..])
  }

  // Eight shifts at once

  function Zero2(c: bv16): bv16 {
    (c << 2) ^ (c >> 14) ^ ((c >> 14) << 5) ^ ((c >> 14) << 12)
  }

  function Zero4(c: bv16): bv16 {
    (c << 4) ^ (c >> 12) ^ ((c >> 12) << 5) ^ ((c >> 12) << 12)
  }

  /** What a byte that falls off the top comes back as. */
  function Folded(x: bv16): bv16 {
    (x ^ (x >> 4)) ^ ((x ^ (x >> 4)) << 5) ^ ((x ^ (x >> 4)) << 12)
  }

  lemma Zero2Flat(c: bv16)
    ensures Zero((c << 1) ^ (c >> 15) ^ ((c >> 15) << 5) ^ ((c >> 15) << 12)) == Zero2(c)
  {
  }

  lemma Zero4Flat(c: bv16)
    ensures Zero2((c << 2) ^ (c >> 14) ^ ((c >> 14) << 5) ^ ((c >> 14) << 12)) == Zero4(c)
  {
  }

  lemma Zero8Flat(c: bv16)
    ensures Zero4((c << 4) ^ (c >> 12) ^ ((c >> 12) << 5) ^ ((c >> 12) << 12)) == (c << 8) ^ Folded(c >> 8)
  {
  }

  lemma TwoZeros(c: bv16)
    ensures Zero(Zero(c)) == Zero2(c)
  {
    Zero2Flat(c);
  }

  lemma FourZeros(c: bv16, n: nat)
    ensures Zeros(c, n + 4) == Zeros(Zero4(c), n)
  {
    var d := Zero2(c);
    TwoZeros(c);
    TwoZeros(d);
    Zero4Flat(c);
    assert Zeros(c, n + 4) == Zeros(Zero(c), n + 3) == Zeros(d, n + 2);
    assert Zeros(d, n + 2) == Zeros(Zero(d), n + 1);
  }

  // The table

  function Lookup(x: bv8): bv16 {
    TABLE[(x >> 3) as int][(x & 7) as int]
  }

  predicate Entry(x: bv8) {
    Lookup(x) == Folded(x as bv16)
  }

  predicate Row(row: seq<bv16>, x: bv16) {
    row == [Folded(x), Folded(x + 1), Folded(x + 2), Folded(x + 3), Folded(x + 4), Folded(x + 5), Folded(x + 6), Folded(x + 7)]
  }

  lemma Rows0()
    ensures Row(FIRST[0], 0)
    ensures Row(FIRST[1], 8)
    ensures Row(FIRST[2], 16)
    ensures Row(FIRST[3], 24)
    ensures Row(FIRST[4], 32)
    ensures Row(FIRST[5], 40)
    ensures Row(FIRST[6], 48)
    ensures Row(FIRST[7], 56)
  {
  }

  lemma Rows1()
    ensures Row(SECOND[0], 64)
    ensures Row(SECOND[1], 72)
    ensures Row(SECOND[2], 80)
    ensures Row(SECOND[3], 88)
    ensures Row(SECOND[4], 96)
    ensures Row(SECOND[5], 104)
    ensures Row(SECOND[6], 112)
    ensures Row(SECOND[7], 120)
  {
  }

  lemma Rows2()
    ensures Row(THIRD[0], 128)
    ensures Row(THIRD[1], 136)
    ensures Row(THIRD[2], 144)
    ensures Row(THIRD[3], 152)
    ensures Row(THIRD[4], 160)
    ensures Row(THIRD[5], 168)
    ensures Row(THIRD[6], 176)
    ensures Row(THIRD[7], 184)
  {
  }

  lemma Rows3()
    ensures Row(FOURTH[0], 192)
    ensures Row(FOURTH[1], 200)
    ensures Row(FOURTH[2], 208)
    ensures Row(FOURTH[3], 216)
    ensures Row(FOURTH[4], 224)
    ensures Row(FOURTH[5], 232)
    ensures Row(FOURTH[6], 240)
    ensures Row(FOURTH[7], 248)
  {
  }

  lemma EveryEntry(x: bv8)
    ensures Entry(x)
  {
    Rows0();
    Rows1();
    Rows2();
    Rows3();
    assert Row(TABLE[(x >> 3) as int], (x & 0xF8) as bv16);
  }

  // Feeding a word is adding it to the register and shifting

  /** What is left of a word after `n` shifts. */
  function Left(u: bv16, n: nat): bv16
    decreases n, u
  {
    if n == 0 then u else Left(u << 1, n - 1)
  }

  lemma AbsorbOne(r: bv16, u: bv16)
    requires u & 0x8000 != 0
    ensures Zero(r ^ u) == (Zero(r) ^ POLYNOMIAL) ^ (u << 1)
  {
  }

  lemma AbsorbNought(r: bv16, u: bv16)
    requires u & 0x8000 == 0
    ensures Zero(r ^ u) == Zero(r) ^ (u << 1)
  {
  }

  lemma Absorb(r: bv16, u: bv16)
    ensures Feed(r, Top(u)) ^ (u << 1) == Zero(r ^ u)
  {
    if u & 0x8000 != 0 {
      AbsorbOne(r, u);
    } else {
      AbsorbNought(r, u);
    }
  }

  predicate Sum(r: bv16, u: bv16, sum: bv16) { r ^ u == sum }

  lemma AbsorbSum(r: bv16, u: bv16, sum: bv16)
    requires Sum(r, u, sum)
    ensures Sum(Feed(r, Top(u)), u << 1, Zero(sum))
  {
    Absorb(r, u);
  }

  lemma FeedTop(r: bv16, u: bv16, n: nat)
    requires n > 0
    ensures FeedAll(r, TopBits(u, n)) == FeedAll(Feed(r, Top(u)), TopBits(u << 1, n - 1))
  {
    assert TopBits(u, n)[1..] == TopBits(u << 1, n - 1);
  }

  lemma {:induction false} FeedWord(r: bv16, u: bv16, sum: bv16, n: nat)
    requires Sum(r, u, sum) && Left(u, n) == 0
    ensures FeedAll(r, TopBits(u, n)) == Zeros(sum, n)
    decreases n
  {
    if n == 0 {
    } else {
      FeedTop(r, u, n);
      AbsorbSum(r, u, sum);
      FeedWord(Feed(r, Top(u)), u << 1, Zero(sum), n - 1);
    }
  }

  lemma LeftTwo(u: bv16, n: nat)
    ensures Left(u, n + 2) == Left(u << 2, n)
  {
    assert (u << 1) << 1 == u << 2;
    assert Left(u, n + 2) == Left(u << 1, n + 1);
  }

  lemma NothingLeft(b: bv8)
    ensures Left((b as bv16) << 8, 8) == 0
  {
    LeftTwo((b as bv16) << 8, 6);
    LeftTwo(((b as bv16) << 8) << 2, 4);
    LeftTwo((((b as bv16) << 8) << 2) << 2, 2);
    LeftTwo(((((b as bv16) << 8) << 2) << 2) << 2, 0);
    assert (((((b as bv16) << 8) << 2) << 2) << 2) << 2 == 0;
  }

  lemma EightZeros(c: bv16, n: nat)
    ensures Zeros(c, n + 8) == Zeros(Zero4(Zero4(c)), n)
  {
    FourZeros(c, n + 4);
    FourZeros(Zero4(c), n);
  }

  lemma Zero4Twice(c: bv16)
    ensures Zero4(Zero4(c)) == (c << 8) ^ Folded(c >> 8)
  {
    Zero8Flat(c);
  }

  lemma EightTo(x: bv16, r: bv16, n: nat)
    requires r == Zero4(Zero4(x)) && 7 < n < 9
    ensures Zeros(x, n) == r
  {
    EightZeros(x, n - 8);
  }

  lemma ZeroXor(a: bv16, b: bv16)
    ensures Zero(a ^ b) == Zero(a) ^ Zero(b)
  {
  }

  lemma ZeroSum(a: bv16, b: bv16, sum: bv16)
    requires Sum(a, b, sum)
    ensures Sum(Zero(a), Zero(b), Zero(sum))
  {
    ZeroXor(a, b);
  }

  lemma {:induction false} ZerosSum(a: bv16, b: bv16, sum: bv16, n: nat)
    requires Sum(a, b, sum)
    ensures Sum(Zeros(a, n), Zeros(b, n), Zeros(sum, n))
    decreases n
  {
    if n == 0 {
    } else {
      ZeroSum(a, b, sum);
      ZerosSum(Zero(a), Zero(b), Zero(sum), n - 1);
    }
  }

  lemma FeedByte(c: bv16, b: bv8, n: nat)
    requires 7 < n < 9
    ensures FeedAll(c, ByteBits(b)) == Zeros(c ^ ((b as bv16) << 8), n)
  {
    NothingLeft(b);
    FeedWord(c, (b as bv16) << 8, c ^ ((b as bv16) << 8), n);
  }

  lemma ShiftsTo(x: bv16, r: bv16, n: nat)
    requires r == (x << 8) ^ Folded(x >> 8) && 7 < n < 9
    ensures Zeros(x, n) == r
  {
    Zero4Twice(x);
    EightTo(x, r, n);
  }

  lemma LowFlat(c: bv16)
    ensures c << 8 == ((c & 0xFF) << 8) ^ Folded((c & 0xFF) >> 8)
  {
  }

  lemma HighFlat(x: bv8)
    ensures Folded(x as bv16) == ((0 ^ ((x as bv16) << 8)) << 8) ^ Folded((0 ^ ((x as bv16) << 8)) >> 8)
  {
  }

  lemma SplitFlat(c: bv16, b: bv8)
    ensures Sum(c & 0xFF, 0 ^ ((((c >> 8) as bv8 ^ b) as bv16) << 8), c ^ ((b as bv16) << 8))
  {
  }

  lemma EntryIsCrc(x: bv8)
    ensures Folded(x as bv16) == FeedAll(0, ByteBits(x))
  {
    HighFlat(x);
    ShiftsTo(0 ^ ((x as bv16) << 8), Folded(x as bv16), 8);
    FeedByte(0, x, 8);
  }

  lemma LowMovesUp(c: bv16)
    ensures Zeros(c & 0xFF, 8) == c << 8
  {
    LowFlat(c);
    ShiftsTo(c & 0xFF, c << 8, 8);
  }

  lemma PartsAdd(low: bv16, high: bv16, whole: bv16, up: bv16)
    requires Sum(low, high, whole) && Zeros(low, 8) == up
    ensures Sum(up, Zeros(high, 8), Zeros(whole, 8))
  {
    ZerosSum(low, high, whole, 8);
  }

  lemma RegisterAdds(c: bv16, b: bv8)
    ensures Sum(c << 8, Zeros(0 ^ ((((c >> 8) as bv8 ^ b) as bv16) << 8), 8), Zeros(c ^ ((b as bv16) << 8), 8))
  {
    LowMovesUp(c);
    SplitFlat(c, b);
    PartsAdd(c & 0xFF, 0 ^ ((((c >> 8) as bv8 ^ b) as bv16) << 8), c ^ ((b as bv16) << 8), c << 8);
  }

  lemma SumOf(a: bv16, b: bv16, c: bv16, x: bv16, y: bv16)
    requires Sum(a, b, c) && b == x && c == y
    ensures Sum(a, x, y)
  {
  }

  /** The low byte of the register moves up, and what the high byte and the message byte come back
      as is added to it. */
  lemma TurnSum(c: bv16, b: bv8)
    ensures Sum(c << 8, FeedAll(0, ByteBits((c >> 8) as bv8 ^ b)), FeedAll(c, ByteBits(b)))
  {
    RegisterAdds(c, b);
    FeedByte(0, (c >> 8) as bv8 ^ b, 8);
    FeedByte(c, b, 8);
    SumOf(c << 8, Zeros(0 ^ ((((c >> 8) as bv8 ^ b) as bv16) << 8), 8), Zeros(c ^ ((b as bv16) << 8), 8),
          FeedAll(0, ByteBits((c >> 8) as bv8 ^ b)), FeedAll(c, ByteBits(b)));
  }

  /** An access to the table: entry `x` is the CRC of the byte `x`. */
  method ReadTable(x: bv8) returns (v: bv16)
    ensures v == FeedAll(0, ByteBits(x))
  {
    EveryEntry(x);
    EntryIsCrc(x);
    v := TABLE[(x >> 3) as int][(x & 7) as int];
  }

  lemma TurnTo(c: bv16, b: bv8, entry: bv16)
    requires entry == FeedAll(0, ByteBits((c >> 8) as bv8 ^ b))
    ensures (c << 8) ^ entry == FeedAll(c, ByteBits(b))
  {
    TurnSum(c, b);
    assert Sum(c << 8, entry, FeedAll(c, ByteBits(b)));
  }

  /** One turn of the loop is eight steps of the division. */
  method OneTurn(crc: bv16, b: bv8) returns (next: bv16)
    ensures next == FeedAll(crc, ByteBits(b))
  {
    var entry := ReadTable((crc >> 8) as bv8 ^ b);
    TurnTo(crc, b, entry);
    next := (crc << 8) ^ entry;
  }

  lemma {:induction false} FeedAllConcat(c: bv16, a: seq<bool>, b: seq<bool>)
    ensures FeedAll(c, a + b) == FeedAll(FeedAll(c, a), b)
    decreases |a|
  {
    if a == [] {
      assert a + b == b;
    } else {
      assert (a + b)[1..] == a[1..] + b;
      FeedAllConcat(Feed(c, a[0]), a[1..], b);
    }
  }

  lemma {:induction false} BitsConcat(s: seq<bv8>, t: seq<bv8>)
    ensures Bits(s + t) == Bits(s) + Bits(t)
    decreases |s|
  {
    if s == [] {
      assert s + t == t;
    } else {
      assert (s + t)[1..] == s[1..] + t;
      BitsConcat(s[1..], t);
    }
  }

  lemma BitsRest(buf: seq<bv8>, i: nat)
    requires i < |buf|
    ensures Bits(buf[i..]) == ByteBits(buf[i]) + Bits(buf[i + 1..])
  {
    assert buf[i..][1..] == buf[i + 1..];
  }

  lemma Turn(c: bv16, next: bv16, buf: seq<bv8>, i: nat)
    requires i < |buf| && next == FeedAll(c, ByteBits(buf[i]))
    ensures FeedAll(next, Bits(buf[i + 1..])) == FeedAll(c, Bits(buf[i..]))
  {
    BitsRest(buf, i);
    FeedAllConcat(c, ByteBits(buf[i]), Bits(buf[i + 1..]));
  }

  /** update_crc: the table loop does the division bit by bit. */
  method UpdateCrc(start: bv16, buf: seq<bv8>) returns (crc: bv16)
    ensures crc == FeedAll(start, Bits(buf))
  {
    crc := start;
    var i := 0;
    assert buf[0..] == buf;
    while i < |buf|
      invariant i <= |buf|
      invariant FeedAll(crc, Bits(buf[i..])) == FeedAll(start, Bits(buf))
    {
      var next := OneTurn(crc, buf[i]);
      Turn(crc, next, buf, i);
      crc := next;
      i := i + 1;
    }
  }

  // The division

  /** One step of long division by x^16 + x^12 + x^5 + 1: bring the next bit down, and take the
      divisor off if its leading term goes in. */
  function BringDown(r: bv16, b: bool): bv16 {
    if Top(r) then Appended(r, b) ^ POLYNOMIAL else Appended(r, b)
  }

  function Appended(r: bv16, b: bool): bv16 {
    if b then (r << 1) | 1 else r << 1
  }

  /** The remainder of a bit string. */
  function LongDivide(r: bv16, bits: seq<bool>): bv16
    decreases |bits|
  {
    if bits == [] then r else LongDivide(BringDown(r, bits[0]), bits[1..])
  }

  function NoBits(n: nat): seq<bool> { seq(n, _ => false) }

  lemma ZeroOne(c: bv16)
    requires c & 0x8000 != 0
    ensures Zero(c) == (c << 1) ^ POLYNOMIAL
  {
  }

  lemma ZeroNought(c: bv16)
    requires c & 0x8000 == 0
    ensures Zero(c) == c << 1
  {
  }

  lemma AppendOne(r: bv16)
    ensures ((r << 1) | 1) == (r << 1) ^ 1 && ((r << 1) | 1) ^ POLYNOMIAL == ((r << 1) ^ POLYNOMIAL) ^ 1
  {
  }

  lemma BringDownNought(r: bv16)
    ensures BringDown(r, false) == Zero(r)
  {
    if Top(r) {
      ZeroOne(r);
    } else {
      ZeroNought(r);
    }
  }

  lemma BringDownOne(r: bv16)
    ensures BringDown(r, true) == Zero(r) ^ 1
  {
    AppendOne(r);
    if Top(r) {
      ZeroOne(r);
    } else {
      ZeroNought(r);
    }
  }

  lemma {:induction false} DivideZeros(r: bv16, n: nat)
    ensures LongDivide(r, NoBits(n)) == Zeros(r, n)
    decreases n
  {
    if n == 0 {
    } else {
      assert NoBits(n)[1..] == NoBits(n - 1);
      BringDownNought(r);
      DivideZeros(Zero(r), n - 1);
    }
  }

  lemma {:induction false} ZerosTurn(c: bv16, n: nat)
    ensures Zeros(Zero(c), n) == Zero(Zeros(c, n))
    decreases n
  {
    if n == 0 {
    } else {
      ZerosTurn(Zero(c), n - 1);
    }
  }

  /** A one shifted sixteen places comes round as the divisor. */
  lemma ZerosOfOne()
    ensures Zeros(1, 16) == POLYNOMIAL
  {
    assert Zeros(0x8000, 1) == Zeros(POLYNOMIAL, 0);
    assert Zeros(0x4000, 2) == Zeros(0x8000, 1);
    assert Zeros(0x2000, 3) == Zeros(0x4000, 2);
    assert Zeros(0x1000, 4) == Zeros(0x2000, 3);
    assert Zeros(0x800, 5) == Zeros(0x1000, 4);
    assert Zeros(0x400, 6) == Zeros(0x800, 5);
    assert Zeros(0x200, 7) == Zeros(0x400, 6);
    assert Zeros(0x100, 8) == Zeros(0x200, 7);
    assert Zeros(0x80, 9) == Zeros(0x100, 8);
    assert Zeros(0x40, 10) == Zeros(0x80, 9);
    assert Zeros(0x20, 11) == Zeros(0x40, 10);
    assert Zeros(0x10, 12) == Zeros(0x20, 11);
    assert Zeros(8, 13) == Zeros(0x10, 12);
    assert Zeros(4, 14) == Zeros(8, 13);
    assert Zeros(2, 15) == Zeros(4, 14);
  }

  lemma FeedAheadOne(r: bv16, n: nat)
    requires Zeros(1, n) == POLYNOMIAL
    ensures Feed(Zeros(r, n), true) == Zeros(BringDown(r, true), n)
  {
    BringDownOne(r);
    ZerosSum(Zero(r), 1, Zero(r) ^ 1, n);
    ZerosTurn(r, n);
  }

  lemma FeedAhead(r: bv16, b: bool, n: nat)
    requires Zeros(1, n) == POLYNOMIAL
    ensures Feed(Zeros(r, n), b) == Zeros(BringDown(r, b), n)
  {
    if b {
      FeedAheadOne(r, n);
    } else {
      BringDownNought(r);
      ZerosTurn(r, n);
    }
  }

  lemma {:induction false} ZerosOfZero(n: nat)
    ensures Zeros(0, n) == 0
    decreases n
  {
    if n == 0 {
    } else {
      ZerosOfZero(n - 1);
    }
  }

  lemma {:induction false} FeedIsDivision(r: bv16, bits: seq<bool>, n: nat)
    requires Zeros(1, n) == POLYNOMIAL
    ensures FeedAll(Zeros(r, n), bits) == LongDivide(r, bits + NoBits(n))
    decreases |bits|
  {
    if bits == [] {
      assert bits + NoBits(n) == NoBits(n);
      DivideZeros(r, n);
    } else {
      FeedAhead(r, bits[0], n);
      assert (bits + NoBits(n))[1..] == bits[1..] + NoBits(n);
      FeedIsDivision(BringDown(r, bits[0]), bits[1..], n);
    }
  }

  /** The CRC of a byte string is the remainder of its bits, sixteen zeros appended. */
  lemma CrcIsRemainder(s: seq<bv8>)
    ensures FeedAll(0, Bits(s)) == LongDivide(0, Bits(s) + NoBits(16))
  {
    ZerosOfOne();
    ZerosOfZero(16);
    FeedIsDivision(0, Bits(s), 16);
  }

  // Bursts of errors

  lemma ZeroInjective(c: bv16, d: bv16)
    requires Zero(c) == Zero(d)
    ensures c == d
  {
  }

  lemma ZeroInjectiveBoth(c: bv16, d: bv16)
    requires Zero(c) ^ POLYNOMIAL == Zero(d) ^ POLYNOMIAL
    ensures c == d
  {
  }

  lemma {:induction false} FeedAllInjective(c: bv16, d: bv16, bits: seq<bool>)
    requires FeedAll(c, bits) == FeedAll(d, bits)
    ensures c == d
    decreases |bits|
  {
    if bits == [] {
    } else {
      FeedAllInjective(Feed(c, bits[0]), Feed(d, bits[0]), bits[1..]);
      if bits[0] {
        ZeroInjectiveBoth(c, d);
      } else {
        ZeroInjective(c, d);
      }
    }
  }

  /** Another `n` shifts bring none of these low bits to the top. */
  predicate Room(low: bv16, n: nat)
    decreases n
  {
    n == 0 || (low & 0x8000 == 0 && Room((low << 1) | 1, n - 1))
  }

  lemma {:induction false} LessRoom(low: bv16, n: nat, m: nat)
    requires Room(low, n) && m <= n
    ensures Room(low, m)
    decreases m
  {
    if m == 0 {
    } else {
      LessRoom((low << 1) | 1, n - 1, m - 1);
    }
  }

  lemma RoomForFifteen()
    ensures Room(1, 15)
  {
    assert Room(0x3FFF, 2);
    assert Room(0xFFF, 4);
    assert Room(0x3FF, 6);
    assert Room(0xFF, 8);
    assert Room(0x3F, 10);
    assert Room(0xF, 12);
    assert Room(3, 14);
  }

  lemma PairSame(c: bv16, d: bv16, low: bv16)
    requires (c ^ d) & low != 0 && low & 0x8000 == 0
    ensures (Zero(c) ^ Zero(d)) & ((low << 1) | 1) != 0
  {
  }

  lemma PairSameFlipped(c: bv16, d: bv16, low: bv16)
    requires (c ^ d) & low != 0 && low & 0x8000 == 0
    ensures ((Zero(c) ^ POLYNOMIAL) ^ (Zero(d) ^ POLYNOMIAL)) & ((low << 1) | 1) != 0
  {
  }

  lemma PairApart(c: bv16, d: bv16, low: bv16)
    requires (c ^ d) & low != 0 && low & 0x8000 == 0
    ensures ((Zero(c) ^ POLYNOMIAL) ^ Zero(d)) & ((low << 1) | 1) != 0
    ensures (Zero(c) ^ (Zero(d) ^ POLYNOMIAL)) & ((low << 1) | 1) != 0
  {
  }

  /** The registers differ in one of these bits. */
  predicate Apart(c: bv16, d: bv16, low: bv16) { (c ^ d) & low != 0 }

  lemma FeedPair(c: bv16, d: bv16, x: bool, y: bool, low: bv16)
    requires Apart(c, d, low) && low & 0x8000 == 0
    ensures Apart(Feed(c, x), Feed(d, y), (low << 1) | 1)
  {
    if x {
      if y { PairSameFlipped(c, d, low); } else { PairApart(c, d, low); }
    } else {
      if y { PairApart(c, d, low); } else { PairSame(c, d, low); }
    }
  }

  lemma ApartDiffer(c: bv16, low: bv16)
    ensures !Apart(c, c, low)
  {
  }

  /** Registers that differ in bits that have room differ still afterwards, whatever they are fed. */
  lemma {:induction false} StaysApart(c: bv16, d: bv16, a: seq<bool>, b: seq<bool>, low: bv16)
    requires |a| == |b| && Room(low, |a|) && Apart(c, d, low)
    ensures FeedAll(c, a) != FeedAll(d, b)
    decreases |a|
  {
    if a == [] {
      ApartDiffer(c, low);
    } else {
      FeedPair(c, d, a[0], b[0], low);
      StaysApart(Feed(c, a[0]), Feed(d, b[0]), a[1..], b[1..], (low << 1) | 1);
    }
  }

  /** Two bit strings that differ at most in the sixteen bits from `p` on. */
  predicate Within<T(==)>(a: seq<T>, b: seq<T>, p: int) {
    |a| == |b| && forall k :: 0 <= k < |a| && a[k] != b[k] ==> p <= k < p + 16
  }

  lemma FirstError(c: bv16, x: bool, y: bool)
    requires x != y
    ensures Apart(Feed(c, x), Feed(c, y), 1)
  {
    FirstErrorFlat(c);
  }

  lemma FirstErrorFlat(c: bv16)
    ensures ((Zero(c) ^ POLYNOMIAL) ^ Zero(c)) & 1 != 0 && (Zero(c) ^ (Zero(c) ^ POLYNOMIAL)) & 1 != 0
  {
  }

  lemma {:induction false} BurstChanges(c: bv16, a: seq<bool>, b: seq<bool>, p: int)
    requires Within(a, b, p) && a != b
    ensures FeedAll(c, a) != FeedAll(c, b)
    decreases |a|
  {
    if a[0] == b[0] {
      assert a == [a[0]] + a[1..] && b == [b[0]] + b[1..];
      BurstChanges(Feed(c, a[0]), a[1..], b[1..], p - 1);
    } else {
      var n := if |a| < 16 then |a| else 16;
      assert a[1..n] + a[n..] == a[1..] && b[1..n] + b[n..] == b[1..] && a[n..] == b[n..];
      var x, y := Feed(c, a[0]), Feed(c, b[0]);
      FirstError(c, a[0], b[0]);
      RoomForFifteen();
      LessRoom(1, 15, n - 1);
      StaysApart(x, y, a[1..n], b[1..n], 1);
      FeedAllConcat(x, a[1..n], a[n..]);
      FeedAllConcat(y, b[1..n], b[n..]);
      if FeedAll(x, a[1..]) == FeedAll(y, b[1..]) {
        FeedAllInjective(FeedAll(x, a[1..n]), FeedAll(y, b[1..n]), a[n..]);
      }
    }
  }

  lemma ShiftInjective(u: bv16, v: bv16)
    requires u << 1 == v << 1 && Top(u) == Top(v)
    ensures u == v
  {
  }

  lemma TopBitsSplit(u: bv16, v: bv16, n: nat)
    requires TopBits(u, n) == TopBits(v, n) && n > 0
    ensures Top(u) == Top(v) && TopBits(u << 1, n - 1) == TopBits(v << 1, n - 1)
  {
    var p, q := TopBits(u, n), TopBits(v, n);
    assert p[0] == Top(u) && q[0] == Top(v) && p[1..] == TopBits(u << 1, n - 1) && q[1..] == TopBits(v << 1, n - 1);
  }

  lemma {:induction false} TopBitsInjective(u: bv16, v: bv16, n: nat)
    requires TopBits(u, n) == TopBits(v, n) && Left(u, n) == Left(v, n)
    ensures u == v
    decreases n
  {
    if n == 0 {
    } else {
      TopBitsSplit(u, v, n);
      TopBitsInjective(u << 1, v << 1, n - 1);
      ShiftInjective(u, v);
    }
  }

  lemma TopByte(x: bv8, y: bv8)
    requires (x as bv16) << 8 == (y as bv16) << 8
    ensures x == y
  {
  }

  lemma ByteBitsInjective(x: bv8, y: bv8)
    requires ByteBits(x) == ByteBits(y)
    ensures x == y
  {
    NothingLeft(x);
    NothingLeft(y);
    TopBitsInjective((x as bv16) << 8, (y as bv16) << 8, 8);
    TopByte(x, y);
  }

  lemma {:induction false} TopBitsLength(u: bv16, n: nat)
    ensures |TopBits(u, n)| == n
    decreases n
  {
    if n == 0 {
    } else {
      TopBitsLength(u << 1, n - 1);
    }
  }

  lemma {:induction false} BitsLength(s: seq<bv8>)
    ensures |Bits(s)| == 8 * |s|
    decreases |s|
  {
    if s == [] {
    } else {
      TopBitsLength((s[0] as bv16) << 8, 8);
      BitsLength(s[1..]);
    }
  }

  lemma {:induction false} BitsInjective(s: seq<bv8>, t: seq<bv8>)
    requires |s| == |t| && Bits(s) == Bits(t)
    ensures s == t
    decreases |s|
  {
    if s == [] {
    } else {
      TopBitsLength((s[0] as bv16) << 8, 8);
      TopBitsLength((t[0] as bv16) << 8, 8);
      assert Bits(s)[..8] == ByteBits(s[0]) && Bits(t)[..8] == ByteBits(t[0]);
      assert Bits(s)[8..] == Bits(s[1..]) && Bits(t)[8..] == Bits(t[1..]);
      ByteBitsInjective(s[0], t[0]);
      BitsInjective(s[1..], t[1..]);
    }
  }

  /** Payloads of one length, however long, that differ only inside sixteen consecutive bits have
      different CRCs. */
  lemma BurstDetected(s: seq<bv8>, t: seq<bv8>, p: int)
    requires |s| == |t| && s != t && Within(Bits(s), Bits(t), p)
    ensures FeedAll(0, Bits(s)) != FeedAll(0, Bits(t))
  {
    if Bits(s) == Bits(t) {
      BitsInjective(s, t);
    } else {
      BurstChanges(0, Bits(s), Bits(t), p);
    }
  }
}
