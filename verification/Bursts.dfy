/** Which bursts of errors the UDP PHY notices: exactly which windows of sixteen bits are safe. */
module Bursts {
  import opened Words
  import opened MacTypes
  import opened Crc
  import opened UdpPhy

  // Words as bits

  /** The first `m` bits are zero. */
  predicate High(d: bv16, m: nat)
    decreases m, d
  {
    m == 0 || (!Top(d) && High(d << 1, m - 1))
  }

  lemma {:induction false} LeftSum(u: bv16, d: bv16, v: bv16, m: nat)
    requires Sum(u, d, v)
    ensures Sum(Left(u, m), Left(d, m), Left(v, m))
    decreases m
  {
    if m == 0 {
    } else {
      ShiftSum(u, d, v);
      LeftSum(u << 1, d << 1, v << 1, m - 1);
    }
  }

  lemma {:induction false} LeftTwice(u: bv16, m: nat, n: nat)
    ensures Left(Left(u, m), n) == Left(u, m + n)
    decreases m
  {
    if m == 0 {
    } else {
      LeftTwice(u << 1, m - 1, n);
    }
  }

  lemma {:induction false} LeftOfZero(n: nat)
    ensures Left(0, n) == 0
    decreases n
  {
    if n == 0 {
    } else {
      LeftOfZero(n - 1);
    }
  }

  lemma LeftFour(u: bv16, n: nat)
    ensures Left(u, n + 4) == Left(u << 4, n)
  {
    LeftTwo(u, n + 2);
    LeftTwo(u << 2, n);
    assert (u << 2) << 2 == u << 4;
  }

  lemma LeftEight(u: bv16, n: nat)
    ensures Left(u, n + 8) == Left(u << 8, n)
  {
    LeftFour(u, n + 4);
    LeftFour(u << 4, n);
    assert (u << 4) << 4 == u << 8;
  }

  lemma LeftSixteen(u: bv16)
    ensures Left(u, 16) == 0
  {
    LeftEight(u, 8);
    LeftEight(u << 8, 0);
    assert (u << 8) << 8 == 0;
  }

  lemma {:induction false} TopBitsRest(u: bv16, n: nat, m: nat)
    requires m <= n
    ensures |TopBits(u, n)| == n && TopBits(u, n)[..m] == TopBits(u, m) && TopBits(u, n)[m..] == TopBits(Left(u, m), n - m)
    decreases m
  {
    TopBitsLength(u, n);
    if m == 0 {
    } else {
      TopBitsRest(u << 1, n - 1, m - 1);
      var rest := TopBits(u << 1, n - 1);
      assert TopBits(u, n) == [Top(u)] + rest;
      assert TopBits(u, n)[..m] == [Top(u)] + rest[..m - 1] && TopBits(u, n)[m..] == rest[m - 1..];
    }
  }

  lemma {:induction false} HighSame(u: bv16, d: bv16, v: bv16, m: nat)
    requires Sum(u, d, v) && High(d, m)
    ensures TopBits(u, m) == TopBits(v, m)
    decreases m
  {
    if m == 0 {
    } else {
      TopSame(u, d, v);
      ShiftSum(u, d, v);
      HighSame(u << 1, d << 1, v << 1, m - 1);
    }
  }

  lemma TopDiffers(u: bv16, d: bv16, v: bv16)
    requires Sum(u, d, v) && Top(u) == Top(v)
    ensures !Top(d)
  {
  }

  lemma {:induction false} AgreeHigh(u: bv16, d: bv16, v: bv16, m: nat)
    requires Sum(u, d, v) && TopBits(u, m) == TopBits(v, m)
    ensures High(d, m)
    decreases m
  {
    if m == 0 {
    } else {
      TopBitsSplit(u, v, m);
      TopDiffers(u, d, v);
      ShiftSum(u, d, v);
      AgreeHigh(u << 1, d << 1, v << 1, m - 1);
    }
  }

  lemma SumOfSame(u: bv16, d: bv16)
    requires Sum(u, d, u)
    ensures d == 0
  {
  }

  lemma AgreeLow(u: bv16, d: bv16, v: bv16, m: nat)
    requires Sum(u, d, v) && m <= 16 && TopBits(Left(u, m), 16 - m) == TopBits(Left(v, m), 16 - m)
    ensures Left(d, m) == 0
  {
    LeftTwice(u, m, 16 - m);
    LeftTwice(v, m, 16 - m);
    LeftSixteen(u);
    LeftSixteen(v);
    TopBitsInjective(Left(u, m), Left(v, m), 16 - m);
    LeftSum(u, d, v, m);
    SumOfSame(Left(u, m), Left(d, m));
  }

  lemma LowSame(u: bv16, d: bv16, v: bv16, m: nat)
    requires Sum(u, d, v) && Left(d, m) == 0
    ensures Left(u, m) == Left(v, m)
  {
    LeftSum(u, d, v, m);
    SumWithZero(Left(u, m), Left(v, m));
  }

  lemma SumWithZero(u: bv16, v: bv16)
    requires Sum(u, 0, v)
    ensures u == v
  {
  }

  // Pairs of bytes

  function Pair(x: bv8, y: bv8): bv16 {
    ((x as bv16) << 8) | (y as bv16)
  }

  lemma PairParts(x: bv8, y: bv8)
    ensures Sum((x as bv16) << 8, y as bv16, Pair(x, y)) && Pair(x, y) << 8 == (y as bv16) << 8
  {
  }

  lemma LowByteHigh(y: bv8)
    ensures High(y as bv16, 8)
  {
    assert High((y as bv16) << 8, 0);
    assert !Top((y as bv16) << 7) && ((y as bv16) << 7) << 1 == (y as bv16) << 8;
    assert !Top((y as bv16) << 6) && ((y as bv16) << 6) << 1 == (y as bv16) << 7;
    assert !Top((y as bv16) << 5) && ((y as bv16) << 5) << 1 == (y as bv16) << 6;
    assert !Top((y as bv16) << 4) && ((y as bv16) << 4) << 1 == (y as bv16) << 5;
    assert !Top((y as bv16) << 3) && ((y as bv16) << 3) << 1 == (y as bv16) << 4;
    assert !Top((y as bv16) << 2) && ((y as bv16) << 2) << 1 == (y as bv16) << 3;
    assert !Top((y as bv16) << 1) && ((y as bv16) << 1) << 1 == (y as bv16) << 2;
    assert !Top(y as bv16);
    assert High((y as bv16) << 6, 2);
    assert High((y as bv16) << 4, 4);
    assert High((y as bv16) << 2, 6);
  }

  lemma PairBits(x: bv8, y: bv8)
    ensures TopBits(Pair(x, y), 16) == ByteBits(x) + ByteBits(y)
  {
    var p := Pair(x, y);
    PairParts(x, y);
    LowByteHigh(y);
    HighSame((x as bv16) << 8, y as bv16, p, 8);
    TopBitsRest(p, 16, 8);
    LeftEight(p, 0);
    assert TopBits(p, 16) == TopBits(p, 16)[..8] + TopBits(p, 16)[8..];
  }

  lemma PairInjective(x: bv8, y: bv8, x': bv8, y': bv8)
    requires Pair(x, y) == Pair(x', y')
    ensures x == x' && y == y'
  {
  }

  /** A word in the order in which it travels, least significant byte first. */
  function Swap(c: bv16): bv16 { (c << 8) | (c >> 8) }

  lemma WordPair(c: bv16)
    ensures Pair((c & 0xFF) as bv8, (c >> 8) as bv8) == Swap(c)
  {
  }

  lemma SwapSum(a: bv16, b: bv16, c: bv16)
    requires Sum(a, b, c)
    ensures Sum(Swap(a), Swap(b), Swap(c))
  {
  }

  // Datagrams

  lemma TailBits(s: seq<bv8>, x: bv8, y: bv8, a: bv8, b: bv8)
    ensures Bits(s + [x, y] + [a, b]) == Bits(s) + (TopBits(Pair(x, y), 16) + TopBits(Pair(a, b), 16))
  {
    PairBits(x, y);
    PairBits(a, b);
    BitsConcat(s + [x, y], [a, b]);
    BitsConcat(s, [x, y]);
    BitsOfTwo(x, y);
    BitsOfTwo(a, b);
    Regroup(Bits(s), Bits([x, y]), Bits([a, b]));
  }

  lemma BitsOfTwo(x: bv8, y: bv8)
    ensures Bits([x, y]) == ByteBits(x) + ByteBits(y)
  {
    assert [x, y] == [x] + [y];
    BitsConcat([x], [y]);
    BitsOfOne(x);
    BitsOfOne(y);
  }

  lemma CrcOfPair(s: seq<bv8>, x: bv8, y: bv8)
    ensures CrcOf(s + [x, y]) == Zeros(CrcOf(s) ^ Pair(x, y), 16)
  {
    BitsConcat(s, [x, y]);
    BitsOfTwo(x, y);
    PairBits(x, y);
    FeedAllConcat(0, Bits(s), Bits([x, y]));
    LeftSixteen(Pair(x, y));
    FeedWord(CrcOf(s), Pair(x, y), CrcOf(s) ^ Pair(x, y), 16);
  }

  lemma SumShift(c: bv16, u: bv16, d: bv16, v: bv16)
    requires Sum(u, d, v)
    ensures Sum(c ^ u, d, c ^ v)
  {
  }

  /** Damage to the last two bytes of a payload changes its CRC by an amount that depends on nothing else. */
  lemma CrcMoves(s: seq<bv8>, x: bv8, y: bv8, e: bv16, x': bv8, y': bv8)
    requires Sum(Pair(x, y), e, Pair(x', y'))
    ensures Sum(CrcOf(s + [x, y]), Zeros(e, 16), CrcOf(s + [x', y']))
  {
    CrcOfPair(s, x, y);
    CrcOfPair(s, x', y');
    SumShift(CrcOf(s), Pair(x, y), e, Pair(x', y'));
    ZerosSum(CrcOf(s) ^ Pair(x, y), e, CrcOf(s) ^ Pair(x', y'), 16);
  }

  lemma WithinParts(a: seq<bool>, p: seq<bool>, q: seq<bool>, a': seq<bool>, p': seq<bool>, q': seq<bool>, m: nat)
    requires |a| == |a'| && |p| == |p'| == |q| == |q'| == 16 && m <= 16
    requires Within(a + (p + q), a' + (p' + q'), |a| + m)
    ensures a == a' && p[..m] == p'[..m] && q[m..] == q'[m..]
  {
    var b, b' := a + (p + q), a' + (p' + q');
    forall k | 0 <= k < |a| ensures a[k] == a'[k] {
      assert b[k] == a[k] && b'[k] == a'[k];
    }
    forall k | 0 <= k < m ensures p[k] == p'[k] {
      assert b[|a| + k] == p[k] && b'[|a| + k] == p'[k];
    }
    forall k | m <= k < 16 ensures q[k] == q'[k] {
      assert b[|a| + 16 + k] == q[k] && b'[|a| + 16 + k] == q'[k];
    }
  }

  lemma WithinTail(a: seq<bool>, p: seq<bool>, q: seq<bool>, a': seq<bool>, p': seq<bool>, q': seq<bool>, m: nat)
    requires |a| == |a'| && |p| == |p'| == |q| == |q'| == 16 && m <= 16
    ensures Within(a + (p + q), a' + (p' + q'), |a| + m) <==> a == a' && p[..m] == p'[..m] && q[m..] == q'[m..]
  {
    if Within(a + (p + q), a' + (p' + q'), |a| + m) {
      WithinParts(a, p, q, a', p', q', m);
    } else if a == a' && p[..m] == p'[..m] && q[m..] == q'[m..] {
      TailsAgree(a, p, q, p', q', m);
    }
  }

  lemma TailsAgree(a: seq<bool>, p: seq<bool>, q: seq<bool>, p': seq<bool>, q': seq<bool>, m: nat)
    requires |p| == |p'| == |q| == |q'| == 16 && m <= 16 && p[..m] == p'[..m] && q[m..] == q'[m..]
    ensures Within(a + (p + q), a + (p' + q'), |a| + m)
  {
    var b, b' := a + (p + q), a + (p' + q');
    forall k | 0 <= k < |b| && !(|a| + m <= k < |a| + m + 16)
      ensures b[k] == b'[k]
    {
      if |a| <= k < |a| + m {
        assert p[k - |a|] == p[..m][k - |a|] == p'[k - |a|];
      } else if k >= |a| + m + 16 {
        assert q[k - |a| - 16] == q[m..][k - |a| - 16 - m] == q'[k - |a| - 16];
      }
    }
  }

  /** Damage `e` to the last two payload bytes, none of it before the window, that the CRC answers with damage
      none of which is behind the window; `m` bits of the two bytes lie before the window. */
  predicate Escapes(e: bv16, m: nat) {
    e != 0 && High(e, m) && Left(Swap(Zeros(e, 16)), m) == 0
  }

  lemma HighPart(p: bv16, e: bv16, p': bv16, m: nat)
    requires Sum(p, e, p') && m <= 16
    ensures |TopBits(p, 16)| == |TopBits(p', 16)| == 16
    ensures TopBits(p, 16)[..m] == TopBits(p', 16)[..m] <==> High(e, m)
  {
    TopBitsRest(p, 16, m);
    TopBitsRest(p', 16, m);
    SameHigh(p, e, p', m);
  }

  lemma LowPart(q: bv16, f: bv16, q': bv16, m: nat)
    requires Sum(q, f, q') && m <= 16
    ensures |TopBits(q, 16)| == |TopBits(q', 16)| == 16
    ensures TopBits(q, 16)[m..] == TopBits(q', 16)[m..] <==> Left(f, m) == 0
  {
    TopBitsRest(q, 16, m);
    TopBitsRest(q', 16, m);
    var a, b := TopBits(Left(q, m), 16 - m), TopBits(Left(q', m), 16 - m);
    assert a == b <==> Left(f, m) == 0 by { SameLow(q, f, q', m); }
  }

  lemma WordWindow(a: seq<bool>, a': seq<bool>, p: bv16, e: bv16, p': bv16, q: bv16, f: bv16, q': bv16, m: nat)
    requires |a| == |a'| && m <= 16 && Sum(p, e, p') && Sum(q, f, q')
    ensures Within(a + (TopBits(p, 16) + TopBits(q, 16)), a' + (TopBits(p', 16) + TopBits(q', 16)), |a| + m) <==>
            a == a' && High(e, m) && Left(f, m) == 0
  {
    HighPart(p, e, p', m);
    LowPart(q, f, q', m);
    WithinTail(a, TopBits(p, 16), TopBits(q, 16), a', TopBits(p', 16), TopBits(q', 16), m);
  }

  /** The window, seen as words: it holds the difference of the payload's last two bytes and of the CRC. */
  lemma WindowMeans(s: seq<bv8>, x: bv8, y: bv8, a: bv8, b: bv8,
                    s': seq<bv8>, x': bv8, y': bv8, a': bv8, b': bv8, m: nat, e: bv16, f: bv16)
    requires |s| == |s'| && m <= 16 && Sum(Pair(x, y), e, Pair(x', y')) && Sum(Pair(a, b), f, Pair(a', b'))
    ensures Within(Bits(s + [x, y] + [a, b]), Bits(s' + [x', y'] + [a', b']), 8 * |s| + m) <==>
            s == s' && High(e, m) && Left(f, m) == 0
  {
    TailBits(s, x, y, a, b);
    TailBits(s', x', y', a', b');
    BitsLength(s);
    BitsLength(s');
    WordWindow(Bits(s), Bits(s'), Pair(x, y), e, Pair(x', y'), Pair(a, b), f, Pair(a', b'), m);
    SameBits(s, s');
  }

  lemma SameBits(s: seq<bv8>, t: seq<bv8>)
    requires |s| == |t|
    ensures Bits(s) == Bits(t) <==> s == t
  {
    if Bits(s) == Bits(t) {
      BitsInjective(s, t);
    }
  }

  lemma SameHigh(u: bv16, d: bv16, v: bv16, m: nat)
    requires Sum(u, d, v)
    ensures TopBits(u, m) == TopBits(v, m) <==> High(d, m)
  {
    if TopBits(u, m) == TopBits(v, m) {
      AgreeHigh(u, d, v, m);
    } else if High(d, m) {
      HighSame(u, d, v, m);
    }
  }

  lemma SameLow(u: bv16, d: bv16, v: bv16, m: nat)
    requires Sum(u, d, v) && m <= 16
    ensures TopBits(Left(u, m), 16 - m) == TopBits(Left(v, m), 16 - m) <==> Left(d, m) == 0
  {
    if TopBits(Left(u, m), 16 - m) == TopBits(Left(v, m), 16 - m) {
      AgreeLow(u, d, v, m);
    } else if Left(d, m) == 0 {
      LowSame(u, d, v, m);
    }
  }

  /** A damaged datagram, inside the sixteen bits from `p` on, that the receiver passes up. */
  predicate Hidden(payload: seq<bv8>, p: int, d: seq<bv8>) {
    && |d| == |payload| + 2 && d != Datagram(payload) && Within(Bits(Datagram(payload)), Bits(d), p)
    && Payload(Truncated(d)).Some?
  }

  lemma WordIs(c: bv16, a: bv8, b: bv8)
    ensures a == (c & 0xFF) as bv8 && b == (c >> 8) as bv8 <==> Pair(a, b) == Swap(c)
  {
    WordPair(c);
    if Pair(a, b) == Swap(c) {
      PairInjective(a, b, (c & 0xFF) as bv8, (c >> 8) as bv8);
    }
  }

  lemma TwoBytes(a: bv8, b: bv8, w: seq<bv8>)
    requires |w| == 2
    ensures [a, b] == w <==> a == w[0] && b == w[1]
  {
  }

  lemma AcceptedIff(t: seq<bv8>, w: seq<bv8>)
    requires |w| == 2
    ensures Payload(t + w).Some? <==> w == Word(CrcOf(t))
  {
    var d := t + w;
    assert d[..|d| - 2] == t && d[|d| - 2..] == w;
  }

  lemma WordMatches(c: bv16, a: bv8, b: bv8)
    ensures [a, b] == Word(c) <==> Pair(a, b) == Swap(c)
  {
    TwoBytes(a, b, Word(c));
    WordIs(c, a, b);
  }

  lemma AcceptedParts(t: seq<bv8>, a: bv8, b: bv8)
    ensures Payload(t + [a, b]).Some? <==> Pair(a, b) == Swap(CrcOf(t))
  {
    AcceptedIff(t, [a, b]);
    WordMatches(CrcOf(t), a, b);
  }

  function Difference(u: bv16, v: bv16): (d: bv16)
    ensures Sum(u, d, v)
  {
    u ^ v
  }

  lemma DifferenceZero(u: bv16, v: bv16)
    requires Sum(u, 0, v)
    ensures u == v
  {
  }

  lemma SumDetermines(u: bv16, d: bv16, e: bv16, v: bv16)
    requires Sum(u, d, v) && Sum(u, e, v)
    ensures d == e
  {
  }

  /** Hidden damage is a word that escapes. */
  lemma DamageIsWord(s: seq<bv8>, x: bv8, y: bv8, s': seq<bv8>, x': bv8, y': bv8, a': bv8, b': bv8, m: nat) returns (e: bv16)
    requires |s| == |s'| && m <= 16
    requires var d := s' + [x', y'] + [a', b'];
             && d != Datagram(s + [x, y]) && Payload(d).Some?
             && Within(Bits(Datagram(s + [x, y])), Bits(d), 8 * |s| + m)
    ensures Escapes(e, m) && Sum(Pair(x, y), e, Pair(x', y'))
  {
    var c, c' := CrcOf(s + [x, y]), CrcOf(s' + [x', y']);
    e := Difference(Pair(x, y), Pair(x', y'));
    AcceptedParts(s' + [x', y'], a', b');
    WordPair(c);
    WindowMeans(s, x, y, Word(c)[0], Word(c)[1], s', x', y', a', b', m, e, Difference(Swap(c), Swap(c')));
    WordDisplay(c);
    CrcMoves(s, x, y, e, x', y');
    SwapSum(c, Zeros(e, 16), c');
    SumDetermines(Swap(c), Swap(Zeros(e, 16)), Difference(Swap(c), Swap(c')), Swap(c'));
    if e == 0 {
      DifferenceZero(Pair(x, y), Pair(x', y'));
      PairInjective(x, y, x', y');
      WordMatches(c, a', b');
      assert false;
    }
  }

  lemma WordDisplay(c: bv16)
    ensures Word(c) == [Word(c)[0], Word(c)[1]]
  {
  }

  /** A word that escapes is hidden damage. */
  lemma WordIsDamage(s: seq<bv8>, x: bv8, y: bv8, e: bv16, x': bv8, y': bv8, m: nat)
    requires Escapes(e, m) && m <= 16 && Sum(Pair(x, y), e, Pair(x', y'))
    ensures var d := Datagram(s + [x', y']);
            && d != Datagram(s + [x, y]) && Payload(d).Some?
            && Within(Bits(Datagram(s + [x, y])), Bits(d), 8 * |s| + m)
  {
    var c, c' := CrcOf(s + [x, y]), CrcOf(s + [x', y']);
    CrcMoves(s, x, y, e, x', y');
    SwapSum(c, Zeros(e, 16), c');
    WordPair(c);
    WordPair(c');
    WordDisplay(c);
    WordDisplay(c');
    WindowMeans(s, x, y, Word(c)[0], Word(c)[1], s, x', y', Word(c')[0], Word(c')[1], m, e, Swap(Zeros(e, 16)));
    AcceptedIff(s + [x', y'], Word(c'));
    DifferentTails(s, x, y, e, x', y', Word(c), Word(c'));
  }

  lemma DifferentTails(s: seq<bv8>, x: bv8, y: bv8, e: bv16, x': bv8, y': bv8, w: seq<bv8>, w': seq<bv8>)
    requires e != 0 && Sum(Pair(x, y), e, Pair(x', y'))
    ensures s + [x, y] + w != s + [x', y'] + w'
  {
    var d, d' := s + [x, y] + w, s + [x', y'] + w';
    assert d[|s|] == x && d[|s| + 1] == y && d'[|s|] == x' && d'[|s| + 1] == y';
    if x == x' && y == y' {
      SumOfSame(Pair(x, y), e);
    }
  }

  // Which words escape

  /** Sixteen shifts at once, eight and eight: `e` becomes `u` and then `r`. */
  predicate Sixteen(e: bv16, u: bv16, r: bv16) {
    u == (e << 8) ^ Folded(e >> 8) && r == (u << 8) ^ Folded(u >> 8)
  }

  lemma {:induction false} ZerosAdd(c: bv16, m: nat, n: nat)
    ensures Zeros(Zeros(c, m), n) == Zeros(c, m + n)
    decreases m
  {
    if m == 0 {
    } else {
      ZerosAdd(Zero(c), m - 1, n);
    }
  }

  lemma SixteenShifts(e: bv16, u: bv16, r: bv16)
    requires Sixteen(e, u, r)
    ensures Zeros(e, 16) == r
  {
    ShiftsTo(e, u, 8);
    ShiftsTo(u, r, 8);
    ZerosAdd(e, 8, 8);
  }

  lemma InTwoSteps(e: bv16) returns (u: bv16)
    ensures Sixteen(e, u, Zeros(e, 16))
  {
    u := (e << 8) ^ Folded(e >> 8);
    var r := (u << 8) ^ Folded(u >> 8);
    SixteenShifts(e, u, r);
  }

  lemma HighTwo(e: bv16, m: nat)
    requires High(e, m + 2)
    ensures e >> 14 == 0 && High(e << 2, m)
  {
    assert (e << 1) << 1 == e << 2;
    assert High(e << 1, m + 1);
    TopTwo(e);
  }

  lemma TopTwo(e: bv16)
    ensures !Top(e) && !Top(e << 1) <==> e >> 14 == 0
  {
  }

  lemma HighFour(e: bv16, m: nat)
    requires High(e, m + 4)
    ensures e >> 12 == 0 && High(e << 4, m)
  {
    HighTwo(e, m + 2);
    HighTwo(e << 2, m);
    assert (e << 2) << 2 == e << 4;
    FourHigh(e);
  }

  lemma FourHigh(e: bv16)
    requires e >> 14 == 0 && (e << 2) >> 14 == 0
    ensures e >> 12 == 0
  {
  }

  lemma OneHigh(e: bv16, m: nat)
    requires High(e, m + 1)
    ensures !Top(e) && High(e << 1, m)
  {
  }

  // High, in one shift

  lemma HighFive(e: bv16)
    requires High(e, 5)
    ensures e >> 11 == 0
  {
    HighFour(e, 1);
    OneHigh(e << 4, 0);
    FiveBits(e);
  }

  lemma FiveBits(e: bv16)
    requires e >> 12 == 0 && !Top(e << 4)
    ensures e >> 11 == 0
  {
  }

  lemma HighSeven(e: bv16)
    requires High(e, 7)
    ensures e >> 9 == 0
  {
    HighFour(e, 3);
    HighTwo(e << 4, 1);
    OneHigh((e << 4) << 2, 0);
    SevenBits(e);
  }

  lemma SevenBits(e: bv16)
    requires e >> 12 == 0 && (e << 4) >> 14 == 0 && !Top((e << 4) << 2)
    ensures e >> 9 == 0
  {
  }

  lemma HighNine(e: bv16)
    requires High(e, 9)
    ensures e >> 7 == 0
  {
    HighFour(e, 5);
    HighFour(e << 4, 1);
    OneHigh((e << 4) << 4, 0);
    NineBits(e);
  }

  lemma NineBits(e: bv16)
    requires e >> 12 == 0 && (e << 4) >> 12 == 0 && !Top((e << 4) << 4)
    ensures e >> 7 == 0
  {
  }

  lemma LeftFive(d: bv16)
    ensures Left(d, 5) == (d << 4) << 1
  {
    LeftFour(d, 1);
  }

  lemma LeftSeven(d: bv16)
    ensures Left(d, 7) == ((d << 4) << 2) << 1
  {
    LeftFour(d, 3);
    LeftTwo(d << 4, 1);
  }

  lemma LeftNine(d: bv16)
    ensures Left(d, 9) == (d << 8) << 1
  {
    LeftEight(d, 1);
  }

  lemma SafeNine(e: bv16, u: bv16, r: bv16)
    requires Sixteen(e, u, r) && e >> 7 == 0 && (Swap(r) << 8) << 1 == 0
    ensures e == 0
  {
  }

  lemma SafeSeven(e: bv16, u: bv16, r: bv16)
    requires Sixteen(e, u, r) && e >> 9 == 0 && ((Swap(r) << 4) << 2) << 1 == 0
    ensures e == 0
  {
  }

  lemma SafeFive(e: bv16, u: bv16, r: bv16)
    requires Sixteen(e, u, r) && e >> 11 == 0 && (Swap(r) << 4) << 1 == 0
    ensures e == 0
  {
  }

  /** The windows with 5, 7 or 9 of the sixteen bits before them let nothing through. */
  lemma NoneEscapes(e: bv16, m: nat)
    requires m == 5 || m == 7 || m == 9
    ensures !Escapes(e, m)
  {
    if Escapes(e, m) {
      var u := InTwoSteps(e);
      var d := Swap(Zeros(e, 16));
      if m == 5 {
        HighFive(e);
        LeftFive(d);
        SafeFive(e, u, Zeros(e, 16));
      } else if m == 7 {
        HighSeven(e);
        LeftSeven(d);
        SafeSeven(e, u, Zeros(e, 16));
      } else {
        HighNine(e);
        LeftNine(d);
        SafeNine(e, u, Zeros(e, 16));
      }
    }
  }

  lemma SmallWord(e: bv16, u: bv16, r: bv16)
    requires Sixteen(e, u, r) && e >> 8 == 0 && ((Swap(r) << 4) << 2) << 1 == 0
    ensures e == 0
  {
  }

  /** Damage to the last byte alone does not escape a window that starts in the byte before it. */
  lemma ByteStays(e: bv16, m: nat)
    requires e >> 8 == 0 && m <= 7
    ensures !Escapes(e, m)
  {
    if Escapes(e, m) {
      var u := InTwoSteps(e);
      var d := Swap(Zeros(e, 16));
      LeftTwice(d, m, 7 - m);
      LeftOfZero(7 - m);
      LeftSeven(d);
      SmallWord(e, u, Zeros(e, 16));
    }
  }

  lemma {:induction false} HighLess(e: bv16, n: nat, m: nat)
    requires High(e, n) && m <= n
    ensures High(e, m)
    decreases m
  {
    if m == 0 {
    } else {
      HighLess(e << 1, n - 1, m - 1);
    }
  }

  lemma EscapeFrom(e: bv16, u: bv16, r: bv16, low: nat, high: nat, m: nat)
    requires e != 0 && Sixteen(e, u, r) && Left(Swap(r), low) == 0 && High(e, high) && low <= m <= high
    ensures Escapes(e, m)
  {
    SixteenShifts(e, u, r);
    HighLess(e, high, m);
    LeftTwice(Swap(r), low, m - low);
    LeftOfZero(m - low);
  }

  lemma Witness1(m: nat)
    requires 12 <= m <= 15
    ensures Escapes(1, m)
  {
    assert Left(0x2110, 12) == 0 by { LeftEight(0x2110, 4); LeftFour(0x1000, 0); }
    assert High(0x4000, 1) && High(0x1000, 3) && High(0x400, 5) && High(0x100, 7);
    assert High(0x40, 9) && High(0x10, 11) && High(4, 13);
    assert Swap(0x1021) == 0x2110 && Sixteen(1, 0x0100, 0x1021);
    EscapeFrom(1, 0x0100, 0x1021, 12, 15, m);
  }

  lemma Witness2()
    ensures Escapes(2, 11) && Escapes(4, 10)
  {
    assert Left(0x4220, 11) == 0 by { LeftEight(0x4220, 3); LeftTwo(0x2000, 1); }
    assert Left(0x8440, 10) == 0 by { LeftEight(0x8440, 2); LeftTwo(0x4000, 0); }
    assert High(0x1000, 2) && High(0x400, 4) && High(0x100, 6) && High(0x40, 8) && High(0x10, 10) && High(4, 12);
    assert High(2, 11) && High(4, 10) by {
      HighLess(4, 12, 10);
      assert High(4, 10);
    }
    assert Swap(0x2042) == 0x4220 && Sixteen(2, 0x0200, 0x2042) && Swap(0x4084) == 0x8440 && Sixteen(4, 0x0400, 0x4084);
    EscapeFrom(2, 0x0200, 0x2042, 11, 11, 11);
    EscapeFrom(4, 0x0400, 0x4084, 10, 10, 10);
  }

  lemma Witness3()
    ensures Escapes(137, 8) && Escapes(565, 6)
  {
    assert Left(0xA100, 8) == 0 by { LeftEight(0xA100, 0); }
    assert Left(0x9400, 6) == 0 by { LeftFour(0x9400, 2); LeftTwo(0x4000, 0); }
    assert High(0x4480, 1) && High(0x1120, 3) && High(0x448, 5) && High(0x112, 7);
    assert High(137, 8);
    assert High(0x3500 << 1, 0) && High(0x2350, 2) && High(0x8D4, 4);
    assert High(565, 6);
    assert Swap(0x00A1) == 0xA100 && Sixteen(137, 0x8900, 0x00A1) && Swap(0x0094) == 0x9400 && Sixteen(565, 0x1542, 0x0094);
    EscapeFrom(137, 0x8900, 0x00A1, 8, 8, 8);
    EscapeFrom(565, 0x1542, 0x0094, 6, 6, 6);
  }

  lemma Witness4(m: nat)
    requires 1 <= m <= 4
    ensures if m == 1 then Escapes(4490, 1) else Escapes(2245, m)
  {
    if m == 1 {
      assert Swap(0x0080) == 0x8000 && Sixteen(4490, 0x8810, 0x0080);
      assert Left(0x8000, 1) == 0 && High(4490, 1);
      EscapeFrom(4490, 0x8810, 0x0080, 1, 1, 1);
    } else {
      assert Swap(0x0040) == 0x4000 && Sixteen(2245, 0x4408, 0x0040);
      assert Left(0x4000, 2) == 0 by { LeftTwo(0x4000, 0); }
      assert High(0x2314, 2);
      assert High(2245, 4);
      EscapeFrom(2245, 0x4408, 0x0040, 2, 4, m);
    }
  }

  /** The word that escapes a window with `m` of the sixteen bits before it. */
  function Escaping(m: nat): bv16 {
    if m >= 12 then 1 else if m == 11 then 2 else if m == 10 then 4 else if m == 8 then 137
    else if m == 6 then 565 else if m == 1 then 4490 else 2245
  }

  predicate Leaks(m: nat) { 1 <= m <= 15 && m != 5 && m != 7 && m != 9 }

  lemma Witness(m: nat)
    requires Leaks(m)
    ensures Escapes(Escaping(m), m) && (m >= 8 ==> Escaping(m) >> 8 == 0)
  {
    if m >= 12 {
      Witness1(m);
    } else if m >= 10 {
      Witness2();
    } else if m >= 6 {
      Witness3();
    } else {
      Witness4(m);
    }
  }

  // Windows of a datagram

  lemma WithinSplit<T>(a: seq<T>, b: seq<T>, a': seq<T>, b': seq<T>, p: int)
    requires |a| == |a'| && |b| == |b'| && Within(a + b, a' + b', p)
    ensures Within(a, a', p) && Within(b, b', p - |a|)
  {
    var c, c' := a + b, a' + b';
    assert forall k :: 0 <= k < |a| ==> c[k] == a[k] && c'[k] == a'[k];
    forall k | 0 <= k < |b| && b[k] != b'[k]
      ensures p - |a| <= k < p - |a| + 16
    {
      assert c[|a| + k] == b[k] && c'[|a| + k] == b'[k];
    }
  }

  lemma WithinNothing<T>(a: seq<T>, b: seq<T>, p: int)
    requires Within(a, b, p) && (p + 16 <= 0 || p >= |a|)
    ensures a == b
  {
  }

  lemma DamageAccepted(payload: seq<bv8>, t: seq<bv8>, w: seq<bv8>)
    requires |t| == |payload| <= MTU && |w| == 2 && t + w != Datagram(payload) && Payload(Truncated(t + w)).Some?
    ensures w == Word(CrcOf(t)) && t != payload
  {
    AcceptedIff(t, w);
  }

  lemma DamageWindows(payload: seq<bv8>, c: seq<bv8>, t: seq<bv8>, w: seq<bv8>, p: int)
    requires |t| == |payload| && |w| == |c| && Within(Bits(payload + c), Bits(t + w), p)
    ensures Within(Bits(payload), Bits(t), p) && Within(Bits(c), Bits(w), p - 8 * |payload|)
  {
    BitsConcat(payload, c);
    BitsConcat(t, w);
    BitsLength(payload);
    BitsLength(t);
    BitsLength(w);
    BitsLength(c);
    WithinSplit(Bits(payload), Bits(c), Bits(t), Bits(w), p);
  }

  /** The damaged datagram as payload and CRC, and what the window says of each. */
  lemma DamageParts(payload: seq<bv8>, p: int, d: seq<bv8>) returns (t: seq<bv8>, w: seq<bv8>)
    requires |payload| <= MTU && Hidden(payload, p, d)
    ensures |t| == |payload| && |w| == 2 && d == t + w && w == Word(CrcOf(t)) && t != payload
    ensures Within(Bits(payload), Bits(t), p) && Within(Bits(Word(CrcOf(payload))), Bits(w), p - 8 * |payload|)
  {
    t, w := d[..|payload|], d[|payload|..];
    assert d == t + w;
    DamageAccepted(payload, t, w);
    DamageWindows(payload, Word(CrcOf(payload)), t, w, p);
  }

  /** Damage that lies in the payload or in the CRC alone is never hidden. */
  lemma OneSideSeen(payload: seq<bv8>, p: int, d: seq<bv8>)
    requires |payload| <= MTU && (p + 16 <= 8 * |payload| || p >= 8 * |payload|)
    ensures !Hidden(payload, p, d)
  {
    if Hidden(payload, p, d) {
      var t, w := DamageParts(payload, p, d);
      BitsLength(payload);
      BitsLength(w);
      BitsLength(Word(CrcOf(payload)));
      if p >= 8 * |payload| {
        WithinNothing(Bits(payload), Bits(t), p);
        BitsInjective(payload, t);
      } else {
        WithinNothing(Bits(Word(CrcOf(payload))), Bits(w), p - 8 * |payload|);
        BitsInjective(Word(CrcOf(payload)), w);
        BurstDetected(payload, t, p);
        WordInjective(CrcOf(payload), CrcOf(t));
      }
    }
  }

  lemma Bytes(w: bv16)
    ensures Pair((w >> 8) as bv8, (w & 0xFF) as bv8) == w
  {
  }

  lemma LastTwo(t: seq<bv8>)
    requires |t| >= 2
    ensures var n := |t| - 2; t == t[..n] + [t[n], t[n + 1]]
  {
  }

  lemma SameHighByte(x: bv8, y: bv8, e: bv16)
    requires e >> 8 == 0
    ensures ((Pair(x, y) ^ e) >> 8) as bv8 == x
  {
  }

  lemma Flipped(x: bv8, y: bv8, e: bv16) returns (x': bv8, y': bv8)
    ensures Sum(Pair(x, y), e, Pair(x', y')) && (e >> 8 == 0 ==> x' == x)
  {
    x', y' := ((Pair(x, y) ^ e) >> 8) as bv8, ((Pair(x, y) ^ e) & 0xFF) as bv8;
    Bytes(Pair(x, y) ^ e);
    if e >> 8 == 0 {
      SameHighByte(x, y, e);
    }
  }

  /** Two bytes of payload and more: the windows that leak. */
  lemma LongLeaks(payload: seq<bv8>, m: nat) returns (d: seq<bv8>)
    requires 2 <= |payload| <= MTU && Leaks(m)
    ensures Hidden(payload, 8 * |payload| - 16 + m, d)
  {
    var n := |payload| - 2;
    var s, x, y := payload[..n], payload[n], payload[n + 1];
    LastTwo(payload);
    Witness(m);
    var x', y' := Flipped(x, y, Escaping(m));
    WordIsDamage(s, x, y, Escaping(m), x', y', m);
    d := Datagram(s + [x', y']);
    assert Truncated(d) == d;
  }

  /** And those that do not. */
  lemma LongSafe(payload: seq<bv8>, m: nat, d: seq<bv8>)
    requires 2 <= |payload| <= MTU && 1 <= m <= 15 && Hidden(payload, 8 * |payload| - 16 + m, d)
    ensures Leaks(m)
  {
    var n := |payload| - 2;
    var t, c := DamageParts(payload, 8 * |payload| - 16 + m, d);
    LastTwo(payload);
    LastTwo(t);
    assert c == [c[0], c[1]] && Truncated(d) == d;
    var e := DamageIsWord(payload[..n], payload[n], payload[n + 1], t[..n], t[n], t[n + 1], c[0], c[1], m);
    if !Leaks(m) {
      NoneEscapes(e, m);
    }
  }

  // A single byte of payload is like two of which the first is zero

  lemma ZeroByte()
    ensures FeedAll(0, ByteBits(0)) == 0
  {
    FeedByte(0, 0, 8);
    ZerosOfZero(8);
    assert (0 as bv16) ^ ((0 as bv8) as bv16 << 8) == 0;
  }

  lemma ZeroFirst(s: seq<bv8>)
    ensures Bits([0] + s) == ByteBits(0) + Bits(s) && CrcOf([0] + s) == CrcOf(s)
  {
    BitsConcat([0], s);
    BitsOfOne(0);
    ZeroByte();
    FeedAllConcat(0, ByteBits(0), Bits(s));
  }

  lemma ZeroSplit(z: bv8, y: bv8, w: seq<bv8>)
    ensures [] + [z, y] == [z] + [y] && [] + [z, y] + w == [z] + ([y] + w)
  {
  }

  lemma ZeroPair(y: bv8, w: seq<bv8>)
    ensures CrcOf([] + [0, y]) == CrcOf([y]) && Bits([] + [0, y] + w) == ByteBits(0) + Bits([y] + w)
  {
    ZeroSplit(0, y, w);
    ZeroFirst([y]);
    ZeroFirst([y] + w);
  }

  lemma WithinBefore<T>(a: seq<T>, p: seq<T>, q: seq<T>, i: int)
    requires Within(a + p, a + q, |a| + i)
    ensures Within(p, q, i)
  {
    forall k | 0 <= k < |p| && p[k] != q[k]
      ensures i <= k < i + 16
    {
      assert (a + p)[|a| + k] == p[k] && (a + q)[|a| + k] == q[k];
    }
  }

  lemma OneLeaks(y: bv8, m: nat) returns (d: seq<bv8>)
    requires Leaks(m) && m >= 8
    ensures Hidden([y], m - 8, d)
  {
    Witness(m);
    var x', y' := Flipped(0, y, Escaping(m));
    WordIsDamage([], 0, y, Escaping(m), x', y', m);
    d := Datagram([y']);
    ZeroPair(y, Word(CrcOf([y])));
    ZeroPair(y', Word(CrcOf([y'])));
    ByteLength(0);
    WithinBefore(ByteBits(0), Bits(Datagram([y])), Bits(d), m - 8);
    AcceptedIff([y'], Word(CrcOf([y'])));
    assert Truncated(d) == d;
  }

  lemma SmallDifference(y: bv8, e: bv16, y': bv8)
    requires Sum(Pair(0, y), e, Pair(0, y'))
    ensures e >> 8 == 0
  {
  }

  lemma OneSafe(y: bv8, m: nat, d: seq<bv8>)
    requires 1 <= m <= 15 && Hidden([y], m - 8, d)
    ensures Leaks(m) && m >= 8
  {
    var t, w := DamageParts([y], m - 8, d);
    var y' := t[0];
    assert t == [y'] && w == [w[0], w[1]] && Truncated(d) == d;
    ZeroPair(y, Word(CrcOf([y])));
    ZeroPair(y', w);
    ByteLength(0);
    WithinAfter(ByteBits(0), Bits(Datagram([y])), Bits(d), m - 8);
    AcceptedIff([] + [0, y'], w);
    assert [] + [0, y'] + w != Datagram([] + [0, y]) by {
      assert ([] + [0, y'] + w)[1] == y' && Datagram([] + [0, y])[1] == y;
    }
    var e := DamageIsWord([], 0, y, [], 0, y', w[0], w[1], m);
    SmallDifference(y, e, y');
    if !Leaks(m) {
      NoneEscapes(e, m);
    }
    if m <= 7 {
      ByteStays(e, m);
    }
  }

  /** Some damage within sixteen bits from bit `p` on makes the datagram another one that is accepted. */
  ghost predicate Hides(payload: seq<bv8>, p: int) { exists d :: Hidden(payload, p, d) }

  /** That many bits of payload in the window, the others in the CRC. */
  predicate Unsafe(k: int) { 1 <= k <= 15 && k != 7 && k != 9 && k != 11 }

  lemma Singleton(s: seq<bv8>)
    requires |s| == 1
    ensures s == [s[0]]
  {
  }

  lemma StraddleLeaks(payload: seq<bv8>, p: int, m: nat) returns (d: seq<bv8>)
    requires 1 <= |payload| <= MTU && p == 8 * |payload| - 16 + m && Leaks(m) && 0 <= p
    ensures Hidden(payload, p, d)
  {
    if |payload| == 1 {
      d := OneLeaks(payload[0], m);
      Singleton(payload);
    } else {
      d := LongLeaks(payload, m);
    }
  }

  lemma StraddleSafe(payload: seq<bv8>, p: int, m: nat, d: seq<bv8>)
    requires 1 <= |payload| <= MTU && p == 8 * |payload| - 16 + m && 1 <= m <= 15 && Hidden(payload, p, d)
    ensures Leaks(m) && 0 <= p
  {
    if |payload| == 1 {
      Singleton(payload);
      OneSafe(payload[0], m, d);
    } else {
      LongSafe(payload, m, d);
    }
  }

  lemma Straddle(payload: seq<bv8>, p: int, m: nat)
    requires 1 <= |payload| <= MTU && 1 <= m <= 15 && p == 8 * |payload| - 16 + m
    ensures Hides(payload, p) <==> Leaks(m) && 0 <= p
  {
    if Leaks(m) && 0 <= p {
      var d := StraddleLeaks(payload, p, m);
    }
    if Hides(payload, p) {
      var d :| Hidden(payload, p, d);
      StraddleSafe(payload, p, m, d);
    }
  }

  lemma NothingHidden(p: int)
    ensures !Hides([], p)
  {
    if Hides([], p) {
      var d :| Hidden([], p, d);
      var t, w := DamageParts([], p, d);
      assert false;
    }
  }

  /** The windows of sixteen bits that hide damage, exactly. One that lies in the payload alone or in the
      CRC alone never does. One that holds the last `k` bits of the payload and the rest in the CRC does,
      whatever the payload, unless `k` is 7, 9 or 11. */
  lemma WindowHidesIff(payload: seq<bv8>, p: int)
    requires |payload| <= MTU
    ensures Hides(payload, p) <==> 0 <= p && Unsafe(8 * |payload| - p)
  {
    var k := 8 * |payload| - p;
    if 1 <= k <= 15 && payload != [] {
      Straddle(payload, p, 16 - k);
    } else if 1 <= k <= 15 {
      NothingHidden(p);
    } else if Hides(payload, p) {
      var d :| Hidden(payload, p, d);
      OneSideSeen(payload, p, d);
    }
  }
}
