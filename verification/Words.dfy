/** Fixed-width machine words as bounded integers, wrap-around written out, and
    little-endian byte strings. */
module Words {
  type byte = x: int | 0 <= x < 0x100
  type u16 = x: int | 0 <= x < 0x1_0000
  type u32 = x: int | 0 <= x < 0x1_0000_0000
  type u64 = x: int | 0 <= x < 0x1_0000_0000_0000_0000

  const TWO_31 := 0x8000_0000
  const TWO_32 := 0x1_0000_0000

  /** Conversion of an unbounded count to `uint32_t`. */
  function Wrap32(x: int): u32 {
    x % TWO_32
  }

  /** The `(int32_t)` cast of a `uint32_t`. */
  function Signed32(x: u32): int {
    if x < TWO_31 then x else x - TWO_32
  }

  /** `1 << k`. */
  function Pow2(k: nat): (r: nat)
    ensures r >= 1
  {
    if k == 0 then 1 else 2 * Pow2(k - 1)
  }

  lemma {:induction false} Pow2Monotone(j: nat, k: nat)
    requires j <= k
    ensures Pow2(j) <= Pow2(k)
    decreases k
  {
    if j == k {
    } else {
      Pow2Monotone(j, k - 1);
    }
  }

  function Pow256(k: nat): (r: nat)
    ensures r >= 1
  {
    if k == 0 then 1 else 256 * Pow256(k - 1)
  }

  /** The `k` low bytes of `x`, least significant first. */
  function Le(x: nat, k: nat): (s: seq<byte>)
    ensures |s| == k
    decreases k
  {
    if k == 0 then [] else [x % 256] + Le(x / 256, k - 1)
  }

  function LeValue(s: seq<byte>): nat {
    if s == [] then 0 else s[0] + 256 * LeValue(s[1..])
  }

  lemma {:induction false} LeValueBound(s: seq<byte>)
    ensures LeValue(s) < Pow256(|s|)
  {
    if s == [] {
    } else {
      LeValueBound(s[1..]);
    }
  }

  lemma LeValueTwo(s: seq<byte>)
    requires |s| >= 2
    ensures LeValue(s) == s[0] as nat + 0x100 * (s[1] as nat) + 0x1_0000 * LeValue(s[2..])
  {
    assert s[1..][1..] == s[2..];
    assert LeValue(s[1..]) == s[1] + 256 * LeValue(s[2..]);
  }

  lemma {:induction false} LeRoundTrip(x: nat, k: nat)
    requires x < Pow256(k)
    ensures LeValue(Le(x, k)) == x
    decreases k
  {
    if k == 0 {
    } else {
      LeRoundTrip(x / 256, k - 1);
      assert Le(x, k)[1..] == Le(x / 256, k - 1);
    }
  }

  lemma DivModOfSum(lo: byte, hi: nat)
    ensures (lo + 256 * hi) % 256 == lo && (lo + 256 * hi) / 256 == hi
  {
  }

  lemma {:induction false} LeUnique(s: seq<byte>)
    ensures Le(LeValue(s), |s|) == s
  {
    if s == [] {
    } else {
      LeUnique(s[1..]);
      DivModOfSum(s[0], LeValue(s[1..]));
    }
  }

  // Sequences

  lemma Regroup<T>(log: seq<T>, a: seq<T>, b: seq<T>)
    ensures log + (a + b) == log + a + b
  {
  }

  /** Fragments put together. */
  function Flatten<T>(bufs: seq<seq<T>>): seq<T>
    decreases |bufs|
  {
    if bufs == [] then [] else bufs[0] + Flatten(bufs[1..])
  }

  lemma FlattenRest<T>(bufs: seq<seq<T>>, i: nat)
    requires i < |bufs|
    ensures Flatten(bufs[i..]) == bufs[i] + Flatten(bufs[i + 1..])
  {
    assert bufs[i..][1..] == bufs[i + 1..];
  }
}
