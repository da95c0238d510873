/** The name/value packets of lib/tinyapp.c: a serialiser that fills a buffer and a deserialiser
    that calls back for each item. */
module TinyApp {
  import opened Words

  type itemId = x: int | 0 <= x < 0x40
  type shortText = s: seq<byte> | |s| < 0x100 witness []

  const PROFILE: itemId := 0x3F  // TINYAPP_ITEM_ID_PROFILE

  datatype Item =
    | Item8(id: itemId, v8: byte)
    | Item16(id: itemId, v16: u16)
    | Item32(id: itemId, v32: u32)
    | ItemText(id: itemId, text: shortText)

  /** The bytes handed to the callback, or read as a profile number. */
  function Value(i: Item): seq<byte> {
    match i
    case Item8(_, v) => [v]
    case Item16(_, v) => Le(v, 2)
    case Item32(_, v) => Le(v, 4)
    case ItemText(_, s) => s
  }

  /** Length code in the top two bits, identifier below. */
  function Header(i: Item): byte {
    (match i case Item8(_, _) => 0 case Item16(_, _) => 0x40 case Item32(_, _) => 0x80 case ItemText(_, _) => 0xC0) + i.id
  }

  function ItemBytes(i: Item): seq<byte> {
    [Header(i)] + (if i.ItemText? then [|i.text|] else []) + Value(i)
  }

  function Serialised(items: seq<Item>): seq<byte>
    decreases |items|
  {
    if items == [] then [] else ItemBytes(items[0]) + Serialised(items[1..])
  }

  /** A profile switch needs a profile number. */
  predicate Proper(i: Item) {
    i.id == PROFILE ==> Value(i) != []
  }

  predicate AllProper(items: seq<Item>) {
    forall k :: 0 <= k < |items| ==> Proper(items[k])
  }

  /** A call of the item callback. */
  datatype Call = Call(profile: byte, id: itemId, value: seq<byte>)

  function ProfileAfter(i: Item, profile: byte): byte
    requires Proper(i)
  {
    if i.id == PROFILE then Value(i)[0] else profile
  }

  /** What a reader of the items is told: each one that is not a switch, under the last profile
      switched to. */
  function Calls(items: seq<Item>, profile: byte): seq<Call>
    requires AllProper(items)
    decreases |items|
  {
    if items == [] then []
    else (if items[0].id == PROFILE then [] else [Call(profile, items[0].id, Value(items[0]))])
         + Calls(items[1..], ProfileAfter(items[0], profile))
  }

  // Packets as bytes

  function ValueSize(p: seq<byte>): nat
    requires |p| > 0 && (p[0] >= 0xC0 ==> |p| > 1)
  {
    if p[0] < 0x40 then 1 else if p[0] < 0x80 then 2 else if p[0] < 0xC0 then 4 else p[1]
  }

  function HeaderSize(p: seq<byte>): nat
    requires |p| > 0
  {
    if p[0] >= 0xC0 then 2 else 1
  }

  /** A packet that starts with a whole, proper item. */
  predicate StartsWell(p: seq<byte>) {
    && |p| > 0 && |p| >= HeaderSize(p)
    && |p| >= HeaderSize(p) + ValueSize(p)
    && (p[0] % 0x40 == PROFILE ==> ValueSize(p) > 0)
  }

  predicate WellFormed(p: seq<byte>)
    decreases |p|
  {
    p == [] || (StartsWell(p) && WellFormed(p[HeaderSize(p) + ValueSize(p)..]))
  }

  function Number(p: seq<byte>, n: nat): (v: nat)
    requires |p| == n
    ensures v < Pow256(n)
  {
    LeValueBound(p);
    LeValue(p)
  }

  function FirstItem(p: seq<byte>): (i: Item)
    requires StartsWell(p)
    ensures Proper(i)
  {
    assert Pow256(2) == 0x1_0000 && Pow256(4) == 0x1_0000_0000;
    var id: itemId := p[0] % 0x40;
    var h, n := HeaderSize(p), ValueSize(p);
    var value := p[h..h + n];
    if p[0] < 0x40 then Item8(id, value[0])
    else if p[0] < 0x80 then Item16(id, Number(value, 2))
    else if p[0] < 0xC0 then Item32(id, Number(value, 4))
    else ItemText(id, value)
  }

  /** The items of a packet. */
  function Items(p: seq<byte>): (items: seq<Item>)
    requires WellFormed(p)
    ensures AllProper(items)
    decreases |p|
  {
    if p == [] then [] else [FirstItem(p)] + Items(p[HeaderSize(p) + ValueSize(p)..])
  }

  // Where everything is

  lemma Digits(x: u32)
    ensures Le(x, 4) == [x % 256, x / 256 % 256, x / 0x1_0000 % 256, x / 0x100_0000]
  {
    assert Le(x, 4) == [x % 256] + Le(x / 256, 3);
    assert Le(x / 256, 3) == [x / 256 % 256] + Le(x / 256 / 256, 2);
    assert Le(x / 256 / 256, 2) == [x / 256 / 256 % 256] + Le(x / 256 / 256 / 256, 1);
    assert Le(x / 256 / 256 / 256, 1) == [x / 256 / 256 / 256 % 256] + [];
  }

  /** An item is a byte with its length code and identifier, the length of a string, and the value, low byte first. */
  lemma ItemLayout(i: Item)
    ensures var b := ItemBytes(i);
            && |b| > 0 && b[0] % 0x40 == i.id
            && match i
               case Item8(_, v) => b[0] < 0x40 && b[1..] == [v]
               case Item16(_, v) => 0x40 <= b[0] < 0x80 && b[1..] == [v % 256, v / 256]
               case Item32(_, v) =>
                 0x80 <= b[0] < 0xC0 && b[1..] == [v % 256, v / 256 % 256, v / 0x1_0000 % 256, v / 0x100_0000]
               case ItemText(_, s) => 0xC0 <= b[0] && b[1..] == [|s|] + s
  {
    match i {
      case Item16(_, v) => assert Le(v, 2) == [v % 256, v / 256];
      case Item32(_, v) => Digits(v);
      case ItemText(_, s) => assert ItemBytes(i)[1..] == [|s|] + s;
      case _ =>
    }
  }

  // Bytes and items

  lemma FirstOf(i: Item, rest: seq<byte>)
    requires Proper(i)
    ensures var p := ItemBytes(i) + rest;
            StartsWell(p) && HeaderSize(p) + ValueSize(p) == |ItemBytes(i)| && FirstItem(p) == i
  {
    var p := ItemBytes(i) + rest;
    var h := if i.ItemText? then 2 else 1;
    assert p[0] == Header(i) && |p| >= h + |Value(i)|;
    assert p[h..h + |Value(i)|] == Value(i);
    assert Pow256(2) == 0x1_0000 && Pow256(4) == 0x1_0000_0000;
    match i {
      case Item16(_, v) => LeRoundTrip(v, 2);
      case Item32(_, v) => LeRoundTrip(v, 4);
      case _ =>
    }
  }

  /** Every list of items is read back from its bytes. */
  lemma {:induction false} SerialisedReadBack(items: seq<Item>)
    requires AllProper(items)
    ensures WellFormed(Serialised(items)) && Items(Serialised(items)) == items
    decreases |items|
  {
    if items == [] {
    } else {
      var i, rest := items[0], Serialised(items[1..]);
      var p := ItemBytes(i) + rest;
      SerialisedReadBack(items[1..]);
      FirstOf(i, rest);
      assert p[|ItemBytes(i)|..] == rest;
      assert items == [i] + items[1..];
    }
  }

  lemma FirstBytes(p: seq<byte>)
    requires StartsWell(p)
    ensures ItemBytes(FirstItem(p)) == p[..HeaderSize(p) + ValueSize(p)]
  {
    var h, n := HeaderSize(p), ValueSize(p);
    LeUnique(p[h..h + n]);
    assert p[..h + n] == p[..h] + p[h..h + n];
    assert p[..h] == [p[0]] + (if p[0] >= 0xC0 then [p[1]] else []);
  }

  lemma SerialisedCons(i: Item, items: seq<Item>)
    ensures Serialised([i] + items) == ItemBytes(i) + Serialised(items)
  {
    assert ([i] + items)[1..] == items;
  }

  lemma Rejoined<T>(s: seq<T>, n: nat)
    requires n <= |s|
    ensures s[..n] + s[n..] == s
  {
  }

  lemma SliceOfRest<T>(s: seq<T>, n: nat, i: nat, j: nat)
    requires n + i <= n + j <= |s|
    ensures s[n..][i..j] == s[n + i..n + j] && s[n..][j..] == s[n + j..]
  {
  }

  /** Every well-formed packet is the serialisation of its items. */
  lemma {:induction false} PacketIsSerialised(p: seq<byte>)
    requires WellFormed(p)
    ensures Serialised(Items(p)) == p
    decreases |p|
  {
    if p == [] {
    } else {
      var n := HeaderSize(p) + ValueSize(p);
      PacketIsSerialised(p[n..]);
      FirstBytes(p);
      SerialisedCons(FirstItem(p), Items(p[n..]));
      Rejoined(p, n);
    }
  }

  function ItemSize(i: Item): nat {
    match i case Item8(_, _) => 2 case Item16(_, _) => 3 case Item32(_, _) => 5 case ItemText(_, s) => 2 + |s|
  }

  function TotalSize(items: seq<Item>): nat
    decreases |items|
  {
    if items == [] then 0 else ItemSize(items[0]) + TotalSize(items[1..])
  }

  lemma {:induction false} SerialisedSize(items: seq<Item>)
    ensures |Serialised(items)| == TotalSize(items)
    decreases |items|
  {
    if items == [] {
    } else {
      SerialisedSize(items[1..]);
    }
  }

  lemma {:induction false} SerialisedConcat(a: seq<Item>, b: seq<Item>)
    ensures Serialised(a + b) == Serialised(a) + Serialised(b)
    decreases |a|
  {
    if a == [] {
      assert a + b == b;
    } else {
      assert (a + b)[1..] == a[1..] + b;
      SerialisedConcat(a[1..], b);
    }
  }

  lemma SerialisedSnoc(items: seq<Item>, i: Item)
    ensures Serialised(items + [i]) == Serialised(items) + ItemBytes(i)
  {
    SerialisedConcat(items, [i]);
    assert [i][1..] == [];
  }

  lemma Extended(bytes: seq<byte>, flags: byte, items: seq<Item>, i: Item, head: seq<byte>, value: seq<byte>)
    requires bytes == [flags] + Serialised(items) + head + value && ItemBytes(i) == head + value
    ensures bytes == [flags] + Serialised(items + [i])
  {
    SerialisedSnoc(items, i);
  }

  /** tinyapp_t: a buffer being filled. */
  class Packet {
    const buf: array<byte>
    var ptr: nat
    ghost var flags: byte
    ghost var items: seq<Item>

    ghost predicate Valid()
      reads this, buf
    {
      1 <= ptr <= buf.Length && buf[..ptr] == [flags] + Serialised(items)
    }

    /** tinyapp_init. */
    constructor (flags: byte, buf: array<byte>)
      requires buf.Length >= 1
      modifies buf
      ensures Valid() && this.buf == buf && this.flags == flags && items == []
    {
      this.buf, ptr := buf, 1;
      this.flags, items := flags, [];
      new;
      buf[0] := flags;
    }

    /** `*packet_ptr++ = b`. */
    method Push(b: byte)
      requires 1 <= ptr < buf.Length
      modifies this`ptr, buf
      ensures ptr == old(ptr) + 1 && buf[..ptr] == old(buf[..ptr]) + [b]
    {
      buf[ptr] := b;
      ptr := ptr + 1;
    }

    /** A store of several bytes, or a memcpy. */
    method PushAll(bytes: seq<byte>)
      requires 1 <= ptr && ptr + |bytes| <= buf.Length
      modifies this`ptr, buf
      ensures ptr == old(ptr) + |bytes| && buf[..ptr] == old(buf[..ptr]) + bytes
    {
      var n := 0;
      while n < |bytes|
        invariant n <= |bytes| && ptr == old(ptr) + n
        invariant buf[..ptr] == old(buf[..ptr]) + bytes[..n]
      {
        Push(bytes[n]);
        n := n + 1;
      }
    }

    /** tinyapp_serialise8. */
    method Put8(id: itemId, v: byte)
      requires Valid() && ptr + 2 <= buf.Length
      modifies this, buf
      ensures Valid() && flags == old(flags) && items == old(items) + [Item8(id, v)]
    {
      ghost var i := Item8(id, v);
      Push(0x00 + id);
      Push(v);
      Extended(buf[..ptr], flags, items, i, [Header(i)], [v]);
      items := items + [i];
    }

    /** tinyapp_serialise16. */
    method Put16(id: itemId, v: u16)
      requires Valid() && ptr + 3 <= buf.Length
      modifies this, buf
      ensures Valid() && flags == old(flags) && items == old(items) + [Item16(id, v)]
    {
      ghost var i := Item16(id, v);
      Push(0x40 + id);
      PushAll(Le(v, 2));
      Extended(buf[..ptr], flags, items, i, [Header(i)], Le(v, 2));
      items := items + [i];
    }

    /** tinyapp_serialise32. */
    method Put32(id: itemId, v: u32)
      requires Valid() && ptr + 5 <= buf.Length
      modifies this, buf
      ensures Valid() && flags == old(flags) && items == old(items) + [Item32(id, v)]
    {
      ghost var i := Item32(id, v);
      Push(0x80 + id);
      PushAll(Le(v, 4));
      Extended(buf[..ptr], flags, items, i, [Header(i)], Le(v, 4));
      items := items + [i];
    }

    /** tinyapp_serialise_string. */
    method PutText(id: itemId, text: seq<byte>)
      requires Valid() && |text| < 0x100 && ptr + 2 + |text| <= buf.Length
      modifies this, buf
      ensures Valid() && flags == old(flags) && items == old(items) + [ItemText(id, text)]
    {
      ghost var i := ItemText(id, text);
      Push(0xC0 + id);
      Push(|text|);
      PushAll(text);
      Extended(buf[..ptr], flags, items, i, [Header(i)] + [|text|], text);
      items := items + [i];
    }

    /** tinyapp_size. */
    method Size() returns (n: nat)
      requires Valid()
      ensures n == 1 + TotalSize(items)
    {
      SerialisedSize(items);
      assert |buf[..ptr]| == ptr;
      n := ptr;
    }
  }

  lemma CallsStep(p: seq<byte>, value: seq<byte>, rest: seq<byte>, profile: byte)
    requires WellFormed(p) && p != []
    requires value == p[HeaderSize(p)..HeaderSize(p) + ValueSize(p)] && rest == p[HeaderSize(p) + ValueSize(p)..]
    ensures p[0] % 0x40 == PROFILE ==> Calls(Items(p), profile) == Calls(Items(rest), value[0])
    ensures p[0] % 0x40 != PROFILE ==>
              Calls(Items(p), profile) == [Call(profile, p[0] % 0x40, value)] + Calls(Items(rest), profile)
  {
    LeUnique(value);
    assert Value(FirstItem(p)) == value;
    assert Items(p)[1..] == Items(rest);
  }

  /** The same at a place inside a packet: the value starts at `at` and has `len` bytes. */
  lemma CallsAt(buf: seq<byte>, ptr: nat, at: nat, len: nat, profile: byte)
    requires ptr < |buf| && WellFormed(buf[ptr..])
    requires at == ptr + HeaderSize(buf[ptr..]) && len == ValueSize(buf[ptr..])
    ensures at + len <= |buf| && WellFormed(buf[at + len..]) && (buf[ptr] % 0x40 == PROFILE ==> at < |buf|)
    ensures Calls(Items(buf[ptr..]), profile) ==
            if buf[ptr] % 0x40 == PROFILE then Calls(Items(buf[at + len..]), buf[at])
            else [Call(profile, buf[ptr] % 0x40, buf[at..at + len])] + Calls(Items(buf[at + len..]), profile)
  {
    SliceOfRest(buf, ptr, at - ptr, at - ptr + len);
    CallsStep(buf[ptr..], buf[at..at + len], buf[at + len..], profile);
  }

  /** The header of the item at `ptr`: where its value starts and how long it is. */
  method ReadHeader(buf: seq<byte>, ptr: nat) returns (at: nat, len: nat)
    requires ptr < |buf| && StartsWell(buf[ptr..])
    ensures at == ptr + HeaderSize(buf[ptr..]) && len == ValueSize(buf[ptr..])
  {
    at := ptr + 1;
    match buf[ptr] / 0x40 {
      case 0 => len := 1;
      case 1 => len := 2;
      case 2 => len := 4;
      case _ =>
        len := buf[at];
        at := at + 1;
    }
  }

  /** The calls made before the item at `ptr`, and those still to come, are those of the packet. */
  ghost predicate Told(calls: seq<Call>, buf: seq<byte>, ptr: nat, profile: byte) {
    && 1 <= ptr <= |buf| && WellFormed(buf[1..]) && WellFormed(buf[ptr..])
    && calls + Calls(Items(buf[ptr..]), profile) == Calls(Items(buf[1..]), 0)
  }

  lemma Regroup(a: seq<Call>, b: seq<Call>, c: seq<Call>)
    ensures a + (b + c) == a + b + c
  {
  }

  lemma Tell(calls: seq<Call>, buf: seq<byte>, ptr: nat, at: nat, len: nat, profile: byte)
    requires ptr < |buf| && Told(calls, buf, ptr, profile)
    requires at == ptr + HeaderSize(buf[ptr..]) && len == ValueSize(buf[ptr..])
    ensures at + len <= |buf|
    ensures if buf[ptr] % 0x40 == PROFILE then at < |buf| && Told(calls, buf, at + len, buf[at])
            else Told(calls + [Call(profile, buf[ptr] % 0x40, buf[at..at + len])], buf, at + len, profile)
  {
    CallsAt(buf, ptr, at, len, profile);
    var rest := Calls(Items(buf[at + len..]), profile);
    if buf[ptr] % 0x40 != PROFILE {
      Regroup(calls, [Call(profile, buf[ptr] % 0x40, buf[at..at + len])], rest);
    }
  }

  lemma AllTold(calls: seq<Call>, buf: seq<byte>, profile: byte)
    requires Told(calls, buf, |buf|, profile)
    ensures calls == Calls(Items(buf[1..]), 0)
  {
    assert calls + [] == calls;
  }

  lemma NextStartsWell(calls: seq<Call>, buf: seq<byte>, ptr: nat, profile: byte)
    requires ptr < |buf| && Told(calls, buf, ptr, profile)
    ensures StartsWell(buf[ptr..]) && HeaderSize(buf[ptr..]) > 0
  {
  }

  lemma NothingTold(buf: seq<byte>)
    requires |buf| >= 1 && WellFormed(buf[1..])
    ensures Told([], buf, 1, 0)
  {
    assert [] + Calls(Items(buf[1..]), 0) == Calls(Items(buf[1..]), 0);
  }

  /** One turn of the loop of tinyapp_deserialise. */
  method Report(buf: seq<byte>, ptr: nat, profile: byte, calls: seq<Call>)
    returns (next: nat, profile': byte, calls': seq<Call>)
    requires ptr < |buf| && Told(calls, buf, ptr, profile)
    ensures ptr < next <= |buf| && Told(calls', buf, next, profile')
  {
    NextStartsWell(calls, buf, ptr, profile);
    var at, len := ReadHeader(buf, ptr);
    Tell(calls, buf, ptr, at, len, profile);
    var id := buf[ptr] % 0x40;
    profile', calls' := profile, calls;
    if id == PROFILE {
      profile' := buf[at];
    } else {
      calls' := calls + [Call(profile, id, buf[at..at + len])];
    }
    next := at + len;
  }

  /** tinyapp_deserialise: a well-formed packet is reported item by item. */
  method Deserialise(buf: seq<byte>) returns (calls: seq<Call>)
    requires |buf| >= 1 && WellFormed(buf[1..])
    ensures calls == Calls(Items(buf[1..]), 0)
  {
    calls := [];
    var ptr, profile := 1, 0;
    NothingTold(buf);
    while ptr < |buf|
      invariant ptr <= |buf| && Told(calls, buf, ptr, profile)
    {
      ptr, profile, calls := Report(buf, ptr, profile, calls);
    }
    AllTold(calls, buf, profile);
  }

  /** Deserialising what was serialised reports exactly the items, in order, each under the last
      profile switched to before it. */
  lemma PacketRoundTrip(flags: byte, items: seq<Item>)
    requires AllProper(items)
    ensures var p := [flags] + Serialised(items);
            && |p| == 1 + TotalSize(items)
            && WellFormed(p[1..]) && Calls(Items(p[1..]), 0) == Calls(items, 0)
  {
    var p := [flags] + Serialised(items);
    assert p[1..] == Serialised(items);
    SerialisedReadBack(items);
    SerialisedSize(items);
  }

  /** The profile in force at item `k`: the last one switched to before it, or 0. */
  function ProfileAt(items: seq<Item>, k: nat, profile: byte): byte
    requires AllProper(items) && k <= |items|
    decreases k
  {
    if k == 0 then profile
    else if items[k - 1].id == PROFILE then Value(items[k - 1])[0]
    else ProfileAt(items, k - 1, profile)
  }

  /** Position of item `k` among the calls. */
  function Rank(items: seq<Item>, k: nat): nat
    requires k <= |items|
    decreases k
  {
    if k == 0 then 0 else Rank(items, k - 1) + (if items[k - 1].id == PROFILE then 0 else 1)
  }

  lemma {:induction false} RankTail(items: seq<Item>, k: nat)
    requires 1 <= k <= |items|
    ensures Rank(items, k) == Rank(items[1..], k - 1) + (if items[0].id == PROFILE then 0 else 1)
    decreases k
  {
    if k <= 1 {
    } else {
      RankTail(items, k - 1);
    }
  }

  lemma {:induction false} ProfileTail(items: seq<Item>, k: nat, profile: byte)
    requires AllProper(items) && 1 <= k <= |items|
    ensures ProfileAt(items, k, profile) == ProfileAt(items[1..], k - 1, ProfileAfter(items[0], profile))
    decreases k
  {
    if k <= 1 {
    } else {
      ProfileTail(items, k - 1, profile);
    }
  }

  /** The calls, position by position: one for every item that is not a switch. */
  lemma {:induction false} CallOf(items: seq<Item>, k: nat, profile: byte)
    requires AllProper(items) && k < |items| && items[k].id != PROFILE
    ensures Rank(items, k) < |Calls(items, profile)| == Rank(items, |items|)
    ensures Calls(items, profile)[Rank(items, k)] == Call(ProfileAt(items, k, profile), items[k].id, Value(items[k]))
    decreases |items|
  {
    var next := ProfileAfter(items[0], profile);
    RankTail(items, |items|);
    CallsCount(items[1..], next);
    if k == 0 {
    } else {
      CallOf(items[1..], k - 1, next);
      RankTail(items, k);
      ProfileTail(items, k, profile);
    }
  }

  lemma {:induction false} CallsCount(items: seq<Item>, profile: byte)
    requires AllProper(items)
    ensures |Calls(items, profile)| == Rank(items, |items|)
    decreases |items|
  {
    if items == [] {
    } else {
      RankTail(items, |items|);
      CallsCount(items[1..], ProfileAfter(items[0], profile));
    }
  }
}
