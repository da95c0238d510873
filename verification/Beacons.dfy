/** Beacons: their schedule, the pending list they carry, polling, and flushing on contact. */
module Beacons {
  import opened Words
  import opened MacTypes
  import opened MacSlot
  import opened MacMachine
  import opened Registry
  import opened Deadlines

  // Schedule

  predicate IsPeriodic(e: Event) {
    e.SentMac? && e.frame.body.Beacon? && e.frame.body.sync
  }

  function Periodics(ev: seq<Event>): nat
    decreases |ev|
  {
    if ev == [] then 0 else (if IsPeriodic(ev[0]) then 1 else 0) + Periodics(ev[1..])
  }

  lemma {:induction false} PeriodicsConcat(a: seq<Event>, b: seq<Event>)
    ensures Periodics(a + b) == Periodics(a) + Periodics(b)
    decreases |a|
  {
    if a == [] {
      assert a + b == b;
    } else {
      assert (a + b)[1..] == a[1..] + b;
      PeriodicsConcat(a[1..], b);
    }
  }

  predicate NoPeriodic(ev: seq<Event>) {
    forall e :: e in ev ==> !IsPeriodic(e)
  }

  lemma {:induction false} NoPeriodicZero(ev: seq<Event>)
    requires NoPeriodic(ev)
    ensures Periodics(ev) == 0
    decreases |ev|
  {
    if ev == [] {
    } else {
      assert ev[0] in ev;
      NoPeriodicZero(ev[1..]);
    }
  }

  lemma {:induction false} JoinedNoPeriodic(parts: seq<seq<Event>>, i: nat)
    requires i <= |parts| && forall j :: 0 <= j < |parts| ==> NoPeriodic(parts[j])
    ensures NoPeriodic(Joined(parts, i))
    decreases |parts| - i
  {
    if i == |parts| {
    } else {
      JoinedNoPeriodic(parts, i + 1);
    }
  }

  lemma TickNodesNoPeriodic(s: Mac)
    ensures NoPeriodic(TickNodes(s).ev)
  {
    JoinedNoPeriodic(NodeTickEvents(s.nodes, s.tick), 0);
  }

  lemma TickPeriodics(s: Mac)
    requires s.params.coordinator
    ensures Periodics(Tick(s).ev) == if BeaconDue(Tick(s).s) then 1 else 0
    ensures Tick(s).s.slot == (s.slot + 1) % 0x1_0000
  {
    var b := BeaconTick(s);
    var t := TickNodes(b.s);
    TickNodesNoPeriodic(b.s);
    NoPeriodicZero(t.ev);
    PeriodicsConcat(b.ev, t.ev);
    assert b.ev == [] || (|b.ev| == 1 && b.ev[1..] == []);
  }

  lemma PreludeNoPeriodic(s: Mac, f: Frame, ackSent: bool)
    ensures NoPeriodic(Prelude(s, f, ackSent).ev) && Prelude(s, f, ackSent).s.slot == s.slot
  {
  }

  lemma DeregNoPeriodic(s: Mac, src: byte, uuid: u64)
    ensures var o := RxDeregRequest(s, src, uuid);
            NoPeriodic(o.ev) && o.s.slot == s.slot && forall e :: e in o.ev ==> !e.Sent?
  {
    var k := Leaving(s.nodes, src, uuid);
    if k < MAX_NODES {
      var resp := RegResponse(uuid, UNASSIGNED, STATUS_SUCCESS);
      var o := SendTo(s, k, PLAIN, resp, 0, NoCallback);
      assert NoPeriodic(o.ev) && o.s.slot == s.slot && forall e :: e in o.ev ==> !e.Sent?;
    }
  }

  lemma RegRequestNoPeriodic(s: Mac, uuid: u64, attach: Attach)
    ensures var o := RxRegRequest(s, uuid, attach);
            NoPeriodic(o.ev) && o.s.slot == s.slot && forall e :: e in o.ev ==> !e.Sent?
  {
  }

  lemma HandleNoPeriodic(s: Mac, from: Option<nat>, f: Frame)
    requires from.Some? ==> from.value <= COORD
    requires s.params.coordinator
    ensures var o := Handle(s, from, f);
            NoPeriodic(o.ev) && o.s.slot == s.slot && forall e :: e in o.ev ==> !e.Sent?
  {
    match f.body {
      case RegRequest(uuid, attach) => RegRequestNoPeriodic(s, uuid, attach);
      case DeregRequest(uuid, _) => DeregNoPeriodic(s, f.h.src, uuid);
      case _ =>
    }
  }

  lemma RecvNoPeriodic(s: Mac, f: Frame, ackSent: bool)
    requires s.params.coordinator
    ensures NoPeriodic(Recv(s, f, ackSent).ev) && Recv(s, f, ackSent).s.slot == s.slot
  {
    if Admits(s, f.h) && !Stranger(s, f.h) {
      PreludeNoPeriodic(s, f, ackSent);
      HandleNoPeriodic(Prelude(s, f, ackSent).s, SourceOf(s, f.h), f);
    }
  }

  /** The step moves the slot counter on a tick, and sends a periodic beacon on a tick when one is due. */
  predicate Beat(s: Mac, o: Out, tick: bool) {
    && o.s.params == s.params
    && o.s.slot == (if tick then (s.slot + 1) % 0x1_0000 else s.slot)
    && Periodics(o.ev) == if tick && BeaconDue(o.s) then 1 else 0
  }

  lemma StepBeats(s: Mac, i: Input)
    requires s.params.coordinator
    ensures Beat(s, Step(s, i), i.DoTick?)
  {
    match i {
      case DoSend(dest, flags, body, validity, cb) =>
        NoPeriodicZero(Step(s, i).ev);
      case DoReceive(f, ackSent) =>
        RecvNoPeriodic(s, f, ackSent);
        NoPeriodicZero(Step(s, i).ev);
      case DoTick =>
        TickPeriodics(s);
      case DoPermit(permit) =>
    }
  }

  /** How many of the `n` counts after `a` are congruent to `c`. */
  function Hits(a: nat, n: nat, m: nat, c: nat): nat
    requires m > 0
  {
    if n == 0 then 0 else Hits(a, n - 1, m, c) + if (a + n) % m == c then 1 else 0
  }

  lemma OnlyHit(a: nat, n: nat, m: nat, c: nat)
    requires c < m && 1 <= n <= m
    ensures (a + n) % m == c <==> n == 1 + (c - a - 1) % m
  {
    var x := c - a - 1;
    var h := 1 + x % m;
    assert x == m * (x / m) + x % m;
    assert c - a - h == m * (x / m);
    assert a + h == c + m * (-(x / m));
    ModShift(c, m, -(x / m));
    assert (a + h) % m == c;
    if (a + n) % m == c && n != h {
      var q, r := (a + n) / m, (a + h) / m;
      assert a + n == m * q + c && a + h == m * r + c;
      assert n - h == m * (q - r);
      SmallMultiple(n - h, m, q - r);
      assert false;
    }
  }

  lemma ModShift(c: nat, m: nat, k: int)
    requires c < m && c + m * k >= 0
    ensures (c + m * k) % m == c
  {
    var d := (c + m * k) / m;
    var r := (c + m * k) % m;
    assert c - r == m * (d - k);
    SmallMultiple(c - r, m, d - k);
  }

  lemma MulAtLeast(m: nat, k: nat)
    requires k >= 1
    ensures m * k >= m
  {
  }

  lemma SmallMultiple(d: int, m: nat, k: int)
    requires 0 - m < d < m && d == m * k
    ensures d == 0
  {
    if k >= 1 {
      MulAtLeast(m, k);
    } else if k <= -1 {
      MulAtLeast(m, -k);
    }
  }

  lemma {:induction false} HitsUpTo(a: nat, n: nat, m: nat, c: nat)
    requires c < m && n <= m
    ensures Hits(a, n, m, c) == if n >= 1 + (c - a - 1) % m then 1 else 0
  {
    if n == 0 {
    } else {
      HitsUpTo(a, n - 1, m, c);
      OnlyHit(a, n, m, c);
    }
  }

  lemma {:induction false} Pow2Sum(j: nat, k: nat)
    ensures Pow2(j + k) == Pow2(j) * Pow2(k)
  {
    if j == 0 {
    } else {
      Pow2Sum(j - 1, k);
      assert Pow2(j) * Pow2(k) == 2 * (Pow2(j - 1) * Pow2(k));
    }
  }

  lemma ModOfMod(x: nat, m: nat, q: nat)
    requires m > 0 && q > 0
    ensures m * q > 0 && x % (m * q) % m == x % m
  {
    var r := x % (m * q);
    var d := x / (m * q);
    assert m * q > 0;
    assert x == m * q * d + r;
    assert r == m * (r / m) + r % m;
    assert x == r % m + m * (q * d + r / m);
    ModShift(r % m, m, q * d + r / m);
  }

  lemma Pow2Sixteen()
    ensures Pow2(16) == 0x1_0000
  {
    assert Pow2(8) == 0x100;
    Pow2Sum(8, 8);
  }

  lemma SlotResidue(n: nat, m: nat, q: nat)
    requires m > 0 && q > 0 && m * q == 0x1_0000
    ensures n % 0x1_0000 % m == n % m
  {
    ModOfMod(n, m, q);
  }

  lemma DueIff(s: Mac, n: nat)
    requires s.params.beaconInterval <= 15 && s.slot == n % 0x1_0000
    ensures BeaconDue(s) <==> n % Pow2(s.params.beaconInterval) == s.params.beaconOffset
  {
    var k := s.params.beaconInterval;
    Pow2Sum(k, 16 - k);
    Pow2Sixteen();
    SlotResidue(n, Pow2(k), Pow2(16 - k));
  }

  lemma SlotAdds(a: nat, n: nat)
    ensures ((a + n) % 0x1_0000 + 1) % 0x1_0000 == (a + n + 1) % 0x1_0000
  {
  }

  /** After `n` ticks the slot counter has advanced `n`, and the beacons are those that fell due. */
  predicate InStep(s: Mac, o: Out, n: nat)
    requires s.params.beaconInterval <= 15
  {
    && o.s.params == s.params && o.s.slot == (s.slot + n) % 0x1_0000
    && Periodics(o.ev) == Hits(s.slot, n, Pow2(s.params.beaconInterval), s.params.beaconOffset)
  }

  lemma NextHit(a: nat, n: nat, m: nat, c: nat, due: bool)
    requires m > 0 && (due <==> (a + n + 1) % m == c)
    ensures Hits(a, n + 1, m, c) == Hits(a, n, m, c) + if due then 1 else 0
  {
  }

  lemma BeatInStep(s: Mac, a: Out, b: Out, n: nat, tick: bool)
    requires s.params.beaconInterval <= 15 && InStep(s, a, n) && Beat(a.s, b, tick)
    ensures InStep(s, Out(b.s, a.ev + b.ev), if tick then n + 1 else n)
  {
    PeriodicsConcat(a.ev, b.ev);
    if tick {
      SlotAdds(s.slot, n);
      DueIff(b.s, s.slot + n + 1);
      NextHit(s.slot, n, Pow2(s.params.beaconInterval), s.params.beaconOffset, BeaconDue(b.s));
    }
  }

  lemma {:induction false} RunInStep(s: Mac, ins: seq<Input>)
    requires s.params.coordinator && s.params.beaconInterval <= 15
    ensures InStep(s, Run(s, ins), Ticks(ins))
  {
    if ins == [] {
    } else {
      var init, i := ins[..|ins| - 1], ins[|ins| - 1];
      var a := Run(s, init);
      RunInStep(s, init);
      StepBeats(a.s, i);
      BeatInStep(s, a, Step(a.s, i), Ticks(init), i.DoTick?);
    }
  }

  /** Any run of calls with 2^k ticks in it sends exactly one periodic beacon, wherever the 16-bit
      slot counter stands when it starts. */
  lemma BeaconSchedule(s: Mac, ins: seq<Input>)
    requires s.params.coordinator && s.params.beaconInterval <= 15
    requires s.params.beaconOffset < Pow2(s.params.beaconInterval)
    requires Ticks(ins) == Pow2(s.params.beaconInterval)
    ensures Periodics(Run(s, ins).ev) == 1
  {
    RunInStep(s, ins);
    HitsUpTo(s.slot, Ticks(ins), Ticks(ins), s.params.beaconOffset);
  }

  // The pending list

  lemma {:induction false} PendingAddrsExact(t: NodeTable, i: nat, addr: byte)
    requires i <= MAX_NODES
    ensures addr in PendingAddrs(t, i) <==> exists j :: i <= j < MAX_NODES && t[j].state == SendPending && t[j].addr == addr
    decreases |t| - i
  {
    if i == MAX_NODES {
    } else {
      PendingAddrsExact(t, i + 1, addr);
    }
  }

  lemma BeaconListsPending(s: Mac, addr: byte)
    requires Safe(s.nodes)
    ensures addr in BeaconFrame(s, true).body.addrs <==>
            1 <= addr <= MAX_NODES && s.nodes[addr - 1].state == SendPending
  {
    var t := s.nodes;
    PendingAddrsExact(t, 0, addr);
    if addr in PendingAddrs(t, 0) {
      var j :| 0 <= j < MAX_NODES && t[j].state == SendPending && t[j].addr == addr;
      assert t[j].addr == j + 1;
    } else if 1 <= addr <= MAX_NODES {
      assert t[addr - 1].addr == addr;
    }
  }

  /** Strictly increasing, from above `i`. */
  predicate Rising(a: seq<byte>, i: nat) {
    && (forall x :: 0 <= x < |a| ==> a[x] > i)
    && (forall x, y :: 0 <= x < y < |a| ==> a[x] < a[y])
  }

  lemma RisingCons(first: byte, a: seq<byte>, i: nat)
    requires Rising(a, first) && first > i
    ensures Rising([first] + a, i)
  {
    var b := [first] + a;
    forall x | 0 <= x < |b| ensures b[x] > i && (x > 0 ==> b[x] == a[x - 1]) {
      if x > 0 {
        assert a[x - 1] > first;
      }
    }
  }

  lemma {:induction false} PendingAddrsRising(t: NodeTable, i: nat)
    requires i <= MAX_NODES && Safe(t)
    ensures Rising(PendingAddrs(t, i), i)
    decreases |t| - i
  {
    if i == MAX_NODES {
    } else {
      PendingAddrsRising(t, i + 1);
      if t[i].state == SendPending {
        assert t[i].addr == i + 1;
        RisingCons(t[i].addr, PendingAddrs(t, i + 1), i);
      } else {
        assert PendingAddrs(t, i) == PendingAddrs(t, i + 1);
      }
    }
  }

  lemma TickPeriodic(s: Mac, e: Event)
    requires s.params.coordinator && e in Tick(s).ev && IsPeriodic(e)
    ensures e.frame.body.addrs == PendingAddrs(s.nodes, 0)
  {
    var b := BeaconTick(s);
    TickNodesNoPeriodic(b.s);
    assert e in b.ev;
  }

  lemma TickLists(s: Mac, e: Event)
    requires s.params.coordinator && Safe(s.nodes) && e in Tick(s).ev && IsPeriodic(e)
    ensures var a := e.frame.body.addrs;
            && (forall addr :: addr in a <==> 1 <= addr <= MAX_NODES && s.nodes[addr - 1].state == SendPending)
            && Rising(a, 0)
  {
    TickPeriodic(s, e);
    PendingAddrsRising(s.nodes, 0);
    forall addr: byte
      ensures addr in e.frame.body.addrs <==> 1 <= addr <= MAX_NODES && s.nodes[addr - 1].state == SendPending
    {
      BeaconListsPending(s, addr);
    }
  }

  /** In every run of a coordinator from switching on with nonzero UUIDs, a periodic beacon is sent only by
      a tick, and lists exactly the slots that hold a deferred packet at that point, each once. */
  lemma PeriodicListsPending(params: Params, mtu: nat, net: byte, dseq: byte, bseq: byte, ins: seq<Input>, i: Input, e: Event)
    requires params.coordinator && AllNamed(ins)
    requires e in Step(Run(Init(params, mtu, net, dseq, bseq), ins).s, i).ev && IsPeriodic(e)
    ensures i.DoTick?
    ensures var t := Run(Init(params, mtu, net, dseq, bseq), ins).s.nodes;
            var a := e.frame.body.addrs;
            && (forall addr :: addr in a <==> 1 <= addr <= MAX_NODES && t[addr - 1].state == SendPending)
            && Rising(a, 0)
  {
    var s := Run(Init(params, mtu, net, dseq, bseq), ins).s;
    RunTidy(params, mtu, net, dseq, bseq, ins);
    RunParams(Init(params, mtu, net, dseq, bseq), ins);
    match i {
      case DoSend(dest, flags, body, validity, cb) =>
      case DoReceive(f, ackSent) =>
        RecvNoPeriodic(s, f, ackSent);
      case DoTick =>
        TickLists(s, e);
      case DoPermit(permit) =>
    }
  }

  // Polling and flushing

  /** How often an event occurs in a log. */
  function Count(ev: seq<Event>, e: Event): nat
    decreases |ev|
  {
    if ev == [] then 0 else (if ev[0] == e then 1 else 0) + Count(ev[1..], e)
  }

  lemma {:induction false} CountConcat(a: seq<Event>, b: seq<Event>, e: Event)
    ensures Count(a + b, e) == Count(a, e) + Count(b, e)
    decreases |a|
  {
    if a == [] {
      assert a + b == b;
    } else {
      assert (a + b)[1..] == a[1..] + b;
      CountConcat(a[1..], b, e);
    }
  }

  lemma {:induction false} CountAbsent(ev: seq<Event>, e: Event)
    requires e !in ev
    ensures Count(ev, e) == 0
    decreases |ev|
  {
    if ev == [] {
    } else {
      CountAbsent(ev[1..], e);
    }
  }

  predicate IsPoll(e: Event) {
    (e.Sent? || e.SentDirect? || e.SentMac?) && e.frame.body.Poll?
  }

  function Polls(ev: seq<Event>): nat
    decreases |ev|
  {
    if ev == [] then 0 else (if IsPoll(ev[0]) then 1 else 0) + Polls(ev[1..])
  }

  lemma {:induction false} PollsConcat(a: seq<Event>, b: seq<Event>)
    ensures Polls(a + b) == Polls(a) + Polls(b)
    decreases |a|
  {
    if a == [] {
      assert a + b == b;
    } else {
      assert (a + b)[1..] == a[1..] + b;
      PollsConcat(a[1..], b);
    }
  }

  lemma {:induction false} NoPolls(ev: seq<Event>)
    requires forall e :: e in ev ==> !IsPoll(e)
    ensures Polls(ev) == 0
    decreases |ev|
  {
    if ev == [] {
    } else {
      assert ev[0] in ev;
      NoPolls(ev[1..]);
    }
  }

  // A coordinator never sleeps, so a client never defers a packet to it

  predicate Attentive(n: Node) { !n.flags.sleepy && n.state != SendPending }

  lemma HearAttentive(s: Mac, k: nat, n: Node, h: Header, ackSent: bool)
    requires Attentive(n)
    ensures var o := HearNode(s, k, n, h, ackSent);
            && o.n == n.(lastHeard := s.tick) && (forall e :: e in o.ev ==> !IsPoll(e))
  {
  }

  lemma SendToAttentive(s: Mac, flags: Flags, body: Body, validity: u16, cb: Callback)
    requires Attentive(s.coord)
    ensures Attentive(SendTo(s, COORD, flags, body, validity, cb).s.coord)
  {
  }

  lemma HandleAttentive(s: Mac, from: Option<nat>, f: Frame)
    requires !s.params.coordinator && Attentive(s.coord) && (from.Some? ==> from.value == COORD)
    ensures Attentive(Handle(s, from, f).s.coord)
  {
    if f.body.Beacon? {
      SendToAttentive(Bound(s, f), PLAIN, RegRequest(s.params.uuid, s.params.flags), 0, NoCallback);
    }
  }

  lemma TickAttentive(s: Mac)
    requires !s.params.coordinator && Attentive(s.coord)
    ensures Attentive(Tick(s).s.coord)
  {
    var b := RequestBeacon(s);
    var a := PutCoord(b.s, DespatchAck(COORD, b.s.coord, s.tick));
    assert Attentive(b.s.coord) && Attentive(a.s.coord);
    var v := PutCoord(a.s, DespatchValidity(COORD, a.s.coord, s.tick));
    assert Attentive(v.s.coord);
  }

  lemma StepAttentive(s: Mac, i: Input)
    requires !s.params.coordinator && Attentive(s.coord)
    ensures Attentive(Step(s, i).s.coord)
  {
    match i {
      case DoSend(dest, flags, body, validity, cb) =>
      case DoReceive(f, ackSent) =>
        if Admits(s, f.h) && !Stranger(s, f.h) {
          HearAttentive(s, COORD, s.coord, f.h, ackSent);
          HandleAttentive(Prelude(s, f, ackSent).s, SourceOf(s, f.h), f);
        }
      case DoTick => TickAttentive(s);
      case DoPermit(permit) =>
    }
  }

  lemma {:induction false} RunAttentive(params: Params, mtu: nat, net: byte, dseq: byte, bseq: byte, ins: seq<Input>)
    requires !params.coordinator
    ensures Attentive(Run(Init(params, mtu, net, dseq, bseq), ins).s.coord)
    decreases |ins|
  {
    var s := Init(params, mtu, net, dseq, bseq);
    if ins == [] {
    } else {
      RunAttentive(params, mtu, net, dseq, bseq, ins[..|ins| - 1]);
      RunParams(s, ins[..|ins| - 1]);
      StepAttentive(Run(s, ins[..|ins| - 1]).s, ins[|ins| - 1]);
    }
  }

  /** The frame is a beacon that the client takes, that lists it, and that finds its coordinator record
      idle. */
  predicate PollDue(s: Mac, f: Frame) {
    && s.client == ClientRegistered && Admits(s, f.h) && !Stranger(s, f.h)
    && f.body.Beacon? && s.addr in f.body.addrs && s.coord.state == Registered && Fits(s, Poll)
  }

  lemma HandlePolls(s: Mac, from: Option<nat>, f: Frame)
    requires !s.params.coordinator && Attentive(s.coord) && (from.Some? ==> from.value == COORD)
    ensures Polls(Handle(s, from, f).ev) ==
            if s.client == ClientRegistered && f.body.Beacon? && s.addr in f.body.addrs && s.coord.state == Registered && Fits(s, Poll)
            then 1 else 0
  {
    var ev := Handle(s, from, f).ev;
    if s.client == ClientRegistered && f.body.Beacon? && s.addr in f.body.addrs && s.coord.state == Registered && Fits(s, Poll) {
      assert |ev| == 1 && IsPoll(ev[0]) && ev[1..] == [];
    } else {
      NoPolls(ev);
    }
  }

  lemma RecvPolls(s: Mac, f: Frame, ackSent: bool)
    requires !s.params.coordinator && Attentive(s.coord)
    ensures Polls(Recv(s, f, ackSent).ev) == if PollDue(s, f) then 1 else 0
  {
    if Admits(s, f.h) && !Stranger(s, f.h) {
      var p := Prelude(s, f, ackSent);
      HearAttentive(s, COORD, s.coord, f.h, ackSent);
      NoPolls(p.ev);
      HandlePolls(p.s, SourceOf(s, f.h), f);
      PollsConcat(p.ev, Handle(p.s, SourceOf(s, f.h), f).ev);
    }
  }

  /** In every run of a client from switching on, a call that receives a frame polls exactly once if the
      frame is a beacon that the client takes and that lists it while its coordinator record is idle, and
      not at all otherwise. */
  lemma PollsOnce(params: Params, mtu: nat, net: byte, dseq: byte, bseq: byte, ins: seq<Input>, f: Frame, ackSent: bool)
    requires !params.coordinator
    ensures var s := Run(Init(params, mtu, net, dseq, bseq), ins).s;
            Polls(Recv(s, f, ackSent).ev) == if PollDue(s, f) then 1 else 0
  {
    RunAttentive(params, mtu, net, dseq, bseq, ins);
    RunParams(Init(params, mtu, net, dseq, bseq), ins);
    RecvPolls(Run(Init(params, mtu, net, dseq, bseq), ins).s, f, ackSent);
  }

  lemma FlushCount(k: nat, n: Node, now: nat, e: Event)
    requires e == Sent(k, n.pending)
    ensures Count(Flush(k, n, now).ev, e) == if n.state == SendPending then 1 else 0
    ensures Flush(k, n, now).n.state != SendPending && Flush(k, n, now).n.pending == n.pending
  {
    var ev := Flush(k, n, now).ev;
    if ev != [] {
      assert ev == [e] + ev[1..];
      CountConcat([e], ev[1..], e);
      CountAbsent(ev[1..], e);
      assert [e][1..] == [];
    }
  }

  lemma FlushOnce(s: Mac, k: nat, n: Node, h: Header, ackSent: bool)
    requires n.state == SendPending
    ensures var o := HearNode(s, k, n, h, ackSent);
            Count(o.ev, Sent(k, n.pending)) == 1 && o.n.state != SendPending
  {
    var e := Sent(k, n.pending);
    var n1 := n.(lastHeard := s.tick);
    var ack := if h.flags.wantsAck then [SentMac(AckFrame(s, n1, h.seqno))] else [];
    var a := if !h.flags.wantsAck || !ackSent then NodeOut(n1, []) else Flush(k, n1, s.tick);
    var b := Flush(k, a.n, s.tick);
    CountAbsent(ack, e);
    FlushCount(k, n1, s.tick, e);
    FlushCount(k, a.n, s.tick, e);
    CountConcat(ack, a.ev, e);
    CountConcat(ack + a.ev, b.ev, e);
  }

  lemma DeregDefersNothing(s: Mac, src: byte, uuid: u64, k: nat)
    requires k < MAX_NODES && s.nodes[k].state != SendPending
    ensures RxDeregRequest(s, src, uuid).s.nodes[k].state != SendPending
  {
    var j := Leaving(s.nodes, src, uuid);
    if s.params.coordinator && j < MAX_NODES && j != k {
      assert SendTo(s, j, PLAIN, RegResponse(uuid, UNASSIGNED, STATUS_SUCCESS), 0, NoCallback).s.nodes[k] == s.nodes[k];
    }
  }

  lemma RegDefersNothing(s: Mac, uuid: u64, attach: Attach, k: nat)
    requires k < MAX_NODES && s.nodes[k].state != SendPending
    ensures RxRegRequest(s, uuid, attach).s.nodes[k].state != SendPending
  {
  }

  lemma HandleDefersNothing(s: Mac, from: Option<nat>, f: Frame, k: nat)
    requires from.Some? ==> from.value <= COORD
    requires s.params.coordinator && k < MAX_NODES && s.nodes[k].state != SendPending
    ensures Handle(s, from, f).s.nodes[k].state != SendPending
  {
    match f.body {
      case RegRequest(uuid, attach) => RegDefersNothing(s, uuid, attach, k);
      case DeregRequest(uuid, _) => DeregDefersNothing(s, f.h.src, uuid, k);
      case _ =>
    }
  }

  /** Any frame a coordinator takes from a live slot sends that slot's deferred packet exactly once
      in the same call, whether or not it was also acknowledged, and leaves nothing deferred. */
  lemma FlushedExactlyOnce(s: Mac, f: Frame, ackSent: bool, k: nat)
    requires s.params.coordinator && Admits(s, f.h) && SourceOf(s, f.h) == Some(k)
    requires k < MAX_NODES && s.nodes[k].state == SendPending
    ensures var o := Recv(s, f, ackSent);
            Count(o.ev, Sent(k, s.nodes[k].pending)) == 1 && o.s.nodes[k].state != SendPending
  {
    var p := Prelude(s, f, ackSent);
    FlushOnce(s, k, s.nodes[k], f.h, ackSent);
    HandleDefersNothing(p.s, Some(k), f, k);
    HandleNoPeriodic(p.s, Some(k), f);
    var h := Handle(p.s, Some(k), f);
    CountAbsent(h.ev, Sent(k, s.nodes[k].pending));
    CountConcat(p.ev, h.ev, Sent(k, s.nodes[k].pending));
  }
}
