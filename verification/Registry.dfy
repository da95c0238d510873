/** Address allocation: what every run of a coordinator keeps of its 32-slot node registry. */
module Registry {
  import opened Words
  import opened MacTypes
  import opened MacSlot
  import opened MacMachine

  /** A slot that has never been allocated. */
  predicate Dormant(n: Node) {
    n.uuid == 0 && n.state == Unregistered && n.ackTimer.Off? && n.validityTimer.Off?
  }

  /** Slot i has address i+1, no UUID is stored twice, and UUID 0 marks untouched slots. */
  predicate Safe(t: NodeTable) {
    && (forall i :: 0 <= i < MAX_NODES ==> t[i].addr == i + 1)
    && (forall i, j :: 0 <= i < j < MAX_NODES && t[i].uuid == t[j].uuid ==> t[i].uuid == 0)
    && (forall i :: 0 <= i < MAX_NODES && t[i].uuid == 0 ==> Dormant(t[i]))
  }

  // Lookups

  lemma LookupIsIndexing(t: NodeTable, addr: byte)
    requires Safe(t)
    ensures FirstAddr(t, addr, 0) ==
            if 1 <= addr <= MAX_NODES && Live(t[addr - 1]) then addr - 1 else MAX_NODES
  {
    var k := FirstAddr(t, addr, 0);
    if 1 <= addr <= MAX_NODES && Live(t[addr - 1]) {
      assert AnswersTo(t[addr - 1], addr);
    }
  }

  /** A request is turned away exactly when its UUID is unknown and every slot is live. */
  lemma NetworkFullIff(t: NodeTable, uuid: u64)
    requires Safe(t) && uuid != 0
    ensures SlotFor(t, uuid) == MAX_NODES <==>
            forall j :: 0 <= j < MAX_NODES ==> t[j].uuid != uuid && Live(t[j])
  {
    var k := FirstUuid(t, uuid, 0);
    var z := FirstUuid(t, 0, 0);
    if k == MAX_NODES && z == MAX_NODES {
      var u := FirstUnregistered(t, 0);
      assert u < MAX_NODES ==> !Live(t[u]);
    } else if k == MAX_NODES {
      assert Dormant(t[z]);
    }
  }

  lemma FreeNodeIsFree(t: NodeTable)
    requires Safe(t) && FreeNode(t) < MAX_NODES
    ensures !Live(t[FreeNode(t)])
  {
    var z := FirstUuid(t, 0, 0);
    if z < MAX_NODES {
      assert Dormant(t[z]);
    }
  }

  /** A slot handed out already belongs to the UUID, or was free; the slot of a known UUID is its own. */
  lemma SlotForOwner(t: NodeTable, uuid: u64)
    requires Safe(t) && uuid != 0
    ensures var k := SlotFor(t, uuid);
            && (k < MAX_NODES ==> t[k].uuid == uuid || !Live(t[k]))
            && (k < MAX_NODES && t[k].uuid != uuid ==> forall j :: 0 <= j < MAX_NODES ==> t[j].uuid != uuid)
            && (forall j :: 0 <= j < MAX_NODES && t[j].uuid == uuid ==> k == j)
  {
    if FirstUuid(t, uuid, 0) == MAX_NODES && FreeNode(t) < MAX_NODES {
      FreeNodeIsFree(t);
    }
  }

  lemma EnrolSafe(t: NodeTable, uuid: u64, attach: Attach, now: nat)
    requires Safe(t) && uuid != 0 && SlotFor(t, uuid) < MAX_NODES
    ensures var k := SlotFor(t, uuid);
            Safe(t[k := Enrol(t[k], uuid, attach, now)])
  {
    SlotForOwner(t, uuid);
  }

  // Frames that grant an address

  predicate Grants(f: Frame) {
    f.body.RegResponse? && f.body.status == STATUS_SUCCESS && f.body.addr != UNASSIGNED
  }

  predicate Emits(e: Event, f: Frame) {
    (e.Sent? || e.SentDirect? || e.SentMac?) && e.frame == f
  }

  /** No frame of the log grants an address. */
  ghost predicate NoGrant(ev: seq<Event>) {
    forall e, f :: e in ev && Emits(e, f) ==> !Grants(f)
  }

  /** A node record stays what the registry knows of it. */
  predicate Kin(n: Node, n': Node) {
    && n'.addr == n.addr && n'.uuid == n.uuid
    && (Dormant(n) ==> n' == n)
    && (!Grants(n.pending) ==> !Grants(n'.pending))
  }

  ghost predicate Plain(n: Node, o: NodeOut) {
    Kin(n, o.n) && (!Grants(n.pending) ==> NoGrant(o.ev))
  }

  lemma PlainThen(n: Node, o: NodeOut, p: NodeOut)
    requires Plain(n, o) && Plain(o.n, p)
    ensures Plain(n, NodeOut(p.n, o.ev + p.ev))
  {
  }

  lemma TransmitPlain(k: nat, n: Node, f: Frame, validity: u16, cb: Callback, now: nat)
    requires !Grants(f)
    ensures Plain(n, Transmit(k, n, f, validity, cb, now))
  {
  }

  lemma FlushPlain(k: nat, n: Node, now: nat)
    ensures Plain(n, Flush(k, n, now))
  {
  }

  lemma HearNodePlain(s: Mac, k: nat, n: Node, h: Header, ackSent: bool)
    requires Live(n)
    ensures Plain(n, HearNode(s, k, n, h, ackSent))
  {
    var n1 := n.(lastHeard := s.tick);
    var e := if h.flags.wantsAck then [SentMac(AckFrame(s, n1, h.seqno))] else [];
    var a := if !h.flags.wantsAck || !ackSent then NodeOut(n1, []) else Flush(k, n1, s.tick);
    FlushPlain(k, n1, s.tick);
    FlushPlain(k, a.n, s.tick);
    PlainThen(n, NodeOut(n1, e), a);
    PlainThen(n, NodeOut(a.n, e + a.ev), Flush(k, a.n, s.tick));
  }

  lemma TickNodePlain(k: nat, n: Node, now: nat)
    ensures Plain(n, TickNode(k, n, now))
  {
    var h := Heartbeat(k, n, now);
    var a := DespatchAck(k, h.n, now);
    var v := DespatchValidity(k, a.n, now);
    PlainThen(h.n, a, v);
    PlainThen(n, h, Despatch(k, h.n, now));
  }

  // Steps

  predicate Tidy(s: Mac) {
    Safe(s.nodes) && forall k :: 0 <= k <= COORD ==> !Grants(GetNode(s, k).pending)
  }

  /** The step keeps the registry tidy, moves no UUID and grants no address. */
  ghost predicate Keeps(s: Mac, o: Out) {
    && Tidy(o.s) && NoGrant(o.ev)
    && forall j :: 0 <= j < MAX_NODES ==> o.s.nodes[j].uuid == s.nodes[j].uuid
  }

  lemma KeepsThen(s: Mac, o: Out, p: Out)
    requires Keeps(s, o) && Keeps(o.s, p)
    ensures Keeps(s, Out(p.s, o.ev + p.ev))
  {
  }

  lemma SameKeeps(s: Mac, s': Mac, ev: seq<Event>)
    requires Tidy(s) && s'.nodes == s.nodes && s'.coord == s.coord && NoGrant(ev)
    ensures Keeps(s, Out(s', ev))
  {
    forall k | 0 <= k <= COORD ensures !Grants(GetNode(s', k).pending) {
      assert !Grants(GetNode(s, k).pending);
    }
  }

  lemma KinSafe(t: NodeTable, t': NodeTable)
    requires Safe(t) && forall j :: 0 <= j < MAX_NODES ==> Kin(t[j], t'[j])
    ensures Safe(t')
  {
  }

  lemma PutSlotKeeps(s: Mac, k: nat, o: NodeOut)
    requires Tidy(s) && k < MAX_NODES && Plain(s.nodes[k], o)
    ensures Keeps(s, Put(s, k, o))
  {
    var s' := Put(s, k, o).s;
    assert !Grants(GetNode(s, k).pending);
    KinSafe(s.nodes, s'.nodes);
    forall j | 0 <= j <= COORD ensures !Grants(GetNode(s', j).pending) {
      assert !Grants(GetNode(s, j).pending);
    }
  }

  lemma CoordKeeps(s: Mac, s': Mac, ev: seq<Event>)
    requires Tidy(s) && s'.nodes == s.nodes && !Grants(s'.coord.pending) && NoGrant(ev)
    ensures Keeps(s, Out(s', ev))
  {
    forall k | 0 <= k <= COORD ensures !Grants(GetNode(s', k).pending) {
      assert !Grants(GetNode(s, k).pending);
    }
  }

  lemma PutKeepsRegistry(s: Mac, k: nat, o: NodeOut)
    requires Tidy(s) && k <= COORD && Plain(GetNode(s, k), o)
    ensures Keeps(s, Put(s, k, o))
  {
    if k < MAX_NODES {
      PutSlotKeeps(s, k, o);
    } else {
      assert !Grants(GetNode(s, COORD).pending);
      CoordKeeps(s, Put(s, k, o).s, o.ev);
    }
  }

  lemma SendToKeepsRegistry(s: Mac, k: nat, flags: Flags, body: Body, validity: u16, cb: Callback)
    requires Tidy(s) && k <= COORD
    requires !(body.RegResponse? && body.addr != UNASSIGNED)
    ensures Keeps(s, SendTo(s, k, flags, body, validity, cb))
  {
    if Fits(s, body) {
      var n := GetNode(s, k);
      var f := Frame(NextHeader(s, flags, n.addr), body);
      var s1 := s.(dseq := s.dseq + 1);
      SameKeeps(s, s1, []);
      TransmitPlain(k, n, f, validity, cb, s.tick);
      PutKeepsRegistry(s1, k, Transmit(k, n, f, validity, cb, s.tick));
    } else {
      SameKeeps(s, s, []);
    }
  }

  lemma BeaconKeepsRegistry(s: Mac, f: Frame)
    requires Tidy(s) && f.body.Beacon?
    ensures Keeps(s, RxBeacon(s, f))
  {
    var o := RxBeacon(s, f);
    if !s.params.coordinator && Attaches(s, f) {
      assert !Grants(GetNode(s, COORD).pending);
      CoordKeeps(s, Bound(s, f), []);
      var req := RegRequest(s.params.uuid, s.params.flags);
      SendToKeepsRegistry(Bound(s, f), COORD, PLAIN, req, 0, NoCallback);
      var q := SendTo(Bound(s, f), COORD, PLAIN, req, 0, NoCallback);
      SameKeeps(q.s, o.s, q.ev);
    } else if !s.params.coordinator && s.client == ClientRegistered && s.addr in f.body.addrs {
      SendToKeepsRegistry(s, COORD, PLAIN, Poll, 0, NoCallback);
    } else {
      SameKeeps(s, o.s, []);
    }
  }

  lemma DeregKeepsRegistry(s: Mac, src: byte, uuid: u64)
    requires Tidy(s)
    ensures Keeps(s, RxDeregRequest(s, src, uuid))
  {
    var k := Leaving(s.nodes, src, uuid);
    if s.params.coordinator && k < MAX_NODES {
      var resp := RegResponse(uuid, UNASSIGNED, STATUS_SUCCESS);
      SendToKeepsRegistry(s, k, PLAIN, resp, 0, NoCallback);
      var o := SendTo(s, k, PLAIN, resp, 0, NoCallback);
      PutSlotKeeps(o.s, k, Deregister(k, o.s.nodes[k]));
      KeepsThen(s, o, Put(o.s, k, Deregister(k, o.s.nodes[k])));
    } else {
      SameKeeps(s, s, []);
    }
  }

  lemma HandleKeepsRegistry(s: Mac, from: Option<nat>, f: Frame)
    requires from.Some? ==> from.value <= COORD
    requires Tidy(s) && !(f.body.RegRequest? && s.params.coordinator)
    ensures Keeps(s, Handle(s, from, f))
  {
    var o := Handle(s, from, f);
    if f.body.Beacon? {
      BeaconKeepsRegistry(s, f);
    } else if f.body.DeregRequest? {
      DeregKeepsRegistry(s, f.h.src, f.body.uuid);
    } else if f.body.Ack? && from.Some? {
      PutKeepsRegistry(s, from.value, AckReceived(from.value, GetNode(s, from.value), f.h.seqno));
    } else {
      SameKeeps(s, o.s, o.ev);
    }
  }

  lemma PreludeKeepsRegistry(s: Mac, f: Frame, ackSent: bool)
    requires Tidy(s)
    ensures Keeps(s, Prelude(s, f, ackSent))
  {
    var from := SourceOf(s, f.h);
    if from.Some? {
      var n := GetNode(s, from.value);
      HearNodePlain(s, from.value, n, f.h, ackSent);
      PutKeepsRegistry(s, from.value, HearNode(s, from.value, n, f.h, ackSent));
    } else {
      SameKeeps(s, s, []);
    }
  }

  lemma {:induction false} JoinedNoGrant(parts: seq<seq<Event>>, i: nat)
    requires i <= |parts| && forall j :: 0 <= j < |parts| ==> NoGrant(parts[j])
    ensures NoGrant(Joined(parts, i))
    decreases |parts| - i
  {
    if i == |parts| {
    } else {
      JoinedNoGrant(parts, i + 1);
    }
  }

  lemma TickNodesKeepRegistry(s: Mac)
    requires Tidy(s)
    ensures Keeps(s, TickNodes(s))
  {
    var o := TickNodes(s);
    var parts := NodeTickEvents(s.nodes, s.tick);
    forall j | 0 <= j < MAX_NODES
      ensures Kin(s.nodes[j], o.s.nodes[j]) && NoGrant(parts[j]) && !Grants(GetNode(o.s, j).pending)
    {
      assert !Grants(GetNode(s, j).pending);
      TickNodePlain(j, s.nodes[j], s.tick);
    }
    KinSafe(s.nodes, o.s.nodes);
    JoinedNoGrant(parts, 0);
    assert !Grants(GetNode(s, COORD).pending);
  }

  lemma BeaconTickKeepsRegistry(s: Mac)
    requires Tidy(s)
    ensures Keeps(s, BeaconTick(s))
  {
    SameKeeps(s, BeaconTick(s).s, BeaconTick(s).ev);
  }

  lemma PutCoordKeepsRegistry(s: Mac, o: NodeOut)
    requires Tidy(s) && Plain(s.coord, o)
    ensures Keeps(s, PutCoord(s, o))
  {
    assert !Grants(GetNode(s, COORD).pending);
    CoordKeeps(s, PutCoord(s, o).s, o.ev);
  }

  lemma ClientTickKeepsRegistry(s: Mac)
    requires Tidy(s)
    ensures Keeps(s, ClientTick(s))
  {
    var b := RequestBeacon(s);
    SameKeeps(s, b.s, b.ev);
    var a := PutCoord(b.s, DespatchAck(COORD, b.s.coord, s.tick));
    PutCoordKeepsRegistry(b.s, DespatchAck(COORD, b.s.coord, s.tick));
    KeepsThen(s, b, a);
    var v := PutCoord(a.s, DespatchValidity(COORD, a.s.coord, s.tick));
    PutCoordKeepsRegistry(a.s, DespatchValidity(COORD, a.s.coord, s.tick));
    KeepsThen(s, Out(a.s, b.ev + a.ev), v);
    RequestTimeoutKeepsRegistry(v.s);
    KeepsThen(s, ClientTimers(s), DespatchRequest(v.s));
  }

  lemma RequestTimeoutKeepsRegistry(s: Mac)
    requires Tidy(s)
    ensures Keeps(s, DespatchRequest(s))
  {
    assert !Grants(GetNode(s, COORD).pending);
    CoordKeeps(s, DespatchRequest(s).s, DespatchRequest(s).ev);
  }

  lemma TickKeepsRegistry(s: Mac)
    requires Tidy(s)
    ensures Keeps(s, Tick(s))
  {
    if s.params.coordinator {
      var b := BeaconTick(s);
      BeaconTickKeepsRegistry(s);
      TickNodesKeepRegistry(b.s);
      KeepsThen(s, b, TickNodes(b.s));
      SameKeeps(CoordinatorTick(s).s, Tick(s).s, Tick(s).ev);
    } else {
      ClientTickKeepsRegistry(s);
      SameKeeps(ClientTick(s).s, Tick(s).s, Tick(s).ev);
    }
  }

  /** The slot and UUID that a step registers, if it registers one. */
  function Enrolment(s: Mac, i: Input): (r: Option<(nat, u64)>)
    ensures r.Some? ==> r.value.0 < MAX_NODES
  {
    if i.DoReceive? && s.params.coordinator && i.frame.body.RegRequest?
       && Admits(s, i.frame.h) && !Stranger(s, i.frame.h)
    then
      var k := SlotFor(Prelude(s, i.frame, i.ackSent).s.nodes, i.frame.body.uuid);
      if k < MAX_NODES then Some((k, i.frame.body.uuid)) else None
    else
      None
  }

  /** Only nonzero UUIDs ask to register. */
  predicate Named(i: Input) {
    i.DoReceive? && i.frame.body.RegRequest? ==> i.frame.body.uuid != 0
  }

  /** The log grants address `k + 1` to `uuid` and nothing else. */
  ghost predicate GrantsOnly(ev: seq<Event>, k: nat, uuid: u64) {
    forall e, f :: e in ev && Emits(e, f) && Grants(f) ==> f.body.uuid == uuid && f.body.addr == k + 1
  }

  /** The step stores `uuid` in slot `k`, moves no other UUID, and grants that address only. */
  ghost predicate Enrols(s: Mac, o: Out, k: nat, uuid: u64)
    requires k < MAX_NODES
  {
    && Tidy(o.s) && o.s.nodes[k].uuid == uuid && GrantsOnly(o.ev, k, uuid)
    && forall j :: 0 <= j < MAX_NODES && j != k ==> o.s.nodes[j].uuid == s.nodes[j].uuid
  }

  lemma KeepsThenEnrols(s: Mac, o: Out, p: Out, k: nat, uuid: u64)
    requires k < MAX_NODES && Keeps(s, o) && Enrols(o.s, p, k, uuid)
    ensures Enrols(s, Out(p.s, o.ev + p.ev), k, uuid)
  {
  }

  lemma EnrolEnrols(s: Mac, k: nat, n: Node, uuid: u64)
    requires Tidy(s) && k < MAX_NODES && n.uuid == uuid && Safe(s.nodes[k := n]) && n.pending == s.nodes[k].pending
    ensures Enrols(s, Out(SetNode(s, k, n), []), k, uuid)
  {
    forall j | 0 <= j <= COORD ensures !Grants(GetNode(SetNode(s, k, n), j).pending) {
      assert !Grants(GetNode(s, j).pending);
    }
  }

  lemma EnrolsThenSame(s: Mac, o: Out, s': Mac, ev: seq<Event>, k: nat, uuid: u64)
    requires k < MAX_NODES && Enrols(s, o, k, uuid) && GrantsOnly(ev, k, uuid)
    requires s'.nodes == o.s.nodes && s'.coord == o.s.coord
    ensures Enrols(s, Out(s', ev), k, uuid)
  {
    SameKeeps(o.s, s', []);
  }

  lemma RegRequestEnrols(s: Mac, uuid: u64, attach: Attach)
    requires Tidy(s) && uuid != 0 && s.params.coordinator && SlotFor(s.nodes, uuid) < MAX_NODES
    ensures Enrols(s, RxRegRequest(s, uuid, attach), SlotFor(s.nodes, uuid), uuid)
  {
    var o := RxRegRequest(s, uuid, attach);
    var k := SlotFor(s.nodes, uuid);
    var n := Enrol(s.nodes[k], uuid, attach, s.tick);
    EnrolSafe(s.nodes, uuid, attach, s.tick);
    EnrolEnrols(s, k, n, uuid);
    EnrolsThenSame(s, Out(SetNode(s, k, n), []), o.s, o.ev, k, uuid);
  }

  lemma RegRequestRefused(s: Mac, uuid: u64, attach: Attach)
    requires Tidy(s) && s.params.coordinator && SlotFor(s.nodes, uuid) == MAX_NODES
    ensures Keeps(s, RxRegRequest(s, uuid, attach))
  {
    var o := RxRegRequest(s, uuid, attach);
    SameKeeps(s, o.s, o.ev);
  }

  lemma RecvRequest(s: Mac, f: Frame, ackSent: bool, uuid: u64, attach: Attach)
    requires Tidy(s) && uuid != 0 && f.body == RegRequest(uuid, attach)
    requires s.params.coordinator && Admits(s, f.h) && !Stranger(s, f.h)
    ensures var o := Recv(s, f, ackSent);
            var k := SlotFor(Prelude(s, f, ackSent).s.nodes, uuid);
            if k == MAX_NODES then Keeps(s, o) else Enrols(s, o, k, uuid)
  {
    var p := Prelude(s, f, ackSent);
    PreludeKeepsRegistry(s, f, ackSent);
    var k := SlotFor(p.s.nodes, uuid);
    var h := RxRegRequest(p.s, uuid, attach);
    assert Recv(s, f, ackSent) == Out(h.s, p.ev + h.ev);
    if k == MAX_NODES {
      RegRequestRefused(p.s, uuid, attach);
      KeepsThen(s, p, h);
    } else {
      RegRequestEnrols(p.s, uuid, attach);
      KeepsThenEnrols(s, p, h, k, uuid);
    }
  }

  lemma RecvOther(s: Mac, f: Frame, ackSent: bool)
    requires Tidy(s)
    requires !(s.params.coordinator && f.body.RegRequest? && Admits(s, f.h) && !Stranger(s, f.h))
    ensures Keeps(s, Recv(s, f, ackSent))
  {
    if Admits(s, f.h) && !Stranger(s, f.h) {
      var p := Prelude(s, f, ackSent);
      PreludeKeepsRegistry(s, f, ackSent);
      HandleKeepsRegistry(p.s, SourceOf(s, f.h), f);
      KeepsThen(s, p, Handle(p.s, SourceOf(s, f.h), f));
    } else {
      SameKeeps(s, Recv(s, f, ackSent).s, Recv(s, f, ackSent).ev);
    }
  }

  lemma RecvRegistry(s: Mac, f: Frame, ackSent: bool)
    requires Tidy(s) && Named(DoReceive(f, ackSent))
    ensures var o := Recv(s, f, ackSent);
            var r := Enrolment(s, DoReceive(f, ackSent));
            if r.None? then Keeps(s, o) else Enrols(s, o, r.value.0, r.value.1)
  {
    if s.params.coordinator && f.body.RegRequest? && Admits(s, f.h) && !Stranger(s, f.h) {
      RecvRequest(s, f, ackSent, f.body.uuid, f.body.attach);
    } else {
      RecvOther(s, f, ackSent);
    }
  }

  /** Registry safety of one step, in every run with nonzero UUIDs. */
  lemma StepRegistry(s: Mac, i: Input)
    requires Tidy(s) && Named(i)
    ensures var o := Step(s, i);
            var r := Enrolment(s, i);
            if r.None? then Keeps(s, o) else Enrols(s, o, r.value.0, r.value.1)
  {
    match i {
      case DoSend(dest, flags, body, validity, cb) =>
        var r := Lookup(s, dest);
        if body.Data? && r.Some? {
          SendToKeepsRegistry(s, r.value, flags, body, SendValidity(GetNode(s, r.value), validity), cb);
        } else {
          SameKeeps(s, s, []);
        }
      case DoReceive(f, ackSent) =>
        RecvRegistry(s, f, ackSent);
      case DoTick =>
        TickKeepsRegistry(s);
      case DoPermit(permit) =>
        SameKeeps(s, Step(s, i).s, []);
    }
  }

  lemma PreludeLive(s: Mac, f: Frame, ackSent: bool, j: nat)
    requires j < MAX_NODES
    ensures Live(Prelude(s, f, ackSent).s.nodes[j]) <==> Live(s.nodes[j])
  {
  }

  /** A live slot is never handed to another UUID. */
  lemma LiveSlotKept(s: Mac, i: Input, j: nat)
    requires Tidy(s) && Named(i) && j < MAX_NODES && Live(s.nodes[j])
    ensures Step(s, i).s.nodes[j].uuid == s.nodes[j].uuid
  {
    StepRegistry(s, i);
    var r := Enrolment(s, i);
    if r.Some? && r.value.0 == j {
      PreludeKeepsRegistry(s, i.frame, i.ackSent);
      PreludeLive(s, i.frame, i.ackSent, j);
      SlotForOwner(Prelude(s, i.frame, i.ackSent).s.nodes, i.frame.body.uuid);
    }
  }

  // Sticky addresses

  /** Every UUID that asks to register is one of `us`. */
  predicate From(us: set<u64>, i: Input) {
    i.DoReceive? && i.frame.body.RegRequest? ==> i.frame.body.uuid in us
  }

  predicate Known(t: NodeTable, us: set<u64>) {
    forall j :: 0 <= j < MAX_NODES ==> t[j].uuid == 0 || t[j].uuid in us
  }

  /** Once a slot has a UUID it keeps it. */
  predicate Lasting(t: NodeTable, t': NodeTable) {
    forall j :: 0 <= j < MAX_NODES && t[j].uuid != 0 ==> t'[j].uuid == t[j].uuid
  }

  function Uuids(t: NodeTable): seq<u64> {
    seq(MAX_NODES, i requires 0 <= i < MAX_NODES => t[i].uuid)
  }

  function Members(q: seq<u64>): set<u64> {
    set u | u in q
  }

  lemma MembersAdd(q: seq<u64>, u: u64)
    ensures Members(q + [u]) == Members(q) + {u}
  {
  }

  lemma {:induction false} DistinctSize(q: seq<u64>)
    requires forall i, j :: 0 <= i < j < |q| ==> q[i] != q[j]
    ensures |Members(q)| == |q|
  {
    if q == [] {
    } else {
      var init, last := q[..|q| - 1], q[|q| - 1];
      DistinctSize(init);
      assert last !in Members(init);
      assert q == init + [last];
      MembersAdd(init, last);
    }
  }

  lemma {:induction false} SubsetSize(a: set<u64>, b: set<u64>)
    requires a <= b
    ensures |a| <= |b|
  {
    if a == {} {
    } else {
      var x :| x in a;
      SubsetSize(a - {x}, b - {x});
    }
  }

  /** Among at most 32 UUIDs, one that is not stored always finds an untouched slot. */
  lemma RoomForNewcomer(t: NodeTable, us: set<u64>, uuid: u64)
    requires Safe(t) && Known(t, us) && |us| <= MAX_NODES && uuid in us
    requires forall j :: 0 <= j < MAX_NODES ==> t[j].uuid != uuid
    ensures exists j :: 0 <= j < MAX_NODES && t[j].uuid == 0
  {
    if forall j :: 0 <= j < MAX_NODES ==> t[j].uuid != 0 {
      var q := Uuids(t);
      DistinctSize(q);
      SubsetSize(Members(q), us - {uuid});
      assert false;
    }
  }

  // When an address changes hands

  /** Every slot has been given to some other UUID. */
  predicate Crowded(t: NodeTable, uuid: u64) {
    forall j :: 0 <= j < MAX_NODES ==> t[j].uuid != 0 && t[j].uuid != uuid
  }

  /** The call is a request, taken by the coordinator, from a UUID that is not stored when no slot is untouched
      and some slot is not live. */
  predicate PassesOn(s: Mac, i: Input) {
    && i.DoReceive? && s.params.coordinator && i.frame.body.RegRequest?
    && Admits(s, i.frame.h) && !Stranger(s, i.frame.h)
    && Crowded(s.nodes, i.frame.body.uuid) && exists j :: 0 <= j < MAX_NODES && !Live(s.nodes[j])
  }

  /** The slot of another UUID is handed out exactly when all are, and one is not live. */
  lemma SlotTakenIff(t: NodeTable, uuid: u64)
    requires Safe(t) && uuid != 0
    ensures var k := SlotFor(t, uuid);
            k < MAX_NODES && t[k].uuid != 0 && t[k].uuid != uuid <==>
            Crowded(t, uuid) && exists j :: 0 <= j < MAX_NODES && !Live(t[j])
  {
    SlotForOwner(t, uuid);
    NetworkFullIff(t, uuid);
    if FirstUuid(t, uuid, 0) == MAX_NODES && FirstUuid(t, 0, 0) == MAX_NODES {
      assert Crowded(t, uuid);
    }
  }

  /** A call takes a slot away from a UUID exactly when it passes an address on. */
  lemma PassesOnIff(s: Mac, i: Input)
    requires Tidy(s) && Named(i)
    ensures PassesOn(s, i) <==> !Lasting(s.nodes, Step(s, i).s.nodes)
  {
    StepRegistry(s, i);
    var r := Enrolment(s, i);
    if i.DoReceive? && s.params.coordinator && i.frame.body.RegRequest? && Admits(s, i.frame.h) && !Stranger(s, i.frame.h) {
      var t := Prelude(s, i.frame, i.ackSent).s.nodes;
      PreludeKeepsRegistry(s, i.frame, i.ackSent);
      forall j | 0 <= j < MAX_NODES ensures Live(t[j]) <==> Live(s.nodes[j]) {
        PreludeLive(s, i.frame, i.ackSent, j);
      }
      SlotTakenIff(t, i.frame.body.uuid);
    }
  }

  /** Every address granted in the log is the address of the slot that stores that UUID. */
  ghost predicate Recorded(ev: seq<Event>, t: NodeTable) {
    forall e, f :: e in ev && Emits(e, f) && Grants(f) ==>
                     1 <= f.body.addr <= MAX_NODES && t[f.body.addr - 1].uuid == f.body.uuid && f.body.uuid != 0
  }

  /** The step leaves every stored UUID where it is, and records every grant. */
  ghost predicate Sticky(s: Mac, o: Out, us: set<u64>) {
    Tidy(o.s) && Known(o.s.nodes, us) && Lasting(s.nodes, o.s.nodes) && Recorded(o.ev, o.s.nodes)
  }

  lemma EnrolsSticky(s: Mac, o: Out, k: nat, uuid: u64, us: set<u64>)
    requires k < MAX_NODES && Known(s.nodes, us) && Enrols(s, o, k, uuid)
    requires uuid in us && uuid != 0 && Lasting(s.nodes, o.s.nodes)
    ensures Sticky(s, o, us)
  {
  }

  lemma KeepsSticky(s: Mac, o: Out, us: set<u64>)
    requires Known(s.nodes, us) && Keeps(s, o)
    ensures Sticky(s, o, us)
  {
  }

  lemma StickyThen(s: Mac, o: Out, p: Out, us: set<u64>)
    requires Sticky(s, o, us) && Sticky(o.s, p, us)
    ensures Sticky(s, Out(p.s, o.ev + p.ev), us)
  {
  }

  lemma StepSticky(s: Mac, i: Input, us: set<u64>)
    requires Tidy(s) && Known(s.nodes, us) && 0 !in us && From(us, i) && !PassesOn(s, i)
    ensures Sticky(s, Step(s, i), us)
  {
    StepRegistry(s, i);
    PassesOnIff(s, i);
    var r := Enrolment(s, i);
    if r.Some? {
      EnrolsSticky(s, Step(s, i), r.value.0, r.value.1, us);
    } else {
      KeepsSticky(s, Step(s, i), us);
    }
  }

  /** Among at most 32 UUIDs no address is ever passed on. */
  lemma RoomForAll(s: Mac, i: Input, us: set<u64>)
    requires Tidy(s) && Known(s.nodes, us) && |us| <= MAX_NODES && From(us, i)
    ensures !PassesOn(s, i)
  {
    if PassesOn(s, i) {
      RoomForNewcomer(s.nodes, us, i.frame.body.uuid);
    }
  }

  predicate AllFrom(us: set<u64>, ins: seq<Input>) {
    forall i :: i in ins ==> From(us, i)
  }

  lemma {:induction false} RunSticky(s: Mac, ins: seq<Input>, us: set<u64>)
    requires Tidy(s) && Known(s.nodes, us) && |us| <= MAX_NODES && 0 !in us && AllFrom(us, ins)
    ensures Sticky(s, Run(s, ins), us)
  {
    if ins == [] {
    } else {
      var init, i := ins[..|ins| - 1], ins[|ins| - 1];
      RunSticky(s, init, us);
      assert i in ins;
      RoomForAll(Run(s, init).s, i, us);
      StepSticky(Run(s, init).s, i, us);
      StickyThen(s, Run(s, init), Step(Run(s, init).s, i), us);
    }
  }

  lemma GrantsAgree(ev: seq<Event>, t: NodeTable, d: Event, f: Frame, e: Event, g: Frame)
    requires Safe(t) && Recorded(ev, t)
    requires d in ev && Emits(d, f) && Grants(f) && e in ev && Emits(e, g) && Grants(g)
    ensures f.body.uuid == g.body.uuid <==> f.body.addr == g.body.addr
  {
    var i, j := f.body.addr - 1, g.body.addr - 1;
    assert t[i].uuid == f.body.uuid && t[j].uuid == g.body.uuid;
  }

  /** Sticky, injective addressing.  In a run where at most 32 nonzero UUIDs ever ask to register,
      two grants are for the same UUID exactly when they name the same address. */
  lemma StickyAddressing(s: Mac, ins: seq<Input>, us: set<u64>, d: Event, f: Frame, e: Event, g: Frame)
    requires Tidy(s) && Known(s.nodes, us) && |us| <= MAX_NODES && 0 !in us && AllFrom(us, ins)
    requires d in Run(s, ins).ev && Emits(d, f) && Grants(f)
    requires e in Run(s, ins).ev && Emits(e, g) && Grants(g)
    ensures f.body.uuid == g.body.uuid <==> f.body.addr == g.body.addr
  {
    RunSticky(s, ins, us);
    GrantsAgree(Run(s, ins).ev, Run(s, ins).s.nodes, d, f, e, g);
  }

  lemma InitTidy(params: Params, mtu: nat, net: byte, dseq: byte, bseq: byte)
    ensures Tidy(Init(params, mtu, net, dseq, bseq))
  {
  }

  // Every run

  predicate AllNamed(ins: seq<Input>) {
    forall i :: i in ins ==> Named(i)
  }

  /** In every run from switching on with nonzero UUIDs: slot i has address i+1, no UUID is stored twice, and
      UUID 0 marks the slots that were never used. */
  lemma {:induction false} RunTidy(params: Params, mtu: nat, net: byte, dseq: byte, bseq: byte, ins: seq<Input>)
    requires AllNamed(ins)
    ensures Tidy(Run(Init(params, mtu, net, dseq, bseq), ins).s)
    decreases |ins|
  {
    if ins == [] {
      InitTidy(params, mtu, net, dseq, bseq);
    } else {
      var before, i := ins[..|ins| - 1], ins[|ins| - 1];
      assert i in ins;
      RunTidy(params, mtu, net, dseq, bseq, before);
      StepRegistry(Run(Init(params, mtu, net, dseq, bseq), before).s, i);
    }
  }

  /** In every such run, no call gives a live slot to another UUID. */
  lemma RunLiveSlotKept(params: Params, mtu: nat, net: byte, dseq: byte, bseq: byte, ins: seq<Input>, i: Input, j: nat)
    requires AllNamed(ins) && Named(i) && j < MAX_NODES
    ensures var s := Run(Init(params, mtu, net, dseq, bseq), ins).s;
            Live(s.nodes[j]) ==> Step(s, i).s.nodes[j].uuid == s.nodes[j].uuid
  {
    var s := Run(Init(params, mtu, net, dseq, bseq), ins).s;
    RunTidy(params, mtu, net, dseq, bseq, ins);
    if Live(s.nodes[j]) {
      LiveSlotKept(s, i, j);
    }
  }

  /** In every such run, a call takes an address away from the UUID that has it if and only if it is a
      request from a UUID that is not stored, when all 32 slots have been given out and some slot is not
      live. */
  lemma AddressPassedOnIff(params: Params, mtu: nat, net: byte, dseq: byte, bseq: byte, ins: seq<Input>, i: Input)
    requires AllNamed(ins) && Named(i)
    ensures var s := Run(Init(params, mtu, net, dseq, bseq), ins).s;
            !Lasting(s.nodes, Step(s, i).s.nodes) <==> PassesOn(s, i)
  {
    RunTidy(params, mtu, net, dseq, bseq, ins);
    PassesOnIff(Run(Init(params, mtu, net, dseq, bseq), ins).s, i);
  }

  // The answer to a request when there is no room

  predicate Refuses(e: Event) {
    e.SentMac? && e.frame.body.RegResponse? && e.frame.body.status == STATUS_NETWORK_FULL
  }

  predicate Full(t: NodeTable, uuid: u64) {
    forall j :: 0 <= j < MAX_NODES ==> Live(t[j]) && t[j].uuid != uuid
  }

  /** A request that reaches a coordinator which has no room for it and can answer. */
  predicate Refused(s: Mac, i: Input) {
    && i.DoReceive? && i.frame.body.RegRequest? && Admits(s, i.frame.h) && !Stranger(s, i.frame.h)
    && Fits(s, RegResponse(i.frame.body.uuid, UNASSIGNED, STATUS_NETWORK_FULL)) && Full(s.nodes, i.frame.body.uuid)
  }

  lemma RequestAnswered(s: Mac, uuid: u64, attach: Attach)
    requires s.params.coordinator && Safe(s.nodes) && uuid != 0
    ensures var answer := RegResponse(uuid, UNASSIGNED, STATUS_NETWORK_FULL);
            var o := RxRegRequest(s, uuid, attach);
            if Full(s.nodes, uuid) && Fits(s, answer) then
              SentMac(Frame(NextHeader(s, PLAIN, BROADCAST), answer)) in o.ev
            else
              forall e :: e in o.ev ==> !Refuses(e)
  {
    NetworkFullIff(s.nodes, uuid);
    var o := RxRegRequest(s, uuid, attach);
    if Full(s.nodes, uuid) && Fits(s, RegResponse(uuid, UNASSIGNED, STATUS_NETWORK_FULL)) {
      assert o.ev[0] == SentMac(Frame(NextHeader(s, PLAIN, BROADCAST), RegResponse(uuid, UNASSIGNED, STATUS_NETWORK_FULL)));
    }
  }

  lemma PreludeFull(s: Mac, f: Frame, ackSent: bool, uuid: u64)
    requires Tidy(s)
    ensures var p := Prelude(s, f, ackSent).s;
            Safe(p.nodes) && (Full(p.nodes, uuid) <==> Full(s.nodes, uuid)) && p.params == s.params && p.mtu == s.mtu
  {
    var p := Prelude(s, f, ackSent).s;
    PreludeKeepsRegistry(s, f, ackSent);
    forall j | 0 <= j < MAX_NODES ensures Live(p.nodes[j]) == Live(s.nodes[j]) && p.nodes[j].uuid == s.nodes[j].uuid {
      PreludeLive(s, f, ackSent, j);
    }
    assert Full(s.nodes, uuid) ==> Full(p.nodes, uuid) by {
      assert forall j :: 0 <= j < MAX_NODES && Live(s.nodes[j]) && s.nodes[j].uuid != uuid ==> Live(p.nodes[j]) && p.nodes[j].uuid != uuid;
    }
  }

  lemma PreludeRefusesNone(s: Mac, f: Frame, ackSent: bool, e: Event)
    requires e in Prelude(s, f, ackSent).ev
    ensures !Refuses(e)
  {
  }

  lemma HandleRefusesNone(s: Mac, from: Option<nat>, f: Frame, e: Event)
    requires from.Some? ==> from.value <= COORD
    requires !f.body.RegRequest? && e in Handle(s, from, f).ev
    ensures !Refuses(e)
  {
  }

  lemma RecvRefuses(s: Mac, f: Frame, ackSent: bool)
    requires s.params.coordinator && Tidy(s) && Named(DoReceive(f, ackSent))
    ensures (exists e :: e in Recv(s, f, ackSent).ev && Refuses(e)) <==> Refused(s, DoReceive(f, ackSent))
  {
    if Admits(s, f.h) && !Stranger(s, f.h) {
      var p := Prelude(s, f, ackSent);
      var h := Handle(p.s, SourceOf(s, f.h), f);
      forall e | e in p.ev ensures !Refuses(e) {
        PreludeRefusesNone(s, f, ackSent, e);
      }
      if f.body.RegRequest? {
        PreludeFull(s, f, ackSent, f.body.uuid);
        RequestAnswered(p.s, f.body.uuid, f.body.attach);
        assert h.ev == RxRegRequest(p.s, f.body.uuid, f.body.attach).ev;
        if Refused(s, DoReceive(f, ackSent)) {
          var e := SentMac(Frame(NextHeader(p.s, PLAIN, BROADCAST), RegResponse(f.body.uuid, UNASSIGNED, STATUS_NETWORK_FULL)));
          assert e in h.ev && Refuses(e);
          assert e in p.ev + h.ev;
        }
      } else {
        forall e | e in h.ev ensures !Refuses(e) {
          HandleRefusesNone(p.s, SourceOf(s, f.h), f, e);
        }
      }
    }
  }

  lemma {:induction false} JoinedNoRefusal(parts: seq<seq<Event>>, i: nat)
    requires i <= |parts| && forall j, e :: 0 <= j < |parts| && e in parts[j] ==> !e.SentMac?
    ensures forall e :: e in Joined(parts, i) ==> !e.SentMac?
    decreases |parts| - i
  {
    if i == |parts| {
    } else {
      JoinedNoRefusal(parts, i + 1);
    }
  }

  lemma TickRefusesNone(s: Mac)
    requires s.params.coordinator
    ensures forall e :: e in Tick(s).ev ==> !Refuses(e)
  {
    var b := BeaconTick(s);
    var parts := NodeTickEvents(b.s.nodes, b.s.tick);
    forall j, e: Event | 0 <= j < |parts| && e in parts[j] ensures !e.SentMac? {
      assert e in TickNode(j, b.s.nodes[j], b.s.tick).ev;
    }
    JoinedNoRefusal(parts, 0);
  }

  /** In every run of a coordinator from switching on with nonzero UUIDs, a call answers that the network
      is full if and only if it takes a request whose UUID is not stored while all 32 slots are live. */
  lemma NetworkFullAnswered(params: Params, mtu: nat, net: byte, dseq: byte, bseq: byte, ins: seq<Input>, i: Input)
    requires params.coordinator && AllNamed(ins) && Named(i)
    ensures var s := Run(Init(params, mtu, net, dseq, bseq), ins).s;
            (exists e :: e in Step(s, i).ev && Refuses(e)) <==> Refused(s, i)
  {
    var s := Run(Init(params, mtu, net, dseq, bseq), ins).s;
    RunTidy(params, mtu, net, dseq, bseq, ins);
    RunParams(Init(params, mtu, net, dseq, bseq), ins);
    match i {
      case DoSend(dest, flags, body, validity, cb) =>
      case DoReceive(f, ackSent) => RecvRefuses(s, f, ackSent);
      case DoTick => TickRefusesNone(s);
      case DoPermit(permit) =>
    }
  }
}
