/** What one device can put on the air in a step, and how it answers what it hears. */
module Exchanges {
  import opened Words
  import opened MacTypes
  import opened MacSlot
  import opened MacMachine
  import opened Registry
  import opened Timers

  predicate Demands(f: Frame) {
    f.h.flags.wantsAck
  }

  /** Bodies that are ever held in a slot's buffer. */
  predicate Buffered(b: Body) {
    b.Data? || b.RegResponse? || b.Unsupported?
  }

  /** A held frame is numbered, and is data if it demands an ack. */
  predicate SlotOk(n: Node, dseq: nat) {
    && n.pending.h.seqno <= dseq && Buffered(n.pending.body)
    && (Demands(n.pending) ==> n.pending.body.Data?)
    && (n.state == WaitAck ==> Demands(n.pending))
  }

  predicate SlotsOk(s: Mac) {
    && (forall k :: 0 <= k <= COORD ==> SlotOk(GetNode(s, k), s.dseq))
    && !s.coord.flags.sleepy
  }

  /** The buffer is untouched, or holds a newer frame that demands no ack. */
  predicate Passed(n: Node, n': Node, dseq: nat) {
    n'.pending == n.pending || (!Demands(n'.pending) && dseq < n'.pending.h.seqno)
  }

  /** A frame this device may originate: requests are for itself, beacons are a coordinator's own. */
  predicate Voice(s: Mac, f: Frame) {
    && (f.body.RegRequest? ==> !s.params.coordinator && f.body.uuid == s.params.uuid)
    && (f.body.Beacon? ==> s.params.coordinator && f.h.src == s.addr)
  }

  /** Only a buffer's content is sent with a demand for an ack. */
  predicate CalmEvent(s: Mac, e: Event) {
    && (e.Sent? ==>
          && e.slot <= COORD && OwnSlot(s, e.slot) && Buffered(e.frame.body)
          && (Demands(e.frame) ==> e.frame == GetNode(s, e.slot).pending))
    && (e.SentDirect? || e.SentMac? ==> !Demands(e.frame) && Voice(s, e.frame))
  }

  /** A piece of work that starts no exchange. */
  ghost predicate Calm(s: Mac, o: Out) {
    && o.s.params == s.params && (s.params.coordinator ==> o.s.addr == s.addr)
    && s.dseq <= o.s.dseq && SlotsOk(o.s)
    && (forall k :: 0 <= k <= COORD ==> Passed(GetNode(s, k), GetNode(o.s, k), s.dseq))
    && (forall e :: e in o.ev ==> CalmEvent(s, e))
  }

  ghost predicate NoAcks(ev: seq<Event>) {
    forall e, f :: e in ev && Emits(e, f) ==> !f.body.Ack?
  }

  lemma CalmThen(s: Mac, o: Out, p: Out)
    requires Calm(s, o) && Calm(o.s, p)
    ensures Calm(s, Out(p.s, o.ev + p.ev))
  {
    forall k | 0 <= k <= COORD ensures Passed(GetNode(s, k), GetNode(p.s, k), s.dseq) {
      assert Passed(GetNode(s, k), GetNode(o.s, k), s.dseq);
      assert Passed(GetNode(o.s, k), GetNode(p.s, k), o.s.dseq);
    }
    forall e | e in o.ev + p.ev ensures CalmEvent(s, e) {
      if e in p.ev {
        assert CalmEvent(o.s, e);
        if e.Sent? {
          assert Passed(GetNode(s, e.slot), GetNode(o.s, e.slot), s.dseq);
        }
      }
    }
  }

  lemma SameCalm(s: Mac, s': Mac, ev: seq<Event>)
    requires SlotsOk(s) && s'.nodes == s.nodes && s'.coord == s.coord && s'.params == s.params
    requires (s.params.coordinator ==> s'.addr == s.addr) && s.dseq <= s'.dseq
    requires forall e :: e in ev ==> CalmEvent(s, e)
    ensures Calm(s, Out(s', ev))
  {
    forall k | 0 <= k <= COORD ensures SlotOk(GetNode(s', k), s'.dseq) {
      assert SlotOk(GetNode(s, k), s.dseq);
    }
  }

  // Work on one slot

  ghost predicate CalmNode(s: Mac, k: nat, n: Node, o: NodeOut)
    requires k <= COORD
  {
    && SlotOk(o.n, s.dseq) && o.n.pending == n.pending
    && forall e :: e in o.ev ==>
         && (e.Sent? ==> e.slot == k && e.frame == n.pending)
         && !e.SentDirect?
         && (e.SentMac? ==> !Demands(e.frame) && e.frame.body.Ack?)
  }

  lemma CalmNodeThen(s: Mac, k: nat, n: Node, o: NodeOut, p: NodeOut)
    requires k <= COORD && CalmNode(s, k, n, o) && CalmNode(s, k, o.n, p)
    ensures CalmNode(s, k, n, NodeOut(p.n, o.ev + p.ev))
  {
  }

  lemma PutCalm(s: Mac, k: nat, o: NodeOut)
    requires SlotsOk(s) && OwnSlot(s, k) && k <= COORD && CalmNode(s, k, GetNode(s, k), o)
    requires o.n.flags == GetNode(s, k).flags
    ensures Calm(s, Put(s, k, o))
  {
    var s' := Put(s, k, o).s;
    assert SlotOk(GetNode(s, k), s.dseq);
    forall j | 0 <= j <= COORD
      ensures SlotOk(GetNode(s', j), s'.dseq) && Passed(GetNode(s, j), GetNode(s', j), s.dseq)
    {
      assert SlotOk(GetNode(s, j), s.dseq);
    }
  }

  lemma FlushCalm(s: Mac, k: nat, n: Node, now: nat)
    requires k <= COORD && SlotOk(n, s.dseq)
    ensures CalmNode(s, k, n, Flush(k, n, now))
  {
  }

  lemma HearNodeCalm(s: Mac, k: nat, n: Node, h: Header, ackSent: bool)
    requires k <= COORD && SlotOk(n, s.dseq)
    ensures CalmNode(s, k, n, HearNode(s, k, n, h, ackSent))
  {
    var n1 := n.(lastHeard := s.tick);
    var e := if h.flags.wantsAck then [SentMac(AckFrame(s, n1, h.seqno))] else [];
    var a := if !h.flags.wantsAck || !ackSent then NodeOut(n1, []) else Flush(k, n1, s.tick);
    FlushCalm(s, k, n1, s.tick);
    FlushCalm(s, k, a.n, s.tick);
    CalmNodeThen(s, k, n, NodeOut(n1, e), a);
    CalmNodeThen(s, k, n, NodeOut(a.n, e + a.ev), Flush(k, a.n, s.tick));
  }

  lemma DespatchCalm(s: Mac, k: nat, n: Node, now: nat)
    requires k <= COORD && SlotOk(n, s.dseq)
    ensures CalmNode(s, k, n, DespatchAck(k, n, now)) && CalmNode(s, k, n, DespatchValidity(k, n, now))
  {
  }

  lemma TickNodeCalm(s: Mac, k: nat, n: Node, now: nat)
    requires k <= COORD && SlotOk(n, s.dseq)
    ensures CalmNode(s, k, n, TickNode(k, n, now))
    ensures NoAcks(TickNode(k, n, now).ev)
  {
    var h := Heartbeat(k, n, now);
    var a := DespatchAck(k, h.n, now);
    DespatchCalm(s, k, h.n, now);
    DespatchCalm(s, k, a.n, now);
    CalmNodeThen(s, k, h.n, a, DespatchValidity(k, a.n, now));
    CalmNodeThen(s, k, n, h, Despatch(k, h.n, now));
  }

  // Work on the whole device

  lemma SendPlainCalm(s: Mac, k: nat, body: Body)
    requires SlotsOk(s) && OwnSlot(s, k) && k <= COORD
    requires Voice(s, Frame(NextHeader(s, PLAIN, 0), body)) && !body.Beacon?
    requires Buffered(body) || k == COORD
    ensures Calm(s, SendTo(s, k, PLAIN, body, 0, NoCallback))
  {
    var o := SendTo(s, k, PLAIN, body, 0, NoCallback);
    assert SlotOk(GetNode(s, k), s.dseq);
    forall j | 0 <= j <= COORD
      ensures SlotOk(GetNode(o.s, j), o.s.dseq) && Passed(GetNode(s, j), GetNode(o.s, j), s.dseq)
    {
      assert SlotOk(GetNode(s, j), s.dseq);
      assert j != k ==> GetNode(o.s, j) == GetNode(s, j);
    }
  }

  lemma BindCalm(s: Mac, f: Frame)
    requires SlotsOk(s) && !s.params.coordinator && f.body.Beacon?
    ensures Calm(s, Out(Bound(s, f), []))
  {
    var s' := Bound(s, f);
    assert SlotOk(GetNode(s, COORD), s.dseq);
    forall j | 0 <= j <= COORD
      ensures SlotOk(GetNode(s', j), s'.dseq) && Passed(GetNode(s, j), GetNode(s', j), s.dseq)
    {
      assert SlotOk(GetNode(s, j), s.dseq);
    }
  }

  lemma RxBeaconCalm(s: Mac, f: Frame)
    requires SlotsOk(s) && f.body.Beacon?
    ensures Calm(s, RxBeacon(s, f)) && NoAcks(RxBeacon(s, f).ev)
  {
    var o := RxBeacon(s, f);
    if !s.params.coordinator && Attaches(s, f) {
      var req := RegRequest(s.params.uuid, s.params.flags);
      BindCalm(s, f);
      SendPlainCalm(Bound(s, f), COORD, req);
      var q := SendTo(Bound(s, f), COORD, PLAIN, req, 0, NoCallback);
      CalmThen(s, Out(Bound(s, f), []), q);
      assert [] + q.ev == q.ev;
      SameCalm(q.s, o.s, []);
      CalmThen(s, q, Out(o.s, []));
      assert q.ev + [] == q.ev;
    } else if !s.params.coordinator && s.client == ClientRegistered && s.addr in f.body.addrs {
      SendPlainCalm(s, COORD, Poll);
    } else {
      SameCalm(s, o.s, []);
    }
  }

  lemma RegRequestCalm(s: Mac, uuid: u64, attach: Attach)
    requires SlotsOk(s)
    ensures Calm(s, RxRegRequest(s, uuid, attach)) && NoAcks(RxRegRequest(s, uuid, attach).ev)
  {
    var o := RxRegRequest(s, uuid, attach);
    var k := SlotFor(s.nodes, uuid);
    if s.params.coordinator && k < MAX_NODES {
      var n := Enrol(s.nodes[k], uuid, attach, s.tick);
      assert SlotOk(GetNode(s, k), s.dseq);
      forall j | 0 <= j <= COORD
        ensures SlotOk(GetNode(o.s, j), o.s.dseq) && Passed(GetNode(s, j), GetNode(o.s, j), s.dseq)
      {
        assert SlotOk(GetNode(s, j), s.dseq);
        assert j != k ==> GetNode(o.s, j) == GetNode(s, j);
      }
    } else {
      SameCalm(s, o.s, o.ev);
    }
  }

  lemma DeregRequestCalm(s: Mac, src: byte, uuid: u64)
    requires SlotsOk(s)
    ensures Calm(s, RxDeregRequest(s, src, uuid)) && NoAcks(RxDeregRequest(s, src, uuid).ev)
  {
    var k := Leaving(s.nodes, src, uuid);
    if s.params.coordinator && k < MAX_NODES {
      var resp := RegResponse(uuid, UNASSIGNED, STATUS_SUCCESS);
      SendPlainCalm(s, k, resp);
      var o := SendTo(s, k, PLAIN, resp, 0, NoCallback);
      assert SlotOk(GetNode(o.s, k), o.s.dseq);
      PutCalm(o.s, k, Deregister(k, o.s.nodes[k]));
      CalmThen(s, o, Put(o.s, k, Deregister(k, o.s.nodes[k])));
    } else {
      SameCalm(s, s, []);
    }
  }

  lemma HandleCalm(s: Mac, from: Option<nat>, f: Frame)
    requires from.Some? ==> from.value <= COORD && OwnSlot(s, from.value)
    requires SlotsOk(s)
    ensures Calm(s, Handle(s, from, f)) && NoAcks(Handle(s, from, f).ev)
  {
    var o := Handle(s, from, f);
    match f.body {
      case Beacon(_, _, _, _, _, _, _) => RxBeaconCalm(s, f);
      case RegRequest(uuid, attach) => RegRequestCalm(s, uuid, attach);
      case DeregRequest(uuid, _) => DeregRequestCalm(s, f.h.src, uuid);
      case Ack =>
        if from.Some? {
          assert SlotOk(GetNode(s, from.value), s.dseq);
          PutCalm(s, from.value, AckReceived(from.value, GetNode(s, from.value), f.h.seqno));
        } else {
          SameCalm(s, s, []);
        }
      case _ => SameCalm(s, o.s, o.ev);
    }
  }

  lemma PreludeCalm(s: Mac, f: Frame, ackSent: bool)
    requires SlotsOk(s)
    ensures Calm(s, Prelude(s, f, ackSent))
  {
    var from := SourceOf(s, f.h);
    if from.Some? {
      var n := GetNode(s, from.value);
      HearNodeCalm(s, from.value, n, f.h, ackSent);
      PutCalm(s, from.value, HearNode(s, from.value, n, f.h, ackSent));
    } else {
      SameCalm(s, s, []);
    }
  }

  lemma RecvCalm(s: Mac, f: Frame, ackSent: bool)
    requires SlotsOk(s)
    ensures Calm(s, Recv(s, f, ackSent))
  {
    if Admits(s, f.h) && !Stranger(s, f.h) {
      var p := Prelude(s, f, ackSent);
      PreludeCalm(s, f, ackSent);
      HandleCalm(p.s, SourceOf(s, f.h), f);
      CalmThen(s, p, Handle(p.s, SourceOf(s, f.h), f));
    } else {
      SameCalm(s, Recv(s, f, ackSent).s, Recv(s, f, ackSent).ev);
    }
  }

  ghost predicate CalmEvents(s: Mac, ev: seq<Event>) {
    NoAcks(ev) && forall e :: e in ev ==> CalmEvent(s, e)
  }

  lemma {:induction false} JoinedCalm(s: Mac, parts: seq<seq<Event>>, i: nat)
    requires i <= |parts| && forall j :: 0 <= j < |parts| ==> CalmEvents(s, parts[j])
    ensures CalmEvents(s, Joined(parts, i))
    decreases |parts| - i
  {
    if i == |parts| {
    } else {
      JoinedCalm(s, parts, i + 1);
    }
  }

  lemma TickNodesCalm(s: Mac)
    requires SlotsOk(s) && s.params.coordinator
    ensures Calm(s, TickNodes(s)) && NoAcks(TickNodes(s).ev)
  {
    var o := TickNodes(s);
    var parts := NodeTickEvents(s.nodes, s.tick);
    forall j | 0 <= j < |parts| ensures CalmEvents(s, parts[j]) {
      assert SlotOk(GetNode(s, j), s.dseq);
      TickNodeCalm(s, j, s.nodes[j], s.tick);
    }
    JoinedCalm(s, parts, 0);
    forall j | 0 <= j <= COORD
      ensures SlotOk(GetNode(o.s, j), o.s.dseq) && Passed(GetNode(s, j), GetNode(o.s, j), s.dseq)
    {
      assert SlotOk(GetNode(s, j), s.dseq);
      if j < MAX_NODES {
        TickNodeCalm(s, j, s.nodes[j], s.tick);
      }
    }
  }

  lemma PutCoordCalm(s: Mac, o: NodeOut)
    requires SlotsOk(s) && !s.params.coordinator && CalmNode(s, COORD, s.coord, o)
    requires o.n.flags == s.coord.flags && NoAcks(o.ev)
    ensures Calm(s, PutCoord(s, o)) && NoAcks(PutCoord(s, o).ev)
  {
    PutCalm(s, COORD, o);
    SameCalm(Put(s, COORD, o).s, PutCoord(s, o).s, []);
    CalmThen(s, Put(s, COORD, o), Out(PutCoord(s, o).s, []));
    assert o.ev + [] == o.ev;
  }

  lemma ClientTickCalm(s: Mac)
    requires SlotsOk(s) && !s.params.coordinator
    ensures Calm(s, ClientTick(s)) && NoAcks(ClientTick(s).ev)
  {
    var b := RequestBeacon(s);
    SameCalm(s, b.s, b.ev);
    assert SlotOk(GetNode(b.s, COORD), b.s.dseq);
    DespatchCalm(b.s, COORD, b.s.coord, s.tick);
    PutCoordCalm(b.s, DespatchAck(COORD, b.s.coord, s.tick));
    var a := PutCoord(b.s, DespatchAck(COORD, b.s.coord, s.tick));
    CalmThen(s, b, a);
    assert SlotOk(GetNode(a.s, COORD), a.s.dseq);
    DespatchCalm(a.s, COORD, a.s.coord, s.tick);
    PutCoordCalm(a.s, DespatchValidity(COORD, a.s.coord, s.tick));
    var v := PutCoord(a.s, DespatchValidity(COORD, a.s.coord, s.tick));
    CalmThen(s, Out(a.s, b.ev + a.ev), v);
    RequestTimeoutCalm(v.s);
    CalmThen(s, ClientTimers(s), DespatchRequest(v.s));
  }

  lemma RequestTimeoutCalm(s: Mac)
    requires SlotsOk(s) && !s.params.coordinator
    ensures Calm(s, DespatchRequest(s)) && NoAcks(DespatchRequest(s).ev)
  {
    var s1 := s.(timer := Off);
    SameCalm(s, s1, []);
    assert SlotOk(GetNode(s, COORD), s.dseq);
    PutCoordCalm(s1, Deregister(COORD, s.coord));
    CalmThen(s, Out(s1, []), PutCoord(s1, Deregister(COORD, s.coord)));
    var ev := PutCoord(s1, Deregister(COORD, s.coord)).ev;
    assert [] + ev == ev;
    SameCalm(s, s, []);
  }

  lemma TickCalm(s: Mac)
    requires SlotsOk(s)
    ensures Calm(s, Tick(s)) && NoAcks(Tick(s).ev)
  {
    if s.params.coordinator {
      var b := BeaconTick(s);
      SameCalm(s, b.s, b.ev);
      TickNodesCalm(b.s);
      CalmThen(s, b, TickNodes(b.s));
      SameCalm(CoordinatorTick(s).s, Tick(s).s, []);
      CalmThen(s, CoordinatorTick(s), Out(Tick(s).s, []));
    } else {
      ClientTickCalm(s);
      SameCalm(ClientTick(s).s, Tick(s).s, []);
      CalmThen(s, ClientTick(s), Out(Tick(s).s, []));
    }
    assert Tick(s).ev + [] == Tick(s).ev;
  }

  // Sends: the one place where an exchange starts

  /** What a send does: if it sends with a demand for an ack, then what it sends is a new frame that
      is now in the buffer of its own slot. */
  ghost predicate Opens(s: Mac, o: Out) {
    && o.s.params == s.params && o.s.addr == s.addr && s.dseq <= o.s.dseq && SlotsOk(o.s)
    && (forall k :: 0 <= k <= COORD ==>
          var n, n' := GetNode(s, k), GetNode(o.s, k);
          n'.pending == n.pending ||
          (s.dseq < n'.pending.h.seqno && n'.pending.h.src == s.addr && n'.pending.h.dest == n.addr))
    && (forall e :: e in o.ev ==>
          && (e.Sent? ==> e.slot <= COORD && OwnSlot(s, e.slot) && e.frame == GetNode(o.s, e.slot).pending)
          && (e.SentDirect? ==> !Demands(e.frame) && e.frame.body.Data?)
          && !e.SentMac?)
  }

  lemma SendOpens(s: Mac, dest: byte, flags: Flags, body: Body, validity: u16, cb: Callback)
    requires SlotsOk(s)
    ensures Opens(s, Send(s, dest, flags, body, validity, cb))
  {
    var o := Send(s, dest, flags, body, validity, cb);
    var r := Lookup(s, dest);
    forall k | 0 <= k <= COORD
      ensures var n, n' := GetNode(s, k), GetNode(o.s, k);
              && SlotOk(n', o.s.dseq)
              && (n'.pending == n.pending ||
                  (s.dseq < n'.pending.h.seqno && n'.pending.h.src == s.addr && n'.pending.h.dest == n.addr))
    {
      assert SlotOk(GetNode(s, k), s.dseq);
      assert r != Some(k) ==> GetNode(o.s, k) == GetNode(s, k);
    }
  }

  // Acknowledgements

  lemma HearNodeAcks(s: Mac, k: nat, n: Node, h: Header, ackSent: bool, e: Event)
    requires e in HearNode(s, k, n, h, ackSent).ev && e.SentMac?
    ensures h.flags.wantsAck && e.frame == AckFrame(s, n.(lastHeard := s.tick), h.seqno)
  {
  }

  /** An ack answers the frame that this very call received, from a source it knows, and the call
      passes that frame's data up. */
  lemma AckAnswers(s: Mac, f: Frame, ackSent: bool, e: Event)
    requires SlotsOk(s)
    requires e in Recv(s, f, ackSent).ev && e.SentMac? && e.frame.body.Ack?
    ensures Demands(f) && Admits(s, f.h) && SourceOf(s, f.h).Some?
    ensures e.frame.h.seqno == f.h.seqno && e.frame.h.src == s.addr && e.frame.h.dest == f.h.src
    ensures f.body.Data? ==> Delivered(SourceOf(s, f.h), f.body) in Recv(s, f, ackSent).ev
  {
    var p := Prelude(s, f, ackSent);
    PreludeCalm(s, f, ackSent);
    var from := SourceOf(s, f.h);
    HandleCalm(p.s, from, f);
    assert Emits(e, e.frame);
    assert e in p.ev;
    var n := GetNode(s, from.value);
    HearNodeAcks(s, from.value, n, f.h, ackSent, e);
  }

  lemma SendCarries(s: Mac, dest: byte, flags: Flags, body: Body, validity: u16, cb: Callback, e: Event, f: Frame)
    requires e in Send(s, dest, flags, body, validity, cb).ev && Emits(e, f)
    ensures f.body == body && body.Data?
  {
  }

  /** Every ack on the air was sent as one. */
  lemma AcksAreMac(s: Mac, i: Input, e: Event, f: Frame)
    requires SlotsOk(s) && e in Step(s, i).ev && Emits(e, f) && f.body.Ack?
    ensures i.DoReceive? && e.SentMac?
  {
    match i {
      case DoSend(dest, flags, body, validity, cb) =>
        SendCarries(s, dest, flags, body, validity, cb, e, f);
      case DoReceive(g, ackSent) =>
        if !e.SentMac? {
          NonAcks(s, g, ackSent, e);
        }
      case DoTick =>
        TickCalm(s);
      case DoPermit(permit) =>
    }
  }

  lemma NonAcks(s: Mac, f: Frame, ackSent: bool, e: Event)
    requires SlotsOk(s) && e in Recv(s, f, ackSent).ev && (e.Sent? || e.SentDirect?)
    ensures !e.frame.body.Ack?
  {
    assert Emits(e, e.frame);
    if Admits(s, f.h) && !Stranger(s, f.h) {
      var p := Prelude(s, f, ackSent);
      PreludeCalm(s, f, ackSent);
      HandleCalm(p.s, SourceOf(s, f.h), f);
      if e in p.ev {
        assert CalmEvent(s, e);
        PreludeSends(s, f, ackSent, e);
      }
    }
  }

  lemma PreludeSends(s: Mac, f: Frame, ackSent: bool, e: Event)
    requires SlotsOk(s) && e in Prelude(s, f, ackSent).ev
    ensures !e.SentDirect?
  {
    var from := SourceOf(s, f.h);
    if from.Some? {
      assert SlotOk(GetNode(s, from.value), s.dseq);
      HearNodeCalm(s, from.value, GetNode(s, from.value), f.h, ackSent);
    }
  }

  // Addresses

  /** A client becomes registered only on a grant for its own UUID, and takes the address granted;
      its coordinator record changes address only to the sender of a beacon. */
  predicate Bonds(s: Mac, s': Mac, f: Option<Frame>) {
    && (s'.client == ClientRegistered ==>
          || (s.client == ClientRegistered && s'.addr == s.addr)
          || (f.Some? && Grants(f.value) && f.value.body.uuid == s.params.uuid && s'.addr == f.value.body.addr))
    && (s'.coord.addr == s.coord.addr || (f.Some? && f.value.body.Beacon? && s'.coord.addr == f.value.h.src))
  }

  lemma PreludeBonds(s: Mac, f: Frame, ackSent: bool)
    requires !s.params.coordinator
    ensures var p := Prelude(s, f, ackSent).s;
            p == s.(coord := p.coord) && p.coord.addr == s.coord.addr
  {
  }

  lemma HandleBonds(s: Mac, from: Option<nat>, f: Frame)
    requires !s.params.coordinator && (from.Some? ==> from.value == COORD)
    ensures Bonds(s, Handle(s, from, f).s, Some(f))
  {
  }

  lemma RecvBonds(s: Mac, f: Frame, ackSent: bool)
    requires !s.params.coordinator
    ensures Bonds(s, Recv(s, f, ackSent).s, Some(f))
  {
    if Admits(s, f.h) && !Stranger(s, f.h) {
      PreludeBonds(s, f, ackSent);
      HandleBonds(Prelude(s, f, ackSent).s, SourceOf(s, f.h), f);
    }
  }

  lemma ClientTimersBond(s: Mac)
    requires !s.params.coordinator
    ensures Bonds(s, ClientTimers(s).s, None)
  {
    ClientTimersShape(s);
  }

  lemma TickBonds(s: Mac)
    requires !s.params.coordinator
    ensures Bonds(s, Tick(s).s, None)
  {
    var v := ClientTimers(s).s;
    ClientTimersBond(s);
    assert Bonds(v, DespatchRequest(v).s, None);
  }

  lemma StepBonds(s: Mac, i: Input)
    requires !s.params.coordinator
    ensures Bonds(s, Step(s, i).s, if i.DoReceive? then Some(i.frame) else None)
  {
    match i {
      case DoSend(dest, flags, body, validity, cb) =>
      case DoReceive(f, ackSent) => RecvBonds(s, f, ackSent);
      case DoTick => TickBonds(s);
      case DoPermit(permit) =>
    }
  }
}
