/** What a call of tinymac_recv_cb does, for every state and every frame: who is heard, what is passed up,
    what is answered, and what the device is afterwards.  Conditions are on the header bytes and the slots
    themselves. */
module Reception {
  import opened Words
  import opened MacTypes
  import opened MacSlot
  import opened MacMachine

  // Which frames are taken

  /** Sent by somebody else, to this device or to everybody, on this network or on all; a frame for all
      networks, or without a source address, only concerns a coordinator that lets nodes attach. */
  predicate ForMe(s: Mac, h: Header) {
    && h.src != s.addr
    && (if h.dest == 0xFF then h.net == s.net || h.net == 0xFF || s.net == 0xFF else h.net == s.net && h.dest == s.addr)
    && (h.net == 0xFF || h.src == 0xFF ==> s.params.coordinator && s.permitAttach)
  }

  /** Slot `k` is one of this device's, is live and has that address. */
  predicate Holder(s: Mac, k: nat, addr: byte) {
    && (if s.params.coordinator then k < 32 else k == COORD)
    && GetNode(s, k).addr == addr && GetNode(s, k).state != Unregistered
  }

  /** The slot of this device that answers to an address. */
  predicate Reaches(s: Mac, addr: byte, k: nat) {
    k <= COORD && Holder(s, k, addr) && forall j :: 0 <= j < k ==> !Holder(s, j, addr)
  }

  /** One of the two has no address yet. */
  predicate Nameless(s: Mac, h: Header) { s.addr == 0xFF || h.src == 0xFF }

  predicate Known(s: Mac, h: Header) { exists k :: 0 <= k <= COORD && Holder(s, k, h.src) }

  predicate Taken(s: Mac, h: Header) { ForMe(s, h) && (Nameless(s, h) || Known(s, h)) }

  /** The slot that a frame comes from, if it comes from one. */
  predicate Source(s: Mac, h: Header, from: Option<nat>) {
    if Nameless(s, h) then from == None
    else from.Some? && Reaches(s, h.src, from.value)
  }

  lemma ForMeIff(s: Mac, h: Header)
    ensures ForMe(s, h) <==> Admits(s, h)
  {
  }

  lemma KnownIff(s: Mac, h: Header)
    requires !Nameless(s, h)
    ensures Known(s, h) <==> Lookup(s, h.src).Some?
    ensures Known(s, h) ==> Source(s, h, Lookup(s, h.src))
  {
    var r := Lookup(s, h.src);
    if r.Some? {
      assert Holder(s, r.value, h.src);
    }
    forall k | 0 <= k < MAX_NODES && s.params.coordinator
      ensures Holder(s, k, h.src) <==> AnswersTo(s.nodes[k], h.src)
    {
    }
  }

  /** Frames are taken from the slot that the two addresses say, and no others are. */
  lemma TakenIff(s: Mac, h: Header)
    ensures Taken(s, h) <==> Admits(s, h) && !Stranger(s, h)
    ensures Taken(s, h) ==> Source(s, h, SourceOf(s, h))
  {
    ForMeIff(s, h);
    if !Nameless(s, h) {
      KnownIff(s, h);
    }
  }

  // Being heard

  /** The ack for a frame with header `h`. */
  function AckOf(s: Mac, h: Header, more: bool): Frame {
    Frame(Header(Flags(false, more, false, 0), s.net, h.src, s.addr, h.seqno), Ack)
  }

  /** What a frame from slot `k` brings out: the ack that it asks for, and then the deferred packet, which
      is done with if it asks for no ack itself. */
  function HeardEvents(s: Mac, k: nat, h: Header): seq<Event>
    requires k <= COORD
  {
    var n := GetNode(s, k);
    (if h.flags.wantsAck then [SentMac(AckOf(s, h, n.state == SendPending))] else []) +
    (if n.state != SendPending then []
     else if n.pending.h.flags.wantsAck then [Sent(k, n.pending)]
     else [Sent(k, n.pending), Resolved(k, n.sendCb, true)])
  }

  function HeardNode(n: Node, now: nat): Node {
    var m := n.(lastHeard := now);
    if n.state != SendPending then m
    else if n.pending.h.flags.wantsAck then m.(state := WaitAck, ackTimer := Due(now + 1))
    else m.(state := Registered, validityTimer := Off)
  }

  /** The device when it has heard a frame from there. */
  function Heard(s: Mac, from: Option<nat>): Mac
    requires from.Some? ==> from.value <= COORD
  {
    if from.None? then s else SetNode(s, from.value, HeardNode(GetNode(s, from.value), s.tick))
  }

  function Stirred(s: Mac, from: Option<nat>, h: Header): seq<Event>
    requires from.Some? ==> from.value <= COORD
  {
    if from.None? then [] else HeardEvents(s, from.value, h)
  }

  lemma FlushTwice(k: nat, n: Node, now: nat)
    ensures Flush(k, Flush(k, n, now).n, now) == NodeOut(Flush(k, n, now).n, [])
  {
  }

  /** The deferred packet goes out once, whether or not the PHY took the ack. */
  lemma HearNodeIs(s: Mac, k: nat, h: Header, ackSent: bool)
    requires k <= COORD && GetNode(s, k).addr == h.src
    ensures HearNode(s, k, GetNode(s, k), h, ackSent) == NodeOut(HeardNode(GetNode(s, k), s.tick), HeardEvents(s, k, h))
  {
    FlushTwice(k, GetNode(s, k).(lastHeard := s.tick), s.tick);
  }

  lemma PreludeIs(s: Mac, f: Frame, ackSent: bool)
    requires Taken(s, f.h)
    ensures Prelude(s, f, ackSent) == Out(Heard(s, SourceOf(s, f.h)), Stirred(s, SourceOf(s, f.h), f.h))
  {
    TakenIff(s, f.h);
    var from := SourceOf(s, f.h);
    if from.Some? {
      HearNodeIs(s, from.value, f.h, ackSent);
    }
  }

  lemma RecvIs(s: Mac, f: Frame, ackSent: bool) returns (from: Option<nat>)
    requires Taken(s, f.h)
    ensures Source(s, f.h, from) && (from.Some? ==> from.value <= COORD)
    ensures var h := Handle(Heard(s, from), from, f);
            Recv(s, f, ackSent) == Out(h.s, Stirred(s, from, f.h) + h.ev)
  {
    TakenIff(s, f.h);
    PreludeIs(s, f, ackSent);
    from := SourceOf(s, f.h);
  }

  // Data

  /** The call stirs the source's slot, answers as given and leaves the device as given. */
  predicate Effect(s: Mac, f: Frame, from: Option<nat>, o: Out, s': Mac, answer: seq<Event>)
    requires from.Some? ==> from.value <= COORD
  {
    Source(s, f.h, from) && o == Out(s', Stirred(s, from, f.h) + answer)
  }

  /** Frames that this device does nothing about beyond hearing them. */
  predicate Uneventful(s: Mac, b: Body) {
    || b.Poll? || b.Unsupported?
    || (if s.params.coordinator then b.Beacon? || b.RegResponse? else b.BeaconRequest? || b.RegRequest? || b.DeregRequest?)
  }

  /** Data is passed up, and nothing else happens. */
  lemma DataTaken(s: Mac, f: Frame, ackSent: bool) returns (from: Option<nat>)
    requires Taken(s, f.h) && (f.body.Data? || Uneventful(s, f.body))
    ensures from.Some? ==> from.value <= COORD
    ensures Effect(s, f, from, Recv(s, f, ackSent), Heard(s, from), if f.body.Data? then [Delivered(from, f.body)] else [])
  {
    from := RecvIs(s, f, ackSent);
  }

  lemma NoDelivery(s: Mac, from: Option<nat>, f: Frame)
    requires (from.Some? ==> from.value <= COORD) && !f.body.Data?
    ensures forall e :: e in Handle(s, from, f).ev ==> !e.Delivered?
  {
  }

  lemma NotStirred(s: Mac, from: Option<nat>, h: Header)
    requires from.Some? ==> from.value <= COORD
    ensures forall e :: e in Stirred(s, from, h) ==> !e.Delivered?
  {
  }

  lemma NothingDelivered(s: Mac, f: Frame, ackSent: bool)
    requires !Taken(s, f.h) || !f.body.Data?
    ensures forall e :: e in Recv(s, f, ackSent).ev ==> !e.Delivered?
  {
    TakenIff(s, f.h);
    if Taken(s, f.h) {
      var from := RecvIs(s, f, ackSent);
      NoDelivery(Heard(s, from), from, f);
      NotStirred(s, from, f.h);
    }
  }

  /** Data is passed up exactly once, last and whole, from every frame that is taken, whether or not it asks
      for an ack; nothing else is ever passed up. */
  lemma DeliveredIff(s: Mac, f: Frame, ackSent: bool) returns (from: Option<nat>)
    ensures Taken(s, f.h) ==> Source(s, f.h, from)
    ensures var ev := Recv(s, f, ackSent).ev;
            if f.body.Data? && Taken(s, f.h) then
              && ev != [] && ev[|ev| - 1] == Delivered(from, f.body)
              && forall j :: 0 <= j < |ev| - 1 ==> !ev[j].Delivered?
            else
              forall e :: e in ev ==> !e.Delivered?
  {
    if Taken(s, f.h) && f.body.Data? {
      from := DataTaken(s, f, ackSent);
      NotStirred(s, from, f.h);
    } else {
      TakenIff(s, f.h);
      from := SourceOf(s, f.h);
      NothingDelivered(s, f, ackSent);
    }
  }

  /** An ack goes out, first of all, exactly when a frame from a known slot asks for one; it goes back to
      the source with the frame's number, and says whether a packet is waiting there. */
  lemma AckedIff(s: Mac, f: Frame, ackSent: bool) returns (from: Option<nat>)
    ensures Taken(s, f.h) ==> Source(s, f.h, from)
    ensures var ev := Recv(s, f, ackSent).ev;
            if Taken(s, f.h) && from.Some? && f.h.flags.wantsAck then
              && ev != [] && ev[0] == SentMac(AckOf(s, f.h, GetNode(s, from.value).state == SendPending))
              && forall j :: 0 < j < |ev| && ev[j].SentMac? ==> !ev[j].frame.body.Ack?
            else
              forall e :: e in ev && e.SentMac? ==> !e.frame.body.Ack?
  {
    TakenIff(s, f.h);
    if Taken(s, f.h) {
      from := RecvIs(s, f, ackSent);
      NoAck(Heard(s, from), from, f);
    } else {
      from := None;
    }
  }

  lemma NoAck(s: Mac, from: Option<nat>, f: Frame)
    requires from.Some? ==> from.value <= COORD
    ensures forall e :: e in Handle(s, from, f).ev && e.SentMac? ==> !e.frame.body.Ack?
  {
  }

  // Everything else that a frame does

  /** A frame that is not for this device does nothing. */
  lemma OthersIgnored(s: Mac, f: Frame, ackSent: bool)
    requires !ForMe(s, f.h)
    ensures Recv(s, f, ackSent) == Out(s, [])
  {
    ForMeIff(s, f.h);
  }

  /** One from an address that no live slot has makes a coordinator call the address invalid, and a client
      do nothing. */
  lemma StrangerAnswered(s: Mac, f: Frame, ackSent: bool)
    requires ForMe(s, f.h) && !Nameless(s, f.h) && !Known(s, f.h)
    ensures var f' := Frame(Header(PLAIN, s.net, f.h.src, s.addr, s.dseq + 1), RegResponse(0, 0xFF, 5));
            Recv(s, f, ackSent) ==
            if s.params.coordinator && s.mtu >= 16 then Out(s.(dseq := s.dseq + 1), [SentMac(f')]) else Out(s, [])
  {
    ForMeIff(s, f.h);
    KnownIff(s, f.h);
  }

  /** A coordinator answers a beacon request with an advertisement of itself. */
  lemma BeaconRequestTaken(s: Mac, f: Frame, ackSent: bool) returns (from: Option<nat>)
    requires Taken(s, f.h) && f.body.BeaconRequest? && s.params.coordinator
    ensures from.Some? ==> from.value <= COORD
    ensures var n := (s.bseq + 1) % 256;
            var b := Frame(Header(PLAIN, s.net, 0xFF, s.addr, n), Beacon(s.params.uuid, s.slot, false, s.permitAttach, 0, 15, []));
            Effect(s, f, from, Recv(s, f, ackSent), Heard(s, from).(bseq := n), [SentMac(b)])
  {
    from := RecvIs(s, f, ackSent);
  }

  /** The packet in that buffer is on the air, or goes out in this call, and has this number. */
  predicate Settles(n: Node, seqno: nat) {
    && (n.state == WaitAck || (n.state == SendPending && n.pending.h.flags.wantsAck))
    && n.pending.h.seqno % 256 == seqno % 256
  }

  /** An ack settles the packet of its source's slot exactly if it has its number, and does nothing
      otherwise. */
  lemma AckTaken(s: Mac, f: Frame, ackSent: bool) returns (from: Option<nat>)
    requires Taken(s, f.h) && f.body.Ack?
    ensures from.Some? ==> from.value <= COORD
    ensures if from.Some? && Settles(GetNode(s, from.value), f.h.seqno) then
              var n := GetNode(s, from.value);
              var n' := n.(lastHeard := s.tick, state := Registered, ackTimer := Off, validityTimer := Off);
              Effect(s, f, from, Recv(s, f, ackSent), SetNode(s, from.value, n'), [Resolved(from.value, n.sendCb, true)])
            else
              Effect(s, f, from, Recv(s, f, ackSent), Heard(s, from), [])
  {
    from := RecvIs(s, f, ackSent);
  }

  /** The first slot that stores this UUID. */
  predicate Stores(t: NodeTable, uuid: u64, k: nat) {
    k < 32 && t[k].uuid == uuid && forall j :: 0 <= j < k ==> t[j].uuid != uuid
  }

  predicate Absent(t: NodeTable, uuid: u64) { forall j :: 0 <= j < 32 ==> t[j].uuid != uuid }

  predicate FirstFree(t: NodeTable, k: nat) {
    k < 32 && t[k].state == Unregistered && forall j :: 0 <= j < k ==> t[j].state != Unregistered
  }

  /** The UUID's own slot; failing that the first that was never used; failing that the first that is not
      live; or none. */
  predicate Chosen(t: NodeTable, uuid: u64, k: nat) {
    || Stores(t, uuid, k)
    || (Absent(t, uuid) && Stores(t, 0, k))
    || (Absent(t, uuid) && Absent(t, 0) && FirstFree(t, k))
    || (Absent(t, uuid) && Absent(t, 0) && k == 32 && forall j :: 0 <= j < 32 ==> t[j].state != Unregistered)
  }

  lemma SlotForIsChosen(s: Mac, from: Option<nat>, uuid: u64)
    requires from.Some? ==> from.value <= COORD && GetNode(s, from.value).state != Unregistered
    ensures Chosen(s.nodes, uuid, SlotFor(Heard(s, from).nodes, uuid))
  {
    var t := Heard(s, from).nodes;
    assert forall j :: 0 <= j < 32 ==> t[j].uuid == s.nodes[j].uuid && Live(t[j]) == Live(s.nodes[j]);
    ChosenSlot(t, uuid);
  }

  lemma ChosenSlot(t: NodeTable, uuid: u64)
    ensures Chosen(t, uuid, SlotFor(t, uuid))
  {
    if FirstUuid(t, uuid, 0) == MAX_NODES && FirstUuid(t, 0, 0) == MAX_NODES {
      assert Absent(t, uuid) && Absent(t, 0);
    }
  }

  function Renumbered(s: Mac, size: nat): Mac {
    if s.mtu >= size then s.(dseq := s.dseq + 1) else s
  }

  /** What the coordinator tells everybody about a request that is given slot `k`. */
  function Verdict(s: Mac, uuid: u64, k: nat): seq<Event>
    requires k <= 32
  {
    var answer := if k == 32 then RegResponse(uuid, 0xFF, 2) else RegResponse(uuid, s.nodes[k].addr, 0);
    if s.mtu >= 16 then [SentMac(Frame(Header(PLAIN, s.net, 0xFF, s.addr, s.dseq + 1), answer))] else []
  }

  /** A new registration in slot `k`. */
  function Entered(s: Mac, k: nat, uuid: u64, attach: Attach): Mac
    requires k <= 32
  {
    if k == 32 then s
    else s.(nodes := s.nodes[k := s.nodes[k].(state := Registered, uuid := uuid, flags := attach, lastHeard := s.tick)])
  }

  lemma RequestIs(s: Mac, uuid: u64, attach: Attach)
    requires s.params.coordinator
    ensures var k := SlotFor(s.nodes, uuid);
            RxRegRequest(s, uuid, attach) == Out(Renumbered(Entered(s, k, uuid, attach), 16), Verdict(s, uuid, k) + [NodeUp(k)])
  {
  }

  lemma HeardVerdict(s: Mac, from: Option<nat>, uuid: u64, k: nat)
    requires k <= 32 && (from.Some? ==> from.value <= COORD)
    ensures Verdict(Heard(s, from), uuid, k) == Verdict(s, uuid, k)
  {
  }

  /** A coordinator gives a registration request its slot, stores who asked and how, and tells everybody the
      slot's address, or that there is none. */
  lemma RequestTaken(s: Mac, f: Frame, ackSent: bool) returns (from: Option<nat>, k: nat)
    requires Taken(s, f.h) && f.body.RegRequest? && s.params.coordinator
    ensures from.Some? ==> from.value <= COORD
    ensures Chosen(s.nodes, f.body.uuid, k) && k <= 32
    ensures var s' := Renumbered(Entered(Heard(s, from), k, f.body.uuid, f.body.attach), 16);
            Effect(s, f, from, Recv(s, f, ackSent), s', Verdict(s, f.body.uuid, k) + [NodeUp(k)])
  {
    from := RecvIs(s, f, ackSent);
    k := SlotFor(Heard(s, from).nodes, f.body.uuid);
    SlotForIsChosen(s, from, f.body.uuid);
    RequestIs(Heard(s, from), f.body.uuid, f.body.attach);
    HeardVerdict(s, from, f.body.uuid, k);
  }

  /** A frame of the MAC's own, which asks for no ack and reports to nobody: it goes out at once to a node
      that listens, waits for one that sleeps, and is dropped if the slot is busy. */
  function Passing(k: nat, n: Node, f: Frame, now: nat): NodeOut {
    if n.state != Registered then NodeOut(n, [])
    else if n.flags.sleepy then
      NodeOut(n.(pending := f, sendCb := NoCallback, retries := 3, validityTimer := Due(now), state := SendPending),
              [Accepted(k, f, NoCallback)])
    else NodeOut(n, [SentDirect(k, f)])
  }

  lemma PassingIs(k: nat, n: Node, f: Frame, now: nat)
    requires !f.h.flags.wantsAck
    ensures Transmit(k, n, f, 0, NoCallback, now) == Passing(k, n, f, now)
  {
  }

  /** The slot that a farewell is about: live, with the sender's address, and of that UUID. */
  predicate TakesLeave(s: Mac, src: byte, uuid: u64, k: nat) {
    k < 32 && Reaches(s, src, k) && s.nodes[k].uuid == uuid
  }

  lemma LeavingIs(s: Mac, from: Option<nat>, src: byte, uuid: u64)
    requires s.params.coordinator && (from.Some? ==> from.value <= COORD && GetNode(s, from.value).state != Unregistered)
    ensures var k := Leaving(Heard(s, from).nodes, src, uuid);
            if k < 32 then TakesLeave(s, src, uuid, k) else forall j :: 0 <= j < 32 ==> !TakesLeave(s, src, uuid, j)
  {
    var t := Heard(s, from).nodes;
    var k := FirstAddr(t, src, 0);
    forall j | 0 <= j < 32 ensures Holder(s, j, src) <==> AnswersTo(t[j], src) {
    }
    forall j | 0 <= j < 32 && TakesLeave(s, src, uuid, j) ensures Leaving(t, src, uuid) == j {
      assert AnswersTo(t[j], src);
      assert !(j < k) && !(k < j);
    }
  }

  lemma LeaveIs(s: Mac, src: byte, uuid: u64)
    requires s.params.coordinator && Leaving(s.nodes, src, uuid) < 32
    ensures var k := Leaving(s.nodes, src, uuid);
            var n := s.nodes[k];
            var f := Frame(Header(PLAIN, s.net, n.addr, s.addr, s.dseq + 1), RegResponse(uuid, 0xFF, 0));
            var o := if s.mtu >= 16 then Passing(k, n, f, s.tick) else NodeOut(n, []);
            RxDeregRequest(s, src, uuid) ==
            Out(Renumbered(SetNode(s, k, o.n.(state := Unregistered)), 16), o.ev + [NodeGone(k)])
  {
    var k := Leaving(s.nodes, src, uuid);
    var n := s.nodes[k];
    var f := Frame(Header(PLAIN, s.net, n.addr, s.addr, s.dseq + 1), RegResponse(uuid, 0xFF, 0));
    PassingIs(k, n, f, s.tick);
  }

  /** A coordinator that a registered node takes leave of confirms it to that node, drops it, and reports it
      gone. Nobody else can do it in the node's name. */
  lemma LeaveTaken(s: Mac, f: Frame, ackSent: bool) returns (from: Option<nat>, k: nat)
    requires Taken(s, f.h) && f.body.DeregRequest? && s.params.coordinator
    ensures from.Some? ==> from.value <= COORD
    ensures var h := Heard(s, from);
            if k < 32 then
              var n := h.nodes[k];
              var g := Frame(Header(PLAIN, s.net, f.h.src, s.addr, s.dseq + 1), RegResponse(f.body.uuid, 0xFF, 0));
              var o := if s.mtu >= 16 then Passing(k, n, g, s.tick) else NodeOut(n, []);
              && TakesLeave(s, f.h.src, f.body.uuid, k)
              && Effect(s, f, from, Recv(s, f, ackSent), Renumbered(SetNode(h, k, o.n.(state := Unregistered)), 16),
                        o.ev + [NodeGone(k)])
            else
              && (forall j :: 0 <= j < 32 ==> !TakesLeave(s, f.h.src, f.body.uuid, j))
              && Effect(s, f, from, Recv(s, f, ackSent), h, [])
  {
    from := RecvIs(s, f, ackSent);
    var h := Heard(s, from);
    k := Leaving(h.nodes, f.h.src, f.body.uuid);
    LeavingIs(s, from, f.h.src, f.body.uuid);
    if k < 32 {
      LeaveIs(h, f.h.src, f.body.uuid);
      assert h.nodes[k].addr == f.h.src;
    }
  }

  // What a client makes of its coordinator

  /** The coordinator record of a client that binds to the sender of a beacon. */
  function Binding(s: Mac, f: Frame): Mac
    requires f.body.Beacon?
  {
    s.(client := ClientRegistering, net := f.h.net, timer := Due(s.tick + 4),
       coord := s.coord.(state := Registered, addr := f.h.src, uuid := f.body.uuid, flags := Attach(0, false, 0),
                         lastHeard := s.tick))
  }

  predicate Seeking(s: Mac) { s.client == ClientUnregistered || s.client == ClientBeaconRequest }

  lemma BindIs(s: Mac, f: Frame)
    requires !s.params.coordinator && f.body.Beacon? && Seeking(s) && f.body.permit
    ensures var g := Frame(Header(PLAIN, f.h.net, f.h.src, s.addr, s.dseq + 1), RegRequest(s.params.uuid, s.params.flags));
            RxBeacon(s, f) == Out(Renumbered(Binding(s, f), 16), if s.mtu >= 16 then [SentDirect(COORD, g)] else [])
  {
  }

  lemma PollIs(s: Mac, f: Frame)
    requires !s.params.coordinator && f.body.Beacon? && s.client == ClientRegistered && s.addr in f.body.addrs
    ensures var g := Frame(Header(PLAIN, s.net, s.coord.addr, s.addr, s.dseq + 1), Poll);
            var o := if s.mtu >= 6 then Passing(COORD, s.coord, g, s.tick) else NodeOut(s.coord, []);
            RxBeacon(s, f) == Out(Renumbered(s.(coord := o.n), 6), o.ev)
  {
    PassingIs(COORD, s.coord, Frame(Header(PLAIN, s.net, s.coord.addr, s.addr, s.dseq + 1), Poll), s.tick);
  }

  /** A client that looks for a network binds to the sender of any beacon that permits it, and asks it to
      register; a registered one that is listed polls; otherwise a beacon only ends the wait for it. */
  lemma BeaconTaken(s: Mac, f: Frame, ackSent: bool) returns (from: Option<nat>)
    requires Taken(s, f.h) && f.body.Beacon? && !s.params.coordinator
    ensures from.Some? ==> from.value <= COORD
    ensures var h := Heard(s, from);
            if Seeking(s) && f.body.permit then
              var g := Frame(Header(PLAIN, f.h.net, f.h.src, s.addr, s.dseq + 1), RegRequest(s.params.uuid, s.params.flags));
              Effect(s, f, from, Recv(s, f, ackSent), Renumbered(Binding(h, f), 16),
                     if s.mtu >= 16 then [SentDirect(COORD, g)] else [])
            else if s.client == ClientRegistered && s.addr in f.body.addrs then
              var g := Frame(Header(PLAIN, s.net, h.coord.addr, s.addr, s.dseq + 1), Poll);
              var o := if s.mtu >= 6 then Passing(COORD, h.coord, g, s.tick) else NodeOut(h.coord, []);
              Effect(s, f, from, Recv(s, f, ackSent), Renumbered(h.(coord := o.n), 6), o.ev)
            else
              Effect(s, f, from, Recv(s, f, ackSent), if s.client == ClientBeaconRequest then h.(timer := Off) else h, [])
  {
    from := RecvIs(s, f, ackSent);
    var h := Heard(s, from);
    if Seeking(s) && f.body.permit {
      BindIs(h, f);
    } else if s.client == ClientRegistered && s.addr in f.body.addrs {
      PollIs(h, f);
    }
  }

  /** A client that has lost its network. */
  function Lost(s: Mac): Mac {
    s.(client := ClientUnregistered, addr := 0xFF, net := 0xFF)
  }

  /** A client takes the address it waits for, from a success that names its UUID; gives up its own on any
      other answer to itself, and on one for another UUID that comes to its address; and lets answers to
      others pass. */
  lemma ResponseTaken(s: Mac, f: Frame, ackSent: bool) returns (from: Option<nat>)
    requires Taken(s, f.h) && f.body.RegResponse? && !s.params.coordinator
    ensures from.Some? ==> from.value <= COORD
    ensures var h := Heard(s, from);
            var mine := f.body.uuid == s.params.uuid;
            var stopped := if s.client == ClientRegistering then h.(timer := Off) else h;
            var s' := if !mine then (if f.h.dest == 0xFF then h else Lost(h))
                      else if f.body.status != 0 || f.body.addr == 0xFF then Lost(stopped)
                      else if s.client == ClientRegistering then
                        stopped.(client := ClientRegistered, addr := f.body.addr, net := f.h.net)
                      else h;
            Effect(s, f, from, Recv(s, f, ackSent), s', [])
  {
    from := RecvIs(s, f, ackSent);
  }
}
