/** One device running lib/tinymac.c: a step per call of tinymac_send, tinymac_recv_cb,
    tinymac_tick_handler and tinymac_permit_attach. */
module MacMachine {
  import opened Words
  import opened MacTypes
  import opened MacSlot

  datatype Out = Out(s: Mac, ev: seq<Event>)

  /** Configuration and time are the same. */
  predicate SameDevice(s: Mac, s': Mac) {
    s'.params == s.params && s'.mtu == s.mtu && s'.tick == s.tick
  }

  // Node registry

  function GetNode(s: Mac, k: nat): Node
    requires k <= COORD
  {
    if k < MAX_NODES then s.nodes[k] else s.coord
  }

  function SetNode(s: Mac, k: nat, n: Node): Mac
    requires k <= COORD
  {
    if k < MAX_NODES then s.(nodes := s.nodes[k := n]) else s.(coord := n)
  }

  function Put(s: Mac, k: nat, o: NodeOut): Out
    requires k <= COORD
  {
    Out(SetNode(s, k, o.n), o.ev)
  }

  predicate AnswersTo(n: Node, addr: byte) {
    n.addr == addr && Live(n)
  }

  /** The scan of tinymac_get_node_by_addr from index `i`. */
  function FirstAddr(t: NodeTable, addr: byte, i: nat): (k: nat)
    requires i <= MAX_NODES
    ensures i <= k <= MAX_NODES
    ensures k < MAX_NODES ==> AnswersTo(t[k], addr)
    ensures forall j :: i <= j < k ==> !AnswersTo(t[j], addr)
    decreases |t| - i
  {
    if i == MAX_NODES || AnswersTo(t[i], addr) then i else FirstAddr(t, addr, i + 1)
  }

  /** The scan of tinymac_get_node_by_uuid from index `i`. */
  function FirstUuid(t: NodeTable, uuid: u64, i: nat): (k: nat)
    requires i <= MAX_NODES
    ensures i <= k <= MAX_NODES
    ensures k < MAX_NODES ==> t[k].uuid == uuid
    ensures forall j :: i <= j < k ==> t[j].uuid != uuid
    decreases |t| - i
  {
    if i == MAX_NODES || t[i].uuid == uuid then i else FirstUuid(t, uuid, i + 1)
  }

  function FirstUnregistered(t: NodeTable, i: nat): (k: nat)
    requires i <= MAX_NODES
    ensures i <= k <= MAX_NODES
    ensures k < MAX_NODES ==> !Live(t[k])
    ensures forall j :: i <= j < k ==> Live(t[j])
    decreases |t| - i
  {
    if i == MAX_NODES || !Live(t[i]) then i else FirstUnregistered(t, i + 1)
  }

  /** tinymac_get_free_node: a slot never allocated if there is one, else one that is free. */
  function FreeNode(t: NodeTable): (k: nat)
    ensures k <= MAX_NODES
  {
    var k := FirstUuid(t, 0, 0);
    if k < MAX_NODES then k else FirstUnregistered(t, 0)
  }

  /** tinymac_get_node_by_addr. */
  function Lookup(s: Mac, addr: byte): (r: Option<nat>)
    ensures r.Some? ==> r.value <= COORD && AnswersTo(GetNode(s, r.value), addr)
  {
    if s.params.coordinator then
      var k := FirstAddr(s.nodes, addr, 0);
      if k < MAX_NODES then Some(k) else None
    else if AnswersTo(s.coord, addr) then Some(COORD) else None
  }

  /** The slot a registration request is given, or MAX_NODES. */
  function SlotFor(t: NodeTable, uuid: u64): (k: nat)
    ensures k <= MAX_NODES
  {
    var k := FirstUuid(t, uuid, 0);
    if k < MAX_NODES then k else FreeNode(t)
  }

  // Transmit functions

  predicate Fits(s: Mac, b: Body) {
    BodySize(b) <= MAX_PAYLOAD && BodySize(b) + HEADER_SIZE <= s.mtu
  }

  function NextHeader(s: Mac, flags: Flags, dest: byte): Header {
    Header(flags, s.net, dest, s.addr, s.dseq + 1)
  }

  /** tinymac_tx_packet to a node record. */
  function SendTo(s: Mac, k: nat, flags: Flags, body: Body, validity: u16, cb: Callback): (o: Out)
    requires k <= COORD
    ensures SameDevice(s, o.s)
  {
    if !Fits(s, body) then
      Out(s, [])
    else
      var n := GetNode(s, k);
      var f := Frame(NextHeader(s, flags, n.addr), body);
      Put(s.(dseq := s.dseq + 1), k, Transmit(k, n, f, validity, cb, s.tick))
  }

  /** tinymac_tx_packet to every node, or to an address that has no record. */
  function SendUnrecorded(s: Mac, dest: byte, body: Body): (o: Out)
    ensures SameDevice(s, o.s)
  {
    if !Fits(s, body) then
      Out(s, [])
    else
      Out(s.(dseq := s.dseq + 1), [SentMac(Frame(NextHeader(s, PLAIN, dest), body))])
  }

  function AckFrame(s: Mac, n: Node, seqno: nat): Frame {
    Frame(Header(Flags(false, n.state == SendPending, false, 0), s.net, n.addr, s.addr, seqno), Ack)
  }

  /** Addresses of the slots that hold a deferred packet, from index `i`. */
  function PendingAddrs(t: NodeTable, i: nat): seq<byte>
    requires i <= MAX_NODES
    decreases |t| - i
  {
    if i == MAX_NODES then []
    else (if t[i].state == SendPending then [t[i].addr] else []) + PendingAddrs(t, i + 1)
  }

  function BeaconFrame(s: Mac, periodic: bool): Frame {
    Frame(Header(PLAIN, s.net, BROADCAST, s.addr, (s.bseq + 1) % 256),
          Beacon(s.params.uuid, s.slot, periodic, s.permitAttach, 0, NO_BEACON,
                 if periodic then PendingAddrs(s.nodes, 0) else []))
  }

  /** tinymac_tx_beacon. */
  function TxBeacon(s: Mac, periodic: bool): (o: Out)
    ensures SameDevice(s, o.s)
  {
    if s.params.coordinator then
      Out(s.(bseq := (s.bseq + 1) % 256), [SentMac(BeaconFrame(s, periodic))])
    else
      Out(s, [])
  }

  // Receive handlers

  function ClientReset(s: Mac): Mac {
    s.(client := ClientUnregistered, addr := UNASSIGNED, net := NETWORK_ANY)
  }

  predicate Attaches(s: Mac, f: Frame) {
    && !s.params.coordinator
    && (s.client == ClientUnregistered || s.client == ClientBeaconRequest)
    && f.body.Beacon? && f.body.permit
  }

  /** The coordinator record written when a client binds to a beacon's sender. */
  function BoundCoord(s: Mac, f: Frame): Node
    requires f.body.Beacon?
  {
    s.coord.(state := Registered, addr := f.h.src, uuid := f.body.uuid, flags := Attach(0, false, 0),
             lastHeard := s.tick)
  }

  /** A client that a beacon has bound to its sender, before it asks to register. */
  function Bound(s: Mac, f: Frame): Mac
    requires f.body.Beacon?
  {
    s.(client := ClientRegistering, net := f.h.net, coord := BoundCoord(s, f))
  }

  /** tinymac_rx_beacon. */
  function RxBeacon(s: Mac, f: Frame): (o: Out)
    requires f.body.Beacon?
    ensures SameDevice(s, o.s)
  {
    if s.params.coordinator then
      Out(s, [])
    else if Attaches(s, f) then
      var o := SendTo(Bound(s, f), COORD, PLAIN, RegRequest(s.params.uuid, s.params.flags), 0, NoCallback);
      Out(o.s.(timer := Due(s.tick + REGISTRATION_TICKS)), o.ev)
    else if s.client == ClientRegistered && s.addr in f.body.addrs then
      SendTo(s, COORD, PLAIN, Poll, 0, NoCallback)
    else if s.client == ClientBeaconRequest then
      Out(s.(timer := Off), [])
    else
      Out(s, [])
  }

  /** tinymac_rx_registration_response. */
  function RxRegResponse(s: Mac, f: Frame): (o: Out)
    requires f.body.RegResponse?
    ensures SameDevice(s, o.s)
  {
    if s.params.coordinator then
      Out(s, [])
    else if f.body.uuid != s.params.uuid then
      Out(if f.h.dest == BROADCAST then s else ClientReset(s), [])
    else
      var s1 := if s.client == ClientRegistering then s.(timer := Off) else s;
      if f.body.addr == UNASSIGNED || f.body.status != STATUS_SUCCESS then
        Out(ClientReset(s1), [])
      else if s.client == ClientRegistering then
        Out(s1.(client := ClientRegistered, addr := f.body.addr, net := f.h.net), [])
      else
        Out(s1, [])
  }

  /** tinymac_rx_registration_request. */
  function RxRegRequest(s: Mac, uuid: u64, attach: Attach): (o: Out)
    ensures SameDevice(s, o.s)
  {
    if !s.params.coordinator then
      Out(s, [])
    else
      var k := SlotFor(s.nodes, uuid);
      if k < MAX_NODES then
        var n := Enrol(s.nodes[k], uuid, attach, s.tick);
        var o := SendUnrecorded(SetNode(s, k, n), BROADCAST, RegResponse(uuid, n.addr, STATUS_SUCCESS));
        Out(o.s, o.ev + [NodeUp(k)])
      else
        var o := SendUnrecorded(s, BROADCAST, RegResponse(uuid, UNASSIGNED, STATUS_NETWORK_FULL));
        Out(o.s, o.ev + [NodeUp(MAX_NODES)])
  }

  /** The slot a deregistration request is about, if it names a live node by address and UUID. */
  function Leaving(t: NodeTable, src: byte, uuid: u64): (k: nat)
    ensures k <= MAX_NODES
  {
    var k := FirstAddr(t, src, 0);
    if k < MAX_NODES && t[k].uuid == uuid then k else MAX_NODES
  }

  /** tinymac_rx_deregistration_request. */
  function RxDeregRequest(s: Mac, src: byte, uuid: u64): (o: Out)
    ensures SameDevice(s, o.s)
  {
    var k := Leaving(s.nodes, src, uuid);
    if !s.params.coordinator || k == MAX_NODES then
      Out(s, [])
    else
      var o := SendTo(s, k, PLAIN, RegResponse(uuid, UNASSIGNED, STATUS_SUCCESS), 0, NoCallback);
      var d := Deregister(k, o.s.nodes[k]);
      Out(SetNode(o.s, k, d.n), o.ev + d.ev)
  }

  predicate Addressed(s: Mac, h: Header) {
    || (h.net == s.net && (h.dest == s.addr || h.dest == BROADCAST))
    || (h.net == NETWORK_ANY && h.dest == BROADCAST)
    || (s.net == NETWORK_ANY && h.dest == BROADCAST)
  }

  /** The frames tinymac_recv_cb looks at beyond its header checks. */
  predicate Admits(s: Mac, h: Header) {
    && h.src != s.addr
    && Addressed(s, h)
    && ((h.net != NETWORK_ANY && h.src != UNASSIGNED) || (s.params.coordinator && s.permitAttach))
  }

  /** What a frame from a known node does to its record: it has been heard, it is acknowledged
      if it asks to be (`ackSent` is whether the PHY took the ack), and its deferred packet goes out. */
  function HearNode(s: Mac, k: nat, n: Node, h: Header, ackSent: bool): NodeOut {
    var n1 := n.(lastHeard := s.tick);
    var a := if !h.flags.wantsAck || !ackSent then NodeOut(n1, []) else Flush(k, n1, s.tick);
    var b := Flush(k, a.n, s.tick);
    NodeOut(b.n, (if h.flags.wantsAck then [SentMac(AckFrame(s, n1, h.seqno))] else []) + a.ev + b.ev)
  }

  /** tinymac_recv_cb after the source has been looked up. */
  function Handle(s: Mac, from: Option<nat>, f: Frame): (o: Out)
    requires from.Some? ==> from.value <= COORD
    ensures SameDevice(s, o.s)
  {
    match f.body
    case Data(_, _) => Out(s, [Delivered(from, f.body)])
    case Beacon(_, _, _, _, _, _, _) => RxBeacon(s, f)
    case BeaconRequest => TxBeacon(s, false)
    case Ack =>
      if from.Some? then Put(s, from.value, AckReceived(from.value, GetNode(s, from.value), f.h.seqno))
      else Out(s, [])
    case RegRequest(uuid, attach) => RxRegRequest(s, uuid, attach)
    case DeregRequest(uuid, _) => RxDeregRequest(s, f.h.src, uuid)
    case RegResponse(_, _, _) => RxRegResponse(s, f)
    case _ => Out(s, [])
  }

  predicate ChecksSource(s: Mac, h: Header) {
    s.addr != UNASSIGNED && h.src != UNASSIGNED
  }

  /** The node a frame is known to come from, when there is an address to look up. */
  function SourceOf(s: Mac, h: Header): (r: Option<nat>)
    ensures r.Some? ==> r.value <= COORD
  {
    if ChecksSource(s, h) then Lookup(s, h.src) else None
  }

  predicate Stranger(s: Mac, h: Header) {
    ChecksSource(s, h) && Lookup(s, h.src).None?
  }

  /** Hearing from a source that has been looked up, if there was one to look up. */
  function Prelude(s: Mac, f: Frame, ackSent: bool): (o: Out)
    ensures SameDevice(s, o.s)
  {
    var from := SourceOf(s, f.h);
    if from.Some? then
      Put(s, from.value, HearNode(s, from.value, GetNode(s, from.value), f.h, ackSent))
    else
      Out(s, [])
  }

  /** tinymac_recv_cb. */
  function Recv(s: Mac, f: Frame, ackSent: bool): (o: Out)
    ensures SameDevice(s, o.s)
  {
    if !Admits(s, f.h) then
      Out(s, [])
    else if Stranger(s, f.h) then
      if s.params.coordinator then
        SendUnrecorded(s, f.h.src, RegResponse(0, UNASSIGNED, STATUS_ADDRESS_INVALID))
      else
        Out(s, [])
    else
      var p := Prelude(s, f, ackSent);
      var h := Handle(p.s, SourceOf(s, f.h), f);
      Out(h.s, p.ev + h.ev)
  }

  // Public functions

  /** tinymac_init on a zeroed context; the random values are parameters. */
  function Init(params: Params, mtu: nat, net: byte, dseq: byte, bseq: byte): Mac {
    Mac(params, mtu, 0,
        if params.coordinator then net else NETWORK_ANY,
        if params.coordinator then 0 else UNASSIGNED,
        dseq, 0,
        if params.coordinator then ClientRegistered else ClientUnregistered,
        BLANK_NODE, Off,
        bseq, seq(MAX_NODES, i requires 0 <= i < MAX_NODES => BLANK_NODE.(addr := i + 1)), false)
  }

  function SendValidity(n: Node, validity: u16): u16 {
    Pow2Monotone(n.flags.heartbeat, 15);
    assert Pow2(15) == 0x8000;
    if validity == 0 then Pow2(n.flags.heartbeat) else validity
  }

  /** tinymac_send; packet types below tinymacType_RawData are refused. */
  function Send(s: Mac, dest: byte, flags: Flags, body: Body, validity: u16, cb: Callback): (o: Out)
    ensures SameDevice(s, o.s)
  {
    var r := Lookup(s, dest);
    if !body.Data? || r.None? then Out(s, [])
    else SendTo(s, r.value, flags, body, SendValidity(GetNode(s, r.value), validity), cb)
  }

  predicate BeaconDue(s: Mac) {
    s.slot % Pow2(s.params.beaconInterval) == s.params.beaconOffset
  }

  function Joined(parts: seq<seq<Event>>, i: nat): seq<Event>
    requires i <= |parts|
    decreases |parts| - i
  {
    if i == |parts| then [] else parts[i] + Joined(parts, i + 1)
  }

  function NodeTickEvents(t: NodeTable, now: nat): (parts: seq<seq<Event>>)
    ensures |parts| == MAX_NODES
  {
    seq(MAX_NODES, i requires 0 <= i < MAX_NODES => TickNode(i, t[i], now).ev)
  }

  /** The coordinator's per-node work, slot by slot. */
  function TickNodes(s: Mac): (o: Out)
    ensures SameDevice(s, o.s)
  {
    var t: NodeTable := seq(MAX_NODES, i requires 0 <= i < MAX_NODES => TickNode(i, s.nodes[i], s.tick).n);
    Out(s.(nodes := t), Joined(NodeTickEvents(s.nodes, s.tick), 0))
  }

  /** The slot counter moves on, and a periodic beacon goes out if one is due. */
  function BeaconTick(s: Mac): (o: Out)
    ensures SameDevice(s, o.s)
  {
    var s1 := s.(slot := (s.slot + 1) % 0x1_0000);
    if BeaconDue(s1) then TxBeacon(s1, true) else Out(s1, [])
  }

  function CoordinatorTick(s: Mac): Out {
    var b := BeaconTick(s);
    var t := TickNodes(b.s);
    Out(t.s, b.ev + t.ev)
  }

  /** A change of the coordinator record; losing the coordinator unregisters the client. */
  function PutCoord(s: Mac, o: NodeOut): (r: Out)
    ensures SameDevice(s, r.s)
  {
    var s1 := s.(coord := o.n);
    Out(if NodeGone(COORD) in o.ev then ClientReset(s1) else s1, o.ev)
  }

  predicate Requesting(s: Mac) {
    s.client == ClientBeaconRequest || s.client == ClientRegistering
  }

  /** tinymac_despatch_timer on the client's own timer, with tinymac_request_timeout. */
  function DespatchRequest(s: Mac): (o: Out)
    ensures SameDevice(s, o.s)
  {
    if !Fires(s.timer, s.tick) then
      Out(s, [])
    else if Requesting(s) then
      PutCoord(s.(timer := Off), Deregister(COORD, s.coord))
    else
      Out(s.(timer := Off), [])
  }

  function RequestBeacon(s: Mac): (o: Out)
    ensures SameDevice(s, o.s)
  {
    if s.client == ClientUnregistered then
      var o := SendUnrecorded(s.(client := ClientBeaconRequest), BROADCAST, BeaconRequest);
      Out(o.s.(timer := Due(s.tick + BEACON_REQUEST_TICKS)), o.ev)
    else
      Out(s, [])
  }

  /** A client's tick up to its own timer. */
  function ClientTimers(s: Mac): (o: Out)
    ensures SameDevice(s, o.s)
  {
    var b := RequestBeacon(s);
    var a := PutCoord(b.s, DespatchAck(COORD, b.s.coord, s.tick));
    var v := PutCoord(a.s, DespatchValidity(COORD, a.s.coord, s.tick));
    Out(v.s, b.ev + a.ev + v.ev)
  }

  function ClientTick(s: Mac): Out {
    var v := ClientTimers(s);
    var r := DespatchRequest(v.s);
    Out(r.s, v.ev + r.ev)
  }

  /** tinymac_tick_handler. */
  function Tick(s: Mac): (r: Out)
    ensures SameDevice(s, r.s.(tick := s.tick)) && r.s.tick == s.tick + 1
  {
    var o := if s.params.coordinator then CoordinatorTick(s) else ClientTick(s);
    Out(o.s.(tick := s.tick + 1), o.ev)
  }

  datatype Input =
    | DoSend(dest: byte, flags: Flags, body: Body, validity: u16, cb: Callback)
    | DoReceive(frame: Frame, ackSent: bool)
    | DoTick
    | DoPermit(permit: bool)

  function Step(s: Mac, i: Input): Out {
    match i
    case DoSend(dest, flags, body, validity, cb) => Send(s, dest, flags, body, validity, cb)
    case DoReceive(f, ackSent) => Recv(s, f, ackSent)
    case DoTick => Tick(s)
    case DoPermit(permit) => Out(s.(permitAttach := permit), [])
  }

  /** Any sequence of calls. */
  function Run(s: Mac, ins: seq<Input>): Out {
    if ins == [] then
      Out(s, [])
    else
      var a := Run(s, ins[..|ins| - 1]);
      var b := Step(a.s, ins[|ins| - 1]);
      Out(b.s, a.ev + b.ev)
  }

  lemma StepParams(s: Mac, i: Input)
    ensures Step(s, i).s.params == s.params && Step(s, i).s.mtu == s.mtu
  {
  }

  lemma {:induction false} RunParams(s: Mac, ins: seq<Input>)
    ensures Run(s, ins).s.params == s.params && Run(s, ins).s.mtu == s.mtu
    decreases |ins|
  {
    if ins == [] {
    } else {
      RunParams(s, ins[..|ins| - 1]);
      StepParams(Run(s, ins[..|ins| - 1]).s, ins[|ins| - 1]);
    }
  }
}
