/** lib/tinymac.c as a program: a device whose fields have the program's widths, updated in place
    by its handlers.  `st` is the state of the reference machine that it follows, `log` the machine's
    log; the device's own words are those of `st` cut to size. */
module MacDevice {
  import opened Words
  import opened MacTypes
  import opened MacSlot
  import opened MacMachine
  import opened Timers
  import opened Wire

  function Cut(t: Timer): Timer {
    if t.Due? then Due(Wrap32(t.at)) else Off
  }

  function CutNode(n: Node): Node {
    n.(lastHeard := Wrap32(n.lastHeard), pending := OnAir(n.pending),
       ackTimer := Cut(n.ackTimer), validityTimer := Cut(n.validityTimer))
  }

  function CutEvent(e: Event): Event {
    if e.Accepted? || e.Sent? || e.SentDirect? || e.SentMac? then e.(frame := OnAir(e.frame)) else e
  }

  function CutLog(ev: seq<Event>): seq<Event> {
    seq(|ev|, i requires 0 <= i < |ev| => CutEvent(ev[i]))
  }

  /** The program's test that a timer is armed and has expired. */
  predicate Expired(t: Timer, tick: u32) {
    t.Due? && Signed32(Wrap32(tick - t.at)) >= 0
  }

  /** A node operation on whichever record slot `k` is; losing the coordinator resets the client. */
  function Place(s: Mac, k: nat, o: NodeOut): (r: Out)
    requires k <= COORD
    ensures SameDevice(s, r.s)
  {
    if k == COORD then PutCoord(s, o) else Put(s, k, o)
  }

  class TinyMac {
    const params: Params
    const mtu: nat
    var tick: u32
    var net: byte
    var addr: byte
    var dseq: byte
    var slot: u16
    var client: ClientState
    var coord: Node
    var timer: Timer
    var bseq: byte
    const nodes: array<Node>
    var permitAttach: bool
    var out: seq<Event>  // frames given to the PHY and callbacks made, in order

    ghost var st: Mac
    ghost var log: seq<Event>

    /** The fields are those of `st`, cut to size. */
    ghost predicate Rep()
      reads this, nodes
    {
      && nodes.Length == MAX_NODES
      && params == st.params && mtu == st.mtu && tick == Wrap32(st.tick)
      && net == st.net && addr == st.addr && dseq == st.dseq % 256 && slot == st.slot
      && client == st.client && coord == CutNode(st.coord) && timer == Cut(st.timer)
      && bseq == st.bseq && permitAttach == st.permitAttach
      && (forall k :: 0 <= k < MAX_NODES ==> nodes[k] == CutNode(st.nodes[k]))
      && out == CutLog(log)
    }

    ghost predicate Valid()
      reads this, nodes
    {
      Rep() && Timely(st)
    }

    function Ref(k: nat): Node
      requires nodes.Length == MAX_NODES && k <= COORD
      reads this, nodes
    {
      if k < MAX_NODES then nodes[k] else coord
    }

    /** tinymac_init. */
    constructor (params: Params, mtu: nat, net: byte, dseq: byte, bseq: byte)
      ensures Valid() && fresh(nodes)
      ensures st == Init(params, mtu, net, dseq, bseq) && log == []
    {
      this.params := params;
      this.mtu := mtu;
      tick, slot := 0, 0;
      this.net := if params.coordinator then net else NETWORK_ANY;
      addr := if params.coordinator then 0 else UNASSIGNED;
      this.dseq, this.bseq := dseq, bseq;
      client := if params.coordinator then ClientRegistered else ClientUnregistered;
      coord, timer := BLANK_NODE, Off;
      nodes := new Node[MAX_NODES](i => BLANK_NODE.(addr := if 0 <= i < MAX_NODES then i + 1 else 0));
      permitAttach := false;
      out, log := [], [];
      st := Init(params, mtu, net, dseq, bseq);
      new;
      InitTimely(params, mtu, net, dseq, bseq);
    }

    /** Hands a frame to the PHY, or makes a callback. */
    method Emit(e: Event, ghost full: Event)
      requires Rep() && e == CutEvent(full)
      modifies this`out, this`log
      ensures Rep() && log == old(log) + [full]
    {
      out := out + [e];
      log := log + [full];
    }

    /** Stores a node record. */
    method Store(k: nat, n: Node, ghost full: Node)
      requires Rep() && k <= COORD && n == CutNode(full)
      modifies this`coord, this`st, nodes
      ensures Rep() && st == SetNode(old(st), k, full)
    {
      st := SetNode(st, k, full);
      if k < MAX_NODES {
        nodes[k] := n;
      } else {
        coord := n;
      }
    }

    // Node registry

    /** tinymac_get_node_by_addr. */
    method FindAddr(a: byte) returns (r: Option<nat>)
      requires Rep()
      ensures r == Lookup(st, a)
    {
      if params.coordinator {
        var n := 0;
        while n < MAX_NODES
          invariant 0 <= n <= MAX_NODES
          invariant FirstAddr(st.nodes, a, 0) == FirstAddr(st.nodes, a, n)
        {
          if nodes[n].addr == a && nodes[n].state != Unregistered {
            return Some(n);
          }
          n := n + 1;
        }
        return None;
      } else {
        return if coord.state != Unregistered && coord.addr == a then Some(COORD) else None;
      }
    }

    /** tinymac_get_node_by_uuid; MAX_NODES stands for NULL. */
    method FindUuid(uuid: u64) returns (k: nat)
      requires Rep()
      ensures k == FirstUuid(st.nodes, uuid, 0)
    {
      k := 0;
      while k < MAX_NODES && nodes[k].uuid != uuid
        invariant 0 <= k <= MAX_NODES
        invariant FirstUuid(st.nodes, uuid, 0) == FirstUuid(st.nodes, uuid, k)
      {
        k := k + 1;
      }
    }

    /** tinymac_get_free_node, one pass that remembers a fallback. */
    method FindFree() returns (k: nat)
      requires Rep()
      ensures k == FreeNode(st.nodes)
    {
      var fallback := MAX_NODES;
      k := 0;
      while k < MAX_NODES
        invariant 0 <= k <= MAX_NODES
        invariant FirstUuid(st.nodes, 0, 0) == FirstUuid(st.nodes, 0, k)
        invariant FirstUnregistered(st.nodes, 0) ==
                  if fallback < MAX_NODES then fallback else FirstUnregistered(st.nodes, k)
        invariant fallback <= MAX_NODES
      {
        if nodes[k].uuid == 0 {
          return k;
        }
        if fallback == MAX_NODES && nodes[k].state == Unregistered {
          fallback := k;
        }
        k := k + 1;
      }
      k := fallback;
    }

    /** tinymac_deregister_node. */
    method DeregisterNode(k: nat)
      requires Rep() && k <= COORD
      modifies this, nodes
      ensures var o := Place(old(st), k, Deregister(k, GetNode(old(st), k)));
              Rep() && st == o.s && log == old(log) + o.ev
    {
      Store(k, Ref(k).(state := Unregistered), GetNode(st, k).(state := Unregistered));
      if k == COORD {
        client, addr, net := ClientUnregistered, UNASSIGNED, NETWORK_ANY;
        st := ClientReset(st);
      }
      Emit(NodeGone(k), NodeGone(k));
    }

    // Timeouts

    /** tinymac_ack_timeout. */
    method OnAckTimeout(k: nat)
      requires Rep() && k <= COORD
      modifies this, nodes
      ensures var o := Place(old(st), k, AckTimeout(k, GetNode(old(st), k), old(st).tick));
              Rep() && st == o.s && log == old(log) + o.ev
    {
      var n := Ref(k);
      ghost var full := GetNode(st, k);
      if n.retries != 0 {
        if n.flags.sleepy {
          Store(k, n.(retries := n.retries - 1, state := SendPending),
                full.(retries := full.retries - 1, state := SendPending));
        } else {
          Store(k, n.(retries := n.retries - 1, ackTimer := Due(Wrap32(tick + ACK_TICKS))),
                full.(retries := full.retries - 1, ackTimer := Due(st.tick + ACK_TICKS)));
          Emit(Sent(k, n.pending), Sent(k, full.pending));
        }
      } else {
        Store(k, n.(retries := 255, validityTimer := Off), full.(retries := 255, validityTimer := Off));
        Emit(Resolved(k, n.sendCb, false), Resolved(k, full.sendCb, false));
        label gone:
        DeregisterNode(k);
        Regroup(old(log), [Resolved(k, full.sendCb, false)], [NodeGone(k)]);
        assert st == Place(old(st), k, AckTimeout(k, full, old(st).tick)).s by {
          Overwrite(old(st), k, full.(retries := 255, validityTimer := Off),
                    full.(retries := 255, validityTimer := Off, state := Unregistered));
        }
      }
    }

    /** tinymac_validity_timeout. */
    method OnValidityTimeout(k: nat)
      requires Rep() && k <= COORD
      modifies this, nodes
      ensures var o := Place(old(st), k, ValidityTimeout(k, GetNode(old(st), k)));
              Rep() && st == o.s && log == old(log) + o.ev
    {
      var n := Ref(k);
      ghost var full := GetNode(st, k);
      Store(k, n.(state := Registered, ackTimer := Off), full.(state := Registered, ackTimer := Off));
      Emit(Resolved(k, n.sendCb, false), Resolved(k, full.sendCb, false));
    }

    /** tinymac_despatch_timer on a node's ack timer. */
    method DespatchAckTimer(k: nat)
      requires Rep() && k <= COORD && Ahead(GetNode(st, k).ackTimer, st.tick, LONGEST)
      modifies this, nodes
      ensures var o := Place(old(st), k, DespatchAck(k, GetNode(old(st), k), old(st).tick));
              Rep() && st == o.s && log == old(log) + o.ev
    {
      var n := Ref(k);
      ghost var full := GetNode(st, k);
      ExpiredIff(full.ackTimer, st.tick);
      if Expired(n.ackTimer, tick) {
        Store(k, n.(ackTimer := Off), full.(ackTimer := Off));
        OnAckTimeout(k);
        PlaceAfterStore(old(st), k, full.(ackTimer := Off), AckTimeout(k, full.(ackTimer := Off), old(st).tick));
      } else {
        PlaceSame(st, k);
      }
    }

    /** tinymac_despatch_timer on a node's validity timer. */
    method DespatchValidityTimer(k: nat)
      requires Rep() && k <= COORD && Ahead(GetNode(st, k).validityTimer, st.tick, LONGEST)
      modifies this, nodes
      ensures var o := Place(old(st), k, DespatchValidity(k, GetNode(old(st), k), old(st).tick));
              Rep() && st == o.s && log == old(log) + o.ev
    {
      var n := Ref(k);
      ghost var full := GetNode(st, k);
      ExpiredIff(full.validityTimer, st.tick);
      if Expired(n.validityTimer, tick) {
        Store(k, n.(validityTimer := Off), full.(validityTimer := Off));
        OnValidityTimeout(k);
        PlaceAfterStore(old(st), k, full.(validityTimer := Off), ValidityTimeout(k, full.(validityTimer := Off)));
      } else {
        PlaceSame(st, k);
      }
    }

    // Transmit functions

    /** tinymac_tx_packet for a sleepy node: the packet waits in its buffer. */
    method Defer(k: nat, f: Frame, ghost g: Frame, validity: u16, cb: Callback)
      requires Rep() && k <= COORD && f == OnAir(g)
      requires GetNode(st, k).state == Registered && GetNode(st, k).flags.sleepy
      modifies this, nodes
      ensures var o := Put(old(st), k, Transmit(k, GetNode(old(st), k), g, validity, cb, old(st).tick));
              Rep() && st == o.s && log == old(log) + o.ev
    {
      Store(k, Ref(k).(pending := f, sendCb := cb, retries := MAX_RETRIES,
                       validityTimer := Due(Wrap32(tick + Seconds(validity))), state := SendPending),
            GetNode(st, k).(pending := g, sendCb := cb, retries := MAX_RETRIES,
                            validityTimer := Due(st.tick + Seconds(validity)), state := SendPending));
      Emit(Accepted(k, f, cb), Accepted(k, g, cb));
    }

    /** tinymac_tx_packet for a packet that must be acknowledged by a node that listens. */
    method Launch(k: nat, f: Frame, ghost g: Frame, ghost validity: u16, cb: Callback)
      requires Rep() && k <= COORD && f == OnAir(g) && g.h.flags.wantsAck
      requires GetNode(st, k).state == Registered && !GetNode(st, k).flags.sleepy
      modifies this, nodes
      ensures var o := Put(old(st), k, Transmit(k, GetNode(old(st), k), g, validity, cb, old(st).tick));
              Rep() && st == o.s && log == old(log) + o.ev
    {
      Store(k, Ref(k).(pending := f, sendCb := cb, retries := MAX_RETRIES,
                       ackTimer := Due(Wrap32(tick + ACK_TICKS)), state := WaitAck),
            GetNode(st, k).(pending := g, sendCb := cb, retries := MAX_RETRIES,
                            ackTimer := Due(st.tick + ACK_TICKS), state := WaitAck));
      Emit(Accepted(k, f, cb), Accepted(k, g, cb));
      Emit(Sent(k, f), Sent(k, g));
      Regroup(old(log), [Accepted(k, g, cb)], [Sent(k, g)]);
    }

    /** The part of tinymac_tx_packet that copies a packet into its node's buffer. */
    method Buffer(k: nat, f: Frame, ghost g: Frame, validity: u16, cb: Callback)
      requires Rep() && k <= COORD && f == OnAir(g)
      requires GetNode(st, k).state == Registered && NeedsBuffer(GetNode(st, k), g)
      modifies this, nodes
      ensures var o := Put(old(st), k, Transmit(k, GetNode(old(st), k), g, validity, cb, old(st).tick));
              Rep() && st == o.s && log == old(log) + o.ev
    {
      if Ref(k).flags.sleepy {
        Defer(k, f, g, validity, cb);
      } else {
        Launch(k, f, g, validity, cb);
      }
    }

    /** The pre-increment of the outbound sequence number. */
    method NextSeq()
      requires Rep()
      modifies this`dseq, this`st
      ensures Rep() && st == old(st).(dseq := old(st).dseq + 1)
    {
      dseq := (dseq + 1) % 256;
      st := st.(dseq := st.dseq + 1);
    }

    /** tinymac_tx_packet to a node record.  `taken` is whether the PHY takes a frame now. */
    method TxPacket(k: nat, flags: Flags, body: Body, validity: u16, cb: Callback, taken: bool) returns (rc: int)
      requires Rep() && k <= COORD
      modifies this, nodes
      ensures var o := SendTo(old(st), k, flags, body, validity, cb);
              && Rep() && st == o.s && log == old(log) + o.ev
              && rc == if o.ev != [] && (taken || GetNode(old(st), k).flags.sleepy) then 0 else -1
    {
      if BodySize(body) > MAX_PAYLOAD || BodySize(body) + HEADER_SIZE > mtu {
        return -1;
      }
      var n := Ref(k);
      ghost var g := Frame(NextHeader(st, flags, GetNode(st, k).addr), body);
      NextSeq();
      var f := Frame(Header(flags, net, n.addr, addr, dseq), body);
      if n.state != Registered {
        PlaceSame(st, k);
        return -1;
      }
      if flags.wantsAck || n.flags.sleepy {
        Buffer(k, f, g, validity, cb);
      } else {
        Emit(SentDirect(k, f), SentDirect(k, g));
        PlaceSame(st, k);
      }
      return if taken || n.flags.sleepy then 0 else -1;
    }

    /** tinymac_tx_packet to everybody, or to an address without a record. */
    method TxUnrecorded(dest: byte, body: Body)
      requires Rep()
      modifies this, nodes
      ensures var o := SendUnrecorded(old(st), dest, body);
              Rep() && st == o.s && log == old(log) + o.ev
      ensures unchanged(nodes) && coord == old(coord)
    {
      if BodySize(body) <= MAX_PAYLOAD && BodySize(body) + HEADER_SIZE <= mtu {
        ghost var g := Frame(NextHeader(st, PLAIN, dest), body);
        NextSeq();
        Emit(SentMac(Frame(Header(PLAIN, net, dest, addr, dseq), body)), SentMac(g));
      }
    }

    /** tinymac_tx_pending. */
    method TxPending(k: nat)
      requires Rep() && k <= COORD
      modifies this, nodes
      ensures var o := Put(old(st), k, Flush(k, GetNode(old(st), k), old(st).tick));
              Rep() && st == o.s && log == old(log) + o.ev
    {
      var n := Ref(k);
      ghost var full := GetNode(st, k);
      if n.state != SendPending {
        PlaceSame(st, k);
        return;
      }
      if n.pending.h.flags.wantsAck {
        Store(k, n.(state := WaitAck, ackTimer := Due(Wrap32(tick + ACK_TICKS))),
              full.(state := WaitAck, ackTimer := Due(st.tick + ACK_TICKS)));
      } else {
        Store(k, n.(state := Registered), full.(state := Registered));
      }
      Emit(Sent(k, n.pending), Sent(k, full.pending));
      if !n.pending.h.flags.wantsAck {
        Store(k, Ref(k).(validityTimer := Off), GetNode(st, k).(validityTimer := Off));
        Emit(Resolved(k, n.sendCb, true), Resolved(k, full.sendCb, true));
        Regroup(old(log), [Sent(k, full.pending)], [Resolved(k, full.sendCb, true)]);
        assert st == Put(old(st), k, Flush(k, full, old(st).tick)).s by {
          Overwrite(old(st), k, full.(state := Registered), full.(state := Registered, validityTimer := Off));
        }
      }
    }

    /** tinymac_tx_ack; `taken` is whether the PHY takes the ack. */
    method TxAck(k: nat, seqno: byte, taken: bool)
      requires Rep() && k <= COORD
      modifies this, nodes
      ensures var n := GetNode(old(st), k);
              var a := if taken then Flush(k, n, old(st).tick) else NodeOut(n, []);
              Rep() && st == SetNode(old(st), k, a.n) && log == old(log) + ([SentMac(AckFrame(old(st), n, seqno))] + a.ev)
    {
      var n := Ref(k);
      ghost var ack := SentMac(AckFrame(st, GetNode(st, k), seqno));
      Emit(SentMac(Frame(Header(Flags(false, n.state == SendPending, false, 0), net, n.addr, addr, seqno), Ack)), ack);
      if taken {
        ghost var l := log;
        TxPending(k);
        Regroup(old(log), [ack], Flush(k, GetNode(old(st), k), old(st).tick).ev);
      } else {
        PlaceSame(st, k);
        assert [ack] + [] == [ack];
      }
    }

    /** The list of nodes with data pending that a periodic beacon carries. */
    method PendingList() returns (addrs: seq<byte>)
      requires Rep()
      ensures addrs == PendingAddrs(st.nodes, 0)
    {
      addrs := [];
      var n := 0;
      while n < MAX_NODES
        invariant 0 <= n <= MAX_NODES
        invariant PendingAddrs(st.nodes, 0) == addrs + PendingAddrs(st.nodes, n)
      {
        PendingMoves(addrs, st.nodes, n);
        if nodes[n].state == SendPending {
          addrs := addrs + [nodes[n].addr];
        }
        n := n + 1;
      }
      assert addrs + [] == addrs;
    }

    /** tinymac_tx_beacon. */
    method SendBeacon(periodic: bool)
      requires Rep()
      modifies this
      ensures var o := TxBeacon(old(st), periodic);
              Rep() && st == o.s && log == old(log) + o.ev
    {
      if !params.coordinator {
        return;
      }
      var addrs: seq<byte> := [];
      if periodic {
        addrs := PendingList();
      }
      ghost var full := BeaconFrame(st, periodic);
      bseq := (bseq + 1) % 256;
      st := st.(bseq := (st.bseq + 1) % 256);
      var f := Frame(Header(PLAIN, net, BROADCAST, addr, bseq),
                     Beacon(params.uuid, slot, periodic, permitAttach, 0, NO_BEACON, addrs));
      assert f == OnAir(full);
      Emit(SentMac(f), SentMac(full));
    }

    // Receive handlers

    /** The search of a beacon's address list in tinymac_rx_beacon. */
    method IsListed(addrs: seq<byte>) returns (listed: bool)
      ensures listed <==> addr in addrs
    {
      var n := 0;
      while n < |addrs|
        invariant 0 <= n <= |addrs|
        invariant addr !in addrs[..n]
      {
        if addrs[n] == addr {
          return true;
        }
        n := n + 1;
      }
      return false;
    }

    /** Takes the sender of a beacon as this client's coordinator. */
    method Bind(f: Frame)
      requires Rep() && f.body.Beacon?
      modifies this
      ensures Rep() && st == Bound(old(st), f) && log == old(log)
    {
      ghost var bound := Bound(st, f);
      client, net := ClientRegistering, f.h.net;
      coord := coord.(state := Registered, addr := f.h.src, uuid := f.body.uuid,
                      flags := Attach(0, false, 0), lastHeard := tick);
      st := bound;
    }

    method SetTimer(delay: nat)
      requires Rep()
      modifies this`timer, this`st
      ensures Rep() && st == old(st).(timer := Due(old(st).tick + delay))
    {
      timer := Due(Wrap32(tick + delay));
      st := st.(timer := Due(st.tick + delay));
    }

    /** The attachment part of tinymac_rx_beacon: bind to the network and ask to register. */
    method Register(f: Frame)
      requires Rep() && Attaches(st, f)
      modifies this, nodes
      ensures var o := RxBeacon(old(st), f);
              Rep() && st == o.s && log == old(log) + o.ev
    {
      Bind(f);
      var _ := TxPacket(COORD, PLAIN, RegRequest(params.uuid, params.flags), 0, NoCallback, true);
      SetTimer(REGISTRATION_TICKS);
    }

    /** tinymac_rx_beacon. */
    method OnBeacon(f: Frame)
      requires Rep() && f.body.Beacon?
      modifies this, nodes
      ensures var o := RxBeacon(old(st), f);
              Rep() && st == o.s && log == old(log) + o.ev
    {
      if params.coordinator {
        return;
      }
      if (client == ClientUnregistered || client == ClientBeaconRequest) && f.body.permit {
        Register(f);
        return;
      }
      if client == ClientBeaconRequest {
        timer := Off;
        st := st.(timer := Off);
      } else if client == ClientRegistered {
        var listed := IsListed(f.body.addrs);
        if listed {
          var _ := TxPacket(COORD, PLAIN, Poll, 0, NoCallback, true);
        }
      }
    }

    /** tinymac_rx_registration_response. */
    method OnRegResponse(f: Frame)
      requires Rep() && f.body.RegResponse?
      modifies this
      ensures var o := RxRegResponse(old(st), f);
              Rep() && st == o.s && log == old(log) + o.ev
    {
      if params.coordinator {
        return;
      }
      if f.body.uuid != params.uuid {
        if f.h.dest != BROADCAST {
          client, addr, net := ClientUnregistered, UNASSIGNED, NETWORK_ANY;
          st := ClientReset(st);
        }
        return;
      }
      if client == ClientRegistering {
        timer := Off;
        st := st.(timer := Off);
      }
      if f.body.addr == UNASSIGNED || f.body.status != STATUS_SUCCESS {
        client, addr, net := ClientUnregistered, UNASSIGNED, NETWORK_ANY;
        st := ClientReset(st);
      } else if client == ClientRegistering {
        client, addr, net := ClientRegistered, f.body.addr, f.h.net;
        st := st.(client := ClientRegistered, addr := f.body.addr, net := f.h.net);
      }
    }

    /** tinymac_rx_registration_request. */
    method OnRegRequest(uuid: u64, attach: Attach)
      requires Rep()
      modifies this, nodes
      ensures var o := RxRegRequest(old(st), uuid, attach);
              Rep() && st == o.s && log == old(log) + o.ev
    {
      if !params.coordinator {
        return;
      }
      var k := FindUuid(uuid);
      if k == MAX_NODES {
        k := FindFree();
      }
      if k < MAX_NODES {
        Store(k, nodes[k].(state := Registered, uuid := uuid, flags := attach, lastHeard := tick),
              Enrol(st.nodes[k], uuid, attach, st.tick));
        TxUnrecorded(BROADCAST, RegResponse(uuid, nodes[k].addr, STATUS_SUCCESS));
      } else {
        TxUnrecorded(BROADCAST, RegResponse(uuid, UNASSIGNED, STATUS_NETWORK_FULL));
      }
      ghost var sent := log[|old(log)|..];
      Emit(NodeUp(k), NodeUp(k));
      Regroup(old(log), sent, [NodeUp(k)]);
    }

    /** tinymac_rx_deregistration_request. */
    method OnDeregRequest(src: byte, uuid: u64)
      requires Rep()
      modifies this, nodes
      ensures var o := RxDeregRequest(old(st), src, uuid);
              Rep() && st == o.s && log == old(log) + o.ev
    {
      if !params.coordinator {
        return;
      }
      var r := FindAddr(src);
      if r.None? || nodes[r.value].uuid != uuid {
        return;
      }
      var k := r.value;
      var _ := TxPacket(k, PLAIN, RegResponse(uuid, UNASSIGNED, STATUS_SUCCESS), 0, NoCallback, true);
      ghost var o := SendTo(old(st), k, PLAIN, RegResponse(uuid, UNASSIGNED, STATUS_SUCCESS), 0, NoCallback);
      DeregisterNode(k);
      Regroup(old(log), o.ev, [NodeGone(k)]);
    }

    /** The acknowledgement case of tinymac_recv_cb. */
    method OnAck(k: nat, seqno: byte)
      requires Rep() && k <= COORD
      modifies this, nodes
      ensures var o := Put(old(st), k, AckReceived(k, GetNode(old(st), k), seqno));
              Rep() && st == o.s && log == old(log) + o.ev
    {
      var n := Ref(k);
      ghost var full := GetNode(st, k);
      if n.state == WaitAck && seqno == n.pending.h.seqno {
        Store(k, n.(state := Registered, ackTimer := Off, validityTimer := Off),
              full.(state := Registered, ackTimer := Off, validityTimer := Off));
        Emit(Resolved(k, n.sendCb, true), Resolved(k, full.sendCb, true));
      } else {
        PlaceSame(st, k);
      }
    }

    /** A frame from a known node: refresh it, acknowledge if asked, send what was deferred. */
    method Hear(k: nat, h: Header, taken: bool)
      requires Rep() && k <= COORD && h.seqno < 256
      modifies this, nodes
      ensures var o := Put(old(st), k, HearNode(old(st), k, GetNode(old(st), k), h, taken));
              Rep() && st == o.s && log == old(log) + o.ev
    {
      ghost var s, n1 := st, GetNode(st, k).(lastHeard := st.tick);
      Store(k, Ref(k).(lastHeard := tick), n1);
      ghost var ack := if h.flags.wantsAck then [SentMac(AckFrame(s, n1, h.seqno))] else [];
      ghost var a := if !h.flags.wantsAck || !taken then NodeOut(n1, []) else Flush(k, n1, s.tick);
      if h.flags.wantsAck {
        TxAck(k, h.seqno, taken);
      }
      assert log == old(log) + (ack + a.ev);
      Overwrite(s, k, n1, a.n);
      assert st == SetNode(s, k, a.n);
      TxPending(k);
      ghost var b := Flush(k, a.n, s.tick);
      Overwrite(s, k, a.n, b.n);
      Regroup(old(log), ack + a.ev, b.ev);
    }

    /** tinymac_recv_cb after the source has been looked up. */
    method HandleFrame(from: Option<nat>, f: Frame)
      requires Rep() && f.h.seqno < 256 && (from.Some? ==> from.value <= COORD)
      modifies this, nodes
      ensures var o := Handle(old(st), from, f);
              Rep() && st == o.s && log == old(log) + o.ev
    {
      match f.body {
        case Data(_, _) => Emit(Delivered(from, f.body), Delivered(from, f.body));
        case Beacon(_, _, _, _, _, _, _) => OnBeacon(f);
        case BeaconRequest => SendBeacon(false);
        case Ack =>
          if from.Some? {
            OnAck(from.value, f.h.seqno);
          }
        case RegRequest(uuid, attach) => OnRegRequest(uuid, attach);
        case DeregRequest(uuid, _) => OnDeregRequest(f.h.src, uuid);
        case RegResponse(_, _, _) => OnRegResponse(f);
        case _ =>
      }
    }

    /** The header checks of tinymac_recv_cb. */
    predicate Takes(h: Header)
      reads this
    {
      && h.src != addr
      && ((h.net == net && (h.dest == addr || h.dest == BROADCAST))
          || (h.net == NETWORK_ANY && h.dest == BROADCAST)
          || (net == NETWORK_ANY && h.dest == BROADCAST))
      && ((h.net != NETWORK_ANY && h.src != UNASSIGNED) || (params.coordinator && permitAttach))
    }

    /** tinymac_recv_cb; `taken` is whether the PHY takes the ack if one is sent. */
    method RecvCb(buf: seq<byte>, taken: bool)
      requires Valid()
      modifies this, nodes
      ensures Valid()
      ensures var f := Parse(buf);
              if f.None? then st == old(st) && log == old(log)
              else var o := Recv(old(st), f.value, taken); st == o.s && log == old(log) + o.ev
      ensures forall f :: buf == Encode(f) && !f.body.Unsupported? ==>
                            var o := Recv(old(st), f, taken); st == o.s && out == old(out) + CutLog(o.ev)
    {
      AsSent(st, buf, taken, log);
      var r := Parse(buf);
      if r.None? {
        return;
      }
      var f := r.value;
      RecvTimely(st, f, taken);
      if !Takes(f.h) {
        return;
      }
      var from := None;
      if addr != UNASSIGNED && f.h.src != UNASSIGNED {
        from := FindAddr(f.h.src);
        if from.None? {
          if params.coordinator {
            TxUnrecorded(f.h.src, RegResponse(0, UNASSIGNED, STATUS_ADDRESS_INVALID));
          }
          return;
        }
        Hear(from.value, f.h, taken);
      }
      ghost var p := Prelude(old(st), f, taken);
      assert st == p.s && log == old(log) + p.ev;
      HandleFrame(from, f);
      Regroup(old(log), p.ev, Handle(p.s, from, f).ev);
    }

    // Public functions

    /** tinymac_send. */
    method SendData(dest: byte, flags: Flags, body: Body, validity: u16, cb: Callback, taken: bool) returns (rc: int)
      requires Valid()
      modifies this, nodes
      ensures Valid()
      ensures var o := Send(old(st), dest, flags, body, validity, cb);
              var r := Lookup(old(st), dest);
              && st == o.s && log == old(log) + o.ev
              && rc == if o.ev != [] && (taken || (r.Some? && GetNode(old(st), r.value).flags.sleepy)) then 0 else -1
    {
      StepTimely(st, DoSend(dest, flags, body, validity, cb));
      if !body.Data? {
        return -1;
      }
      var r := FindAddr(dest);
      if r.None? {
        return -1;
      }
      rc := TxPacket(r.value, flags, body, SendValidity(Ref(r.value), validity), cb, taken);
    }

    /** tinymac_permit_attach. */
    method PermitAttach(permit: bool)
      requires Valid()
      modifies this`permitAttach, this`st
      ensures Valid() && st == old(st).(permitAttach := permit) == Step(old(st), DoPermit(permit)).s
    {
      StepTimely(st, DoPermit(permit));
      permitAttach := permit;
      st := st.(permitAttach := permit);
    }

    // The tick handler

    method CheckHeartbeat(k: nat)
      requires Rep() && k < MAX_NODES
      modifies this, nodes
      ensures var o := Put(old(st), k, Heartbeat(k, old(st).nodes[k], old(st).tick));
              Rep() && st == o.s && log == old(log) + o.ev
    {
      PlaceSame(st, k);
      var n := nodes[k];
      var heartbeat := Pow2(n.flags.heartbeat);
      if n.state == Registered
         && Signed32(Wrap32(n.lastHeard + Seconds(heartbeat + HEARTBEAT_GRACE) - tick)) <= 0
      {
        DeregisterNode(k);
      }
    }

    /** The coordinator's work for one node. */
    method TickOne(k: nat)
      requires Rep() && k < MAX_NODES && NodeTimely(st.nodes[k], st.tick)
      modifies this, nodes
      ensures var o := Put(old(st), k, TickNode(k, old(st).nodes[k], old(st).tick));
              Rep() && st == o.s && log == old(log) + o.ev
    {
      ghost var s := st;
      ghost var h := Heartbeat(k, s.nodes[k], s.tick);
      ghost var a := DespatchAck(k, h.n, s.tick);
      ghost var v := DespatchValidity(k, a.n, s.tick);
      CheckHeartbeat(k);
      DespatchAckTimer(k);
      Overwrite(s, k, h.n, a.n);
      DespatchValidityTimer(k);
      Overwrite(s, k, a.n, v.n);
      Regroup(old(log), h.ev, a.ev);
      Regroup(old(log), h.ev, a.ev + v.ev);
      Regroup(old(log) + h.ev, a.ev, v.ev);
    }

    method TickEach()
      requires Rep() && forall k :: 0 <= k < MAX_NODES ==> NodeTimely(st.nodes[k], st.tick)
      modifies this, nodes
      ensures var o := TickNodes(old(st));
              Rep() && st == o.s && log == old(log) + o.ev
    {
      ghost var s, parts := st, NodeTickEvents(st.nodes, st.tick);
      assert Ticked(s, 0) == s.nodes;
      var k := 0;
      while k < MAX_NODES
        invariant k <= MAX_NODES
        invariant Rep() && st == s.(nodes := Ticked(s, k))
        invariant log + Joined(parts, k) == old(log) + Joined(parts, 0)
      {
        TickedStep(s, k);
        Regroup(log, parts[k], Joined(parts, k + 1));
        TickOne(k);
        k := k + 1;
      }
      assert log == log + Joined(parts, k);
      assert st == TickNodes(s).s;
    }

    method CoordinatorTicks()
      requires Valid()
      modifies this, nodes
      ensures var o := CoordinatorTick(old(st));
              Rep() && st == o.s && log == old(log) + o.ev
    {
      ghost var b := BeaconTick(st);
      slot := (slot + 1) % 0x1_0000;
      st := st.(slot := slot);
      if slot % Pow2(params.beaconInterval) == params.beaconOffset {
        SendBeacon(true);
      }
      BeaconKeepsNodes(old(st));
      TickEach();
      Regroup(old(log), b.ev, TickNodes(b.s).ev);
    }

    method AskForBeacon()
      requires Rep()
      modifies this, nodes
      ensures var o := RequestBeacon(old(st));
              Rep() && st == o.s && log == old(log) + o.ev
    {
      if client == ClientUnregistered {
        client := ClientBeaconRequest;
        st := st.(client := ClientBeaconRequest);
        TxUnrecorded(BROADCAST, BeaconRequest);
        SetTimer(BEACON_REQUEST_TICKS);
      }
    }

    /** tinymac_despatch_timer on the client's own timer, with tinymac_request_timeout. */
    method DespatchRequestTimer()
      requires Rep() && Ahead(st.timer, st.tick, LONGEST)
      modifies this, nodes
      ensures var o := DespatchRequest(old(st));
              Rep() && st == o.s && log == old(log) + o.ev
    {
      ExpiredIff(st.timer, st.tick);
      if Expired(timer, tick) {
        timer := Off;
        st := st.(timer := Off);
        if client == ClientBeaconRequest || client == ClientRegistering {
          DeregisterNode(COORD);
        }
      }
    }

    method ClientTicks()
      requires Valid()
      modifies this, nodes
      ensures var o := ClientTick(old(st));
              Rep() && st == o.s && log == old(log) + o.ev
    {
      ghost var s := st;
      ghost var b := RequestBeacon(s);
      ghost var a := PutCoord(b.s, DespatchAck(COORD, b.s.coord, s.tick));
      ghost var v := PutCoord(a.s, DespatchValidity(COORD, a.s.coord, s.tick));
      ClientAhead(s);
      AskForBeacon();
      DespatchAckTimer(COORD);
      Regroup(old(log), b.ev, a.ev);
      DespatchValidityTimer(COORD);
      Regroup(old(log), b.ev + a.ev, v.ev);
      DespatchRequestTimer();
      Regroup(old(log), ClientTimers(s).ev, DespatchRequest(v.s).ev);
    }

    method CountTick()
      requires Rep()
      modifies this`tick, this`st
      ensures Rep() && st == old(st).(tick := old(st).tick + 1)
    {
      tick := Wrap32(tick + 1);
      st := st.(tick := st.tick + 1);
    }

    /** tinymac_tick_handler. */
    method TickHandler()
      requires Valid()
      modifies this, nodes
      ensures var o := Tick(old(st));
              Valid() && st == o.s && log == old(log) + o.ev
    {
      StepTimely(st, DoTick);
      if params.coordinator {
        CoordinatorTicks();
      } else {
        ClientTicks();
      }
      CountTick();
    }
  }

  /** The node table when the first `k` slots have been ticked. */
  function Ticked(s: Mac, k: nat): NodeTable {
    seq(MAX_NODES, i requires 0 <= i < MAX_NODES => if i < k then TickNode(i, s.nodes[i], s.tick).n else s.nodes[i])
  }

  lemma TickedStep(s: Mac, k: nat)
    requires k < MAX_NODES
    ensures SetNode(s.(nodes := Ticked(s, k)), k, TickNode(k, s.nodes[k], s.tick).n) == s.(nodes := Ticked(s, k + 1))
  {
    assert Ticked(s, k)[k := TickNode(k, s.nodes[k], s.tick).n] == Ticked(s, k + 1);
  }

  lemma BeaconKeepsNodes(s: Mac)
    requires Timely(s)
    ensures var b := BeaconTick(s).s;
            forall k :: 0 <= k < MAX_NODES ==> NodeTimely(b.nodes[k], b.tick)
  {
    var b := BeaconTick(s).s;
    forall k | 0 <= k < MAX_NODES
      ensures NodeTimely(b.nodes[k], b.tick)
    {
      assert NodeTimely(GetNode(s, k), s.tick);
    }
  }

  /** What a client's tick does before it looks at a timer leaves that timer within reach. */
  lemma ClientAhead(s: Mac)
    requires Timely(s)
    ensures var b := RequestBeacon(s);
            var a := PutCoord(b.s, DespatchAck(COORD, b.s.coord, s.tick));
            var v := PutCoord(a.s, DespatchValidity(COORD, a.s.coord, s.tick));
            && b.s.tick == s.tick && a.s.tick == s.tick && v.s.tick == s.tick
            && Ahead(b.s.coord.ackTimer, s.tick, LONGEST)
            && Ahead(a.s.coord.validityTimer, s.tick, LONGEST)
            && Ahead(v.s.timer, s.tick, LONGEST)
  {
    assert NodeTimely(GetNode(s, COORD), s.tick);
  }

  lemma PendingMoves(addrs: seq<byte>, t: NodeTable, n: nat)
    requires n < MAX_NODES
    ensures addrs + PendingAddrs(t, n) ==
            (if t[n].state == SendPending then addrs + [t[n].addr] else addrs) + PendingAddrs(t, n + 1)
  {
    assert addrs + ([t[n].addr] + PendingAddrs(t, n + 1)) == addrs + [t[n].addr] + PendingAddrs(t, n + 1);
    assert [] + PendingAddrs(t, n + 1) == PendingAddrs(t, n + 1);
  }

  lemma Overwrite(s: Mac, k: nat, m: Node, n: Node)
    requires k <= COORD
    ensures SetNode(SetNode(s, k, m), k, n) == SetNode(s, k, n)
  {
    if k < MAX_NODES {
      assert s.nodes[k := m][k := n] == s.nodes[k := n];
    }
  }

  lemma PlaceSame(s: Mac, k: nat)
    requires k <= COORD
    ensures SetNode(s, k, GetNode(s, k)) == s
    ensures Place(s, k, NodeOut(GetNode(s, k), [])) == Out(s, [])
  {
    if k < MAX_NODES {
      assert s.nodes[k := s.nodes[k]] == s.nodes;
    }
  }

  lemma PlaceAfterStore(s: Mac, k: nat, m: Node, o: NodeOut)
    requires k <= COORD
    ensures Place(SetNode(s, k, m), k, o) == Place(s, k, o)
  {
    Overwrite(s, k, m, o.n);
  }

  lemma ExpiredIff(t: Timer, now: nat)
    requires Ahead(t, now, LONGEST)
    ensures Expired(Cut(t), Wrap32(now)) <==> Fires(t, now)
  {
    if t.Due? {
      TimerTestExact(t, now);
    }
  }

  lemma CutLogConcat(a: seq<Event>, b: seq<Event>)
    ensures CutLog(a + b) == CutLog(a) + CutLog(b)
  {
  }

  lemma HandleOnAir(s: Mac, from: Option<nat>, f: Frame)
    requires from.Some? ==> from.value <= COORD
    ensures Handle(s, from, OnAir(f)) == Handle(s, from, f)
  {
  }

  lemma HearOnAir(s: Mac, k: nat, n: Node, f: Frame, ackSent: bool)
    ensures var a, b := HearNode(s, k, n, OnAir(f).h, ackSent), HearNode(s, k, n, f.h, ackSent);
            a.n == b.n && CutLog(a.ev) == CutLog(b.ev)
  {
    var n1 := n.(lastHeard := s.tick);
    var x := if !f.h.flags.wantsAck || !ackSent then NodeOut(n1, []) else Flush(k, n1, s.tick);
    var rest := x.ev + Flush(k, x.n, s.tick).ev;
    var ack, cut := AckFrame(s, n1, f.h.seqno), AckFrame(s, n1, f.h.seqno % 256);
    assert OnAir(ack) == OnAir(cut);
    if f.h.flags.wantsAck {
      assert HearNode(s, k, n, f.h, ackSent).ev == [SentMac(ack)] + rest;
      assert HearNode(s, k, n, OnAir(f).h, ackSent).ev == [SentMac(cut)] + rest;
      CutLogConcat([SentMac(ack)], rest);
      CutLogConcat([SentMac(cut)], rest);
      assert CutLog([SentMac(ack)]) == CutLog([SentMac(cut)]);
    }
  }

  /** A receiver that sees only the low byte of a frame's sequence number does, on the air and in
      its state, what it would do on seeing the number whole. */
  lemma LowByteSuffices(s: Mac, f: Frame, ackSent: bool)
    ensures var a, b := Recv(s, OnAir(f), ackSent), Recv(s, f, ackSent);
            a.s == b.s && CutLog(a.ev) == CutLog(b.ev)
  {
    if Admits(s, f.h) && !Stranger(s, f.h) {
      var from := SourceOf(s, f.h);
      if from.Some? {
        HearOnAir(s, from.value, GetNode(s, from.value), f, ackSent);
      }
      var p, q := Prelude(s, OnAir(f), ackSent), Prelude(s, f, ackSent);
      assert p.s == q.s;
      HandleOnAir(q.s, from, f);
      CutLogConcat(p.ev, Handle(q.s, from, f).ev);
      CutLogConcat(q.ev, Handle(q.s, from, f).ev);
    }
  }

  /** A buffer that encodes a frame does what that frame would do. */
  lemma ReceivedAsSent(s: Mac, f: Frame, ackSent: bool)
    requires !f.body.Unsupported?
    ensures Parse(Encode(f)).Some?
    ensures var a, b := Recv(s, Parse(Encode(f)).value, ackSent), Recv(s, f, ackSent);
            a.s == b.s && CutLog(a.ev) == CutLog(b.ev)
  {
    FrameRoundTrip(f);
    LowByteSuffices(s, f, ackSent);
  }

  lemma AsSent(s: Mac, buf: seq<byte>, ackSent: bool, log: seq<Event>)
    ensures forall f :: buf == Encode(f) && !f.body.Unsupported? ==>
                          && Parse(buf).Some?
                          && var a, b := Recv(s, Parse(buf).value, ackSent), Recv(s, f, ackSent);
                             a.s == b.s && CutLog(log + a.ev) == CutLog(log) + CutLog(b.ev)
  {
    forall f | buf == Encode(f) && !f.body.Unsupported?
      ensures Parse(buf).Some?
      ensures var a, b := Recv(s, Parse(buf).value, ackSent), Recv(s, f, ackSent);
              a.s == b.s && CutLog(log + a.ev) == CutLog(log) + CutLog(b.ev)
    {
      ReceivedAsSent(s, f, ackSent);
      CutLogConcat(log, Recv(s, Parse(buf).value, ackSent).ev);
    }
  }
}
