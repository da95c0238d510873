/** What a tick does: which nodes are dropped, what is sent again, when a packet is given up, what a client
    asks for. */
module Ageing {
  import opened Words
  import opened MacTypes
  import opened MacSlot
  import opened MacMachine
  import opened SlotProtocol
  import opened OrdinaryRuns
  import opened Deadlines
  import opened Heartbeats
  import Limits

  // One slot

  predicate Up(t: Timer, now: nat) { t.Due? && t.at <= now }

  /** The last copy of the packet has gone unanswered. */
  predicate Failed(n: Node, now: nat) { Up(n.ackTimer, now) && n.retries == 0 }

  /** The slot when its ack is overdue and copies are left: sent again, or deferred until the node calls. */
  function Tried(k: nat, n: Node, now: nat): NodeOut
    requires n.retries > 0
  {
    var m := n.(retries := n.retries - 1);
    if n.flags.sleepy then NodeOut(m.(state := SendPending, ackTimer := Off), [])
    else NodeOut(m.(ackTimer := Due(now + 1)), [Sent(k, n.pending)])
  }

  /** What its two timers do to a slot. */
  function Aged(k: nat, n: Node, now: nat): NodeOut {
    if Failed(n, now) then
      NodeOut(n.(state := Unregistered, retries := 255, ackTimer := Off, validityTimer := Off),
              [Resolved(k, n.sendCb, false), NodeGone(k)])
    else
      var a := if Up(n.ackTimer, now) then Tried(k, n, now) else NodeOut(n, []);
      if Up(n.validityTimer, now) then
        NodeOut(a.n.(state := Registered, ackTimer := Off, validityTimer := Off), a.ev + [Resolved(k, n.sendCb, false)])
      else a
  }

  lemma AgedIs(k: nat, n: Node, now: nat)
    ensures Despatch(k, n, now) == Aged(k, n, now)
  {
  }

  predicate Overdue(n: Node, now: nat) { n.state == Registered && HeartbeatExpired(n, now) }

  /** What a tick of the coordinator does to a slot. */
  function Looked(k: nat, n: Node, now: nat): NodeOut {
    if Overdue(n, now) then
      var o := Aged(k, n.(state := Unregistered), now);
      NodeOut(o.n, [NodeGone(k)] + o.ev)
    else Aged(k, n, now)
  }

  lemma LookedIs(k: nat, n: Node, now: nat)
    ensures TickNode(k, n, now) == Looked(k, n, now)
  {
    AgedIs(k, n, now);
    AgedIs(k, n.(state := Unregistered), now);
  }

  /** Its packet's validity has run out, or a sleepy node is to be tried again. */
  predicate Revived(n: Node, now: nat) {
    Up(n.validityTimer, now) || (Up(n.ackTimer, now) && n.flags.sleepy)
  }

  lemma LookedDrops(k: nat, n: Node, now: nat)
    ensures var o := Looked(k, n, now);
            && (NodeGone(k) in o.ev <==> Overdue(n, now) || Failed(n, now))
            && (o.n.state == Unregistered <==>
                Failed(n, now) || ((Overdue(n, now) || n.state == Unregistered) && !Revived(n, now)))
            && (forall j :: NodeGone(j) in o.ev ==> j == k)
  {
  }

  // The coordinator's tick

  /** The periodic beacon of the slot that begins. */
  function Announcement(s: Mac): Frame {
    Frame(Header(PLAIN, s.net, 0xFF, s.addr, (s.bseq + 1) % 256),
          Beacon(s.params.uuid, (s.slot + 1) % 0x1_0000, true, s.permitAttach, 0, 15, PendingAddrs(s.nodes, 0)))
  }

  predicate Announces(s: Mac) {
    (s.slot + 1) % 0x1_0000 % Pow2(s.params.beaconInterval) == s.params.beaconOffset
  }

  /** A coordinator begins a slot, with a beacon if one is due, and then looks at every node in turn. */
  lemma CoordinatorTicks(s: Mac)
    requires s.params.coordinator
    ensures var o := Tick(s);
            && (forall k :: 0 <= k < 32 ==> o.s.nodes[k] == Looked(k, s.nodes[k], s.tick).n)
            && o.s == s.(tick := s.tick + 1, slot := (s.slot + 1) % 0x1_0000, nodes := o.s.nodes,
                         bseq := if Announces(s) then (s.bseq + 1) % 256 else s.bseq)
  {
    forall k | 0 <= k < 32 ensures Tick(s).s.nodes[k] == Looked(k, s.nodes[k], s.tick).n {
      LookedIs(k, s.nodes[k], s.tick);
    }
  }

  /** Its events are the beacon and then those of the slots, in order. */
  lemma CoordinatorTells(s: Mac) returns (parts: seq<seq<Event>>)
    requires s.params.coordinator
    ensures |parts| == 32 && forall k :: 0 <= k < 32 ==> parts[k] == Looked(k, s.nodes[k], s.tick).ev
    ensures Tick(s).ev == (if Announces(s) then [SentMac(Announcement(s))] else []) + Joined(parts, 0)
  {
    parts := NodeTickEvents(s.nodes, s.tick);
    forall k | 0 <= k < 32 ensures parts[k] == Looked(k, s.nodes[k], s.tick).ev {
      LookedIs(k, s.nodes[k], s.tick);
    }
  }

  lemma {:induction false} JoinedFrom(parts: seq<seq<Event>>, i: nat, e: Event) returns (j: nat)
    requires i <= |parts| && e in Joined(parts, i)
    ensures i <= j < |parts| && e in parts[j]
    decreases |parts| - i
  {
    if e in parts[i] {
      j := i;
    } else {
      j := JoinedFrom(parts, i + 1, e);
    }
  }

  lemma GoneInTick(s: Mac, k: nat)
    requires s.params.coordinator && k < 32
    ensures NodeGone(k) in Tick(s).ev <==> Overdue(s.nodes[k], s.tick) || Failed(s.nodes[k], s.tick)
  {
    var parts := CoordinatorTells(s);
    LookedDrops(k, s.nodes[k], s.tick);
    if NodeGone(k) in parts[k] {
      PartInJoined(parts, 0, k, NodeGone(k));
    }
    if NodeGone(k) in Tick(s).ev {
      var j := JoinedFrom(parts, 0, NodeGone(k));
      LookedDrops(j, s.nodes[j], s.tick);
    }
  }

  /** For every coordinator: a busy slot is dropped by a tick, and reported gone, if and only if its last
      copy has gone unanswered. */
  lemma BusyDroppedIff(s: Mac, k: nat)
    requires s.params.coordinator && k < 32 && Busy(s.nodes[k])
    ensures !Live(Tick(s).s.nodes[k]) <==> Failed(s.nodes[k], s.tick)
    ensures NodeGone(k) in Tick(s).ev <==> Failed(s.nodes[k], s.tick)
  {
    CoordinatorTicks(s);
    GoneInTick(s, k);
    LookedDrops(k, s.nodes[k], s.tick);
  }

  /** Nothing has been heard of a node for its heartbeat and two seconds more, four ticks a second. */
  predicate Missed(n: Node, now: nat) {
    now >= n.lastHeard + 4 * (Pow2(n.flags.heartbeat) + 2)
  }

  lemma OverdueIff(n: Node, now: nat)
    requires Exact(n, now)
    ensures Overdue(n, now) <==> n.state == Registered && Missed(n, now)
  {
  }

  /** In every run of a coordinator in which the heartbeat test is exact, a tick reports a node gone if and
      only if it is registered and has been silent too long, or its last copy has gone unanswered; and the
      slot is free afterwards in just those cases, and if it was free, unless one of its timers brings it
      back. */
  lemma DroppedIff(params: Params, mtu: nat, net: byte, dseq: byte, bseq: byte, ins: seq<Input>, k: nat)
    requires params.coordinator && k < 32
    requires var s := Init(params, mtu, net, dseq, bseq); Watched(s, ins, k) && Recent(s, ins, k)
    ensures var t := Run(Init(params, mtu, net, dseq, bseq), ins).s;
            var n := t.nodes[k];
            var late := n.state == Registered && Missed(n, t.tick);
            && (NodeGone(k) in Tick(t).ev <==> late || Failed(n, t.tick))
            && (!Live(Tick(t).s.nodes[k]) <==> Failed(n, t.tick) || ((late || !Live(n)) && !Revived(n, t.tick)))
  {
    var t := Run(Init(params, mtu, net, dseq, bseq), ins).s;
    RunParams(Init(params, mtu, net, dseq, bseq), ins);
    HeartbeatExact(params, mtu, net, dseq, bseq, ins, k);
    OverdueIff(t.nodes[k], t.tick);
    CoordinatorTicks(t);
    GoneInTick(t, k);
    LookedDrops(k, t.nodes[k], t.tick);
  }

  lemma IdleTimers(s: Mac, k: nat, log: seq<Event>)
    requires AllCoupled(s, log) && k <= COORD && !Busy(GetNode(s, k))
    ensures GetNode(s, k).ackTimer.Off? && GetNode(s, k).validityTimer.Off?
  {
    assert Coupled(GetNode(s, k), Follow(k, Idle, log));
  }

  /** In an ordinary run of that kind a tick drops a registered node, sleepy or not, and reports it gone, if
      and only if it has been silent too long; and never brings one back. */
  lemma SilentNodeDropped(params: Params, mtu: nat, net: byte, dseq: byte, bseq: byte, ins: seq<Input>, k: nat)
    requires params.coordinator && k < 32
    requires var s := Init(params, mtu, net, dseq, bseq); OrdinaryRun(s, ins) && Watched(s, ins, k) && Recent(s, ins, k)
    ensures var t := Run(Init(params, mtu, net, dseq, bseq), ins).s;
            var n := t.nodes[k];
            && (n.state == Registered ==>
                  && (!Live(Tick(t).s.nodes[k]) <==> Missed(n, t.tick))
                  && (NodeGone(k) in Tick(t).ev <==> Missed(n, t.tick)))
            && (!Live(n) ==> !Live(Tick(t).s.nodes[k]) && NodeGone(k) !in Tick(t).ev)
  {
    var s := Init(params, mtu, net, dseq, bseq);
    var t := Run(s, ins).s;
    DroppedIff(params, mtu, net, dseq, bseq, ins, k);
    InitCoupled(params, mtu, net, dseq, bseq);
    OrdinaryRunCoupled(s, ins, []);
    if !Busy(t.nodes[k]) {
      IdleTimers(t, k, [] + Run(s, ins).ev);
    }
  }

  // Outside ordinary runs a node can be dropped though it has just been heard

  /** Slot 0 holds an awake node whose packet has `left` copies to go, and whose ack is due at `due`. */
  predicate Trying(s: Mac, left: byte, due: nat) {
    var n := s.nodes[0];
    && s.params.coordinator && s.mtu == 254 && s.addr == 0 && s.permitAttach
    && n.uuid == 7 && n.addr == 1 && n.state == WaitAck && !n.flags.sleepy
    && n.retries == left && n.ackTimer == Due(due) && n.validityTimer.Off?
  }

  const AWAKE := Attach(0, false, 0)
  const PACKET := DoSend(1, Flags(true, false, false, 0), Data(16, []), 0, NoCallback)

  function Asking(s: Mac): Input { DoReceive(Limits.Request(s.net, 7, AWAKE, 0), true) }

  lemma Registers(s: Mac)
    requires s.params.coordinator && s.permitAttach && s.addr == 0
    requires s.nodes[0].uuid == 7 || forall k :: 0 <= k < 32 ==> s.nodes[k].uuid == 0
    ensures var o := Step(s, Asking(s)).s;
            SameDevice(s, o) && o.addr == s.addr && o.net == s.net && o.permitAttach
            && o.nodes[0] == Enrol(s.nodes[0], 7, AWAKE, s.tick)
  {
    Limits.RequestTaken(s, 7, AWAKE, 0);
    assert SlotFor(s.nodes, 7) == 0;
  }

  lemma SendsPacket(s: Mac)
    requires s.params.coordinator && s.mtu == 254 && s.addr == 0 && s.permitAttach
    requires var n := s.nodes[0]; n.uuid == 7 && n.addr == 1 && n.state == Registered && n.flags == AWAKE && n.validityTimer.Off?
    ensures var o := Step(s, PACKET).s; Trying(o, 3, s.tick + 1) && o.tick == s.tick && o.net == s.net
  {
    assert AnswersTo(s.nodes[0], 1);
    assert FirstAddr(s.nodes, 1, 0) == 0;
  }

  lemma TickTries(s: Mac, left: byte, due: nat)
    requires Trying(s, left, due) && s.tick <= due && left > 0
    ensures var o := Step(s, DoTick).s;
            o.tick == s.tick + 1 && o.net == s.net && if s.tick < due then Trying(o, left, due) else Trying(o, left - 1, due + 1)
  {
    CoordinatorTicks(s);
  }

  /** A node that registers again while its last copy is unanswered is dropped by the next tick: a run from
      switching on. */
  lemma HeardNodeDropped(params: Params, net: byte, dseq: byte, bseq: byte) returns (ins: seq<Input>)
    requires params.coordinator
    ensures var t := Run(Init(params, 254, net, dseq, bseq), ins).s;
            && t.nodes[0].state == Registered && t.nodes[0].lastHeard == t.tick
            && !Live(Tick(t).s.nodes[0]) && NodeGone(0) in Tick(t).ev
  {
    var s := Init(params, 254, net, dseq, bseq);
    ins := [];
    ins := Limits.Then(s, ins, DoPermit(true));
    Registers(Run(s, ins).s);
    ins := Limits.Then(s, ins, Asking(Run(s, ins).s));
    SendsPacket(Run(s, ins).s);
    ins := Limits.Then(s, ins, PACKET);
    var k := 0;
    while k < 4
      invariant 0 <= k <= 4 && Run(s, ins).s.tick == k
      invariant if k < 2 then Trying(Run(s, ins).s, 3, 1) else Trying(Run(s, ins).s, 4 - k, k)
    {
      TickTries(Run(s, ins).s, Run(s, ins).s.nodes[0].retries, Run(s, ins).s.nodes[0].ackTimer.at);
      ins := Limits.Then(s, ins, DoTick);
      k := k + 1;
    }
    Registers(Run(s, ins).s);
    ins := Limits.Then(s, ins, Asking(Run(s, ins).s));
    var t := Run(s, ins).s;
    CoordinatorTicks(t);
    GoneInTick(t, 0);
  }

  // A client's tick

  /** A client without a network starts to look for one. */
  function Sought(s: Mac): Mac {
    if s.client != ClientUnregistered then s
    else s.(client := ClientBeaconRequest, timer := Due(s.tick + 40), dseq := if s.mtu >= 6 then s.dseq + 1 else s.dseq)
  }

  function Seeks(s: Mac): seq<Event> {
    if s.client != ClientUnregistered || s.mtu < 6 then []
    else [SentMac(Frame(Header(PLAIN, s.net, 0xFF, s.addr, s.dseq + 1), BeaconRequest))]
  }

  lemma RequestBeaconIs(s: Mac)
    ensures RequestBeacon(s) == Out(Sought(s), Seeks(s))
  {
  }

  /** The client when its own timer has been seen to. */
  function Timed(s: Mac): Out {
    if !Up(s.timer, s.tick) then Out(s, [])
    else if s.client != ClientBeaconRequest && s.client != ClientRegistering then Out(s.(timer := Off), [])
    else Out(s.(timer := Off, coord := s.coord.(state := Unregistered), client := ClientUnregistered, addr := 0xFF, net := 0xFF),
             [NodeGone(COORD)])
  }

  lemma TimedIs(s: Mac)
    ensures DespatchRequest(s) == Timed(s)
  {
  }

  /** The client when its coordinator's slot has aged: when that node is given up, so is the network. */
  function Orphaned(s: Mac): Mac {
    var s' := s.(coord := Aged(COORD, s.coord, s.tick).n);
    if Failed(s.coord, s.tick) then s'.(client := ClientUnregistered, addr := 0xFF, net := 0xFF) else s'
  }

  lemma ClientTimersIs(s: Mac)
    ensures ClientTimers(s) == Out(Orphaned(Sought(s)), Seeks(s) + Aged(COORD, s.coord, s.tick).ev)
  {
    RequestBeaconIs(s);
    AgedIs(COORD, s.coord, s.tick);
  }

  /** A client starts looking for a beacon if it has no network; sees to its packet, and gives the network
      up if that fails; and gives up on a beacon or a registration whose time has run out. */
  lemma ClientTicks(s: Mac)
    requires !s.params.coordinator
    ensures var o := Timed(Orphaned(Sought(s)));
            Tick(s) == Out(o.s.(tick := s.tick + 1), Seeks(s) + Aged(COORD, s.coord, s.tick).ev + o.ev)
  {
    ClientTimersIs(s);
    TimedIs(Orphaned(Sought(s)));
  }
}
