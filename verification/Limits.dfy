/** Where the MAC does not keep its promises: what becomes of a slot that is overwritten while it
    is busy, and how the heartbeat test comes to disagree with the elapsed time. */
module Limits {
  import opened Words
  import opened MacTypes
  import opened MacSlot
  import opened MacMachine
  import opened SlotProtocol
  import opened OrdinaryRuns
  import opened Registry

  // A lost outcome

  function Request(net: byte, uuid: u64, attach: Attach, seqno: nat): Frame {
    Frame(Header(PLAIN, net, BROADCAST, UNASSIGNED, seqno), RegRequest(uuid, attach))
  }

  lemma RequestTaken(s: Mac, uuid: u64, attach: Attach, seqno: nat)
    requires s.params.coordinator && s.permitAttach && s.addr != UNASSIGNED
    ensures Recv(s, Request(s.net, uuid, attach, seqno), true) == RxRegRequest(s, uuid, attach)
  {
    var f := Request(s.net, uuid, attach, seqno);
    assert Prelude(s, f, true) == Out(s, []);
    assert [] + RxRegRequest(s, uuid, attach).ev == RxRegRequest(s, uuid, attach).ev;
  }

  lemma {:induction false} SilentFollow(k: nat, w: Watch, ev: seq<Event>)
    requires Silent(ev)
    ensures Follow(k, w, ev) == w
    decreases |ev|
  {
    if ev == [] {
    } else {
      assert ev[0] in ev;
      SilentFollow(k, w, ev[1..]);
    }
  }

  lemma BusyOpen(s: Mac, k: nat, log: seq<Event>)
    requires AllCoupled(s, log) && k <= COORD && Busy(GetNode(s, k))
    ensures Follow(k, Idle, log).Open?
  {
    assert Coupled(GetNode(s, k), Follow(k, Idle, log));
  }

  /** The slot is taken over while its packet is in flight: its log still waits for the outcome. */
  lemma OverwrittenStaysOpen(s: Mac, uuid: u64, attach: Attach, seqno: nat, log: seq<Event>)
    requires s.params.coordinator && s.permitAttach && s.addr != UNASSIGNED
    requires AllCoupled(s, log) && Overwrites(s.nodes, uuid)
    ensures var o := Recv(s, Request(s.net, uuid, attach, seqno), true);
            var k := SlotFor(s.nodes, uuid);
            && SameDevice(s, o.s)
            && o.s.nodes == s.nodes[k := Enrol(s.nodes[k], uuid, attach, s.tick)]
            && Follow(k, Idle, log + o.ev).Open?
  {
    RequestTaken(s, uuid, attach, seqno);
    var k := SlotFor(s.nodes, uuid);
    var o := RxRegRequest(s, uuid, attach);
    BusyOpen(s, k, log);
    FollowConcat(k, Idle, log, o.ev);
    SilentFollow(k, Follow(k, Idle, log), o.ev);
  }

  lemma BufferedOpensTwice(k: nat, n: Node, f: Frame, validity: u16, cb: Callback, now: nat, w: Watch)
    requires n.state == Registered && f.h.flags.wantsAck && w.Open?
    ensures Follow(k, w, Transmit(k, n, f, validity, cb, now).ev) == Bad
  {
    var first := Accepted(k, f, cb);
    if n.flags.sleepy {
      FollowOne(k, w, first);
    } else {
      FollowTwo(k, w, first, Sent(k, f));
    }
  }

  /** Whatever a busy slot was doing, a registration request for its UUID followed by a send to it
      breaks the protocol: a second packet is accepted while the first is still open. */
  lemma OverwriteLosesOutcome(s: Mac, uuid: u64, attach: Attach, seqno: nat,
                              body: Body, validity: u16, cb: Callback, log: seq<Event>)
    requires s.params.coordinator && s.permitAttach && s.addr != UNASSIGNED
    requires AllCoupled(s, log) && Safe(s.nodes) && Overwrites(s.nodes, uuid)
    requires body.Data? && Fits(s, body)
    ensures var k := SlotFor(s.nodes, uuid);
            var o := Recv(s, Request(s.net, uuid, attach, seqno), true);
            var p := Send(o.s, s.nodes[k].addr, Flags(true, false, false, 0), body, validity, cb);
            Follow(k, Idle, log + o.ev + p.ev) == Bad
  {
    var k := SlotFor(s.nodes, uuid);
    var o := Recv(s, Request(s.net, uuid, attach, seqno), true);
    OverwrittenStaysOpen(s, uuid, attach, seqno, log);
    var n := o.s.nodes[k];
    AddressFinds(o.s.nodes, k);
    var f := Frame(NextHeader(o.s, Flags(true, false, false, 0), n.addr), body);
    var v := SendValidity(n, validity);
    assert Send(o.s, n.addr, f.h.flags, body, validity, cb).ev == Transmit(k, n, f, v, cb, o.s.tick).ev;
    FollowConcat(k, Idle, log + o.ev, Transmit(k, n, f, v, cb, o.s.tick).ev);
    BufferedOpensTwice(k, n, f, v, cb, o.s.tick, Follow(k, Idle, log + o.ev));
  }

  lemma AddressFinds(t: NodeTable, k: nat)
    requires k < MAX_NODES && Live(t[k]) && forall j :: 0 <= j < MAX_NODES ==> t[j].addr == j + 1
    ensures FirstAddr(t, t[k].addr, 0) == k
  {
    var j := FirstAddr(t, t[k].addr, 0);
    assert AnswersTo(t[k], t[k].addr);
  }

  // A silent node that is never missed

  /** Slot 0 holds an idle sleepy node last heard at tick 0. */
  predicate Silenced(s: Mac) {
    var n := s.nodes[0];
    && s.params.coordinator && s.mtu >= HEADER_SIZE
    && n.addr == 1 && n.state == Registered && n.flags == Attach(0, true, 0) && n.lastHeard == 0
    && n.ackTimer.Off? && n.validityTimer.Off?
  }

  /** The same node while a packet waits for it until `due`. */
  predicate Waiting(s: Mac, due: nat) {
    var n := s.nodes[0];
    && s.params.coordinator && s.mtu >= HEADER_SIZE
    && n.addr == 1 && n.state == SendPending && n.flags == Attach(0, true, 0) && n.lastHeard == 0
    && n.ackTimer.Off? && n.validityTimer == Due(due)
  }

  const PING := DoSend(1, Flags(true, false, false, 0), Data(16, []), 1, NoCallback)

  lemma PingWaits(s: Mac)
    requires Silenced(s)
    ensures var o := Step(s, PING).s; Waiting(o, s.tick + 4) && o.tick == s.tick
  {
    assert AnswersTo(s.nodes[0], 1);
    assert FirstAddr(s.nodes, 1, 0) == 0;
  }

  lemma TickSlot(s: Mac)
    requires s.params.coordinator
    ensures Tick(s).s.nodes[0] == TickNode(0, s.nodes[0], s.tick).n
  {
  }

  lemma TickWaits(s: Mac, due: nat)
    requires Waiting(s, due) && s.tick <= due
    ensures if s.tick < due then Waiting(Tick(s).s, due) else Silenced(Tick(s).s)
  {
    TickSlot(s);
  }

  lemma RunSnoc(s: Mac, ins: seq<Input>, i: Input)
    ensures Run(s, ins + [i]).s == Step(Run(s, ins).s, i).s
  {
    assert (ins + [i])[..|ins|] == ins;
  }

  /** One call more. */
  lemma Then(s: Mac, ins: seq<Input>, i: Input) returns (longer: seq<Input>)
    ensures longer == ins + [i] && Run(s, longer).s == Step(Run(s, ins).s, i).s
  {
    longer := ins + [i];
    RunSnoc(s, ins, i);
  }

  /** However long it has been silent, a node with a packet always waiting is never looked at. */
  lemma {:induction false} PingedForever(s: Mac, start: seq<Input>, n: nat) returns (ins: seq<Input>)
    requires Silenced(Run(s, start).s)
    ensures Silenced(Run(s, ins).s) && Run(s, ins).s.tick == Run(s, start).s.tick + 5 * n
  {
    if n == 0 {
      ins := start;
    } else {
      ins := PingedForever(s, start, n - 1);
      var due := Run(s, ins).s.tick + 4;
      PingWaits(Run(s, ins).s);
      RunSnoc(s, ins, PING);
      ins := ins + [PING];
      var k := 0;
      while k < 5
        invariant k <= 5 && Run(s, ins).s.tick == due - 4 + k
        invariant if k < 5 then Waiting(Run(s, ins).s, due) else Silenced(Run(s, ins).s)
      {
        TickWaits(Run(s, ins).s, due);
        RunSnoc(s, ins, DoTick);
        ins := ins + [DoTick];
        k := k + 1;
      }
    }
  }

  lemma FirstRequest(s: Mac, uuid: u64)
    requires s.params.coordinator && uuid != 0 && forall k :: 0 <= k < MAX_NODES ==> s.nodes[k].uuid == 0
    ensures var o := RxRegRequest(s, uuid, Attach(0, true, 0)).s;
            SameDevice(s, o) && o.nodes[0] == Enrol(s.nodes[0], uuid, Attach(0, true, 0), s.tick)
  {
    assert FirstUuid(s.nodes, uuid, 0) == MAX_NODES;
    assert FirstUuid(s.nodes, 0, 0) == 0;
  }

  /** A coordinator that nobody has registered with yet. */
  predicate Fresh(s: Mac) {
    && s.params.coordinator && s.mtu == 254 && s.tick == 0 && s.addr == 0 && s.permitAttach
    && forall k :: 0 <= k < MAX_NODES ==> s.nodes[k] == BLANK_NODE.(addr := k + 1)
  }

  lemma SleepyRegisters(s: Mac)
    requires Fresh(s)
    ensures var o := Step(s, DoReceive(Request(s.net, 7, Attach(0, true, 0), 0), true)).s; Silenced(o) && o.tick == 0
  {
    RequestTaken(s, 7, Attach(0, true, 0), 0);
    FirstRequest(s, 7);
  }

  /** A coordinator that has let a sleepy node register at tick 0. */
  lemma SilencedFromStart(params: Params, net: byte, dseq: byte, bseq: byte) returns (ins: seq<Input>)
    requires params.coordinator
    ensures var s := Run(Init(params, 254, net, dseq, bseq), ins).s; Silenced(s) && s.tick == 0
  {
    var s := Init(params, 254, net, dseq, bseq);
    ins := Then(s, [], DoPermit(true));
    SleepyRegisters(Run(s, ins).s);
    ins := Then(s, ins, DoReceive(Request(Run(s, ins).s.net, 7, Attach(0, true, 0), 0), true));
  }

  lemma OverdueUnseen(s: Mac)
    requires Silenced(s) && s.tick == TWO_31 + 17
    ensures s.tick - s.nodes[0].lastHeard >= HeartbeatTicks(s.nodes[0]) + TWO_31
    ensures Tick(s).s.nodes[0].state == Registered
  {
    assert HeartbeatTicks(s.nodes[0]) == 12;
    TickSlot(s);
  }

  /** The heartbeat test on a registered node can be wrong: this run ends with a node that is long
      overdue, is looked at by the tick that follows, and stays registered. */
  lemma HeartbeatMisses(params: Params, net: byte, dseq: byte, bseq: byte) returns (ins: seq<Input>)
    requires params.coordinator
    ensures var s := Run(Init(params, 254, net, dseq, bseq), ins).s;
            && s.nodes[0].state == Registered
            && s.tick - s.nodes[0].lastHeard >= HeartbeatTicks(s.nodes[0]) + TWO_31
            && Tick(s).s.nodes[0].state == Registered
  {
    var s := Init(params, 254, net, dseq, bseq);
    ins := SilencedFromStart(params, net, dseq, bseq);
    ins := PingedForever(s, ins, (TWO_31 + 17) / 5);
    OverdueUnseen(Run(s, ins).s);
  }
}
