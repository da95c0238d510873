/** Which calls keep every slot in step with its log, for both roles. */
module OrdinaryRuns {
  import opened Words
  import opened MacTypes
  import opened MacSlot
  import opened MacMachine
  import opened SlotProtocol

  /** Every slot is where its own log says it is. */
  predicate AllCoupled(s: Mac, log: seq<Event>) {
    forall k :: 0 <= k <= COORD ==> Coupled(GetNode(s, k), Follow(k, Idle, log))
  }

  // A call is ordinary unless a control message or a timeout overwrites a slot that is busy,
  // or a sleepy node asks to leave (its answer is deferred on a slot that is then given up).

  predicate Overwrites(t: NodeTable, uuid: u64) {
    var k := SlotFor(t, uuid);
    k < MAX_NODES && Busy(t[k])
  }

  predicate Strands(s: Mac, src: byte, uuid: u64) {
    var k := Leaving(s.nodes, src, uuid);
    k < MAX_NODES && (Busy(s.nodes[k]) || (s.nodes[k].flags.sleepy && Fits(s, RegResponse(uuid, UNASSIGNED, STATUS_SUCCESS))))
  }

  predicate OrdinaryControl(s: Mac, f: Frame) {
    match f.body
    case RegRequest(uuid, _) => s.params.coordinator ==> !Overwrites(s.nodes, uuid)
    case DeregRequest(uuid, _) => s.params.coordinator ==> !Strands(s, f.h.src, uuid)
    case Beacon(_, _, _, _, _, _, _) => Attaches(s, f) ==> !Busy(s.coord)
    case _ => true
  }

  predicate OrdinaryTimeout(s: Mac) {
    Fires(s.timer, s.tick) && Requesting(s) ==> !Busy(s.coord)
  }

  predicate Ordinary(s: Mac, i: Input) {
    match i
    case DoReceive(f, ackSent) =>
      Admits(s, f.h) && !Stranger(s, f.h) ==> OrdinaryControl(Prelude(s, f, ackSent).s, f)
    case DoTick => !s.params.coordinator ==> OrdinaryTimeout(ClientTimers(s).s)
    case _ => true
  }

  predicate OrdinaryRun(s: Mac, ins: seq<Input>) {
    ins == [] ||
    (OrdinaryRun(s, ins[..|ins| - 1]) && Ordinary(Run(s, ins[..|ins| - 1]).s, ins[|ins| - 1]))
  }

  // Steps that touch one slot, and steps that touch none

  predicate Silent(ev: seq<Event>) {
    forall e :: e in ev ==> !AboutSlot(e)
  }

  lemma SilentKeeps(s: Mac, s': Mac, log: seq<Event>, ev: seq<Event>)
    requires AllCoupled(s, log)
    requires s'.nodes == s.nodes && s'.coord == s.coord && Silent(ev)
    ensures AllCoupled(s', log + ev)
  {
    forall k | 0 <= k <= COORD ensures Coupled(GetNode(s', k), Follow(k, Idle, log + ev)) {
      FollowConcat(k, Idle, log, ev);
      FollowOther(k, Follow(k, Idle, log), k + 1, ev);
      assert GetNode(s', k) == GetNode(s, k);
    }
  }

  lemma PutKeeps(s: Mac, k: nat, o: NodeOut, log: seq<Event>)
    requires k <= COORD && AllCoupled(s, log) && Follows(k, o, Follow(k, Idle, log))
    ensures AllCoupled(Put(s, k, o).s, log + o.ev)
  {
    forall j | 0 <= j <= COORD ensures Coupled(GetNode(Put(s, k, o).s, j), Follow(j, Idle, log + o.ev)) {
      FollowConcat(j, Idle, log, o.ev);
      if j != k {
        FollowOther(j, Follow(j, Idle, log), k, o.ev);
        assert GetNode(Put(s, k, o).s, j) == GetNode(s, j);
      }
    }
  }

  lemma PutCoordKeeps(s: Mac, o: NodeOut, log: seq<Event>)
    requires AllCoupled(s, log) && Follows(COORD, o, Follow(COORD, Idle, log))
    ensures AllCoupled(PutCoord(s, o).s, log + o.ev)
  {
    PutKeeps(s, COORD, o, log);
    SilentKeeps(Put(s, COORD, o).s, PutCoord(s, o).s, log + o.ev, []);
    assert log + o.ev + [] == log + o.ev;
  }

  lemma SendToKeeps(s: Mac, k: nat, flags: Flags, body: Body, validity: u16, cb: Callback, log: seq<Event>)
    requires k <= COORD && AllCoupled(s, log)
    ensures var o := SendTo(s, k, flags, body, validity, cb);
            AllCoupled(o.s, log + o.ev)
  {
    if Fits(s, body) {
      var n := GetNode(s, k);
      var f := Frame(NextHeader(s, flags, n.addr), body);
      TransmitFollows(k, n, f, validity, cb, s.tick, Follow(k, Idle, log));
      SilentKeeps(s, s.(dseq := s.dseq + 1), log, []);
      assert log + [] == log;
      PutKeeps(s.(dseq := s.dseq + 1), k, Transmit(k, n, f, validity, cb, s.tick), log);
    } else {
      assert log + [] == log;
    }
  }

  lemma HearNodeFollows(s: Mac, k: nat, n: Node, h: Header, ackSent: bool, w: Watch)
    requires Coupled(n, w)
    ensures Follows(k, HearNode(s, k, n, h, ackSent), w)
  {
    var n1 := n.(lastHeard := s.tick);
    var e := if h.flags.wantsAck then [SentMac(AckFrame(s, n1, h.seqno))] else [];
    var a := if !h.flags.wantsAck || !ackSent then NodeOut(n1, []) else Flush(k, n1, s.tick);
    FollowOther(k, w, k + 1, e);
    FlushFollows(k, n1, s.tick, w);
    FollowsThen(k, NodeOut(n1, e), a, w);
    FlushFollows(k, a.n, s.tick, Follow(k, w, a.ev));
    FollowsThen(k, NodeOut(a.n, e + a.ev), Flush(k, a.n, s.tick), w);
  }

  lemma PreludeKeeps(s: Mac, f: Frame, ackSent: bool, log: seq<Event>)
    requires AllCoupled(s, log)
    ensures var o := Prelude(s, f, ackSent);
            AllCoupled(o.s, log + o.ev)
  {
    var from := SourceOf(s, f.h);
    if from.Some? {
      var k := from.value;
      HearNodeFollows(s, k, GetNode(s, k), f.h, ackSent, Follow(k, Idle, log));
      PutKeeps(s, k, HearNode(s, k, GetNode(s, k), f.h, ackSent), log);
    } else {
      assert log + [] == log;
    }
  }

  // The control messages, both ways

  lemma EnrolIff(s: Mac, k: nat, uuid: u64, attach: Attach, o: Out, log: seq<Event>)
    requires k < MAX_NODES && AllCoupled(s, log)
    requires o.s.nodes == s.nodes[k := Enrol(s.nodes[k], uuid, attach, s.tick)] && o.s.coord == s.coord
    requires Silent(o.ev)
    ensures AllCoupled(o.s, log + o.ev) <==> !Busy(s.nodes[k])
  {
    assert Coupled(GetNode(s, k), Follow(k, Idle, log));
    if Busy(s.nodes[k]) {
      assert !Coupled(GetNode(o.s, k), Follow(k, Idle, log + o.ev));
    } else {
      var n := Enrol(s.nodes[k], uuid, attach, s.tick);
      PutKeeps(s, k, NodeOut(n, []), log);
      assert log + [] == log;
      SilentKeeps(SetNode(s, k, n), o.s, log, o.ev);
    }
  }

  lemma RegRequestIff(s: Mac, uuid: u64, attach: Attach, log: seq<Event>)
    requires AllCoupled(s, log) && s.params.coordinator
    ensures var o := RxRegRequest(s, uuid, attach);
            AllCoupled(o.s, log + o.ev) <==> !Overwrites(s.nodes, uuid)
  {
    var o := RxRegRequest(s, uuid, attach);
    var k := SlotFor(s.nodes, uuid);
    if k < MAX_NODES {
      EnrolIff(s, k, uuid, attach, o, log);
    } else {
      SilentKeeps(s, o.s, log, o.ev);
    }
  }

  lemma DeregRequestIff(s: Mac, src: byte, uuid: u64, log: seq<Event>)
    requires AllCoupled(s, log) && s.params.coordinator
    ensures var o := RxDeregRequest(s, src, uuid);
            AllCoupled(o.s, log + o.ev) <==> !Strands(s, src, uuid)
  {
    var k := Leaving(s.nodes, src, uuid);
    if k < MAX_NODES {
      var resp := RegResponse(uuid, UNASSIGNED, STATUS_SUCCESS);
      var o := SendTo(s, k, PLAIN, resp, 0, NoCallback);
      var d := Deregister(k, o.s.nodes[k]);
      var r := RxDeregRequest(s, src, uuid);
      assert GetNode(r.s, k) == d.n;
      assert Coupled(GetNode(s, k), Follow(k, Idle, log));
      if Strands(s, src, uuid) {
        assert !Coupled(GetNode(r.s, k), Follow(k, Idle, log + r.ev));
      } else {
        SendToKeeps(s, k, PLAIN, resp, 0, NoCallback, log);
        FollowOne(k, Follow(k, Idle, log + o.ev), NodeGone(k));
        assert Coupled(GetNode(o.s, k), Follow(k, Idle, log + o.ev));
        PutKeeps(o.s, k, d, log + o.ev);
        Regroup(log, o.ev, d.ev);
      }
    } else {
      assert log + [] == log;
    }
  }

  lemma BindKeeps(s: Mac, f: Frame, log: seq<Event>)
    requires AllCoupled(s, log) && f.body.Beacon? && !Busy(s.coord)
    ensures AllCoupled(Bound(s, f), log)
  {
    assert Coupled(GetNode(s, COORD), Follow(COORD, Idle, log));
    assert log + [] == log;
    PutKeeps(s, COORD, NodeOut(BoundCoord(s, f), []), log);
    SilentKeeps(SetNode(s, COORD, BoundCoord(s, f)), Bound(s, f), log, []);
  }

  lemma BeaconIff(s: Mac, f: Frame, log: seq<Event>)
    requires AllCoupled(s, log) && f.body.Beacon?
    ensures var o := RxBeacon(s, f);
            AllCoupled(o.s, log + o.ev) <==> (Attaches(s, f) ==> !Busy(s.coord))
  {
    var o := RxBeacon(s, f);
    assert log + [] == log;
    if Attaches(s, f) {
      var req := RegRequest(s.params.uuid, s.params.flags);
      var q := SendTo(Bound(s, f), COORD, PLAIN, req, 0, NoCallback);
      if Busy(s.coord) {
        assert Coupled(GetNode(s, COORD), Follow(COORD, Idle, log));
        assert GetNode(o.s, COORD) == BoundCoord(s, f);
        assert !Coupled(GetNode(o.s, COORD), Follow(COORD, Idle, log + o.ev));
      } else {
        BindKeeps(s, f, log);
        SendToKeeps(Bound(s, f), COORD, PLAIN, req, 0, NoCallback, log);
        SilentKeeps(q.s, o.s, log + o.ev, []);
        assert log + o.ev + [] == log + o.ev;
      }
    } else if s.client == ClientRegistered && s.addr in f.body.addrs {
      SendToKeeps(s, COORD, PLAIN, Poll, 0, NoCallback, log);
    } else {
      SilentKeeps(s, o.s, log, []);
    }
  }

  lemma HandleIff(s: Mac, from: Option<nat>, f: Frame, log: seq<Event>)
    requires from.Some? ==> from.value <= COORD
    requires AllCoupled(s, log)
    ensures var o := Handle(s, from, f);
            AllCoupled(o.s, log + o.ev) <==> OrdinaryControl(s, f)
  {
    var o := Handle(s, from, f);
    if f.body.Beacon? {
      BeaconIff(s, f, log);
    } else if f.body.RegRequest? && s.params.coordinator {
      RegRequestIff(s, f.body.uuid, f.body.attach, log);
    } else if f.body.DeregRequest? && s.params.coordinator {
      DeregRequestIff(s, f.h.src, f.body.uuid, log);
    } else if f.body.Ack? && from.Some? {
      var k := from.value;
      AckReceivedFollows(k, GetNode(s, k), f.h.seqno, Follow(k, Idle, log));
      PutKeeps(s, k, AckReceived(k, GetNode(s, k), f.h.seqno), log);
    } else {
      SilentKeeps(s, o.s, log, o.ev);
    }
  }

  // The tick

  lemma TickNodeOnly(k: nat, n: Node, now: nat)
    ensures Only(k, TickNode(k, n, now).ev)
  {
  }

  lemma {:induction false} JoinedFollow(k: nat, parts: seq<seq<Event>>, i: nat, w: Watch)
    requires i <= |parts| && forall j :: 0 <= j < |parts| ==> Only(j, parts[j])
    ensures Follow(k, w, Joined(parts, i)) == if i <= k < |parts| then Follow(k, w, parts[k]) else w
    decreases |parts| - i
  {
    if i == |parts| {
    } else {
      FollowConcat(k, w, parts[i], Joined(parts, i + 1));
      if i != k {
        FollowOther(k, w, i, parts[i]);
      }
      JoinedFollow(k, parts, i + 1, Follow(k, w, parts[i]));
    }
  }

  lemma TicksFollow(k: nat, t: NodeTable, now: nat, w: Watch)
    ensures Follow(k, w, Joined(NodeTickEvents(t, now), 0)) ==
            if k < MAX_NODES then Follow(k, w, TickNode(k, t[k], now).ev) else w
  {
    var parts := NodeTickEvents(t, now);
    forall j | 0 <= j < |parts| ensures Only(j, parts[j]) {
      TickNodeOnly(j, t[j], now);
    }
    JoinedFollow(k, parts, 0, w);
  }

  lemma TickNodesKeep(s: Mac, log: seq<Event>)
    requires AllCoupled(s, log)
    ensures AllCoupled(TickNodes(s).s, log + TickNodes(s).ev)
  {
    var o := TickNodes(s);
    forall k | 0 <= k <= COORD ensures Coupled(GetNode(o.s, k), Follow(k, Idle, log + o.ev)) {
      var w := Follow(k, Idle, log);
      FollowConcat(k, Idle, log, o.ev);
      TicksFollow(k, s.nodes, s.tick, w);
      assert Coupled(GetNode(s, k), w);
      if k < MAX_NODES {
        TickNodeFollows(k, s.nodes[k], s.tick, w);
        assert GetNode(o.s, k) == TickNode(k, s.nodes[k], s.tick).n;
      }
    }
  }

  lemma BeaconTickSilent(s: Mac)
    ensures var b := BeaconTick(s);
            && Silent(b.ev) && b.s.nodes == s.nodes && b.s.coord == s.coord
            && b.s.tick == s.tick && b.s.params == s.params
  {
  }

  lemma CoordinatorTickKeeps(s: Mac, log: seq<Event>)
    requires AllCoupled(s, log)
    ensures AllCoupled(CoordinatorTick(s).s, log + CoordinatorTick(s).ev)
  {
    var b := BeaconTick(s);
    BeaconTickSilent(s);
    SilentKeeps(s, b.s, log, b.ev);
    TickNodesKeep(b.s, log + b.ev);
    Regroup(log, b.ev, TickNodes(b.s).ev);
  }

  lemma CoordAckKeeps(s: Mac, now: nat, log: seq<Event>)
    requires AllCoupled(s, log)
    ensures var o := PutCoord(s, DespatchAck(COORD, s.coord, now));
            AllCoupled(o.s, log + o.ev)
  {
    assert Coupled(GetNode(s, COORD), Follow(COORD, Idle, log));
    DespatchAckFollows(COORD, s.coord, now, Follow(COORD, Idle, log));
    PutCoordKeeps(s, DespatchAck(COORD, s.coord, now), log);
  }

  lemma CoordValidityKeeps(s: Mac, now: nat, log: seq<Event>)
    requires AllCoupled(s, log)
    ensures var o := PutCoord(s, DespatchValidity(COORD, s.coord, now));
            AllCoupled(o.s, log + o.ev)
  {
    assert Coupled(GetNode(s, COORD), Follow(COORD, Idle, log));
    DespatchValidityFollows(COORD, s.coord, now, Follow(COORD, Idle, log));
    PutCoordKeeps(s, DespatchValidity(COORD, s.coord, now), log);
  }

  lemma ClientTimersKeep(s: Mac, log: seq<Event>)
    requires AllCoupled(s, log)
    ensures AllCoupled(ClientTimers(s).s, log + ClientTimers(s).ev)
  {
    var b := RequestBeacon(s);
    SilentKeeps(s, b.s, log, b.ev);
    CoordAckKeeps(b.s, s.tick, log + b.ev);
    var a := PutCoord(b.s, DespatchAck(COORD, b.s.coord, s.tick));
    CoordValidityKeeps(a.s, s.tick, log + b.ev + a.ev);
    var v := PutCoord(a.s, DespatchValidity(COORD, a.s.coord, s.tick));
    Regroup(log, b.ev, a.ev);
    Regroup(log, b.ev + a.ev, v.ev);
  }

  lemma DespatchRequestIff(s: Mac, log: seq<Event>)
    requires AllCoupled(s, log)
    ensures AllCoupled(DespatchRequest(s).s, log + DespatchRequest(s).ev) <==>
            OrdinaryTimeout(s)
  {
    var o := DespatchRequest(s);
    assert Coupled(GetNode(s, COORD), Follow(COORD, Idle, log));
    assert log + [] == log;
    if Fires(s.timer, s.tick) && Requesting(s) {
      if Busy(s.coord) {
        assert !Coupled(GetNode(o.s, COORD), Follow(COORD, Idle, log + o.ev));
      } else {
        FollowOne(COORD, Follow(COORD, Idle, log), NodeGone(COORD));
        SilentKeeps(s, s.(timer := Off), log, []);
        PutCoordKeeps(s.(timer := Off), Deregister(COORD, s.coord), log);
      }
    } else {
      SilentKeeps(s, o.s, log, []);
    }
  }

  lemma TickIff(s: Mac, log: seq<Event>)
    requires AllCoupled(s, log)
    ensures AllCoupled(Tick(s).s, log + Tick(s).ev) <==> Ordinary(s, DoTick)
  {
    if s.params.coordinator {
      CoordinatorTickKeeps(s, log);
      SilentKeeps(CoordinatorTick(s).s, Tick(s).s, log + Tick(s).ev, []);
      assert log + Tick(s).ev + [] == log + Tick(s).ev;
    } else {
      var v := ClientTimers(s);
      var r := DespatchRequest(v.s);
      ClientTimersKeep(s, log);
      DespatchRequestIff(v.s, log + v.ev);
      Regroup(log, v.ev, r.ev);
      assert forall k :: 0 <= k <= COORD ==> GetNode(Tick(s).s, k) == GetNode(r.s, k);
    }
  }

  // Whole steps and whole runs

  lemma SendKeeps(s: Mac, dest: byte, flags: Flags, body: Body, validity: u16, cb: Callback, log: seq<Event>)
    requires AllCoupled(s, log)
    ensures var o := Send(s, dest, flags, body, validity, cb);
            AllCoupled(o.s, log + o.ev)
  {
    var r := Lookup(s, dest);
    if body.Data? && r.Some? {
      SendToKeeps(s, r.value, flags, body, SendValidity(GetNode(s, r.value), validity), cb, log);
    } else {
      assert log + [] == log;
    }
  }

  lemma RecvIff(s: Mac, f: Frame, ackSent: bool, log: seq<Event>)
    requires AllCoupled(s, log)
    ensures var o := Recv(s, f, ackSent);
            AllCoupled(o.s, log + o.ev) <==> Ordinary(s, DoReceive(f, ackSent))
  {
    var o := Recv(s, f, ackSent);
    if Admits(s, f.h) && !Stranger(s, f.h) {
      var p := Prelude(s, f, ackSent);
      PreludeKeeps(s, f, ackSent, log);
      HandleIff(p.s, SourceOf(s, f.h), f, log + p.ev);
      Regroup(log, p.ev, Handle(p.s, SourceOf(s, f.h), f).ev);
    } else {
      SilentKeeps(s, o.s, log, o.ev);
    }
  }

  /** A step that starts with every slot in step with its log ends so exactly when it is ordinary. */
  lemma StepCoupledIff(s: Mac, i: Input, log: seq<Event>)
    requires AllCoupled(s, log)
    ensures AllCoupled(Step(s, i).s, log + Step(s, i).ev) <==> Ordinary(s, i)
  {
    match i {
      case DoSend(dest, flags, body, validity, cb) =>
        SendKeeps(s, dest, flags, body, validity, cb, log);
      case DoReceive(f, ackSent) =>
        RecvIff(s, f, ackSent, log);
      case DoTick =>
        TickIff(s, log);
      case DoPermit(permit) =>
        SilentKeeps(s, Step(s, i).s, log, []);
    }
  }

  lemma InitCoupled(params: Params, mtu: nat, net: byte, dseq: byte, bseq: byte)
    ensures AllCoupled(Init(params, mtu, net, dseq, bseq), [])
  {
  }

  /** Slot coupling over every ordinary run. */
  lemma {:induction false} OrdinaryRunCoupled(s: Mac, ins: seq<Input>, log: seq<Event>)
    requires AllCoupled(s, log) && OrdinaryRun(s, ins)
    ensures AllCoupled(Run(s, ins).s, log + Run(s, ins).ev)
  {
    if ins == [] {
      assert log + [] == log;
    } else {
      var a := Run(s, ins[..|ins| - 1]);
      OrdinaryRunCoupled(s, ins[..|ins| - 1], log);
      StepCoupledIff(a.s, ins[|ins| - 1], log + a.ev);
      Regroup(log, a.ev, Step(a.s, ins[|ins| - 1]).ev);
    }
  }
}
