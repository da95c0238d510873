/** What follows when a registration request takes over a busy slot: its packet was accepted, and its sender
    is never told what became of it. */
module LostOutcome {
  import opened Words
  import opened MacTypes
  import opened MacSlot
  import opened MacMachine
  import opened SlotProtocol
  import opened OrdinaryRuns
  import opened Registry
  import opened Limits

  /** No outcome is reported to `cb` for slot `k`. */
  predicate Mute(k: nat, cb: Callback, ev: seq<Event>) {
    forall e :: e in ev && e.Resolved? && e.slot == k ==> e.cb != cb
  }

  lemma MuteBoth(k: nat, cb: Callback, a: seq<Event>, b: seq<Event>)
    requires Mute(k, cb, a) && Mute(k, cb, b)
    ensures Mute(k, cb, a + b)
  {
  }

  // One slot

  /** The operation reports on its own slot alone, and does not bring `cb` back. */
  predicate Forgets(k: nat, n: Node, cb: Callback, o: NodeOut) {
    && (forall e :: e in o.ev && e.Resolved? ==> e.slot == k)
    && (n.sendCb != cb ==> o.n.sendCb != cb && Mute(k, cb, o.ev))
  }

  lemma ForgetsThen(k: nat, n: Node, cb: Callback, o: NodeOut, p: NodeOut)
    requires Forgets(k, n, cb, o) && Forgets(k, o.n, cb, p)
    ensures Forgets(k, n, cb, NodeOut(p.n, o.ev + p.ev))
  {
  }

  lemma TransmitForgets(k: nat, n: Node, f: Frame, validity: u16, cb': Callback, now: nat, cb: Callback)
    requires cb' != cb
    ensures Forgets(k, n, cb, Transmit(k, n, f, validity, cb', now))
  {
  }

  lemma FlushForgets(k: nat, n: Node, now: nat, cb: Callback)
    ensures Forgets(k, n, cb, Flush(k, n, now))
  {
  }

  lemma AckForgets(k: nat, n: Node, seqno: nat, cb: Callback)
    ensures Forgets(k, n, cb, AckReceived(k, n, seqno))
  {
  }

  lemma TimersForget(k: nat, n: Node, now: nat, cb: Callback)
    ensures Forgets(k, n, cb, DespatchAck(k, n, now)) && Forgets(k, n, cb, DespatchValidity(k, n, now))
  {
  }

  lemma TickNodeForgets(k: nat, n: Node, now: nat, cb: Callback)
    ensures Forgets(k, n, cb, TickNode(k, n, now))
  {
    var h := Heartbeat(k, n, now);
    var a := DespatchAck(k, h.n, now);
    TimersForget(k, h.n, now, cb);
    TimersForget(k, a.n, now, cb);
    ForgetsThen(k, h.n, cb, a, DespatchValidity(k, a.n, now));
    ForgetsThen(k, n, cb, h, Despatch(k, h.n, now));
  }

  lemma HearForgets(s: Mac, k: nat, n: Node, h: Header, ackSent: bool, cb: Callback)
    ensures Forgets(k, n, cb, HearNode(s, k, n, h, ackSent))
  {
    var n1 := n.(lastHeard := s.tick);
    var a := if !h.flags.wantsAck || !ackSent then NodeOut(n1, []) else Flush(k, n1, s.tick);
    var ack := if h.flags.wantsAck then [SentMac(AckFrame(s, n1, h.seqno))] else [];
    FlushForgets(k, n1, s.tick, cb);
    FlushForgets(k, a.n, s.tick, cb);
    ForgetsThen(k, n, cb, NodeOut(n1, ack), a);
    ForgetsThen(k, n, cb, NodeOut(a.n, ack + a.ev), Flush(k, a.n, s.tick));
  }

  // A whole device

  /** A slot that does not know `cb` does not learn it, and reports nothing to it. */
  predicate Keeps(s: Mac, k: nat, cb: Callback, o: Out)
    requires k <= COORD
  {
    GetNode(s, k).sendCb != cb ==> GetNode(o.s, k).sendCb != cb && Mute(k, cb, o.ev)
  }

  lemma KeepsThen(s: Mac, k: nat, cb: Callback, o: Out, p: Out)
    requires k <= COORD && Keeps(s, k, cb, o) && Keeps(o.s, k, cb, p)
    ensures Keeps(s, k, cb, Out(p.s, o.ev + p.ev))
  {
  }

  lemma PutKeeps(s: Mac, j: nat, o: NodeOut, k: nat, cb: Callback)
    requires j <= COORD && k <= COORD && Forgets(j, GetNode(s, j), cb, o)
    ensures Keeps(s, k, cb, Put(s, j, o))
  {
  }

  lemma SendToKeeps(s: Mac, j: nat, flags: Flags, body: Body, validity: u16, cb': Callback, k: nat, cb: Callback)
    requires j <= COORD && k <= COORD && cb' != cb
    ensures Keeps(s, k, cb, SendTo(s, j, flags, body, validity, cb'))
  {
    if Fits(s, body) {
      var n := GetNode(s, j);
      var f := Frame(NextHeader(s, flags, n.addr), body);
      TransmitForgets(j, n, f, validity, cb', s.tick, cb);
      PutKeeps(s.(dseq := s.dseq + 1), j, Transmit(j, n, f, validity, cb', s.tick), k, cb);
    }
  }

  lemma RxBeaconKeeps(s: Mac, f: Frame, k: nat, cb: Callback)
    requires f.body.Beacon? && k <= COORD && cb != NoCallback
    ensures Keeps(s, k, cb, RxBeacon(s, f))
  {
    SendToKeeps(Bound(s, f), COORD, PLAIN, RegRequest(s.params.uuid, s.params.flags), 0, NoCallback, k, cb);
    SendToKeeps(s, COORD, PLAIN, Poll, 0, NoCallback, k, cb);
  }

  lemma RxDeregKeeps(s: Mac, src: byte, uuid: u64, k: nat, cb: Callback)
    requires k <= COORD && cb != NoCallback
    ensures Keeps(s, k, cb, RxDeregRequest(s, src, uuid))
  {
    var j := Leaving(s.nodes, src, uuid);
    if j < MAX_NODES {
      var body := RegResponse(uuid, UNASSIGNED, STATUS_SUCCESS);
      var o := SendTo(s, j, PLAIN, body, 0, NoCallback);
      SendToKeeps(s, j, PLAIN, body, 0, NoCallback, k, cb);
      PutKeeps(o.s, j, Deregister(j, o.s.nodes[j]), k, cb);
      KeepsThen(s, k, cb, o, Put(o.s, j, Deregister(j, o.s.nodes[j])));
    }
  }

  lemma HandleKeeps(s: Mac, from: Option<nat>, f: Frame, k: nat, cb: Callback)
    requires (from.Some? ==> from.value <= COORD) && k <= COORD && cb != NoCallback
    ensures Keeps(s, k, cb, Handle(s, from, f))
  {
    match f.body
    case Beacon(_, _, _, _, _, _, _) => RxBeaconKeeps(s, f, k, cb);
    case DeregRequest(uuid, _) => RxDeregKeeps(s, f.h.src, uuid, k, cb);
    case Ack =>
      if from.Some? {
        var n := GetNode(s, from.value);
        AckForgets(from.value, n, f.h.seqno, cb);
        PutKeeps(s, from.value, AckReceived(from.value, n, f.h.seqno), k, cb);
      }
    case _ =>
  }

  lemma RecvKeeps(s: Mac, f: Frame, ackSent: bool, k: nat, cb: Callback)
    requires k <= COORD && cb != NoCallback
    ensures Keeps(s, k, cb, Recv(s, f, ackSent))
  {
    if Admits(s, f.h) && !Stranger(s, f.h) {
      var from := SourceOf(s, f.h);
      var p := Prelude(s, f, ackSent);
      if from.Some? {
        var n := GetNode(s, from.value);
        HearForgets(s, from.value, n, f.h, ackSent, cb);
        PutKeeps(s, from.value, HearNode(s, from.value, n, f.h, ackSent), k, cb);
      }
      HandleKeeps(p.s, from, f, k, cb);
      KeepsThen(s, k, cb, p, Handle(p.s, from, f));
    }
  }

  lemma {:induction false} JoinedMute(parts: seq<seq<Event>>, i: nat, k: nat, cb: Callback)
    requires i <= |parts| && forall j :: i <= j < |parts| ==> Mute(k, cb, parts[j])
    ensures Mute(k, cb, Joined(parts, i))
    decreases |parts| - i
  {
    if i == |parts| {
    } else {
      JoinedMute(parts, i + 1, k, cb);
      MuteBoth(k, cb, parts[i], Joined(parts, i + 1));
    }
  }

  lemma TickNodesKeeps(s: Mac, k: nat, cb: Callback)
    requires k <= COORD
    ensures Keeps(s, k, cb, TickNodes(s))
  {
    if GetNode(s, k).sendCb != cb {
      var parts := NodeTickEvents(s.nodes, s.tick);
      forall j | 0 <= j < |parts|
        ensures Mute(k, cb, parts[j])
        ensures Forgets(j, s.nodes[j], cb, TickNode(j, s.nodes[j], s.tick))
      {
        TickNodeForgets(j, s.nodes[j], s.tick, cb);
      }
      JoinedMute(parts, 0, k, cb);
    }
  }

  lemma PutCoordKeeps(s: Mac, o: NodeOut, k: nat, cb: Callback)
    requires k <= COORD && Forgets(COORD, s.coord, cb, o)
    ensures Keeps(s, k, cb, PutCoord(s, o))
  {
  }

  lemma DespatchRequestKeeps(s: Mac, k: nat, cb: Callback)
    requires k <= COORD
    ensures Keeps(s, k, cb, DespatchRequest(s))
  {
  }

  lemma ClientTickKeeps(s: Mac, k: nat, cb: Callback)
    requires k <= COORD
    ensures Keeps(s, k, cb, ClientTick(s))
  {
    var b := RequestBeacon(s);
    var a := PutCoord(b.s, DespatchAck(COORD, b.s.coord, s.tick));
    var v := PutCoord(a.s, DespatchValidity(COORD, a.s.coord, s.tick));
    TimersForget(COORD, b.s.coord, s.tick, cb);
    TimersForget(COORD, a.s.coord, s.tick, cb);
    PutCoordKeeps(b.s, DespatchAck(COORD, b.s.coord, s.tick), k, cb);
    PutCoordKeeps(a.s, DespatchValidity(COORD, a.s.coord, s.tick), k, cb);
    assert Keeps(s, k, cb, b);
    KeepsThen(s, k, cb, b, a);
    KeepsThen(s, k, cb, Out(a.s, b.ev + a.ev), v);
    DespatchRequestKeeps(v.s, k, cb);
    KeepsThen(s, k, cb, ClientTimers(s), DespatchRequest(v.s));
  }

  lemma TickKeeps(s: Mac, k: nat, cb: Callback)
    requires k <= COORD
    ensures Keeps(s, k, cb, Tick(s))
  {
    if s.params.coordinator {
      var b := BeaconTick(s);
      TickNodesKeeps(b.s, k, cb);
      assert Keeps(s, k, cb, b);
      KeepsThen(s, k, cb, b, TickNodes(b.s));
    } else {
      ClientTickKeeps(s, k, cb);
    }
  }

  /** The call is a send that offers that callback. */
  predicate Offers(i: Input, cb: Callback) { i.DoSend? && i.cb == cb }

  lemma StepKeeps(s: Mac, i: Input, k: nat, cb: Callback)
    requires k <= COORD && cb != NoCallback && !Offers(i, cb)
    ensures Keeps(s, k, cb, Step(s, i))
  {
    match i
    case DoSend(dest, flags, body, validity, cb') =>
      var r := Lookup(s, dest);
      if r.Some? {
        SendToKeeps(s, r.value, flags, body, SendValidity(GetNode(s, r.value), validity), cb', k, cb);
      }
    case DoReceive(f, ackSent) => RecvKeeps(s, f, ackSent, k, cb);
    case DoTick => TickKeeps(s, k, cb);
    case DoPermit(_) =>
  }

  /** A callback that a slot does not hold hears nothing about that slot until it is offered again. */
  lemma {:induction false} RunKeeps(s: Mac, ins: seq<Input>, k: nat, cb: Callback)
    requires k <= COORD && cb != NoCallback && forall i :: i in ins ==> !Offers(i, cb)
    ensures Keeps(s, k, cb, Run(s, ins))
    decreases |ins|
  {
    if ins == [] {
    } else {
      var before := ins[..|ins| - 1];
      var i := ins[|ins| - 1];
      RunKeeps(s, before, k, cb);
      StepKeeps(Run(s, before).s, i, k, cb);
      KeepsThen(s, k, cb, Run(s, before), Step(Run(s, before).s, i));
    }
  }

  /** The new packet takes the callback's place. */
  lemma ReplacedCallback(s: Mac, k: nat, flags: Flags, body: Body, validity: u16, cb: Callback)
    requires k < MAX_NODES && s.params.coordinator && s.nodes[k].state == Registered && s.nodes[k].addr == k + 1
    requires forall j :: 0 <= j < MAX_NODES ==> s.nodes[j].addr == j + 1
    requires body.Data? && Fits(s, body) && flags.wantsAck
    ensures var p := Send(s, s.nodes[k].addr, flags, body, validity, cb);
            p.s.nodes[k].sendCb == cb && forall e :: e in p.ev ==> !e.Resolved?
  {
    AddressFinds(s.nodes, k);
  }

  /** A busy slot is taken over by a registration request for its UUID and then sent to: the packet it held
      had been accepted and was still open, and however the run goes on, nothing is ever reported to its
      callback for that slot, unless a later send offers the same callback again. */
  lemma OutcomeNeverReported(s: Mac, uuid: u64, attach: Attach, seqno: nat,
                             body: Body, validity: u16, cb: Callback, log: seq<Event>, ins: seq<Input>)
    requires s.params.coordinator && s.permitAttach && s.addr != UNASSIGNED
    requires AllCoupled(s, log) && Safe(s.nodes) && Overwrites(s.nodes, uuid)
    requires body.Data? && Fits(s, body)
    requires var lost := s.nodes[SlotFor(s.nodes, uuid)].sendCb;
             lost != NoCallback && cb != lost && forall i :: i in ins ==> !Offers(i, lost)
    ensures var k := SlotFor(s.nodes, uuid);
            var lost := s.nodes[k].sendCb;
            var o := Recv(s, Request(s.net, uuid, attach, seqno), true);
            var p := Send(o.s, s.nodes[k].addr, Flags(true, false, false, 0), body, validity, cb);
            && Follow(k, Idle, log).Open? && Follow(k, Idle, log).cb == lost
            && Mute(k, lost, o.ev + p.ev + Run(p.s, ins).ev)
  {
    var k := SlotFor(s.nodes, uuid);
    var lost := s.nodes[k].sendCb;
    var o := Recv(s, Request(s.net, uuid, attach, seqno), true);
    var p := Send(o.s, s.nodes[k].addr, Flags(true, false, false, 0), body, validity, cb);
    assert Coupled(GetNode(s, k), Follow(k, Idle, log));
    OverwrittenStaysOpen(s, uuid, attach, seqno, log);
    RequestTaken(s, uuid, attach, seqno);
    ReplacedCallback(o.s, k, Flags(true, false, false, 0), body, validity, cb);
    RunKeeps(p.s, ins, k, lost);
    MuteBoth(k, lost, o.ev, p.ev);
    MuteBoth(k, lost, o.ev + p.ev, Run(p.s, ins).ev);
  }
}
