/** Notification of arrival and loss: what reg_cb and dereg_cb tell the application of a coordinator
    is what its registry holds. */
module Presence {
  import opened Words
  import opened MacTypes
  import opened MacSlot
  import opened MacMachine
  import opened SlotProtocol
  import opened OrdinaryRuns

  predicate Tells(k: nat, e: Event) {
    (e.NodeUp? || e.NodeGone?) && e.slot == k
  }

  /** Whether the application thinks that slot `k` is present, after a log. */
  function Shown(k: nat, up: bool, ev: seq<Event>): bool
    decreases |ev|
  {
    if ev == [] then up else Shown(k, if Tells(k, ev[0]) then ev[0].NodeUp? else up, ev[1..])
  }

  /** The application knows which nodes are registered. */
  predicate Present(s: Mac, log: seq<Event>) {
    forall k :: 0 <= k < MAX_NODES ==> (Live(s.nodes[k]) <==> Shown(k, false, log))
  }

  lemma {:induction false} ShownConcat(k: nat, up: bool, a: seq<Event>, b: seq<Event>)
    ensures Shown(k, up, a + b) == Shown(k, Shown(k, up, a), b)
    decreases |a|
  {
    if a == [] {
      assert a + b == b;
    } else {
      assert (a + b)[1..] == a[1..] + b;
      ShownConcat(k, if Tells(k, a[0]) then a[0].NodeUp? else up, a[1..], b);
    }
  }

  predicate Mute(k: nat, ev: seq<Event>) {
    forall e :: e in ev ==> !Tells(k, e)
  }

  lemma {:induction false} MuteShown(k: nat, up: bool, ev: seq<Event>)
    requires Mute(k, ev)
    ensures Shown(k, up, ev) == up
    decreases |ev|
  {
    if ev == [] {
    } else {
      assert ev[0] in ev;
      MuteShown(k, up, ev[1..]);
    }
  }

  // One slot

  /** An operation on slot `k` tells the truth about it and says nothing about the others. */
  predicate Honest(k: nat, n: Node, o: NodeOut) {
    && Live(o.n) == Shown(k, Live(n), o.ev)
    && (forall e :: e in o.ev && (e.NodeUp? || e.NodeGone?) ==> e.slot == k)
  }

  /** Timers run only for live nodes. */
  predicate Sound(n: Node) {
    n.ackTimer.Due? || n.validityTimer.Due? ==> Live(n)
  }

  lemma HonestThen(k: nat, n: Node, o: NodeOut, p: NodeOut)
    requires Honest(k, n, o) && Honest(k, o.n, p)
    ensures Honest(k, n, NodeOut(p.n, o.ev + p.ev))
  {
    ShownConcat(k, Live(n), o.ev, p.ev);
  }

  lemma QuietHonest(k: nat, n: Node, o: NodeOut)
    requires Live(o.n) == Live(n) && forall e :: e in o.ev ==> !e.NodeUp? && !e.NodeGone?
    ensures Honest(k, n, o)
  {
    MuteShown(k, Live(n), o.ev);
  }

  lemma GoneHonest(k: nat, n: Node, o: NodeOut, ev: seq<Event>)
    requires !Live(o.n) && o.ev == ev + [NodeGone(k)] && forall e :: e in ev ==> !e.NodeUp? && !e.NodeGone?
    ensures Honest(k, n, o)
  {
    ShownConcat(k, Live(n), ev, [NodeGone(k)]);
    assert [NodeGone(k)][1..] == [];
  }

  lemma HeartbeatHonest(k: nat, n: Node, now: nat)
    requires Sound(n)
    ensures Honest(k, n, Heartbeat(k, n, now))
  {
    var o := Heartbeat(k, n, now);
    if o.ev == [] {
      QuietHonest(k, n, o);
    } else {
      assert o.ev == [] + [NodeGone(k)];
      GoneHonest(k, n, o, []);
    }
  }

  lemma DespatchAckHonest(k: nat, n: Node, now: nat)
    requires Sound(n)
    ensures Honest(k, n, DespatchAck(k, n, now))
  {
    var o := DespatchAck(k, n, now);
    if Fires(n.ackTimer, now) && n.retries == 0 {
      GoneHonest(k, n, o, [Resolved(k, n.sendCb, false)]);
    } else {
      QuietHonest(k, n, o);
    }
  }

  lemma DespatchValidityHonest(k: nat, n: Node, now: nat)
    requires n.validityTimer.Due? ==> Live(n)
    ensures Honest(k, n, DespatchValidity(k, n, now))
  {
    QuietHonest(k, n, DespatchValidity(k, n, now));
  }

  lemma TickNodeHonest(k: nat, n: Node, now: nat, w: Watch)
    requires Coupled(n, w)
    ensures Honest(k, n, TickNode(k, n, now))
  {
    var h := Heartbeat(k, n, now);
    var a := DespatchAck(k, h.n, now);
    var v := DespatchValidity(k, a.n, now);
    HeartbeatHonest(k, n, now);
    DespatchAckHonest(k, h.n, now);
    DespatchValidityHonest(k, a.n, now);
    HonestThen(k, h.n, a, v);
    HonestThen(k, n, h, NodeOut(v.n, a.ev + v.ev));
  }

  lemma HearNodeHonest(s: Mac, k: nat, n: Node, h: Header, ackSent: bool)
    ensures Honest(k, n, HearNode(s, k, n, h, ackSent))
  {
    QuietHonest(k, n, HearNode(s, k, n, h, ackSent));
  }

  // The whole table

  /** From `s` to `o`, every slot changes as it is told. */
  predicate Tell(s: Mac, o: Out) {
    forall k :: 0 <= k < MAX_NODES ==> Live(o.s.nodes[k]) == Shown(k, Live(s.nodes[k]), o.ev)
  }

  lemma TellThen(s: Mac, o: Out, p: Out)
    requires Tell(s, o) && Tell(o.s, p)
    ensures Tell(s, Out(p.s, o.ev + p.ev))
  {
    forall k | 0 <= k < MAX_NODES
      ensures Live(p.s.nodes[k]) == Shown(k, Live(s.nodes[k]), o.ev + p.ev)
    {
      ShownConcat(k, Live(s.nodes[k]), o.ev, p.ev);
    }
  }

  lemma QuietTell(s: Mac, o: Out)
    requires forall k :: 0 <= k < MAX_NODES ==> Live(o.s.nodes[k]) == Live(s.nodes[k])
    requires forall e :: e in o.ev ==> !e.NodeUp? && (e.NodeGone? ==> e.slot == COORD)
    ensures Tell(s, o)
  {
    forall k | 0 <= k < MAX_NODES
      ensures Live(o.s.nodes[k]) == Shown(k, Live(s.nodes[k]), o.ev)
    {
      MuteShown(k, Live(s.nodes[k]), o.ev);
    }
  }

  lemma PutTell(s: Mac, k: nat, o: NodeOut)
    requires k < MAX_NODES && Honest(k, s.nodes[k], o)
    ensures Tell(s, Put(s, k, o))
  {
    forall j | 0 <= j < MAX_NODES
      ensures Live(Put(s, k, o).s.nodes[j]) == Shown(j, Live(s.nodes[j]), o.ev)
    {
      if j != k {
        MuteShown(j, Live(s.nodes[j]), o.ev);
      }
    }
  }

  lemma {:induction false} JoinedShown(k: nat, parts: seq<seq<Event>>, i: nat, up: bool)
    requires i <= |parts| && forall j :: 0 <= j < |parts| && j != k ==> Mute(k, parts[j])
    ensures Shown(k, up, Joined(parts, i)) == if i <= k < |parts| then Shown(k, up, parts[k]) else up
    decreases |parts| - i
  {
    if i == |parts| {
    } else {
      ShownConcat(k, up, parts[i], Joined(parts, i + 1));
      if i != k {
        MuteShown(k, up, parts[i]);
      }
      JoinedShown(k, parts, i + 1, Shown(k, up, parts[i]));
    }
  }

  lemma TickNodesTell(s: Mac, log: seq<Event>)
    requires AllCoupled(s, log)
    ensures Tell(s, TickNodes(s))
  {
    var parts := NodeTickEvents(s.nodes, s.tick);
    forall j | 0 <= j < MAX_NODES
      ensures Honest(j, s.nodes[j], TickNode(j, s.nodes[j], s.tick))
    {
      assert Coupled(GetNode(s, j), Follow(j, Idle, log));
      TickNodeHonest(j, s.nodes[j], s.tick, Follow(j, Idle, log));
    }
    forall k | 0 <= k < MAX_NODES
      ensures Live(TickNodes(s).s.nodes[k]) == Shown(k, Live(s.nodes[k]), TickNodes(s).ev)
    {
      forall j | 0 <= j < |parts| && j != k ensures Mute(k, parts[j]) {
        assert Honest(j, s.nodes[j], TickNode(j, s.nodes[j], s.tick));
      }
      JoinedShown(k, parts, 0, Live(s.nodes[k]));
      assert Honest(k, s.nodes[k], TickNode(k, s.nodes[k], s.tick));
    }
  }

  lemma CoordinatorTickTells(s: Mac, log: seq<Event>)
    requires AllCoupled(s, log)
    ensures Tell(s, CoordinatorTick(s))
  {
    var b := BeaconTick(s);
    BeaconTickSilent(s);
    SilentKeeps(s, b.s, log, b.ev);
    QuietTell(s, b);
    TickNodesTell(b.s, log + b.ev);
    TellThen(s, b, TickNodes(b.s));
  }

  lemma SendToTells(s: Mac, k: nat, flags: Flags, body: Body, validity: u16, cb: Callback)
    requires k <= COORD
    ensures Tell(s, SendTo(s, k, flags, body, validity, cb))
  {
    QuietTell(s, SendTo(s, k, flags, body, validity, cb));
  }

  lemma RegRequestTells(s: Mac, uuid: u64, attach: Attach)
    ensures Tell(s, RxRegRequest(s, uuid, attach))
  {
    var o := RxRegRequest(s, uuid, attach);
    if s.params.coordinator {
      var j := SlotFor(s.nodes, uuid);
      var sent := o.ev[..|o.ev| - 1];
      forall k | 0 <= k < MAX_NODES
        ensures Live(o.s.nodes[k]) == Shown(k, Live(s.nodes[k]), o.ev)
      {
        ShownConcat(k, Live(s.nodes[k]), sent, [NodeUp(j)]);
        assert o.ev == sent + [NodeUp(j)] && [NodeUp(j)][1..] == [];
        MuteShown(k, Live(s.nodes[k]), sent);
      }
    }
  }

  lemma DeregRequestTells(s: Mac, src: byte, uuid: u64)
    ensures Tell(s, RxDeregRequest(s, src, uuid))
  {
    var k := Leaving(s.nodes, src, uuid);
    if s.params.coordinator && k < MAX_NODES {
      var o := SendTo(s, k, PLAIN, RegResponse(uuid, UNASSIGNED, STATUS_SUCCESS), 0, NoCallback);
      var d := Deregister(k, o.s.nodes[k]);
      SendToTells(s, k, PLAIN, RegResponse(uuid, UNASSIGNED, STATUS_SUCCESS), 0, NoCallback);
      assert d.ev == [] + [NodeGone(k)];
      GoneHonest(k, o.s.nodes[k], d, []);
      PutTell(o.s, k, d);
      TellThen(s, o, Put(o.s, k, d));
    }
  }

  lemma HandleTells(s: Mac, from: Option<nat>, f: Frame)
    requires s.params.coordinator && (from.Some? ==> from.value < MAX_NODES)
    ensures Tell(s, Handle(s, from, f))
  {
    match f.body {
      case RegRequest(uuid, attach) => RegRequestTells(s, uuid, attach);
      case DeregRequest(uuid, _) => DeregRequestTells(s, f.h.src, uuid);
      case _ => QuietTell(s, Handle(s, from, f));
    }
  }

  lemma RecvTells(s: Mac, f: Frame, ackSent: bool)
    requires s.params.coordinator
    ensures Tell(s, Recv(s, f, ackSent))
  {
    if Admits(s, f.h) && !Stranger(s, f.h) {
      var from := SourceOf(s, f.h);
      var p := Prelude(s, f, ackSent);
      if from.Some? {
        HearNodeHonest(s, from.value, s.nodes[from.value], f.h, ackSent);
        PutTell(s, from.value, HearNode(s, from.value, s.nodes[from.value], f.h, ackSent));
      } else {
        QuietTell(s, p);
      }
      HandleTells(p.s, from, f);
      TellThen(s, p, Handle(p.s, from, f));
    } else {
      QuietTell(s, Recv(s, f, ackSent));
    }
  }

  /** Every call of a coordinator whose slots are in step with their logs tells the application of
      each node that comes or goes, and of no other. */
  lemma StepTells(s: Mac, i: Input, log: seq<Event>)
    requires s.params.coordinator && AllCoupled(s, log)
    ensures Tell(s, Step(s, i))
  {
    match i {
      case DoSend(dest, flags, body, validity, cb) =>
        QuietTell(s, Step(s, i));
      case DoReceive(f, ackSent) =>
        RecvTells(s, f, ackSent);
      case DoTick =>
        CoordinatorTickTells(s, log);
      case DoPermit(permit) =>
        QuietTell(s, Step(s, i));
    }
  }

  /** In every ordinary run from switching on, the last thing the application was told of a slot is
      that a node arrived if and only if the slot is live. */
  lemma {:induction false} PresenceIsReported(params: Params, mtu: nat, net: byte, dseq: byte, bseq: byte, ins: seq<Input>)
    requires params.coordinator && OrdinaryRun(Init(params, mtu, net, dseq, bseq), ins)
    ensures var o := Run(Init(params, mtu, net, dseq, bseq), ins);
            Present(o.s, o.ev) && o.s.params == params
    decreases |ins|
  {
    var s := Init(params, mtu, net, dseq, bseq);
    if ins == [] {
    } else {
      var init, i := ins[..|ins| - 1], ins[|ins| - 1];
      var a := Run(s, init);
      PresenceIsReported(params, mtu, net, dseq, bseq, init);
      InitCoupled(params, mtu, net, dseq, bseq);
      OrdinaryRunCoupled(s, init, []);
      assert [] + a.ev == a.ev;
      StepTells(a.s, i, a.ev);
      StillPresent(a, Step(a.s, i));
      StepParams(a.s, i);
    }
  }

  lemma StillPresent(a: Out, b: Out)
    requires Present(a.s, a.ev) && Tell(a.s, b)
    ensures Present(b.s, a.ev + b.ev)
  {
    forall k | 0 <= k < MAX_NODES
      ensures Live(b.s.nodes[k]) <==> Shown(k, false, a.ev + b.ev)
    {
      ShownConcat(k, false, a.ev, b.ev);
    }
  }
}
