/** What happens when a thirty-third client comes: an address is passed on while its last holder still uses
    it, and an ack from the one settles a packet for the other. */
module Crowd {
  import opened Words
  import opened MacTypes
  import opened MacSlot
  import opened MacMachine
  import opened Network
  import opened Exchanges
  import opened Stages

  const LAST := MAX_NODES + 1

  function Device(p: u64): Mac {
    if p == 0 then Init(COORDINATOR, MTU, NET, 0, 0) else Unborn(p)
  }

  /** A coordinator and 33 clients, whose UUIDs are their numbers. */
  function Start(): World {
    World(seq(LAST + 1, p requires 0 <= p <= LAST => Device(p)), {}, [])
  }

  lemma JustBuilt(p: u64)
    ensures JustOn(Device(p))
  {
    var s := Device(p);
    assert s == Init(s.params, s.mtu, if p == 0 then NET else 0, 0, 0);
  }

  lemma StartIsInitial()
    ensures Initial(Start())
  {
    var w := Start();
    forall p | 0 <= p < |w.devs| ensures JustOn(w.devs[p]) && w.devs[p] == Device(p) {
      JustBuilt(p);
    }
  }

  // The first 32

  /** A slot as it is left by a registration at tick 0. */
  predicate Taken(n: Node, k: nat) {
    && n.uuid == k + 1 && n.addr == k + 1 && n.state == Registered && n.flags == ALERT && n.lastHeard == 0
    && n.ackTimer.Off? && n.validityTimer.Off?
  }

  predicate Untaken(n: Node, k: nat) {
    n.uuid == 0 && n.addr == k + 1 && n.ackTimer.Off? && n.validityTimer.Off?
  }

  predicate Filled(t: NodeTable, n: nat) {
    forall k :: 0 <= k < MAX_NODES ==> if k < n then Taken(t[k], k) else Untaken(t[k], k)
  }

  /** The first `n` clients have registered, in order. */
  predicate Seated(devs: seq<Mac>, n: nat) {
    && |devs| == LAST + 1 && Open(devs[0]) && devs[0].tick == 0 && Filled(devs[0].nodes, n)
    && (forall p: u64 :: 1 <= p <= LAST ==> devs[p].params == Client(p) && (p > n ==> devs[p] == Unborn(p)))
    && (n >= 1 ==> Admitted(devs[1], 1, 1) && devs[1].coord.state == Registered)
  }

  lemma NextSlot(t: NodeTable, n: nat)
    requires Filled(t, n) && n < MAX_NODES
    ensures SlotFor(t, n + 1) == n
  {
    assert t[n].uuid == 0;
    assert FirstUuid(t, n + 1, 0) == MAX_NODES;
    assert FirstUuid(t, 0, 0) == n;
  }

  lemma SeatedNext(devs: seq<Mac>, n: nat, c: Mac, d: Mac)
    requires Seated(devs, n) && n < MAX_NODES && Open(c) && c.tick == 0
    requires c.nodes == devs[0].nodes[n := Enrol(devs[0].nodes[n], n + 1, ALERT, 0)]
    requires Admitted(d, n + 1, n + 1) && d.coord.state == Registered
    ensures Seated(devs[0 := c][n + 1 := d], n + 1)
  {
  }

  lemma {:induction false} Seats(body: Body, n: nat) returns (moves: seq<Move>, devs: seq<Mac>)
    requires body.Data? && n <= MAX_NODES
    ensures Reached(Start(), moves, devs, Some(1), body) && Seated(devs, n)
  {
    if n == 0 {
      var w := Start();
      moves := Go(w, [], w.devs, Some(1), body, 0, DoPermit(true));
      assert w.devs[0] == Device(0);
      devs := w.devs[0 := Step(w.devs[0], DoPermit(true)).s];
    } else {
      moves, devs := Seats(body, n - 1);
      NextSlot(devs[0].nodes, n - 1);
      var c, d;
      moves, c, d := Registers(Start(), moves, devs, Some(1), body, n, n, n - 1);
      SeatedNext(devs, n - 1, c, d);
      devs := devs[0 := c][n := d];
    }
  }

  // Their heartbeats lapse

  /** All slots have been taken; the first is live until its heartbeat is overdue, which is at tick 12. */
  predicate Lapsing(c: Mac, t: nat) {
    && Open(c) && c.tick == t
    && (forall k :: 0 <= k < MAX_NODES ==> c.nodes[k].uuid == k + 1 && c.nodes[k].addr == k + 1)
    && if t <= 12 then Taken(c.nodes[0], 0) else !Live(c.nodes[0])
  }

  lemma TickNodeNames(k: nat, n: Node, now: nat)
    ensures TickNode(k, n, now).n.uuid == n.uuid && TickNode(k, n, now).n.addr == n.addr
  {
  }

  lemma TickLapses(c: Mac, t: nat)
    requires Lapsing(c, t) && t <= 12
    ensures Lapsing(Tick(c).s, t + 1)
  {
    var c' := Tick(c).s;
    forall k | 0 <= k < MAX_NODES
      ensures c'.nodes[k].uuid == k + 1 && c'.nodes[k].addr == k + 1
      ensures c'.nodes[k] == TickNode(k, c.nodes[k], t).n
    {
      TickNodeNames(k, c.nodes[k], t);
    }
    assert HeartbeatTicks(c.nodes[0]) == 12;
  }

  lemma {:induction false} Waits(start: seq<Move>, devs: seq<Mac>, body: Body, t: nat) returns (moves: seq<Move>, c: Mac)
    requires Reached(Start(), start, devs, Some(1), body) && |devs| > 0 && Lapsing(devs[0], 0) && t <= 13
    ensures Reached(Start(), moves, devs[0 := c], Some(1), body) && Lapsing(c, t)
    decreases t
  {
    if t == 0 {
      moves, c := start, devs[0];
      assert devs[0 := c] == devs;
    } else {
      moves, c := Waits(start, devs, body, t - 1);
      TickLapses(c, t - 1);
      moves := Go(Start(), moves, devs[0 := c], Some(1), body, 0, DoTick);
      assert devs[0 := c][0 := Tick(c).s] == devs[0 := Tick(c).s];
      c := Tick(c).s;
    }
  }

  // The last one comes

  /** Clients 1 and 33 both hold address 1, which the coordinator has given to client 33. */
  predicate Shared(devs: seq<Mac>) {
    && |devs| == LAST + 1 && Open(devs[0]) && devs[0].nodes[0].addr == 1 && devs[0].nodes[0].uuid == LAST
    && devs[0].nodes[0].state == Registered && devs[0].nodes[0].flags == ALERT
    && Admitted(devs[1], 1, 1) && devs[1].coord.state == Registered && Admitted(devs[LAST], LAST, 1)
    && forall p: u64 :: 1 <= p <= LAST ==> devs[p].params == Client(p)
  }

  lemma FreedSlot(c: Mac)
    requires Lapsing(c, 13)
    ensures SlotFor(c.nodes, LAST) == 0
  {
    assert FirstUuid(c.nodes, LAST, 0) == MAX_NODES && FirstUuid(c.nodes, 0, 0) == MAX_NODES;
  }

  lemma Shares(body: Body) returns (moves: seq<Move>, devs: seq<Mac>)
    requires body.Data?
    ensures Reached(Start(), moves, devs, Some(1), body) && Shared(devs)
  {
    moves, devs := Seats(body, MAX_NODES);
    assert forall k :: 0 <= k < MAX_NODES ==> Taken(devs[0].nodes[k], k);
    var c, d;
    moves, c := Waits(moves, devs, body, 13);
    devs := devs[0 := c];
    FreedSlot(c);
    moves, c, d := Registers(Start(), moves, devs, Some(1), body, LAST, LAST, 0);
    devs := devs[0 := c][LAST := d];
  }

  /** With 33 clients two can hold the same address: a legal run from switching on that ends so. */
  lemma AddressShared() returns (moves: seq<Move>)
    ensures Initial(Start()) && LegalRun(Start(), moves)
    ensures var v := After(Start(), moves);
            && |v.devs| == LAST + 1 && !OrderlyRun(Start(), moves)
            && v.devs[1].client == ClientRegistered && v.devs[LAST].client == ClientRegistered
            && v.devs[1].addr == v.devs[LAST].addr
  {
    StartIsInitial();
    var devs;
    moves, devs := Shares(Data(16, []));
    if OrderlyRun(Start(), moves) {
      NoSharedAddress(Start(), moves, 1, LAST);
    }
  }

  function Packet(c: Mac, body: Body): Frame {
    Frame(Header(ASK, NET, 1, 0, c.dseq + 1), body)
  }

  function AckFor(f: Frame): Frame {
    Frame(Header(PLAIN, NET, 0, 1, f.h.seqno), Ack)
  }

  lemma CoordinatorSends(c: Mac, body: Body, cb: Callback)
    requires Open(c) && c.nodes[0].addr == 1 && c.nodes[0].state == Registered && c.nodes[0].flags == ALERT
    requires body.Data? && |body.bytes| <= MAX_PAYLOAD
    ensures var f := Packet(c, body);
            var o := Send(c, 1, ASK, body, 0, cb);
            && Sent(0, f) in o.ev && Open(o.s)
            && o.s.nodes[0].addr == 1 && o.s.nodes[0].uuid == c.nodes[0].uuid && o.s.nodes[0].state == WaitAck
            && o.s.nodes[0].pending == f && o.s.nodes[0].sendCb == cb
  {
    assert AnswersTo(c.nodes[0], 1) && FirstAddr(c.nodes, 1, 0) == 0;
    assert Send(c, 1, ASK, body, 0, cb).ev[1] == Sent(0, Packet(c, body));
  }

  lemma ClientTakes(d: Mac, f: Frame)
    requires Admitted(d, 1, 1) && d.coord.state == Registered
    requires f.h.net == NET && f.h.dest == 1 && f.h.src == 0 && f.h.flags == ASK && f.body.Data?
    ensures SentMac(AckFor(f)) in Recv(d, f, true).ev && Recv(d, f, true).s.params == d.params
  {
    var p := Prelude(d, f, true);
    assert SourceOf(d, f.h) == Some(COORD);
    assert p.ev[0] == SentMac(AckFor(f));
  }

  lemma CoordinatorSettles(c: Mac, a: Frame)
    requires Open(c) && c.nodes[0].addr == 1 && c.nodes[0].state == WaitAck && a == AckFor(c.nodes[0].pending)
    ensures Resolved(0, c.nodes[0].sendCb, true) in Recv(c, a, true).ev
  {
    assert AnswersTo(c.nodes[0], 1) && FirstAddr(c.nodes, 1, 0) == 0;
    var p := Prelude(c, a, true);
    assert p.ev == [];
    var h := Handle(p.s, Some(0), a);
    assert h.ev == [Resolved(0, c.nodes[0].sendCb, true)];
    assert Recv(c, a, true).ev == h.ev;
  }

  /** The coordinator has sent to address 1, and the former holder has acknowledged. */
  lemma WrongOneAnswers(body: Body, cb: Callback) returns (moves: seq<Move>, devs: seq<Mac>)
    requires body.Data? && |body.bytes| <= MAX_PAYLOAD
    ensures Reached(Start(), moves, devs, Some(1), body) && |devs| == LAST + 1 && Open(devs[0])
    ensures forall p: u64 :: 1 <= p <= LAST ==> devs[p].params == Client(p)
    ensures var n := devs[0].nodes[0];
            && n.addr == 1 && n.uuid == LAST && n.state == WaitAck && n.sendCb == cb && Demands(n.pending) && n.pending.body == body
            && Flying(After(Start(), moves), AckFor(n.pending))
  {
    moves, devs := Shares(body);
    var c, f := devs[0], Packet(devs[0], body);
    CoordinatorSends(c, body, cb);
    moves := Go(Start(), moves, devs, Some(1), body, 0, DoSend(1, ASK, body, 0, cb));
    devs := devs[0 := Send(c, 1, ASK, body, 0, cb).s];
    ClientTakes(devs[1], f);
    moves := Go(Start(), moves, devs, Some(1), body, 1, DoReceive(f, true));
    devs := devs[1 := Recv(devs[1], f, true).s];
  }

  /** Order cannot be dropped. In this run the coordinator sends a packet to the client that holds the first
      slot, and an ack as fresh as can be makes it report success; but that client has never received the
      packet. */
  lemma PassedOnAddressMisleads(body: Body, cb: Callback) returns (moves: seq<Move>, a: Frame)
    requires body.Data? && |body.bytes| <= MAX_PAYLOAD
    ensures Initial(Start()) && LegalRun(Start(), moves)
    ensures |After(Start(), moves).devs| == LAST + 1
    ensures var v := After(Start(), moves);
            var f := GetNode(v.devs[0], 0).pending;
            && Legal(v, 0, DoReceive(a, true)) && Demands(f) && f.body == body && Fresh(v.devs[0], 0, a)
            && Resolved(0, cb, true) in Step(v.devs[0], DoReceive(a, true)).ev
            && (forall r, q, b :: r in v.hist && Peer(v, 0, 0, q) ==> !Took(r, q, f, b))
  {
    StartIsInitial();
    var devs;
    moves, devs := WrongOneAnswers(body, cb);
    a := AckFor(devs[0].nodes[0].pending);
    CoordinatorSettles(devs[0], a);
  }
}
