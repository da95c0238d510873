/** A run in which success is reported for a packet that was never received: what an ack from 256
    headers ago does. */
module StaleAck {
  import opened Words
  import opened MacTypes
  import opened MacSlot
  import opened MacMachine
  import opened Network
  import opened Exchanges
  import opened Stages

  const ID: u64 := 7

  /** The client has the first slot. */
  predicate Hosts(c: Mac) {
    Open(c) && c.nodes[0].addr == 1 && c.nodes[0].state == Registered
  }

  predicate Member(d: Mac, state: NodeState) {
    Admitted(d, ID, 1) && d.coord.state == state
  }

  function Packet(d: Mac, body: Body): Frame {
    Frame(Header(ASK, NET, 0, 1, d.dseq + 1), body)
  }

  lemma ClientSends(d: Mac, body: Body, cb: Callback)
    requires Member(d, Registered) && body.Data? && |body.bytes| <= MAX_PAYLOAD
    ensures var f := Packet(d, body);
            var o := Send(d, 0, ASK, body, 0, cb);
            && Sent(COORD, f) in o.ev && Member(o.s, WaitAck) && o.s.dseq == d.dseq + 1
            && o.s.coord.pending == f && o.s.coord.sendCb == cb
  {
    assert Send(d, 0, ASK, body, 0, cb).ev[1] == Sent(COORD, Packet(d, body));
  }

  lemma ClientChatters(d: Mac)
    requires Member(d, Registered)
    ensures var o := Send(d, 0, PLAIN, Data(16, []), 0, NoCallback);
            Member(o.s, Registered) && o.s.dseq == d.dseq + 1
  {
  }

  function AckFor(f: Frame): Frame {
    Frame(Header(PLAIN, NET, 1, 0, f.h.seqno), Ack)
  }

  lemma CoordinatorTakes(c: Mac, f: Frame)
    requires Hosts(c)
    requires f.h.net == NET && f.h.dest == 0 && f.h.src == 1 && f.h.flags == ASK && f.body.Data?
    ensures var o := Recv(c, f, true);
            SentMac(AckFor(f)) in o.ev && Delivered(Some(0), f.body) in o.ev && Hosts(o.s)
  {
    assert AnswersTo(c.nodes[0], 1) && FirstAddr(c.nodes, 1, 0) == 0;
    var p := Prelude(c, f, true);
    assert p.ev[0] == SentMac(AckFor(f));
    var h := Handle(p.s, Some(0), f);
    assert h.ev == [Delivered(Some(0), f.body)];
    assert Recv(c, f, true).ev[|p.ev|] == h.ev[0];
  }

  lemma ClientSettles(d: Mac, a: Frame)
    requires Member(d, WaitAck)
    requires a.h.net == NET && a.h.dest == 1 && a.h.src == 0 && !a.h.flags.wantsAck && a.body.Ack?
    requires a.h.seqno % 256 == d.coord.pending.h.seqno % 256
    ensures var o := Recv(d, a, true);
            Resolved(COORD, d.coord.sendCb, true) in o.ev && Member(o.s, Registered) && o.s.dseq == d.dseq
  {
    var p := Prelude(d, a, true);
    assert SourceOf(d, a.h) == Some(COORD);
    assert p.ev == [] && p.s == d.(coord := d.coord.(lastHeard := d.tick));
    var h := Handle(p.s, Some(COORD), a);
    assert h.ev == [Resolved(COORD, d.coord.sendCb, true)];
    assert Recv(d, a, true).ev == h.ev;
  }

  // The two of them together

  function Start(): World {
    World([Init(COORDINATOR, MTU, NET, 0, 0), Unborn(ID)], {}, [])
  }

  lemma StartIsInitial()
    ensures Initial(Start())
  {
    var w := Start();
    assert w.devs[0] == Init(w.devs[0].params, w.devs[0].mtu, NET, 0, 0);
    assert w.devs[1] == Init(w.devs[1].params, w.devs[1].mtu, 0, 0, 0);
  }

  /** A run of the two devices in which nobody has received a frame with the given body. */
  ghost predicate Pair(moves: seq<Move>, c: Mac, d: Mac, body: Body) {
    Reached(Start(), moves, [c, d], None, body)
  }

  /** The client registers. */
  lemma Joins(body: Body) returns (moves: seq<Move>, c: Mac, d: Mac)
    requires body.Data?
    ensures Pair(moves, c, d, body) && Hosts(c) && Member(d, Registered)
  {
    var w := Start();
    moves := Go(w, [], w.devs, None, body, 0, DoPermit(true));
    c := Step(w.devs[0], DoPermit(true)).s;
    var devs := w.devs[0 := c];
    assert FirstUuid(c.nodes, ID, 0) == MAX_NODES && FirstUuid(c.nodes, 0, 0) == 0;
    moves, c, d := Registers(w, moves, devs, None, body, 1, ID, 0);
    assert devs[0 := c][1 := d] == [c, d];
  }

  /** It sends a packet that demands an ack, and the ack is on its way back. */
  lemma Asks(body: Body, first: Body, cb: Callback) returns (moves: seq<Move>, c: Mac, d: Mac)
    requires body.Data? && first.Data? && first != body && |first.bytes| <= MAX_PAYLOAD
    ensures Pair(moves, c, d, body) && Member(d, WaitAck) && d.coord.sendCb == cb
    ensures var f := d.coord.pending;
            && Demands(f) && f.h.seqno == d.dseq && f.body == first
            && Flying(After(Start(), moves), AckFor(f))
  {
    moves, c, d := Joins(body);
    ClientSends(d, first, cb);
    moves := Go(Start(), moves, [c, d], None, body, 1, DoSend(0, ASK, first, 0, cb));
    var f := Packet(d, first);
    assert [c, d][1 := Send(d, 0, ASK, first, 0, cb).s] == [c, Send(d, 0, ASK, first, 0, cb).s];
    d := Send(d, 0, ASK, first, 0, cb).s;
    CoordinatorTakes(c, f);
    moves := Go(Start(), moves, [c, d], None, body, 0, DoReceive(f, true));
    assert [c, d][0 := Recv(c, f, true).s] == [Recv(c, f, true).s, d];
    c := Recv(c, f, true).s;
  }

  /** Any number of packets that need no ack. */
  lemma {:induction false} Chatters(start: seq<Move>, c: Mac, d: Mac, body: Body, n: nat, a: Frame)
    returns (moves: seq<Move>, d': Mac)
    requires Pair(start, c, d, body) && Member(d, Registered) && Flying(After(Start(), start), a)
    ensures Pair(moves, c, d', body) && Member(d', Registered) && d'.dseq == d.dseq + n
    ensures Flying(After(Start(), moves), a)
    decreases n
  {
    if n == 0 {
      moves, d' := start, d;
    } else {
      moves, d' := Chatters(start, c, d, body, n - 1, a);
      ClientChatters(d');
      var o := Send(d', 0, PLAIN, Data(16, []), 0, NoCallback);
      moves := Go(Start(), moves, [c, d'], None, body, 1, DoSend(0, PLAIN, Data(16, []), 0, NoCallback));
      assert [c, d'][1 := o.s] == [c, o.s];
      d' := o.s;
    }
  }

  /** The conditions under which success is truthful are met: a run at the end of which the fresh ack of a
      demanding packet is delivered and success reported. */
  lemma FreshAckArrives(first: Body, cb: Callback) returns (moves: seq<Move>, a: Frame)
    requires first.Data? && |first.bytes| <= MAX_PAYLOAD
    ensures Initial(Start()) && LegalRun(Start(), moves) && OrderlyRun(Start(), moves)
    ensures var v := After(Start(), moves);
            && Legal(v, 1, DoReceive(a, true)) && Demands(GetNode(v.devs[1], COORD).pending)
            && GetNode(v.devs[1], COORD).pending.body == first
            && Resolved(COORD, cb, true) in Step(v.devs[1], DoReceive(a, true)).ev
            && Fresh(v.devs[1], COORD, a)
  {
    StartIsInitial();
    var other := Data(16, first.bytes + [0]);
    var c, d;
    moves, c, d := Asks(other, first, cb);
    a := AckFor(d.coord.pending);
    ClientSettles(d, a);
    SmallNetworkOrderly(Start(), moves);
  }

  /** A first packet is acknowledged, and its ack taken. */
  lemma FirstSettled(body: Body) returns (moves: seq<Move>, c: Mac, d: Mac, a: Frame)
    requires body.Data? && body != Data(16, [])
    ensures Pair(moves, c, d, body) && Member(d, Registered)
    ensures Flying(After(Start(), moves), a) && a.h == Header(PLAIN, NET, 1, 0, d.dseq) && a.body.Ack?
  {
    moves, c, d := Asks(body, Data(16, []), NoCallback);
    a := AckFor(d.coord.pending);
    ClientSettles(d, a);
    moves := Go(Start(), moves, [c, d], None, body, 1, DoReceive(a, true));
    assert [c, d][1 := Recv(d, a, true).s] == [c, Recv(d, a, true).s];
    d := Recv(d, a, true).s;
  }

  /** 256 headers later a packet that nobody has received waits for its ack. */
  lemma SecondWaits(body: Body, cb: Callback) returns (moves: seq<Move>, c: Mac, d: Mac, a: Frame)
    requires body.Data? && 0 < |body.bytes| <= MAX_PAYLOAD
    ensures Pair(moves, c, d, body) && Member(d, WaitAck) && d.coord.sendCb == cb
    ensures Demands(d.coord.pending) && d.coord.pending.body == body
    ensures Flying(After(Start(), moves), a) && a.body.Ack?
    ensures a.h == Header(PLAIN, NET, 1, 0, a.h.seqno) && a.h.seqno + 256 == d.coord.pending.h.seqno
  {
    moves, c, d, a := FirstSettled(body);
    moves, d := Chatters(moves, c, d, body, 255, a);
    ClientSends(d, body, cb);
    moves := Go(Start(), moves, [c, d], None, body, 1, DoSend(0, ASK, body, 0, cb));
    assert [c, d][1 := Send(d, 0, ASK, body, 0, cb).s] == [c, Send(d, 0, ASK, body, 0, cb).s];
    d := Send(d, 0, ASK, body, 0, cb).s;
  }

  lemma NobodyTook(v: World, f: Frame)
    requires Unheard(v, None, f.body)
    ensures forall r, q, b :: r in v.hist ==> !Took(r, q, f, b)
  {
  }

  /** Freshness cannot be dropped.  In this run a client's packet is acknowledged; 255 packets later it
      sends another that demands an ack and is never received; the first ack is delivered again, and
      success is reported for the second packet. */
  lemma StaleAckMisleads(body: Body, cb: Callback) returns (moves: seq<Move>, d: Mac, a: Frame)
    requires body.Data? && 0 < |body.bytes| <= MAX_PAYLOAD
    ensures Initial(Start()) && LegalRun(Start(), moves) && OrderlyRun(Start(), moves)
    ensures var v := After(Start(), moves);
            && Legal(v, 1, DoReceive(a, true)) && v.devs[1] == d
            && Demands(d.coord.pending) && d.coord.pending.body == body
            && Resolved(COORD, cb, true) in Step(d, DoReceive(a, true)).ev
            && (forall r, q, b :: r in v.hist ==> !Took(r, q, d.coord.pending, b))
  {
    StartIsInitial();
    var c;
    moves, c, d, a := SecondWaits(body, cb);
    ClientSettles(d, a);
    NobodyTook(After(Start(), moves), d.coord.pending);
    SmallNetworkOrderly(Start(), moves);
  }
}
