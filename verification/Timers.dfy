/** Timers in every run: none is ever overdue between calls, and none lies more than a validity
    period ahead, so the program's tests on 32-bit words are the tests on unbounded time. */
module Timers {
  import opened Words
  import opened MacTypes
  import opened MacSlot
  import opened MacMachine

  const LONGEST := 4 * 65535  // TINYMAC_SECONDS of the largest validity period

  predicate Ahead(t: Timer, now: nat, limit: nat) {
    t.Due? ==> now <= t.at <= now + limit
  }

  predicate NodeTimely(n: Node, now: nat) {
    Ahead(n.ackTimer, now, ACK_TICKS) && Ahead(n.validityTimer, now, LONGEST)
  }

  predicate Unarmed(n: Node) {
    n.ackTimer.Off? && n.validityTimer.Off?
  }

  /** Only the timers that the role's tick despatches are ever armed. */
  predicate Timely(s: Mac) {
    && (forall k :: 0 <= k <= COORD ==> NodeTimely(GetNode(s, k), s.tick))
    && Ahead(s.timer, s.tick, BEACON_REQUEST_TICKS)
    && (s.params.coordinator ==> Unarmed(s.coord) && s.timer.Off?)
    && (!s.params.coordinator ==> forall k :: 0 <= k < MAX_NODES ==> Unarmed(s.nodes[k]))
  }

  /** The slots that belong to the device's role. */
  predicate OwnSlot(s: Mac, k: nat) {
    if s.params.coordinator then k < MAX_NODES else k == COORD
  }

  lemma SameTimely(s: Mac, s': Mac)
    requires Timely(s)
    requires s'.nodes == s.nodes && s'.coord == s.coord && s'.tick == s.tick && s'.params == s.params
    requires s'.timer == s.timer ||
             (!s.params.coordinator && Ahead(s'.timer, s.tick, BEACON_REQUEST_TICKS))
    ensures Timely(s')
  {
    forall k | 0 <= k <= COORD ensures NodeTimely(GetNode(s', k), s'.tick) {
      assert NodeTimely(GetNode(s, k), s.tick);
    }
  }

  lemma PutTimely(s: Mac, k: nat, o: NodeOut)
    requires Timely(s) && OwnSlot(s, k) && NodeTimely(o.n, s.tick)
    ensures Timely(Put(s, k, o).s)
  {
    var s' := Put(s, k, o).s;
    forall j | 0 <= j <= COORD ensures NodeTimely(GetNode(s', j), s'.tick) {
      assert NodeTimely(GetNode(s, j), s.tick);
      assert j != k ==> GetNode(s', j) == GetNode(s, j);
    }
  }

  lemma SendToTimely(s: Mac, k: nat, flags: Flags, body: Body, validity: u16, cb: Callback)
    requires Timely(s) && OwnSlot(s, k)
    ensures Timely(SendTo(s, k, flags, body, validity, cb).s)
  {
    if Fits(s, body) {
      var n := GetNode(s, k);
      var f := Frame(NextHeader(s, flags, n.addr), body);
      SameTimely(s, s.(dseq := s.dseq + 1));
      assert NodeTimely(n, s.tick);
      PutTimely(s.(dseq := s.dseq + 1), k, Transmit(k, n, f, validity, cb, s.tick));
    }
  }

  lemma RxBeaconTimely(s: Mac, f: Frame)
    requires Timely(s) && f.body.Beacon? && !s.params.coordinator
    ensures Timely(RxBeacon(s, f).s)
  {
    if Attaches(s, f) {
      assert NodeTimely(GetNode(s, COORD), s.tick);
      PutTimely(s, COORD, NodeOut(BoundCoord(s, f), []));
      SameTimely(SetNode(s, COORD, BoundCoord(s, f)), Bound(s, f));
      var req := RegRequest(s.params.uuid, s.params.flags);
      SendToTimely(Bound(s, f), COORD, PLAIN, req, 0, NoCallback);
      SameTimely(SendTo(Bound(s, f), COORD, PLAIN, req, 0, NoCallback).s, RxBeacon(s, f).s);
    } else if s.client == ClientRegistered && s.addr in f.body.addrs {
      SendToTimely(s, COORD, PLAIN, Poll, 0, NoCallback);
    } else {
      SameTimely(s, RxBeacon(s, f).s);
    }
  }

  lemma RegRequestTimely(s: Mac, uuid: u64, attach: Attach)
    requires Timely(s) && s.params.coordinator
    ensures Timely(RxRegRequest(s, uuid, attach).s)
  {
    var k := SlotFor(s.nodes, uuid);
    var o := RxRegRequest(s, uuid, attach);
    if k < MAX_NODES {
      var n := Enrol(s.nodes[k], uuid, attach, s.tick);
      assert NodeTimely(GetNode(s, k), s.tick);
      PutTimely(s, k, NodeOut(n, []));
      SameTimely(SetNode(s, k, n), o.s);
    } else {
      SameTimely(s, o.s);
    }
  }

  lemma DeregRequestTimely(s: Mac, src: byte, uuid: u64)
    requires Timely(s) && s.params.coordinator
    ensures Timely(RxDeregRequest(s, src, uuid).s)
  {
    var k := Leaving(s.nodes, src, uuid);
    if k < MAX_NODES {
      var resp := RegResponse(uuid, UNASSIGNED, STATUS_SUCCESS);
      SendToTimely(s, k, PLAIN, resp, 0, NoCallback);
      var q := SendTo(s, k, PLAIN, resp, 0, NoCallback).s;
      assert NodeTimely(GetNode(q, k), q.tick);
      PutTimely(q, k, Deregister(k, q.nodes[k]));
    }
  }

  lemma HandleTimely(s: Mac, from: Option<nat>, f: Frame)
    requires from.Some? ==> OwnSlot(s, from.value)
    requires Timely(s)
    ensures Timely(Handle(s, from, f).s)
  {
    if f.body.Beacon? && !s.params.coordinator {
      RxBeaconTimely(s, f);
    } else if f.body.Ack? && from.Some? {
      assert NodeTimely(GetNode(s, from.value), s.tick);
      PutTimely(s, from.value, AckReceived(from.value, GetNode(s, from.value), f.h.seqno));
    } else if f.body.RegRequest? && s.params.coordinator {
      RegRequestTimely(s, f.body.uuid, f.body.attach);
    } else if f.body.DeregRequest? && s.params.coordinator {
      DeregRequestTimely(s, f.h.src, f.body.uuid);
    } else {
      SameTimely(s, Handle(s, from, f).s);
    }
  }

  lemma HearNodeTimely(s: Mac, k: nat, n: Node, h: Header, ackSent: bool)
    requires NodeTimely(n, s.tick)
    ensures NodeTimely(HearNode(s, k, n, h, ackSent).n, s.tick)
  {
  }

  lemma RecvTimely(s: Mac, f: Frame, ackSent: bool)
    requires Timely(s)
    ensures Timely(Recv(s, f, ackSent).s)
  {
    if Admits(s, f.h) && !Stranger(s, f.h) {
      var from := SourceOf(s, f.h);
      if from.Some? {
        var n := GetNode(s, from.value);
        HearNodeTimely(s, from.value, n, f.h, ackSent);
        PutTimely(s, from.value, HearNode(s, from.value, n, f.h, ackSent));
      }
      HandleTimely(Prelude(s, f, ackSent).s, from, f);
    } else {
      SameTimely(s, Recv(s, f, ackSent).s);
    }
  }

  lemma DespatchTimely(k: nat, n: Node, now: nat)
    requires NodeTimely(n, now)
    ensures NodeTimely(Despatch(k, n, now).n, now + 1)
  {
  }

  lemma TickNodeTimely(k: nat, n: Node, now: nat)
    requires NodeTimely(n, now)
    ensures NodeTimely(TickNode(k, n, now).n, now + 1)
  {
    DespatchTimely(k, Heartbeat(k, n, now).n, now);
  }

  lemma CoordinatorTickTimely(s: Mac)
    requires Timely(s) && s.params.coordinator
    ensures Timely(Tick(s).s)
  {
    forall k | 0 <= k <= COORD ensures NodeTimely(GetNode(Tick(s).s, k), s.tick + 1) {
      assert NodeTimely(GetNode(s, k), s.tick);
      if k < MAX_NODES {
        TickNodeTimely(k, s.nodes[k], s.tick);
      }
    }
  }

  lemma ClientTimersShape(s: Mac)
    ensures var v := ClientTimers(s).s;
            && v.nodes == s.nodes && v.tick == s.tick && v.params == s.params
            && v.coord == Despatch(COORD, s.coord, s.tick).n
            && v.timer == if s.client == ClientUnregistered then Due(s.tick + BEACON_REQUEST_TICKS) else s.timer
  {
  }

  lemma DespatchRequestShape(s: Mac)
    ensures var r := DespatchRequest(s).s;
            && r.nodes == s.nodes && r.tick == s.tick && r.params == s.params
            && r.coord.ackTimer == s.coord.ackTimer && r.coord.validityTimer == s.coord.validityTimer
            && r.timer == if Fires(s.timer, s.tick) then Off else s.timer
  {
  }

  lemma NextTimely(s: Mac)
    requires !s.params.coordinator && NodeTimely(s.coord, s.tick + 1)
    requires Ahead(s.timer, s.tick + 1, BEACON_REQUEST_TICKS)
    requires forall k :: 0 <= k < MAX_NODES ==> Unarmed(s.nodes[k])
    ensures Timely(s.(tick := s.tick + 1))
  {
  }

  lemma ClientTickTimely(s: Mac)
    requires Timely(s) && !s.params.coordinator
    ensures Timely(Tick(s).s)
  {
    var v := ClientTimers(s).s;
    var r := DespatchRequest(v).s;
    ClientTimersShape(s);
    DespatchRequestShape(v);
    assert NodeTimely(GetNode(s, COORD), s.tick);
    DespatchTimely(COORD, s.coord, s.tick);
    NextTimely(r);
  }

  /** Every step keeps every armed timer within reach. */
  lemma StepTimely(s: Mac, i: Input)
    requires Timely(s)
    ensures Timely(Step(s, i).s)
  {
    match i {
      case DoSend(dest, flags, body, validity, cb) =>
        var r := Lookup(s, dest);
        if body.Data? && r.Some? {
          SendToTimely(s, r.value, flags, body, SendValidity(GetNode(s, r.value), validity), cb);
        }
      case DoReceive(f, ackSent) =>
        RecvTimely(s, f, ackSent);
      case DoTick =>
        if s.params.coordinator { CoordinatorTickTimely(s); } else { ClientTickTimely(s); }
      case DoPermit(permit) =>
        SameTimely(s, Step(s, i).s);
    }
  }

  lemma {:induction false} RunTimely(s: Mac, ins: seq<Input>)
    requires Timely(s)
    ensures Timely(Run(s, ins).s)
  {
    if ins == [] {
    } else {
      RunTimely(s, ins[..|ins| - 1]);
      StepTimely(Run(s, ins[..|ins| - 1]).s, ins[|ins| - 1]);
    }
  }

  lemma InitTimely(params: Params, mtu: nat, net: byte, dseq: byte, bseq: byte)
    ensures Timely(Init(params, mtu, net, dseq, bseq))
  {
  }

  // The tests on 32-bit words

  /** The program's test that a timer has expired, `(int32_t)(tick_count - expiry) >= 0`. */
  predicate Fires32(tick: u32, expiry: u32) {
    Signed32(Wrap32(tick - expiry)) >= 0
  }

  /** However often the tick count has wrapped, an armed timer fires on exactly the tick whose
      unbounded count is its deadline. */
  lemma TimerTestExact(t: Timer, now: nat)
    requires t.Due? && Ahead(t, now, LONGEST)
    ensures Fires32(Wrap32(now), Wrap32(t.at)) <==> now == t.at
    ensures Fires32(Wrap32(now), Wrap32(t.at)) <==> Fires(t, now)
  {
  }

  lemma WrappedSum(a: nat, d: nat, b: nat)
    ensures Wrap32(Wrap32(a) + d - Wrap32(b)) == Wrap32(a + d - b)
  {
    var p, q := a / TWO_32, b / TWO_32;
    assert a + d - b == Wrap32(a) + d - Wrap32(b) + TWO_32 * (p - q);
  }

  lemma SignedSign(x: int)
    ensures Signed32(Wrap32(-x)) <= 0 <==> x % TWO_32 <= TWO_31
  {
  }

  lemma HeartbeatTicksBound(n: Node)
    ensures HeartbeatTicks(n) <= 4 * (0x8000 + HEARTBEAT_GRACE)
  {
    Pow2Monotone(n.flags.heartbeat, 15);
    assert Pow2(15) == 0x8000;
  }

  /** The heartbeat test agrees with the unbounded elapsed time exactly when the time overdue,
      if any, is at most 2^31 ticks into the current wrap of the counter. */
  lemma HeartbeatTestIff(n: Node, now: nat)
    requires n.lastHeard <= now
    ensures var elapsed := now - n.lastHeard;
            (HeartbeatExpired(n, now) <==> elapsed >= HeartbeatTicks(n)) <==>
            (elapsed >= HeartbeatTicks(n) ==> (elapsed - HeartbeatTicks(n)) % TWO_32 <= TWO_31)
  {
    HeartbeatTicksBound(n);
    WrappedSum(n.lastHeard, HeartbeatTicks(n), now);
    SignedSign(now - n.lastHeard - HeartbeatTicks(n));
  }
}
