/** The client's attach machine, for arbitrary frames and calls. */
module Attachment {
  import opened Words
  import opened MacTypes
  import opened MacSlot
  import opened MacMachine
  import opened Timers
  import opened Deadlines

  predicate Bonded(s: Mac) {
    s.client == ClientRegistering || s.client == ClientRegistered
  }

  /** Address and network are held in the states that own them, a bond has a live coordinator
      record behind it, and a registration attempt is always timed. */
  predicate Attached(s: Mac) {
    && (s.addr == UNASSIGNED <==> s.client != ClientRegistered)
    && (s.net == NETWORK_ANY <==> !Bonded(s))
    && (Bonded(s) ==> Live(s.coord))
    && (s.client == ClientRegistering ==> s.timer.Due? && s.timer.at <= s.tick + REGISTRATION_TICKS)
  }

  lemma SendToCoordLive(s: Mac, flags: Flags, body: Body, validity: u16, cb: Callback)
    ensures var o := SendTo(s, COORD, flags, body, validity, cb).s;
            o == s.(coord := o.coord, dseq := o.dseq) && (Live(s.coord) ==> Live(o.coord))
  {
  }

  lemma HandleAttached(s: Mac, from: Option<nat>, f: Frame)
    requires !s.params.coordinator && Attached(s) && f.h.net != NETWORK_ANY
    requires from.Some? ==> from.value == COORD
    ensures Attached(Handle(s, from, f).s)
  {
    if f.body.Beacon? {
      SendToCoordLive(Bound(s, f), PLAIN, RegRequest(s.params.uuid, s.params.flags), 0, NoCallback);
      SendToCoordLive(s, PLAIN, Poll, 0, NoCallback);
    }
  }

  lemma PreludeAttached(s: Mac, f: Frame, ackSent: bool)
    requires !s.params.coordinator && Attached(s)
    ensures Attached(Prelude(s, f, ackSent).s)
  {
  }

  lemma RecvAttached(s: Mac, f: Frame, ackSent: bool)
    requires !s.params.coordinator && Attached(s)
    ensures Attached(Recv(s, f, ackSent).s)
  {
    if Admits(s, f.h) && !Stranger(s, f.h) {
      PreludeAttached(s, f, ackSent);
      HandleAttached(Prelude(s, f, ackSent).s, SourceOf(s, f.h), f);
    }
  }

  lemma PutCoordAttached(s: Mac, o: NodeOut)
    requires Attached(s) && (NodeGone(COORD) in o.ev || (Live(s.coord) ==> Live(o.n)))
    ensures Attached(PutCoord(s, o).s)
  {
  }

  lemma DespatchLive(n: Node, now: nat)
    ensures var a := DespatchAck(COORD, n, now);
            NodeGone(COORD) in a.ev || (Live(n) ==> Live(a.n))
    ensures var v := DespatchValidity(COORD, n, now);
            Live(n) ==> Live(v.n)
  {
    if Fires(n.ackTimer, now) && n.retries == 0 {
      assert DespatchAck(COORD, n, now).ev[1] == NodeGone(COORD);
    }
  }

  lemma ClientTimersAttached(s: Mac)
    requires !s.params.coordinator && Attached(s)
    ensures Attached(ClientTimers(s).s)
  {
    var b := RequestBeacon(s);
    assert Attached(b.s);
    DespatchLive(b.s.coord, s.tick);
    PutCoordAttached(b.s, DespatchAck(COORD, b.s.coord, s.tick));
    var a := PutCoord(b.s, DespatchAck(COORD, b.s.coord, s.tick));
    DespatchLive(a.s.coord, s.tick);
    PutCoordAttached(a.s, DespatchValidity(COORD, a.s.coord, s.tick));
  }

  lemma ClientTickAttached(s: Mac)
    requires !s.params.coordinator && Attached(s)
    ensures Attached(Tick(s).s)
  {
    ClientTimersAttached(s);
    var v := ClientTimers(s).s;
    assert Attached(DespatchRequest(v).s);
  }

  /** Every step of a client keeps the attach machine consistent. */
  lemma StepAttached(s: Mac, i: Input)
    requires !s.params.coordinator && Attached(s)
    ensures Attached(Step(s, i).s)
  {
    match i {
      case DoSend(dest, flags, body, validity, cb) =>
        if AnswersTo(s.coord, dest) {
          SendToCoordLive(s, flags, body, SendValidity(s.coord, validity), cb);
        }
      case DoReceive(f, ackSent) =>
        RecvAttached(s, f, ackSent);
      case DoTick =>
        ClientTickAttached(s);
      case DoPermit(permit) =>
    }
  }

  lemma {:induction false} RunAttached(params: Params, mtu: nat, net: byte, dseq: byte, bseq: byte, ins: seq<Input>)
    requires !params.coordinator
    ensures var s := Run(Init(params, mtu, net, dseq, bseq), ins).s;
            Attached(s) && s.params == params && Timely(s)
  {
    var s := Init(params, mtu, net, dseq, bseq);
    InitTimely(params, mtu, net, dseq, bseq);
    RunTimely(s, ins);
    if ins == [] {
    } else {
      RunAttached(params, mtu, net, dseq, bseq, ins[..|ins| - 1]);
      StepAttached(Run(s, ins[..|ins| - 1]).s, ins[|ins| - 1]);
    }
  }

  // A registration attempt ends at its deadline

  lemma ClientTickAtDeadline(s: Mac)
    requires !s.params.coordinator && s.client == ClientRegistering && s.timer == Due(s.tick)
    ensures Tick(s).s.client != ClientRegistering
  {
    var v := ClientTimers(s).s;
    ClientTimersShape(s);
    assert v.client == ClientRegistering || v.client == ClientUnregistered;
  }

  lemma RecvKeepsDeadline(s: Mac, f: Frame, ackSent: bool)
    requires !s.params.coordinator && s.client == ClientRegistering
    ensures var s' := Recv(s, f, ackSent).s;
            s'.client == ClientRegistering ==> s'.timer == s.timer
  {
    if Admits(s, f.h) && !Stranger(s, f.h) {
      var p := Prelude(s, f, ackSent).s;
      assert p.client == s.client && p.timer == s.timer;
    }
  }

  lemma StepKeepsDeadline(s: Mac, i: Input)
    requires !s.params.coordinator && s.client == ClientRegistering && Step(s, i).s.client == ClientRegistering
    requires Ahead(s.timer, s.tick, BEACON_REQUEST_TICKS) && s.timer.Due?
    ensures Step(s, i).s.timer == s.timer && (i.DoTick? ==> s.tick < s.timer.at)
  {
    match i {
      case DoSend(dest, flags, body, validity, cb) =>
        if AnswersTo(s.coord, dest) {
          SendToCoordLive(s, flags, body, SendValidity(s.coord, validity), cb);
        }
      case DoReceive(f, ackSent) =>
        RecvKeepsDeadline(s, f, ackSent);
      case DoTick =>
        ClientTimersShape(s);
        DespatchRequestShape(ClientTimers(s).s);
        if s.timer.at == s.tick {
          ClientTickAtDeadline(s);
        }
      case DoPermit(permit) =>
    }
  }

  /** The client is Registering throughout. */
  predicate StillRegistering(s: Mac, ins: seq<Input>) {
    forall n :: 0 <= n <= |ins| ==> Run(s, ins[..n]).s.client == ClientRegistering
  }

  /** A client cannot stay in Registering past its deadline, at most four ticks away. */
  lemma {:induction false} RegisteringEnds(s: Mac, ins: seq<Input>)
    requires !s.params.coordinator && Attached(s) && Timely(s) && StillRegistering(s, ins)
    ensures s.timer.Due? && Run(s, ins).s.timer == s.timer && Run(s, ins).s.params == s.params
    ensures Run(s, ins).s.tick == s.tick + Ticks(ins) <= s.timer.at <= s.tick + REGISTRATION_TICKS
  {
    assert ins[..0] == [];
    assert Run(s, ins[..0]).s.client == ClientRegistering;
    if ins == [] {
    } else {
      var init, i := ins[..|ins| - 1], ins[|ins| - 1];
      forall n | 0 <= n <= |init| ensures Run(s, init[..n]).s.client == ClientRegistering {
        assert init[..n] == ins[..n];
      }
      RegisteringEnds(s, init);
      assert ins[..|ins|] == ins;
      RunTimely(s, init);
      StepKeepsDeadline(Run(s, init).s, i);
      StepTick(Run(s, init).s, i);
    }
  }
}
