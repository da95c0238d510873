/** A coordinator and its clients on a channel that may lose, repeat, delay and reorder frames.

    Device 0 is the coordinator.  Everything ever transmitted stays available for delivery, to any
    device, any number of times; devices make their calls in any order. */
module Network {
  import opened Words
  import opened MacTypes
  import opened MacSlot
  import opened MacMachine
  import opened Registry
  import opened Timers
  import opened Exchanges
  import opened Attachment

  datatype Flight = Flight(sender: nat, frame: Frame)

  /** One call of one device, and what came of it. */
  datatype Record = Record(who: nat, i: Input, ev: seq<Event>)

  datatype World = World(devs: seq<Mac>, air: set<Flight>, hist: seq<Record>)

  predicate IsEmission(e: Event) {
    e.Sent? || e.SentDirect? || e.SentMac?
  }

  function Emissions(p: nat, ev: seq<Event>): set<Flight> {
    set e | e in ev && IsEmission(e) :: Flight(p, e.frame)
  }

  /** A device receives only what some device has transmitted. */
  ghost predicate Legal(w: World, p: nat, i: Input) {
    p < |w.devs| && (i.DoReceive? ==> exists fl :: fl in w.air && fl.frame == i.frame)
  }

  /** Nor does the coordinator pass an address on, which it may once 32 others have registered. */
  ghost predicate Orderly(w: World, p: nat, i: Input) {
    Legal(w, p, i) && (p == 0 ==> !PassesOn(w.devs[0], i))
  }

  function Next(w: World, p: nat, i: Input): World
    requires p < |w.devs|
  {
    var o := Step(w.devs[p], i);
    World(w.devs[p := o.s], w.air + Emissions(p, o.ev), w.hist + [Record(p, i, o.ev)])
  }

  // What every reachable world satisfies

  function ClientUuids(devs: seq<Mac>): seq<u64>
    requires |devs| >= 1
  {
    seq(|devs| - 1, j requires 0 <= j < |devs| - 1 => devs[j + 1].params.uuid)
  }

  /** One coordinator and any number of clients with distinct nonzero UUIDs. */
  predicate Cast(devs: seq<Mac>) {
    && 1 <= |devs|
    && (forall p :: 0 <= p < |devs| ==> (devs[p].params.coordinator <==> p == 0))
    && (forall p :: 1 <= p < |devs| ==> devs[p].params.uuid != 0)
    && (forall p, q :: 1 <= p < q < |devs| ==> devs[p].params.uuid != devs[q].params.uuid)
  }

  predicate Assigned(t: NodeTable, addr: byte, uuid: u64) {
    1 <= addr <= MAX_NODES && t[addr - 1].uuid == uuid
  }

  /** The frame is the one in the buffer, or an older one. */
  predicate Below(n: Node, f: Frame) {
    f.h.seqno <= n.pending.h.seqno && (f.h.seqno == n.pending.h.seqno ==> n.pending == f)
  }

  /** Where a frame that demands an ack, sent by device `p`, comes from and goes to. */
  predicate Routed(t: NodeTable, p: nat, s: Mac, f: Frame) {
    if p == 0 then
      f.h.src == 0 && 1 <= f.h.dest <= MAX_NODES
    else
      f.h.dest == 0 && (f.h.src == UNASSIGNED || Assigned(t, f.h.src, s.params.uuid))
  }

  function SlotOf(p: nat, f: Frame): nat
    requires p == 0 ==> 1 <= f.h.dest <= MAX_NODES
  {
    if p == 0 then f.h.dest - 1 else COORD
  }

  predicate HeldOk(t: NodeTable, p: nat, s: Mac, k: nat)
    requires k <= COORD
  {
    var f := GetNode(s, k).pending;
    OwnSlot(s, k) && Demands(f) ==> Routed(t, p, s, f) && SlotOf(p, f) == k
  }

  predicate DeviceOk(t: NodeTable, p: nat, s: Mac) {
    && Tidy(s) && SlotsOk(s)
    && (forall k :: 0 <= k <= COORD ==> HeldOk(t, p, s, k))
    && (p == 0 ==> s.addr == 0)
    && (p > 0 ==>
          && Attached(s) && s.coord.addr == 0
          && (s.client == ClientRegistered ==> Assigned(t, s.addr, s.params.uuid)))
  }

  /** The record of a call in which device `q` took `f`, passed its data up and sent the ack `a`. */
  ghost predicate Took(r: Record, q: nat, f: Frame, a: Frame) {
    && r.who == q && r.i.DoReceive? && r.i.frame == f
    && SentMac(a) in r.ev
    && exists from :: Delivered(from, f.body) in r.ev
  }

  /** The ack answers this frame. */
  predicate Answers(a: Frame, f: Frame) {
    Demands(f) && a.body.Ack? && a.h.seqno == f.h.seqno && a.h.src == f.h.dest && a.h.dest == f.h.src
  }

  ghost predicate Witnessed(w: World, q: nat, a: Frame) {
    exists r, fl :: r in w.hist && fl in w.air && Answers(a, fl.frame) && Took(r, q, fl.frame, a)
  }

  ghost predicate AckOk(w: World, q: nat, a: Frame)
    requires |w.devs| >= 1
  {
    && Witnessed(w, q, a) && a.h.dest != UNASSIGNED && q < |w.devs|
    && (if q == 0 then a.h.src == 0 else Assigned(w.devs[0].nodes, a.h.src, w.devs[q].params.uuid))
  }

  predicate DemandOk(w: World, p: nat, f: Frame)
    requires |w.devs| >= 1
  {
    && p < |w.devs| && f.body.Data? && Routed(w.devs[0].nodes, p, w.devs[p], f)
    && f.h.seqno <= w.devs[p].dseq && Below(GetNode(w.devs[p], SlotOf(p, f)), f)
  }

  ghost predicate FlightOk(w: World, fl: Flight)
    requires |w.devs| >= 1
  {
    var f := fl.frame;
    && (Demands(f) ==> DemandOk(w, fl.sender, f))
    && (f.body.Ack? ==> AckOk(w, fl.sender, f))
    && (f.body.RegRequest? ==> f.body.uuid in ClientUuids(w.devs))
    && (f.body.Beacon? ==> f.h.src == 0)
    && (Grants(f) ==> f.body.uuid != 0 && Assigned(w.devs[0].nodes, f.body.addr, f.body.uuid))
  }

  ghost predicate Inv(w: World) {
    && Cast(w.devs)
    && Known(w.devs[0].nodes, Members(ClientUuids(w.devs)))
    && (forall p :: 0 <= p < |w.devs| ==> DeviceOk(w.devs[0].nodes, p, w.devs[p]))
    && (forall fl :: fl in w.air ==> FlightOk(w, fl))
  }

  // How worlds move

  /** Buffers only move on, and the configuration stays. */
  predicate Advances(s: Mac, s': Mac) {
    && s'.params == s.params && s.dseq <= s'.dseq
    && forall k :: 0 <= k <= COORD ==>
         var n, n' := GetNode(s, k), GetNode(s', k);
         n'.pending == n.pending || s.dseq < n'.pending.h.seqno
  }

  ghost predicate Later(w: World, w': World) {
    && |w.devs| == |w'.devs| >= 1 && w.air <= w'.air
    && (forall r :: r in w.hist ==> r in w'.hist)
    && (forall p :: 0 <= p < |w.devs| ==> Advances(w.devs[p], w'.devs[p]))
    && Lasting(w.devs[0].nodes, w'.devs[0].nodes)
  }

  lemma AssignedLasts(t: NodeTable, t': NodeTable, addr: byte, uuid: u64)
    requires Lasting(t, t') && Assigned(t, addr, uuid) && uuid != 0
    ensures Assigned(t', addr, uuid)
  {
  }

  lemma BelowLasts(s: Mac, s': Mac, k: nat, f: Frame)
    requires k <= COORD && Advances(s, s') && Below(GetNode(s, k), f) && f.h.seqno <= s.dseq
    ensures Below(GetNode(s', k), f) && f.h.seqno <= s'.dseq
  {
  }

  lemma UuidsLast(w: World, w': World)
    requires Later(w, w')
    ensures ClientUuids(w'.devs) == ClientUuids(w.devs)
  {
    forall p | 0 <= p < |w.devs| ensures w'.devs[p].params == w.devs[p].params {
      assert Advances(w.devs[p], w'.devs[p]);
    }
  }

  lemma CastLasts(w: World, w': World)
    requires Later(w, w') && Cast(w.devs)
    ensures Cast(w'.devs)
  {
    forall p | 0 <= p < |w.devs| ensures w'.devs[p].params == w.devs[p].params {
      assert Advances(w.devs[p], w'.devs[p]);
    }
  }

  lemma DemandLasts(w: World, w': World, p: nat, f: Frame)
    requires Later(w, w') && Cast(w.devs) && DemandOk(w, p, f)
    ensures DemandOk(w', p, f)
  {
    assert Advances(w.devs[p], w'.devs[p]);
    BelowLasts(w.devs[p], w'.devs[p], SlotOf(p, f), f);
    if p > 0 && f.h.src != UNASSIGNED {
      AssignedLasts(w.devs[0].nodes, w'.devs[0].nodes, f.h.src, w.devs[p].params.uuid);
    }
  }

  lemma AckLasts(w: World, w': World, q: nat, a: Frame)
    requires Later(w, w') && Cast(w.devs) && AckOk(w, q, a)
    ensures AckOk(w', q, a)
  {
    var r, fl :| r in w.hist && fl in w.air && Answers(a, fl.frame) && Took(r, q, fl.frame, a);
    assert r in w'.hist && fl in w'.air;
    assert Advances(w.devs[q], w'.devs[q]);
    if q > 0 {
      AssignedLasts(w.devs[0].nodes, w'.devs[0].nodes, a.h.src, w.devs[q].params.uuid);
    }
  }

  lemma FlightLasts(w: World, w': World, fl: Flight)
    requires Later(w, w') && Inv(w) && fl in w.air
    ensures FlightOk(w', fl)
  {
    var f := fl.frame;
    assert FlightOk(w, fl);
    if Demands(f) {
      DemandLasts(w, w', fl.sender, f);
    }
    if f.body.Ack? {
      AckLasts(w, w', fl.sender, f);
    }
    UuidsLast(w, w');
    if Grants(f) {
      AssignedLasts(w.devs[0].nodes, w'.devs[0].nodes, f.body.addr, f.body.uuid);
    }
  }

  // One step

  lemma StepAdvances(s: Mac, i: Input)
    requires SlotsOk(s)
    ensures Advances(s, Step(s, i).s) && SlotsOk(Step(s, i).s)
  {
    match i {
      case DoSend(dest, flags, body, validity, cb) =>
        SendOpens(s, dest, flags, body, validity, cb);
      case DoReceive(f, ackSent) =>
        RecvCalm(s, f, ackSent);
        CalmAdvances(s, Recv(s, f, ackSent));
      case DoTick =>
        TickCalm(s);
        CalmAdvances(s, Tick(s));
      case DoPermit(permit) =>
        SameCalm(s, Step(s, i).s, []);
        CalmAdvances(s, Step(s, i));
    }
  }

  lemma CalmAdvances(s: Mac, o: Out)
    requires Calm(s, o)
    ensures Advances(s, o.s)
  {
    forall k | 0 <= k <= COORD
      ensures GetNode(o.s, k).pending == GetNode(s, k).pending || s.dseq < GetNode(o.s, k).pending.h.seqno
    {
      assert Passed(GetNode(s, k), GetNode(o.s, k), s.dseq);
    }
  }

  /** Whoever asks to register in this world is one of its clients. */
  lemma RequestsKnown(w: World, p: nat, i: Input)
    requires Inv(w) && Legal(w, p, i)
    ensures var us := Members(ClientUuids(w.devs));
            0 !in us && From(us, i) && Named(i)
  {
    if i.DoReceive? {
      var fl :| fl in w.air && fl.frame == i.frame;
      assert FlightOk(w, fl);
    }
  }

  lemma NextLater(w: World, p: nat, i: Input)
    requires Inv(w) && Orderly(w, p, i)
    ensures Later(w, Next(w, p, i))
    ensures var o := Step(w.devs[p], i);
            Tidy(o.s) && Known(Next(w, p, i).devs[0].nodes, Members(ClientUuids(w.devs)))
    ensures p == 0 ==> Recorded(Step(w.devs[0], i).ev, Next(w, p, i).devs[0].nodes)
    ensures p > 0 ==> NoGrant(Step(w.devs[p], i).ev)
  {
    var w' := Next(w, p, i);
    RequestsKnown(w, p, i);
    forall q | 0 <= q < |w.devs| ensures Advances(w.devs[q], w'.devs[q]) {
      assert DeviceOk(w.devs[0].nodes, q, w.devs[q]);
      if q == p {
        StepAdvances(w.devs[p], i);
      }
    }
    assert DeviceOk(w.devs[0].nodes, p, w.devs[p]);
    if p == 0 {
      StepSticky(w.devs[0], i, Members(ClientUuids(w.devs)));
    } else {
      StepRegistry(w.devs[p], i);
    }
  }

  lemma HeldLasts(t: NodeTable, t': NodeTable, p: nat, s: Mac, k: nat)
    requires k <= COORD && Lasting(t, t') && HeldOk(t, p, s, k) && (p > 0 ==> s.params.uuid != 0)
    ensures HeldOk(t', p, s, k)
  {
  }

  lemma DeviceLasts(t: NodeTable, t': NodeTable, p: nat, s: Mac)
    requires Lasting(t, t') && DeviceOk(t, p, s) && (p > 0 ==> s.params.uuid != 0)
    ensures DeviceOk(t', p, s)
  {
    forall k | 0 <= k <= COORD ensures HeldOk(t', p, s, k) {
      HeldLasts(t, t', p, s, k);
    }
  }

  /** A frame newly put in a buffer with a demand for an ack is routed like the rest. */
  lemma HeldStep(t: NodeTable, p: nat, s: Mac, i: Input, k: nat)
    requires k <= COORD && DeviceOk(t, p, s) && (s.params.coordinator <==> p == 0)
    ensures HeldOk(t, p, Step(s, i).s, k)
  {
    var n, n' := GetNode(s, k), GetNode(Step(s, i).s, k);
    assert HeldOk(t, p, s, k) && SlotOk(n, s.dseq);
    StepAdvances(s, i);
    match i {
      case DoSend(dest, flags, body, validity, cb) =>
        SendOpens(s, dest, flags, body, validity, cb);
        SendHeld(t, p, s, Step(s, i), k);
      case DoReceive(f, ackSent) =>
        RecvCalm(s, f, ackSent);
        assert Passed(n, n', s.dseq);
      case DoTick =>
        TickCalm(s);
        assert Passed(n, n', s.dseq);
      case DoPermit(permit) =>
    }
  }

  lemma SendHeld(t: NodeTable, p: nat, s: Mac, o: Out, k: nat)
    requires k <= COORD && DeviceOk(t, p, s) && (s.params.coordinator <==> p == 0) && Opens(s, o)
    ensures HeldOk(t, p, o.s, k)
  {
    var n, n' := GetNode(s, k), GetNode(o.s, k);
    assert HeldOk(t, p, s, k);
    if n'.pending != n.pending {
      assert n'.pending.h.src == s.addr && n'.pending.h.dest == n.addr;
    }
  }

  lemma DeviceStep(w: World, p: nat, i: Input)
    requires Inv(w) && Orderly(w, p, i)
    ensures var w' := Next(w, p, i);
            DeviceOk(w'.devs[0].nodes, p, w'.devs[p])
  {
    var w' := Next(w, p, i);
    var s, t, t' := w.devs[p], w.devs[0].nodes, w'.devs[0].nodes;
    var s' := w'.devs[p];
    assert DeviceOk(t, p, s);
    NextLater(w, p, i);
    StepAdvances(s, i);
    forall k | 0 <= k <= COORD ensures HeldOk(t', p, s', k) {
      HeldStep(t, p, s, i, k);
      HeldLasts(t, t', p, s', k);
    }
    if p == 0 {
      CoordinatorAddr(s, i);
    } else {
      StepAttached(s, i);
      ClientStep(w, p, i);
    }
  }

  lemma CoordinatorAddr(s: Mac, i: Input)
    requires s.params.coordinator && SlotsOk(s)
    ensures Step(s, i).s.addr == s.addr
  {
    match i {
      case DoSend(dest, flags, body, validity, cb) =>
        SendOpens(s, dest, flags, body, validity, cb);
      case DoReceive(f, ackSent) =>
        RecvCalm(s, f, ackSent);
      case DoTick =>
        TickCalm(s);
      case DoPermit(permit) =>
    }
  }

  lemma ClientStep(w: World, p: nat, i: Input)
    requires Inv(w) && Orderly(w, p, i) && p > 0
    ensures var w' := Next(w, p, i);
            var s' := w'.devs[p];
            && s'.coord.addr == 0
            && (s'.client == ClientRegistered ==> Assigned(w'.devs[0].nodes, s'.addr, s'.params.uuid))
  {
    var s := w.devs[p];
    assert DeviceOk(w.devs[0].nodes, p, s);
    NextLater(w, p, i);
    StepBonds(s, i);
    if i.DoReceive? {
      var fl :| fl in w.air && fl.frame == i.frame;
      assert FlightOk(w, fl);
    }
  }

  // What the step puts on the air

  lemma HeldIsDemandOk(w: World, p: nat, k: nat)
    requires |w.devs| >= 1 && p < |w.devs| && k <= COORD && DeviceOk(w.devs[0].nodes, p, w.devs[p])
    requires OwnSlot(w.devs[p], k) && Demands(GetNode(w.devs[p], k).pending)
    ensures DemandOk(w, p, GetNode(w.devs[p], k).pending)
  {
    assert HeldOk(w.devs[0].nodes, p, w.devs[p], k);
    assert SlotOk(GetNode(w.devs[p], k), w.devs[p].dseq);
  }

  lemma NewDemand(w: World, p: nat, i: Input, e: Event)
    requires Inv(w) && Orderly(w, p, i) && e in Step(w.devs[p], i).ev && IsEmission(e) && Demands(e.frame)
    ensures DemandOk(Next(w, p, i), p, e.frame)
  {
    var s, w' := w.devs[p], Next(w, p, i);
    assert DeviceOk(w.devs[0].nodes, p, s);
    if i.DoSend? {
      SendOpens(s, i.dest, i.flags, i.body, i.validity, i.cb);
      DeviceStep(w, p, i);
      StepAdvances(s, i);
      HeldIsDemandOk(w', p, e.slot);
    } else {
      CalmStep(s, i);
      assert CalmEvent(s, e);
      HeldIsDemandOk(w, p, e.slot);
      NextLater(w, p, i);
      DemandLasts(w, w', p, e.frame);
    }
  }

  lemma CalmStep(s: Mac, i: Input)
    requires SlotsOk(s) && !i.DoSend?
    ensures Calm(s, Step(s, i))
  {
    match i {
      case DoReceive(f, ackSent) => RecvCalm(s, f, ackSent);
      case DoTick => TickCalm(s);
      case DoPermit(permit) => SameCalm(s, Step(s, i).s, []);
    }
  }

  lemma DirectedTo(s: Mac, h: Header)
    requires Admits(s, h) && h.dest != BROADCAST
    ensures h.dest == s.addr
  {
  }

  lemma NewAck(w: World, p: nat, i: Input, e: Event)
    requires Inv(w) && Orderly(w, p, i) && e in Step(w.devs[p], i).ev && IsEmission(e) && e.frame.body.Ack?
    ensures AckOk(Next(w, p, i), p, e.frame)
  {
    var s, w' := w.devs[p], Next(w, p, i);
    var a := e.frame;
    assert DeviceOk(w.devs[0].nodes, p, s);
    assert Emits(e, a);
    AcksAreMac(s, i, e, a);
    var g := i.frame;
    AckAnswers(s, g, i.ackSent, e);
    var fl :| fl in w.air && fl.frame == g;
    assert FlightOk(w, fl);
    DirectedTo(s, g.h);
    NextLater(w, p, i);
    var r := Record(p, i, Step(s, i).ev);
    assert r in w'.hist && fl in w'.air;
    assert Answers(a, fl.frame) && Took(r, p, fl.frame, a);
    if p > 0 {
      AssignedLasts(w.devs[0].nodes, w'.devs[0].nodes, s.addr, s.params.uuid);
    }
  }

  lemma StepVoice(s: Mac, i: Input, e: Event)
    requires SlotsOk(s) && e in Step(s, i).ev && IsEmission(e)
    ensures Voice(s, e.frame)
  {
    if i.DoSend? {
      SendOpens(s, i.dest, i.flags, i.body, i.validity, i.cb);
      if e.Sent? {
        assert SlotOk(GetNode(Step(s, i).s, e.slot), Step(s, i).s.dseq);
      }
    } else {
      CalmStep(s, i);
      assert CalmEvent(s, e);
    }
  }

  lemma OwnUuid(devs: seq<Mac>, p: nat)
    requires 1 <= p < |devs|
    ensures devs[p].params.uuid in ClientUuids(devs)
  {
    assert ClientUuids(devs)[p - 1] == devs[p].params.uuid;
  }

  lemma NewVoice(w: World, p: nat, i: Input, e: Event)
    requires Inv(w) && Orderly(w, p, i) && e in Step(w.devs[p], i).ev && IsEmission(e)
    ensures e.frame.body.RegRequest? ==> e.frame.body.uuid in ClientUuids(w.devs)
    ensures e.frame.body.Beacon? ==> e.frame.h.src == 0
  {
    assert DeviceOk(w.devs[0].nodes, p, w.devs[p]);
    StepVoice(w.devs[p], i, e);
    if p > 0 {
      OwnUuid(w.devs, p);
    }
  }

  lemma NewFlight(w: World, p: nat, i: Input, e: Event)
    requires Inv(w) && Orderly(w, p, i) && e in Step(w.devs[p], i).ev && IsEmission(e)
    ensures FlightOk(Next(w, p, i), Flight(p, e.frame))
  {
    if Demands(e.frame) {
      NewDemand(w, p, i, e);
    }
    if e.frame.body.Ack? {
      NewAck(w, p, i, e);
    }
    NewVoice(w, p, i, e);
    NextLater(w, p, i);
    UuidsLast(w, Next(w, p, i));
    assert Emits(e, e.frame);
  }

  lemma NextInv(w: World, p: nat, i: Input)
    requires Inv(w) && Orderly(w, p, i)
    ensures Inv(Next(w, p, i))
  {
    var w' := Next(w, p, i);
    NextLater(w, p, i);
    CastLasts(w, w');
    UuidsLast(w, w');
    forall q | 0 <= q < |w'.devs| ensures DeviceOk(w'.devs[0].nodes, q, w'.devs[q]) {
      if q == p {
        DeviceStep(w, p, i);
      } else {
        assert DeviceOk(w.devs[0].nodes, q, w.devs[q]);
        DeviceLasts(w.devs[0].nodes, w'.devs[0].nodes, q, w.devs[q]);
      }
    }
    forall fl | fl in w'.air ensures FlightOk(w', fl) {
      if fl in w.air {
        FlightLasts(w, w', fl);
      } else {
        var e :| e in Step(w.devs[p], i).ev && IsEmission(e) && fl == Flight(p, e.frame);
        NewFlight(w, p, i, e);
      }
    }
  }

  // Runs

  datatype Move = Move(who: nat, i: Input)

  ghost predicate LegalRun(w: World, moves: seq<Move>)
    decreases |moves|
  {
    moves == [] ||
    (Legal(w, moves[0].who, moves[0].i) && LegalRun(Next(w, moves[0].who, moves[0].i), moves[1..]))
  }

  ghost function After(w: World, moves: seq<Move>): World
    requires LegalRun(w, moves)
    decreases |moves|
  {
    if moves == [] then w else After(Next(w, moves[0].who, moves[0].i), moves[1..])
  }

  ghost predicate JustOn(s: Mac) {
    exists net: byte, dseq: byte, bseq: byte :: s == Init(s.params, s.mtu, net, dseq, bseq)
  }

  /** A world that has just been switched on. */
  ghost predicate Initial(w: World) {
    && Cast(w.devs) && w.air == {} && w.hist == []
    && forall p :: 0 <= p < |w.devs| ==> JustOn(w.devs[p])
  }

  lemma InitialInv(w: World)
    requires Initial(w)
    ensures Inv(w)
  {
  }

  /** A run in which the coordinator passes no address on. */
  ghost predicate OrderlyRun(w: World, moves: seq<Move>)
    decreases |moves|
  {
    moves == [] ||
    (Orderly(w, moves[0].who, moves[0].i) && OrderlyRun(Next(w, moves[0].who, moves[0].i), moves[1..]))
  }

  lemma {:induction false} RunInv(w: World, moves: seq<Move>)
    requires Inv(w) && LegalRun(w, moves) && OrderlyRun(w, moves)
    ensures Inv(After(w, moves))
    decreases |moves|
  {
    if moves == [] {
    } else {
      NextInv(w, moves[0].who, moves[0].i);
      RunInv(Next(w, moves[0].who, moves[0].i), moves[1..]);
    }
  }

  lemma {:induction false} MembersSize(q: seq<u64>)
    ensures |Members(q)| <= |q|
  {
    if q == [] {
    } else {
      var init, last := q[..|q| - 1], q[|q| - 1];
      MembersSize(init);
      assert q == init + [last];
      MembersAdd(init, last);
    }
  }

  lemma {:induction false} SmallRunOrderly(w: World, moves: seq<Move>)
    requires Inv(w) && LegalRun(w, moves) && |w.devs| <= MAX_NODES + 1
    ensures OrderlyRun(w, moves)
    decreases |moves|
  {
    if moves == [] {
    } else {
      var p, i := moves[0].who, moves[0].i;
      if p == 0 {
        RequestsKnown(w, p, i);
        MembersSize(ClientUuids(w.devs));
        assert DeviceOk(w.devs[0].nodes, 0, w.devs[0]);
        RoomForAll(w.devs[0], i, Members(ClientUuids(w.devs)));
      }
      NextInv(w, p, i);
      SmallRunOrderly(Next(w, p, i), moves[1..]);
    }
  }

  /** With at most 32 clients every run is orderly. */
  lemma SmallNetworkOrderly(w: World, moves: seq<Move>)
    requires Initial(w) && LegalRun(w, moves) && |w.devs| <= MAX_NODES + 1
    ensures OrderlyRun(w, moves)
  {
    InitialInv(w);
    SmallRunOrderly(w, moves);
  }

  /** No two registered clients ever hold the same address. */
  lemma NoSharedAddress(w: World, moves: seq<Move>, p: nat, q: nat)
    requires Initial(w) && LegalRun(w, moves) && OrderlyRun(w, moves)
    requires var v := After(w, moves);
             && 1 <= p < q < |v.devs|
             && v.devs[p].client == ClientRegistered && v.devs[q].client == ClientRegistered
    ensures After(w, moves).devs[p].addr != After(w, moves).devs[q].addr
  {
    InitialInv(w);
    RunInv(w, moves);
    var v := After(w, moves);
    assert DeviceOk(v.devs[0].nodes, p, v.devs[p]) && DeviceOk(v.devs[0].nodes, q, v.devs[q]);
  }

  // Success means delivery

  lemma FlushSuccess(k: nat, n: Node, now: nat, j: nat, cb: Callback)
    requires Resolved(j, cb, true) in Flush(k, n, now).ev
    ensures j == k && !Demands(n.pending)
  {
  }

  lemma HearSuccess(s: Mac, k: nat, n: Node, h: Header, ackSent: bool, j: nat, cb: Callback)
    requires Resolved(j, cb, true) in HearNode(s, k, n, h, ackSent).ev
    ensures j == k && !Demands(n.pending)
  {
    var n1 := n.(lastHeard := s.tick);
    var a := if !h.flags.wantsAck || !ackSent then NodeOut(n1, []) else Flush(k, n1, s.tick);
    if Resolved(j, cb, true) in a.ev {
      FlushSuccess(k, n1, s.tick, j, cb);
    } else {
      FlushSuccess(k, a.n, s.tick, j, cb);
    }
  }

  lemma HandleSuccess(s: Mac, from: Option<nat>, f: Frame, k: nat, cb: Callback)
    requires from.Some? ==> from.value <= COORD
    requires Resolved(k, cb, true) in Handle(s, from, f).ev
    ensures f.body.Ack? && from == Some(k) && f.h.seqno % 256 == GetNode(s, k).pending.h.seqno % 256
    ensures cb == GetNode(s, k).sendCb
  {
  }

  lemma {:induction false} JoinedMember(parts: seq<seq<Event>>, i: nat, e: Event) returns (j: nat)
    requires i <= |parts| && e in Joined(parts, i)
    ensures i <= j < |parts| && e in parts[j]
    decreases |parts| - i
  {
    if e in parts[i] {
      j := i;
    } else {
      j := JoinedMember(parts, i + 1, e);
    }
  }

  lemma DespatchNoSuccess(k: nat, n: Node, now: nat, e: Event)
    requires e.Resolved? && e.success
    ensures e !in DespatchAck(k, n, now).ev && e !in DespatchValidity(k, n, now).ev
    ensures e !in TickNode(k, n, now).ev
  {
    var h := Heartbeat(k, n, now);
    assert e !in h.ev && e !in DespatchAck(k, h.n, now).ev;
  }

  lemma CoordinatorTickNoSuccess(s: Mac, e: Event)
    requires e.Resolved? && e.success
    ensures e !in CoordinatorTick(s).ev
  {
    var b := BeaconTick(s);
    assert e !in b.ev;
    if e in TickNodes(b.s).ev {
      var j := JoinedMember(NodeTickEvents(b.s.nodes, b.s.tick), 0, e);
      DespatchNoSuccess(j, b.s.nodes[j], b.s.tick, e);
    }
  }

  lemma ClientTickNoSuccess(s: Mac, e: Event)
    requires e.Resolved? && e.success
    ensures e !in ClientTick(s).ev
  {
    var b := RequestBeacon(s);
    var a := PutCoord(b.s, DespatchAck(COORD, b.s.coord, s.tick));
    DespatchNoSuccess(COORD, b.s.coord, s.tick, e);
    DespatchNoSuccess(COORD, a.s.coord, s.tick, e);
    assert e !in b.ev && e !in DespatchRequest(ClientTimers(s).s).ev;
  }

  /** Success for a packet that demands an ack is reported only on an ack from that slot's node whose
      sequence byte is the packet's. */
  lemma SuccessNeedsAck(s: Mac, i: Input, k: nat, cb: Callback)
    requires SlotsOk(s) && k <= COORD && Demands(GetNode(s, k).pending)
    requires Resolved(k, cb, true) in Step(s, i).ev
    ensures i.DoReceive? && i.frame.body.Ack? && Admits(s, i.frame.h) && SourceOf(s, i.frame.h) == Some(k)
    ensures i.frame.h.seqno % 256 == GetNode(s, k).pending.h.seqno % 256 && cb == GetNode(s, k).sendCb
  {
    match i {
      case DoSend(dest, flags, body, validity, cb') =>
      case DoReceive(f, ackSent) =>
        var p := Prelude(s, f, ackSent);
        PreludeCalm(s, f, ackSent);
        assert Passed(GetNode(s, k), GetNode(p.s, k), s.dseq);
        if Resolved(k, cb, true) in p.ev {
          var j := SourceOf(s, f.h).value;
          HearSuccess(s, j, GetNode(s, j), f.h, ackSent, k, cb);
        } else {
          HandleSuccess(p.s, SourceOf(s, f.h), f, k, cb);
          PreludePending(s, f, ackSent, k);
        }
      case DoTick =>
        if s.params.coordinator {
          CoordinatorTickNoSuccess(s, Resolved(k, cb, true));
        } else {
          ClientTickNoSuccess(s, Resolved(k, cb, true));
        }
      case DoPermit(permit) =>
    }
  }

  lemma PreludePending(s: Mac, f: Frame, ackSent: bool, k: nat)
    requires k <= COORD
    ensures var n := GetNode(Prelude(s, f, ackSent).s, k); n.pending == GetNode(s, k).pending && n.sendCb == GetNode(s, k).sendCb
  {
  }

  lemma SameNumber(a: nat, b: nat, top: nat)
    requires a % 256 == b % 256 && a <= b <= top && top < a + 256
    ensures a == b
  {
  }

  /** The ack is for the packet in the buffer, or for one that is less than 256 headers old. */
  predicate Fresh(s: Mac, k: nat, a: Frame)
    requires k <= COORD
  {
    a.h.seqno == GetNode(s, k).pending.h.seqno || s.dseq < a.h.seqno + 256
  }

  /** The device at the other end of slot `k` of device `p`. */
  predicate Peer(w: World, p: nat, k: nat, q: nat)
    requires |w.devs| >= 1
  {
    q < |w.devs| &&
    if p == 0 then q > 0 && k < MAX_NODES && w.devs[q].params.uuid == w.devs[0].nodes[k].uuid
    else q == 0 && k == COORD
  }

  /** The frame that a delivered ack answers was sent by the device that the ack is delivered to, from
      the slot that hears it. */
  lemma AckReturns(w: World, p: nat, k: nat, q: nat, a: Frame, fl: Flight)
    requires Inv(w) && p < |w.devs| && k <= COORD
    requires AckOk(w, q, a) && Admits(w.devs[p], a.h) && SourceOf(w.devs[p], a.h) == Some(k)
    requires fl in w.air && Answers(a, fl.frame)
    ensures fl.sender == p && DemandOk(w, p, fl.frame) && SlotOf(p, fl.frame) == k && Peer(w, p, k, q)
  {
    var s := w.devs[p];
    assert DeviceOk(w.devs[0].nodes, p, s) && DeviceOk(w.devs[0].nodes, 0, w.devs[0]);
    assert FlightOk(w, fl);
    DirectedTo(s, a.h);
  }

  /** Two-party delivery is truthful.  When a device reports success for a packet that demands an ack, it
      reports it to that packet's callback, and the peer has already, in one call, received that very
      frame, acknowledged it and passed its data up. */
  lemma SuccessIsTruthful(w: World, p: nat, i: Input, k: nat, cb: Callback)
    requires Inv(w) && Legal(w, p, i) && k <= COORD
    requires Resolved(k, cb, true) in Step(w.devs[p], i).ev && Demands(GetNode(w.devs[p], k).pending)
    requires i.DoReceive? ==> Fresh(w.devs[p], k, i.frame)
    ensures cb == GetNode(w.devs[p], k).sendCb
    ensures exists r, q, a :: r in w.hist && Took(r, q, GetNode(w.devs[p], k).pending, a) && Peer(w, p, k, q)
                              && Answers(a, GetNode(w.devs[p], k).pending)
  {
    var s := w.devs[p];
    var f := GetNode(s, k).pending;
    assert DeviceOk(w.devs[0].nodes, p, s);
    assert SlotOk(GetNode(s, k), s.dseq);
    SuccessNeedsAck(s, i, k, cb);
    var a := i.frame;
    var afl :| afl in w.air && afl.frame == a;
    assert FlightOk(w, afl);
    var q := afl.sender;
    var r, fl :| r in w.hist && fl in w.air && Answers(a, fl.frame) && Took(r, q, fl.frame, a);
    AckReturns(w, p, k, q, a, fl);
    SameNumber(a.h.seqno, f.h.seqno, if a.h.seqno == f.h.seqno then a.h.seqno else s.dseq);
    assert fl.frame == f;
  }

  /** The same, said of everything that can happen after switching on, with any number of clients, while the
      coordinator passes no address on. */
  lemma DeliveryIsTruthful(w: World, moves: seq<Move>, p: nat, i: Input, k: nat, cb: Callback)
    requires Initial(w) && LegalRun(w, moves) && OrderlyRun(w, moves)
    requires var v := After(w, moves);
             && Legal(v, p, i) && k <= COORD && Demands(GetNode(v.devs[p], k).pending)
             && Resolved(k, cb, true) in Step(v.devs[p], i).ev
             && (i.DoReceive? ==> Fresh(v.devs[p], k, i.frame))
    ensures cb == GetNode(After(w, moves).devs[p], k).sendCb
    ensures var v := After(w, moves);
            exists r, q, a :: r in v.hist && Took(r, q, GetNode(v.devs[p], k).pending, a) && Peer(v, p, k, q)
                              && Answers(a, GetNode(v.devs[p], k).pending)
  {
    InitialInv(w);
    RunInv(w, moves);
    SuccessIsTruthful(After(w, moves), p, i, k, cb);
  }
}
