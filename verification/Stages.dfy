/** How a client comes to be registered and a packet acknowledged, call by call: the pieces of the example
    runs. */
module Stages {
  import opened Words
  import opened MacTypes
  import opened MacSlot
  import opened MacMachine
  import opened Network

  const NET: byte := 1
  const MTU := 254
  const ASK := Flags(true, false, false, 0)
  const ALERT := Attach(0, false, 0)
  const COORDINATOR := Params(99, true, ALERT, 0, 0)

  function Client(uuid: u64): Params { Params(uuid, false, ALERT, 0, 0) }

  /** A client that has just been switched on. */
  function Unborn(uuid: u64): Mac { Init(Client(uuid), MTU, 0, 0, 0) }

  // The devices, stage by stage

  /** A coordinator that lets nodes attach. */
  predicate Open(c: Mac) {
    c.params == COORDINATOR && c.mtu == MTU && c.net == NET && c.addr == 0 && c.permitAttach
  }

  predicate Looking(d: Mac, uuid: u64) {
    && d.params == Client(uuid) && d.mtu == MTU && d.client == ClientBeaconRequest
    && d.addr == UNASSIGNED && d.net == NETWORK_ANY && d.coord == BLANK_NODE
  }

  predicate Awake(d: Mac, uuid: u64) {
    && d.params == Client(uuid) && d.mtu == MTU && d.net == NET
    && d.coord.addr == 0 && !d.coord.flags.sleepy
  }

  predicate Joining(d: Mac, uuid: u64) {
    Awake(d, uuid) && d.client == ClientRegistering && d.addr == UNASSIGNED && d.coord.state == Registered
  }

  predicate Admitted(d: Mac, uuid: u64, addr: byte) {
    Awake(d, uuid) && d.client == ClientRegistered && d.addr == addr && addr != UNASSIGNED && addr != 0
  }

  lemma ClientLooks(uuid: u64)
    ensures var f := Frame(Header(PLAIN, NETWORK_ANY, BROADCAST, UNASSIGNED, 1), BeaconRequest);
            Tick(Unborn(uuid)).ev == [SentMac(f)] && Looking(Tick(Unborn(uuid)).s, uuid)
  {
    var d := Unborn(uuid);
    var b := RequestBeacon(d);
    assert ClientTimers(d).ev == b.ev && ClientTimers(d).s == b.s;
    assert DespatchRequest(b.s) == Out(b.s, []);
  }

  lemma CoordinatorAnswers(c: Mac, f: Frame)
    requires Open(c) && f.body.BeaconRequest? && f.h.net == NETWORK_ANY && f.h.dest == BROADCAST && f.h.src == UNASSIGNED
    ensures var o := Recv(c, f, true);
            && o.ev == [SentMac(BeaconFrame(c, false))]
            && o.s == c.(bseq := (c.bseq + 1) % 256)
  {
    assert Prelude(c, f, true) == Out(c, []);
  }

  /** A beacon by which a client can bind to the coordinator. */
  predicate Inviting(b: Frame) {
    b.body.Beacon? && b.body.permit && b.h.net == NET && b.h.dest == BROADCAST && b.h.src == 0
  }

  /** The request a client answers a beacon with. */
  predicate Asking(f: Frame, uuid: u64) {
    f.h.net == NET && f.h.dest == 0 && f.h.src == UNASSIGNED && f.body == RegRequest(uuid, ALERT)
  }

  lemma ClientBinds(d: Mac, uuid: u64, f: Frame)
    requires Looking(d, uuid) && Inviting(f)
    ensures var o := Recv(d, f, true);
            && |o.ev| == 1 && o.ev[0].SentDirect? && Asking(o.ev[0].frame, uuid) && Joining(o.s, uuid)
  {
    assert Prelude(d, f, true) == Out(d, []);
  }

  /** The answer that grants an address. */
  predicate Granting(f: Frame, uuid: u64, addr: byte) {
    f.h.net == NET && f.h.dest == BROADCAST && f.h.src == 0 && f.body == RegResponse(uuid, addr, STATUS_SUCCESS)
  }

  lemma CoordinatorEnrols(c: Mac, uuid: u64, k: nat, f: Frame)
    requires Open(c) && Asking(f, uuid) && SlotFor(c.nodes, uuid) == k < MAX_NODES
    ensures var o := Recv(c, f, true);
            && |o.ev| > 0 && o.ev[0].SentMac? && Granting(o.ev[0].frame, uuid, c.nodes[k].addr)
            && Open(o.s) && o.s.tick == c.tick
            && o.s.nodes == c.nodes[k := Enrol(c.nodes[k], uuid, ALERT, c.tick)]
  {
    assert Prelude(c, f, true) == Out(c, []);
  }

  lemma ClientJoins(d: Mac, uuid: u64, addr: byte, f: Frame)
    requires Joining(d, uuid) && addr != UNASSIGNED && addr != 0 && Granting(f, uuid, addr)
    ensures var o := Recv(d, f, true); Admitted(o.s, uuid, addr) && o.s.coord == d.coord
  {
    assert Prelude(d, f, true) == Out(d, []);
  }

  // Runs

  lemma {:induction false} Extend(w: World, moves: seq<Move>, p: nat, i: Input)
    requires LegalRun(w, moves) && Legal(After(w, moves), p, i)
    ensures LegalRun(w, moves + [Move(p, i)]) && After(w, moves + [Move(p, i)]) == Next(After(w, moves), p, i)
    decreases |moves|
  {
    var longer := moves + [Move(p, i)];
    if moves == [] {
      assert longer[1..] == [];
    } else {
      assert longer[1..] == moves[1..] + [Move(p, i)];
      Extend(Next(w, moves[0].who, moves[0].i), moves[1..], p, i);
    }
  }

  ghost predicate Flying(w: World, f: Frame) {
    exists fl :: fl in w.air && fl.frame == f
  }

  /** No device has received a frame with this body, save perhaps one. */
  predicate Unheard(w: World, save: Option<nat>, body: Body) {
    forall r :: r in w.hist && r.i.DoReceive? && r.i.frame.body == body ==> save == Some(r.who)
  }

  lemma Emitted(w: World, p: nat, i: Input, e: Event)
    requires p < |w.devs| && e in Step(w.devs[p], i).ev && IsEmission(e)
    ensures Flying(Next(w, p, i), e.frame)
  {
    assert Flight(p, e.frame) in Next(w, p, i).air;
  }

  lemma StillFlying(w: World, p: nat, i: Input, f: Frame)
    requires p < |w.devs| && Flying(w, f)
    ensures Flying(Next(w, p, i), f)
  {
    var fl :| fl in w.air && fl.frame == f;
    assert fl in Next(w, p, i).air;
  }

  /** A run that ends with these devices, and in which nobody else has received a frame with the given body. */
  ghost predicate Reached(w: World, moves: seq<Move>, devs: seq<Mac>, save: Option<nat>, body: Body) {
    LegalRun(w, moves) && After(w, moves).devs == devs && Unheard(After(w, moves), save, body)
  }

  /** One more call, of something other than a receipt of that body by somebody else. */
  lemma Go(w: World, moves: seq<Move>, devs: seq<Mac>, save: Option<nat>, body: Body, p: nat, i: Input)
    returns (next: seq<Move>)
    requires Reached(w, moves, devs, save, body) && p < |devs|
    requires i.DoReceive? ==> Flying(After(w, moves), i.frame) && (i.frame.body == body ==> save == Some(p))
    ensures next == moves + [Move(p, i)]
    ensures var o := Step(devs[p], i);
            && Reached(w, next, devs[p := o.s], save, body)
            && (forall e :: e in o.ev && IsEmission(e) ==> Flying(After(w, next), e.frame))
    ensures forall f :: Flying(After(w, moves), f) ==> Flying(After(w, next), f)
  {
    var v := After(w, moves);
    next := moves + [Move(p, i)];
    Extend(w, moves, p, i);
    forall e | e in Step(v.devs[p], i).ev && IsEmission(e) ensures Flying(After(w, next), e.frame) {
      Emitted(v, p, i, e);
    }
    forall f | Flying(v, f) ensures Flying(After(w, next), f) {
      StillFlying(v, p, i, f);
    }
  }

  // A registration

  /** A client asks for a beacon, and gets one. */
  lemma Calls(w: World, start: seq<Move>, devs: seq<Mac>, save: Option<nat>, body: Body, p: nat, uuid: u64)
    returns (moves: seq<Move>, c: Mac, d: Mac, b: Frame)
    requires Reached(w, start, devs, save, body) && body.Data?
    requires 1 <= p < |devs| && Open(devs[0]) && devs[p] == Unborn(uuid)
    ensures Reached(w, moves, devs[p := d][0 := c], save, body)
    ensures Open(c) && c.nodes == devs[0].nodes && c.tick == devs[0].tick && Looking(d, uuid)
    ensures Flying(After(w, moves), b) && Inviting(b)
  {
    c, d := devs[0], Tick(devs[p]).s;
    ClientLooks(uuid);
    moves := Go(w, start, devs, save, body, p, DoTick);
    var ask := Tick(devs[p]).ev[0];
    assert ask in Tick(devs[p]).ev;
    CoordinatorAnswers(c, ask.frame);
    b := BeaconFrame(c, false);
    moves := Go(w, moves, devs[p := d], save, body, 0, DoReceive(ask.frame, true));
    assert SentMac(b) in Recv(c, ask.frame, true).ev;
    c := Recv(c, ask.frame, true).s;
  }

  /** It binds to the sender of the beacon and asks to register. */
  lemma Binds(w: World, start: seq<Move>, devs: seq<Mac>, save: Option<nat>, body: Body, p: nat, uuid: u64, b: Frame)
    returns (moves: seq<Move>, d: Mac, f: Frame)
    requires Reached(w, start, devs, save, body) && body.Data?
    requires p < |devs| && Looking(devs[p], uuid) && Flying(After(w, start), b) && Inviting(b)
    ensures Reached(w, moves, devs[p := d], save, body) && Joining(d, uuid)
    ensures Flying(After(w, moves), f) && Asking(f, uuid)
  {
    ClientBinds(devs[p], uuid, b);
    moves := Go(w, start, devs, save, body, p, DoReceive(b, true));
    var o := Recv(devs[p], b, true);
    d, f := o.s, o.ev[0].frame;
    assert o.ev[0] in o.ev;
  }

  /** Both together. */
  lemma Finds(w: World, start: seq<Move>, devs: seq<Mac>, save: Option<nat>, body: Body, p: nat, uuid: u64)
    returns (moves: seq<Move>, c: Mac, d: Mac, f: Frame)
    requires Reached(w, start, devs, save, body) && body.Data?
    requires 1 <= p < |devs| && Open(devs[0]) && devs[p] == Unborn(uuid)
    ensures Reached(w, moves, devs[0 := c][p := d], save, body)
    ensures Open(c) && c.nodes == devs[0].nodes && c.tick == devs[0].tick && Joining(d, uuid)
    ensures Flying(After(w, moves), f) && Asking(f, uuid)
  {
    var b;
    moves, c, d, b := Calls(w, start, devs, save, body, p, uuid);
    var now := devs[p := d][0 := c];
    moves, d, f := Binds(w, moves, now, save, body, p, uuid, b);
    assert now[p := d] == devs[0 := c][p := d];
  }

  /** The coordinator enrols it. */
  lemma Enrols(w: World, start: seq<Move>, devs: seq<Mac>, save: Option<nat>, body: Body, p: nat, uuid: u64, k: nat)
    returns (moves: seq<Move>, c: Mac, d: Mac, g: Frame)
    requires Reached(w, start, devs, save, body) && body.Data?
    requires 1 <= p < |devs| && Open(devs[0]) && devs[p] == Unborn(uuid)
    requires SlotFor(devs[0].nodes, uuid) == k < MAX_NODES && devs[0].nodes[k].addr == k + 1
    ensures Reached(w, moves, devs[0 := c][p := d], save, body)
    ensures Open(c) && c.nodes == devs[0].nodes[k := Enrol(devs[0].nodes[k], uuid, ALERT, c.tick)] && c.tick == devs[0].tick
    ensures Joining(d, uuid) && Flying(After(w, moves), g) && Granting(g, uuid, k + 1)
  {
    var f;
    moves, c, d, f := Finds(w, start, devs, save, body, p, uuid);
    CoordinatorEnrols(c, uuid, k, f);
    moves := Go(w, moves, devs[0 := c][p := d], save, body, 0, DoReceive(f, true));
    g := Recv(c, f, true).ev[0].frame;
    assert Recv(c, f, true).ev[0] in Recv(c, f, true).ev;
    assert devs[0 := c][p := d][0 := Recv(c, f, true).s] == devs[0 := Recv(c, f, true).s][p := d];
    c := Recv(c, f, true).s;
  }

  /** And it registers. */
  lemma Registers(w: World, start: seq<Move>, devs: seq<Mac>, save: Option<nat>, body: Body, p: nat, uuid: u64, k: nat)
    returns (moves: seq<Move>, c: Mac, d: Mac)
    requires Reached(w, start, devs, save, body) && body.Data?
    requires 1 <= p < |devs| && Open(devs[0]) && devs[p] == Unborn(uuid)
    requires SlotFor(devs[0].nodes, uuid) == k < MAX_NODES && devs[0].nodes[k].addr == k + 1
    ensures Reached(w, moves, devs[0 := c][p := d], save, body)
    ensures Open(c) && c.nodes == devs[0].nodes[k := Enrol(devs[0].nodes[k], uuid, ALERT, c.tick)] && c.tick == devs[0].tick
    ensures Admitted(d, uuid, k + 1) && d.coord.state == Registered
  {
    var g;
    moves, c, d, g := Enrols(w, start, devs, save, body, p, uuid, k);
    ClientJoins(d, uuid, k + 1, g);
    moves := Go(w, moves, devs[0 := c][p := d], save, body, p, DoReceive(g, true));
    assert devs[0 := c][p := d][p := Recv(d, g, true).s] == devs[0 := c][p := Recv(d, g, true).s];
    d := Recv(d, g, true).s;
  }
}
