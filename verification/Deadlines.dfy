/** Every packet that is accepted for buffered delivery is resolved once, in time. */
module Deadlines {
  import opened Words
  import opened MacTypes
  import opened MacSlot
  import opened MacMachine
  import opened SlotProtocol
  import opened OrdinaryRuns
  import opened Timers

  predicate Resolves(k: nat, ev: seq<Event>) {
    exists e :: e in ev && e.Resolved? && e.slot == k
  }

  /** How many more calls of the tick handler a packet in flight can survive. */
  function Budget(n: Node, now: nat): int {
    if n.flags.sleepy then
      (if n.validityTimer.Due? then n.validityTimer.at - now + 1 else 0)
    else
      (if n.ackTimer.Due? then n.ackTimer.at - now + n.retries + 1 else 0)
  }

  /** The node keeps its packet and spends `spent` of its ticks. */
  predicate Holds(n: Node, n': Node, now: nat, now': nat, spent: nat) {
    && Busy(n') && n'.pending == n.pending && n'.sendCb == n.sendCb
    && Budget(n', now') <= Budget(n, now) - spent
  }

  /** The log settles the packet of slot `k`, or the node keeps it. */
  predicate Served(k: nat, n: Node, n': Node, now: nat, now': nat, spent: nat, ev: seq<Event>) {
    Resolves(k, ev) || Holds(n, n', now, now', spent)
  }

  lemma ServedThen(k: nat, n: Node, m: Node, n': Node, now: nat, now': nat, spent: nat, a: seq<Event>, b: seq<Event>)
    requires Served(k, n, m, now, now, 0, a)
    requires Busy(m) ==> Served(k, m, n', now, now', spent, b)
    ensures Served(k, n, n', now, now', spent, a + b)
  {
    if Resolves(k, a) {
      var e :| e in a && e.Resolved? && e.slot == k;
      assert e in a + b;
    } else if Resolves(k, b) {
      var e :| e in b && e.Resolved? && e.slot == k;
      assert e in a + b;
    }
  }

  lemma ServedUnchanged(k: nat, n: Node, n': Node, now: nat, ev: seq<Event>)
    requires Busy(n) && (n' == n || n' == n.(lastHeard := now))
    ensures Served(k, n, n', now, now, 0, ev)
  {
  }

  // One slot

  lemma FlushServes(k: nat, n: Node, now: nat)
    requires Busy(n) && (n.state == SendPending ==> n.flags.sleepy)
    ensures Served(k, n, Flush(k, n, now).n, now, now, 0, Flush(k, n, now).ev)
  {
    if n.state == SendPending && !n.pending.h.flags.wantsAck {
      assert Flush(k, n, now).ev[1] == Resolved(k, n.sendCb, true);
    }
  }

  lemma DespatchServes(k: nat, n: Node, now: nat, w: Watch)
    requires Busy(n) && Coupled(n, w) && NodeTimely(n, now)
    ensures Budget(n, now) >= 1
    ensures Served(k, n, Despatch(k, n, now).n, now, now + 1, 1, Despatch(k, n, now).ev)
  {
    var a := DespatchAck(k, n, now);
    var v := DespatchValidity(k, a.n, now);
    if Fires(n.ackTimer, now) && n.retries == 0 {
      assert Despatch(k, n, now).ev[0] == Resolved(k, n.sendCb, false);
    } else if Fires(a.n.validityTimer, now) {
      assert v.ev[0] == Resolved(k, n.sendCb, false) && v.ev[0] in Despatch(k, n, now).ev;
    }
  }

  lemma HearNodeServes(s: Mac, k: nat, n: Node, h: Header, ackSent: bool, w: Watch)
    requires Busy(n) && Coupled(n, w)
    ensures var o := HearNode(s, k, n, h, ackSent);
            Served(k, n, o.n, s.tick, s.tick, 0, o.ev)
  {
    var n1 := n.(lastHeard := s.tick);
    var e := if h.flags.wantsAck then [SentMac(AckFrame(s, n1, h.seqno))] else [];
    var a := if !h.flags.wantsAck || !ackSent then NodeOut(n1, []) else Flush(k, n1, s.tick);
    var b := Flush(k, a.n, s.tick);
    ServedUnchanged(k, n, n1, s.tick, e);
    FlushServes(k, n1, s.tick);
    ServedThen(k, n, n1, a.n, s.tick, s.tick, 0, e, a.ev);
    if Busy(a.n) {
      FlushServes(k, a.n, s.tick);
    }
    ServedThen(k, n, a.n, b.n, s.tick, s.tick, 0, e + a.ev, b.ev);
  }

  // One step

  lemma SendToSpares(s: Mac, j: nat, flags: Flags, body: Body, validity: u16, cb: Callback, k: nat)
    requires j <= COORD && k <= COORD && Busy(GetNode(s, k))
    ensures GetNode(SendTo(s, j, flags, body, validity, cb).s, k) == GetNode(s, k)
  {
  }

  lemma HandleServes(s: Mac, from: Option<nat>, f: Frame, k: nat)
    requires from.Some? ==> from.value <= COORD
    requires k <= COORD && Busy(GetNode(s, k)) && OrdinaryControl(s, f)
    ensures var o := Handle(s, from, f);
            Served(k, GetNode(s, k), GetNode(o.s, k), s.tick, s.tick, 0, o.ev)
  {
    var o := Handle(s, from, f);
    if f.body.Ack? && from.Some? && from.value == k && o.ev != [] {
      assert o.ev[0] == Resolved(k, GetNode(s, k).sendCb, true);
    } else {
      if f.body.DeregRequest? && s.params.coordinator {
        var j := Leaving(s.nodes, f.h.src, f.body.uuid);
        if j < MAX_NODES {
          SendToSpares(s, j, PLAIN, RegResponse(f.body.uuid, UNASSIGNED, STATUS_SUCCESS), 0, NoCallback, k);
        }
      } else if f.body.Beacon? {
        SendToSpares(s, COORD, PLAIN, Poll, 0, NoCallback, k);
      }
      assert GetNode(o.s, k) == GetNode(s, k);
      ServedUnchanged(k, GetNode(s, k), GetNode(o.s, k), s.tick, o.ev);
    }
  }

  lemma PreludeServes(s: Mac, f: Frame, ackSent: bool, k: nat, log: seq<Event>)
    requires k <= COORD && Busy(GetNode(s, k)) && AllCoupled(s, log)
    ensures var p := Prelude(s, f, ackSent);
            Served(k, GetNode(s, k), GetNode(p.s, k), s.tick, s.tick, 0, p.ev) && p.s.tick == s.tick
  {
    var n := GetNode(s, k);
    assert Coupled(n, Follow(k, Idle, log));
    var p := Prelude(s, f, ackSent);
    if SourceOf(s, f.h) == Some(k) {
      HearNodeServes(s, k, n, f.h, ackSent, Follow(k, Idle, log));
    } else {
      assert GetNode(p.s, k) == n;
      ServedUnchanged(k, n, n, s.tick, p.ev);
    }
  }

  lemma RecvServes(s: Mac, f: Frame, ackSent: bool, k: nat, log: seq<Event>)
    requires k <= COORD && Busy(GetNode(s, k)) && AllCoupled(s, log) && Ordinary(s, DoReceive(f, ackSent))
    ensures var o := Recv(s, f, ackSent);
            Served(k, GetNode(s, k), GetNode(o.s, k), s.tick, s.tick, 0, o.ev)
  {
    var o := Recv(s, f, ackSent);
    if Admits(s, f.h) && !Stranger(s, f.h) {
      var p := Prelude(s, f, ackSent);
      var h := Handle(p.s, SourceOf(s, f.h), f);
      PreludeServes(s, f, ackSent, k, log);
      if Busy(GetNode(p.s, k)) {
        HandleServes(p.s, SourceOf(s, f.h), f, k);
      }
      ServedThen(k, GetNode(s, k), GetNode(p.s, k), GetNode(h.s, k), s.tick, s.tick, 0, p.ev, h.ev);
    } else {
      assert GetNode(o.s, k) == GetNode(s, k);
      ServedUnchanged(k, GetNode(s, k), GetNode(s, k), s.tick, o.ev);
    }
  }

  lemma {:induction false} PartInJoined(parts: seq<seq<Event>>, i: nat, j: nat, e: Event)
    requires i <= j < |parts| && e in parts[j]
    ensures e in Joined(parts, i)
    decreases j - i
  {
    if i == j {
    } else {
      PartInJoined(parts, i + 1, j, e);
    }
  }

  lemma TickNodesServe(s: Mac, k: nat, log: seq<Event>)
    requires k < MAX_NODES && Busy(s.nodes[k]) && AllCoupled(s, log) && NodeTimely(s.nodes[k], s.tick)
    ensures Served(k, s.nodes[k], TickNodes(s).s.nodes[k], s.tick, s.tick + 1, 1, TickNodes(s).ev)
  {
    assert Coupled(GetNode(s, k), Follow(k, Idle, log));
    DespatchServes(k, s.nodes[k], s.tick, Follow(k, Idle, log));
    var parts := NodeTickEvents(s.nodes, s.tick);
    assert parts[k] == [] + Despatch(k, s.nodes[k], s.tick).ev == Despatch(k, s.nodes[k], s.tick).ev;
    if Resolves(k, parts[k]) {
      var e: Event :| e in parts[k] && e.Resolved? && e.slot == k;
      PartInJoined(parts, 0, k, e);
    }
  }

  lemma CoordinatorTickServes(s: Mac, k: nat, log: seq<Event>)
    requires k < MAX_NODES && Busy(s.nodes[k]) && AllCoupled(s, log) && NodeTimely(s.nodes[k], s.tick)
    ensures Served(k, s.nodes[k], CoordinatorTick(s).s.nodes[k], s.tick, s.tick + 1, 1, CoordinatorTick(s).ev)
  {
    var b := BeaconTick(s);
    BeaconTickSilent(s);
    SilentKeeps(s, b.s, log, b.ev);
    TickNodesServe(b.s, k, log + b.ev);
    ServedUnchanged(k, s.nodes[k], s.nodes[k], s.tick, b.ev);
    ServedThen(k, s.nodes[k], s.nodes[k], TickNodes(b.s).s.nodes[k], s.tick, s.tick + 1, 1, b.ev, TickNodes(b.s).ev);
  }

  lemma ClientTimersEvents(s: Mac, e: Event)
    ensures e in Despatch(COORD, s.coord, s.tick).ev ==> e in ClientTimers(s).ev
  {
    var b := RequestBeacon(s);
    assert b.s.coord == s.coord;
  }

  lemma ClientTickServes(s: Mac, log: seq<Event>)
    requires !s.params.coordinator && Busy(s.coord) && AllCoupled(s, log)
    requires NodeTimely(s.coord, s.tick) && Ordinary(s, DoTick)
    ensures Served(COORD, s.coord, ClientTick(s).s.coord, s.tick, s.tick + 1, 1, ClientTick(s).ev)
  {
    assert Coupled(GetNode(s, COORD), Follow(COORD, Idle, log));
    DespatchServes(COORD, s.coord, s.tick, Follow(COORD, Idle, log));
    var v := ClientTimers(s);
    ClientTimersShape(s);
    if Resolves(COORD, Despatch(COORD, s.coord, s.tick).ev) {
      var e :| e in Despatch(COORD, s.coord, s.tick).ev && e.Resolved? && e.slot == COORD;
      ClientTimersEvents(s, e);
      assert e in v.ev + DespatchRequest(v.s).ev;
    }
  }

  lemma StepTick(s: Mac, i: Input)
    ensures Step(s, i).s.tick == s.tick + if i.DoTick? then 1 else 0
  {
  }

  lemma BusyOwnSlot(s: Mac, k: nat, log: seq<Event>)
    requires k <= COORD && Busy(GetNode(s, k)) && AllCoupled(s, log) && Timely(s)
    ensures OwnSlot(s, k) && NodeTimely(GetNode(s, k), s.tick)
  {
    assert Coupled(GetNode(s, k), Follow(k, Idle, log));
  }

  lemma SendServes(s: Mac, dest: byte, flags: Flags, body: Body, validity: u16, cb: Callback, k: nat)
    requires k <= COORD && Busy(GetNode(s, k))
    ensures var o := Send(s, dest, flags, body, validity, cb);
            Served(k, GetNode(s, k), GetNode(o.s, k), s.tick, s.tick, 0, o.ev) && o.s.tick == s.tick
  {
    var r := Lookup(s, dest);
    var o := Send(s, dest, flags, body, validity, cb);
    if body.Data? && r.Some? {
      SendToSpares(s, r.value, flags, body, SendValidity(GetNode(s, r.value), validity), cb, k);
    }
    ServedUnchanged(k, GetNode(s, k), GetNode(o.s, k), s.tick, o.ev);
  }

  lemma TickServes(s: Mac, k: nat, log: seq<Event>)
    requires k <= COORD && Busy(GetNode(s, k)) && AllCoupled(s, log) && Timely(s) && Ordinary(s, DoTick)
    ensures Served(k, GetNode(s, k), GetNode(Tick(s).s, k), s.tick, s.tick + 1, 1, Tick(s).ev)
  {
    BusyOwnSlot(s, k, log);
    if s.params.coordinator {
      CoordinatorTickServes(s, k, log);
      assert GetNode(Tick(s).s, k) == CoordinatorTick(s).s.nodes[k];
    } else {
      ClientTickServes(s, log);
      assert GetNode(Tick(s).s, k) == ClientTick(s).s.coord;
    }
  }

  /** In an ordinary step a packet in flight is resolved, or kept with its callback while every
      tick spends some of its budget. */
  lemma StepServes(s: Mac, i: Input, k: nat, log: seq<Event>)
    requires k <= COORD && Busy(GetNode(s, k)) && AllCoupled(s, log) && Timely(s) && Ordinary(s, i)
    ensures var o := Step(s, i);
            Served(k, GetNode(s, k), GetNode(o.s, k), s.tick, o.s.tick, if i.DoTick? then 1 else 0, o.ev)
  {
    match i {
      case DoSend(dest, flags, body, validity, cb) =>
        SendServes(s, dest, flags, body, validity, cb, k);
      case DoReceive(f, ackSent) =>
        RecvServes(s, f, ackSent, k, log);
        StepTick(s, i);
      case DoTick =>
        TickServes(s, k, log);
      case DoPermit(permit) =>
        ServedUnchanged(k, GetNode(s, k), GetNode(Step(s, i).s, k), s.tick, []);
    }
  }

  // Whole runs

  function Ticks(ins: seq<Input>): nat {
    if ins == [] then 0 else Ticks(ins[..|ins| - 1]) + if ins[|ins| - 1].DoTick? then 1 else 0
  }

  lemma HoldsThen(n: Node, m: Node, n': Node, t: nat, t': nat, t'': nat, a: nat, b: nat)
    requires Holds(n, m, t, t', a) && Holds(m, n', t', t'', b)
    ensures Holds(n, n', t, t'', a + b)
  {
  }

  lemma ResolvesEarlier(k: nat, a: seq<Event>, b: seq<Event>)
    requires Resolves(k, a) || Resolves(k, b)
    ensures Resolves(k, a + b)
  {
    var e :| (e in a || e in b) && e.Resolved? && e.slot == k;
    assert e in a + b;
  }

  lemma {:induction false} RunServes(s: Mac, ins: seq<Input>, k: nat, log: seq<Event>)
    requires k <= COORD && Busy(GetNode(s, k)) && AllCoupled(s, log) && Timely(s) && OrdinaryRun(s, ins)
    ensures var o := Run(s, ins);
            Served(k, GetNode(s, k), GetNode(o.s, k), s.tick, o.s.tick, Ticks(ins), o.ev)
  {
    if ins == [] {
    } else {
      var init, i := ins[..|ins| - 1], ins[|ins| - 1];
      var a := Run(s, init);
      var b := Step(a.s, i);
      RunServes(s, init, k, log);
      if Resolves(k, a.ev) {
        ResolvesEarlier(k, a.ev, b.ev);
      } else {
        OrdinaryRunCoupled(s, init, log);
        RunTimely(s, init);
        StepServes(a.s, i, k, log + a.ev);
        if Resolves(k, b.ev) {
          ResolvesEarlier(k, a.ev, b.ev);
        } else {
          HoldsThen(GetNode(s, k), GetNode(a.s, k), GetNode(b.s, k), s.tick, a.s.tick, b.s.tick,
                    Ticks(init), if i.DoTick? then 1 else 0);
        }
      }
    }
  }

  /** A packet in flight is resolved before its budget of ticks runs out, whatever else happens. */
  lemma ResolvedInTime(s: Mac, ins: seq<Input>, k: nat, log: seq<Event>)
    requires k <= COORD && Busy(GetNode(s, k)) && AllCoupled(s, log) && Timely(s) && OrdinaryRun(s, ins)
    requires Ticks(ins) >= Budget(GetNode(s, k), s.tick)
    ensures Resolves(k, Run(s, ins).ev)
  {
    RunServes(s, ins, k, log);
    if !Resolves(k, Run(s, ins).ev) {
      var o := Run(s, ins);
      OrdinaryRunCoupled(s, ins, log);
      RunTimely(s, ins);
      BusyOwnSlot(o.s, k, log + o.ev);
      assert Coupled(GetNode(o.s, k), Follow(k, Idle, log + o.ev));
      DespatchServes(k, GetNode(o.s, k), o.s.tick, Follow(k, Idle, log + o.ev));
      assert false;
    }
  }

  /** What the log says first about how the packet of slot `k` ended. */
  datatype Ending = Unsettled | Superseded | Settled(cb: Callback, success: bool)

  function EndingOf(k: nat, ev: seq<Event>): Ending
    decreases |ev|
  {
    if ev == [] then Unsettled
    else if Concerns(k, ev[0]) && ev[0].Resolved? then Settled(ev[0].cb, ev[0].success)
    else if Concerns(k, ev[0]) && ev[0].Accepted? then Superseded
    else EndingOf(k, ev[1..])
  }

  lemma {:induction false} BadForever(k: nat, ev: seq<Event>)
    ensures Follow(k, Bad, ev) == Bad
    decreases |ev|
  {
    if ev == [] {
    } else {
      BadForever(k, ev[1..]);
    }
  }

  lemma {:induction false} OpenSettles(k: nat, w: Watch, ev: seq<Event>)
    requires w.Open? && !Follow(k, w, ev).Bad? && Resolves(k, ev)
    ensures EndingOf(k, ev).Settled? && EndingOf(k, ev).cb == w.cb
    decreases |ev|
  {
    var w1 := Observe(k, w, ev[0]);
    if w1.Bad? {
      BadForever(k, ev[1..]);
      assert false;
    } else if !(Concerns(k, ev[0]) && ev[0].Resolved?) {
      var e :| e in ev && e.Resolved? && e.slot == k;
      assert e in ev[1..];
      OpenSettles(k, w1, ev[1..]);
    }
  }

  /** Ticks within which an accepted packet must be resolved: four timeouts for a node that is
      awake, the validity period for a sleepy one. */
  function Allowance(n: Node, validity: u16): nat {
    if n.flags.sleepy then Seconds(SendValidity(n, validity)) + 1 else MAX_RETRIES + 2
  }

  lemma AcceptedOpens(s: Mac, i: Input, k: nat, f: Frame, cb: Callback)
    requires i.DoSend? && Accepted(k, f, cb) in Step(s, i).ev
    ensures k <= COORD
    ensures var n := GetNode(Step(s, i).s, k);
            && Busy(n) && n.pending == f && n.sendCb == cb && i.cb == cb
            && Budget(n, s.tick) == Allowance(GetNode(s, k), i.validity)
  {
  }

  /** Exactly-once resolution with a deadline.  After a send is accepted, the first thing the log
      says about that slot's traffic is one outcome, given to the callback of that send, within
      the allowed number of ticks; and the whole log is one a stop-and-wait sender may produce. */
  lemma AcceptedSendResolves(s: Mac, i: Input, ins: seq<Input>, k: nat, f: Frame, cb: Callback, log: seq<Event>)
    requires AllCoupled(s, log) && Timely(s)
    requires i.DoSend? && Accepted(k, f, cb) in Step(s, i).ev
    requires OrdinaryRun(Step(s, i).s, ins)
    requires k <= COORD && Ticks(ins) >= Allowance(GetNode(s, k), i.validity)
    ensures var o := Run(Step(s, i).s, ins);
            && EndingOf(k, o.ev).Settled? && EndingOf(k, o.ev).cb == cb
            && !Follow(k, Idle, log + Step(s, i).ev + o.ev).Bad?
  {
    var a := Step(s, i);
    var o := Run(a.s, ins);
    var l := log + a.ev;
    AcceptedOpens(s, i, k, f, cb);
    StepCoupledIff(s, i, log);
    StepTimely(s, i);
    StepTick(s, i);
    ResolvedInTime(a.s, ins, k, l);
    OrdinaryRunCoupled(a.s, ins, l);
    assert Coupled(GetNode(o.s, k), Follow(k, Idle, l + o.ev));
    assert Coupled(GetNode(a.s, k), Follow(k, Idle, l));
    FollowConcat(k, Idle, l, o.ev);
    OpenSettles(k, Follow(k, Idle, l), o.ev);
  }

  // What a log that is not Bad looks like between an acceptance and its outcome

  function Attempts(k: nat, ev: seq<Event>): nat
    decreases |ev|
  {
    if ev == [] then 0 else (if Concerns(k, ev[0]) && ev[0].Sent? then 1 else 0) + Attempts(k, ev[1..])
  }

  predicate Unresolved(k: nat, ev: seq<Event>) {
    forall e :: e in ev && Concerns(k, e) ==> !e.Resolved?
  }

  /** While a packet is in flight nothing goes out on its slot but that packet, unchanged, at most
      four times in all; in particular no other packet is accepted. */
  lemma {:induction false} OneFlight(k: nat, w: Watch, ev: seq<Event>)
    requires w.Open? && w.attempts <= MAX_RETRIES + 1 && !Follow(k, w, ev).Bad? && Unresolved(k, ev)
    ensures forall e :: e in ev && Concerns(k, e) ==> e == Sent(k, w.frame)
    ensures Follow(k, w, ev) == w.(attempts := w.attempts + Attempts(k, ev))
    ensures w.attempts + Attempts(k, ev) <= MAX_RETRIES + 1
    decreases |ev|
  {
    if ev == [] {
    } else {
      var w1 := Observe(k, w, ev[0]);
      assert ev[0] in ev;
      if w1.Bad? {
        BadForever(k, ev[1..]);
        assert false;
      }
      OneFlight(k, w1, ev[1..]);
    }
  }

  lemma BusyCarries(n: Node, w: Watch)
    requires Coupled(n, w) && Busy(n)
    ensures w.Open? && w.frame == n.pending && w.cb == n.sendCb && w.attempts <= MAX_RETRIES + 1
  {
  }

  lemma OpenCarried(n: Node, w: Watch)
    requires Coupled(n, w) && w.Open?
    ensures Busy(n) && n.pending == w.frame && n.sendCb == w.cb
  {
  }

  /** Frame stability and single flight, in every ordinary run: as long as the packet of a busy slot
      has no outcome, its frame and callback stay as they are, the slot emits nothing but copies of
      that frame, and with those already in the log there are never more than four. */
  lemma FlightIsStable(s: Mac, ins: seq<Input>, k: nat, log: seq<Event>)
    requires AllCoupled(s, log) && k <= COORD && Busy(GetNode(s, k))
    requires OrdinaryRun(s, ins) && Unresolved(k, Run(s, ins).ev)
    ensures var o := Run(s, ins);
            var n, n' := GetNode(s, k), GetNode(o.s, k);
            && Busy(n') && n'.pending == n.pending && n'.sendCb == n.sendCb
            && (forall e :: e in o.ev && Concerns(k, e) ==> e == Sent(k, n.pending))
    ensures Follow(k, Idle, log).Open? && Follow(k, Idle, log).attempts + Attempts(k, Run(s, ins).ev) <= MAX_RETRIES + 1
  {
    var ev := Run(s, ins).ev;
    var w := Follow(k, Idle, log);
    OrdinaryRunCoupled(s, ins, log);
    assert Coupled(GetNode(s, k), w);
    BusyCarries(GetNode(s, k), w);
    assert Coupled(GetNode(Run(s, ins).s, k), Follow(k, Idle, log + ev));
    FollowConcat(k, Idle, log, ev);
    OneFlight(k, w, ev);
    OpenCarried(GetNode(Run(s, ins).s, k), Follow(k, w, ev));
  }
}
