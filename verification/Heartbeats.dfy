/** The heartbeat test over whole runs: when it agrees with the time that has really passed. */
module Heartbeats {
  import opened Words
  import opened MacTypes
  import opened MacSlot
  import opened MacMachine
  import opened Timers
  import opened Deadlines

  /** The node was heard in this call, or its heartbeat clock is as it was. */
  predicate Refreshed(n: Node, n': Node, now: nat) {
    n'.lastHeard == now || (n'.lastHeard == n.lastHeard && n'.flags == n.flags)
  }

  predicate AllRefreshed(s: Mac, s': Mac) {
    forall k :: 0 <= k < MAX_NODES ==> Refreshed(s.nodes[k], s'.nodes[k], s.tick)
  }

  lemma RefreshedThen(s: Mac, s': Mac, s'': Mac)
    requires AllRefreshed(s, s') && AllRefreshed(s', s'') && s'.tick == s.tick
    ensures AllRefreshed(s, s'')
  {
  }

  lemma TickNodeRefreshed(k: nat, n: Node, now: nat)
    ensures Refreshed(n, TickNode(k, n, now).n, now)
  {
    var h := Heartbeat(k, n, now);
    var a := DespatchAck(k, h.n, now);
    assert a.n.lastHeard == n.lastHeard && a.n.flags == n.flags;
  }

  lemma HandleRefreshes(s: Mac, from: Option<nat>, f: Frame)
    requires from.Some? ==> from.value <= COORD
    ensures AllRefreshed(s, Handle(s, from, f).s)
  {
    match f.body {
      case RegRequest(uuid, attach) =>
      case DeregRequest(uuid, _) =>
        var k := Leaving(s.nodes, f.h.src, uuid);
        if k < MAX_NODES {
          assert AllRefreshed(s, SendTo(s, k, PLAIN, RegResponse(uuid, UNASSIGNED, STATUS_SUCCESS), 0, NoCallback).s);
        }
      case _ =>
    }
  }

  lemma RecvRefreshes(s: Mac, f: Frame, ackSent: bool)
    ensures AllRefreshed(s, Recv(s, f, ackSent).s)
  {
    if Admits(s, f.h) && !Stranger(s, f.h) {
      var p := Prelude(s, f, ackSent).s;
      assert AllRefreshed(s, p);
      HandleRefreshes(p, SourceOf(s, f.h), f);
      RefreshedThen(s, p, Handle(p, SourceOf(s, f.h), f).s);
    }
  }

  lemma TickRefreshes(s: Mac)
    ensures AllRefreshed(s, Tick(s).s)
  {
    if s.params.coordinator {
      var b := BeaconTick(s).s;
      forall k | 0 <= k < MAX_NODES ensures Refreshed(s.nodes[k], Tick(s).s.nodes[k], s.tick) {
        TickNodeRefreshed(k, b.nodes[k], b.tick);
      }
    }
  }

  lemma StepRefreshes(s: Mac, i: Input)
    ensures AllRefreshed(s, Step(s, i).s)
  {
    match i {
      case DoSend(dest, flags, body, validity, cb) =>
      case DoReceive(f, ackSent) => RecvRefreshes(s, f, ackSent);
      case DoTick => TickRefreshes(s);
      case DoPermit(permit) =>
    }
  }

  /** The call is a tick that looks at slot `k`. */
  predicate Looks(s: Mac, i: Input, k: nat)
    requires k < MAX_NODES
  {
    i.DoTick? && s.params.coordinator && s.nodes[k].state == Registered
  }

  /** The last tick count at which slot `k` was looked at and kept, or 0. */
  function Vouched(s: Mac, ins: seq<Input>, k: nat): nat
    requires k < MAX_NODES
    decreases |ins|
  {
    if ins == [] then 0
    else
      var before, i := ins[..|ins| - 1], ins[|ins| - 1];
      var t := Run(s, before).s;
      if Looks(t, i, k) && !HeartbeatExpired(t.nodes[k], t.tick) then t.tick else Vouched(s, before, k)
  }

  /** Slot `k` was heard, or looked at and kept, within the last 2^31 ticks. */
  predicate Recent(s: Mac, ins: seq<Input>, k: nat)
    requires k < MAX_NODES
  {
    var t := Run(s, ins).s;
    t.tick <= t.nodes[k].lastHeard + TWO_31 || t.tick <= Vouched(s, ins, k) + TWO_31
  }

  /** So it was whenever it was looked at. */
  predicate Watched(s: Mac, ins: seq<Input>, k: nat)
    requires k < MAX_NODES
    decreases |ins|
  {
    ins == [] ||
    (var before, i := ins[..|ins| - 1], ins[|ins| - 1];
     Watched(s, before, k) && (Looks(Run(s, before).s, i, k) ==> Recent(s, before, k)))
  }

  /** The test says what the time that has really passed says. */
  predicate Exact(n: Node, now: nat) {
    n.lastHeard <= now && (HeartbeatExpired(n, now) <==> now - n.lastHeard >= HeartbeatTicks(n))
  }

  /** A slot that was looked at and kept was in time then, unless it has been heard since. */
  predicate InTime(n: Node, vouched: nat, now: nat) {
    && n.lastHeard <= now && vouched <= now
    && (n.lastHeard <= vouched ==> vouched - n.lastHeard < HeartbeatTicks(n))
  }

  lemma SomeTicks(n: Node)
    ensures HeartbeatTicks(n) >= 8
  {
  }

  lemma RecentExact(n: Node, vouched: nat, now: nat)
    requires InTime(n, vouched, now) && (now <= n.lastHeard + TWO_31 || now <= vouched + TWO_31)
    ensures Exact(n, now)
  {
    HeartbeatTestIff(n, now);
    HeartbeatTicksBound(n);
    var elapsed := now - n.lastHeard;
    if elapsed >= HeartbeatTicks(n) {
      assert 0 <= elapsed - HeartbeatTicks(n) <= TWO_31;
    }
  }

  lemma StaysInTime(n: Node, n': Node, vouched: nat, now: nat, now': nat)
    requires InTime(n, vouched, now) && Refreshed(n, n', now) && now <= now'
    ensures InTime(n', vouched, now')
  {
    SomeTicks(n');
  }

  lemma VouchedInTime(n: Node, n': Node, now: nat)
    requires Exact(n, now) && !HeartbeatExpired(n, now) && Refreshed(n, n', now)
    ensures InTime(n', now, now + 1)
  {
    SomeTicks(n');
  }

  lemma {:induction false} RunInTime(params: Params, mtu: nat, net: byte, dseq: byte, bseq: byte, ins: seq<Input>, k: nat)
    requires k < MAX_NODES && Watched(Init(params, mtu, net, dseq, bseq), ins, k)
    ensures var s := Init(params, mtu, net, dseq, bseq);
            InTime(Run(s, ins).s.nodes[k], Vouched(s, ins, k), Run(s, ins).s.tick)
    decreases |ins|
  {
    var s := Init(params, mtu, net, dseq, bseq);
    if ins == [] {
      SomeTicks(s.nodes[k]);
    } else {
      var before, i := ins[..|ins| - 1], ins[|ins| - 1];
      var t := Run(s, before).s;
      RunInTime(params, mtu, net, dseq, bseq, before, k);
      StepRefreshes(t, i);
      StepTick(t, i);
      assert Refreshed(t.nodes[k], Step(t, i).s.nodes[k], t.tick);
      if Looks(t, i, k) && !HeartbeatExpired(t.nodes[k], t.tick) {
        RecentExact(t.nodes[k], Vouched(s, before, k), t.tick);
        VouchedInTime(t.nodes[k], Step(t, i).s.nodes[k], t.tick);
      } else {
        StaysInTime(t.nodes[k], Step(t, i).s.nodes[k], Vouched(s, before, k), t.tick, Step(t, i).s.tick);
      }
    }
  }

  /** In every run from switching on in which the slot was heard, or looked at and kept, within 2^31
      ticks before each look, the heartbeat test agrees with the unbounded elapsed time. */
  lemma HeartbeatExact(params: Params, mtu: nat, net: byte, dseq: byte, bseq: byte, ins: seq<Input>, k: nat)
    requires k < MAX_NODES
    requires var s := Init(params, mtu, net, dseq, bseq); Watched(s, ins, k) && Recent(s, ins, k)
    ensures var t := Run(Init(params, mtu, net, dseq, bseq), ins).s; Exact(t.nodes[k], t.tick)
  {
    var s := Init(params, mtu, net, dseq, bseq);
    var t := Run(s, ins).s;
    RunInTime(params, mtu, net, dseq, bseq, ins, k);
    RecentExact(t.nodes[k], Vouched(s, ins, k), t.tick);
  }

  /** Nothing is heard in the future, in any run. */
  lemma {:induction false} HeardInThePast(params: Params, mtu: nat, net: byte, dseq: byte, bseq: byte, ins: seq<Input>, k: nat)
    requires k < MAX_NODES
    ensures var t := Run(Init(params, mtu, net, dseq, bseq), ins).s; t.nodes[k].lastHeard <= t.tick
    decreases |ins|
  {
    if ins == [] {
    } else {
      var t := Run(Init(params, mtu, net, dseq, bseq), ins[..|ins| - 1]).s;
      HeardInThePast(params, mtu, net, dseq, bseq, ins[..|ins| - 1], k);
      StepRefreshes(t, ins[|ins| - 1]);
      StepTick(t, ins[|ins| - 1]);
      assert Refreshed(t.nodes[k], Step(t, ins[|ins| - 1]).s.nodes[k], t.tick);
    }
  }

  /** The time overdue, if any, lies in the first half of a wrap of the counter. */
  predicate FirstHalf(n: Node, now: nat) {
    var overdue := now - n.lastHeard - HeartbeatTicks(n);
    overdue >= 0 ==> overdue % TWO_32 <= TWO_31
  }

  lemma ExactIff(n: Node, now: nat)
    requires n.lastHeard <= now
    ensures Exact(n, now) <==> FirstHalf(n, now)
  {
    HeartbeatTestIff(n, now);
  }

  /** In any run at all, the test is exact if and only if the time overdue lies in the first half of a
      wrap of the counter. */
  lemma HeartbeatExactIff(params: Params, mtu: nat, net: byte, dseq: byte, bseq: byte, ins: seq<Input>, k: nat)
    requires k < MAX_NODES
    ensures var t := Run(Init(params, mtu, net, dseq, bseq), ins).s;
            Exact(t.nodes[k], t.tick) <==> FirstHalf(t.nodes[k], t.tick)
  {
    var t := Run(Init(params, mtu, net, dseq, bseq), ins).s;
    HeardInThePast(params, mtu, net, dseq, bseq, ins, k);
    ExactIff(t.nodes[k], t.tick);
  }
}
