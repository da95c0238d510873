/** How long an MQTT-SN request can stay unanswered. */
module MqttsnTiming {
  import opened Words
  import opened MqttsnMachine
  import MqttsnRuns

  /** The packet, if any, changes nothing. */
  predicate Ignored(cfg: Config, c: Client, p: seq<byte>) {
    Inbound(cfg, c, p).c == c
  }

  function Last(ins: seq<Input>, t0: nat): nat {
    if ins == [] then t0 else ins[|ins| - 1].now
  }

  /** Handler calls from `t0` on, at most a second apart, none of which brings an answer. */
  predicate Unanswered(cfg: Config, c: Client, ins: seq<Input>, t0: nat)
    decreases |ins|
  {
    ins == [] ||
    (var before, i := ins[..|ins| - 1], ins[|ins| - 1];
     && Unanswered(cfg, c, before, t0)
     && i.DoHandle? && Last(before, t0) <= i.now <= Last(before, t0) + 1
     && Ignored(cfg, Timers(Run(cfg, c, before).c, i.now).c, i.packet))
  }

  /** What the retry timer has sent. */
  function Resends(ev: seq<Event>): seq<seq<byte>>
    decreases |ev|
  {
    if ev == [] then [] else (if ev[0].Resent? then [ev[0].bytes] else []) + Resends(ev[1..])
  }

  lemma {:induction false} ResendsConcat(a: seq<Event>, b: seq<Event>)
    ensures Resends(a + b) == Resends(a) + Resends(b)
    decreases |a|
  {
    if a == [] {
      assert a + b == b;
    } else {
      assert (a + b)[1..] == a[1..] + b;
      ResendsConcat(a[1..], b);
    }
  }

  function Copies(b: seq<byte>, n: nat): seq<seq<byte>> { seq(n, _ => b) }

  /** After `n` periods of the retry timer: a repeat for each, and at the fourth the client gives up. */
  predicate Periods(c0: Client, t0: nat, c: Client, ev: seq<Event>, n: nat) {
    if n <= N_RETRY then
      && c.state == c0.state && c.message == c0.message
      && c.nRetries == N_RETRY - n && c.tRetry == t0 + T_RETRY * n + T_RETRY
      && Resends(ev) == Copies(Whole(c0.message), n)
    else
      c.state == Disconnected && c.tRetry == 0 && Resends(ev) == Copies(Whole(c0.message), N_RETRY)
  }

  /** A call seen from outside: what it does to the client, and what it repeats. */
  predicate Quiet(t: Out, h: Out) { h.c == t.c && Resends(h.ev) == Resends(t.ev) }

  lemma QuietInbound(cfg: Config, c: Client, p: seq<byte>)
    ensures Resends(Inbound(cfg, c, p).ev) == []
  {
    var ev := Inbound(cfg, c, p).ev;
    if |ev| == 2 {
      assert Resends(ev[1..]) == [] by { assert ev[1..][1..] == []; }
    } else if |ev| == 1 {
      assert ev[1..] == [];
    }
  }

  /** A call that brings no answer does no more than the timers. */
  lemma QuietHandle(cfg: Config, c: Client, p: seq<byte>, now: nat)
    requires Ignored(cfg, Timers(c, now).c, p) && Timers(c, now).c.state != Registering
    ensures Quiet(Timers(c, now), Handle(cfg, c, p, now))
  {
    var t := Timers(c, now);
    var i := Inbound(cfg, t.c, p);
    QuietInbound(cfg, t.c, p);
    ResendsConcat(t.ev + i.ev, []);
    ResendsConcat(t.ev, i.ev);
  }

  lemma RetryPeriods(c0: Client, t0: nat, c: Client, ev: seq<Event>, n: nat)
    requires Waiting(c0.state) && Periods(c0, t0, c, ev, n)
    ensures n <= N_RETRY ==>
              var o := Timers(c, t0 + T_RETRY * n + T_RETRY); Periods(c0, t0, o.c, ev + o.ev, n + 1)
  {
    if n <= N_RETRY {
      ResendsConcat(ev, Timers(c, t0 + T_RETRY * n + T_RETRY).ev);
    }
  }

  lemma IdlePeriods(c0: Client, t0: nat, c: Client, ev: seq<Event>, n: nat, now: nat)
    requires Waiting(c0.state) && Periods(c0, t0, c, ev, n) && (n <= N_RETRY ==> now < t0 + T_RETRY * n + T_RETRY)
    ensures Timers(c, now) == Out(c, [])
  {
  }

  /** Whole periods in a span of time. */
  predicate Spans(n: nat, age: nat) { T_RETRY * n <= age < T_RETRY * n + T_RETRY }

  /** At time `next` the count of periods is `m`; it was `n` at the last call. */
  predicate Moves(n: nat, next: nat, m: nat) {
    if m == n then next < T_RETRY * n + T_RETRY else m == n + 1 && next == T_RETRY * n + T_RETRY
  }

  lemma TimersOverdue(c0: Client, t0: nat, c: Client, ev: seq<Event>, n: nat, next: nat, m: nat)
    requires Waiting(c0.state) && Periods(c0, t0, c, ev, n)
    requires Moves(n, next, m)
    ensures var o := Timers(c, t0 + next); Periods(c0, t0, o.c, ev + o.ev, m)
  {
    assert ev + [] == ev;
    if n > N_RETRY || m == n {
      IdlePeriods(c0, t0, c, ev, n, t0 + next);
    } else {
      RetryPeriods(c0, t0, c, ev, n);
    }
  }

  lemma SameResends(c0: Client, t0: nat, a: Out, t: Out, h: Out, n: nat)
    requires Periods(c0, t0, t.c, a.ev + t.ev, n) && h.c == t.c && Resends(h.ev) == Resends(t.ev)
    ensures Periods(c0, t0, h.c, a.ev + h.ev, n)
  {
    ResendsConcat(a.ev, t.ev);
    ResendsConcat(a.ev, h.ev);
  }

  predicate Overdue(c0: Client, t0: nat, o: Out, n: nat) {
    Periods(c0, t0, o.c, o.ev, n)
  }

  lemma NotRegistering(c0: Client, t0: nat, a: Out, n: nat, next: nat, m: nat)
    requires Waiting(c0.state) && Overdue(c0, t0, a, n) && Moves(n, next, m)
    ensures Timers(a.c, t0 + next).c.state != Registering
  {
    TimersOverdue(c0, t0, a.c, a.ev, n, next, m);
  }

  lemma QuietOverdue(c0: Client, t0: nat, a: Out, h: Out, n: nat, next: nat, m: nat)
    requires Waiting(c0.state) && Overdue(c0, t0, a, n) && Moves(n, next, m)
    requires Quiet(Timers(a.c, t0 + next), h)
    ensures Overdue(c0, t0, Out(h.c, a.ev + h.ev), m)
  {
    TimersOverdue(c0, t0, a.c, a.ev, n, next, m);
    SameResends(c0, t0, a, Timers(a.c, t0 + next), h, m);
  }

  lemma CallOverdue(cfg: Config, c0: Client, t0: nat, a: Out, p: seq<byte>, n: nat, next: nat, m: nat)
    requires Waiting(c0.state) && Overdue(c0, t0, a, n) && Moves(n, next, m)
    requires Ignored(cfg, Timers(a.c, t0 + next).c, p)
    ensures var h := Handle(cfg, a.c, p, t0 + next); Overdue(c0, t0, Out(h.c, a.ev + h.ev), m)
  {
    NotRegistering(c0, t0, a, n, next, m);
    QuietHandle(cfg, a.c, p, t0 + next);
    QuietOverdue(c0, t0, a, Handle(cfg, a.c, p, t0 + next), n, next, m);
  }

  lemma RunHandle(cfg: Config, c: Client, ins: seq<Input>)
    requires ins != [] && ins[|ins| - 1].DoHandle?
    ensures var a, i := Run(cfg, c, ins[..|ins| - 1]), ins[|ins| - 1];
            var h := Handle(cfg, a.c, i.packet, i.now);
            Run(cfg, c, ins) == Out(h.c, a.ev + h.ev)
  {
  }

  lemma LastCall(cfg: Config, c0: Client, ins: seq<Input>, t0: nat, n: nat, m: nat)
    requires Waiting(c0.state) && ins != [] && ins[|ins| - 1].DoHandle? && ins[|ins| - 1].now >= t0
    requires Ignored(cfg, Timers(Run(cfg, c0, ins[..|ins| - 1]).c, ins[|ins| - 1].now).c, ins[|ins| - 1].packet)
    requires Overdue(c0, t0, Run(cfg, c0, ins[..|ins| - 1]), n) && Moves(n, ins[|ins| - 1].now - t0, m)
    ensures Overdue(c0, t0, Run(cfg, c0, ins), m)
  {
    var a, i := Run(cfg, c0, ins[..|ins| - 1]), ins[|ins| - 1];
    CallOverdue(cfg, c0, t0, a, i.packet, n, i.now - t0, m);
    RunHandle(cfg, c0, ins);
  }

  lemma {:induction false} TimeMoves(cfg: Config, c: Client, ins: seq<Input>, t0: nat)
    requires Unanswered(cfg, c, ins, t0)
    ensures Last(ins, t0) >= t0
    decreases |ins|
  {
    if ins == [] {
    } else {
      TimeMoves(cfg, c, ins[..|ins| - 1], t0);
    }
  }

  /** An unanswered request is repeated exactly three times, five, ten and fifteen seconds after it
      was first sent, and the client is disconnected exactly when twenty seconds have passed. */
  lemma {:induction false} GivesUpAfterTwenty(cfg: Config, c0: Client, ins: seq<Input>, t0: nat, n: nat)
    requires Waiting(c0.state) && c0.nRetries == N_RETRY && c0.tRetry == t0 + T_RETRY
    requires Unanswered(cfg, c0, ins, t0) && Last(ins, t0) >= t0 && Spans(n, Last(ins, t0) - t0)
    ensures Overdue(c0, t0, Run(cfg, c0, ins), n)
    decreases |ins|
  {
    if ins == [] {
    } else {
      var before := ins[..|ins| - 1];
      TimeMoves(cfg, c0, before, t0);
      var m := if Spans(n, Last(before, t0) - t0) then n else n - 1;
      GivesUpAfterTwenty(cfg, c0, before, t0, m);
      LastCall(cfg, c0, ins, t0, m, n);
    }
  }

  /** Every request starts the clock in just that way. */
  lemma RequestStartsClock(cfg: Config, c: Client, i: Input)
    requires c.state != Registering && (c.tRetry != 0 <==> Waiting(c.state))
    requires i.DoConnect? || i.DoDisconnect? || i.DoPublish?
    ensures var o := Step(cfg, c, i);
            o.c != c && Waiting(o.c.state) ==> o.c.nRetries == N_RETRY && o.c.tRetry == i.now + T_RETRY
  {
  }

  /** So does every request of a registration pass. */
  lemma PassStartsClock(cfg: Config, c: Client, now: nat)
    requires c.state == Registering && c.count < |cfg.topics|
    ensures var d := RegisterNext(cfg, c, now).c;
            d.state == Busy && d.nRetries == N_RETRY && d.tRetry == now + T_RETRY
  {
  }

  // Keep-alive

  predicate Sends(ev: seq<Event>) {
    exists e :: e in ev && (e.Sent? || e.Resent?)
  }

  /** When the last call that sent anything was made; before the first one, so long ago that a ping
      would be due at once. */
  function LastSend(cfg: Config, ins: seq<Input>): int
    decreases |ins|
  {
    if ins == [] then -KEEP_ALIVE
    else
      var before, i := ins[..|ins| - 1], ins[|ins| - 1];
      if Sends(Step(cfg, Run(cfg, Init(), before).c, i).ev) then i.now else LastSend(cfg, before)
  }

  /** A part of a call moves the ping clock exactly when it sends. */
  predicate Clocked(c: Client, o: Out, now: nat) {
    o.c.nextPing == if Sends(o.ev) then now + KEEP_ALIVE else c.nextPing
  }

  lemma ClockedThen(c: Client, o: Out, p: Out, now: nat)
    requires Clocked(c, o, now) && Clocked(o.c, p, now)
    ensures Clocked(c, Out(p.c, o.ev + p.ev), now)
  {
    if Sends(p.ev) {
      var e :| e in p.ev && (e.Sent? || e.Resent?);
      assert e in o.ev + p.ev;
    } else if Sends(o.ev) {
      var e :| e in o.ev && (e.Sent? || e.Resent?);
      assert e in o.ev + p.ev;
    }
  }

  lemma OneSend(ev: seq<Event>)
    requires |ev| == 1 && (ev[0].Sent? || ev[0].Resent?)
    ensures Sends(ev)
  {
    assert ev[0] in ev;
  }

  lemma TimersClocked(c: Client, now: nat)
    ensures Clocked(c, Timers(c, now), now)
  {
    var r := Retry(c, now);
    var k := KeepAlive(r.c, now);
    if r.ev != [] {
      OneSend(r.ev);
    }
    if k.ev != [] {
      OneSend(k.ev);
    }
    ClockedThen(c, r, k, now);
  }

  lemma InboundClocked(cfg: Config, c: Client, p: seq<byte>, now: nat)
    ensures Clocked(c, Inbound(cfg, c, p), now)
  {
  }

  lemma RegisterNextClocked(cfg: Config, c: Client, now: nat)
    ensures Clocked(c, RegisterNext(cfg, c, now), now)
  {
    var o := RegisterNext(cfg, c, now);
    if c.state == Registering && c.count < |cfg.topics| {
      OneSend(o.ev);
    }
  }

  lemma HandleClocked(cfg: Config, c: Client, p: seq<byte>, now: nat)
    ensures Clocked(c, Handle(cfg, c, p, now), now)
  {
    var t := Timers(c, now);
    var i := Inbound(cfg, t.c, p);
    TimersClocked(c, now);
    InboundClocked(cfg, t.c, p, now);
    ClockedThen(c, t, i, now);
    RegisterNextClocked(cfg, i.c, now);
    ClockedThen(c, Out(i.c, t.ev + i.ev), RegisterNext(cfg, i.c, now), now);
  }

  lemma StepClocked(cfg: Config, c: Client, i: Input)
    ensures Clocked(c, Step(cfg, c, i), i.now)
  {
    match i {
      case DoHandle(p, now) => HandleClocked(cfg, c, p, now);
      case _ =>
        var ev := Step(cfg, c, i).ev;
        if ev != [] {
          OneSend(ev);
        }
    }
  }

  lemma {:induction false} PingClock(cfg: Config, ins: seq<Input>)
    ensures Run(cfg, Init(), ins).c.nextPing == LastSend(cfg, ins) + KEEP_ALIVE
    decreases |ins|
  {
    if ins == [] {
    } else {
      PingClock(cfg, ins[..|ins| - 1]);
      StepClocked(cfg, Run(cfg, Init(), ins[..|ins| - 1]).c, ins[|ins| - 1]);
    }
  }

  /** In every run, a handler call that finds the client connected ends less than the keep-alive
      period after something was last sent. */
  lemma NeverSilent(cfg: Config, ins: seq<Input>, p: seq<byte>, now: nat)
    requires Run(cfg, Init(), ins).c.state == Connected
    ensures now < LastSend(cfg, ins + [DoHandle(p, now)]) + KEEP_ALIVE
  {
    var c := Run(cfg, Init(), ins).c;
    MqttsnRuns.WaitingIffArmed(cfg, ins);
    var all := ins + [DoHandle(p, now)];
    assert all[..|all| - 1] == ins;
    PingClock(cfg, all);
    RunHandle(cfg, Init(), all);
    var t := Timers(c, now);
    assert t.c.nextPing > now;
    InboundClocked(cfg, t.c, p, now);
    RegisterNextClocked(cfg, Inbound(cfg, t.c, p).c, now);
  }
}
