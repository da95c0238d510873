/** What the MQTT-SN client puts on the wire and what it makes of what comes in, byte by byte, in every run. */
module MqttsnTraffic {
  import opened Words
  import opened MqttsnMachine
  import opened MqttsnRuns
  import MqttsnTiming

  // Publishing

  predicate IsPublish(e: Event) { e.Sent? && |e.bytes| >= 2 && e.bytes[1] == 0x0C }

  /** A 16-bit number, high byte first. */
  function Number(hi: byte, lo: byte): nat { 0x100 * (hi as nat) + lo as nat }

  function MessageId(b: seq<byte>): nat
    requires |b| >= 7
  {
    Number(b[5], b[6])
  }

  /** How many PUBLISH messages the log holds; repeats do not count. */
  function Publishes(log: seq<Event>): nat
    decreases |log|
  {
    if log == [] then 0 else Publishes(log[..|log| - 1]) + if IsPublish(log[|log| - 1]) then 1 else 0
  }

  /** The message id of the next PUBLISH after this log. */
  function NextId(log: seq<Event>): u16 { (Publishes(log) + 1) % 0x1_0000 }

  /** The message carries the number of PUBLISHes in the log that ends with it. */
  predicate Tallies(b: seq<byte>, log: seq<Event>) {
    |b| >= 7 && MessageId(b) == Publishes(log) % 0x1_0000
  }

  predicate InOrder(log: seq<Event>) {
    forall j :: 0 <= j < |log| && IsPublish(log[j]) ==> Tallies(log[j].bytes, log[..j + 1])
  }

  /** The message ids of the PUBLISHes are their numbers, and `nextId` is the last of them. */
  predicate Numbered(nextId: u16, log: seq<Event>) {
    nextId == Publishes(log) % 0x1_0000 && InOrder(log)
  }

  /** The piece of work publishes nothing. */
  predicate Reticent(c: Client, o: Out) {
    o.c.nextId == c.nextId && forall e :: e in o.ev ==> !IsPublish(e)
  }

  lemma ReticentThen(c: Client, o: Out, p: Out)
    requires Reticent(c, o) && Reticent(o.c, p)
    ensures Reticent(c, Out(p.c, o.ev + p.ev))
  {
  }

  lemma {:induction false} NoMorePublishes(a: seq<Event>, b: seq<Event>)
    requires forall e :: e in b ==> !IsPublish(e)
    ensures Publishes(a + b) == Publishes(a)
    decreases |b|
  {
    if b == [] {
      assert a + b == a;
    } else {
      var n := |b| - 1;
      assert (a + b)[..|a + b| - 1] == a + b[..n];
      assert b[n] in b;
      NoMorePublishes(a, b[..n]);
    }
  }

  lemma StillInOrder(a: seq<Event>, b: seq<Event>)
    requires InOrder(a) && forall e :: e in b ==> !IsPublish(e)
    ensures InOrder(a + b)
  {
    var all := a + b;
    forall j | 0 <= j < |all| && IsPublish(all[j]) ensures Tallies(all[j].bytes, all[..j + 1]) {
      if j < |a| {
        assert all[..j + 1] == a[..j + 1];
      }
    }
  }

  lemma ReticentNumbered(c: Client, o: Out, log: seq<Event>)
    requires Numbered(c.nextId, log) && Reticent(c, o)
    ensures Numbered(o.c.nextId, log + o.ev)
  {
    NoMorePublishes(log, o.ev);
    StillInOrder(log, o.ev);
  }

  lemma RegisterNextReticent(cfg: Config, c: Client, now: nat)
    ensures Reticent(c, RegisterNext(cfg, c, now))
  {
    if c.state == Registering && c.count < |cfg.topics| {
      var t := cfg.topics[c.count];
      if t.subscribe {
        SubscribeBytes(c, c.count, t.name, t.qos, now);
      } else {
        RegisterBytes(c, c.count, t.name, now);
      }
    }
  }

  lemma HandleReticent(cfg: Config, c: Client, p: seq<byte>, now: nat)
    ensures Reticent(c, Handle(cfg, c, p, now))
  {
    var t := Timers(c, now);
    var i := Inbound(cfg, t.c, p);
    assert Reticent(c, t);
    assert Reticent(t.c, i);
    ReticentThen(c, t, i);
    RegisterNextReticent(cfg, i.c, now);
    ReticentThen(c, Out(i.c, t.ev + i.ev), RegisterNext(cfg, i.c, now));
  }

  /** The bytes of a PUBLISH. */
  function PublishBytes(topicId: u16, qos: bool, id: u16, data: seq<byte>): seq<byte>
    requires |data| <= 57
  {
    [7 + |data|, 0x0C, if qos then 0x20 else 0, topicId / 256, topicId % 256, id / 256, id % 256] + data
  }

  lemma PublishMessage(m: Message, topicId: u16, qos: bool, id: u16, data: seq<byte>)
    requires |data| <= 57
    ensures var n := Overwrite(m, 2, [if qos then QOS_1 else 0] + Be(topicId) + Be(id) + data);
            [7 + |data|, PUBLISH] + n[2..7 + |data|] == PublishBytes(topicId, qos, id, data)
  {
    var fixed := [if qos then QOS_1 else 0] + Be(topicId) + Be(id) + data;
    var n := Overwrite(m, 2, fixed);
    assert n[2..7 + |data|] == fixed;
  }

  /** A publish by a connected client sends just this, and waits if an ack is to come. */
  lemma PublishIs(c: Client, topic: topicIndex, qos: bool, data: seq<byte>, now: nat)
    ensures var o := Publish(c, topic, qos, data, now);
            if c.state == Connected && |data| <= 57 then
              var id := (c.nextId + 1) % 0x1_0000;
              && o.ev == [Sent(PublishBytes(c.topicIds[topic], qos, id, data))]
              && o.c.nextId == id && o.c.state == (if qos then Busy else Connected)
            else o == Out(c, [])
  {
    if CanPublish(c, data) {
      var id := (c.nextId + 1) % 0x1_0000;
      var b := (if qos then ToState(c, Busy) else c).(nextId := id);
      var m := Overwrite(b.message, 2, [if qos then QOS_1 else 0] + Be(c.topicIds[topic]) + Be(id) + data);
      SentBytes(b.(message := m), PUBLISH, 7 + |data|, qos, now);
      PublishMessage(b.message, c.topicIds[topic], qos, id, data);
    }
  }

  lemma PublishId(topicId: u16, qos: bool, id: u16, data: seq<byte>)
    requires |data| <= 57
    ensures var b := PublishBytes(topicId, qos, id, data); IsPublish(Sent(b)) && |b| >= 7 && MessageId(b) == id
  {
  }

  lemma NextTally(log: seq<Event>, e: Event)
    requires IsPublish(e)
    ensures Publishes(log + [e]) == Publishes(log) + 1
  {
    assert (log + [e])[..|log + [e]| - 1] == log;
  }

  lemma NextInOrder(log: seq<Event>, e: Event)
    requires InOrder(log) && IsPublish(e) && Tallies(e.bytes, log + [e])
    ensures InOrder(log + [e])
  {
    var all := log + [e];
    forall j | 0 <= j < |all| && IsPublish(all[j]) ensures Tallies(all[j].bytes, all[..j + 1]) {
      if j < |log| {
        assert all[..j + 1] == log[..j + 1];
      } else {
        assert all[..j + 1] == all;
      }
    }
  }

  lemma NextIdIs(id: u16, log: seq<Event>)
    requires Numbered(id, log)
    ensures (id + 1) % 0x1_0000 == NextId(log)
  {
  }

  lemma OneMorePublish(log: seq<Event>, e: Event)
    requires InOrder(log) && IsPublish(e) && |e.bytes| >= 7 && MessageId(e.bytes) == NextId(log)
    ensures Numbered(NextId(log), log + [e])
  {
    NextTally(log, e);
    NextInOrder(log, e);
  }

  lemma PublishNumbered(c: Client, topic: topicIndex, qos: bool, data: seq<byte>, now: nat, log: seq<Event>)
    requires Numbered(c.nextId, log)
    ensures var o := Publish(c, topic, qos, data, now); Numbered(o.c.nextId, log + o.ev)
  {
    var o := Publish(c, topic, qos, data, now);
    PublishIs(c, topic, qos, data, now);
    if CanPublish(c, data) {
      var id := (c.nextId + 1) % 0x1_0000;
      PublishId(c.topicIds[topic], qos, id, data);
      NextIdIs(c.nextId, log);
      OneMorePublish(log, o.ev[0]);
    } else {
      assert log + o.ev == log;
    }
  }

  lemma StepNumbered(cfg: Config, c: Client, i: Input, log: seq<Event>)
    requires Numbered(c.nextId, log)
    ensures Numbered(Step(cfg, c, i).c.nextId, log + Step(cfg, c, i).ev)
  {
    match i {
      case DoHandle(p, now) =>
        HandleReticent(cfg, c, p, now);
        ReticentNumbered(c, Step(cfg, c, i), log);
      case DoPublish(topic, qos, data, now) =>
        PublishNumbered(c, topic, qos, data, now, log);
      case _ =>
        assert Reticent(c, Step(cfg, c, i));
        ReticentNumbered(c, Step(cfg, c, i), log);
    }
  }

  /** In every run the n-th PUBLISH carries message id n, modulo 2^16. */
  lemma {:induction false} PublishesNumbered(cfg: Config, ins: seq<Input>)
    ensures var o := Run(cfg, Init(), ins); Numbered(o.c.nextId, o.ev)
    decreases |ins|
  {
    if ins == [] {
    } else {
      var a := Run(cfg, Init(), ins[..|ins| - 1]);
      PublishesNumbered(cfg, ins[..|ins| - 1]);
      StepNumbered(cfg, a.c, ins[|ins| - 1], a.ev);
    }
  }

  /** The call sends one PUBLISH if the client is connected and the data fits, and nothing otherwise. */
  predicate PublishesAs(c: Client, o: Out, topicId: u16, qos: bool, id: u16, data: seq<byte>) {
    if c.state == Connected && |data| <= 57 then
      o.ev == [Sent(PublishBytes(topicId, qos, id, data))] && o.c.state == if qos then Busy else Connected
    else o == Out(c, [])
  }

  lemma PublishAs(c: Client, topic: topicIndex, qos: bool, data: seq<byte>, now: nat, topicId: u16, id: u16)
    requires topicId == c.topicIds[topic] && id == (c.nextId + 1) % 0x1_0000
    ensures PublishesAs(c, Publish(c, topic, qos, data, now), topicId, qos, id, data)
  {
    PublishIs(c, topic, qos, data, now);
  }

  /** The id under which a topic is published: that of the latest accepted reply for it, and 0 if there is
      none. */
  function TopicId(cfg: Config, k: nat, log: seq<Event>): u16 {
    if k < |cfg.topics| then LatestId(cfg, k, log) else 0
  }

  lemma RunIds(cfg: Config, ins: seq<Input>, topic: topicIndex)
    ensures var a := Run(cfg, Init(), ins);
            a.c.topicIds[topic] == TopicId(cfg, topic, a.ev) && (a.c.nextId + 1) % 0x1_0000 == NextId(a.ev)
  {
    TopicIdIsLatest(cfg, ins, topic);
    PublishesNumbered(cfg, ins);
    NextIdIs(Run(cfg, Init(), ins).c.nextId, Run(cfg, Init(), ins).ev);
  }

  /** In every run, a publish by a connected client of data that fits sends one message: under the id of the
      latest accepted reply for the topic, numbered one more than the publishes so far, with the data whole.
      Any other publish does nothing. */
  lemma PublishSends(cfg: Config, ins: seq<Input>, topic: topicIndex, qos: bool, data: seq<byte>, now: nat)
    ensures var a := Run(cfg, Init(), ins);
            PublishesAs(a.c, Publish(a.c, topic, qos, data, now), TopicId(cfg, topic, a.ev), qos, NextId(a.ev), data)
  {
    var a := Run(cfg, Init(), ins);
    RunIds(cfg, ins, topic);
    PublishAs(a.c, topic, qos, data, now, TopicId(cfg, topic, a.ev), NextId(a.ev));
  }

  // Connecting and disconnecting

  /** A connect by a client that is disconnected sends its name and the keep-alive period, for a clean
      session. */
  lemma ConnectSends(cfg: Config, c: Client, now: nat)
    ensures var o := Connect(cfg, c, now);
            if c.state == Disconnected then
              o.ev == [Sent([6 + |cfg.id|, 0x04, 0, 1, 0, 10] + cfg.id)] && o.c.state == Connecting
            else o == Out(c, [])
  {
    if c.state == Disconnected {
      var pad := seq(MAX_PACKET - 6 - |cfg.id|, _ => 0);
      var m: Message := c.message[..2] + [0, 1] + Be(KEEP_ALIVE) + cfg.id + pad;
      assert m[2..6 + |cfg.id|] == [0, 1, 0, 10] + cfg.id;
      SentBytes(ToState(c.(message := m), Connecting), CONNECT, 6 + |cfg.id|, true, now);
      assert [6 + |cfg.id|, 0x04] + ([0, 1, 0, 10] + cfg.id) == [6 + |cfg.id|, 0x04, 0, 1, 0, 10] + cfg.id;
    }
  }

  /** A disconnect sends the time a sleeping client will be away, if any. */
  lemma DisconnectSends(c: Client, duration: u16, now: nat)
    ensures var o := Disconnect(c, duration, now);
            if c.state != Disconnected then
              && o.ev == [Sent(if duration == 0 then [2, 0x18] else [4, 0x18, duration / 256, duration % 256])]
              && o.c.state == Disconnecting
            else o == Out(c, [])
  {
    if c.state != Disconnected {
      var d := ToState(c, Disconnecting);
      var m := Overwrite(d.message, 2, Be(duration));
      if duration == 0 {
        var n: Message := m[0 := 2][1 := DISCONNECT];
        assert n[..2] == [2, 0x18];
      } else {
        assert m[2..4] == Be(duration);
        SentBytes(d.(message := m), DISCONNECT, 4, true, now);
        assert [4, 0x18] + Be(duration) == [4, 0x18, duration / 256, duration % 256];
      }
    }
  }

  // Timers

  /** The request has been repeated as often as it may be, and it is time to do so again. */
  predicate GivesUp(c: Client, now: nat) { c.tRetry != 0 && now >= c.tRetry && c.nRetries == 0 }

  predicate Armed(c: Client) { c.tRetry != 0 <==> Waiting(c.state) }

  /** What the timers leave of a client that does not give up. */
  predicate Alike(c: Client, t: Client) {
    && t.state == c.state && t.topicIds == c.topicIds && t.count == c.count && t.registered == c.registered
    && (c.state != Connected ==> t.message == c.message)
  }

  predicate FromTimers(e: Event) { e.Sent? || e.Resent? }

  lemma TimersAre(c: Client, now: nat)
    requires Armed(c)
    ensures var t := Timers(c, now);
            && (forall e :: e in t.ev ==> FromTimers(e))
            && if GivesUp(c, now) then t.c.state == Disconnected && t.ev == [] && t.c.topicIds == c.topicIds else Alike(c, t.c)
  {
  }

  /** A client in a pass asks for the next topic, or is registered when there is none. */
  lemma RegisterNextIs(cfg: Config, c: Client, now: nat)
    ensures var o := RegisterNext(cfg, c, now);
            if c.state != Registering then o == Out(c, [])
            else if c.count < |cfg.topics| then
              o.c.state == Busy && |o.ev| == 1 && o.ev[0].Sent? && Asks(cfg, c.count, o.ev[0].bytes)
            else o.c.state == Connected && o.c.registered && o.ev == [AllRegistered]
  {
    if c.state == Registering && c.count < |cfg.topics| {
      var t := cfg.topics[c.count];
      if t.subscribe {
        SubscribeBytes(c, c.count, t.name, t.qos, now);
      } else {
        RegisterBytes(c, c.count, t.name, now);
      }
    }
  }

  lemma NoPing(cfg: Config, c: Client, now: nat)
    ensures Sent([2, 0x16]) !in RegisterNext(cfg, c, now).ev
  {
    RegisterNextIs(cfg, c, now);
    var ev := RegisterNext(cfg, c, now).ev;
    if c.state == Registering && c.count < |cfg.topics| {
      AskedId(cfg, c.count, ev[0].bytes);
    }
  }

  lemma TimersPing(c: Client, now: nat)
    requires Armed(c)
    ensures var t := Timers(c, now);
            if c.state == Connected && now >= c.nextPing then t.ev == [Sent([2, 0x16])] else Sent([2, 0x16]) !in t.ev
  {
    if c.state == Connected && now >= c.nextPing {
      var m: Message := c.message[0 := 2][1 := PINGREQ];
      assert m[..2] == [2, 0x16];
    }
  }

  /** A PINGREQ comes first, and only there, if it is due. */
  predicate PingsIf(ev: seq<Event>, due: bool) {
    if due then ev != [] && ev[0] == Sent([2, 0x16]) && forall j :: 0 < j < |ev| ==> ev[j] != Sent([2, 0x16])
    else Sent([2, 0x16]) !in ev
  }

  lemma PingsThen(a: seq<Event>, b: seq<Event>, due: bool)
    requires (if due then a == [Sent([2, 0x16])] else Sent([2, 0x16]) !in a) && Sent([2, 0x16]) !in b
    ensures PingsIf(a + b, due)
  {
  }

  lemma InboundSendsNothing(cfg: Config, c: Client, p: seq<byte>)
    ensures forall e :: e in Inbound(cfg, c, p).ev ==> !e.Sent?
  {
  }

  lemma HandlePings(cfg: Config, c: Client, p: seq<byte>, now: nat)
    requires Armed(c)
    ensures PingsIf(Handle(cfg, c, p, now).ev, c.state == Connected && now >= c.nextPing)
  {
    var t := Timers(c, now);
    var i := Inbound(cfg, t.c, p);
    var n := RegisterNext(cfg, i.c, now);
    TimersPing(c, now);
    InboundSendsNothing(cfg, t.c, p);
    NoPing(cfg, i.c, now);
    PingsThen(t.ev, i.ev + n.ev, c.state == Connected && now >= c.nextPing);
    assert t.ev + i.ev + n.ev == t.ev + (i.ev + n.ev);
  }

  /** In every run, a handler call to a connected client sends a PINGREQ before anything else if nothing has
      been sent for ten seconds, and otherwise no call does. */
  lemma PingSentIff(cfg: Config, ins: seq<Input>, p: seq<byte>, now: nat)
    ensures var a := Run(cfg, Init(), ins);
            PingsIf(Handle(cfg, a.c, p, now).ev, a.c.state == Connected && now >= MqttsnTiming.LastSend(cfg, ins) + 10)
  {
    WaitingIffArmed(cfg, ins);
    MqttsnTiming.PingClock(cfg, ins);
    HandlePings(cfg, Run(cfg, Init(), ins).c, p, now);
  }

  // Replies

  predicate WellFormed(p: seq<byte>) { |p| >= 2 && p[0] <= |p| }

  /** The packet answers what the client waits for: any CONNACK; the REGACK or SUBACK with the number of the
      topic asked for; a PUBACK with the two bytes that the buffer has in the place of a message id. A
      DISCONNECT is always acted on. */
  predicate Acts(cfg: Config, c: Client, pass: Pass, p: seq<byte>) {
    WellFormed(p) &&
    if p[1] == 0x05 then |p| >= 3 && c.state == Connecting
    else if p[1] == 0x0B || p[1] == 0x13 then
      c.state == Busy && Awaiting(pass) && pass.k < |cfg.topics| && Answers(cfg, pass.k, p)
    else if p[1] == 0x0D then |p| >= 7 && c.state == Busy && p[4] == c.message[5] && p[5] == c.message[6]
    else p[1] == 0x18
  }

  /** Where the client goes then: on with the pass, which ends connected, or out of it. */
  function Goes(cfg: Config, c: Client, pass: Pass, p: seq<byte>): State
    requires Acts(cfg, c, pass, p)
  {
    if p[1] == 0x05 then
      if p[2] != 0 then Disconnected else if c.registered || cfg.topics == [] then Connected else Busy
    else if p[1] == 0x0B || p[1] == 0x13 then
      if pass.k + 1 < |cfg.topics| then Busy else Connected
    else if p[1] == 0x0D then Connected
    else Disconnected
  }

  /** What a pass waits for is the last message sent. */
  predicate Pending(cfg: Config, v: View) {
    Awaiting(v.pass) ==> v.pass.k < |cfg.topics| && Asks(cfg, v.pass.k, v.last)
  }

  lemma {:induction false} StaysPending(cfg: Config, v: View, ev: seq<Event>)
    requires Pending(cfg, v)
    ensures Pending(cfg, Follow(cfg, v, ev))
    decreases |ev|
  {
    if ev == [] {
    } else {
      assert Pending(cfg, Observe(cfg, v, ev[0]));
      StaysPending(cfg, Observe(cfg, v, ev[0]), ev[1..]);
    }
  }

  lemma TwoBytes(p: seq<byte>, q: seq<byte>, i: nat, j: nat)
    requires i + 2 <= |p| && j + 2 <= |q|
    ensures p[i..i + 2] == q[j..j + 2] <==> p[i] == q[j] && p[i + 1] == q[j + 1]
  {
    assert p[i..i + 2] == [p[i], p[i + 1]] && q[j..j + 2] == [q[j], q[j + 1]];
  }

  /** In a pass the buffer holds the request that is awaited, and otherwise none is. */
  lemma BufferedRequest(cfg: Config, c: Client, v: View)
    requires Coupled(cfg, c, v) && Pending(cfg, v) && c.state == Busy
    ensures if c.message[1] == PUBLISH then !Awaiting(v.pass)
            else 1 <= c.count <= |cfg.topics| && v.pass == At(c.count - 1, true)
  {
    MarkedId(c.message, v.last);
    if c.message[1] != PUBLISH {
      RequestId(cfg, c, v);
    } else if Awaiting(v.pass) {
      AskedId(cfg, v.pass.k, v.last);
    }
  }

  lemma RegackIff(cfg: Config, c: Client, v: View, p: seq<byte>)
    requires Coupled(cfg, c, v) && Pending(cfg, v) && c.state == Busy && WellFormed(p) && p[1] == REGACK
    ensures var o := Inbound(cfg, c, p);
            if Acts(cfg, c, v.pass, p) then o.c.state == Registering && o.c.count == v.pass.k + 1 && o.ev == [Consumed(p)]
            else o == Out(c, [])
  {
    BufferedRequest(cfg, c, v);
    if c.message[1] != PUBLISH {
      RequestId(cfg, c, v);
    }
  }

  lemma SubackIff(cfg: Config, c: Client, v: View, p: seq<byte>)
    requires Coupled(cfg, c, v) && Pending(cfg, v) && c.state == Busy && WellFormed(p) && p[1] == SUBACK
    ensures var o := Inbound(cfg, c, p);
            if Acts(cfg, c, v.pass, p) then o.c.state == Registering && o.c.count == v.pass.k + 1 && o.ev == [Consumed(p)]
            else o == Out(c, [])
  {
    BufferedRequest(cfg, c, v);
    if c.message[1] != PUBLISH {
      RequestId(cfg, c, v);
    }
  }

  /** The state in which an inbound packet leaves the client, before it goes on with a pass. */
  lemma InboundIs(cfg: Config, c: Client, v: View, p: seq<byte>)
    requires Coupled(cfg, c, v) && Pending(cfg, v) && c.state != Registering
    ensures var o := Inbound(cfg, c, p);
            && (Consumed(p) in o.ev <==> Acts(cfg, c, v.pass, p))
            && if !Acts(cfg, c, v.pass, p) then o.c == c
               else if p[1] == 0x05 && p[2] == 0 then
                 o.c.count == 0 && o.c.registered == c.registered && o.c.state == if c.registered then Connected else Registering
               else if p[1] == 0x0B || p[1] == 0x13 then o.c.state == Registering && o.c.count == v.pass.k + 1
               else o.c.state == Goes(cfg, c, v.pass, p)
  {
    if WellFormed(p) {
      if p[1] == REGACK && c.state == Busy {
        RegackIff(cfg, c, v, p);
      } else if p[1] == SUBACK && c.state == Busy {
        SubackIff(cfg, c, v, p);
      } else if p[1] == PUBACK && |p| >= 7 {
        TwoBytes(p, c.message, 4, 5);
      }
    }
  }

  lemma NothingConsumed(cfg: Config, c: Client, now: nat, p: seq<byte>)
    ensures Consumed(p) !in RegisterNext(cfg, c, now).ev
  {
    RegisterNextIs(cfg, c, now);
  }

  /** Whatever the timers leave, the packet is acted on as `Acts` says and takes the client where `Goes`
      says. */
  lemma HandleMoves(cfg: Config, c: Client, v: View, p: seq<byte>, now: nat)
    requires Coupled(cfg, c, v) && Pending(cfg, v) && c.state != Registering
    ensures var t := Timers(c, now);
            var u := Follow(cfg, v, t.ev);
            var o := Handle(cfg, c, p, now);
            && (Consumed(p) in o.ev <==> Acts(cfg, t.c, u.pass, p))
            && o.c.state == if Acts(cfg, t.c, u.pass, p) then Goes(cfg, t.c, u.pass, p) else t.c.state
  {
    var t := Timers(c, now);
    var u := Follow(cfg, v, t.ev);
    TimersFollow(cfg, c, v, now);
    StaysPending(cfg, v, t.ev);
    TimersAre(c, now);
    InboundIs(cfg, t.c, u, p);
    var i := Inbound(cfg, t.c, p);
    RegisterNextIs(cfg, i.c, now);
    NothingConsumed(cfg, i.c, now, p);
    assert forall e :: e in t.ev ==> FromTimers(e);
  }

  /** While they only repeat a request the timers change nothing that matters to a reply. */
  lemma SamePass(cfg: Config, c: Client, v: View, now: nat)
    requires Armed(c) && c.state != Connected
    ensures var u := Follow(cfg, v, Timers(c, now).ev); u.pass == v.pass && u.last == v.last
  {
    var ev := Timers(c, now).ev;
    if ev != [] {
      assert |ev| == 1 && ev[0].Resent?;
      FollowOne(cfg, v, ev[0]);
    }
  }

  lemma ActsAlike(cfg: Config, c: Client, v: View, p: seq<byte>, now: nat)
    requires Armed(c)
    ensures var t := Timers(c, now).c;
            var pass := Follow(cfg, v, Timers(c, now).ev).pass;
            if GivesUp(c, now) then Acts(cfg, t, pass, p) <==> WellFormed(p) && p[1] == 0x18
            else
              && (Acts(cfg, t, pass, p) <==> Acts(cfg, c, v.pass, p))
              && (Acts(cfg, c, v.pass, p) ==> Goes(cfg, t, pass, p) == Goes(cfg, c, v.pass, p))
  {
    TimersAre(c, now);
    if c.state != Connected {
      SamePass(cfg, c, v, now);
    }
  }

  /** In every run, a handler call that finds the request unanswered for too long ends disconnected.
      Otherwise the packet is acted on if and only if it answers what the client waits for, takes the client
      on in its pass or out of it, and leaves it where it was if not. */
  lemma ReplyMoves(cfg: Config, ins: seq<Input>, p: seq<byte>, now: nat)
    ensures var a := Run(cfg, Init(), ins);
            var pass := Follow(cfg, START, a.ev).pass;
            var o := Handle(cfg, a.c, p, now);
            if GivesUp(a.c, now) then o.c.state == Disconnected
            else
              && (Consumed(p) in o.ev <==> Acts(cfg, a.c, pass, p))
              && o.c.state == if Acts(cfg, a.c, pass, p) then Goes(cfg, a.c, pass, p) else a.c.state
  {
    var a := Run(cfg, Init(), ins);
    var v := Follow(cfg, START, a.ev);
    RunFollows(cfg, ins);
    StaysPending(cfg, START, a.ev);
    HandleMoves(cfg, a.c, v, p, now);
    TimersAre(a.c, now);
    ActsAlike(cfg, a.c, v, p, now);
  }

  // Acknowledged publishes

  lemma InOrderBefore(log: seq<Event>)
    requires InOrder(log) && log != []
    ensures InOrder(log[..|log| - 1])
    ensures IsPublish(log[|log| - 1]) ==> Tallies(log[|log| - 1].bytes, log)
  {
    var n := |log| - 1;
    var before := log[..n];
    forall j | 0 <= j < n && IsPublish(before[j]) ensures Tallies(before[j].bytes, before[..j + 1]) {
      assert before[..j + 1] == log[..j + 1];
    }
    if IsPublish(log[n]) {
      assert log[..n + 1] == log;
    }
  }

  lemma {:induction false} LastPublish(cfg: Config, log: seq<Event>)
    requires InOrder(log)
    ensures var b := Follow(cfg, START, log).last; |b| >= 2 && b[1] == 0x0C ==> Tallies(b, log)
    decreases |log|
  {
    if log == [] {
    } else {
      FollowSnoc(cfg, START, log);
      InOrderBefore(log);
      LastPublish(cfg, log[..|log| - 1]);
    }
  }

  lemma BufferedId(c: Client, v: View)
    requires Holds(c, v) && |v.last| >= 7
    ensures c.message[1] == v.last[1] && c.message[5] == v.last[5] && c.message[6] == v.last[6]
  {
    assert Whole(c.message)[1] == Marked(v.last)[1] && Whole(c.message)[5] == Marked(v.last)[5];
    assert Whole(c.message)[6] == Marked(v.last)[6];
  }

  /** The last message sent is a PUBLISH that waits for its ack. */
  predicate AwaitsPuback(cfg: Config, a: Out) {
    var b := Follow(cfg, START, a.ev).last;
    a.c.state == Busy && |b| >= 2 && b[1] == 0x0C
  }

  /** In every run, a client that waits for a PUBACK waits for the one with the number of publishes so far. */
  lemma AwaitedId(cfg: Config, ins: seq<Input>)
    requires AwaitsPuback(cfg, Run(cfg, Init(), ins))
    ensures var a := Run(cfg, Init(), ins); Number(a.c.message[5], a.c.message[6]) == Publishes(a.ev) % 0x1_0000
  {
    var a := Run(cfg, Init(), ins);
    PublishesNumbered(cfg, ins);
    LastPublish(cfg, a.ev);
    RunFollows(cfg, ins);
    BufferedId(a.c, Follow(cfg, START, a.ev));
  }

  /** The log ends with a report of this packet, and holds no other, if there is one to make. */
  predicate ReportsIf(ev: seq<Event>, due: bool, p: seq<byte>)
    requires due ==> |p| >= 7
  {
    if due then
      && ev != [] && ev[|ev| - 1] == PubAcked(FromBe(p[5], p[4]), p[6] == 0)
      && forall j :: 0 <= j < |ev| - 1 ==> !ev[j].PubAcked?
    else forall e :: e in ev ==> !e.PubAcked?
  }

  lemma ReportsThen(a: seq<Event>, b: seq<Event>, due: bool, p: seq<byte>)
    requires (due ==> |p| >= 7) && (forall e :: e in a ==> !e.PubAcked?) && ReportsIf(b, due, p)
    ensures ReportsIf(a + b, due, p)
  {
  }

  predicate IsAck(cfg: Config, c: Client, pass: Pass, p: seq<byte>) {
    |p| >= 7 && p[1] == 0x0D && Acts(cfg, c, pass, p)
  }

  lemma InboundReports(cfg: Config, c: Client, pass: Pass, p: seq<byte>, now: nat)
    requires c.state != Registering
    ensures var i := Inbound(cfg, c, p);
            ReportsIf(i.ev + RegisterNext(cfg, i.c, now).ev, IsAck(cfg, c, pass, p), p)
  {
    if WellFormed(p) && p[1] == PUBACK && |p| >= 7 {
      TwoBytes(p, c.message, 4, 5);
    }
    var i := Inbound(cfg, c, p);
    RegisterNextIs(cfg, i.c, now);
    if IsAck(cfg, c, pass, p) {
      assert i.ev + RegisterNext(cfg, i.c, now).ev == [Consumed(p), PubAcked(FromBe(p[5], p[4]), p[6] == 0)];
    }
  }

  lemma HandleReports(cfg: Config, c: Client, v: View, p: seq<byte>, now: nat)
    requires Armed(c) && c.state != Registering && !GivesUp(c, now)
    ensures ReportsIf(Handle(cfg, c, p, now).ev, IsAck(cfg, c, v.pass, p), p)
  {
    var t := Timers(c, now);
    var i := Inbound(cfg, t.c, p);
    var n := RegisterNext(cfg, i.c, now);
    TimersAre(c, now);
    ActsAlike(cfg, c, v, p, now);
    InboundReports(cfg, t.c, Follow(cfg, v, t.ev).pass, p, now);
    assert forall e :: e in t.ev ==> FromTimers(e);
    ReportsThen(t.ev, i.ev + n.ev, IsAck(cfg, c, v.pass, p), p);
    assert t.ev + i.ev + n.ev == t.ev + (i.ev + n.ev);
  }

  /** A PUBACK that carries the number of publishes in the log. */
  predicate Acknowledges(p: seq<byte>, log: seq<Event>) {
    WellFormed(p) && |p| >= 7 && p[1] == 0x0D && Number(p[4], p[5]) == Publishes(log) % 0x1_0000
  }

  lemma SameNumber(p: seq<byte>, hi: byte, lo: byte)
    requires |p| >= 7
    ensures Number(p[4], p[5]) == Number(hi, lo) <==> p[4] == hi && p[5] == lo
  {
  }

  lemma AcknowledgesIff(cfg: Config, ins: seq<Input>, p: seq<byte>)
    requires AwaitsPuback(cfg, Run(cfg, Init(), ins))
    ensures var a := Run(cfg, Init(), ins);
            IsAck(cfg, a.c, Follow(cfg, START, a.ev).pass, p) <==> Acknowledges(p, a.ev)
  {
    var a := Run(cfg, Init(), ins);
    AwaitedId(cfg, ins);
    if |p| >= 7 {
      SameNumber(p, a.c.message[5], a.c.message[6]);
    }
  }

  lemma LeavesBusy(cfg: Config, ins: seq<Input>, p: seq<byte>)
    requires AwaitsPuback(cfg, Run(cfg, Init(), ins))
    ensures var a := Run(cfg, Init(), ins);
            var pass := Follow(cfg, START, a.ev).pass;
            Acts(cfg, a.c, pass, p) ==> p[1] == 0x0D || p[1] == 0x18
  {
    var a := Run(cfg, Init(), ins);
    RunFollows(cfg, ins);
    StaysPending(cfg, START, a.ev);
    var v := Follow(cfg, START, a.ev);
    MarkedId(a.c.message, v.last);
    BufferedRequest(cfg, a.c, v);
  }

  /** In every run, a client that waits for a PUBACK reports its publish acknowledged, and is connected
      again, if and only if a PUBACK comes that carries the number of publishes so far; the report says
      whether it was accepted. */
  lemma PubackReports(cfg: Config, ins: seq<Input>, p: seq<byte>, now: nat)
    requires var a := Run(cfg, Init(), ins); AwaitsPuback(cfg, a) && !GivesUp(a.c, now)
    ensures var a := Run(cfg, Init(), ins);
            var o := Handle(cfg, a.c, p, now);
            ReportsIf(o.ev, Acknowledges(p, a.ev), p) && (o.c.state == Connected <==> Acknowledges(p, a.ev))
  {
    var a := Run(cfg, Init(), ins);
    RunFollows(cfg, ins);
    AcknowledgesIff(cfg, ins, p);
    LeavesBusy(cfg, ins, p);
    HandleReports(cfg, a.c, Follow(cfg, START, a.ev), p, now);
    ReplyMoves(cfg, ins, p, now);
  }

  // Inbound publishes

  /** The first subscription whose latest granted id is this one. */
  predicate Subscribes(cfg: Config, log: seq<Event>, id: nat, k: nat) {
    && k < |cfg.topics| && cfg.topics[k].subscribe && LatestId(cfg, k, log) == id
    && forall j :: 0 <= j < k ==> !(cfg.topics[j].subscribe && LatestId(cfg, j, log) == id)
  }

  /** A PUBLISH: length, kind, flags, two bytes of topic id and two of message id, and then the data. */
  predicate Brings(p: seq<byte>) { WellFormed(p) && |p| >= 7 && p[1] == 0x0C }

  predicate PublishedIf(ev: seq<Event>, due: bool, k: nat, p: seq<byte>)
    requires due ==> |p| >= 7
  {
    if due then
      && ev != [] && ev[|ev| - 1] == Published(k, p[7..])
      && forall j :: 0 <= j < |ev| - 1 ==> !ev[j].Published?
    else forall e :: e in ev ==> !e.Published?
  }

  lemma PublishedThen(a: seq<Event>, b: seq<Event>, due: bool, k: nat, p: seq<byte>)
    requires (due ==> |p| >= 7) && (forall e :: e in a ==> !e.Published?) && PublishedIf(b, due, k, p)
    ensures PublishedIf(a + b, due, k, p)
  {
  }

  function Found(cfg: Config, c: Client, p: seq<byte>): nat {
    if Brings(p) then FirstSubscription(cfg, c.topicIds, FromBe(p[3], p[4]), 0) else MAX_TOPICS
  }

  lemma InboundPublished(cfg: Config, c: Client, p: seq<byte>, now: nat)
    requires c.state != Registering
    ensures var i := Inbound(cfg, c, p);
            PublishedIf(i.ev + RegisterNext(cfg, i.c, now).ev, Found(cfg, c, p) < MAX_TOPICS, Found(cfg, c, p), p)
  {
    var i := Inbound(cfg, c, p);
    RegisterNextIs(cfg, i.c, now);
    if Found(cfg, c, p) < MAX_TOPICS {
      assert i.ev + RegisterNext(cfg, i.c, now).ev == [Published(Found(cfg, c, p), p[7..])];
    }
  }

  lemma HandlePublished(cfg: Config, c: Client, p: seq<byte>, now: nat)
    requires Armed(c) && c.state != Registering
    ensures PublishedIf(Handle(cfg, c, p, now).ev, Found(cfg, c, p) < MAX_TOPICS, Found(cfg, c, p), p)
  {
    var t := Timers(c, now);
    var i := Inbound(cfg, t.c, p);
    var n := RegisterNext(cfg, i.c, now);
    TimersAre(c, now);
    InboundPublished(cfg, t.c, p, now);
    assert forall e :: e in t.ev ==> FromTimers(e);
    PublishedThen(t.ev, i.ev + n.ev, Found(cfg, c, p) < MAX_TOPICS, Found(cfg, c, p), p);
    assert t.ev + i.ev + n.ev == t.ev + (i.ev + n.ev);
  }

  lemma FirstIsSubscribed(cfg: Config, ins: seq<Input>, id: u16)
    ensures var a := Run(cfg, Init(), ins);
            var k := FirstSubscription(cfg, a.c.topicIds, id, 0);
            if k < MAX_TOPICS then Subscribes(cfg, a.ev, id, k)
            else forall j :: 0 <= j < |cfg.topics| ==> !Subscribes(cfg, a.ev, id, j)
  {
    var a := Run(cfg, Init(), ins);
    forall j | 0 <= j < |cfg.topics| ensures a.c.topicIds[j] == LatestId(cfg, j, a.ev) {
      TopicIdIsLatest(cfg, ins, j);
    }
  }

  /** In every run, a handler call passes data to the application if and only if the packet is a PUBLISH
      with the id that a subscription was last granted: all bytes from the eighth on, to the first such
      subscription, once. */
  lemma PublishedIff(cfg: Config, ins: seq<Input>, p: seq<byte>, now: nat) returns (k: nat)
    ensures var a := Run(cfg, Init(), ins);
            var due := Brings(p) && k < |cfg.topics|;
            && PublishedIf(Handle(cfg, a.c, p, now).ev, due, k, p)
            && (due ==> Subscribes(cfg, a.ev, Number(p[3], p[4]), k))
            && (Brings(p) && !due ==> forall j :: 0 <= j < |cfg.topics| ==> !Subscribes(cfg, a.ev, Number(p[3], p[4]), j))
  {
    var a := Run(cfg, Init(), ins);
    WaitingIffArmed(cfg, ins);
    HandlePublished(cfg, a.c, p, now);
    k := Found(cfg, a.c, p);
    if Brings(p) {
      FirstIsSubscribed(cfg, ins, FromBe(p[3], p[4]));
    }
  }
}
