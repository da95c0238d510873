/** What every run of the MQTT-SN client keeps: an observer that reads only the traffic, and the
    proof that the client is always where the observer says. */
module MqttsnRuns {
  import opened Words
  import opened MqttsnMachine

  /** A registration pass, as the traffic shows it: topics below `k` have been asked for and
      answered since the last accepted CONNACK, and `waiting` says whether `k` has been asked for. */
  datatype Pass = NoPass | At(k: nat, waiting: bool)

  /** The last message sent, how often it was repeated, the pass, the topic ids granted, and whether
      a PUBACK has cut short a pass since the last accepted CONNACK.  `ok` is lost for good when the
      traffic is not that of a correct client. */
  datatype View = View(last: seq<byte>, resends: nat, pass: Pass, ids: TopicIds, cut: bool, ok: bool)

  const START := View([], 0, NoPass, NO_IDS, false, true)

  function RegisterRequest(k: u16, name: topicName): seq<byte> {
    [6 + |name|, REGISTER, 0, 0] + Be(k) + name
  }

  /** A SUBSCRIBE is sent with its terminator and one more byte. */
  function SubscribeRequest(k: u16, name: topicName, qos: bool, extra: byte): seq<byte> {
    [7 + |name|, SUBSCRIBE, if qos then QOS_1 else 0] + Be(k) + name + [0, extra]
  }

  /** The request that registers or subscribes to topic `k`. */
  predicate Asks(cfg: Config, k: nat, b: seq<byte>)
    requires k < |cfg.topics|
  {
    var t := cfg.topics[k];
    if t.subscribe then |b| > 0 && b == SubscribeRequest(k, t.name, t.qos, b[|b| - 1])
    else b == RegisterRequest(k, t.name)
  }

  lemma AskedId(cfg: Config, k: nat, b: seq<byte>)
    requires k < |cfg.topics| && Asks(cfg, k, b)
    ensures |b| >= 6
    ensures cfg.topics[k].subscribe ==> b[1] == SUBSCRIBE && b[3..5] == Be(k)
    ensures !cfg.topics[k].subscribe ==> b[1] == REGISTER && b[4..6] == Be(k)
  {
  }

  predicate Answers(cfg: Config, k: nat, p: seq<byte>)
    requires k < |cfg.topics|
  {
    if cfg.topics[k].subscribe then |p| >= 8 && p[1] == SUBACK && p[5..7] == Be(k)
    else |p| >= 7 && p[1] == REGACK && p[4..6] == Be(k)
  }

  /** The topic ids after a reply for topic `k`. */
  function Granted(cfg: Config, k: nat, p: seq<byte>, ids: TopicIds): TopicIds
    requires k < |cfg.topics| && Answers(cfg, k, p)
  {
    if cfg.topics[k].subscribe then
      if p[7] == ACCEPTED then ids[k := FromBe(p[3], p[4])] else ids
    else
      if p[6] == ACCEPTED then ids[k := FromBe(p[2], p[3])] else ids
  }

  /** How a message looks when it is sent again: the flags of a SUBSCRIBE or PUBLISH gain DUP. */
  function Marked(b: seq<byte>): seq<byte> {
    if |b| > 2 && (b[1] == SUBSCRIBE || b[1] == PUBLISH) && b[2] < DUP then b[2 := b[2] + DUP] else b
  }

  predicate Awaiting(pass: Pass) { pass.At? && pass.waiting }

  function ObserveReply(cfg: Config, v: View, p: seq<byte>): View {
    if v.pass.At? && v.pass.waiting && v.pass.k < |cfg.topics| && Answers(cfg, v.pass.k, p) then
      v.(pass := At(v.pass.k + 1, false), ids := Granted(cfg, v.pass.k, p, v.ids))
    else
      v.(ok := false)
  }

  function ObserveConsumed(cfg: Config, v: View, p: seq<byte>): View {
    if |p| < 3 then v.(pass := NoPass)
    else if p[1] == CONNACK then
      v.(pass := if p[2] == ACCEPTED then At(0, false) else NoPass, cut := v.cut && p[2] != ACCEPTED,
         ok := v.ok && |v.last| > 1 && v.last[1] == CONNECT)
    else if p[1] == REGACK || p[1] == SUBACK then ObserveReply(cfg, v, p)
    else v.(pass := NoPass, cut := v.cut || (p[1] == PUBACK && Awaiting(v.pass)))
  }

  function Observe(cfg: Config, v: View, e: Event): View {
    match e
    case Sent(b) =>
      var asked := v.pass.At? && !v.pass.waiting && v.pass.k < |cfg.topics| && Asks(cfg, v.pass.k, b);
      v.(last := b, resends := 0, pass := if asked then At(v.pass.k, true) else NoPass)
    case Resent(b) => v.(resends := v.resends + 1, ok := v.ok && b == Marked(v.last) && v.resends < N_RETRY)
    case Consumed(p) => ObserveConsumed(cfg, v, p)
    case AllRegistered => v.(ok := v.ok && v.pass == At(|cfg.topics|, false), pass := NoPass)
    case _ => v
  }

  function Follow(cfg: Config, v: View, ev: seq<Event>): View
    decreases |ev|
  {
    if ev == [] then v else Follow(cfg, Observe(cfg, v, ev[0]), ev[1..])
  }

  lemma {:induction false} FollowConcat(cfg: Config, v: View, a: seq<Event>, b: seq<Event>)
    ensures Follow(cfg, v, a + b) == Follow(cfg, Follow(cfg, v, a), b)
    decreases |a|
  {
    if a == [] {
      assert a + b == b;
    } else {
      assert (a + b)[1..] == a[1..] + b;
      FollowConcat(cfg, Observe(cfg, v, a[0]), a[1..], b);
    }
  }

  lemma FollowOne(cfg: Config, v: View, e: Event)
    ensures Follow(cfg, v, [e]) == Observe(cfg, v, e)
  {
    assert [e][1..] == [];
  }

  // The client and what the observer knows

  predicate Matches(s: State, kind: byte) {
    match s
    case Connecting => kind == CONNECT
    case Busy => kind == REGISTER || kind == SUBSCRIBE || kind == PUBLISH
    case Disconnecting => kind == DISCONNECT
    case _ => true
  }

  /** The buffer holds the last message sent, but for DUP, and the retries add up. */
  predicate Holds(c: Client, v: View) {
    && 2 <= |v.last| <= MAX_PACKET && c.message[0] == |v.last|
    && Whole(c.message) == Marked(v.last)
    && Matches(c.state, v.last[1])
    && v.resends + c.nRetries == N_RETRY
  }

  /** A client that is registering, or waits for a reply to a request of the pass. */
  predicate InPass(cfg: Config, c: Client, v: View) {
    if c.state == Registering then
      c.count <= |cfg.topics| && v.pass == At(c.count, false)
    else
      c.state == Busy && |v.last| > 1 && v.last[1] != PUBLISH ==>
        1 <= c.count <= |cfg.topics| && v.pass == At(c.count - 1, true) && Asks(cfg, c.count - 1, v.last)
  }

  /** No id is stored past the application's table. */
  predicate Unused(cfg: Config, ids: TopicIds) {
    forall k :: |cfg.topics| <= k < MAX_TOPICS ==> ids[k] == 0
  }

  /** Outside a pass, a client that has come to Connected is registered unless its pass was cut. */
  predicate Registered(c: Client, v: View) {
    && (c.registered ==> !v.cut && !Awaiting(v.pass))
    && (c.state == Registering ==> !c.registered && !v.cut)
    && (c.state == Busy && |v.last| > 1 && v.last[1] != PUBLISH ==> !c.registered && !v.cut)
    && (c.state == Connected || (c.state == Busy && |v.last| > 1 && v.last[1] == PUBLISH) ==> (c.registered <==> !v.cut))
  }

  predicate Coupled(cfg: Config, c: Client, v: View) {
    && v.ok && v.ids == c.topicIds && Unused(cfg, c.topicIds)
    && (c.tRetry != 0 <==> Waiting(c.state))
    && (Waiting(c.state) ==> Holds(c, v))
    && InPass(cfg, c, v) && Registered(c, v)
  }

  predicate Follows(cfg: Config, o: Out, v: View) {
    Coupled(cfg, o.c, Follow(cfg, v, o.ev))
  }

  /** Nothing but a REGISTER or SUBSCRIBE asks for a topic. */
  lemma NotAsking(cfg: Config, v: View, b: seq<byte>)
    requires |b| >= 2 && b[1] != REGISTER && b[1] != SUBSCRIBE
    ensures Observe(cfg, v, Sent(b)).pass == NoPass
  {
    if v.pass.At? && v.pass.k < |cfg.topics| && Asks(cfg, v.pass.k, b) {
      AskedId(cfg, v.pass.k, b);
    }
  }

  // What goes out

  lemma SentBytes(c: Client, kind: byte, size: nat, retry: bool, now: nat)
    requires 3 <= size <= MAX_PACKET
    ensures Send(c, kind, size, retry, now).ev == [Sent([size, kind] + c.message[2..size])]
  {
    var m: Message := c.message[0 := size][1 := kind];
    assert m[..size] == [size, kind] + c.message[2..size];
  }

  lemma MarkedWhole(m: Message, size: nat)
    requires 3 <= size <= MAX_PACKET && m[0] == size && (m[1] == SUBSCRIBE || m[1] == PUBLISH)
    ensures Whole(SetDup(m)) == Marked(m[..size])
  {
    var d := SetDup(m);
    assert d[..size] == m[..size][2 := d[2]];
  }

  /** What is true after a request for topic `count` has gone out as `b`. */
  predicate Asked(c: Client, o: Out, b: seq<byte>, now: nat) {
    && o.ev == [Sent(b)] && 2 <= |b| <= MAX_PACKET && o.c.message[0] == |b| && Whole(o.c.message) == Marked(b)
    && o.c == c.(state := Busy, message := o.c.message, nRetries := N_RETRY, tRetry := now + T_RETRY,
                 nextPing := now + KEEP_ALIVE)
  }

  lemma RegisterBytes(c: Client, id: u16, name: topicName, now: nat)
    ensures Asked(c, SendRegister(c, id, name, now), RegisterRequest(id, name), now)
  {
    var m := Overwrite(c.message, 2, [0, 0] + Be(id) + name + [0]);
    assert m[2..6 + |name|] == [0, 0] + Be(id) + name;
    SentBytes(ToState(c, Busy).(message := m), REGISTER, 6 + |name|, true, now);
    assert [6 + |name|, REGISTER] + ([0, 0] + Be(id) + name) == RegisterRequest(id, name);
  }

  lemma SubscribeMessage(m: Message, id: u16, name: topicName, qos: bool)
    ensures var n := Overwrite(m, 2, [if qos then QOS_1 else 0] + Be(id) + name + [0]);
            [7 + |name|, SUBSCRIBE] + n[2..7 + |name|] == SubscribeRequest(id, name, qos, m[6 + |name|])
  {
    var fixed := [if qos then QOS_1 else 0] + Be(id) + name + [0];
    var n := Overwrite(m, 2, fixed);
    assert n[2..6 + |name|] == fixed && n[6 + |name|] == m[6 + |name|];
    assert n[2..7 + |name|] == fixed + [m[6 + |name|]];
  }

  lemma SubscribeBytes(c: Client, id: u16, name: topicName, qos: bool, now: nat)
    ensures Asked(c, SendSubscribe(c, id, name, qos, now), SubscribeRequest(id, name, qos, c.message[6 + |name|]), now)
  {
    var m := Overwrite(c.message, 2, [if qos then QOS_1 else 0] + Be(id) + name + [0]);
    var size := 7 + |name|;
    SubscribeMessage(c.message, id, name, qos);
    SentBytes(ToState(c, Busy).(message := m), SUBSCRIBE, size, true, now);
    var n: Message := m[0 := size][1 := SUBSCRIBE];
    assert n[..size] == [size, SUBSCRIBE] + m[2..size];
    MarkedWhole(n, size);
  }

  lemma AskedFollows(cfg: Config, c: Client, o: Out, b: seq<byte>, v: View, now: nat)
    requires Coupled(cfg, c, v) && c.state == Registering && c.count < |cfg.topics|
    requires Asked(c, o, b, now) && Asks(cfg, c.count, b)
    ensures Follows(cfg, Out(o.c.(count := c.count + 1), o.ev), v)
  {
    FollowOne(cfg, v, Sent(b));
    AskedId(cfg, c.count, b);
  }

  lemma RegisterNextFollows(cfg: Config, c: Client, v: View, now: nat)
    requires Coupled(cfg, c, v)
    ensures Follows(cfg, RegisterNext(cfg, c, now), v) && RegisterNext(cfg, c, now).c.state != Registering
  {
    if c.state == Registering {
      if c.count >= |cfg.topics| {
        FollowOne(cfg, v, AllRegistered);
      } else {
        var t := cfg.topics[c.count];
        if t.subscribe {
          SubscribeBytes(c, c.count, t.name, t.qos, now);
          AskedFollows(cfg, c, SendSubscribe(c, c.count, t.name, t.qos, now),
                       SubscribeRequest(c.count, t.name, t.qos, c.message[6 + |t.name|]), v, now);
        } else {
          RegisterBytes(c, c.count, t.name, now);
          AskedFollows(cfg, c, SendRegister(c, c.count, t.name, now), RegisterRequest(c.count, t.name), v, now);
        }
      }
    }
  }

  lemma RetryFollows(cfg: Config, c: Client, v: View, now: nat)
    requires Coupled(cfg, c, v)
    ensures Follows(cfg, Retry(c, now), v) && (c.state != Registering ==> Retry(c, now).c.state != Registering)
  {
    if c.tRetry != 0 && now >= c.tRetry && c.nRetries != 0 {
      FollowOne(cfg, v, Resent(Whole(c.message)));
    }
  }

  lemma KeepAliveFollows(cfg: Config, c: Client, v: View, now: nat)
    requires Coupled(cfg, c, v)
    ensures Follows(cfg, KeepAlive(c, now), v) && KeepAlive(c, now).c.state == c.state
  {
    if c.state == Connected && now >= c.nextPing {
      var e := KeepAlive(c, now).ev[0];
      FollowOne(cfg, v, e);
      NotAsking(cfg, v, e.bytes);
    }
  }

  lemma FollowsThen(cfg: Config, o: Out, p: Out, v: View)
    requires Follows(cfg, p, Follow(cfg, v, o.ev))
    ensures Follows(cfg, Out(p.c, o.ev + p.ev), v)
  {
    FollowConcat(cfg, v, o.ev, p.ev);
  }

  lemma TimersFollow(cfg: Config, c: Client, v: View, now: nat)
    requires Coupled(cfg, c, v) && c.state != Registering
    ensures Follows(cfg, Timers(c, now), v) && Timers(c, now).c.state != Registering
  {
    var r := Retry(c, now);
    RetryFollows(cfg, c, v, now);
    KeepAliveFollows(cfg, r.c, Follow(cfg, v, r.ev), now);
    FollowsThen(cfg, r, KeepAlive(r.c, now), v);
  }

  // What comes in

  lemma ConnackFollows(cfg: Config, c: Client, v: View, p: seq<byte>)
    requires Coupled(cfg, c, v) && c.state != Registering && |p| >= 2 && p[1] == CONNACK
    ensures Follows(cfg, OnConnack(c, p), v)
  {
    FollowOne(cfg, v, Consumed(p));
  }

  /** The bytes that identify a request of the pass are where the handlers look for them. */
  lemma RequestId(cfg: Config, c: Client, v: View)
    requires Coupled(cfg, c, v) && c.state == Busy && c.message[1] != PUBLISH
    ensures 1 <= c.count <= |cfg.topics| && v.pass == At(c.count - 1, true) && |v.last| > 1 && v.last[1] != PUBLISH
    ensures cfg.topics[c.count - 1].subscribe ==> c.message[1] == SUBSCRIBE && c.message[3..5] == Be(c.count - 1)
    ensures !cfg.topics[c.count - 1].subscribe ==> c.message[1] == REGISTER && c.message[4..6] == Be(c.count - 1)
  {
    MarkedId(c.message, v.last);
    AskedId(cfg, c.count - 1, v.last);
  }

  lemma MarkedId(m: Message, b: seq<byte>)
    requires 2 <= |b| <= MAX_PACKET && m[0] == |b| && Whole(m) == Marked(b)
    ensures m[1] == b[1]
    ensures |b| >= 6 ==> m[3..5] == b[3..5] && m[4..6] == b[4..6]
  {
    assert m[..|b|][1] == Marked(b)[1];
    if |b| >= 6 {
      assert m[..|b|][3..5] == Marked(b)[3..5] && m[..|b|][4..6] == Marked(b)[4..6];
    }
  }

  lemma FromBeOf(x: u16, hi: byte, lo: byte)
    requires [hi, lo] == Be(x)
    ensures FromBe(hi, lo) == x
  {
    assert [hi, lo][0] == Be(x)[0] && [hi, lo][1] == Be(x)[1];
  }

  lemma ReplyFollows(cfg: Config, c: Client, v: View, p: seq<byte>, id: u16, topicId: u16, ok: bool)
    requires Coupled(cfg, c, v) && c.state == Busy && |p| >= 3 && (p[1] == REGACK || p[1] == SUBACK)
    requires 1 <= c.count <= |cfg.topics| && v.pass == At(c.count - 1, true) && id == c.count - 1
    requires |v.last| > 1 && v.last[1] != PUBLISH && Answers(cfg, id, p)
    requires Granted(cfg, id, p, v.ids) == if ok then v.ids[id := topicId] else v.ids
    ensures Follows(cfg, OnReply(c, p, id, topicId, ok), v)
  {
    FollowOne(cfg, v, Consumed(p));
  }

  lemma RegackFollows(cfg: Config, c: Client, v: View, p: seq<byte>)
    requires Coupled(cfg, c, v) && c.state != Registering && |p| >= 2 && p[1] == REGACK
    ensures Follows(cfg, OnRegack(c, p), v)
  {
    if |p| >= 7 && c.state == Busy && c.message[1] == REGISTER && p[4..6] == c.message[4..6] {
      RequestId(cfg, c, v);
      assert p[4..6] == [p[4], p[5]];
      FromBeOf(c.count - 1, p[4], p[5]);
      ReplyFollows(cfg, c, v, p, FromBe(p[4], p[5]), FromBe(p[2], p[3]), p[6] == ACCEPTED);
    }
  }

  lemma SubackFollows(cfg: Config, c: Client, v: View, p: seq<byte>)
    requires Coupled(cfg, c, v) && c.state != Registering && |p| >= 2 && p[1] == SUBACK
    ensures Follows(cfg, OnSuback(c, p), v)
  {
    if |p| >= 8 && c.state == Busy && c.message[1] == SUBSCRIBE && p[5..7] == c.message[3..5] {
      RequestId(cfg, c, v);
      assert p[5..7] == [p[5], p[6]];
      FromBeOf(c.count - 1, p[5], p[6]);
      ReplyFollows(cfg, c, v, p, FromBe(p[5], p[6]), FromBe(p[3], p[4]), p[7] == ACCEPTED);
    }
  }

  lemma PubackFollows(cfg: Config, c: Client, v: View, p: seq<byte>)
    requires Coupled(cfg, c, v) && c.state != Registering && |p| >= 2 && p[1] == PUBACK
    ensures Follows(cfg, OnPuback(c, p), v)
  {
    var o := OnPuback(c, p);
    if o.ev != [] {
      assert o.ev == [o.ev[0]] + [o.ev[1]];
      FollowConcat(cfg, v, [o.ev[0]], [o.ev[1]]);
      FollowOne(cfg, v, o.ev[0]);
      FollowOne(cfg, Observe(cfg, v, o.ev[0]), o.ev[1]);
    }
  }

  lemma InboundFollows(cfg: Config, c: Client, v: View, p: seq<byte>)
    requires Coupled(cfg, c, v) && c.state != Registering
    ensures Follows(cfg, Inbound(cfg, c, p), v)
  {
    if |p| >= 2 && |p| >= p[0] {
      if p[1] == CONNACK {
        ConnackFollows(cfg, c, v, p);
      } else if p[1] == REGACK {
        RegackFollows(cfg, c, v, p);
      } else if p[1] == PUBLISH {
        var o := OnPublish(cfg, c, p);
        if o.ev != [] {
          FollowOne(cfg, v, o.ev[0]);
        }
      } else if p[1] == PUBACK {
        PubackFollows(cfg, c, v, p);
      } else if p[1] == SUBACK {
        SubackFollows(cfg, c, v, p);
      } else if p[1] == DISCONNECT {
        FollowOne(cfg, v, Consumed(p));
      }
    }
  }

  lemma HandleFollows(cfg: Config, c: Client, v: View, p: seq<byte>, now: nat)
    requires Coupled(cfg, c, v) && c.state != Registering
    ensures Follows(cfg, Handle(cfg, c, p, now), v) && Handle(cfg, c, p, now).c.state != Registering
  {
    var t := Timers(c, now);
    TimersFollow(cfg, c, v, now);
    var u := Follow(cfg, v, t.ev);
    var i := Inbound(cfg, t.c, p);
    InboundFollows(cfg, t.c, u, p);
    FollowsThen(cfg, t, i, v);
    RegisterNextFollows(cfg, i.c, Follow(cfg, v, t.ev + i.ev), now);
    FollowsThen(cfg, Out(i.c, t.ev + i.ev), RegisterNext(cfg, i.c, now), v);
  }

  // Calls by the application

  lemma ConnectFollows(cfg: Config, c: Client, v: View, now: nat)
    requires Coupled(cfg, c, v) && c.state != Registering
    ensures Follows(cfg, Connect(cfg, c, now), v) && Connect(cfg, c, now).c.state != Registering
  {
    var o := Connect(cfg, c, now);
    if o.ev != [] {
      FollowOne(cfg, v, o.ev[0]);
      NotAsking(cfg, v, o.ev[0].bytes);
    }
  }

  lemma DisconnectFollows(cfg: Config, c: Client, v: View, duration: u16, now: nat)
    requires Coupled(cfg, c, v) && c.state != Registering
    ensures Follows(cfg, Disconnect(c, duration, now), v) && Disconnect(c, duration, now).c.state != Registering
  {
    var o := Disconnect(c, duration, now);
    if o.ev != [] {
      FollowOne(cfg, v, o.ev[0]);
      NotAsking(cfg, v, o.ev[0].bytes);
    }
  }

  lemma PublishFollows(cfg: Config, c: Client, v: View, topic: topicIndex, qos: bool, data: seq<byte>, now: nat)
    requires Coupled(cfg, c, v) && c.state != Registering
    ensures Follows(cfg, Publish(c, topic, qos, data, now), v) && Publish(c, topic, qos, data, now).c.state != Registering
  {
    var o := Publish(c, topic, qos, data, now);
    if CanPublish(c, data) {
      FollowOne(cfg, v, o.ev[0]);
      NotAsking(cfg, v, o.ev[0].bytes);
    }
  }

  /** Every call keeps the client where the observer says it is, and none leaves it registering. */
  lemma StepFollows(cfg: Config, c: Client, v: View, i: Input)
    requires Coupled(cfg, c, v) && c.state != Registering
    ensures Follows(cfg, Step(cfg, c, i), v) && Step(cfg, c, i).c.state != Registering
  {
    match i {
      case DoHandle(p, now) => HandleFollows(cfg, c, v, p, now);
      case DoConnect(now) => ConnectFollows(cfg, c, v, now);
      case DoDisconnect(duration, now) => DisconnectFollows(cfg, c, v, duration, now);
      case DoPublish(topic, qos, data, now) => PublishFollows(cfg, c, v, topic, qos, data, now);
    }
  }

  lemma InitCoupled(cfg: Config)
    ensures Coupled(cfg, Init(), START)
  {
  }

  lemma {:induction false} RunFollows(cfg: Config, ins: seq<Input>)
    ensures var o := Run(cfg, Init(), ins);
            Coupled(cfg, o.c, Follow(cfg, START, o.ev)) && o.c.state != Registering
    decreases |ins|
  {
    if ins == [] {
      InitCoupled(cfg);
    } else {
      var a := Run(cfg, Init(), ins[..|ins| - 1]);
      RunFollows(cfg, ins[..|ins| - 1]);
      StepFollows(cfg, a.c, Follow(cfg, START, a.ev), ins[|ins| - 1]);
      FollowsThen(cfg, a, Step(cfg, a.c, ins[|ins| - 1]), START);
    }
  }

  /** For any packets and calls whatever: the timer is armed exactly in the waiting states, the
      buffer then holds the last message sent but for DUP, and registering is never seen. */
  lemma WaitingIffArmed(cfg: Config, ins: seq<Input>)
    ensures var o := Run(cfg, Init(), ins);
            var v := Follow(cfg, START, o.ev);
            && (o.c.tRetry != 0 <==> Waiting(o.c.state)) && o.c.state != Registering
            && (Waiting(o.c.state) ==> Holds(o.c, v))
            && o.c.topicIds == v.ids
  {
    RunFollows(cfg, ins);
  }

  // What the observer's verdict means

  lemma {:induction false} NotOkForever(cfg: Config, v: View, ev: seq<Event>)
    requires Follow(cfg, v, ev).ok
    ensures v.ok
    decreases |ev|
  {
    if ev == [] {
    } else {
      NotOkForever(cfg, Observe(cfg, v, ev[0]), ev[1..]);
    }
  }

  lemma SplitLog(cfg: Config, log: seq<Event>, j: nat)
    requires j < |log| && Follow(cfg, START, log).ok
    ensures Observe(cfg, Follow(cfg, START, log[..j]), log[j]).ok
  {
    assert log == log[..j] + [log[j]] + log[j + 1..];
    FollowConcat(cfg, START, log[..j] + [log[j]], log[j + 1..]);
    FollowConcat(cfg, START, log[..j], [log[j]]);
    FollowOne(cfg, Follow(cfg, START, log[..j]), log[j]);
    NotOkForever(cfg, Follow(cfg, START, log[..j] + [log[j]]), log[j + 1..]);
  }

  /** A message is repeated unchanged but for DUP. */
  lemma ResentIsMarked(cfg: Config, ins: seq<Input>, j: nat)
    requires var log := Run(cfg, Init(), ins).ev; j < |log| && log[j].Resent?
    ensures var log := Run(cfg, Init(), ins).ev;
            var v := Follow(cfg, START, log[..j]);
            log[j].bytes == Marked(v.last) && v.resends < N_RETRY
  {
    RunFollows(cfg, ins);
    SplitLog(cfg, Run(cfg, Init(), ins).ev, j);
  }

  predicate IsConnack(e: Event) {
    e.Consumed? && |e.packet| >= 3 && e.packet[1] == CONNACK && e.packet[2] == ACCEPTED
  }

  ghost predicate LastConnack(log: seq<Event>, start: nat) {
    start < |log| && IsConnack(log[start]) && forall m :: start < m < |log| ==> !IsConnack(log[m])
  }

  ghost predicate OnlySent(log: seq<Event>, start: nat, asks: seq<nat>) {
    forall m :: start < m < |log| && log[m].Sent? ==> m in asks
  }

  ghost predicate Asking(cfg: Config, log: seq<Event>, start: nat, asks: seq<nat>) {
    |asks| <= |cfg.topics| && forall j :: 0 <= j < |asks| ==> start < asks[j] < |log| && AskedAt(cfg, log[asks[j]], j)
  }

  ghost predicate Answering(cfg: Config, log: seq<Event>, replies: seq<nat>) {
    |replies| <= |cfg.topics| && forall j :: 0 <= j < |replies| ==> replies[j] < |log| && AnsweredAt(cfg, log[replies[j]], j)
  }

  ghost predicate InTurn(asks: seq<nat>, replies: seq<nat>) {
    && |replies| <= |asks| <= |replies| + 1
    && (forall j :: 0 <= j < |replies| ==> asks[j] < replies[j])
    && (forall j :: 0 < j < |asks| ==> replies[j - 1] < asks[j])
  }

  /** The pass as places in the log: an accepted CONNACK that is the last one, then a request for
      each topic in table order, each but perhaps the last followed by its reply, and nothing else
      sent. */
  ghost predicate Trace(cfg: Config, log: seq<Event>, pass: Pass, start: nat, asks: seq<nat>, replies: seq<nat>) {
    && pass.At? && |replies| == pass.k && |asks| == pass.k + (if pass.waiting then 1 else 0)
    && LastConnack(log, start) && OnlySent(log, start, asks)
    && Asking(cfg, log, start, asks) && Answering(cfg, log, replies) && InTurn(asks, replies)
  }

  predicate AskedAt(cfg: Config, e: Event, k: nat)
    requires k < |cfg.topics|
  {
    e.Sent? && Asks(cfg, k, e.bytes)
  }

  predicate AnsweredAt(cfg: Config, e: Event, k: nat)
    requires k < |cfg.topics|
  {
    e.Consumed? && Answers(cfg, k, e.packet)
  }

  /** The three ways a pass goes on. */
  lemma PassStep(cfg: Config, v: View, e: Event)
    requires Observe(cfg, v, e).pass.At? && Observe(cfg, v, e).ok && !IsConnack(e)
    ensures v.pass.At? && v.ok && !e.AllRegistered?
    ensures e.Sent? ==> v.pass.k < |cfg.topics| && !v.pass.waiting && AskedAt(cfg, e, v.pass.k)
                        && Observe(cfg, v, e).pass == At(v.pass.k, true)
    ensures e.Consumed? ==> v.pass.k < |cfg.topics| && v.pass.waiting && AnsweredAt(cfg, e, v.pass.k)
                            && Observe(cfg, v, e).pass == At(v.pass.k + 1, false)
    ensures !e.Sent? && !e.Consumed? ==> Observe(cfg, v, e).pass == v.pass
  {
  }

  lemma OneMoreSent(log: seq<Event>, e: Event, start: nat, asks: seq<nat>)
    requires OnlySent(log, start, asks)
    ensures OnlySent(log + [e], start, asks + [|log|])
  {
    forall m | start < m < |log + [e]| && (log + [e])[m].Sent?
      ensures m in asks + [|log|]
    {
      if m < |log| {
        assert m in asks;
      }
    }
  }

  lemma OneMoreAsked(cfg: Config, log: seq<Event>, e: Event, start: nat, asks: seq<nat>)
    requires Asking(cfg, log, start, asks) && start < |log| && |asks| < |cfg.topics| && AskedAt(cfg, e, |asks|)
    ensures Asking(cfg, log + [e], start, asks + [|log|])
  {
  }

  lemma OneMoreAnswered(cfg: Config, log: seq<Event>, e: Event, replies: seq<nat>)
    requires Answering(cfg, log, replies) && |replies| < |cfg.topics| && AnsweredAt(cfg, e, |replies|)
    ensures Answering(cfg, log + [e], replies + [|log|])
  {
  }

  lemma TraceAsk(cfg: Config, log: seq<Event>, e: Event, pass: Pass, start: nat, asks: seq<nat>, replies: seq<nat>)
    requires Trace(cfg, log, pass, start, asks, replies)
    requires pass.k < |cfg.topics| && !pass.waiting && AskedAt(cfg, e, pass.k)
    ensures Trace(cfg, log + [e], At(pass.k, true), start, asks + [|log|], replies)
  {
    var longer := log + [e];
    assert LastConnack(longer, start);
    OneMoreSent(log, e, start, asks);
    OneMoreAsked(cfg, log, e, start, asks);
    assert Answering(cfg, longer, replies);
  }

  lemma TraceReply(cfg: Config, log: seq<Event>, e: Event, pass: Pass, start: nat, asks: seq<nat>, replies: seq<nat>)
    requires Trace(cfg, log, pass, start, asks, replies)
    requires pass.k < |cfg.topics| && pass.waiting && AnsweredAt(cfg, e, pass.k)
    ensures Trace(cfg, log + [e], At(pass.k + 1, false), start, asks, replies + [|log|])
  {
    var longer := log + [e];
    assert LastConnack(longer, start);
    assert OnlySent(longer, start, asks);
    assert Asking(cfg, longer, start, asks);
    OneMoreAnswered(cfg, log, e, replies);
  }

  lemma TraceOther(cfg: Config, log: seq<Event>, e: Event, pass: Pass, start: nat, asks: seq<nat>, replies: seq<nat>)
    requires Trace(cfg, log, pass, start, asks, replies) && !e.Sent? && !e.Consumed?
    ensures Trace(cfg, log + [e], pass, start, asks, replies)
  {
    var longer := log + [e];
    assert LastConnack(longer, start);
    assert OnlySent(longer, start, asks);
    assert Asking(cfg, longer, start, asks) && Answering(cfg, longer, replies);
  }

  lemma FollowSnoc(cfg: Config, v: View, log: seq<Event>)
    requires log != []
    ensures Follow(cfg, v, log) == Observe(cfg, Follow(cfg, v, log[..|log| - 1]), log[|log| - 1])
  {
    var n := |log| - 1;
    assert log == log[..n] + [log[n]];
    FollowConcat(cfg, v, log[..n], [log[n]]);
    FollowOne(cfg, Follow(cfg, v, log[..n]), log[n]);
  }

  lemma {:induction false} PassTrace(cfg: Config, log: seq<Event>) returns (start: nat, asks: seq<nat>, replies: seq<nat>)
    requires Follow(cfg, START, log).pass.At? && Follow(cfg, START, log).ok
    ensures Trace(cfg, log, Follow(cfg, START, log).pass, start, asks, replies)
    decreases |log|
  {
    var n := |log| - 1;
    FollowSnoc(cfg, START, log);
    var before, e := log[..n], log[n];
    var v := Follow(cfg, START, before);
    if IsConnack(e) {
      start, asks, replies := n, [], [];
    } else {
      PassStep(cfg, v, e);
      start, asks, replies := PassTrace(cfg, before);
      assert log == before + [e];
      if e.Sent? {
        TraceAsk(cfg, before, e, v.pass, start, asks, replies);
        asks := asks + [n];
      } else if e.Consumed? {
        TraceReply(cfg, before, e, v.pass, start, asks, replies);
        replies := replies + [n];
      } else {
        TraceOther(cfg, before, e, v.pass, start, asks, replies);
      }
    }
  }

  /** is_registered is set only when, since the last accepted CONNACK, every topic has been asked for
      in table order and each request has had its reply. */
  lemma RegisteredAfterFullPass(cfg: Config, ins: seq<Input>, j: nat) returns (start: nat, asks: seq<nat>, replies: seq<nat>)
    requires var log := Run(cfg, Init(), ins).ev; j < |log| && log[j] == AllRegistered
    ensures Trace(cfg, Run(cfg, Init(), ins).ev[..j], At(|cfg.topics|, false), start, asks, replies)
  {
    var log := Run(cfg, Init(), ins).ev;
    RunFollows(cfg, ins);
    SplitLog(cfg, log, j);
    start, asks, replies := PassTrace(cfg, log[..j]);
  }

  // The topic ids

  /** The id that an accepted reply for topic `k` brings. */
  function ReplyId(cfg: Config, k: nat, e: Event): u16
    requires k < |cfg.topics| && AnsweredAt(cfg, e, k)
  {
    if cfg.topics[k].subscribe then FromBe(e.packet[3], e.packet[4]) else FromBe(e.packet[2], e.packet[3])
  }

  predicate Grants(cfg: Config, k: nat, e: Event)
    requires k < |cfg.topics|
  {
    AnsweredAt(cfg, e, k) && e.packet[if cfg.topics[k].subscribe then 7 else 6] == ACCEPTED
  }

  function LatestId(cfg: Config, k: nat, log: seq<Event>): u16
    requires k < |cfg.topics|
    decreases |log|
  {
    if log == [] then 0
    else if Grants(cfg, k, log[|log| - 1]) then ReplyId(cfg, k, log[|log| - 1])
    else LatestId(cfg, k, log[..|log| - 1])
  }

  lemma OneTopicPerReply(cfg: Config, k: nat, j: nat, p: seq<byte>)
    requires k < |cfg.topics| && j < |cfg.topics| && Answers(cfg, k, p) && Answers(cfg, j, p)
    ensures k == j
  {
    assert Be(k)[1] == Be(j)[1];
  }

  lemma IdsStep(cfg: Config, v: View, e: Event, k: nat)
    requires k < |cfg.topics| && Observe(cfg, v, e).ok
    ensures v.ok && Observe(cfg, v, e).ids[k] == if Grants(cfg, k, e) then ReplyId(cfg, k, e) else v.ids[k]
  {
    if e.Consumed? && v.pass.At? && v.pass.k < |cfg.topics| && Answers(cfg, v.pass.k, e.packet) && Answers(cfg, k, e.packet) {
      OneTopicPerReply(cfg, k, v.pass.k, e.packet);
    }
  }

  lemma {:induction false} IdsAreLatest(cfg: Config, k: nat, log: seq<Event>)
    requires k < |cfg.topics| && Follow(cfg, START, log).ok
    ensures Follow(cfg, START, log).ids[k] == LatestId(cfg, k, log)
    decreases |log|
  {
    if log == [] {
    } else {
      FollowSnoc(cfg, START, log);
      IdsStep(cfg, Follow(cfg, START, log[..|log| - 1]), log[|log| - 1], k);
      IdsAreLatest(cfg, k, log[..|log| - 1]);
    }
  }

  /** The stored id of each topic is the one in the latest accepted reply for it, and nothing is
      stored past the table. */
  lemma TopicIdIsLatest(cfg: Config, ins: seq<Input>, k: nat)
    requires k < MAX_TOPICS
    ensures var o := Run(cfg, Init(), ins);
            o.c.topicIds[k] == if k < |cfg.topics| then LatestId(cfg, k, o.ev) else 0
  {
    RunFollows(cfg, ins);
    if k < |cfg.topics| {
      IdsAreLatest(cfg, k, Run(cfg, Init(), ins).ev);
    }
  }

  // Connected and registered

  predicate IsPuback(e: Event) {
    e.Consumed? && |e.packet| >= 3 && e.packet[1] == PUBACK
  }

  /** The log, after its last accepted CONNACK, holds a PUBACK that was acted on while the pass waited for
      a reply. */
  ghost predicate CutShort(cfg: Config, log: seq<Event>) {
    exists j :: 0 <= j < |log| && CutAt(cfg, log, j)
  }

  ghost predicate CutAt(cfg: Config, log: seq<Event>, j: nat)
    requires j < |log|
  {
    && IsPuback(log[j]) && Awaiting(Follow(cfg, START, log[..j]).pass)
    && forall m :: j < m < |log| ==> !IsConnack(log[m])
  }

  lemma CutStep(cfg: Config, v: View, e: Event)
    ensures Observe(cfg, v, e).cut <==> (!IsConnack(e) && (v.cut || (IsPuback(e) && Awaiting(v.pass))))
  {
  }

  lemma CutAtLater(cfg: Config, log: seq<Event>, j: nat)
    requires j < |log| - 1
    ensures CutAt(cfg, log, j) <==> CutAt(cfg, log[..|log| - 1], j) && !IsConnack(log[|log| - 1])
  {
    assert log[..|log| - 1][..j] == log[..j];
  }

  lemma {:induction false} CutMeans(cfg: Config, log: seq<Event>)
    ensures Follow(cfg, START, log).cut <==> CutShort(cfg, log)
    decreases |log|
  {
    if log == [] {
    } else {
      var n := |log| - 1;
      var before := log[..n];
      FollowSnoc(cfg, START, log);
      CutMeans(cfg, before);
      CutStep(cfg, Follow(cfg, START, before), log[n]);
      forall j | 0 <= j < n ensures CutAt(cfg, log, j) <==> CutAt(cfg, before, j) && !IsConnack(log[n]) {
        CutAtLater(cfg, log, j);
      }
      assert CutAt(cfg, log, n) <==> IsPuback(log[n]) && Awaiting(Follow(cfg, START, before).pass);
    }
  }

  /** In every run, a connected client is registered if and only if no PUBACK has cut short the pass that
      followed its last accepted CONNACK. */
  lemma ConnectedIsRegisteredIff(cfg: Config, ins: seq<Input>)
    requires Run(cfg, Init(), ins).c.state == Connected
    ensures var o := Run(cfg, Init(), ins); !o.c.registered <==> CutShort(cfg, o.ev)
  {
    RunFollows(cfg, ins);
    CutMeans(cfg, Run(cfg, Init(), ins).ev);
  }

  /** The same call sequence with one more call. */
  lemma RunSnoc(cfg: Config, ins: seq<Input>, i: Input)
    ensures Run(cfg, Init(), ins + [i]).c == Step(cfg, Run(cfg, Init(), ins).c, i).c
  {
    assert (ins + [i])[..|ins|] == ins;
  }

  lemma ConnackStartsPass(cfg: Config, now: nat)
    requires cfg.topics != []
    ensures var c := Run(cfg, Init(), [DoConnect(now), DoHandle([3, CONNACK, ACCEPTED], now)]).c;
            c.state == Busy && !c.registered && c.tRetry == now + T_RETRY && c.nRetries == N_RETRY
  {
    var p := [3, CONNACK, ACCEPTED];
    var connect := DoConnect(now);
    RunSnoc(cfg, [], connect);
    assert [] + [connect] == [connect];
    RunSnoc(cfg, [connect], DoHandle(p, now));
    assert [connect] + [DoHandle(p, now)] == [connect, DoHandle(p, now)];
    var c := Connect(cfg, Init(), now).c;
    assert Timers(c, now) == Out(c, []);
    assert Inbound(cfg, c, p).c == ToState(c.(count := 0), Registering);
  }

  /** Connected does not mean registered.  For every client with a topic: connect, an accepted CONNACK, and a
      PUBACK that carries the two bytes where a PUBLISH would have its id. */
  lemma PubackEndsPass(cfg: Config, now: nat) returns (ins: seq<Input>)
    requires cfg.topics != []
    ensures |ins| == 3 && ins[0] == DoConnect(now) && ins[1] == DoHandle([3, CONNACK, ACCEPTED], now) && ins[2].DoHandle?
    ensures var c := Run(cfg, Init(), ins).c; c.state == Connected && !c.registered
  {
    var two := [DoConnect(now), DoHandle([3, CONNACK, ACCEPTED], now)];
    ConnackStartsPass(cfg, now);
    var c := Run(cfg, Init(), two).c;
    var p := [7, PUBACK, 0, 0, c.message[5], c.message[6], ACCEPTED];
    assert p[4..6] == c.message[5..7];
    assert Timers(c, now) == Out(c, []);
    ins := two + [DoHandle(p, now)];
    RunSnoc(cfg, two, DoHandle(p, now));
  }
}
