/** The MQTT-SN client of lib/mqttsn-client.c: a step per call of its handler and of the functions
    that the application calls.  The clock is a parameter, constant during a call. */
module MqttsnMachine {
  import opened Words

  const CONNECT: byte := 0x04
  const CONNACK: byte := 0x05
  const REGISTER: byte := 0x0A
  const REGACK: byte := 0x0B
  const PUBLISH: byte := 0x0C
  const PUBACK: byte := 0x0D
  const SUBSCRIBE: byte := 0x12
  const SUBACK: byte := 0x13
  const PINGREQ: byte := 0x16
  const DISCONNECT: byte := 0x18

  const DUP: byte := 0x80
  const QOS_1: byte := 0x20
  const ACCEPTED: byte := 0

  const MAX_PACKET := 64
  const MAX_TOPICS := 16
  const T_RETRY := 5
  const N_RETRY := 3
  const KEEP_ALIVE := 10

  type Message = m: seq<byte> | |m| == MAX_PACKET witness seq(MAX_PACKET, _ => 0)
  type TopicIds = t: seq<u16> | |t| == MAX_TOPICS witness seq(MAX_TOPICS, _ => 0)

  const NO_IDS: TopicIds := [0, 0, 0, 0, 0, 0, 0, 0, 0, 0, 0, 0, 0, 0, 0, 0]

  /** A topic name fits the message buffer with the fixed part of a request and its terminator. */
  type topicName = s: seq<byte> | |s| <= 57 witness []
  type clientName = s: seq<byte> | |s| <= 15 witness []
  type topicIndex = x: int | 0 <= x < MAX_TOPICS

  datatype Topic = Topic(name: topicName, subscribe: bool, qos: bool)

  type Topics = t: seq<Topic> | |t| <= MAX_TOPICS witness []

  datatype Config = Config(id: clientName, topics: Topics)

  datatype State = Disconnected | Connecting | Registering | Connected | Busy | Disconnecting

  /** `mqttsn_c_t`. */
  datatype Client = Client(
    state: State, count: nat, message: Message, nRetries: nat, tRetry: nat, nextPing: nat,
    nextId: u16, topicIds: TopicIds, registered: bool)

  /** Sent and Resent are calls of cb_send, from mqttsn_send and from the retry timer.  Consumed is
      an inbound packet that the client acts on. */
  datatype Event =
    | Sent(bytes: seq<byte>)
    | Resent(bytes: seq<byte>)
    | Consumed(packet: seq<byte>)
    | Published(topic: nat, data: seq<byte>)  // cb_publish
    | PubAcked(msgId: u16, ok: bool)          // cb_puback
    | AllRegistered                           // is_registered set

  datatype Out = Out(c: Client, ev: seq<Event>)

  predicate Waiting(s: State) { s == Connecting || s == Busy || s == Disconnecting }

  function Be(x: u16): seq<byte> { [x / 256, x % 256] }

  function FromBe(hi: byte, lo: byte): u16 { 256 * hi + lo }

  function Overwrite(m: Message, at: nat, b: seq<byte>): Message
    requires at + |b| <= MAX_PACKET
  {
    m[..at] + b + m[at + |b|..]
  }

  /** What cb_send is given when a message goes out again. */
  function Whole(m: Message): seq<byte> {
    if m[0] <= MAX_PACKET then m[..m[0]] else m
  }

  function SetDup(m: Message): Message {
    m[2 := if m[2] < DUP then m[2] + DUP else m[2]]
  }

  function Init(): Client {
    Client(Disconnected, 0, seq(MAX_PACKET, _ => 0), 0, 0, 0, 0, NO_IDS, false)
  }

  /** mqttsn_to_state. */
  function ToState(c: Client, s: State): Client {
    c.(state := s, nRetries := 0, tRetry := 0)
  }

  /** mqttsn_send. */
  function Send(c: Client, kind: byte, size: nat, retry: bool, now: nat): Out
    requires 2 <= size <= MAX_PACKET
  {
    var m: Message := c.message[0 := size][1 := kind];
    var d := c.(message := m, nextPing := now + KEEP_ALIVE);
    Out(if retry then d.(nRetries := N_RETRY, tRetry := now + T_RETRY) else d, [Sent(m[..size])])
  }

  // Inbound packets

  /** mqttsn_connack_handler. */
  function OnConnack(c: Client, p: seq<byte>): Out
    requires |p| >= 2
  {
    if |p| < 3 || c.state != Connecting || c.message[1] != CONNECT then Out(c, [])
    else if p[2] != ACCEPTED then Out(ToState(c, Disconnected), [Consumed(p)])
    else Out(ToState(c.(count := 0), if c.registered then Connected else Registering), [Consumed(p)])
  }

  /** What REGACK and SUBACK have in common: the reply to the request in the buffer. */
  function OnReply(c: Client, p: seq<byte>, id: u16, topicId: u16, ok: bool): Out {
    Out(ToState(if ok && id < MAX_TOPICS then c.(topicIds := c.topicIds[id := topicId]) else c, Registering), [Consumed(p)])
  }

  /** mqttsn_regack_handler. */
  function OnRegack(c: Client, p: seq<byte>): Out
    requires |p| >= 2
  {
    if |p| < 7 || c.state != Busy || c.message[1] != REGISTER || p[4..6] != c.message[4..6] then Out(c, [])
    else OnReply(c, p, FromBe(p[4], p[5]), FromBe(p[2], p[3]), p[6] == ACCEPTED)
  }

  /** mqttsn_suback_handler. */
  function OnSuback(c: Client, p: seq<byte>): Out
    requires |p| >= 2
  {
    if |p| < 8 || c.state != Busy || c.message[1] != SUBSCRIBE || p[5..7] != c.message[3..5] then Out(c, [])
    else OnReply(c, p, FromBe(p[5], p[6]), FromBe(p[3], p[4]), p[7] == ACCEPTED)
  }

  /** mqttsn_puback_handler; the callback is given the message id as it is in memory. */
  function OnPuback(c: Client, p: seq<byte>): Out
    requires |p| >= 2
  {
    if |p| < 7 || c.state != Busy || p[4..6] != c.message[5..7] then Out(c, [])
    else Out(ToState(c, Connected), [Consumed(p), PubAcked(FromBe(p[5], p[4]), p[6] == ACCEPTED)])
  }

  /** The first subscription registered under a topic id, or MAX_TOPICS. */
  function FirstSubscription(cfg: Config, ids: TopicIds, id: u16, i: nat): (k: nat)
    requires i <= MAX_TOPICS
    ensures i <= k <= MAX_TOPICS
    ensures k < MAX_TOPICS ==> k < |cfg.topics| && ids[k] == id && cfg.topics[k].subscribe
    ensures forall j :: i <= j < k && j < |cfg.topics| ==> !(ids[j] == id && cfg.topics[j].subscribe)
    decreases |ids| - i
  {
    if i == MAX_TOPICS || (ids[i] == id && i < |cfg.topics| && cfg.topics[i].subscribe) then i
    else FirstSubscription(cfg, ids, id, i + 1)
  }

  /** mqttsn_publish_handler. */
  function OnPublish(cfg: Config, c: Client, p: seq<byte>): Out
    requires |p| >= 2
  {
    if |p| < 7 then Out(c, [])
    else
      var k := FirstSubscription(cfg, c.topicIds, FromBe(p[3], p[4]), 0);
      Out(c, if k < MAX_TOPICS then [Published(k, p[7..])] else [])
  }

  /** The switch of mqttsn_c_handler. */
  function Inbound(cfg: Config, c: Client, p: seq<byte>): Out {
    if |p| < 2 || |p| < p[0] then Out(c, [])
    else if p[1] == CONNACK then OnConnack(c, p)
    else if p[1] == REGACK then OnRegack(c, p)
    else if p[1] == PUBLISH then OnPublish(cfg, c, p)
    else if p[1] == PUBACK then OnPuback(c, p)
    else if p[1] == SUBACK then OnSuback(c, p)
    else if p[1] == DISCONNECT then Out(ToState(c, Disconnected), [Consumed(p)])
    else Out(c, [])
  }

  // Requests

  /** mqttsn_register. */
  function SendRegister(c: Client, id: u16, name: topicName, now: nat): Out {
    var b := ToState(c, Busy);
    Send(b.(message := Overwrite(b.message, 2, [0, 0] + Be(id) + name + [0])), REGISTER, 6 + |name|, true, now)
  }

  /** mqttsn_subscribe. */
  function SendSubscribe(c: Client, id: u16, name: topicName, qos: bool, now: nat): Out {
    var b := ToState(c, Busy);
    var o := Send(b.(message := Overwrite(b.message, 2, [if qos then QOS_1 else 0] + Be(id) + name + [0])),
                  SUBSCRIBE, 7 + |name|, true, now);
    Out(o.c.(message := SetDup(o.c.message)), o.ev)
  }

  /** The registration part of mqttsn_c_handler. */
  function RegisterNext(cfg: Config, c: Client, now: nat): Out {
    if c.state != Registering then
      Out(c, [])
    else if c.count >= |cfg.topics| then
      Out(ToState(c.(count := 0, registered := true), Connected), [AllRegistered])
    else
      var t := cfg.topics[c.count];
      var o := if t.subscribe then SendSubscribe(c, c.count, t.name, t.qos, now) else SendRegister(c, c.count, t.name, now);
      Out(o.c.(count := c.count + 1), o.ev)
  }

  /** The retry timer. */
  function Retry(c: Client, now: nat): Out {
    if c.tRetry == 0 || now < c.tRetry then
      Out(c, [])
    else if c.nRetries != 0 then
      Out(c.(nRetries := c.nRetries - 1, tRetry := now + T_RETRY, nextPing := now + KEEP_ALIVE), [Resent(Whole(c.message))])
    else
      Out(ToState(c, Disconnected), [])
  }

  function KeepAlive(c: Client, now: nat): Out {
    if c.state == Connected && now >= c.nextPing then Send(c, PINGREQ, 2, false, now) else Out(c, [])
  }

  function Timers(c: Client, now: nat): Out {
    var r := Retry(c, now);
    var k := KeepAlive(r.c, now);
    Out(k.c, r.ev + k.ev)
  }

  /** mqttsn_c_handler; an empty packet is a periodic call. */
  function Handle(cfg: Config, c: Client, p: seq<byte>, now: nat): Out {
    var t := Timers(c, now);
    var i := Inbound(cfg, t.c, p);
    var n := RegisterNext(cfg, i.c, now);
    Out(n.c, t.ev + i.ev + n.ev)
  }

  // Calls by the application

  /** mqttsn_c_connect. */
  function Connect(cfg: Config, c: Client, now: nat): Out {
    if c.state != Disconnected then
      Out(c, [])
    else
      var pad := seq(MAX_PACKET - 6 - |cfg.id|, _ => 0);
      var m: Message := c.message[..2] + [0, 1] + Be(KEEP_ALIVE) + cfg.id + pad;
      Send(ToState(c.(message := m), Connecting), CONNECT, 6 + |cfg.id|, true, now)
  }

  /** mqttsn_c_disconnect. */
  function Disconnect(c: Client, duration: u16, now: nat): Out {
    if c.state == Disconnected then
      Out(c, [])
    else
      var d := ToState(c, Disconnecting);
      Send(d.(message := Overwrite(d.message, 2, Be(duration))), DISCONNECT, if duration == 0 then 2 else 4, true, now)
  }

  predicate CanPublish(c: Client, data: seq<byte>) {
    c.state == Connected && 7 + |data| <= MAX_PACKET
  }

  /** mqttsn_c_publish. */
  function Publish(c: Client, topic: topicIndex, qos: bool, data: seq<byte>, now: nat): Out {
    if !CanPublish(c, data) then
      Out(c, [])
    else
      var id := (c.nextId + 1) % 0x1_0000;
      var b := (if qos then ToState(c, Busy) else c).(nextId := id);
      var m := Overwrite(b.message, 2, [if qos then QOS_1 else 0] + Be(c.topicIds[topic]) + Be(id) + data);
      var o := Send(b.(message := m), PUBLISH, 7 + |data|, qos, now);
      Out(o.c.(message := SetDup(o.c.message)), o.ev)
  }

  datatype Input =
    | DoHandle(packet: seq<byte>, now: nat)
    | DoConnect(now: nat)
    | DoDisconnect(duration: u16, now: nat)
    | DoPublish(topic: topicIndex, qos: bool, data: seq<byte>, now: nat)

  function Step(cfg: Config, c: Client, i: Input): Out {
    match i
    case DoHandle(p, now) => Handle(cfg, c, p, now)
    case DoConnect(now) => Connect(cfg, c, now)
    case DoDisconnect(duration, now) => Disconnect(c, duration, now)
    case DoPublish(topic, qos, data, now) => Publish(c, topic, qos, data, now)
  }

  /** Any sequence of calls. */
  function Run(cfg: Config, c: Client, ins: seq<Input>): Out {
    if ins == [] then
      Out(c, [])
    else
      var a := Run(cfg, c, ins[..|ins| - 1]);
      var b := Step(cfg, a.c, ins[|ins| - 1]);
      Out(b.c, a.ev + b.ev)
  }
}
