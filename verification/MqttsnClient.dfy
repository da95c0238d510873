/** lib/mqttsn-client.c as a program: one message buffer and one table of topic ids, updated in
    place by the handlers. */
module MqttsnClient {
  import opened Words
  import opened MqttsnMachine
  import opened MqttsnRuns

  class MqttClient {
    const cfg: Config
    var state: State
    var count: nat
    const message: array<byte>
    var nRetries: nat
    var tRetry: nat
    var nextPing: nat
    var nextId: u16
    const topicIds: array<u16>
    var registered: bool
    var out: seq<Event>  // messages given to cb_send, callbacks, and packets acted on

    ghost predicate Shape()
      reads this
    {
      message.Length == MAX_PACKET && topicIds.Length == MAX_TOPICS
    }

    /** The client as a value. */
    ghost function Abs(): Client
      requires Shape()
      reads this, message, topicIds
    {
      Client(state, count, message[..], nRetries, tRetry, nextPing, nextId, topicIds[..], registered)
    }

    ghost function Seen(): View
      reads this
    {
      Follow(cfg, START, out)
    }

    /** The client is where its own traffic says it is. */
    ghost predicate InStep()
      reads this, message, topicIds
    {
      Shape() && Coupled(cfg, Abs(), Seen())
    }

    ghost predicate Valid()
      reads this, message, topicIds
    {
      InStep() && state != Registering
    }

    /** mqttsn_c_init. */
    constructor (cfg: Config)
      ensures Valid() && Abs() == Init() && out == [] && this.cfg == cfg && fresh(message) && fresh(topicIds)
    {
      this.cfg := cfg;
      state, count, nRetries, tRetry, nextPing, nextId, registered := Disconnected, 0, 0, 0, 0, 0, false;
      message := new byte[MAX_PACKET](_ => 0);
      topicIds := new u16[MAX_TOPICS](_ => 0);
      out := [];
      new;
      assert Abs() == Init();
      InitCoupled(cfg);
    }

    /** mqttsn_to_state. */
    method Enter(s: State)
      requires Shape()
      modifies this`state, this`nRetries, this`tRetry
      ensures Abs() == ToState(old(Abs()), s)
    {
      state, nRetries, tRetry := s, 0, 0;
    }

    /** Stores into the message buffer. */
    method Put(at: nat, bytes: seq<byte>)
      requires Shape() && at + |bytes| <= MAX_PACKET
      modifies message
      ensures message[..] == Overwrite(old(message[..]), at, bytes)
    {
      var n := 0;
      while n < |bytes|
        invariant n <= |bytes|
        invariant message[..] == Overwrite(old(message[..]), at, bytes[..n])
      {
        message[at + n] := bytes[n];
        n := n + 1;
      }
      assert bytes[..n] == bytes;
    }

    /** mqttsn_send. */
    method SendMessage(kind: byte, size: nat, retry: bool, now: nat)
      requires Shape() && 2 <= size <= MAX_PACKET
      modifies this`nRetries, this`tRetry, this`nextPing, this`out, message
      ensures var o := Send(old(Abs()), kind, size, retry, now); Abs() == o.c && out == old(out) + o.ev
    {
      message[0] := size;
      message[1] := kind;
      if retry {
        nRetries, tRetry := N_RETRY, now + T_RETRY;
      }
      nextPing := now + KEEP_ALIVE;
      out := out + [Sent(message[..size])];
      assert message[..size] == message[..][..size];
    }

    method MarkDup()
      requires Shape()
      modifies message
      ensures message[..] == SetDup(old(message[..]))
    {
      if message[2] < DUP {
        message[2] := message[2] + DUP;
      }
    }

    // Inbound packets

    /** mqttsn_connack_handler. */
    method ConnackHandler(p: seq<byte>)
      requires Shape() && |p| >= 2
      modifies this
      ensures var o := OnConnack(old(Abs()), p); Abs() == o.c && out == old(out) + o.ev
    {
      if |p| < 3 || state != Connecting || message[1] != CONNECT {
        return;
      }
      out := out + [Consumed(p)];
      if p[2] == ACCEPTED {
        count := 0;
        Enter(if registered then Connected else Registering);
      } else {
        Enter(Disconnected);
      }
    }

    /** mqttsn_regack_handler; the coupling puts the id that is written to in range. */
    method RegackHandler(p: seq<byte>)
      requires InStep() && |p| >= 2
      modifies this, topicIds
      ensures Shape()
      ensures var o := OnRegack(old(Abs()), p); Abs() == o.c && out == old(out) + o.ev
    {
      if |p| < 7 || state != Busy || message[1] != REGISTER || p[4..6] != message[4..6] {
        return;
      }
      IdInRange(p[4..6], 4);
      var id := FromBe(p[4], p[5]);
      if p[6] == ACCEPTED {
        topicIds[id] := FromBe(p[2], p[3]);
      }
      out := out + [Consumed(p)];
      Enter(Registering);
    }

    /** mqttsn_suback_handler. */
    method SubackHandler(p: seq<byte>)
      requires InStep() && |p| >= 2
      modifies this, topicIds
      ensures Shape()
      ensures var o := OnSuback(old(Abs()), p); Abs() == o.c && out == old(out) + o.ev
    {
      if |p| < 8 || state != Busy || message[1] != SUBSCRIBE || p[5..7] != message[3..5] {
        return;
      }
      IdInRange(p[5..7], 3);
      var id := FromBe(p[5], p[6]);
      if p[7] == ACCEPTED {
        topicIds[id] := FromBe(p[3], p[4]);
      }
      out := out + [Consumed(p)];
      Enter(Registering);
    }

    /** The id that a reply must carry is an index into the table. */
    lemma IdInRange(id: seq<byte>, at: nat)
      requires InStep() && state == Busy && ((message[1] == REGISTER && at == 4) || (message[1] == SUBSCRIBE && at == 3))
      requires |id| == 2 && id == message[at..at + 2]
      ensures FromBe(id[0], id[1]) < MAX_TOPICS
    {
      RequestId(cfg, Abs(), Seen());
      assert message[at..at + 2] == message[..][at..at + 2];
      assert id == [id[0], id[1]];
      FromBeOf(count - 1, id[0], id[1]);
    }

    /** mqttsn_puback_handler. */
    method PubackHandler(p: seq<byte>)
      requires Shape() && |p| >= 2
      modifies this
      ensures var o := OnPuback(old(Abs()), p); Abs() == o.c && out == old(out) + o.ev
    {
      if |p| < 7 || state != Busy || p[4..6] != message[5..7] {
        return;
      }
      out := out + [Consumed(p), PubAcked(FromBe(p[5], p[4]), p[6] == ACCEPTED)];
      Enter(Connected);
    }

    /** The search of mqttsn_publish_handler.  For any id but the reserved 0 it looks at the
        application's table only where there is an entry. */
    method FindSubscription(id: u16) returns (k: nat)
      requires InStep()
      ensures k == FirstSubscription(cfg, topicIds[..], id, 0)
    {
      k := 0;
      while k < MAX_TOPICS
        invariant k <= MAX_TOPICS
        invariant FirstSubscription(cfg, topicIds[..], id, 0) == FirstSubscription(cfg, topicIds[..], id, k)
      {
        if topicIds[k] == id {
          assert id != 0 ==> k < |cfg.topics|;
          if k < |cfg.topics| && cfg.topics[k].subscribe {
            return;
          }
        }
        k := k + 1;
      }
    }

    /** mqttsn_publish_handler. */
    method PublishHandler(p: seq<byte>)
      requires InStep() && |p| >= 2
      modifies this`out
      ensures var o := OnPublish(cfg, old(Abs()), p); Abs() == o.c && out == old(out) + o.ev
    {
      if |p| < 7 {
        return;
      }
      var k := FindSubscription(FromBe(p[3], p[4]));
      if k < MAX_TOPICS {
        out := out + [Published(k, p[7..])];
      }
    }

    /** The switch of mqttsn_c_handler. */
    method Dispatch(p: seq<byte>)
      requires InStep()
      modifies this, topicIds
      ensures Shape()
      ensures var o := Inbound(cfg, old(Abs()), p); Abs() == o.c && out == old(out) + o.ev
    {
      if |p| >= 2 && |p| >= p[0] {
        if p[1] == CONNACK {
          ConnackHandler(p);
        } else if p[1] == REGACK {
          RegackHandler(p);
        } else if p[1] == PUBLISH {
          PublishHandler(p);
        } else if p[1] == PUBACK {
          PubackHandler(p);
        } else if p[1] == SUBACK {
          SubackHandler(p);
        } else if p[1] == DISCONNECT {
          out := out + [Consumed(p)];
          Enter(Disconnected);
        }
      }
    }

    // Requests

    /** mqttsn_register. */
    method RequestRegister(id: u16, name: topicName, now: nat)
      requires Shape()
      modifies this, message
      ensures Shape()
      ensures var o := SendRegister(old(Abs()), id, name, now); Abs() == o.c && out == old(out) + o.ev
    {
      Enter(Busy);
      Put(2, [0, 0] + Be(id) + name + [0]);
      SendMessage(REGISTER, 6 + |name|, true, now);
    }

    /** mqttsn_subscribe. */
    method RequestSubscribe(id: u16, name: topicName, qos: bool, now: nat)
      requires Shape()
      modifies this, message
      ensures Shape()
      ensures var o := SendSubscribe(old(Abs()), id, name, qos, now); Abs() == o.c && out == old(out) + o.ev
    {
      Enter(Busy);
      Put(2, [if qos then QOS_1 else 0] + Be(id) + name + [0]);
      SendMessage(SUBSCRIBE, 7 + |name|, true, now);
      MarkDup();
    }

    method RegisterTopic(now: nat)
      requires Shape()
      modifies this, message
      ensures Shape()
      ensures var o := RegisterNext(cfg, old(Abs()), now); Abs() == o.c && out == old(out) + o.ev
    {
      if state == Registering {
        if count >= |cfg.topics| {
          count, registered := 0, true;
          out := out + [AllRegistered];
          Enter(Connected);
        } else {
          var t := cfg.topics[count];
          if t.subscribe {
            RequestSubscribe(count, t.name, t.qos, now);
          } else {
            RequestRegister(count, t.name, now);
          }
          count := count + 1;
        }
      }
    }

    /** The retry timer: the message goes out again, at the length it was first sent with. */
    method CheckRetry(now: nat)
      requires InStep()
      modifies this
      ensures Shape()
      ensures var o := Retry(old(Abs()), now); Abs() == o.c && out == old(out) + o.ev
    {
      if tRetry != 0 && now >= tRetry {
        if nRetries != 0 {
          assert message[..message[0]] == Whole(message[..]);
          nRetries, tRetry, nextPing := nRetries - 1, now + T_RETRY, now + KEEP_ALIVE;
          out := out + [Resent(message[..message[0]])];
        } else {
          Enter(Disconnected);
        }
      }
    }

    method CheckKeepAlive(now: nat)
      requires Shape()
      modifies this, message
      ensures Shape()
      ensures var o := KeepAlive(old(Abs()), now); Abs() == o.c && out == old(out) + o.ev
    {
      if state == Connected && now >= nextPing {
        SendMessage(PINGREQ, 2, false, now);
      }
    }

    method CheckTimers(now: nat)
      requires Valid()
      modifies this, message
      ensures Shape()
      ensures var o := Timers(old(Abs()), now); Abs() == o.c && out == old(out) + o.ev
    {
      CheckRetry(now);
      CheckKeepAlive(now);
      Regroup(old(out), Retry(old(Abs()), now).ev, KeepAlive(Retry(old(Abs()), now).c, now).ev);
    }

    /** mqttsn_c_handler; an empty packet is a periodic call. */
    method Handler(p: seq<byte>, now: nat)
      requires Valid()
      modifies this, message, topicIds
      ensures Valid()
      ensures var o := Handle(cfg, old(Abs()), p, now); Abs() == o.c && out == old(out) + o.ev
    {
      ghost var c, v := Abs(), Seen();
      ghost var t := Timers(c, now);
      ghost var i := Inbound(cfg, t.c, p);
      TimersFollow(cfg, c, v, now);
      HandleFollows(cfg, c, v, p, now);
      FollowConcat(cfg, START, out, t.ev);
      FollowConcat(cfg, START, out, Handle(cfg, c, p, now).ev);
      CheckTimers(now);
      Dispatch(p);
      RegisterTopic(now);
      Regroup(old(out), t.ev, i.ev);
      Regroup(old(out), t.ev + i.ev, RegisterNext(cfg, i.c, now).ev);
    }

    // Calls by the application

    /** mqttsn_c_connect. */
    method ConnectTo(now: nat)
      requires Valid()
      modifies this, message
      ensures Valid()
      ensures var o := Connect(cfg, old(Abs()), now); Abs() == o.c && out == old(out) + o.ev
    {
      ghost var c, v := Abs(), Seen();
      ConnectFollows(cfg, c, v, now);
      FollowConcat(cfg, START, out, Connect(cfg, c, now).ev);
      if state != Disconnected {
        return;
      }
      var pad := seq(MAX_PACKET - 6 - |cfg.id|, _ => 0);
      Put(2, [0, 1] + Be(KEEP_ALIVE) + cfg.id + pad);
      ConnectMessage(c.message, cfg.id, pad);
      Enter(Connecting);
      SendMessage(CONNECT, 6 + |cfg.id|, true, now);
    }

    /** mqttsn_c_disconnect. */
    method DisconnectFrom(duration: u16, now: nat)
      requires Valid()
      modifies this, message
      ensures Valid()
      ensures var o := Disconnect(old(Abs()), duration, now); Abs() == o.c && out == old(out) + o.ev
    {
      ghost var c, v := Abs(), Seen();
      DisconnectFollows(cfg, c, v, duration, now);
      FollowConcat(cfg, START, out, Disconnect(c, duration, now).ev);
      if state == Disconnected {
        return;
      }
      Enter(Disconnecting);
      Put(2, Be(duration));
      SendMessage(DISCONNECT, if duration == 0 then 2 else 4, true, now);
    }

    /** The part of mqttsn_c_publish that builds the message. */
    method BuildPublish(topic: topicIndex, qos: bool, data: seq<byte>)
      requires Shape() && CanPublish(Abs(), data)
      modifies this, message
      ensures Shape() && out == old(out)
      ensures var c := old(Abs());
              var id := (c.nextId + 1) % 0x1_0000;
              var m := Overwrite(c.message, 2, [if qos then QOS_1 else 0] + Be(c.topicIds[topic]) + Be(id) + data);
              Abs() == (if qos then ToState(c, Busy) else c).(nextId := id, message := m)
      ensures message[5] == nextId / 256 && message[6] == nextId % 256
    {
      ghost var m: Message := message[..];
      if qos {
        Enter(Busy);
      }
      nextId := (nextId + 1) % 0x1_0000;
      Put(2, [if qos then QOS_1 else 0] + Be(topicIds[topic]) + Be(nextId) + data);
      PublishId(message[..], [if qos then QOS_1 else 0] + Be(topicIds[topic]), nextId, data, m);
    }

    method SendPublish(topic: topicIndex, qos: bool, data: seq<byte>, now: nat) returns (id: u16)
      requires Shape() && CanPublish(Abs(), data)
      modifies this, message
      ensures Shape()
      ensures var o := Publish(old(Abs()), topic, qos, data, now); Abs() == o.c && out == old(out) + o.ev
      ensures id == FromBe(nextId % 256, nextId / 256)
    {
      BuildPublish(topic, qos, data);
      ghost var m := message[..];
      SendMessage(PUBLISH, 7 + |data|, qos, now);
      MarkDup();
      assert message[..][5] == m[5] && message[..][6] == m[6];
      id := FromBe(message[6], message[5]);
    }

    /** mqttsn_c_publish: the message id as it is in memory, or 0. */
    method PublishData(topic: topicIndex, qos: bool, data: seq<byte>, now: nat) returns (id: u16)
      requires Valid()
      modifies this, message
      ensures Valid()
      ensures var o := Publish(old(Abs()), topic, qos, data, now); Abs() == o.c && out == old(out) + o.ev
      ensures id == if CanPublish(old(Abs()), data) then FromBe(nextId % 256, nextId / 256) else 0
    {
      ghost var c, v := Abs(), Seen();
      PublishFollows(cfg, c, v, topic, qos, data, now);
      FollowConcat(cfg, START, out, Publish(c, topic, qos, data, now).ev);
      if state != Connected || 7 + |data| > MAX_PACKET {
        return 0;
      }
      id := SendPublish(topic, qos, data, now);
    }
  }

  lemma ConnectMessage(m: Message, id: clientName, pad: seq<byte>)
    requires |pad| == MAX_PACKET - 6 - |id|
    ensures Overwrite(m, 2, [0, 1] + Be(KEEP_ALIVE) + id + pad) == m[..2] + [0, 1] + Be(KEEP_ALIVE) + id + pad
  {
  }

  lemma PublishId(n: Message, head: seq<byte>, id: u16, data: seq<byte>, m: Message)
    requires |head| == 3 && 7 + |data| <= MAX_PACKET && n == Overwrite(m, 2, head + Be(id) + data)
    ensures n[5] == id / 256 && n[6] == id % 256
  {
  }
}
