/** What a call of tinymac_send does, for every state: when something goes out, and what. */
module Transmission {
  import opened Words
  import opened MacTypes
  import opened MacSlot
  import opened MacMachine
  import opened Reception

  /** Data of at most 128 bytes, which with the header is within the MTU. */
  predicate Sendable(s: Mac, body: Body) {
    body.Data? && |body.bytes| <= 128 && |body.bytes| + 6 <= s.mtu
  }

  /** The slot is there and idle. */
  predicate Ready(s: Mac, dest: byte, k: nat) {
    Reaches(s, dest, k) && GetNode(s, k).state == Registered
  }

  /** The frame that a send makes. */
  function Packet(s: Mac, dest: byte, flags: Flags, body: Body): Frame {
    Frame(Header(flags, s.net, dest, s.addr, s.dseq + 1), body)
  }

  /** What the world sees of a send to slot `k`. */
  function Outward(n: Node, k: nat, f: Frame, cb: Callback): seq<Event> {
    if n.flags.sleepy then [Accepted(k, f, cb)]
    else if f.h.flags.wantsAck then [Accepted(k, f, cb), Sent(k, f)]
    else [SentDirect(k, f)]
  }

  /** The slot afterwards: a packet for a sleepy node waits for its validity, four ticks a second, or for a
      heartbeat if none is given; one that asks for an ack waits a tick for it. */
  function Inward(n: Node, f: Frame, validity: u16, cb: Callback, now: nat): Node {
    var m := n.(pending := f, sendCb := cb, retries := 3);
    if n.flags.sleepy then
      var seconds := if validity == 0 then Pow2(n.flags.heartbeat) else validity;
      m.(state := SendPending, validityTimer := Due(now + 4 * seconds))
    else if f.h.flags.wantsAck then m.(state := WaitAck, ackTimer := Due(now + 1))
    else n
  }

  lemma LookupReaches(s: Mac, dest: byte)
    ensures var r := Lookup(s, dest);
            if r.Some? then Reaches(s, dest, r.value) else forall k :: 0 <= k <= COORD ==> !Reaches(s, dest, k)
  {
    var r := Lookup(s, dest);
    forall k | 0 <= k < MAX_NODES && s.params.coordinator
      ensures Holder(s, k, dest) <==> AnswersTo(s.nodes[k], dest)
    {
    }
  }

  lemma OneReaches(s: Mac, dest: byte, j: nat, k: nat)
    requires Reaches(s, dest, j) && Reaches(s, dest, k)
    ensures j == k
  {
  }

  lemma TransmitIs(k: nat, n: Node, f: Frame, validity: u16, cb: Callback, now: nat)
    requires n.state == Registered
    ensures Transmit(k, n, f, SendValidity(n, validity), cb, now) ==
            NodeOut(Inward(n, f, validity, cb, now), Outward(n, k, f, cb))
  {
  }

  lemma SendToReady(s: Mac, k: nat, flags: Flags, body: Body, validity: u16, cb: Callback)
    requires k <= COORD && Sendable(s, body) && GetNode(s, k).state == Registered
    ensures var n := GetNode(s, k);
            var f := Packet(s, n.addr, flags, body);
            SendTo(s, k, flags, body, SendValidity(n, validity), cb) ==
            Out(SetNode(s.(dseq := s.dseq + 1), k, Inward(n, f, validity, cb, s.tick)), Outward(n, k, f, cb))
  {
    var n := GetNode(s, k);
    TransmitIs(k, n, Packet(s, n.addr, flags, body), validity, cb, s.tick);
  }

  lemma SendToBusy(s: Mac, k: nat, flags: Flags, body: Body, validity: u16, cb: Callback)
    requires k <= COORD && GetNode(s, k).state != Registered && body.Data?
    ensures SendTo(s, k, flags, body, validity, cb) == Out(if Sendable(s, body) then s.(dseq := s.dseq + 1) else s, [])
  {
  }

  /** A send to the slot that answers to `dest` transmits, defers or both exactly as the node and the flags
      call for, and marks the slot accordingly. */
  lemma SentIfReady(s: Mac, dest: byte, flags: Flags, body: Body, validity: u16, cb: Callback, k: nat)
    requires Sendable(s, body) && Ready(s, dest, k)
    ensures var f := Packet(s, dest, flags, body);
            var n := GetNode(s, k);
            Send(s, dest, flags, body, validity, cb) ==
            Out(SetNode(s.(dseq := s.dseq + 1), k, Inward(n, f, validity, cb, s.tick)), Outward(n, k, f, cb))
  {
    LookupReaches(s, dest);
    OneReaches(s, dest, Lookup(s, dest).value, k);
    SendToReady(s, k, flags, body, validity, cb);
  }

  /** And does nothing whatever, but for using up a number when the slot is busy, if it is not. */
  lemma RefusedUnlessReady(s: Mac, dest: byte, flags: Flags, body: Body, validity: u16, cb: Callback)
    requires !Sendable(s, body) || forall k :: 0 <= k <= COORD ==> !Ready(s, dest, k)
    ensures var o := Send(s, dest, flags, body, validity, cb);
            var busy := exists k :: 0 <= k <= COORD && Reaches(s, dest, k);
            o == Out(if Sendable(s, body) && busy then s.(dseq := s.dseq + 1) else s, [])
  {
    LookupReaches(s, dest);
    var r := Lookup(s, dest);
    if r.Some? && body.Data? && Sendable(s, body) {
      assert !Ready(s, dest, r.value);
      SendToBusy(s, r.value, flags, body, SendValidity(GetNode(s, r.value), validity), cb);
    }
  }

  lemma Shown(n: Node, k: nat, f: Frame, cb: Callback)
    ensures Outward(n, k, f, cb) != []
  {
  }

  /** Something is accepted or sent if and only if data that fits is offered to an idle slot with that
      address. */
  lemma SendsIff(s: Mac, dest: byte, flags: Flags, body: Body, validity: u16, cb: Callback)
    ensures Send(s, dest, flags, body, validity, cb).ev != [] <==>
            Sendable(s, body) && exists k :: 0 <= k <= COORD && Ready(s, dest, k)
  {
    if Sendable(s, body) && exists k :: 0 <= k <= COORD && Ready(s, dest, k) {
      var k :| 0 <= k <= COORD && Ready(s, dest, k);
      SentIfReady(s, dest, flags, body, validity, cb, k);
      Shown(GetNode(s, k), k, Packet(s, dest, flags, body), cb);
    } else {
      RefusedUnlessReady(s, dest, flags, body, validity, cb);
    }
  }
}
