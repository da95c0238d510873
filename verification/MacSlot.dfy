/** The stop-and-wait sender of one node record: the parts of lib/tinymac.c that read and write
    a single `tinymac_node_t`.  `k` is the slot the record sits in and `now` the tick count. */
module MacSlot {
  import opened Words
  import opened MacTypes

  datatype NodeOut = NodeOut(n: Node, ev: seq<Event>)

  /** tinymac_deregister_node, the node's part of it. */
  function Deregister(k: nat, n: Node): NodeOut {
    NodeOut(n.(state := Unregistered), [NodeGone(k)])
  }

  /** tinymac_ack_timeout; the despatcher has already cleared the timer. */
  function AckTimeout(k: nat, n: Node, now: nat): NodeOut {
    if n.retries != 0 then
      var m := n.(retries := n.retries - 1);
      if n.flags.sleepy then
        NodeOut(m.(state := SendPending), [])
      else
        NodeOut(m.(ackTimer := Due(now + ACK_TICKS)), [Sent(k, n.pending)])
    else
      var m := Deregister(k, n.(retries := 255, validityTimer := Off));
      NodeOut(m.n, [Resolved(k, n.sendCb, false)] + m.ev)
  }

  /** tinymac_validity_timeout. */
  function ValidityTimeout(k: nat, n: Node): NodeOut {
    NodeOut(n.(state := Registered, ackTimer := Off), [Resolved(k, n.sendCb, false)])
  }

  predicate Fires(t: Timer, now: nat) {
    t.Due? && t.at <= now
  }

  /** tinymac_despatch_timer on `ack_timer`. */
  function DespatchAck(k: nat, n: Node, now: nat): NodeOut {
    if Fires(n.ackTimer, now) then AckTimeout(k, n.(ackTimer := Off), now) else NodeOut(n, [])
  }

  /** tinymac_despatch_timer on `validity_timer`. */
  function DespatchValidity(k: nat, n: Node, now: nat): NodeOut {
    if Fires(n.validityTimer, now) then ValidityTimeout(k, n.(validityTimer := Off)) else NodeOut(n, [])
  }

  function Despatch(k: nat, n: Node, now: nat): NodeOut {
    var a := DespatchAck(k, n, now);
    var v := DespatchValidity(k, a.n, now);
    NodeOut(v.n, a.ev + v.ev)
  }

  function HeartbeatTicks(n: Node): nat {
    Seconds(Pow2(n.flags.heartbeat) + HEARTBEAT_GRACE)
  }

  /** The coordinator's heartbeat test, on 32-bit words as the program computes it. */
  predicate HeartbeatExpired(n: Node, now: nat) {
    Signed32(Wrap32(Wrap32(n.lastHeard) + HeartbeatTicks(n) - Wrap32(now))) <= 0
  }

  function Heartbeat(k: nat, n: Node, now: nat): NodeOut {
    if n.state == Registered && HeartbeatExpired(n, now) then Deregister(k, n) else NodeOut(n, [])
  }

  /** The coordinator's work for one node in tinymac_tick_handler. */
  function TickNode(k: nat, n: Node, now: nat): NodeOut {
    var h := Heartbeat(k, n, now);
    var d := Despatch(k, h.n, now);
    NodeOut(d.n, h.ev + d.ev)
  }

  predicate NeedsBuffer(n: Node, f: Frame) {
    f.h.flags.wantsAck || n.flags.sleepy
  }

  /** tinymac_tx_packet from the point where the header is built, for a unicast.  Nothing
      happens unless the destination is idle. */
  function Transmit(k: nat, n: Node, f: Frame, validity: u16, cb: Callback, now: nat): NodeOut {
    if n.state != Registered then
      NodeOut(n, [])
    else if NeedsBuffer(n, f) then
      var m := n.(pending := f, sendCb := cb, retries := MAX_RETRIES);
      if n.flags.sleepy then
        NodeOut(m.(validityTimer := Due(now + Seconds(validity)), state := SendPending), [Accepted(k, f, cb)])
      else
        NodeOut(m.(ackTimer := Due(now + ACK_TICKS), state := WaitAck), [Accepted(k, f, cb), Sent(k, f)])
    else
      NodeOut(n, [SentDirect(k, f)])
  }

  /** tinymac_tx_pending. */
  function Flush(k: nat, n: Node, now: nat): NodeOut {
    if n.state != SendPending then
      NodeOut(n, [])
    else if n.pending.h.flags.wantsAck then
      NodeOut(n.(state := WaitAck, ackTimer := Due(now + ACK_TICKS)), [Sent(k, n.pending)])
    else
      NodeOut(n.(state := Registered, validityTimer := Off),
              [Sent(k, n.pending), Resolved(k, n.sendCb, true)])
  }

  /** The acknowledgement case of tinymac_recv_cb. */
  function AckReceived(k: nat, n: Node, seqno: nat): NodeOut {
    if n.state == WaitAck && seqno % 256 == n.pending.h.seqno % 256 then
      NodeOut(n.(state := Registered, ackTimer := Off, validityTimer := Off), [Resolved(k, n.sendCb, true)])
    else
      NodeOut(n, [])
  }

  /** A registration request taken by this slot. */
  function Enrol(n: Node, uuid: u64, flags: Attach, now: nat): Node {
    n.(state := Registered, uuid := uuid, flags := flags, lastHeard := now)
  }
}
