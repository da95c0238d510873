/** A watcher that reads only the event log of one slot and knows the stop-and-wait protocol,
    and the proof that every node record follows it. */
module SlotProtocol {
  import opened Words
  import opened MacTypes
  import opened MacSlot

  /** What the log says about a slot: nothing in flight, one packet in flight that has been
      transmitted `attempts` times, or a log that no stop-and-wait sender may produce. */
  datatype Watch = Idle | Open(frame: Frame, cb: Callback, attempts: nat) | Bad

  predicate AboutSlot(e: Event) {
    e.Accepted? || e.Sent? || e.SentDirect? || e.Resolved?
  }

  predicate Concerns(k: nat, e: Event) {
    AboutSlot(e) && e.slot == k
  }

  /** At most one packet is in flight; it is transmitted unchanged and at most four times;
      nothing else goes out meanwhile; it ends in one outcome, reported to its own callback, and
      success is reported only for a packet that was transmitted. */
  function Observe(k: nat, w: Watch, e: Event): Watch {
    if !Concerns(k, e) then w
    else match e
      case Accepted(_, f, cb) => if w.Idle? then Open(f, cb, 0) else Bad
      case Sent(_, f) =>
        if w.Open? && f == w.frame && w.attempts <= MAX_RETRIES then w.(attempts := w.attempts + 1) else Bad
      case Resolved(_, cb, success) =>
        if w.Open? && cb == w.cb && (success ==> w.attempts > 0) then Idle else Bad
      case _ => if w.Idle? then Idle else Bad
  }

  function Follow(k: nat, w: Watch, ev: seq<Event>): Watch
    decreases |ev|
  {
    if ev == [] then w else Follow(k, Observe(k, w, ev[0]), ev[1..])
  }

  lemma {:induction false} FollowConcat(k: nat, w: Watch, a: seq<Event>, b: seq<Event>)
    ensures Follow(k, w, a + b) == Follow(k, Follow(k, w, a), b)
    decreases |a|
  {
    if a == [] {
      assert a + b == b;
    } else {
      assert (a + b)[1..] == a[1..] + b;
      FollowConcat(k, Observe(k, w, a[0]), a[1..], b);
    }
  }

  lemma FollowOne(k: nat, w: Watch, e: Event)
    ensures Follow(k, w, [e]) == Observe(k, w, e)
  {
    assert [e][1..] == [];
  }

  lemma FollowTwo(k: nat, w: Watch, d: Event, e: Event)
    ensures Follow(k, w, [d, e]) == Observe(k, Observe(k, w, d), e)
  {
    assert [d, e] == [d] + [e];
    FollowConcat(k, w, [d], [e]);
    FollowOne(k, w, d);
    FollowOne(k, Observe(k, w, d), e);
  }

  /** The log speaks of no slot but `k`. */
  predicate Only(k: nat, ev: seq<Event>) {
    forall e :: e in ev && AboutSlot(e) ==> e.slot == k
  }

  lemma {:induction false} FollowOther(j: nat, w: Watch, k: nat, ev: seq<Event>)
    requires Only(k, ev) && j != k
    ensures Follow(j, w, ev) == w
    decreases |ev|
  {
    if ev == [] {
    } else {
      assert ev[0] in ev;
      FollowOther(j, w, k, ev[1..]);
    }
  }

  // The coupling between a node record and its log

  predicate Carries(n: Node, w: Watch) {
    w.Open? && w.frame == n.pending && w.cb == n.sendCb
  }

  predicate Coupled(n: Node, w: Watch) {
    match n.state
    case SendPending =>
      && n.flags.sleepy && n.ackTimer.Off? && n.validityTimer.Due?
      && Carries(n, w) && w.attempts + n.retries == MAX_RETRIES
    case WaitAck =>
      && n.pending.h.flags.wantsAck
      && n.ackTimer.Due? && (n.validityTimer.Due? <==> n.flags.sleepy)
      && Carries(n, w) && w.attempts > 0 && w.attempts + n.retries == MAX_RETRIES + 1
    case _ =>
      n.ackTimer.Off? && n.validityTimer.Off? && w.Idle?
  }

  /** An operation on slot `k` follows the protocol and says nothing about other slots. */
  predicate Follows(k: nat, o: NodeOut, w: Watch) {
    Coupled(o.n, Follow(k, w, o.ev)) && Only(k, o.ev)
  }

  lemma FollowsThen(k: nat, o: NodeOut, p: NodeOut, w: Watch)
    requires Follows(k, o, w)
    requires Follows(k, p, Follow(k, w, o.ev))
    ensures Follows(k, NodeOut(p.n, o.ev + p.ev), w)
  {
    FollowConcat(k, w, o.ev, p.ev);
  }

  lemma TransmitFollows(k: nat, n: Node, f: Frame, validity: u16, cb: Callback, now: nat, w: Watch)
    requires Coupled(n, w)
    ensures Follows(k, Transmit(k, n, f, validity, cb, now), w)
  {
    FollowOne(k, w, Accepted(k, f, cb));
    FollowTwo(k, w, Accepted(k, f, cb), Sent(k, f));
    FollowOne(k, w, SentDirect(k, f));
  }

  lemma FlushFollows(k: nat, n: Node, now: nat, w: Watch)
    requires Coupled(n, w)
    ensures Follows(k, Flush(k, n, now), w)
  {
    FollowOne(k, w, Sent(k, n.pending));
    FollowTwo(k, w, Sent(k, n.pending), Resolved(k, n.sendCb, true));
  }

  lemma AckReceivedFollows(k: nat, n: Node, seqno: nat, w: Watch)
    requires Coupled(n, w)
    ensures Follows(k, AckReceived(k, n, seqno), w)
  {
    FollowOne(k, w, Resolved(k, n.sendCb, true));
  }

  lemma DespatchAckFollows(k: nat, n: Node, now: nat, w: Watch)
    requires Coupled(n, w)
    ensures Follows(k, DespatchAck(k, n, now), w)
  {
    FollowOne(k, w, Sent(k, n.pending));
    FollowTwo(k, w, Resolved(k, n.sendCb, false), NodeGone(k));
  }

  lemma DespatchValidityFollows(k: nat, n: Node, now: nat, w: Watch)
    requires Coupled(n, w)
    ensures Follows(k, DespatchValidity(k, n, now), w)
  {
    FollowOne(k, w, Resolved(k, n.sendCb, false));
  }

  lemma DespatchFollows(k: nat, n: Node, now: nat, w: Watch)
    requires Coupled(n, w)
    ensures Follows(k, Despatch(k, n, now), w)
  {
    var a := DespatchAck(k, n, now);
    DespatchAckFollows(k, n, now, w);
    DespatchValidityFollows(k, a.n, now, Follow(k, w, a.ev));
    FollowsThen(k, a, DespatchValidity(k, a.n, now), w);
  }

  lemma TickNodeFollows(k: nat, n: Node, now: nat, w: Watch)
    requires Coupled(n, w)
    ensures Follows(k, TickNode(k, n, now), w)
  {
    var h := Heartbeat(k, n, now);
    FollowOne(k, w, NodeGone(k));
    DespatchFollows(k, h.n, now, w);
    FollowsThen(k, h, Despatch(k, h.n, now), w);
  }
}
