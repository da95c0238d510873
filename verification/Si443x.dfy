/** The transmit loop of lib/phy-si443x.c: a walk over fragments that fills the radio's FIFO and can
    be interrupted after any byte.

    The hardware is a pair of functions: whether the interrupt line is low when the n-th byte has
    been written, and the driver state that the event handler leaves behind in the i-th turn. */
module Si443x {
  import opened Words

  datatype State = Standby | Listen | Rx | RxReady | RxValid | RxInvalid | FifoError | Tx | TxBusy

  datatype Hardware = Hardware(irq: nat -> bool, after: nat -> State)

  predicate Idle(s: State) { s == Standby || s == Listen }

  // The same loop with a counter in place of the fragment list

  /** A fill goes on until an interrupt is pending or all `total` bytes are written. */
  function FillTo(hw: Hardware, sent: nat, total: nat): (n: nat)
    requires sent <= total
    ensures sent <= n <= total && (sent < total ==> sent < n)
    ensures n == total || (sent < n && hw.irq(n))
    ensures forall k :: sent < k < n ==> !hw.irq(k)
    decreases total - sent
  {
    if sent == total || hw.irq(sent + 1) then (if sent == total then sent else sent + 1)
    else FillTo(hw, sent + 1, total)
  }

  /** Bytes written, times the transmitter has been enabled, and the driver's state. */
  datatype Progress = Progress(sent: nat, enabled: nat, state: State)

  predicate Bounded(p: Progress, total: nat) { p.sent <= total && p.enabled <= 1 }

  /** One turn of the do-while loop. */
  function Turn(hw: Hardware, i: nat, total: nat, p: Progress): (q: Progress)
    requires Bounded(p, total)
    ensures Bounded(q, total) && p.sent <= q.sent && p.enabled <= q.enabled
  {
    var sent := if p.state == Tx then FillTo(hw, p.sent, total) else p.sent;
    var state := hw.after(i);
    Progress(sent, if p.enabled == 0 && (state == TxBusy || sent == total) then 1 else p.enabled, state)
  }

  /** The first `n` turns; no turn but the first is taken when everything has been written. */
  function Turns(hw: Hardware, total: nat, n: nat): (p: Progress)
    ensures Bounded(p, total)
    decreases n
  {
    if n == 0 then
      Progress(0, 0, Tx)
    else
      var p := Turns(hw, total, n - 1);
      if n > 1 && p.sent == total then p else Turn(hw, n - 1, total, p)
  }

  /** Nothing happens to the FIFO or the transmit mode once everything is written. */
  lemma {:induction false} Settled(hw: Hardware, total: nat, m: nat, n: nat)
    requires 1 <= m <= n && Turns(hw, total, m).sent == total
    ensures Turns(hw, total, n) == Turns(hw, total, m)
    decreases n
  {
    if m == n {
    } else {
      Settled(hw, total, m, n - 1);
    }
  }

  /** More turns never take a byte back, and never disable what was enabled. */
  lemma {:induction false} TurnsGrow(hw: Hardware, total: nat, m: nat, n: nat)
    requires m <= n
    ensures Turns(hw, total, m).sent <= Turns(hw, total, n).sent
    ensures Turns(hw, total, m).enabled <= Turns(hw, total, n).enabled
    decreases n
  {
    if m == n {
    } else {
      TurnsGrow(hw, total, m, n - 1);
    }
  }

  /** The turn with index `i` was taken, and left the FIFO full or everything written. */
  predicate Starts(hw: Hardware, total: nat, i: nat) {
    && (i == 0 || Turns(hw, total, i).sent < total)
    && (hw.after(i) == TxBusy || Turns(hw, total, i + 1).sent == total)
  }

  /** The transmitter is enabled exactly when a turn has asked for it, and then once. */
  lemma {:induction false} EnabledIff(hw: Hardware, total: nat, n: nat)
    ensures Turns(hw, total, n).enabled == (if exists i :: 0 <= i < n && Starts(hw, total, i) then 1 else 0)
    decreases n
  {
    if n == 0 {
    } else {
      EnabledIff(hw, total, n - 1);
      var p := Turns(hw, total, n - 1);
      if n > 1 && p.sent == total {
        assert !Starts(hw, total, n - 1);
      } else {
        assert Starts(hw, total, n - 1) <==> hw.after(n - 1) == TxBusy || Turns(hw, total, n).sent == total;
      }
    }
  }

  // How much is written, read off the hardware alone

  /** Turn `i` finds the driver in Tx: it is the first, or the event handler left Tx behind in the one
      before. */
  predicate Fills(hw: Hardware, i: nat) { i == 0 || hw.after(i - 1) == Tx }

  /** How many of the first `n` turns find it so. */
  function Fillings(hw: Hardware, n: nat): nat {
    if n == 0 then 0 else Fillings(hw, n - 1) + if Fills(hw, n - 1) then 1 else 0
  }

  /** After how many of the first `m` bytes an interrupt is pending. */
  function Interrupts(hw: Hardware, m: nat): nat {
    if m == 0 then 0 else Interrupts(hw, m - 1) + if hw.irq(m) then 1 else 0
  }

  /** More turns fill than there are interrupts before the last byte. */
  predicate AllWritten(hw: Hardware, total: nat, n: nat) {
    total == 0 || Fillings(hw, n) > Interrupts(hw, total - 1)
  }

  /** The byte at which turn `n` stops when it starts after `from` bytes. */
  predicate StopsAt(hw: Hardware, total: nat, from: nat, m: nat) {
    from < m <= total && (m == total || hw.irq(m)) && forall j :: from < j < m ==> !hw.irq(j)
  }

  lemma StateBefore(hw: Hardware, total: nat, n: nat)
    requires Turns(hw, total, n).sent < total
    ensures Turns(hw, total, n).state == Tx <==> Fills(hw, n)
  {
    if n > 1 {
      TurnsGrow(hw, total, n - 1, n);
    }
  }

  /** A turn that finds the driver in Tx with bytes to write goes on to the next one after which an
      interrupt is pending, or to the last; any other writes nothing. */
  lemma TurnWrites(hw: Hardware, total: nat, n: nat)
    ensures var a, b := Turns(hw, total, n).sent, Turns(hw, total, n + 1).sent;
            if Fills(hw, n) && a < total then StopsAt(hw, total, a, b) else b == a
  {
    if Turns(hw, total, n).sent < total {
      StateBefore(hw, total, n);
    }
  }

  lemma {:induction false} QuietBetween(hw: Hardware, a: nat, b: nat)
    requires a <= b && forall j :: a < j <= b ==> !hw.irq(j)
    ensures Interrupts(hw, a) == Interrupts(hw, b)
    decreases b
  {
    if a == b {
    } else {
      QuietBetween(hw, a, b - 1);
    }
  }

  lemma {:induction false} InterruptsGrow(hw: Hardware, a: nat, b: nat)
    requires a <= b
    ensures Interrupts(hw, a) <= Interrupts(hw, b)
    decreases b
  {
    if a == b {
    } else {
      InterruptsGrow(hw, a, b - 1);
    }
  }

  /** After `n` turns everything is written, or just the bytes up to the interrupt whose number is that of
      the turns that filled. */
  lemma {:induction false} WrittenIs(hw: Hardware, total: nat, n: nat)
    ensures var m := Turns(hw, total, n).sent;
            if AllWritten(hw, total, n) then m == total
            else m < total && Interrupts(hw, m) == Fillings(hw, n) && (if m == 0 then Fillings(hw, n) == 0 else hw.irq(m))
    decreases n
  {
    if n == 0 {
    } else {
      WrittenIs(hw, total, n - 1);
      TurnWrites(hw, total, n - 1);
      var a, b := Turns(hw, total, n - 1).sent, Turns(hw, total, n).sent;
      if a < total && Fills(hw, n - 1) {
        QuietBetween(hw, a, b - 1);
        if b < total {
          InterruptsGrow(hw, b, total - 1);
        }
      } else if a < total {
        InterruptsGrow(hw, a, total - 1);
      }
    }
  }

  /** Everything is written within `n` turns if and only if more of them fill than there are interrupts on
      the way. */
  lemma AllWrittenIff(hw: Hardware, total: nat, n: nat)
    ensures Turns(hw, total, n).sent == total <==> AllWritten(hw, total, n)
  {
    WrittenIs(hw, total, n);
  }

  /** With no interrupt the first turn writes everything. */
  lemma UndisturbedFill(hw: Hardware, total: nat)
    requires forall j :: 0 < j < total ==> !hw.irq(j)
    ensures Turns(hw, total, 1).sent == total
  {
    if total > 0 {
      QuietBetween(hw, 0, total - 1);
    }
    assert Fillings(hw, 1) == 1 + Fillings(hw, 0);
    AllWrittenIff(hw, total, 1);
  }

  /** The fragment walk stands where `written` says. */
  predicate At(bufs: seq<seq<byte>>, written: seq<byte>, buf: seq<byte>, ptr: nat) {
    ptr <= |bufs| && Flatten(bufs) == written + buf + Flatten(bufs[ptr..])
  }

  lemma NextFragment(bufs: seq<seq<byte>>, written: seq<byte>, ptr: nat)
    requires At(bufs, written, [], ptr) && |written| < |Flatten(bufs)|
    ensures ptr < |bufs| && At(bufs, written, bufs[ptr], ptr + 1)
  {
    if ptr < |bufs| {
      FlattenRest(bufs, ptr);
      assert written + [] + (bufs[ptr] + Flatten(bufs[ptr + 1..])) == written + bufs[ptr] + Flatten(bufs[ptr + 1..]);
    }
  }

  lemma ByteMoves(bufs: seq<seq<byte>>, written: seq<byte>, buf: seq<byte>, ptr: nat)
    requires At(bufs, written, buf, ptr) && buf != []
    ensures At(bufs, written + [buf[0]], buf[1..], ptr)
  {
    assert buf == [buf[0]] + buf[1..];
    assert written + buf == written + [buf[0]] + buf[1..];
  }

  lemma WrittenIsPrefix(bufs: seq<seq<byte>>, written: seq<byte>, buf: seq<byte>, ptr: nat)
    requires At(bufs, written, buf, ptr)
    ensures |written| <= |Flatten(bufs)| && written == Flatten(bufs)[..|written|]
  {
  }

  /** The driver while it sends: what it has written to the FIFO, the fragment it is in, and the
      fragments still to come. */
  class Sender {
    const bufs: seq<seq<byte>>
    var size: nat            // bytes still to write
    var buf: seq<byte>       // what is left of the current fragment
    var ptr: nat             // the next fragment
    var state: State
    var started: bool
    var written: seq<byte>   // FIFO writes, in order
    var enabled: nat         // times transmit mode was entered

    ghost predicate Valid()
      reads this
    {
      && At(bufs, written, buf, ptr)
      && size + |written| == |Flatten(bufs)|
      && started == (enabled == 1) && enabled <= 1
    }

    ghost function Abstract(): Progress
      reads this
    {
      Progress(|written|, enabled, state)
    }

    constructor (bufs: seq<seq<byte>>)
      requires |bufs| > 0
      ensures Valid() && this.bufs == bufs && Abstract() == Progress(0, 0, Tx)
    {
      this.bufs := bufs;
      state, started, written, enabled := Tx, false, [], 0;
      buf, ptr := bufs[0], 1;
      var n, total := 0, 0;
      while n < |bufs|
        invariant n <= |bufs| && total + |Flatten(bufs[n..])| == |Flatten(bufs)|
      {
        FlattenRest(bufs, n);
        total := total + |bufs[n]|;
        n := n + 1;
      }
      size := total;
      new;
      FlattenRest(bufs, 0);
      assert bufs[0..] == bufs;
    }

    /** Moves to the next fragment that has a byte, and writes that byte. */
    method WriteByte()
      requires Valid() && size > 0
      modifies this`buf, this`ptr, this`size, this`written
      ensures Valid() && |written| == |old(written)| + 1
    {
      while |buf| == 0
        invariant Valid() && size > 0 && written == old(written)
        decreases |bufs| - ptr
      {
        NextFragment(bufs, written, ptr);
        buf := bufs[ptr];
        ptr := ptr + 1;
      }
      ByteMoves(bufs, written, buf, ptr);
      written := written + [buf[0]];
      buf := buf[1..];
      size := size - 1;
    }

    /** Copies to the FIFO until everything is written or an event is pending. */
    method Fill(hw: Hardware)
      requires Valid()
      modifies this`buf, this`ptr, this`size, this`written
      ensures Valid() && |written| == FillTo(hw, |old(written)|, |Flatten(bufs)|)
    {
      ghost var target := FillTo(hw, |written|, |Flatten(bufs)|);
      while size > 0
        invariant Valid() && |written| <= |Flatten(bufs)|
        invariant target == FillTo(hw, |written|, |Flatten(bufs)|)
        decreases size
      {
        WriteByte();
        if hw.irq(|written|) {
          break;
        }
      }
    }

    /** The body of the do-while loop, in the `i`-th turn. */
    method TakeTurn(hw: Hardware, i: nat)
      requires Valid()
      modifies this
      ensures Valid() && Bounded(old(Abstract()), |Flatten(bufs)|)
      ensures Abstract() == Turn(hw, i, |Flatten(bufs)|, old(Abstract()))
    {
      if state == Tx {
        Fill(hw);
      }
      state := hw.after(i);
      if !started && (state == TxBusy || size == 0) {
        enabled := enabled + 1;
        started := true;
      }
    }
  }

  datatype Outcome = Refused | Filling | Draining | Sent

  /** The do-while loop of phy_send, for at most `budget` turns. */
  method FillAll(sender: Sender, hw: Hardware, budget: nat) returns (i: nat)
    requires sender.Valid() && sender.Abstract() == Progress(0, 0, Tx)
    modifies sender
    ensures sender.Valid() && i <= budget
    ensures var total := |Flatten(sender.bufs)|;
            && sender.Abstract() == Turns(hw, total, i)
            && (i == budget || (i > 0 && |sender.written| == total))
            && (forall m :: 0 < m < i ==> Turns(hw, total, m).sent < total)
  {
    ghost var total := |Flatten(sender.bufs)|;
    i := 0;
    while (i == 0 || sender.size > 0) && i < budget
      invariant i <= budget && sender.Valid() && sender.Abstract() == Turns(hw, total, i)
      invariant forall m :: 0 < m < i ==> Turns(hw, total, m).sent < total
      decreases budget - i
    {
      sender.TakeTurn(hw, i);
      i := i + 1;
    }
  }

  /** The wait for completion, from the `k`-th turn on. */
  method Drain(hw: Hardware, k: nat, budget: nat) returns (gone: bool)
    requires 1 <= k <= budget
    ensures gone <==> exists j :: k - 1 <= j < budget && hw.after(j) == Standby
  {
    var i, state := k, hw.after(k - 1);
    while state != Standby && i < budget
      invariant k <= i <= budget && state == hw.after(i - 1)
      invariant forall j :: k - 1 <= j < i - 1 ==> hw.after(j) != Standby
      decreases budget - i
    {
      state := hw.after(i);
      i := i + 1;
    }
    gone := state == Standby;
  }

  /** Everything was written by the turn with index `j`, and it found the packet sent. */
  predicate Gone(hw: Hardware, total: nat, j: nat) {
    hw.after(j) == Standby && AllWritten(hw, total, j + 1)
  }

  lemma GoneIff(hw: Hardware, total: nat, k: nat, j: nat)
    requires k > 0 && Turns(hw, total, k).sent == total && forall m :: 0 < m < k ==> Turns(hw, total, m).sent < total
    ensures Gone(hw, total, j) <==> k - 1 <= j && hw.after(j) == Standby
  {
    AllWrittenIff(hw, total, j + 1);
    if k <= j + 1 {
      Settled(hw, total, k, j + 1);
    }
  }

  lemma EnabledWhenWritten(hw: Hardware, total: nat, k: nat)
    requires k > 0 && Turns(hw, total, k).sent == total && forall m :: 0 < m < k ==> Turns(hw, total, m).sent < total
    ensures Turns(hw, total, k).enabled == 1
  {
    EnabledIff(hw, total, k);
    assert Starts(hw, total, k - 1);
  }

  /** phy_send, observed for at most `budget` calls of the event handler after the first; `found` is
      the state that the first one leaves.  Everything is written, once, and the transmitter enabled
      once by the time it succeeds, which it does exactly when a turn that comes after the last byte
      finds the packet sent. */
  method PhySend(bufs: seq<seq<byte>>, found: State, hw: Hardware, budget: nat)
    returns (outcome: Outcome, written: seq<byte>, enabled: nat)
    requires |bufs| > 0
    ensures outcome == Refused <==> found != Standby && found != Listen
    ensures outcome == Refused ==> written == [] && enabled == 0
    ensures outcome != Refused ==>
              var p := Turns(hw, |Flatten(bufs)|, budget);
              written == Flatten(bufs)[..p.sent] && enabled == p.enabled
    ensures outcome == Filling <==> Idle(found) && (budget == 0 || !AllWritten(hw, |Flatten(bufs)|, budget))
    ensures outcome == Draining || outcome == Sent ==> written == Flatten(bufs) && enabled == 1
    ensures outcome == Sent <==> Idle(found) && exists j :: 0 <= j < budget && Gone(hw, |Flatten(bufs)|, j)
  {
    if !Idle(found) {
      return Refused, [], 0;
    }
    var sender := new Sender(bufs);
    var k := FillAll(sender, hw, budget);
    WrittenIsPrefix(bufs, sender.written, sender.buf, sender.ptr);
    AllWrittenIff(hw, |Flatten(bufs)|, budget);
    written, enabled := sender.written, sender.enabled;
    ghost var total := |Flatten(bufs)|;
    if k == 0 || sender.size > 0 {
      NotGone(hw, total, budget);
      return Filling, written, enabled;
    }
    Settled(hw, total, k, budget);
    EnabledWhenWritten(hw, total, k);
    assert written == Flatten(bufs);
    var gone := Drain(hw, k, budget);
    forall j: nat
      ensures Gone(hw, total, j) <==> k - 1 <= j && hw.after(j) == Standby
    {
      GoneIff(hw, total, k, j);
    }
    outcome := if gone then Sent else Draining;
  }

  lemma NotGone(hw: Hardware, total: nat, budget: nat)
    requires budget == 0 || Turns(hw, total, budget).sent < total
    ensures !exists j :: 0 <= j < budget && Gone(hw, total, j)
  {
    forall j | 0 <= j < budget
      ensures !Gone(hw, total, j)
    {
      AllWrittenIff(hw, total, j + 1);
      TurnsGrow(hw, total, j + 1, budget);
    }
  }
}
