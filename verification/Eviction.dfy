/** How a device that uses an address the coordinator does not know of loses it: the exchange between the
    two. */
module Eviction {
  import opened Words
  import opened MacTypes
  import opened MacSlot
  import opened MacMachine
  import opened Attachment
  import opened Network
  import opened Reception
  import opened Stages

  /** The coordinator's answer to an address that no live slot has. */
  function Invalid(c: Mac, addr: byte): Frame {
    Frame(Header(PLAIN, c.net, addr, c.addr, c.dseq + 1), RegResponse(0, 0xFF, 5))
  }

  /** A registered client of that network at that address. */
  predicate Uses(d: Mac, net: byte, addr: byte) {
    d.client == ClientRegistered && d.net == net && d.addr == addr
  }

  lemma AnswerTaken(w: World, p: nat, g: Frame, addr: byte)
    requires Inv(w) && 1 <= p < |w.devs| && addr != 0 && g == Invalid(w.devs[0], addr)
    requires Uses(w.devs[p], w.devs[0].net, addr)
    ensures Taken(w.devs[p], g.h) && g.body.uuid != w.devs[p].params.uuid && g.h.dest != 0xFF
  {
    var d := w.devs[p];
    assert DeviceOk(w.devs[0].nodes, 0, w.devs[0]) && DeviceOk(w.devs[0].nodes, p, d);
    assert Holder(d, COORD, 0);
  }

  lemma Evicted(d: Mac, g: Frame, ackSent: bool)
    requires !d.params.coordinator && Taken(d, g.h) && g.body == RegResponse(0, 0xFF, 5)
    requires d.params.uuid != 0 && g.h.dest != 0xFF
    ensures var o := Recv(d, g, ackSent).s; o.client == ClientUnregistered && o.addr == 0xFF && o.net == 0xFF
  {
    var from := ResponseTaken(d, g, ackSent);
  }

  lemma Airborne(w: World, p: nat, i: Input, o: Out, f: Frame)
    requires p < |w.devs| && Step(w.devs[p], i) == o && o.ev == [SentMac(f)]
    ensures Flying(Next(w, p, i), f)
  {
    assert o.ev[0] in o.ev;
    Emitted(w, p, i, SentMac(f));
  }

  lemma Answered(w: World, f: Frame, ackSent: bool)
    requires |w.devs| > 0 && w.devs[0].params.coordinator && w.devs[0].mtu >= 16
    requires ForMe(w.devs[0], f.h) && !Nameless(w.devs[0], f.h) && !Known(w.devs[0], f.h)
    ensures Flying(Next(w, 0, DoReceive(f, ackSent)), Invalid(w.devs[0], f.h.src))
  {
    var c := w.devs[0];
    var g := Invalid(c, f.h.src);
    ForMeIff(c, f.h);
    KnownIff(c, f.h);
    StrangerAnswered(c, f, ackSent);
    Airborne(w, 0, DoReceive(f, ackSent), Out(c.(dseq := c.dseq + 1), [SentMac(g)]), g);
  }

  /** In every world that a run can reach, a frame that comes to the coordinator from an address which no
      live slot has is answered; and every registered client of its network that has this address, on
      hearing the answer, gives up address and network. */
  lemma UnknownAddressLost(w: World, f: Frame, ackSent: bool, p: nat, again: bool)
    requires Inv(w) && Legal(w, 0, DoReceive(f, ackSent)) && 1 <= p < |w.devs|
    requires ForMe(w.devs[0], f.h) && f.h.src != 0xFF && !Known(w.devs[0], f.h) && w.devs[0].mtu >= 16
    requires Uses(w.devs[p], w.devs[0].net, f.h.src)
    ensures var g := Invalid(w.devs[0], f.h.src);
            var v := Next(w, 0, DoReceive(f, ackSent));
            && Legal(v, p, DoReceive(g, again))
            && var d := Next(v, p, DoReceive(g, again)).devs[p];
               d.client == ClientUnregistered && d.addr == 0xFF && d.net == 0xFF
  {
    var g := Invalid(w.devs[0], f.h.src);
    assert DeviceOk(w.devs[0].nodes, 0, w.devs[0]);
    Answered(w, f, ackSent);
    AnswerTaken(w, p, g, f.h.src);
    Evicted(w.devs[p], g, again);
  }
}
