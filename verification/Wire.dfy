/** The bytes of a TinyHAN frame: six header bytes and a payload, little-endian. */
module Wire {
  import opened Words
  import opened MacTypes

  // tinymac_packet_type_t
  const BEACON := 0
  const BEACON_REQUEST := 1
  const POLL := 2
  const ACK := 3
  const REG_REQUEST := 4
  const DEREG_REQUEST := 5
  const REG_RESPONSE := 6

  function Bit(b: bool): nat { if b then 1 else 0 }

  function TypeCode(b: Body): (t: nat)
    ensures t < 32
  {
    match b
    case Beacon(_, _, _, _, _, _, _) => BEACON
    case BeaconRequest => BEACON_REQUEST
    case Poll => POLL
    case Ack => ACK
    case RegRequest(_, _) => REG_REQUEST
    case DeregRequest(_, _) => DEREG_REQUEST
    case RegResponse(_, _, _) => REG_RESPONSE
    case Data(t, _) => t
    case Unsupported(code, _) => code
  }

  function AttachWord(a: Attach): u16 {
    a.heartbeat + 16 * Bit(a.sleepy) + 32 * a.spare
  }

  function ToAttach(x: u16): Attach {
    Attach(x % 16, x / 16 % 2 == 1, x / 32)
  }

  function Payload(b: Body): (p: seq<byte>)
    ensures |p| == BodySize(b)
  {
    match b
    case Beacon(uuid, timestamp, sync, permit, spare, interval, addrs) =>
      Le(uuid, 8) + Le(timestamp, 2) + [Bit(sync) + 2 * Bit(permit) + 4 * spare, interval] + addrs
    case RegRequest(uuid, attach) => Le(uuid, 8) + Le(AttachWord(attach), 2)
    case DeregRequest(uuid, reason) => Le(uuid, 8) + [reason]
    case RegResponse(uuid, addr, status) => Le(uuid, 8) + [addr, status]
    case Data(_, bytes) => bytes
    case Unsupported(_, bytes) => bytes
    case _ => []
  }

  function FlagsLow(f: Frame): byte {
    TypeCode(f.body) + 32 * Bit(f.h.flags.bit5) + 64 * Bit(f.h.flags.wantsAck) + 128 * Bit(f.h.flags.dataPending)
  }

  function Encode(f: Frame): (buf: seq<byte>)
    ensures |buf| == HEADER_SIZE + BodySize(f.body)
  {
    [FlagsLow(f), f.h.flags.high, f.h.net, f.h.dest, f.h.src, f.h.seqno % 256] + Payload(f.body)
  }

  function ToFlags(low: byte, high: byte): Flags {
    Flags(low / 64 % 2 == 1, low / 128 % 2 == 1, low / 32 % 2 == 1, high)
  }

  function Word64(p: seq<byte>): u64
    requires |p| == 8
  {
    LeValueBound(p);
    assert Pow256(8) == 0x1_0000_0000_0000_0000;
    LeValue(p)
  }

  function Word16(p: seq<byte>): u16
    requires |p| == 2
  {
    LeValueBound(p);
    assert Pow256(2) == 0x1_0000;
    LeValue(p)
  }

  /** The size checks and structure overlays of tinymac_recv_cb. */
  function ToBody(t: nat, p: seq<byte>): Body
    requires t < 32
  {
    if t >= 16 then Data(t, p)
    else if t == BEACON && |p| >= 12 then
      Beacon(Word64(p[..8]), Word16(p[8..10]), p[10] % 2 == 1, p[10] / 2 % 2 == 1, p[10] / 4, p[11], p[12..])
    else if t == BEACON_REQUEST then BeaconRequest
    else if t == POLL then Poll
    else if t == ACK then Ack
    else if t == REG_REQUEST && |p| >= 10 then RegRequest(Word64(p[..8]), ToAttach(Word16(p[8..10])))
    else if t == DEREG_REQUEST && |p| >= 9 then DeregRequest(Word64(p[..8]), p[8])
    else if t == REG_RESPONSE && |p| >= 10 then RegResponse(Word64(p[..8]), p[8], p[9])
    else Unsupported(t, p)
  }

  /** A received buffer, unless it is too short for a header. */
  function Parse(buf: seq<byte>): Option<Frame> {
    if |buf| < HEADER_SIZE then None
    else Some(Frame(Header(ToFlags(buf[0], buf[1]), buf[2], buf[3], buf[4], buf[5]),
                    ToBody(buf[0] % 32, buf[HEADER_SIZE..])))
  }

  /** The frame as a receiver sees it. */
  function OnAir(f: Frame): Frame {
    f.(h := f.h.(seqno := f.h.seqno % 256))
  }

  lemma Word64RoundTrip(x: u64)
    ensures Word64(Le(x, 8)) == x
  {
    assert Pow256(8) == 0x1_0000_0000_0000_0000;
    LeRoundTrip(x, 8);
  }

  lemma Word16RoundTrip(x: u16)
    ensures Word16(Le(x, 2)) == x
  {
    assert Pow256(2) == 0x1_0000;
    LeRoundTrip(x, 2);
  }

  lemma AttachRoundTrip(a: Attach)
    ensures ToAttach(AttachWord(a)) == a
  {
  }

  lemma FlagsRoundTrip(f: Frame)
    ensures ToFlags(FlagsLow(f), f.h.flags.high) == f.h.flags && FlagsLow(f) % 32 == TypeCode(f.body)
  {
  }

  lemma BeaconFlagsRoundTrip(sync: bool, permit: bool, spare: bits6)
    ensures var x := Bit(sync) + 2 * Bit(permit) + 4 * spare;
            (x % 2 == 1 <==> sync) && (x / 2 % 2 == 1 <==> permit) && x / 4 == spare
  {
  }

  lemma BodyRoundTrip(b: Body)
    requires !b.Unsupported?
    ensures ToBody(TypeCode(b), Payload(b)) == b
  {
    var p := Payload(b);
    match b {
      case Beacon(uuid, timestamp, sync, permit, spare, interval, addrs) =>
        assert p[..8] == Le(uuid, 8) && p[8..10] == Le(timestamp, 2) && p[12..] == addrs;
        Word64RoundTrip(uuid);
        Word16RoundTrip(timestamp);
        BeaconFlagsRoundTrip(sync, permit, spare);
      case RegRequest(uuid, attach) =>
        assert p[..8] == Le(uuid, 8) && p[8..10] == Le(AttachWord(attach), 2);
        Word64RoundTrip(uuid);
        Word16RoundTrip(AttachWord(attach));
        AttachRoundTrip(attach);
      case DeregRequest(uuid, reason) =>
        assert p[..8] == Le(uuid, 8);
        Word64RoundTrip(uuid);
      case RegResponse(uuid, addr, status) =>
        assert p[..8] == Le(uuid, 8);
        Word64RoundTrip(uuid);
      case _ =>
    }
  }

  /** Every frame a MAC sends is read back whole, but for the high part of its sequence number. */
  lemma FrameRoundTrip(f: Frame)
    requires !f.body.Unsupported?
    ensures Parse(Encode(f)) == Some(OnAir(f))
  {
    FlagsRoundTrip(f);
    BodyRoundTrip(f.body);
    assert Encode(f)[HEADER_SIZE..] == Payload(f.body);
  }

  // Where everything is

  /** Two bytes of a buffer as a number, low byte first. */
  function Low16(b: seq<byte>, at: nat): nat
    requires at + 2 <= |b|
  {
    b[at] as nat + 0x100 * (b[at + 1] as nat)
  }

  /** Eight bytes of a buffer as a number, low byte first. */
  function Low64(b: seq<byte>, at: nat): nat
    requires at + 8 <= |b|
  {
    Low16(b, at) + 0x1_0000 * Low16(b, at + 2) + 0x1_0000_0000 * Low16(b, at + 4) + 0x1_0000_0000_0000 * Low16(b, at + 6)
  }

  lemma LowOf16(b: seq<byte>, at: nat, end: nat)
    requires at + 2 <= end <= |b|
    ensures LeValue(b[at..end]) == Low16(b, at) + 0x1_0000 * LeValue(b[at + 2..end])
  {
    LeValueTwo(b[at..end]);
    assert b[at..end][2..] == b[at + 2..end];
  }

  lemma LowOf64(b: seq<byte>, at: nat)
    requires at + 8 <= |b|
    ensures LeValue(b[at..at + 8]) == Low64(b, at)
  {
    LowOf16(b, at, at + 8);
    LowOf16(b, at + 2, at + 8);
    LowOf16(b, at + 4, at + 8);
    LowOf16(b, at + 6, at + 8);
  }

  function Kind(b: Body): nat {
    if b.Beacon? then 0 else if b.BeaconRequest? then 1 else if b.Poll? then 2 else if b.Ack? then 3
    else if b.RegRequest? then 4 else if b.DeregRequest? then 5 else if b.RegResponse? then 6
    else if b.Data? then b.type_ else b.code
  }

  /** The header: type and flags, version, network, destination, source and number, a byte each. */
  lemma HeaderLayout(f: Frame)
    ensures var b, h := Encode(f), f.h;
            && b[0] % 32 == Kind(f.body) && (b[0] / 32 % 2 == 1 <==> h.flags.bit5)
            && (b[0] / 64 % 2 == 1 <==> h.flags.wantsAck) && (b[0] / 128 == 1 <==> h.flags.dataPending)
            && b[1] == h.flags.high && b[2] == h.net && b[3] == h.dest && b[4] == h.src && b[5] == h.seqno % 256
  {
  }

  /** The bodies that carry a UUID have it first, after the header. */
  lemma UuidLayout(f: Frame)
    requires f.body.Beacon? || f.body.RegRequest? || f.body.DeregRequest? || f.body.RegResponse?
    ensures |Encode(f)| >= 15 && Low64(Encode(f), 6) == f.body.uuid
  {
    var b := Encode(f);
    assert b[6..14] == Payload(f.body)[..8] == Le(f.body.uuid, 8);
    Word64RoundTrip(f.body.uuid);
    LowOf64(b, 6);
  }

  lemma BeaconBytes(f: Frame)
    requires f.body.Beacon?
    ensures var b, p := Encode(f), Payload(f.body);
            |b| == 18 + |f.body.addrs| && b[14..16] == p[8..10] && b[16] == p[10] && b[17] == p[11] && b[18..] == p[12..]
  {
    var b := Encode(f);
    assert b[6..] == Payload(f.body);
  }

  lemma BeaconPayload(b: Body)
    requires b.Beacon?
    ensures var p := Payload(b);
            && p[8..10] == Le(b.timestamp, 2) && p[12..] == b.addrs
            && p[10] == Bit(b.sync) + 2 * Bit(b.permit) + 4 * b.spare && p[11] == b.interval
  {
  }

  lemma BeaconLayout(f: Frame)
    requires f.body.Beacon?
    ensures var b := Encode(f);
            && |b| == 18 + |f.body.addrs| && Low16(b, 14) == f.body.timestamp
            && (b[16] % 2 == 1 <==> f.body.sync) && (b[16] / 2 % 2 == 1 <==> f.body.permit) && b[16] / 4 == f.body.spare
            && b[17] == f.body.interval && b[18..] == f.body.addrs
  {
    BeaconBytes(f);
    BeaconPayload(f.body);
    Word16RoundTrip(f.body.timestamp);
    LowOf16(Encode(f), 14, 16);
    BeaconFlagsRoundTrip(f.body.sync, f.body.permit, f.body.spare);
  }

  lemma RequestLayout(f: Frame)
    requires f.body.RegRequest?
    ensures var b := Encode(f);
            |b| == 16 && b[14] % 16 == f.body.attach.heartbeat && (b[14] / 16 % 2 == 1 <==> f.body.attach.sleepy)
  {
    var b := Encode(f);
    assert b[14] == Payload(f.body)[8] == Le(AttachWord(f.body.attach), 2)[0];
    LowByteFlags(f.body.attach);
  }

  lemma LowByteFlags(a: Attach)
    ensures var x := AttachWord(a) % 256; x % 16 == a.heartbeat && (x / 16 % 2 == 1 <==> a.sleepy)
  {
  }

  /** And these follow it. */
  lemma BodyLayout(f: Frame)
    ensures var b := Encode(f);
            match f.body
            case DeregRequest(_, reason) => |b| == 15 && b[14] == reason
            case RegResponse(_, addr, status) => |b| == 16 && b[14] == addr && b[15] == status
            case Data(_, bytes) => b[6..] == bytes
            case Unsupported(_, bytes) => b[6..] == bytes
            case BeaconRequest => |b| == 6
            case Poll => |b| == 6
            case Ack => |b| == 6
            case _ => true
  {
    assert Encode(f)[6..] == Payload(f.body);
  }

  // What any bytes are read as

  /** The body that a buffer carries: the size of a control packet may exceed what its type calls for, but
      not fall short of it. */
  predicate Carries(b: seq<byte>, body: Body)
    requires |b| >= 6
  {
    var t := b[0] % 32;
    if t >= 16 then body == Data(t, b[6..])
    else if t == 0 && |b| >= 18 then
      && body.Beacon? && body.uuid == Low64(b, 6) && body.timestamp == Low16(b, 14)
      && body.sync == (b[16] % 2 == 1) && body.permit == (b[16] / 2 % 2 == 1) && body.spare == b[16] / 4
      && body.interval == b[17] && body.addrs == b[18..]
    else if t == 1 then body == BeaconRequest
    else if t == 2 then body == Poll
    else if t == 3 then body == Ack
    else if t == 4 && |b| >= 16 then
      && body.RegRequest? && body.uuid == Low64(b, 6) && body.attach.heartbeat == b[14] % 16
      && body.attach.sleepy == (b[14] / 16 % 2 == 1) && body.attach.spare == Low16(b, 14) / 32
    else if t == 5 && |b| >= 15 then body.DeregRequest? && body.uuid == Low64(b, 6) && body.reason == b[14]
    else if t == 6 && |b| >= 16 then body.RegResponse? && body.uuid == Low64(b, 6) && body.addr == b[14] && body.status == b[15]
    else body == Unsupported(t, b[6..])
  }

  lemma WordAt(b: seq<byte>)
    requires |b| >= 14
    ensures Word64(b[6..][..8]) == Low64(b, 6)
    ensures |b| >= 16 ==> Word16(b[6..][8..10]) == Low16(b, 14)
  {
    assert b[6..][..8] == b[6..14];
    LowOf64(b, 6);
    if |b| >= 16 {
      assert b[6..][8..10] == b[14..16];
      LowOf16(b, 14, 16);
    }
  }

  lemma AttachBits(b: seq<byte>)
    requires |b| >= 16
    ensures var x := Low16(b, 14); x % 16 == b[14] % 16 && x / 16 % 2 == b[14] / 16 % 2
  {
  }

  lemma ToBodyCarries(b: seq<byte>)
    requires |b| >= 6
    ensures Carries(b, ToBody(b[0] % 32, b[6..]))
  {
    if |b| >= 14 {
      WordAt(b);
    }
    if |b| >= 16 {
      AttachBits(b);
    }
    if |b| >= 18 {
      assert b[6..][12..] == b[18..];
    }
  }

  /** Every buffer of six bytes and more is read as a frame, field by field; a shorter one as none. */
  lemma ParseLayout(b: seq<byte>)
    ensures Parse(b).Some? <==> |b| >= 6
    ensures |b| >= 6 ==>
              var f := Parse(b).value;
              && f.h.flags.wantsAck == (b[0] / 64 % 2 == 1) && f.h.flags.dataPending == (b[0] / 128 == 1)
              && f.h.net == b[2] && f.h.dest == b[3] && f.h.src == b[4] && f.h.seqno == b[5]
              && Carries(b, f.body)
  {
    if |b| >= 6 {
      ToBodyCarries(b);
    }
  }
}
