/** Frames, node records and events of the TinyHAN MAC (lib/tinymac.h).

    Times, deadlines and the outbound sequence counter are unbounded here: this is the
    reference machine.  `TinyMac` in MacDevice.dfy keeps them in `uint32_t` and `uint8_t`
    fields, as the program does, and is proved to follow this machine. */
module MacTypes {
  import opened Words

  const BROADCAST: byte := 0xFF     // TINYMAC_ADDR_BROADCAST
  const UNASSIGNED: byte := 0xFF    // TINYMAC_ADDR_UNASSIGNED
  const NETWORK_ANY: byte := 0xFF   // TINYMAC_NETWORK_ANY

  const MAX_NODES := 32
  const MAX_PAYLOAD := 128
  const MAX_RETRIES: byte := 3
  const HEADER_SIZE := 6
  const ACK_TICKS := 1              // TINYMAC_MILLIS(TINYMAC_ACK_TIMEOUT)
  const REGISTRATION_TICKS := 4     // TINYMAC_MILLIS(TINYMAC_REGISTRATION_TIMEOUT)
  const BEACON_REQUEST_TICKS := 40  // TINYMAC_SECONDS(TINYMAC_BEACON_REQUEST_TIMEOUT)
  const HEARTBEAT_GRACE := 2

  const NO_BEACON: byte := 0x0F     // TINYMAC_BEACON_INTERVAL_NO_BEACON

  // tinymac_registration_status_t
  const STATUS_SUCCESS: byte := 0
  const STATUS_NETWORK_FULL: byte := 2
  const STATUS_ADDRESS_INVALID: byte := 5

  datatype Option<+T> = None | Some(value: T)

  type nibble = x: int | 0 <= x < 16
  type bits6 = x: int | 0 <= x < 64
  type bits11 = x: int | 0 <= x < 2048

  /** Flags of a registration: heartbeat exponent, the sleepy bit, and the bits nobody reads. */
  datatype Attach = Attach(heartbeat: nibble, sleepy: bool, spare: bits11)

  /** `TINYMAC_SECONDS(s)`: four ticks of 250 ms. */
  function Seconds(s: nat): nat { 4 * s }

  /** Header flags other than the packet type; bit 5 and the high byte are carried but never read. */
  datatype Flags = Flags(wantsAck: bool, dataPending: bool, bit5: bool, high: byte)

  const PLAIN := Flags(false, false, false, 0)

  /** The sequence number is the sender's whole count; the air carries, and the receiver sees, its
      low byte. */
  datatype Header = Header(flags: Flags, net: byte, dest: byte, src: byte, seqno: nat)

  type dataType = x: int | 16 <= x < 32 witness 16  // tinymacType_RawData and up

  /** Packet type and payload together; Wire.dfy has the bytes. */
  datatype Body =
    | Beacon(uuid: u64, timestamp: u16, sync: bool, permit: bool, spare: bits6, interval: byte, addrs: seq<byte>)
    | BeaconRequest
    | Poll
    | Ack
    | RegRequest(uuid: u64, attach: Attach)
    | DeregRequest(uuid: u64, reason: byte)
    | RegResponse(uuid: u64, addr: byte, status: byte)
    | Data(type_: dataType, bytes: seq<byte>)
    | Unsupported(code: nibble, bytes: seq<byte>)  // reserved types, and control packets that are too short

  datatype Frame = Frame(h: Header, body: Body)

  /** Payload bytes of the bodies that go through tinymac_tx_packet. */
  function BodySize(b: Body): nat {
    match b
    case Beacon(_, _, _, _, _, _, addrs) => 12 + |addrs|
    case RegRequest(_, _) => 10
    case DeregRequest(_, _) => 9
    case RegResponse(_, _, _) => 10
    case Data(_, bytes) => |bytes|
    case Unsupported(_, bytes) => |bytes|
    case _ => 0
  }

  datatype NodeState = Unregistered | Registered | SendPending | WaitAck

  datatype Timer = Off | Due(at: nat)

  /** The application's `tinymac_send_cb_t`, possibly NULL. */
  datatype Callback = NoCallback | Callback(id: nat)

  /** `tinymac_node_t`, less the signal strength. */
  datatype Node = Node(
    uuid: u64, lastHeard: nat, flags: Attach, addr: byte, state: NodeState,
    pending: Frame, sendCb: Callback,
    ackTimer: Timer, validityTimer: Timer, retries: byte)

  const BLANK_NODE := Node(0, 0, Attach(0, false, 0), 0, Unregistered,
                           Frame(Header(PLAIN, 0, 0, 0, 0), Unsupported(0, [])), NoCallback, Off, Off, 0)

  type NodeTable = t: seq<Node> | |t| == MAX_NODES witness seq(MAX_NODES, _ => BLANK_NODE)

  predicate Live(n: Node) { n.state != Unregistered }
  predicate Busy(n: Node) { n.state == SendPending || n.state == WaitAck }

  /** What the rest of the world can observe of a MAC, in order.  A slot is an index into
      `nodes`, or `COORD` for a client's record of its coordinator. */
  datatype Event =
    | Accepted(slot: nat, frame: Frame, cb: Callback)    // copied into the slot's buffer
    | Sent(slot: nat, frame: Frame)                      // the slot's buffer given to the PHY
    | SentDirect(slot: nat, frame: Frame)                // unicast that needs no buffer
    | SentMac(frame: Frame)                              // acks, beacons, broadcasts
    | Resolved(slot: nat, cb: Callback, success: bool)   // send_cb(0) or send_cb(-1)
    | Delivered(from: Option<nat>, body: Body)           // rx_cb
    | NodeUp(slot: nat)                                  // reg_cb; MAX_NODES stands for NULL
    | NodeGone(slot: nat)                                // dereg_cb

  const COORD: nat := MAX_NODES

  datatype ClientState = ClientUnregistered | ClientBeaconRequest | ClientRegistering | ClientRegistered

  datatype Params = Params(
    uuid: u64, coordinator: bool, flags: Attach, beaconInterval: byte, beaconOffset: byte)

  /** `tinymac_t`. */
  datatype Mac = Mac(
    params: Params, mtu: nat, tick: nat,
    net: byte, addr: byte, dseq: nat, slot: u16,
    client: ClientState, coord: Node, timer: Timer,
    bseq: byte, nodes: NodeTable, permitAttach: bool)
}
