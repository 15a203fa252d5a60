/**
 The TCP client's connection state machine: one round of the main loop is a function from the
 state and what the round meets (client messages, at most one frame) to the new state and what
 it emits. Replies to the client may be deferred over many rounds.
 */
module NetTcp {
  import opened Bytes
  import opened NetSegment
  import opened NetResponder

  const WINDOW := 2048
  const MAX_TRANSFER := 4096
  const MAX_SEGMENT_PAYLOAD := 1464
  const LOCAL_PORT := 51820
  const INITIAL_SEQ: u32 := 0x1_0000
  const MAX_ATTEMPTS: nat := 2_000_000
  const NIC_MAX_FRAME := 1518

  type u32 = x: int | 0 <= x < 0x1_0000_0000
  type u16 = x: int | 0 <= x < 0x1_0000
  type Ip = s: seq<byte> | |s| == 4 witness [0, 0, 0, 0]
  type Mac = s: seq<byte> | |s| == 6 witness [0, 0, 0, 0, 0, 0]

  const FIN: byte := 1
  const SYN: byte := 2
  const PSH: byte := 8
  const ACK: byte := 16

  predicate HasFin(f: byte) { f % 2 == 1 }
  predicate HasSyn(f: byte) { f / 2 % 2 == 1 }
  predicate HasRst(f: byte) { f / 4 % 2 == 1 }
  predicate HasAck(f: byte) { f / 16 % 2 == 1 }

  /** Sequence numbers wrap. */
  function Add(x: nat, n: nat): u32 { (x + n) % 0x1_0000_0000 }

  datatype ConnState = ArpPending | SynSent | Established | LastAck | FinWait1 | FinWait2

  datatype Connection = Connection(
    peerIp: Ip, peerPort: u16, peerMac: Mac, state: ConnState, sndNxt: u32, rcvNxt: u32, attemptsLeft: nat)

  datatype PendingOp = NoOp | Connect | Recv | Close

  /** A client's message; `maps` is whether the kernel maps the memory grant it came with. */
  datatype Msg = Msg(op: nat, w1: u32, w2: u32, slot: nat, maps: bool)

  const OP_SET_BUFFER := 1
  const OP_SET_REPLY := 2
  const OP_CONNECT := 3
  const OP_SEND := 4
  const OP_RECV := 5
  const OP_CLOSE := 6

  /** `client` is the page shared with the client; its first `buffered` bytes await a receive. */
  datatype Net = Net(
    conn: Option<Connection>, pending: PendingOp, buffered: nat, reply: nat, mapped: bool, stash: seq<Msg>,
    client: seq<byte>)

  /** The new state, the replies and the segments sent, and the bytes handed to the client. */
  datatype Out = Out(net: Net, replies: seq<nat>, sent: seq<Segment>, given: seq<byte>)

  function Quietly(net: Net): Out { Out(net, [], [], []) }

  function Reply(net: Net, w: nat): Out { Out(net, [w], [], []) }

  /** Hands the buffered bytes over and empties the buffer. */
  function Hand(net: Net): Out
    requires net.buffered <= |net.client|
  {
    Out(net.(buffered := 0), [net.buffered], [], net.client[..net.buffered])
  }

  function Seg(c: Connection, num: u32, ack: u32, flags: byte, payload: seq<byte>): Segment {
    Segment(LOCAL_PORT, c.peerPort, num, ack, flags, WINDOW, payload)
  }

  // ----- the stash -----

  function Push(s: seq<Msg>, m: Msg): seq<Msg> { if |s| < 2 then s + [m] else s }

  function PushAll(s: seq<Msg>, ms: seq<Msg>): seq<Msg>
    decreases |ms|
  {
    if ms == [] then s else PushAll(Push(s, ms[0]), ms[1..])
  }

  // ----- handling -----

  predicate Sized(net: Net) {
    |net.client| == MAX_TRANSFER && net.buffered <= MAX_TRANSFER
  }

  /** The wait is over: the operation fails, and a receive gets what there is. */
  function Fail(net: Net): Out
    requires Sized(net)
  {
    var idle := net.(pending := NoOp, buffered := 0, conn := None);
    match net.pending
    case NoOp => Quietly(idle)
    case Connect => Reply(idle, 0)
    case Recv => Out(idle, [net.buffered], [], net.client[..net.buffered])
    case Close => Reply(idle, 1)
  }

  function SendLength(m: Msg): nat { Min(Min(Min(m.w1, WINDOW), MAX_TRANSFER), MAX_SEGMENT_PAYLOAD) }

  function OnConnect(net: Net, m: Msg): Out {
    if net.reply == 0 then Quietly(net)
    else if net.conn.Some? || !net.mapped then Reply(net, 0)
    else Quietly(net.(conn := Some(Connection(ToLe32(m.w1), m.w2 % 0x1_0000, [0, 0, 0, 0, 0, 0], ArpPending,
        INITIAL_SEQ, 0, MAX_ATTEMPTS)),
                      pending := Connect))
  }

  function OnSend(net: Net, m: Msg): Out
    requires Sized(net)
  {
    if net.reply == 0 then Quietly(net)
    else if net.conn.Some? && net.conn.value.state == Established && net.mapped then
      var c, want := net.conn.value, SendLength(m);
      Out(net.(conn := Some(c.(sndNxt := Add(c.sndNxt, want)))), [want],
          [Seg(c, c.sndNxt, c.rcvNxt, PSH + ACK, net.client[..want])], [])
    else Reply(net, 0)
  }

  function OnRecv(net: Net): Out
    requires Sized(net)
  {
    if net.reply == 0 then Quietly(net)
    else if net.buffered > 0 || net.conn.None? || net.conn.value.state == LastAck
        || net.conn.value.state == FinWait2 then Hand(net)
    else Quietly(net.(pending := Recv, conn := Some(net.conn.value.(attemptsLeft := MAX_ATTEMPTS))))
  }

  function OnClose(net: Net): Out {
    if net.reply == 0 then Quietly(net)
    else if net.conn.Some? && net.conn.value.state == Established then
      var c := net.conn.value;
      Out(net.(conn := Some(c.(sndNxt := Add(c.sndNxt, 1), state := FinWait1, attemptsLeft := MAX_ATTEMPTS)),
          pending := Close),
          [], [Seg(c, c.sndNxt, c.rcvNxt, FIN + ACK, [])], [])
    else Reply(net.(conn := None), 1)
  }

  function OnMessage(net: Net, m: Msg): Out
    requires Sized(net)
  {
    if m.op == OP_SET_BUFFER then Quietly(if m.slot != 0 && m.maps then net.(mapped := true) else net)
    else if m.op == OP_SET_REPLY then Quietly(if m.slot != 0 then net.(reply := m.slot) else net)
    else if m.op == OP_CONNECT then OnConnect(net, m)
    else if m.op == OP_SEND then OnSend(net, m)
    else if m.op == OP_RECV then OnRecv(net)
    else if m.op == OP_CLOSE then OnClose(net)
    else Quietly(net)
  }

  /** The pending operation `op`, if it is that one, is answered with `w`. */
  function Answer(net: Net, op: PendingOp, w: nat): Out {
    if net.pending == op then Reply(net.(pending := NoOp), w) else Quietly(net)
  }

  function WithSent(o: Out, s: Segment): Out { o.(sent := [s]) }

  function InSynSent(net: Net, c: Connection, seg: Segment): Out {
    if HasRst(seg.flags) then Answer(net.(conn := None), Connect, 0)
    else if HasSyn(seg.flags) && HasAck(seg.flags) && seg.ack == Add(c.sndNxt, 1) then
      var c' := c.(sndNxt := Add(c.sndNxt, 1), rcvNxt := Add(seg.num, 1), state := Established);
      WithSent(Answer(net.(conn := Some(c')), Connect, 1), Seg(c', c'.sndNxt, c'.rcvNxt, ACK, []))
    else Quietly(net)
  }

  /** In-order payload goes behind what is already buffered, as far as it fits. */
  function Buffer(net: Net, payload: seq<byte>): Net
    requires Sized(net)
  {
    var n := Min(|payload|, MAX_TRANSFER - net.buffered);
    net.(client := Patch(net.client, net.buffered, payload[..n]), buffered := net.buffered + n)
  }

  /** What was taken in up to `next` is acknowledged, a FIN with our own, and a receive that waits
      is answered. */
  function Accepted(net: Net, c: Connection, next: u32, fin: bool): Out
    requires Sized(net)
  {
    var c1 := if fin then c.(rcvNxt := Add(next, 1), sndNxt := Add(c.sndNxt, 1), state := LastAck,
        attemptsLeft := MAX_ATTEMPTS)
              else c.(rcvNxt := next);
    var net2 := net.(conn := Some(c1));
    WithSent(if net.pending == Recv then Hand(net2.(pending := NoOp)) else Quietly(net2),
             Seg(c, c.sndNxt, c1.rcvNxt, if fin then FIN + ACK else ACK, []))
  }

  function InEstablished(net: Net, c: Connection, seg: Segment): Out
    requires Sized(net)
  {
    if HasRst(seg.flags) then
      Out(net.(pending := NoOp, conn := None), if net.pending == Recv then [0] else if net.pending == Close then [1]
          else [], [], [])
    else
      var advanced := seg.payload != [] && seg.num == c.rcvNxt;
      var net1 := if advanced then Buffer(net, seg.payload) else net;
      var next := Add(c.rcvNxt, net1.buffered - net.buffered);
      var fin := HasFin(seg.flags) && Add(seg.num, |seg.payload|) == next;
      if !advanced && !fin then Quietly(net) else Accepted(net1, c, next, fin)
  }

  function InLastAck(net: Net, c: Connection, seg: Segment): Out {
    if HasAck(seg.flags) && seg.ack == c.sndNxt then Answer(net.(conn := None), Close, 1) else Quietly(net)
  }

  /** The peer's FIN ends an active close. */
  function Closed(net: Net, c: Connection, seg: Segment): Out {
    WithSent(Answer(net.(conn := None), Close, 1), Seg(c, c.sndNxt, Add(seg.num, 1), ACK, []))
  }

  function InFinWait1(net: Net, c: Connection, seg: Segment): Out {
    if HasFin(seg.flags) then Closed(net, c, seg)
    else if HasAck(seg.flags) && seg.ack == c.sndNxt
        then Quietly(net.(conn := Some(c.(state := FinWait2, attemptsLeft := MAX_ATTEMPTS))))
    else Quietly(net)
  }

  function InFinWait2(net: Net, c: Connection, seg: Segment): Out {
    if HasFin(seg.flags) then Closed(net, c, seg) else Quietly(net)
  }

  /** The segment in `frame` that belongs to connection `c`, if any. */
  function Addressed(c: Connection, frame: seq<byte>): Option<Segment> {
    match Parse(frame, |frame|, c.peerIp)
    case Some(s) => if s.dstPort == LOCAL_PORT && s.srcPort == c.peerPort then Some(s) else None
    case None => None
  }

  function OnSegment(net: Net, c: Connection, seg: Segment): Out
    requires Sized(net)
  {
    match c.state
    case ArpPending => Quietly(net)
    case SynSent => InSynSent(net, c, seg)
    case Established => InEstablished(net, c, seg)
    case LastAck => InLastAck(net, c, seg)
    case FinWait1 => InFinWait1(net, c, seg)
    case FinWait2 => InFinWait2(net, c, seg)
  }

  function OnArp(net: Net, c: Connection, frame: seq<byte>): Out {
    match ParseArpReply(frame, |frame|, c.peerIp)
    case Some(mac) =>
      var c' := c.(peerMac := mac, state := SynSent, attemptsLeft := MAX_ATTEMPTS);
      Out(net.(conn := Some(c')), [], [Seg(c', c'.sndNxt, 0, SYN, [])], [])
    case None => Quietly(net)
  }

  function OnFrame(net: Net, frame: seq<byte>): Out
    requires Sized(net)
  {
    if net.conn.None? then Quietly(net)
    else
      var c := net.conn.value;
      if c.state == ArpPending then OnArp(net, c, frame)
      else match Addressed(c, frame)
           case Some(seg) => OnSegment(net, c, seg)
           case None => Quietly(net)
  }

  // ----- one round -----

  /** What the network card can deliver; it reports length 0 when it has no frame. */
  type Packet = b: seq<byte> | 0 < |b| <= NIC_MAX_FRAME witness [0]

  /** What the network card and the inbox offer: a frame, or, when the card has none, what the poll
      of the inbox finds. */
  datatype Event = Frame(bytes: Packet) | Quiet(polled: Option<Msg>)

  /** `client` is the shared page as the client left it; `waiting` and `sending` are the client
      messages that arrive while this task waits for the card, before and while handling. */
  datatype Input = Input(client: seq<byte>, waiting: seq<Msg>, event: Event, sending: seq<Msg>)

  predicate Expired(net: Net) {
    net.pending != NoOp && net.conn.Some? && net.conn.value.attemptsLeft == 0
  }

  function CountDown(net: Net): Net {
    if net.pending != NoOp && net.conn.Some? && net.conn.value.attemptsLeft > 0
    then net.(conn := Some(net.conn.value.(attemptsLeft := net.conn.value.attemptsLeft - 1))) else net
  }

  function Handle(net: Net, event: Event): Out
    requires Sized(net)
  {
    match event
    case Frame(b) => OnFrame(net, b)
    case Quiet(polled) =>
      if net.stash != [] then OnMessage(net.(stash := net.stash[1..]), net.stash[0])
      else if polled.Some? then OnMessage(net, polled.value)
      else Quietly(net)
  }

  function Round(net0: Net, i: Input): Out
    requires Sized(net0) && |i.client| == MAX_TRANSFER
  {
    var net := net0.(client := i.client);
    if Expired(net) then Fail(net)
    else
      var net1 := CountDown(net);
      var o := Handle(net1.(stash := PushAll(net1.stash, i.waiting)), i.event);
      o.(net := o.net.(stash := PushAll(o.net.stash, i.sending)))
  }

  // ----- what goes out on the wire -----

  function ToPeer(mac: Mac, ip: Ip, c: Connection): Ends { Ends(mac, ip, c.peerMac, c.peerIp) }

  /** The frame of the segment sent, if one is. */
  function Wired(e: Ends, sent: seq<Segment>): seq<seq<byte>> {
    if sent != [] && EndsOk(e) && Fits(sent[0]) then [NetSegment.Frame(e, sent[0])] else []
  }

  /** A connect that is taken up asks for the peer's address; other requests send segments. */
  function MessageWire(mac: Mac, ip: Ip, net: Net, m: Msg): seq<seq<byte>>
    requires Sized(net)
  {
    if net.conn.Some? then Wired(ToPeer(mac, ip, net.conn.value), OnMessage(net, m).sent)
    else if m.op == OP_CONNECT && net.reply != 0 && net.mapped then [ArpRequest(mac, ip, ToLe32(m.w1))]
    else []
  }

  /** A frame the connection answers is answered with a segment; any other as the responder does. */
  function FrameWire(mac: Mac, ip: Ip, net: Net, b: seq<byte>): seq<seq<byte>>
    requires Sized(net)
  {
    var o := OnFrame(net, b);
    if o.sent != [] then
      var c := if net.conn.value.state == ArpPending && o.net.conn.Some? then o.net.conn.value else net.conn.value;
      Wired(ToPeer(mac, ip, c), o.sent)
    else
      match Respond(b, mac, ip)
      case Some(f) => [f]
      case None => []
  }

  function EventWire(mac: Mac, ip: Ip, net: Net, event: Event): seq<seq<byte>>
    requires Sized(net)
  {
    match event
    case Frame(b) => FrameWire(mac, ip, net, b)
    case Quiet(polled) =>
      if net.stash != [] then MessageWire(mac, ip, net.(stash := net.stash[1..]), net.stash[0])
      else if polled.Some? then MessageWire(mac, ip, net, polled.value)
      else []
  }

  /** The frames one round hands to the network card. */
  function RoundWire(mac: Mac, ip: Ip, net0: Net, i: Input): seq<seq<byte>>
    requires Sized(net0) && |i.client| == MAX_TRANSFER
  {
    var net := net0.(client := i.client);
    if Expired(net) then []
    else
      var net1 := CountDown(net);
      EventWire(mac, ip, net1.(stash := PushAll(net1.stash, i.waiting)), i.event)
  }
}
