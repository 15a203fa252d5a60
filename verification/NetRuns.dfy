/**
 Runs of the service that a well-behaved client can meet: bytes left over from one connection are
 handed out on the next, and a send overwrites bytes that wait in the shared page.
 */
module NetRuns {
  import opened Bytes
  import opened NetSegment
  import opened NetResponder
  import opened NetTcp
  import opened NetProgress
  import opened NetStream

  // ----- rounds with one message or one frame -----

  function Says(page: seq<byte>, m: Msg): Input { Input(page, [], Quiet(Some(m)), []) }

  function Hears(page: seq<byte>, frame: Packet): Input { Input(page, [], Event.Frame(frame), []) }

  lemma MessageRound(net: Net, page: seq<byte>, m: Msg)
    requires Serving(net) && net.stash == [] && net.pending == NoOp && |page| == MAX_TRANSFER
             && (IsRequest(m) ==> net.reply != 0)
    ensures var i := Says(page, m);
            Polite(net, i) && Roomy(net, i) && Round(net, i) == OnMessage(net.(client := page), m)
  {
    var i := Says(page, m);
    assert Queue(net, i) == [m] && Arrived(net, i) == [m];
    OneRequest([m]);
    OneRequest([]);
    assert [m][0] == m && [m][1..] == [];
    assert Introduced(net.reply, [m]);
    hide OnMessage, Introduced, Requests, IsRequest, Queue, Arrived;
    MessageKeepsStash(net.(client := page), m);
    var o := OnMessage(net.(client := page), m);
    assert o.(net := o.net.(stash := [])) == o;
  }

  lemma MessageKeepsStash(net: Net, m: Msg)
    requires Sized(net)
    ensures OnMessage(net, m).net.stash == net.stash
  {
    MessageStash(net, m);
  }

  lemma FrameRound(net: Net, frame: Packet)
    requires Serving(net) && net.stash == [] && !Expired(net)
    ensures Sized(net)
    ensures var i := Hears(net.client, frame);
            Polite(net, i) && Roomy(net, i) && Round(net, i) == OnFrame(CountDown(net), frame)
  {
    var i := Hears(net.client, frame);
    assert Queue(net, i) == [] && Arrived(net, i) == [];
    OneRequest([]);
    hide OnFrame;
    FrameKeepsStash(CountDown(net), frame);
  }

  lemma FrameKeepsStash(net: Net, frame: seq<byte>)
    requires Sized(net)
    ensures OnFrame(net, frame).net.stash == net.stash
  {
    hide OnSegment, Parse, ParseArpReply;
    if net.conn.Some? && net.conn.value.state != ArpPending && Addressed(net.conn.value, frame).Some? {
      SegmentStash(net, Addressed(net.conn.value, frame).value);
    }
  }

  // ----- what the peer sends -----

  /** This host, as its peers address it. */
  datatype Host = Host(mac: Mac, ip: Ip)

  /** The card lets the frame through: it is addressed to this host. */
  ghost predicate ForHost(h: Host, i: Input) {
    i.event.Frame? ==> |i.event.bytes| >= 6 && i.event.bytes[..6] == h.mac
  }

  ghost predicate AllForHost(h: Host, ins: seq<Input>) {
    forall i | i in ins :: ForHost(h, i)
  }

  function PeerEnds(h: Host, c: Connection): Ends { Ends(c.peerMac, c.peerIp, h.mac, h.ip) }

  /** A segment of the peer of `c` to this host, as it arrives. */
  function FromPeer(h: Host, c: Connection, num: u32, ack: u32, flags: byte, payload: seq<byte>): (r: Packet)
    requires |payload| <= MAX_SEGMENT_PAYLOAD
  {
    NetSegment.Frame(PeerEnds(h, c), Segment(c.peerPort, LOCAL_PORT, num, ack, flags, WINDOW, payload))
  }

  lemma FromPeerIs(h: Host, c: Connection, num: u32, ack: u32, flags: byte, payload: seq<byte>)
    requires |payload| <= MAX_SEGMENT_PAYLOAD
    ensures Addressed(c, FromPeer(h, c, num, ack, flags, payload)) ==
            Some(Segment(c.peerPort, LOCAL_PORT, num, ack, flags, WINDOW, payload))
  {
    hide NetSegment.Frame, Parse;
    RoundTrip(PeerEnds(h, c), Segment(c.peerPort, LOCAL_PORT, num, ack, flags, WINDOW, payload));
  }

  lemma FromPeerArrives(h: Host, page: seq<byte>, c: Connection, num: u32, ack: u32, flags: byte, payload: seq<byte>)
    requires |payload| <= MAX_SEGMENT_PAYLOAD
    ensures ForHost(h, Hears(page, FromPeer(h, c, num, ack, flags, payload)))
  {
    hide IpSum, TcpSum, IpHead, TcpPart;
    var e, s := PeerEnds(h, c), Segment(c.peerPort, LOCAL_PORT, num, ack, flags, WINDOW, payload);
    var f := FromPeer(h, c, num, ack, flags, payload);
    var b := Bare(e, s, IpSum(e, IP_LEN + TCP_LEN + |payload|, PROTO_TCP), TcpSum(e, s));
    assert b[..6] == h.mac;
    assert f[..6] == b[..6];
  }

  /** The peer's answer to this host's ARP request. */
  function ArpAnswer(h: Host, mac: Mac, ip: Ip): (r: Packet) { ArpReply(mac, ip, h.mac, h.ip) }

  lemma ArpAnswers(h: Host, mac: Mac, ip: Ip, page: seq<byte>)
    ensures var a := ArpAnswer(h, mac, ip); ParseArpReply(a, |a|, ip) == Some(mac)
    ensures ForHost(h, Hears(page, ArpAnswer(h, mac, ip)))
  {
    assert ArpBytes(h.mac, mac, 2, mac, ip, h.mac, h.ip)[..6] == h.mac;
    assert ArpAnswer(h, mac, ip)[..6] == ArpBytes(h.mac, mac, 2, mac, ip, h.mac, h.ip)[..6];
    hide Padded, ArpBytes;
    ArpFields(ArpAnswer(h, mac, ip), h.mac, mac, 2, mac, ip, h.mac, h.ip);
  }

  // ----- opening a connection -----

  /** No connection and no request: the client may connect. */
  ghost predicate Disconnected(net: Net) {
    Serving(net) && net.stash == [] && net.pending == NoOp && net.conn.None? && net.reply != 0 && net.mapped
  }

  /** The rounds of a connect that succeeds: the request, the resolution, the handshake. */
  function Opening(h: Host, net: Net, m: Msg, mac: Mac, isn: u32): seq<Input> {
    var c := Connection(ToLe32(m.w1), m.w2 % 0x1_0000, mac, SynSent, INITIAL_SEQ, 0, MAX_ATTEMPTS);
    [Says(net.client, m), Hears(net.client, ArpAnswer(h, mac, c.peerIp)),
     Hears(net.client, FromPeer(h, c, isn, Add(INITIAL_SEQ, 1), SYN + ACK, []))]
  }

  /** The connection that such a connect leaves. */
  function Opened(m: Msg, mac: Mac, isn: u32): Connection {
    Connection(ToLe32(m.w1), m.w2 % 0x1_0000, mac, Established, Add(INITIAL_SEQ, 1), Add(isn, 1), MAX_ATTEMPTS - 1)
  }

  /** Connecting succeeds, answers 1, and leaves the shared page and the buffered bytes alone. */
  lemma Opens(h: Host, net: Net, m: Msg, mac: Mac, isn: u32)
    requires Disconnected(net) && m.op == OP_CONNECT
    ensures var ins := Opening(h, net, m, mac, isn);
            && Serves(net, ins) && Replies(net, ins) == [1] && AllForHost(h, ins)
            && After(net, ins) == net.(conn := Some(Opened(m, mac, isn)))
  {
    hide Serving, Polite, Roomy, Progresses, Round, LeBytes, FromPeer, ArpAnswer, Add, ForHost;
    var ins := Opening(h, net, m, mac, isn);
    OpeningArrives(h, net, m, mac, isn);
    var net1 := net.(conn := Some(Connecting(m, [0, 0, 0, 0, 0, 0], ArpPending, MAX_ATTEMPTS)), pending := Connect);
    var net2 := net1.(conn := Some(Connecting(m, mac, SynSent, MAX_ATTEMPTS)));
    var net3 := net.(conn := Some(Opened(m, mac, isn)));
    assert net.(client := net.client) == net;
    ServingSized(net);
    MessageRound(net, net.client, m);
    RoundSteps(net, ins[0]);
    assert Round(net, ins[0]) == Quietly(net1);
    Resolves(h, net1, m, mac, ins[1]);
    RoundSteps(net1, ins[1]);
    Establishes(h, net2, m, mac, isn, ins[2]);
    RoundSteps(net2, ins[2]);
    assert ins[1..][0] == ins[1] && ins[1..][1..] == [ins[2]] && [ins[2]][1..] == [];
    assert Round(net2, ins[2]).net == net3;
    assert Serves(net2, [ins[2]]) && After(net2, [ins[2]]) == net3 && Replies(net2, [ins[2]]) == [1];
    assert Serves(net1, ins[1..]) && After(net1, ins[1..]) == net3 && Replies(net1, ins[1..]) == [1];
  }

  lemma OpeningArrives(h: Host, net: Net, m: Msg, mac: Mac, isn: u32)
    ensures AllForHost(h, Opening(h, net, m, mac, isn))
  {
    hide LeBytes, FromPeer, ArpAnswer, Add;
    var c := Connection(ToLe32(m.w1), m.w2 % 0x1_0000, mac, SynSent, INITIAL_SEQ, 0, MAX_ATTEMPTS);
    ArpAnswers(h, mac, c.peerIp, net.client);
    FromPeerArrives(h, net.client, c, isn, Add(INITIAL_SEQ, 1), SYN + ACK, []);
    assert ForHost(h, Says(net.client, m));
    hide ForHost;
  }

  function Connecting(m: Msg, mac: Mac, state: ConnState, attempts: nat): Connection {
    Connection(ToLe32(m.w1), m.w2 % 0x1_0000, mac, state, INITIAL_SEQ, 0, attempts)
  }

  lemma Resolves(h: Host, net: Net, m: Msg, mac: Mac, i: Input)
    requires Serving(net) && net.stash == [] && net.pending == Connect
    requires net.conn == Some(Connecting(m, [0, 0, 0, 0, 0, 0], ArpPending, MAX_ATTEMPTS))
    requires var ip := ToLe32(m.w1); i == Hears(net.client, ArpAnswer(h, mac, ip))
    ensures Polite(net, i) && Roomy(net, i)
    ensures Round(net, i).replies == [] && Round(net, i).net ==
            net.(conn := Some(Connecting(m, mac, SynSent, MAX_ATTEMPTS)))
  {
    hide ArpAnswer, ParseArpReply, LeBytes;
    FrameRound(net, i.event.bytes);
    ArpAnswers(h, mac, ToLe32(m.w1), net.client);
    hide Polite, Roomy, Serving;
  }

  lemma Establishes(h: Host, net: Net, m: Msg, mac: Mac, isn: u32, i: Input)
    requires Serving(net) && net.stash == [] && net.pending == Connect
    requires net.conn == Some(Connecting(m, mac, SynSent, MAX_ATTEMPTS))
    requires i == Hears(net.client, FromPeer(h, Connecting(m, mac, SynSent, MAX_ATTEMPTS), isn, Add(INITIAL_SEQ, 1),
             SYN + ACK, []))
    ensures Polite(net, i) && Roomy(net, i)
    ensures Round(net, i).replies == [1] && Round(net, i).net ==
            net.(conn := Some(Opened(m, mac, isn)), pending := NoOp)
  {
    hide Polite, Roomy, Serving, FromPeer, Addressed, LeBytes, Add, HasSyn, HasAck, HasRst, CountDown, Round, OnSegment;
    var c := Connecting(m, mac, SynSent, MAX_ATTEMPTS);
    var c1 := c.(attemptsLeft := MAX_ATTEMPTS - 1);
    FrameRound(net, i.event.bytes);
    CountsDown(net, c);
    SynAckIs(h, c, c1, isn);
    Handshakes(net.(conn := Some(c1)), c1, Addressed(c1, i.event.bytes).value);
  }

  lemma CountsDown(net: Net, c: Connection)
    requires net.pending != NoOp && net.conn == Some(c) && c.attemptsLeft > 0
    ensures CountDown(net) == net.(conn := Some(c.(attemptsLeft := c.attemptsLeft - 1)))
  {
  }

  lemma SynAckIs(h: Host, c: Connection, c1: Connection, isn: u32)
    requires c1 == c.(attemptsLeft := c1.attemptsLeft)
    ensures var b := FromPeer(h, c, isn, Add(INITIAL_SEQ, 1), SYN + ACK, []);
            Addressed(c1, b) == Some(Segment(c.peerPort, LOCAL_PORT, isn, Add(INITIAL_SEQ, 1), SYN + ACK, WINDOW, []))
  {
    FromPeerIs(h, c1, isn, Add(INITIAL_SEQ, 1), SYN + ACK, []);
    hide Addressed;
  }

  lemma Handshakes(net: Net, c: Connection, seg: Segment)
    requires Sized(net) && net.pending == Connect && c.state == SynSent && seg.flags == SYN + ACK
    requires seg.ack == Add(c.sndNxt, 1) && seg.num < U32
    ensures var o := OnSegment(net, c, seg);
            && o.replies == [1]
            && o.net == net.(pending := NoOp,
                             conn := Some(c.(sndNxt := Add(c.sndNxt, 1), rcvNxt := Add(seg.num, 1),
                                 state := Established)))
  {
    assert HasSyn(SYN + ACK) && HasAck(SYN + ACK) && !HasRst(SYN + ACK);
    hide HasSyn, HasAck, HasRst, Add;
  }

  // ----- leftovers -----

  const RECV_MSG := Msg(OP_RECV, 0, 0, 0, false)
  const CLOSE_MSG := Msg(OP_CLOSE, 0, 0, 0, false)

  /** Whatever is left in the buffer when a client connects is what its first receive on the new
      connection gets, although the new peer has sent nothing. */
  lemma LeftoversHandedOut(h: Host, net: Net, m: Msg, mac: Mac, isn: u32)
    requires Disconnected(net) && m.op == OP_CONNECT && net.buffered > 0
    ensures var ins := Opening(h, net, m, mac, isn);
            && Serves(net, ins) && Serving(After(net, ins))
            && var net' := After(net, ins);
               && Polite(net', Says(net.client, RECV_MSG)) && Roomy(net', Says(net.client, RECV_MSG))
               && Round(net', Says(net.client, RECV_MSG)).given == net.client[..net.buffered]
  {
    hide Opening, Serving, Polite, Roomy, LeBytes, Add;
    var ins := Opening(h, net, m, mac, isn);
    Opens(h, net, m, mac, isn);
    assert ins + [] == ins;
    Split(net, ins, []);
    ReceiveRound(After(net, ins));
  }

  /** A receive is answered at once with what is buffered. */
  lemma ReceiveRound(net: Net)
    requires Serving(net) && net.stash == [] && net.pending == NoOp && net.reply != 0 && net.buffered > 0
    ensures var i := Says(net.client, RECV_MSG);
            && Polite(net, i) && Roomy(net, i) && Round(net, i).given == net.client[..net.buffered]
  {
    MessageRound(net, net.client, RECV_MSG);
    hide Polite, Roomy, Round;
  }

  // ----- a run that leaves bytes behind -----

  /** The next piece of the stream arrives and nobody is waiting for it. */
  lemma DataArrives(h: Host, net: Net, c: Connection, x: byte)
    requires Serving(net) && net.stash == [] && net.pending == NoOp && net.conn == Some(c) && c.state == Established
    requires net.buffered < MAX_TRANSFER
    ensures var i := Hears(net.client, FromPeer(h, c, c.rcvNxt, c.sndNxt, ACK, [x]));
            && Polite(net, i) && Roomy(net, i) && Round(net, i).replies == []
            && Round(net, i).net == net.(conn := Some(c.(rcvNxt := Add(c.rcvNxt, 1))),
                                         client := Patch(net.client, net.buffered, [x]), buffered := net.buffered + 1)
  {
    hide Polite, Roomy, Serving, FromPeer, Addressed, Add, Round, OnSegment, Patch;
    FrameRound(net, FromPeer(h, c, c.rcvNxt, c.sndNxt, ACK, [x]));
    FromPeerIs(h, c, c.rcvNxt, c.sndNxt, ACK, [x]);
    ByteHandled(net, c, Addressed(c, FromPeer(h, c, c.rcvNxt, c.sndNxt, ACK, [x])).value, x);
  }

  lemma ByteHandled(net: Net, c: Connection, seg: Segment, x: byte)
    requires Sized(net) && net.pending == NoOp && c.state == Established && net.buffered < MAX_TRANSFER
    requires seg.flags == ACK && seg.payload == [x] && seg.num == c.rcvNxt
    ensures var o := OnSegment(net, c, seg);
            && o.replies == []
            && o.net == net.(conn := Some(c.(rcvNxt := Add(c.rcvNxt, 1))),
                             client := Patch(net.client, net.buffered, [x]), buffered := net.buffered + 1)
  {
    assert !HasRst(ACK) && !HasFin(ACK);
    assert [x][..1] == [x];
    hide Add, HasRst, HasFin, Patch;
  }

  /** Closing: the request, then the peer's FIN. Buffered bytes stay. */
  lemma Closes(net: Net, c: Connection)
    requires Serving(net) && net.stash == [] && net.pending == NoOp && net.conn == Some(c) && c.state == Established
             && net.reply != 0
    ensures var i := Says(net.client, CLOSE_MSG);
            && Polite(net, i) && Roomy(net, i) && Round(net, i).replies == []
            && Round(net, i).net == net.(pending := Close,
                 conn := Some(c.(sndNxt := Add(c.sndNxt, 1), state := FinWait1, attemptsLeft := MAX_ATTEMPTS)))
  {
    MessageRound(net, net.client, CLOSE_MSG);
    assert net.(client := net.client) == net;
    hide Polite, Roomy, Serving, Round, Add;
  }

  lemma FinArrives(h: Host, net: Net, c: Connection)
    requires Serving(net) && net.stash == [] && net.pending == Close && net.conn == Some(c) && c.state == FinWait1
    requires c.attemptsLeft > 0
    ensures var i := Hears(net.client, FromPeer(h, c, c.rcvNxt, c.sndNxt, FIN + ACK, []));
            && Polite(net, i) && Roomy(net, i) && Round(net, i).replies == [1]
            && Round(net, i).net == net.(pending := NoOp, conn := None)
  {
    hide Polite, Roomy, Serving, Addressed, Add, Round, CountDown, OnSegment, NetSegment.Frame;
    var c1 := c.(attemptsLeft := c.attemptsLeft - 1);
    FrameRound(net, FromPeer(h, c, c.rcvNxt, c.sndNxt, FIN + ACK, []));
    FromPeerIs(h, c1, c.rcvNxt, c.sndNxt, FIN + ACK, []);
    CountsDown(net, c);
    FinHandled(net.(conn := Some(c1)), c1, Addressed(c1, FromPeer(h, c, c.rcvNxt, c.sndNxt, FIN + ACK, [])).value);
  }

  lemma FinHandled(net: Net, c: Connection, seg: Segment)
    requires Sized(net) && net.pending == Close && c.state == FinWait1 && seg.flags == FIN + ACK
    ensures var o := OnSegment(net, c, seg); o.replies == [1] && o.net == net.(pending := NoOp, conn := None)
  {
    assert HasFin(FIN + ACK);
    hide HasFin, Add;
  }

  // ----- putting the runs together -----

  lemma {:induction false} Chain(net: Net, a: seq<Input>, b: seq<Input>)
    requires Serving(net) && Serves(net, a) && Serving(After(net, a)) && Serves(After(net, a), b)
    ensures Serves(net, a + b) && After(net, a + b) == After(After(net, a), b)
    decreases |a|
  {
    hide Round, Serving, Polite, Roomy, Progresses, Left;
    if a == [] {
      assert a + b == b;
    } else {
      assert (a + b)[0] == a[0] && (a + b)[1..] == a[1..] + b;
      RoundSteps(net, a[0]);
      Chain(OneRound(net, a[0]).net, a[1..], b);
    }
  }

  lemma Once(net: Net, i: Input)
    requires Serving(net) && Polite(net, i) && Roomy(net, i)
    ensures Serves(net, [i]) && Serving(Round(net, i).net) && After(net, [i]) == Round(net, i).net
  {
    RoundSteps(net, i);
    assert [i][1..] == [];
    hide Round, Polite, Roomy, Left;
  }

  const SET_BUFFER_MSG := Msg(OP_SET_BUFFER, 0, 0, 1, true)
  const SET_REPLY_MSG := Msg(OP_SET_REPLY, 0, 0, 1, true)

  /** A client that introduces itself. */
  lemma SetUp(page: seq<byte>) returns (ins: seq<Input>)
    requires |page| == MAX_TRANSFER
    ensures var net := Net(None, NoOp, 0, 0, false, [], page);
            && Serving(net) && Serves(net, ins) && After(net, ins) == Net(None, NoOp, 0, 1, true, [], page)
            && Disconnected(After(net, ins)) && forall i | i in ins :: i.event.Quiet?
  {
    var net0 := Net(None, NoOp, 0, 0, false, [], page);
    var net1 := Net(None, NoOp, 0, 0, true, [], page);
    var net2 := Net(None, NoOp, 0, 1, true, [], page);
    FreshServes(page);
    MessageRound(net0, page, SET_BUFFER_MSG);
    Once(net0, Says(page, SET_BUFFER_MSG));
    MessageRound(net1, page, SET_REPLY_MSG);
    Once(net1, Says(page, SET_REPLY_MSG));
    assert Serving(net2);
    hide Serving, Polite, Roomy, Round;
    Chain(net0, [Says(page, SET_BUFFER_MSG)], [Says(page, SET_REPLY_MSG)]);
    ins := [Says(page, SET_BUFFER_MSG)] + [Says(page, SET_REPLY_MSG)];
  }

  /** From a connection just opened: one byte arrives, the client closes without reading it. */
  lemma ByteLeft(h: Host, net: Net, c: Connection, x: byte) returns (ins: seq<Input>)
    requires Serving(net) && net.stash == [] && net.pending == NoOp && net.conn == Some(c) && c.state == Established
    requires net.buffered == 0 && net.reply != 0
    ensures Serves(net, ins) && Serving(After(net, ins)) && AllForHost(h, ins)
    ensures After(net, ins) == net.(conn := None, client := Patch(net.client, 0, [x]), buffered := 1)
  {
    hide Serving, Polite, Roomy, Round, Patch, Add, FromPeer, Serves, After, Hears;
    ServingSized(net);
    var page := Patch(net.client, 0, [x]);
    var c1 := c.(rcvNxt := Add(c.rcvNxt, 1));
    var c2 := c1.(sndNxt := Add(c.sndNxt, 1), state := FinWait1, attemptsLeft := MAX_ATTEMPTS);
    var net1 := net.(conn := Some(c1), client := page, buffered := 1);
    var net2 := net1.(pending := Close, conn := Some(c2));
    var i1, i2 := Hears(net.client, FromPeer(h, c, c.rcvNxt, c.sndNxt, ACK, [x])), Says(page, CLOSE_MSG);
    var i3 := Hears(page, FromPeer(h, c2, c2.rcvNxt, c2.sndNxt, FIN + ACK, []));
    DataArrives(h, net, c, x);
    Once(net, i1);
    Closes(net1, c1);
    Once(net1, i2);
    FinArrives(h, net2, c2);
    Once(net2, i3);
    Chain(net1, [i2], [i3]);
    Chain(net, [i1], [i2] + [i3]);
    ins := [i1] + ([i2] + [i3]);
    LeftServing(net2, i3);
    FromPeerArrives(h, net.client, c, c.rcvNxt, c.sndNxt, ACK, [x]);
    FromPeerArrives(h, page, c2, c2.rcvNxt, c2.sndNxt, FIN + ACK, []);
  }

  lemma ServingSized(net: Net)
    requires Serving(net)
    ensures Sized(net)
  {
  }

  lemma LeftServing(net: Net, i: Input)
    requires Serving(net) && Polite(net, i) && Roomy(net, i)
    ensures Sized(net) && |i.client| == MAX_TRANSFER && Serving(Round(net, i).net)
  {
    hide Round, Left;
    RoundSteps(net, i);
  }

  /** From a service just started: a polite client connects, closes without reading the byte its
      peer sent, connects to another peer, and receives that byte as the new peer's. Every frame of
      the run is addressed to this host. */
  lemma LeftoverReachable(h: Host, page: seq<byte>, m1: Msg, m2: Msg, mac: Mac, isn: u32, x: byte)
    returns (ins: seq<Input>)
    requires |page| == MAX_TRANSFER && m1.op == OP_CONNECT && m2.op == OP_CONNECT
    ensures var net := Net(None, NoOp, 0, 0, false, [], page);
            && Serving(net) && Serves(net, ins) && AllForHost(h, ins)
            && var net' := After(net, ins);
               && net'.conn == Some(Opened(m2, mac, isn)) && Serving(net')
               && var i := Says(net'.client, RECV_MSG);
                  Polite(net', i) && Roomy(net', i) && Round(net', i).given == [x]
  {
    hide Serving, Polite, Roomy, Round, Opening, Add, LeBytes, ToLe32, Serves, After;
    var net0 := Net(None, NoOp, 0, 0, false, [], page);
    var a := SetUp(page);
    var net1 := After(net0, a);
    Opens(h, net1, m1, mac, isn);
    var b := Opening(h, net1, m1, mac, isn);
    assert b + [] == b;
    Split(net1, b, []);
    var net2 := After(net1, b);
    var c := ByteLeft(h, net2, Opened(m1, mac, isn), x);
    var net3 := After(net2, c);
    StillOpenable(net3);
    Opens(h, net3, m2, mac, isn);
    LeftoversHandedOut(h, net3, m2, mac, isn);
    var d := Opening(h, net3, m2, mac, isn);
    Chain(net2, c, d);
    Chain(net1, b, c + d);
    Chain(net0, a, b + (c + d));
    ins := a + (b + (c + d));
    assert Patch(page, 0, [x])[..1] == [x];
  }

  lemma StillOpenable(net: Net)
    requires Serving(net) && net.stash == [] && net.pending == NoOp && net.conn.None? && net.reply != 0 && net.mapped
    ensures Disconnected(net)
  {
  }

  // ----- the page is shared in both directions -----

  /** A send while bytes wait: the client fills the page with what it wants to send, and its next
      receive gets that instead of what the peer sent. */
  lemma SendClobbers(net: Net, c: Connection, page: seq<byte>, m: Msg)
    requires Serving(net) && net.stash == [] && net.pending == NoOp && net.conn == Some(c) && c.state == Established
    requires net.reply != 0 && net.buffered > 0 && m.op == OP_SEND && |page| == MAX_TRANSFER
    ensures var i := Says(page, m);
            && Polite(net, i) && Roomy(net, i)
            && var net' := Round(net, i).net;
               && Serving(net')
               && var j := Says(page, RECV_MSG);
                  Polite(net', j) && Roomy(net', j) && Round(net', j).given == page[..net.buffered]
  {
    hide Serving, Polite, Roomy, Round;
    MessageRound(net, page, m);
    LeftServing(net, Says(page, m));
    SendResult(net.(client := page), c, m);
    ReceiveRound(Round(net, Says(page, m)).net);
  }

  lemma SendResult(net: Net, c: Connection, m: Msg)
    requires Sized(net) && net.conn == Some(c) && c.state == Established && m.op == OP_SEND
    ensures var n := OnMessage(net, m).net;
            n.stash == net.stash && n.pending == net.pending && n.reply == net.reply && n.buffered == net.buffered
                && n.client == net.client
  {
    hide Add;
  }

  /** One byte of the stream is waiting, the client sends another: what it then receives is not the
      stream. */
  lemma SendBreaksStream(net: Net, c: Connection, m: Msg, page: seq<byte>, stream: seq<byte>, isn: u32, got: seq<byte>)
    requires Serving(net) && net.stash == [] && net.pending == NoOp && net.conn == Some(c) && c.state == Established
    requires net.reply != 0 && net.buffered > 0 && m.op == OP_SEND && |page| == MAX_TRANSFER
    requires InOrder(net, stream, isn, got) && page[0] != net.client[0]
    ensures Polite(net, Says(page, m)) && Serving(Round(net, Says(page, m)).net)
    ensures !(got + Round(Round(net, Says(page, m)).net, Says(page, RECV_MSG)).given <= stream)
  {
    hide Serving, Polite, Roomy, Round, Add;
    SendClobbers(net, c, page, m);
    var n := net.buffered;
    assert (got + page[..n])[|got|] == page[0] && (got + net.client[..n])[|got|] == net.client[0];
  }

  /** The client writes nothing into the shared page. */
  ghost predicate Still(net: Net, ins: seq<Input>)
    requires Carries(net, ins)
    decreases |ins|
  {
    ins == [] || (ins[0].client == net.client && Still(Round(net, ins[0]).net, ins[1..]))
  }

  /** Every round meets pieces of the stream only and opens no new connection. */
  ghost predicate Faithful(net: Net, ins: seq<Input>, stream: seq<byte>, isn: u32, got: seq<byte>)
    requires Carries(net, ins)
    decreases |ins|
  {
    ins == [] ||
    (SameConnection(net, ins[0]) && Honest(net, ins[0].event, stream, isn, got) &&
     Faithful(Round(net, ins[0]).net, ins[1..], stream, isn, got + Round(net, ins[0]).given))
  }

  /** A client that leaves the page alone while its connection is open gets the stream in order,
      whatever the network does. */
  lemma {:induction false} StillClientInOrder(net: Net, ins: seq<Input>, stream: seq<byte>, isn: u32, got: seq<byte>)
    requires InOrder(net, stream, isn, got) && Carries(net, ins)
    requires Still(net, ins) && Faithful(net, ins, stream, isn, got)
    ensures InOrder(Later(net, ins), stream, isn, got + Given(net, ins))
    decreases |ins|
  {
    hide Round, InOrder, Honest, SameConnection, NoConnect, Sized;
    if ins == [] {
      assert got + [] == got;
    } else {
      var o, rest := Round(net, ins[0]), ins[1..];
      StillUnread(net, ins[0]);
      RoundInOrder(net, ins[0], stream, isn, got);
      StillClientInOrder(o.net, rest, stream, isn, got + o.given);
      var more := Given(o.net, rest);
      assert (got + o.given) + more == got + (o.given + more);
    }
  }

  lemma StillUnread(net: Net, i: Input)
    requires Sized(net) && i.client == net.client
    ensures Unread(net, i)
  {
  }

  /** The bytes `s` of the stream arrive one by one and nobody is waiting for them. */
  lemma {:induction false} BytesArrive(h: Host, net: Net, c: Connection, s: seq<byte>) returns (ins: seq<Input>)
    requires Serving(net) && net.stash == [] && net.pending == NoOp && net.conn == Some(c) && c.state == Established
    requires net.buffered + |s| <= MAX_TRANSFER
    ensures Sized(net) && Serves(net, ins) && Serving(After(net, ins)) && AllForHost(h, ins)
    ensures After(net, ins) == net.(conn := Some(c.(rcvNxt := Add(c.rcvNxt, |s|))),
                                    client := Patch(net.client, net.buffered, s), buffered := net.buffered + |s|)
    decreases |s|
  {
    hide Serving, Polite, Roomy, Round, Add, FromPeer, ForHost;
    ServingSized(net);
    if s == [] {
      ins := [];
      AddNone(c.rcvNxt);
      assert Patch(net.client, net.buffered, s) == net.client;
    } else {
      var i := Hears(net.client, FromPeer(h, c, c.rcvNxt, c.sndNxt, ACK, [s[0]]));
      DataArrives(h, net, c, s[0]);
      FromPeerArrives(h, net.client, c, c.rcvNxt, c.sndNxt, ACK, [s[0]]);
      Once(net, i);
      var net1, c1 := Round(net, i).net, c.(rcvNxt := Add(c.rcvNxt, 1));
      var rest := BytesArrive(h, net1, c1, s[1..]);
      Chain(net, [i], rest);
      ins := [i] + rest;
      AddAdd(c.rcvNxt, 1, |s| - 1);
      PatchOn(net.client, net.buffered, s);
    }
  }

  lemma AddNone(x: u32)
    ensures Add(x, 0) == x
  {
  }

  lemma PatchOn(page: seq<byte>, o: nat, s: seq<byte>)
    requires s != [] && o + |s| <= |page|
    ensures Patch(Patch(page, o, [s[0]]), o + 1, s[1..]) == Patch(page, o, s)
  {
  }

  /** No other client is safe. A client that writes anything at offset `o` of the page while its
      connection is open cannot tell how much of it is unread: some bytes up to that offset may have
      arrived before, in order, and with the write the stream is no longer in order. */
  lemma AnyWriteRisks(h: Host, net: Net, c: Connection, isn: u32, got: seq<byte>, o: nat, data: seq<byte>)
    returns (s: seq<byte>, ins: seq<Input>)
    requires Serving(net) && net.stash == [] && net.pending == NoOp && net.conn == Some(c) && c.state == Established
    requires data != [] && net.buffered <= o && o + |data| <= MAX_TRANSFER
    requires InOrder(net, got + net.client[..net.buffered], isn, got)
    ensures Serves(net, ins) && AllForHost(h, ins)
    ensures var net', stream := After(net, ins), got + net.client[..net.buffered] + s;
            && Serving(net') && InOrder(net', stream, isn, got)
            && !InOrder(net'.(client := Patch(net'.client, o, data)), stream, isn, got)
  {
    hide Serving, Polite, Roomy, Round, FromPeer, Add, Serves, AllForHost;
    var b, n := net.buffered, o + 1 - net.buffered;
    s := seq(n, i => if i == n - 1 && data[0] == 0 then 1 else 0);
    ins := BytesArrive(h, net, c, s);
    var net' := After(net, ins);
    var stream := got + net.client[..b] + s;
    AddAdd(isn, 1 + |got| + b, n);
    assert net'.client[..o + 1] == net.client[..b] + s;
    assert got + net'.client[..o + 1] == stream;
    var bad := Patch(net'.client, o, data);
    assert (got + bad[..o + 1])[|got| + o] == data[0] && stream[|got| + o] == s[n - 1];
  }
}
