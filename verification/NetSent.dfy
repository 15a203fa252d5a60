/**
 What a round sends and how it moves the connection, stated on the segments and numbers themselves:
 the ports, flags, sequence and acknowledgement numbers of every segment sent in any round, the
 transitions of the connection, and the replies to the client's requests.
 */
module NetSent {
  import opened Bytes
  import opened NetTcp
  import opened NetSegment
  import opened NetResponder
  import opened NetStream

  /** The segment of the connection that a round hears, if any. */
  ghost function Heard(net: Net, event: Event): Option<Segment> {
    if event.Frame? && net.conn.Some? && net.conn.value.state != ArpPending
    then Addressed(net.conn.value, event.bytes) else None
  }

  /** What is sent from the state the connection was in: always between the two ports and with our
      window; a SYN acknowledges nothing, everything else acknowledges what has been taken. */
  ghost predicate Proper(c: Connection, heard: Option<Segment>, after: Option<Connection>, s: Segment) {
    && s.srcPort == 51820 && s.dstPort == c.peerPort && s.window == 2048 && |s.payload| <= 1464 && s.num < U32
    && s.ack < U32
    && match c.state
       case ArpPending => s.flags == 2 && s.num == c.sndNxt && s.ack == 0 && s.payload == []
       case SynSent =>
         && heard.Some? && s.flags == 16 && s.payload == []
         && s.num == (c.sndNxt + 1) % 0x1_0000_0000 && s.ack == (heard.value.num + 1) % 0x1_0000_0000
       case Established =>
         && s.num == c.sndNxt && after.Some? && s.ack == after.value.rcvNxt
         && (match after.value.state
             case Established => if heard.Some? then s.flags == 16 && s.payload == [] else s.flags == 24
             case LastAck => heard.Some? && s.flags == 17 && s.payload == []
             case FinWait1 => heard.None? && s.flags == 17 && s.payload == []
             case _ => false)
       case LastAck => false
       case _ =>
         && heard.Some? && heard.value.flags % 2 == 1 && s.flags == 16 && s.payload == []
         && s.num == c.sndNxt && s.ack == (heard.value.num + 1) % 0x1_0000_0000
  }

  ghost predicate AllProper(conn: Option<Connection>, heard: Option<Segment>, o: Out) {
    |o.sent| <= 1 && (o.sent != [] ==> conn.Some? && Proper(conn.value, heard, o.net.conn, o.sent[0]))
  }

  lemma SegmentProper(net: Net, seg: Segment)
    requires Sized(net) && net.conn.Some? && seg.num < U32
    ensures AllProper(net.conn, Some(seg), OnSegment(net, net.conn.value, seg))
  {
  }

  lemma MessageProper(net: Net, m: Msg)
    requires Sized(net)
    ensures AllProper(net.conn, None, OnMessage(net, m))
  {
  }

  lemma FrameProper(net: Net, frame: Packet)
    requires Sized(net)
    ensures AllProper(net.conn, Heard(net, Event.Frame(frame)), OnFrame(net, frame))
  {
    hide OnSegment, ParseArpReply, Parse;
    if net.conn.Some? && net.conn.value.state != ArpPending && Addressed(net.conn.value, frame).Some? {
      ParsedNumber(net.conn.value, frame);
      SegmentProper(net, Addressed(net.conn.value, frame).value);
    }
  }

  lemma ParsedNumber(c: Connection, frame: seq<byte>)
    ensures Addressed(c, frame).Some? ==> Addressed(c, frame).value.num < U32 && Addressed(c, frame).value.ack < U32
  {
  }

  /** Counting down the attempts changes nothing a segment is made of. */
  lemma CountedProper(net: Net, net1: Net, event: Event, o: Out)
    requires net1.conn.Some? == net.conn.Some?
    requires net.conn.Some? ==> net1.conn.value == net.conn.value.(attemptsLeft := net1.conn.value.attemptsLeft)
    requires AllProper(net1.conn, Heard(net1, event), o)
    ensures AllProper(net.conn, Heard(net, event), o)
  {
    hide Parse;
  }

  /** Every segment sent in any round. */
  lemma RoundProper(net: Net, i: Input)
    requires Sized(net) && |i.client| == MAX_TRANSFER
    ensures AllProper(net.conn, Heard(net, i.event), Round(net, i))
  {
    hide OnFrame, OnMessage, Proper, Addressed;
    var net0 := net.(client := i.client);
    if !Expired(net0) {
      var net1 := CountDown(net0);
      var net2 := net1.(stash := PushAll(net1.stash, i.waiting));
      match i.event {
        case Frame(b) => FrameProper(net2, b);
        case Quiet(polled) =>
          if net2.stash != [] {
            MessageProper(net2.(stash := net2.stash[1..]), net2.stash[0]);
          } else if polled.Some? {
            MessageProper(net2, polled.value);
          }
      }
      CountedProper(net, net2, i.event, Round(net, i));
    }
  }

  /** On a connection in order, every segment acknowledges exactly what has been taken of the peer's
      stream when it is sent, and the peer's FIN once that is taken. */
  lemma RoundAcknowledges(net: Net, i: Input, stream: seq<byte>, isn: u32, got: seq<byte>)
    requires InOrder(net, stream, isn, got) && Unread(net, i) && SameConnection(net, i)
             && Honest(net, i.event, stream, isn, got)
    ensures var o := Round(net, i);
            o.sent != [] && net.conn.Some? && net.conn.value.state == Established ==>
              && o.net.conn.Some?
              && var fin := if o.net.conn.value.state == LastAck then 1 else 0;
                 o.sent[0].ack == (isn + 1 + |got| + |o.given| + o.net.buffered + fin) % 0x1_0000_0000
  {
    RoundInOrder(net, i, stream, isn, got);
    RoundProper(net, i);
    hide Round, Honest, Unread, SameConnection, Addressed;
  }

  /** How much of our own number space is used before the next segment: the SYN, the data, the FIN. */
  ghost function Used(state: ConnState, out: seq<byte>): nat {
    match state
    case ArpPending => 0
    case SynSent => 1
    case Established => 1 + |out|
    case _ => 2 + |out|
  }

  /** Every segment, with data or without, is numbered by what was sent before it. */
  lemma RoundNumbers(net: Net, i: Input, out: seq<byte>)
    requires Numbered(net, out) && |i.client| == MAX_TRANSFER
    ensures var o := Round(net, i);
            o.sent != [] ==>
              net.conn.Some? && o.sent[0].num == (0x1_0000 + Used(net.conn.value.state, out)) % 0x1_0000_0000
  {
    RoundProper(net, i);
    hide Round, Addressed;
  }

  // ----- the connection's transitions -----

  /** What segment `seg` does to the connection `c` of `net`. `fin`, `rst`, `syn` and `ack` are its flags. */
  ghost predicate Moved(net: Net, c: Connection, seg: Segment, o: Out) {
    var fin, syn, rst, ack := seg.flags % 2 == 1, seg.flags / 2 % 2 == 1, seg.flags / 4 % 2 == 1, seg.flags / 16 % 2 ==
        1;
    var after := o.net.conn;
    && Sized(net) && (after.Some? ==>
       (after.value.peerIp, after.value.peerPort, after.value.peerMac) == (c.peerIp, c.peerPort, c.peerMac))
    && match c.state
       case ArpPending => after == Some(c)
       case SynSent =>
         if rst then after.None?
         else if syn && ack && seg.ack == (c.sndNxt + 1) % 0x1_0000_0000 then
           after.Some? && after.value.state == Established && after.value.rcvNxt == (seg.num + 1) % 0x1_0000_0000
           && after.value.sndNxt == (c.sndNxt + 1) % 0x1_0000_0000
         else after == Some(c)
       case Established => if rst then after.None? else Took(net, c, seg, o)
       case LastAck => after == if ack && seg.ack == c.sndNxt then None else Some(c)
       case FinWait1 =>
         if fin then after.None?
         else after.Some? && after.value.state == (if ack && seg.ack == c.sndNxt then FinWait2 else FinWait1)
              && (after.value.sndNxt, after.value.rcvNxt) == (c.sndNxt, c.rcvNxt)
       case FinWait2 => after == if fin then None else Some(c)
  }

  /** How much of a payload an established connection takes: what comes next, as far as there is room. */
  ghost function Taken(net: Net, c: Connection, seg: Segment): (n: nat)
    requires Sized(net)
    ensures n <= |seg.payload|
  {
    if seg.num == c.rcvNxt then Min(|seg.payload|, 4096 - net.buffered) else 0
  }

  /** The FIN right behind that is taken too. */
  ghost predicate TakesFin(net: Net, c: Connection, seg: Segment)
    requires Sized(net)
  {
    seg.flags % 2 == 1 && (seg.num + |seg.payload|) % 0x1_0000_0000 == (c.rcvNxt + Taken(net, c, seg)) % 0x1_0000_0000
  }

  /** What is taken is counted, and buffered, or handed over to a receive that waits. */
  ghost predicate Took(net: Net, c: Connection, seg: Segment, o: Out)
    requires Sized(net)
  {
    var n, fin := Taken(net, c, seg), TakesFin(net, c, seg);
    Counted(c, o.net.conn, n, fin) && Stored(net, seg, o, n, net.pending == Recv && (fin || Next(c, seg)))
  }

  ghost predicate Next(c: Connection, seg: Segment) { seg.payload != [] && seg.num == c.rcvNxt }

  ghost predicate Counted(c: Connection, after: Option<Connection>, n: nat, fin: bool) {
    && after.Some? && after.value.state == (if fin then LastAck else Established)
    && after.value.rcvNxt == (c.rcvNxt + n + (if fin then 1 else 0)) % 0x1_0000_0000
    && after.value.sndNxt == (c.sndNxt + (if fin then 1 else 0)) % 0x1_0000_0000
  }

  ghost predicate Stored(net: Net, seg: Segment, o: Out, n: nat, waits: bool)
    requires Sized(net) && n <= |seg.payload|
  {
    && Sized(o.net) && o.given + o.net.client[..o.net.buffered] == net.client[..net.buffered] + seg.payload[..n]
    && (if waits then o.net.buffered == 0 && o.replies == [|o.given|] && o.net.pending == NoOp
        else o.given == [] && o.replies == [] && o.net.pending == net.pending)
  }

  lemma SegmentMoves(net: Net, seg: Segment)
    requires Sized(net) && net.conn.Some? && seg.num < U32
    ensures Moved(net, net.conn.value, seg, OnSegment(net, net.conn.value, seg))
  {
    hide Took, InEstablished;
    if net.conn.value.state == Established && !HasRst(seg.flags) {
      EstablishedTakes(net, seg);
    }
    if net.conn.value.state == Established {
      EstablishedKeeps(net, seg);
    }
  }

  lemma EstablishedKeeps(net: Net, seg: Segment)
    requires Sized(net) && net.conn.Some?
    ensures var o, c := InEstablished(net, net.conn.value, seg), net.conn.value;
            if HasRst(seg.flags) then o.net.conn.None?
            else
              && o.net.conn.Some? && o.net.conn.value.peerIp == c.peerIp && o.net.conn.value.peerPort == c.peerPort
              && o.net.conn.value.peerMac == c.peerMac
  {
  }

  lemma EstablishedTakes(net: Net, seg: Segment)
    requires Sized(net) && net.conn.Some? && net.conn.value.state == Established && seg.num < U32
             && !HasRst(seg.flags)
    ensures Took(net, net.conn.value, seg, InEstablished(net, net.conn.value, seg))
  {
    hide Buffer, Patch, Add, Counted, Stored, TakesFin, Accepted;
    var c := net.conn.value;
    var advanced := seg.payload != [] && seg.num == c.rcvNxt;
    var net1 := if advanced then Buffer(net, seg.payload) else net;
    var n := Taken(net, c, seg);
    BufferTakes(net, seg.payload);
    FinIs(net, c, seg);
    var fin := TakesFin(net, c, seg);
    assert n == net1.buffered - net.buffered;
    assert net.client[..net.buffered] + seg.payload[..0] == net.client[..net.buffered];
    AcceptedCounts(net1, c, n, fin);
    AcceptedStores(net, net1, c, seg, n, fin);
    NothingTaken(net, c, seg);
  }

  lemma FinIs(net: Net, c: Connection, seg: Segment)
    requires Sized(net) && seg.num < U32
    ensures TakesFin(net, c, seg) == (HasFin(seg.flags)
            && Add(seg.num, |seg.payload|) == Add(c.rcvNxt, Taken(net, c, seg)))
  {
    AddIs(seg.num, |seg.payload|);
    AddIs(c.rcvNxt, Taken(net, c, seg));
    hide Add, Taken;
  }

  lemma AcceptedCounts(net: Net, c: Connection, n: nat, fin: bool)
    requires Sized(net) && c.state == Established
    ensures Counted(c, Accepted(net, c, Add(c.rcvNxt, n), fin).net.conn, n, fin)
  {
    AddIs(c.rcvNxt, n);
    AddIs(c.rcvNxt, n + 1);
    AddAdd(c.rcvNxt, n, 1);
    AddIs(c.sndNxt, 1);
    hide Add;
  }

  lemma AcceptedStores(net: Net, net1: Net, c: Connection, seg: Segment, n: nat, fin: bool)
    requires Sized(net) && Sized(net1) && n <= |seg.payload| && net1.pending == net.pending
    requires net1.client[..net1.buffered] == net.client[..net.buffered] + seg.payload[..n]
    ensures Stored(net, seg, Accepted(net1, c, Add(c.rcvNxt, n), fin), n, net.pending == Recv)
  {
    hide Add;
    assert net1.client[..0] == [];
  }

  lemma NothingTaken(net: Net, c: Connection, seg: Segment)
    requires Sized(net) && net.conn == Some(c) && c.state == Established
    ensures Taken(net, c, seg) == 0 ==> Counted(c, net.conn, 0, false) && Stored(net, seg, Quietly(net), 0, false)
  {
    assert net.client[..net.buffered] + seg.payload[..0] == net.client[..net.buffered];
  }

  lemma AddIs(x: nat, n: nat)
    ensures Add(x, n) == (x + n) % 0x1_0000_0000
  {
  }

  lemma BufferTakes(net: Net, payload: seq<byte>)
    requires Sized(net)
    ensures var net1, n := Buffer(net, payload), Min(|payload|, 4096 - net.buffered);
            && Sized(net1) && net1 == net.(client := net1.client, buffered := net.buffered + n)
            && net1.client[..net1.buffered] == net.client[..net.buffered] + payload[..n]
  {
  }

  /** So does a round that hears the segment, on the connection with one attempt less to go. */
  lemma RoundMoves(net: Net, i: Input)
    requires Sized(net) && |i.client| == MAX_TRANSFER && !Expired(net) && Heard(net, i.event).Some?
    ensures var net1 := CountDown(net.(client := i.client));
            net1.conn.Some? && Moved(net1, net1.conn.value, Heard(net, i.event).value, Round(net, i))
  {
    hide OnSegment, Parse, ParseArpReply, Took;
    var net1 := CountDown(net.(client := i.client));
    var net2 := net1.(stash := PushAll(net1.stash, i.waiting));
    var seg := Heard(net, i.event).value;
    ParsedNumber(net.conn.value, i.event.bytes);
    SegmentMoves(net2, seg);
    TookSame(net1, net2, net1.conn.value, seg, OnSegment(net2, net1.conn.value, seg), Round(net, i));
  }

  lemma TookSame(net: Net, net2: Net, c: Connection, seg: Segment, o: Out, o2: Out)
    requires Sized(net) && net2 == net.(stash := net2.stash) && o2 == o.(net := o.net.(stash := o2.net.stash))
    ensures Took(net2, c, seg, o) == Took(net, c, seg, o2)
  {
  }

  /** The address resolved: the next thing is the SYN. */
  lemma ResolveMoves(net: Net, frame: seq<byte>)
    requires Sized(net) && net.conn.Some? && net.conn.value.state == ArpPending
    ensures var c, o := net.conn.value, OnFrame(net, frame);
            match ParseArpReply(frame, |frame|, c.peerIp)
            case None => o.net == net && o.sent == []
            case Some(mac) =>
              && o.net.conn == Some(c.(peerMac := mac, state := SynSent, attemptsLeft := 2_000_000)) && |o.sent| == 1
              && o.replies == []
  {
  }

  // ----- requests -----

  /** Connecting: refused with 0 while there is a connection or no shared page; otherwise the address,
      given with its first byte lowest, is asked for, and the reply comes later. */
  lemma ConnectAnswers(net: Net, m: Msg)
    requires Sized(net) && m.op == 3 && net.reply != 0
    ensures var o := OnMessage(net, m);
            if net.conn.Some? || !net.mapped then o.replies == [0] && o.net == net && o.sent == []
            else
              && o.replies == [] && o.sent == [] && o.net.pending == Connect && o.net.conn.Some?
              && var c := o.net.conn.value;
                 && Number(c.peerIp[1], c.peerIp[0]) + 65536 * Number(c.peerIp[3], c.peerIp[2]) == m.w1
                 && c.peerPort == m.w2 % 65536 && c.state == ArpPending && c.sndNxt == 0x1_0000
                    && c.attemptsLeft == 2_000_000
  {
    LeExpands(ToLe32(m.w1));
  }

  lemma LeExpands(b: seq<byte>)
    requires |b| == 4
    ensures Le32(b, 0) == Number(b[1], b[0]) + 65536 * Number(b[3], b[2])
  {
    assert b[0..4] == [b[0], b[1], b[2], b[3]];
    LeFour(b[0], b[1], b[2], b[3]);
  }

  /** Sending: the reply is the number of bytes sent, the first of the shared page, at most what fits in
      one segment; 0 without an established connection. */
  lemma SendAnswers(net: Net, m: Msg)
    requires Sized(net) && m.op == 4 && net.reply != 0
    ensures var o := OnMessage(net, m);
            if net.conn.Some? && net.conn.value.state == Established && net.mapped then
              && |o.sent| == 1 && o.replies == [|o.sent[0].payload|]
              && o.sent[0].payload == net.client[..Min(m.w1, 1464)] && o.net.conn.Some?
              && o.net.conn.value.sndNxt == (net.conn.value.sndNxt + Min(m.w1, 1464)) % 0x1_0000_0000
            else o.sent == [] && o.replies == [0] && o.net == net
  {
  }

  /** Receiving: what is buffered, at once if there is some or nothing more can come; otherwise later. */
  lemma RecvAnswers(net: Net, m: Msg)
    requires Sized(net) && m.op == 5 && net.reply != 0
    ensures var o := OnMessage(net, m);
            && o.sent == [] && o.net.client == net.client
            && if net.buffered > 0 || net.conn.None? || net.conn.value.state in {LastAck, FinWait2} then
                 o.given == net.client[..net.buffered] && o.replies == [|o.given|] && o.net.buffered == 0
                 && o.net.conn == net.conn && o.net.pending == net.pending
               else
                 o.given == [] && o.replies == [] && o.net.pending == Recv && o.net.buffered == 0
                 && o.net.conn == Some(net.conn.value.(attemptsLeft := 2_000_000))
  {
  }

  /** Closing: an established connection sends its FIN and the reply comes later; anything else is
      dropped at once, with 1. */
  lemma CloseAnswers(net: Net, m: Msg)
    requires Sized(net) && m.op == 6 && net.reply != 0
    ensures var o := OnMessage(net, m);
            if net.conn.Some? && net.conn.value.state == Established then
              && |o.sent| == 1 && o.replies == [] && o.net.pending == Close && o.net.conn.Some?
              && o.net.conn.value.state == FinWait1
              && o.net.conn.value.sndNxt == (net.conn.value.sndNxt + 1) % 0x1_0000_0000
            else o.sent == [] && o.replies == [1] && o.net.conn.None? && o.net.pending == net.pending
  {
  }

  /** Before a reply slot is set, and for anything else, nothing is answered or sent. */
  lemma SetupAnswers(net: Net, m: Msg)
    requires Sized(net) && (net.reply == 0 || !(3 <= m.op <= 6))
    ensures var o := OnMessage(net, m);
            && o.replies == [] && o.sent == [] && o.given == []
            && o.net == net.(mapped := net.mapped || (m.op == 1 && m.slot != 0 && m.maps),
                             reply := if m.op == 2 && m.slot != 0 then m.slot else net.reply)
  {
  }

  // ----- on the wire -----

  /** The frame that carries a segment goes from us to the peer, and the peer reads the segment in it. */
  lemma FrameCarries(mac: Mac, ip: Ip, c: Connection, s: Segment)
    requires Fits(s)
    ensures var f := Wired(ToPeer(mac, ip, c), [s]);
            && |f| == 1 && |f[0]| >= 60
            && f[0][..6] == c.peerMac && f[0][6..12] == mac && f[0][26..30] == ip && f[0][30..34] == c.peerIp
            && Parse(f[0], |f[0]|, ip) == Some(s)
  {
    RoundTrip(ToPeer(mac, ip, c), s);
    FrameLayout(ToPeer(mac, ip, c), s);
    hide NetSegment.Frame, Parse;
  }

  /** Every segment a round sends goes out in one frame, to the peer, which reads that segment in it. */
  lemma RoundCarries(mac: Mac, ip: Ip, net: Net, i: Input)
    requires Sized(net) && |i.client| == MAX_TRANSFER
    ensures var o, f := Round(net, i), RoundWire(mac, ip, net, i);
            o.sent != [] ==>
              && net.conn.Some? && |f| == 1 && |f[0]| >= 60 && Parse(f[0], |f[0]|, ip) == Some(o.sent[0])
              && f[0][6..12] == mac && f[0][26..30] == ip && f[0][30..34] == net.conn.value.peerIp
              && f[0][..6] == if o.net.conn.Some? then o.net.conn.value.peerMac else net.conn.value.peerMac
  {
    RoundProper(net, i);
    var o := Round(net, i);
    if o.sent != [] {
      assert o.sent == [o.sent[0]];
      WireIs(mac, ip, net, i);
      FrameCarries(mac, ip, Reached(net.conn.value, o.net.conn), o.sent[0]);
      hide Round, RoundWire, Parse, NetSegment.Frame, Wired;
    }
  }

  /** The connection with the address it has when a segment goes out. */
  ghost function Reached(c: Connection, after: Option<Connection>): Connection {
    if c.state == ArpPending && after.Some? then c.(peerMac := after.value.peerMac) else c
  }

  lemma WireIs(mac: Mac, ip: Ip, net: Net, i: Input)
    requires Sized(net) && |i.client| == MAX_TRANSFER && net.conn.Some? && Round(net, i).sent != []
    ensures var o, c := Round(net, i), net.conn.value;
            && RoundWire(mac, ip, net, i) == Wired(ToPeer(mac, ip, Reached(c, o.net.conn)), o.sent)
            && (o.net.conn.Some? ==> o.net.conn.value.peerMac == Reached(c, o.net.conn).peerMac)
  {
    hide OnMessage, OnSegment, Parse, ParseArpReply, Wired, Moved;
    var net1 := CountDown(net.(client := i.client));
    var net2 := net1.(stash := PushAll(net1.stash, i.waiting));
    match i.event
    case Frame(b) =>
      if net2.conn.value.state != ArpPending && Addressed(net2.conn.value, b).Some? {
        SegmentPeer(net2, Addressed(net2.conn.value, b).value);
      }
    case Quiet(polled) =>
      if net2.stash != [] {
        MessagePeer(net2.(stash := net2.stash[1..]), net2.stash[0]);
      } else if polled.Some? {
        MessagePeer(net2, polled.value);
      }
  }

  lemma SegmentPeer(net: Net, seg: Segment)
    requires Sized(net) && net.conn.Some?
    ensures var o := OnSegment(net, net.conn.value, seg);
            o.net.conn.Some? ==> o.net.conn.value.peerMac == net.conn.value.peerMac
  {
    hide Add, Buffer, HasFin, HasSyn, HasRst, HasAck;
  }

  lemma MessagePeer(net: Net, m: Msg)
    requires Sized(net) && net.conn.Some?
    ensures var o := OnMessage(net, m);
            && (o.net.conn.Some? ==> o.net.conn.value.peerMac == net.conn.value.peerMac)
            && (o.sent != [] ==> net.conn.value.state == Established)
  {
    hide Add;
  }

  /** Of the frames that carry a segment, a connection hears exactly those from its peer's address and
      port to our port. */
  lemma HearsExact(e: Ends, s: Segment, c: Connection)
    requires EndsOk(e) && Fits(s)
    ensures var f := NetSegment.Frame(e, s);
            Addressed(c, f) ==
            if e.srcIp == c.peerIp && s.srcPort == c.peerPort && s.dstPort == 51820 then Some(s) else None
  {
    RoundTrip(e, s);
    FrameLayout(e, s);
    var f := NetSegment.Frame(e, s);
    hide NetSegment.Frame;
    if e.srcIp != c.peerIp {
      assert Parse(f, |f|, c.peerIp).None?;
    }
  }

  /** A round that opens a connection asks for its peer's address. */
  lemma OpeningAsks(mac: Mac, ip: Ip, net: Net, i: Input)
    requires Sized(net) && |i.client| == MAX_TRANSFER && net.conn.None? && Round(net, i).net.conn.Some?
    ensures var c, f := Round(net, i).net.conn.value, RoundWire(mac, ip, net, i);
            f == [ArpRequest(mac, ip, c.peerIp)] && AsksFor(f[0], |f[0]|, c.peerIp)
  {
    hide Parse, ParseArpReply, Wired, ArpRequest, AsksFor, Respond, ToLe32;
    var c := Round(net, i).net.conn.value;
    ArpResolves(mac, ip, c.peerIp, mac, c.peerIp);
  }

  /** A frame that the connection does not answer is left to the responder. */
  lemma RoundResponds(mac: Mac, ip: Ip, net: Net, i: Input)
    requires Sized(net) && |i.client| == MAX_TRANSFER && !Expired(net) && i.event.Frame? && Round(net, i).sent == []
    ensures RoundWire(mac, ip, net, i) == match Respond(i.event.bytes, mac, ip) case Some(f) => [f] case None => []
  {
    hide OnFrame, Respond, Wired;
  }
}
