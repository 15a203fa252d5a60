/**
 What a connection carries: the bytes handed to the client, followed by those buffered, are a
 prefix of the peer's stream; the data sent is numbered without gaps or overlaps.
 */
module NetStream {
  import opened Bytes
  import opened NetTcp
  import opened NetSegment
  import opened NetResponder

  /** The peer's stream starts after its initial number `isn`; `got` has been handed over. */
  ghost predicate InOrder(net: Net, stream: seq<byte>, isn: u32, got: seq<byte>) {
    && Sized(net) && got + net.client[..net.buffered] <= stream
    && (net.conn.Some? ==> net.conn.value.state != ArpPending && net.conn.value.state != SynSent)
    && (net.conn.Some? ==>
          net.conn.value.rcvNxt == Add(isn, (if net.conn.value.state == LastAck then 2 else 1) + |got| + net.buffered))
  }

  /** A data segment carries a piece of the stream under its own number, and is less than a whole
      number space away from the `n` bytes already taken. */
  ghost predicate Genuine(seg: Segment, stream: seq<byte>, isn: u32, n: nat) {
    seg.payload != [] ==> exists o: nat :: PieceAt(seg, stream, isn, n, o)
  }

  ghost predicate PieceAt(seg: Segment, stream: seq<byte>, isn: u32, n: nat, o: nat) {
    && o + |seg.payload| <= |stream| && seg.payload == stream[o..o + |seg.payload|] && seg.num == Add(isn, 1 + o)
    && o < n + U32 && n < o + U32
  }

  ghost predicate Honest(net: Net, event: Event, stream: seq<byte>, isn: u32, got: seq<byte>) {
    event.Frame? && net.conn.Some? && Addressed(net.conn.value, event.bytes).Some? ==>
      Genuine(Addressed(net.conn.value, event.bytes).value, stream, isn, |got| + net.buffered)
  }

  /** Numbers less than a whole space apart agree only if the offsets do. */
  lemma SameOffset(isn: u32, a: nat, b: nat)
    requires a < b + U32 && b < a + U32 && Add(isn, 1 + a) == Add(isn, 1 + b)
    ensures a == b
  {
    var x, y := isn + 1 + a, isn + 1 + b;
    assert x - x % 0x1_0000_0000 == 0x1_0000_0000 * (x / 0x1_0000_0000);
    assert y - y % 0x1_0000_0000 == 0x1_0000_0000 * (y / 0x1_0000_0000);
  }

  lemma AddAdd(x: nat, a: nat, b: nat)
    ensures Add(Add(x, a), b) == Add(x, a + b)
  {
  }

  /** Buffering the next piece of the stream extends the prefix. */
  lemma BufferExtends(net: Net, payload: seq<byte>, stream: seq<byte>, got: seq<byte>)
    requires Sized(net) && got + net.client[..net.buffered] <= stream
    requires var n := |got| + net.buffered; n + |payload| <= |stream| && payload == stream[n..n + |payload|]
    ensures var net' := Buffer(net, payload); Sized(net') && got + net'.client[..net'.buffered] <= stream
  {
    var net' := Buffer(net, payload);
    var k, n := net'.buffered - net.buffered, |got| + net.buffered;
    assert net'.client[..net'.buffered] == net.client[..net.buffered] + payload[..k];
    assert stream[..n] == got + net.client[..net.buffered];
    assert stream[..n + k] == stream[..n] + stream[n..n + k];
    assert payload[..k] == stream[n..n + k];
    assert got + (net.client[..net.buffered] + payload[..k]) == stream[..n + k];
  }

  lemma HandInOrder(net: Net, stream: seq<byte>, isn: u32, got: seq<byte>)
    requires InOrder(net, stream, isn, got)
    ensures InOrder(Hand(net).net, stream, isn, got + Hand(net).given)
  {
    hide Add;
    assert net.client[..0] == [];
    assert got + net.client[..net.buffered] + [] == got + net.client[..net.buffered];
  }

  /** The connection after an in-order or final segment, before the client is told. */
  lemma AdvanceInOrder(net: Net, seg: Segment, stream: seq<byte>, isn: u32, got: seq<byte>)
    requires InOrder(net, stream, isn, got) && net.conn.Some? && net.conn.value.state == Established
    requires seg.payload != [] && seg.num == net.conn.value.rcvNxt && Genuine(seg, stream, isn, |got| + net.buffered)
    ensures var net1 := Buffer(net, seg.payload);
            && net.buffered <= net1.buffered && Sized(net1) && got + net1.client[..net1.buffered] <= stream
            && Add(net.conn.value.rcvNxt, net1.buffered - net.buffered) == Add(isn, 1 + |got| + net1.buffered)
  {
    var o: nat :| PieceAt(seg, stream, isn, |got| + net.buffered, o);
    SameOffset(isn, o, |got| + net.buffered);
    hide Add;
    BufferExtends(net, seg.payload, stream, got);
    AddAdd(isn, 1 + |got| + net.buffered, Buffer(net, seg.payload).buffered - net.buffered);
  }

  lemma EstablishedInOrder(net: Net, seg: Segment, stream: seq<byte>, isn: u32, got: seq<byte>)
    requires InOrder(net, stream, isn, got) && net.conn.Some? && net.conn.value.state == Established
    requires Genuine(seg, stream, isn, |got| + net.buffered)
    ensures var o := InEstablished(net, net.conn.value, seg); InOrder(o.net, stream, isn, got + o.given)
  {
    hide Genuine, Add, Buffer, HasFin, HasRst;
    var c := net.conn.value;
    assert got + [] == got;
    if !HasRst(seg.flags) {
      var advanced := seg.payload != [] && seg.num == c.rcvNxt;
      if advanced {
        AdvanceInOrder(net, seg, stream, isn, got);
      }
      AddZero(isn, 1 + |got| + net.buffered);
      var net1 := if advanced then Buffer(net, seg.payload) else net;
      var next := Add(c.rcvNxt, net1.buffered - net.buffered);
      var fin := HasFin(seg.flags) && Add(seg.num, |seg.payload|) == next;
      if advanced || fin {
        AddAdd(isn, 1 + |got| + net1.buffered, 1);
        var c1 := if fin then c.(rcvNxt := Add(next, 1), sndNxt := Add(c.sndNxt, 1), state := LastAck,
            attemptsLeft := MAX_ATTEMPTS)
                  else c.(rcvNxt := next);
        var net2 := net1.(conn := Some(c1));
        if net.pending == Recv {
          HandInOrder(net2.(pending := NoOp), stream, isn, got);
        }
      }
    }
  }

  lemma AddZero(x: nat, a: nat)
    ensures Add(Add(x, a), 0) == Add(x, a)
  {
  }

  lemma SegmentInOrder(net: Net, seg: Segment, stream: seq<byte>, isn: u32, got: seq<byte>)
    requires InOrder(net, stream, isn, got) && net.conn.Some? && Genuine(seg, stream, isn, |got| + net.buffered)
    ensures var o := OnSegment(net, net.conn.value, seg); InOrder(o.net, stream, isn, got + o.given)
  {
    hide Genuine, InEstablished, Add;
    assert got + [] == got;
    if net.conn.value.state == Established {
      EstablishedInOrder(net, seg, stream, isn, got);
    }
  }

  lemma MessageInOrder(net: Net, m: Msg, stream: seq<byte>, isn: u32, got: seq<byte>)
    requires InOrder(net, stream, isn, got) && m.op != OP_CONNECT
    ensures var o := OnMessage(net, m); InOrder(o.net, stream, isn, got + o.given)
  {
    hide Add;
    assert got + [] == got;
    HandInOrder(net, stream, isn, got);
  }

  /** Messages that do not open a new connection. */
  ghost predicate NoConnect(ms: seq<Msg>) {
    forall m | m in ms :: m.op != OP_CONNECT
  }

  ghost predicate SameConnection(net: Net, i: Input) {
    NoConnect(net.stash) && NoConnect(i.waiting) && NoConnect(i.sending)
    && (i.event.Quiet? && i.event.polled.Some? ==> i.event.polled.value.op != OP_CONNECT)
  }

  lemma {:induction false} PushAllFrom(s: seq<Msg>, ms: seq<Msg>)
    requires NoConnect(s) && NoConnect(ms)
    ensures NoConnect(PushAll(s, ms))
    decreases |ms|
  {
    if ms != [] {
      PushAllFrom(Push(s, ms[0]), ms[1..]);
    }
  }

  lemma HandleInOrder(net: Net, event: Event, stream: seq<byte>, isn: u32, got: seq<byte>)
    requires InOrder(net, stream, isn, got) && Honest(net, event, stream, isn, got)
    requires NoConnect(net.stash) && (event.Quiet? && event.polled.Some? ==> event.polled.value.op != OP_CONNECT)
    ensures var o := Handle(net, event); InOrder(o.net, stream, isn, got + o.given) && NoConnect(o.net.stash)
  {
    hide OnSegment, OnMessage, Add, Parse, ParseArpReply, Genuine;
    assert got + [] == got;
    match event
    case Frame(b) =>
      if net.conn.Some? && Addressed(net.conn.value, b).Some? {
        var seg := Addressed(net.conn.value, b).value;
        SegmentInOrder(net, seg, stream, isn, got);
        SegmentStash(net, seg);
      }
    case Quiet(polled) =>
      if net.stash != [] {
        MessageInOrder(net.(stash := net.stash[1..]), net.stash[0], stream, isn, got);
        MessageStash(net.(stash := net.stash[1..]), net.stash[0]);
      } else if polled.Some? {
        MessageInOrder(net, polled.value, stream, isn, got);
        MessageStash(net, polled.value);
      }
  }

  lemma SegmentStash(net: Net, seg: Segment)
    requires Sized(net) && net.conn.Some?
    ensures OnSegment(net, net.conn.value, seg).net.stash == net.stash
  {
    hide Add;
  }

  lemma MessageStash(net: Net, m: Msg)
    requires Sized(net)
    ensures OnMessage(net, m).net.stash == net.stash
  {
    hide Add;
  }

  /** The client leaves the bytes it has not read alone. */
  ghost predicate Unread(net: Net, i: Input) {
    |i.client| == MAX_TRANSFER && Sized(net) && i.client[..net.buffered] == net.client[..net.buffered]
  }

  /** One round keeps the stream in order. */
  lemma RoundInOrder(net: Net, i: Input, stream: seq<byte>, isn: u32, got: seq<byte>)
    requires InOrder(net, stream, isn, got) && Unread(net, i) && SameConnection(net, i)
             && Honest(net, i.event, stream, isn, got)
    ensures var o := Round(net, i); InOrder(o.net, stream, isn, got + o.given) && NoConnect(o.net.stash)
  {
    hide Handle, Add, Genuine, Addressed;
    var net0 := net.(client := i.client);
    assert InOrder(net0, stream, isn, got);
    if Expired(net) {
      HandInOrder(net0, stream, isn, got);
      assert got + [] == got && i.client[..0] == [];
    } else {
      var net1 := CountDown(net0);
      PushAllFrom(net1.stash, i.waiting);
      var net2 := net1.(stash := PushAll(net1.stash, i.waiting));
      assert InOrder(net2, stream, isn, got);
      CountDownAddressed(net0, i.event);
      hide CountDown;
      HandleInOrder(net2, i.event, stream, isn, got);
      PushAllFrom(Handle(net2, i.event).net.stash, i.sending);
    }
  }

  lemma CountDownAddressed(net: Net, event: Event)
    ensures var n := CountDown(net);
            n.conn.Some? == net.conn.Some? && (net.conn.Some? && event.Frame? ==>
                Addressed(n.conn.value, event.bytes) == Addressed(net.conn.value, event.bytes))
  {
  }

  /** If the client writes the shared page, the unread bytes stay in order exactly when it leaves
      them as they were. */
  lemma UnreadExact(net: Net, page: seq<byte>, stream: seq<byte>, isn: u32, got: seq<byte>)
    requires InOrder(net, stream, isn, got) && |page| == MAX_TRANSFER
    ensures InOrder(net.(client := page), stream, isn, got) <==> page[..net.buffered] == net.client[..net.buffered]
  {
    hide Add;
    var n := |got| + net.buffered;
    var a, b := got + net.client[..net.buffered], got + page[..net.buffered];
    assert a[|got|..] == net.client[..net.buffered] && b[|got|..] == page[..net.buffered];
    if b <= stream {
      assert b == stream[..n] == a;
    }
  }

  /** The handshake that establishes a connection fixes the peer's initial number. The stream then
      starts in order if and only if nothing is left in the buffer from an earlier connection:
      connecting does not clear it. */
  lemma HandshakeInOrder(net: Net, seg: Segment, stream: seq<byte>)
    requires Sized(net) && net.conn.Some? && net.conn.value.state == SynSent && seg.num < U32
    requires var o := OnSegment(net, net.conn.value, seg); o.net.conn.Some? && o.net.conn.value.state == Established
    ensures InOrder(OnSegment(net, net.conn.value, seg).net, stream, seg.num, []) <==> net.buffered == 0
  {
    assert net.client[..0] == [];
  }

  // ----- runs -----

  /** The bytes a run hands to the client. */
  ghost function Given(net: Net, ins: seq<Input>): seq<byte>
    requires Carries(net, ins)
    decreases |ins|
  {
    if ins == [] then [] else Round(net, ins[0]).given + Given(Round(net, ins[0]).net, ins[1..])
  }

  ghost function Later(net: Net, ins: seq<Input>): Net
    requires Carries(net, ins)
    decreases |ins|
  {
    if ins == [] then net else Later(Round(net, ins[0]).net, ins[1..])
  }

  /** Every round of the run keeps the shared page's size. */
  ghost predicate Carries(net: Net, ins: seq<Input>)
    decreases |ins|
  {
    Sized(net) && (ins == [] || (|ins[0].client| == MAX_TRANSFER && Carries(Round(net, ins[0]).net, ins[1..])))
  }

  /** Every round is fair: the client leaves unread bytes alone and opens no new connection, and
      every data segment is a piece of the stream. */
  ghost predicate Fair(net: Net, ins: seq<Input>, stream: seq<byte>, isn: u32, got: seq<byte>)
    requires Carries(net, ins)
    decreases |ins|
  {
    ins == [] ||
    (Unread(net, ins[0]) && SameConnection(net, ins[0]) && Honest(net, ins[0].event, stream, isn, got) &&
     Fair(Round(net, ins[0]).net, ins[1..], stream, isn, got + Round(net, ins[0]).given))
  }

  /** Over any fair run, what the client got, followed by what is buffered for it, is a prefix of
      the peer's stream. */
  lemma {:induction false} StreamInOrder(net: Net, ins: seq<Input>, stream: seq<byte>, isn: u32, got: seq<byte>)
    requires InOrder(net, stream, isn, got) && Carries(net, ins) && Fair(net, ins, stream, isn, got)
    ensures InOrder(Later(net, ins), stream, isn, got + Given(net, ins))
    decreases |ins|
  {
    hide Round, InOrder, Honest, Unread, SameConnection, NoConnect, Sized;
    if ins == [] {
      assert got + [] == got;
    } else {
      var o, rest := Round(net, ins[0]), ins[1..];
      RoundInOrder(net, ins[0], stream, isn, got);
      StreamInOrder(o.net, rest, stream, isn, got + o.given);
      var more := Given(o.net, rest);
      assert Given(net, ins) == o.given + more;
      assert (got + o.given) + more == got + (o.given + more);
      assert Later(net, ins) == Later(o.net, rest);
    }
  }

  // ----- numbers sent -----

  function Payloads(s: seq<Segment>): seq<byte> {
    if s == [] then [] else s[0].payload + Payloads(s[1..])
  }

  /** `out` is the data sent on the connection so far. */
  ghost predicate Numbered(net: Net, out: seq<byte>) {
    Sized(net) && (net.conn.Some? ==>
      match net.conn.value.state
      case ArpPending => net.conn.value.sndNxt == INITIAL_SEQ && out == []
      case SynSent => net.conn.value.sndNxt == INITIAL_SEQ && out == []
      case Established => net.conn.value.sndNxt == Add(INITIAL_SEQ, 1 + |out|)
      case _ => net.conn.value.sndNxt == Add(INITIAL_SEQ, 2 + |out|))
  }

  /** Each data segment starts where the data sent before it ends. */
  ghost predicate Contiguous(sent: seq<Segment>, out: seq<byte>) {
    |sent| <= 1 && (sent != [] && sent[0].payload != [] ==> sent[0].num == Add(INITIAL_SEQ, 1 + |out|))
  }

  lemma PayloadsOne(s: Segment)
    ensures Payloads([s]) == s.payload
  {
    assert [s][1..] == [];
  }

  lemma SegmentNumbered(net: Net, seg: Segment, out: seq<byte>)
    requires Numbered(net, out) && net.conn.Some?
    ensures var o := OnSegment(net, net.conn.value, seg);
            |o.sent| <= 1 && (o.sent != [] ==> o.sent[0].payload == []) && Numbered(o.net, out)
  {
    AddAdd(INITIAL_SEQ, 0, 1);
    AddAdd(INITIAL_SEQ, 1 + |out|, 1);
    AddSame();
    hide Payloads, Add, Buffer, HasFin, HasSyn, HasRst, HasAck;
  }

  lemma AddSame()
    ensures Add(INITIAL_SEQ, 0) == INITIAL_SEQ
  {
  }

  lemma SendNumbered(net: Net, m: Msg, out: seq<byte>)
    requires Numbered(net, out)
    ensures var o := OnSend(net, m); Contiguous(o.sent, out) && Numbered(o.net, out + Payloads(o.sent))
    ensures var o := OnSend(net, m);
            o.sent != [] ==> o.replies == [SendLength(m)] && o.sent[0].payload == net.client[..SendLength(m)]
  {
    assert out + [] == out;
    if net.conn.Some? && net.conn.value.state == Established && net.mapped && net.reply != 0 {
      var c, want := net.conn.value, SendLength(m);
      PayloadsOne(Seg(c, c.sndNxt, c.rcvNxt, PSH + ACK, net.client[..want]));
      AddAdd(INITIAL_SEQ, 1 + |out|, want);
      hide Payloads, Add;
    }
  }

  lemma OthersNumbered(net: Net, m: Msg, out: seq<byte>)
    requires Numbered(net, out) && m.op != OP_CONNECT && m.op != OP_SEND
    ensures var o := OnMessage(net, m);
            |o.sent| <= 1 && (o.sent != [] ==> o.sent[0].payload == []) && Numbered(o.net, out)
  {
    AddAdd(INITIAL_SEQ, 1 + |out|, 1);
    hide Add;
  }

  lemma MessageNumbered(net: Net, m: Msg, out: seq<byte>)
    requires Numbered(net, out) && m.op != OP_CONNECT
    ensures var o := OnMessage(net, m); Contiguous(o.sent, out) && Numbered(o.net, out + Payloads(o.sent))
  {
    if m.op == OP_SEND {
      SendNumbered(net, m, out);
      hide OnSend, Payloads;
    } else {
      OthersNumbered(net, m, out);
      hide OnMessage, Add;
      assert out + [] == out;
      var o := OnMessage(net, m);
      if o.sent != [] {
        assert o.sent == [o.sent[0]];
        PayloadsOne(o.sent[0]);
      }
    }
  }

  lemma FrameNumbered(net: Net, frame: seq<byte>, out: seq<byte>)
    requires Numbered(net, out)
    ensures var o := OnFrame(net, frame); Contiguous(o.sent, out) && Numbered(o.net, out + Payloads(o.sent))
  {
    hide OnSegment, Parse, ParseArpReply, Add;
    assert out + [] == out;
    if net.conn.Some? {
      var c := net.conn.value;
      if c.state != ArpPending && Addressed(c, frame).Some? {
        var seg := Addressed(c, frame).value;
        SegmentNumbered(net, seg, out);
        var o := OnSegment(net, c, seg);
        if o.sent != [] {
          assert o.sent == [o.sent[0]];
          PayloadsOne(o.sent[0]);
        }
      } else if c.state == ArpPending && ParseArpReply(frame, |frame|, c.peerIp).Some? {
        PayloadsOne(OnFrame(net, frame).sent[0]);
      }
    }
  }

  /** One round numbers its data right after everything sent before. */
  lemma RoundNumbered(net: Net, i: Input, out: seq<byte>)
    requires Numbered(net, out) && SameConnection(net, i) && |i.client| == MAX_TRANSFER
    ensures var o := Round(net, i); Contiguous(o.sent, out) && Numbered(o.net, out + Payloads(o.sent))
  {
    hide OnFrame, OnMessage, Add, Payloads;
    PayloadsNone();
    assert out + [] == out;
    var net0 := net.(client := i.client);
    if !Expired(net) {
      var net1 := CountDown(net0);
      PushAllFrom(net1.stash, i.waiting);
      var net2 := net1.(stash := PushAll(net1.stash, i.waiting));
      assert Numbered(net2, out);
      hide CountDown;
      match i.event
      case Frame(b) => FrameNumbered(net2, b, out);
      case Quiet(polled) =>
        if net2.stash != [] {
          MessageNumbered(net2.(stash := net2.stash[1..]), net2.stash[0], out);
        } else if polled.Some? {
          MessageNumbered(net2, polled.value, out);
        }
    }
  }

  lemma PayloadsNone()
    ensures Payloads([]) == []
  {
  }

  /** All data a run sends, in order. */
  ghost function DataSent(net: Net, ins: seq<Input>): seq<byte>
    requires Carries(net, ins)
    decreases |ins|
  {
    if ins == [] then [] else Payloads(Round(net, ins[0]).sent) + DataSent(Round(net, ins[0]).net, ins[1..])
  }

  /** Every data segment of the run starts where all data before it ends. */
  ghost predicate GapFree(net: Net, ins: seq<Input>, out: seq<byte>)
    requires Carries(net, ins)
    decreases |ins|
  {
    ins == [] ||
    (var o := Round(net, ins[0]); Contiguous(o.sent, out) && GapFree(o.net, ins[1..], out + Payloads(o.sent)))
  }

  ghost predicate OneConnection(net: Net, ins: seq<Input>)
    requires Carries(net, ins)
    decreases |ins|
  {
    ins == [] || (SameConnection(net, ins[0]) && OneConnection(Round(net, ins[0]).net, ins[1..]))
  }

  /** Over any run on one connection the data sent is numbered without gaps or overlaps, starting
      right after the initial number. */
  lemma {:induction false} SentGapFree(net: Net, ins: seq<Input>, out: seq<byte>)
    requires Numbered(net, out) && Carries(net, ins) && OneConnection(net, ins)
    ensures GapFree(net, ins, out) && Numbered(Later(net, ins), out + DataSent(net, ins))
    decreases |ins|
  {
    hide Round, Numbered, Contiguous, SameConnection, NoConnect, Sized, Payloads;
    if ins == [] {
      assert out + [] == out;
    } else {
      var o, rest := Round(net, ins[0]), ins[1..];
      RoundNumbered(net, ins[0], out);
      SentGapFree(o.net, rest, out + Payloads(o.sent));
      var more := DataSent(o.net, rest);
      assert DataSent(net, ins) == Payloads(o.sent) + more;
      assert (out + Payloads(o.sent)) + more == out + (Payloads(o.sent) + more);
      assert Later(net, ins) == Later(o.net, rest);
    }
  }
}
