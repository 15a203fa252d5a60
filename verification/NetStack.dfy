/**
 The service as it runs: connection fields, the shared page, the frame buffer and the two-place
 stash are updated in place. One turn of the main loop is proved to be one `Round`.
 */
module NetStack {
  import opened Bytes
  import opened NetTcp
  import opened NetResponder
  import NetSegment

  /** Client messages met while waiting for the network card, oldest first. */
  class Stash {
    const items: array<Option<Msg>>
    var len: nat

    ghost predicate Valid()
      reads this, items
    {
      && items.Length == 2 && len <= 2
      && (forall i | 0 <= i < len :: items[i].Some?)
      && (forall i | len <= i < 2 :: items[i].None?)
    }

    ghost function Contents(): (s: seq<Msg>)
      reads this, items
      requires Valid()
      ensures |s| == len
    {
      seq(len, i requires 0 <= i < len reads this, items requires Valid() => items[i].value)
    }

    constructor ()
      ensures Valid() && fresh(items) && Contents() == []
    {
      items := new Option<Msg>[2](_ => None);
      len := 0;
    }

    method Add(m: Msg)
      requires Valid()
      modifies this, items
      ensures Valid() && Contents() == Push(old(Contents()), m)
    {
      if len < items.Length {
        items[len] := Some(m);
        len := len + 1;
      }
    }

    method PopFront() returns (r: Option<Msg>)
      requires Valid()
      modifies this, items
      ensures Valid()
      ensures var s := old(Contents());
              if s == [] then r == None && Contents() == s else r == Some(s[0]) && Contents() == s[1..]
    {
      r := items[0];
      if r.Some? {
        items[0] := None;
        var i := 1;
        while i < len
          invariant 1 <= i <= len == old(len) <= 2
          invariant items[i - 1] == None
          invariant forall j | 0 <= j < i - 1 :: items[j] == old(items[j + 1])
          invariant forall j | i <= j < 2 :: items[j] == old(items[j])
        {
          items[i - 1] := items[i];
          items[i] := None;
          i := i + 1;
        }
        len := len - 1;
      }
    }

    method AddAll(ms: seq<Msg>)
      requires Valid()
      modifies this, items
      ensures Valid() && Contents() == PushAll(old(Contents()), ms)
    {
      var i := 0;
      while i < |ms|
        invariant i <= |ms| && Valid() && PushAll(Contents(), ms[i..]) == PushAll(old(Contents()), ms)
      {
        assert ms[i..][1..] == ms[i + 1..];
        Add(ms[i]);
        i := i + 1;
      }
    }
  }

  datatype Outcome = NotMine | Handled | Done

  class Service {
    const mac: Mac
    const ip: Ip
    const stash: Stash
    const client: array<byte>
    const nic: array<byte>
    var conn: Option<Connection>
    var pending: PendingOp
    var buffered: nat
    var reply: nat
    var mapped: bool
    /** Replies sent to the client, oldest first. */
    var outbox: seq<nat>
    ghost var sent: seq<NetSegment.Segment>
    ghost var given: seq<byte>
    /** The frames handed to the network card, oldest first. */
    ghost var wire: seq<seq<byte>>

    ghost predicate Valid()
      reads this, stash, stash.items, client, nic
    {
      && stash.Valid() && client.Length == MAX_TRANSFER && nic.Length == NIC_MAX_FRAME && client != nic
      && buffered <= MAX_TRANSFER
    }

    ghost function State(): (n: Net)
      reads this, stash, stash.items, client, nic
      requires Valid()
      ensures Sized(n)
    {
      Net(conn, pending, buffered, reply, mapped, stash.Contents(), client[..])
    }

    constructor (mac: Mac, ip: Ip)
      ensures Valid() && fresh(stash) && fresh(stash.items) && fresh(client) && fresh(nic)
      ensures State() == Net(None, NoOp, 0, 0, false, [], client[..]) && outbox == [] && sent == [] && given == []
              && wire == []
    {
      this.mac, this.ip := mac, ip;
      stash := new Stash();
      client, nic := new byte[MAX_TRANSFER](_ => 0), new byte[1518](_ => 0);
      conn, pending, buffered, reply, mapped := None, NoOp, 0, 0, false;
      outbox, sent, given, wire := [], [], [], [];
    }

    /** What was emitted since the logs were `ob`, `se`, `gi` and `wi`; `fs` are the frames sent. */
    ghost predicate Emitted(ob: seq<nat>, se: seq<NetSegment.Segment>, gi: seq<byte>, wi: seq<seq<byte>>, o: Out,
                            fs: seq<seq<byte>>)
      reads this
    {
      outbox == ob + o.replies && sent == se + o.sent && given == gi + o.given && wire == wi + fs
    }

    /** Has the card send the frame in the first `n` bytes of its buffer. */
    method SendToNic(n: nat)
      requires Valid() && n <= nic.Length
      modifies `wire
      ensures Valid() && State() == old(State()) && wire == old(wire) + [nic[..n]]
    {
      wire := wire + [nic[..n]];
    }

    /** Builds a segment in the frame buffer and has the card send it. */
    method Emit(c: Connection, num: u32, ack: u32, flags: byte, payload: seq<byte>)
      requires Valid() && |payload| <= MAX_SEGMENT_PAYLOAD
      modifies `sent, `wire, nic
      ensures Valid() && State() == old(State()) && sent == old(sent) + [Seg(c, num, ack, flags, payload)]
      ensures wire == old(wire) + Wired(ToPeer(mac, ip, c), [Seg(c, num, ack, flags, payload)])
    {
      hide NetSegment.Frame;
      var s := Seg(c, num, ack, flags, payload);
      var n := NetSegment.BuildSegment(nic, ToPeer(mac, ip, c), s);
      SendToNic(n);
      sent := sent + [s];
    }

    method Tell(w: nat)
      requires Valid()
      modifies `outbox
      ensures Valid() && State() == old(State()) && outbox == old(outbox) + [w]
    {
      outbox := outbox + [w];
    }

    /** Hands the buffered bytes to the client. */
    method HandOver()
      requires Valid()
      modifies `outbox, `buffered, `given
      ensures Valid() && State() == Hand(old(State())).net
      ensures Emitted(old(outbox), old(sent), old(given), old(wire), Hand(old(State())), [])
    {
      Tell(buffered);
      given := given + client[..buffered];
      buffered := 0;
      assert sent + [] == sent && wire + [] == wire;
    }

    method FailPendingOp()
      requires Valid()
      modifies `outbox, `pending, `buffered, `conn, `given
      ensures Valid() && State() == Fail(old(State())).net
      ensures Emitted(old(outbox), old(sent), old(given), old(wire), Fail(old(State())), [])
    {
      var op, had := pending, buffered;
      pending := NoOp;
      buffered := 0;
      conn := None;
      assert sent + [] == sent && wire + [] == wire && given + [] == given && outbox + [] == outbox;
      match op
      case Connect => Tell(0);
      case Recv =>
        Tell(had);
        given := given + client[..had];
      case Close => Tell(1);
      case NoOp =>
    }

    // ----- client messages -----

    method ConnectTo(m: Msg)
      requires Valid()
      modifies `outbox, `pending, `conn, `wire, nic
      ensures Valid() && State() == OnConnect(old(State()), m).net
      ensures Emitted(old(outbox), old(sent), old(given), old(wire), OnConnect(old(State()), m), if conn == old(conn)
              then [] else [ArpRequest(mac, ip, ToLe32(m.w1))])
    {
      assert sent + [] == sent && wire + [] == wire && given + [] == given && outbox + [] == outbox;
      if reply != 0 {
        if conn.Some? || !mapped {
          Tell(0);
        } else {
          var peer := ToLe32(m.w1);
          var n := BuildArpRequest(nic, mac, ip, peer);
          SendToNic(n);
          conn := Some(Connection(peer, m.w2 % 0x1_0000, [0, 0, 0, 0, 0, 0], ArpPending, INITIAL_SEQ, 0, MAX_ATTEMPTS));
          pending := Connect;
        }
      }
    }

    method SendData(m: Msg)
      requires Valid()
      modifies `outbox, `conn, `sent, `wire, nic
      ensures Valid() && State() == OnSend(old(State()), m).net
      ensures Emitted(old(outbox), old(sent), old(given), old(wire), OnSend(old(State()), m), if old(conn).Some?
              then Wired(ToPeer(mac, ip, old(conn).value), OnSend(old(State()), m).sent) else [])
    {
      hide NetSegment.Frame, Add;
      assert sent + [] == sent && wire + [] == wire && given + [] == given && outbox + [] == outbox;
      if reply != 0 {
        if conn.Some? && conn.value.state == Established && mapped {
          var c := conn.value;
          var want := Min(Min(Min(m.w1, WINDOW), MAX_TRANSFER), MAX_SEGMENT_PAYLOAD);
          Emit(c, c.sndNxt, c.rcvNxt, PSH + ACK, client[..want]);
          conn := Some(c.(sndNxt := Add(c.sndNxt, want)));
          Tell(want);
        } else {
          Tell(0);
        }
      }
    }

    method ReceiveData()
      requires Valid()
      modifies `outbox, `pending, `buffered, `conn, `given
      ensures Valid() && State() == OnRecv(old(State())).net
      ensures Emitted(old(outbox), old(sent), old(given), old(wire), OnRecv(old(State())), [])
    {
      assert sent + [] == sent && wire + [] == wire && given + [] == given && outbox + [] == outbox;
      if reply != 0 {
        var done := conn.None? || conn.value.state == LastAck || conn.value.state == FinWait2;
        if buffered > 0 || done {
          HandOver();
        } else {
          pending := Recv;
          conn := Some(conn.value.(attemptsLeft := MAX_ATTEMPTS));
        }
      }
    }

    method CloseConnection()
      requires Valid()
      modifies `outbox, `pending, `conn, `sent, `wire, nic
      ensures Valid() && State() == OnClose(old(State())).net
      ensures Emitted(old(outbox), old(sent), old(given), old(wire), OnClose(old(State())), if old(conn).Some?
              then Wired(ToPeer(mac, ip, old(conn).value), OnClose(old(State())).sent) else [])
    {
      hide NetSegment.Frame, Add;
      assert sent + [] == sent && wire + [] == wire && given + [] == given && outbox + [] == outbox;
      if reply != 0 {
        if conn.Some? && conn.value.state == Established {
          var c := conn.value;
          Emit(c, c.sndNxt, c.rcvNxt, FIN + ACK, []);
          conn := Some(c.(sndNxt := Add(c.sndNxt, 1), state := FinWait1, attemptsLeft := MAX_ATTEMPTS));
          pending := Close;
        } else {
          conn := None;
          Tell(1);
        }
      }
    }

    method HandleClientMessage(m: Msg)
      requires Valid()
      modifies this, nic
      ensures Valid() && State() == OnMessage(old(State()), m).net
      ensures Emitted(old(outbox), old(sent), old(given), old(wire), OnMessage(old(State()), m),
              MessageWire(mac, ip, old(State()), m))
    {
      hide NetSegment.Frame, NetSegment.Fits, ArpRequest, Add, LeBytes;
      assert sent + [] == sent && wire + [] == wire && given + [] == given && outbox + [] == outbox;
      if m.op == OP_SET_BUFFER {
        if m.slot != 0 && m.maps {
          mapped := true;
        }
      } else if m.op == OP_SET_REPLY {
        if m.slot != 0 {
          reply := m.slot;
        }
      } else if m.op == OP_CONNECT {
        ConnectTo(m);
      } else if m.op == OP_SEND {
        SendData(m);
      } else if m.op == OP_RECV {
        ReceiveData();
      } else if m.op == OP_CLOSE {
        CloseConnection();
      }
    }

    // ----- frames -----

    method EnterEstablished(c: Connection, seg: NetSegment.Segment) returns (r: Outcome)
      requires Valid() && conn == Some(c) && c.state == SynSent
      modifies `outbox, `pending, `conn, `sent, `wire, nic
      ensures Valid() && Left(r) == InSynSent(old(State()), c, seg).net
      ensures Emitted(old(outbox), old(sent), old(given), old(wire), InSynSent(old(State()), c, seg),
              Wired(ToPeer(mac, ip, c), InSynSent(old(State()), c, seg).sent))
      ensures r == NotMine ==> nic[..] == old(nic[..]) && InSynSent(old(State()), c, seg) == Quietly(old(State()))
    {
      hide Add, NetSegment.Frame;
      assert sent + [] == sent && wire + [] == wire && given + [] == given && outbox + [] == outbox;
      r := NotMine;
      if HasRst(seg.flags) {
        if pending == Connect {
          Tell(0);
          pending := NoOp;
        }
        r := Done;
      } else if HasSyn(seg.flags) && HasAck(seg.flags) && seg.ack == Add(c.sndNxt, 1) {
        var c' := c.(sndNxt := Add(c.sndNxt, 1), rcvNxt := Add(seg.num, 1), state := Established);
        conn := Some(c');
        Emit(c', c'.sndNxt, c'.rcvNxt, ACK, []);
        if pending == Connect {
          Tell(1);
          pending := NoOp;
        }
        r := Handled;
      }
    }

    /** The state once the caller has dropped a connection that is done. */
    ghost function Left(r: Outcome): Net
      reads this, stash, stash.items, client, nic
      requires Valid()
    {
      if r == Done then State().(conn := None) else State()
    }

    /** Copies in-order payload behind what is buffered; returns how much fitted. */
    method Absorb(payload: seq<byte>) returns (n: nat)
      requires Valid()
      modifies `buffered, client
      ensures Valid() && State() == Buffer(old(State()), payload) && n == buffered - old(buffered)
              && nic[..] == old(nic[..])
    {
      n := Min(|payload|, MAX_TRANSFER - buffered);
      NetSegment.Put(client, buffered, payload[..n]);
      buffered := buffered + n;
    }

    /** Acknowledges what was taken in; a FIN is answered with our own. */
    method Acknowledge(c: Connection, next: u32, fin: bool)
      requires Valid()
      modifies `conn, `sent, `wire, nic
      ensures var c1 := if fin then c.(rcvNxt := Add(next, 1), sndNxt := Add(c.sndNxt, 1), state := LastAck,
              attemptsLeft := MAX_ATTEMPTS)
                        else c.(rcvNxt := next);
              && Valid() && State() == old(State()).(conn := Some(c1))
              && sent == old(sent) + [Seg(c, c.sndNxt, c1.rcvNxt, if fin then FIN + ACK else ACK, [])]
              && wire == old(wire) + Wired(ToPeer(mac, ip, c),
                 [Seg(c, c.sndNxt, c1.rcvNxt, if fin then FIN + ACK else ACK, [])])
    {
      hide Add, NetSegment.Frame;
      var c1 := c.(rcvNxt := if fin then Add(next, 1) else next);
      if fin {
        c1 := c1.(sndNxt := Add(c.sndNxt, 1));
      }
      Emit(c, c.sndNxt, c1.rcvNxt, if fin then FIN + ACK else ACK, []);
      if fin {
        c1 := c1.(state := LastAck, attemptsLeft := MAX_ATTEMPTS);
      }
      conn := Some(c1);
    }

    /** Acknowledges, and answers a receive that waits. */
    method Accept(c: Connection, next: u32, fin: bool)
      requires Valid()
      modifies `outbox, `pending, `buffered, `conn, `sent, `given, `wire, nic
      ensures var o := Accepted(old(State()), c, next, fin);
              && Valid() && State() == o.net
              && Emitted(old(outbox), old(sent), old(given), old(wire), o, Wired(ToPeer(mac, ip, c), o.sent))
    {
      hide Add, Wired;
      assert given + [] == given && outbox + [] == outbox;
      Acknowledge(c, next, fin);
      if pending == Recv {
        HandOver();
        pending := NoOp;
      }
    }

    method ResetEstablished()
      requires Valid() && conn.Some?
      modifies `outbox, `pending
      ensures Valid() && State() == old(State()).(pending := NoOp)
      ensures outbox == old(outbox) + if old(pending) == Recv then [0] else if old(pending) == Close then [1] else []
    {
      if pending == Recv {
        Tell(0);
      } else if pending == Close {
        Tell(1);
      }
      pending := NoOp;
    }

    method InData(c: Connection, seg: NetSegment.Segment) returns (r: Outcome)
      requires Valid() && conn == Some(c) && c.state == Established
      modifies `outbox, `pending, `buffered, `conn, `sent, `given, `wire, nic, client
      ensures Valid() && Left(r) == InEstablished(old(State()), c, seg).net
      ensures Emitted(old(outbox), old(sent), old(given), old(wire), InEstablished(old(State()), c, seg),
              Wired(ToPeer(mac, ip, c), InEstablished(old(State()), c, seg).sent))
      ensures r == NotMine ==> nic[..] == old(nic[..]) && InEstablished(old(State()), c, seg) == Quietly(old(State()))
    {
      hide Add, Buffer, NetSegment.Frame, NetSegment.Fits;
      ghost var net := State();
      assert sent + [] == sent && wire + [] == wire && given + [] == given && outbox + [] == outbox;
      r := NotMine;
      if HasRst(seg.flags) {
        ResetEstablished();
        r := Done;
      } else {
        var advanced, next := false, c.rcvNxt;
        AddNothing(c.rcvNxt);
        if seg.payload != [] && seg.num == c.rcvNxt {
          var n := Absorb(seg.payload);
          next := Add(c.rcvNxt, n);
          advanced := true;
        }
        var fin := HasFin(seg.flags) && Add(seg.num, |seg.payload|) == next;
        if advanced || fin {
          Accept(c, next, fin);
          r := Handled;
        }
      }
    }

    method InLast(c: Connection, seg: NetSegment.Segment) returns (r: Outcome)
      requires Valid() && conn == Some(c) && c.state == LastAck
      modifies `outbox, `pending
      ensures Valid() && Left(r) == InLastAck(old(State()), c, seg).net
      ensures Emitted(old(outbox), old(sent), old(given), old(wire), InLastAck(old(State()), c, seg),
              Wired(ToPeer(mac, ip, c), InLastAck(old(State()), c, seg).sent))
      ensures r == NotMine ==> InLastAck(old(State()), c, seg) == Quietly(old(State()))
    {
      assert sent + [] == sent && wire + [] == wire && given + [] == given && outbox + [] == outbox;
      r := NotMine;
      if HasAck(seg.flags) && seg.ack == c.sndNxt {
        if pending == Close {
          Tell(1);
          pending := NoOp;
        }
        r := Done;
      }
    }

    /** The peer's FIN ends our close. */
    method Finish(c: Connection, seg: NetSegment.Segment)
      requires Valid() && conn == Some(c)
      modifies `outbox, `pending, `sent, `wire, nic
      ensures Valid() && Left(Done) == Closed(old(State()), c, seg).net
      ensures Emitted(old(outbox), old(sent), old(given), old(wire), Closed(old(State()), c, seg),
              Wired(ToPeer(mac, ip, c), Closed(old(State()), c, seg).sent))
    {
      hide Add, NetSegment.Frame;
      assert sent + [] == sent && wire + [] == wire && given + [] == given && outbox + [] == outbox;
      Emit(c, c.sndNxt, Add(seg.num, 1), ACK, []);
      if pending == Close {
        Tell(1);
        pending := NoOp;
      }
    }

    method InFinWait(c: Connection, seg: NetSegment.Segment) returns (r: Outcome)
      requires Valid() && conn == Some(c) && (c.state == FinWait1 || c.state == FinWait2)
      modifies `outbox, `pending, `conn, `sent, `wire, nic
      ensures var o := if c.state == FinWait1 then InFinWait1(old(State()), c, seg)
              else InFinWait2(old(State()), c, seg);
              && Valid() && Left(r) == o.net && Emitted(old(outbox), old(sent), old(given), old(wire), o,
                 Wired(ToPeer(mac, ip, c), o.sent))
              && (r == NotMine ==> nic[..] == old(nic[..]) && o == Quietly(old(State())))
    {
      hide Closed, Add;
      assert sent + [] == sent && wire + [] == wire && given + [] == given && outbox + [] == outbox;
      r := NotMine;
      if HasFin(seg.flags) {
        Finish(c, seg);
        r := Done;
      } else if c.state == FinWait1 && HasAck(seg.flags) && seg.ack == c.sndNxt {
        conn := Some(c.(state := FinWait2, attemptsLeft := MAX_ATTEMPTS));
        r := Handled;
      }
    }

    method ResolvePeer(len: nat, c: Connection) returns (r: Outcome)
      requires Valid() && len <= nic.Length && conn == Some(c) && c.state == ArpPending
      modifies `conn, `sent, `wire, nic
      ensures Valid() && r != Done && State() == OnArp(old(State()), c, old(nic[..len])).net
      ensures Emitted(old(outbox), old(sent), old(given), old(wire), OnArp(old(State()), c, old(nic[..len])),
              if conn.Some? then Wired(ToPeer(mac, ip, conn.value), OnArp(old(State()), c, old(nic[..len])).sent)
                  else [])
      ensures r == NotMine ==>
              nic[..] == old(nic[..]) && OnArp(old(State()), c, old(nic[..len])) == Quietly(old(State()))
      ensures r == Handled ==> OnArp(old(State()), c, old(nic[..len])).sent != []
    {
      hide ParseArpReply, NetSegment.Frame;
      assert sent + [] == sent && wire + [] == wire && given + [] == given && outbox + [] == outbox;
      ArpPrefix(nic[..], len, c.peerIp);
      assert nic[..][..len] == nic[..len];
      var mac := ParseArpReply(nic[..], len, c.peerIp);
      r := NotMine;
      if mac.Some? {
        var c' := c.(peerMac := mac.value, state := SynSent, attemptsLeft := MAX_ATTEMPTS);
        conn := Some(c');
        Emit(c', c'.sndNxt, 0, SYN, []);
        r := Handled;
      }
    }

    method AdvanceConnection(len: nat) returns (r: Outcome)
      requires Valid() && len <= nic.Length && conn.Some?
      modifies `outbox, `pending, `buffered, `conn, `sent, `given, `wire, nic, client
      ensures var o := OnFrame(old(State()), old(nic[..len]));
              && Valid() && Left(r) == o.net && Emitted(old(outbox), old(sent), old(given), old(wire), o,
                 if o.sent != [] then FrameWire(mac, ip, old(State()), old(nic[..len])) else [])
              && (r == NotMine ==> nic[..] == old(nic[..]) && o == Quietly(old(State())))
              && (r != NotMine && o.sent == [] ==> Respond(old(nic[..len]), mac, ip).None?)
    {
      hide NetSegment.Parse, InSynSent, InEstablished, InLastAck, InFinWait1, InFinWait2, NetSegment.Frame,
           NetSegment.Fits, Respond, ParseArpReply;
      var c := conn.value;
      assert sent + [] == sent && wire + [] == wire && given + [] == given && outbox + [] == outbox;
      if c.state == ArpPending {
        r := ResolvePeer(len, c);
      } else {
        NetSegment.ParsePrefix(nic[..], len, c.peerIp);
        assert nic[..][..len] == nic[..len];
        var seg := NetSegment.Parse(nic[..], len, c.peerIp);
        r := NotMine;
        if seg.Some? && seg.value.dstPort == LOCAL_PORT && seg.value.srcPort == c.peerPort {
          SegmentNotAnswered(nic[..len], mac, ip, c.peerIp);
          r := Drive(c, seg.value);
        }
      }
    }

    method Drive(c: Connection, seg: NetSegment.Segment) returns (r: Outcome)
      requires Valid() && conn == Some(c) && c.state != ArpPending
      modifies `outbox, `pending, `buffered, `conn, `sent, `given, `wire, nic, client
      ensures var o := OnSegment(old(State()), c, seg);
              && Valid() && Left(r) == o.net && Emitted(old(outbox), old(sent), old(given), old(wire), o,
                 Wired(ToPeer(mac, ip, c), o.sent))
              && (r == NotMine ==> nic[..] == old(nic[..]) && o == Quietly(old(State())))
    {
      hide InSynSent, InEstablished, InLastAck, InFinWait1, InFinWait2;
      match c.state
      case SynSent => r := EnterEstablished(c, seg);
      case Established => r := InData(c, seg);
      case LastAck => r := InLast(c, seg);
      case FinWait1 => r := InFinWait(c, seg);
      case FinWait2 => r := InFinWait(c, seg);
    }

    /** The frame is the connection's, or else the responder's. */
    method HandleNicFrame(len: nat)
      requires Valid() && len <= nic.Length
      modifies `outbox, `pending, `buffered, `conn, `sent, `given, `wire, nic, client
      ensures Valid() && State() == OnFrame(old(State()), old(nic[..len])).net
      ensures Emitted(old(outbox), old(sent), old(given), old(wire), OnFrame(old(State()), old(nic[..len])),
              FrameWire(mac, ip, old(State()), old(nic[..len])))
    {
      hide NetSegment.Frame, NetSegment.Fits, NetSegment.Parse, Respond, ParseArpReply, OnSegment, OnArp, Addressed,
           Wired;
      assert sent + [] == sent && wire + [] == wire && given + [] == given && outbox + [] == outbox;
      var r := NotMine;
      if conn.Some? {
        hide OnFrame;
        r := AdvanceConnection(len);
      }
      match r
      case Done => conn := None;
      case Handled =>
      case NotMine =>
        var answer := HandleFrame(nic, len, mac, ip);
        if answer.Some? {
          SendToNic(answer.value);
        }
    }

    /** The oldest stashed message, else what the poll of the inbox found. */
    method NextClientMessage(polled: Option<Msg>) returns (m: Option<Msg>)
      requires Valid()
      modifies stash, stash.items
      ensures Valid()
      ensures var s := old(State()).stash;
              if s != [] then m == Some(s[0]) && State() == old(State()).(stash := s[1..])
              else m == polled && State() == old(State())
    {
      m := stash.PopFront();
      if m.None? {
        m := polled;
      }
    }

    /** Asks the card for a frame: what it has is in the buffer then, and its length comes back. */
    method TryReceive(event: Event) returns (len: nat)
      requires Valid()
      modifies nic
      ensures Valid() && len <= nic.Length && (len > 0 <==> event.Frame?)
      ensures event.Frame? ==> nic[..len] == event.bytes
      ensures client[..] == old(client[..])
    {
      len := 0;
      if event.Frame? {
        NetSegment.Put(nic, 0, event.bytes);
        len := |event.bytes|;
      }
    }

    method HandleEvent(event: Event)
      requires Valid()
      modifies this, stash, stash.items, client, nic
      ensures Valid() && State() == Handle(old(State()), event).net
      ensures Emitted(old(outbox), old(sent), old(given), old(wire), Handle(old(State()), event),
              EventWire(mac, ip, old(State()), event))
    {
      hide OnFrame, OnMessage;
      assert sent + [] == sent && wire + [] == wire && given + [] == given && outbox + [] == outbox;
      var len := TryReceive(event);
      if len > 0 {
        HandleNicFrame(len);
      } else {
        var m := NextClientMessage(event.polled);
        if m.Some? {
          HandleClientMessage(m.value);
        }
      }
    }

    /** Charges the pending operation one attempt. */
    method Charge()
      requires Valid() && !Expired(State())
      modifies `conn
      ensures Valid() && State() == CountDown(old(State()))
    {
      if pending != NoOp && conn.Some? {
        conn := Some(conn.value.(attemptsLeft := conn.value.attemptsLeft - 1));
      }
    }

    /** One turn of the main loop: the client may have written the shared page, messages may arrive
        while the card answers, and the card may deliver a frame. */
    method Turn(i: Input)
      requires Valid() && |i.client| == MAX_TRANSFER
      modifies this, stash, stash.items, client, nic
      ensures Valid() && State() == Round(old(State()), i).net
      ensures Emitted(old(outbox), old(sent), old(given), old(wire), Round(old(State()), i),
              RoundWire(mac, ip, old(State()), i))
    {
      hide Handle, Fail, PushAll, CountDown;
      NetSegment.Put(client, 0, i.client);
      assert State() == old(State()).(client := i.client);
      if pending != NoOp && conn.Some? && conn.value.attemptsLeft == 0 {
        FailPendingOp();
      } else {
        Charge();
        stash.AddAll(i.waiting);
        HandleEvent(i.event);
        stash.AddAll(i.sending);
      }
    }
  }

  lemma AddNothing(x: u32)
    ensures Add(x, 0) == x
  {
  }
}
