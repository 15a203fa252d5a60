/**
 Every client request is answered exactly once, and a request that has to wait is answered
 within a fixed number of rounds, whatever the network does.
 */
module NetProgress {
  import opened Bytes
  import opened NetTcp
  import opened NetSegment
  import opened NetResponder

  /** A pending operation has a live connection in a matching state. */
  ghost predicate Matches(pending: PendingOp, conn: Option<Connection>) {
    match pending
    case NoOp => conn.None? || conn.value.state == Established || conn.value.state == LastAck
    case Connect => conn.Some? && (conn.value.state == ArpPending || conn.value.state == SynSent)
    case Recv => conn.Some? && conn.value.state == Established
    case Close => conn.Some? && (conn.value.state == FinWait1 || conn.value.state == FinWait2)
  }

  ghost predicate NetOk(net: Net) {
    && Sized(net) && |net.stash| <= 2
    && Matches(net.pending, net.conn)
    && (net.pending == Recv ==> net.buffered == 0)
    && (net.conn.Some? ==> net.conn.value.attemptsLeft <= MAX_ATTEMPTS && net.mapped)
    && (net.pending != NoOp ==> net.reply != 0)
  }

  /** The most rounds the pending operation can still take: resolving and closing have two phases,
      each with its own budget of attempts. */
  ghost function Rank(net: Net): nat {
    if net.pending == NoOp || net.conn.None? then 0
    else
      var c := net.conn.value;
      c.attemptsLeft + 1 + if c.state == ArpPending || c.state == FinWait1 then MAX_ATTEMPTS else 0
  }

  // ----- requests -----

  predicate IsRequest(m: Msg) { OP_CONNECT <= m.op <= OP_CLOSE }

  function Requests(ms: seq<Msg>): nat {
    if ms == [] then 0 else (if IsRequest(ms[0]) then 1 else 0) + Requests(ms[1..])
  }

  /** Requests this task has taken and not answered. */
  ghost function Owed(net: Net): nat {
    (if net.pending != NoOp then 1 else 0) + Requests(net.stash)
  }

  /** What the poll of the inbox adds to a round: it is made only if nothing is stashed. */
  function Polled(net: Net, i: Input): seq<Msg> {
    if i.event.Quiet? && i.event.polled.Some? && net.stash + i.waiting == [] then [i.event.polled.value] else []
  }

  /** The client messages a round takes from the inbox. */
  function Arrived(net: Net, i: Input): seq<Msg> {
    if Expired(net) then [] else i.waiting + Polled(net, i) + i.sending
  }

  /** The messages a round has to deal with, oldest first. */
  function Queue(net: Net, i: Input): seq<Msg> { net.stash + Arrived(net, i) }

  /** A round handles the oldest message exactly when the card has no frame. */
  predicate Handles(net: Net, i: Input) {
    !Expired(net) && i.event.Quiet? && net.stash + i.waiting + Polled(net, i) != []
  }

  /** The reply slot once `m` has been handled. */
  function SetsReply(reply: nat, m: Msg): nat {
    if m.op == OP_SET_REPLY && m.slot != 0 then m.slot else reply
  }

  /** Every request comes after the reply slot has been set. */
  ghost predicate Introduced(reply: nat, ms: seq<Msg>)
    decreases |ms|
  {
    ms == [] || ((IsRequest(ms[0]) ==> reply != 0) && Introduced(SetsReply(reply, ms[0]), ms[1..]))
  }

  ghost predicate Serving(net: Net) {
    NetOk(net) && Introduced(net.reply, net.stash)
  }

  /** The client sets its reply slot before its first request and has at most one outstanding. */
  ghost predicate Polite(net: Net, i: Input) {
    && |i.client| == MAX_TRANSFER && Introduced(net.reply, Queue(net, i))
    && Owed(net) + Requests(Arrived(net, i)) <= 1
  }

  /** The messages that arrive during each wait for the card fit the stash. */
  ghost predicate Roomy(net: Net, i: Input) {
    !Expired(net) ==>
      && |net.stash| + |i.waiting| <= 2
      && |net.stash| + |i.waiting| + |i.sending| <= (if i.event.Quiet? && net.stash + i.waiting != [] then 3 else 2)
  }

  /** The service as it starts serves any client that introduces itself. */
  lemma FreshServes(page: seq<byte>)
    requires |page| == MAX_TRANSFER
    ensures Serving(Net(None, NoOp, 0, 0, false, [], page)) && Owed(Net(None, NoOp, 0, 0, false, [], page)) == 0
  {
  }

  lemma {:induction false} RequestsConcat(a: seq<Msg>, b: seq<Msg>)
    ensures Requests(a + b) == Requests(a) + Requests(b)
  {
    if a == [] {
      assert a + b == b;
    } else {
      assert (a + b)[0] == a[0] && (a + b)[1..] == a[1..] + b;
      RequestsConcat(a[1..], b);
    }
  }

  /** The stash keeps every message exactly when they fit; otherwise it drops the newest. */
  lemma {:induction false} StashKeeps(s: seq<Msg>, ms: seq<Msg>)
    requires |s| <= 2
    ensures PushAll(s, ms) == (s + ms)[..Min(|s| + |ms|, 2)]
    ensures PushAll(s, ms) == s + ms <==> |s| + |ms| <= 2
    decreases |ms|
  {
    if ms != [] {
      StashKeeps(Push(s, ms[0]), ms[1..]);
      if |s| < 2 {
        assert s + ms == (s + [ms[0]]) + ms[1..];
      } else {
        assert (s + ms)[..2] == s && (s + ms[1..])[..2] == s;
      }
    } else {
      assert s + ms == s;
    }
  }

  /** A client that sets up and connects without waiting can lose its connect: three messages
      arrive during one wait, and the request is the one dropped. */
  lemma ThirdMessageDropped(buffer: Msg, reply: Msg, connect: Msg)
    requires buffer.op == OP_SET_BUFFER && reply.op == OP_SET_REPLY && connect.op == OP_CONNECT
    ensures PushAll([], [buffer, reply, connect]) == [buffer, reply]
    ensures Requests([buffer, reply, connect]) == 1 && Requests(PushAll([], [buffer, reply, connect])) == 0
  {
    StashKeeps([], [buffer, reply, connect]);
    assert ([] + [buffer, reply, connect])[..2] == [buffer, reply];
    RequestsConcat([buffer, reply], [connect]);
    assert [buffer, reply] + [connect] == [buffer, reply, connect];
    RequestsConcat([buffer], [reply]);
    assert [buffer] + [reply] == [buffer, reply];
  }

  // ----- what handling does to the pending operation -----

  /** Handling answers the pending operation, or leaves it pending and closer to its end; with
      nothing pending it answers nothing. */
  ghost predicate Steps(net: Net, o: Out) {
    && NetOk(o.net) && o.net.stash == net.stash && o.net.reply == net.reply
    && if net.pending == NoOp then o.net.pending == NoOp && o.replies == []
       else if o.net.pending == NoOp then |o.replies| == 1
       else o.net.pending == net.pending && o.replies == [] && Rank(o.net) <= Rank(net)
  }

  lemma SegmentSteps(net: Net, seg: Segment)
    requires NetOk(net) && net.conn.Some?
    ensures Steps(net, OnSegment(net, net.conn.value, seg))
  {
    hide Add, Patch;
  }

  lemma FrameSteps(net: Net, frame: seq<byte>)
    requires NetOk(net)
    ensures Steps(net, OnFrame(net, frame))
  {
    hide OnSegment, Parse, ParseArpReply;
    if net.conn.Some? && net.conn.value.state != ArpPending && Addressed(net.conn.value, frame).Some? {
      SegmentSteps(net, Addressed(net.conn.value, frame).value);
    }
  }

  /** A request is answered at once or becomes the pending operation; other messages change neither. */
  lemma MessageSteps(net: Net, m: Msg)
    requires NetOk(net) && (IsRequest(m) ==> net.reply != 0 && net.pending == NoOp)
    ensures var o := OnMessage(net, m);
            && NetOk(o.net) && o.net.stash == net.stash && o.net.reply == SetsReply(net.reply, m)
            && |o.replies| + Waits(o.net) == Waits(net) + (if IsRequest(m) then 1 else 0)
            && (net.pending != NoOp ==> o.replies == [] && o.net.pending == net.pending && Rank(o.net) == Rank(net))
  {
  }

  ghost function Waits(net: Net): nat { if net.pending != NoOp then 1 else 0 }

  /** What one round does for the pending operation. */
  ghost predicate Progresses(net: Net, o: Out) {
    net.pending != NoOp ==>
      || (o.net.pending == NoOp && |o.replies| == 1)
      || (o.net.pending == net.pending && o.replies == [] && Rank(o.net) < Rank(net))
  }

  /** The message an event makes the service handle, if any. */
  function Head(net: Net, event: Event): Option<Msg> {
    if event.Frame? then None else if net.stash != [] then Some(net.stash[0]) else event.polled
  }

  lemma HandleSteps(net: Net, event: Event)
    requires NetOk(net)
    requires var h := Head(net, event); h.Some? && IsRequest(h.value) ==> net.reply != 0 && net.pending == NoOp
    ensures var o, h := Handle(net, event), Head(net, event);
            && NetOk(o.net) && o.net.stash == (if event.Quiet? && net.stash != [] then net.stash[1..] else net.stash)
            && o.net.reply == (if h.Some? then SetsReply(net.reply, h.value) else net.reply)
            && |o.replies| + Waits(o.net) == Waits(net) + (if h.Some? && IsRequest(h.value) then 1 else 0)
            && (Waits(net) == 1 && Waits(o.net) == 1 ==>
                  o.replies == [] && o.net.pending == net.pending && Rank(o.net) <= Rank(net))
            && (Waits(net) == 1 && Waits(o.net) == 0 ==> event.Frame?)
  {
    hide OnFrame, OnMessage;
    match event
    case Frame(b) => FrameSteps(net, b);
    case Quiet(polled) =>
      if net.stash != [] {
        MessageSteps(net.(stash := net.stash[1..]), net.stash[0]);
      } else if polled.Some? {
        MessageSteps(net, polled.value);
      }
  }

  lemma FailSteps(net: Net)
    requires NetOk(net) && Expired(net)
    ensures var o := Fail(net);
            && NetOk(o.net) && o.net.pending == NoOp && |o.replies| == 1
            && o.net.stash == net.stash && o.net.reply == net.reply
  {
  }

  lemma CountDownSteps(net: Net)
    requires NetOk(net) && !Expired(net)
    ensures var n := CountDown(net);
            && NetOk(n) && n.pending == net.pending && n.stash == net.stash && n.reply == net.reply
            && (net.pending != NoOp ==> Rank(n) == Rank(net) - 1)
  {
  }

  /** The state in which a round that has not expired handles its event. */
  ghost function Readied(net: Net, i: Input): Net {
    var net1 := CountDown(net.(client := i.client));
    net1.(stash := net1.stash + i.waiting)
  }

  lemma ReadiedOk(net: Net, i: Input)
    requires NetOk(net) && |i.client| == MAX_TRANSFER && Roomy(net, i) && !Expired(net)
    ensures var net2 := Readied(net, i);
            && NetOk(net2) && Sized(net2) && net2.stash == net.stash + i.waiting && net2.reply == net.reply
               && net2.pending == net.pending
            && (net.pending != NoOp ==> Rank(net2) == Rank(net) - 1)
            && Head(net2, i.event) == (if Handles(net, i) then Some(Queue(net, i)[0]) else None)
  {
    var net0 := net.(client := i.client);
    assert NetOk(net0) && Rank(net0) == Rank(net);
    CountDownSteps(net0);
    hide CountDown;
  }

  /** What is left of the queue once its head has been handled. */
  function Left(net: Net, i: Input): seq<Msg> {
    if Handles(net, i) then Queue(net, i)[1..] else Queue(net, i)
  }

  lemma QueueLeft(net: Net, i: Input)
    requires Roomy(net, i) && !Expired(net)
    ensures Queue(net, i) == (net.stash + i.waiting + Polled(net, i)) + i.sending
    ensures var s := net.stash + i.waiting;
            Left(net, i) == (if i.event.Quiet? && s != [] then s[1..] else s) + i.sending && |Left(net, i)| <= 2
  {
    var s, p := net.stash + i.waiting, Polled(net, i);
    Regrouped(net.stash, i.waiting, p, i.sending);
    Popped(s, p, i.sending);
    hide Arrived;
  }

  lemma Regrouped(a: seq<Msg>, b: seq<Msg>, c: seq<Msg>, d: seq<Msg>)
    ensures a + ((b + c) + d) == ((a + b) + c) + d
  {
  }

  lemma Popped(s: seq<Msg>, p: seq<Msg>, q: seq<Msg>)
    requires p == [] || (s == [] && |p| == 1)
    ensures |(s + p) + q| == |s| + |p| + |q| && (p == [] ==> (s + p) + q == s + q)
    ensures s + p != [] ==> ((s + p) + q)[1..] == (if s != [] then s[1..] else s) + q
  {
    assert s + p == if p == [] then s else p;
    if s + p != [] {
      assert (s + p + q)[1..] == (s + p)[1..] + q;
    }
  }

  lemma QueueRequests(net: Net, i: Input)
    ensures Requests(Queue(net, i)) == Requests(net.stash) + Requests(Arrived(net, i))
    ensures Requests(Queue(net, i)) ==
            Requests(Left(net, i)) + (if Handles(net, i) && IsRequest(Queue(net, i)[0]) then 1 else 0)
  {
    RequestsConcat(net.stash, Arrived(net, i));
  }

  /** A round that has not expired handles its event in the readied state, then stashes what arrived
      meanwhile. */
  lemma LiveRound(net: Net, i: Input)
    requires Serving(net) && Polite(net, i) && Roomy(net, i) && !Expired(net)
    ensures var o := Handle(Readied(net, i), i.event);
            && NetOk(Readied(net, i)) && NetOk(o.net) && Round(net, i) == o.(net := o.net.(stash := Left(net, i)))
            && (Handles(net, i) ==> IsRequest(Queue(net, i)[0]) ==> net.reply != 0 && net.pending == NoOp)
  {
    hide Handle, CountDown, Requests, IsRequest, NetOk;
    ReadiedOk(net, i);
    QueueLeft(net, i);
    QueueRequests(net, i);
    StashKeeps(net.stash, i.waiting);
    var net2 := Readied(net, i);
    var o := Handle(net2, i.event);
    HandleSteps(net2, i.event);
    StashKeeps(o.net.stash, i.sending);
  }

  /** One round: the queue moves up by the message handled, requests taken are requests answered or
      owed, and the pending one gets closer. */
  lemma RoundSteps(net: Net, i: Input)
    requires Serving(net) && Polite(net, i) && Roomy(net, i)
    ensures var o := Round(net, i);
            && Serving(o.net) && o.net.stash == Left(net, i)
            && Owed(net) + Requests(Arrived(net, i)) == |o.replies| + Owed(o.net)
            && Progresses(net, o)
  {
    hide Handle, CountDown, Fail, Requests;
    QueueRequests(net, i);
    if Expired(net) {
      var net0 := net.(client := i.client);
      assert NetOk(net0);
      FailSteps(net0);
      OneRequest([]);
    } else {
      LiveRound(net, i);
      ReadiedOk(net, i);
      QueueLeft(net, i);
      HandleSteps(Readied(net, i), i.event);
      var o := Handle(Readied(net, i), i.event);
      hide Round, Arrived, Roomy, Readied, Head, Handles, Left;
      assert NetOk(o.net.(stash := Left(net, i)));
      assert Rank(o.net.(stash := Left(net, i))) == Rank(o.net);
    }
  }

  lemma OneRequest(ms: seq<Msg>)
    requires |ms| <= 1
    ensures Requests(ms) == if ms != [] && IsRequest(ms[0]) then 1 else 0
  {
  }

  // ----- runs -----

  /** The state after a run of rounds. */
  ghost function After(net: Net, ins: seq<Input>): Net
    requires Serving(net) && Serves(net, ins)
    decreases |ins|
  {
    if ins == [] then net
    else
      RoundSteps(net, ins[0]);
      After(Round(net, ins[0]).net, ins[1..])
  }

  ghost predicate Serves(net: Net, ins: seq<Input>)
    requires Serving(net)
    decreases |ins|
  {
    ins == [] ||
    (Polite(net, ins[0]) && Roomy(net, ins[0]) &&
     (RoundSteps(net, ins[0]); Serves(Round(net, ins[0]).net, ins[1..])))
  }

  ghost function Replies(net: Net, ins: seq<Input>): seq<nat>
    requires Serving(net) && Serves(net, ins)
    decreases |ins|
  {
    if ins == [] then []
    else
      RoundSteps(net, ins[0]);
      Round(net, ins[0]).replies + Replies(Round(net, ins[0]).net, ins[1..])
  }

  ghost function Taken(net: Net, ins: seq<Input>): nat
    requires Serving(net) && Serves(net, ins)
    decreases |ins|
  {
    if ins == [] then 0
    else
      RoundSteps(net, ins[0]);
      Requests(Arrived(net, ins[0])) + Taken(Round(net, ins[0]).net, ins[1..])
  }

  /** Over any run, every request taken is answered once or still owed, and at most one is owed. */
  lemma {:induction false} AnsweredOnce(net: Net, ins: seq<Input>)
    requires Serving(net) && Serves(net, ins) && Owed(net) <= 1
    ensures Serving(After(net, ins)) && Owed(After(net, ins)) <= 1
    ensures Owed(net) + Taken(net, ins) == |Replies(net, ins)| + Owed(After(net, ins))
    decreases |ins|
  {
    if ins != [] {
      hide Round, Serving, Owed, Requests, Polite, Roomy, Progresses, Arrived, Left;
      RoundSteps(net, ins[0]);
      OwedAtMostOne(net, ins[0]);
      AnsweredOnce(Round(net, ins[0]).net, ins[1..]);
    }
  }

  lemma OwedAtMostOne(net: Net, i: Input)
    requires Serving(net) && Polite(net, i) && Roomy(net, i)
    ensures Sized(net) && |i.client| == MAX_TRANSFER && Owed(Round(net, i).net) <= 1
  {
    hide Round, Requests, Arrived, Progresses, Left, Introduced;
    RoundSteps(net, i);
  }

  /** The wait is bounded: within `Rank` rounds the pending operation gets its one reply, and no
      reply comes earlier. From the round that handles the request this is at most
      2 * MAX_ATTEMPTS + 1. */
  lemma {:induction false} AnsweredInTime(net: Net, ins: seq<Input>) returns (n: nat)
    requires Serving(net) && Serves(net, ins) && net.pending != NoOp && |ins| >= Rank(net)
    ensures 1 <= n <= Rank(net) <= 2 * MAX_ATTEMPTS + 1 && Serves(net, ins[..n])
    ensures After(net, ins[..n]).pending == NoOp && |Replies(net, ins[..n])| == 1
    ensures forall k | 0 <= k < n :: Serves(net, ins[..k]) && Replies(net, ins[..k]) == []
    decreases Rank(net)
  {
    hide Round, Serving, Rank, Polite, Roomy, Left, Owed;
    RankBounds(net);
    RoundSteps(net, ins[0]);
    OwedAtMostOne(net, ins[0]);
    var o, rest := Round(net, ins[0]), ins[1..];
    assert ins[..1] == [ins[0]] && ins[..1][1..] == [];
    if o.net.pending == NoOp {
      n := 1;
      assert ins[..0] == [];
    } else {
      var m := AnsweredInTime(o.net, rest);
      n := m + 1;
      assert ins[..n][0] == ins[0] && ins[..n][1..] == rest[..m];
      forall k | 0 <= k < n ensures Serves(net, ins[..k]) && Replies(net, ins[..k]) == [] {
        if k > 0 {
          assert ins[..k][0] == ins[0] && ins[..k][1..] == rest[..k - 1];
        } else {
          assert ins[..k] == [];
        }
      }
    }
  }

  lemma RankBounds(net: Net)
    requires Serving(net) && net.pending != NoOp
    ensures 1 <= Rank(net) <= 2 * MAX_ATTEMPTS + 1
  {
  }

  // ----- requests that wait in the stash -----

  lemma {:induction false} Split(net: Net, a: seq<Input>, b: seq<Input>)
    requires Serving(net) && Serves(net, a + b)
    ensures Serves(net, a) && Serving(After(net, a)) && Serves(After(net, a), b)
    ensures After(net, a + b) == After(After(net, a), b)
            && Replies(net, a + b) == Replies(net, a) + Replies(After(net, a), b)
    decreases |a|
  {
    hide Round, Serving, Polite, Roomy, Progresses, Left;
    if a == [] {
      assert a + b == b;
      assert Replies(net, a) + Replies(net, b) == Replies(net, b);
    } else {
      assert (a + b)[0] == a[0] && (a + b)[1..] == a[1..] + b;
      RoundSteps(net, a[0]);
      var o := OneRound(net, a[0]);
      Split(o.net, a[1..], b);
      assert (o.replies + Replies(o.net, a[1..])) + Replies(After(net, a), b)
          == o.replies + (Replies(o.net, a[1..]) + Replies(After(net, a), b));
    }
  }

  ghost function OneRound(net: Net, i: Input): (o: Out)
    requires Serving(net) && Polite(net, i)
    ensures o == Round(net, i)
  {
    Round(net, i)
  }

  /** How many rounds of a run handle a message. */
  ghost function Turns(net: Net, ins: seq<Input>): nat
    requires Serving(net) && Serves(net, ins)
    decreases |ins|
  {
    if ins == [] then 0
    else
      RoundSteps(net, ins[0]);
      (if Handles(net, ins[0]) then 1 else 0) + Turns(Round(net, ins[0]).net, ins[1..])
  }

  /** The messages a run handles, in order. */
  ghost function Handled(net: Net, ins: seq<Input>): seq<Msg>
    requires Serving(net) && Serves(net, ins)
    decreases |ins|
  {
    if ins == [] then []
    else
      RoundSteps(net, ins[0]);
      (if Handles(net, ins[0]) then [Queue(net, ins[0])[0]] else []) + Handled(Round(net, ins[0]).net, ins[1..])
  }

  /** The message at position `p` of the stash moves up by one each time a message is handled, and
      by nothing else: it is still waiting if at most `p` have been handled, and otherwise it was the
      one handled after the first `p`. */
  lemma {:induction false} StashTurn(net: Net, ins: seq<Input>, p: nat)
    requires Serving(net) && Serves(net, ins) && p < |net.stash|
    ensures var n, net' := Turns(net, ins), After(net, ins);
            && |Handled(net, ins)| == n
            && if n <= p then p - n < |net'.stash| && net'.stash[p - n] == net.stash[p]
               else Handled(net, ins)[p] == net.stash[p]
    decreases |ins|
  {
    hide Round, Serving, Polite, Roomy, Progresses;
    if ins != [] {
      RoundSteps(net, ins[0]);
      var o := OneRound(net, ins[0]);
      assert Queue(net, ins[0])[p] == net.stash[p];
      if !Handles(net, ins[0]) {
        StashTurn(o.net, ins[1..], p);
      } else if p > 0 {
        StashTurn(o.net, ins[1..], p - 1);
      } else {
        HandledCount(o.net, ins[1..]);
      }
    }
  }

  lemma {:induction false} HandledCount(net: Net, ins: seq<Input>)
    requires Serving(net) && Serves(net, ins)
    ensures |Handled(net, ins)| == Turns(net, ins)
    decreases |ins|
  {
    hide Round, Serving, Polite, Roomy, Progresses;
    if ins != [] {
      RoundSteps(net, ins[0]);
      HandledCount(OneRound(net, ins[0]).net, ins[1..]);
    }
  }

  lemma {:induction false} HasRequest(ms: seq<Msg>, k: nat)
    requires k < |ms| && IsRequest(ms[k])
    ensures Requests(ms) >= 1
  {
    if k > 0 {
      HasRequest(ms[1..], k - 1);
    }
  }

  /** Until its turn comes a stashed request gets no reply, and nothing else does. */
  lemma {:induction false} UntilTurn(net: Net, ins: seq<Input>, p: nat)
    requires Serving(net) && Serves(net, ins) && Owed(net) <= 1 && p < |net.stash| && IsRequest(net.stash[p])
    requires Turns(net, ins) <= p
    ensures Replies(net, ins) == [] && After(net, ins).pending == NoOp && Owed(After(net, ins)) == 1
    decreases |ins|
  {
    hide Round, Serving, Roomy, Progresses, IsRequest, Introduced, Arrived;
    HasRequest(net.stash, p);
    if ins != [] {
      RoundSteps(net, ins[0]);
      OwedAtMostOne(net, ins[0]);
      var o := OneRound(net, ins[0]);
      var p' := if Handles(net, ins[0]) then p - 1 else p;
      assert Queue(net, ins[0])[p] == net.stash[p];
      assert o.net.stash[p'] == net.stash[p];
      HasRequest(o.net.stash, p');
      UntilTurn(o.net, ins[1..], p');
    }
  }

  /** A broadcast of no protocol the service knows, which the card lets through. */
  function Noise(): Packet { [255, 255, 255, 255, 255, 255] + seq(54, _ => 0) }

  /** `n` rounds in each of which the card delivers a frame that is nobody's. */
  function Busy(page: seq<byte>, n: nat): seq<Input> {
    if n == 0 then [] else [Input(page, [], Frame(Noise()), [])] + Busy(page, n - 1)
  }

  /** A busy card starves a stashed request, however long it waits. */
  lemma {:induction false} BusyStarves(net: Net, n: nat)
    requires Serving(net) && Owed(net) <= 1 && net.pending == NoOp
    ensures var ins := Busy(net.client, n);
            && |ins| == n && Serves(net, ins) && Replies(net, ins) == [] && After(net, ins).stash == net.stash
    decreases n
  {
    if n > 0 {
      var i := Input(net.client, [], Frame(Noise()), []);
      var ins := Busy(net.client, n);
      assert ins[0] == i && ins[1..] == Busy(net.client, n - 1);
      IdleRound(net, i);
      hide Serving, Polite, Roomy;
      BusyStarves(net, n - 1);
    }
  }

  lemma IdleRound(net: Net, i: Input)
    requires Serving(net) && Owed(net) <= 1 && net.pending == NoOp && i == Input(net.client, [], Frame(Noise()), [])
    ensures Polite(net, i) && Roomy(net, i) && Round(net, i) == Quietly(net)
  {
    assert net.stash + [] == net.stash;
    assert Noise()[12..14] == [0, 0];
    OneRequest([]);
  }

  /** A request at position `p` of the stash: nothing is answered in the rounds `a` before its turn,
      round `i` handles it, and its one reply comes then or within the next `k` rounds. */
  lemma TurnAnswered(net: Net, a: seq<Input>, i: Input, c: seq<Input>, p: nat) returns (k: nat)
    requires Serving(net) && Serves(net, a + ([i] + c)) && Owed(net) <= 1 && p < |net.stash| && IsRequest(net.stash[p])
    requires Serves(net, a) && Turns(net, a) == p && Handles(After(net, a), i) && |c| >= 2 * MAX_ATTEMPTS + 1
    ensures k <= 2 * MAX_ATTEMPTS + 1 && Serves(net, a + ([i] + c[..k])) && Replies(net, a) == []
    ensures |Replies(net, a + ([i] + c[..k]))| == 1 && After(net, a + ([i] + c[..k])).pending == NoOp
  {
    hide Round, Serving, Polite, Roomy, IsRequest, Introduced, Arrived, Rank, Owed;
    Split(net, a, [i] + c);
    UntilTurn(net, a, p);
    StashTurn(net, a, p);
    var net1 := After(net, a);
    assert ([i] + c)[0] == i && ([i] + c)[1..] == c;
    var o := FrontHandled(net1, i);
    k := 0;
    if o.net.pending != NoOp {
      RankBounds(o.net);
      k := AnsweredInTime(o.net, c);
    }
    Joined(net, a, i, c, k);
  }

  lemma Joined(net: Net, a: seq<Input>, i: Input, c: seq<Input>, k: nat)
    requires Serving(net) && Serves(net, a + ([i] + c)) && k <= |c|
    ensures Serves(net, a) && Serving(After(net, a)) && Polite(After(net, a), i)
    ensures var o := Round(After(net, a), i);
            && Serving(o.net) && Serves(o.net, c[..k]) && Serves(net, a + ([i] + c[..k]))
            && Replies(net, a + ([i] + c[..k])) == Replies(net, a) + (o.replies + Replies(o.net, c[..k]))
            && After(net, a + ([i] + c[..k])) == After(o.net, c[..k])
  {
    hide Round, Serving, Polite, Roomy, Progresses, Left;
    var mid := [i] + c[..k];
    assert a + ([i] + c) == (a + mid) + c[k..];
    Split(net, a + mid, c[k..]);
    Split(net, a, mid);
    assert mid[0] == i && mid[1..] == c[..k];
    RoundSteps(After(net, a), i);
  }

  /** A request at position `p` of the stash is answered exactly once, at the latest
      2 * MAX_ATTEMPTS + 1 rounds after the round that handles the (`p` + 1)-th message, and not
      before that round. */
  lemma StashedAnswered(net: Net, ins: seq<Input>, p: nat, m: nat) returns (n: nat)
    requires Serving(net) && Serves(net, ins) && Owed(net) <= 1 && p < |net.stash| && IsRequest(net.stash[p])
    requires m < |ins| && |ins| >= m + 1 + 2 * MAX_ATTEMPTS + 1
    requires Serves(net, ins[..m]) && Turns(net, ins[..m]) == p && Handles(After(net, ins[..m]), ins[m])
    ensures m < n <= m + 1 + 2 * MAX_ATTEMPTS + 1 && Serves(net, ins[..n])
    ensures Replies(net, ins[..m]) == [] && |Replies(net, ins[..n])| == 1 && After(net, ins[..n]).pending == NoOp
  {
    hide Serving, Serves, After, Replies, Turns, Handles, Owed, IsRequest;
    var a, i, c := ins[..m], ins[m], ins[m + 1..];
    assert ins == a + ([i] + c);
    var k := TurnAnswered(net, a, i, c, p);
    n := m + 1 + k;
    assert ins[..n] == a + ([i] + c[..k]);
  }

  /** The round that handles a request answers it or starts its wait. */
  lemma FrontHandled(net: Net, i: Input) returns (o: Out)
    requires Serving(net) && Polite(net, i) && Roomy(net, i) && Handles(net, i) && Owed(net) == 1 && net.pending == NoOp
    requires net.stash != [] && IsRequest(net.stash[0])
    ensures o == Round(net, i) && Serving(o.net)
    ensures if o.net.pending == NoOp then |o.replies| == 1 else o.replies == []
  {
    RoundSteps(net, i);
    o := Round(net, i);
    var q := Queue(net, i);
    assert q[0] == net.stash[0];
    QueueRequests(net, i);
    hide Round, Serving, Queue, Handles;
    assert Requests(Left(net, i)) == 0;
  }

  // ----- what the reply says -----

  /** Connect: 1 with an established connection, 0 with none. Receive: the number of bytes handed
      over. Close: 1, and the connection is gone. */
  ghost predicate Truthful(pending: PendingOp, o: Out) {
    o.net.pending == NoOp && |o.replies| == 1 ==>
      match pending
      case NoOp => true
      case Connect => if o.net.conn.Some? then o.net.conn.value.state == Established
          && o.replies[0] == 1 else o.replies[0] == 0
      case Recv => o.replies[0] == |o.given| && o.net.buffered == 0
      case Close => o.replies[0] == 1 && o.net.conn.None?
  }

  lemma SegmentTruthful(net: Net, seg: Segment)
    requires NetOk(net) && net.conn.Some?
    ensures Truthful(net.pending, OnSegment(net, net.conn.value, seg))
  {
  }

  lemma RoundTruthful(net: Net, i: Input)
    requires Serving(net) && Polite(net, i) && Roomy(net, i)
    ensures net.pending != NoOp ==> Truthful(net.pending, Round(net, i))
  {
    hide OnSegment, OnMessage, Parse, ParseArpReply;
    var net0 := net.(client := i.client);
    if net.pending != NoOp && !Expired(net) {
      LiveRound(net, i);
      ReadiedOk(net, i);
      hide CountDown, NetOk, Roomy, Owed, Requests, Readied;
      HandleSteps(Readied(net, i), i.event);
      HandleTruthful(Readied(net, i), i.event);
    }
  }

  lemma HandleTruthful(net: Net, event: Event)
    requires NetOk(net) && net.pending != NoOp && (event.Quiet? ==> Handle(net, event).net.pending != NoOp)
    ensures Truthful(net.pending, Handle(net, event))
  {
    hide OnSegment, OnMessage, Parse, ParseArpReply;
    match event
    case Frame(b) =>
      if net.conn.value.state != ArpPending && Addressed(net.conn.value, b).Some? {
        SegmentTruthful(net, Addressed(net.conn.value, b).value);
      }
    case Quiet(_) =>
  }
}
