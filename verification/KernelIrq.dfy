/**
 The interrupt handshake: a forwarded line is masked until its driver's next receive. Over every
 disciplined run a registered line is unmasked with nothing outstanding, or masked with exactly
 one notification outstanding: a queued event or an acknowledgement still owed.
 */
module KernelIrq {
  import opened Bytes
  import opened KernelState
  import opened KernelSched
  import opened KernelMessages

  /** The lines the generic handler forwards, without the cascade line 2. */
  ghost predicate Forwarded(l: nat) { 3 <= l < 16 }

  function Events(s: seq<IrqEvent>, l: nat): seq<IrqEvent> {
    if s == [] then [] else (if s[0].irq == l then [s[0]] else []) + Events(s[1..], l)
  }

  /** Endpoint `e` owes an acknowledgement of line `l`. */
  ghost predicate Owes(k: Kernel, e: nat, l: nat) {
    e < |k.endpoints| && k.endpoints[e].ack == Some(l)
  }

  /** Notifications of line `l` sent to `e` that no receive has acknowledged yet. */
  ghost function Outstanding(k: Kernel, e: nat, l: nat): nat {
    |Events(k.events, l)| + if Owes(k, e, l) then 1 else 0
  }

  ghost predicate LineOk(k: Kernel, l: nat) {
    && l < |k.handlers| && l < |k.masked|
    && (forall v | v in k.events && v.irq == l :: k.handlers[l] == Some(v.endpoint))
    && (forall e | 0 <= e < |k.endpoints| && Owes(k, e, l) :: k.handlers[l] == Some(e))
    && (k.handlers[l].Some? ==>
          && k.handlers[l].value < |k.endpoints|
          && Outstanding(k, k.handlers[l].value, l) == if k.masked[l] then 1 else 0)
  }

  ghost predicate Lines(k: Kernel) {
    |k.handlers| == 16 && |k.masked| == 16 && forall l: nat | Forwarded(l) :: LineOk(k, l)
  }

  ghost predicate Waiting(k: Kernel, e: nat) {
    exists q :: q in k.recvs && q.endpoint == e
  }

  /** No two tasks wait on one endpoint. */
  ghost predicate Sole(k: Kernel) {
    forall i, j | 0 <= i < j < |k.recvs| :: k.recvs[i].endpoint != k.recvs[j].endpoint
  }

  /** An endpoint that owes an acknowledgement has nobody waiting on it. */
  ghost predicate AckFree(k: Kernel) {
    forall q | q in k.recvs && q.endpoint < |k.endpoints| :: k.endpoints[q.endpoint].ack.None?
  }

  /** Interrupt capabilities name endpoints that exist. */
  ghost predicate IrqCaps(k: Kernel) {
    forall n | n in k.nodes && n.kind.IrqControl? :: n.kind.endpoint < |k.endpoints|
  }

  ghost predicate Handshake(k: Kernel) {
    Lines(k) && Sole(k) && AckFree(k) && IrqCaps(k)
  }

  /** No interrupt of a forwarded line is queued on an endpoint that `owner` owns. */
  ghost predicate QueueClear(k: Kernel, owner: nat) {
    forall v | v in k.events && Forwarded(v.irq) :: !Dead(k, v.endpoint, owner)
  }

  /** No notification of line `l` is outstanding. */
  ghost predicate Settled(k: Kernel, l: nat) {
    (forall v | v in k.events :: v.irq != l) && forall e: nat :: !Owes(k, e, l)
  }

  /** What drivers must respect: one receiver per endpoint, no registration of a line that has a
      notification outstanding, and no exit with interrupts queued. */
  ghost predicate Disciplined(k: Kernel, op: Op) {
    match op
    case Trap(r, _) =>
      && (r.eax == 3 && Named(k, r).Some? ==> !Waiting(k, Named(k, r).value))
      && (r.eax == 6 ==>
            match ResolveSlot(k, r.ebx)
            case Some((IrqControl(irq, _), _)) => irq < |k.handlers| && Forwarded(irq) ==> Settled(k, irq)
            case _ => true)
      && (r.eax == 0 ==> QueueClear(k, k.current))
    case _ => true
  }

  // ----- events of a line -----

  lemma {:induction false} EventsConcat(a: seq<IrqEvent>, b: seq<IrqEvent>, l: nat)
    ensures Events(a + b, l) == Events(a, l) + Events(b, l)
  {
    if a == [] {
      assert a + b == b;
    } else {
      var first := if a[0].irq == l then [a[0]] else [];
      assert (a + b)[0] == a[0] && (a + b)[1..] == a[1..] + b;
      EventsConcat(a[1..], b, l);
      assert first + (Events(a[1..], l) + Events(b, l)) == (first + Events(a[1..], l)) + Events(b, l);
    }
  }

  lemma EventsOne(v: IrqEvent, l: nat)
    ensures Events([v], l) == if v.irq == l then [v] else []
  {
    assert [v][1..] == [];
  }

  lemma EventsWithout(s: seq<IrqEvent>, i: nat, l: nat)
    requires i < |s|
    ensures |Events(Without(s, i), l)| == |Events(s, l)| - if s[i].irq == l then 1 else 0
  {
    hide Events;
    var a, v, b := s[..i], [s[i]], s[i + 1..];
    assert s == a + (v + b);
    EventsConcat(a, v + b, l);
    EventsConcat(v, b, l);
    EventsConcat(a, b, l);
    EventsOne(s[i], l);
  }

  lemma {:induction false} EventsKept(s: seq<IrqEvent>, k: Kernel, owner: nat, l: nat)
    requires forall v | v in s && v.irq == l :: !Dead(k, v.endpoint, owner)
    ensures Events(KeptEvents(s, k, owner), l) == Events(s, l)
    ensures forall v | v in KeptEvents(s, k, owner) :: v in s
  {
    if s != [] {
      EventsKept(s[1..], k, owner, l);
      EventsOne(s[0], l);
      if Dead(k, s[0].endpoint, owner) {
        assert KeptEvents(s, k, owner) == KeptEvents(s[1..], k, owner);
      } else {
        assert KeptEvents(s, k, owner) == [s[0]] + KeptEvents(s[1..], k, owner);
        EventsConcat([s[0]], KeptEvents(s[1..], k, owner), l);
      }
    }
  }

  lemma {:induction false} NoEvents(s: seq<IrqEvent>, l: nat)
    requires Events(s, l) == []
    ensures forall v | v in s :: v.irq != l
  {
    if s != [] {
      NoEvents(s[1..], l);
    }
  }

  // ----- operations -----

  /** Everything the handshake looks at. */
  ghost predicate SameIrq(k: Kernel, k': Kernel) {
    && k'.handlers == k.handlers && k'.masked == k.masked && k'.events == k.events && k'.endpoints == k.endpoints
    && k'.recvs == k.recvs && k'.nodes == k.nodes
  }

  lemma TouchIrq(k: Kernel, t: nat, r: Regs, v: nat, s: TaskState)
    ensures SameIrq(k, SetRegs(k, t, r)) && SameIrq(k, SetEax(k, t, v)) && SameIrq(k, Wake(k, t))
  {
  }

  lemma SwitchIrq(k: Kernel, s: TaskState)
    ensures SameIrq(k, Switch(SetState(k, k.current, s)))
  {
  }

  lemma HandOverIrq(k: Kernel, m: PendingSend, to: nat)
    ensures SameIrq(k, HandOver(k, m, to))
  {
  }

  lemma MeetIrq(k: Kernel, m: PendingSend, to: nat, from: nat, woken: nat)
    ensures SameIrq(k, Wake(SetEax(HandOver(k, m, to), from, 0), woken))
  {
    hide HandOver, SetEax, Wake;
    HandOverIrq(k, m, to);
    TouchIrq(HandOver(k, m, to), from, Regs(0, 0, 0, 0, 0, 0), 0, Ready);
    TouchIrq(SetEax(HandOver(k, m, to), from, 0), woken, Regs(0, 0, 0, 0, 0, 0), 0, Ready);
  }

  /** Everything the handshake looks at, except that a receiver may have left. */
  ghost predicate Calm(k: Kernel, k': Kernel) {
    && k'.handlers == k.handlers && k'.masked == k.masked && k'.events == k.events && k'.endpoints == k.endpoints
    && (k'.recvs == k.recvs || exists i | 0 <= i < |k.recvs| :: k'.recvs == Without(k.recvs, i))
    && forall n | n in k'.nodes && n.kind.IrqControl? :: exists m :: m in k.nodes && m.kind == n.kind
  }

  lemma CalmKeeps(k: Kernel, k': Kernel)
    requires Calm(k, k') && Handshake(k)
    ensures Handshake(k')
  {
    assert forall l: nat :: LineOk(k', l) == LineOk(k, l);
    hide LineOk;
  }

  lemma TakeAckLine(k: Kernel, e: nat, l: nat)
    requires LineOk(k, l) && Forwarded(l)
    ensures LineOk(TakeAck(k, e), l) && TakeAck(k, e).masked[l] == (k.masked[l] && !Owes(k, e, l))
  {
    var k1 := TakeAck(k, e);
    assert forall x: nat :: Owes(k1, x, l) <==> Owes(k, x, l) && x != e;
    assert k1.events == k.events && k1.handlers == k.handlers;
    assert k1.masked[l] == (k.masked[l] && !Owes(k, e, l));
    hide TakeAck, Owes, Events;
  }

  /** The line acknowledged, and no other, is re-armed. */
  lemma TakeAckKeeps(k: Kernel, e: nat)
    requires Handshake(k)
    ensures var k1 := TakeAck(k, e);
            Handshake(k1) && (e < |k1.endpoints| ==> k1.endpoints[e].ack.None?)
            && forall l: nat | Forwarded(l) :: k1.masked[l] == (k.masked[l] && !Owes(k, e, l))
  {
    var k1 := TakeAck(k, e);
    assert |k1.masked| == |k.masked|;
    forall l: nat | Forwarded(l) ensures LineOk(k1, l) && k1.masked[l] == (k.masked[l] && !Owes(k, e, l)) {
      TakeAckLine(k, e, l);
    }
    hide LineOk, Forwarded;
  }

  /** The tables after event `i` has been handed to a task. */
  ghost function Handed(k: Kernel, i: nat): Kernel
    requires i < |k.events|
  {
    SetAck(k.(events := Without(k.events, i)), k.events[i].endpoint, k.events[i].irq)
  }

  lemma HandedLine(k: Kernel, i: nat, l: nat)
    requires LineOk(k, l) && i < |k.events|
    requires var e := k.events[i].endpoint; e < |k.endpoints| ==> k.endpoints[e].ack.None?
    ensures LineOk(Handed(k, i), l)
  {
    var k', v := Handed(k, i), k.events[i];
    EventsWithout(k.events, i, l);
    assert v in k.events;
    assert forall x: nat :: Owes(k', x, l) <==> Owes(k, x, l) || (x == v.endpoint && x < |k.endpoints| && v.irq == l);
    assert !Owes(k, v.endpoint, l);
    assert k'.handlers == k.handlers && k'.masked == k.masked && k'.events == Without(k.events, i)
           && |k'.endpoints| == |k.endpoints|;
    assert forall x | x in k'.events :: x in k.events;
    hide Handed, Owes, Events;
  }

  lemma HandedKeeps(k: Kernel, i: nat)
    requires Handshake(k) && Rendezvous(k) && i < |k.events|
    requires var e := k.events[i].endpoint; e < |k.endpoints| ==> k.endpoints[e].ack.None?
    ensures Handshake(Handed(k, i))
  {
    forall l: nat | Forwarded(l) ensures LineOk(Handed(k, i), l) {
      HandedLine(k, i, l);
    }
    hide LineOk, Forwarded;
  }

  // ----- an interrupt arrives -----

  /** Line `v.irq` fires: every line but the keyboard's is masked first. */
  ghost function Fired(k: Kernel, v: IrqEvent): Kernel {
    if 2 <= v.irq && v.irq < |k.masked| then k.(masked := k.masked[v.irq := true]) else k
  }

  /** The interrupt was for a registered, unmasked line. */
  ghost predicate Fires(k: Kernel, v: IrqEvent) {
    Forwarded(v.irq) ==>
        v.irq < |k.handlers| && k.handlers[v.irq] == Some(v.endpoint) && v.irq < |k.masked| && !k.masked[v.irq]
  }

  lemma QueuedLine(k: Kernel, v: IrqEvent, l: nat)
    requires LineOk(k, l) && Forwarded(l) && Fires(k, v)
    ensures LineOk(Fired(k, v).(events := k.events + [v]), l)
  {
    EventsConcat(k.events, [v], l);
    EventsOne(v, l);
    hide Events;
  }

  /** The tables after a waiting receiver took the interrupt. */
  ghost function Taken(k: Kernel, v: IrqEvent): Kernel {
    SetAck(Fired(k, v), v.endpoint, v.irq)
  }

  /** An acknowledgement of forwarded line `l` is owed on the interrupt's endpoint, and is forgotten. */
  ghost predicate Overwrites(k: Kernel, v: IrqEvent, l: nat) {
    Owes(k, v.endpoint, l) && l != v.irq
  }

  /** A line keeps its invariant exactly when its acknowledgement is not overwritten. */
  lemma TakenLine(k: Kernel, v: IrqEvent, l: nat)
    requires LineOk(k, l) && Forwarded(l) && Fires(k, v)
    ensures LineOk(Taken(k, v), l) <==> !Overwrites(k, v, l)
  {
    var k' := Taken(k, v);
    assert Owes(k, v.endpoint, l) && l == v.irq ==> false;
    assert forall x: nat :: Owes(k', x, l) <==>
           if x == v.endpoint && x < |k.endpoints| then v.irq == l else Owes(k, x, l);
    assert k'.handlers == k.handlers && k'.events == k.events && |k'.endpoints| == |k.endpoints|;
    assert l < |k'.masked| && (k'.masked[l] <==> k.masked[l] || l == v.irq);
    hide Taken, Owes, Events;
  }

  /** What the handshake sees of a notification. */
  lemma NotifyIs(k: Kernel, v: IrqEvent)
    ensures var i := FirstRecv(k.recvs, v.endpoint);
            SameIrq(if i < |k.recvs| then Taken(k, v).(recvs := Without(k.recvs, i))
                else Fired(k, v).(events := k.events + [v]),
                    Notify(Fired(k, v), v))
  {
    hide SetRegs, Wake;
    var i, k0 := FirstRecv(k.recvs, v.endpoint), Fired(k, v);
    if i < |k.recvs| {
      var k1 := SetAck(k0.(recvs := Without(k.recvs, i)), v.endpoint, v.irq);
      assert k1 == Taken(k, v).(recvs := Without(k.recvs, i));
      hide SetAck, Taken, Fired;
      var t := k.recvs[i].task;
      if t in k1.tasks {
        var r := Notified(k1.tasks[t].regs, v);
        TouchIrq(k1, t, r, 0, Ready);
        TouchIrq(SetRegs(k1, t, r), t, r, 0, Ready);
      }
    }
  }

  lemma SameLine(k: Kernel, k': Kernel, l: nat)
    requires k'.handlers == k.handlers && k'.masked == k.masked && k'.events == k.events && k'.endpoints == k.endpoints
    ensures LineOk(k', l) == LineOk(k, l)
  {
  }

  /** An arriving interrupt keeps every line in order if and only if no task is waiting on its
      endpoint while that endpoint still owes the acknowledgement of another line. */
  lemma ArrivalExact(k: Kernel, v: IrqEvent)
    requires Lines(k) && Fires(k, v)
    ensures Lines(Notify(Fired(k, v), v)) <==>
            !(FirstRecv(k.recvs, v.endpoint) < |k.recvs| && exists l: nat :: Forwarded(l) && Overwrites(k, v, l))
  {
    NotifyIs(k, v);
    var i, k' := FirstRecv(k.recvs, v.endpoint), Notify(Fired(k, v), v);
    var t := if i < |k.recvs| then Taken(k, v) else Fired(k, v).(events := k.events + [v]);
    assert |t.handlers| == 16 && |t.masked| == 16;
    forall l: nat | Forwarded(l) ensures LineOk(k', l) <==> !(i < |k.recvs| && Overwrites(k, v, l)) {
      SameLine(t, k', l);
      if i < |k.recvs| {
        TakenLine(k, v, l);
      } else {
        QueuedLine(k, v, l);
      }
    }
    hide LineOk, Forwarded, Overwrites, Taken, Fired, Notify, Fires;
  }

  lemma SetAckAt(k: Kernel, e: nat, l: nat)
    ensures var k' := SetAck(k, e, l);
            && |k'.endpoints| == |k.endpoints| && k' == k.(endpoints := k'.endpoints)
            && forall x | 0 <= x < |k.endpoints| && x != e :: k'.endpoints[x] == k.endpoints[x]
  {
  }

  lemma OthersElsewhere(k: Kernel, i: nat)
    requires Sole(k) && i < |k.recvs|
    ensures Sole(k.(recvs := Without(k.recvs, i)))
    ensures forall q | q in Without(k.recvs, i) :: q in k.recvs && q.endpoint != k.recvs[i].endpoint
  {
    var r := Without(k.recvs, i);
    forall q | q in r ensures q in k.recvs && q.endpoint != k.recvs[i].endpoint {
      var j :| 0 <= j < |r| && r[j] == q;
      assert q == k.recvs[if j < i then j else j + 1];
    }
  }

  lemma ArrivalKeeps(k: Kernel, v: IrqEvent)
    requires Handshake(k) && Fires(k, v)
    ensures Handshake(Notify(Fired(k, v), v))
  {
    hide Lines, Fires, Notify;
    var i, k' := FirstRecv(k.recvs, v.endpoint), Notify(Fired(k, v), v);
    ArrivalExact(k, v);
    NotifyIs(k, v);
    assert Fired(k, v) == k.(masked := Fired(k, v).masked);
    SetAckAt(Fired(k, v), v.endpoint, v.irq);
    if i < |k.recvs| {
      hide Forwarded, SetAck, Fired;
      assert k.recvs[i] in k.recvs;
      OthersElsewhere(k, i);
    }
  }

  // ----- receiving -----

  lemma DeliverIs(k: Kernel, e: nat)
    requires CanDeliver(k, e)
    ensures if FirstSend(k.sends, e) < |k.sends| then SameIrq(k, Deliver(k, e))
            else
              && k.events[FirstEvent(k.events, e)].endpoint == e
              && SameIrq(Handed(k, FirstEvent(k.events, e)), Deliver(k, e))
  {
    hide SetRegs, Wake, SetEax, HandOver, SetAck;
    var i, j := FirstSend(k.sends, e), FirstEvent(k.events, e);
    if i < |k.sends| {
      MeetIrq(k.(sends := Without(k.sends, i)), k.sends[i], k.current, k.sends[i].task, k.sends[i].task);
    } else {
      var k1 := Handed(k, j);
      if k1.current in k1.tasks {
        TouchIrq(k1, k1.current, Notified(k1.tasks[k1.current].regs, k.events[j]), 0, Ready);
      }
    }
  }

  lemma SameKeepsLines(k: Kernel, k': Kernel)
    requires SameIrq(k, k') && Handshake(k)
    ensures Handshake(k')
  {
    forall l: nat | Forwarded(l) ensures LineOk(k', l) {
      SameLine(k, k', l);
    }
    hide LineOk, Forwarded;
  }

  lemma DeliverKeepsLines(k: Kernel, e: nat)
    requires Handshake(k) && Rendezvous(k) && CanDeliver(k, e) && (e < |k.endpoints| ==> k.endpoints[e].ack.None?)
    ensures Handshake(Deliver(k, e))
  {
    hide Handshake, Deliver, Handed, Rendezvous, SameIrq;
    DeliverIs(k, e);
    if FirstSend(k.sends, e) < |k.sends| {
      SameKeepsLines(k, Deliver(k, e));
    } else {
      HandedKeeps(k, FirstEvent(k.events, e));
      SameKeepsLines(Handed(k, FirstEvent(k.events, e)), Deliver(k, e));
    }
  }

  lemma TakeAckFrame(k: Kernel, e: nat)
    ensures var k1 := TakeAck(k, e);
            && k1.recvs == k.recvs && k1.events == k.events && k1.sends == k.sends && Waiting(k1, e) == Waiting(k, e)
            && Rendezvous(k1) == Rendezvous(k)
  {
  }

  lemma RecvKeepsLines(k: Kernel, e: nat)
    requires Handshake(k) && Rendezvous(k)
    ensures !Waiting(k, e) ==> Handshake(Recv(k, e))
    ensures Handshake(TryRecv(k, e))
  {
    TakeAckKeeps(k, e);
    TakeAckFrame(k, e);
    var k1 := TakeAck(k, e);
    hide TakeAck, Handshake, SetEax, Switch, SetState, Deliver, CanDeliver, Rendezvous, SameIrq, Waiting;
    if CanDeliver(k1, e) {
      DeliverKeepsLines(k1, e);
    } else {
      TouchIrq(k1, k1.current, Regs(0, 0, 0, 0, 0, 0), U32_MAX, Ready);
      SameKeepsLines(k1, TryRecv(k, e));
      if !Waiting(k, e) {
        var k2 := k1.(recvs := k1.recvs + [PendingRecv(k1.current, e)]);
        JoinKeeps(k1, e);
        SwitchIrq(k2, Blocked);
        SameKeepsLines(k2, Recv(k, e));
      }
    }
  }

  lemma JoinKeeps(k: Kernel, e: nat)
    requires Handshake(k) && !Waiting(k, e) && (e < |k.endpoints| ==> k.endpoints[e].ack.None?)
    ensures Handshake(k.(recvs := k.recvs + [PendingRecv(k.current, e)]))
  {
    var k' := k.(recvs := k.recvs + [PendingRecv(k.current, e)]);
    forall l: nat | Forwarded(l) ensures LineOk(k', l) {
      SameLine(k, k', l);
    }
    forall i | 0 <= i < |k.recvs| ensures k.recvs[i].endpoint != e {
      assert k.recvs[i] in k.recvs;
    }
    hide LineOk, Forwarded, Waiting;
  }

  // ----- other system calls -----

  lemma SendKeepsLines(k: Kernel, k1: Kernel, m: PendingSend)
    requires Handshake(k) && Calm(k, k1) && k1.recvs == k.recvs
    ensures Handshake(Send(k1, m))
  {
    CalmKeeps(k, k1);
    hide Handshake, Calm, HandOver, Wake, SetEax, Switch, SetState;
    var i := FirstRecv(k1.recvs, m.endpoint);
    if i < |k1.recvs| {
      var k2 := k1.(recvs := Without(k1.recvs, i));
      LeaveCalm(k1, i);
      CalmKeeps(k1, k2);
      MeetIrq(k2, m, k1.recvs[i].task, m.task, k1.recvs[i].task);
      SameKeepsLines(k2, Send(k1, m));
    } else {
      var k2 := k1.(sends := k1.sends + [m]);
      SwitchIrq(k2, Blocked);
      SameKeepsLines(k1, k2);
      SameKeepsLines(k2, Send(k1, m));
    }
  }

  lemma LeaveCalm(k: Kernel, i: nat)
    requires i < |k.recvs|
    ensures Calm(k, k.(recvs := Without(k.recvs, i)))
  {
  }

  lemma MintCalm(k: Kernel, kind: CapKind, parent: nat, badge: nat)
    requires !kind.IrqControl?
    ensures Calm(k, MintRoot(k, kind)) && Calm(k, MintDerived(k, parent, badge))
  {
    var k1, k2 := MintRoot(k, kind), MintDerived(k, parent, badge);
    forall n | n in k1.nodes && n.kind.IrqControl? ensures exists m :: m in k.nodes && m.kind == n.kind {
      assert n in k.nodes;
    }
    forall n | n in k2.nodes && n.kind.IrqControl? ensures exists m :: m in k.nodes && m.kind == n.kind {
      if n !in k.nodes {
        assert k.nodes[parent] in k.nodes;
      }
    }
  }

  lemma SysSendKeepsLines(k: Kernel, r: Regs)
    requires Handshake(k)
    ensures Handshake(SysSend(k, r))
  {
    hide Handshake, Send, Calm, SetEax, SameIrq;
    match ResolveSlot(k, r.ebx)
    case Some((Endpoint(e), _)) =>
      var m, src := Submission(k, r, e), CurrentNode(k, r.edi);
      if m.transfer.Some? {
        var badge := Resolve(k.nodes, src.value).value.1;
        MintCalm(k, RebootControl, src.value, badge);
        SendKeepsLines(k, MintDerived(k, src.value, badge), m);
      } else {
        StillCalm(k);
        SendKeepsLines(k, k, m);
      }
    case _ =>
      TouchIrq(k, k.current, r, U32_MAX, Ready);
      SameKeepsLines(k, SetEax(k, k.current, U32_MAX));
  }

  lemma StillCalm(k: Kernel)
    ensures Calm(k, k)
  {
  }

  lemma InstallIrq(k: Kernel, t: nat, n: nat, r: Regs, v: nat)
    ensures SameIrq(k, SetEax(Install(k, t, n), t, v)) && SameIrq(k, SetRegs(Install(k, t, n), t, r))
  {
  }

  lemma EndpointLine(k: Kernel, x: EndpointMeta, l: nat)
    requires LineOk(k, l) && x.ack.None?
    ensures LineOk(k.(endpoints := k.endpoints + [x]), l)
  {
    var k' := k.(endpoints := k.endpoints + [x]);
    assert forall e: nat :: Owes(k', e, l) == Owes(k, e, l);
    hide Owes, Events;
  }

  lemma EndpointCreateKeepsLines(k: Kernel)
    requires Handshake(k)
    ensures Handshake(SysEndpointCreate(k))
  {
    var x := EndpointMeta(k.current, None);
    var k1 := k.(endpoints := k.endpoints + [x]);
    forall l: nat | Forwarded(l) ensures LineOk(k1, l) {
      EndpointLine(k, x, l);
    }
    hide LineOk, Forwarded;
    assert Handshake(k1);
    hide Handshake, Install, SetEax, Calm, MintRoot;
    var k2 := MintRoot(k1, Endpoint(|k.endpoints|));
    MintCalm(k1, Endpoint(|k.endpoints|), 0, 0);
    CalmKeeps(k1, k2);
    InstallIrq(k2, k.current, |k.nodes|, Regs(0, 0, 0, 0, 0, 0), NextSlot(k, k.current));
    SameKeepsLines(k2, SysEndpointCreate(k));
  }

  lemma {:induction false} EventsNone(s: seq<IrqEvent>, l: nat)
    requires forall v | v in s :: v.irq != l
    ensures Events(s, l) == []
  {
    if s != [] {
      EventsNone(s[1..], l);
    }
  }

  /** A line survives a registration exactly when nothing of it is outstanding. */
  lemma RegisterLine(k: Kernel, irq: nat, e: nat, l: nat)
    requires LineOk(k, l) && Forwarded(l) && irq < |k.handlers| == |k.masked| && e < |k.endpoints|
    ensures LineOk(RegisterIrq(k, irq, e), l) <==> (irq == l ==> Settled(k, l))
  {
    var k' := RegisterIrq(k, irq, e);
    assert forall x: nat :: Owes(k', x, l) == Owes(k, x, l);
    if l == irq {
      if Settled(k, l) {
        EventsNone(k.events, l);
      } else if Events(k.events, l) == [] {
        NoEvents(k.events, l);
        var x: nat :| Owes(k, x, l);
        assert Owes(k', x, l);
      }
    }
    hide Owes, Events;
  }

  /** A registration keeps all lines in order if and only if no notification of that line is
      outstanding: it unmasks the line whatever is. */
  lemma RegisterExact(k: Kernel, irq: nat, e: nat)
    requires Lines(k) && irq < |k.handlers| && e < |k.endpoints|
    ensures Lines(RegisterIrq(k, irq, e)) <==> (Forwarded(irq) ==> Settled(k, irq))
  {
    hide LineOk, Forwarded, Settled;
    forall l: nat | Forwarded(l) ensures LineOk(RegisterIrq(k, irq, e), l) <==> (irq == l ==> Settled(k, l)) {
      RegisterLine(k, irq, e, l);
    }
  }

  lemma RegisterKeepsLines(k: Kernel, irq: nat, e: nat)
    requires Handshake(k) && irq < |k.handlers| && e < |k.endpoints| && (Forwarded(irq) ==> Settled(k, irq))
    ensures Handshake(RegisterIrq(k, irq, e))
  {
    hide Lines, Settled;
    RegisterExact(k, irq, e);
  }

  lemma SysRegisterKeepsLines(k: Kernel, r: Regs, w: World)
    requires Handshake(k) && Disciplined(k, Trap(r, w)) && r.eax == 6
    ensures Handshake(SysRegisterIrq(k, r))
  {
    TouchIrq(k, k.current, r, U32_MAX, Ready);
    match ResolveSlot(k, r.ebx)
    case Some((IrqControl(irq, e), _)) =>
      if irq < |k.handlers| {
        assert k.nodes[CurrentNode(k, r.ebx).value] in k.nodes;
        hide Lines, SetEax, RegisterIrq, SameIrq;
        RegisterKeepsLines(k, irq, e);
        var k1 := RegisterIrq(k, irq, e);
        TouchIrq(k1, k.current, r, 0, Ready);
        SameKeepsLines(k1, SetEax(k1, k.current, 0));
      } else {
        hide Handshake, SetEax;
        SameKeepsLines(k, SetEax(k, k.current, U32_MAX));
      }
    case _ =>
      hide Handshake, SetEax;
      SameKeepsLines(k, SetEax(k, k.current, U32_MAX));
  }

  // ----- exit -----

  ghost predicate SoleRecvs(s: seq<PendingRecv>) {
    forall i, j | 0 <= i < j < |s| :: s[i].endpoint != s[j].endpoint
  }

  lemma {:induction false} KeptSole(s: seq<PendingRecv>, k: Kernel, owner: nat)
    requires SoleRecvs(s)
    ensures SoleRecvs(KeptRecvs(s, k, owner)) && forall q | q in KeptRecvs(s, k, owner) :: q in s
  {
    if s != [] {
      KeptSole(s[1..], k, owner);
      var t := KeptRecvs(s[1..], k, owner);
      forall j | 0 <= j < |t| ensures t[j].endpoint != s[0].endpoint {
        assert t[j] in s[1..];
      }
      hide Dead;
    }
  }

  lemma {:induction false} FailAllIrq(k: Kernel, ts: seq<nat>)
    ensures SameIrq(k, FailAll(k, ts)) && FailAll(k, ts).sends == k.sends
    decreases |ts|
  {
    hide SetEax, Wake;
    FailAllSends(k, ts);
    if ts != [] {
      TouchIrq(k, ts[0], Regs(0, 0, 0, 0, 0, 0), U32_MAX, Ready);
      TouchIrq(SetEax(k, ts[0], U32_MAX), ts[0], Regs(0, 0, 0, 0, 0, 0), 0, Ready);
      FailAllIrq(Wake(SetEax(k, ts[0], U32_MAX), ts[0]), ts[1..]);
    }
  }

  lemma {:induction false} SameKept(s: seq<PendingRecv>, v: seq<IrqEvent>, k: Kernel, k': Kernel, owner: nat)
    requires k'.endpoints == k.endpoints
    ensures KeptRecvs(s, k', owner) == KeptRecvs(s, k, owner) && KeptEvents(v, k', owner) == KeptEvents(v, k, owner)
    decreases |s| + |v|
  {
    if s != [] {
      SameKept(s[1..], v, k, k', owner);
    } else if v != [] {
      SameKept(s, v[1..], k, k', owner);
    }
  }

  lemma ExitIrq(k: Kernel)
    ensures SameIrq(k.(recvs := KeptRecvs(k.recvs, k, k.current), events := KeptEvents(k.events, k, k.current)),
            Exit(k))
  {
    hide FailAll, KeptRecvs, KeptSends, FailedRecvs, FailedSends, KeptEvents, Switch, SetState;
    var owner, k0 := k.current, Switch(SetState(k, k.current, Zombie));
    SwitchIrq(k, Zombie);
    SameKept(k.recvs, k.events, k, k0, owner);
    var k1 := k0.(recvs := KeptRecvs(k0.recvs, k0, owner));
    FailAllIrq(k1, FailedRecvs(k0.recvs, k0, owner));
    var k2 := FailAll(k1, FailedRecvs(k0.recvs, k0, owner));
    FailAllIrq(k2.(sends := KeptSends(k2.sends, k0, owner)), FailedSends(k2.sends, k0, owner));
  }

  ghost function Retired(k: Kernel): Kernel {
    k.(events := KeptEvents(k.events, k, k.current))
  }

  lemma {:induction false} KeptAlive(s: seq<IrqEvent>, k: Kernel, owner: nat)
    ensures forall v | v in KeptEvents(s, k, owner) :: v in s && !Dead(k, v.endpoint, owner)
  {
    hide Dead;
    if s != [] {
      KeptAlive(s[1..], k, owner);
    }
  }

  /** A line survives the exit of the current task exactly when none of its interrupts is queued on
      an endpoint of that task. */
  lemma ExitLine(k: Kernel, l: nat)
    requires LineOk(k, l)
    ensures LineOk(Retired(k), l) <==> forall v | v in k.events && v.irq == l :: !Dead(k, v.endpoint, k.current)
  {
    hide Events, KeptEvents, Dead;
    var k' := Retired(k);
    assert forall x: nat :: Owes(k', x, l) == Owes(k, x, l);
    KeptAlive(k.events, k, k.current);
    if v :| v in k.events && v.irq == l && Dead(k, v.endpoint, k.current) {
      EventsNone(k'.events, l);
      if Events(k.events, l) == [] {
        NoEvents(k.events, l);
      }
    } else {
      EventsKept(k.events, k, k.current, l);
    }
  }

  /** An exit keeps all lines in order if and only if no forwarded interrupt is queued on an endpoint
      of the task that leaves: exit drops those and never unmasks their lines. */
  lemma ExitExact(k: Kernel)
    requires Lines(k)
    ensures Lines(Exit(k)) <==> QueueClear(k, k.current)
  {
    hide KeptRecvs, KeptEvents, Exit, LineOk, Forwarded, Dead;
    ExitIrq(k);
    forall l: nat | Forwarded(l)
      ensures LineOk(Exit(k), l) <==> forall v | v in k.events && v.irq == l :: !Dead(k, v.endpoint, k.current)
    {
      ExitLine(k, l);
      SameLine(Retired(k), Exit(k), l);
    }
  }

  lemma ExitKeepsLines(k: Kernel, r: Regs, w: World)
    requires Handshake(k) && Disciplined(k, Trap(r, w)) && r.eax == 0
    ensures Handshake(Exit(k))
  {
    hide KeptRecvs, KeptEvents, Exit, Lines;
    ExitIrq(k);
    KeptSole(k.recvs, k, k.current);
    ExitExact(k);
  }

  // ----- steps and runs -----

  lemma QuietIrq(k: Kernel, r: Regs, w: World)
    ensures SameIrq(k, SysMapMemory(k, r, w)) && SameIrq(k, Tick(k)) && SameIrq(k, Tick(SetEax(k, k.current, 0)))
  {
    hide ResolveSlot;
  }

  lemma RevokeCalm(k: Kernel, r: Regs)
    ensures Calm(k, SysRevoke(k, r))
  {
    var n := CurrentNode(k, r.ebx);
    var k1 := if n.Some? then k.(nodes := Revoked(k.nodes, n.value)) else k;
    TouchIrq(k1, k.current, r, 0, Ready);
    forall x | x in k1.nodes ensures exists m :: m in k.nodes && m.kind == x.kind {
      var j :| 0 <= j < |k1.nodes| && k1.nodes[j] == x;
      assert k.nodes[j] in k.nodes && k.nodes[j].kind == x.kind;
    }
    hide SetEax, CurrentNode, Revoked;
  }

  lemma MintBadgedKeepsLines(k: Kernel, r: Regs)
    requires Handshake(k)
    ensures Handshake(SysMintBadged(k, r))
  {
    hide Handshake, Calm, SetEax, Install, SameIrq, MintDerived;
    var src := CurrentNode(k, r.ebx);
    if src.Some? && Resolve(k.nodes, src.value).Some? {
      var k1 := MintDerived(k, src.value, r.ecx);
      MintCalm(k, RebootControl, src.value, r.ecx);
      CalmKeeps(k, k1);
      InstallIrq(k1, k.current, |k.nodes|, r, NextSlot(k, k.current));
      SameKeepsLines(k1, SysMintBadged(k, r));
    } else {
      TouchIrq(k, k.current, r, U32_MAX, Ready);
      SameKeepsLines(k, SysMintBadged(k, r));
    }
  }

  lemma MemAllocKeepsLines(k: Kernel, r: Regs, w: World)
    requires Handshake(k)
    ensures Handshake(SysMemAlloc(k, r, w))
  {
    hide Handshake, Calm, SetRegs, Install, SameIrq, MintRoot;
    if w.loads {
      var kind := MemoryGrant(w.phys, 4096 * (if r.ecx == 0 then 1 else r.ecx), true);
      var k1 := MintRoot(k, kind);
      MintCalm(k, kind, 0, 0);
      CalmKeeps(k, k1);
      InstallIrq(k1, k.current, |k.nodes|, r.(eax := NextSlot(k, k.current), ecx := w.phys), 0);
      SameKeepsLines(k1, SysMemAlloc(k, r, w));
    } else {
      TouchIrq(k, k.current, r.(eax := 0, ecx := 0), 0, Ready);
      SameKeepsLines(k, SysMemAlloc(k, r, w));
    }
  }

  lemma SpawnKeepsLines(k: Kernel, w: World)
    requires Handshake(k)
    ensures Handshake(SysSpawn(k, w))
  {
    hide Handshake, Calm, SetEax;
    var k' := SysSpawn(k, w);
    TouchIrq(k, k.current, Regs(0, 0, 0, 0, 0, 0), 0, Ready);
    TouchIrq(Spawn(k), k.current, Regs(0, 0, 0, 0, 0, 0), NewTaskId(k), Ready);
    if w.loads && k.nameService.Some? {
      MintCalm(k, Endpoint(k.nameService.value), 0, 0);
      CalmKeeps(k, MintRoot(k, Endpoint(k.nameService.value)));
      SameKeepsLines(MintRoot(k, Endpoint(k.nameService.value)), k');
    } else {
      SameKeepsLines(k, k');
    }
  }

  lemma ServeKeepsLines(k: Kernel, r: Regs, w: World)
    requires Handshake(k) && Rendezvous(k) && Disciplined(k, Trap(r, w))
    ensures Handshake(Serve(k, r, w))
  {
    hide Exit, SysSend, SysRegisterIrq, SysRevoke, Recv, TryRecv, SysSpawn, SysMapMemory, SysEndpointCreate,
         SysMintBadged, SysMemAlloc, Tick, SetEax, Handshake, SameIrq, Calm, Waiting, Rendezvous;
    match r.eax
    case 0 => ExitKeepsLines(k, r, w);
    case 1 =>
      QuietIrq(k, r, w);
      SameKeepsLines(k, Tick(SetEax(k, k.current, 0)));
    case 2 => SysSendKeepsLines(k, r);
    case 3 => ReceiveKeepsLines(k, r, w);
    case 6 => SysRegisterKeepsLines(k, r, w);
    case 7 =>
      QuietIrq(k, r, w);
      SameKeepsLines(k, SysMapMemory(k, r, w));
    case 8 => SpawnKeepsLines(k, w);
    case 9 => EndpointCreateKeepsLines(k);
    case 10 => MintBadgedKeepsLines(k, r);
    case 11 =>
      RevokeCalm(k, r);
      CalmKeeps(k, SysRevoke(k, r));
    case 12 => MemAllocKeepsLines(k, r, w);
    case 13 => SpawnKeepsLines(k, w);
    case 15 => ReceiveKeepsLines(k, r, w);
    case _ =>
      TouchIrq(k, k.current, r, U32_MAX, Ready);
      TouchIrq(k, k.current, r, k.current, Ready);
      SameKeepsLines(k, Serve(k, r, w));
  }

  lemma ReceiveKeepsLines(k: Kernel, r: Regs, w: World)
    requires Handshake(k) && Rendezvous(k) && Disciplined(k, Trap(r, w)) && (r.eax == 3 || r.eax == 15)
    ensures Handshake(if r.eax == 3 then SysRecv(k, r) else SysTryRecv(k, r))
  {
    hide Recv, TryRecv, SetEax, Handshake, SameIrq, Waiting, Rendezvous;
    match ResolveSlot(k, r.ebx)
    case Some((Endpoint(e), _)) => RecvKeepsLines(k, e);
    case _ =>
      TouchIrq(k, k.current, r, U32_MAX, Ready);
      TouchIrq(k, k.current, r, U32_MAX - 1, Ready);
      SameKeepsLines(k, SetEax(k, k.current, U32_MAX));
      SameKeepsLines(k, SetEax(k, k.current, U32_MAX - 1));
  }

  lemma SameDiscipline(k: Kernel, r: Regs, w: World)
    requires k.current in k.tasks && Disciplined(k, Trap(r, w))
    ensures Disciplined(SetRegs(k, k.current, r), Trap(r, w))
  {
    var k1 := SetRegs(k, k.current, r);
    assert forall slot: nat :: CurrentNode(k1, slot) == CurrentNode(k, slot);
    assert ResolveSlot(k1, r.ebx) == ResolveSlot(k, r.ebx) && Named(k1, r) == Named(k, r);
    TouchIrq(k, k.current, r, 0, Ready);
    assert forall e: nat, l: nat :: Owes(k1, e, l) == Owes(k, e, l);
    assert forall l: nat :: Settled(k1, l) == Settled(k, l);
    hide CurrentNode, Named, ResolveSlot, Settled;
    assert k1.current == k.current;
    hide SetRegs;
  }

  lemma StepHandshake(k: Kernel, idle: nat, op: Op)
    requires Inv(k, idle) && Enabled(k, idle, op) && Disciplined(k, op) && Handshake(k)
    ensures Handshake(Step(k, op))
  {
    hide Scheduled, Owners, Distinct, Serve, Tick, Notify, Rendezvous, SetRegs, Disciplined, SameIrq;
    match op
    case Timer =>
      hide Handshake;
      QuietIrq(k, Regs(0, 0, 0, 0, 0, 0), World(false, 0, false));
      SameKeepsLines(k, Tick(k));
    case Trap(r, w) =>
      hide Handshake;
      CurrentIn(k, idle);
      TouchIrq(k, k.current, r, 0, Ready);
      TouchKeeps(k, idle, k.current, r, 0, 0);
      var k1 := SetRegs(k, k.current, r);
      SameKeepsLines(k, k1);
      SameDiscipline(k, r, w);
      ServeKeepsLines(k1, r, w);
    case Line(irq, data) =>
      if HandlerFor(k, irq).Some? {
        ArrivalKeeps(k, IrqEvent(HandlerFor(k, irq).value, irq, data));
      }
    case Key(c) =>
      if HandlerFor(k, 1).Some? {
        ArrivalKeeps(k, IrqEvent(HandlerFor(k, 1).value, 1, c));
      }
  }

  ghost predicate Discipline(k: Kernel, ops: seq<Op>)
    decreases |ops|
  {
    ops == [] || (Disciplined(k, ops[0]) && Discipline(Step(k, ops[0]), ops[1..]))
  }

  /** Over every run whose drivers keep to the discipline, every forwarded line stays in order. */
  lemma {:induction false} RunHandshake(k: Kernel, idle: nat, ops: seq<Op>)
    requires Inv(k, idle) && Legal(k, idle, ops) && Discipline(k, ops) && Handshake(k)
    ensures Handshake(Run(k, ops))
    decreases |ops|
  {
    if ops != [] {
      hide Step, Inv, Enabled, Disciplined, Handshake;
      StepHandshake(k, idle, ops[0]);
      StepKeeps(k, idle, ops[0]);
      RunHandshake(Step(k, ops[0]), idle, ops[1..]);
    }
  }
}
