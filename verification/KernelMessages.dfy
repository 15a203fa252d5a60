/**
 Rendezvous over whole runs: every message submitted is delivered once, failed once, or still
 pending, in submission order per endpoint, and both parties' registers tell which.
 */
module KernelMessages {
  import opened Bytes
  import opened KernelState
  import opened KernelSched

  /** What became of a message. */
  datatype Fate = Delivered(msg: PendingSend, to: nat) | Failed(msg: PendingSend)

  /** The messages of `s` addressed to endpoint `e`, in order. */
  function On(s: seq<PendingSend>, e: nat): seq<PendingSend> {
    if s == [] then [] else (if s[0].endpoint == e then [s[0]] else []) + On(s[1..], e)
  }

  function Messages(s: seq<Fate>): seq<PendingSend> {
    if s == [] then [] else [s[0].msg] + Messages(s[1..])
  }

  /** The message a send system call submits. */
  function Submission(k: Kernel, r: Regs, e: nat): PendingSend {
    var src := CurrentNode(k, r.edi);
    PendingSend(k.current, e, (r.ecx, r.edx, r.esi),
                if r.edi != 0 && src.Some? && Resolve(k.nodes, src.value).Some? then Some(|k.nodes|) else None)
  }

  /** The endpoint slot `r.ebx` of the current task names. */
  function Named(k: Kernel, r: Regs): Option<nat> {
    match ResolveSlot(k, r.ebx)
    case Some((Endpoint(e), _)) => Some(e)
    case _ => None
  }

  function Submitted(k: Kernel, op: Op): seq<PendingSend> {
    match op
    case Trap(r, _) => if r.eax == 2 && Named(k, r).Some? then [Submission(k, r, Named(k, r).value)] else []
    case _ => []
  }

  /** The messages of `s` sent to endpoints `owner` owns. */
  function Orphans(s: seq<PendingSend>, k: Kernel, owner: nat): seq<Fate> {
    if s == [] then [] else (if Dead(k, s[0].endpoint, owner) then [Failed(s[0])] else []) + Orphans(s[1..], k, owner)
  }

  /** The messages whose fate a step decides: a send that finds a receiver waiting, a receive that
      finds a message pending, an exit that orphans messages. */
  function Fates(k: Kernel, op: Op): seq<Fate> {
    match op
    case Trap(r, _) =>
      if r.eax == 0 then Orphans(k.sends, k, k.current)
      else if Named(k, r).None? then []
      else
        var e := Named(k, r).value;
        var i, j := FirstRecv(k.recvs, e), FirstSend(k.sends, e);
        if r.eax == 2 && i < |k.recvs| then [Delivered(Submission(k, r, e), k.recvs[i].task)]
        else if (r.eax == 3 || r.eax == 15) && j < |k.sends| then [Delivered(k.sends[j], k.current)]
        else []
    case _ => []
  }

  // ----- filtering -----

  lemma {:induction false} OnConcat(a: seq<PendingSend>, b: seq<PendingSend>, e: nat)
    ensures On(a + b, e) == On(a, e) + On(b, e)
  {
    if a == [] {
      assert a + b == b;
    } else {
      var first := if a[0].endpoint == e then [a[0]] else [];
      assert (a + b)[0] == a[0] && (a + b)[1..] == a[1..] + b;
      OnConcat(a[1..], b, e);
      assert first + (On(a[1..], e) + On(b, e)) == (first + On(a[1..], e)) + On(b, e);
    }
  }

  lemma {:induction false} MessagesConcat(a: seq<Fate>, b: seq<Fate>)
    ensures Messages(a + b) == Messages(a) + Messages(b)
  {
    if a == [] {
      assert a + b == b;
    } else {
      assert (a + b)[0] == a[0] && (a + b)[1..] == a[1..] + b;
      MessagesConcat(a[1..], b);
      assert [a[0].msg] + (Messages(a[1..]) + Messages(b)) == ([a[0].msg] + Messages(a[1..])) + Messages(b);
    }
  }

  lemma {:induction false} OnNone(s: seq<PendingSend>, e: nat)
    requires forall i | 0 <= i < |s| :: s[i].endpoint != e
    ensures On(s, e) == []
  {
    if s != [] {
      OnNone(s[1..], e);
    }
  }

  /** Taking the first message on `e` takes the head of `e`'s queue and leaves the other queues. */
  lemma OnWithoutFirst(s: seq<PendingSend>, e: nat, x: nat)
    requires FirstSend(s, e) < |s|
    ensures var i := FirstSend(s, e); On(s, x) == On([s[i]], x) + On(Without(s, i), x)
  {
    hide On;
    var i := FirstSend(s, e);
    var a, m, b := s[..i], [s[i]], s[i + 1..];
    assert s == a + (m + b) && Without(s, i) == a + b;
    OnConcat(a, m + b, x);
    OnConcat(m, b, x);
    OnConcat(a, b, x);
    if x == e {
      OnNone(a, e);
      assert [] + (On(m, x) + On(b, x)) == On(m, x) + ([] + On(b, x));
    } else {
      OnOne(s[i], x);
      assert On(a, x) + ([] + On(b, x)) == [] + (On(a, x) + On(b, x));
    }
  }

  lemma OnOne(m: PendingSend, e: nat)
    ensures On([m], e) == if m.endpoint == e then [m] else []
  {
    assert [m][1..] == [];
  }

  /** An exit splits each queue: an orphaned one fails whole, any other stays whole. */
  lemma {:induction false} OnOrphans(s: seq<PendingSend>, k: Kernel, owner: nat, e: nat)
    ensures On(Messages(Orphans(s, k, owner)), e) == if Dead(k, e, owner) then On(s, e) else []
    ensures On(KeptSends(s, k, owner), e) == if Dead(k, e, owner) then [] else On(s, e)
  {
    if s != [] {
      hide Dead;
      var fates, kept := Orphans(s[1..], k, owner), KeptSends(s[1..], k, owner);
      OnOrphans(s[1..], k, owner, e);
      OnOne(s[0], e);
      if Dead(k, s[0].endpoint, owner) {
        assert KeptSends(s, k, owner) == kept && Orphans(s, k, owner) == [Failed(s[0])] + fates;
        assert Messages([Failed(s[0])] + fates) == [s[0]] + Messages(fates);
        OnConcat([s[0]], Messages(fates), e);
      } else {
        assert KeptSends(s, k, owner) == [s[0]] + kept && Orphans(s, k, owner) == fates;
        OnConcat([s[0]], kept, e);
      }
    }
  }

  // ----- what each operation does to the pending messages -----

  lemma {:induction false} FailAllSends(k: Kernel, ts: seq<nat>)
    ensures FailAll(k, ts).sends == k.sends
    decreases |ts|
  {
    if ts != [] {
      FailAllSends(Wake(SetEax(k, ts[0], U32_MAX), ts[0]), ts[1..]);
    }
  }

  lemma SwitchSends(k: Kernel, s: TaskState)
    ensures var k' := Switch(SetState(k, k.current, s)); k'.sends == k.sends && k'.endpoints == k.endpoints
  {
  }

  lemma ExitSends(k: Kernel)
    ensures Exit(k).sends == KeptSends(k.sends, k, k.current)
  {
    hide Switch, SetState, FailAll, KeptRecvs, KeptSends, FailedRecvs, FailedSends, KeptEvents;
    SwitchSends(k, Zombie);
    var k0 := Switch(SetState(k, k.current, Zombie));
    var k1 := k0.(recvs := KeptRecvs(k0.recvs, k0, k.current));
    FailAllSends(k1, FailedRecvs(k0.recvs, k0, k.current));
    var k2 := FailAll(k1, FailedRecvs(k0.recvs, k0, k.current));
    FailAllSends(k2.(sends := KeptSends(k2.sends, k0, k.current)), FailedSends(k2.sends, k0, k.current));
    SameDead(k.sends, k0, k, k.current);
  }

  lemma {:induction false} SameDead(s: seq<PendingSend>, k: Kernel, k': Kernel, owner: nat)
    requires k'.endpoints == k.endpoints
    ensures KeptSends(s, k', owner) == KeptSends(s, k, owner)
  {
    if s != [] {
      SameDead(s[1..], k, k', owner);
    }
  }

  lemma MeetSends(k: Kernel, m: PendingSend, to: nat, from: nat, woken: nat)
    ensures Wake(SetEax(HandOver(k, m, to), from, 0), woken).sends == k.sends
  {
  }

  lemma SendSends(k: Kernel, m: PendingSend)
    ensures Send(k, m).sends == if FirstRecv(k.recvs, m.endpoint) < |k.recvs| then k.sends else k.sends + [m]
  {
    hide HandOver, SetEax, Wake, Switch, SetState;
    var i := FirstRecv(k.recvs, m.endpoint);
    if i < |k.recvs| {
      MeetSends(k.(recvs := Without(k.recvs, i)), m, k.recvs[i].task, m.task, k.recvs[i].task);
    } else {
      SwitchSends(k.(sends := k.sends + [m]), Blocked);
    }
  }

  lemma DeliverSends(k: Kernel, e: nat)
    requires CanDeliver(k, e)
    ensures Deliver(k, e).sends == if FirstSend(k.sends, e) < |k.sends| then Without(k.sends, FirstSend(k.sends, e))
            else k.sends
  {
  }

  lemma RecvSends(k: Kernel, e: nat)
    ensures Recv(k, e).sends == if FirstSend(k.sends, e) < |k.sends| then Without(k.sends, FirstSend(k.sends, e))
            else k.sends
    ensures TryRecv(k, e).sends == if FirstSend(k.sends, e) < |k.sends| then Without(k.sends, FirstSend(k.sends, e))
            else k.sends
  {
    var k1 := TakeAck(k, e);
    assert k1.sends == k.sends;
    hide TakeAck, Deliver;
    if CanDeliver(k1, e) {
      DeliverSends(k1, e);
    }
  }

  lemma CallSends(k: Kernel, r: Regs, w: World)
    ensures SysSend(k, r).sends ==
            if Named(k, r).None? || FirstRecv(k.recvs, Named(k, r).value) < |k.recvs| then k.sends
            else k.sends + [Submission(k, r, Named(k, r).value)]
  {
    hide Send;
    match ResolveSlot(k, r.ebx)
    case Some((Endpoint(e), _)) =>
      var m := Submission(k, r, e);
      SendSends(k, m);
      if m.transfer.Some? {
        SendSends(MintDerived(k, CurrentNode(k, r.edi).value, Resolve(k.nodes, CurrentNode(k, r.edi).value).value.1),
            m);
      }
    case _ =>
  }

  lemma GrantSends(k: Kernel, r: Regs, w: World)
    ensures SysEndpointCreate(k).sends == k.sends && SysMintBadged(k, r).sends == k.sends
    ensures SysMemAlloc(k, r, w).sends == k.sends && SysSpawn(k, w).sends == k.sends
  {
    hide CurrentNode, Resolve, NextSlot;
  }

  lemma QuietSends(k: Kernel, r: Regs, w: World)
    ensures SysRevoke(k, r).sends == k.sends && SysRegisterIrq(k, r).sends == k.sends
    ensures SysMapMemory(k, r, w).sends == k.sends && Tick(k).sends == k.sends
  {
    hide Revoked, ResolveSlot, CurrentNode;
  }

  lemma SendConserves(k: Kernel, r: Regs, w: World, e: nat)
    requires Rendezvous(k) && r.eax == 2
    ensures On(k.sends, e) + On(Submitted(k, Trap(r, w)), e) ==
            On(Messages(Fates(k, Trap(r, w))), e) + On(SysSend(k, r).sends, e)
  {
    hide SysSend, Named, Submission;
    CallSends(k, r, w);
    var named := Named(k, r);
    if named.Some? {
      var m := Submission(k, r, named.value);
      if FirstRecv(k.recvs, named.value) < |k.recvs| {
        SubmittedTo(k, r, named.value);
        OnOne(m, e);
        if e == named.value {
          NonePending(k, e);
          OnNone(k.sends, e);
        }
        assert Messages([Delivered(m, k.recvs[FirstRecv(k.recvs, named.value)].task)]) == [m];
      } else {
        OnConcat(k.sends, [m], e);
      }
    }
  }

  lemma SubmittedTo(k: Kernel, r: Regs, e: nat)
    ensures Submission(k, r, e).endpoint == e && Submission(k, r, e).task == k.current
  {
  }

  /** One system call moves messages along: what was pending plus what is submitted is what is
      decided plus what is pending after. */
  lemma ServeConserves(k: Kernel, idle: nat, r: Regs, w: World, e: nat)
    requires Inv(k, idle)
    ensures On(k.sends, e) + On(Submitted(k, Trap(r, w)), e) ==
            On(Messages(Fates(k, Trap(r, w))), e) + On(Serve(k, r, w).sends, e)
  {
    hide Exit, SysSend, SysRegisterIrq, SysRevoke, SysRecv, SysTryRecv, SysSpawn, SysMapMemory, SysEndpointCreate,
         SysMintBadged, SysMemAlloc, Tick, Scheduled, Distinct, Owners, Named, Submission, Rendezvous, On;
    if r.eax == 0 {
      ExitSends(k);
      OnOrphans(k.sends, k, k.current, e);
      OnNothing(e);
    } else if r.eax == 2 {
      SendConserves(k, r, w, e);
    } else if r.eax == 3 || r.eax == 15 {
      OnNothing(e);
      ReceiveConserves(k, r, e);
    } else {
      GrantSends(k, r, w);
      QuietSends(k, r, w);
      QuietSends(SetEax(k, k.current, 0), r, w);
      OnNothing(e);
    }
  }

  lemma OnNothing(e: nat)
    ensures On([], e) == [] && Messages([]) == []
  {
  }

  lemma NonePending(k: Kernel, e: nat)
    requires Rendezvous(k) && FirstRecv(k.recvs, e) < |k.recvs|
    ensures forall i | 0 <= i < |k.sends| :: k.sends[i].endpoint != e
  {
    assert k.recvs[FirstRecv(k.recvs, e)].endpoint == e;
  }

  lemma ReceiveConserves(k: Kernel, r: Regs, e: nat)
    ensures var fates := if Named(k, r).Some? && FirstSend(k.sends, Named(k, r).value) < |k.sends|
                         then [Delivered(k.sends[FirstSend(k.sends, Named(k, r).value)], k.current)] else [];
            && On(k.sends, e) == On(Messages(fates), e) + On(SysRecv(k, r).sends, e)
            && On(k.sends, e) == On(Messages(fates), e) + On(SysTryRecv(k, r).sends, e)
  {
    hide Recv, TryRecv;
    match ResolveSlot(k, r.ebx)
    case Some((Endpoint(x), _)) =>
      RecvSends(k, x);
      var i := FirstSend(k.sends, x);
      if i < |k.sends| {
        OnWithoutFirst(k.sends, x, e);
        assert Messages([Delivered(k.sends[i], k.current)]) == [k.sends[i]];
      }
    case _ =>
  }

  lemma SameRequest(k: Kernel, r: Regs, op: Op)
    requires k.current in k.tasks
    ensures Submitted(SetRegs(k, k.current, r), op) == Submitted(k, op)
            && Fates(SetRegs(k, k.current, r), op) == Fates(k, op)
  {
    var k1 := SetRegs(k, k.current, r);
    assert k1.tasks[k.current].cspace == k.tasks[k.current].cspace;
    match op
    case Trap(q, _) =>
      assert forall slot: nat :: CurrentNode(k1, slot) == CurrentNode(k, slot);
      assert Named(k1, q) == Named(k, q);
      hide CurrentNode, Named, SetRegs;
      SameOrphans(k.sends, k, k1, k.current);
    case _ =>
  }

  lemma {:induction false} SameOrphans(s: seq<PendingSend>, k: Kernel, k': Kernel, owner: nat)
    requires k'.endpoints == k.endpoints
    ensures Orphans(s, k', owner) == Orphans(s, k, owner)
  {
    if s != [] {
      SameOrphans(s[1..], k, k', owner);
    }
  }

  lemma NotifySends(k: Kernel, v: IrqEvent)
    ensures Notify(k, v).sends == k.sends
  {
  }

  lemma StepConserves(k: Kernel, idle: nat, op: Op, e: nat)
    requires Inv(k, idle) && Enabled(k, idle, op)
    ensures On(k.sends, e) + On(Submitted(k, op), e) == On(Messages(Fates(k, op)), e) + On(Step(k, op).sends, e)
  {
    hide Inv, Serve, SetRegs, Tick, Notify, On;
    OnNothing(e);
    match op
    case Timer => QuietSends(k, Regs(0, 0, 0, 0, 0, 0), World(false, 0, false));
    case Trap(r, w) =>
      CurrentIn(k, idle);
      TouchKeeps(k, idle, k.current, r, 0, 0);
      SameRequest(k, r, op);
      SameSends(k, r);
      hide Fates, Submitted;
      ServeConserves(SetRegs(k, k.current, r), idle, r, w, e);
    case Line(irq, data) =>
      if HandlerFor(k, irq).Some? {
        NotifySends(k.(masked := k.masked[irq := true]), IrqEvent(HandlerFor(k, irq).value, irq, data));
      }
    case Key(c) =>
      if HandlerFor(k, 1).Some? {
        NotifySends(k, IrqEvent(HandlerFor(k, 1).value, 1, c));
      }
  }

  lemma SameSends(k: Kernel, r: Regs)
    ensures SetRegs(k, k.current, r).sends == k.sends
  {
  }

  // ----- runs -----

  ghost function AllSubmitted(k: Kernel, ops: seq<Op>): seq<PendingSend>
    decreases |ops|
  {
    if ops == [] then [] else Submitted(k, ops[0]) + AllSubmitted(Step(k, ops[0]), ops[1..])
  }

  ghost function AllFates(k: Kernel, ops: seq<Op>): seq<Fate>
    decreases |ops|
  {
    if ops == [] then [] else Fates(k, ops[0]) + AllFates(Step(k, ops[0]), ops[1..])
  }

  /** Over any run, the messages decided on an endpoint followed by those still pending are exactly
      the messages submitted, in submission order: nothing is lost, doubled or overtaken. */
  lemma {:induction false} RunConserves(k: Kernel, idle: nat, ops: seq<Op>, e: nat)
    requires Inv(k, idle) && Legal(k, idle, ops)
    ensures On(k.sends, e) + On(AllSubmitted(k, ops), e) == On(Messages(AllFates(k, ops)), e) + On(Run(k, ops).sends, e)
    decreases |ops|
  {
    hide Step, Inv, Enabled, On, Messages, Fates, Submitted;
    OnNothing(e);
    if ops != [] {
      var k1, rest := Step(k, ops[0]), ops[1..];
      StepConserves(k, idle, ops[0], e);
      StepKeeps(k, idle, ops[0]);
      RunConserves(k1, idle, rest, e);
      OnConcat(Submitted(k, ops[0]), AllSubmitted(k1, rest), e);
      MessagesConcat(Fates(k, ops[0]), AllFates(k1, rest));
      OnConcat(Messages(Fates(k, ops[0])), Messages(AllFates(k1, rest)), e);
      Regroup(On(k.sends, e), On(Submitted(k, ops[0]), e), On(AllSubmitted(k1, rest), e),
              On(Messages(Fates(k, ops[0])), e), On(k1.sends, e), On(Messages(AllFates(k1, rest)), e),
                  On(Run(k, ops).sends, e));
    }
  }

  lemma Regroup<T>(a: seq<T>, b: seq<T>, c: seq<T>, d: seq<T>, p: seq<T>, f: seq<T>, q: seq<T>)
    requires a + b == d + p && p + c == f + q
    ensures a + (b + c) == (d + f) + q
  {
    assert a + (b + c) == (a + b) + c == d + (p + c) == (d + f) + q;
  }
}
