/**
 What a task finds in its registers and its capability table: after each system call that returns,
 and after an interrupt it waited for.
 */
module KernelReturns {
  import opened Bytes
  import opened KernelState
  import opened KernelSched
  import opened KernelMessages
  import opened KernelAnswers

  /** The capability in a slot of the running task, if it names a node that is not revoked. */
  ghost function Held(k: Kernel, slot: nat): Option<CapNode> {
    if && k.current in k.tasks && slot < |k.tasks[k.current].cspace| && k.tasks[k.current].cspace[slot].Some?
       && var n := k.tasks[k.current].cspace[slot].value; n < |k.nodes| && !k.nodes[n].revoked
    then Some(k.nodes[k.tasks[k.current].cspace[slot].value]) else None
  }

  /** The caller has registers `r`, and `more` behind its table. */
  ghost predicate Left(k: Kernel, k': Kernel, r: Regs, more: seq<Option<nat>>) {
    && k.current in k.tasks && k.current in k'.tasks
    && k'.tasks[k.current].regs == r && k'.tasks[k.current].cspace == k.tasks[k.current].cspace + more
  }

  ghost predicate SameCaps(k: Kernel, k': Kernel) {
    k'.nodes == k.nodes && k'.endpoints == k.endpoints && k'.handlers == k.handlers
  }

  /** The line is unmasked, and with one of the second controller the line that connects it. */
  ghost predicate Armed(was: seq<bool>, now: seq<bool>, irq: nat) {
    |now| == |was| && forall l | 0 <= l < |was| :: now[l] == (was[l] && l != irq && !(l == 2 && 8 <= irq < |was|))
  }

  /** Trapping saves the registers and changes nothing else. */
  lemma Trapped(k: Kernel, idle: nat, r: Regs)
    requires Inv(k, idle)
    ensures k.current in k.tasks
    ensures SetRegs(k, k.current, r) == k.(tasks := k.tasks[k.current := k.tasks[k.current].(regs := r)])
    ensures forall slot: nat :: Held(SetRegs(k, k.current, r), slot) == Held(k, slot)
  {
    CurrentIn(k, idle);
    hide Inv;
    assert forall slot: nat :: Held(SetRegs(k, k.current, r), slot) == Held(k, slot);
  }

  lemma HeldIs(k: Kernel, slot: nat)
    ensures ResolveSlot(k, slot) == match Held(k, slot) case Some(c) => Some((c.kind, c.badge)) case None => None
    ensures CurrentNode(k, slot).Some? && Resolve(k.nodes, CurrentNode(k, slot).value).Some? <==> Held(k, slot).Some?
    ensures Held(k, slot).Some? ==> Held(k, slot).value == k.nodes[CurrentNode(k, slot).value]
  {
  }

  // ----- system calls -----

  /** Yielding returns 0, asking for one's own number returns it, an unknown call fails. */
  lemma PlainReturns(k: Kernel, idle: nat, r: Regs, w: World)
    requires Inv(k, idle) && k.current != idle && r.eax !in {0, 2, 3, 6, 7, 8, 9, 10, 11, 12, 13, 15}
    ensures var v := if r.eax == 1 then 0 else if r.eax == 4 then k.current else 0xFFFF_FFFF;
            Left(k, Step(k, Op.Trap(r, w)), r.(eax := v), []) && SameCaps(k, Step(k, Op.Trap(r, w)))
  {
    hide Inv;
    Trapped(k, idle, r);
  }

  /** Registering a line returns 0 if and only if the slot holds the right to one of the sixteen, and
      then its interrupts go to the endpoint the capability names. */
  lemma RegisterReturns(k: Kernel, idle: nat, r: Regs, w: World)
    requires Inv(k, idle) && k.current != idle && r.eax == 6
    ensures var k' := Step(k, Op.Trap(r, w));
            match Held(k, r.ebx)
            case Some(CapNode(IrqControl(irq, e), _, _, _)) =>
              if irq < |k.handlers| then
                && Left(k, k', r.(eax := 0), []) && k'.handlers == k.handlers[irq := Some(e)]
                && Armed(k.masked, k'.masked, irq)
              else Left(k, k', r.(eax := 0xFFFF_FFFF), []) && SameCaps(k, k')
            case _ => Left(k, k', r.(eax := 0xFFFF_FFFF), []) && SameCaps(k, k')
  {
    hide Inv;
    Trapped(k, idle, r);
    HeldIs(SetRegs(k, k.current, r), r.ebx);
    hide Held, ResolveSlot;
  }

  /** Mapping returns 0 if and only if the slot holds memory and the pager could map it. */
  lemma MapReturns(k: Kernel, idle: nat, r: Regs, w: World)
    requires Inv(k, idle) && k.current != idle && r.eax == 7
    ensures var ok := Held(k, r.ebx).Some? && Held(k, r.ebx).value.kind.MemoryGrant? && w.mapOk;
            && Left(k, Step(k, Op.Trap(r, w)), r.(eax := if ok then 0 else 0xFFFF_FFFF), [])
            && SameCaps(k, Step(k, Op.Trap(r, w)))
  {
    hide Inv;
    Trapped(k, idle, r);
    HeldIs(SetRegs(k, k.current, r), r.ebx);
    hide Held, ResolveSlot;
  }

  /** Spawning returns the new task's number, or 0. The task waits at the end of the queue, with
      empty registers and a capability to the name service, if there is one. */
  lemma SpawnReturns(k: Kernel, idle: nat, r: Regs, w: World)
    requires Inv(k, idle) && k.current != idle && (r.eax == 8 || r.eax == 13)
    ensures var k', t := Step(k, Op.Trap(r, w)), |k.tasks| + 1;
            && Left(k, k', r.(eax := if w.loads then t else 0), [])
            && if !w.loads then SameCaps(k, k') && k'.ready == k.ready
               else
                 && t !in k.tasks && t in k'.tasks && k'.ready == k.ready + [t]
                 && k'.tasks[t].state == Ready && k'.tasks[t].regs == Regs(0, 0, 0, 0, 0, 0)
                 && match k.nameService
                    case None => k'.tasks[t].cspace == [None] && SameCaps(k, k')
                    case Some(e) =>
                      && k'.tasks[t].cspace == [None, Some(|k.nodes|)]
                      && k'.nodes == k.nodes + [CapNode(Endpoint(e), 0, [], false)]
  {
    assert |k.tasks| + 1 !in k.tasks;
    hide Inv;
    Trapped(k, idle, r);
    var k1 := SetRegs(k, k.current, r);
    SizeByKeys(k.tasks, k1.tasks);
    hide SetRegs;
  }

  /** Creating an endpoint returns the slot of a new capability to a new endpoint of one's own. */
  lemma EndpointReturns(k: Kernel, idle: nat, r: Regs, w: World)
    requires Inv(k, idle) && k.current != idle && r.eax == 9
    ensures var k' := Step(k, Op.Trap(r, w));
            && k.current in k.tasks && Left(k, k', r.(eax := |k.tasks[k.current].cspace|), [Some(|k.nodes|)])
            && k'.nodes == k.nodes + [CapNode(Endpoint(|k.endpoints|), 0, [], false)]
            && k'.endpoints == k.endpoints + [EndpointMeta(k.current, None)]
  {
    hide Inv;
    Trapped(k, idle, r);
  }

  /** Minting returns the slot of a copy with the badge asked for, derived from the capability named;
      a slot without one fails. */
  lemma MintReturns(k: Kernel, idle: nat, r: Regs, w: World)
    requires Inv(k, idle) && k.current != idle && r.eax == 10
    ensures var k' := Step(k, Op.Trap(r, w));
            match Held(k, r.ebx)
            case None => Left(k, k', r.(eax := 0xFFFF_FFFF), []) && SameCaps(k, k')
            case Some(c) =>
              && k.current in k.tasks && Left(k, k', r.(eax := |k.tasks[k.current].cspace|), [Some(|k.nodes|)])
              && |k'.nodes| == |k.nodes| + 1 && k'.nodes[|k.nodes|] == CapNode(c.kind, r.ecx, [], false)
              && CurrentNode(k, r.ebx).Some? && CurrentNode(k, r.ebx).value < |k.nodes|
              && k'.nodes[CurrentNode(k, r.ebx).value].children == c.children + [|k.nodes|]
  {
    hide Inv;
    Trapped(k, idle, r);
    HeldIs(k, r.ebx);
    HeldIs(SetRegs(k, k.current, r), r.ebx);
  }

  /** Allocation returns the slot of a capability to the frames it got and their address, or 0. */
  lemma AllocReturns(k: Kernel, idle: nat, r: Regs, w: World)
    requires Inv(k, idle) && k.current != idle && r.eax == 12
    ensures var k' := Step(k, Op.Trap(r, w));
            if w.loads then
              && k.current in k.tasks
              && Left(k, k', r.(eax := |k.tasks[k.current].cspace|, ecx := w.phys), [Some(|k.nodes|)])
              && k'.nodes == k.nodes + [CapNode(MemoryGrant(w.phys, 4096 * (if r.ecx == 0 then 1 else r.ecx), true), 0,
                 [], false)]
            else Left(k, k', r.(eax := 0, ecx := 0), []) && SameCaps(k, k')
  {
    hide Inv;
    Trapped(k, idle, r);
  }

  /** Revocation returns 0 and takes nothing out of any table. */
  lemma RevokeReturns(k: Kernel, idle: nat, r: Regs, w: World)
    requires Inv(k, idle) && k.current != idle && r.eax == 11
    ensures Left(k, Step(k, Op.Trap(r, w)), r.(eax := 0), [])
  {
    hide Inv, Revoked;
    Trapped(k, idle, r);
  }

  /** Sending to or receiving from what is not an endpoint fails, a poll with a value of its own. */
  lemma RefusedReturns(k: Kernel, idle: nat, r: Regs, w: World)
    requires Inv(k, idle) && k.current != idle && (r.eax == 2 || r.eax == 3 || r.eax == 15)
    requires !(Held(k, r.ebx).Some? && Held(k, r.ebx).value.kind.Endpoint?)
    ensures Left(k, Step(k, Op.Trap(r, w)), r.(eax := if r.eax == 15 then 0xFFFF_FFFE else 0xFFFF_FFFF), [])
    ensures SameCaps(k, Step(k, Op.Trap(r, w)))
  {
    hide Inv;
    Trapped(k, idle, r);
    HeldIs(SetRegs(k, k.current, r), r.ebx);
    hide Held, ResolveSlot, Send, Recv, TryRecv;
  }

  /** Receiving or polling acknowledges the interrupt last delivered on the endpoint: its line is unmasked;
      without one no line changes. */
  lemma ReceiveArms(k: Kernel, idle: nat, r: Regs, w: World, e: nat)
    requires Inv(k, idle) && k.current != idle && (r.eax == 3 || r.eax == 15)
    requires Held(k, r.ebx).Some? && Held(k, r.ebx).value.kind == Endpoint(e)
    ensures var k' := Step(k, Op.Trap(r, w));
            if e < |k.endpoints| && k.endpoints[e].ack.Some? then Armed(k.masked, k'.masked, k.endpoints[e].ack.value)
            else k'.masked == k.masked
  {
    hide Inv, Held, ResolveSlot, SetRegs, Armed, TakeAck, Deliver, CanDeliver, Switch, SetState, SetEax;
    Trapped(k, idle, r);
    var k1 := SetRegs(k, k.current, r);
    HeldIs(k1, r.ebx);
    ArmsOne(k1, e);
    KeepsLines(TakeAck(k1, e), e);
  }

  lemma ArmsOne(k: Kernel, e: nat)
    ensures var m := TakeAck(k, e).masked;
            if e < |k.endpoints| && k.endpoints[e].ack.Some? then Armed(k.masked, m, k.endpoints[e].ack.value)
            else m == k.masked
  {
  }

  lemma KeepsLines(k: Kernel, e: nat)
    ensures CanDeliver(k, e) ==> Deliver(k, e).masked == k.masked
    ensures SetEax(k, k.current, 0xFFFF_FFFF).masked == k.masked
    ensures BlockCurrent(k.(recvs := k.recvs + [PendingRecv(k.current, e)])).masked == k.masked
  {
  }

  /** What the capability named in `edi` becomes on its way: a copy of it, derived from it, in the
      receiver's next slot; a slot without one sends nothing along. */
  ghost predicate Sends(k: Kernel, k': Kernel, r: Regs, transfer: Option<nat>) {
    if r.edi != 0 && Held(k, r.edi).Some? then
      && transfer == Some(|k.nodes|) && |k'.nodes| == |k.nodes| + 1
      && k'.nodes[|k.nodes|] == CapNode(Held(k, r.edi).value.kind, Held(k, r.edi).value.badge, [], false)
      && CurrentNode(k, r.edi).Some? && CurrentNode(k, r.edi).value < |k.nodes|
      && k'.nodes[CurrentNode(k, r.edi).value].children == Held(k, r.edi).value.children + [|k.nodes|]
    else transfer == None && k'.nodes == k.nodes
  }

  /** The first receiver has the message and the sender goes on with 0; without one the sender waits. */
  ghost predicate Sent(k: Kernel, k': Kernel, r: Regs, m: PendingSend) {
    && (forall i: nat | FirstWaiting(k, m.endpoint, i) ::
          Received(k, k', m, k.recvs[i].task) && Left(k, k', r.(eax := 0), []) && k'.sends == k.sends)
    && ((forall j | 0 <= j < |k.recvs| :: k.recvs[j].endpoint != m.endpoint) ==>
          Left(k, k', r, []) && k'.tasks[k.current].state == Blocked && k'.sends == k.sends + [m])
  }

  /** Sending: the words in `ecx`, `edx` and `esi` reach the first receiver on the endpoint, which finds
      them in `ebx`, `ecx` and `edx` behind the sender's number; without a receiver the sender waits. */
  lemma SendReturns(k: Kernel, idle: nat, r: Regs, w: World, e: nat)
    requires Inv(k, idle) && k.current != idle && r.eax == 2
    requires Held(k, r.ebx).Some? && Held(k, r.ebx).value.kind == Endpoint(e)
    ensures var k', t := Step(k, Op.Trap(r, w)), k.current;
            exists transfer: Option<nat> ::
              Sends(k, k', r, transfer) && Sent(k, k', r, PendingSend(t, e, (r.ecx, r.edx, r.esi), transfer))
  {
    TrapReady(k, idle);
    FrontOther(k, idle);
    forall i: nat | FirstWaiting(k, e, i) ensures k.recvs[i].task in k.tasks && k.recvs[i].task != k.current {
      WaitingRecv(k, idle, i);
    }
    hide Inv;
    Trapped(k, idle, r);
    var k1 := SetRegs(k, k.current, r);
    HeldIs(k1, r.ebx);
    hide ResolveSlot, SetRegs, Held, Send, Sends, Sent, CurrentNode, Resolve;
    var k2, transfer := Packed(k1, r);
    var m := PendingSend(k.current, e, (r.ecx, r.edx, r.esi), transfer);
    assert Step(k, Op.Trap(r, w)) == Send(k2, m);
    SendDone(k, k2, r, m);
    SentAlong(k, k1, k2, r, transfer, Send(k2, m));
  }

  /** The kernel once the capability to send along is derived. */
  lemma Packed(k: Kernel, r: Regs) returns (k2: Kernel, transfer: Option<nat>)
    ensures var src := CurrentNode(k, r.edi);
            if r.edi != 0 && src.Some? && Resolve(k.nodes, src.value).Some?
            then k2 == MintDerived(k, src.value, Resolve(k.nodes, src.value).value.1) && transfer == Some(|k.nodes|)
            else k2 == k && transfer == None
    ensures k2 == k.(nodes := k2.nodes)
  {
    var src := CurrentNode(k, r.edi);
    if r.edi != 0 && src.Some? && Resolve(k.nodes, src.value).Some? {
      k2, transfer := MintDerived(k, src.value, Resolve(k.nodes, src.value).value.1), Some(|k.nodes|);
    } else {
      k2, transfer := k, None;
    }
  }

  lemma SentAlong(k: Kernel, k1: Kernel, k2: Kernel, r: Regs, transfer: Option<nat>, k': Kernel)
    requires k.current in k.tasks && k1 == k.(tasks := k.tasks[k.current := k.tasks[k.current].(regs := r)])
    requires k'.nodes == k2.nodes
    requires var src := CurrentNode(k1, r.edi);
             if r.edi != 0 && src.Some? && Resolve(k1.nodes, src.value).Some?
             then k2 == MintDerived(k1, src.value, Resolve(k1.nodes, src.value).value.1) && transfer == Some(|k1.nodes|)
             else k2 == k1 && transfer == None
    ensures Sends(k, k', r, transfer)
  {
    HeldIs(k, r.edi);
    assert CurrentNode(k1, r.edi) == CurrentNode(k, r.edi);
    hide Held, CurrentNode;
  }

  lemma SendDone(k0: Kernel, k: Kernel, r: Regs, m: PendingSend)
    requires k0.current in k0.tasks && k ==
             k0.(nodes := k.nodes, tasks := k0.tasks[k0.current := k0.tasks[k0.current].(regs := r)])
    requires m.task == k.current && k.ready != [] && k.ready[0] in k.tasks && k.ready[0] != k.current
    requires forall i: nat | FirstWaiting(k0, m.endpoint, i) ::
             k.recvs[i].task in k.tasks && k.recvs[i].task != k.current
    ensures Send(k, m).nodes == k.nodes && Sent(k0, Send(k, m), r, m)
  {
    forall i: nat | FirstWaiting(k0, m.endpoint, i) ensures i == FirstRecv(k.recvs, m.endpoint) {
      OnlyFirst(k0, m.endpoint, i);
    }
    var n := FirstRecv(k.recvs, m.endpoint);
    assert n < |k.recvs| ==> FirstWaiting(k0, m.endpoint, n);
    hide FirstWaiting;
  }

  /** With nothing there, a poll fails and a receive waits: the next task in the queue runs. */
  lemma EmptyReturns(k: Kernel, idle: nat, r: Regs, w: World, e: nat)
    requires Inv(k, idle) && k.current != idle && (r.eax == 3 || r.eax == 15)
    requires Held(k, r.ebx).Some? && Held(k, r.ebx).value.kind == Endpoint(e)
    requires forall j | 0 <= j < |k.sends| :: k.sends[j].endpoint != e
    requires forall j | 0 <= j < |k.events| :: k.events[j].endpoint != e
    ensures var k', t := Step(k, Op.Trap(r, w)), k.current;
            if r.eax == 15 then Left(k, k', r.(eax := 0xFFFF_FFFF), []) && k'.current == t && k'.recvs == k.recvs
            else
              && Left(k, k', r, []) && k'.tasks[t].state == Blocked && k'.recvs == k.recvs + [PendingRecv(t, e)]
              && k.ready != [] && k'.current == k.ready[0] && k'.ready == k.ready[1..]
  {
    TrapReady(k, idle);
    FrontOther(k, idle);
    hide Inv;
    Trapped(k, idle, r);
    var k1 := SetRegs(k, k.current, r);
    HeldIs(k1, r.ebx);
    hide Held, ResolveSlot, SetRegs;
    AckTables(k1, e);
    hide TakeAck;
    assert !CanDeliver(TakeAck(k1, e), e);
    hide CanDeliver;
  }

  lemma FrontOther(k: Kernel, idle: nat)
    requires Inv(k, idle) && k.ready != []
    ensures k.ready[0] in k.tasks && k.ready[0] != k.current
  {
  }

  // ----- interrupts -----

  /** Task `t` is ready and finds the line and its data; its table and other registers are as they were. */
  ghost predicate Told(k: Kernel, k': Kernel, t: nat, irq: nat, data: nat) {
    && t in k.tasks && k'.tasks.Keys == k.tasks.Keys
    && k'.tasks[t] == k.tasks[t].(state := Ready, regs := k.tasks[t].regs.(eax := 0, ebx := irq, ecx := data, edx := 0))
    && forall u | u in k.tasks && u != t :: k'.tasks[u] == k.tasks[u]
  }

  /** Position `i` of the receivers is the first on endpoint `e`. */
  ghost predicate FirstWaiting(k: Kernel, e: nat, i: nat) {
    i < |k.recvs| && k.recvs[i].endpoint == e && forall j | 0 <= j < i :: k.recvs[j].endpoint != e
  }

  /** Receiver `i` is told, waits no more and runs after the others; the endpoint owes the acknowledgement. */
  ghost predicate Woken(k: Kernel, k': Kernel, e: nat, irq: nat, data: nat, i: nat) {
    && i < |k.recvs| && Told(k, k', k.recvs[i].task, irq, data) && k'.ready == k.ready + [k.recvs[i].task]
    && k'.recvs == k.recvs[..i] + k.recvs[i + 1..] && k'.events == k.events
    && (e < |k.endpoints| ==> e < |k'.endpoints| && k'.endpoints[e].ack == Some(irq))
  }

  /** The interrupt has reached the first receiver on its endpoint, if there is one;
      otherwise it has queued behind the others. */
  ghost predicate Reached(k: Kernel, k': Kernel, e: nat, irq: nat, data: nat) {
    && (forall i: nat | FirstWaiting(k, e, i) :: Woken(k, k', e, irq, data, i))
    && ((forall j | 0 <= j < |k.recvs| :: k.recvs[j].endpoint != e) ==>
          && k'.events == k.events + [IrqEvent(e, irq, data)]
          && k'.recvs == k.recvs && k'.tasks == k.tasks && k'.ready == k.ready && k'.endpoints == k.endpoints)
    && k'.sends == k.sends && k'.nodes == k.nodes && k'.handlers == k.handlers && k'.current == k.current
  }

  lemma OnlyFirst(k: Kernel, e: nat, i: nat)
    requires FirstWaiting(k, e, i)
    ensures FirstRecv(k.recvs, e) == i < |k.recvs| && k.recvs[i].endpoint == e
  {
  }

  lemma NotifyQueues(k: Kernel, e: nat, irq: nat, data: nat)
    requires FirstRecv(k.recvs, e) == |k.recvs|
    ensures Notify(k, IrqEvent(e, irq, data)) == k.(events := k.events + [IrqEvent(e, irq, data)])
  {
  }

  lemma NotifyWakes(k: Kernel, e: nat, irq: nat, data: nat)
    requires var i := FirstRecv(k.recvs, e); i < |k.recvs| && k.recvs[i].task in k.tasks
    ensures var k', i := Notify(k, IrqEvent(e, irq, data)), FirstRecv(k.recvs, e);
            && Woken(k, k', e, irq, data, i)
            && k' == k.(tasks := k'.tasks, ready := k'.ready, endpoints := k'.endpoints, recvs := k'.recvs)
  {
  }

  lemma NotifySeen(k: Kernel, idle: nat, e: nat, irq: nat, data: nat)
    requires Inv(k, idle)
    ensures Reached(k, Notify(k, IrqEvent(e, irq, data)), e, irq, data)
    ensures Notify(k, IrqEvent(e, irq, data)).masked == k.masked
  {
    hide Inv, Woken, Notify, FirstWaiting;
    var n := FirstRecv(k.recvs, e);
    forall i: nat | FirstWaiting(k, e, i) ensures i == n < |k.recvs| && k.recvs[i].endpoint == e {
      OnlyFirst(k, e, i);
    }
    if n < |k.recvs| {
      WaitingRecv(k, idle, n);
      NotifyWakes(k, e, irq, data);
    } else {
      NotifyQueues(k, e, irq, data);
    }
  }

  /** A device line: it is masked, and the endpoint it is registered for is told. */
  lemma LineSeen(k: Kernel, idle: nat, irq: nat, data: nat)
    requires Inv(k, idle) && Enabled(k, idle, Line(irq, data)) && irq < |k.handlers|
    ensures var k' := Step(k, Line(irq, data));
            match k.handlers[irq]
            case None => k' == k
            case Some(e) => k'.masked == k.masked[irq := true] && Reached(k, k', e, irq, data)
  {
    hide Inv, Notify;
    var k1 := k.(masked := k.masked[irq := true]);
    TablesKeep(k, k1, idle);
    if k.handlers[irq].Some? {
      NotifySeen(k1, idle, k.handlers[irq].value, irq, data);
      SameReached(k, k1, Step(k, Line(irq, data)), k.handlers[irq].value, irq, data);
    }
  }

  lemma SameReached(k: Kernel, k1: Kernel, k': Kernel, e: nat, irq: nat, data: nat)
    requires k1 == k.(masked := k1.masked) && Reached(k1, k', e, irq, data)
    ensures Reached(k, k', e, irq, data)
  {
    forall i: nat | FirstWaiting(k, e, i) ensures FirstWaiting(k1, e, i) {
    }
  }

  /** The keyboard is line 1; it is not masked. */
  lemma KeySeen(k: Kernel, idle: nat, c: nat)
    requires Inv(k, idle) && 1 < |k.handlers|
    ensures var k' := Step(k, Key(c));
            match k.handlers[1]
            case None => k' == k
            case Some(e) => k'.masked == k.masked && Reached(k, k', e, 1, c)
  {
    hide Inv, Notify, Reached;
    if k.handlers[1].Some? {
      NotifySeen(k, idle, k.handlers[1].value, 1, c);
    }
  }

  /** A receive, or a poll, that finds no message takes the oldest interrupt queued on its endpoint. */
  lemma EventSeen(k: Kernel, idle: nat, r: Regs, w: World, e: nat, i: nat)
    requires Inv(k, idle) && k.current != idle && (r.eax == 3 || r.eax == 15)
    requires Held(k, r.ebx).Some? && Held(k, r.ebx).value.kind == Endpoint(e)
    requires forall j | 0 <= j < |k.sends| :: k.sends[j].endpoint != e
    requires i < |k.events| && k.events[i].endpoint == e && forall j | 0 <= j < i :: k.events[j].endpoint != e
    ensures var k', v := Step(k, Op.Trap(r, w)), k.events[i];
            && Left(k, k', r.(eax := 0, ebx := v.irq, ecx := v.data, edx := 0), []) && k'.current == k.current
            && k'.events == k.events[..i] + k.events[i + 1..] && k'.recvs == k.recvs && k'.sends == k.sends
            && (e < |k.endpoints| ==> e < |k'.endpoints| && k'.endpoints[e].ack == Some(v.irq))
  {
    hide Inv;
    Trapped(k, idle, r);
    var k1 := SetRegs(k, k.current, r);
    HeldIs(k1, r.ebx);
    hide Held, ResolveSlot, SetRegs;
    AckTables(k1, e);
    hide TakeAck;
    DeliverEvent(TakeAck(k1, e), e, i);
    hide Deliver, CanDeliver;
    assert Step(k, Op.Trap(r, w)) == Deliver(TakeAck(k1, e), e);
  }

  lemma AckTables(k: Kernel, e: nat)
    ensures TakeAck(k, e) == k.(endpoints := TakeAck(k, e).endpoints, masked := TakeAck(k, e).masked)
    ensures |TakeAck(k, e).endpoints| == |k.endpoints|
  {
  }

  lemma DeliverEvent(k: Kernel, e: nat, i: nat)
    requires k.current in k.tasks && forall j | 0 <= j < |k.sends| :: k.sends[j].endpoint != e
    requires i < |k.events| && k.events[i].endpoint == e && forall j | 0 <= j < i :: k.events[j].endpoint != e
    ensures CanDeliver(k, e)
    ensures var k', v := Deliver(k, e), k.events[i];
            && Left(k, k', k.tasks[k.current].regs.(eax := 0, ebx := v.irq, ecx := v.data, edx := 0), [])
            && k' == k.(tasks := k'.tasks, events := k.events[..i] + k.events[i + 1..], endpoints := k'.endpoints)
            && (e < |k.endpoints| ==> e < |k'.endpoints| && k'.endpoints[e].ack == Some(v.irq))
  {
    assert FirstSend(k.sends, e) == |k.sends| && FirstEvent(k.events, e) == i;
  }
}
