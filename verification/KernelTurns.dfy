/**
 Round robin: the ready queue is only ever popped at the front and extended at the back, so a
 task at position `p` runs after exactly `p + 1` task switches, whatever happens in between.
 */
module KernelTurns {
  import opened Bytes
  import opened KernelState
  import opened KernelSched

  /** The queue may have grown at the back; the running task is the same. */
  ghost predicate Waits(k: Kernel, k': Kernel) {
    k'.current == k.current && k.ready <= k'.ready
  }

  /** The front of the queue runs now; the rest has moved up and may have grown at the back. */
  ghost predicate Moves(k: Kernel, k': Kernel) {
    k.ready != [] && k'.current == k.ready[0] && k.ready[1..] <= k'.ready
  }

  ghost predicate Advances(k: Kernel, k': Kernel) {
    Waits(k, k') || Moves(k, k')
  }

  lemma {:induction false} FailAllWaits(k: Kernel, ts: seq<nat>)
    ensures Waits(k, FailAll(k, ts))
    decreases |ts|
  {
    if ts != [] {
      FailAllWaits(Wake(SetEax(k, ts[0], U32_MAX), ts[0]), ts[1..]);
    }
  }

  lemma SwitchMoves(k: Kernel, s: TaskState)
    requires k.ready != []
    ensures Moves(k, Switch(SetState(k, k.current, s)))
  {
  }

  lemma TickAdvances(k: Kernel)
    ensures Advances(k, Tick(k))
  {
    if k.ready != [] {
      assert (k.ready + [k.current])[1..] == k.ready[1..] + [k.current];
    }
  }

  lemma ExitMoves(k: Kernel)
    requires k.ready != []
    ensures Moves(k, Exit(k))
  {
    var k1 := Switch(SetState(k, k.current, Zombie));
    SwitchMoves(k, Zombie);
    var owner := k.current;
    var k2 := k1.(recvs := KeptRecvs(k1.recvs, k1, owner));
    FailAllWaits(k2, FailedRecvs(k1.recvs, k1, owner));
    var k3 := FailAll(k2, FailedRecvs(k1.recvs, k1, owner));
    FailAllWaits(k3.(sends := KeptSends(k3.sends, k1, owner)), FailedSends(k3.sends, k1, owner));
    hide Switch, SetState, FailAll, KeptRecvs, KeptSends, FailedRecvs, FailedSends, KeptEvents;
  }

  lemma HandOverWaits(k: Kernel, m: PendingSend, to: nat, from: nat, woken: nat)
    ensures Waits(k, Wake(SetEax(HandOver(k, m, to), from, 0), woken))
  {
  }

  lemma SendAdvances(k: Kernel, m: PendingSend)
    requires k.ready != []
    ensures Advances(k, Send(k, m))
  {
    var pos := FirstRecv(k.recvs, m.endpoint);
    if pos < |k.recvs| {
      HandOverWaits(k.(recvs := Without(k.recvs, pos)), m, k.recvs[pos].task, m.task, k.recvs[pos].task);
    } else {
      SwitchMoves(k.(sends := k.sends + [m]), Blocked);
    }
  }

  lemma DeliverWaits(k: Kernel, e: nat)
    requires CanDeliver(k, e)
    ensures Waits(k, Deliver(k, e))
  {
    var pos := FirstSend(k.sends, e);
    if pos < |k.sends| {
      HandOverWaits(k.(sends := Without(k.sends, pos)), k.sends[pos], k.current, k.sends[pos].task, k.sends[pos].task);
    }
  }

  lemma RecvAdvances(k: Kernel, e: nat)
    requires k.ready != []
    ensures Advances(k, Recv(k, e)) && Waits(k, TryRecv(k, e))
  {
    var k1 := TakeAck(k, e);
    assert k1.ready == k.ready && k1.current == k.current;
    if CanDeliver(k1, e) {
      DeliverWaits(k1, e);
    } else {
      SwitchMoves(k1.(recvs := k1.recvs + [PendingRecv(k1.current, e)]), Blocked);
    }
  }

  lemma NotifyWaits(k: Kernel, v: IrqEvent)
    ensures Waits(k, Notify(k, v))
  {
  }

  lemma SysSendAdvances(k: Kernel, r: Regs)
    requires k.ready != []
    ensures Advances(k, SysSend(k, r))
  {
    hide Send;
    match ResolveSlot(k, r.ebx)
    case Some((Endpoint(e), _)) =>
      var src := CurrentNode(k, r.edi);
      var msg := (r.ecx, r.edx, r.esi);
      if r.edi != 0 && src.Some? && Resolve(k.nodes, src.value).Some? {
        SendAdvances(MintDerived(k, src.value, Resolve(k.nodes, src.value).value.1),
            PendingSend(k.current, e, msg, Some(|k.nodes|)));
      } else {
        SendAdvances(k, PendingSend(k.current, e, msg, None));
      }
    case _ =>
  }

  lemma SysRecvAdvances(k: Kernel, r: Regs)
    requires k.ready != []
    ensures Advances(k, SysRecv(k, r)) && Waits(k, SysTryRecv(k, r))
  {
    hide Recv, TryRecv;
    match ResolveSlot(k, r.ebx)
    case Some((Endpoint(e), _)) => RecvAdvances(k, e);
    case _ =>
  }

  lemma CapabilityCallsWait(k: Kernel, r: Regs)
    ensures Waits(k, SysEndpointCreate(k)) && Waits(k, SysMintBadged(k, r)) && Waits(k, SysRevoke(k, r))
    ensures Waits(k, SysRegisterIrq(k, r))
  {
    hide Revoked, ResolveSlot, CurrentNode, Resolve, NextSlot;
  }

  lemma MemoryCallsWait(k: Kernel, r: Regs, w: World)
    ensures Waits(k, SysMemAlloc(k, r, w)) && Waits(k, SysMapMemory(k, r, w)) && Waits(k, SysSpawn(k, w))
  {
    hide ResolveSlot, NextSlot;
  }

  lemma ServeAdvances(k: Kernel, r: Regs, w: World)
    requires k.ready != []
    ensures Advances(k, Serve(k, r, w))
  {
    hide Exit, SysSend, SysRegisterIrq, SysRevoke, SysRecv, SysTryRecv, SysSpawn, SysMapMemory, SysEndpointCreate,
         SysMintBadged, SysMemAlloc, Tick;
    CapabilityCallsWait(k, r);
    MemoryCallsWait(k, r, w);
    ExitMoves(k);
    TickAdvances(SetEax(k, k.current, 0));
    SysSendAdvances(k, r);
    SysRecvAdvances(k, r);
  }

  /** One step pops at most one task, at the front, and pushes only at the back. */
  lemma StepAdvances(k: Kernel, idle: nat, op: Op)
    requires Inv(k, idle) && Enabled(k, idle, op)
    ensures Advances(k, Step(k, op)) && (Step(k, op).current != k.current <==> Moves(k, Step(k, op)))
  {
    if k.ready != [] {
      assert k.ready[0] in k.ready;
    }
    match op
    case Timer => TickAdvances(k);
    case Trap(r, w) =>
      ReadyFront(k, Elems(Owners(k)), idle);
      var k1 := SetRegs(k, k.current, r);
      assert k1.ready == k.ready && k1.current == k.current;
      hide SetRegs, Serve, Inv;
      ServeAdvances(k1, r, w);
    case Line(irq, data) =>
      if HandlerFor(k, irq).Some? {
        NotifyWaits(k.(masked := k.masked[irq := true]), IrqEvent(HandlerFor(k, irq).value, irq, data));
      }
    case Key(c) =>
      if HandlerFor(k, 1).Some? {
        NotifyWaits(k, IrqEvent(HandlerFor(k, 1).value, 1, c));
      }
  }

  /** How many steps of a run changed the running task. */
  ghost function Switches(k: Kernel, ops: seq<Op>): nat
    decreases |ops|
  {
    if ops == [] then 0
    else (if Step(k, ops[0]).current != k.current then 1 else 0) + Switches(Step(k, ops[0]), ops[1..])
  }

  lemma {:induction false} StillRunning(k: Kernel, ops: seq<Op>)
    requires Switches(k, ops) == 0
    ensures Run(k, ops).current == k.current
    decreases |ops|
  {
    if ops != [] {
      hide Step;
      StillRunning(Step(k, ops[0]), ops[1..]);
    }
  }

  /** One step moves the task at position `p` up by one if it switches, and not at all otherwise. */
  lemma StepTurn(k: Kernel, idle: nat, op: Op, p: nat)
    requires Inv(k, idle) && Enabled(k, idle, op) && p < |k.ready|
    ensures var k' := Step(k, op);
            if k'.current == k.current then p < |k'.ready| && k'.ready[p] == k.ready[p]
            else if p == 0 then k'.current == k.ready[0]
            else p - 1 < |k'.ready| && k'.ready[p - 1] == k.ready[p]
  {
    hide Step, Inv, Enabled;
    StepAdvances(k, idle, op);
    if Moves(k, Step(k, op)) && p > 0 {
      assert k.ready[1..][p - 1] == k.ready[p];
    }
  }

  /** The task at position `p` moves up by one per switch, and runs after exactly `p + 1`. */
  lemma {:induction false} Turn(k: Kernel, idle: nat, ops: seq<Op>, p: nat)
    requires Inv(k, idle) && Legal(k, idle, ops) && p < |k.ready|
    ensures var n, k' := Switches(k, ops), Run(k, ops);
            && (n <= p ==> p - n < |k'.ready| && k'.ready[p - n] == k.ready[p])
            && (n == p + 1 ==> k'.current == k.ready[p])
    decreases |ops|
  {
    hide Step, Inv, Enabled;
    if ops != [] {
      var k1, rest := Step(k, ops[0]), ops[1..];
      StepTurn(k, idle, ops[0], p);
      StepKeeps(k, idle, ops[0]);
      if k1.current == k.current {
        Turn(k1, idle, rest, p);
      } else if p > 0 {
        Turn(k1, idle, rest, p - 1);
      } else if Switches(k1, rest) == 0 {
        StillRunning(k1, rest);
      }
    }
  }
}
