/**
 Which tasks there are: a spawn that loads its image adds one, under the next number; no other step
 adds or removes any.
 */
module KernelTasks {
  import opened Bytes
  import opened KernelState
  import opened KernelSched

  ghost predicate SameTasks(k: Kernel, k': Kernel) {
    k'.tasks.Keys == k.tasks.Keys
  }

  ghost predicate OneMore(k: Kernel, k': Kernel) {
    k'.tasks.Keys == k.tasks.Keys + {NewTaskId(k)}
  }

  lemma Joined(k: Kernel, k1: Kernel, k2: Kernel)
    requires SameTasks(k, k1)
    ensures SameTasks(k1, k2) ==> SameTasks(k, k2)
    ensures OneMore(k1, k2) ==> OneMore(k, k2)
  {
    SizeByKeys(k.tasks, k1.tasks);
  }

  predicate Spawns(op: Op) {
    op.Trap? && (op.regs.eax == 8 || op.regs.eax == 13) && op.world.loads
  }

  lemma TouchTasks(k: Kernel, t: nat, r: Regs, v: nat, n: nat)
    ensures SameTasks(k, SetRegs(k, t, r)) && SameTasks(k, SetEax(k, t, v)) && SameTasks(k, Install(k, t, n))
    ensures SameTasks(k, Wake(k, t))
  {
  }

  lemma SwitchTasks(k: Kernel, s: TaskState)
    ensures SameTasks(k, Switch(SetState(k, k.current, s))) && SameTasks(k, Tick(k))
  {
  }

  lemma HandOverTasks(k: Kernel, m: PendingSend, to: nat, from: nat)
    ensures SameTasks(k, HandOver(k, m, to)) && SameTasks(k, Wake(SetEax(HandOver(k, m, to), from, 0), from))
    ensures SameTasks(k, Wake(SetEax(HandOver(k, m, to), from, 0), to))
  {
    hide SetRegs, SetEax, Install, Wake;
    var k1, k2 := InstallIf(k, to, m.transfer), HandOver(k, m, to);
    TouchTasks(k, to, Regs(0, 0, 0, 0, 0, 0), 0, if m.transfer.Some? then m.transfer.value else 0);
    if to in k.tasks {
      TouchTasks(k1, to, Filled(k1.tasks[to].regs, m, SlotIf(k, to, m.transfer)), 0, 0);
    }
    TouchTasks(k2, from, Regs(0, 0, 0, 0, 0, 0), 0, 0);
    TouchTasks(SetEax(k2, from, 0), from, Regs(0, 0, 0, 0, 0, 0), 0, 0);
    TouchTasks(SetEax(k2, from, 0), to, Regs(0, 0, 0, 0, 0, 0), 0, 0);
  }

  lemma SendTasks(k: Kernel, m: PendingSend)
    ensures SameTasks(k, Send(k, m))
  {
    hide HandOver, SetEax, Wake, Switch, SetState;
    var pos := FirstRecv(k.recvs, m.endpoint);
    if pos < |k.recvs| {
      var t := k.recvs[pos].task;
      var k1 := k.(recvs := Without(k.recvs, pos));
      HandOverTasks(k1, m, t, m.task);
    } else {
      SwitchTasks(k.(sends := k.sends + [m]), Blocked);
    }
  }

  lemma DeliverTasks(k: Kernel, e: nat)
    requires CanDeliver(k, e)
    ensures SameTasks(k, Deliver(k, e))
  {
    hide HandOver, SetEax, Wake, SetRegs;
    var pos := FirstSend(k.sends, e);
    if pos < |k.sends| {
      HandOverTasks(k.(sends := Without(k.sends, pos)), k.sends[pos], k.current, k.sends[pos].task);
    } else {
      var ev := FirstEvent(k.events, e);
      var k1 := SetAck(k.(events := Without(k.events, ev)), e, k.events[ev].irq);
      if k1.current in k1.tasks {
        TouchTasks(k1, k1.current, Notified(k1.tasks[k1.current].regs, k.events[ev]), 0, 0);
      }
    }
  }

  lemma ReceiveTasks(k: Kernel, e: nat)
    ensures SameTasks(k, Recv(k, e)) && SameTasks(k, TryRecv(k, e))
  {
    hide Deliver, CanDeliver, SetEax, Switch, SetState;
    var k1 := TakeAck(k, e);
    if CanDeliver(k1, e) {
      DeliverTasks(k1, e);
    } else {
      SwitchTasks(k1.(recvs := k1.recvs + [PendingRecv(k1.current, e)]), Blocked);
      TouchTasks(k1, k1.current, Regs(0, 0, 0, 0, 0, 0), U32_MAX, 0);
    }
  }

  lemma NotifyTasks(k: Kernel, v: IrqEvent)
    ensures SameTasks(k, Notify(k, v))
  {
  }

  lemma {:induction false} FailAllTasks(k: Kernel, ts: seq<nat>)
    ensures SameTasks(k, FailAll(k, ts))
    decreases |ts|
  {
    hide SetEax, Wake;
    if ts != [] {
      TouchTasks(k, ts[0], Regs(0, 0, 0, 0, 0, 0), U32_MAX, 0);
      TouchTasks(SetEax(k, ts[0], U32_MAX), ts[0], Regs(0, 0, 0, 0, 0, 0), 0, 0);
      FailAllTasks(Wake(SetEax(k, ts[0], U32_MAX), ts[0]), ts[1..]);
    }
  }

  lemma ExitTasks(k: Kernel)
    ensures SameTasks(k, Exit(k))
  {
    hide FailAll, KeptRecvs, FailedRecvs, KeptSends, FailedSends, KeptEvents, Switch, SetState;
    SwitchTasks(k, Zombie);
    var k0 := Switch(SetState(k, k.current, Zombie));
    var k1 := k0.(recvs := KeptRecvs(k0.recvs, k0, k.current));
    FailAllTasks(k1, FailedRecvs(k0.recvs, k0, k.current));
    var k2 := FailAll(k1, FailedRecvs(k0.recvs, k0, k.current));
    var k3 := k2.(sends := KeptSends(k2.sends, k0, k.current));
    FailAllTasks(k3, FailedSends(k2.sends, k0, k.current));
  }

  lemma SpawnTasks(k: Kernel, v: nat)
    ensures OneMore(k, SetEax(Spawn(k), k.current, v))
  {
    hide SetEax, Install;
    var t := NewTaskId(k);
    var k1 := k.(tasks := k.tasks[t := Task(Ready, [None], Regs(0, 0, 0, 0, 0, 0))], ready := k.ready + [t]);
    assert k1.tasks.Keys == k.tasks.Keys + {t};
    if k.nameService.Some? {
      TouchTasks(MintRoot(k1, Endpoint(k.nameService.value)), t, Regs(0, 0, 0, 0, 0, 0), 0, |k1.nodes|);
    }
    TouchTasks(Spawn(k), k.current, Regs(0, 0, 0, 0, 0, 0), v, 0);
  }

  lemma MintTasks(k: Kernel, r: Regs, w: World)
    ensures SameTasks(k, SysEndpointCreate(k)) && SameTasks(k, SysMintBadged(k, r)) && SameTasks(k, SysRevoke(k, r))
    ensures SameTasks(k, SysMemAlloc(k, r, w))
  {
    hide Revoked;
  }

  lemma CallTasks(k: Kernel, r: Regs, w: World)
    ensures SameTasks(k, SysSend(k, r)) && SameTasks(k, SysRecv(k, r)) && SameTasks(k, SysTryRecv(k, r))
    ensures SameTasks(k, SysRegisterIrq(k, r)) && SameTasks(k, SysMapMemory(k, r, w))
  {
    hide Send, Recv, TryRecv, SetEax;
    TouchTasks(k, k.current, r, U32_MAX, 0);
    TouchTasks(k, k.current, r, U32_MAX - 1, 0);
    TouchTasks(k, k.current, r, 0, 0);
    match ResolveSlot(k, r.ebx)
    case Some((Endpoint(e), _)) =>
      ReceiveTasks(k, e);
      var msg := (r.ecx, r.edx, r.esi);
      SendTasks(k, PendingSend(k.current, e, msg, None));
      var src := CurrentNode(k, r.edi);
      if r.edi != 0 && src.Some? && Resolve(k.nodes, src.value).Some? {
        SendTasks(MintDerived(k, src.value, Resolve(k.nodes, src.value).value.1),
                  PendingSend(k.current, e, msg, Some(|k.nodes|)));
      }
    case Some((IrqControl(irq, e), _)) =>
      TouchTasks(RegisterIrq(k, irq, e), k.current, r, 0, 0);
    case _ =>
  }

  lemma ServeTasks(k: Kernel, r: Regs, w: World)
    ensures if Spawns(Op.Trap(r, w)) then OneMore(k, Serve(k, r, w)) else SameTasks(k, Serve(k, r, w))
  {
    hide Exit, SysSend, SysRegisterIrq, SysRevoke, SysRecv, SysTryRecv, SysMapMemory, SysEndpointCreate, SysMintBadged,
         SysMemAlloc, Tick, SetEax, Spawn, SameTasks, OneMore;
    TouchTasks(k, k.current, r, 0, 0);
    TouchTasks(k, k.current, r, k.current, 0);
    TouchTasks(k, k.current, r, U32_MAX, 0);
    match r.eax
    case 0 => ExitTasks(k);
    case 1 =>
      SwitchTasks(SetEax(k, k.current, 0), Ready);
      Joined(k, SetEax(k, k.current, 0), Tick(SetEax(k, k.current, 0)));
    case 8 => SpawnTasks(k, NewTaskId(k));
    case 13 => SpawnTasks(k, NewTaskId(k));
    case _ =>
      MintTasks(k, r, w);
      CallTasks(k, r, w);
  }

  /** The tasks after any step. */
  lemma StepTasks(k: Kernel, op: Op)
    ensures if Spawns(op) then OneMore(k, Step(k, op)) else SameTasks(k, Step(k, op))
  {
    hide Serve, Tick, Notify, SetRegs, OneMore;
    match op
    case Timer => SwitchTasks(k, Ready);
    case Trap(r, w) =>
      TouchTasks(k, k.current, r, 0, 0);
      ServeTasks(SetRegs(k, k.current, r), r, w);
      Joined(k, SetRegs(k, k.current, r), Serve(SetRegs(k, k.current, r), r, w));
    case Line(irq, data) =>
      if HandlerFor(k, irq).Some? {
        NotifyTasks(if irq < |k.masked| then k.(masked := k.masked[irq := true]) else k,
                    IrqEvent(HandlerFor(k, irq).value, irq, data));
      }
    case Key(c) =>
      if HandlerFor(k, 1).Some? {
        NotifyTasks(k, IrqEvent(HandlerFor(k, 1).value, 1, c));
      }
  }
}
