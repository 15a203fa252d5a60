/**
 Where memory capabilities come from: over every run, each one names a range handed out at boot or
 by the frame allocator's answer to an allocation. With the pager granting exactly those ranges, the
 range a task asks to map is always a granted one.
 */
module KernelGrants {
  import opened Bytes
  import opened KernelState
  import opened KernelSched
  import opened KernelIrq
  import opened KernelBoot
  import opened KernelPaging

  /** Every memory capability, revoked or not, names one of the ranges `mem` (base and length). */
  ghost predicate Granted(nodes: seq<CapNode>, mem: set<(nat, nat)>) {
    forall i | 0 <= i < |nodes| :: nodes[i].kind.MemoryGrant? ==> (nodes[i].kind.physBase, nodes[i].kind.len) in mem
  }

  /** The range an operation hands out. */
  ghost function Given(op: Op): set<(nat, nat)> {
    if op.Trap? && op.regs.eax == 12 && op.world.loads then
      {(op.world.phys, 4096 * (if op.regs.ecx == 0 then 1 else op.regs.ecx))}
    else {}
  }

  ghost function AllGiven(ops: seq<Op>): set<(nat, nat)> {
    if ops == [] then {} else Given(ops[0]) + AllGiven(ops[1..])
  }

  ghost function BootGift(op: BootOp): set<(nat, nat)> {
    if op.Grant? && op.kind.MemoryGrant? then {(op.kind.physBase, op.kind.len)} else {}
  }

  ghost function BootGiven(ops: seq<BootOp>): set<(nat, nat)> {
    if ops == [] then {} else BootGift(ops[0]) + BootGiven(ops[1..])
  }

  lemma MintGranted(k: Kernel, kind: CapKind, parent: nat, badge: nat, mem: set<(nat, nat)>)
    requires Granted(k.nodes, mem)
    ensures Granted(MintDerived(k, parent, badge).nodes, mem)
    ensures !kind.MemoryGrant? || (kind.physBase, kind.len) in mem ==> Granted(MintRoot(k, kind).nodes, mem)
  {
    var b := MintDerived(k, parent, badge).nodes;
    forall i | 0 <= i < |b| ensures b[i].kind.MemoryGrant? ==> (b[i].kind.physBase, b[i].kind.len) in mem {
      if i < |k.nodes| {
        assert b[i].kind == k.nodes[i].kind;
      } else {
        assert b[i].kind == k.nodes[parent].kind;
      }
    }
  }

  lemma DeliverNodes(k: Kernel, e: nat)
    requires CanDeliver(k, e)
    ensures Deliver(k, e).nodes == k.nodes
  {
    hide Deliver;
    DeliverIs(k, e);
  }

  lemma ReceiveNodes(k: Kernel, e: nat)
    ensures Recv(k, e).nodes == k.nodes && TryRecv(k, e).nodes == k.nodes
  {
    hide SetEax, Switch, SetState, Deliver, CanDeliver;
    var k1 := TakeAck(k, e);
    if CanDeliver(k1, e) {
      DeliverNodes(k1, e);
    } else {
      SwitchIrq(k1.(recvs := k1.recvs + [PendingRecv(k1.current, e)]), Blocked);
      TouchIrq(k1, k1.current, Regs(0, 0, 0, 0, 0, 0), U32_MAX, Ready);
    }
  }

  lemma NotifyNodes(k: Kernel, v: IrqEvent)
    ensures Notify(k, v).nodes == k.nodes
  {
  }

  lemma SendNodes(k: Kernel, m: PendingSend)
    ensures Send(k, m).nodes == k.nodes
  {
    hide HandOver, Wake, SetEax, Switch, SetState;
    var i := FirstRecv(k.recvs, m.endpoint);
    if i < |k.recvs| {
      MeetIrq(k.(recvs := Without(k.recvs, i)), m, k.recvs[i].task, m.task, k.recvs[i].task);
    } else {
      SwitchIrq(k.(sends := k.sends + [m]), Blocked);
    }
  }

  lemma SysSendGranted(k: Kernel, r: Regs, mem: set<(nat, nat)>)
    requires Granted(k.nodes, mem)
    ensures Granted(SysSend(k, r).nodes, mem)
  {
    hide Send, SetEax, MintDerived, Granted;
    TouchIrq(k, k.current, r, U32_MAX, Ready);
    match ResolveSlot(k, r.ebx)
    case Some((Endpoint(e), _)) =>
      var src := CurrentNode(k, r.edi);
      var msg := (r.ecx, r.edx, r.esi);
      SendNodes(k, PendingSend(k.current, e, msg, None));
      if r.edi != 0 && src.Some? && Resolve(k.nodes, src.value).Some? {
        var badge := Resolve(k.nodes, src.value).value.1;
        MintGranted(k, RebootControl, src.value, badge, mem);
        SendNodes(MintDerived(k, src.value, badge), PendingSend(k.current, e, msg, Some(|k.nodes|)));
      }
    case _ =>
  }

  lemma MintCallsGranted(k: Kernel, r: Regs, w: World, mem: set<(nat, nat)>)
    requires Granted(k.nodes, mem)
    ensures Granted(SysMintBadged(k, r).nodes, mem) && Granted(SysEndpointCreate(k).nodes, mem)
    ensures Granted(SysSpawn(k, w).nodes, mem) && Granted(SysRevoke(k, r).nodes, mem)
  {
    hide SetEax, Install, MintDerived;
    var src := CurrentNode(k, r.ebx);
    TouchIrq(k, k.current, r, U32_MAX, Ready);
    TouchIrq(k, k.current, r, 0, Ready);
    if src.Some? {
      MintGranted(k, RebootControl, src.value, r.ecx, mem);
      InstallIrq(MintDerived(k, src.value, r.ecx), k.current, |k.nodes|, r, NextSlot(k, k.current));
      TouchIrq(k.(nodes := Revoked(k.nodes, src.value)), k.current, r, 0, Ready);
    }
    var k1 := k.(endpoints := k.endpoints + [EndpointMeta(k.current, None)]);
    InstallIrq(MintRoot(k1, Endpoint(|k.endpoints|)), k.current, |k.nodes|, r, NextSlot(k, k.current));
    SpawnNodes(k);
    TouchIrq(Spawn(k), k.current, r, NewTaskId(k), Ready);
  }

  lemma SpawnNodes(k: Kernel)
    ensures Spawn(k).nodes == k.nodes || exists e :: Spawn(k).nodes == k.nodes + [CapNode(Endpoint(e), 0, [], false)]
  {
    hide Install;
    if k.nameService.Some? {
      var t := NewTaskId(k);
      var k1 := k.(tasks := k.tasks[t := Task(Ready, [None], Regs(0, 0, 0, 0, 0, 0))], ready := k.ready + [t]);
      InstallNodes(MintRoot(k1, Endpoint(k.nameService.value)), t, |k1.nodes|);
    }
  }

  lemma InstallNodes(k: Kernel, t: nat, n: nat)
    ensures Install(k, t, n).nodes == k.nodes
  {
  }

  lemma MemAllocGranted(k: Kernel, r: Regs, w: World, mem: set<(nat, nat)>)
    requires Granted(k.nodes, mem) && r.eax == 12
    ensures Granted(SysMemAlloc(k, r, w).nodes, mem + Given(Trap(r, w)))
  {
    hide SetRegs, Install;
    TouchIrq(k, k.current, r.(eax := 0, ecx := 0), 0, Ready);
    if w.loads {
      var kind := MemoryGrant(w.phys, 4096 * (if r.ecx == 0 then 1 else r.ecx), true);
      InstallIrq(MintRoot(k, kind), k.current, |k.nodes|, r.(eax := NextSlot(k, k.current), ecx := w.phys), 0);
      MintGranted(k, kind, 0, 0, mem + Given(Trap(r, w)));
    }
  }

  lemma OtherCallsNodes(k: Kernel, r: Regs)
    ensures SysRecv(k, r).nodes == k.nodes && SysTryRecv(k, r).nodes == k.nodes && SysRegisterIrq(k, r).nodes == k.nodes
    ensures Exit(k).nodes == k.nodes
  {
    hide Recv, TryRecv, SetEax, Exit, KeptRecvs, KeptEvents;
    ExitIrq(k);
    TouchIrq(k, k.current, r, U32_MAX, Ready);
    TouchIrq(k, k.current, r, U32_MAX - 1, Ready);
    match ResolveSlot(k, r.ebx)
    case Some((Endpoint(e), _)) => ReceiveNodes(k, e);
    case Some((IrqControl(irq, e), _)) => TouchIrq(RegisterIrq(k, irq, e), k.current, r, 0, Ready);
    case _ =>
  }

  lemma ServeGranted(k: Kernel, r: Regs, w: World, mem: set<(nat, nat)>)
    requires Granted(k.nodes, mem)
    ensures Granted(Serve(k, r, w).nodes, mem + Given(Trap(r, w)))
  {
    hide Exit, SysSend, SysRegisterIrq, SysRevoke, SysRecv, SysTryRecv, SysSpawn, SysMapMemory, SysEndpointCreate,
         SysMintBadged, SysMemAlloc, Tick, SetEax, Granted, Given;
    Wider(k.nodes, mem, Given(Trap(r, w)));
    Wider(Serve(k, r, w).nodes, mem, Given(Trap(r, w)));
    QuietIrq(k, r, w);
    TouchIrq(k, k.current, r, U32_MAX, Ready);
    TouchIrq(k, k.current, r, k.current, Ready);
    OtherCallsNodes(k, r);
    match r.eax
    case 2 => SysSendGranted(k, r, mem);
    case 12 => MemAllocGranted(k, r, w, mem);
    case _ => MintCallsGranted(k, r, w, mem);
  }

  lemma Wider(nodes: seq<CapNode>, mem: set<(nat, nat)>, more: set<(nat, nat)>)
    ensures Granted(nodes, mem) ==> Granted(nodes, mem + more)
  {
  }

  lemma StepGranted(k: Kernel, op: Op, mem: set<(nat, nat)>)
    requires Granted(k.nodes, mem)
    ensures Granted(Step(k, op).nodes, mem + Given(op))
  {
    hide Granted, Given, Serve, Tick, Notify, SetRegs;
    Wider(k.nodes, mem, Given(op));
    match op
    case Timer => QuietIrq(k, Regs(0, 0, 0, 0, 0, 0), World(false, 0, false));
    case Trap(r, w) =>
      TouchIrq(k, k.current, r, 0, Ready);
      ServeGranted(SetRegs(k, k.current, r), r, w, mem);
    case Line(irq, data) =>
      if HandlerFor(k, irq).Some? {
        var v := IrqEvent(HandlerFor(k, irq).value, irq, data);
        NotifyNodes(if irq < |k.masked| then k.(masked := k.masked[irq := true]) else k, v);
      }
    case Key(c) =>
      if HandlerFor(k, 1).Some? {
        NotifyNodes(k, IrqEvent(HandlerFor(k, 1).value, 1, c));
      }
  }

  lemma {:induction false} RunGranted(k: Kernel, ops: seq<Op>, mem: set<(nat, nat)>)
    requires Granted(k.nodes, mem)
    ensures Granted(Run(k, ops).nodes, mem + AllGiven(ops))
    decreases |ops|
  {
    hide Granted, Given, Step;
    if ops == [] {
      assert mem + {} == mem;
    } else {
      StepGranted(k, ops[0], mem);
      RunGranted(Step(k, ops[0]), ops[1..], mem + Given(ops[0]));
      assert mem + Given(ops[0]) + AllGiven(ops[1..]) == mem + AllGiven(ops);
    }
  }

  lemma {:induction false} BootGranted(k: Kernel, ops: seq<BootOp>, mem: set<(nat, nat)>)
    requires Granted(k.nodes, mem)
    ensures Granted(Boot(k, ops).nodes, mem + BootGiven(ops))
    decreases |ops|
  {
    hide Granted, Spawn, Install;
    if ops == [] {
      assert mem + {} == mem;
    } else {
      var one := BootGift(ops[0]);
      Wider(k.nodes, mem, one);
      match ops[0] {
        case SpawnTask =>
          SpawnNodes(k);
          if Spawn(k).nodes != k.nodes {
            var e :| Spawn(k).nodes == k.nodes + [CapNode(Endpoint(e), 0, [], false)];
            MintGranted(k, Endpoint(e), 0, 0, mem + one);
          }
        case Grant(t, kind) =>
          MintGranted(k, kind, 0, 0, mem + one);
          InstallNodes(MintRoot(k, kind), t, |k.nodes|);
        case _ =>
      }
      BootGranted(BootStep(k, ops[0]), ops[1..], mem + one);
      assert mem + one + BootGiven(ops[1..]) == mem + BootGiven(ops);
    }
  }

  /** The frames a range touches are granted. */
  ghost predicate Backed(mem: set<(nat, nat)>, grants: set<nat>) {
    forall p: nat, len: nat | (p, len) in mem :: Range(p / 4096, Pages(len)) <= grants
  }

  /** In every reachable state, a memory capability that resolves may be mapped: if every range
      handed out at boot or by the allocator is granted, so is the range it names. */
  lemma MappableGranted(boot: seq<BootOp>, ops: seq<Op>, slot: nat, grants: set<nat>)
    requires Backed(BootGiven(boot) + AllGiven(ops), grants)
    ensures var k := Run(Switch(Boot(PowerOn(), boot)), ops);
            match ResolveSlot(k, slot)
            case Some((MemoryGrant(phys, len, _), _)) => Range(phys / 4096, Pages(len)) <= grants
            case _ => true
  {
    hide Boot, Run, PowerOn, Switch, Range, Pages, AllGiven, BootGiven;
    NoNodes();
    BootGranted(PowerOn(), boot, {});
    assert {} + BootGiven(boot) == BootGiven(boot);
    SwitchNodes(Boot(PowerOn(), boot));
    RunGranted(Switch(Boot(PowerOn(), boot)), ops, BootGiven(boot));
  }

  lemma NoNodes()
    ensures PowerOn().nodes == []
  {
  }

  lemma SwitchNodes(k: Kernel)
    ensures Switch(k).nodes == k.nodes
  {
  }
}
