/**
 How a device line gets lost: three ordinary runs after boot that leave a registered line masked with
 nothing outstanding, and the proof that no later run brings it back unless the line is registered
 again.
 */
module KernelLost {
  import opened Bytes
  import opened KernelState
  import opened KernelSched
  import opened KernelMessages
  import opened KernelIrq
  import opened KernelBoot

  /** Line `l` is masked and nothing will acknowledge it. */
  ghost predicate Mute(k: Kernel, l: nat) {
    l < |k.masked| && k.masked[l] && (forall v | v in k.events :: v.irq != l) && (forall e: nat :: !Owes(k, e, l))
  }

  /** Line `l` has a handler that it can no longer reach. */
  ghost predicate Lost(k: Kernel, l: nat) { HandlerFor(k, l).Some? && Mute(k, l) }

  ghost predicate Reregisters(k: Kernel, op: Op, l: nat) {
    op.Trap? && op.regs.eax == 6 &&
    match ResolveSlot(k, op.regs.ebx)
    case Some((IrqControl(irq, _), _)) => irq == l
    case _ => false
  }

  /** Everything `Mute` looks at, except that events may have been dropped. */
  ghost predicate Hushed(k: Kernel, k': Kernel) {
    k'.masked == k.masked && k'.endpoints == k.endpoints && forall v | v in k'.events :: v in k.events
  }

  lemma HushedKeeps(k: Kernel, k': Kernel, l: nat)
    requires Mute(k, l) && Hushed(k, k')
    ensures Mute(k', l)
  {
    assert forall e: nat :: Owes(k', e, l) == Owes(k, e, l);
  }

  lemma AckKeepsMute(k: Kernel, e: nat, l: nat)
    requires Mute(k, l) && Forwarded(l)
    ensures Mute(TakeAck(k, e), l)
  {
    var k1 := TakeAck(k, e);
    assert !Owes(k, e, l);
    assert forall x: nat | Owes(k1, x, l) :: Owes(k, x, l);
  }

  lemma SetAckKeepsMute(k: Kernel, e: nat, irq: nat, l: nat)
    requires Mute(k, l) && irq != l
    ensures Mute(SetAck(k, e, irq), l)
  {
    assert forall x: nat | Owes(SetAck(k, e, irq), x, l) :: Owes(k, x, l);
  }

  lemma ReceiveKeepsMute(k: Kernel, e: nat, l: nat)
    requires Mute(k, l) && Forwarded(l)
    ensures Mute(Recv(k, e), l) && Mute(TryRecv(k, e), l)
  {
    hide TakeAck, SetEax, Switch, SetState, Deliver, CanDeliver, Mute, SameIrq, Hushed;
    var k1 := TakeAck(k, e);
    AckKeepsMute(k, e, l);
    if CanDeliver(k1, e) {
      DeliverKeepsMute(k1, e, l);
    } else {
      var k2 := k1.(recvs := k1.recvs + [PendingRecv(k1.current, e)]);
      TouchIrq(k1, k1.current, Regs(0, 0, 0, 0, 0, 0), U32_MAX, Ready);
      SwitchIrq(k2, Blocked);
      SameHushed(k1, TryRecv(k, e));
      SameHushed(k2, Recv(k, e));
      HushedKeeps(k1, TryRecv(k, e), l);
      OnlyRecvs(k1, k2, l);
      HushedKeeps(k2, Recv(k, e), l);
    }
  }

  lemma OnlyRecvs(k: Kernel, k': Kernel, l: nat)
    requires Mute(k, l) && k' == k.(recvs := k'.recvs)
    ensures Mute(k', l)
  {
    assert forall e: nat :: Owes(k', e, l) == Owes(k, e, l);
  }

  lemma SameHushed(k: Kernel, k': Kernel)
    requires SameIrq(k, k')
    ensures Hushed(k, k')
  {
  }

  lemma DeliverKeepsMute(k: Kernel, e: nat, l: nat)
    requires Mute(k, l) && CanDeliver(k, e)
    ensures Mute(Deliver(k, e), l)
  {
    hide Deliver, SetAck;
    DeliverIs(k, e);
    if FirstSend(k.sends, e) < |k.sends| {
      HushedKeeps(k, Deliver(k, e), l);
    } else {
      var i := FirstEvent(k.events, e);
      var k1 := k.(events := Without(k.events, i));
      assert k.events[i] in k.events;
      HushedKeeps(k, k1, l);
      SetAckKeepsMute(k1, e, k.events[i].irq, l);
      HushedKeeps(Handed(k, i), Deliver(k, e), l);
    }
  }

  lemma ArrivalKeepsMute(k: Kernel, v: IrqEvent, l: nat)
    requires Mute(k, l) && Forwarded(l) && v.irq != l
    ensures Mute(Notify(Fired(k, v), v), l)
  {
    hide Notify, SetAck;
    NotifyIs(k, v);
    var i, k1, k' := FirstRecv(k.recvs, v.endpoint), Fired(k, v), Notify(Fired(k, v), v);
    assert Mute(k1, l) by {
      assert forall e: nat :: Owes(k1, e, l) == Owes(k, e, l);
    }
    if i < |k.recvs| {
      SetAckKeepsMute(k1, v.endpoint, v.irq, l);
      HushedKeeps(Taken(k, v), k', l);
    } else {
      assert forall e: nat :: Owes(k', e, l) == Owes(k, e, l);
    }
  }

  lemma RegisterKeepsMute(k: Kernel, irq: nat, e: nat, l: nat)
    requires Mute(k, l) && Forwarded(l) && irq != l
    ensures Mute(RegisterIrq(k, irq, e), l)
  {
    var k' := RegisterIrq(k, irq, e);
    assert forall x: nat :: Owes(k', x, l) == Owes(k, x, l);
  }

  lemma EndpointKeepsMute(k: Kernel, x: EndpointMeta, l: nat)
    requires Mute(k, l) && x.ack.None?
    ensures Mute(k.(endpoints := k.endpoints + [x]), l)
  {
    var k' := k.(endpoints := k.endpoints + [x]);
    assert forall e: nat :: Owes(k', e, l) == Owes(k, e, l);
  }

  // ----- system calls -----

  lemma SendHushed(k: Kernel, m: PendingSend)
    ensures Hushed(k, Send(k, m))
  {
    hide HandOver, Wake, SetEax, Switch, SetState;
    var i := FirstRecv(k.recvs, m.endpoint);
    if i < |k.recvs| {
      MeetIrq(k.(recvs := Without(k.recvs, i)), m, k.recvs[i].task, m.task, k.recvs[i].task);
    } else {
      SwitchIrq(k.(sends := k.sends + [m]), Blocked);
    }
  }

  lemma SysSendHushed(k: Kernel, r: Regs)
    ensures Hushed(k, SysSend(k, r))
  {
    hide Send, SetEax;
    TouchIrq(k, k.current, r, U32_MAX, Ready);
    match ResolveSlot(k, r.ebx)
    case Some((Endpoint(e), _)) =>
      var m, src := Submission(k, r, e), CurrentNode(k, r.edi);
      if m.transfer.Some? {
        SendHushed(MintDerived(k, src.value, Resolve(k.nodes, src.value).value.1), m);
      } else {
        SendHushed(k, m);
      }
    case _ =>
  }

  lemma TableHushed(k: Kernel, r: Regs, w: World)
    ensures Hushed(k, SysMintBadged(k, r)) && Hushed(k, SysMemAlloc(k, r, w))
  {
    hide SetEax, SetRegs, Install, CurrentNode, Resolve;
    var src := CurrentNode(k, r.ebx);
    if src.Some? && Resolve(k.nodes, src.value).Some? {
      InstallIrq(MintDerived(k, src.value, r.ecx), k.current, |k.nodes|, r, NextSlot(k, k.current));
    } else {
      TouchIrq(k, k.current, r, U32_MAX, Ready);
    }
    if w.loads {
      var kind := MemoryGrant(w.phys, 4096 * (if r.ecx == 0 then 1 else r.ecx), true);
      InstallIrq(MintRoot(k, kind), k.current, |k.nodes|, r.(eax := NextSlot(k, k.current), ecx := w.phys), 0);
    } else {
      TouchIrq(k, k.current, r.(eax := 0, ecx := 0), 0, Ready);
    }
  }

  lemma SpawnHushed(k: Kernel, w: World)
    ensures Hushed(k, SysSpawn(k, w))
  {
    hide SetEax;
    TouchIrq(k, k.current, Regs(0, 0, 0, 0, 0, 0), 0, Ready);
    TouchIrq(Spawn(k), k.current, Regs(0, 0, 0, 0, 0, 0), NewTaskId(k), Ready);
  }

  lemma ExitHushed(k: Kernel)
    ensures Hushed(k, Exit(k))
  {
    hide Exit, KeptRecvs, KeptEvents, Dead;
    ExitIrq(k);
    KeptAlive(k.events, k, k.current);
  }

  lemma SysRegisterKeepsMute(k: Kernel, r: Regs, w: World, l: nat)
    requires Mute(k, l) && Forwarded(l) && r.eax == 6 && !Reregisters(k, Trap(r, w), l)
    ensures Mute(SysRegisterIrq(k, r), l)
  {
    hide Mute, SetEax, RegisterIrq;
    TouchIrq(k, k.current, r, U32_MAX, Ready);
    match ResolveSlot(k, r.ebx)
    case Some((IrqControl(irq, e), _)) =>
      if irq < |k.handlers| {
        RegisterKeepsMute(k, irq, e, l);
        TouchIrq(RegisterIrq(k, irq, e), k.current, r, 0, Ready);
        HushedKeeps(RegisterIrq(k, irq, e), SysRegisterIrq(k, r), l);
      } else {
        HushedKeeps(k, SysRegisterIrq(k, r), l);
      }
    case _ => HushedKeeps(k, SysRegisterIrq(k, r), l);
  }

  lemma SysReceiveKeepsMute(k: Kernel, r: Regs, l: nat)
    requires Mute(k, l) && Forwarded(l)
    ensures Mute(SysRecv(k, r), l) && Mute(SysTryRecv(k, r), l)
  {
    hide Mute, SetEax, Recv, TryRecv;
    TouchIrq(k, k.current, r, U32_MAX, Ready);
    TouchIrq(k, k.current, r, U32_MAX - 1, Ready);
    HushedKeeps(k, SetEax(k, k.current, U32_MAX), l);
    HushedKeeps(k, SetEax(k, k.current, U32_MAX - 1), l);
    match ResolveSlot(k, r.ebx)
    case Some((Endpoint(e), _)) => ReceiveKeepsMute(k, e, l);
    case _ =>
  }

  lemma EndpointCreateKeepsMute(k: Kernel, l: nat)
    requires Mute(k, l)
    ensures Mute(SysEndpointCreate(k), l)
  {
    hide Mute, SetEax, Install;
    var k1 := k.(endpoints := k.endpoints + [EndpointMeta(k.current, None)]);
    EndpointKeepsMute(k, EndpointMeta(k.current, None), l);
    InstallIrq(MintRoot(k1, Endpoint(|k.endpoints|)), k.current, |k.nodes|, Regs(0, 0, 0, 0, 0, 0),
        NextSlot(k, k.current));
    HushedKeeps(k1, SysEndpointCreate(k), l);
  }

  lemma ServeKeepsMute(k: Kernel, r: Regs, w: World, l: nat)
    requires Mute(k, l) && Forwarded(l) && !Reregisters(k, Trap(r, w), l)
    ensures Mute(Serve(k, r, w), l)
  {
    hide Exit, SysSend, SysRegisterIrq, SysRevoke, SysRecv, SysTryRecv, SysSpawn, SysMapMemory, SysEndpointCreate,
         SysMintBadged, SysMemAlloc, Tick, SetEax, Mute, Hushed, SameIrq, Calm, Reregisters;
    match r.eax
    case 0 =>
      ExitHushed(k);
      HushedKeeps(k, Exit(k), l);
    case 2 =>
      SysSendHushed(k, r);
      HushedKeeps(k, SysSend(k, r), l);
    case 3 => SysReceiveKeepsMute(k, r, l);
    case 6 => SysRegisterKeepsMute(k, r, w, l);
    case 8 =>
      SpawnHushed(k, w);
      HushedKeeps(k, SysSpawn(k, w), l);
    case 9 => EndpointCreateKeepsMute(k, l);
    case 10 =>
      TableHushed(k, r, w);
      HushedKeeps(k, SysMintBadged(k, r), l);
    case 11 =>
      RevokeCalm(k, r);
      CalmHushed(k, SysRevoke(k, r));
      HushedKeeps(k, SysRevoke(k, r), l);
    case 12 =>
      TableHushed(k, r, w);
      HushedKeeps(k, SysMemAlloc(k, r, w), l);
    case 13 =>
      SpawnHushed(k, w);
      HushedKeeps(k, SysSpawn(k, w), l);
    case 15 => SysReceiveKeepsMute(k, r, l);
    case _ =>
      QuietIrq(k, r, w);
      TouchIrq(k, k.current, r, U32_MAX, Ready);
      TouchIrq(k, k.current, r, k.current, Ready);
      SameHushed(k, Serve(k, r, w));
      HushedKeeps(k, Serve(k, r, w), l);
  }

  lemma CalmHushed(k: Kernel, k': Kernel)
    requires Calm(k, k')
    ensures Hushed(k, k')
  {
  }

  lemma SameRegistration(k: Kernel, r: Regs, w: World, l: nat)
    ensures Reregisters(SetRegs(k, k.current, r), Trap(r, w), l) == Reregisters(k, Trap(r, w), l)
  {
    assert forall slot: nat :: CurrentNode(SetRegs(k, k.current, r), slot) == CurrentNode(k, slot);
  }

  lemma StepKeepsMute(k: Kernel, idle: nat, op: Op, l: nat)
    requires Mute(k, l) && Forwarded(l) && Enabled(k, idle, op) && !Reregisters(k, op, l)
    ensures Mute(Step(k, op), l)
  {
    hide Serve, Tick, Notify, SetRegs, SameIrq, Reregisters;
    match op
    case Timer =>
      QuietIrq(k, Regs(0, 0, 0, 0, 0, 0), World(false, 0, false));
      SameHushed(k, Tick(k));
      hide Mute;
      HushedKeeps(k, Tick(k), l);
    case Trap(r, w) =>
      hide Mute;
      TouchIrq(k, k.current, r, 0, Ready);
      SameHushed(k, SetRegs(k, k.current, r));
      HushedKeeps(k, SetRegs(k, k.current, r), l);
      SameRegistration(k, r, w, l);
      ServeKeepsMute(SetRegs(k, k.current, r), r, w, l);
    case Line(irq, data) =>
      if HandlerFor(k, irq).Some? {
        ArrivalKeepsMute(k, IrqEvent(HandlerFor(k, irq).value, irq, data), l);
      }
    case Key(c) =>
      if HandlerFor(k, 1).Some? {
        ArrivalKeepsMute(k, IrqEvent(HandlerFor(k, 1).value, 1, c), l);
      }
  }

  ghost predicate NeverReregisters(k: Kernel, ops: seq<Op>, l: nat)
    decreases |ops|
  {
    ops == [] || (!Reregisters(k, ops[0], l) && NeverReregisters(Step(k, ops[0]), ops[1..], l))
  }

  /** A mute line stays mute over every run that does not register it again: the device is gone. */
  lemma {:induction false} MuteLasts(k: Kernel, idle: nat, ops: seq<Op>, l: nat)
    requires Mute(k, l) && Forwarded(l) && Legal(k, idle, ops) && NeverReregisters(k, ops, l)
    ensures Mute(Run(k, ops), l)
    decreases |ops|
  {
    hide Step, Mute, Enabled, Reregisters;
    if ops != [] {
      StepKeepsMute(k, idle, ops[0], l);
      MuteLasts(Step(k, ops[0]), idle, ops[1..], l);
    }
  }

  // ----- two runs after boot -----

  /** Task 1 idles; task 2, a driver, owns endpoint 0 and may register lines 3 and 4 with it; task 3
      may receive on the same endpoint. */
  function Setup(): seq<BootOp> {
    [SpawnTask, SpawnTask, SpawnTask, NewEndpoint(2), Grant(2, Endpoint(0)), Grant(2, IrqControl(3, 0)),
     Grant(2, IrqControl(4, 0)), Grant(3, Endpoint(0))]
  }

  function Call(eax: nat, ebx: nat): Op { Trap(Regs(eax, ebx, 0, 0, 0, 0), World(false, 0, false)) }

  ghost predicate Desk(k: Kernel) {
    && 1 in k.tasks && 2 in k.tasks && 3 in k.tasks
    && k.tasks[2].cspace == [None, Some(0), Some(1), Some(2)] && k.tasks[3].cspace == [None, Some(3)]
    && k.nodes == [CapNode(Endpoint(0), 0, [], false), CapNode(IrqControl(3, 0), 0, [], false),
                   CapNode(IrqControl(4, 0), 0, [], false), CapNode(Endpoint(0), 0, [], false)]
    && |k.endpoints| == 1 && k.endpoints[0].owner == 2 && k.sends == []
    && |k.handlers| == 16 && |k.masked| == 16
  }

  /** Where the run stands: who runs, who waits for the processor and who for a message. */
  ghost predicate At(k: Kernel, current: nat, ready: seq<nat>, recvs: seq<PendingRecv>, events: seq<IrqEvent>,
                     ack: Option<nat>)
  {
    Desk(k) && k.current == current && k.ready == ready && k.recvs == recvs && k.events == events
        && k.endpoints[0].ack == ack
  }

  /** Line `l` is registered with endpoint 0 and enabled. */
  ghost predicate Armed(k: Kernel, l: nat) {
    HandlerFor(k, l) == Some(0) && l < |k.masked| && !k.masked[l]
  }

  lemma {:induction false} BootUnfold(k: Kernel, ops: seq<BootOp>, op: BootOp)
    ensures Boot(k, [op] + ops) == Boot(BootStep(k, op), ops)
    ensures BootLegal(k, [op] + ops) <==> BootOk(k, op) && BootLegal(BootStep(k, op), ops)
  {
    assert ([op] + ops)[1..] == ops;
  }

  lemma {:induction false} BootOnce(k: Kernel, op: BootOp)
    ensures Boot(k, [op]) == BootStep(k, op) && (BootLegal(k, [op]) <==> BootOk(k, op))
  {
    assert [op][1..] == [];
  }

  /** The first half of the boot: three tasks and an endpoint. */
  ghost predicate ThreeTasks(k: Kernel) {
    && k.tasks == map[1 := Task(Ready, [None], Regs(0, 0, 0, 0, 0, 0)),
       2 := Task(Ready, [None], Regs(0, 0, 0, 0, 0, 0)),
                      3 := Task(Ready, [None], Regs(0, 0, 0, 0, 0, 0))]
    && k == PowerOn().(tasks := k.tasks, ready := [1, 2, 3])
  }

  lemma SpawnsThree()
    ensures ThreeTasks(Spawn(Spawn(Spawn(PowerOn()))))
  {
    var t := Task(Ready, [None], Regs(0, 0, 0, 0, 0, 0));
    var k1 := Spawn(PowerOn());
    assert k1 == PowerOn().(tasks := map[1 := t], ready := [1]);
    var k2 := Spawn(k1);
    assert k2.tasks == map[1 := t, 2 := t] && k2.ready == [1, 2];
    assert |k2.tasks.Keys| == 2 by {
      assert k2.tasks.Keys == {1, 2};
    }
    assert |k2.tasks| == |k2.tasks.Keys|;
    assert Spawn(k2).tasks == map[1 := t, 2 := t, 3 := t] && Spawn(k2).ready == [1, 2, 3];
  }

  /** The rest of the boot, step by step. */
  lemma GrantsRun(k: Kernel)
    ensures var k4 := BootStep(BootStep(BootStep(BootStep(k, Setup()[3]), Setup()[4]), Setup()[5]), Setup()[6]);
            Boot(k, Setup()[3..]) == BootStep(k4, Setup()[7])
    ensures var k1 := BootStep(k, Setup()[3]);
            var k2 := BootStep(k1, Setup()[4]);
            var k3 := BootStep(k2, Setup()[5]);
            var k4 := BootStep(k3, Setup()[6]);
            BootLegal(k, Setup()[3..]) <==> BootOk(k, Setup()[3]) && BootOk(k1, Setup()[4]) && BootOk(k2, Setup()[5])
                                            && BootOk(k3, Setup()[6]) && BootOk(k4, Setup()[7])
  {
    hide BootStep, BootOk, Boot, BootLegal;
    var k1 := BootStep(k, NewEndpoint(2));
    var k2 := BootStep(k1, Grant(2, Endpoint(0)));
    var k3 := BootStep(k2, Grant(2, IrqControl(3, 0)));
    BootOnce(BootStep(k3, Grant(2, IrqControl(4, 0))), Grant(3, Endpoint(0)));
    BootUnfold(k3, [Grant(3, Endpoint(0))], Grant(2, IrqControl(4, 0)));
    BootUnfold(k2, Setup()[6..], Grant(2, IrqControl(3, 0)));
    BootUnfold(k1, Setup()[5..], Grant(2, Endpoint(0)));
    BootUnfold(k, Setup()[4..], NewEndpoint(2));
    assert [Grant(2, IrqControl(4, 0))] + [Grant(3, Endpoint(0))] == Setup()[6..];
    assert [Grant(2, IrqControl(3, 0))] + Setup()[6..] == Setup()[5..];
    assert [Grant(2, Endpoint(0))] + Setup()[5..] == Setup()[4..];
    assert [NewEndpoint(2)] + Setup()[4..] == Setup()[3..];
  }

  /** Starting the booted system runs the idle task first. */
  lemma GrantsAll(k: Kernel)
    requires ThreeTasks(k)
    ensures BootLegal(k, Setup()[3..]) && 1 in Boot(k, Setup()[3..]).tasks
    ensures At(Switch(Boot(k, Setup()[3..])), 1, [2, 3], [], [], None)
  {
    hide Boot, BootLegal;
    GrantsRun(k);
    assert [1, 2, 3][1..] == [2, 3];
  }

  /** The system as it starts. */
  ghost function Started(): Kernel { Switch(Boot(PowerOn(), Setup())) }

  lemma Starts()
    ensures BootLegal(PowerOn(), Setup()) && 1 in Boot(PowerOn(), Setup()).tasks
    ensures At(Started(), 1, [2, 3], [], [], None)
  {
    hide ThreeTasks, At, Spawn, Boot, BootLegal, Switch, PowerOn;
    SpawnsThree();
    var k1 := Spawn(PowerOn());
    var k2 := Spawn(k1);
    GrantsAll(Spawn(k2));
    BootUnfold(k2, Setup()[3..], SpawnTask);
    BootUnfold(k1, [SpawnTask] + Setup()[3..], SpawnTask);
    BootUnfold(PowerOn(), [SpawnTask] + ([SpawnTask] + Setup()[3..]), SpawnTask);
    assert [SpawnTask] + ([SpawnTask] + ([SpawnTask] + Setup()[3..])) == Setup();
  }

  // ----- the steps -----

  lemma DriverRuns(k: Kernel)
    requires At(k, 1, [2, 3], [], [], None)
    ensures At(Step(k, Timer), 2, [3, 1], [], [], None)
  {
    assert ([2, 3] + [1])[1..] == [3, 1];
  }

  /** The driver registers line 3 or line 4, which it holds in slot 2 or 3. */
  lemma Registers(k: Kernel, slot: nat, l: nat)
    requires At(k, 2, [3, 1], [], [], None) && ((slot == 2 && l == 3) || (slot == 3 && l == 4))
    ensures At(Step(k, Call(6, slot)), 2, [3, 1], [], [], None) && Armed(Step(k, Call(6, slot)), l)
    ensures l == 4 && Armed(k, 3) ==> Armed(Step(k, Call(6, slot)), 3)
  {
  }

  /** The line fires while the driver is busy: the event is queued. */
  lemma QueuesLine(k: Kernel)
    requires At(k, 2, [3, 1], [], [], None) && Armed(k, 3)
    ensures At(Step(k, Line(3, 0)), 2, [3, 1], [], [IrqEvent(0, 3, 0)], None)
    ensures HandlerFor(Step(k, Line(3, 0)), 3) == Some(0) && Step(k, Line(3, 0)).masked[3]
  {
  }

  lemma ExitDrops(k: Kernel)
    requires At(k, 2, [3, 1], [], [IrqEvent(0, 3, 0)], None) && HandlerFor(k, 3) == Some(0) && k.masked[3]
    ensures Lost(Step(k, Call(0, 0)), 3)
  {
    hide Exit;
    var k1 := SetRegs(k, 2, Regs(0, 0, 0, 0, 0, 0));
    ExitIrq(k1);
    assert KeptEvents(k1.events, k1, 2) == [] by {
      assert Dead(k1, 0, 2);
    }
  }

  lemma DriverWaits(k: Kernel)
    requires At(k, 2, [3, 1], [], [], None)
    ensures var k' := Step(k, Call(3, 1));
            At(k', 3, [1], [PendingRecv(2, 0)], [], None) && k'.masked == k.masked && k'.handlers == k.handlers
  {
  }

  lemma HelperWaits(k: Kernel)
    requires At(k, 3, [1], [PendingRecv(2, 0)], [], None)
    ensures var k' := Step(k, Call(3, 1));
            && At(k', 1, [], [PendingRecv(2, 0), PendingRecv(3, 0)], [], None)
            && k'.masked == k.masked && k'.handlers == k.handlers
  {
  }

  /** Each line wakes one of the two, and the second overwrites the acknowledgement of the first. */
  lemma LineWakes(k: Kernel, l: nat, ready: seq<nat>, t: nat, recvs: seq<PendingRecv>, ack: Option<nat>)
    requires At(k, 1, ready, [PendingRecv(t, 0)] + recvs, [], ack) && Armed(k, l) && t in {2, 3}
    ensures var k' := Step(k, Line(l, 0));
            && At(k', 1, ready + [t], recvs, [], Some(l))
            && k'.masked == k.masked[l := true] && k'.handlers == k.handlers
  {
    assert Without(k.recvs, 0) == recvs;
  }

  // ----- the results -----

  lemma CanGo(k: Kernel, current: nat, ready: seq<nat>, recvs: seq<PendingRecv>, events: seq<IrqEvent>,
              ack: Option<nat>)
    requires At(k, current, ready, recvs, events, ack)
    ensures Enabled(k, 1, Timer)
    ensures current != 1 ==> forall eax, ebx :: Enabled(k, 1, Call(eax, ebx))
    ensures forall l | Forwarded(l) && Armed(k, l) :: Enabled(k, 1, Line(l, 0))
  {
  }

  lemma {:induction false} RunUnfold(k: Kernel, idle: nat, op: Op, ops: seq<Op>)
    ensures Run(k, [op] + ops) == Run(Step(k, op), ops)
    ensures Legal(k, idle, [op] + ops) <==> Enabled(k, idle, op) && Legal(Step(k, op), idle, ops)
  {
    assert ([op] + ops)[1..] == ops;
  }

  lemma {:induction false} RunLast(k: Kernel, idle: nat, op: Op)
    ensures Run(k, [op]) == Step(k, op) && (Legal(k, idle, [op]) <==> Enabled(k, idle, op))
  {
    assert [op][1..] == [];
  }

  lemma LostForGood(k: Kernel, idle: nat, l: nat)
    requires Lost(k, l) && Forwarded(l)
    ensures forall more | Legal(k, idle, more) && NeverReregisters(k, more, l) :: Mute(Run(k, more), l)
  {
    forall more | Legal(k, idle, more) && NeverReregisters(k, more, l) ensures Mute(Run(k, more), l) {
      MuteLasts(k, idle, more, l);
    }
  }

  /** The driver registers line 3 and exits after it fired. */
  function ExitRun(): seq<Op> { [Timer, Call(6, 2), Line(3, 0), Call(0, 0)] }

  /** The driver registers both lines; it and task 3 wait on the endpoint; both lines fire. */
  function WaitRun(): seq<Op> {
    [Timer, Call(6, 2), Call(6, 3), Call(3, 1), Call(3, 1), Line(3, 0), Line(4, 0)]
  }

  /** The driver registers line 3 again while an interrupt of it is queued. */
  function AgainRun(): seq<Op> { [Timer, Call(6, 2), Line(3, 0), Call(6, 2)] }

  /** Registering a line again while its interrupt is queued unmasks it: it may fire a second time
      before the first is received. */
  lemma RegisteredAgain()
    ensures BootLegal(PowerOn(), Setup()) && Legal(Started(), 1, AgainRun())
    ensures var k := Run(Started(), AgainRun());
            && !Lines(k) && Enabled(k, 1, Line(3, 0))
            && Events(Step(k, Line(3, 0)).events, 3) == [IrqEvent(0, 3, 0), IrqEvent(0, 3, 0)]
  {
    hide At, Armed, Step, Started, BootLegal, Boot, Setup, PowerOn, Call, Enabled, Run, Legal, Lines, Events;
    Starts();
    var k0 := Started();
    var k1 := Step(k0, Timer);
    var k2 := Step(k1, Call(6, 2));
    var k3 := Step(k2, Line(3, 0));
    DriverRuns(k0);
    Registers(k1, 2, 3);
    QueuesLine(k2);
    Unmasks(k3);
    CanGo(k0, 1, [2, 3], [], [], None);
    CanGo(k1, 2, [3, 1], [], [], None);
    CanGo(k2, 2, [3, 1], [], [], None);
    CanGo(k3, 2, [3, 1], [], [IrqEvent(0, 3, 0)], None);
    RunLast(k3, 1, Call(6, 2));
    RunUnfold(k2, 1, Line(3, 0), [Call(6, 2)]);
    RunUnfold(k1, 1, Call(6, 2), [Line(3, 0), Call(6, 2)]);
    RunUnfold(k0, 1, Timer, [Call(6, 2), Line(3, 0), Call(6, 2)]);
    assert [Line(3, 0)] + [Call(6, 2)] == [Line(3, 0), Call(6, 2)];
    assert [Call(6, 2)] + [Line(3, 0), Call(6, 2)] == [Call(6, 2), Line(3, 0), Call(6, 2)];
    assert [Timer] + [Call(6, 2), Line(3, 0), Call(6, 2)] == AgainRun();
  }

  lemma Unmasks(k: Kernel)
    requires At(k, 2, [3, 1], [], [IrqEvent(0, 3, 0)], None) && HandlerFor(k, 3) == Some(0)
    ensures var k' := Step(k, Call(6, 2));
            && !Lines(k') && Enabled(k', 1, Line(3, 0))
            && Events(Step(k', Line(3, 0)).events, 3) == [IrqEvent(0, 3, 0), IrqEvent(0, 3, 0)]
  {
    var k' := Step(k, Call(6, 2));
    var v := IrqEvent(0, 3, 0);
    assert k'.events == [v] && k'.recvs == [] && Armed(k', 3);
    EventsOne(v, 3);
    assert !LineOk(k', 3);
    assert Step(k', Line(3, 0)).events == [v] + [v];
    EventsConcat([v], [v], 3);
  }

  /** A driver that exits with its interrupt still queued takes the line with it, for good. */
  lemma ExitLosesALine()
    ensures BootLegal(PowerOn(), Setup()) && Legal(Started(), 1, ExitRun())
    ensures var k := Run(Started(), ExitRun());
            Lost(k, 3) && forall more | Legal(k, 1, more) && NeverReregisters(k, more, 3) :: Mute(Run(k, more), 3)
  {
    hide At, Armed, Lost, Mute, Step, Started, BootLegal, Boot, Setup, PowerOn, Call, Enabled, NeverReregisters, Run,
         Legal;
    Starts();
    var k0 := Started();
    var k1 := Step(k0, Timer);
    var k2 := Step(k1, Call(6, 2));
    var k3 := Step(k2, Line(3, 0));
    DriverRuns(k0);
    Registers(k1, 2, 3);
    QueuesLine(k2);
    ExitDrops(k3);
    LostForGood(Step(k3, Call(0, 0)), 1, 3);
    CanGo(k0, 1, [2, 3], [], [], None);
    CanGo(k1, 2, [3, 1], [], [], None);
    CanGo(k2, 2, [3, 1], [], [], None);
    CanGo(k3, 2, [3, 1], [], [IrqEvent(0, 3, 0)], None);
    RunLast(k3, 1, Call(0, 0));
    RunUnfold(k2, 1, Line(3, 0), [Call(0, 0)]);
    RunUnfold(k1, 1, Call(6, 2), [Line(3, 0), Call(0, 0)]);
    RunUnfold(k0, 1, Timer, [Call(6, 2), Line(3, 0), Call(0, 0)]);
    assert [Line(3, 0)] + [Call(0, 0)] == [Line(3, 0), Call(0, 0)];
    assert [Call(6, 2)] + [Line(3, 0), Call(0, 0)] == [Call(6, 2), Line(3, 0), Call(0, 0)];
    assert [Timer] + [Call(6, 2), Line(3, 0), Call(0, 0)] == ExitRun();
  }

  /** Two tasks waiting on one endpoint: the second line's acknowledgement overwrites the first's, and
      the first line stays masked, for good. */
  lemma TwoReceiversLoseALine()
    ensures BootLegal(PowerOn(), Setup()) && Legal(Started(), 1, WaitRun())
    ensures var k := Run(Started(), WaitRun());
            Lost(k, 3) && forall more | Legal(k, 1, more) && NeverReregisters(k, more, 3) :: Mute(Run(k, more), 3)
  {
    hide At, Armed, Lost, Mute, Step, Started, BootLegal, Boot, Setup, PowerOn, Call, Enabled, NeverReregisters, Run,
         Legal;
    Starts();
    var k0 := Started();
    var k2 := Step(Step(k0, Timer), Call(6, 2));
    var k3 := Step(k2, Call(6, 3));
    DriverRuns(k0);
    Registers(Step(k0, Timer), 2, 3);
    Registers(k2, 3, 4);
    CanGo(k0, 1, [2, 3], [], [], None);
    CanGo(Step(k0, Timer), 2, [3, 1], [], [], None);
    CanGo(k2, 2, [3, 1], [], [], None);
    BothWait(k3);
    var rest := WaitRun()[3..];
    LostForGood(Run(k3, rest), 1, 3);
    RunUnfold(k2, 1, Call(6, 3), rest);
    RunUnfold(Step(k0, Timer), 1, Call(6, 2), [Call(6, 3)] + rest);
    RunUnfold(k0, 1, Timer, [Call(6, 2)] + ([Call(6, 3)] + rest));
    assert [Timer] + ([Call(6, 2)] + ([Call(6, 3)] + rest)) == WaitRun();
  }

  lemma BothWait(k: Kernel)
    requires At(k, 2, [3, 1], [], [], None) && Armed(k, 3) && Armed(k, 4)
    ensures Legal(k, 1, WaitRun()[3..]) && Lost(Run(k, WaitRun()[3..]), 3)
  {
    hide At, Lost, Mute, Step, Enabled, Run, Legal;
    var k1 := Step(k, Call(3, 1));
    var k2 := Step(k1, Call(3, 1));
    DriverWaits(k);
    HelperWaits(k1);
    CanGo(k, 2, [3, 1], [], [], None);
    CanGo(k1, 3, [1], [PendingRecv(2, 0)], [], None);
    BothFire(k2);
    RunUnfold(k1, 1, Call(3, 1), [Line(3, 0), Line(4, 0)]);
    RunUnfold(k, 1, Call(3, 1), [Call(3, 1), Line(3, 0), Line(4, 0)]);
    assert [Call(3, 1)] + [Line(3, 0), Line(4, 0)] == [Call(3, 1), Line(3, 0), Line(4, 0)];
    assert [Call(3, 1)] + [Call(3, 1), Line(3, 0), Line(4, 0)] == WaitRun()[3..];
  }

  lemma BothFire(k: Kernel)
    requires At(k, 1, [], [PendingRecv(2, 0), PendingRecv(3, 0)], [], None) && Armed(k, 3) && Armed(k, 4)
    ensures Legal(k, 1, [Line(3, 0), Line(4, 0)]) && Lost(Run(k, [Line(3, 0), Line(4, 0)]), 3)
  {
    hide At, Lost, Mute, Step, Enabled, Run, Legal;
    var k1 := Step(k, Line(3, 0));
    assert [PendingRecv(2, 0)] + [PendingRecv(3, 0)] == [PendingRecv(2, 0), PendingRecv(3, 0)];
    LineWakes(k, 3, [], 2, [PendingRecv(3, 0)], None);
    CanGo(k, 1, [], [PendingRecv(2, 0), PendingRecv(3, 0)], [], None);
    assert [] + [2] == [2] && [PendingRecv(3, 0)] + [] == [PendingRecv(3, 0)];
    CanGo(k1, 1, [2], [PendingRecv(3, 0)], [], Some(3));
    LineWakes(k1, 4, [2], 3, [], Some(3));
    Overwritten(Step(k1, Line(4, 0)), [2] + [3]);
    RunLast(k1, 1, Line(4, 0));
    RunUnfold(k, 1, Line(3, 0), [Line(4, 0)]);
    assert [Line(3, 0)] + [Line(4, 0)] == [Line(3, 0), Line(4, 0)];
  }

  lemma Overwritten(k: Kernel, ready: seq<nat>)
    requires At(k, 1, ready, [], [], Some(4)) && k.masked[3] && HandlerFor(k, 3) == Some(0)
    ensures Lost(k, 3)
  {
  }
}
