/**
 The kernel's task, IPC, capability and interrupt tables, and its operations as atomic steps.
 System calls and interrupt handlers run with interrupts off on one core, so each is one step.
 A context switch is a change of `current`; a blocked task's saved registers are the `regs` of
 its entry, which whoever completes its rendezvous writes. `panicked` records that an `expect`
 in the scheduler failed.
 */
module KernelState {
  import opened Bytes

  const U32_MAX: nat := 0xFFFF_FFFF

  datatype TaskState = Ready | Running | Blocked | Zombie

  /** The registers a system call reads and answers in. */
  datatype Regs = Regs(eax: nat, ebx: nat, ecx: nat, edx: nat, esi: nat, edi: nat)

  /** `cspace` is the task's capability table: slot numbers index it, slot 0 is empty. */
  datatype Task = Task(state: TaskState, cspace: seq<Option<nat>>, regs: Regs)

  datatype CapKind =
    | Endpoint(id: nat)
    | MemoryGrant(physBase: nat, len: nat, writable: bool)
    | IrqControl(irq: nat, endpoint: nat)
    | RebootControl

  datatype CapNode = CapNode(kind: CapKind, badge: nat, children: seq<nat>, revoked: bool)

  datatype EndpointMeta = EndpointMeta(owner: nat, ack: Option<nat>)
  datatype PendingRecv = PendingRecv(task: nat, endpoint: nat)
  datatype PendingSend = PendingSend(task: nat, endpoint: nat, msg: (nat, nat, nat), transfer: Option<nat>)
  datatype IrqEvent = IrqEvent(endpoint: nat, irq: nat, data: nat)

  datatype Kernel = Kernel(
    tasks: map<nat, Task>, ready: seq<nat>, current: nat,
    endpoints: seq<EndpointMeta>, recvs: seq<PendingRecv>, sends: seq<PendingSend>, events: seq<IrqEvent>,
    nodes: seq<CapNode>, handlers: seq<Option<nat>>, masked: seq<bool>, nameService: Option<nat>,
    panicked: bool)

  function Panic(k: Kernel): Kernel { k.(panicked := true) }

  // ----- scheduler -----

  function SetState(k: Kernel, t: nat, s: TaskState): Kernel {
    if t in k.tasks then k.(tasks := k.tasks[t := k.tasks[t].(state := s)]) else Panic(k)
  }

  function SetRegs(k: Kernel, t: nat, r: Regs): Kernel {
    if t in k.tasks then k.(tasks := k.tasks[t := k.tasks[t].(regs := r)]) else Panic(k)
  }

  function SetEax(k: Kernel, t: nat, v: nat): Kernel {
    if t in k.tasks then SetRegs(k, t, k.tasks[t].regs.(eax := v)) else Panic(k)
  }

  /** Runs the task at the front of the ready queue. */
  function Switch(k: Kernel): Kernel {
    if k.ready == [] then Panic(k)
    else SetState(k, k.ready[0], Running).(ready := k.ready[1..], current := k.ready[0])
  }

  function Tick(k: Kernel): Kernel {
    if k.ready == [] then k
    else Switch(SetState(k.(ready := k.ready + [k.current]), k.current, Ready))
  }

  function BlockCurrent(k: Kernel): Kernel {
    Switch(SetState(k, k.current, Blocked))
  }

  function Wake(k: Kernel, t: nat): Kernel {
    SetState(k, t, Ready).(ready := k.ready + [t])
  }

  function NextSlot(k: Kernel, t: nat): nat {
    if t in k.tasks then |k.tasks[t].cspace| else 0
  }

  /** Appends `node` to task `t`'s capability table, in slot `NextSlot(k, t)`. */
  function Install(k: Kernel, t: nat, node: nat): Kernel {
    if t in k.tasks then k.(tasks := k.tasks[t := k.tasks[t].(cspace := k.tasks[t].cspace + [Some(node)])])
        else Panic(k)
  }

  function InstallIf(k: Kernel, t: nat, node: Option<nat>): Kernel {
    if node.Some? then Install(k, t, node.value) else k
  }

  function SlotIf(k: Kernel, t: nat, node: Option<nat>): nat {
    if node.Some? then NextSlot(k, t) else 0
  }

  // ----- capabilities -----

  function MintRoot(k: Kernel, kind: CapKind): Kernel {
    k.(nodes := k.nodes + [CapNode(kind, 0, [], false)])
  }

  function Resolve(nodes: seq<CapNode>, n: nat): Option<(CapKind, nat)> {
    if n < |nodes| && !nodes[n].revoked then Some((nodes[n].kind, nodes[n].badge)) else None
  }

  /** The new child is node `|k.nodes|`; nothing happens if the parent is unknown or revoked. */
  function MintDerived(k: Kernel, parent: nat, badge: nat): Kernel {
    if parent < |k.nodes| && !k.nodes[parent].revoked then
      k.(nodes := k.nodes[parent := k.nodes[parent].(children := k.nodes[parent].children + [|k.nodes|])]
                  + [CapNode(k.nodes[parent].kind, badge, [], false)])
    else k
  }

  /** `b` is `a` or derived from it through any number of derivations. */
  ghost predicate Derives(nodes: seq<CapNode>, a: nat, b: nat)
    decreases |nodes| - a
  {
    && a < |nodes|
    && (a == b || exists j | 0 <= j < |nodes[a].children| ::
       a < nodes[a].children[j] && Derives(nodes, nodes[a].children[j], b))
  }

  /** The node table after `root` and everything derived from it is revoked. */
  ghost function Revoked(nodes: seq<CapNode>, root: nat): (r: seq<CapNode>)
    ensures |r| == |nodes|
    ensures forall i | 0 <= i < |nodes| :: r[i] == nodes[i].(revoked := nodes[i].revoked || Derives(nodes, root, i))
  {
    seq(|nodes|, i requires 0 <= i < |nodes| => nodes[i].(revoked := nodes[i].revoked || Derives(nodes, root, i)))
  }

  /** The node a slot of the current task refers to. */
  function CurrentNode(k: Kernel, slot: nat): Option<nat> {
    if k.current in k.tasks && slot < |k.tasks[k.current].cspace| then k.tasks[k.current].cspace[slot] else None
  }

  function ResolveSlot(k: Kernel, slot: nat): Option<(CapKind, nat)> {
    match CurrentNode(k, slot)
    case None => None
    case Some(n) => Resolve(k.nodes, n)
  }

  // ----- rendezvous -----

  function FirstRecv(s: seq<PendingRecv>, e: nat): (i: nat)
    ensures i <= |s| && (i < |s| ==> s[i].endpoint == e) && forall j | 0 <= j < i :: s[j].endpoint != e
  {
    if s == [] || s[0].endpoint == e then 0 else 1 + FirstRecv(s[1..], e)
  }

  function FirstSend(s: seq<PendingSend>, e: nat): (i: nat)
    ensures i <= |s| && (i < |s| ==> s[i].endpoint == e) && forall j | 0 <= j < i :: s[j].endpoint != e
  {
    if s == [] || s[0].endpoint == e then 0 else 1 + FirstSend(s[1..], e)
  }

  function FirstEvent(s: seq<IrqEvent>, e: nat): (i: nat)
    ensures i <= |s| && (i < |s| ==> s[i].endpoint == e) && forall j | 0 <= j < i :: s[j].endpoint != e
  {
    if s == [] || s[0].endpoint == e then 0 else 1 + FirstEvent(s[1..], e)
  }

  function Without<T>(s: seq<T>, i: nat): (r: seq<T>)
    requires i < |s|
    ensures |r| == |s| - 1
  {
    s[..i] + s[i + 1..]
  }

  /** The message as a receiver finds it in its registers. */
  function Filled(r: Regs, m: PendingSend, slot: nat): Regs {
    r.(eax := m.task, ebx := m.msg.0, ecx := m.msg.1, edx := m.msg.2, edi := slot)
  }

  /** Hands message `m` to task `t`: capability installed, registers written. */
  function HandOver(k: Kernel, m: PendingSend, t: nat): Kernel {
    if t in k.tasks then
      var slot := SlotIf(k, t, m.transfer);
      var k1 := InstallIf(k, t, m.transfer);
      SetRegs(k1, t, Filled(k1.tasks[t].regs, m, slot))
    else Panic(k)
  }

  function Send(k: Kernel, m: PendingSend): Kernel {
    var pos := FirstRecv(k.recvs, m.endpoint);
    if pos < |k.recvs| then
      var t := k.recvs[pos].task;
      Wake(SetEax(HandOver(k.(recvs := Without(k.recvs, pos)), m, t), m.task, 0), t)
    else
      BlockCurrent(k.(sends := k.sends + [m]))
  }

  predicate CanDeliver(k: Kernel, e: nat) {
    FirstSend(k.sends, e) < |k.sends| || FirstEvent(k.events, e) < |k.events|
  }

  function SetAck(k: Kernel, e: nat, irq: nat): Kernel {
    if e < |k.endpoints| then k.(endpoints := k.endpoints[e := k.endpoints[e].(ack := Some(irq))]) else k
  }

  function Notified(r: Regs, v: IrqEvent): Regs {
    r.(eax := 0, ebx := v.irq, ecx := v.data, edx := 0)
  }

  /** The oldest pending send on `e`, else the oldest queued interrupt, given to the current task. */
  function Deliver(k: Kernel, e: nat): Kernel
    requires CanDeliver(k, e)
  {
    var pos := FirstSend(k.sends, e);
    if pos < |k.sends| then
      var m := k.sends[pos];
      Wake(SetEax(HandOver(k.(sends := Without(k.sends, pos)), m, k.current), m.task, 0), m.task)
    else
      var ev := FirstEvent(k.events, e);
      var v := k.events[ev];
      var k1 := SetAck(k.(events := Without(k.events, ev)), e, v.irq);
      if k1.current in k1.tasks then SetRegs(k1, k1.current, Notified(k1.tasks[k1.current].regs, v)) else Panic(k1)
  }

  function Unmask(k: Kernel, irq: nat): Kernel {
    if irq < |k.masked| then
      k.(masked := if irq >= 8 && 2 < |k.masked| then k.masked[irq := false][2 := false] else k.masked[irq := false])
    else k
  }

  /** Acknowledges the interrupt last delivered on `e`, if any: its line is unmasked. */
  function TakeAck(k: Kernel, e: nat): Kernel {
    if e < |k.endpoints| && k.endpoints[e].ack.Some? then
      Unmask(k.(endpoints := k.endpoints[e := k.endpoints[e].(ack := None)]), k.endpoints[e].ack.value)
    else k
  }

  function Recv(k: Kernel, e: nat): Kernel {
    var k1 := TakeAck(k, e);
    if CanDeliver(k1, e) then Deliver(k1, e)
    else BlockCurrent(k1.(recvs := k1.recvs + [PendingRecv(k1.current, e)]))
  }

  function TryRecv(k: Kernel, e: nat): Kernel {
    var k1 := TakeAck(k, e);
    if CanDeliver(k1, e) then Deliver(k1, e) else SetEax(k1, k1.current, U32_MAX)
  }

  // ----- interrupts -----

  function Notify(k: Kernel, v: IrqEvent): Kernel {
    var pos := FirstRecv(k.recvs, v.endpoint);
    if pos < |k.recvs| then
      var t := k.recvs[pos].task;
      var k1 := SetAck(k.(recvs := Without(k.recvs, pos)), v.endpoint, v.irq);
      if t in k1.tasks then Wake(SetRegs(k1, t, Notified(k1.tasks[t].regs, v)), t) else Panic(k1)
    else
      k.(events := k.events + [v])
  }

  function HandlerFor(k: Kernel, irq: nat): Option<nat> {
    if irq < |k.handlers| then k.handlers[irq] else None
  }

  /** Lines 2 to 15: masked until the driver's next receive, then forwarded. */
  function Dispatch(k: Kernel, irq: nat, data: nat): Kernel {
    match HandlerFor(k, irq)
    case None => k
    case Some(e) => Notify(if irq < |k.masked| then k.(masked := k.masked[irq := true]) else k, IrqEvent(e, irq, data))
  }

  /** Line 1, the keyboard: forwarded without masking. */
  function Keyboard(k: Kernel, scancode: nat): Kernel {
    match HandlerFor(k, 1)
    case None => k
    case Some(e) => Notify(k, IrqEvent(e, 1, scancode))
  }

  function RegisterIrq(k: Kernel, irq: nat, e: nat): Kernel {
    if irq < |k.handlers| then Unmask(k.(handlers := k.handlers[irq := Some(e)]), irq) else k
  }

  // ----- exit -----

  predicate Dead(k: Kernel, e: nat, owner: nat) {
    e < |k.endpoints| && k.endpoints[e].owner == owner
  }

  /** Wakes, with a failure, everyone in `ts`, in order. */
  function FailAll(k: Kernel, ts: seq<nat>): Kernel
    decreases |ts|
  {
    if ts == [] then k else FailAll(Wake(SetEax(k, ts[0], U32_MAX), ts[0]), ts[1..])
  }

  function KeptRecvs(s: seq<PendingRecv>, k: Kernel, owner: nat): seq<PendingRecv> {
    if s == [] then [] else (if Dead(k, s[0].endpoint, owner) then [] else [s[0]]) + KeptRecvs(s[1..], k, owner)
  }

  function FailedRecvs(s: seq<PendingRecv>, k: Kernel, owner: nat): seq<nat> {
    if s == [] then [] else (if Dead(k, s[0].endpoint, owner) then [s[0].task] else []) + FailedRecvs(s[1..], k, owner)
  }

  function KeptSends(s: seq<PendingSend>, k: Kernel, owner: nat): seq<PendingSend> {
    if s == [] then [] else (if Dead(k, s[0].endpoint, owner) then [] else [s[0]]) + KeptSends(s[1..], k, owner)
  }

  function FailedSends(s: seq<PendingSend>, k: Kernel, owner: nat): seq<nat> {
    if s == [] then [] else (if Dead(k, s[0].endpoint, owner) then [s[0].task] else []) + FailedSends(s[1..], k, owner)
  }

  function KeptEvents(s: seq<IrqEvent>, k: Kernel, owner: nat): seq<IrqEvent> {
    if s == [] then [] else (if Dead(k, s[0].endpoint, owner) then [] else [s[0]]) + KeptEvents(s[1..], k, owner)
  }

  /** Retires the endpoints of the task that exited: first the receivers fail, then the senders. */
  function TaskExited(k: Kernel, owner: nat): Kernel {
    var k1 := FailAll(k.(recvs := KeptRecvs(k.recvs, k, owner)), FailedRecvs(k.recvs, k, owner));
    var k2 := FailAll(k1.(sends := KeptSends(k1.sends, k, owner)), FailedSends(k1.sends, k, owner));
    k2.(events := KeptEvents(k2.events, k, owner))
  }

  function Exit(k: Kernel): Kernel {
    TaskExited(Switch(SetState(k, k.current, Zombie)), k.current)
  }

  // ----- system calls -----

  /** A new task joins the rotation; every task gets a capability to the name service first. */
  function Spawn(k: Kernel): Kernel {
    var t := NewTaskId(k);
    var k1 := k.(tasks := k.tasks[t := Task(Ready, [None], Regs(0, 0, 0, 0, 0, 0))], ready := k.ready + [t]);
    match k.nameService
    case None => k1
    case Some(e) => Install(MintRoot(k1, Endpoint(e)), t, |k1.nodes|)
  }

  /** Ids are handed out counting up from 1. */
  function NewTaskId(k: Kernel): nat { |k.tasks| + 1 }

  /** What the loader and the frame allocator answer, decided outside this state. */
  datatype World = World(loads: bool, phys: nat, mapOk: bool)

  function SysSend(k: Kernel, r: Regs): Kernel {
    match ResolveSlot(k, r.ebx)
    case Some((Endpoint(e), _)) =>
      var msg := (r.ecx, r.edx, r.esi);
      var src := CurrentNode(k, r.edi);
      if r.edi != 0 && src.Some? && Resolve(k.nodes, src.value).Some? then
        Send(MintDerived(k, src.value, Resolve(k.nodes, src.value).value.1),
             PendingSend(k.current, e, msg, Some(|k.nodes|)))
      else
        Send(k, PendingSend(k.current, e, msg, None))
    case _ => SetEax(k, k.current, U32_MAX)
  }

  function SysEndpointCreate(k: Kernel): Kernel {
    var k1 := MintRoot(k.(endpoints := k.endpoints + [EndpointMeta(k.current, None)]), Endpoint(|k.endpoints|));
    SetEax(Install(k1, k.current, |k.nodes|), k.current, NextSlot(k, k.current))
  }

  function SysMintBadged(k: Kernel, r: Regs): Kernel {
    var src := CurrentNode(k, r.ebx);
    if src.Some? && Resolve(k.nodes, src.value).Some? then
      SetEax(Install(MintDerived(k, src.value, r.ecx), k.current, |k.nodes|), k.current, NextSlot(k, k.current))
    else SetEax(k, k.current, U32_MAX)
  }

  ghost function SysRevoke(k: Kernel, r: Regs): Kernel {
    var n := CurrentNode(k, r.ebx);
    SetEax(if n.Some? then k.(nodes := Revoked(k.nodes, n.value)) else k, k.current, 0)
  }

  function SysRegisterIrq(k: Kernel, r: Regs): Kernel {
    match ResolveSlot(k, r.ebx)
    case Some((IrqControl(irq, e), _)) =>
      if irq < |k.handlers| then SetEax(RegisterIrq(k, irq, e), k.current, 0) else SetEax(k, k.current, U32_MAX)
    case _ => SetEax(k, k.current, U32_MAX)
  }

  function SysMemAlloc(k: Kernel, r: Regs, w: World): Kernel {
    if w.loads then
      var k1 := MintRoot(k, MemoryGrant(w.phys, 4096 * (if r.ecx == 0 then 1 else r.ecx), true));
      SetRegs(Install(k1, k.current, |k.nodes|), k.current, r.(eax := NextSlot(k, k.current), ecx := w.phys))
    else SetRegs(k, k.current, r.(eax := 0, ecx := 0))
  }

  function SysRecv(k: Kernel, r: Regs): Kernel {
    match ResolveSlot(k, r.ebx)
    case Some((Endpoint(e), _)) => Recv(k, e)
    case _ => SetEax(k, k.current, U32_MAX)
  }

  function SysTryRecv(k: Kernel, r: Regs): Kernel {
    match ResolveSlot(k, r.ebx)
    case Some((Endpoint(e), _)) => TryRecv(k, e)
    case _ => SetEax(k, k.current, U32_MAX - 1)
  }

  function SysMapMemory(k: Kernel, r: Regs, w: World): Kernel {
    match ResolveSlot(k, r.ebx)
    case Some((MemoryGrant(_, _, _), _)) => SetEax(k, k.current, if w.mapOk then 0 else U32_MAX)
    case _ => SetEax(k, k.current, U32_MAX)
  }

  function SysSpawn(k: Kernel, w: World): Kernel {
    if w.loads then SetEax(Spawn(k), k.current, NewTaskId(k)) else SetEax(k, k.current, 0)
  }

  ghost function Serve(k: Kernel, r: Regs, w: World): Kernel {
    match r.eax
    case 0 => Exit(k)
    case 1 => Tick(SetEax(k, k.current, 0))
    case 2 => SysSend(k, r)
    case 3 => SysRecv(k, r)
    case 4 => SetEax(k, k.current, k.current)
    case 6 => SysRegisterIrq(k, r)
    case 7 => SysMapMemory(k, r, w)
    case 8 => SysSpawn(k, w)
    case 9 => SysEndpointCreate(k)
    case 10 => SysMintBadged(k, r)
    case 11 => SysRevoke(k, r)
    case 12 => SysMemAlloc(k, r, w)
    case 13 => SysSpawn(k, w)
    case 15 => SysTryRecv(k, r)
    case _ => SetEax(k, k.current, U32_MAX)
  }

  /** A trap with registers `r`: they become the task's saved registers, and `eax` selects. */
  ghost function Syscall(k: Kernel, r: Regs, w: World): Kernel {
    Serve(SetRegs(k, k.current, r), r, w)
  }

  // ----- runs -----

  datatype Op = Timer | Trap(regs: Regs, world: World) | Line(irq: nat, data: nat) | Key(scancode: nat)

  ghost function Step(k: Kernel, op: Op): Kernel {
    match op
    case Timer => Tick(k)
    case Trap(r, w) => Syscall(k, r, w)
    case Line(irq, data) => Dispatch(k, irq, data)
    case Key(c) => Keyboard(k, c)
  }

  /** The idle task never traps; the interrupt controller raises only unmasked lines, and routes
      lines 2 to 15 to the generic handler. */
  predicate Enabled(k: Kernel, idle: nat, op: Op) {
    match op
    case Timer => true
    case Trap(_, _) => k.current != idle
    case Line(irq, _) => 2 <= irq < 16 && irq < |k.masked| && !k.masked[irq]
    case Key(_) => true
  }

  ghost function Run(k: Kernel, ops: seq<Op>): Kernel
    decreases |ops|
  {
    if ops == [] then k else Run(Step(k, ops[0]), ops[1..])
  }

  ghost predicate Legal(k: Kernel, idle: nat, ops: seq<Op>)
    decreases |ops|
  {
    ops == [] || (Enabled(k, idle, ops[0]) && Legal(Step(k, ops[0]), idle, ops[1..]))
  }
}
