/**
 The kernel as it runs: tables updated in place, searches and filters as loops. Every entry point
 is proved to take exactly the step of `KernelState`, so what runs keep there holds here.
 */
module KernelMachine {
  import opened Bytes
  import opened KernelState
  import opened KernelSched
  import opened KernelCaps

  class Machine {
    const caps: CapTable
    var tasks: map<nat, Task>
    var ready: seq<nat>
    var current: nat
    var endpoints: seq<EndpointMeta>
    var recvs: seq<PendingRecv>
    var sends: seq<PendingSend>
    var events: seq<IrqEvent>
    var handlers: seq<Option<nat>>
    var masked: seq<bool>
    var nameService: Option<nat>
    var panicked: bool

    ghost function State(): Kernel
      reads this, caps
    {
      Kernel(tasks, ready, current, endpoints, recvs, sends, events, caps.nodes, handlers, masked, nameService,
          panicked)
    }

    constructor (caps: CapTable)
      ensures this.caps == caps && tasks == map[] && ready == [] && endpoints == [] && recvs == [] && sends == []
      ensures events == [] && |handlers| == 16 && |masked| == 16 && !panicked
    {
      this.caps := caps;
      tasks, ready, current := map[], [], 0;
      endpoints, recvs, sends, events := [], [], [], [];
      handlers, masked := seq(16, i => None), seq(16, i => i > 1);
      nameService, panicked := None, false;
    }

    // ----- scheduler -----

    method MarkState(t: nat, s: TaskState)
      modifies this
      ensures State() == SetState(old(State()), t, s)
    {
      if t in tasks {
        tasks := tasks[t := tasks[t].(state := s)];
      } else {
        panicked := true;
      }
    }

    method WriteRegs(t: nat, r: Regs)
      modifies this
      ensures State() == SetRegs(old(State()), t, r)
    {
      if t in tasks {
        tasks := tasks[t := tasks[t].(regs := r)];
      } else {
        panicked := true;
      }
    }

    method WriteEax(t: nat, v: nat)
      modifies this
      ensures State() == SetEax(old(State()), t, v)
    {
      if t in tasks {
        WriteRegs(t, tasks[t].regs.(eax := v));
      } else {
        panicked := true;
      }
    }

    method RunNext()
      modifies this
      ensures State() == Switch(old(State()))
    {
      if ready == [] {
        panicked := true;
      } else {
        var next := ready[0];
        MarkState(next, Running);
        ready := ready[1..];
        current := next;
      }
    }

    method Preempt()
      modifies this
      ensures State() == Tick(old(State()))
    {
      if ready != [] {
        ready := ready + [current];
        MarkState(current, Ready);
        RunNext();
      }
    }

    method BlockCurrentTask()
      modifies this
      ensures State() == BlockCurrent(old(State()))
    {
      MarkState(current, Blocked);
      RunNext();
    }

    method WakeTask(t: nat)
      modifies this
      ensures State() == Wake(old(State()), t)
    {
      MarkState(t, Ready);
      ready := ready + [t];
    }

    method InstallCap(t: nat, node: nat) returns (slot: nat)
      modifies this
      ensures State() == Install(old(State()), t, node) && slot == NextSlot(old(State()), t)
    {
      slot := 0;
      if t in tasks {
        slot := |tasks[t].cspace|;
        tasks := tasks[t := tasks[t].(cspace := tasks[t].cspace + [Some(node)])];
      } else {
        panicked := true;
      }
    }

    // ----- rendezvous -----

    method FindRecv(e: nat) returns (pos: nat)
      ensures pos == FirstRecv(recvs, e)
    {
      pos := 0;
      while pos < |recvs| && recvs[pos].endpoint != e
        invariant pos <= |recvs| && forall j | 0 <= j < pos :: recvs[j].endpoint != e
      {
        pos := pos + 1;
      }
    }

    method FindSend(e: nat) returns (pos: nat)
      ensures pos == FirstSend(sends, e)
    {
      pos := 0;
      while pos < |sends| && sends[pos].endpoint != e
        invariant pos <= |sends| && forall j | 0 <= j < pos :: sends[j].endpoint != e
      {
        pos := pos + 1;
      }
    }

    method FindEvent(e: nat) returns (pos: nat)
      ensures pos == FirstEvent(events, e)
    {
      pos := 0;
      while pos < |events| && events[pos].endpoint != e
        invariant pos <= |events| && forall j | 0 <= j < pos :: events[j].endpoint != e
      {
        pos := pos + 1;
      }
    }

    /** Gives `m` to task `t`: a transferred capability first, then the registers. */
    method Give(m: PendingSend, t: nat)
      modifies this
      ensures State() == HandOver(old(State()), m, t)
    {
      if t in tasks {
        var slot := 0;
        if m.transfer.Some? {
          slot := InstallCap(t, m.transfer.value);
        }
        WriteRegs(t, Filled(tasks[t].regs, m, slot));
      } else {
        panicked := true;
      }
    }

    method SendMessage(m: PendingSend)
      modifies this
      ensures State() == Send(old(State()), m)
    {
      hide HandOver, SetEax, Wake, BlockCurrent;
      var pos := FindRecv(m.endpoint);
      if pos < |recvs| {
        var t := recvs[pos].task;
        recvs := recvs[..pos] + recvs[pos + 1..];
        Give(m, t);
        WriteEax(m.task, 0);
        WakeTask(t);
      } else {
        sends := sends + [m];
        BlockCurrentTask();
      }
    }

    method OweAck(e: nat, irq: nat)
      modifies this
      ensures State() == SetAck(old(State()), e, irq)
    {
      if e < |endpoints| {
        endpoints := endpoints[e := endpoints[e].(ack := Some(irq))];
      }
    }

    method TryDeliver(e: nat) returns (ok: bool)
      modifies this
      ensures ok == CanDeliver(old(State()), e)
      ensures State() == if ok then Deliver(old(State()), e) else old(State())
    {
      hide HandOver, SetEax, Wake, SetAck, SetRegs;
      var pos := FindSend(e);
      ok := true;
      if pos < |sends| {
        var m := sends[pos];
        sends := sends[..pos] + sends[pos + 1..];
        Give(m, current);
        WriteEax(m.task, 0);
        WakeTask(m.task);
      } else {
        var ev := FindEvent(e);
        if ev < |events| {
          var v := events[ev];
          events := events[..ev] + events[ev + 1..];
          OweAck(e, v.irq);
          if current in tasks {
            WriteRegs(current, Notified(tasks[current].regs, v));
          } else {
            panicked := true;
          }
        } else {
          ok := false;
        }
      }
    }

    method UnmaskLine(irq: nat)
      modifies this
      ensures State() == Unmask(old(State()), irq)
    {
      if irq < |masked| {
        masked := masked[irq := false];
        if irq >= 8 && 2 < |masked| {
          masked := masked[2 := false];
        }
      }
    }

    /** Takes the acknowledgement owed on `e`, if any, and unmasks its line. */
    method Acknowledge(e: nat)
      modifies this
      ensures State() == TakeAck(old(State()), e)
    {
      if e < |endpoints| && endpoints[e].ack.Some? {
        var irq := endpoints[e].ack.value;
        endpoints := endpoints[e := endpoints[e].(ack := None)];
        UnmaskLine(irq);
      }
    }

    method Receive(e: nat)
      modifies this
      ensures State() == Recv(old(State()), e)
    {
      Acknowledge(e);
      var ok := TryDeliver(e);
      if !ok {
        recvs := recvs + [PendingRecv(current, e)];
        BlockCurrentTask();
      }
    }

    method TryReceive(e: nat)
      modifies this
      ensures State() == TryRecv(old(State()), e)
    {
      Acknowledge(e);
      var ok := TryDeliver(e);
      if !ok {
        WriteEax(current, U32_MAX);
      }
    }

    method NotifyInterrupt(v: IrqEvent)
      modifies this
      ensures State() == Notify(old(State()), v)
    {
      var pos := FindRecv(v.endpoint);
      if pos < |recvs| {
        var t := recvs[pos].task;
        recvs := recvs[..pos] + recvs[pos + 1..];
        OweAck(v.endpoint, v.irq);
        if t in tasks {
          WriteRegs(t, Notified(tasks[t].regs, v));
          WakeTask(t);
        } else {
          panicked := true;
        }
      } else {
        events := events + [v];
      }
    }

    // ----- interrupts -----

    method Register(irq: nat, e: nat) returns (ok: bool)
      modifies this
      ensures ok == (irq < |old(handlers)|)
      ensures State() == RegisterIrq(old(State()), irq, e)
    {
      ok := irq < |handlers|;
      if ok {
        handlers := handlers[irq := Some(e)];
        UnmaskLine(irq);
      }
    }

    method DispatchLine(irq: nat, data: nat)
      modifies this
      ensures State() == Dispatch(old(State()), irq, data)
    {
      if irq < |handlers| && handlers[irq].Some? {
        var e := handlers[irq].value;
        if irq < |masked| {
          masked := masked[irq := true];
        }
        NotifyInterrupt(IrqEvent(e, irq, data));
      }
    }

    method KeyboardLine(scancode: nat)
      modifies this
      ensures State() == Keyboard(old(State()), scancode)
    {
      if 1 < |handlers| && handlers[1].Some? {
        NotifyInterrupt(IrqEvent(handlers[1].value, 1, scancode));
      }
    }

    // ----- exit -----

    method EndpointsOf(owner: nat) returns (dead: seq<nat>)
      ensures forall e: nat :: e in dead <==> Dead(State(), e, owner)
    {
      dead := [];
      var i := 0;
      while i < |endpoints|
        invariant i <= |endpoints| && forall e: nat :: e in dead <==> e < i && Dead(State(), e, owner)
      {
        if endpoints[i].owner == owner {
          dead := dead + [i];
        }
        i := i + 1;
      }
    }

    method RetireRecvs(owner: nat, dead: seq<nat>)
      requires forall e: nat :: e in dead <==> Dead(State(), e, owner)
      modifies this
      ensures var k := old(State());
              State() == FailAll(k.(recvs := KeptRecvs(k.recvs, k, owner)), FailedRecvs(k.recvs, k, owner))
    {
      ghost var k := State();
      var kept: seq<PendingRecv>, i := [], 0;
      while i < |recvs|
        invariant recvs == k.recvs && i <= |recvs| && State() == FailAll(k, FailedRecvs(k.recvs[..i], k, owner))
        invariant kept == KeptRecvs(k.recvs[..i], k, owner)
      {
        hide FailAll, Dead, Wake, SetEax;
        var q := recvs[i];
        RecvsSnoc(k.recvs, i, k, owner);
        if q.endpoint in dead {
          FailAllSnoc(k, FailedRecvs(k.recvs[..i], k, owner), q.task);
          WriteEax(q.task, U32_MAX);
          WakeTask(q.task);
          FailAllTables(k, FailedRecvs(k.recvs[..i + 1], k, owner), [], []);
        } else {
          assert FailedRecvs(k.recvs[..i + 1], k, owner) == FailedRecvs(k.recvs[..i], k, owner);
          kept := kept + [q];
        }
        i := i + 1;
      }
      hide FailAll, KeptRecvs, FailedRecvs;
      assert k.recvs[..i] == k.recvs;
      recvs := kept;
      FailAllTables(k, FailedRecvs(k.recvs, k, owner), kept, k.sends);
      assert k.(recvs := kept, sends := k.sends) == k.(recvs := kept);
    }

    method RetireSends(owner: nat, dead: seq<nat>, ghost at: Kernel)
      requires at.endpoints == endpoints && forall e: nat :: e in dead <==> Dead(at, e, owner)
      modifies this
      ensures var k := old(State());
              State() == FailAll(k.(sends := KeptSends(k.sends, at, owner)), FailedSends(k.sends, at, owner))
    {
      ghost var k := State();
      var kept: seq<PendingSend>, i := [], 0;
      while i < |sends|
        invariant sends == k.sends && i <= |sends| && State() == FailAll(k, FailedSends(k.sends[..i], at, owner))
        invariant kept == KeptSends(k.sends[..i], at, owner)
      {
        hide FailAll, Dead, Wake, SetEax;
        var q := sends[i];
        SendsSnoc(k.sends, i, at, owner);
        if q.endpoint in dead {
          FailAllSnoc(k, FailedSends(k.sends[..i], at, owner), q.task);
          WriteEax(q.task, U32_MAX);
          WakeTask(q.task);
          FailAllTables(k, FailedSends(k.sends[..i + 1], at, owner), [], []);
        } else {
          assert FailedSends(k.sends[..i + 1], at, owner) == FailedSends(k.sends[..i], at, owner);
          kept := kept + [q];
        }
        i := i + 1;
      }
      hide FailAll, KeptSends, FailedSends;
      assert k.sends[..i] == k.sends;
      sends := kept;
      FailAllTables(k, FailedSends(k.sends, at, owner), k.recvs, kept);
      assert k.(recvs := k.recvs, sends := kept) == k.(sends := kept);
    }

    method RetireEvents(owner: nat, dead: seq<nat>, ghost at: Kernel)
      requires forall e: nat :: e in dead <==> Dead(at, e, owner)
      modifies this`events
      ensures events == KeptEvents(old(events), at, owner)
    {
      var kept: seq<IrqEvent>, i := [], 0;
      while i < |events|
        invariant events == old(events) && i <= |events| && kept == KeptEvents(events[..i], at, owner)
      {
        EventsSnoc(events, i, at, owner);
        if events[i].endpoint !in dead {
          kept := kept + [events[i]];
        }
        i := i + 1;
      }
      assert events[..i] == events;
      events := kept;
    }

    /** Retires the endpoints of a task that left: its receivers fail, then its senders, then its
        queued interrupts are dropped. */
    method RetireTask(owner: nat)
      modifies this
      ensures State() == TaskExited(old(State()), owner)
    {
      hide FailAll, KeptRecvs, FailedRecvs, KeptSends, FailedSends, KeptEvents, Dead;
      ghost var k := State();
      var dead := EndpointsOf(owner);
      RetireRecvs(owner, dead);
      FailAllTables(k.(recvs := KeptRecvs(k.recvs, k, owner)), FailedRecvs(k.recvs, k, owner), [], []);
      RetireSends(owner, dead, k);
      RetireEvents(owner, dead, k);
    }

    method ExitCurrent()
      modifies this
      ensures State() == Exit(old(State()))
    {
      hide TaskExited;
      var id := current;
      MarkState(id, Zombie);
      RunNext();
      RetireTask(id);
    }

    // ----- system calls -----

    /** Boots a task into the rotation with its capability to the name service. */
    method SpawnTask() returns (id: nat)
      requires CapsOk(caps.nodes)
      modifies this, caps
      ensures State() == Spawn(old(State())) && id == NewTaskId(old(State())) && CapsOk(caps.nodes)
    {
      id := |tasks| + 1;
      ready := ready + [id];
      tasks := tasks[id := Task(Ready, [None], Regs(0, 0, 0, 0, 0, 0))];
      if nameService.Some? {
        var node := caps.MintRoot(Endpoint(nameService.value));
        var slot := InstallCap(id, node);
      }
    }

    method NodeAt(slot: nat) returns (n: Option<nat>)
      ensures n == CurrentNode(State(), slot)
    {
      n := None;
      if current in tasks && slot < |tasks[current].cspace| {
        n := tasks[current].cspace[slot];
      }
    }

    method ResolveAt(slot: nat) returns (r: Option<(CapKind, nat)>)
      ensures r == ResolveSlot(State(), slot)
    {
      var n := NodeAt(slot);
      r := None;
      if n.Some? {
        r := caps.Lookup(n.value);
      }
    }

    /** The capability to travel with a message, freshly derived from slot `slot`. */
    method Transfer(slot: nat) returns (t: Option<nat>)
      requires CapsOk(caps.nodes)
      modifies caps
      ensures CapsOk(caps.nodes)
      ensures var k, src := old(State()), CurrentNode(old(State()), slot);
              if slot != 0 && src.Some? && Resolve(k.nodes, src.value).Some?
              then t == Some(|k.nodes|) && State() == MintDerived(k, src.value, Resolve(k.nodes, src.value).value.1)
              else t == None && State() == k
    {
      t := None;
      if slot != 0 {
        var src := NodeAt(slot);
        if src.Some? {
          var r := caps.Lookup(src.value);
          if r.Some? {
            t := caps.MintDerived(src.value, r.value.1);
          }
        }
      }
    }

    method TrapSend(r: Regs)
      requires CapsOk(caps.nodes)
      modifies this, caps
      ensures State() == SysSend(old(State()), r) && CapsOk(caps.nodes)
    {
      hide Send, SetEax;
      var cap := ResolveAt(r.ebx);
      if cap.Some? && cap.value.0.Endpoint? {
        var transfer := Transfer(r.edi);
        SendMessage(PendingSend(current, cap.value.0.id, (r.ecx, r.edx, r.esi), transfer));
      } else {
        WriteEax(current, U32_MAX);
      }
    }

    method TrapRecv(r: Regs)
      modifies this
      ensures State() == SysRecv(old(State()), r)
    {
      hide Recv, SetEax;
      var cap := ResolveAt(r.ebx);
      if cap.Some? && cap.value.0.Endpoint? {
        Receive(cap.value.0.id);
      } else {
        WriteEax(current, U32_MAX);
      }
    }

    method TrapTryRecv(r: Regs)
      modifies this
      ensures State() == SysTryRecv(old(State()), r)
    {
      hide TryRecv, SetEax;
      var cap := ResolveAt(r.ebx);
      if cap.Some? && cap.value.0.Endpoint? {
        TryReceive(cap.value.0.id);
      } else {
        WriteEax(current, U32_MAX - 1);
      }
    }

    method TrapRegister(r: Regs)
      modifies this
      ensures State() == SysRegisterIrq(old(State()), r)
    {
      hide RegisterIrq, SetEax;
      var cap := ResolveAt(r.ebx);
      var ok := false;
      if cap.Some? && cap.value.0.IrqControl? {
        ok := Register(cap.value.0.irq, cap.value.0.endpoint);
        hide ResolveSlot;
        RegisterMisses(old(State()), cap.value.0.irq, cap.value.0.endpoint);
        assert (!ok ==> State() == old(State())) && current == old(current);
      }
      WriteEax(current, if ok then 0 else U32_MAX);
    }

    method TrapMap(r: Regs, w: World)
      modifies this
      ensures State() == SysMapMemory(old(State()), r, w)
    {
      hide SetEax;
      var cap := ResolveAt(r.ebx);
      WriteEax(current, if cap.Some? && cap.value.0.MemoryGrant? && w.mapOk then 0 else U32_MAX);
    }

    method TrapSpawn(w: World)
      requires CapsOk(caps.nodes)
      modifies this, caps
      ensures State() == SysSpawn(old(State()), w) && CapsOk(caps.nodes)
    {
      hide SetEax;
      var id := 0;
      if w.loads {
        id := SpawnTask();
      }
      WriteEax(current, id);
    }

    method TrapEndpointCreate()
      requires CapsOk(caps.nodes)
      modifies this, caps
      ensures State() == SysEndpointCreate(old(State())) && CapsOk(caps.nodes)
    {
      hide SetEax;
      var e := |endpoints|;
      endpoints := endpoints + [EndpointMeta(current, None)];
      var node := caps.MintRoot(Endpoint(e));
      var slot := InstallCap(current, node);
      WriteEax(current, slot);
    }

    method TrapMintBadged(r: Regs)
      requires CapsOk(caps.nodes)
      modifies this, caps
      ensures State() == SysMintBadged(old(State()), r) && CapsOk(caps.nodes)
    {
      hide SetEax;
      var src := NodeAt(r.ebx);
      var node: Option<nat> := None;
      if src.Some? {
        node := caps.MintDerived(src.value, r.ecx);
      }
      if node.Some? {
        var slot := InstallCap(current, node.value);
        WriteEax(current, slot);
      } else {
        WriteEax(current, U32_MAX);
      }
    }

    method TrapRevoke(r: Regs)
      requires CapsOk(caps.nodes)
      modifies this, caps
      ensures State() == SysRevoke(old(State()), r) && CapsOk(caps.nodes)
    {
      hide SetEax, Revoked;
      var n := NodeAt(r.ebx);
      if n.Some? {
        caps.Revoke(n.value);
      }
      WriteEax(current, 0);
    }

    method TrapMemAlloc(r: Regs, w: World)
      requires CapsOk(caps.nodes)
      modifies this, caps
      ensures State() == SysMemAlloc(old(State()), r, w) && CapsOk(caps.nodes)
    {
      hide SetRegs;
      if w.loads {
        var node := caps.MintRoot(MemoryGrant(w.phys, 4096 * (if r.ecx == 0 then 1 else r.ecx), true));
        var slot := InstallCap(current, node);
        WriteRegs(current, r.(eax := slot, ecx := w.phys));
      } else {
        WriteRegs(current, r.(eax := 0, ecx := 0));
      }
    }

    method TrapYield()
      modifies this
      ensures State() == Tick(SetEax(old(State()), old(current), 0))
    {
      WriteEax(current, 0);
      Preempt();
    }

    /** The system call entry: `r` are the registers the current task trapped with. */
    method SyscallDispatch(r: Regs, w: World)
      requires CapsOk(caps.nodes)
      modifies this, caps
      ensures State() == Syscall(old(State()), r, w) && CapsOk(caps.nodes)
    {
      hide Exit, SysSend, SysRegisterIrq, SysRevoke, SysRecv, SysTryRecv, SysSpawn, SysMapMemory, SysEndpointCreate,
           SysMintBadged, SysMemAlloc, Tick, SetEax, CapsOk;
      TrapCurrent(State(), r);
      WriteRegs(current, r);
      hide SetRegs;
      match r.eax
      case 0 => ExitCurrent();
      case 1 => TrapYield();
      case 2 => TrapSend(r);
      case 3 => TrapRecv(r);
      case 4 => WriteEax(current, current);
      case 6 => TrapRegister(r);
      case 7 => TrapMap(r, w);
      case 8 => TrapSpawn(w);
      case 9 => TrapEndpointCreate();
      case 10 => TrapMintBadged(r);
      case 11 => TrapRevoke(r);
      case 12 => TrapMemAlloc(r, w);
      case 13 => TrapSpawn(w);
      case 15 => TrapTryRecv(r);
      case _ => WriteEax(current, U32_MAX);
    }

    /** Any operation of a run: the machine's step is the model's step. */
    method Perform(op: Op)
      requires CapsOk(caps.nodes)
      modifies this, caps
      ensures State() == Step(old(State()), op) && CapsOk(caps.nodes)
    {
      hide Syscall, Tick, Dispatch, Keyboard, CapsOk;
      match op
      case Timer => Preempt();
      case Trap(r, w) => SyscallDispatch(r, w);
      case Line(irq, data) => DispatchLine(irq, data);
      case Key(c) => KeyboardLine(c);
    }
  }

  lemma TrapCurrent(k: Kernel, r: Regs)
    ensures SetRegs(k, k.current, r).current == k.current
  {
  }

  lemma RegisterMisses(k: Kernel, irq: nat, e: nat)
    ensures irq >= |k.handlers| ==> RegisterIrq(k, irq, e) == k
    ensures RegisterIrq(k, irq, e).current == k.current
  {
  }

  // ----- folding over the pending tables -----

  lemma {:induction false} FailAllSnoc(k: Kernel, ts: seq<nat>, t: nat)
    ensures FailAll(k, ts + [t]) == Wake(SetEax(FailAll(k, ts), t, U32_MAX), t)
    decreases |ts|
  {
    hide Wake, SetEax;
    if ts == [] {
      assert (ts + [t])[0] == t && (ts + [t])[1..] == [];
    } else {
      assert (ts + [t])[0] == ts[0] && (ts + [t])[1..] == ts[1..] + [t];
      FailAllSnoc(Wake(SetEax(k, ts[0], U32_MAX), ts[0]), ts[1..], t);
    }
  }

  /** Failing tasks neither reads nor changes the pending tables. */
  lemma {:induction false} FailAllTables(k: Kernel, ts: seq<nat>, q: seq<PendingRecv>, s: seq<PendingSend>)
    ensures FailAll(k.(recvs := q, sends := s), ts) == FailAll(k, ts).(recvs := q, sends := s)
    ensures var k' := FailAll(k, ts);
            k'.recvs == k.recvs && k'.sends == k.sends && k'.endpoints == k.endpoints && k'.events == k.events
    decreases |ts|
  {
    if ts != [] {
      var k1 := Wake(SetEax(k, ts[0], U32_MAX), ts[0]);
      assert Wake(SetEax(k.(recvs := q, sends := s), ts[0], U32_MAX), ts[0]) == k1.(recvs := q, sends := s);
      assert k1.recvs == k.recvs && k1.sends == k.sends && k1.endpoints == k.endpoints && k1.events == k.events;
      hide Wake, SetEax;
      FailAllTables(k1, ts[1..], q, s);
    }
  }

  lemma {:induction false} RecvsSnoc(s: seq<PendingRecv>, i: nat, k: Kernel, owner: nat)
    requires i < |s|
    ensures KeptRecvs(s[..i + 1], k, owner) ==
            KeptRecvs(s[..i], k, owner) + (if Dead(k, s[i].endpoint, owner) then [] else [s[i]])
    ensures FailedRecvs(s[..i + 1], k, owner) ==
            FailedRecvs(s[..i], k, owner) + (if Dead(k, s[i].endpoint, owner) then [s[i].task] else [])
    decreases i
  {
    hide Dead;
    if i > 0 {
      RecvsSnoc(s[1..], i - 1, k, owner);
      assert s[..i + 1][1..] == s[1..][..i] && s[..i][1..] == s[1..][..i - 1];
    } else {
      assert s[..1][1..] == [];
    }
  }

  lemma {:induction false} SendsSnoc(s: seq<PendingSend>, i: nat, k: Kernel, owner: nat)
    requires i < |s|
    ensures KeptSends(s[..i + 1], k, owner) ==
            KeptSends(s[..i], k, owner) + (if Dead(k, s[i].endpoint, owner) then [] else [s[i]])
    ensures FailedSends(s[..i + 1], k, owner) ==
            FailedSends(s[..i], k, owner) + (if Dead(k, s[i].endpoint, owner) then [s[i].task] else [])
    decreases i
  {
    hide Dead;
    if i > 0 {
      SendsSnoc(s[1..], i - 1, k, owner);
      assert s[..i + 1][1..] == s[1..][..i] && s[..i][1..] == s[1..][..i - 1];
    } else {
      assert s[..1][1..] == [];
    }
  }

  lemma {:induction false} EventsSnoc(s: seq<IrqEvent>, i: nat, k: Kernel, owner: nat)
    requires i < |s|
    ensures KeptEvents(s[..i + 1], k, owner) ==
            KeptEvents(s[..i], k, owner) + (if Dead(k, s[i].endpoint, owner) then [] else [s[i]])
    decreases i
  {
    hide Dead;
    if i > 0 {
      EventsSnoc(s[1..], i - 1, k, owner);
      assert s[..i + 1][1..] == s[1..][..i] && s[..i][1..] == s[1..][..i - 1];
    } else {
      assert s[..1][1..] == [];
    }
  }
}
