/**
 What the parties of a rendezvous see: the receiver's registers and table, the sender's result,
 and that nobody else's saved registers are touched until it runs again.
 */
module KernelAnswers {
  import opened Bytes
  import opened KernelState
  import opened KernelSched
  import opened KernelMessages
  import opened KernelTurns

  /** Task `to` has message `m`: its contents, the sender's id, and the slot of the capability that
      came with it (0 for none), which is new in its table. */
  ghost predicate Received(k: Kernel, k': Kernel, m: PendingSend, to: nat) {
    && to in k.tasks && to in k'.tasks
    && k'.tasks[to].cspace == k.tasks[to].cspace + (if m.transfer.Some? then [m.transfer] else [])
    && var r := k'.tasks[to].regs;
       && r.eax == m.task && (r.ebx, r.ecx, r.edx) == m.msg
       && r.edi == if m.transfer.Some? then |k.tasks[to].cspace| else 0
  }

  /** Task `t` is no longer blocked and finds `v` as its result. */
  ghost predicate Answered(k: Kernel, t: nat, v: nat) {
    t in k.tasks && k.tasks[t].regs.eax == v && k.tasks[t].state != Blocked
  }

  /** Outside `touched`, saved registers stay; inside it, tasks no longer block. */
  ghost predicate Writes(k: Kernel, k': Kernel, touched: set<nat>) {
    forall t | t in k.tasks ::
      && t in k'.tasks
      && (t in touched ==> k'.tasks[t].state != Blocked)
      && (t !in touched ==> k'.tasks[t].regs == k.tasks[t].regs)
  }

  ghost predicate FateSeen(k: Kernel, k': Kernel, f: Fate) {
    match f
    case Delivered(m, to) =>
      && Received(k, k', m, to) && Answered(k', m.task, 0) && k'.tasks[to].state != Blocked
      && (to == k.current || PendingRecv(to, m.endpoint) in k.recvs)
    case Failed(m) => Answered(k', m.task, U32_MAX)
  }

  // ----- rendezvous -----

  lemma MeetSeen(k: Kernel, m: PendingSend, to: nat, woken: nat)
    requires to in k.tasks && m.task in k.tasks && m.task != to
    requires woken == to || woken == m.task
    requires k.tasks[if woken == to then m.task else to].state != Blocked
    ensures var k' := Wake(SetEax(HandOver(k, m, to), m.task, 0), woken);
            && Received(k, k', m, to) && Answered(k', m.task, 0) && k'.tasks[to].state != Blocked
            && Writes(k, k', {to, m.task})
  {
  }

  lemma SendSeen(k: Kernel, idle: nat, m: PendingSend)
    requires Inv(k, idle) && m.task == k.current && k.ready != []
    ensures var i := FirstRecv(k.recvs, m.endpoint);
            if i < |k.recvs| then FateSeen(k, Send(k, m), Delivered(m, k.recvs[i].task))
                && Writes(k, Send(k, m), {k.recvs[i].task, k.current})
            else Writes(k, Send(k, m), {})
  {
    var i := FirstRecv(k.recvs, m.endpoint);
    CurrentIn(k, idle);
    if i < |k.recvs| {
      var t := k.recvs[i].task;
      WaitingRecv(k, idle, i);
      hide Inv, HandOver, Wake, SetEax;
      MeetSeen(k.(recvs := Without(k.recvs, i)), m, t, t);
      assert PendingRecv(t, m.endpoint) == k.recvs[i];
      hide Received, Answered, Writes;
      SeenSame(k, k.(recvs := Without(k.recvs, i)), Send(k, m), m, t);
    } else {
      assert k.tasks[k.current].state == Running;
      hide Inv, Writes;
      NothingSeen(k, k.(sends := k.sends + [m]));
    }
  }

  lemma SeenSame(k: Kernel, k1: Kernel, k': Kernel, m: PendingSend, to: nat)
    requires k1.tasks == k.tasks
    ensures Received(k1, k', m, to) == Received(k, k', m, to)
    ensures forall s :: Writes(k1, k', s) == Writes(k, k', s)
  {
  }

  lemma WaitingRecv(k: Kernel, idle: nat, i: nat)
    requires Inv(k, idle) && i < |k.recvs|
    ensures var t := k.recvs[i].task; t in k.tasks && k.tasks[t].state == Blocked && t != k.current
    ensures k.tasks[k.current].state == Running
  {
    assert Owners(k)[i] == k.recvs[i].task;
  }

  lemma WaitingSend(k: Kernel, idle: nat, i: nat)
    requires Inv(k, idle) && i < |k.sends|
    ensures var t := k.sends[i].task; t in k.tasks && k.tasks[t].state == Blocked && t != k.current
    ensures k.tasks[k.current].state == Running
  {
    assert Owners(k)[|k.recvs| + i] == k.sends[i].task;
  }

  lemma DeliverSeen(k: Kernel, idle: nat, e: nat)
    requires Inv(k, idle) && CanDeliver(k, e)
    ensures var i := FirstSend(k.sends, e);
            if i < |k.sends| then FateSeen(k, Deliver(k, e), Delivered(k.sends[i], k.current))
                && Writes(k, Deliver(k, e), {k.sends[i].task, k.current})
            else Writes(k, Deliver(k, e), {k.current})
  {
    var i := FirstSend(k.sends, e);
    CurrentIn(k, idle);
    if i < |k.sends| {
      var m := k.sends[i];
      WaitingSend(k, idle, i);
      hide Inv, HandOver, Wake, SetEax;
      var k1 := k.(sends := Without(k.sends, i));
      MeetSeen(k1, m, k.current, m.task);
      hide Received, Answered, Writes;
      SeenSame(k, k1, Deliver(k, e), m, k.current);
      assert {k.current, m.task} == {m.task, k.current};
    } else {
      assert k.tasks[k.current].state == Running;
      hide Inv;
    }
  }

  lemma RecvSeen(k: Kernel, idle: nat, e: nat)
    requires Inv(k, idle) && k.ready != []
    ensures var i := FirstSend(k.sends, e);
            if i < |k.sends| then
              && FateSeen(k, Recv(k, e), Delivered(k.sends[i], k.current))
              && Writes(k, Recv(k, e), {k.sends[i].task, k.current})
              && FateSeen(k, TryRecv(k, e), Delivered(k.sends[i], k.current))
              && Writes(k, TryRecv(k, e), {k.sends[i].task, k.current})
            else
              && (Writes(k, Recv(k, e), {}) || Writes(k, Recv(k, e), {k.current}))
              && Writes(k, TryRecv(k, e), {k.current})
  {
    var k1 := TakeAck(k, e);
    AckSame(k, e, 0);
    assert k1.ready == k.ready && k1.current == k.current;
    hide TakeAck;
    SameInv(k, k1, idle);
    if CanDeliver(k1, e) {
      hide Inv;
      DeliverSeen(k1, idle, e);
      hide Deliver, Received, Answered, Writes;
      var i := FirstSend(k.sends, e);
      if i < |k.sends| {
        SeenSame(k, k1, Deliver(k1, e), k.sends[i], k.current);
      } else {
        SeenSame(k, k1, Deliver(k1, e), PendingSend(0, 0, (0, 0, 0), None), k.current);
      }
    } else {
      CurrentIn(k, idle);
      assert k.tasks[k.current].state == Running;
      hide Inv, Writes, CanDeliver;
      NothingSeen(k, k1);
      NothingSeen(k, k1.(recvs := k1.recvs + [PendingRecv(k1.current, e)]));
    }
  }

  /** A receive that finds nothing: it blocks, or says so. */
  lemma NothingSeen(k: Kernel, k1: Kernel)
    requires k1.tasks == k.tasks && k1.ready == k.ready && k1.current == k.current && k.ready != []
    requires k.current in k.tasks && k.tasks[k.current].state == Running
    ensures Writes(k, BlockCurrent(k1), {}) && Writes(k, SetEax(k1, k1.current, U32_MAX), {k.current})
  {
  }

  // ----- exit -----

  /** Exactly the listed tasks are woken with a failure. */
  lemma {:induction false} FailAllSeen(k: Kernel, ts: seq<nat>, t: nat)
    requires t in k.tasks
    ensures t in FailAll(k, ts).tasks
    ensures FailAll(k, ts).tasks[t] ==
            if t in ts then k.tasks[t].(state := Ready, regs := k.tasks[t].regs.(eax := U32_MAX)) else k.tasks[t]
    decreases |ts|
  {
    if ts != [] {
      var k1 := Wake(SetEax(k, ts[0], U32_MAX), ts[0]);
      assert t in k1.tasks;
      assert k1.tasks[t] == if t == ts[0] then k.tasks[t].(state := Ready, regs := k.tasks[t].regs.(eax := U32_MAX))
             else k.tasks[t];
      hide Wake, SetEax;
      FailAllSeen(k1, ts[1..], t);
    }
  }

  lemma {:induction false} FailedAre(s: seq<PendingSend>, q: seq<PendingRecv>, k: Kernel, owner: nat)
    ensures forall m | m in s && Dead(k, m.endpoint, owner) :: m.task in FailedSends(s, k, owner)
    ensures forall m | m in q && Dead(k, m.endpoint, owner) :: m.task in FailedRecvs(q, k, owner)
    ensures forall m | Failed(m) in Orphans(s, k, owner) :: m in s && Dead(k, m.endpoint, owner)
    ensures forall f | f in Orphans(s, k, owner) :: f.Failed?
    decreases |s| + |q|
  {
    hide Dead;
    if s != [] {
      FailedAre(s[1..], q, k, owner);
    } else if q != [] {
      FailedAre(s, q[1..], k, owner);
    }
  }

  lemma {:induction false} FailedWaited(s: seq<PendingSend>, q: seq<PendingRecv>, k: Kernel, owner: nat)
    ensures forall t | t in FailedSends(s, k, owner) :: t in SendTasks(s)
    ensures forall t | t in FailedRecvs(q, k, owner) :: t in RecvTasks(q)
    decreases |s| + |q|
  {
    hide Dead;
    if s != [] {
      FailedWaited(s[1..], q, k, owner);
      assert SendTasks(s) == [s[0].task] + SendTasks(s[1..]);
    } else if q != [] {
      FailedWaited(s, q[1..], k, owner);
      assert RecvTasks(q) == [q[0].task] + RecvTasks(q[1..]);
    }
  }

  /** What an exit does to a task that is neither the one leaving nor the next to run. */
  lemma ExitSeen(k: Kernel, t: nat)
    requires k.ready != [] && k.current in k.tasks && t in k.tasks
    ensures var k' := Exit(k);
            var failed := t in FailedRecvs(k.recvs, k, k.current) || t in FailedSends(k.sends, k, k.current);
            && t in k'.tasks
            && (failed ==> k'.tasks[t].state == Ready && k'.tasks[t].regs.eax == U32_MAX)
            && (!failed ==> k'.tasks[t].regs == k.tasks[t].regs)
            && (!failed && t != k.current && t != k.ready[0] ==> k'.tasks[t] == k.tasks[t])
  {
    hide FailAll, KeptRecvs, KeptSends, FailedRecvs, FailedSends, KeptEvents, Dead;
    var owner, k0 := k.current, Switch(SetState(k, k.current, Zombie));
    SwitchSeen(k, Zombie, t);
    hide Switch, SetState;
    SwitchSends(k, Zombie);
    var fr, fs := FailedRecvs(k0.recvs, k0, owner), FailedSends(k0.sends, k0, owner);
    SameFailed(k.sends, k.recvs, k, k0, owner);
    var k1 := k0.(recvs := KeptRecvs(k0.recvs, k0, owner));
    FailAllSends(k1, fr);
    FailAllSeen(k1, fr, t);
    var k2 := FailAll(k1, fr);
    FailAllSeen(k2.(sends := KeptSends(k2.sends, k0, owner)), fs, t);
  }

  lemma SwitchSeen(k: Kernel, s: TaskState, t: nat)
    requires k.ready != [] && k.current in k.tasks && t in k.tasks
    ensures var k' := Switch(SetState(k, k.current, s));
            && t in k'.tasks && k'.tasks[t].regs == k.tasks[t].regs && k'.recvs == k.recvs
            && (t != k.current && t != k.ready[0] ==> k'.tasks[t] == k.tasks[t])
  {
  }

  lemma {:induction false} SameFailed(s: seq<PendingSend>, q: seq<PendingRecv>, k: Kernel, k': Kernel, owner: nat)
    requires k'.endpoints == k.endpoints
    ensures FailedSends(s, k', owner) == FailedSends(s, k, owner)
            && FailedRecvs(q, k', owner) == FailedRecvs(q, k, owner)
    decreases |s| + |q|
  {
    if s != [] {
      SameFailed(s[1..], q, k, k', owner);
    } else if q != [] {
      SameFailed(s, q[1..], k, k', owner);
    }
  }

  // ----- steps -----

  /** A task that is not running and is not released by this step keeps its saved registers. */
  ghost predicate Undisturbed(k: Kernel, k': Kernel) {
    forall t | t in k.tasks && t != k.current ::
      t in k'.tasks && (k.tasks[t].state != Blocked || k'.tasks[t].state == Blocked ==>
          k'.tasks[t].regs == k.tasks[t].regs)
  }

  lemma WritesUndisturbed(k: Kernel, k': Kernel, touched: set<nat>)
    requires Writes(k, k', touched) && forall t | t in touched ::
             t == k.current || (t in k.tasks && k.tasks[t].state == Blocked)
    ensures Undisturbed(k, k')
  {
  }

  lemma SubmitSeen(k: Kernel, k1: Kernel, idle: nat, m: PendingSend)
    requires Inv(k, idle) && k.ready != [] && k1 == k.(nodes := k1.nodes) && m.task == k.current
    ensures Undisturbed(k, Send(k1, m))
    ensures var i := FirstRecv(k.recvs, m.endpoint); i < |k.recvs| ==>
            FateSeen(k, Send(k1, m), Delivered(m, k.recvs[i].task))
  {
    hide Inv, Send, Writes, Received, Answered, Undisturbed;
    var i := FirstRecv(k.recvs, m.endpoint);
    TablesKeep(k, k1, idle);
    SendSeen(k1, idle, m);
    SeenSame(k, k1, Send(k1, m), m, if i < |k.recvs| then k.recvs[i].task else 0);
    if i < |k.recvs| {
      WaitingRecv(k, idle, i);
      WritesUndisturbed(k, Send(k1, m), {k.recvs[i].task, k.current});
    } else {
      WritesUndisturbed(k, Send(k1, m), {});
    }
  }

  lemma AnswerUndisturbed(k: Kernel, v: nat)
    ensures Undisturbed(k, SetEax(k, k.current, v))
  {
  }

  lemma SysSendSeen(k: Kernel, idle: nat, r: Regs, w: World)
    requires Inv(k, idle) && k.ready != [] && r.eax == 2
    ensures Undisturbed(k, SysSend(k, r)) && forall f | f in Fates(k, Trap(r, w)) :: FateSeen(k, SysSend(k, r), f)
  {
    hide Inv, Send, FateSeen, Undisturbed, SetEax;
    match ResolveSlot(k, r.ebx)
    case Some((Endpoint(e), _)) =>
      var m, src := Submission(k, r, e), CurrentNode(k, r.edi);
      var k1 := if m.transfer.Some? then MintDerived(k, src.value, Resolve(k.nodes, src.value).value.1) else k;
      SubmitSeen(k, k1, idle, m);
    case _ => AnswerUndisturbed(k, U32_MAX);
  }

  lemma ReceivedSeen(k: Kernel, idle: nat, e: nat)
    requires Inv(k, idle) && k.ready != []
    ensures Undisturbed(k, Recv(k, e)) && Undisturbed(k, TryRecv(k, e))
    ensures var i := FirstSend(k.sends, e);
            i < |k.sends| ==>
                FateSeen(k, Recv(k, e), Delivered(k.sends[i], k.current))
                    && FateSeen(k, TryRecv(k, e), Delivered(k.sends[i], k.current))
  {
    hide Inv, Recv, TryRecv, Writes, FateSeen, Undisturbed;
    var i := FirstSend(k.sends, e);
    RecvSeen(k, idle, e);
    if i < |k.sends| {
      WaitingSend(k, idle, i);
      WritesUndisturbed(k, Recv(k, e), {k.sends[i].task, k.current});
      WritesUndisturbed(k, TryRecv(k, e), {k.sends[i].task, k.current});
    } else {
      WritesUndisturbed(k, Recv(k, e), if Writes(k, Recv(k, e), {}) then {} else {k.current});
      WritesUndisturbed(k, TryRecv(k, e), {k.current});
    }
  }

  lemma ReceiveSeen(k: Kernel, idle: nat, r: Regs, w: World)
    requires Inv(k, idle) && k.ready != [] && (r.eax == 3 || r.eax == 15)
    ensures var k' := if r.eax == 3 then SysRecv(k, r) else SysTryRecv(k, r);
            Undisturbed(k, k') && forall f | f in Fates(k, Trap(r, w)) :: FateSeen(k, k', f)
  {
    hide Inv, Recv, TryRecv, FateSeen, Undisturbed, SetEax;
    AnswerUndisturbed(k, U32_MAX);
    AnswerUndisturbed(k, U32_MAX - 1);
    match ResolveSlot(k, r.ebx)
    case Some((Endpoint(e), _)) => ReceivedSeen(k, idle, e);
    case _ =>
  }

  /** Everyone an exit fails was blocked. */
  lemma FailedBlocked(k: Kernel, idle: nat, t: nat)
    requires Inv(k, idle) && (t in FailedRecvs(k.recvs, k, k.current) || t in FailedSends(k.sends, k, k.current))
    ensures t in k.tasks && k.tasks[t].state == Blocked && t != k.current
  {
    FailedWaited(k.sends, k.recvs, k, k.current);
    assert t in Owners(k);
    hide FailedRecvs, FailedSends, Rendezvous, Distinct;
  }

  lemma ExitUndisturbed(k: Kernel, idle: nat)
    requires Inv(k, idle) && k.ready != []
    ensures Undisturbed(k, Exit(k))
  {
    hide Inv, Exit, FailedRecvs, FailedSends;
    CurrentIn(k, idle);
    forall t | t in k.tasks && t != k.current
      ensures t in Exit(k).tasks
      ensures k.tasks[t].state != Blocked || Exit(k).tasks[t].state == Blocked ==>
              Exit(k).tasks[t].regs == k.tasks[t].regs
    {
      ExitSeen(k, t);
      if t in FailedRecvs(k.recvs, k, k.current) || t in FailedSends(k.sends, k, k.current) {
        FailedBlocked(k, idle, t);
      }
    }
  }

  /** An exit answers everyone waiting on an endpoint of the task that leaves. */
  lemma ExitAnswers(k: Kernel, idle: nat)
    requires Inv(k, idle) && k.ready != []
    ensures forall f | f in Orphans(k.sends, k, k.current) :: FateSeen(k, Exit(k), f)
    ensures forall q | q in k.recvs && Dead(k, q.endpoint, k.current) :: Answered(Exit(k), q.task, U32_MAX)
  {
    hide Inv, Exit, FailedRecvs, FailedSends, Orphans, Dead;
    CurrentIn(k, idle);
    FailedAre(k.sends, k.recvs, k, k.current);
    forall f | f in Orphans(k.sends, k, k.current) ensures FateSeen(k, Exit(k), f) {
      assert f == Failed(f.msg);
      FailedBlocked(k, idle, f.msg.task);
      ExitSeen(k, f.msg.task);
    }
    forall q | q in k.recvs && Dead(k, q.endpoint, k.current) ensures Answered(Exit(k), q.task, U32_MAX) {
      FailedBlocked(k, idle, q.task);
      ExitSeen(k, q.task);
    }
  }

  lemma GrantUndisturbed(k: Kernel, r: Regs, w: World)
    ensures Undisturbed(k, SysEndpointCreate(k)) && Undisturbed(k, SysMintBadged(k, r))
            && Undisturbed(k, SysMemAlloc(k, r, w))
  {
    hide CurrentNode, Resolve, NextSlot;
  }

  lemma SpawnUndisturbed(k: Kernel, idle: nat, w: World)
    requires Inv(k, idle)
    ensures Undisturbed(k, SysSpawn(k, w))
  {
    assert NewTaskId(k) !in k.tasks;
    hide Inv;
  }

  lemma QuietUndisturbed(k: Kernel, r: Regs, w: World)
    ensures Undisturbed(k, SysRevoke(k, r)) && Undisturbed(k, SysRegisterIrq(k, r))
            && Undisturbed(k, SysMapMemory(k, r, w))
  {
    hide CurrentNode, ResolveSlot, Revoked;
  }

  lemma TickUndisturbed(k: Kernel)
    requires k.current in k.tasks
    ensures Undisturbed(k, Tick(k)) && Undisturbed(k, Tick(SetEax(k, k.current, 0)))
  {
  }

  lemma NotifyUndisturbed(k: Kernel, k1: Kernel, idle: nat, v: IrqEvent)
    requires Inv(k, idle) && k1 == k.(masked := k1.masked)
    ensures Undisturbed(k, Notify(k1, v))
  {
    var i := FirstRecv(k.recvs, v.endpoint);
    if i < |k.recvs| {
      WaitingRecv(k, idle, i);
    }
    hide Inv;
  }

  lemma ServeSeen(k: Kernel, idle: nat, r: Regs, w: World)
    requires Inv(k, idle) && k.ready != []
    ensures Undisturbed(k, Serve(k, r, w)) && forall f | f in Fates(k, Trap(r, w)) :: FateSeen(k, Serve(k, r, w), f)
  {
    hide Exit, SysSend, SysRegisterIrq, SysRevoke, SysRecv, SysTryRecv, SysSpawn, SysMapMemory, SysEndpointCreate,
         SysMintBadged, SysMemAlloc, Tick, Inv, Undisturbed, FateSeen, SetEax, Named, Submission;
    if r.eax == 0 {
      ExitUndisturbed(k, idle);
      ExitAnswers(k, idle);
    } else if r.eax == 2 {
      SysSendSeen(k, idle, r, w);
    } else if r.eax == 3 || r.eax == 15 {
      ReceiveSeen(k, idle, r, w);
    } else {
      CurrentIn(k, idle);
      TickUndisturbed(k);
      GrantUndisturbed(k, r, w);
      QuietUndisturbed(k, r, w);
      SpawnUndisturbed(k, idle, w);
      AnswerUndisturbed(k, k.current);
      AnswerUndisturbed(k, U32_MAX);
    }
  }

  /** In one step: every message decided is seen by its parties, and nobody else is disturbed. */
  lemma StepSeen(k: Kernel, idle: nat, op: Op)
    requires Inv(k, idle) && Enabled(k, idle, op)
    ensures Undisturbed(k, Step(k, op)) && forall f | f in Fates(k, op) :: FateSeen(k, Step(k, op), f)
  {
    hide Inv, Serve, Tick, Notify, Undisturbed, FateSeen;
    CurrentIn(k, idle);
    match op
    case Timer => TickUndisturbed(k);
    case Trap(r, w) =>
      var k1 := SetRegs(k, k.current, r);
      TrapReady(k, idle);
      TouchKeeps(k, idle, k.current, r, 0, 0);
      SameRequest(k, r, op);
      hide Fates;
      ServeSeen(k1, idle, r, w);
      TrapSeen(k, r, Serve(k1, r, w), op);
    case Line(irq, data) =>
      if HandlerFor(k, irq).Some? {
        NotifyUndisturbed(k, k.(masked := k.masked[irq := true]), idle, IrqEvent(HandlerFor(k, irq).value, irq, data));
      } else {
        Still(k);
      }
    case Key(c) =>
      if HandlerFor(k, 1).Some? {
        NotifyUndisturbed(k, k, idle, IrqEvent(HandlerFor(k, 1).value, 1, c));
      } else {
        Still(k);
      }
  }

  lemma Still(k: Kernel)
    ensures Undisturbed(k, k)
  {
  }

  lemma TrapReady(k: Kernel, idle: nat)
    requires Inv(k, idle) && k.current != idle
    ensures k.ready != []
  {
    ReadyFront(k, Elems(Owners(k)), idle);
  }

  /** The registers a task traps with are its own. */
  lemma TrapSeen(k: Kernel, r: Regs, k': Kernel, op: Op)
    requires k.current in k.tasks && var k1 := SetRegs(k, k.current, r);
             Undisturbed(k1, k') && forall f | f in Fates(k, op) :: FateSeen(k1, k', f)
    ensures Undisturbed(k, k') && forall f | f in Fates(k, op) :: FateSeen(k, k', f)
  {
    hide Fates;
  }

  /** A task that has its answer finds its registers as they were left when it next runs, however long
      that takes. */
  lemma {:induction false} AnswerStays(k: Kernel, idle: nat, ops: seq<Op>, t: nat)
    requires Inv(k, idle) && Legal(k, idle, ops) && t in k.tasks && k.tasks[t].state == Ready
    requires forall n | 0 <= n < |ops| :: Run(k, ops[..n]).current != t
    ensures t in Run(k, ops).tasks && Run(k, ops).tasks[t].regs == k.tasks[t].regs
    decreases |ops|
  {
    hide Step, Inv, Enabled;
    if ops != [] {
      var k1, rest := Step(k, ops[0]), ops[1..];
      assert ops[..0] == [] && k.current != t;
      StepSeen(k, idle, ops[0]);
      StepKeeps(k, idle, ops[0]);
      if rest != [] {
        assert ops[..1] == [ops[0]] && ops[..1][1..] == [];
        assert Run(k, ops[..1]) == k1;
        StaysReady(k, idle, ops[0], t);
        forall n | 0 <= n < |rest| ensures Run(k1, rest[..n]).current != t {
          assert ops[..n + 1][0] == ops[0] && ops[..n + 1][1..] == rest[..n];
          assert Run(k, ops[..n + 1]) == Run(k1, rest[..n]);
        }
        AnswerStays(k1, idle, rest, t);
      }
    }
  }

  lemma StaysReady(k: Kernel, idle: nat, op: Op, t: nat)
    requires Inv(k, idle) && Enabled(k, idle, op) && t in k.tasks && k.tasks[t].state == Ready
             && Step(k, op).current != t
    ensures t in Step(k, op).tasks && Step(k, op).tasks[t].state == Ready
  {
    StepKeeps(k, idle, op);
    assert t in k.ready;
    var p :| 0 <= p < |k.ready| && k.ready[p] == t;
    hide Step, Enabled, Rendezvous, Distinct;
    StepTurn(k, idle, op, p);
    assert t in Step(k, op).ready;
  }
}
