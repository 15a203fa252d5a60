/**
 What every run of the kernel keeps about tasks: one runs, the ready queue holds each ready task
 once, each blocked task owns exactly one pending record, and the queue is never popped empty.
 */
module KernelSched {
  import opened Bytes
  import opened KernelState

  ghost predicate Distinct(s: seq<nat>) {
    forall i, j | 0 <= i < j < |s| :: s[i] != s[j]
  }

  ghost function Elems(s: seq<nat>): set<nat> { set t | t in s }

  function RecvTasks(s: seq<PendingRecv>): (r: seq<nat>)
    ensures |r| == |s| && forall i | 0 <= i < |s| :: r[i] == s[i].task
  {
    seq(|s|, i requires 0 <= i < |s| => s[i].task)
  }

  function SendTasks(s: seq<PendingSend>): (r: seq<nat>)
    ensures |r| == |s| && forall i | 0 <= i < |s| :: r[i] == s[i].task
  {
    seq(|s|, i requires 0 <= i < |s| => s[i].task)
  }

  /** The tasks that own a pending record, once per record. */
  function Owners(k: Kernel): seq<nat> {
    RecvTasks(k.recvs) + SendTasks(k.sends)
  }

  /** `waiting` is the set of tasks that own a pending record. */
  ghost predicate Scheduled(k: Kernel, waiting: set<nat>, idle: nat) {
    && !k.panicked
    && (forall t: nat :: t in k.tasks <==> 1 <= t <= |k.tasks|)
    && k.current in k.tasks && idle in k.tasks
    && (forall t | t in k.tasks :: k.tasks[t].state == Running <==> t == k.current)
    && Distinct(k.ready)
    && (forall t: nat :: t in k.ready <==> t in k.tasks && k.tasks[t].state == Ready)
    && (forall t: nat :: t in waiting <==> t in k.tasks && k.tasks[t].state == Blocked)
    && (k.tasks[idle].state == Ready || k.tasks[idle].state == Running)
  }

  /** No endpoint has a waiting receiver together with something to receive. */
  ghost predicate Rendezvous(k: Kernel) {
    && (forall i, j | 0 <= i < |k.recvs| && 0 <= j < |k.sends| :: k.recvs[i].endpoint != k.sends[j].endpoint)
    && (forall i, j | 0 <= i < |k.recvs| && 0 <= j < |k.events| :: k.recvs[i].endpoint != k.events[j].endpoint)
  }

  ghost predicate Inv(k: Kernel, idle: nat) {
    Scheduled(k, Elems(Owners(k)), idle) && Distinct(Owners(k)) && Rendezvous(k)
  }

  ghost predicate SameRecords(k: Kernel, k': Kernel) {
    k'.recvs == k.recvs && k'.sends == k.sends && k'.events == k.events
  }

  // ----- scheduler primitives -----

  lemma ReadyFront(k: Kernel, waiting: set<nat>, idle: nat)
    requires Scheduled(k, waiting, idle) && (k.current != idle || k.ready != [])
    ensures k.ready != [] && k.ready[0] in k.tasks && k.tasks[k.ready[0]].state == Ready && k.ready[0] !in k.ready[1..]
    ensures Distinct(k.ready[1..])
  {
    if k.current != idle {
      assert idle in k.ready;
    }
    assert k.ready[0] in k.ready;
  }

  lemma SizeByKeys(m: map<nat, Task>, m': map<nat, Task>)
    requires m.Keys == m'.Keys
    ensures |m| == |m'|
  {
    assert |m| == |m.Keys| && |m'| == |m'.Keys|;
  }

  lemma SetStateIs(k: Kernel, t: nat, s: TaskState)
    requires t in k.tasks
    ensures var k' := SetState(k, t, s);
            && |k'.tasks| == |k.tasks| && k'.tasks.Keys == k.tasks.Keys
            && k' == k.(tasks := k'.tasks) && k'.tasks == k.tasks[t := k.tasks[t].(state := s)]
  {
    assert k.tasks[t := k.tasks[t].(state := s)].Keys == k.tasks.Keys;
    SizeByKeys(k.tasks, k.tasks[t := k.tasks[t].(state := s)]);
  }

  /** The front of the queue runs; the task that ran before has become `s`. */
  lemma SwitchKeeps(k: Kernel, waiting: set<nat>, idle: nat, s: TaskState)
    requires Scheduled(k, waiting, idle) && k.current != idle && (s == Blocked || s == Zombie)
    ensures var k' := Switch(SetState(k, k.current, s));
            && Scheduled(k', if s == Blocked then waiting + {k.current} else waiting, idle) && SameRecords(k, k')
  {
    ReadyFront(k, waiting, idle);
    SetStateIs(k, k.current, s);
    var k1 := SetState(k, k.current, s);
    SetStateIs(k1, k.ready[0], Running);
    hide SetState;
  }

  lemma TickKeeps(k: Kernel, waiting: set<nat>, idle: nat)
    requires Scheduled(k, waiting, idle)
    ensures Scheduled(Tick(k), waiting, idle) && SameRecords(k, Tick(k))
  {
    if k.ready != [] {
      ReadyFront(k, waiting, idle);
      var k0 := k.(ready := k.ready + [k.current]);
      SetStateIs(k0, k.current, Ready);
      var k1 := SetState(k0, k.current, Ready);
      SetStateIs(k1, k.ready[0], Running);
      hide SetState;
      assert k1.ready[1..] == k.ready[1..] + [k.current];
    }
  }

  lemma WakeKeeps(k: Kernel, waiting: set<nat>, idle: nat, t: nat)
    requires Scheduled(k, waiting, idle) && t in waiting
    ensures Scheduled(Wake(k, t), waiting - {t}, idle) && SameRecords(k, Wake(k, t))
  {
    SetStateIs(k, t, Ready);
    hide SetState;
    assert t !in k.ready;
  }

  lemma SpawnKeeps(k: Kernel, waiting: set<nat>, idle: nat)
    requires Scheduled(k, waiting, idle)
    ensures Scheduled(Spawn(k), waiting, idle) && SameRecords(k, Spawn(k))
  {
    var t := NewTaskId(k);
    assert t !in k.tasks && t !in k.ready;
    var k1 := k.(tasks := k.tasks[t := Task(Ready, [None], Regs(0, 0, 0, 0, 0, 0))], ready := k.ready + [t]);
    assert k1.tasks.Keys == k.tasks.Keys + {t};
    assert |k1.tasks| == |k1.tasks.Keys| == |k.tasks.Keys| + 1;
    assert Scheduled(k1, waiting, idle);
    if k.nameService.Some? {
      hide Scheduled, Install;
      var k2 := MintRoot(k1, Endpoint(k.nameService.value));
      SameKeeps(k1, k2, waiting, idle);
      TouchSame(k2, t, k2.tasks[t].regs, 0, |k1.nodes|);
      SameKeeps(k2, Spawn(k), waiting, idle);
    }
  }

  /** Registers and capability tables play no part in scheduling. */
  ghost predicate SameStates(k: Kernel, k': Kernel) {
    && k'.tasks.Keys == k.tasks.Keys
    && (forall t | t in k.tasks :: k'.tasks[t].state == k.tasks[t].state)
    && k'.ready == k.ready && k'.current == k.current && k'.panicked == k.panicked
  }

  lemma SameKeeps(k: Kernel, k': Kernel, waiting: set<nat>, idle: nat)
    requires Scheduled(k, waiting, idle) && SameStates(k, k')
    ensures Scheduled(k', waiting, idle)
  {
    SizeByKeys(k.tasks, k'.tasks);
  }

  lemma TouchSame(k: Kernel, t: nat, r: Regs, v: nat, n: nat)
    requires t in k.tasks
    ensures SameStates(k, SetRegs(k, t, r)) && SameRecords(k, SetRegs(k, t, r))
    ensures SameStates(k, SetEax(k, t, v)) && SameRecords(k, SetEax(k, t, v))
    ensures SameStates(k, Install(k, t, n)) && SameRecords(k, Install(k, t, n))
  {
  }

  lemma HandOverSame(k: Kernel, m: PendingSend, t: nat)
    requires t in k.tasks
    ensures SameStates(k, HandOver(k, m, t)) && SameRecords(k, HandOver(k, m, t))
  {
    var k1 := InstallIf(k, t, m.transfer);
    TouchSame(k, t, k.tasks[t].regs, 0, if m.transfer.Some? then m.transfer.value else 0);
    TouchSame(k1, t, Filled(k1.tasks[t].regs, m, SlotIf(k, t, m.transfer)), 0, 0);
  }

  lemma FailOneKeeps(k: Kernel, waiting: set<nat>, idle: nat, t: nat)
    requires Scheduled(k, waiting, idle) && t in waiting
    ensures Scheduled(Wake(SetEax(k, t, U32_MAX), t), waiting - {t}, idle)
    ensures SameRecords(k, Wake(SetEax(k, t, U32_MAX), t))
  {
    assert t in k.tasks;
    TouchSame(k, t, k.tasks[t].regs, U32_MAX, 0);
    hide SetEax, Wake, Scheduled;
    SameKeeps(k, SetEax(k, t, U32_MAX), waiting, idle);
    WakeKeeps(SetEax(k, t, U32_MAX), waiting, idle, t);
  }

  /** Everyone failed at an exit owned a record and loses it. */
  lemma {:induction false} FailAllKeeps(k: Kernel, waiting: set<nat>, idle: nat, ts: seq<nat>)
    requires Scheduled(k, waiting, idle) && Elems(ts) <= waiting && Distinct(ts)
    ensures Scheduled(FailAll(k, ts), waiting - Elems(ts), idle) && SameRecords(k, FailAll(k, ts))
    decreases |ts|
  {
    hide Scheduled, Wake, SetEax;
    if ts != [] {
      assert ts == [ts[0]] + ts[1..];
      assert Elems(ts) == {ts[0]} + Elems(ts[1..]);
      assert ts[0] !in ts[1..];
      FailOneKeeps(k, waiting, idle, ts[0]);
      FailAllKeeps(Wake(SetEax(k, ts[0], U32_MAX), ts[0]), waiting - {ts[0]}, idle, ts[1..]);
      assert waiting - {ts[0]} - Elems(ts[1..]) == waiting - Elems(ts);
    } else {
      assert waiting - Elems(ts) == waiting;
    }
  }

  // ----- pending records -----

  lemma ElemsWithout(s: seq<nat>, i: nat)
    requires Distinct(s) && i < |s|
    ensures Distinct(Without(s, i)) && Elems(Without(s, i)) == Elems(s) - {s[i]} && s[i] in Elems(s)
  {
    var r := Without(s, i);
    forall t | t in s && t != s[i] ensures t in r {
      var j :| 0 <= j < |s| && s[j] == t;
      assert r[if j < i then j else j - 1] == t;
    }
  }

  lemma ElemsWith(s: seq<nat>, i: nat, x: nat)
    requires Distinct(s) && i <= |s| && x !in s
    ensures Distinct(s[..i] + [x] + s[i..]) && Elems(s[..i] + [x] + s[i..]) == Elems(s) + {x}
  {
    var r := s[..i] + [x] + s[i..];
    forall t | t in s ensures t in r {
      var j :| 0 <= j < |s| && s[j] == t;
      assert r[if j < i then j else j + 1] == t;
    }
    assert r[i] == x;
  }

  lemma RecvGone(k: Kernel, i: nat)
    requires Distinct(Owners(k)) && i < |k.recvs|
    ensures var k' := k.(recvs := Without(k.recvs, i));
            Distinct(Owners(k')) && Elems(Owners(k')) == Elems(Owners(k)) - {k.recvs[i].task}
                && k.recvs[i].task in Elems(Owners(k))
  {
    ElemsWithout(Owners(k), i);
    assert Owners(k.(recvs := Without(k.recvs, i))) == Without(Owners(k), i);
  }

  lemma SendGone(k: Kernel, i: nat)
    requires Distinct(Owners(k)) && i < |k.sends|
    ensures var k' := k.(sends := Without(k.sends, i));
            Distinct(Owners(k')) && Elems(Owners(k')) == Elems(Owners(k)) - {k.sends[i].task}
                && k.sends[i].task in Elems(Owners(k))
  {
    ElemsWithout(Owners(k), |k.recvs| + i);
    assert Owners(k.(sends := Without(k.sends, i))) == Without(Owners(k), |k.recvs| + i);
  }

  lemma RecvAdded(k: Kernel, x: PendingRecv)
    requires Distinct(Owners(k)) && x.task !in Elems(Owners(k))
    ensures var k' := k.(recvs := k.recvs + [x]);
            Distinct(Owners(k')) && Elems(Owners(k')) == Elems(Owners(k)) + {x.task}
  {
    ElemsWith(Owners(k), |k.recvs|, x.task);
    assert Owners(k.(recvs := k.recvs + [x])) == Owners(k)[..|k.recvs|] + [x.task] + Owners(k)[|k.recvs|..];
  }

  lemma SendAdded(k: Kernel, x: PendingSend)
    requires Distinct(Owners(k)) && x.task !in Elems(Owners(k))
    ensures var k' := k.(sends := k.sends + [x]);
            Distinct(Owners(k')) && Elems(Owners(k')) == Elems(Owners(k)) + {x.task}
  {
    ElemsWith(Owners(k), |Owners(k)|, x.task);
    assert Owners(k.(sends := k.sends + [x])) == Owners(k)[..|Owners(k)|] + [x.task] + Owners(k)[|Owners(k)|..];
  }

  /** Removing records cannot create a meeting that was missed. */
  lemma RendezvousShrinks(k: Kernel, k': Kernel)
    requires Rendezvous(k)
    requires forall i | 0 <= i < |k'.recvs| :: k'.recvs[i] in k.recvs
    requires forall i | 0 <= i < |k'.sends| :: k'.sends[i] in k.sends
    requires forall i | 0 <= i < |k'.events| :: k'.events[i] in k.events
    ensures Rendezvous(k')
  {
  }

  // ----- operations -----

  lemma Member(k: Kernel, waiting: set<nat>, idle: nat)
    requires Scheduled(k, waiting, idle)
    ensures k.current in k.tasks && !k.panicked && k.current !in waiting && forall t | t in waiting :: t in k.tasks
  {
  }

  lemma SendKeeps(k: Kernel, idle: nat, m: PendingSend)
    requires Inv(k, idle) && k.current != idle && m.task == k.current
    ensures Inv(Send(k, m), idle)
  {
    hide Scheduled, Wake, SetEax, HandOver, Owners, Switch, SetState, Elems, Distinct;
    var pos := FirstRecv(k.recvs, m.endpoint);
    Member(k, Elems(Owners(k)), idle);
    if pos < |k.recvs| {
      var t := k.recvs[pos].task;
      RecvGone(k, pos);
      var k1 := k.(recvs := Without(k.recvs, pos));
      SameKeeps(k, k1, Elems(Owners(k)), idle);
      MeetKeeps(k1, Elems(Owners(k)), idle, m, t, m.task, t);
      RendezvousShrinks(k, k1);
      OwnersOf(k1, Send(k, m));
    } else {
      var k1 := k.(sends := k.sends + [m]);
      SendAdded(k, m);
      SameKeeps(k, k1, Elems(Owners(k)), idle);
      SwitchKeeps(k1, Elems(Owners(k)), idle, Blocked);
      OwnersOf(k1, Send(k, m));
    }
  }

  lemma OwnersOf(k: Kernel, k': Kernel)
    requires SameRecords(k, k')
    ensures Owners(k') == Owners(k) && Rendezvous(k') == Rendezvous(k)
  {
  }

  /** A completed rendezvous: `to` gets the message, `from` its result, `woken` (the one that was
      waiting) becomes ready. */
  lemma MeetKeeps(k: Kernel, waiting: set<nat>, idle: nat, m: PendingSend, to: nat, from: nat, woken: nat)
    requires Scheduled(k, waiting, idle) && to in k.tasks && from in k.tasks && woken in waiting
    ensures var k' := Wake(SetEax(HandOver(k, m, to), from, 0), woken);
            Scheduled(k', waiting - {woken}, idle) && SameRecords(k, k')
  {
    hide HandOver, SetEax, Scheduled, Wake;
    var k1 := HandOver(k, m, to);
    HandOverSame(k, m, to);
    TouchSame(k1, from, k1.tasks[from].regs, 0, 0);
    var k2 := SetEax(k1, from, 0);
    SameKeeps(k, k1, waiting, idle);
    SameKeeps(k1, k2, waiting, idle);
    WakeKeeps(k2, waiting, idle, woken);
  }

  lemma AckSame(k: Kernel, e: nat, irq: nat)
    ensures SameStates(k, TakeAck(k, e)) && SameRecords(k, TakeAck(k, e))
    ensures SameStates(k, SetAck(k, e, irq)) && SameRecords(k, SetAck(k, e, irq))
    ensures TakeAck(k, e).tasks == k.tasks && SetAck(k, e, irq).tasks == k.tasks
  {
  }

  lemma DeliverKeeps(k: Kernel, idle: nat, e: nat)
    requires Inv(k, idle) && k.current != idle && CanDeliver(k, e)
    ensures Inv(Deliver(k, e), idle)
  {
    hide Scheduled, Wake, SetEax, HandOver, SetAck, SetRegs, Owners, Notified, Elems, Distinct;
    var pos := FirstSend(k.sends, e);
    Member(k, Elems(Owners(k)), idle);
    if pos < |k.sends| {
      var m := k.sends[pos];
      SendGone(k, pos);
      var k1 := k.(sends := Without(k.sends, pos));
      SameKeeps(k, k1, Elems(Owners(k)), idle);
      MeetKeeps(k1, Elems(Owners(k)), idle, m, k.current, m.task, m.task);
      RendezvousShrinks(k, k1);
      OwnersOf(k1, Deliver(k, e));
    } else {
      var ev := FirstEvent(k.events, e);
      var v := k.events[ev];
      var k1 := k.(events := Without(k.events, ev));
      EventGone(k, ev);
      SameKeeps(k, k1, Elems(Owners(k)), idle);
      NotedKeeps(k1, Elems(Owners(k)), idle, v, k.current, e);
      OwnersOf(k1, Deliver(k, e));
    }
  }

  lemma EventGone(k: Kernel, i: nat)
    requires i < |k.events| && Rendezvous(k)
    ensures var k' := k.(events := Without(k.events, i)); Owners(k') == Owners(k) && Rendezvous(k')
  {
    RendezvousShrinks(k, k.(events := Without(k.events, i)));
  }

  /** An interrupt written into a task's registers. */
  lemma NotedKeeps(k: Kernel, waiting: set<nat>, idle: nat, v: IrqEvent, t: nat, e: nat)
    requires Scheduled(k, waiting, idle) && t in k.tasks
    ensures var k1 := SetAck(k, e, v.irq); t in k1.tasks
    ensures var k1 := SetAck(k, e, v.irq);
            var k2 := SetRegs(k1, t, Notified(k1.tasks[t].regs, v));
            Scheduled(k2, waiting, idle) && SameRecords(k, k2) && k1.current == k.current
  {
    hide Scheduled, SetAck, SetRegs;
    var k1 := SetAck(k, e, v.irq);
    AckSame(k, e, v.irq);
    TouchSame(k1, t, Notified(k1.tasks[t].regs, v), 0, 0);
    SameKeeps(k, k1, waiting, idle);
    SameKeeps(k1, SetRegs(k1, t, Notified(k1.tasks[t].regs, v)), waiting, idle);
  }

  lemma RecvKeeps(k: Kernel, idle: nat, e: nat)
    requires Inv(k, idle) && k.current != idle
    ensures Inv(Recv(k, e), idle) && Inv(TryRecv(k, e), idle)
  {
    hide Scheduled, TakeAck, Owners, SetEax, Deliver, CanDeliver, Switch, SetState, Elems, Distinct;
    var k1 := TakeAck(k, e);
    AckSame(k, e, 0);
    SameKeeps(k, k1, Elems(Owners(k)), idle);
    OwnersOf(k, k1);
    Member(k1, Elems(Owners(k1)), idle);
    if CanDeliver(k1, e) {
      DeliverKeeps(k1, idle, e);
    } else {
      var x := PendingRecv(k1.current, e);
      var k2 := k1.(recvs := k1.recvs + [x]);
      RecvAdded(k1, x);
      SameKeeps(k1, k2, Elems(Owners(k1)), idle);
      SwitchKeeps(k2, Elems(Owners(k1)), idle, Blocked);
      NothingPending(k1, e);
      OwnersOf(k2, Recv(k, e));
      TouchKeeps(k1, idle, k1.current, k1.tasks[k1.current].regs, U32_MAX, 0);
    }
  }

  /** Writing a task's registers or extending its table keeps the whole invariant. */
  lemma TouchKeeps(k: Kernel, idle: nat, t: nat, r: Regs, v: nat, n: nat)
    requires Inv(k, idle) && t in k.tasks
    ensures Inv(SetRegs(k, t, r), idle) && Inv(SetEax(k, t, v), idle) && Inv(Install(k, t, n), idle)
  {
    hide Scheduled, SetRegs, SetEax, Install, Owners, Elems, Distinct, Rendezvous;
    TouchSame(k, t, r, v, n);
    SameInv(k, SetRegs(k, t, r), idle);
    SameInv(k, SetEax(k, t, v), idle);
    SameInv(k, Install(k, t, n), idle);
  }

  lemma SameInv(k: Kernel, k': Kernel, idle: nat)
    requires Inv(k, idle) && SameStates(k, k') && SameRecords(k, k')
    ensures Inv(k', idle)
  {
    hide Scheduled, Elems, Distinct;
    OwnersOf(k, k');
    SameKeeps(k, k', Elems(Owners(k)), idle);
  }

  lemma NothingPending(k: Kernel, e: nat)
    requires !CanDeliver(k, e)
    ensures forall j | 0 <= j < |k.sends| :: k.sends[j].endpoint != e
    ensures forall j | 0 <= j < |k.events| :: k.events[j].endpoint != e
  {
  }

  lemma NotifyKeeps(k: Kernel, idle: nat, v: IrqEvent)
    requires Inv(k, idle)
    ensures Inv(Notify(k, v), idle)
  {
    hide Scheduled, Wake, SetAck, SetRegs, Owners, Notified, Elems, Distinct;
    var pos := FirstRecv(k.recvs, v.endpoint);
    if pos < |k.recvs| {
      var t := k.recvs[pos].task;
      RecvGone(k, pos);
      var k1 := k.(recvs := Without(k.recvs, pos));
      Member(k, Elems(Owners(k)), idle);
      SameKeeps(k, k1, Elems(Owners(k)), idle);
      NotedKeeps(k1, Elems(Owners(k)), idle, v, t, v.endpoint);
      var k2 := SetAck(k1, v.endpoint, v.irq);
      var k3 := SetRegs(k2, t, Notified(k2.tasks[t].regs, v));
      WakeKeeps(k3, Elems(Owners(k)), idle, t);
      RendezvousShrinks(k, k1);
      OwnersOf(k1, Notify(k, v));
    } else {
      EventAdded(k, v);
      SameKeeps(k, k.(events := k.events + [v]), Elems(Owners(k)), idle);
    }
  }

  lemma EventAdded(k: Kernel, v: IrqEvent)
    requires Rendezvous(k) && forall i | 0 <= i < |k.recvs| :: k.recvs[i].endpoint != v.endpoint
    ensures var k' := k.(events := k.events + [v]); Owners(k') == Owners(k) && Rendezvous(k')
  {
  }

  // ----- exit -----

  /** The records an exit keeps and the tasks it fails are the two halves of the old records. */
  lemma {:induction false} RecvsSplit(s: seq<PendingRecv>, k: Kernel, owner: nat)
    requires Distinct(RecvTasks(s))
    ensures var kept, failed := RecvTasks(KeptRecvs(s, k, owner)), FailedRecvs(s, k, owner);
            && Distinct(kept) && Distinct(failed) && Elems(kept) !! Elems(failed)
            && Elems(RecvTasks(s)) == Elems(kept) + Elems(failed)
    ensures forall i | 0 <= i < |KeptRecvs(s, k, owner)| :: KeptRecvs(s, k, owner)[i] in s
  {
    if s != [] {
      var x, rest := s[0], s[1..];
      assert RecvTasks(s) == [x.task] + RecvTasks(rest);
      Halved(x.task, RecvTasks(rest));
      RecvsSplit(rest, k, owner);
      hide Dead, Elems, Distinct, RecvTasks;
      var kept, failed := KeptRecvs(rest, k, owner), FailedRecvs(rest, k, owner);
      if Dead(k, x.endpoint, owner) {
        assert KeptRecvs(s, k, owner) == kept && FailedRecvs(s, k, owner) == [x.task] + failed;
        Prepended(x.task, failed);
      } else {
        assert KeptRecvs(s, k, owner) == [x] + kept && FailedRecvs(s, k, owner) == failed;
        assert RecvTasks([x] + kept) == [x.task] + RecvTasks(kept);
        Prepended(x.task, RecvTasks(kept));
      }
    }
  }

  lemma {:induction false} SendsSplit(s: seq<PendingSend>, k: Kernel, owner: nat)
    requires Distinct(SendTasks(s))
    ensures var kept, failed := SendTasks(KeptSends(s, k, owner)), FailedSends(s, k, owner);
            && Distinct(kept) && Distinct(failed) && Elems(kept) !! Elems(failed)
            && Elems(SendTasks(s)) == Elems(kept) + Elems(failed)
    ensures forall i | 0 <= i < |KeptSends(s, k, owner)| :: KeptSends(s, k, owner)[i] in s
  {
    if s != [] {
      var x, rest := s[0], s[1..];
      assert SendTasks(s) == [x.task] + SendTasks(rest);
      Halved(x.task, SendTasks(rest));
      SendsSplit(rest, k, owner);
      hide Dead, Elems, Distinct, SendTasks;
      var kept, failed := KeptSends(rest, k, owner), FailedSends(rest, k, owner);
      if Dead(k, x.endpoint, owner) {
        assert KeptSends(s, k, owner) == kept && FailedSends(s, k, owner) == [x.task] + failed;
        Prepended(x.task, failed);
      } else {
        assert KeptSends(s, k, owner) == [x] + kept && FailedSends(s, k, owner) == failed;
        assert SendTasks([x] + kept) == [x.task] + SendTasks(kept);
        Prepended(x.task, SendTasks(kept));
      }
    }
  }

  lemma Halved(x: nat, s: seq<nat>)
    requires Distinct([x] + s)
    ensures Distinct(s) && x !in Elems(s) && Elems([x] + s) == {x} + Elems(s)
  {
    assert ([x] + s)[0] == x && ([x] + s)[1..] == s;
    forall i, j | 0 <= i < j < |s| ensures s[i] != s[j] {
      assert ([x] + s)[i + 1] == s[i] && ([x] + s)[j + 1] == s[j];
    }
    forall j | 0 <= j < |s| ensures s[j] != x {
      assert ([x] + s)[j + 1] == s[j];
    }
  }

  lemma Prepended(x: nat, s: seq<nat>)
    requires Distinct(s)
    ensures Elems([x] + s) == {x} + Elems(s) && (x !in Elems(s) ==> Distinct([x] + s))
  {
    assert ([x] + s)[0] == x && ([x] + s)[1..] == s;
    forall t | t in s ensures t in [x] + s {
      var j :| 0 <= j < |s| && s[j] == t;
      assert ([x] + s)[j + 1] == t;
    }
  }

  lemma {:induction false} EventsKept(s: seq<IrqEvent>, k: Kernel, owner: nat)
    ensures forall i | 0 <= i < |KeptEvents(s, k, owner)| :: KeptEvents(s, k, owner)[i] in s
  {
    if s != [] {
      EventsKept(s[1..], k, owner);
    }
  }

  /** Concatenation without repetition: both parts without, and nothing in common. */
  lemma Joined(a: seq<nat>, b: seq<nat>)
    ensures Elems(a + b) == Elems(a) + Elems(b)
    ensures Distinct(a + b) <==> Distinct(a) && Distinct(b) && Elems(a) !! Elems(b)
  {
    if Distinct(a + b) {
      forall i, j | 0 <= i < j < |a| ensures a[i] != a[j] { assert (a + b)[i] == a[i] && (a + b)[j] == a[j]; }
      forall i, j | 0 <= i < j < |b| ensures b[i] != b[j] { assert (a + b)[|a| + i] == b[i]
          && (a + b)[|a| + j] == b[j]; }
      forall i, j | 0 <= i < |a| && 0 <= j < |b|
          ensures a[i] != b[j] { assert (a + b)[i] == a[i] && (a + b)[|a| + j] == b[j]; }
    } else if Distinct(a) && Distinct(b) {
      var i, j :| 0 <= i < j < |a + b| && (a + b)[i] == (a + b)[j];
      assert i < |a| <= j;
      assert a[i] in Elems(a) && b[j - |a|] in Elems(b);
    }
  }

  lemma ExitedKeeps(k: Kernel, idle: nat, owner: nat)
    requires Inv(k, idle)
    ensures Inv(TaskExited(k, owner), idle)
  {
    hide Scheduled, FailAll, Distinct, Elems, Rendezvous, RecvTasks, SendTasks, Dead;
    var w := Elems(Owners(k));
    Joined(RecvTasks(k.recvs), SendTasks(k.sends));
    RecvsSplit(k.recvs, k, owner);
    SendsSplit(k.sends, k, owner);
    EventsKept(k.events, k, owner);
    var f1, f2 := FailedRecvs(k.recvs, k, owner), FailedSends(k.sends, k, owner);
    var k0 := k.(recvs := KeptRecvs(k.recvs, k, owner));
    SameKeeps(k, k0, w, idle);
    FailAllKeeps(k0, w, idle, f1);
    var k1 := FailAll(k0, f1);
    var k2 := k1.(sends := KeptSends(k.sends, k, owner));
    SameKeeps(k1, k2, w - Elems(f1), idle);
    FailAllKeeps(k2, w - Elems(f1), idle, f2);
    var k3 := FailAll(k2, f2);
    var k4 := k3.(events := KeptEvents(k.events, k, owner));
    SameKeeps(k3, k4, w - Elems(f1) - Elems(f2), idle);
    Joined(RecvTasks(k4.recvs), SendTasks(k4.sends));
    assert Elems(Owners(k4)) == w - Elems(f1) - Elems(f2);
    RendezvousShrinks(k, k4);
  }

  lemma ExitKeeps(k: Kernel, idle: nat)
    requires Inv(k, idle) && k.current != idle
    ensures Inv(Exit(k), idle)
  {
    hide Scheduled, Switch, SetState, Elems, Distinct, Owners, Rendezvous, TaskExited;
    var k1 := Switch(SetState(k, k.current, Zombie));
    SwitchKeeps(k, Elems(Owners(k)), idle, Zombie);
    OwnersOf(k, k1);
    ExitedKeeps(k1, idle, k.current);
  }

  // ----- steps and runs -----

  /** Steps that only mint, revoke, create or register leave tasks and records alone. */
  lemma TablesKeep(k: Kernel, k': Kernel, idle: nat)
    requires Inv(k, idle) && k'.tasks == k.tasks && k'.ready == k.ready && k'.current == k.current
             && k'.panicked == k.panicked
    requires SameRecords(k, k')
    ensures Inv(k', idle)
  {
    hide Scheduled, Elems, Distinct, Owners, Rendezvous;
    SameInv(k, k', idle);
  }

  lemma CurrentIn(k: Kernel, idle: nat)
    requires Inv(k, idle)
    ensures k.current in k.tasks
  {
  }

  lemma RegisterSame(k: Kernel, irq: nat, e: nat)
    ensures var k' := RegisterIrq(k, irq, e);
            && k'.tasks == k.tasks && k'.ready == k.ready && k'.current == k.current && k'.panicked == k.panicked
            && SameRecords(k, k')
  {
  }

  lemma SysSendKeeps(k: Kernel, idle: nat, r: Regs)
    requires Inv(k, idle) && k.current != idle
    ensures Inv(SysSend(k, r), idle)
  {
    hide Inv, Send, SetEax, MintDerived;
    CurrentIn(k, idle);
    match ResolveSlot(k, r.ebx)
    case Some((Endpoint(e), _)) =>
      var src := CurrentNode(k, r.edi);
      var msg := (r.ecx, r.edx, r.esi);
      if r.edi != 0 && src.Some? && Resolve(k.nodes, src.value).Some? {
        DerivedSendKeeps(k, idle, src.value, Resolve(k.nodes, src.value).value.1,
            PendingSend(k.current, e, msg, Some(|k.nodes|)));
      } else {
        SendKeeps(k, idle, PendingSend(k.current, e, msg, None));
      }
    case _ => TouchKeeps(k, idle, k.current, r, U32_MAX, 0);
  }

  lemma DerivedSendKeeps(k: Kernel, idle: nat, parent: nat, badge: nat, m: PendingSend)
    requires Inv(k, idle) && k.current != idle && m.task == k.current
    ensures Inv(Send(MintDerived(k, parent, badge), m), idle)
  {
    hide Inv, Send;
    var k1 := MintDerived(k, parent, badge);
    TablesKeep(k, k1, idle);
    SendKeeps(k1, idle, m);
  }

  /** Minting into the caller's table and answering with the slot. */
  lemma GrantKeeps(k: Kernel, k1: Kernel, idle: nat, n: nat, r: Regs, v: nat)
    requires Inv(k, idle) && k1.tasks == k.tasks && k1.ready == k.ready && k1.current == k.current
             && k1.panicked == k.panicked
    requires SameRecords(k, k1)
    ensures Inv(SetEax(Install(k1, k.current, n), k.current, v), idle)
            && Inv(SetRegs(Install(k1, k.current, n), k.current, r), idle)
  {
    hide Inv, SetEax, SetRegs;
    CurrentIn(k, idle);
    TablesKeep(k, k1, idle);
    TouchKeeps(k1, idle, k.current, r, v, n);
    var k2 := Install(k1, k.current, n);
    TouchKeeps(k2, idle, k.current, r, v, n);
  }

  lemma EndpointCreateKeeps(k: Kernel, idle: nat)
    requires Inv(k, idle)
    ensures Inv(SysEndpointCreate(k), idle)
  {
    hide Inv, SetEax, SetRegs, Install, NextSlot;
    var k1 := MintRoot(k.(endpoints := k.endpoints + [EndpointMeta(k.current, None)]), Endpoint(|k.endpoints|));
    GrantKeeps(k, k1, idle, |k.nodes|, Regs(0, 0, 0, 0, 0, 0), NextSlot(k, k.current));
  }

  lemma MintBadgedKeeps(k: Kernel, idle: nat, r: Regs)
    requires Inv(k, idle)
    ensures Inv(SysMintBadged(k, r), idle)
  {
    hide Inv, SetEax, SetRegs, Install, NextSlot;
    CurrentIn(k, idle);
    var src := CurrentNode(k, r.ebx);
    if src.Some? {
      GrantKeeps(k, MintDerived(k, src.value, r.ecx), idle, |k.nodes|, r, NextSlot(k, k.current));
    }
    TouchKeeps(k, idle, k.current, r, U32_MAX, 0);
  }

  lemma MemAllocKeeps(k: Kernel, idle: nat, r: Regs, w: World)
    requires Inv(k, idle)
    ensures Inv(SysMemAlloc(k, r, w), idle)
  {
    hide Inv, SetEax, SetRegs, Install, NextSlot;
    CurrentIn(k, idle);
    if w.loads {
      var k1 := MintRoot(k, MemoryGrant(w.phys, 4096 * (if r.ecx == 0 then 1 else r.ecx), true));
      GrantKeeps(k, k1, idle, |k.nodes|, r.(eax := NextSlot(k, k.current), ecx := w.phys), 0);
    } else {
      TouchKeeps(k, idle, k.current, r.(eax := 0, ecx := 0), 0, 0);
    }
  }

  lemma SysRecvKeeps(k: Kernel, idle: nat, r: Regs)
    requires Inv(k, idle) && k.current != idle
    ensures Inv(SysRecv(k, r), idle) && Inv(SysTryRecv(k, r), idle)
  {
    hide Inv, SetEax, Recv, TryRecv;
    CurrentIn(k, idle);
    match ResolveSlot(k, r.ebx)
    case Some((Endpoint(e), _)) => RecvKeeps(k, idle, e);
    case _ =>
      TouchKeeps(k, idle, k.current, r, U32_MAX, 0);
      TouchKeeps(k, idle, k.current, r, U32_MAX - 1, 0);
  }

  lemma MapMemoryKeeps(k: Kernel, idle: nat, r: Regs, w: World)
    requires Inv(k, idle)
    ensures Inv(SysMapMemory(k, r, w), idle)
  {
    hide Inv, SetEax;
    CurrentIn(k, idle);
    TouchKeeps(k, idle, k.current, r, U32_MAX, 0);
    TouchKeeps(k, idle, k.current, r, 0, 0);
  }

  lemma SyscallKeeps(k0: Kernel, idle: nat, r: Regs, w: World)
    requires Inv(k0, idle) && k0.current != idle
    ensures Inv(Syscall(k0, r, w), idle)
  {
    CurrentIn(k0, idle);
    var k := SetRegs(k0, k0.current, r);
    assert k.current == k0.current && k.current in k.tasks;
    TouchKeeps(k0, idle, k0.current, r, 0, 0);
    hide Inv, SetRegs;
    ServeKeeps(k, idle, r, w);
  }

  lemma ServeKeeps(k: Kernel, idle: nat, r: Regs, w: World)
    requires Inv(k, idle) && k.current != idle
    ensures Inv(Serve(k, r, w), idle)
  {
    hide Inv, SetEax, Exit, SysSend, SysRegisterIrq, SysRevoke, SysRecv, SysTryRecv, SysSpawn, SysMapMemory,
         SysEndpointCreate, SysMintBadged, SysMemAlloc, Tick;
    CurrentIn(k, idle);
    if r.eax == 0 {
      ExitKeeps(k, idle);
    } else if r.eax == 1 {
      YieldKeeps(k, idle);
    } else if r.eax == 2 {
      SysSendKeeps(k, idle, r);
    } else if r.eax == 3 || r.eax == 15 {
      SysRecvKeeps(k, idle, r);
    } else if r.eax == 4 {
      TouchKeeps(k, idle, k.current, r, k.current, 0);
    } else if r.eax == 6 {
      RegisterKeeps(k, idle, r);
    } else if r.eax == 7 {
      MapMemoryKeeps(k, idle, r, w);
    } else if r.eax == 8 || r.eax == 13 {
      SysSpawnKeeps(k, idle, w);
    } else if r.eax == 9 {
      EndpointCreateKeeps(k, idle);
    } else if r.eax == 10 {
      MintBadgedKeeps(k, idle, r);
    } else if r.eax == 11 {
      RevokeKeeps(k, idle, r);
    } else if r.eax == 12 {
      MemAllocKeeps(k, idle, r, w);
    } else {
      TouchKeeps(k, idle, k.current, r, U32_MAX, 0);
    }
  }

  lemma YieldKeeps(k: Kernel, idle: nat)
    requires Inv(k, idle)
    ensures Inv(Tick(SetEax(k, k.current, 0)), idle) && Inv(Tick(k), idle)
  {
    Member(k, Elems(Owners(k)), idle);
    hide Scheduled, Elems, Distinct, Owners, Rendezvous, SetEax, Tick;
    TouchKeeps(k, idle, k.current, Regs(0, 0, 0, 0, 0, 0), 0, 0);
    var k1 := SetEax(k, k.current, 0);
    TickKeeps(k, Elems(Owners(k)), idle);
    TickKeeps(k1, Elems(Owners(k1)), idle);
    OwnersOf(k, Tick(k));
    OwnersOf(k1, Tick(k1));
  }

  lemma RegisterKeeps(k: Kernel, idle: nat, r: Regs)
    requires Inv(k, idle)
    ensures Inv(SysRegisterIrq(k, r), idle)
  {
    hide Inv, SetEax, RegisterIrq;
    CurrentIn(k, idle);
    TouchKeeps(k, idle, k.current, r, U32_MAX, 0);
    match ResolveSlot(k, r.ebx)
    case Some((IrqControl(irq, e), _)) => RegisteredKeeps(k, idle, irq, e);
    case _ =>
  }

  lemma RegisteredKeeps(k: Kernel, idle: nat, irq: nat, e: nat)
    requires Inv(k, idle)
    ensures Inv(SetEax(RegisterIrq(k, irq, e), k.current, 0), idle)
  {
    hide Inv, SetEax, RegisterIrq;
    CurrentIn(k, idle);
    var k1 := RegisterIrq(k, irq, e);
    RegisterSame(k, irq, e);
    TablesKeep(k, k1, idle);
    TouchKeeps(k1, idle, k1.current, Regs(0, 0, 0, 0, 0, 0), 0, 0);
  }

  lemma SysSpawnKeeps(k: Kernel, idle: nat, w: World)
    requires Inv(k, idle)
    ensures Inv(SysSpawn(k, w), idle)
  {
    CurrentIn(k, idle);
    assert Spawn(k).current == k.current;
    SpawnInv(k, idle);
    CurrentIn(Spawn(k), idle);
    hide Inv, SetEax, Spawn;
    TouchKeeps(k, idle, k.current, Regs(0, 0, 0, 0, 0, 0), 0, 0);
    TouchKeeps(Spawn(k), idle, k.current, Regs(0, 0, 0, 0, 0, 0), NewTaskId(k), 0);
  }

  lemma SpawnInv(k: Kernel, idle: nat)
    requires Inv(k, idle)
    ensures Inv(Spawn(k), idle)
  {
    hide Scheduled, Elems, Distinct, Owners, Rendezvous, Spawn;
    SpawnKeeps(k, Elems(Owners(k)), idle);
    OwnersOf(k, Spawn(k));
  }

  lemma RevokeKeeps(k: Kernel, idle: nat, r: Regs)
    requires Inv(k, idle)
    ensures Inv(SysRevoke(k, r), idle)
  {
    hide Inv, SetEax, Revoked;
    CurrentIn(k, idle);
    TouchKeeps(k, idle, k.current, r, 0, 0);
    var n := CurrentNode(k, r.ebx);
    if n.Some? {
      var k1 := k.(nodes := Revoked(k.nodes, n.value));
      TablesKeep(k, k1, idle);
      TouchKeeps(k1, idle, k.current, r, 0, 0);
    }
  }

  /** Every enabled step keeps the invariant; in particular no queue pop and no task lookup fails. */
  lemma StepKeeps(k: Kernel, idle: nat, op: Op)
    requires Inv(k, idle) && Enabled(k, idle, op)
    ensures Inv(Step(k, op), idle)
  {
    hide Scheduled, Elems, Distinct, Owners, Rendezvous, Tick, Syscall, Notify;
    match op
    case Timer => YieldKeeps(k, idle);
    case Trap(r, w) => SyscallKeeps(k, idle, r, w);
    case Line(irq, data) =>
      if HandlerFor(k, irq).Some? {
        var k1 := k.(masked := k.masked[irq := true]);
        TablesKeep(k, k1, idle);
        NotifyKeeps(k1, idle, IrqEvent(HandlerFor(k, irq).value, irq, data));
      }
    case Key(c) =>
      if HandlerFor(k, 1).Some? {
        NotifyKeeps(k, idle, IrqEvent(HandlerFor(k, 1).value, 1, c));
      }
  }

  /** In every state reachable by enabled steps the invariant holds. */
  lemma {:induction false} RunKeeps(k: Kernel, idle: nat, ops: seq<Op>)
    requires Inv(k, idle) && Legal(k, idle, ops)
    ensures Inv(Run(k, ops), idle)
    decreases |ops|
  {
    if ops != [] {
      StepKeeps(k, idle, ops[0]);
      RunKeeps(Step(k, ops[0]), idle, ops[1..]);
    }
  }

  /** Boot: every task spawned and ready, nothing pending; `start` runs the first one. */
  ghost predicate Booted(k: Kernel, idle: nat) {
    && !k.panicked && k.recvs == [] && k.sends == [] && k.events == [] && idle in k.tasks
    && (forall t: nat :: t in k.tasks <==> 1 <= t <= |k.tasks|)
    && (forall t | t in k.tasks :: k.tasks[t].state == Ready)
    && Distinct(k.ready) && (forall t: nat :: t in k.ready <==> t in k.tasks)
  }

  lemma StartEstablishes(k: Kernel, idle: nat)
    requires Booted(k, idle)
    ensures Inv(Switch(k), idle)
  {
    assert idle in k.ready;
    assert k.ready[0] in k.ready && k.ready[0] !in k.ready[1..];
    SetStateIs(k, k.ready[0], Running);
    hide SetState;
  }
}
