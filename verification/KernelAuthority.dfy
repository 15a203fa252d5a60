/**
 Who holds which capability, over whole runs: revocation is permanent and reaches copies made
 later or still travelling with a message, and every node sits in at most one place.
 */
module KernelAuthority {
  import opened Bytes
  import opened KernelState
  import opened KernelSched
  import opened KernelCaps

  /** Task `u`'s capability table; a task not yet created has only the empty slot 0. */
  ghost function Table(k: Kernel, u: nat): seq<Option<nat>> {
    if u in k.tasks then k.tasks[u].cspace else [None]
  }

  /** Task `t` gets `given` in a new last slot; nothing else in any table changes. */
  ghost predicate Gives(k: Kernel, k': Kernel, t: nat, given: Option<nat>) {
    forall u: nat :: Table(k', u) == Table(k, u) + (if u == t && given.Some? then [given] else [])
  }

  /** Nothing is minted, revoked or put in flight, and task `t` gets `given`. */
  ghost predicate Passes(k: Kernel, k': Kernel, t: nat, given: Option<nat>) {
    k'.nodes == k.nodes && k'.sends == k.sends && Gives(k, k', t, given)
  }

  lemma PassesTrans(a: Kernel, b: Kernel, c: Kernel, t: nat, g: Option<nat>, u: nat, h: Option<nat>)
    requires Passes(a, b, t, g) && Passes(b, c, u, h) && (g.None? || h.None?)
    ensures Passes(a, c, if g.Some? then t else u, if g.Some? then g else h)
  {
  }

  // ----- primitives -----

  lemma TouchPasses(k: Kernel, t: nat, v: nat, r: Regs, s: TaskState)
    ensures Passes(k, SetEax(k, t, v), 0, None) && Passes(k, SetRegs(k, t, r), 0, None)
    ensures Passes(k, SetState(k, t, s), 0, None) && Passes(k, Wake(k, t), 0, None)
  {
  }

  lemma FailOnePasses(k: Kernel, t: nat, v: nat)
    ensures Passes(k, Wake(SetEax(k, t, v), t), 0, None)
  {
    hide SetEax, Wake, Passes;
    TouchPasses(k, t, v, Regs(0, 0, 0, 0, 0, 0), Ready);
    TouchPasses(SetEax(k, t, v), t, v, Regs(0, 0, 0, 0, 0, 0), Ready);
    PassesTrans(k, SetEax(k, t, v), Wake(SetEax(k, t, v), t), 0, None, 0, None);
  }

  lemma {:induction false} FailAllPasses(k: Kernel, ts: seq<nat>)
    ensures Passes(k, FailAll(k, ts), 0, None)
    decreases |ts|
  {
    if ts == [] {
      hide Table;
    } else {
      hide Wake, SetEax, Passes;
      var k1 := Wake(SetEax(k, ts[0], U32_MAX), ts[0]);
      FailOnePasses(k, ts[0], U32_MAX);
      FailAllPasses(k1, ts[1..]);
      PassesTrans(k, k1, FailAll(k1, ts[1..]), 0, None, 0, None);
    }
  }

  lemma SwitchPasses(k: Kernel, s: TaskState)
    ensures Passes(k, Switch(SetState(k, k.current, s)), 0, None)
  {
    var k1 := SetState(k, k.current, s);
    TouchPasses(k, k.current, 0, Regs(0, 0, 0, 0, 0, 0), s);
    if k1.ready != [] {
      TouchPasses(k1, k1.ready[0], 0, Regs(0, 0, 0, 0, 0, 0), Running);
      hide SetState;
    }
  }

  lemma TickPasses(k: Kernel)
    ensures Passes(k, Tick(k), 0, None)
  {
    if k.ready != [] {
      var k0 := k.(ready := k.ready + [k.current]);
      assert Passes(k, k0, 0, None);
      hide SetState, Switch, Passes;
      SwitchPasses(k0, Ready);
      PassesTrans(k, k0, Tick(k), 0, None, 0, None);
    }
  }

  lemma HandOverPasses(k: Kernel, m: PendingSend, t: nat)
    requires t in k.tasks
    ensures Passes(k, HandOver(k, m, t), t, m.transfer)
  {
  }

  lemma MeetPasses(k: Kernel, m: PendingSend, to: nat, from: nat, woken: nat)
    requires to in k.tasks
    ensures Passes(k, Wake(SetEax(HandOver(k, m, to), from, 0), woken), to, m.transfer)
  {
    HandOverPasses(k, m, to);
    hide HandOver, Wake, SetEax, Passes;
    var k1 := HandOver(k, m, to);
    var k2 := SetEax(k1, from, 0);
    TouchPasses(k1, from, 0, Regs(0, 0, 0, 0, 0, 0), Ready);
    TouchPasses(k2, woken, 0, Regs(0, 0, 0, 0, 0, 0), Ready);
    PassesTrans(k, k1, k2, to, m.transfer, 0, None);
    PassesTrans(k, k2, Wake(k2, woken), to, m.transfer, 0, None);
  }

  // ----- holders -----

  ghost predicate Holds(k: Kernel, t: nat, s: nat, n: nat) {
    s < |Table(k, t)| && Table(k, t)[s] == Some(n)
  }

  /** Node `n` travels with the pending message `m`. */
  ghost predicate Carries(k: Kernel, m: PendingSend, n: nat) {
    m in k.sends && m.transfer == Some(n)
  }

  /** Every node is in at most one slot of one task, or travels with at most one message. */
  ghost predicate Unique(k: Kernel) {
    && (forall t: nat, s: nat, n: nat | Holds(k, t, s, n) :: n < |k.nodes|)
    && (forall m, n: nat | Carries(k, m, n) :: n < |k.nodes|)
    && (forall t: nat, s: nat, t': nat, s': nat, n: nat | Holds(k, t, s, n) && Holds(k, t', s', n) ::
       t == t' && s == s')
    && (forall m, m', n: nat | Carries(k, m, n) && Carries(k, m', n) :: m == m')
    && (forall m, t: nat, s: nat, n: nat | Carries(k, m, n) :: !Holds(k, t, s, n))
  }

  lemma HoldsAfter(k: Kernel, k': Kernel, t: nat, given: Option<nat>)
    requires Gives(k, k', t, given)
    ensures forall u: nat, s: nat, n: nat :: Holds(k', u, s, n) <==>
            Holds(k, u, s, n) || (given == Some(n) && u == t && s == |Table(k, t)|)
  {
    hide Table;
  }

  /** A step that hands nothing over may mint and may lose pending messages. */
  lemma UniqueDrops(k: Kernel, k': Kernel)
    requires Unique(k) && Gives(k, k', 0, None) && |k.nodes| <= |k'.nodes| && forall m | m in k'.sends :: m in k.sends
    ensures Unique(k')
  {
    HoldsAfter(k, k', 0, None);
    assert forall m, n: nat | Carries(k', m, n) :: Carries(k, m, n);
    hide Holds, Gives, Carries;
  }

  /** A fresh node is installed. */
  lemma UniqueMints(k: Kernel, k': Kernel, t: nat)
    requires Unique(k) && Gives(k, k', t, Some(|k.nodes|)) && |k'.nodes| == |k.nodes| + 1 && k'.sends == k.sends
    ensures Unique(k')
  {
    HoldsAfter(k, k', t, Some(|k.nodes|));
    assert forall m, n: nat :: Carries(k', m, n) == Carries(k, m, n);
    hide Holds, Gives, Carries;
  }

  /** A message is queued, with at most a fresh node. */
  lemma UniqueQueues(k: Kernel, k': Kernel, m: PendingSend)
    requires Unique(k) && Gives(k, k', 0, None) && |k.nodes| <= |k'.nodes| && k'.sends == k.sends + [m]
    requires m.transfer.Some? ==> m.transfer.value == |k.nodes| < |k'.nodes|
    ensures Unique(k')
  {
    HoldsAfter(k, k', 0, None);
    assert forall x, n: nat :: Carries(k', x, n) <==> Carries(k, x, n) || (x == m && m.transfer == Some(n));
    hide Holds, Gives, Carries;
  }

  /** A queued message leaves the queue and its node is installed. */
  lemma UniqueDelivers(k: Kernel, k': Kernel, m: PendingSend, t: nat)
    requires Unique(k) && Gives(k, k', t, m.transfer) && k'.nodes == k.nodes && m in k.sends
    requires forall x | x in k'.sends :: x in k.sends && x != m
    ensures Unique(k')
  {
    HoldsAfter(k, k', t, m.transfer);
    assert forall x, n: nat | Carries(k', x, n) :: Carries(k, x, n) && x != m;
    assert m.transfer.Some? ==> Carries(k, m, m.transfer.value);
    hide Holds, Gives, Carries;
  }

  // ----- operations -----

  ghost predicate Sound(k: Kernel) {
    CapsOk(k.nodes) && Unique(k)
  }

  /** One operation: the node table takes one step and nodes keep one place each. */
  ghost predicate Accounted(k: Kernel, k': Kernel) {
    TableStep(k.nodes, k'.nodes) && (Unique(k) ==> Unique(k'))
  }

  /** The transferred node is the one just minted. */
  ghost predicate Minted(k0: Kernel, k: Kernel, transfer: Option<nat>) {
    && k == k0.(nodes := k.nodes) && TableStep(k0.nodes, k.nodes)
    && |k.nodes| == |k0.nodes| + (if transfer.Some? then 1 else 0)
    && (transfer.Some? ==> transfer.value == |k0.nodes|)
  }

  lemma QuietAccounted(k: Kernel, k': Kernel)
    requires Passes(k, k', 0, None)
    ensures Accounted(k, k')
  {
    hide Unique;
    if Unique(k) {
      UniqueDrops(k, k');
    }
  }

  lemma SendAccounted(k0: Kernel, k: Kernel, idle: nat, m: PendingSend)
    requires Inv(k0, idle) && Minted(k0, k, m.transfer)
    ensures Accounted(k0, Send(k, m))
  {
    hide Unique, Inv, TableStep, Gives;
    var k' := Send(k, m);
    var pos := FirstRecv(k.recvs, m.endpoint);
    if pos < |k.recvs| {
      var t := k.recvs[pos].task;
      WaitingTask(k0, idle, pos);
      var k1 := k.(recvs := Without(k.recvs, pos));
      MeetPasses(k1, m, t, m.task, t);
      SameTables(k0, k1, k', t, m.transfer);
      if Unique(k0) {
        if m.transfer.Some? {
          UniqueMints(k0, k', t);
        } else {
          GivesNothing(k0, k', t);
          UniqueDrops(k0, k');
        }
      }
    } else {
      var k1 := k.(sends := k.sends + [m]);
      SwitchPasses(k1, Blocked);
      SameTables(k0, k1, k', 0, None);
      if Unique(k0) {
        UniqueQueues(k0, k', m);
      }
    }
  }

  lemma GivesNothing(k: Kernel, k': Kernel, t: nat)
    requires Gives(k, k', t, None)
    ensures Gives(k, k', 0, None)
  {
    hide Table;
  }

  /** `Gives` looks at the tasks only. */
  lemma SameTables(k: Kernel, k1: Kernel, k': Kernel, t: nat, given: Option<nat>)
    requires k1.tasks == k.tasks && Gives(k1, k', t, given)
    ensures Gives(k, k', t, given)
  {
    assert forall u: nat :: Table(k1, u) == Table(k, u);
    hide Table;
  }

  lemma WaitingTask(k: Kernel, idle: nat, pos: nat)
    requires Inv(k, idle) && pos < |k.recvs|
    ensures k.recvs[pos].task in k.tasks && k.current in k.tasks
  {
    RecvGone(k, pos);
    Member(k, Elems(Owners(k)), idle);
  }

  lemma LeavesQueue(k: Kernel, idle: nat, pos: nat)
    requires Inv(k, idle) && pos < |k.sends|
    ensures forall x | x in Without(k.sends, pos) :: x in k.sends && x != k.sends[pos]
    ensures k.current in k.tasks
  {
    var s := k.sends;
    forall x | x in Without(s, pos) ensures x in s && x != s[pos] {
      var j :| 0 <= j < |Without(s, pos)| && Without(s, pos)[j] == x;
      var i := if j < pos then j else j + 1;
      assert s[i] == x;
      assert Owners(k)[|k.recvs| + i] == x.task && Owners(k)[|k.recvs| + pos] == s[pos].task;
    }
  }

  lemma NoStep(a: seq<CapNode>)
    ensures TableStep(a, a)
  {
  }

  lemma DeliverAccounted(k: Kernel, idle: nat, e: nat)
    requires Inv(k, idle) && CanDeliver(k, e)
    ensures Accounted(k, Deliver(k, e))
  {
    hide Unique, Inv, TableStep, Gives;
    var k' := Deliver(k, e);
    var pos := FirstSend(k.sends, e);
    NoStep(k.nodes);
    CurrentIn(k, idle);
    if pos < |k.sends| {
      var m := k.sends[pos];
      LeavesQueue(k, idle, pos);
      var k1 := k.(sends := Without(k.sends, pos));
      MeetPasses(k1, m, k.current, m.task, m.task);
      SameTables(k, k1, k', k.current, m.transfer);
      if Unique(k) {
        UniqueDelivers(k, k', m, k.current);
      }
    } else {
      var ev := FirstEvent(k.events, e);
      var k1 := SetAck(k.(events := Without(k.events, ev)), e, k.events[ev].irq);
      TouchPasses(k1, k.current, 0, Notified(k1.tasks[k.current].regs, k.events[ev]), Ready);
      SameTables(k, k1, k', 0, None);
      QuietAccounted(k, k');
    }
  }

  lemma AckPasses(k: Kernel, idle: nat, e: nat)
    requires Inv(k, idle)
    ensures var k1 := TakeAck(k, e);
            Inv(k1, idle) && k1.tasks == k.tasks && k1.nodes == k.nodes && k1.sends == k.sends
                && k1.current == k.current
  {
    AckSame(k, e, 0);
    var k1 := TakeAck(k, e);
    assert k1.nodes == k.nodes;
    hide TakeAck, Inv;
    SameInv(k, k1, idle);
  }

  /** `Unique` looks at tasks, nodes and pending messages only. */
  lemma UniqueSame(k: Kernel, k': Kernel)
    requires k'.tasks == k.tasks && k'.nodes == k.nodes && k'.sends == k.sends
    ensures Unique(k') == Unique(k)
  {
    assert forall t: nat, s: nat, n: nat :: Holds(k', t, s, n) == Holds(k, t, s, n);
    assert forall m, n: nat :: Carries(k', m, n) == Carries(k, m, n);
    hide Holds, Carries;
  }

  lemma RecvAccounted(k: Kernel, idle: nat, e: nat)
    requires Inv(k, idle)
    ensures Accounted(k, Recv(k, e)) && Accounted(k, TryRecv(k, e))
  {
    hide Unique, Inv, TableStep, Gives, TakeAck, Deliver, CanDeliver, SetEax, Switch, SetState;
    var k1 := TakeAck(k, e);
    AckPasses(k, idle, e);
    UniqueSame(k, k1);
    if CanDeliver(k1, e) {
      DeliverAccounted(k1, idle, e);
    } else {
      var k2 := k1.(recvs := k1.recvs + [PendingRecv(k1.current, e)]);
      SwitchPasses(k2, Blocked);
      SameTables(k, k2, Recv(k, e), 0, None);
      QuietAccounted(k, Recv(k, e));
      TouchPasses(k1, k1.current, U32_MAX, Regs(0, 0, 0, 0, 0, 0), Ready);
      SameTables(k, k1, TryRecv(k, e), 0, None);
      QuietAccounted(k, TryRecv(k, e));
    }
  }

  lemma NotifyAccounted(k: Kernel, k0: Kernel, v: IrqEvent)
    requires k0.tasks == k.tasks && k0.nodes == k.nodes && k0.sends == k.sends
    ensures Accounted(k, Notify(k0, v))
  {
    hide Unique, TableStep, Gives, Table, SetRegs, Wake;
    NoStep(k.nodes);
    var k' := Notify(k0, v);
    var pos := FirstRecv(k0.recvs, v.endpoint);
    if pos < |k0.recvs| && k0.recvs[pos].task in k0.tasks {
      var t := k0.recvs[pos].task;
      var k1 := SetAck(k0.(recvs := Without(k0.recvs, pos)), v.endpoint, v.irq);
      var r := Notified(k1.tasks[t].regs, v);
      TouchPasses(k1, t, 0, r, Ready);
      TouchPasses(SetRegs(k1, t, r), t, 0, r, Ready);
      PassesTrans(k1, SetRegs(k1, t, r), k', 0, None, 0, None);
      SameTables(k, k1, k', 0, None);
      QuietAccounted(k, k');
    } else {
      UniqueSame(k, k');
    }
  }

  lemma {:induction false} KeptFrom(s: seq<PendingSend>, k: Kernel, owner: nat)
    ensures forall m | m in KeptSends(s, k, owner) :: m in s
  {
    if s != [] {
      KeptFrom(s[1..], k, owner);
    }
  }

  lemma ExitAccounted(k: Kernel)
    ensures Accounted(k, Exit(k))
  {
    hide Unique, TableStep, Switch, SetState, FailAll, KeptRecvs, KeptSends, FailedRecvs, FailedSends, KeptEvents,
         Gives;
    var owner, k0 := k.current, Switch(SetState(k, k.current, Zombie));
    NoStep(k.nodes);
    SwitchPasses(k, Zombie);
    var k1 := k0.(recvs := KeptRecvs(k0.recvs, k0, owner));
    var k2 := FailAll(k1, FailedRecvs(k0.recvs, k0, owner));
    FailAllPasses(k1, FailedRecvs(k0.recvs, k0, owner));
    var k3 := k2.(sends := KeptSends(k2.sends, k0, owner));
    var k4 := FailAll(k3, FailedSends(k2.sends, k0, owner));
    FailAllPasses(k3, FailedSends(k2.sends, k0, owner));
    KeptFrom(k2.sends, k0, owner);
    SameTables(k0, k1, k2, 0, None);
    GivesTrans(k, k0, k2);
    SameTables(k2, k3, k4, 0, None);
    GivesTrans(k, k2, k4);
    var k' := Exit(k);
    SameAfter(k, k4, k');
    if Unique(k) {
      UniqueDrops(k, k');
    }
  }

  lemma GivesTrans(a: Kernel, b: Kernel, c: Kernel)
    requires Gives(a, b, 0, None) && Gives(b, c, 0, None)
    ensures Gives(a, c, 0, None)
  {
    hide Table;
  }

  lemma SameAfter(k: Kernel, k1: Kernel, k': Kernel)
    requires k1.tasks == k'.tasks && Gives(k, k1, 0, None)
    ensures Gives(k, k', 0, None)
  {
    assert forall u: nat :: Table(k1, u) == Table(k', u);
    hide Table;
  }

  // ----- system calls -----

  lemma MintTableStep(k: Kernel, kind: CapKind, parent: nat, badge: nat)
    ensures TableStep(k.nodes, MintRoot(k, kind).nodes) && TableStep(k.nodes, MintDerived(k, parent, badge).nodes)
  {
    if parent < |k.nodes| && !k.nodes[parent].revoked {
      assert MintDerived(k, parent, badge).nodes == Grown(k.nodes, parent, badge);
      hide Grown, Revoked;
    } else {
      NoStep(k.nodes);
    }
  }

  lemma InstallGives(k: Kernel, t: nat, n: nat)
    requires t in k.tasks
    ensures Passes(k, Install(k, t, n), t, Some(n))
  {
  }

  /** A node is minted, installed for `t`, and the answer written. */
  lemma GrantAccounted(k: Kernel, k1: Kernel, t: nat, r: Regs, v: nat)
    requires t in k1.tasks && Minted(k, k1.(endpoints := k.endpoints), Some(|k.nodes|))
    ensures Accounted(k, SetEax(Install(k1, t, |k.nodes|), t, v))
            && Accounted(k, SetRegs(Install(k1, t, |k.nodes|), t, r))
  {
    hide Unique, TableStep, Install, SetEax, SetRegs;
    var n := |k.nodes|;
    var k2 := Install(k1, t, n);
    InstallGives(k1, t, n);
    TouchPasses(k2, t, v, r, Ready);
    hide Gives;
    PassesTrans(k1, k2, SetEax(k2, t, v), t, Some(n), 0, None);
    PassesTrans(k1, k2, SetRegs(k2, t, r), t, Some(n), 0, None);
    SameTables(k, k1, SetEax(k2, t, v), t, Some(n));
    SameTables(k, k1, SetRegs(k2, t, r), t, Some(n));
    if Unique(k) {
      UniqueMints(k, SetEax(k2, t, v), t);
      UniqueMints(k, SetRegs(k2, t, r), t);
    }
  }

  lemma SysSendAccounted(k: Kernel, idle: nat, r: Regs)
    requires Inv(k, idle)
    ensures Accounted(k, SysSend(k, r))
  {
    hide Send, Inv, Accounted, TableStep, Unique;
    NoStep(k.nodes);
    match ResolveSlot(k, r.ebx)
    case Some((Endpoint(e), _)) =>
      var src, msg := CurrentNode(k, r.edi), (r.ecx, r.edx, r.esi);
      if r.edi != 0 && src.Some? && Resolve(k.nodes, src.value).Some? {
        var badge := Resolve(k.nodes, src.value).value.1;
        MintTableStep(k, RebootControl, src.value, badge);
        SendAccounted(k, MintDerived(k, src.value, badge), idle, PendingSend(k.current, e, msg, Some(|k.nodes|)));
      } else {
        SendAccounted(k, k, idle, PendingSend(k.current, e, msg, None));
      }
    case _ => QuietEax(k, U32_MAX);
  }

  lemma QuietEax(k: Kernel, v: nat)
    ensures Accounted(k, SetEax(k, k.current, v))
  {
    hide SetEax, Passes, Accounted;
    TouchPasses(k, k.current, v, Regs(0, 0, 0, 0, 0, 0), Ready);
    QuietAccounted(k, SetEax(k, k.current, v));
  }

  lemma EndpointCreateAccounted(k: Kernel, idle: nat)
    requires Inv(k, idle)
    ensures Accounted(k, SysEndpointCreate(k))
  {
    CurrentIn(k, idle);
    var k1 := MintRoot(k.(endpoints := k.endpoints + [EndpointMeta(k.current, None)]), Endpoint(|k.endpoints|));
    MintTableStep(k, Endpoint(|k.endpoints|), 0, 0);
    hide Inv, Accounted, TableStep, Unique, SetEax, Install;
    GrantAccounted(k, k1, k.current, k.tasks[k.current].regs, NextSlot(k, k.current));
  }

  lemma MintBadgedAccounted(k: Kernel, idle: nat, r: Regs)
    requires Inv(k, idle)
    ensures Accounted(k, SysMintBadged(k, r))
  {
    CurrentIn(k, idle);
    hide Inv, Accounted, TableStep, Unique, SetEax, Install, CurrentNode;
    var src := CurrentNode(k, r.ebx);
    if src.Some? && Resolve(k.nodes, src.value).Some? {
      MintTableStep(k, RebootControl, src.value, r.ecx);
      GrantAccounted(k, MintDerived(k, src.value, r.ecx), k.current, r, NextSlot(k, k.current));
    } else {
      QuietEax(k, U32_MAX);
    }
  }

  lemma MemAllocAccounted(k: Kernel, idle: nat, r: Regs, w: World)
    requires Inv(k, idle)
    ensures Accounted(k, SysMemAlloc(k, r, w))
  {
    CurrentIn(k, idle);
    hide Inv, Accounted, TableStep, Unique, SetRegs, Install, Passes;
    if w.loads {
      var kind := MemoryGrant(w.phys, 4096 * (if r.ecx == 0 then 1 else r.ecx), true);
      MintTableStep(k, kind, 0, 0);
      GrantAccounted(k, MintRoot(k, kind), k.current, r.(eax := NextSlot(k, k.current), ecx := w.phys), 0);
    } else {
      TouchPasses(k, k.current, 0, r.(eax := 0, ecx := 0), Ready);
      QuietAccounted(k, SysMemAlloc(k, r, w));
    }
  }

  lemma RevokeAccounted(k: Kernel, r: Regs)
    ensures Accounted(k, SysRevoke(k, r))
  {
    var n := CurrentNode(k, r.ebx);
    var k1 := if n.Some? then k.(nodes := Revoked(k.nodes, n.value)) else k;
    NoStep(k.nodes);
    assert TableStep(k.nodes, k1.nodes);
    hide TableStep, Unique, SetEax, Revoked, Gives;
    TouchPasses(k1, k.current, 0, r, Ready);
    SameTables(k, k1, SysRevoke(k, r), 0, None);
    if Unique(k) {
      UniqueDrops(k, SysRevoke(k, r));
    }
  }

  lemma RegisterAccounted(k: Kernel, r: Regs)
    ensures Accounted(k, SysRegisterIrq(k, r))
  {
    match ResolveSlot(k, r.ebx)
    case Some((IrqControl(irq, e), _)) =>
      if irq < |k.handlers| {
        var k1 := RegisterIrq(k, irq, e);
        assert k1.nodes == k.nodes && k1.tasks == k.tasks && k1.sends == k.sends && k1.current == k.current;
        hide Accounted, SetEax, RegisterIrq, Gives;
        TouchPasses(k1, k.current, 0, r, Ready);
        SameTables(k, k1, SysRegisterIrq(k, r), 0, None);
        QuietAccounted(k, SysRegisterIrq(k, r));
      } else {
        QuietEax(k, U32_MAX);
      }
    case _ => QuietEax(k, U32_MAX);
  }

  lemma FreshGives(k: Kernel)
    requires NewTaskId(k) !in k.tasks
    ensures Gives(k, Spawn(k), NewTaskId(k), if k.nameService.Some? then Some(|k.nodes|) else None)
    ensures Spawn(k).sends == k.sends && Spawn(k).current == k.current
    ensures Spawn(k).nodes == k.nodes + if k.nameService.Some?
            then [CapNode(Endpoint(k.nameService.value), 0, [], false)] else []
  {
  }

  lemma SpawnGives(k: Kernel, idle: nat)
    requires Inv(k, idle)
    ensures NewTaskId(k) !in k.tasks && k.current in k.tasks && k.current != NewTaskId(k)
    ensures Gives(k, Spawn(k), NewTaskId(k), if k.nameService.Some? then Some(|k.nodes|) else None)
    ensures Spawn(k).sends == k.sends && Spawn(k).current == k.current
    ensures Spawn(k).nodes == k.nodes + if k.nameService.Some?
            then [CapNode(Endpoint(k.nameService.value), 0, [], false)] else []
  {
    CurrentIn(k, idle);
    assert NewTaskId(k) !in k.tasks;
    hide Inv, Spawn, Gives;
    FreshGives(k);
  }

  lemma SpawnAccounted(k: Kernel, idle: nat, w: World)
    requires Inv(k, idle)
    ensures Accounted(k, SysSpawn(k, w))
  {
    if w.loads {
      SpawnGives(k, idle);
      MintTableStep(k, Endpoint(if k.nameService.Some? then k.nameService.value else 0), 0, 0);
      hide Unique, TableStep, SetEax, Gives, Spawn, Inv;
      var k1, k', t := Spawn(k), SysSpawn(k, w), NewTaskId(k);
      NoStep(k.nodes);
      var given := if k.nameService.Some? then Some(|k.nodes|) else None;
      TouchPasses(k1, k.current, NewTaskId(k), Regs(0, 0, 0, 0, 0, 0), Ready);
      GivesThen(k, k1, k', t, given);
      if Unique(k) {
        if given.Some? {
          UniqueMints(k, k', t);
        } else {
          GivesNothing(k, k', t);
          UniqueDrops(k, k');
        }
      }
    } else {
      QuietEax(k, 0);
    }
  }

  lemma GivesThen(a: Kernel, b: Kernel, c: Kernel, t: nat, given: Option<nat>)
    requires Gives(a, b, t, given) && Gives(b, c, 0, None)
    ensures Gives(a, c, t, given)
  {
    hide Table;
  }

  lemma ReceiveAccounted(k: Kernel, idle: nat, r: Regs)
    requires Inv(k, idle)
    ensures Accounted(k, SysRecv(k, r)) && Accounted(k, SysTryRecv(k, r))
  {
    hide Inv, Accounted, Recv, TryRecv, SetEax;
    QuietEax(k, U32_MAX);
    QuietEax(k, U32_MAX - 1);
    match ResolveSlot(k, r.ebx)
    case Some((Endpoint(e), _)) => RecvAccounted(k, idle, e);
    case _ =>
  }

  lemma YieldAccounted(k: Kernel)
    ensures Accounted(k, Tick(SetEax(k, k.current, 0))) && Accounted(k, Tick(k))
  {
    hide Accounted, Tick, SetEax, Passes;
    var k1 := SetEax(k, k.current, 0);
    TouchPasses(k, k.current, 0, Regs(0, 0, 0, 0, 0, 0), Ready);
    TickPasses(k1);
    PassesTrans(k, k1, Tick(k1), 0, None, 0, None);
    QuietAccounted(k, Tick(k1));
    TickPasses(k);
    QuietAccounted(k, Tick(k));
  }

  lemma ServeAccounted(k: Kernel, idle: nat, r: Regs, w: World)
    requires Inv(k, idle)
    ensures Accounted(k, Serve(k, r, w))
  {
    hide Exit, SysSend, SysRegisterIrq, SysRevoke, SysRecv, SysTryRecv, SysSpawn, SysEndpointCreate, SysMintBadged,
         SysMemAlloc, Tick, SetEax, Accounted, Inv;
    match r.eax
    case 0 => ExitAccounted(k);
    case 1 => YieldAccounted(k);
    case 2 => SysSendAccounted(k, idle, r);
    case 3 => ReceiveAccounted(k, idle, r);
    case 6 => RegisterAccounted(k, r);
    case 8 => SpawnAccounted(k, idle, w);
    case 9 => EndpointCreateAccounted(k, idle);
    case 10 => MintBadgedAccounted(k, idle, r);
    case 11 => RevokeAccounted(k, r);
    case 12 => MemAllocAccounted(k, idle, r, w);
    case 13 => SpawnAccounted(k, idle, w);
    case 15 => ReceiveAccounted(k, idle, r);
    case _ =>
      QuietEax(k, U32_MAX);
      QuietEax(k, 0);
      QuietEax(k, k.current);
  }

  /** Every step keeps the derivation table sound and each capability in one place. */
  lemma StepSound(k: Kernel, idle: nat, op: Op)
    requires Inv(k, idle) && Enabled(k, idle, op) && Sound(k)
    ensures Sound(Step(k, op)) && Kept(k.nodes, Step(k, op).nodes)
  {
    hide Inv, TableStep, Unique, Serve, Notify, Tick, SetRegs, CapsOk, Kept;
    match op {
    case Timer =>
      YieldAccounted(k);
    case Trap(r, w) =>
      var k1 := SetRegs(k, k.current, r);
      TouchPasses(k, k.current, 0, r, Ready);
      QuietAccounted(k, k1);
      CurrentIn(k, idle);
      TouchKeeps(k, idle, k.current, r, 0, 0);
      ServeAccounted(k1, idle, r, w);
    case Line(irq, data) =>
      NoStep(k.nodes);
      if HandlerFor(k, irq).Some? {
        NotifyAccounted(k, k.(masked := k.masked[irq := true]), IrqEvent(HandlerFor(k, irq).value, irq, data));
      }
    case Key(c) =>
      NoStep(k.nodes);
      if HandlerFor(k, 1).Some? {
        NotifyAccounted(k, k, IrqEvent(HandlerFor(k, 1).value, 1, c));
      }
    }
    TableStepOk(k.nodes, Step(k, op).nodes);
  }

  lemma KeptTrans(a: seq<CapNode>, b: seq<CapNode>, c: seq<CapNode>)
    requires Kept(a, b) && Kept(b, c)
    ensures Kept(a, c)
  {
  }

  lemma {:induction false} RunSound(k: Kernel, idle: nat, ops: seq<Op>)
    requires Inv(k, idle) && Legal(k, idle, ops) && Sound(k)
    ensures Sound(Run(k, ops)) && Kept(k.nodes, Run(k, ops).nodes)
    decreases |ops|
  {
    if ops != [] {
      hide Step, Inv, Enabled, Sound, Kept;
      StepSound(k, idle, ops[0]);
      StepKeeps(k, idle, ops[0]);
      RunSound(Step(k, ops[0]), idle, ops[1..]);
      KeptTrans(k.nodes, Step(k, ops[0]).nodes, Run(k, ops).nodes);
    }
  }

  lemma HeldInRange(k: Kernel, slot: nat, n: nat)
    requires Unique(k) && CurrentNode(k, slot) == Some(n)
    ensures n < |k.nodes|
  {
    assert Holds(k, k.current, slot, n);
  }

  /** What a revocation does at once: the target and everything derived from it stop resolving, and
      nothing else changes. */
  lemma RevokeExact(k: Kernel, idle: nat, r: Regs, w: World, target: nat, x: nat)
    requires Inv(k, idle) && Sound(k) && r.eax == 11 && CurrentNode(k, r.ebx) == Some(target)
    ensures var k1 := Step(k, Trap(r, w));
            Resolve(k1.nodes, x) == if Derives(k.nodes, target, x) then None else Resolve(k.nodes, x)
    ensures target < |k.nodes| && Step(k, Trap(r, w)).nodes[target].revoked
  {
    CurrentIn(k, idle);
    HeldInRange(k, r.ebx, target);
    hide Inv, Sound;
    assert Step(k, Trap(r, w)).nodes == Revoked(k.nodes, target);
    assert Derives(k.nodes, target, target);
    hide Step;
    if Derives(k.nodes, target, x) {
      DerivesBounds(k.nodes, target, x);
    }
  }

  /** Once revoked, a node and everything ever derived from it, before or after, in a table or in
      flight, never resolves again. */
  lemma RevocationLasts(k: Kernel, idle: nat, ops: seq<Op>, target: nat, x: nat)
    requires Inv(k, idle) && Sound(k) && Legal(k, idle, ops) && target < |k.nodes| && k.nodes[target].revoked
    ensures Derives(Run(k, ops).nodes, target, x) ==> Resolve(Run(k, ops).nodes, x).None?
  {
    hide Inv, Run, Legal, Derives, Unique;
    RunSound(k, idle, ops);
    if Derives(Run(k, ops).nodes, target, x) {
      RevokedBelow(Run(k, ops).nodes, target, x);
    }
  }
}
