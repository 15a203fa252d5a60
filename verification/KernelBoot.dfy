/**
 Boot: trusted code spawns tasks, makes endpoints and hands out capabilities, then starts the first
 task. Whatever it does in whatever order, every invariant holds when the scheduler starts, so the
 results about runs hold of every state the system can reach.
 */
module KernelBoot {
  import opened Bytes
  import opened KernelState
  import opened KernelSched
  import opened KernelCaps
  import opened KernelAuthority
  import opened KernelIrq

  datatype BootOp =
    | SpawnTask
    | NewEndpoint(owner: nat)
    | Grant(task: nat, kind: CapKind)
    | SetNameService(endpoint: nat)

  /** The tables before boot: the interrupt controller has everything masked but timer and keyboard. */
  function PowerOn(): Kernel {
    Kernel(map[], [], 0, [], [], [], [], [], seq(16, _ => None), seq(16, i => i > 1), None, false)
  }

  function BootStep(k: Kernel, op: BootOp): Kernel {
    match op
    case SpawnTask => Spawn(k)
    case NewEndpoint(owner) => k.(endpoints := k.endpoints + [EndpointMeta(owner, None)])
    case Grant(t, kind) => Install(MintRoot(k, kind), t, |k.nodes|)
    case SetNameService(e) => k.(nameService := Some(e))
  }

  /** Capabilities go to tasks that exist, and interrupt capabilities name endpoints that exist. */
  predicate BootOk(k: Kernel, op: BootOp) {
    op.Grant? ==> op.task in k.tasks && (op.kind.IrqControl? ==> op.kind.endpoint < |k.endpoints|)
  }

  function Boot(k: Kernel, ops: seq<BootOp>): Kernel
    decreases |ops|
  {
    if ops == [] then k else Boot(BootStep(k, ops[0]), ops[1..])
  }

  predicate BootLegal(k: Kernel, ops: seq<BootOp>)
    decreases |ops|
  {
    ops == [] || (BootOk(k, ops[0]) && BootLegal(BootStep(k, ops[0]), ops[1..]))
  }

  /** Ids are 1, 2, ... without a gap, and every task is ready. */
  ghost predicate Numbered(tasks: map<nat, Task>) {
    && (forall t: nat :: t in tasks <==> 1 <= t <= |tasks|)
    && (forall t | t in tasks :: tasks[t].state == Ready)
  }

  /** Every task is ready and queued once. */
  ghost predicate AllReady(k: Kernel) {
    && !k.panicked && Numbered(k.tasks)
    && Distinct(k.ready) && (forall t: nat :: t in k.ready <==> t in k.tasks)
  }

  /** Nothing has happened yet on any endpoint or line. */
  ghost predicate Silent(k: Kernel) {
    && k.recvs == [] && k.sends == [] && k.events == []
    && |k.handlers| == 16 && |k.masked| == 16 && (forall l | 0 <= l < 16 :: k.handlers[l].None?)
    && (forall e | 0 <= e < |k.endpoints| :: k.endpoints[e].ack.None?)
    && IrqCaps(k)
  }

  lemma PowerOnReady()
    ensures AllReady(PowerOn()) && Silent(PowerOn()) && Sound(PowerOn())
    ensures var m := PowerOn().masked; !m[0] && !m[1] && forall l | 2 <= l < 16 :: m[l]
  {
    assert forall u: nat :: Table(PowerOn(), u) == [None];
  }

  lemma NumberedGrows(m: map<nat, Task>, x: Task)
    requires Numbered(m) && x.state == Ready
    ensures |m| + 1 !in m && Numbered(m[|m| + 1 := x])
  {
    var m' := m[|m| + 1 := x];
    assert m'.Keys == m.Keys + {|m| + 1};
    assert |m'| == |m'.Keys| && |m| == |m.Keys|;
  }

  lemma SpawnReady(k: Kernel)
    requires AllReady(k)
    ensures var t := NewTaskId(k);
            AllReady(k.(tasks := k.tasks[t := Task(Ready, [None], Regs(0, 0, 0, 0, 0, 0))], ready := k.ready + [t]))
  {
    hide Numbered, Distinct;
    var t := NewTaskId(k);
    NumberedGrows(k.tasks, Task(Ready, [None], Regs(0, 0, 0, 0, 0, 0)));
    Appended(k.ready, t);
  }

  lemma Appended(s: seq<nat>, t: nat)
    requires Distinct(s) && t !in s
    ensures Distinct(s + [t]) && forall x: nat :: x in s + [t] <==> x in s || x == t
  {
  }

  /** `AllReady` looks at the tasks and the queue only. */
  lemma ReadySame(k: Kernel, k': Kernel)
    requires AllReady(k) && k'.tasks == k.tasks && k'.ready == k.ready && k'.panicked == k.panicked
    ensures AllReady(k')
  {
  }

  lemma ReadyKeeps(k: Kernel, op: BootOp)
    requires AllReady(k) && BootOk(k, op)
    ensures AllReady(BootStep(k, op))
  {
    hide AllReady, Install;
    match op
    case SpawnTask =>
      var t := NewTaskId(k);
      var k1 := k.(tasks := k.tasks[t := Task(Ready, [None], Regs(0, 0, 0, 0, 0, 0))], ready := k.ready + [t]);
      SpawnReady(k);
      if k.nameService.Some? {
        ReadySame(k1, MintRoot(k1, Endpoint(k.nameService.value)));
        GrantReady(MintRoot(k1, Endpoint(k.nameService.value)), t, |k1.nodes|);
      }
    case Grant(t, kind) =>
      ReadySame(k, MintRoot(k, kind));
      GrantReady(MintRoot(k, kind), t, |k.nodes|);
    case _ => ReadySame(k, BootStep(k, op));
  }

  lemma GrantReady(k: Kernel, t: nat, n: nat)
    requires AllReady(k) && t in k.tasks
    ensures AllReady(Install(k, t, n))
  {
    TouchSame(k, t, k.tasks[t].regs, 0, n);
    SizeByKeys(k.tasks, Install(k, t, n).tasks);
    hide Install;
  }

  lemma SilentKeeps(k: Kernel, op: BootOp)
    requires Silent(k) && BootOk(k, op)
    ensures Silent(BootStep(k, op))
  {
    match op
    case NewEndpoint(owner) =>
      var k' := BootStep(k, op);
      forall e | 0 <= e < |k'.endpoints| ensures k'.endpoints[e].ack.None? {
      }
    case _ =>
  }

  lemma SoundKeeps(k: Kernel, op: BootOp)
    requires Sound(k) && AllReady(k) && BootOk(k, op)
    ensures Sound(BootStep(k, op))
  {
    match op
    case SpawnTask =>
      hide Unique, Gives, Spawn;
      FreshGives(k);
      SpawnSound(k);
    case Grant(t, kind) =>
      hide Unique, Gives, Install;
      MintTableStep(k, kind, 0, 0);
      TableStepOk(k.nodes, MintRoot(k, kind).nodes);
      InstallGives(MintRoot(k, kind), t, |k.nodes|);
      SameTables(k, MintRoot(k, kind), BootStep(k, op), t, Some(|k.nodes|));
      UniqueMints(k, BootStep(k, op), t);
    case _ => UniqueSame(k, BootStep(k, op));
  }

  lemma SpawnSound(k: Kernel)
    requires Sound(k) && NewTaskId(k) !in k.tasks
    requires Gives(k, Spawn(k), NewTaskId(k), if k.nameService.Some? then Some(|k.nodes|) else None)
             && Spawn(k).sends == k.sends
    requires Spawn(k).nodes == k.nodes + if k.nameService.Some?
             then [CapNode(Endpoint(k.nameService.value), 0, [], false)] else []
    ensures Sound(Spawn(k))
  {
    hide Unique, Gives, Spawn;
    var t := NewTaskId(k);
    if k.nameService.Some? {
      MintTableStep(k, Endpoint(k.nameService.value), 0, 0);
      TableStepOk(k.nodes, Spawn(k).nodes);
      UniqueMints(k, Spawn(k), t);
    } else {
      assert k.nodes + [] == k.nodes;
      GivesNothing(k, Spawn(k), t);
      UniqueDrops(k, Spawn(k));
    }
  }

  lemma {:induction false} BootKeeps(k: Kernel, ops: seq<BootOp>)
    requires AllReady(k) && Silent(k) && Sound(k) && BootLegal(k, ops)
    ensures AllReady(Boot(k, ops)) && Silent(Boot(k, ops)) && Sound(Boot(k, ops))
    decreases |ops|
  {
    if ops != [] {
      hide AllReady, Silent, Sound, BootStep, BootOk;
      ReadyKeeps(k, ops[0]);
      SilentKeeps(k, ops[0]);
      SoundKeeps(k, ops[0]);
      BootKeeps(BootStep(k, ops[0]), ops[1..]);
    }
  }

  /** Starting the scheduler on a booted system establishes every invariant. */
  lemma StartSound(k: Kernel, idle: nat)
    requires AllReady(k) && Silent(k) && Sound(k) && idle in k.tasks
    ensures Inv(Switch(k), idle) && Sound(Switch(k)) && Handshake(Switch(k))
  {
    assert Booted(k, idle);
    assert idle in k.ready;
    StartEstablishes(k, idle);
    var k' := Switch(k);
    TouchPasses(k, k.ready[0], 0, k.tasks[idle].regs, Running);
    SameTables(k, k, k', 0, None);
    UniqueDrops(k, k');
    hide Inv, Unique, Gives, SetState;
    StartHandshake(k, k');
  }

  lemma StartHandshake(k: Kernel, k': Kernel)
    requires Silent(k) && k'.recvs == k.recvs && k'.events == k.events && k'.handlers == k.handlers
             && k'.masked == k.masked
    requires k'.endpoints == k.endpoints && k'.nodes == k.nodes
    ensures Handshake(k')
  {
  }

  /** From power-on: after any boot and any run from it, all the invariants hold. */
  lemma Reachable(ops: seq<BootOp>, idle: nat, run: seq<Op>)
    requires BootLegal(PowerOn(), ops) && idle in Boot(PowerOn(), ops).tasks
    requires Legal(Switch(Boot(PowerOn(), ops)), idle, run)
    ensures var k := Run(Switch(Boot(PowerOn(), ops)), run);
            && Inv(k, idle) && Sound(k)
            && (Discipline(Switch(Boot(PowerOn(), ops)), run) ==> Handshake(k))
  {
    hide AllReady, Silent, Sound, Inv, Handshake, PowerOn, Boot, Switch, Run, Legal, Discipline;
    PowerOnReady();
    BootKeeps(PowerOn(), ops);
    var k := Switch(Boot(PowerOn(), ops));
    StartSound(Boot(PowerOn(), ops), idle);
    RunKeeps(k, idle, run);
    RunSound(k, idle, run);
    if Discipline(k, run) {
      RunHandshake(k, idle, run);
    }
  }
}
