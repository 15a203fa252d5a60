/**
 The kernel's tables together with its memory: allocation and mapping calls are answered by the
 pager. After every call, every memory capability names granted frames, so none of them names a
 page directory or a page table, and what a task asks to map is always granted.
 */
module KernelMemory {
  import opened Bytes
  import opened KernelState
  import opened KernelSched
  import opened KernelTasks
  import opened KernelCaps
  import opened KernelAuthority
  import opened KernelBoot
  import opened KernelMachine
  import opened KernelPaging
  import opened KernelGrants
  import opened KernelFrames
  import opened KernelReturns

  ghost predicate RangeOk(p: nat, len: nat, grants: set<nat>) {
    len < U32 && Range(p / 4096, Pages(len)) <= grants
  }

  /** Every memory capability names granted frames. */
  ghost predicate Owned(nodes: seq<CapNode>, grants: set<nat>) {
    forall i | 0 <= i < |nodes| && nodes[i].kind.MemoryGrant? ::
      RangeOk(nodes[i].kind.physBase, nodes[i].kind.len, grants)
  }

  ghost function Ranges(nodes: seq<CapNode>): (mem: set<(nat, nat)>)
    ensures Granted(nodes, mem)
    ensures forall x | x in mem ::
              exists i ::
                0 <= i < |nodes| && nodes[i].kind.MemoryGrant? && x == (nodes[i].kind.physBase, nodes[i].kind.len)
  {
    set i | 0 <= i < |nodes| && nodes[i].kind.MemoryGrant? :: (nodes[i].kind.physBase, nodes[i].kind.len)
  }

  /** A step keeps the capabilities within the grants, if what it hands out is granted. */
  lemma StepOwned(k: Kernel, op: Op, grants: set<nat>, grants': set<nat>)
    requires Owned(k.nodes, grants) && grants <= grants'
    requires forall x | x in Given(op) :: RangeOk(x.0, x.1, grants')
    ensures Owned(Step(k, op).nodes, grants')
  {
    hide Step, Range, Given, Pages;
    var mem := Ranges(k.nodes);
    StepGranted(k, op, mem);
    var nodes := Step(k, op).nodes;
    forall i | 0 <= i < |nodes| && nodes[i].kind.MemoryGrant?
      ensures RangeOk(nodes[i].kind.physBase, nodes[i].kind.len, grants')
    {
      var x := (nodes[i].kind.physBase, nodes[i].kind.len);
      assert x in mem + Given(op);
      if x in mem {
        var j :| && 0 <= j < |k.nodes| && k.nodes[j].kind.MemoryGrant?
                 && x == (k.nodes[j].kind.physBase, k.nodes[j].kind.len);
      }
    }
  }

  lemma PageMultiples(frame: nat, n: nat)
    ensures 4096 * frame / 4096 == frame && Pages(4096 * n) == n
  {
  }

  /** What boot leaves behind: every invariant holds, and every capability is within the grants if what
      boot handed out is. */
  lemma BootOwned(ops: seq<BootOp>, idle: nat, grants: set<nat>)
    requires BootLegal(PowerOn(), ops) && idle in Boot(PowerOn(), ops).tasks
    requires forall x | x in BootGiven(ops) :: RangeOk(x.0, x.1, grants)
    ensures var k := Switch(Boot(PowerOn(), ops)); Inv(k, idle) && CapsOk(k.nodes) && Owned(k.nodes, grants)
  {
    hide Boot, PowerOn, Switch, Range, Pages, BootGiven, Inv, CapsOk, Unique, RangeOk;
    var k := Switch(Boot(PowerOn(), ops));
    assert Legal(k, idle, []) && Run(k, []) == k;
    Reachable(ops, idle, []);
    NoNodes();
    BootGranted(PowerOn(), ops, {});
    assert {} + BootGiven(ops) == BootGiven(ops);
    SwitchNodes(Boot(PowerOn(), ops));
    forall i | 0 <= i < |k.nodes| && k.nodes[i].kind.MemoryGrant?
      ensures RangeOk(k.nodes[i].kind.physBase, k.nodes[i].kind.len, grants)
    {
      assert (k.nodes[i].kind.physBase, k.nodes[i].kind.len) in BootGiven(ops);
    }
  }

  /** Every task that can trap has a page directory. */
  ghost predicate Housed(k: Kernel, dirOf: map<nat, nat>, idle: nat) {
    forall t | t in k.tasks && t != idle :: t in dirOf
  }

  /** A spawned task has one, and no other step adds a task. */
  lemma StepHoused(k: Kernel, op: Op, dirOf: map<nat, nat>, idle: nat)
    requires Housed(k, dirOf, idle) && (Spawns(op) ==> NewTaskId(k) in dirOf)
    ensures Housed(Step(k, op), dirOf, idle)
  {
    hide Step;
    StepTasks(k, op);
  }

  /** No two tasks share a page directory. */
  ghost predicate Apart(dirOf: map<nat, nat>) {
    forall t, u | t in dirOf && u in dirOf && t != u :: dirOf[t] != dirOf[u]
  }

  ghost predicate Within(dirOf: map<nat, nat>, dirs: set<nat>) {
    forall t | t in dirOf :: dirOf[t] in dirs
  }

  /** Every task but `added` has the directory it had. */
  ghost predicate SameDirs(was: map<nat, nat>, now: map<nat, nat>, added: nat) {
    forall t | t in was && t != added :: t in now && now[t] == was[t]
  }

  lemma MoreDirs(dirOf: map<nat, nat>, dirs: set<nat>, t: nat, d: nat)
    requires Apart(dirOf) && Within(dirOf, dirs) && d !in dirs
    ensures Apart(dirOf[t := d]) && Within(dirOf[t := d], dirs + {d})
  {
  }

  /** There are `n` free frames in a row. */
  ghost predicate Room(used: seq<bool>, n: nat) {
    exists s: nat :: FreeRun(used, s, n)
  }

  lemma TrapIsStep(k: Kernel, r: Regs, w: World)
    ensures Step(k, Op.Trap(r, w)) == Syscall(k, r, w)
  {
  }

  lemma CurrentHoused(k: Kernel, dirOf: map<nat, nat>, idle: nat)
    requires Inv(k, idle) && Housed(k, dirOf, idle) && k.current != idle
    ensures k.current in dirOf
  {
  }

  lemma MoreHoused(k: Kernel, dirOf: map<nat, nat>, idle: nat, t: nat, dir: nat)
    requires Housed(k, dirOf, idle)
    ensures Housed(k, dirOf[t := dir], idle)
  {
  }

  class System {
    const machine: Machine
    const pager: Pager
    ghost const idle: nat
    /** Each task's page directory. */
    var dirOf: map<nat, nat>

    ghost predicate Valid()
      reads this, machine, machine.caps, pager, pager.bitmap, pager.bitmap.bits
    {
      && Inv(machine.State(), idle) && Housed(machine.State(), dirOf, idle)
      && CapsOk(machine.caps.nodes) && pager.Valid() && Owned(machine.caps.nodes, pager.grants)
      && Apart(dirOf) && Within(dirOf, pager.dirs)
    }

    /** The kernel when the scheduler starts, after any boot whose memory grants the pager knows. */
    constructor (machine: Machine, pager: Pager, dirOf: map<nat, nat>, ghost boot: seq<BootOp>, ghost idle: nat)
      requires BootLegal(PowerOn(), boot) && idle in Boot(PowerOn(), boot).tasks
      requires machine.State() == Switch(Boot(PowerOn(), boot)) && Housed(machine.State(), dirOf, idle)
      requires pager.Valid() && forall x | x in BootGiven(boot) :: RangeOk(x.0, x.1, pager.grants)
      requires Apart(dirOf) && Within(dirOf, pager.dirs)
      ensures Valid() && this.machine == machine && this.pager == pager && this.idle == idle
    {
      hide Inv, CapsOk, Owned, RangeOk, Boot, PowerOn, Switch, BootGiven, Housed;
      this.machine, this.pager, this.dirOf, this.idle := machine, pager, dirOf, idle;
      BootOwned(boot, idle, pager.grants);
    }

    /** No capability names the frame of a page directory or of a page table. */
    lemma NamesNoTable(i: nat, f: nat)
      requires Valid() && i < |machine.caps.nodes| && machine.caps.nodes[i].kind.MemoryGrant?
      requires f in Range(machine.caps.nodes[i].kind.physBase / 4096, Pages(machine.caps.nodes[i].kind.len))
      ensures f in pager.grants && f !in pager.dirs && f !in pager.owner
    {
    }

    // ----- what the pager does for a call -----

    /** The request to map `len` bytes at `phys` to `virt` is in order. */
    predicate Mappable(phys: nat, virt: nat, len: nat) {
      phys % 4096 == 0 && virt % 4096 == 0 && len > 0 && virt + len <= 0xC000_0000
    }

    /** The pages of the capability in slot `r.ebx` are shown at `r.ecx`, if it is memory and the request
        is in order, and no other translation has changed. */
    ghost predicate MapDone(k: Kernel, r: Regs, w: World, was: Mem, d: nat)
      reads pager
    {
      match Held(k, r.ebx)
      case Some(CapNode(MemoryGrant(phys, len, writable), _, _, _)) =>
        && w.mapOk == Mappable(phys, r.ecx, len)
        && (w.mapOk ==> pager.Shows(d, r.ecx / 4096, Pages(len), phys / 4096, true, writable))
        && pager.SameBut(was, d, r.ecx / 4096, if w.mapOk then Pages(len) else 0)
      case _ => pager.SameBut(was, d, 0, 0)
    }

    /** Frames that were free are shown at `r.ebx`, if the request is in order and there are enough in a
        row, and no other translation has changed. */
    ghost predicate AllocDone(r: Regs, w: World, was: Mem, used: seq<bool>, d: nat)
      reads pager
    {
      var n := if r.ecx == 0 then 1 else r.ecx;
      && (w.loads <==> r.ebx % 4096 == 0 && r.ebx + 4096 * n <= 0xC000_0000 && Room(used, n))
      && (w.loads ==>
            && w.phys % 4096 == 0 && FreeRun(used, w.phys / 4096, n)
            && pager.Shows(d, r.ebx / 4096, n, w.phys / 4096, true, true))
      && pager.SameBut(was, d, r.ebx / 4096, if w.loads then n else 0)
    }

    /** The spaces there were are as they were; a new task has a new one, empty below the kernel half. */
    ghost predicate SpawnDone(t: nat, w: World, was: Mem, spaces: set<nat>)
      reads this, pager
    {
      && SameIn(was, spaces)
      && (w.loads ==> t in dirOf && dirOf[t] !in spaces && Empty(dirOf[t]))
    }

    ghost predicate Empty(d: nat)
      reads pager
    {
      forall v: nat | v < KERNEL_PAGE :: Translate(pager.mem, d, v).None?
    }

    ghost predicate SameIn(was: Mem, spaces: set<nat>)
      reads pager
    {
      forall e, v: nat | e in spaces && v < 1024 * 1024 :: Translate(pager.mem, e, v) == Translate(was, e, v)
    }

    /** What the pager has done for a call; for most calls, nothing. */
    ghost predicate Carried(k: Kernel, r: Regs, w: World, loads: bool, was: Mem, spaces: set<nat>, used: seq<bool>,
                            d: nat)
      reads this, pager
    {
      match r.eax
      case 7 => MapDone(k, r, w, was, d)
      case 12 => AllocDone(r, w, was, used, d)
      case 8 => w.loads == loads && SpawnDone(NewTaskId(k), w, was, spaces)
      case 13 => w.loads == loads && SpawnDone(NewTaskId(k), w, was, spaces)
      case _ => SameIn(was, spaces)
    }

    /** Mapping: the pager is asked only for granted frames. */
    method AnswerMap(r: Regs, loads: bool) returns (w: World, stopped: bool)
      requires Valid() && machine.current != idle && r.ecx < U32
      modifies pager, pager.bitmap.bits
      ensures Valid() && old(pager.grants) <= pager.grants
      ensures machine.current in dirOf
      ensures !stopped ==> MapDone(machine.State(), r, w, old(pager.mem), dirOf[machine.current])
    {
      hide Range, Owned, Inv, Translate;
      CurrentHoused(machine.State(), dirOf, idle);
      HeldIs(machine.State(), r.ebx);
      w, stopped := World(loads, 0, false), false;
      var cap := machine.ResolveAt(r.ebx);
      match cap
      case Some((MemoryGrant(phys, len, writable), _)) =>
        OwnedSlot(r.ebx);
        var m := pager.MapMemory(dirOf[machine.current], phys, r.ecx, len, writable);
        w, stopped := World(loads, 0, m == Done), m == OutOfMemory;
      case _ =>
    }

    /** Allocation: the range handed out is granted. */
    method AnswerAlloc(r: Regs) returns (w: World, stopped: bool)
      requires Valid() && machine.current != idle && r.ebx < U32
      modifies pager, pager.bitmap.bits
      ensures Valid() && old(pager.grants) <= pager.grants
      ensures w.loads ==> RangeOk(w.phys, 4096 * (if r.ecx == 0 then 1 else r.ecx), pager.grants)
      ensures machine.current in dirOf
      ensures !stopped ==> AllocDone(r, w, old(pager.mem), old(pager.bitmap.View()), dirOf[machine.current])
    {
      hide Range, Pages, Owned, Inv, Translate, FreeRun, Housed;
      CurrentHoused(machine.State(), dirOf, idle);
      var n := if r.ecx == 0 then 1 else r.ecx;
      var a := pager.MemAlloc(dirOf[machine.current], r.ebx, r.ecx);
      StillOwned(machine.caps.nodes, old(pager.grants), pager.grants);
      w, stopped := World(a.Allocated?, if a.Allocated? then 4096 * a.frame else 0, false), a == NoTable;
      if a.Allocated? {
        PageMultiples(a.frame, n);
        assert FreeRun(old(pager.bitmap.View()), a.frame, n);
      } else if !stopped {
        assert pager.State().mem == old(pager.State()).mem;
      }
    }

    /** A new task gets an address space of its own. */
    method AnswerSpawn(loads: bool) returns (w: World, stopped: bool)
      requires Valid()
      modifies this, pager, pager.bitmap.bits
      ensures Valid() && old(pager.grants) <= pager.grants
      ensures w.loads && !stopped ==> NewTaskId(machine.State()) in dirOf
      ensures !stopped ==>
                w.loads == loads && SpawnDone(NewTaskId(machine.State()), w, old(pager.mem), old(pager.dirs))
      ensures SameDirs(old(dirOf), dirOf, NewTaskId(machine.State()))
    {
      hide Owned, Inv, Housed, CapsOk, Range, Pages, Translate, Apart, Within, Pager.Valid;
      w, stopped := World(loads, 0, false), false;
      if loads {
        var d := pager.NewDirectory();
        stopped := d.None?;
        if d.Some? {
          MoreHoused(machine.State(), dirOf, idle, |machine.tasks| + 1, d.value);
          MoreDirs(dirOf, old(pager.dirs), |machine.tasks| + 1, d.value);
          dirOf := dirOf[|machine.tasks| + 1 := d.value];
        }
      }
    }

    /** What the pager answers to a system call. `stopped`: the kernel ran out of frames for its own
        tables. */
    method Answer(r: Regs, loads: bool) returns (w: World, stopped: bool)
      requires Valid() && machine.current != idle && r.ebx < U32 && r.ecx < U32
      modifies this, pager, pager.bitmap.bits
      ensures Valid() && old(pager.grants) <= pager.grants
      ensures forall x | x in Given(Op.Trap(r, w)) :: RangeOk(x.0, x.1, pager.grants)
      ensures !stopped && Spawns(Op.Trap(r, w)) ==> NewTaskId(machine.State()) in dirOf
      ensures machine.current in dirOf
      ensures !stopped ==>
                Carried(machine.State(), r, w, loads, old(pager.mem), old(pager.dirs), old(pager.bitmap.View()),
                     dirOf[machine.current])
      ensures SameDirs(old(dirOf), dirOf, NewTaskId(machine.State()))
    {
      hide Valid, RangeOk, MapDone, AllocDone, SpawnDone, Translate, Inv, Pager.Valid;
      CurrentThere();
      w, stopped := World(loads, 0, false), false;
      match r.eax
      case 7 => w, stopped := AnswerMap(r, loads);
      case 8 => w, stopped := AnswerSpawn(loads);
      case 12 => w, stopped := AnswerAlloc(r);
      case 13 => w, stopped := AnswerSpawn(loads);
      case _ =>
    }

    lemma CurrentThere()
      requires Valid() && machine.current != idle
      ensures machine.current in dirOf && machine.current != NewTaskId(machine.State())
    {
    }

    lemma OwnedSlot(slot: nat)
      requires Valid()
      ensures match ResolveSlot(machine.State(), slot)
              case Some((MemoryGrant(phys, len, _), _)) => RangeOk(phys, len, pager.grants)
              case _ => true
    {
    }

    // ----- what the caller sees -----

    /** The caller finds 0 and the pages of its capability at `r.ecx`, or a failure and nothing changed. */
    ghost predicate MapSeen(k: Kernel, k': Kernel, r: Regs, was: Mem, d: nat)
      reads pager
    {
      match Held(k, r.ebx)
      case Some(CapNode(MemoryGrant(phys, len, writable), _, _, _)) =>
        var ok := phys % 4096 == 0 && r.ecx % 4096 == 0 && len > 0 && r.ecx + len <= 0xC000_0000;
        && Left(k, k', r.(eax := if ok then 0 else 0xFFFF_FFFF), [])
        && (ok ==> pager.Shows(d, r.ecx / 4096, Pages(len), phys / 4096, true, writable))
        && pager.SameBut(was, d, r.ecx / 4096, if ok then Pages(len) else 0)
      case _ => Left(k, k', r.(eax := 0xFFFF_FFFF), []) && pager.SameBut(was, d, 0, 0)
    }

    /** The caller finds a slot and an address, a capability in that slot to the frames at that address,
        and these frames, free before, at `r.ebx`; or 0 in both and nothing changed. */
    ghost predicate AllocSeen(k: Kernel, k': Kernel, r: Regs, was: Mem, used: seq<bool>, d: nat)
      reads pager
    {
      var n := if r.ecx == 0 then 1 else r.ecx;
      && k.current in k.tasks && k.current in k'.tasks
      && if r.ebx % 4096 == 0 && r.ebx + 4096 * n <= 0xC000_0000 && Room(used, n) then
           var phys := k'.tasks[k.current].regs.ecx;
           && Left(k, k', r.(eax := |k.tasks[k.current].cspace|, ecx := phys), [Some(|k.nodes|)])
           && k'.nodes == k.nodes + [CapNode(MemoryGrant(phys, 4096 * n, true), 0, [], false)]
           && phys % 4096 == 0 && FreeRun(used, phys / 4096, n)
           && pager.Shows(d, r.ebx / 4096, n, phys / 4096, true, true) && pager.SameBut(was, d, r.ebx / 4096, n)
         else Left(k, k', r.(eax := 0, ecx := 0), []) && pager.SameBut(was, d, 0, 0)
    }

    /** What a call has done to memory, and what its caller finds in its registers and table. */
    ghost predicate Seen(k: Kernel, k': Kernel, r: Regs, loads: bool, was: Mem, spaces: set<nat>, used: seq<bool>,
                         d: nat)
      reads this, pager
    {
      match r.eax
      case 7 => MapSeen(k, k', r, was, d)
      case 12 => AllocSeen(k, k', r, was, used, d)
      case 8 => SpawnSeen(k, k', r, loads, was, spaces)
      case 13 => SpawnSeen(k, k', r, loads, was, spaces)
      case _ => SameIn(was, spaces)
    }

    /** The caller finds the new task's number, which has an empty space of its own, or 0. */
    ghost predicate SpawnSeen(k: Kernel, k': Kernel, r: Regs, loads: bool, was: Mem, spaces: set<nat>)
      reads this, pager
    {
      && Left(k, k', r.(eax := if loads then |k.tasks| + 1 else 0), []) && SameIn(was, spaces)
      && (loads ==>
            && |k.tasks| + 1 !in k.tasks && |k.tasks| + 1 in k'.tasks
            && |k.tasks| + 1 in dirOf && dirOf[|k.tasks| + 1] !in spaces
            && Empty(dirOf[|k.tasks| + 1]))
    }

    lemma Shown(k: Kernel, r: Regs, w: World, loads: bool, was: Mem, spaces: set<nat>, used: seq<bool>, d: nat)
      requires Inv(k, idle) && k.current != idle && Carried(k, r, w, loads, was, spaces, used, d)
      ensures Seen(k, Step(k, Op.Trap(r, w)), r, loads, was, spaces, used, d)
    {
      if r.eax == 7 {
        MapShown(k, r, w, was, d);
      } else if r.eax == 12 {
        AllocShown(k, r, w, was, used, d);
      } else if r.eax == 8 || r.eax == 13 {
        SpawnReturns(k, idle, r, w);
      }
      hide Inv, Step, MapDone, MapSeen, AllocDone, AllocSeen, Translate;
    }

    lemma ValidInv()
      requires Valid()
      ensures Inv(machine.State(), idle) && pager.bitmap.Valid()
    {
    }

    lemma MapShown(k: Kernel, r: Regs, w: World, was: Mem, d: nat)
      requires Inv(k, idle) && k.current != idle && r.eax == 7 && MapDone(k, r, w, was, d)
      ensures MapSeen(k, Step(k, Op.Trap(r, w)), r, was, d)
    {
      MapReturns(k, idle, r, w);
      hide Inv, Step, Left, Held, Translate, Pages;
    }

    lemma AllocShown(k: Kernel, r: Regs, w: World, was: Mem, used: seq<bool>, d: nat)
      requires Inv(k, idle) && k.current != idle && r.eax == 12 && AllocDone(r, w, was, used, d)
      ensures AllocSeen(k, Step(k, Op.Trap(r, w)), r, was, used, d)
    {
      AllocReturns(k, idle, r, w);
      hide Inv, Step, Room, Translate, FreeRun;
    }

    /** A system call: the pager answers, then the tables take the model's step. What was mapped where is
        what the caller is told; no other translation changes, in its own space or another task's. */
    method Trap(r: Regs, loads: bool) returns (stopped: bool, ghost w: World)
      requires Valid() && machine.current != idle && r.ebx < U32 && r.ecx < U32
      modifies this, machine, machine.caps, pager, pager.bitmap.bits
      ensures Valid()
      ensures machine.State() == if stopped then old(machine.State()) else Step(old(machine.State()), Op.Trap(r, w))
      ensures old(machine.current) in old(dirOf)
      ensures !stopped ==>
                Seen(old(machine.State()), machine.State(), r, loads, old(pager.mem), old(pager.dirs),
                     old(pager.bitmap.View()), old(dirOf[machine.current]))
      ensures SameDirs(old(dirOf), dirOf, old(|machine.tasks|) + 1)
    {
      hide Step, Inv, Carried, Seen, Valid, RangeOk, Given, Pager.Valid;
      CurrentThere();
      ValidInv();
      ghost var k := machine.State();
      var answer, halt := Answer(r, loads);
      stopped, w := halt, answer;
      if !halt {
        Shown(k, r, w, loads, old(pager.mem), old(pager.dirs), old(pager.bitmap.View()), dirOf[k.current]);
        Commit(r, answer);
      }
    }

    /** The tables take the step the pager's answer decides. */
    method Commit(r: Regs, w: World)
      requires Valid() && machine.current != idle
      requires forall x | x in Given(Op.Trap(r, w)) :: RangeOk(x.0, x.1, pager.grants)
      requires Spawns(Op.Trap(r, w)) ==> NewTaskId(machine.State()) in dirOf
      modifies machine, machine.caps
      ensures Valid() && machine.State() == Step(old(machine.State()), Op.Trap(r, w))
    {
      hide Range, Pages, Owned, Step, Inv, Housed, Apart, Within, CapsOk, RangeOk, Given;
      ghost var k := machine.State();
      StepOwned(k, Op.Trap(r, w), pager.grants, pager.grants);
      StepKeeps(k, idle, Op.Trap(r, w));
      StepHoused(k, Op.Trap(r, w), dirOf, idle);
      TrapIsStep(k, r, w);
      machine.SyscallDispatch(r, w);
    }

    /** Interrupts hand out nothing. */
    method Interrupt(op: Op)
      requires Valid() && !op.Trap? && Enabled(machine.State(), idle, op)
      modifies machine, machine.caps
      ensures Valid() && machine.State() == Step(old(machine.State()), op)
    {
      hide Range, Pages, Owned, Step, Inv, Housed;
      StepOwned(machine.State(), op, pager.grants, pager.grants);
      StepKeeps(machine.State(), idle, op);
      StepHoused(machine.State(), op, dirOf, idle);
      machine.Perform(op);
    }
  }

  lemma StillOwned(nodes: seq<CapNode>, grants: set<nat>, grants': set<nat>)
    requires Owned(nodes, grants) && grants <= grants'
    ensures Owned(nodes, grants')
  {
    hide Range, Pages;
  }
}
