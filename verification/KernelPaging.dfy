/**
 Two-level page tables in physical frames. Mapping one page changes one translation of one
 address space, the kernel half never changes, and no table frame ever becomes user-mapped.
 Entries are modelled by their fields: frame number and flag bits.
 */
module KernelPaging {
  import opened Bytes
  import opened KernelFrames

  const KERNEL_PDE := 768
  /** The first page number of the kernel half. */
  const KERNEL_PAGE := 786432

  datatype Entry = Entry(frame: nat, present: bool, writable: bool, user: bool, large: bool)

  const EMPTY := Entry(0, false, false, false, false)

  datatype Mapping = Mapping(frame: nat, user: bool, writable: bool)

  /** Frames that hold tables, by frame number. */
  type Mem = map<nat, seq<Entry>>

  function Zeroed(): (t: seq<Entry>)
    ensures |t| == 1024 && forall i | 0 <= i < 1024 :: t[i] == EMPTY
  {
    seq(1024, i => EMPTY)
  }

  /** What the processor makes of page `v`: both levels' user and write bits must agree. */
  function Translate(mem: Mem, dir: nat, v: nat): Option<Mapping> {
    var pd, pt := v / 1024, v % 1024;
    if dir in mem && pd < |mem[dir]| && mem[dir][pd].present then
      var pde := mem[dir][pd];
      if pde.large then Some(Mapping(pde.frame + pt, pde.user, pde.writable))
      else if pde.frame in mem && pt < |mem[pde.frame]| && mem[pde.frame][pt].present then
        var pte := mem[pde.frame][pt];
        Some(Mapping(pte.frame, pde.user && pte.user, pde.writable && pte.writable))
      else None
    else None
  }

  /** The address spaces: `owner` says which directory entry each page table serves, `grants` which
      frames may be mapped for user code. */
  datatype Spaces = Spaces(mem: Mem, dirs: set<nat>, owner: map<nat, (nat, nat)>, grants: set<nat>)

  /** Whatever a table shows to user code is granted, and its directory entry lets user code in. */
  ghost predicate UserOk(t: seq<Entry>, user: bool, grants: set<nat>) {
    forall j | 0 <= j < |t| :: t[j].present && t[j].user ==> user && t[j].frame in grants
  }

  ghost predicate PdeOk(s: Spaces, d: nat, i: nat)
    requires d in s.mem && i < |s.mem[d]|
  {
    var pde := s.mem[d][i];
    pde.present ==>
      && !pde.large && pde.writable
      && pde.frame in s.owner && s.owner[pde.frame] == (d, i)
      && pde.frame in s.mem && |s.mem[pde.frame]| == 1024 && UserOk(s.mem[pde.frame], pde.user, s.grants)
  }

  /** The boot directory maps the kernel half in large pages only. */
  ghost predicate BootOk(boot: seq<Entry>) {
    |boot| == 1024 && forall i | KERNEL_PDE <= i < 1024 :: boot[i].present ==> boot[i].large && !boot[i].user
  }

  ghost predicate DirOk(s: Spaces, d: nat, boot: seq<Entry>)
    requires |boot| == 1024
  {
    && d in s.mem && |s.mem[d]| == 1024
    && (forall i: nat | i < KERNEL_PDE :: PdeOk(s, d, i))
    && (forall i | KERNEL_PDE <= i < 1024 :: s.mem[d][i] == boot[i])
  }

  ghost predicate SpacesOk(s: Spaces, boot: seq<Entry>) {
    && BootOk(boot)
    && (forall d | d in s.dirs :: DirOk(s, d, boot))
    && s.owner.Keys !! s.dirs && (s.owner.Keys + s.dirs) !! s.grants
  }

  // ----- one mapping -----

  /** The covering page table exists and admits user code if asked; `spare` is used if it must be
      made. */
  function WithTable(mem: Mem, d: nat, pd: nat, user: bool, spare: nat): Mem
    requires d in mem && pd < |mem[d]|
  {
    var pde := mem[d][pd];
    if pde.present then
      if user && !pde.user then mem[d := mem[d][pd := pde.(user := true)]] else mem
    else mem[spare := Zeroed()][d := mem[d][pd := Entry(spare, true, true, user, false)]]
  }

  function TableOf(mem: Mem, d: nat, pd: nat, spare: nat): nat
    requires d in mem && pd < |mem[d]|
  {
    if mem[d][pd].present then mem[d][pd].frame else spare
  }

  ghost function WithOwner(s: Spaces, d: nat, pd: nat, user: bool, spare: nat): Spaces
    requires d in s.mem && pd < |s.mem[d]|
  {
    s.(mem := WithTable(s.mem, d, pd, user, spare),
       owner := if s.mem[d][pd].present then s.owner else s.owner[spare := (d, pd)])
  }

  /** `spare` is not in use for anything. */
  ghost predicate Unused(s: Spaces, spare: nat) {
    spare !in s.dirs && spare !in s.owner && spare !in s.grants
  }

  lemma TableReady(s: Spaces, boot: seq<Entry>, d: nat, pd: nat, user: bool, spare: nat)
    requires SpacesOk(s, boot) && d in s.dirs && pd < KERNEL_PDE
             && (d in s.mem && pd < |s.mem[d]| && !s.mem[d][pd].present ==> Unused(s, spare))
    ensures d in s.mem && pd < |s.mem[d]|
    ensures var s' := WithOwner(s, d, pd, user, spare);
            && SpacesOk(s', boot) && d in s'.mem && pd < |s'.mem[d]| && s'.mem[d][pd].present
               && s'.mem[d][pd].frame == TableOf(s.mem, d, pd, spare) && (user ==> s'.mem[d][pd].user)
  {
    assert DirOk(s, d, boot) && PdeOk(s, d, pd);
    var s' := WithOwner(s, d, pd, user, spare);
    forall e | e in s'.dirs ensures DirOk(s', e, boot) {
      assert DirOk(s, e, boot);
      forall i: nat | i < KERNEL_PDE ensures PdeOk(s', e, i) {
        assert PdeOk(s, e, i);
      }
    }
  }

  /** Preparing the table, even raising its user bit, changes no translation. */
  lemma TableTranslates(s: Spaces, boot: seq<Entry>, d: nat, pd: nat, user: bool, spare: nat, e: nat, w: nat)
    requires SpacesOk(s, boot) && d in s.dirs && pd < KERNEL_PDE && e in s.dirs && w < 1024 * 1024
    requires d in s.mem && pd < |s.mem[d]| && (!s.mem[d][pd].present ==> Unused(s, spare))
    ensures Translate(WithTable(s.mem, d, pd, user, spare), e, w) == Translate(s.mem, e, w)
  {
    assert DirOk(s, e, boot) && DirOk(s, d, boot) && PdeOk(s, d, pd);
    var i := w / 1024;
    if i < KERNEL_PDE {
      assert PdeOk(s, e, i);
    }
  }

  /** The table entry of page `v` written. */
  function WithPte(mem: Mem, t: nat, pt: nat, e: Entry): Mem
    requires t in mem && pt < |mem[t]|
  {
    mem[t := mem[t][pt := e]]
  }

  lemma PteReady(s: Spaces, boot: seq<Entry>, d: nat, pd: nat, pt: nat, e: Entry)
    requires SpacesOk(s, boot) && d in s.dirs && pd < KERNEL_PDE && pt < 1024
    requires d in s.mem && pd < |s.mem[d]| && s.mem[d][pd].present
             && (e.user ==> s.mem[d][pd].user && e.frame in s.grants)
    ensures var t := s.mem[d][pd].frame;
            && t in s.mem && pt < |s.mem[t]| && SpacesOk(s.(mem := WithPte(s.mem, t, pt, e)), boot)
  {
    assert DirOk(s, d, boot) && PdeOk(s, d, pd);
    var t := s.mem[d][pd].frame;
    var s' := s.(mem := WithPte(s.mem, t, pt, e));
    forall x | x in s'.dirs ensures DirOk(s', x, boot) {
      assert DirOk(s, x, boot);
      forall i: nat | i < KERNEL_PDE ensures PdeOk(s', x, i) {
        assert PdeOk(s, x, i);
      }
    }
  }

  lemma PteTranslates(s: Spaces, boot: seq<Entry>, d: nat, v: nat, m: Mapping, e: nat, w: nat)
    requires SpacesOk(s, boot) && d in s.dirs && v < KERNEL_PAGE && e in s.dirs && w < 1024 * 1024
    requires d in s.mem && v / 1024 < |s.mem[d]| && s.mem[d][v / 1024].present && (m.user ==> s.mem[d][v / 1024].user)
    requires var t := s.mem[d][v / 1024].frame; t in s.mem && v % 1024 < |s.mem[t]|
    ensures Translate(WithPte(s.mem, s.mem[d][v / 1024].frame, v % 1024,
            Entry(m.frame, true, m.writable, m.user, false)), e, w)
            == if (e, w) == (d, v) then Some(m) else Translate(s.mem, e, w)
  {
    assert DirOk(s, e, boot) && DirOk(s, d, boot) && PdeOk(s, d, v / 1024);
    var i := w / 1024;
    if i < KERNEL_PDE {
      assert PdeOk(s, e, i);
    }
  }

  /** The memory after page `v` of `d` has been mapped. */
  function Mapped(mem: Mem, d: nat, v: nat, m: Mapping, spare: nat): Mem
    requires d in mem && v / 1024 < |mem[d]|
    requires var t := TableOf(mem, d, v / 1024, spare); mem[d][v / 1024].present ==>
             t in mem && |mem[t]| == 1024 && t != d
    requires !mem[d][v / 1024].present ==> spare != d
  {
    WithPte(WithTable(mem, d, v / 1024, m.user, spare), TableOf(mem, d, v / 1024, spare), v % 1024,
            Entry(m.frame, true, m.writable, m.user, false))
  }

  ghost predicate CanMap(s: Spaces, boot: seq<Entry>, d: nat, v: nat, m: Mapping, spare: nat) {
    && SpacesOk(s, boot) && d in s.dirs && v < KERNEL_PAGE && (m.user ==> m.frame in s.grants)
    && d in s.mem && v / 1024 < |s.mem[d]| && (!s.mem[d][v / 1024].present ==> Unused(s, spare))
  }

  lemma MapWellFormed(s: Spaces, boot: seq<Entry>, d: nat, v: nat, m: Mapping, spare: nat)
    requires CanMap(s, boot, d, v, m, spare)
    ensures var t := TableOf(s.mem, d, v / 1024, spare); s.mem[d][v / 1024].present ==>
            t in s.mem && |s.mem[t]| == 1024 && t != d
    ensures !s.mem[d][v / 1024].present ==> spare != d
    ensures v / 1024 < KERNEL_PDE && |s.mem[d]| == 1024 && (s.mem[d][v / 1024].present ==> !s.mem[d][v / 1024].large)
  {
    assert DirOk(s, d, boot) && PdeOk(s, d, v / 1024);
  }

  ghost function AfterMap(s: Spaces, boot: seq<Entry>, d: nat, v: nat, m: Mapping, spare: nat): Spaces
    requires CanMap(s, boot, d, v, m, spare)
  {
    MapWellFormed(s, boot, d, v, m, spare);
    s.(mem := Mapped(s.mem, d, v, m, spare),
       owner := if s.mem[d][v / 1024].present then s.owner else s.owner[spare := (d, v / 1024)])
  }

  /** Mapping a page gives it exactly the requested translation, changes no other translation in
      any address space, and keeps tables out of user reach. */
  lemma MapChangesOne(s: Spaces, boot: seq<Entry>, d: nat, v: nat, m: Mapping, spare: nat)
    requires CanMap(s, boot, d, v, m, spare)
    ensures var s' := AfterMap(s, boot, d, v, m, spare);
            && SpacesOk(s', boot)
            && forall e, w: nat | e in s.dirs && w < 1024 * 1024 ::
                 Translate(s'.mem, e, w) == if (e, w) == (d, v) then Some(m) else Translate(s.mem, e, w)
  {
    MapWellFormed(s, boot, d, v, m, spare);
    var pd, pt := v / 1024, v % 1024;
    var s1, s' := WithOwner(s, d, pd, m.user, spare), AfterMap(s, boot, d, v, m, spare);
    TableReady(s, boot, d, pd, m.user, spare);
    var x := Entry(m.frame, true, m.writable, m.user, false);
    assert s'.mem == WithPte(s1.mem, s1.mem[d][pd].frame, pt, x);
    hide SpacesOk, Translate, WithTable, WithPte;
    PteReady(s1, boot, d, pd, pt, x);
    forall e, w: nat | e in s.dirs && w < 1024 * 1024
      ensures Translate(s'.mem, e, w) == if (e, w) == (d, v) then Some(m) else Translate(s.mem, e, w)
    {
      TableTranslates(s, boot, d, pd, m.user, spare, e, w);
      PteTranslates(s1, boot, d, v, m, e, w);
    }
  }

  /** User code reaches granted frames only: never the kernel half, never a frame that serves as a
      directory or page table. */
  lemma UserReach(s: Spaces, boot: seq<Entry>, d: nat, v: nat)
    requires SpacesOk(s, boot) && d in s.dirs && v < 1024 * 1024
    ensures var t := Translate(s.mem, d, v);
            t.Some? && t.value.user ==>
                v < KERNEL_PAGE && t.value.frame in s.grants && t.value.frame !in s.dirs && t.value.frame !in s.owner
  {
    assert DirOk(s, d, boot);
    if v / 1024 < KERNEL_PDE {
      assert PdeOk(s, d, v / 1024);
    }
  }

  /** In the kernel half every address space is the boot directory. */
  lemma KernelHalfShared(s: Spaces, boot: seq<Entry>, d: nat, e: nat, v: nat)
    requires SpacesOk(s, boot) && d in s.dirs && e in s.dirs && KERNEL_PAGE <= v < 1024 * 1024
    ensures Translate(s.mem, d, v) == Translate(s.mem, e, v)
    ensures d in s.mem && v / 1024 < |s.mem[d]| && v / 1024 < |boot| && s.mem[d][v / 1024] == boot[v / 1024]
  {
    assert DirOk(s, d, boot) && DirOk(s, e, boot);
  }

  // ----- a new address space -----

  function NewTable(boot: seq<Entry>): (t: seq<Entry>)
    requires |boot| == 1024
    ensures |t| == 1024 && forall i | 0 <= i < 1024 :: t[i] == if i < KERNEL_PDE then EMPTY else boot[i]
  {
    Zeroed()[..KERNEL_PDE] + boot[KERNEL_PDE..]
  }

  lemma NewKeeps(s: Spaces, boot: seq<Entry>, d: nat)
    requires SpacesOk(s, boot) && Unused(s, d)
    ensures var s' := s.(mem := s.mem[d := NewTable(boot)], dirs := s.dirs + {d});
            && SpacesOk(s', boot)
            && (forall e, w: nat | e in s.dirs && w < 1024 * 1024 :: Translate(s'.mem, e, w) == Translate(s.mem, e, w))
            && (forall w: nat | w < KERNEL_PAGE :: Translate(s'.mem, d, w).None?)
  {
    var s' := s.(mem := s.mem[d := NewTable(boot)], dirs := s.dirs + {d});
    forall e | e in s'.dirs ensures DirOk(s', e, boot) {
      if e != d {
        assert DirOk(s, e, boot);
        forall i: nat | i < KERNEL_PDE ensures PdeOk(s', e, i) {
          assert PdeOk(s, e, i);
        }
      }
    }
    forall e, w: nat | e in s.dirs && w < 1024 * 1024 ensures Translate(s'.mem, e, w) == Translate(s.mem, e, w) {
      assert DirOk(s, e, boot);
      if w / 1024 < KERNEL_PDE {
        assert PdeOk(s, e, w / 1024);
      }
    }
  }

  /** Granting unused frames keeps everything else. */
  lemma GrantKeeps(s: Spaces, boot: seq<Entry>, frames: set<nat>)
    requires SpacesOk(s, boot) && forall f | f in frames :: f !in s.dirs && f !in s.owner
    ensures SpacesOk(s.(grants := s.grants + frames), boot)
  {
    var s' := s.(grants := s.grants + frames);
    forall e | e in s'.dirs ensures DirOk(s', e, boot) {
      assert DirOk(s, e, boot);
      forall i: nat | i < KERNEL_PDE ensures PdeOk(s', e, i) {
        assert PdeOk(s, e, i);
      }
    }
  }

  // ----- the address spaces of the running system -----

  lemma NoneLeft(v: seq<bool>)
    requires forall f | 0 <= f < |v| :: v[f]
    ensures forall s: nat :: !FreeRun(v, s, 1)
  {
    forall s: nat ensures !FreeRun(v, s, 1) {
      if s < |v| {
        assert v[s];
      }
    }
  }

  lemma CopiesOne(to: seq<Entry>, from: seq<Entry>, lo: nat, i: nat)
    requires lo <= i < |from| == |to|
    ensures (to[..lo] + from[lo..i] + to[i..])[i := from[i]] == to[..lo] + from[lo..i + 1] + to[i + 1..]
  {
  }

  class Pager {
    const bitmap: Bitmap
    const boot: seq<Entry>
    var mem: Mem
    ghost var dirs: set<nat>
    ghost var owner: map<nat, (nat, nat)>
    ghost var grants: set<nat>

    ghost function State(): Spaces
      reads this
    {
      Spaces(mem, dirs, owner, grants)
    }

    /** Frames in use for anything are marked, unless they lie outside the managed memory. */
    ghost predicate Valid()
      reads this, bitmap, bitmap.bits
    {
      && bitmap.Valid() && SpacesOk(State(), boot)
      && forall f | f in dirs || f in owner || f in grants :: f < bitmap.count ==> bitmap.View()[f]
    }

    /** `devices` are frames outside the allocator that drivers may be given. */
    constructor (bitmap: Bitmap, boot: seq<Entry>, ghost devices: set<nat>)
      requires bitmap.Valid() && BootOk(boot) && forall f | f in devices :: f < bitmap.count ==> bitmap.View()[f]
      ensures Valid() && this.bitmap == bitmap && dirs == {} && grants == devices
    {
      this.bitmap, this.boot := bitmap, boot;
      mem, dirs, owner, grants := map[], {}, map[], devices;
    }

    /** A fresh address space: empty below the kernel half, the boot directory's entries above. */
    method NewDirectory() returns (r: Option<nat>)
      requires Valid()
      modifies this, bitmap.bits
      ensures Valid() && grants == old(grants)
      ensures r.None? ==> mem == old(mem) && dirs == old(dirs)
      ensures r.Some? ==> r.value !in old(dirs) && dirs == old(dirs) + {r.value}
      ensures r.Some? ==> forall w: nat | w < KERNEL_PAGE :: Translate(mem, r.value, w).None?
      ensures forall e, w: nat | e in old(dirs) && w < 1024 * 1024 :: Translate(mem, e, w) == Translate(old(mem), e, w)
    {
      hide SpacesOk, Translate;
      ghost var s := State();
      r := bitmap.AllocFrame();
      if r.Some? {
        var d := r.value;
        BootLength(s, boot);
        NewKeeps(s, boot, d);
        mem := mem[d := Zeroed()];
        var i := KERNEL_PDE;
        assert Zeroed()[..i] + boot[i..i] + Zeroed()[i..] == Zeroed();
        while i < 1024
          invariant KERNEL_PDE <= i <= 1024 && mem ==
                    s.mem[d := Zeroed()[..KERNEL_PDE] + boot[KERNEL_PDE..i] + Zeroed()[i..]]
          invariant State() == s.(mem := mem) && bitmap.View() == old(bitmap.View())[d := true]
        {
          CopiesOne(Zeroed(), boot, KERNEL_PDE, i);
          mem := mem[d := mem[d][i := boot[i]]];
          i := i + 1;
        }
        assert mem[d] == NewTable(boot);
        dirs := dirs + {d};
      }
    }

    /** The frame of the table that covers directory entry `pd`, made if need be. */
    method EnsureTable(d: nat, pd: nat, user: bool) returns (r: Option<nat>)
      requires Valid() && d in dirs && pd < KERNEL_PDE
      modifies this, bitmap.bits
      ensures forall f | 0 <= f < bitmap.count && old(bitmap.View())[f] :: bitmap.View()[f]
      ensures d in old(mem) && pd < |old(mem)[d]|
      ensures r.None? ==> State() == old(State()) && bitmap.View() == old(bitmap.View())
      ensures r.Some? ==>
                && State() == WithOwner(old(State()), d, pd, user, r.value)
                   && r.value == TableOf(old(mem), d, pd, r.value)
                && (!old(mem)[d][pd].present ==>
                   Unused(old(State()), r.value) && r.value < bitmap.count && bitmap.View()[r.value])
    {
      hide SpacesOk;
      DirectoryLength(State(), boot, d);
      var pde := mem[d][pd];
      if pde.present {
        r := Some(pde.frame);
        if user && !pde.user {
          mem := mem[d := mem[d][pd := pde.(user := true)]];
        }
      } else {
        r := bitmap.AllocFrame();
        if r.Some? {
          mem := mem[r.value := Zeroed()];
          mem := mem[d := mem[d][pd := Entry(r.value, true, true, user, false)]];
          owner := owner[r.value := (d, pd)];
        }
      }
    }

    /** Maps page `v` of address space `d`; false if no frame is left for a page table. */
    method MapPage(d: nat, v: nat, frame: nat, user: bool, writable: bool) returns (ok: bool)
      requires Valid() && d in dirs && v < KERNEL_PAGE && (user ==> frame in grants)
      modifies this, bitmap.bits
      ensures Valid() && dirs == old(dirs) && grants == old(grants)
      ensures forall f | 0 <= f < bitmap.count && old(bitmap.View())[f] :: bitmap.View()[f]
      ensures !ok ==> mem == old(mem)
      ensures ok ==> forall e, w: nat | e in dirs && w < 1024 * 1024 ::
                Translate(mem, e, w) == if (e, w) == (d, v) then Some(Mapping(frame, user, writable))
                    else Translate(old(mem), e, w)
    {
      hide SpacesOk, Translate, TableOf, WithTable;
      ghost var s := State();
      ghost var m := Mapping(frame, user, writable);
      var table := EnsureTable(d, v / 1024, user);
      ok := table.Some?;
      if ok {
        MapWellFormed(s, boot, d, v, m, table.value);
        MapChangesOne(s, boot, d, v, m, table.value);
        TableReady(s, boot, d, v / 1024, user, table.value);
        PteReady(State(), boot, d, v / 1024, v % 1024, Entry(frame, true, writable, user, false));
        mem := mem[table.value := mem[table.value][v % 1024 := Entry(frame, true, writable, user, false)]];
        assert State() == AfterMap(s, boot, d, v, m, table.value);
      }
    }

    /** Everything outside pages `[v, v + n)` of `d` translates as it did in `was`. */
    ghost predicate SameBut(was: Mem, d: nat, v: nat, n: nat)
      reads this
    {
      forall e, w: nat | e in dirs && w < 1024 * 1024 && !(e == d && v <= w < v + n) ::
          Translate(mem, e, w) == Translate(was, e, w)
    }

    /** Pages `[v, v + n)` of `d` show frames `[f, f + n)`. */
    ghost predicate Shows(d: nat, v: nat, n: nat, f: nat, user: bool, writable: bool)
      reads this
    {
      forall w: nat | v <= w < v + n :: Translate(mem, d, w) == Some(Mapping(f + (w - v), user, writable))
    }

    method MapRange(d: nat, v: nat, n: nat, f: nat, writable: bool) returns (ok: bool)
      requires Valid() && d in dirs && v + n <= KERNEL_PAGE && Range(f, n) <= grants
      modifies this, bitmap.bits
      ensures Valid() && dirs == old(dirs) && grants == old(grants) && SameBut(old(mem), d, v, n)
      ensures ok ==> Shows(d, v, n, f, true, writable)
    {
      hide SpacesOk, Translate;
      ok := true;
      var k := 0;
      while k < n && ok
        invariant k <= n && Valid() && dirs == old(dirs) && grants == old(grants)
        invariant SameBut(old(mem), d, v, n) && (ok ==> Shows(d, v, k, f, true, writable))
        decreases ok, n - k
      {
        assert f + k in Range(f, n);
        ok := MapPage(d, v + k, f + k, true, writable);
        if ok {
          k := k + 1;
        }
      }
    }

    /** Maps a granted physical range into the caller's address space. An unaligned, empty or
        overflowing request, or one that reaches the kernel half, changes nothing. */
    method MapMemory(d: nat, phys: nat, virt: nat, len: nat, writable: bool) returns (r: MapResult)
      requires Valid() && d in dirs && virt < U32 && len < U32
      requires Range(phys / 4096, Pages(len)) <= grants
      modifies this, bitmap.bits
      ensures Valid() && dirs == old(dirs) && grants == old(grants)
      ensures r == Refused <==> phys % 4096 != 0 || virt % 4096 != 0 || len == 0 || virt + len > 0xC000_0000
      ensures r == Refused ==> mem == old(mem)
      ensures SameBut(old(mem), d, virt / 4096, Pages(len))
      ensures r == Done ==> Shows(d, virt / 4096, Pages(len), phys / 4096, true, writable)
    {
      hide SpacesOk, Translate;
      if phys % 4096 != 0 || virt % 4096 != 0 || len == 0 || virt + len > 0xC000_0000 {
        r := Refused;
      } else {
        PagesFit(virt, len);
        var ok := MapRange(d, virt / 4096, Pages(len), phys / 4096, writable);
        r := if ok then Done else OutOfMemory;
      }
    }

    /** Allocates frames, grants them and maps them. A request that is unaligned or reaches the kernel
        half is refused, and one that no run of free frames can meet; neither changes anything. */
    method MemAlloc(d: nat, virt: nat, count: nat) returns (r: AllocResult)
      requires Valid() && d in dirs && virt < U32
      modifies this, bitmap.bits
      ensures Valid() && dirs == old(dirs) && old(grants) <= grants
      ensures var n := if count == 0 then 1 else count;
              && (r == Rejected <==> virt % 4096 != 0 || virt + 4096 * n > 0xC000_0000)
              && (r == NoFrames <==> r != Rejected && forall s: nat :: !FreeRun(old(bitmap.View()), s, n))
              && (r == Rejected || r == NoFrames ==> State() == old(State()) && bitmap.View() == old(bitmap.View()))
              && SameBut(old(mem), d, virt / 4096, n)
              && (r.Allocated? ==>
                    && FreeRun(old(bitmap.View()), r.frame, n) && Shows(d, virt / 4096, n, r.frame, true, true)
                    && grants == old(grants) + Range(r.frame, n) && forall f | f in Range(r.frame, n) ::
                       Unused(old(State()), f))
    {
      hide SpacesOk, Translate;
      var n := if count == 0 then 1 else count;
      if virt % 4096 != 0 || virt + 4096 * n > 0xC000_0000 { return Rejected; }
      var f := TakeFrames(n);
      if f.None? { return NoFrames; }
      GrantKeeps(State(), boot, Range(f.value, n));
      grants := grants + Range(f.value, n);
      var ok := MapRange(d, virt / 4096, n, f.value, true);
      return if ok then Allocated(f.value) else NoTable;
    }

    method TakeFrames(n: nat) returns (r: Option<nat>)
      requires bitmap.Valid() && n > 0
      modifies bitmap.bits
      ensures r.None? <==> forall s: nat :: !FreeRun(old(bitmap.View()), s, n)
      ensures r.None? ==> bitmap.View() == old(bitmap.View())
      ensures r.Some? ==> FreeRun(old(bitmap.View()), r.value, n)
      ensures r.Some? ==> bitmap.View() == Marked(old(bitmap.View()), r.value, r.value + n, true)
    {
      if n == 1 {
        r := bitmap.AllocFrame();
        if r.None? {
          NoneLeft(old(bitmap.View()));
        } else {
          assert FreeRun(old(bitmap.View()), r.value, 1);
          assert Marked(old(bitmap.View()), r.value, r.value + 1, true) == old(bitmap.View())[r.value := true];
        }
      } else {
        r := bitmap.AllocContiguous(n);
      }
    }
  }

  /** `NoTable`: a page table was needed and no frame was left for it, which stops the kernel. */
  datatype AllocResult = Allocated(frame: nat) | Rejected | NoFrames | NoTable

  datatype MapResult = Done | Refused | OutOfMemory

  /** The least number of pages that hold `len` bytes. */
  function Pages(len: nat): (n: nat)
    ensures len <= 4096 * n < len + 4096
  {
    (len + 4095) / 4096
  }

  ghost function Range(f: nat, n: nat): (r: set<nat>)
    ensures forall x: nat :: x in r <==> f <= x < f + n
  {
    if n == 0 then {} else Range(f, n - 1) + {f + n - 1}
  }

  lemma PagesFit(virt: nat, len: nat)
    requires virt % 4096 == 0 && virt + len <= 0xC000_0000
    ensures virt / 4096 + Pages(len) <= KERNEL_PAGE
  {
  }

  lemma BootLength(s: Spaces, boot: seq<Entry>)
    requires SpacesOk(s, boot)
    ensures |boot| == 1024
  {
  }

  lemma DirectoryLength(s: Spaces, boot: seq<Entry>, d: nat)
    requires SpacesOk(s, boot) && d in s.dirs
    ensures d in s.mem && |s.mem[d]| == 1024
  {
    assert DirOk(s, d, boot);
  }
}
