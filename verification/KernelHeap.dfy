/**
 The kernel's first-fit heap: a free list whose headers live in the free memory itself. Free
 blocks and live allocations always tile the heap region exactly.
 */
module KernelHeap {
  import opened Bytes

  const HEADER_SIZE := 8

  datatype Block = Block(addr: nat, size: nat)

  /** The header of a free block: its size and the address of the next free block. */
  datatype Header = Header(size: nat, next: Option<nat>)

  // ----- alignment -----

  ghost predicate Pow2(n: nat) {
    n == 1 || (n > 1 && n % 2 == 0 && Pow2(n / 2))
  }

  /** The largest multiple of `align` at or below `s`: what masking off the low bits leaves. */
  function Down(s: nat, align: nat): (r: nat)
    requires align > 0
    ensures r <= s < r + align && (align % 8 == 0 ==> r % 8 == 0)
    decreases s
  {
    if s < align then 0 else align + Down(s - align, align)
  }

  ghost predicate Aligned(x: nat, align: nat)
    requires align > 0
  {
    Down(x, align) == x
  }

  /** `addr` rounded up to `align`, in 32-bit arithmetic: the addition wraps. */
  function AlignUp(addr: nat, align: nat): nat
    requires align > 0
  {
    Down((addr + align - 1) % 0x1_0000_0000, align)
  }

  function RoundUpMinBlock(size: nat): (r: nat)
    ensures size <= r < size + 8 && r % 8 == 0
  {
    (size + 7) / 8 * 8
  }

  /** What a request of `size` bytes reserves. */
  function Reserved(size: nat): (r: nat)
    ensures r >= 8 && r % 8 == 0 && size <= r && (r == 8 || r < size + 8)
  {
    RoundUpMinBlock(if size < HEADER_SIZE then HEADER_SIZE else size)
  }

  lemma {:induction false} DownAligned(s: nat, align: nat)
    requires align > 0
    ensures Aligned(Down(s, align), align)
    decreases s
  {
    if s >= align {
      DownAligned(s - align, align);
    }
  }

  lemma {:induction false} TimesAtLeast(d: nat, a: nat)
    requires d > 0
    ensures d * a >= a
  {
  }

  lemma Farther(a: nat, q: nat, m: nat, q': nat, m': nat)
    requires q > q' && m' < a
    ensures q * a + m > q' * a + m'
  {
    TimesAtLeast(q - q', a);
    assert (q - q') * a == q * a - q' * a;
  }

  lemma SameRemainder(a: nat, q: nat, m: nat, q': nat, m': nat)
    requires q * a + m == q' * a + m' && m < a && m' < a
    ensures m == m'
  {
    if q > q' {
      Farther(a, q, m, q', m');
    } else if q < q' {
      Farther(a, q', m', q, m);
    }
  }

  lemma DivMod(s: nat, a: nat)
    requires a > 0
    ensures s == s / a * a + s % a && s / a >= 0 && 0 <= s % a < a
  {
  }

  /** `Down` takes off the remainder. */
  lemma {:induction false} DownMasks(s: nat, align: nat)
    requires align > 0
    ensures Down(s, align) == s - s % align
    decreases s
  {
    if s < align {
      DivMod(s, align);
      SameRemainder(align, 0, s, s / align, s % align);
    } else {
      DownMasks(s - align, align);
      MinusOne(s, align);
    }
  }

  lemma MinusOne(s: nat, a: nat)
    requires 0 < a <= s
    ensures (s - a) % a == s % a
  {
    DivMod(s - a, a);
    DivMod(s, a);
    var q, m, q', m' := (s - a) / a, (s - a) % a, s / a, s % a;
    Shift(s, a, q, m);
    SameRemainder(a, q + 1, m, q', m');
  }

  lemma Shift(s: nat, a: nat, q: nat, m: nat)
    requires a <= s && s - a == q * a + m
    ensures s == (q + 1) * a + m
  {
  }

  /** Two aligned addresses are a whole alignment unit apart. */
  lemma {:induction false} AlignedGap(x: nat, y: nat, align: nat)
    requires align > 0 && Aligned(x, align) && Aligned(y, align) && x < y
    ensures y - x >= align
    decreases x
  {
    if x >= align {
      AlignedGap(x - align, y - align, align);
    }
  }

  lemma Pow2Multiple8(a: nat)
    requires Pow2(a) && a >= 8
    ensures a % 8 == 0
  {
    assert Pow2(a / 2) && Pow2(a / 2 / 2);
  }

  /** Without wrapping, the least aligned address at or above `addr`. */
  lemma AlignsUp(addr: nat, align: nat)
    requires Pow2(align) && align >= 8 && addr + align <= U32
    ensures addr <= AlignUp(addr, align) < addr + align && Aligned(AlignUp(addr, align), align)
    ensures addr % 8 == 0 ==> AlignUp(addr, align) % 8 == 0
  {
    hide Pow2, Down;
    Pow2Multiple8(align);
    DownAligned(addr + align - 1, align);
    assert (addr + align - 1) % 0x1_0000_0000 == addr + align - 1;
  }

  /** The rounding is right exactly when a whole alignment unit fits above `addr` below 4 GiB;
      otherwise it wraps to 0. */
  lemma AlignExact(addr: nat, align: nat)
    requires Pow2(align) && 8 <= align < U32 && 0 < addr < U32
    ensures AlignUp(addr, align) >= addr <==> addr + align <= U32
    ensures addr + align > U32 ==> AlignUp(addr, align) == 0
  {
    if addr + align <= U32 {
      AlignsUp(addr, align);
    } else {
      assert (addr + align - 1) % 0x1_0000_0000 == addr + align - 1 - U32;
    }
    hide Pow2;
  }

  /** A request for 1 GiB alignment rounds an address of the kernel's heap to 0. */
  lemma AlignWraps()
    ensures AlignUp(0xC010_0000, 0x4000_0000) == 0
  {
    assert (0xC010_0000 + 0x4000_0000 - 1) % 0x1_0000_0000 == 0xF_FFFF;
  }

  // ----- tiling -----

  ghost predicate In(x: nat, b: Block) { b.addr <= x < b.addr + b.size }

  ghost predicate Apart(a: Block, b: Block) {
    a.addr + a.size <= b.addr || b.addr + b.size <= a.addr
  }

  /** A block of whole 8-byte units inside `[lo, hi)`. */
  ghost predicate Unit(b: Block, lo: nat, hi: nat) {
    lo <= b.addr && b.addr + b.size <= hi && b.size >= 8 && b.addr % 8 == 0 && b.size % 8 == 0
  }

  ghost predicate Covered(all: set<Block>, x: nat) {
    exists b :: b in all && In(x, b)
  }

  /** `all` tiles `[lo, hi)`: blocks of whole units, no two overlapping, no byte left out. */
  ghost predicate Tiles(all: set<Block>, lo: nat, hi: nat) {
    && (forall b | b in all :: Unit(b, lo, hi))
    && (forall a, b | a in all && b in all && a != b :: Apart(a, b))
    && (forall x: nat | lo <= x < hi :: Covered(all, x))
  }

  /** `pieces` is `r` cut up. */
  ghost predicate CutsUp(pieces: set<Block>, r: Block) {
    && (forall p | p in pieces :: Unit(p, r.addr, r.addr + r.size))
    && (forall a, b | a in pieces && b in pieces && a != b :: Apart(a, b))
    && (forall x: nat | In(x, r) :: Covered(pieces, x))
  }

  /** Replacing a block by its pieces keeps the tiling. */
  lemma CutTiles(all: set<Block>, lo: nat, hi: nat, r: Block, pieces: set<Block>)
    requires Tiles(all, lo, hi) && r in all && CutsUp(pieces, r)
    ensures Tiles(all - {r} + pieces, lo, hi)
  {
    var all' := all - {r} + pieces;
    assert Unit(r, lo, hi);
    forall x: nat | lo <= x < hi ensures Covered(all', x) {
      assert Covered(all, x);
      var b :| b in all && In(x, b);
      if b == r {
        assert Covered(pieces, x);
        var p :| p in pieces && In(x, p);
        assert p in all';
      } else {
        assert b in all';
      }
    }
    hide Covered;
    forall b | b in all' ensures Unit(b, lo, hi) {
    }
    forall a, b | a in all' && b in all' && a != b ensures Apart(a, b) {
      if a in pieces && b !in pieces {
        assert Apart(r, b);
      } else if a !in pieces && b in pieces {
        assert Apart(a, r);
      }
    }
  }

  /** An allocation `a` in block `r`: what is left before and behind it. */
  ghost predicate Within(a: Block, r: Block) {
    Unit(a, r.addr, r.addr + r.size) && Unit(r, r.addr, r.addr + r.size)
  }

  ghost function Front(r: Block, a: Block): set<Block> {
    if a.addr > r.addr then {Block(r.addr, a.addr - r.addr)} else {}
  }

  ghost function Back(r: Block, a: Block): set<Block> {
    if a.addr + a.size < r.addr + r.size then {Block(a.addr + a.size, r.addr + r.size - a.addr - a.size)} else {}
  }

  /** Block `a` is cut out of the free block `r`; what is left in front and behind stays free. */
  ghost predicate Cut(was: set<Block>, now: set<Block>, r: Block, a: Block) {
    now == was - {r} + Front(r, a) + Back(r, a)
  }

  lemma Diff8(a: nat, b: nat)
    requires a % 8 == 0 && b % 8 == 0 && b < a
    ensures (a - b) % 8 == 0 && a - b >= 8
  {
  }

  lemma Sum8(a: nat, b: nat)
    requires a % 8 == 0 && b % 8 == 0
    ensures (a + b) % 8 == 0
  {
  }

  /** No sliver: what is left on either side is nothing or a whole number of units. */
  lemma LeftoversAreUnits(r: Block, a: Block)
    requires Within(a, r)
    ensures forall p | p in Front(r, a) + Back(r, a) :: Unit(p, r.addr, r.addr + r.size)
  {
    var aEnd, rEnd := a.addr + a.size, r.addr + r.size;
    Sum8(a.addr, a.size);
    Sum8(r.addr, r.size);
    if a.addr > r.addr {
      Diff8(a.addr, r.addr);
    }
    if aEnd < rEnd {
      Diff8(rEnd, aEnd);
    }
  }

  lemma WithinBounds(a: Block, r: Block)
    requires Within(a, r)
    ensures r.addr <= a.addr && a.addr + a.size <= r.addr + r.size && a.size > 0 && Unit(a, r.addr, r.addr + r.size)
  {
  }

  lemma CoveredBy(all: set<Block>, b: Block, x: nat)
    requires b in all && b.addr <= x < b.addr + b.size
    ensures Covered(all, x)
  {
    assert In(x, b);
  }

  lemma Allocated(r: Block, a: Block)
    requires Within(a, r)
    ensures CutsUp(Front(r, a) + {a} + Back(r, a), r)
  {
    hide Unit, Within, Covered;
    var pieces := Front(r, a) + {a} + Back(r, a);
    LeftoversAreUnits(r, a);
    WithinBounds(a, r);
    forall x: nat | In(x, r) ensures Covered(pieces, x) {
      if x < a.addr {
        CoveredBy(pieces, Block(r.addr, a.addr - r.addr), x);
      } else if x < a.addr + a.size {
        CoveredBy(pieces, a, x);
      } else {
        CoveredBy(pieces, Block(a.addr + a.size, r.addr + r.size - a.addr - a.size), x);
      }
    }
    forall p | p in pieces ensures Unit(p, r.addr, r.addr + r.size) {
      if p != a {
        assert p in Front(r, a) + Back(r, a);
      }
    }
  }

  // ----- the free list -----

  function AddrAt(free: seq<Block>, i: nat): Option<nat> {
    if i < |free| then Some(free[i].addr) else None
  }

  /** The headers in memory spell out `free`, from `head` on. */
  ghost predicate Listed(head: Option<nat>, free: seq<Block>, mem: map<nat, Header>) {
    && head == AddrAt(free, 0)
    && forall i: nat | i < |free| ::
       free[i].addr in mem && mem[free[i].addr] == Header(free[i].size, AddrAt(free, i + 1))
  }

  ghost predicate NoDup(free: seq<Block>) {
    forall i, j | 0 <= i < j < |free| :: free[i].addr != free[j].addr
  }

  ghost function Blocks(free: seq<Block>): set<Block> { set b | b in free }

  predicate FitsIn(b: Block, size: nat, align: nat)
    requires align > 0
  {
    AlignUp(b.addr, align) + size <= b.addr + b.size
  }

  /** The block starts so high that rounding its address up wraps around. */
  ghost predicate Wraps(b: Block, align: nat) { b.addr + align > U32 }

  ghost predicate Room(b: Block, size: nat, align: nat, x: nat)
    requires align > 0
  {
    b.addr <= x && Aligned(x, align) && x + size <= b.addr + b.size
  }

  /** The test is exact: a block is taken if and only if some aligned address in it leaves room. */
  lemma FitsExact(b: Block, size: nat, align: nat)
    requires Pow2(align) && align >= 8 && !Wraps(b, align)
    ensures FitsIn(b, size, align) <==> exists x: nat :: Room(b, size, align, x)
  {
    hide Pow2, AlignUp, Aligned;
    AlignsUp(b.addr, align);
    if FitsIn(b, size, align) {
      assert Room(b, size, align, AlignUp(b.addr, align));
    }
    if x: nat :| Room(b, size, align, x) {
      if x < AlignUp(b.addr, align) {
        AlignedGap(x, AlignUp(b.addr, align), align);
      }
    }
  }

  /** `x` is the lowest aligned address in the block that leaves room. */
  ghost predicate Lowest(b: Block, size: nat, align: nat, x: nat)
    requires align > 0
  {
    Room(b, size, align, x) && forall y: nat | Room(b, size, align, y) :: x <= y
  }

  lemma TakesLowest(b: Block, size: nat, align: nat)
    requires Pow2(align) && align >= 8 && !Wraps(b, align) && FitsIn(b, size, align)
    ensures Lowest(b, size, align, AlignUp(b.addr, align))
  {
    hide Pow2, AlignUp, Aligned;
    AlignsUp(b.addr, align);
    forall y: nat | Room(b, size, align, y) ensures AlignUp(b.addr, align) <= y {
      if y < AlignUp(b.addr, align) {
        AlignedGap(y, AlignUp(b.addr, align), align);
      }
    }
  }

  /** The first free block the test accepts. */
  ghost function FirstFit(free: seq<Block>, size: nat, align: nat): (i: nat)
    requires align > 0
    ensures i <= |free| && (i < |free| ==> FitsIn(free[i], size, align))
    ensures forall j | 0 <= j < i :: !FitsIn(free[j], size, align)
  {
    if free == [] || FitsIn(free[0], size, align) then 0 else 1 + FirstFit(free[1..], size, align)
  }

  ghost function Removed(free: seq<Block>, i: nat): seq<Block>
    requires i < |free|
  {
    free[..i] + free[i + 1..]
  }

  lemma RemovedBlocks(free: seq<Block>, i: nat)
    requires i < |free| && NoDup(free)
    ensures NoDup(Removed(free, i)) && Blocks(Removed(free, i)) == Blocks(free) - {free[i]}
    ensures forall b | b in Removed(free, i) :: b in free && b.addr != free[i].addr
  {
    var r := Removed(free, i);
    forall b | b in r ensures b in free && b.addr != free[i].addr {
      var j :| 0 <= j < |r| && r[j] == b;
      assert b == free[if j < i then j else j + 1];
    }
    forall b | b in free && b != free[i] ensures b in r {
      var j :| 0 <= j < |free| && free[j] == b;
      assert r[if j < i then j else j - 1] == b;
    }
  }

  /** The headers list `free`, and `free` and `live` together tile the heap. */
  ghost predicate Describes(head: Option<nat>, mem: map<nat, Header>, free: seq<Block>, live: set<Block>, lo: nat,
                            hi: nat)
  {
    && Listed(head, free, mem) && NoDup(free)
    && Blocks(free) !! live && Tiles(Blocks(free) + live, lo, hi)
  }

  /** The headers in memory describe no heap at all, whatever is taken to be free or live. */
  ghost predicate Broken(head: Option<nat>, mem: map<nat, Header>, lo: nat, hi: nat) {
    forall free: seq<Block>, live: set<Block> :: !Describes(head, mem, free, live, lo, hi)
  }

  /** A list that runs into a block reaching to 4 GiB, or into a loop. */
  lemma RunsOver(head: nat, mem: map<nat, Header>, region: nat, lo: nat, hi: nat)
    requires head in mem && region in mem && region < U32 && hi < U32
    requires head != region ==> mem[head].next == Some(region)
    requires mem[region].size == U32 - region || (head == region && mem[region].next == Some(region))
    ensures Broken(Some(head), mem, lo, hi)
  {
    forall free: seq<Block>, live: set<Block> ensures !Describes(Some(head), mem, free, live, lo, hi) {
      if Listed(Some(head), free, mem) {
        assert free[0].addr == head && mem[head] == Header(free[0].size, AddrAt(free, 1));
        var j := if head == region then 0 else 1;
        assert free[j].addr == region && mem[region] == Header(free[j].size, AddrAt(free, j + 1));
        if mem[region].size == U32 - region {
          assert free[j] in Blocks(free) + live;
          TooLong(Blocks(free) + live, lo, hi, free[j]);
        } else {
          assert free[1].addr == free[0].addr;
        }
      }
    }
  }

  class Heap {
    var head: Option<nat>
    /** The block headers in memory, by address. */
    var mem: map<nat, Header>
    ghost var free: seq<Block>
    ghost var live: set<Block>
    ghost const lo: nat
    ghost const hi: nat

    ghost predicate Valid()
      reads this
    {
      0 < lo && hi < U32 && Describes(head, mem, free, live, lo, hi)
    }

    /** The heap takes over `size` bytes at `start`, rounded down to whole units. */
    constructor (start: nat, size: nat)
      requires start > 0 && start % 8 == 0 && size >= 8 && start + size < U32
      ensures Valid() && live == {} && lo == start && hi == start + size / 8 * 8
    {
      var whole := size / 8 * 8;
      mem := map[start := Header(whole, None)];
      head := Some(start);
      free := [Block(start, whole)];
      live := {};
      lo, hi := start, start + whole;
      new;
      WholeTiles(start, whole);
      assert Blocks(free) + live == {Block(start, whole)};
    }

    method AddFreeRegion(addr: nat, size: nat)
      requires Listed(head, free, mem) && NoDup(free) && forall b | b in free :: b.addr != addr
      modifies `head, `mem, `free
      ensures Listed(head, free, mem) && NoDup(free)
      ensures free == (if size < HEADER_SIZE then [] else [Block(addr, size)]) + old(free)
    {
      Push(addr, size);
      if size >= HEADER_SIZE {
        free := [Block(addr, size)] + free;
      }
    }

    /** Writes the header and makes it the head of the list. */
    method Push(addr: nat, size: nat)
      modifies `head, `mem
      ensures if size < HEADER_SIZE then head == old(head) && mem == old(mem)
              else head == Some(addr) && mem == old(mem)[addr := Header(size, old(head))]
    {
      if size >= HEADER_SIZE {
        mem := mem[addr := Header(size, head)];
        head := Some(addr);
      }
    }

    /** Takes block `i` out of the list by redirecting its predecessor. */
    method Unlink(prev: Option<nat>, next: Option<nat>, ghost i: nat)
      requires Listed(head, free, mem) && NoDup(free) && i < |free|
      requires next == AddrAt(free, i + 1) && prev == (if i == 0 then None else AddrAt(free, i - 1))
      modifies `head, `mem, `free
      ensures free == Removed(old(free), i) && Listed(head, free, mem)
    {
      if prev.Some? {
        mem := mem[prev.value := mem[prev.value].(next := next)];
      } else {
        head := next;
      }
      free := Removed(free, i);
    }

    /** Cuts `size` bytes at `start` out of free block `i`; what is left around them is free again. */
    method Take(prev: Option<nat>, region: nat, end: nat, start: nat, size: nat, ghost i: nat)
      requires region <= end && Valid() && i < |free| && free[i] == Block(region, end - region)
      requires prev == (if i == 0 then None else AddrAt(free, i - 1)) && Within(Block(start, size), free[i])
      modifies this
      ensures Valid() && live == old(live) + {Block(start, size)} && Block(start, size) !in old(live)
      ensures Cut(Blocks(old(free)), Blocks(free), old(free)[i], Block(start, size))
    {
      hide Tiles, Unit, Within, Listed, NoDup;
      ghost var was, all, r, a := Blocks(free), Blocks(free) + live, free[i], Block(start, size);
      assert r in free;
      Recut(was, live, lo, hi, r, a);
      NextOf(i);
      Unlink(prev, mem[region].next, i);
      LeftoverSizes(r, a);
      if start > region {
        AddFreeRegion(region, start - region);
        assert Blocks(free) == {Block(region, start - region)} + (was - {r});
      }
      ghost var mid := Blocks(free);
      assert mid == was - {r} + Front(r, a);
      if end > start + size {
        BackElsewhere(all, lo, hi, r, a);
        forall b | b in free ensures b.addr != start + size {
          assert b in mid;
        }
        AddFreeRegion(start + size, end - (start + size));
        assert Blocks(free) == {Block(start + size, end - (start + size))} + mid;
      }
      assert Blocks(free) == mid + Back(r, a);
      live := live + {a};
    }

    lemma NextOf(i: nat)
      requires Listed(head, free, mem) && NoDup(free) && i < |free|
      ensures free[i].addr in mem && mem[free[i].addr].next == AddrAt(free, i + 1)
      ensures NoDup(Removed(free, i)) && Blocks(Removed(free, i)) == Blocks(free) - {free[i]}
      ensures forall b | b in Removed(free, i) :: b.addr != free[i].addr
    {
      RemovedBlocks(free, i);
    }

    /** First fit. If rounding up wraps around in that block, the code hands out address 0 and puts a
        block on the free list that reaches to 4 GiB: the list no longer describes the heap. */
    method FindRegion(size: nat, align: nat) returns (r: Option<nat>)
      requires Valid() && Pow2(align) && 8 <= align < U32 && size >= 8 && size % 8 == 0
      modifies this
      ensures r.None? <==> forall b | b in old(free) :: !FitsIn(b, size, align)
      ensures r.None? ==> Valid() && free == old(free) && live == old(live)
      ensures r.Some? ==> FirstFit(old(free), size, align) < |old(free)|
      ensures r.Some? && !Wraps(old(free)[FirstFit(old(free), size, align)], align) ==>
                && Valid() && Aligned(r.value, align) && live == old(live) + {Block(r.value, size)}
                && Block(r.value, size) !in old(live)
                && var b := old(free)[FirstFit(old(free), size, align)];
                   Lowest(b, size, align, r.value) && Cut(Blocks(old(free)), Blocks(free), b, Block(r.value, size))
      ensures r.Some? && Wraps(old(free)[FirstFit(old(free), size, align)], align) ==>
                r.value == 0 && Broken(head, mem, lo, hi)
    {
      hide Tiles, Pow2, AlignUp, Aligned, Lowest, Cut, Within, Unit, Broken;
      var prev: Option<nat>, current := None, head;
      ghost var i := 0;
      r := None;
      while current.Some? && !FitsIn(Block(current.value, mem[current.value].size), size, align)
        invariant Valid() && free == old(free) && live == old(live) && i <= |free|
        invariant current == AddrAt(free, i) && prev == if i == 0 then None else AddrAt(free, i - 1)
        invariant forall j | 0 <= j < i :: !FitsIn(free[j], size, align)
        decreases |free| - i
      {
        prev := current;
        current := mem[current.value].next;
        i := i + 1;
      }
      if current.Some? {
        var region := current.value;
        var start := AlignUp(region, align);
        var end := region + mem[region].size;
        assert free[i] in free && free[i] == Block(region, mem[region].size);
        assert FirstFit(free, size, align) == i;
        if region + align <= U32 {
          StartsWithin(free[i], size, align, Blocks(free) + live, lo, hi);
          TakesLowest(free[i], size, align);
          Take(prev, region, end, start, size, i);
        } else {
          StartsAtZero(free[i], align, Blocks(free) + live, lo, hi);
          Overrun(prev, region, end, start, size, i);
        }
        r := Some(start);
      }
    }

    /** The same statements as in `Take` on a wrapped start: the piece in front comes out as what is
        left of the 32-bit address space. */
    method Overrun(prev: Option<nat>, region: nat, end: nat, start: nat, size: nat, ghost i: nat)
      requires region <= end && Valid() && i < |free| && free[i] == Block(region, end - region)
      requires prev == (if i == 0 then None else AddrAt(free, i - 1)) && start == 0 < region < U32 - 8 && size <= end
      modifies this
      ensures Broken(head, mem, lo, hi)
    {
      hide Tiles, Listed, NoDup, Broken;
      NextOf(i);
      Unlink(prev, mem[region].next, i);
      var front, back := (start - region) % 0x1_0000_0000, end - (start + size);
      assert front == U32 - region;
      Push(region, front);
      if back > 0 {
        Push(start + size, back);
      }
      RunsOver(head.value, mem, region, lo, hi);
    }

    method Alloc(size: nat, align: nat) returns (r: Option<nat>)
      requires Valid() && Pow2(align) && align < U32
      modifies this
      ensures var a := if align < 8 then 8 else align;
              var i := FirstFit(old(free), Reserved(size), a);
              && (r.None? <==> forall b | b in old(free) :: !FitsIn(b, Reserved(size), a))
              && (r.None? ==> Valid() && free == old(free) && live == old(live))
              && (r.Some? ==> i < |old(free)|)
              && (r.Some? && !Wraps(old(free)[i], a) ==>
                    && Valid() && Aligned(r.value, a) && live == old(live) + {Block(r.value, Reserved(size))}
                    && Block(r.value, Reserved(size)) !in old(live) && Lowest(old(free)[i], Reserved(size), a, r.value)
                    && Cut(Blocks(old(free)), Blocks(free), old(free)[i], Block(r.value, Reserved(size))))
              && (r.Some? && Wraps(old(free)[i], a) ==> r.value == 0 && Broken(head, mem, lo, hi))
    {
      assert Pow2(8) by {
        assert Pow2(1) && Pow2(2) && Pow2(4);
      }
      hide Pow2, Aligned, AlignUp, Lowest, Cut;
      r := FindRegion(Reserved(size), if align < 8 then 8 else align);
    }

    /** Gives back exactly what the request reserved. */
    method Dealloc(addr: nat, size: nat)
      requires Valid() && Block(addr, Reserved(size)) in live
      modifies this
      ensures Valid() && live == old(live) - {Block(addr, Reserved(size))}
              && free == [Block(addr, Reserved(size))] + old(free)
    {
      hide Tiles;
      ghost var b := Block(addr, Reserved(size));
      ghost var was := Blocks(free);
      LiveElsewhere(Blocks(free) + live, lo, hi, b, free);
      AddFreeRegion(addr, Reserved(size));
      live := live - {b};
      assert Blocks(free) == was + {b};
      assert Blocks(free) + live == was + old(live);
    }
  }

  /** An aligned start that leaves room lies within the block, in whole units. */
  lemma StartsWithin(b: Block, size: nat, align: nat, all: set<Block>, lo: nat, hi: nat)
    requires Tiles(all, lo, hi) && b in all && Pow2(align) && align >= 8 && b.addr + align <= U32
    requires size >= 8 && size % 8 == 0 && FitsIn(b, size, align)
    ensures Within(Block(AlignUp(b.addr, align), size), b) && Aligned(AlignUp(b.addr, align), align)
  {
    assert Unit(b, lo, hi);
    hide Tiles, Pow2;
    AlignsUp(b.addr, align);
    hide AlignUp, Aligned;
  }

  lemma StartsAtZero(b: Block, align: nat, all: set<Block>, lo: nat, hi: nat)
    requires Tiles(all, lo, hi) && b in all && 0 < lo && hi < U32 && Pow2(align) && 8 <= align < U32 && Wraps(b, align)
    ensures AlignUp(b.addr, align) == 0 && 0 < b.addr < U32 - 8
  {
    assert Unit(b, lo, hi);
    AlignExact(b.addr, align);
  }

  lemma TooLong(all: set<Block>, lo: nat, hi: nat, b: Block)
    requires b in all && b.addr + b.size >= U32 > hi
    ensures !Tiles(all, lo, hi)
  {
    assert !Unit(b, lo, hi);
  }

  lemma Overlap(p: Block, r: Block)
    requires Unit(p, r.addr, r.addr + r.size)
    ensures !Apart(p, r)
  {
  }

  lemma LeftoverSizes(r: Block, a: Block)
    requires Within(a, r)
    ensures r.addr <= a.addr && a.addr + a.size <= r.addr + r.size
    ensures a.addr > r.addr ==> a.addr - r.addr >= 8
    ensures a.addr + a.size < r.addr + r.size ==> r.addr + r.size - (a.addr + a.size) >= 8
  {
    LeftoversAreUnits(r, a);
    assert a.addr > r.addr ==> Block(r.addr, a.addr - r.addr) in Front(r, a) + Back(r, a);
    assert a.addr + a.size < r.addr + r.size ==>
           Block(a.addr + a.size, r.addr + r.size - a.addr - a.size) in Front(r, a) + Back(r, a);
  }

  /** Moving an allocation from the free side to the live side keeps both sides a tiling. */
  lemma Recut(free: set<Block>, live: set<Block>, lo: nat, hi: nat, r: Block, a: Block)
    requires Tiles(free + live, lo, hi) && free !! live && r in free && Within(a, r)
    ensures a !in live && (free - {r} + Front(r, a) + Back(r, a)) !! (live + {a})
    ensures Tiles((free - {r} + Front(r, a) + Back(r, a)) + (live + {a}), lo, hi)
  {
    var all, pieces := free + live, Front(r, a) + {a} + Back(r, a);
    Allocated(r, a);
    CutTiles(all, lo, hi, r, pieces);
    assert all - {r} + pieces == (free - {r} + Front(r, a) + Back(r, a)) + (live + {a});
    LeftoversAreUnits(r, a);
    forall p | p in pieces ensures p !in all - {r} {
      Overlap(p, r);
    }
    LeftoverSizes(r, a);
    hide Tiles, CutsUp, Unit, Within;
  }

  /** No other block starts where the leftover behind an allocation does. */
  lemma BackElsewhere(all: set<Block>, lo: nat, hi: nat, r: Block, a: Block)
    requires Tiles(all, lo, hi) && r in all && Within(a, r) && a.addr + a.size < r.addr + r.size
    ensures forall b | b in all && b != r :: b.addr != a.addr + a.size
  {
    forall b | b in all && b != r ensures b.addr != a.addr + a.size {
      assert Apart(b, r) && Unit(b, lo, hi);
    }
  }

  lemma LiveElsewhere(all: set<Block>, lo: nat, hi: nat, b: Block, free: seq<Block>)
    requires Tiles(all, lo, hi) && b in all && Blocks(free) <= all && b !in free
    ensures forall f | f in free :: f.addr != b.addr
  {
    forall f | f in free ensures f.addr != b.addr {
      assert f in Blocks(free) && Apart(f, b) && Unit(f, lo, hi) && Unit(b, lo, hi);
    }
  }

  lemma WholeTiles(start: nat, size: nat)
    requires start % 8 == 0 && size % 8 == 0 && size >= 8
    ensures Tiles({Block(start, size)}, start, start + size)
  {
    forall x: nat | start <= x < start + size ensures Covered({Block(start, size)}, x) {
      assert In(x, Block(start, size));
    }
  }
}
