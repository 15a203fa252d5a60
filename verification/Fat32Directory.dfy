/**
 The root directory: what creating an entry does to every lookup, and what giving the
 directory another cluster does to the volume.
 */
module Fat32Directory {
  import opened Bytes
  import opened Fat32Volume
  import opened Fat32Steps

  /** A slot a new entry may take: an end-of-directory mark or a deleted entry. */
  predicate Free(e: Entry) {
    e[0] == 0x00 || e[0] == 0xE5
  }

  /** A freshly created file: archive attribute, no cluster, no bytes, zero timestamps. */
  function NewEntry(name: Name): (e: Entry) {
    name + [0x20] + [0, 0, 0, 0, 0, 0, 0, 0, 0, 0, 0, 0, 0, 0, 0, 0, 0, 0, 0, 0]
  }

  lemma NewEntryIs(name: Name)
    ensures var e := NewEntry(name);
            && e[..11] == name && e[0] == name[0] && EntStart(e) == 0 && EntSize(e) == 0
            && (IsFile(e) <==> name[0] != 0x00 && name[0] != 0xE5)
            && e[11] == 0x20 && forall i | 12 <= i < 32 :: e[i] == 0
  {
    var e := NewEntry(name);
    LeZero();
    assert e[26..28] + e[20..22] == [0, 0, 0, 0] && e[28..32] == [0, 0, 0, 0];
    hide LeVal;
  }

  /** The first free slot at or after `k`, the number of slots if there is none. */
  ghost function FreeFrom(es: seq<Entry>, k: nat): (r: nat)
    requires k <= |es|
    ensures k <= r <= |es|
    ensures r < |es| ==> Free(es[r])
    ensures forall j | k <= j < r :: !Free(es[j])
    decreases |es| - k
  {
    if k == |es| || Free(es[k]) then k else FreeFrom(es, k + 1)
  }

  // ----- lookups after a creation -----

  lemma {:induction false} SuffixLookup(es: seq<Entry>, es': seq<Entry>, name: Name, k: nat)
    requires |es| == |es'| && forall j | k <= j < |es| :: es'[j] == es[j]
    ensures LookupFrom(es', name, k) == LookupFrom(es, name, k)
    decreases |es| - k
  {
    if k < |es| {
      SuffixLookup(es, es', name, k + 1);
    }
  }

  /** Entries before the changed slot decide both lookups alike or leave both to the rest. */
  lemma {:induction false} PrefixLookup(es: seq<Entry>, es': seq<Entry>, name: Name, j: nat, k: nat)
    requires j <= k < |es| == |es'| && forall i | 0 <= i < k :: es'[i] == es[i]
    requires LookupFrom(es', name, k) == LookupFrom(es, name, k)
    ensures LookupFrom(es', name, j) == LookupFrom(es, name, j)
    decreases k - j
  {
    if j < k {
      PrefixLookup(es, es', name, j + 1, k);
    }
  }

  lemma {:induction false} SkipTo(es: seq<Entry>, name: Name, j: nat, k: nat)
    requires j <= k <= |es| && forall i | j <= i < k :: es[i][0] != 0x00
    requires LookupFrom(es, name, j).None? || LookupFrom(es, name, j).value >= k
    ensures LookupFrom(es, name, k) == LookupFrom(es, name, j)
    decreases k - j
  {
    if j < k {
      SkipTo(es, name, j + 1, k);
    }
  }

  /** Past the end mark nothing is found. */
  lemma PastEnd(es: seq<Entry>, name: Name, k: nat)
    requires k < |es| && es[k][0] == 0x00 && EndMarked(es)
    ensures LookupFrom(es, name, k + 1).None?
  {
  }

  ghost predicate Creatable(es: seq<Entry>, k: nat) {
    k < |es| && Free(es[k]) && EndMarked(es) && forall j | 0 <= j < k :: !Free(es[j])
  }

  /** Creating `name` in the first free slot: a later lookup finds it there exactly when its first
      byte is neither of the two markers. */
  lemma CreatedFound(es: seq<Entry>, k: nat, name: Name)
    requires Creatable(es, k) && Lookup(es, name).None?
    ensures Lookup(es[k := NewEntry(name)], name) == Some(k) <==> name[0] != 0x00 && name[0] != 0xE5
  {
    var es' := es[k := NewEntry(name)];
    NewEntryIs(name);
    SkipTo(es, name, 0, k);
    BeforeSlot(es, es', name, 0, k);
  }

  lemma {:induction false} BeforeSlot(es: seq<Entry>, es': seq<Entry>, name: Name, j: nat, k: nat)
    requires j <= k < |es| == |es'| && forall i | j <= i < k :: es'[i] == es[i] && !Free(es[i])
    requires LookupFrom(es, name, j).None?
    ensures LookupFrom(es', name, j) == LookupFrom(es', name, k)
    decreases k - j
  {
    if j < k {
      BeforeSlot(es, es', name, j + 1, k);
    }
  }

  /** Creating an ordinary name leaves the lookup of every other name as it was, and the end of
      the directory where it was. */
  lemma CreatedOthers(es: seq<Entry>, k: nat, name: Name, other: Name)
    requires Creatable(es, k) && name[0] != 0x00 && other != name
    ensures Lookup(es[k := NewEntry(name)], other) == Lookup(es, other)
    ensures EndMarked(es[k := NewEntry(name)])
  {
    var es' := es[k := NewEntry(name)];
    NewEntryIs(name);
    SuffixLookup(es, es', other, k + 1);
    if es[k][0] == 0x00 {
      PastEnd(es, other, k);
    }
    PrefixLookup(es, es', other, 0, k);
  }

  /** A name whose first byte is zero is an end mark: created in the place of a deleted entry it
      hides the files that follow. */
  lemma NulNameHides() returns (es: seq<Entry>, name: Name, other: Name)
    ensures Creatable(es, 0) && name[0] == 0x00 && other != name
    ensures Lookup(es, other) == Some(1) && Lookup(es[0 := NewEntry(name)], other).None?
  {
    var dead: Entry := [0xE5] + seq(31, _ => 0);
    name := seq(11, _ => 0);
    other := seq(11, _ => 65);
    es := [dead, NewEntry(other)];
    NewEntryIs(other);
    assert LookupFrom(es, other, 1) == Some(1);
    assert !IsFile(dead);
    assert EndMarked(es);
  }

  // ----- a larger directory -----

  function Zero(): (s: Sector)
    ensures forall i | 0 <= i < 512 :: s[i] == 0
  {
    seq(512, _ => 0)
  }

  ghost predicate Blank(zs: seq<Entry>) {
    forall k | 0 <= k < |zs| :: zs[k] == Zero()[..32]
  }

  lemma {:induction false} GrownLookup(es: seq<Entry>, zs: seq<Entry>, name: Name, k: nat)
    requires Blank(zs) && k <= |es|
    ensures LookupFrom(es + zs, name, k) == LookupFrom(es, name, k)
    decreases |es| - k
  {
    if k < |es| {
      GrownLookup(es, zs, name, k + 1);
    }
  }

  // ----- creation after failed transfers -----

  /** `es1` is `es` or, if it was cut, what came before slot `k` followed by blank entries; `k` is its
      first free slot. */
  ghost predicate Cut(es: seq<Entry>, es1: seq<Entry>, k: nat, cut: bool) {
    && k < |es1| && k <= FreeFrom(es, 0) && es1[..k] == es[..k] && Free(es1[k])
    && if cut then Blank(es1[k..]) else es1 == es
  }

  lemma {:induction false} SamePrefix(es: seq<Entry>, es1: seq<Entry>, name: Name, j: nat, k: nat)
    requires j <= k <= |es| && k <= |es1| && es1[..k] == es[..k] && forall i | j <= i < k :: !Free(es[i])
    ensures var r := LookupFrom(es, name, j);
            if r.Some? && r.value < k then LookupFrom(es1, name, j) == r
            else r == LookupFrom(es, name, k) && LookupFrom(es1, name, j) == LookupFrom(es1, name, k)
    decreases k - j
  {
    if j < k {
      assert es1[j] == es1[..k][j] == es[j];
      SamePrefix(es, es1, name, j + 1, k);
    }
  }

  lemma CutPrefix(es: seq<Entry>, es1: seq<Entry>, k: nat, cut: bool, e: Entry)
    requires Cut(es, es1, k, cut)
    ensures k <= |es| && (es1[k := e])[..k] == es[..k]
  {
    assert (es1[k := e])[..k] == es1[..k];
  }

  /** The search may miss an entry that is there, and a second one of the name is created. The name
      then leads to the new, empty file if and only if the old entry does not come before the slot. */
  lemma DuplicateExact(es: seq<Entry>, es1: seq<Entry>, k: nat, cut: bool, name: Name)
    requires Cut(es, es1, k, cut) && name[0] != 0x00 && name[0] != 0xE5
    ensures var old1, es' := Lookup(es, name), es1[k := NewEntry(name)];
            Lookup(es', name) == if old1.Some? && old1.value < k then old1 else Some(k)
  {
    CutPrefix(es, es1, k, cut, NewEntry(name));
    SamePrefix(es, es1[k := NewEntry(name)], name, 0, k);
    NewEntryIs(name);
    hide NewEntry;
  }

  /** A deleted entry before the file: a missed search puts the new empty file in front of it. */
  lemma DeletedSlotHides() returns (es: seq<Entry>, name: Name)
    ensures Lookup(es, name) == Some(1) && Cut(es, es, 0, false) && EndMarked(es)
    ensures Lookup(es[0 := NewEntry(name)], name) == Some(0)
  {
    var dead: Entry := [0xE5] + seq(31, _ => 0);
    name := seq(11, _ => 65);
    es := [dead, NewEntry(name)];
    NewEntryIs(name);
    assert LookupFrom(es, name, 1) == Some(1);
    assert !IsFile(dead);
  }

  /** Every other name is found where it was, unless the directory was cut before it: then it is
      not found any more. */
  lemma CutOthers(es: seq<Entry>, es1: seq<Entry>, k: nat, cut: bool, name: Name, other: Name)
    requires Cut(es, es1, k, cut) && EndMarked(es) && name[0] != 0x00 && other != name
    ensures var old1, es' := Lookup(es, other), es1[k := NewEntry(name)];
            Lookup(es', other) == if cut && old1.Some? && old1.value >= k then None else old1
  {
    if !cut {
      CreatedOthers(es, k, name, other);
    } else {
      var es' := es1[k := NewEntry(name)];
      CutPrefix(es, es1, k, cut, NewEntry(name));
      SamePrefix(es, es', other, 0, k);
      NewEntryIs(name);
      forall j | k < j < |es'| ensures es'[j][0] == 0x00 {
        assert es1[k..][j - k] == es1[j];
      }
      hide NewEntry;
    }
  }

  /** A listed file is still listed after the cut if and only if its entry comes before it. */
  lemma CutExact(es: seq<Entry>, es1: seq<Entry>, k: nat, j: nat)
    requires Cut(es, es1, k, true) && j < |es| && IsFile(es[j])
    ensures j < |es1| && es1[j] == es[j] <==> j < k
  {
    if j < k {
      assert es1[j] == es1[..k][j];
    } else if j < |es1| {
      assert es1[k..][j - k] == es1[j];
    }
  }

  /** A full first part and one file behind it: a cut after the first part loses the file. */
  lemma CutLoses() returns (es: seq<Entry>, es1: seq<Entry>, name: Name)
    ensures Cut(es, es1, 16, true) && EndMarked(es) && Lookup(es, name) == Some(16) && Lookup(es1, name).None?
  {
    name := seq(11, _ => 66);
    var full, last := NewEntry(seq(11, _ => 65)), NewEntry(name);
    var zs: seq<Entry> := seq(16, _ => Zero()[..32]);
    var first: seq<Entry> := seq(16, _ => full);
    es := first + [last];
    es1 := first + zs;
    NewEntryIs(seq(11, _ => 65));
    NewEntryIs(name);
    hide NewEntry;
    assert es1[16..] == zs;
    assert es1[..16] == first == es[..16];
    assert forall i | 0 <= i < 16 :: es[i] == full && es1[i] == full;
    assert full[..11][0] == 65 && name[0] == 66;
    NoneBefore(es, name, 0, 16);
    NoneBefore(es1, name, 0, 16);
    assert LookupFrom(es, name, 16) == Some(16);
  }

  lemma {:induction false} NoneBefore(es: seq<Entry>, name: Name, j: nat, k: nat)
    requires j <= k <= |es| && forall i | j <= i < k :: !Free(es[i]) && es[i][..11] != name
    ensures LookupFrom(es, name, j) == LookupFrom(es, name, k)
    decreases k - j
  {
    if j < k {
      NoneBefore(es, name, j + 1, k);
    }
  }

  lemma GrownEnd(es: seq<Entry>, zs: seq<Entry>)
    requires EndMarked(es) && Blank(zs)
    ensures EndMarked(es + zs)
  {
  }

  lemma EntsGrown(bs: seq<Sector>, n: nat)
    ensures var zs := Ents(seq(n, _ => Zero()));
            Blank(zs) && Ents(bs + seq(n, _ => Zero())) == Ents(bs) + zs
  {
    var z: seq<Sector> := seq(n, _ => Zero());
    var es, es' := Ents(bs), Ents(bs + z);
    forall k | 0 <= k < |es'| ensures es'[k] == (es + Ents(z))[k] {
      if k < |es| {
        assert (bs + z)[k / 16] == bs[k / 16];
      } else {
        assert k / 16 - |bs| == (k - |es|) / 16 && k % 16 == (k - |es|) % 16;
      }
    }
    forall k | 0 <= k < |Ents(z)| ensures Ents(z)[k] == Zero()[..32] {
      assert Zero()[k % 16 * 32..k % 16 * 32 + 32] == Zero()[..32];
    }
  }

  /** `d'` is `d` with every sector of cluster `c` zeroed. */
  ghost predicate Zeroed(d: seq<Sector>, d': seq<Sector>, g: Geometry, c: nat, upTo: nat)
    requires 2 <= c
  {
    && |d'| == |d|
    && forall x | 0 <= x < |d| ::
       d'[x] == if ClusterSector(g, c) <= x < ClusterSector(g, c) + upTo then Zero() else d[x]
  }

  lemma ZeroedFrame(d: seq<Sector>, d': seq<Sector>, g: Geometry, c: nat, upTo: nat, ch: seq<nat>)
    requires GeometryOk(g, |d|) && 2 <= c <= g.maxCluster && upTo <= g.spc && Zeroed(d, d', g, c, upTo)
    requires InRange(g, ch) && c !in ch
    ensures |d'| == |d|
    ensures Fat(d', g) == Fat(d, g) && (Mirrored(d, g) ==> Mirrored(d', g))
    ensures Blocks(d', g, ch) == Blocks(d, g, ch)
  {
    ClusterInDisk(g, |d|, c, 0);
    FatUnchanged(d, d', g);
    hide Fat, Mirrored;
    forall q | 0 <= q < Span(g.spc, |ch|) ensures Blocks(d', g, ch)[q] == Blocks(d, g, ch)[q] {
      BlockAt(d, g, ch, q);
      BlockAt(d', g, ch, q);
      QuotRem(q, g.spc);
      var x := ChainSector(g, ch, q);
      if ClusterSector(g, c) <= x < ClusterSector(g, c) + upTo {
        ClustersApart(g, ch[Quot(q, g.spc)], Rem(q, g.spc), c, x - ClusterSector(g, c));
      }
    }
  }

  /** The blocks of a directory that gained a zeroed cluster: the old ones, then blank ones. */
  lemma ZeroedBlocks(d: seq<Sector>, d': seq<Sector>, g: Geometry, c: nat, root: seq<nat>)
    requires GeometryOk(g, |d|) && 2 <= c <= g.maxCluster && Zeroed(d, d', g, c, g.spc) && InRange(g, root)
             && c !in root
    ensures InRange(g, root + [c])
    ensures Blocks(d', g, root + [c]) == Blocks(d, g, root) + seq(g.spc, _ => Zero())
  {
    hide Fat, Mirrored, Span, Quot, Rem, Blocks, ClusterSector;
    ZeroedFrame(d, d', g, c, g.spc, root);
    assert InRange(g, root + [c]);
    BlocksPrefix(d', g, root, c);
    ClusterInDisk(g, |d|, c, 0);
    var ch := root + [c];
    var n := Span(g.spc, |root|);
    forall q | n <= q < n + g.spc ensures Blocks(d', g, ch)[q] == Zero() {
      QuotOf(g.spc, |root|, q - n);
      BlockAt(d', g, ch, q);
      ClusterInDisk(g, |d|, c, q - n);
    }
    hide Zeroed;
    assert Blocks(d', g, ch)[..n] == Blocks(d, g, root);
  }

  // ----- what a creation does to the volume -----

  /** Every file listed in `es` keeps its chain and its content. */
  ghost predicate FilesKept(d: seq<Sector>, d': seq<Sector>, g: Geometry, es: seq<Entry>)
    requires GeometryOk(g, |d|) && GeometryOk(g, |d'|)
  {
    forall k | 0 <= k < |es| && IsFile(es[k]) :: SameFile(d, d', g, EntStart(es[k]), EntSize(es[k]))
  }

  lemma KeptCovered(d: seq<Sector>, d': seq<Sector>, g: Geometry, es: seq<Entry>)
    requires GeometryOk(g, |d|) && GeometryOk(g, |d'|) && Covered(d, g, es) && FilesKept(d, d', g, es)
    ensures Covered(d', g, es)
  {
    forall k | 0 <= k < |es| && IsFile(es[k])
      ensures EntSize(es[k]) <= 512 * Span(g.spc, |Chain(Fat(d', g), EntStart(es[k]))|)
    {
      assert SameFile(d, d', g, EntStart(es[k]), EntSize(es[k]));
    }
  }

  /** The root chain extended by a claimed, zeroed cluster: the directory is the old one followed by
      blank entries, and every file is as it was. */
  lemma RootGrown(d: seq<Sector>, d1: seq<Sector>, d2: seq<Sector>, g: Geometry, chains: seq<seq<nat>>,
                  chains': seq<seq<nat>>, c: nat)
    requires GeometryOk(g, |d|) && 2 <= c <= g.maxCluster && DataSame(d, d1, g) && Zeroed(d1, d2, g, c, g.spc)
             && Mirrored(d1, g)
    requires ChainsOk(Fat(d1, g), chains') && Kept(chains, chains', 0) && |chains| > 0 && chains'[0] == chains[0] + [c]
    requires Volume(d, g, chains)
    ensures GeometryOk(g, |d2|) && InRange(g, chains'[0]) && Volume(d2, g, chains')
    ensures var zs := Ents(seq(g.spc, _ => Zero())); Blank(zs) && Root(d2, g, chains'[0]) == Root(d, g, chains[0]) + zs
    ensures FilesKept(d, d2, g, Root(d, g, chains[0]))
  {
    hide Fat, Chain, Covered, EndMarked, EntStart, EntSize;
    var es := Root(d, g, chains[0]);
    NewCluster(chains, chains', c);
    BlocksSame(d, d1, g, chains[0]);
    ZeroedBlocks(d1, d2, g, c, chains[0]);
    EntsGrown(Blocks(d, g, chains[0]), g.spc);
    ZeroedFrame(d1, d2, g, c, g.spc, chains[0]);
    var zs := Ents(seq(g.spc, _ => Zero()));
    GrownEnd(es, zs);
    forall k | 0 <= k < |es| && IsFile(es[k]) ensures SameFile(d, d2, g, EntStart(es[k]), EntSize(es[k])) {
      GrowthKeepsFile(d, d1, d2, g, chains, chains', c, EntStart(es[k]), EntSize(es[k]));
    }
    KeptCovered(d, d2, g, es);
    GrownStarts(es, zs, chains, chains');
    GrownCovered(d2, g, es, zs);
  }

  lemma NewCluster(chains: seq<seq<nat>>, chains': seq<seq<nat>>, c: nat)
    requires |chains| > 0 && Kept(chains, chains', 0) && chains'[0] == chains[0] + [c] && Disjoint(chains')
    ensures forall i | 0 <= i < |chains| :: c !in chains[i]
  {
    assert chains'[0][|chains[0]|] == c;
    forall i, j | 0 <= i < |chains| && 0 <= j < |chains[i]| ensures chains[i][j] != c {
      assert chains'[i][j] == chains[i][j];
    }
  }

  lemma GrowthKeepsFile(d: seq<Sector>, d1: seq<Sector>, d2: seq<Sector>, g: Geometry, chains: seq<seq<nat>>,
                        chains': seq<seq<nat>>, c: nat, start: nat, size: nat)
    requires GeometryOk(g, |d|) && 2 <= c <= g.maxCluster && DataSame(d, d1, g) && Zeroed(d1, d2, g, c, g.spc)
    requires ChainsOk(Fat(d, g), chains) && ChainsOk(Fat(d1, g), chains') && Kept(chains, chains', 0)
             && Fat(d2, g) == Fat(d1, g)
    requires forall i | 0 <= i < |chains| :: c !in chains[i]
    requires start == 0 || Heads(chains, start)
    ensures SameFile(d, d2, g, start, size)
  {
    hide Fat, Chain, FileContent, ChainsOk;
    if start == 0 {
      EmptyFile(d, d2, g, size);
    } else {
      var i :| 1 <= i < |chains| && |chains[i]| > 0 && chains[i][0] == start;
      ChainsInRange(d, g, chains, i);
      BlocksSame(d, d1, g, chains[i]);
      ZeroedFrame(d1, d2, g, c, g.spc, chains[i]);
      KeepsContent(d, d2, g, chains, chains', i, size);
    }
  }

  lemma BlankNoFiles(es: seq<Entry>, zs: seq<Entry>)
    requires Blank(zs)
    ensures forall k | |es| <= k < |es + zs| :: !IsFile((es + zs)[k])
  {
    forall k | |es| <= k < |es + zs| ensures !IsFile((es + zs)[k]) {
      assert (es + zs)[k] == Zero()[..32];
    }
  }

  lemma GrownStarts(es: seq<Entry>, zs: seq<Entry>, chains: seq<seq<nat>>, chains': seq<seq<nat>>)
    requires StartsOk(es, chains) && Blank(zs) && Kept(chains, chains', 0)
    ensures StartsOk(es + zs, chains')
  {
    hide EntStart;
    BlankNoFiles(es, zs);
    forall k | 0 <= k < |es| && IsFile(es[k])
      ensures EntStart(es[k]) == 0 || Heads(chains', EntStart(es[k]))
    {
      if EntStart(es[k]) != 0 {
        HeadsKept(chains, chains', 0, EntStart(es[k]));
      }
    }
  }

  lemma GrownCovered(d: seq<Sector>, g: Geometry, es: seq<Entry>, zs: seq<Entry>)
    requires GeometryOk(g, |d|) && Covered(d, g, es) && Blank(zs)
    ensures Covered(d, g, es + zs)
  {
    hide EntStart, EntSize;
    BlankNoFiles(es, zs);
  }

  /** Writing a new entry over the first free slot. */
  lemma CreateStep(d: seq<Sector>, g: Geometry, chains: seq<seq<nat>>, k: nat, loc: DirLoc, name: Name)
    requires GeometryOk(g, |d|) && |chains| > 0 && InRange(g, chains[0]) && k < |Root(d, g, chains[0])|
             && At(g, chains[0], loc, k)
    requires Volume(d, g, chains) && Creatable(Root(d, g, chains[0]), k) && name[0] != 0x00
    ensures loc.sector < |d| && loc.offset + 32 <= 512
    ensures var d' := d[loc.sector := Patch(d[loc.sector], loc.offset, NewEntry(name))];
            && Root(d', g, chains[0]) == Root(d, g, chains[0])[k := NewEntry(name)]
            && Volume(d', g, chains) && FilesKept(d, d', g, Root(d, g, chains[0]))
  {
    var es := Root(d, g, chains[0]);
    EntryWrite(d, g, chains, k, loc, NewEntry(name));
    var d' := d[loc.sector := Patch(d[loc.sector], loc.offset, NewEntry(name))];
    hide Fat, Chain, Root, NewEntry, FileContent, EntStart, EntSize, Patch;
    forall j | 0 <= j < |es| && IsFile(es[j]) ensures SameFile(d, d', g, EntStart(es[j]), EntSize(es[j])) {
      EntryKeepsFile(d, g, chains, k, loc, NewEntry(name), EntStart(es[j]), EntSize(es[j]));
    }
    KeptCovered(d, d', g, es);
    NewEntryIs(name);
    CreatedOthers(es, k, name, Different(name));
  }

  function Different(name: Name): (r: Name)
    ensures r != name
  {
    name[0 := if name[0] == 0 then 1 else 0]
  }

  lemma EntryWrite(d: seq<Sector>, g: Geometry, chains: seq<seq<nat>>, k: nat, loc: DirLoc, e: Entry)
    requires GeometryOk(g, |d|) && |chains| > 0 && InRange(g, chains[0]) && k < |Root(d, g, chains[0])|
             && At(g, chains[0], loc, k)
    requires ChainsOk(Fat(d, g), chains)
    ensures k / 16 < Span(g.spc, |chains[0]|)
    ensures loc.sector == ChainSector(g, chains[0], k / 16) < |d| && loc.offset + 32 <= 512
    ensures var d' := d[loc.sector := Patch(d[loc.sector], loc.offset, e)];
            && Fat(d', g) == Fat(d, g) && (Mirrored(d, g) ==> Mirrored(d', g))
            && Root(d', g, chains[0]) == Root(d, g, chains[0])[k := e]
  {
    hide Fat, Blocks, ChainsOk, Mirrored, Ents, Span, Quot;
    var q, j := k / 16, k % 16;
    QuotLt(q, g.spc, |chains[0]|);
    BlockAt(d, g, chains[0], q);
    var b := Patch(d[loc.sector], loc.offset, e);
    DataWrite(d, g, chains, 0, q, b, 0);
    EntsAfterWrite(Blocks(d, g, chains[0]), q, j, b);
    assert b[j * 32..j * 32 + 32] == e;
    assert q * 16 + j == k;
  }

  lemma EntryKeepsFile(d: seq<Sector>, g: Geometry, chains: seq<seq<nat>>, k: nat, loc: DirLoc, e: Entry, start: nat,
                       size: nat)
    requires GeometryOk(g, |d|) && |chains| > 0 && InRange(g, chains[0]) && k < |Root(d, g, chains[0])|
             && At(g, chains[0], loc, k)
    requires ChainsOk(Fat(d, g), chains) && (start == 0 || Heads(chains, start))
    ensures loc.sector < |d| && loc.offset + 32 <= 512
    ensures SameFile(d, d[loc.sector := Patch(d[loc.sector], loc.offset, e)], g, start, size)
  {
    EntryWrite(d, g, chains, k, loc, e);
    hide Fat, Chain, FileContent, Root;
    var b := Patch(d[loc.sector], loc.offset, e);
    var d' := d[loc.sector := b];
    if start == 0 {
      EmptyFile(d, d', g, size);
    } else {
      var i :| 1 <= i < |chains| && |chains[i]| > 0 && chains[i][0] == start;
      DataWrite(d, g, chains, 0, k / 16, b, i);
      KeepsContent(d, d', g, chains, chains, i, size);
    }
  }

  /** A found or created entry, opened, is a consistent open file. */
  lemma Opened(d: seq<Sector>, g: Geometry, chains: seq<seq<nat>>, k: nat, loc: DirLoc)
    requires GeometryOk(g, |d|) && |chains| > 0 && InRange(g, chains[0]) && k < |Root(d, g, chains[0])|
             && At(g, chains[0], loc, k)
    requires Structure(d, g, chains) && IsFile(Root(d, g, chains[0])[k])
    ensures var e := Root(d, g, chains[0])[k];
            var file := OpenFile(EntStart(e), EntSize(e), loc);
            Sound(d, g, chains, file, k) && (Volume(d, g, chains) ==> Good(d, g, chains, file, k))
  {
    hide Fat, Chain, Root, ChainsOk, EntStart, EntSize, EndMarked, Mirrored, Span;
    NoChain(Fat(d, g));
    assert Span(g.spc, 0) == 0 by {
      SpanZero(g.spc);
    }
  }

  lemma SpanZero(m: nat)
    ensures Span(m, 0) == 0
  {
  }
}
