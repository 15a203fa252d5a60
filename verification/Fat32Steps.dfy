/**
 What one disk update of the file server keeps: a FAT update, a write into a data sector of
 the open file, a rewrite of the open file's directory entry.
 */
module Fat32Steps {
  import opened Bytes
  import opened Fat32Volume

  datatype DirLoc = DirLoc(sector: nat, offset: nat)

  /** The server's record of the open file. */
  datatype OpenFile = OpenFile(start: nat, size: nat, dirent: DirLoc)

  ghost predicate Fits(d: seq<Sector>, file: OpenFile) {
    file.dirent.sector < |d| && file.dirent.offset + 32 <= 512 && file.start < U32 && file.size < U32
  }

  /** The disk after the open file's directory entry is rewritten with its start and size. */
  ghost function Persist(d: seq<Sector>, file: OpenFile): (r: seq<Sector>)
    requires Fits(d, file)
    ensures |r| == |d|
  {
    d[file.dirent.sector := PatchStartSize(d[file.dirent.sector], file.dirent.offset, file.start, file.size)]
  }

  ghost predicate At(g: Geometry, root: seq<nat>, loc: DirLoc, slot: nat)
    requires g.spc > 0
  {
    && Quot(slot / 16, g.spc) < |root| && 2 <= root[Quot(slot / 16, g.spc)]
    && loc == DirLoc(ChainSector(g, root, slot / 16), slot % 16 * 32)
  }

  /** `file` is entry `slot` of the root directory and owns its chain alone. The recorded start
      and size may be ahead of what the directory says (a directory update can fail). */
  ghost predicate OpenAt(d: seq<Sector>, g: Geometry, chains: seq<seq<nat>>, file: OpenFile, slot: nat)
    requires Structure(d, g, chains)
  {
    var es := Root(d, g, chains[0]);
    && slot < |es| && IsFile(es[slot]) && At(g, chains[0], file.dirent, slot)
    && file.start < U32 && file.size < U32 && (file.start == 0 ==> file.size == 0)
    && (file.start == 0 || Heads(chains, file.start))
    && (forall k | 0 <= k < |es| && k != slot && IsFile(es[k]) :: file.start == 0 || EntStart(es[k]) != file.start)
  }

  /** The invariant that survives any pattern of sector failures. */
  ghost predicate Sound(d: seq<Sector>, g: Geometry, chains: seq<seq<nat>>, file: OpenFile, slot: nat) {
    Structure(d, g, chains) && OpenAt(d, g, chains, file, slot)
  }

  /** The invariant that holds as long as no transfer has failed. */
  ghost predicate Good(d: seq<Sector>, g: Geometry, chains: seq<seq<nat>>, file: OpenFile, slot: nat) {
    && Sound(d, g, chains, file, slot)
    && Volume(d, g, chains)
    && EntStart(Root(d, g, chains[0])[slot]) == file.start
    && EntSize(Root(d, g, chains[0])[slot]) == file.size
  }

  /** Entry for entry: what the volume holds besides `slot` is untouched, and `slot` itself keeps
      its name and attributes. */
  ghost predicate OthersKept(d: seq<Sector>, d': seq<Sector>, g: Geometry, root: seq<nat>, slot: nat)
    requires GeometryOk(g, |d|) && GeometryOk(g, |d'|) && InRange(g, root)
  {
    var es, es' := Root(d, g, root), Root(d', g, root);
    && (forall k | 0 <= k < |es| && k != slot :: es'[k] == es[k])
    && (slot < |es| ==> es'[slot][..12] == es[slot][..12])
    && (forall k | 0 <= k < |es| && k != slot && IsFile(es[k]) :: SameFile(d, d', g, EntStart(es[k]), EntSize(es[k])))
  }

  ghost predicate SameFile(d: seq<Sector>, d': seq<Sector>, g: Geometry, start: nat, size: nat)
    requires GeometryOk(g, |d|) && GeometryOk(g, |d'|)
  {
    && Chain(Fat(d', g), start) == Chain(Fat(d, g), start)
    && FileContent(d', g, start, size) == FileContent(d, g, start, size)
  }

  lemma OthersTrans(d: seq<Sector>, d1: seq<Sector>, d2: seq<Sector>, g: Geometry, root: seq<nat>, slot: nat)
    requires GeometryOk(g, |d|) && GeometryOk(g, |d1|) && GeometryOk(g, |d2|) && InRange(g, root)
    requires OthersKept(d, d1, g, root, slot) && OthersKept(d1, d2, g, root, slot)
    ensures OthersKept(d, d2, g, root, slot)
  {
    var es, es1 := Root(d, g, root), Root(d1, g, root);
    forall k | 0 <= k < |es| && k != slot && IsFile(es[k])
      ensures SameFile(d, d2, g, EntStart(es[k]), EntSize(es[k]))
    {
      assert es1[k] == es[k];
      assert SameFile(d, d1, g, EntStart(es[k]), EntSize(es[k]))
             && SameFile(d1, d2, g, EntStart(es[k]), EntSize(es[k]));
    }
  }

  /** Every chain but `me` is kept, and every chain keeps its head. */
  ghost predicate Kept(chains: seq<seq<nat>>, chains': seq<seq<nat>>, me: nat) {
    && |chains| <= |chains'|
    && forall i | 0 <= i < |chains| ::
         && (i != me ==> chains'[i] == chains[i])
         && (|chains[i]| > 0 ==> |chains'[i]| > 0 && chains'[i][0] == chains[i][0])
  }

  lemma HeadsKept(chains: seq<seq<nat>>, chains': seq<seq<nat>>, me: nat, c: nat)
    requires Kept(chains, chains', me) && Heads(chains, c)
    ensures Heads(chains', c)
  {
    var i :| 1 <= i < |chains| && |chains[i]| > 0 && chains[i][0] == c;
    assert |chains'[i]| > 0 && chains'[i][0] == c;
  }

  lemma ChainsInRange(d: seq<Sector>, g: Geometry, chains: seq<seq<nat>>, i: nat)
    requires GeometryOk(g, |d|) && ChainsOk(Fat(d, g), chains) && i < |chains|
    ensures InRange(g, chains[i])
  {
    LinkedInRange(Fat(d, g), chains[i]);
  }

  /** A file keeps its content if its chain is recorded on both sides and keeps its blocks. */
  lemma KeepsContent(d: seq<Sector>, d': seq<Sector>, g: Geometry, chains: seq<seq<nat>>, chains': seq<seq<nat>>,
                     i: nat, size: nat)
    requires GeometryOk(g, |d|) && GeometryOk(g, |d'|)
    requires ChainsOk(Fat(d, g), chains) && ChainsOk(Fat(d', g), chains')
    requires i < |chains| && i < |chains'| && chains[i] == chains'[i] && |chains[i]| > 0 && InRange(g, chains[i])
    requires Blocks(d, g, chains[i]) == Blocks(d', g, chains[i])
    ensures SameFile(d, d', g, chains[i][0], size)
  {
    ChainIs(Fat(d, g), chains, i);
    ChainIs(Fat(d', g), chains', i);
  }

  lemma NoChain(fat: seq<nat>)
    ensures Chain(fat, 0) == []
  {
  }

  lemma EmptyFile(d: seq<Sector>, d': seq<Sector>, g: Geometry, size: nat)
    requires GeometryOk(g, |d|) && GeometryOk(g, |d'|)
    ensures SameFile(d, d', g, 0, size)
  {
    NoChain(Fat(d, g));
    NoChain(Fat(d', g));
  }

  /** A disk update that leaves the data area alone and rewires only chain `me` (a claim, a link,
      or both) keeps the structure and every other file. `file'` may have gained a first cluster. */
  lemma FatStep(d: seq<Sector>, d': seq<Sector>, g: Geometry, chains: seq<seq<nat>>, chains': seq<seq<nat>>, me: nat,
                file: OpenFile, file': OpenFile, slot: nat)
    requires Sound(d, g, chains, file, slot)
    requires DataSame(d, d', g) && ChainsOk(Fat(d', g), chains')
    requires 1 <= me && Kept(chains, chains', me)
    requires me < |chains| ==> |chains[me]| > 0 && chains[me][0] == file.start && file'.start == file.start
    requires me >= |chains| ==>
             file'.start == file.start || (me < |chains'| && |chains'[me]| > 0 && file'.start == chains'[me][0])
    requires file' == file.(start := file'.start)
    ensures Sound(d', g, chains', file', slot)
    ensures Root(d', g, chains[0]) == Root(d, g, chains[0])
    ensures OthersKept(d, d', g, chains[0], slot)
  {
    var es := Root(d, g, chains[0]);
    BlocksSame(d, d', g, chains[0]);
    assert chains'[0] == chains[0];
    forall k | 0 <= k < |es| && IsFile(es[k])
      ensures EntStart(es[k]) == 0 || Heads(chains', EntStart(es[k]))
    {
      if EntStart(es[k]) != 0 {
        HeadsKept(chains, chains', me, EntStart(es[k]));
      }
    }
    assert Structure(d', g, chains');
    NewStart(d, d', g, chains, chains', me, file, file', slot);
    forall k | 0 <= k < |es| && k != slot && IsFile(es[k])
      ensures SameFile(d, d', g, EntStart(es[k]), EntSize(es[k]))
    {
      if EntStart(es[k]) == 0 {
        EmptyFile(d, d', g, EntSize(es[k]));
      } else {
        var i :| 1 <= i < |chains| && |chains[i]| > 0 && chains[i][0] == EntStart(es[k]);
        ChainsInRange(d, g, chains, i);
        BlocksSame(d, d', g, chains[i]);
        KeepsContent(d, d', g, chains, chains', i, EntSize(es[k]));
      }
    }
  }

  lemma NewStart(d: seq<Sector>, d': seq<Sector>, g: Geometry, chains: seq<seq<nat>>, chains': seq<seq<nat>>, me: nat,
                 file: OpenFile, file': OpenFile, slot: nat)
    requires Sound(d, g, chains, file, slot) && Structure(d', g, chains')
    requires chains'[0] == chains[0] && Root(d', g, chains[0]) == Root(d, g, chains[0])
    requires 1 <= me && Kept(chains, chains', me)
    requires me < |chains| ==> |chains[me]| > 0 && chains[me][0] == file.start && file'.start == file.start
    requires me >= |chains| ==>
             file'.start == file.start || (me < |chains'| && |chains'[me]| > 0 && file'.start == chains'[me][0])
    requires file' == file.(start := file'.start)
    ensures OpenAt(d', g, chains', file', slot)
  {
    var es := Root(d, g, chains[0]);
    if file'.start == file.start {
      if file.start != 0 {
        HeadsKept(chains, chains', me, file.start);
      }
    } else {
      assert Heads(chains', file'.start);
      assert LinkAt(Fat(d', g), chains'[me], 0) by { assert Linked(Fat(d', g), chains'[me]); }
      forall k | 0 <= k < |es| && k != slot && IsFile(es[k]) ensures EntStart(es[k]) != file'.start {
        if EntStart(es[k]) != 0 {
          var i :| 1 <= i < |chains| && |chains[i]| > 0 && chains[i][0] == EntStart(es[k]);
          assert chains'[i][0] == EntStart(es[k]);
        }
      }
    }
  }

  lemma FatUnchanged(d: seq<Sector>, d': seq<Sector>, g: Geometry)
    requires GeometryOk(g, |d|) && |d| == |d'|
    requires forall x | 0 <= x < g.firstData :: d[x] == d'[x]
    ensures Fat(d', g) == Fat(d, g)
    ensures Mirrored(d, g) ==> Mirrored(d', g)
  {
    forall c | 0 <= c <= g.maxCluster ensures Fat(d', g)[c] == Fat(d, g)[c] {
      assert FatSector(g, 0, c) < g.firstData;
    }
  }

  lemma NotIn(chains: seq<seq<nat>>, i: nat, i': nat, j: nat)
    requires Disjoint(chains) && i < |chains| && i' < |chains| && i != i' && j < |chains[i]|
    ensures chains[i][j] !in chains[i']
  {
  }

  /** Writing sector `q` of chain `me` (not the root) replaces that block of that chain only. */
  lemma DataWrite(d: seq<Sector>, g: Geometry, chains: seq<seq<nat>>, me: nat, q: nat, b: Sector, i: nat)
    requires GeometryOk(g, |d|) && ChainsOk(Fat(d, g), chains)
    requires me < |chains| && q < Span(g.spc, |chains[me]|) && i < |chains|
    ensures InRange(g, chains[me]) && InRange(g, chains[i])
    ensures Quot(q, g.spc) < |chains[me]| && g.firstData <= ChainSector(g, chains[me], q) < |d|
    ensures var d' := d[ChainSector(g, chains[me], q) := b];
            && Fat(d', g) == Fat(d, g)
            && (Mirrored(d, g) ==> Mirrored(d', g))
            && Blocks(d', g, chains[i]) == if i == me then Blocks(d, g, chains[me])[q := b] else Blocks(d, g, chains[i])
  {
    ChainsInRange(d, g, chains, me);
    ChainsInRange(d, g, chains, i);
    BlockAt(d, g, chains[me], q);
    QuotRem(q, g.spc);
    FatUnchanged(d, d[ChainSector(g, chains[me], q) := b], g);
    if i == me {
      BlocksAfterWrite(d, g, chains[me], q, b);
    } else {
      NotIn(chains, me, i, Quot(q, g.spc));
      BlocksFrame(d, g, chains[i], chains[me][Quot(q, g.spc)], Rem(q, g.spc), b);
    }
  }

  /** Structure depends on the FAT and the directory only. */
  lemma SoundFrame(d: seq<Sector>, d': seq<Sector>, g: Geometry, chains: seq<seq<nat>>, file: OpenFile, slot: nat)
    requires Sound(d, g, chains, file, slot) && |d'| == |d|
    requires Fat(d', g) == Fat(d, g) && Blocks(d', g, chains[0]) == Blocks(d, g, chains[0])
    ensures Sound(d', g, chains, file, slot)
    ensures file.start != 0 ==> 2 <= file.start
  {
    if file.start != 0 {
      var i :| 1 <= i < |chains| && |chains[i]| > 0 && chains[i][0] == file.start;
      ChainsInRange(d, g, chains, i);
    }
  }

  /** A write into the open file's own chain keeps the structure and every other file. */
  lemma DataStep(d: seq<Sector>, g: Geometry, chains: seq<seq<nat>>, me: nat, q: nat, b: Sector, file: OpenFile,
                 slot: nat)
    requires Sound(d, g, chains, file, slot)
    requires 1 <= me < |chains| && |chains[me]| > 0 && chains[me][0] == file.start && file.start != 0
    requires q < Span(g.spc, |chains[me]|)
    ensures InRange(g, chains[me])
    ensures Quot(q, g.spc) < |chains[me]| && g.firstData <= ChainSector(g, chains[me], q) < |d|
    ensures var d' := d[ChainSector(g, chains[me], q) := b];
            && Sound(d', g, chains, file, slot)
            && Root(d', g, chains[0]) == Root(d, g, chains[0])
            && OthersKept(d, d', g, chains[0], slot)
  {
    DataWrite(d, g, chains, me, q, b, 0);
    var d' := d[ChainSector(g, chains[me], q) := b];
    var es := Root(d, g, chains[0]);
    SoundFrame(d, d', g, chains, file, slot);
    forall k | 0 <= k < |es| && k != slot && IsFile(es[k])
      ensures SameFile(d, d', g, EntStart(es[k]), EntSize(es[k]))
    {
      assert EntStart(es[k]) != file.start;
      DataKeepsFile(d, g, chains, me, q, b, EntStart(es[k]), EntSize(es[k]));
    }
  }

  /** A write into chain `me` touches no file that starts elsewhere. */
  lemma DataKeepsFile(d: seq<Sector>, g: Geometry, chains: seq<seq<nat>>, me: nat, q: nat, b: Sector, start: nat,
                      size: nat)
    requires GeometryOk(g, |d|) && ChainsOk(Fat(d, g), chains)
    requires me < |chains| && |chains[me]| > 0 && q < Span(g.spc, |chains[me]|)
    requires start != chains[me][0] && (start == 0 || Heads(chains, start))
    ensures Quot(q, g.spc) < |chains[me]| && InRange(g, chains[me])
            && g.firstData <= ChainSector(g, chains[me], q) < |d|
    ensures SameFile(d, d[ChainSector(g, chains[me], q) := b], g, start, size)
  {
    DataWrite(d, g, chains, me, q, b, me);
    var d' := d[ChainSector(g, chains[me], q) := b];
    if start == 0 {
      EmptyFile(d, d', g, size);
    } else {
      var i :| 1 <= i < |chains| && |chains[i]| > 0 && chains[i][0] == start;
      DataWrite(d, g, chains, me, q, b, i);
      KeepsContent(d, d', g, chains, chains, i, size);
    }
  }

  /** The sector that holds the open file's entry, rewritten with a new start and size. */
  lemma DirentWrite(d: seq<Sector>, g: Geometry, chains: seq<seq<nat>>, file: OpenFile, slot: nat)
    requires Sound(d, g, chains, file, slot)
    ensures slot / 16 < Span(g.spc, |chains[0]|)
    ensures g.firstData <= file.dirent.sector && Fits(d, file)
    ensures var d' := Persist(d, file);
            && Fat(d', g) == Fat(d, g)
            && (Mirrored(d, g) ==> Mirrored(d', g))
            && Root(d', g, chains[0]) ==
               Root(d, g, chains[0])[slot := PatchStartSize(Root(d, g, chains[0])[slot], 0, file.start, file.size)]
  {
    hide Fat, Blocks, PatchStartSize, ChainsOk, StartsOk, Mirrored, Ents, Span, Quot;
    QuotLt(slot / 16, g.spc, |chains[0]|);
    var q, j := slot / 16, slot % 16;
    BlockAt(d, g, chains[0], q);
    var b := PatchStartSize(d[file.dirent.sector], file.dirent.offset, file.start, file.size);
    DataWrite(d, g, chains, 0, q, b, 0);
    EntsAfterWrite(Blocks(d, g, chains[0]), q, j, b);
    PatchWindow(d[file.dirent.sector], j * 32, file.start, file.size);
    assert q * 16 + j == slot;
  }

  lemma PatchWindow(b: Sector, o: nat, start: nat, size: nat)
    requires o + 32 <= 512 && start < U32 && size < U32
    ensures PatchStartSize(b, o, start, size)[o..o + 32] == PatchStartSize(b[o..o + 32], 0, start, size)
  {
  }

  /** Persisting the open file's start and size keeps the structure and every other file, and
      brings the directory in line with the open file. */
  lemma DirentStep(d: seq<Sector>, g: Geometry, chains: seq<seq<nat>>, file: OpenFile, slot: nat)
    requires Sound(d, g, chains, file, slot)
    ensures g.firstData <= file.dirent.sector && Fits(d, file)
    ensures var d' := Persist(d, file);
            && Sound(d', g, chains, file, slot)
            && OthersKept(d, d', g, chains[0], slot)
            && EntStart(Root(d', g, chains[0])[slot]) == file.start
            && EntSize(Root(d', g, chains[0])[slot]) == file.size
  {
    hide Root, Fat, Chain, ChainsOk, PatchStartSize, EntStart, EntSize, FileContent, Mirrored;
    DirentWrite(d, g, chains, file, slot);
    var es := Root(d, g, chains[0]);
    PatchedEntry(es[slot], file.start, file.size);
    var d' := Persist(d, file);
    var es' := Root(d', g, chains[0]);
    assert StartsOk(es', chains);
    forall k | 0 <= k < |es| && k != slot && IsFile(es[k])
      ensures SameFile(d, d', g, EntStart(es[k]), EntSize(es[k]))
    {
      DirentKeepsFile(d, g, chains, file, slot, EntStart(es[k]), EntSize(es[k]));
    }
  }

  /** The directory rewrite touches no file's data, the open file's included. */
  lemma DirentKeepsFile(d: seq<Sector>, g: Geometry, chains: seq<seq<nat>>, file: OpenFile, slot: nat, start: nat,
                        size: nat)
    requires Sound(d, g, chains, file, slot) && (start == 0 || Heads(chains, start))
    ensures g.firstData <= file.dirent.sector && Fits(d, file)
    ensures SameFile(d, Persist(d, file), g, start, size)
  {
    DirentWrite(d, g, chains, file, slot);
    var b := PatchStartSize(d[file.dirent.sector], file.dirent.offset, file.start, file.size);
    var d' := d[file.dirent.sector := b];
    if start == 0 {
      EmptyFile(d, d', g, size);
    } else {
      var i :| 1 <= i < |chains| && |chains[i]| > 0 && chains[i][0] == start;
      DataWrite(d, g, chains, 0, slot / 16, b, i);
      KeepsContent(d, d', g, chains, chains, i, size);
    }
  }

  /** Names and attributes alone decide every lookup. */
  lemma {:induction false} LookupFromKept(es: seq<Entry>, es': seq<Entry>, name: Name, k: nat)
    requires |es| == |es'| && forall j | 0 <= j < |es| :: es'[j][..12] == es[j][..12]
    ensures LookupFrom(es', name, k) == LookupFrom(es, name, k)
    decreases |es| - k
  {
    if k < |es| {
      assert es'[k][..12][0] == es'[k][0] && es'[k][..12][11] == es'[k][11] && es'[k][..12][..11] == es'[k][..11];
      assert es[k][..12][0] == es[k][0] && es[k][..12][11] == es[k][11] && es[k][..12][..11] == es[k][..11];
      LookupFromKept(es, es', name, k + 1);
    }
  }

  // ----- what the steps do to the open file itself -----

  /** The chain of the open file, read off the FAT. */
  ghost function FileChain(d: seq<Sector>, g: Geometry, file: OpenFile): seq<nat>
    requires GeometryOk(g, |d|)
  {
    Chain(Fat(d, g), file.start)
  }

  ghost function Stored(d: seq<Sector>, g: Geometry, file: OpenFile): (s: seq<byte>)
    requires GeometryOk(g, |d|)
  {
    FileContent(d, g, file.start, file.size)
  }

  /** How many bytes the open file's clusters can hold. */
  ghost function Capacity(d: seq<Sector>, g: Geometry, file: OpenFile): nat
    requires GeometryOk(g, |d|)
  {
    512 * Span(g.spc, |FileChain(d, g, file)|)
  }

  /** An offset within the capacity lies in a cluster of the chain; one just past a full chain
      asks for the next cluster. */
  lemma OffsetCluster(o: nat, spc: nat, n: nat)
    requires spc > 0 && o <= 512 * Span(spc, n)
    ensures Quot(o / 512, spc) <= n
    ensures Quot(o / 512, spc) == n <==> o == 512 * Span(spc, n)
  {
    QuotLt(o / 512, spc, n);
    QuotOf(spc, n, 0);
  }

  /** Growing the chain by a cluster leaves the recorded content alone. */
  lemma GrowthKeeps(d: seq<Sector>, d': seq<Sector>, g: Geometry, ch: seq<nat>, ch': seq<nat>, c: nat, size: nat)
    requires GeometryOk(g, |d|) && DataSame(d, d', g) && InRange(g, ch) && InRange(g, ch')
    requires ch' == ch + [c] && size <= 512 * Span(g.spc, |ch|)
    ensures Content(Blocks(d', g, ch'), size) == Content(Blocks(d, g, ch), size)
    ensures Span(g.spc, |ch'|) == Span(g.spc, |ch|) + g.spc
  {
    BlocksSame(d, d', g, ch);
    BlocksPrefix(d', g, ch, c);
    ContentPrefix(Blocks(d', g, ch), Blocks(d', g, ch'), size);
  }

  /** Patching the sector that holds offset `o` splices the open file's content. */
  lemma WriteSplices(d: seq<Sector>, g: Geometry, chains: seq<seq<nat>>, me: nat, size: nat, o: nat, data: seq<byte>)
    requires GeometryOk(g, |d|) && ChainsOk(Fat(d, g), chains) && me < |chains| && |chains[me]| > 0
    requires o <= size <= 512 * Span(g.spc, |chains[me]|) && o / 512 < Span(g.spc, |chains[me]|)
             && o % 512 + |data| <= 512
    ensures InRange(g, chains[me]) && Quot(o / 512, g.spc) < |chains[me]|
    ensures g.firstData <= ChainSector(g, chains[me], o / 512) < |d|
    ensures var x := ChainSector(g, chains[me], o / 512);
            var d' := d[x := Patch(d[x], o % 512, data)];
            var was := FileContent(d, g, chains[me][0], size);
            && Fat(d', g) == Fat(d, g) && |was| == size
            && FileContent(d', g, chains[me][0], if o + |data| > size then o + |data| else size) == Splice(was, o, data)
            && FileContent(d', g, chains[me][0], size) == Splice(was, o, data)[..size]
            && o + |data| <= 512 * Span(g.spc, |chains[me]|)
  {
    var q := o / 512;
    ChainsInRange(d, g, chains, me);
    BlockAt(d, g, chains[me], q);
    var x := ChainSector(g, chains[me], q);
    DataWrite(d, g, chains, me, q, Patch(d[x], o % 512, data), me);
    ChainIs(Fat(d, g), chains, me);
    ContentSplice(Blocks(d, g, chains[me]), size, o, data);
  }

  /** An update under way on a volume that was consistent: the directory entry of the open file is
      the only thing out of date. */
  ghost predicate Midway(d0: seq<Sector>, d: seq<Sector>, g: Geometry, chains0: seq<seq<nat>>, chains: seq<seq<nat>>,
                         file0: OpenFile, file: OpenFile, slot: nat)
  {
    && Good(d0, g, chains0, file0, slot) && Sound(d, g, chains, file, slot) && Mirrored(d, g)
    && chains[0] == chains0[0] && OthersKept(d0, d, g, chains[0], slot)
    && file.size <= Capacity(d, g, file)
  }

  /** Persisting the directory entry completes an update: if the disk is mirrored, the file covered
      and every other file untouched, the volume is consistent again. */
  lemma Finish(d0: seq<Sector>, d: seq<Sector>, g: Geometry, chains0: seq<seq<nat>>, chains: seq<seq<nat>>,
               file0: OpenFile, file: OpenFile, slot: nat)
    requires Midway(d0, d, g, chains0, chains, file0, file, slot)
    ensures g.firstData <= file.dirent.sector && Fits(d, file)
    ensures var d' := Persist(d, file);
            && Good(d', g, chains, file, slot) && OthersKept(d0, d', g, chains[0], slot)
            && Stored(d', g, file) == Stored(d, g, file) && Fat(d', g) == Fat(d, g)
  {
    DirentStep(d, g, chains, file, slot);
    DirentWrite(d, g, chains, file, slot);
    DirentKeepsFile(d, g, chains, file, slot, file.start, file.size);
    var d' := Persist(d, file);
    OthersTrans(d0, d, d', g, chains[0], slot);
    StillCovered(d0, d', g, chains0, chains, file0, file, slot);
  }

  lemma StillCovered(d0: seq<Sector>, d: seq<Sector>, g: Geometry, chains0: seq<seq<nat>>, chains: seq<seq<nat>>,
                     file0: OpenFile, file: OpenFile, slot: nat)
    requires Good(d0, g, chains0, file0, slot) && Sound(d, g, chains, file, slot)
    requires chains[0] == chains0[0] && OthersKept(d0, d, g, chains[0], slot)
    requires EntStart(Root(d, g, chains[0])[slot]) == file.start && EntSize(Root(d, g, chains[0])[slot]) == file.size
    requires file.size <= Capacity(d, g, file)
    ensures Covered(d, g, Root(d, g, chains[0])) && EndMarked(Root(d, g, chains[0]))
  {
    hide Root, Fat, Chain, ChainsOk, StartsOk, EntStart, EntSize, FileContent, Mirrored;
    var es0, es := Root(d0, g, chains[0]), Root(d, g, chains[0]);
    forall k | 0 <= k < |es| && IsFile(es[k])
      ensures EntSize(es[k]) <= 512 * Span(g.spc, |Chain(Fat(d, g), EntStart(es[k]))|)
    {
      if k != slot {
        assert es[k] == es0[k] && SameFile(d0, d, g, EntStart(es[k]), EntSize(es[k]));
      }
    }
    forall k | 0 <= k < |es| ensures es[k][0] == es0[k][0] {
      if k == slot {
        assert es[k][..12][0] == es0[k][..12][0];
      }
    }
  }

  /** Shrinking the recorded size and persisting it leaves a consistent volume whose open file
      is the old one cut short. */
  lemma TruncateGood(d: seq<Sector>, g: Geometry, chains: seq<seq<nat>>, file: OpenFile, n: nat, slot: nat)
    requires Good(d, g, chains, file, slot) && n <= file.size
    ensures g.firstData <= file.dirent.sector && Fits(d, file)
    ensures var file' := file.(size := n);
            var d' := Persist(d, file');
            && Good(d', g, chains, file', slot)
            && |Stored(d, g, file)| == file.size && Stored(d', g, file') == Stored(d, g, file)[..n]
  {
    assert file.size <= Capacity(d, g, file) by {
      var es := Root(d, g, chains[0]);
      assert IsFile(es[slot]);
    }
    OthersRefl(d, g, chains[0], slot);
    Finish(d, d, g, chains, chains, file, file.(size := n), slot);
    ContentShrinks(Blocks(d, g, FileChain(d, g, file)), file.size, n);
  }

  lemma OthersRefl(d: seq<Sector>, g: Geometry, root: seq<nat>, slot: nat)
    requires GeometryOk(g, |d|) && InRange(g, root)
    ensures OthersKept(d, d, g, root, slot)
  {
  }

  lemma GoodCovered(d: seq<Sector>, g: Geometry, chains: seq<seq<nat>>, file: OpenFile, slot: nat)
    requires Good(d, g, chains, file, slot)
    ensures GeometryOk(g, |d|) && Mirrored(d, g)
    ensures file.size <= Capacity(d, g, file) && |Stored(d, g, file)| == file.size
  {
    var es := Root(d, g, chains[0]);
    assert IsFile(es[slot]);
  }

  lemma SoundBasics(d: seq<Sector>, g: Geometry, chains: seq<seq<nat>>, file: OpenFile, slot: nat)
    requires Sound(d, g, chains, file, slot)
    ensures GeometryOk(g, |d|) && ChainsOk(Fat(d, g), chains) && |chains| > 0 && InRange(g, chains[0])
    ensures file.start < U32 && file.size < U32
  {
  }
}
