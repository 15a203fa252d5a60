/** The server's walks over the root directory: finding a name, finding a free slot, creating. */
module Fat32Root {
  import opened Bytes
  import opened Fat32Volume
  import opened Fat32Steps
  import opened Fat32Directory
  import opened Fat32Survival
  import opened Fat32Server

  datatype Scan = Next | End | Hit(offset: nat)

  /** One sector of a lookup. `q` is the sector's place in the directory. */
  method ScanForName(fs: FileServer, name: Name, ghost bs: seq<Sector>, ghost q: nat) returns (r: Scan)
    requires fs.Buffers() && q < |bs| && fs.buf[..] == bs[q]
    ensures match r
            case Next => LookupFrom(Ents(bs), name, 16 * q) == LookupFrom(Ents(bs), name, 16 * q + 16)
            case End => LookupFrom(Ents(bs), name, 16 * q) == None
            case Hit(o) => o % 32 == 0 && o < 512 && LookupFrom(Ents(bs), name, 16 * q) == Some(16 * q + o / 32)
  {
    hide Ents, LookupFrom;
    var e := 0;
    while e < 16
      invariant 0 <= e <= 16
      invariant LookupFrom(Ents(bs), name, 16 * q) == LookupFrom(Ents(bs), name, 16 * q + e)
    {
      var off := e * 32;
      NameStep(bs, q, e, name);
      var first := fs.buf[off];
      if first == 0x00 { return End; }
      var attr := fs.buf[off + 11];
      if first != 0xE5 && attr != 0x0F && attr / 8 % 2 == 0 && fs.buf[..][off..off + 11] == name {
        return Hit(off);
      }
      e := e + 1;
    }
    return Next;
  }

  /** One record of a lookup, in terms of the sector's bytes. */
  lemma NameStep(bs: seq<Sector>, q: nat, e: nat, name: Name)
    requires q < |bs| && e < 16
    ensures var b, o, k := bs[q], e * 32, 16 * q + e;
            LookupFrom(Ents(bs), name, k) ==
            if b[o] == 0x00 then None
            else if b[o] != 0xE5 && b[o + 11] != 0x0F && b[o + 11] / 8 % 2 == 0 && b[o..o + 11] == name then Some(k)
            else LookupFrom(Ents(bs), name, k + 1)
  {
    HitEntry(bs, q, e * 32);
    var ent: Entry := bs[q][e * 32..e * 32 + 32];
    assert ent[0] == bs[q][e * 32] && ent[11] == bs[q][e * 32 + 11] && ent[..11] == bs[q][e * 32..e * 32 + 11];
    hide Ents;
  }

  lemma FreeStep(bs: seq<Sector>, q: nat, e: nat)
    requires q < |bs| && e < 16
    ensures var b, o, k := bs[q], e * 32, 16 * q + e;
            FreeFrom(Ents(bs), k) == if b[o] == 0x00 || b[o] == 0xE5 then k else FreeFrom(Ents(bs), k + 1)
  {
    HitEntry(bs, q, e * 32);
    var ent: Entry := bs[q][e * 32..e * 32 + 32];
    assert ent[0] == bs[q][e * 32];
    hide Ents;
  }

  /** One sector of a search for a free slot. */
  method ScanForFree(fs: FileServer, ghost bs: seq<Sector>, ghost q: nat) returns (r: Option<nat>)
    requires fs.Buffers() && q < |bs| && fs.buf[..] == bs[q]
    ensures r.None? ==> FreeFrom(Ents(bs), 16 * q) == FreeFrom(Ents(bs), 16 * q + 16)
    ensures r.Some? ==> r.value % 32 == 0 && r.value < 512 && FreeFrom(Ents(bs), 16 * q) == 16 * q + r.value / 32
  {
    hide Ents, FreeFrom;
    var e := 0;
    while e < 16
      invariant 0 <= e <= 16 && FreeFrom(Ents(bs), 16 * q) == FreeFrom(Ents(bs), 16 * q + e)
    {
      var off := e * 32;
      FreeStep(bs, q, e);
      if fs.buf[off] == 0x00 || fs.buf[off] == 0xE5 { return Some(off); }
      e := e + 1;
    }
    return None;
  }

  /** Slot number and location of a hit in sector `s` of cluster number `i` of the root. */
  lemma HitAt(g: Geometry, root: seq<nat>, i: nat, s: nat, o: nat, sector: nat)
    requires g.spc > 0 && i < |root| && s < g.spc && o % 32 == 0 && o < 512 && 2 <= root[i]
    requires sector == ClusterSector(g, root[i]) + s
    ensures At(g, root, DirLoc(sector, o), 16 * (Span(g.spc, i) + s) + o / 32)
  {
    hide Span, Quot, Rem, ClusterSector;
    QuotOf(g.spc, i, s);
    var k := 16 * (Span(g.spc, i) + s) + o / 32;
    assert k / 16 == Span(g.spc, i) + s && k % 16 == o / 32;
  }

  lemma BlockNumber(m: nat, n: nat, i: nat, s: nat)
    requires i < n && s < m
    ensures Span(m, i) + s < Span(m, n) && Quot(Span(m, i) + s, m) == i && Rem(Span(m, i) + s, m) == s
  {
    hide Quot, Rem;
    SpanMono(m, i + 1, n);
    SpanNext(m, i);
    QuotOf(m, i, s);
  }

  /** The sector `s` of cluster `i` is block `Span(spc, i) + s`. */
  lemma RootSector(d: seq<Sector>, g: Geometry, root: seq<nat>, i: nat, s: nat)
    requires GeometryOk(g, |d|) && InRange(g, root) && i < |root| && s < g.spc
    ensures Span(g.spc, i) + s < Span(g.spc, |root|) && ClusterSector(g, root[i]) + s < |d|
    ensures Blocks(d, g, root)[Span(g.spc, i) + s] == d[ClusterSector(g, root[i]) + s]
  {
    hide Blocks, Span, Quot, Rem;
    BlockNumber(g.spc, |root|, i, s);
    BlockAt(d, g, root, Span(g.spc, i) + s);
  }

  /** The lookup from slot `k` on finds the record at `o` of `sector`, which is in the buffer. */
  ghost predicate HitOk(d: seq<Sector>, g: Geometry, root: seq<nat>, name: Name, k: nat, sector: nat, o: nat,
                        b: seq<byte>)
    requires GeometryOk(g, |d|) && InRange(g, root)
  {
    var es := Root(d, g, root);
    && o + 32 <= 512 && sector < |d| && b == d[sector]
    && LookupFrom(es, name, k).Some? && At(g, root, DirLoc(sector, o), LookupFrom(es, name, k).value)
    && es[LookupFrom(es, name, k).value] == b[o..o + 32]
  }

  lemma SectorHit(d: seq<Sector>, g: Geometry, root: seq<nat>, name: Name, k: nat, i: nat, s: nat, sector: nat, o: nat)
    requires GeometryOk(g, |d|) && InRange(g, root) && i < |root| && s < g.spc
             && sector == ClusterSector(g, root[i]) + s
    requires o % 32 == 0 && o < 512
    requires LookupFrom(Root(d, g, root), name, k) == Some(16 * (Span(g.spc, i) + s) + o / 32)
    ensures sector < |d| && HitOk(d, g, root, name, k, sector, o, d[sector])
  {
    hide Ents, Blocks, LookupFrom, At, Span;
    RootSector(d, g, root, i, s);
    HitAt(g, root, i, s, o, sector);
    HitEntry(Blocks(d, g, root), Span(g.spc, i) + s, o);
  }

  /** The sectors of one root cluster, searched for a name. */
  method FindInCluster(fs: FileServer, name: Name, ghost root: seq<nat>, ghost i: nat, cluster: nat)
    returns (r: Scan, sector: nat, failed: bool)
    requires fs.Buffers() && GeometryOk(fs.g, |fs.disk|) && InRange(fs.g, root) && i < |root| && root[i] == cluster
    modifies fs.buf
    ensures fs.reliable ==> !failed
    ensures !failed ==> var es := Root(fs.disk, fs.g, root); var k := 16 * Span(fs.g.spc, i);
                        match r
                        case Next => LookupFrom(es, name, k) == LookupFrom(es, name, 16 * Span(fs.g.spc, i + 1))
                        case End => LookupFrom(es, name, k) == None
                        case Hit(o) => HitOk(fs.disk, fs.g, root, name, k, sector, o, fs.buf[..])
  {
    hide Ents, Blocks, LookupFrom, At, Span, HitOk;
    ghost var bs := Blocks(fs.disk, fs.g, root);
    var base := fs.ClusterToSector(cluster);
    var s := 0;
    SpanNext(fs.g.spc, i);
    while s < fs.g.spc
      invariant 0 <= s <= fs.g.spc
      invariant LookupFrom(Ents(bs), name, 16 * Span(fs.g.spc, i)) ==
                LookupFrom(Ents(bs), name, 16 * (Span(fs.g.spc, i) + s))
    {
      sector := base + s;
      RootSector(fs.disk, fs.g, root, i, s);
      var ok := fs.ReadSector(sector);
      if !ok { return End, sector, true; }
      r := ScanForName(fs, name, bs, Span(fs.g.spc, i) + s);
      if r.End? { return r, sector, false; }
      if r.Hit? {
        SectorHit(fs.disk, fs.g, root, name, 16 * Span(fs.g.spc, i), i, s, sector, r.offset);
        return r, sector, false;
      }
      s := s + 1;
    }
    return Next, 0, false;
  }

  lemma SpanNext(m: nat, i: nat)
    ensures Span(m, i + 1) == Span(m, i) + m
  {
  }

  lemma HitEntry(bs: seq<Sector>, q: nat, o: nat)
    requires q < |bs| && o % 32 == 0 && o < 512
    ensures o + 32 <= 512 && 16 * q + o / 32 < |Ents(bs)| && Ents(bs)[16 * q + o / 32] == bs[q][o..o + 32]
  {
    var k := 16 * q + o / 32;
    assert k / 16 == q && k % 16 * 32 == o;
  }

  /** Looks `name` up along the root chain. A result is always the right one; without transfer
      failures a name is missed only if it is not there. */
  method FindInRoot(fs: FileServer, name: Name) returns (r: Option<OpenFile>, ghost k: nat)
    requires fs.Buffers() && Structure(fs.disk, fs.g, fs.chains)
    modifies fs.buf
    ensures var es := Root(fs.disk, fs.g, fs.chains[0]);
            && (r.Some? ==> && Lookup(es, name) == Some(k) && At(fs.g, fs.chains[0], r.value.dirent, k)
                            && r.value == OpenFile(EntStart(es[k]), EntSize(es[k]), r.value.dirent))
            && (fs.reliable && r.None? ==> Lookup(es, name).None?)
  {
    hide Structure, Volume, Root, Lookup, LookupFrom, At, Span, Fat, EntStart, EntSize, Linked, ChainsOk, Mirrored,
         InRange, GeometryOk;
    StructureBasics(fs.disk, fs.g, fs.chains);
    ghost var root := fs.chains[0];
    ghost var es := Root(fs.disk, fs.g, root);
    r, k := None, 0;
    var cluster := fs.g.rootCluster;
    ghost var i := 0;
    LookupStart(es, name, fs.g.spc);
    LookupEnd(es, name);
    while true
      invariant r.None? && i < |root| && cluster == root[i]
      invariant Lookup(es, name) == LookupFrom(es, name, 16 * Span(fs.g.spc, i))
      decreases |root| - i
    {
      var scan, sector, failed := FindInCluster(fs, name, root, i, cluster);
      if failed || scan.End? { break; }
      if scan.Hit? {
        k := LookupFrom(es, name, 16 * Span(fs.g.spc, i)).value;
        var file := DecodeEntry(fs, sector, scan.offset);
        r := Some(file);
        break;
      }
      var next := NextInChain(fs, root, i, cluster);
      if next.None? { break; }
      cluster, i := next.value, i + 1;
    }
  }

  /** Start cluster and size of the record at `off` of the sector buffer. */
  method DecodeEntry(fs: FileServer, sector: nat, off: nat) returns (file: OpenFile)
    requires fs.Buffers() && off + 32 <= 512
    ensures file == OpenFile(EntStart(fs.buf[off..off + 32]), EntSize(fs.buf[off..off + 32]), DirLoc(sector, off))
  {
    EntryFields(fs.buf[off..off + 32], fs.buf[..], off);
    var start := Le16(fs.buf[..], off + 20) * 0x1_0000 + Le16(fs.buf[..], off + 26);
    var size := Le32(fs.buf[..], off + 28);
    return OpenFile(start, size, DirLoc(sector, off));
  }

  method NextInChain(fs: FileServer, ghost ch: seq<nat>, ghost i: nat, cluster: nat) returns (r: Option<nat>)
    requires fs.Buffers() && GeometryOk(fs.g, |fs.disk|) && Linked(Fat(fs.disk, fs.g), ch) && i < |ch|
             && ch[i] == cluster
    modifies fs.buf
    ensures r.Some? ==> i + 1 < |ch| && r.value == ch[i + 1]
    ensures fs.reliable && r.None? ==> i + 1 == |ch|
  {
    LinkedNotFree(Fat(fs.disk, fs.g), ch, i);
    assert LinkAt(Fat(fs.disk, fs.g), ch, i);
    if i + 1 < |ch| {
      LinkedNotFree(Fat(fs.disk, fs.g), ch, i + 1);
    }
    r := fs.NextCluster(cluster);
  }

  lemma LookupStart(es: seq<Entry>, name: Name, m: nat)
    ensures Lookup(es, name) == LookupFrom(es, name, 16 * Span(m, 0))
  {
  }

  lemma LookupEnd(es: seq<Entry>, name: Name)
    ensures LookupFrom(es, name, |es|).None?
  {
  }

  lemma EntryFields(e: Entry, b: Sector, o: nat)
    requires o + 32 <= 512 && e == b[o..o + 32]
    ensures EntStart(e) == Le16(b, o + 20) * 0x1_0000 + Le16(b, o + 26) && EntSize(e) == Le32(b, o + 28)
  {
    forall i | 0 <= i < 32 ensures e[i] == b[o + i] {
    }
    assert e[26..28] == b[o + 26..o + 28] && e[20..22] == b[o + 20..o + 22] && e[28..32] == b[o + 28..o + 32];
    LeConcat2(e[26..28], e[20..22]);
    hide LeVal;
  }

  lemma StructureBasics(d: seq<Sector>, g: Geometry, chains: seq<seq<nat>>)
    requires Structure(d, g, chains)
    ensures GeometryOk(g, |d|) && |chains| > 0 && |chains[0]| > 0 && chains[0][0] == g.rootCluster
            && InRange(g, chains[0])
    ensures ChainsOk(Fat(d, g), chains) && Linked(Fat(d, g), chains[0])
  {
  }

  // ----- free slots -----

  predicate InDisk(d: seq<Sector>, loc: DirLoc) {
    loc.sector < |d| && loc.offset + 32 <= 512
  }

  /** The sectors of one root cluster, searched for a free slot. */
  method FindFreeInCluster(fs: FileServer, ghost root: seq<nat>, ghost i: nat, cluster: nat)
    returns (r: Option<DirLoc>, failed: bool)
    requires fs.Buffers() && GeometryOk(fs.g, |fs.disk|) && InRange(fs.g, root) && i < |root| && root[i] == cluster
    requires Span(fs.g.spc, i + 1) <= Span(fs.g.spc, |root|)
    modifies fs.buf
    ensures fs.reliable ==> !failed
    ensures !failed ==> var es := Root(fs.disk, fs.g, root); var k := FreeFrom(es, 16 * Span(fs.g.spc, i));
                        if r.Some? then k < |es| && At(fs.g, root, r.value, k)
                            else k == FreeFrom(es, 16 * Span(fs.g.spc, i + 1))
    ensures r.Some? ==> InDisk(fs.disk, r.value)
  {
    hide Ents, Blocks, FreeFrom, At, Span;
    ghost var bs := Blocks(fs.disk, fs.g, root);
    var base := fs.ClusterToSector(cluster);
    var s := 0;
    SpanNext(fs.g.spc, i);
    while s < fs.g.spc
      invariant 0 <= s <= fs.g.spc
      invariant FreeFrom(Ents(bs), 16 * Span(fs.g.spc, i)) == FreeFrom(Ents(bs), 16 * (Span(fs.g.spc, i) + s))
    {
      var sector := base + s;
      RootSector(fs.disk, fs.g, root, i, s);
      var ok := fs.ReadSector(sector);
      if !ok { return None, true; }
      var hit := ScanForFree(fs, bs, Span(fs.g.spc, i) + s);
      if hit.Some? {
        HitAt(fs.g, root, i, s, hit.value, sector);
        return Some(DirLoc(sector, hit.value)), false;
      }
      s := s + 1;
    }
    return None, false;
  }

  /** Every sector of a cluster overwritten with zeros. */
  method ZeroCluster(fs: FileServer, cluster: nat) returns (ok: bool, ghost upTo: nat)
    requires fs.Buffers() && GeometryOk(fs.g, |fs.disk|) && 2 <= cluster <= fs.g.maxCluster
    modifies fs`disk, fs.buf
    ensures |fs.disk| == |old(fs.disk)|
    ensures upTo <= fs.g.spc && Zeroed(old(fs.disk), fs.disk, fs.g, cluster, upTo)
    ensures ok ==> upTo == fs.g.spc
    ensures fs.reliable ==> ok
  {
    hide Span, Zero;
    ghost var d := fs.disk;
    var base := fs.ClusterToSector(cluster);
    var s := 0;
    while s < fs.g.spc
      invariant 0 <= s <= fs.g.spc && |fs.disk| == |d| && Zeroed(d, fs.disk, fs.g, cluster, s)
    {
      ClusterInDisk(fs.g, |d|, cluster, s);
      ZeroBuffer(fs);
      ok := fs.WriteSector(base + s);
      if !ok { return false, s; }
      s := s + 1;
    }
    return true, s;
  }

  method ZeroBuffer(fs: FileServer)
    requires fs.Buffers()
    modifies fs.buf
    ensures fs.buf[..] == Zero()
  {
    forall i | 0 <= i < 512 { fs.buf[i] := 0; }
  }

  /** What a search for a free slot leaves behind: the same files, the same lookups, perhaps a
      longer directory, and a first free slot at `loc`. */
  ghost predicate Prepared(d: seq<Sector>, d': seq<Sector>, g: Geometry, root: seq<nat>, chains': seq<seq<nat>>,
                           loc: DirLoc, k: nat)
    requires GeometryOk(g, |d|) && InRange(g, root)
  {
    && GeometryOk(g, |d'|) && Volume(d', g, chains') && FilesKept(d, d', g, Root(d, g, root))
    && root <= chains'[0] && Root(d, g, root) <= Root(d', g, chains'[0])
    && (forall name: Name :: Lookup(Root(d', g, chains'[0]), name) == Lookup(Root(d, g, root), name))
    && Creatable(Root(d', g, chains'[0]), k) && At(g, chains'[0], loc, k)
  }

  lemma GrownPrepared(d: seq<Sector>, d1: seq<Sector>, d2: seq<Sector>, g: Geometry, chains: seq<seq<nat>>,
                      chains': seq<seq<nat>>, c: nat, loc: DirLoc)
    requires GeometryOk(g, |d|) && 2 <= c <= g.maxCluster && DataSame(d, d1, g) && Zeroed(d1, d2, g, c, g.spc)
             && Mirrored(d1, g)
    requires ChainsOk(Fat(d1, g), chains') && Kept(chains, chains', 0) && |chains| > 0 && chains'[0] == chains[0] + [c]
    requires Volume(d, g, chains) && FreeFrom(Root(d, g, chains[0]), 0) == |Root(d, g, chains[0])|
    requires loc == DirLoc(ClusterSector(g, c), 0)
    ensures Prepared(d, d2, g, chains[0], chains', loc, |Root(d, g, chains[0])|)
  {
    RootGrown(d, d1, d2, g, chains, chains', c);
    VolumeEnd(d2, g, chains');
    HitAt(g, chains'[0], |chains[0]|, 0, 0, loc.sector);
    hide Volume, Fat, FilesKept, Ents, Root, At, Span, Mirrored, ChainsOk;
    GrownSlot(Root(d, g, chains[0]), Ents(seq(g.spc, _ => Zero())));
  }

  /** A full directory followed by blank entries: the same lookups, and the first blank one free. */
  lemma GrownSlot(es: seq<Entry>, zs: seq<Entry>)
    requires Blank(zs) && |zs| > 0 && FreeFrom(es, 0) == |es| && EndMarked(es + zs)
    ensures es <= es + zs && Creatable(es + zs, |es|)
    ensures forall name: Name :: Lookup(es + zs, name) == Lookup(es, name)
  {
    forall name: Name ensures Lookup(es + zs, name) == Lookup(es, name) {
      GrownLookup(es, zs, name, 0);
    }
    assert (es + zs)[|es|] == zs[0];
  }

  lemma VolumeParts(d: seq<Sector>, g: Geometry, chains: seq<seq<nat>>)
    requires Volume(d, g, chains)
    ensures Structure(d, g, chains) && Mirrored(d, g)
  {
  }

  lemma VolumeEnd(d: seq<Sector>, g: Geometry, chains: seq<seq<nat>>)
    requires Volume(d, g, chains)
    ensures EndMarked(Root(d, g, chains[0]))
  {
  }

  /** The full root directory gets a zeroed cluster, whose first entry is the free slot. */
  method GrowRoot(fs: FileServer, ghost i: nat, cluster: nat) returns (r: Option<DirLoc>, ghost m: nat)
    requires fs.Buffers() && Structure(fs.disk, fs.g, fs.chains) && i < |fs.chains[0]| && cluster == fs.chains[0][i]
    requires fs.reliable ==> i + 1 == |fs.chains[0]|
    requires 16 * Span(fs.g.spc, i + 1) <= FreeFrom(Root(fs.disk, fs.g, fs.chains[0]), 0)
    modifies fs`disk, fs`chains, fs`cuts, fs.buf
    ensures fs.reliable && r.Some? && Volume(old(fs.disk), fs.g, old(fs.chains)) ==>
              Prepared(old(fs.disk), fs.disk, fs.g, old(fs.chains)[0], fs.chains, r.value,
                       |Root(old(fs.disk), fs.g, old(fs.chains)[0])|)
    ensures fs.reliable && r.None? ==>
              fs.disk == old(fs.disk) && fs.chains == old(fs.chains) && NoneFree(Fat(fs.disk, fs.g))
    ensures KeptUpTo(old(fs.disk), fs.disk, fs.g, old(fs.chains), fs.chains, m)
    ensures r.Some? ==>
            SlotFor(old(fs.disk), fs.disk, fs.g, old(fs.chains), fs.chains, m, r.value, 16 * Span(fs.g.spc, i + 1))
    ensures |fs.chains| > 0
    ensures fs.chains[0] == old(fs.chains)[0] ==> SameRoot(old(fs.disk), fs.disk, fs.g, fs.chains[0])
    ensures fs.cuts >= old(fs.cuts)
  {
    hide Structure, Volume, Fat, FreeFrom, Root, Prepared, Mirrored, ChainsOk, NoneFree, Zeroed, KeptUpTo, SlotFor,
         InRange, Span, Cut, TracksOn, Survives, BlocksKept, SameRoot;
    StructureBasics(fs.disk, fs.g, fs.chains);
    FullRoot(fs.disk, fs.g, fs.chains[0], i);
    ghost var d, chains := fs.disk, fs.chains;
    r, m := None, |chains[0]|;
    var c := fs.Extend(0, i, cluster);
    if fs.chains[0] != chains[0] {
      m := i + 1;
    }
    assert chains[0][..|chains[0]|] == chains[0];
    if c.None? {
      Unlinked(d, fs.disk, fs.g, chains, fs.chains, m);
      RootSame(d, fs.disk, fs.g, chains[0]);
      return;
    }
    ghost var d1 := fs.disk;
    m := i + 1;
    ClaimedInRange(d, d1, fs.g, c.value);
    ClusterInDisk(fs.g, |d1|, c.value, 0);
    var ok, upTo := ZeroCluster(fs, c.value);
    assert fs.chains[0][..i + 1] == chains[0][..i + 1];
    GrowthBlocks(d, d1, fs.disk, fs.g, chains, c.value, upTo);
    GrowthSurvives(d, fs.disk, fs.g, chains, fs.chains, i + 1);
    SameTracks(d, d1, fs.disk, fs.g, chains, fs.chains);
    KeptFrom(d, fs.disk, fs.g, chains, fs.chains, m);
    FreshInRoot(d, d1, fs.g, chains, fs.chains, c.value, i);
    if !ok { return; }
    r := Some(DirLoc(fs.ClusterToSector(c.value), 0));
    KeptInRange(d, fs.disk, fs.g, chains, fs.chains, m);
    CutRoot(d, d1, fs.disk, fs.g, chains, c.value, i);
    FirstInLast(d, fs.disk, fs.g, chains, fs.chains, i);
    if fs.reliable && Volume(d, fs.g, chains) {
      VolumeParts(d, fs.g, chains);
      GrownPrepared(d, d1, fs.disk, fs.g, chains, fs.chains, c.value, r.value);
    }
  }

  /** The chains still run side by side and cover every cluster in use; files and entries are kept up
      to cluster `m` of the root. */
  ghost predicate KeptUpTo(d: seq<Sector>, d': seq<Sector>, g: Geometry, chains: seq<seq<nat>>, chains': seq<seq<nat>>,
                           m: nat)
    requires GeometryOk(g, |d|) && |chains| > 0 && InRange(g, chains[0])
  {
    && GeometryOk(g, |d'|) && ChainsOk(Fat(d', g), chains') && Kept(chains, chains', 0)
    && InRange(g, chains'[0]) && Survives(d, d', g, chains[0], chains'[0], m)
    && TracksOn(d, d', g, chains, chains')
  }

  /** Slot `k` of the new directory, at `loc`, is not one of the entries that were kept. */
  ghost predicate SlotFor(d: seq<Sector>, d': seq<Sector>, g: Geometry, chains: seq<seq<nat>>, chains': seq<seq<nat>>,
                          m: nat, loc: DirLoc, k: nat)
    requires GeometryOk(g, |d|) && |chains| > 0 && InRange(g, chains[0])
  {
    && GeometryOk(g, |d'|) && |chains'| > 0 && InRange(g, chains'[0]) && InDisk(d', loc)
    && k < |Root(d', g, chains'[0])| && At(g, chains'[0], loc, k)
    && Cut(Root(d, g, chains[0]), Root(d', g, chains'[0]), k, chains'[0] != chains[0])
    && (k < 16 * Span(g.spc, m) ==> k < |Root(d, g, chains[0])| && !IsFile(Root(d, g, chains[0])[k]))
  }

  /** The directory is as it was, chain and entries. */
  ghost predicate SameRoot(d: seq<Sector>, d': seq<Sector>, g: Geometry, root: seq<nat>)
    requires GeometryOk(g, |d|) && InRange(g, root)
  {
    GeometryOk(g, |d'|) && Root(d', g, root) == Root(d, g, root)
  }

  lemma RootSame(d: seq<Sector>, d': seq<Sector>, g: Geometry, root: seq<nat>)
    requires GeometryOk(g, |d|) && InRange(g, root) && DataSame(d, d', g)
    ensures SameRoot(d, d', g, root)
  {
    hide Ents, Blocks;
    BlocksSame(d, d', g, root);
  }

  /** Where the root directory is what it was, the structure is kept. */
  lemma KeptStructure(d: seq<Sector>, d': seq<Sector>, g: Geometry, chains: seq<seq<nat>>, chains': seq<seq<nat>>,
                      m: nat)
    requires Structure(d, g, chains) && KeptUpTo(d, d', g, chains, chains', m)
    requires |chains'| > 0 && chains'[0] == chains[0] && SameRoot(d, d', g, chains[0])
    ensures Structure(d', g, chains')
  {
    hide Fat, ChainsOk, Kept, Span, EntStart, EntSize, Listed, SameFile, Heads, TracksOn, Root, Survives;
    var es := Root(d, g, chains[0]);
    forall k | 0 <= k < |es| && IsFile(es[k]) ensures EntStart(es[k]) == 0 || Heads(chains', EntStart(es[k])) {
      if EntStart(es[k]) != 0 {
        HeadsKept(chains, chains', 0, EntStart(es[k]));
      }
    }
  }

  lemma KeptInRange(d: seq<Sector>, d': seq<Sector>, g: Geometry, chains: seq<seq<nat>>, chains': seq<seq<nat>>, m: nat)
    requires GeometryOk(g, |d|) && |chains| > 0 && InRange(g, chains[0]) && KeptUpTo(d, d', g, chains, chains', m)
    ensures GeometryOk(g, |d'|) && |chains'| > 0 && InRange(g, chains'[0])
  {
  }

  lemma FullRoot(d: seq<Sector>, g: Geometry, root: seq<nat>, i: nat)
    requires GeometryOk(g, |d|) && InRange(g, root) && i < |root|
    requires 16 * Span(g.spc, i + 1) <= FreeFrom(Root(d, g, root), 0)
    ensures i + 1 == |root| ==> FreeFrom(Root(d, g, root), 0) == |Root(d, g, root)| == 16 * Span(g.spc, i + 1)
  {
  }

  /** The cluster was not claimed or not linked in both copies. */
  lemma Unlinked(d: seq<Sector>, d': seq<Sector>, g: Geometry, chains: seq<seq<nat>>, chains': seq<seq<nat>>, m: nat)
    requires GeometryOk(g, |d|) && |chains| > 0 && InRange(g, chains[0]) && Structure(d, g, chains)
    requires DataSame(d, d', g) && ChainsOk(Fat(d', g), chains') && Kept(chains, chains', 0)
    requires 1 <= m <= |chains[0]| && m <= |chains'[0]| && chains'[0][..m] == chains[0][..m]
    requires m < |chains[0]| ==> 16 * Span(g.spc, m) <= FreeFrom(Root(d, g, chains[0]), 0)
    requires TracksOn(d, d', g, chains, chains')
    ensures KeptUpTo(d, d', g, chains, chains', m)
  {
    hide Structure, Fat, FreeFrom, Root, ChainsOk, BlocksKept, Survives, Kept, Span, Tracked;
    StructureBasics(d, g, chains);
    LinkBlocks(d, d', g, chains);
    GrowthSurvives(d, d', g, chains, chains', m);
  }

  lemma KeptFrom(d: seq<Sector>, d': seq<Sector>, g: Geometry, chains: seq<seq<nat>>, chains': seq<seq<nat>>, m: nat)
    requires GeometryOk(g, |d|) && |chains| > 0 && InRange(g, chains[0]) && GeometryOk(g, |d'|)
    requires ChainsOk(Fat(d', g), chains') && Kept(chains, chains', 0) && InRange(g, chains'[0])
    requires Survives(d, d', g, chains[0], chains'[0], m) && TracksOn(d, d', g, chains, chains')
    ensures KeptUpTo(d, d', g, chains, chains', m)
  {
  }

  lemma SameTracks(d: seq<Sector>, d1: seq<Sector>, d2: seq<Sector>, g: Geometry, chains: seq<seq<nat>>,
                   chains': seq<seq<nat>>)
    requires GeometryOk(g, |d|) && GeometryOk(g, |d1|) && GeometryOk(g, |d2|) && TracksOn(d, d1, g, chains, chains')
    requires Fat(d2, g) == Fat(d1, g)
    ensures TracksOn(d, d2, g, chains, chains')
  {
  }

  lemma FreshInRoot(d: seq<Sector>, d1: seq<Sector>, g: Geometry, chains: seq<seq<nat>>, chains': seq<seq<nat>>, c: nat,
                    i: nat)
    requires GeometryOk(g, |d|) && DataSame(d, d1, g) && ChainsOk(Fat(d, g), chains) && |chains| > 0 && |chains'| > 0
    requires Claimed(Fat(d, g), Fat(d1, g), c) && i < |chains[0]| && chains'[0] == chains[0][..i + 1] + [c]
    ensures chains'[0] != chains[0]
  {
    hide Fat, ChainsOk;
    FreshCluster(Fat(d, g), chains, c);
    assert chains'[0][i + 1] == c;
  }

  /** The first entry of the cluster linked behind the first `i + 1`. */
  lemma FirstInLast(d: seq<Sector>, d': seq<Sector>, g: Geometry, chains: seq<seq<nat>>, chains': seq<seq<nat>>, i: nat)
    requires GeometryOk(g, |d|) && |chains| > 0 && InRange(g, chains[0])
    requires GeometryOk(g, |d'|) && |chains'| > 0 && InRange(g, chains'[0]) && |chains'[0]| == i + 2
    requires Cut(Root(d, g, chains[0]), Root(d', g, chains'[0]), 16 * Span(g.spc, i + 1), true)
    requires chains'[0] != chains[0]
    ensures SlotFor(d, d', g, chains, chains', i + 1, DirLoc(ClusterSector(g, chains'[0][i + 1]), 0),
                    16 * Span(g.spc, i + 1))
  {
    hide Root, Span, At, ClusterSector, Cut;
    HitAt(g, chains'[0], i + 1, 0, 0, ClusterSector(g, chains'[0][i + 1]));
    SpanNext(g.spc, i + 1);
    ClusterInDisk(g, |d'|, chains'[0][i + 1], 0);
  }

  lemma ClaimedInRange(d: seq<Sector>, d': seq<Sector>, g: Geometry, c: nat)
    requires GeometryOk(g, |d|) && DataSame(d, d', g) && Claimed(Fat(d, g), Fat(d', g), c)
    ensures 2 <= c <= g.maxCluster
  {
  }

  lemma FreeStart(es: seq<Entry>, m: nat)
    ensures Span(m, 0) == 0
  {
  }

  lemma FreeEnd(es: seq<Entry>)
    ensures FreeFrom(es, |es|) == |es|
  {
  }

  /** A directory with a free slot is ready as it stands. */
  lemma AlreadyPrepared(d: seq<Sector>, g: Geometry, chains: seq<seq<nat>>, loc: DirLoc, k: nat)
    requires GeometryOk(g, |d|) && |chains| > 0 && InRange(g, chains[0]) && Volume(d, g, chains)
    requires k == FreeFrom(Root(d, g, chains[0]), 0) < |Root(d, g, chains[0])| && At(g, chains[0], loc, k)
    ensures Prepared(d, d, g, chains[0], chains, loc, k)
  {
    VolumeEnd(d, g, chains);
    hide Volume, Root, At, Fat;
  }

  /** The first free slot along the root chain; if there is none, the last cluster reached. */
  method SearchFree(fs: FileServer) returns (hit: Option<DirLoc>, failed: bool, cluster: nat, ghost i: nat)
    requires fs.Buffers() && Structure(fs.disk, fs.g, fs.chains)
    modifies fs.buf
    ensures fs.reliable ==> !failed
    ensures hit.Some? ==> InDisk(fs.disk, hit.value)
    ensures !failed && hit.None? ==> i < |fs.chains[0]| && cluster == fs.chains[0][i]
    ensures !failed && hit.None? && fs.reliable ==> i + 1 == |fs.chains[0]|
    ensures !failed ==> var es := Root(fs.disk, fs.g, fs.chains[0]); var k := FreeFrom(es, 0);
                        if hit.Some? then k < |es| && At(fs.g, fs.chains[0], hit.value, k)
                        else 16 * Span(fs.g.spc, i + 1) <= k
  {
    hide Structure, Volume, Root, FreeFrom, At, Span, Fat, Linked, ChainsOk, Mirrored, InRange, InDisk, GeometryOk;
    StructureBasics(fs.disk, fs.g, fs.chains);
    ghost var root := fs.chains[0];
    ghost var es := Root(fs.disk, fs.g, root);
    hit, failed, cluster, i := None, false, fs.g.rootCluster, 0;
    FreeStart(es, fs.g.spc);
    FreeEnd(es);
    while true
      invariant i < |root| && cluster == root[i]
      invariant 16 * Span(fs.g.spc, i) <= |es| && FreeFrom(es, 0) == FreeFrom(es, 16 * Span(fs.g.spc, i))
      decreases |root| - i
    {
      SpanMono(fs.g.spc, i + 1, |root|);
      hit, failed := FindFreeInCluster(fs, root, i, cluster);
      if failed || hit.Some? { break; }
      var next := NextInChain(fs, root, i, cluster);
      if next.None? { break; }
      cluster, i := next.value, i + 1;
    }
  }

  /** The first free slot along the root chain, in a new cluster if every one is full. Whatever
      transfers fail, the slot is not one of a file that is still listed, and every file survives. */
  method FindFreeRootSlot(fs: FileServer) returns (r: Option<DirLoc>, ghost k: nat, ghost m: nat)
    requires fs.Buffers() && Structure(fs.disk, fs.g, fs.chains)
    modifies fs`disk, fs`chains, fs`cuts, fs.buf
    ensures fs.reliable && r.Some? && Volume(old(fs.disk), fs.g, old(fs.chains)) ==>
              Prepared(old(fs.disk), fs.disk, fs.g, old(fs.chains)[0], fs.chains, r.value, k)
    ensures fs.reliable && r.None? ==>
              fs.disk == old(fs.disk) && fs.chains == old(fs.chains) && NoneFree(Fat(fs.disk, fs.g))
    ensures KeptUpTo(old(fs.disk), fs.disk, fs.g, old(fs.chains), fs.chains, m)
    ensures r.Some? ==> SlotFor(old(fs.disk), fs.disk, fs.g, old(fs.chains), fs.chains, m, r.value, k)
    ensures |fs.chains| > 0
    ensures fs.chains[0] == old(fs.chains)[0] ==> SameRoot(old(fs.disk), fs.disk, fs.g, fs.chains[0])
    ensures fs.cuts >= old(fs.cuts)
  {
    hide Structure, Volume, Root, FreeFrom, At, Fat, Linked, ChainsOk, Mirrored, Prepared, NoneFree, KeptUpTo, SlotFor,
         InRange, Span;
    StructureBasics(fs.disk, fs.g, fs.chains);
    var hit, failed, cluster, i := SearchFree(fs);
    k, m := FreeFrom(Root(fs.disk, fs.g, fs.chains[0]), 0), |fs.chains[0]|;
    if failed || hit.Some? {
      Untouched(fs.disk, fs.g, fs.chains);
      if hit.Some? && !failed {
        if Volume(fs.disk, fs.g, fs.chains) {
          AlreadyPrepared(fs.disk, fs.g, fs.chains, hit.value, k);
        }
        FreeSlot(fs.disk, fs.g, fs.chains, hit.value, k);
      }
      return if failed then None else hit, k, m;
    }
    FullRoot(fs.disk, fs.g, fs.chains[0], i);
    r, m := GrowRoot(fs, i, cluster);
    k := 16 * Span(fs.g.spc, i + 1);
  }

  lemma Untouched(d: seq<Sector>, g: Geometry, chains: seq<seq<nat>>)
    requires GeometryOk(g, |d|) && |chains| > 0 && |chains[0]| > 0 && InRange(g, chains[0])
             && ChainsOk(Fat(d, g), chains)
    ensures KeptUpTo(d, d, g, chains, chains, |chains[0]|)
  {
    hide Fat, ChainsOk, Survives;
    NothingSurvives(d, g, chains[0]);
  }

  lemma FreeSlot(d: seq<Sector>, g: Geometry, chains: seq<seq<nat>>, loc: DirLoc, k: nat)
    requires GeometryOk(g, |d|) && |chains| > 0 && InRange(g, chains[0]) && InDisk(d, loc)
    requires k == FreeFrom(Root(d, g, chains[0]), 0) < |Root(d, g, chains[0])| && At(g, chains[0], loc, k)
    ensures SlotFor(d, d, g, chains, chains, |chains[0]|, loc, k)
  {
    hide Root, At, Span, Blank;
  }

  // ----- creation -----

  /** A zero-length file's entry written over the free slot at `loc`. */
  method WriteNewDirent(fs: FileServer, loc: DirLoc, name: Name) returns (ok: bool)
    requires fs.Buffers() && loc.sector < |fs.disk| && loc.offset + 32 <= 512
    modifies fs`disk, fs.buf
    ensures ok ==> fs.disk == old(fs.disk)[loc.sector := Patch(old(fs.disk)[loc.sector], loc.offset, NewEntry(name))]
    ensures !ok ==> fs.disk == old(fs.disk)
    ensures fs.reliable ==> ok
  {
    ok := fs.ReadSector(loc.sector);
    if !ok { return; }
    var b, off := fs.buf, loc.offset;
    forall i | 0 <= i < 32 { b[off + i] := 0; }
    forall i | 0 <= i < 11 { b[off + i] := name[i]; }
    b[off + 11] := 0x20;
    assert fs.buf[..] == Patch(fs.disk[loc.sector], off, NewEntry(name));
    ok := fs.WriteSector(loc.sector);
  }

  ghost predicate EntriesKept(es: seq<Entry>, es': seq<Entry>, slot: nat) {
    |es| <= |es'| && forall j | 0 <= j < |es| && j != slot :: es'[j] == es[j]
  }

  /** What opening `name` means for every file of the volume, the name's own included. */
  ghost predicate OpenedAs(d: seq<Sector>, d': seq<Sector>, g: Geometry, root: seq<nat>, root': seq<nat>, name: Name,
                           file: OpenFile, slot: nat)
    requires GeometryOk(g, |d|) && GeometryOk(g, |d'|) && InRange(g, root) && InRange(g, root')
  {
    var es, es' := Root(d, g, root), Root(d', g, root');
    && Lookup(es', name) == Some(slot)
    && (forall other: Name | other != name :: Lookup(es', other) == Lookup(es, other))
    && FilesKept(d, d', g, es) && EntriesKept(es, es', slot)
    && (Lookup(es, name).Some? ==> d' == d && root' == root && Lookup(es, name) == Some(slot))
    && (Lookup(es, name).None? ==> file.size == 0 && Stored(d', g, file) == [])
  }

  /** What an open that succeeded has done, whatever transfers failed: it found the name, or it made
      a new empty file. The name leads to that file unless an older entry of the name comes before
      it; the other names lead where they did unless the directory was cut before them. */
  ghost predicate OpenedAnyhow(d: seq<Sector>, d': seq<Sector>, g: Geometry, root: seq<nat>, root': seq<nat>,
                               name: Name, file: OpenFile, slot: nat)
    requires GeometryOk(g, |d|) && GeometryOk(g, |d'|) && InRange(g, root) && InRange(g, root')
  {
    var es, es' := Root(d, g, root), Root(d', g, root');
    || (&& d' == d && root' == root && Lookup(es, name) == Some(slot)
        && file == OpenFile(EntStart(es[slot]), EntSize(es[slot]), file.dirent))
    || (&& file.size == 0 && slot < |es'| && es'[slot] == NewEntry(name)
        && (forall j | 0 <= j < |es| && j != slot && (j < slot || root' == root) :: j < |es'| && es'[j] == es[j])
        && Lookup(es', name) == (if FoundBefore(es, name, slot) then Lookup(es, name) else Some(slot))
        && forall other: Name | other != name ::
             Lookup(es', other) ==
             if root' == root || FoundBefore(es, other, slot) then Lookup(es, other) else None)
  }

  ghost predicate FoundBefore(es: seq<Entry>, name: Name, slot: nat) {
    Lookup(es, name).Some? && Lookup(es, name).value < slot
  }

  /** Opens `name`, creating it in the first free slot if asked to. On a consistent volume and without
      transfer failures an ordinary name (its first byte neither marker) ends up open and found at its
      slot, every other name finds what it found before with the same content, and the volume stays
      consistent; the only reasons to fail are a missing file not to be created, and a full disk.
      Whatever transfers fail, before or now, an ordinary name that is opened is open on a sound
      volume, every file keeps its content, and its entry too if it lies in the first `m` clusters; a
      failed open keeps the structure unless it changed the root's chain. */
  method OpenOrCreate(fs: FileServer, name: Name, create: bool) returns (isOpen: bool, ghost m: nat)
    requires fs.Buffers() && Structure(fs.disk, fs.g, fs.chains)
    modifies fs`disk, fs`chains, fs`cuts, fs`file, fs`slot, fs.buf
    ensures fs.reliable && Volume(old(fs.disk), fs.g, old(fs.chains)) && isOpen && name[0] != 0x00
            && name[0] != 0xE5 ==>
              && Good(fs.disk, fs.g, fs.chains, fs.file, fs.slot)
              && OpenedAs(old(fs.disk), fs.disk, fs.g, old(fs.chains)[0], fs.chains[0], name, fs.file, fs.slot)
    ensures fs.reliable && !isOpen ==>
              && fs.disk == old(fs.disk) && Lookup(Root(fs.disk, fs.g, old(fs.chains)[0]), name).None?
              && (!create || NoneFree(Fat(fs.disk, fs.g)))
    ensures KeptUpTo(old(fs.disk), fs.disk, fs.g, old(fs.chains), fs.chains, m)
    ensures isOpen && name[0] != 0x00 && name[0] != 0xE5 ==>
              && Sound(fs.disk, fs.g, fs.chains, fs.file, fs.slot)
              && (Volume(old(fs.disk), fs.g, old(fs.chains)) ==> fs.file.size <= Capacity(fs.disk, fs.g, fs.file))
              && OpenedAnyhow(old(fs.disk), fs.disk, fs.g, old(fs.chains)[0], fs.chains[0], name, fs.file, fs.slot)
    ensures !isOpen && |fs.chains| > 0 && fs.chains[0] == old(fs.chains)[0] ==> Structure(fs.disk, fs.g, fs.chains)
    ensures fs.cuts >= old(fs.cuts)
  {
    hide Structure, Volume, Root, Lookup, At, Fat, Good, OpenedAs, NoneFree, ChainsOk, Mirrored, Linked, EntStart,
         EntSize, InRange, KeptUpTo, Sound, OpenedAnyhow;
    StructureBasics(fs.disk, fs.g, fs.chains);
    ghost var d, chains := fs.disk, fs.chains;
    var found, k := FindInRoot(fs, name);
    isOpen, m := found.Some?, |chains[0]|;
    Untouched(d, fs.g, chains);
    if isOpen {
      fs.file, fs.slot := found.value, k;
      FoundOpened(d, fs.g, chains, name, fs.file, k);
      if Volume(d, fs.g, chains) {
        GoodCovered(d, fs.g, chains, fs.file, k);
      }
    } else if create {
      isOpen, m := Create(fs, name);
    }
  }

  /** A new entry for `name`, which no lookup finds yet, in the first free slot. */
  method Create(fs: FileServer, name: Name) returns (ok: bool, ghost m: nat)
    requires fs.Buffers() && Structure(fs.disk, fs.g, fs.chains)
    requires fs.reliable ==> Lookup(Root(fs.disk, fs.g, fs.chains[0]), name).None?
    modifies fs`disk, fs`chains, fs`cuts, fs`file, fs`slot, fs.buf
    ensures fs.reliable && Volume(old(fs.disk), fs.g, old(fs.chains)) && ok && name[0] != 0x00 && name[0] != 0xE5 ==>
              && Good(fs.disk, fs.g, fs.chains, fs.file, fs.slot)
              && OpenedAs(old(fs.disk), fs.disk, fs.g, old(fs.chains)[0], fs.chains[0], name, fs.file, fs.slot)
    ensures fs.reliable && !ok ==> fs.disk == old(fs.disk) && NoneFree(Fat(fs.disk, fs.g))
    ensures KeptUpTo(old(fs.disk), fs.disk, fs.g, old(fs.chains), fs.chains, m)
    ensures ok && name[0] != 0x00 && name[0] != 0xE5 ==>
              && Sound(fs.disk, fs.g, fs.chains, fs.file, fs.slot)
              && (Volume(old(fs.disk), fs.g, old(fs.chains)) ==> fs.file.size <= Capacity(fs.disk, fs.g, fs.file))
              && OpenedAnyhow(old(fs.disk), fs.disk, fs.g, old(fs.chains)[0], fs.chains[0], name, fs.file, fs.slot)
    ensures !ok && |fs.chains| > 0 && fs.chains[0] == old(fs.chains)[0] ==> Structure(fs.disk, fs.g, fs.chains)
    ensures fs.cuts >= old(fs.cuts)
  {
    hide Structure, Volume, Root, Lookup, At, Fat, Good, OpenedAs, Prepared, NoneFree, ChainsOk, Mirrored, Linked,
         Patch, NewEntry, InRange, KeptUpTo, SlotFor, Sound, OpenedAnyhow, SameRoot;
    StructureBasics(fs.disk, fs.g, fs.chains);
    ghost var d, chains := fs.disk, fs.chains;
    var loc, k, n := FindFreeRootSlot(fs);
    ok, m := loc.Some?, n;
    if fs.chains[0] == chains[0] {
      KeptStructure(d, fs.disk, fs.g, chains, fs.chains, m);
    }
    if ok {
      ghost var d1 := fs.disk;
      CreateSurvives(d, d1, fs.g, chains, fs.chains, m, loc.value, k, NewEntry(name));
      ok := WriteNewDirent(fs, loc.value, name);
      if ok {
        fs.file, fs.slot := OpenFile(0, 0, loc.value), k;
        if name[0] != 0x00 && name[0] != 0xE5 {
          CreatedAnyhow(d, d1, fs.g, chains, fs.chains, m, name, loc.value, k);
        }
      }
      if fs.reliable && Volume(d, fs.g, chains) && name[0] != 0x00 && name[0] != 0xE5 {
        CreatedOpened(d, d1, fs.g, chains, fs.chains, name, loc.value, k);
      }
    }
  }

  lemma CreateSurvives(d: seq<Sector>, d1: seq<Sector>, g: Geometry, chains: seq<seq<nat>>, chains': seq<seq<nat>>,
                       m: nat, loc: DirLoc, k: nat, e: Entry)
    requires GeometryOk(g, |d|) && |chains| > 0 && InRange(g, chains[0]) && Structure(d, g, chains)
    requires KeptUpTo(d, d1, g, chains, chains', m) && SlotFor(d, d1, g, chains, chains', m, loc, k)
    ensures InDisk(d1, loc)
    ensures KeptUpTo(d, d1[loc.sector := Patch(d1[loc.sector], loc.offset, e)], g, chains, chains', m)
  {
    hide Structure, Root, At, Fat, ChainsOk, Patch, Survives, Kept, Span, Tracked, Cut;
    EntryWrite(d1, g, chains', k, loc, e);
    EntrySurvives(d, d1, g, chains, chains', m, k, loc, e);
  }

  /** A new entry in the slot found, whatever failed before: the file is open on a sound volume. */
  lemma CreatedAnyhow(d: seq<Sector>, d1: seq<Sector>, g: Geometry, chains: seq<seq<nat>>, chains': seq<seq<nat>>,
                      m: nat, name: Name, loc: DirLoc, k: nat)
    requires GeometryOk(g, |d|) && |chains| > 0 && InRange(g, chains[0]) && Structure(d, g, chains)
    requires KeptUpTo(d, d1, g, chains, chains', m) && SlotFor(d, d1, g, chains, chains', m, loc, k)
    requires name[0] != 0x00 && name[0] != 0xE5
    ensures InDisk(d1, loc)
    ensures var d2 := d1[loc.sector := Patch(d1[loc.sector], loc.offset, NewEntry(name))];
            && Sound(d2, g, chains', OpenFile(0, 0, loc), k)
            && OpenedAnyhow(d, d2, g, chains[0], chains'[0], name, OpenFile(0, 0, loc), k)
  {
    hide Root, At, Fat, ChainsOk, Patch, Kept, Span, NewEntry, Lookup, Cut, EntStart, IsFile, Mirrored, Covered;
    EntryWrite(d1, g, chains', k, loc, NewEntry(name));
    NewEntryIs(name);
    var es, es1 := Root(d, g, chains[0]), Root(d1, g, chains'[0]);
    CutStarts(es, es1, k, chains'[0] != chains[0], name, chains, chains');
    CutListed(es, es1, k, chains'[0] != chains[0], name);
    CutFound(es, es1, k, chains'[0] != chains[0], name);
    CutKeeps(es, es1, k, chains'[0] != chains[0]);
    assert chains'[0][0] == chains'[0][..m][0] == chains[0][0];
  }

  lemma CutKeeps(es: seq<Entry>, es1: seq<Entry>, k: nat, cut: bool)
    requires Cut(es, es1, k, cut)
    ensures forall j | 0 <= j < |es| && (j < k || !cut) :: j < |es1| && es1[j] == es[j]
  {
    forall j | 0 <= j < |es| && j < k ensures j < |es1| && es1[j] == es[j] {
      assert es1[j] == es1[..k][j] == es[..k][j];
    }
  }

  /** The same on directories. */
  lemma CutFound(es: seq<Entry>, es1: seq<Entry>, k: nat, cut: bool, name: Name)
    requires Cut(es, es1, k, cut) && EndMarked(es) && name[0] != 0x00 && name[0] != 0xE5
    ensures var es' := es1[k := NewEntry(name)];
            && Lookup(es', name) == (if FoundBefore(es, name, k) then Lookup(es, name) else Some(k))
            && forall other: Name | other != name ::
                 Lookup(es', other) == if !cut || FoundBefore(es, other, k) then Lookup(es, other) else None
  {
    hide NewEntry, Lookup, Blank;
    DuplicateExact(es, es1, k, cut, name);
    forall other: Name | other != name
      ensures Lookup(es1[k := NewEntry(name)], other) ==
              if !cut || FoundBefore(es, other, k) then Lookup(es, other) else None
    {
      CutOthers(es, es1, k, cut, name, other);
    }
  }

  lemma FoundOpened(d: seq<Sector>, g: Geometry, chains: seq<seq<nat>>, name: Name, file: OpenFile, k: nat)
    requires GeometryOk(g, |d|) && |chains| > 0 && InRange(g, chains[0]) && Structure(d, g, chains)
    requires Lookup(Root(d, g, chains[0]), name) == Some(k) && At(g, chains[0], file.dirent, k)
    requires var e := Root(d, g, chains[0])[k]; file == OpenFile(EntStart(e), EntSize(e), file.dirent)
    ensures Volume(d, g, chains) ==> Good(d, g, chains, file, k)
    ensures OpenedAs(d, d, g, chains[0], chains[0], name, file, k)
    ensures Sound(d, g, chains, file, k) && OpenedAnyhow(d, d, g, chains[0], chains[0], name, file, k)
  {
    Opened(d, g, chains, k, file.dirent);
    hide Volume, Structure, Root, Lookup, At, Fat, Good, EntStart, EntSize;
  }

  lemma PreparedAt(d: seq<Sector>, d': seq<Sector>, g: Geometry, root: seq<nat>, chains': seq<seq<nat>>, loc: DirLoc,
                   k: nat)
    requires GeometryOk(g, |d|) && InRange(g, root) && Prepared(d, d', g, root, chains', loc, k)
    ensures loc.sector < |d'| && loc.offset + 32 <= 512 && GeometryOk(g, |d'|)
  {
    StructureBasics(d', g, chains');
    EntryWrite(d', g, chains', k, loc, NewEntry(seq(11, _ => 32)));
  }

  lemma CreatedOpened(d: seq<Sector>, d1: seq<Sector>, g: Geometry, chains: seq<seq<nat>>, chains': seq<seq<nat>>,
                      name: Name, loc: DirLoc, k: nat)
    requires GeometryOk(g, |d|) && |chains| > 0 && InRange(g, chains[0]) && name[0] != 0x00 && name[0] != 0xE5
    requires Lookup(Root(d, g, chains[0]), name).None? && Prepared(d, d1, g, chains[0], chains', loc, k)
    ensures loc.sector < |d1| && loc.offset + 32 <= 512 && GeometryOk(g, |d1|) && |chains'| > 0
            && InRange(g, chains'[0])
    ensures var d2 := d1[loc.sector := Patch(d1[loc.sector], loc.offset, NewEntry(name))];
            var file := OpenFile(0, 0, loc);
            Good(d2, g, chains', file, k) && OpenedAs(d, d2, g, chains[0], chains'[0], name, file, k)
  {
    hide Volume, Structure, Root, Lookup, At, Fat, Good, EntStart, EntSize, NewEntry, Patch, FilesKept, Mirrored,
         ChainsOk, Linked, IsFile;
    VolumeParts(d1, g, chains');
    StructureBasics(d1, g, chains');
    PreparedAt(d, d1, g, chains[0], chains', loc, k);
    CreateStep(d1, g, chains', k, loc, name);
    NewEntryIs(name);
    var d2 := d1[loc.sector := Patch(d1[loc.sector], loc.offset, NewEntry(name))];
    var es, es1 := Root(d, g, chains[0]), Root(d1, g, chains'[0]);
    VolumeParts(d2, g, chains');
    Opened(d2, g, chains', k, loc);
    CreatedFound(es1, k, name);
    forall other: Name | other != name ensures Lookup(Root(d2, g, chains'[0]), other) == Lookup(es, other) {
      CreatedOthers(es1, k, name, other);
    }
    KeptTwice(d, d1, d2, g, es, es1);
    NoBytes(d2, g, loc);
  }

  lemma NoBytes(d: seq<Sector>, g: Geometry, loc: DirLoc)
    requires GeometryOk(g, |d|)
    ensures Stored(d, g, OpenFile(0, 0, loc)) == []
  {
    NoChain(Fat(d, g));
  }

  lemma KeptTwice(d: seq<Sector>, d1: seq<Sector>, d2: seq<Sector>, g: Geometry, es: seq<Entry>, es1: seq<Entry>)
    requires GeometryOk(g, |d|) && GeometryOk(g, |d1|) && GeometryOk(g, |d2|) && es <= es1
    requires FilesKept(d, d1, g, es) && FilesKept(d1, d2, g, es1)
    ensures FilesKept(d, d2, g, es)
  {
    hide EntStart, EntSize, Fat, Chain, FileContent;
    forall k | 0 <= k < |es| && IsFile(es[k]) ensures SameFile(d, d2, g, EntStart(es[k]), EntSize(es[k])) {
      assert es1[k] == es[k];
      assert SameFile(d, d1, g, EntStart(es[k]), EntSize(es[k]))
             && SameFile(d1, d2, g, EntStart(es[k]), EntSize(es[k]));
    }
  }
}
