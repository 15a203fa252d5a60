/**
 What survives a creation in the root directory when sector transfers fail. A FAT read that fails
 while the directory is searched looks like the end of its chain: the new cluster is then linked in
 mid-chain, and the entries behind it are no longer listed. Every file listed before that place
 keeps its entry, and every file, listed or not, keeps its clusters and its content.
 */
module Fat32Survival {
  import opened Bytes
  import opened Fat32Volume
  import opened Fat32Steps
  import opened Fat32Directory

  ghost predicate FilesUpTo(es: seq<Entry>, es': seq<Entry>, n: nat) {
    n <= |es| && n <= |es'| && forall k | 0 <= k < n && IsFile(es[k]) :: es'[k] == es[k]
  }

  /** The directory kept its first `m` clusters: all of them, unless none of these had a free slot. */
  ghost predicate Survives(d: seq<Sector>, d': seq<Sector>, g: Geometry, root: seq<nat>, root': seq<nat>, m: nat)
    requires GeometryOk(g, |d|) && GeometryOk(g, |d'|) && InRange(g, root) && InRange(g, root')
  {
    && 1 <= m <= |root| && m <= |root'| && root'[..m] == root[..m]
    && (m < |root| ==> 16 * Span(g.spc, m) <= FreeFrom(Root(d, g, root), 0))
    && FilesUpTo(Root(d, g, root), Root(d', g, root'), 16 * Span(g.spc, m))
    && FilesKept(d, d', g, Root(d, g, root))
  }

  /** Every cluster that was in use holds what it held. */
  ghost predicate BlocksKept(d: seq<Sector>, d': seq<Sector>, g: Geometry, chains: seq<seq<nat>>)
    requires GeometryOk(g, |d|) && GeometryOk(g, |d'|)
  {
    forall i | 0 <= i < |chains| :: InRange(g, chains[i]) && Blocks(d', g, chains[i]) == Blocks(d, g, chains[i])
  }

  lemma FreshCluster(fat: seq<nat>, chains: seq<seq<nat>>, c: nat)
    requires ChainsOk(fat, chains) && c < |fat| && fat[c] == 0
    ensures forall i | 0 <= i < |chains| :: c !in chains[i]
  {
    forall i, j | 0 <= i < |chains| && 0 <= j < |chains[i]| ensures chains[i][j] != c {
      LinkedNotFree(fat, chains[i], j);
    }
  }

  /** Linking and part of the zeroing: only the claimed cluster's sectors change. */
  lemma GrowthBlocks(d: seq<Sector>, d1: seq<Sector>, d2: seq<Sector>, g: Geometry, chains: seq<seq<nat>>, c: nat,
                     upTo: nat)
    requires GeometryOk(g, |d|) && DataSame(d, d1, g) && ChainsOk(Fat(d, g), chains)
    requires 2 <= c <= g.maxCluster && Fat(d, g)[c] == 0 && upTo <= g.spc && Zeroed(d1, d2, g, c, upTo)
    ensures |d2| == |d| && Fat(d2, g) == Fat(d1, g) && BlocksKept(d, d2, g, chains)
  {
    hide Fat, Blocks, Zeroed, ChainsOk;
    FreshCluster(Fat(d, g), chains, c);
    ZeroedFrame(d1, d2, g, c, upTo, []);
    forall i | 0 <= i < |chains| ensures InRange(g, chains[i]) && Blocks(d2, g, chains[i]) == Blocks(d, g, chains[i]) {
      ChainsInRange(d, g, chains, i);
      BlocksSame(d, d1, g, chains[i]);
      ZeroedFrame(d1, d2, g, c, upTo, chains[i]);
    }
  }

  lemma LinkBlocks(d: seq<Sector>, d': seq<Sector>, g: Geometry, chains: seq<seq<nat>>)
    requires GeometryOk(g, |d|) && DataSame(d, d', g) && ChainsOk(Fat(d, g), chains)
    ensures BlocksKept(d, d', g, chains)
  {
    hide Fat, Blocks, ChainsOk;
    forall i | 0 <= i < |chains| ensures InRange(g, chains[i]) && Blocks(d', g, chains[i]) == Blocks(d, g, chains[i]) {
      ChainsInRange(d, g, chains, i);
      BlocksSame(d, d', g, chains[i]);
    }
  }

  /** Chains that agree on their first `m` clusters agree on the directory entries in them. */
  lemma PrefixEntry(d: seq<Sector>, g: Geometry, root: seq<nat>, root': seq<nat>, m: nat, k: nat)
    requires GeometryOk(g, |d|) && InRange(g, root) && InRange(g, root')
    requires m <= |root| && m <= |root'| && root'[..m] == root[..m] && k < 16 * Span(g.spc, m)
    ensures k < |Root(d, g, root)| && k < |Root(d, g, root')| && Root(d, g, root')[k] == Root(d, g, root)[k]
  {
    hide Blocks, Span, Quot, Rem, ChainSector;
    var q := k / 16;
    SpanMono(g.spc, m, |root|);
    SpanMono(g.spc, m, |root'|);
    QuotLt(q, g.spc, m);
    assert root[Quot(q, g.spc)] == root[..m][Quot(q, g.spc)] == root'[Quot(q, g.spc)];
    BlockAt(d, g, root, q);
    BlockAt(d, g, root', q);
    SameSector(g, root, root', q);
  }

  lemma SameSector(g: Geometry, root: seq<nat>, root': seq<nat>, q: nat)
    requires g.spc > 0 && Quot(q, g.spc) < |root| && Quot(q, g.spc) < |root'|
             && 2 <= root[Quot(q, g.spc)] == root'[Quot(q, g.spc)]
    ensures ChainSector(g, root, q) == ChainSector(g, root', q)
  {
  }

  lemma KeptFile(d: seq<Sector>, d': seq<Sector>, g: Geometry, chains: seq<seq<nat>>, chains': seq<seq<nat>>,
                 start: nat, size: nat)
    requires GeometryOk(g, |d|) && GeometryOk(g, |d'|) && ChainsOk(Fat(d, g), chains) && ChainsOk(Fat(d', g), chains')
    requires Kept(chains, chains', 0) && BlocksKept(d, d', g, chains) && (start == 0 || Heads(chains, start))
    ensures SameFile(d, d', g, start, size)
  {
    hide Fat, Chain, FileContent, ChainsOk, Blocks;
    if start == 0 {
      EmptyFile(d, d', g, size);
    } else {
      var i :| 1 <= i < |chains| && |chains[i]| > 0 && chains[i][0] == start;
      KeepsContent(d, d', g, chains, chains', i, size);
    }
  }

  /** Whatever was linked, claimed or zeroed: the files survive, and the entries before the cut. */
  lemma GrowthSurvives(d: seq<Sector>, d': seq<Sector>, g: Geometry, chains: seq<seq<nat>>, chains': seq<seq<nat>>,
                       m: nat)
    requires GeometryOk(g, |d|) && GeometryOk(g, |d'|) && ChainsOk(Fat(d', g), chains') && Structure(d, g, chains)
    requires Kept(chains, chains', 0) && BlocksKept(d, d', g, chains)
    requires 1 <= m <= |chains[0]| && m <= |chains'[0]| && chains'[0][..m] == chains[0][..m]
    requires m < |chains[0]| ==> 16 * Span(g.spc, m) <= FreeFrom(Root(d, g, chains[0]), 0)
    ensures InRange(g, chains'[0]) && Survives(d, d', g, chains[0], chains'[0], m)
  {
    hide Fat, ChainsOk, Blocks, Span, FreeFrom, EntStart, EntSize, Mirrored, Covered, EndMarked, SameFile;
    ChainsInRange(d', g, chains', 0);
    var es, es' := Root(d, g, chains[0]), Root(d', g, chains'[0]);
    SpanMono(g.spc, m, |chains[0]|);
    SpanMono(g.spc, m, |chains'[0]|);
    forall k | 0 <= k < 16 * Span(g.spc, m) ensures es'[k] == es[k] {
      PrefixEntry(d', g, chains[0], chains'[0], m, k);
    }
    forall k | 0 <= k < |es| && IsFile(es[k]) ensures SameFile(d, d', g, EntStart(es[k]), EntSize(es[k])) {
      KeptFile(d, d', g, chains, chains', EntStart(es[k]), EntSize(es[k]));
    }
  }

  lemma NothingSurvives(d: seq<Sector>, g: Geometry, root: seq<nat>)
    requires GeometryOk(g, |d|) && InRange(g, root) && |root| > 0
    ensures Survives(d, d, g, root, root, |root|)
  {
    hide Fat, Chain, Root;
  }

  /** Writing an entry where no kept file has one keeps every kept file. */
  lemma EntrySurvives(d: seq<Sector>, d1: seq<Sector>, g: Geometry, chains: seq<seq<nat>>, chains': seq<seq<nat>>,
                      m: nat, k: nat, loc: DirLoc, e: Entry)
    requires Structure(d, g, chains) && GeometryOk(g, |d|) && GeometryOk(g, |d1|) && ChainsOk(Fat(d1, g), chains')
    requires Kept(chains, chains', 0) && |chains'| > 0 && InRange(g, chains'[0])
    requires Survives(d, d1, g, chains[0], chains'[0], m)
    requires k < |Root(d1, g, chains'[0])| && At(g, chains'[0], loc, k)
    requires k < 16 * Span(g.spc, m) ==> !IsFile(Root(d, g, chains[0])[k])
    ensures loc.sector < |d1| && loc.offset + 32 <= 512
    ensures Survives(d, d1[loc.sector := Patch(d1[loc.sector], loc.offset, e)], g, chains[0], chains'[0], m)
  {
    hide Fat, ChainsOk, Root, Span, FreeFrom, EntStart, EntSize, At, Patch, SameFile, Kept, Heads, Mirrored, Covered,
         EndMarked;
    EntryWrite(d1, g, chains', k, loc, e);
    var d2 := d1[loc.sector := Patch(d1[loc.sector], loc.offset, e)];
    var es := Root(d, g, chains[0]);
    forall j | 0 <= j < |es| && IsFile(es[j]) ensures SameFile(d, d2, g, EntStart(es[j]), EntSize(es[j])) {
      assert SameFile(d, d1, g, EntStart(es[j]), EntSize(es[j]));
      assert EntStart(es[j]) == 0 || Heads(chains, EntStart(es[j]));
      if EntStart(es[j]) != 0 {
        HeadsKept(chains, chains', 0, EntStart(es[j]));
      }
      EntryKeepsFile(d1, g, chains', k, loc, e, EntStart(es[j]), EntSize(es[j]));
      SameTwice(d, d1, d2, g, EntStart(es[j]), EntSize(es[j]));
    }
  }

  lemma SameTwice(d: seq<Sector>, d1: seq<Sector>, d2: seq<Sector>, g: Geometry, start: nat, size: nat)
    requires GeometryOk(g, |d|) && GeometryOk(g, |d1|) && GeometryOk(g, |d2|)
    requires SameFile(d, d1, g, start, size) && SameFile(d1, d2, g, start, size)
    ensures SameFile(d, d2, g, start, size)
  {
  }

  // ----- the directory after a cut -----

  /** The root chain cut after cluster `i` and continued by a zeroed one: the directory is what came
      before the cut, followed by blank entries. */
  lemma CutRoot(d: seq<Sector>, d1: seq<Sector>, d2: seq<Sector>, g: Geometry, chains: seq<seq<nat>>, c: nat, i: nat)
    requires GeometryOk(g, |d|) && ChainsOk(Fat(d, g), chains) && |chains| > 0 && InRange(g, chains[0])
    requires DataSame(d, d1, g) && 2 <= c <= g.maxCluster && Fat(d, g)[c] == 0 && Zeroed(d1, d2, g, c, g.spc)
    requires i < |chains[0]| && 16 * Span(g.spc, i + 1) <= FreeFrom(Root(d, g, chains[0]), 0)
    ensures |d2| == |d| && InRange(g, chains[0][..i + 1] + [c])
    ensures Cut(Root(d, g, chains[0]), Root(d2, g, chains[0][..i + 1] + [c]), 16 * Span(g.spc, i + 1), true)
  {
    hide Fat, ChainsOk, Zeroed, Blocks, Span, FreeFrom, Zero;
    var p, n := chains[0][..i + 1], 16 * Span(g.spc, i + 1);
    FreshCluster(Fat(d, g), chains, c);
    assert InRange(g, p);
    ZeroedFrame(d1, d2, g, c, g.spc, p);
    BlocksSame(d, d1, g, p);
    ZeroedBlocks(d1, d2, g, c, p);
    EntsGrown(Blocks(d, g, p), g.spc);
    var zs := Ents(seq(g.spc, _ => Zero()));
    var es, es2 := Root(d, g, chains[0]), Root(d2, g, p + [c]);
    assert es2 == Root(d, g, p) + zs;
    forall k | 0 <= k < n ensures es2[k] == es[k] {
      PrefixEntry(d, g, chains[0], p, i + 1, k);
    }
    assert es2[..n] == es[..n] && es2[n..] == zs;
    BlankFree(zs);
    assert es2[n] == zs[0];
  }

  lemma BlankFree(zs: seq<Entry>)
    requires Blank(zs)
    ensures forall k | 0 <= k < |zs| :: Free(zs[k])
  {
  }

  lemma CutBehind(es: seq<Entry>, es1: seq<Entry>, k: nat, cut: bool)
    requires Cut(es, es1, k, cut)
    ensures cut ==> forall j | k <= j < |es1| :: !IsFile(es1[j])
  {
    if cut {
      forall j | k <= j < |es1| ensures !IsFile(es1[j]) {
        assert es1[k..][j - k] == es1[j];
      }
    }
  }

  /** A new entry in the free slot of such a directory: every start is still a chain of its own. */
  lemma CutStarts(es: seq<Entry>, es1: seq<Entry>, k: nat, cut: bool, name: Name, chains: seq<seq<nat>>,
                  chains': seq<seq<nat>>)
    requires Cut(es, es1, k, cut) && StartsOk(es, chains) && Kept(chains, chains', 0)
    ensures StartsOk(es1[k := NewEntry(name)], chains')
  {
    hide EntStart, Heads, NewEntry, Kept;
    var es' := es1[k := NewEntry(name)];
    NewEntryIs(name);
    CutBehind(es, es1, k, cut);
    forall j | 0 <= j < |es'| && j != k && IsFile(es'[j]) ensures j < |es| && es'[j] == es[j] {
      if j < k {
        assert es1[j] == es1[..k][j];
      }
    }
    forall j | 0 <= j < |es'| && IsFile(es'[j]) ensures EntStart(es'[j]) == 0 || Heads(chains', EntStart(es'[j])) {
      if j != k && EntStart(es'[j]) != 0 {
        HeadsKept(chains, chains', 0, EntStart(es'[j]));
      }
    }
  }

  /** Nothing is listed behind an end mark of that directory either. */
  lemma CutListed(es: seq<Entry>, es1: seq<Entry>, k: nat, cut: bool, name: Name)
    requires Cut(es, es1, k, cut) && Listed(es) && name[0] != 0x00
    ensures Listed(es1[k := NewEntry(name)])
  {
    hide EntStart, EntSize, NewEntry, IsFile;
    var es' := es1[k := NewEntry(name)];
    NewEntryIs(name);
    CutBehind(es, es1, k, cut);
    forall j | 0 <= j < k ensures es'[j] == es[j] && !Free(es'[j]) {
      assert es1[j] == es1[..k][j];
    }
    forall j, j' | 0 <= j < j' < |es'| && es'[j][0] == 0x00 ensures es'[j'][0] == 0x00 {
      assert j > k;
      if cut {
        assert es1[k..][j' - k] == es1[j'];
      }
    }
  }
}
