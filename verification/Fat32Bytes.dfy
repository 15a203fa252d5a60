/**
 What the open file's bytes are after its chain was extended or cut, its sectors were patched and
 its size was recorded, with no assumption that the chain covers the size.
 */
module Fat32Bytes {
  import opened Bytes
  import opened Fat32Volume
  import opened Fat32Steps

  lemma SetFatFrame(d: seq<Sector>, g: Geometry, copy: nat, c: nat, v: nat)
    requires GeometryOk(g, |d|) && copy < 2 && c <= g.maxCluster
    ensures DataSame(d, SetFat(d, g, copy, c, v), g)
  {
  }

  /** The effect of a FAT update on table, mirror and data, both copies written. */
  lemma SetBothEffect(d: seq<Sector>, g: Geometry, c: nat, v: nat)
    requires GeometryOk(g, |d|) && c <= g.maxCluster && v < 0x1000_0000
    ensures Fat(SetBoth(d, g, c, v), g) == Fat(d, g)[c := v]
    ensures DataSame(d, SetBoth(d, g, c, v), g)
    ensures Mirrored(d, g) ==> Mirrored(SetBoth(d, g, c, v), g)
  {
    FatAfterSet(d, g, c, v);
    FatAfterMirror(SetFat(d, g, 0, c, v), g, c, v);
    SetFatFrame(d, g, 0, c, v);
    SetFatFrame(SetFat(d, g, 0, c, v), g, 1, c, v);
    if Mirrored(d, g) {
      MirrorAfterBoth(d, g, c, v);
    }
  }

  lemma {:induction false} BlocksJoined(d: seq<Sector>, g: Geometry, a: seq<nat>, b: seq<nat>)
    requires GeometryOk(g, |d|) && InRange(g, a + b)
    ensures InRange(g, a) && InRange(g, b)
    ensures Blocks(d, g, a + b) == Blocks(d, g, a) + Blocks(d, g, b)
    decreases |b|
  {
    hide ClusterBlocks, Span, GeometryOk;
    forall j | 0 <= j < |a| ensures 2 <= a[j] <= g.maxCluster {
      assert (a + b)[j] == a[j];
    }
    forall j | 0 <= j < |b| ensures 2 <= b[j] <= g.maxCluster {
      assert (a + b)[|a| + j] == b[j];
    }
    if b == [] {
      assert a + b == a;
    } else {
      var p, c := b[..|b| - 1], b[|b| - 1];
      assert (a + b)[..|a + b| - 1] == a + p && (a + b)[|a + b| - 1] == c;
      BlocksJoined(d, g, a, p);
    }
  }

  // ----- the chain extended or cut -----

  /** The chains agree on their first `m` clusters. */
  ghost predicate Shares(ch: seq<nat>, ch': seq<nat>, m: nat) {
    m <= |ch| && m <= |ch'| && ch'[..m] == ch[..m]
  }

  /** Whatever became of a chain behind its first `m` clusters: the bytes in those are as they were. */
  lemma KeptBytes(d0: seq<Sector>, d: seq<Sector>, g: Geometry, file0: OpenFile, file: OpenFile, m: nat)
    requires GeometryOk(g, |d0|) && DataSame(d0, d, g)
    requires InRange(g, FileChain(d0, g, file0)) && InRange(g, FileChain(d, g, file)) && file.size == file0.size
    requires Shares(FileChain(d0, g, file0), FileChain(d, g, file), m)
    ensures BytesKept(Stored(d0, g, file0), Stored(d, g, file), 512 * Span(g.spc, m), 0, 0)
  {
    hide Fat, Chain, Blocks, Content, Span, BytesKept;
    var ch0, ch := FileChain(d0, g, file0), FileChain(d, g, file);
    var p := ch0[..m];
    assert ch0 == p + ch0[m..] && ch == p + ch[m..];
    BlocksJoined(d0, g, p, ch0[m..]);
    BlocksJoined(d, g, p, ch[m..]);
    BlocksSame(d0, d, g, p);
    ContentAgrees(Blocks(d0, g, ch0), Blocks(d, g, ch), Span(g.spc, m), file.size);
  }

  /** The cluster `c`, free before, linked behind cluster `j` of the chain. */
  ghost predicate LinkedBehind(d: seq<Sector>, d': seq<Sector>, g: Geometry, chains: seq<seq<nat>>, me: nat, j: nat,
                               c: nat)
    requires GeometryOk(g, |d|)
  {
    && DataSame(d, d', g) && ChainsOk(Fat(d, g), chains) && me < |chains| && j < |chains[me]|
    && 2 <= c <= g.maxCluster && Fat(d, g)[c] == 0
    && chains[me][j] < |Fat(d, g)| && Fat(d', g) == Fat(d, g)[c := EOC_MIN][chains[me][j] := c]
  }

  /** The chain ends with the new cluster then: what came behind is off it. */
  lemma LinkedChain(d: seq<Sector>, d': seq<Sector>, g: Geometry, chains: seq<seq<nat>>, me: nat, j: nat, c: nat)
    requires GeometryOk(g, |d|) && LinkedBehind(d, d', g, chains, me, j, c)
    ensures InRange(g, chains[me]) && InRange(g, chains[me][..j + 1] + [c])
    ensures Chain(Fat(d, g), chains[me][0]) == chains[me]
    ensures Chain(Fat(d', g), chains[me][0]) == chains[me][..j + 1] + [c]
  {
    hide Fat, Chain, ChainsOk;
    var fat, chains1 := Fat(d, g), chains + [[c]];
    ClaimKeeps(fat, chains, c);
    LinkKeeps(fat[c := EOC_MIN], chains1, me, j, c);
    var chains2 := Relink(chains1, me, j);
    assert chains2[me] == chains[me][..j + 1] + [c];
    ChainIs(fat, chains, me);
    ChainIs(Fat(d', g), chains2, me);
    ChainsInRange(d, g, chains, me);
    ChainsInRange(d', g, chains2, me);
  }

  /** Linking a free cluster behind cluster `j` in mid-chain keeps the stored content if and only if the
      content ends before the link, or it ends within one more cluster and the free cluster happens
      to hold those bytes. */
  lemma LinkExact(d: seq<Sector>, d': seq<Sector>, g: Geometry, chains: seq<seq<nat>>, file: OpenFile, me: nat, j: nat,
                  c: nat)
    requires GeometryOk(g, |d|) && LinkedBehind(d, d', g, chains, me, j, c) && j + 1 < |chains[me]|
    requires chains[me][0] == file.start
    ensures 2 <= chains[me][j + 1] <= g.maxCluster
    ensures var n, kept := |Stored(d, g, file)|, 512 * Span(g.spc, j + 1);
            Stored(d', g, file) == Stored(d, g, file) <==>
            || n <= kept
            || (&& n <= kept + 512 * g.spc
                && Content(ClusterBlocks(d, g, c), n - kept) ==
                   Content(ClusterBlocks(d, g, chains[me][j + 1]), n - kept))
  {
    hide Fat, Chain, ChainsOk, Blocks, ClusterBlocks, Content, Span;
    LinkedChain(d, d', g, chains, me, j, c);
    var ch, p, next := chains[me], chains[me][..j + 1], chains[me][j + 1];
    var rest := ch[j + 2..];
    assert ch == p + ([next] + rest) && ch[j + 1..] == [next] + rest;
    BlocksJoined(d, g, p, [next] + rest);
    BlocksJoined(d, g, [next], rest);
    BlocksSame(d, d', g, p + [c]);
    BlocksJoined(d, g, p, [c]);
    OneBlock(d, g, next);
    OneBlock(d, g, c);
    var kept, behind, others := Blocks(d, g, p), ClusterBlocks(d, g, next) + Blocks(d, g, rest), ClusterBlocks(d, g, c);
    ContentCut(kept, behind, others, file.size);
    ContentLength(kept + behind, file.size);
    if file.size > 512 * |kept| {
      ContentFirst(ClusterBlocks(d, g, next), Blocks(d, g, rest), others, file.size - 512 * |kept|);
    }
  }

  lemma OneBlock(d: seq<Sector>, g: Geometry, c: nat)
    requires GeometryOk(g, |d|) && 2 <= c <= g.maxCluster
    ensures InRange(g, [c]) && Blocks(d, g, [c]) == ClusterBlocks(d, g, c)
  {
    assert [c][..0] == [];
  }

  lemma ContentLength(bs: seq<Sector>, size: nat)
    ensures |Content(bs, size)| == Min(size, 512 * |bs|)
  {
  }

  /** Sectors `others` hold the same content as `first + rest`, which starts with as many, if and only if
      it ends within `first` and they hold that. */
  lemma ContentFirst(first: seq<Sector>, rest: seq<Sector>, others: seq<Sector>, size: nat)
    requires |others| == |first|
    ensures var n := Min(size, 512 * (|first| + |rest|));
            Content(others, size) == Content(first + rest, size) <==>
            n <= 512 * |first| && Content(others, n) == Content(first, n)
  {
    ContentJoined(first, rest, size);
    var n := Min(size, 512 * (|first| + |rest|));
    if n <= 512 * |first| {
      assert Content(others, size) == Content(others, n);
      if size > 512 * |first| {
        assert Content(rest, size - 512 * |first|) == [];
      }
      assert Content(first + rest, size) == Content(first, n);
    }
  }

  /** On any volume: a file that reaches into its third cluster loses the rest when a free cluster is
      linked behind its first, whatever any cluster holds and whatever is written afterwards. */
  lemma RelinkLoses(d: seq<Sector>, g: Geometry, chains: seq<seq<nat>>, file: OpenFile, slot: nat, me: nat, c: nat)
    requires Sound(d, g, chains, file, slot) && 1 <= me < |chains| && |chains[me]| > 0 && chains[me][0] == file.start
    requires |Stored(d, g, file)| > 512 * Span(g.spc, 2) && 2 <= c <= g.maxCluster && Fat(d, g)[c] == 0
    ensures file.start <= g.maxCluster
    ensures var d' := SetBoth(SetBoth(d, g, c, EOC_MIN), g, file.start, c);
            && FileChain(d', g, file) == [file.start, c]
            && forall d2: seq<Sector>, file2: OpenFile | SameChain(d', d2, g, file, file2) ::
                 |Stored(d2, g, file2)| <= 512 * Span(g.spc, 2) < |Stored(d, g, file)|
  {
    hide Fat, Chain, SetBoth, Span, Root, Stored, Linked, OpenAt, StartsOk, Disjoint;
    var d1 := SetBoth(d, g, c, EOC_MIN);
    SetBothEffect(d, g, c, EOC_MIN);
    LinkedNotFree(Fat(d, g), chains[me], 0);
    SetBothEffect(d1, g, file.start, c);
    var d' := SetBoth(d1, g, file.start, c);
    LinkedChain(d, d', g, chains, me, 0, c);
    assert chains[me][..1] + [c] == [file.start, c];
    forall d2: seq<Sector>, file2: OpenFile | SameChain(d', d2, g, file, file2)
      ensures |Stored(d2, g, file2)| <= 512 * Span(g.spc, 2)
    {
      StoredLength(d2, g, file2);
    }
  }

  ghost predicate SameChain(d: seq<Sector>, d2: seq<Sector>, g: Geometry, file: OpenFile, file2: OpenFile)
    requires GeometryOk(g, |d|)
  {
    GeometryOk(g, |d2|) && Fat(d2, g) == Fat(d, g) && file2.start == file.start
  }

  lemma StoredLength(d: seq<Sector>, g: Geometry, file: OpenFile)
    requires GeometryOk(g, |d|)
    ensures |Stored(d, g, file)| == Min(file.size, Capacity(d, g, file))
    ensures |Stored(d, g, file)| < file.size ==> |Stored(d, g, file)| % 512 == 0
  {
    hide Fat, Chain, Blocks, Content, Span;
  }

  // ----- a sector patched -----

  /** Patching the sector that holds `offset` and recording a size at least as large. */
  lemma StoredPatched(d: seq<Sector>, d2: seq<Sector>, g: Geometry, chains: seq<seq<nat>>, file: OpenFile,
                      file2: OpenFile, me: nat, offset: nat, data: seq<byte>, x: nat)
    requires GeometryOk(g, |d|) && ChainsOk(Fat(d, g), chains)
    requires me < |chains| && |chains[me]| > 0 && chains[me][0] == file.start && InRange(g, chains[me])
    requires offset / 512 < Span(g.spc, |chains[me]|) && Quot(offset / 512, g.spc) < |chains[me]|
    requires x == ChainSector(g, chains[me], offset / 512) < |d| && offset % 512 + |data| <= 512
    requires d2 == d[x := Patch(d[x], offset % 512, data)] && file2 == file.(size := file2.size)
    requires file.size <= file2.size
    ensures Fat(d2, g) == Fat(d, g)
    ensures BytesKept(Stored(d, g, file), Stored(d2, g, file2), file.size, offset, |data|)
    ensures ReadsBack(Stored(d2, g, file2), file2.size, offset, data)
  {
    hide Fat, Chain, ChainsOk, Blocks, Content, Span, Quot, ChainSector, Patch, BytesKept, ReadsBack;
    ChainIs(Fat(d, g), chains, me);
    DataWrite(d, g, chains, me, offset / 512, Patch(d[x], offset % 512, data), me);
    BlockAt(d, g, chains[me], offset / 512);
    ContentPatched(Blocks(d, g, chains[me]), file.size, file2.size, offset, data);
  }

  lemma SharesLess(a: seq<nat>, b: seq<nat>, c: seq<nat>, m: nat, n: nat)
    requires Shares(a, b, m) && (b <= c || Shares(b, c, n))
    ensures Shares(a, c, if b <= c then m else Min(m, n))
  {
    var k := if b <= c then m else Min(m, n);
    assert c[..k] == b[..k] == b[..m][..k] == a[..m][..k] by {
      if !(b <= c) {
        assert c[..k] == c[..n][..k] && b[..k] == b[..n][..k];
      }
    }
  }

  lemma BytesTrans(a: seq<byte>, b: seq<byte>, c: seq<byte>, upTo: nat, size: nat, offset: nat, n: nat)
    requires BytesKept(a, b, upTo, 0, 0) && BytesKept(b, c, size, offset, n) && |b| <= size
    ensures BytesKept(a, c, upTo, offset, n)
  {
  }

  /** A write of `n` bytes at `offset` has left the file's first `m` clusters in its chain, and every
      other byte in them as it was. */
  ghost predicate KeptBefore(d: seq<Sector>, d': seq<Sector>, g: Geometry, file: OpenFile, file': OpenFile, m: nat,
                             offset: nat, n: nat)
    requires GeometryOk(g, |d|) && GeometryOk(g, |d'|)
  {
    && Shares(FileChain(d, g, file), FileChain(d', g, file'), m) && (m >= 1 || FileChain(d, g, file) == [])
    && BytesKept(Stored(d, g, file), Stored(d', g, file'), 512 * Span(g.spc, m), offset, n)
  }

  lemma KeptAll(d: seq<Sector>, g: Geometry, file: OpenFile, offset: nat, n: nat)
    requires GeometryOk(g, |d|)
    ensures KeptBefore(d, d, g, file, file, |FileChain(d, g, file)|, offset, n)
  {
    hide Fat, Chain, Stored, Span;
  }

  lemma KeptAgain(d: seq<Sector>, d1: seq<Sector>, d2: seq<Sector>, g: Geometry, file: OpenFile, file1: OpenFile,
                  file2: OpenFile, m: nat, offset: nat, n: nat)
    requires GeometryOk(g, |d|) && GeometryOk(g, |d1|) && KeptBefore(d, d1, g, file, file1, m, 0, 0)
    requires SameChain(d1, d2, g, file1, file2)
    requires BytesKept(Stored(d1, g, file1), Stored(d2, g, file2), file1.size, offset, n)
    ensures KeptBefore(d, d2, g, file, file2, m, offset, n)
  {
    StoredLength(d1, g, file1);
    hide Fat, Chain, Stored, Span;
    BytesTrans(Stored(d, g, file), Stored(d1, g, file1), Stored(d2, g, file2), 512 * Span(g.spc, m), file1.size, offset,
               n);
  }
}
