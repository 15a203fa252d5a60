/**
 The file server's operations, as they run: one sector buffer, sectors read, patched and
 written back one at a time, every transfer able to fail.
 */
module Fat32Server {
  import opened Bytes
  import opened Fat32Volume
  import opened Fat32Steps
  import opened Fat32Bytes

  /** The server's split of a byte offset into cluster, sector and byte agrees with counting
      whole sectors first. */
  lemma SplitOffset(o: nat, spc: nat)
    requires spc > 0
    ensures o / (spc * 512) == Quot(o / 512, spc)
    ensures o % (spc * 512) / 512 == Rem(o / 512, spc)
    ensures o % (spc * 512) % 512 == o % 512
  {
    var q, r := o / 512, o % 512;
    var a, b := Quot(q, spc), Rem(q, spc);
    QuotRem(q, spc);
    SpanIsMul(spc, a);
    assert a * (spc * 512) == 512 * (a * spc);
    DivUnique(o, spc * 512, a, 512 * b + r);
  }

  ghost predicate NoneFree(fat: seq<nat>) {
    forall c | 2 <= c < |fat| :: fat[c] != 0
  }

  /** `c` was free and no other free cluster was claimed with it. */
  ghost predicate Claimed(fat: seq<nat>, fat': seq<nat>, c: nat) {
    && 2 <= c < |fat| == |fat'| && fat[c] == 0 && fat'[c] != 0
    && forall k | 0 <= k < |fat| && k != c && fat[k] == 0 :: fat'[k] == 0
  }

  lemma KeptTrans(chains: seq<seq<nat>>, chains1: seq<seq<nat>>, chains2: seq<seq<nat>>, me: nat)
    requires Kept(chains, chains1, me) && Kept(chains1, chains2, me)
    ensures Kept(chains, chains2, me)
  {
  }

  /** What a walk to cluster `ci` of chain `ch` does when no transfer fails: nothing, if the chain
      is long enough; else it adds one cluster, unless none is free. */
  ghost predicate Sought(d: seq<Sector>, d': seq<Sector>, g: Geometry, chains: seq<seq<nat>>, chains': seq<seq<nat>>,
                         ch: seq<nat>, ch': seq<nat>, ci: nat, ok: bool, cluster: nat)
    requires GeometryOk(g, |d|) && GeometryOk(g, |d'|)
  {
    if ok && ci < |ch| then d' == d && chains' == chains && ch' == ch
    else if ok then ch' == ch + [cluster] && Claimed(Fat(d, g), Fat(d', g), cluster)
    else d' == d && chains' == chains && ci == |ch| && NoneFree(Fat(d, g))
  }

  /** What a write does when no transfer fails. It transfers `n` bytes, as many as fit in the
      addressed sector, and nothing exactly when the offset lies past the end, nothing was asked
      for, or a cluster is needed and none is free. The content becomes the old one with those
      bytes spliced in (their tail cut off if the new end wraps around), and at most one free
      cluster is claimed. */
  ghost predicate Written(d: seq<Sector>, d': seq<Sector>, g: Geometry, file: OpenFile, file': OpenFile, offset: nat,
                          len: nat, client: seq<byte>, n: nat)
    requires GeometryOk(g, |d|) && GeometryOk(g, |d'|)
  {
    && (n == 0 || n == Min(len, 512 - offset % 512)) && n <= |client|
    && (n == 0 <==> offset > file.size || len == 0 || (offset == Capacity(d, g, file) && NoneFree(Fat(d, g))))
    && (n == 0 && len > 0 ==> d' == d && file' == file)
    && (offset <= file.size <= |Stored(d, g, file)| ==>
          Stored(d', g, file') == if offset + n < U32 then Splice(Stored(d, g, file), offset, client[..n])
                                  else Splice(Stored(d, g, file), offset, client[..n])[..file.size])
    && AtMostOneClaim(Fat(d, g), Fat(d', g))
  }

  /** A walk that found its cluster leaves the stored content as it was, in a chain that holds it. */
  lemma SeekContent(d: seq<Sector>, d': seq<Sector>, g: Geometry, chains: seq<seq<nat>>, chains': seq<seq<nat>>,
                    file: OpenFile, file': OpenFile, slot: nat, me: nat, ci: nat, cluster: nat)
    requires GeometryOk(g, |d|) && GeometryOk(g, |d'|) && Mirrored(d', g)
    requires |chains| > 0 && |chains'| > 0 && chains'[0] == chains[0] && InRange(g, chains'[0])
             && OthersKept(d, d', g, chains'[0], slot)
    requires Good(d, g, chains, file, slot) && Sound(d', g, chains', file', slot)
    requires DataSame(d, d', g) && me < |chains'| && |chains'[me]| > 0 && chains'[me][0] == file'.start
    requires file'.size == file.size && (d' == d ==> file' == file)
    requires Sought(d, d', g, chains, chains', FileChain(d, g, file), chains'[me], ci, true, cluster)
    ensures FileChain(d', g, file') == chains'[me] && Midway(d, d', g, chains, chains', file, file', slot)
    ensures Stored(d', g, file') == Stored(d, g, file) && file.size <= Capacity(d', g, file')
    ensures AtMostOneClaim(Fat(d, g), Fat(d', g))
    ensures ci == |FileChain(d, g, file)| ==> !NoneFree(Fat(d, g))
  {
    hide Root, Fat, StartsOk, Listed, OpenAt, Blocks, Content, Mirrored;
    GoodCovered(d, g, chains, file, slot);
    ChainIs(Fat(d', g), chains', me);
    if ci >= |FileChain(d, g, file)| {
      GrowthKeeps(d, d', g, FileChain(d, g, file), chains'[me], cluster, file.size);
    }
  }

  ghost predicate AtMostOneClaim(fat: seq<nat>, fat': seq<nat>) {
    && |fat| == |fat'|
    && forall c, c' | 0 <= c < |fat| && 0 <= c' < |fat| ::
         fat[c] == 0 && fat[c'] == 0 && fat'[c] != 0 && fat'[c'] != 0 ==> c == c'
  }

  function NewSize(size: nat, offset: nat, n: nat): (r: nat)
    requires size < U32
    ensures r < U32
  {
    var newEnd := (offset + n) % 0x1_0000_0000;
    if newEnd > size then newEnd else size
  }

  lemma NewSizeIs(size: nat, offset: nat, n: nat)
    requires offset <= size < U32 && n <= 512
    ensures NewSize(size, offset, n) == if offset + n >= U32 then size else if offset + n > size then offset + n
            else size
  {
  }

  /** A write stores exactly the splice unless the new end reaches 2^32: the 32-bit sum then wraps
      around, the size stays, and the bytes past the old end are lost although they were counted. */
  lemma WrapExact(d: seq<Sector>, d': seq<Sector>, g: Geometry, file: OpenFile, file': OpenFile, offset: nat, len: nat,
                  client: seq<byte>, n: nat)
    requires GeometryOk(g, |d|) && GeometryOk(g, |d'|) && Written(d, d', g, file, file', offset, len, client, n)
    requires offset <= file.size < U32 && |Stored(d, g, file)| == file.size
    ensures Stored(d', g, file') == Splice(Stored(d, g, file), offset, client[..n]) <==> offset + n < U32
  {
    hide Stored, Fat, Capacity;
    if offset + n >= U32 {
      assert |Stored(d', g, file')| == file.size < |Splice(Stored(d, g, file), offset, client[..n])|;
    }
  }

  /** A file of any size whose end the write reaches 2^32 from: the bytes appended are counted as written,
      and the content stays as it was. Of the largest file this is so for the next byte. */
  lemma LastByteLost(d: seq<Sector>, d': seq<Sector>, g: Geometry, file: OpenFile, file': OpenFile, len: nat,
                     client: seq<byte>, n: nat)
    requires GeometryOk(g, |d|) && GeometryOk(g, |d'|)
    requires Written(d, d', g, file, file', file.size, len, client, n)
    requires file.size == |Stored(d, g, file)| && file.size < U32 <= file.size + n
    ensures n > 0 && Stored(d', g, file') == Stored(d, g, file) && (file.size == U32 - 1 ==> n == 1)
  {
    hide Stored, Fat, Capacity;
    var s := Stored(d, g, file);
    assert file.size == U32 - 1 ==> file.size % 512 == 511;
    assert Splice(s, file.size, client[..n])[..file.size] == s;
  }

  /** Sector `x` is where chain `me`, the open file's, keeps the byte at `offset`. */
  ghost predicate Found(d: seq<Sector>, g: Geometry, chains: seq<seq<nat>>, file: OpenFile, me: nat, offset: nat,
                        x: nat)
    requires GeometryOk(g, |d|)
  {
    && 1 <= me < |chains| && |chains[me]| > 0 && chains[me][0] == file.start != 0
    && FileChain(d, g, file) == chains[me] && InRange(g, chains[me])
    && offset / 512 < Span(g.spc, |chains[me]|) && Quot(offset / 512, g.spc) < |chains[me]|
    && x == ChainSector(g, chains[me], offset / 512) < |d|
  }

  /** Writing the addressed sector after a successful walk splices the data in. */
  lemma SpliceMidway(d0: seq<Sector>, d: seq<Sector>, g: Geometry, chains0: seq<seq<nat>>, chains: seq<seq<nat>>,
                     file0: OpenFile, file: OpenFile, slot: nat, me: nat, offset: nat, data: seq<byte>, x: nat,
                     d2: seq<Sector>)
    requires GeometryOk(g, |d|) && Found(d, g, chains, file, me, offset, x)
    requires offset <= file.size < U32 && offset % 512 + |data| <= 512
    requires Midway(d0, d, g, chains0, chains, file0, file, slot)
    requires d2 == d[x := Patch(d[x], offset % 512, data)]
    ensures Midway(d0, d2, g, chains0, chains, file0, file.(size := NewSize(file.size, offset, |data|)), slot)
    ensures Spliced(d, d2, g, file, file.(size := NewSize(file.size, offset, |data|)), offset, data)
  {
    SpliceStored(d, g, chains, file, me, offset, data, x, d2);
    hide Root, Fat, Blocks, Content, Mirrored, Chain, ChainsOk, StartsOk, Listed, OthersKept, Patch, Splice, Span, Quot,
         NewSize, Good, Spliced;
    DataWrite(d, g, chains, me, offset / 512, Patch(d[x], offset % 512, data), me);
    DataStep(d, g, chains, me, offset / 512, Patch(d[x], offset % 512, data), file, slot);
    OthersTrans(d0, d, d2, g, chains[0], slot);
    Resized(d2, g, chains, file, file.(size := NewSize(file.size, offset, |data|)), slot);
  }

  /** The stored bytes of `file'` on `d'` are those of `file` on `d` with `data` spliced in, cut to
      the old size if the new end does not fit in 32 bits. */
  ghost predicate Spliced(d: seq<Sector>, d': seq<Sector>, g: Geometry, file: OpenFile, file': OpenFile, offset: nat,
                          data: seq<byte>)
    requires GeometryOk(g, |d|) && GeometryOk(g, |d'|)
  {
    var was := Stored(d, g, file);
    && Fat(d', g) == Fat(d, g) && |was| == file.size && offset <= file.size
    && Stored(d', g, file') == if offset + |data| < U32 then Splice(was, offset, data)
       else Splice(was, offset, data)[..file.size]
  }

  lemma SpliceStored(d: seq<Sector>, g: Geometry, chains: seq<seq<nat>>, file: OpenFile, me: nat, offset: nat,
                     data: seq<byte>, x: nat, d2: seq<Sector>)
    requires GeometryOk(g, |d|) && Found(d, g, chains, file, me, offset, x) && ChainsOk(Fat(d, g), chains)
    requires offset <= file.size < U32 && offset % 512 + |data| <= 512 && file.size <= Capacity(d, g, file)
    requires d2 == d[x := Patch(d[x], offset % 512, data)]
    ensures Spliced(d, d2, g, file, file.(size := NewSize(file.size, offset, |data|)), offset, data)
    ensures NewSize(file.size, offset, |data|) <= Capacity(d2, g, file)
  {
    NewSizeIs(file.size, offset, |data|);
    hide Fat, Blocks, Content, Chain, ChainsOk, Patch, Splice, Span, Quot, NewSize;
    WriteSplices(d, g, chains, me, file.size, offset, data);
  }

  /** The server's sector arithmetic addresses the chain sector that holds the offset. */
  lemma SectorFound(d: seq<Sector>, g: Geometry, chains: seq<seq<nat>>, me: nat, offset: nat, ci: nat, cluster: nat,
                    sector: int)
    requires GeometryOk(g, |d|) && ChainsOk(Fat(d, g), chains) && me < |chains|
    requires ci == Quot(offset / 512, g.spc) < |chains[me]| && chains[me][ci] == cluster
    requires 2 <= cluster && sector == ClusterSector(g, cluster) + Rem(offset / 512, g.spc)
    ensures InRange(g, chains[me]) && offset / 512 < Span(g.spc, |chains[me]|)
    ensures sector == ChainSector(g, chains[me], offset / 512) && g.firstData <= sector < |d|
  {
    ChainsInRange(d, g, chains, me);
    QuotLt(offset / 512, g.spc, |chains[me]|);
    ChainSectorInDisk(g, |d|, chains[me], offset / 512);
  }

  lemma WroteNothing(d: seq<Sector>, g: Geometry, chains: seq<seq<nat>>, file: OpenFile, slot: nat, offset: nat,
                     len: nat, client: seq<byte>)
    requires Sound(d, g, chains, file, slot) && offset > file.size
    ensures Written(d, d, g, file, file, offset, len, client, 0)
  {
    hide Root, Fat, ChainsOk, StartsOk, Listed, OpenAt, FileContent, NoneFree;
  }

  lemma WroteNone(d: seq<Sector>, d': seq<Sector>, g: Geometry, chains: seq<seq<nat>>, chains': seq<seq<nat>>,
                  file: OpenFile, slot: nat, offset: nat, len: nat, client: seq<byte>, ci: nat, cluster: nat)
    requires Good(d, g, chains, file, slot) && offset <= file.size && GeometryOk(g, |d'|)
    requires ci == |FileChain(d, g, file)| ==> offset == Capacity(d, g, file)
    requires Sought(d, d', g, chains, chains', FileChain(d, g, file), [], ci, false, cluster)
    ensures d' == d && chains' == chains && Written(d, d, g, file, file, offset, len, client, 0)
  {
    GoodCovered(d, g, chains, file, slot);
    SpliceNothing(Stored(d, g, file), offset, client);
    hide Root, Fat, ChainsOk, StartsOk, Listed, OpenAt, FileContent, NoneFree, Splice, Volume;
  }

  /** The whole write, once the walk has found the cluster. */
  lemma WroteData(d0: seq<Sector>, d: seq<Sector>, d2: seq<Sector>, g: Geometry, chains0: seq<seq<nat>>,
                  chains: seq<seq<nat>>, file0: OpenFile, file: OpenFile, slot: nat, me: nat, offset: nat, len: nat,
                  client: seq<byte>, n: nat, x: nat)
    requires GeometryOk(g, |d0|) && GeometryOk(g, |d|) && file.size == file0.size < U32 && |client| == 512
    requires Found(d, g, chains, file, me, offset, x)
    requires Stored(d, g, file) == Stored(d0, g, file0) && AtMostOneClaim(Fat(d0, g), Fat(d, g))
    requires offset == Capacity(d0, g, file0) ==> !NoneFree(Fat(d0, g))
    requires offset <= file.size && n == Min(len, 512 - offset % 512)
    requires d2 == d[x := Patch(d[x], offset % 512, client[..n])]
    requires Midway(d0, d, g, chains0, chains, file0, file, slot)
    ensures var file2 := file.(size := NewSize(file.size, offset, n));
            && Fits(d2, file2) && Good(Persist(d2, file2), g, chains, file2, slot)
            && Written(d0, Persist(d2, file2), g, file0, file2, offset, len, client, n)
  {
    hide Root, Fat, ChainsOk, StartsOk, Listed, OpenAt, FileContent, NoneFree, Splice, Mirrored, OthersKept, Patch,
         Chain, NewSize, Span, Quot;
    SpliceMidway(d0, d, g, chains0, chains, file0, file, slot, me, offset, client[..n], x, d2);
    hide Good, Sound, Midway;
    Finish(d0, d2, g, chains0, chains, file0, file.(size := NewSize(file.size, offset, n)), slot);
  }

  /** The byte at `offset` has its place in chain `me`. */
  ghost predicate Holds(d: seq<Sector>, g: Geometry, chains: seq<seq<nat>>, me: nat, offset: nat) {
    && g.spc > 0 && me < |chains| && InRange(g, chains[me])
    && offset / 512 < Span(g.spc, |chains[me]|) && Quot(offset / 512, g.spc) < |chains[me]|
    && ChainSector(g, chains[me], offset / 512) < |d|
  }

  /** The disk with `data` in that place. */
  ghost function Deposited(d: seq<Sector>, g: Geometry, chains: seq<seq<nat>>, me: nat, offset: nat, data: seq<byte>)
    : (r: seq<Sector>)
    requires Holds(d, g, chains, me, offset) && offset % 512 + |data| <= 512
    ensures |r| == |d|
  {
    var x := ChainSector(g, chains[me], offset / 512);
    d[x := Patch(d[x], offset % 512, data)]
  }

  /** Walk, data sector and directory entry together. */
  lemma WroteGood(d0: seq<Sector>, d: seq<Sector>, g: Geometry, chains0: seq<seq<nat>>, chains: seq<seq<nat>>,
                  file0: OpenFile, file: OpenFile, slot: nat, me: nat, ci: nat, cluster: nat, offset: nat, len: nat,
                  client: seq<byte>, n: nat)
    requires GeometryOk(g, |d0|) && GeometryOk(g, |d|) && file.size == file0.size < U32 && |client| == 512
    requires DataSame(d0, d, g) && Mirrored(d, g) && (d == d0 ==> file == file0)
    requires 1 <= me < |chains| && |chains[me]| > 0 && chains[me][0] == file.start != 0
    requires |chains0| > 0 && chains[0] == chains0[0] && InRange(g, chains[0]) && OthersKept(d0, d, g, chains[0], slot)
    requires Sought(d0, d, g, chains0, chains, FileChain(d0, g, file0), chains[me], ci, true, cluster)
    requires offset == Capacity(d0, g, file0) ==> ci == |FileChain(d0, g, file0)|
    requires offset <= file.size && n == Min(len, 512 - offset % 512)
    requires Holds(d, g, chains, me, offset)
    requires Good(d0, g, chains0, file0, slot) && Sound(d, g, chains, file, slot)
    ensures var d2, file2 := Deposited(d, g, chains, me, offset, client[..n]),
            file.(size := NewSize(file.size, offset, n));
            && Fits(d2, file2) && Good(Persist(d2, file2), g, chains, file2, slot)
            && Written(d0, Persist(d2, file2), g, file0, file2, offset, len, client, n)
  {
    hide Sound, Good, Midway, OthersKept, Written, Sought, Fat, Chain, ChainsOk, Mirrored, FileContent, Span, Quot, Rem,
         Patch, NewSize;
    SeekContent(d0, d, g, chains0, chains, file0, file, slot, me, ci, cluster);
    var x := ChainSector(g, chains[me], offset / 512);
    WroteData(d0, d, Deposited(d, g, chains, me, offset, client[..n]), g, chains0, chains, file0, file, slot, me,
        offset,
              len, client, n, x);
  }

  lemma SpliceNothing(s: seq<byte>, o: nat, client: seq<byte>)
    requires o <= |s|
    ensures Splice(s, o, client[..0]) == s == s[..|s|]
  {
  }

  lemma Resized(d: seq<Sector>, g: Geometry, chains: seq<seq<nat>>, file: OpenFile, file': OpenFile, slot: nat)
    requires Sound(d, g, chains, file, slot) && file' == file.(size := file'.size) && file'.size < U32
    requires file.start == 0 ==> file'.size == 0
    ensures Sound(d, g, chains, file', slot)
  {
  }

  /** A read of what there is, of a sector's rest or of the request, whichever is least. */
  lemma ReadEnds(stored: nat, size: nat, offset: nat, len: nat, n: nat)
    requires stored <= size && offset < size && n == Min(Min(len, 512 - offset % 512), size - offset)
    requires offset + n <= stored && (stored < size ==> stored % 512 == 0)
    ensures n <= len && offset % 512 + n <= 512 && (n == len || (offset + n) % 512 == 0 || offset + n == stored)
    ensures len > 0 ==> n > 0
  {
  }

  lemma OwnChain(d: seq<Sector>, g: Geometry, chains: seq<seq<nat>>, file: OpenFile, slot: nat) returns (me: nat)
    requires Sound(d, g, chains, file, slot) && file.size > 0
    ensures GeometryOk(g, |d|) && ChainsOk(Fat(d, g), chains)
    ensures 1 <= me < |chains| && chains[me] == FileChain(d, g, file) && |chains[me]| > 0 && chains[me][0] == file.start
    ensures Linked(Fat(d, g), chains[me])
  {
    me :| 1 <= me < |chains| && |chains[me]| > 0 && chains[me][0] == file.start;
    ChainIs(Fat(d, g), chains, me);
  }

  /** A stretch of content that stays within one sector is that stretch of the sector. */
  lemma ContentSlice(bs: seq<Sector>, size: nat, o: nat, n: nat)
    requires o + n <= size && o % 512 + n <= 512 && o / 512 < |bs|
    ensures o + n <= |Content(bs, size)|
    ensures Content(bs, size)[o..o + n] == bs[o / 512][o % 512..o % 512 + n]
  {
    var c := Content(bs, size);
    forall p | o <= p < o + n ensures c[p] == bs[o / 512][p - o + o % 512] {
      assert p / 512 == o / 512 && p % 512 == o % 512 + (p - o);
    }
  }

  lemma ReadsContent(d: seq<Sector>, g: Geometry, chains: seq<seq<nat>>, file: OpenFile, me: nat, o: nat, n: nat)
    requires GeometryOk(g, |d|) && me < |chains| && InRange(g, chains[me]) && FileChain(d, g, file) == chains[me]
    requires o / 512 < Span(g.spc, |chains[me]|)
    requires o + n <= file.size && o % 512 + n <= 512
    ensures Quot(o / 512, g.spc) < |chains[me]| && ChainSector(g, chains[me], o / 512) < |d|
    ensures o + n <= |Stored(d, g, file)| == Min(file.size, Capacity(d, g, file))
    ensures Stored(d, g, file)[o..o + n] == d[ChainSector(g, chains[me], o / 512)][o % 512..o % 512 + n]
  {
    hide Fat, Chain, Blocks, ChainSector, Span, Quot, Content;
    BlockAt(d, g, chains[me], o / 512);
    ContentSlice(Blocks(d, g, chains[me]), file.size, o, n);
  }

  lemma ClaimTracked(fat: seq<nat>, chains: seq<seq<nat>>, c: nat)
    requires c < |fat|
    ensures Tracked(fat, chains) ==> Tracked(fat[c := EOC_MIN], chains + [[c]])
  {
    hide Tracked;
    if Tracked(fat, chains) {
      ClaimTracks(fat, chains, c);
    }
  }

  lemma LinkTracked(fat: seq<nat>, chains: seq<seq<nat>>, i: nat, j: nat, c: nat)
    requires i < |chains| - 1 && j < |chains[i]| && chains[i][j] < |fat|
    ensures Tracked(fat, chains) ==> Tracked(fat[chains[i][j] := c], Relink(chains, i, j))
  {
    hide Tracked, Relink;
    if Tracked(fat, chains) {
      LinkTracks(fat, chains, i, j, c);
    }
  }

  // ----- content under failures -----

  /** The content of the open file with `data` spliced in at `offset`, as far as 32 bits go; its
      clusters still cover it. */
  ghost predicate SplicedAnyhow(d: seq<Sector>, d': seq<Sector>, g: Geometry, file: OpenFile, file': OpenFile,
                                offset: nat, data: seq<byte>)
    requires GeometryOk(g, |d|) && GeometryOk(g, |d'|)
  {
    var was := Stored(d, g, file);
    && |was| == file.size && offset <= file.size && file'.size <= Capacity(d', g, file')
    && Stored(d', g, file') == if offset + |data| < U32 then Splice(was, offset, data)
       else Splice(was, offset, data)[..file.size]
  }

  /** The directory says what the server has in memory. */
  ghost predicate InStep(d: seq<Sector>, g: Geometry, chains: seq<seq<nat>>, file: OpenFile, slot: nat)
    requires GeometryOk(g, |d|) && |chains| > 0 && InRange(g, chains[0])
  {
    var es := Root(d, g, chains[0]);
    slot < |es| && EntStart(es[slot]) == file.start && EntSize(es[slot]) == file.size
  }

  lemma {:induction false} BlocksOfPrefix(d: seq<Sector>, g: Geometry, ch: seq<nat>, ch': seq<nat>)
    requires GeometryOk(g, |d|) && InRange(g, ch') && ch <= ch'
    ensures InRange(g, ch) && Span(g.spc, |ch|) <= Span(g.spc, |ch'|)
    ensures Blocks(d, g, ch) <= Blocks(d, g, ch')
    decreases |ch'|
  {
    if |ch'| == |ch| {
      assert ch' == ch;
    } else {
      var p, c := ch'[..|ch'| - 1], ch'[|ch'| - 1];
      assert ch' == p + [c];
      BlocksOfPrefix(d, g, ch, p);
      BlocksPrefix(d, g, p, c);
      SpanMono(g.spc, |ch|, |ch'|);
    }
  }

  /** A chain that was only extended stores what it stored. */
  lemma StoredGrows(d0: seq<Sector>, d: seq<Sector>, g: Geometry, file0: OpenFile, file: OpenFile)
    requires GeometryOk(g, |d0|) && DataSame(d0, d, g) && InRange(g, FileChain(d, g, file))
    requires FileChain(d0, g, file0) <= FileChain(d, g, file) && file.size == file0.size <= Capacity(d0, g, file0)
    ensures Stored(d, g, file) == Stored(d0, g, file0) && file.size <= Capacity(d, g, file)
    ensures |Stored(d0, g, file0)| == file0.size
  {
    hide Fat, Chain, Blocks, Content, Span;
    var ch, ch' := FileChain(d0, g, file0), FileChain(d, g, file);
    BlocksOfPrefix(d, g, ch, ch');
    BlocksSame(d0, d, g, ch);
    ContentPrefix(Blocks(d, g, ch), Blocks(d, g, ch'), file.size);
  }

  /** A write that went through without cutting the chain splices the content, whatever failed. */
  lemma WroteUncut(d0: seq<Sector>, d: seq<Sector>, g: Geometry, chains0: seq<seq<nat>>, chains: seq<seq<nat>>,
                   file0: OpenFile, file: OpenFile, slot: nat, me: nat, offset: nat, data: seq<byte>)
    requires GeometryOk(g, |d0|) && DataSame(d0, d, g) && Sound(d, g, chains, file, slot)
    requires 1 <= me < |chains| && |chains[me]| > 0 && chains[me][0] == file.start != 0
    requires Holds(d, g, chains, me, offset) && offset % 512 + |data| <= 512
    requires FileChain(d0, g, file0) <= FileChain(d, g, file) && file.size == file0.size <= Capacity(d0, g, file0)
    requires offset <= file.size < U32
    ensures var d2, file2 := Deposited(d, g, chains, me, offset, data),
            file.(size := NewSize(file.size, offset, |data|));
            && Fits(d2, file2) && |chains| > 0 && InRange(g, chains[0])
            && SplicedAnyhow(d0, Persist(d2, file2), g, file0, file2, offset, data)
            && InStep(Persist(d2, file2), g, chains, file2, slot)
  {
    hide Root, Fat, ChainsOk, StartsOk, Listed, OpenAt, FileContent, Splice, Patch, Chain, NewSize, Span, Quot,
         OthersKept, ChainSector, EntStart, EntSize;
    var x := ChainSector(g, chains[me], offset / 512);
    var d2, file2 := Deposited(d, g, chains, me, offset, data), file.(size := NewSize(file.size, offset, |data|));
    ChainIs(Fat(d, g), chains, me);
    StoredGrows(d0, d, g, file0, file);
    SpliceStored(d, g, chains, file, me, offset, data, x, d2);
    DataStep(d, g, chains, me, offset / 512, Patch(d[x], offset % 512, data), file, slot);
    Resized(d2, g, chains, file, file2, slot);
    DirentStep(d2, g, chains, file2, slot);
    DirentWrite(d2, g, chains, file2, slot);
    DirentKeepsFile(d2, g, chains, file2, slot, file2.start, file2.size);
  }

  lemma SameBytes(s: seq<byte>, upTo: nat, offset: nat, n: nat)
    ensures BytesKept(s, s, upTo, offset, n)
  {
  }

  lemma DirentInStep(d: seq<Sector>, g: Geometry, chains: seq<seq<nat>>, file: OpenFile, slot: nat)
    requires Sound(d, g, chains, file, slot)
    ensures GeometryOk(g, |d|) && |chains| > 0 && InRange(g, chains[0]) && Fits(d, file)
    ensures var d' := Persist(d, file);
            && Sound(d', g, chains, file, slot) && OthersKept(d, d', g, chains[0], slot)
            && InStep(d', g, chains, file, slot) && Fat(d', g) == Fat(d, g)
  {
    hide Root, Fat, ChainsOk, StartsOk, Listed, EntStart, EntSize, PatchStartSize, OthersKept;
    DirentStep(d, g, chains, file, slot);
    DirentWrite(d, g, chains, file, slot);
  }

  lemma WiderRange(a: seq<byte>, b: seq<byte>, upTo: nat, offset: nat, n: nat)
    requires BytesKept(a, b, upTo, 0, 0)
    ensures BytesKept(a, b, upTo, offset, n)
  {
  }

  lemma ChainInRange(d: seq<Sector>, g: Geometry, chains: seq<seq<nat>>, file: OpenFile, slot: nat)
    requires Sound(d, g, chains, file, slot)
    ensures GeometryOk(g, |d|) && InRange(g, FileChain(d, g, file))
  {
    hide Root, Fat, Chain, StartsOk, Listed;
    if file.start == 0 {
      NoChain(Fat(d, g));
    } else {
      var me :| 1 <= me < |chains| && |chains[me]| > 0 && chains[me][0] == file.start;
      ChainIs(Fat(d, g), chains, me);
      ChainsInRange(d, g, chains, me);
    }
  }

  lemma KeptSought(d: seq<Sector>, d': seq<Sector>, g: Geometry, chains: seq<seq<nat>>, chains': seq<seq<nat>>,
                   file: OpenFile, file': OpenFile, slot: nat, m: nat, offset: nat, n: nat)
    requires Sound(d, g, chains, file, slot) && Sound(d', g, chains', file', slot) && DataSame(d, d', g)
    requires Shares(FileChain(d, g, file), FileChain(d', g, file'), m) && file'.size == file.size
    requires m >= 1 || FileChain(d, g, file) == []
    ensures KeptBefore(d, d', g, file, file', m, 0, 0) && KeptBefore(d, d', g, file, file', m, offset, n)
  {
    hide Sound, Fat, Chain, Stored, Span, Shares, FileChain, BytesKept;
    ChainInRange(d, g, chains, file, slot);
    ChainInRange(d', g, chains', file', slot);
    KeptBytes(d, d', g, file, file', m);
    WiderRange(Stored(d, g, file), Stored(d', g, file'), 512 * Span(g.spc, m), offset, n);
  }

  lemma NewSizeGrows(size: nat, offset: nat, n: nat)
    requires size < U32
    ensures NewSize(size, offset, n) >= size && (offset + n < U32 ==> NewSize(size, offset, n) >= offset + n)
  {
  }

  lemma PersistKeeps(d: seq<Sector>, g: Geometry, chains: seq<seq<nat>>, file: OpenFile, slot: nat, me: nat)
    requires Sound(d, g, chains, file, slot) && 1 <= me < |chains| && |chains[me]| > 0 && chains[me][0] == file.start
    ensures GeometryOk(g, |d|) && Fits(d, file) && Stored(Persist(d, file), g, file) == Stored(d, g, file)
  {
    hide Root, Fat, ChainsOk, StartsOk, Listed, Chain, FileContent, PatchStartSize;
    DirentKeepsFile(d, g, chains, file, slot, file.start, file.size);
  }

  /** The content is cut short whether or not the directory entry could be written. */
  lemma TruncatedAnyhow(d: seq<Sector>, g: Geometry, chains: seq<seq<nat>>, file: OpenFile, n: nat, slot: nat)
    requires Sound(d, g, chains, file, slot) && n <= file.size
    ensures GeometryOk(g, |d|) && |chains| > 0 && InRange(g, chains[0])
    ensures var file' := file.(size := n);
            && Fits(d, file')
            && var d' := Persist(d, file');
               && InStep(d', g, chains, file', slot)
               && Stored(d', g, file') == Stored(d, g, file') == Stored(d, g, file)[..Min(n, |Stored(d, g, file)|)]
  {
    hide Root, Fat, ChainsOk, StartsOk, Listed, Chain, Span, OthersKept, EntStart, EntSize, Blocks, Content,
         PatchStartSize;
    SoundBasics(d, g, chains, file, slot);
    var file' := file.(size := n);
    Resized(d, g, chains, file, file', slot);
    DirentStep(d, g, chains, file', slot);
    DirentWrite(d, g, chains, file', slot);
    DirentKeepsFile(d, g, chains, file', slot, file'.start, n);
    ContentShrinks(Blocks(d, g, FileChain(d, g, file)), file.size, n);
  }

  class FileServer {
    const g: Geometry
    /** No sector transfer ever fails; when false, any transfer may fail at any time. */
    const reliable: bool
    var disk: seq<Sector>
    const buf: array<byte>
    const client: array<byte>
    var file: OpenFile
    ghost var chains: seq<seq<nat>>
    ghost var slot: nat

    /** How often a failed FAT read has made a walk cut a chain and go on with a new cluster. */
    ghost var cuts: nat

    constructor (g: Geometry, reliable: bool, disk: seq<Sector>)
      ensures this.g == g && this.reliable == reliable && this.disk == disk
      ensures Buffers() && fresh(buf) && fresh(client)
    {
      this.g, this.reliable, this.disk := g, reliable, disk;
      buf := new byte[512](_ => 0);
      client := new byte[512](_ => 0);
      file := OpenFile(0, 0, DirLoc(0, 0));
      chains, slot, cuts := [], 0, 0;
    }

    ghost predicate Buffers() {
      buf.Length == 512 && client.Length == 512 && buf != client
    }

    // ----- sector transfers -----

    method ReadSector(lba: nat) returns (ok: bool)
      requires Buffers()
      modifies buf
      ensures ok ==> lba < |disk| && buf[..] == disk[lba]
      ensures reliable && lba < |disk| ==> ok
    {
      ok := *;
      ok := lba < |disk| && (reliable || ok);
      if ok {
        var s := disk[lba];
        forall i | 0 <= i < 512 { buf[i] := s[i]; }
        assert buf[..] == s;
      }
    }

    method WriteSector(lba: nat) returns (ok: bool)
      requires Buffers()
      modifies this`disk
      ensures ok ==> lba < |old(disk)| && disk == old(disk)[lba := buf[..]]
      ensures !ok ==> disk == old(disk)
      ensures reliable && lba < |disk| ==> ok
    {
      ok := *;
      ok := lba < |disk| && (reliable || ok);
      if ok {
        disk := disk[lba := buf[..]];
      }
    }

    /** The `n` low bytes of `v`, least significant first, written at `o`. */
    method PutLe(o: nat, v: nat, n: nat)
      requires Buffers() && o + n <= 512
      modifies buf
      ensures buf[..] == Patch(old(buf[..]), o, LeBytes(v, n))
    {
      ghost var b := buf[..];
      var i, rest := 0, v;
      while i < n
        invariant i <= n && LeBytes(v, n) == buf[o..o + i] + LeBytes(rest, n - i)
        invariant forall j | 0 <= j < 512 && !(o <= j < o + i) :: buf[j] == b[j]
      {
        ghost var done := buf[o..o + i];
        buf[o + i] := rest % 256;
        assert buf[o..o + i + 1] == done + [rest % 256];
        rest, i := rest / 256, i + 1;
      }
      assert buf[o..o + n] == LeBytes(v, n);
    }

    // ----- the FAT -----

    /** The masked entry of `c`, or nothing if the read failed. */
    method ReadFatEntry(c: nat) returns (r: Option<nat>)
      requires Buffers() && GeometryOk(g, |disk|) && c <= g.maxCluster
      modifies buf
      ensures r.Some? ==> r.value == Fat(disk, g)[c]
      ensures reliable ==> r.Some?
    {
      var fatOffset := c * 4;
      var sector := g.fatBegin + fatOffset / 512;
      var entOffset := fatOffset % 512;
      assert sector == FatSector(g, 0, c) && entOffset == EntOffset(c);
      var ok := ReadSector(sector);
      if !ok { return None; }
      var raw := Le32(buf[..], entOffset);
      assert raw == RawEntry(disk[FatSector(g, 0, c)], c);
      Low28Masks(raw);
      return Some(raw % 0x1000_0000);
    }

    /** The next cluster of a chain; nothing at its end, and nothing if the read failed. */
    method NextCluster(c: nat) returns (r: Option<nat>)
      requires Buffers() && GeometryOk(g, |disk|) && c <= g.maxCluster
      modifies buf
      ensures r.Some? ==> r.value == Fat(disk, g)[c] && 2 <= r.value < 0x0FFF_FFF8
      ensures reliable && r.None? ==> Fat(disk, g)[c] < 2 || Fat(disk, g)[c] >= 0x0FFF_FFF8
    {
      var raw := ReadFatEntry(c);
      if raw.None? || raw.value >= EOC_MIN || raw.value < 2 { return None; }
      return raw;
    }

    /** One FAT copy's entry of `c` set to `v`. */
    method WriteFatCopy(copy: nat, c: nat, v: nat) returns (ok: bool)
      requires Buffers() && GeometryOk(g, |disk|) && c <= g.maxCluster && copy < 2 && v < 0x1000_0000
      modifies this`disk, buf
      ensures ok ==> disk == SetFat(old(disk), g, copy, c, v)
      ensures !ok ==> disk == old(disk)
      ensures reliable ==> ok
    {
      hide Low28, LeVal, LeBytes;
      var fatOffset := c * 4;
      var sector := (if copy == 0 then g.fatBegin else g.fatBegin + g.fatSz) + fatOffset / 512;
      var entOffset := fatOffset % 512;
      assert sector == FatSector(g, copy, c) && entOffset == EntOffset(c);
      ok := ReadSector(sector);
      if !ok { return; }
      var prev := Le32(buf[..], entOffset);
      assert prev == RawEntry(disk[sector], c);
      HighBound(prev, 16);
      Low28Masks(prev);
      Low28Masks(v);
      PutLe(entOffset, (prev - prev % 0x1000_0000) + v % 0x1000_0000, 4);
      assert buf[..] == SetEntry(disk[sector], c, v);
      ok := WriteSector(sector);
    }

    /** Both copies, the primary first; a failure can leave the primary alone updated. */
    method WriteFatEntry(c: nat, v: nat) returns (ok: bool)
      requires Buffers() && GeometryOk(g, |disk|) && c <= g.maxCluster && v < 0x1000_0000
      modifies this`disk, buf
      ensures ok ==> disk == SetBoth(old(disk), g, c, v)
      ensures !ok ==> disk == old(disk) || disk == SetFat(old(disk), g, 0, c, v)
      ensures reliable ==> ok
    {
      ok := WriteFatCopy(0, c, v);
      if !ok { return; }
      ok := WriteFatCopy(1, c, v);
    }

    /** First free cluster, claimed as the end of a chain before it is returned. */
    method AllocCluster() returns (r: Option<nat>)
      requires Buffers() && GeometryOk(g, |disk|)
      modifies this`disk, buf
      ensures |disk| == |old(disk)|
      ensures r.Some? ==> 2 <= r.value <= g.maxCluster && Fat(old(disk), g)[r.value] == 0
      ensures r.Some? ==> forall c | 2 <= c < r.value :: Fat(old(disk), g)[c] != 0
      ensures r.Some? ==> disk == SetBoth(old(disk), g, r.value, 0x0FFF_FFF8)
      ensures r.None? && disk != old(disk) ==>
                exists c | 2 <= c <= g.maxCluster && Fat(old(disk), g)[c] == 0 ::
                    disk == SetFat(old(disk), g, 0, c, EOC_MIN)
      ensures reliable && r.None? ==> disk == old(disk) && forall c | 2 <= c <= g.maxCluster :: Fat(disk, g)[c] != 0
    {
      var c := 2;
      while c <= g.maxCluster
        invariant 2 <= c <= g.maxCluster + 1 && disk == old(disk)
        invariant forall k | 2 <= k < c :: Fat(disk, g)[k] != 0
      {
        var e := ReadFatEntry(c);
        if e.None? { return None; }
        if e.value == 0 {
          var ok := WriteFatEntry(c, EOC_MIN);
          return if ok then Some(c) else None;
        }
        c := c + 1;
      }
      return None;
    }

    // ----- chains of the open file -----

    /** `AllocCluster`, with the bookkeeping of what it did to the link graph. */
    method Claim() returns (r: Option<nat>)
      requires Buffers() && GeometryOk(g, |disk|) && ChainsOk(Fat(disk, g), chains)
      modifies this`disk, this`chains, buf
      ensures DataSame(old(disk), disk, g) && ChainsOk(Fat(disk, g), chains)
      ensures |old(chains)| <= |chains| && chains[..|old(chains)|] == old(chains)
      ensures r.Some? ==> 2 <= r.value <= g.maxCluster && chains == old(chains) + [[r.value]]
      ensures r.Some? ==> Fat(old(disk), g)[r.value] == 0 && Fat(disk, g) == Fat(old(disk), g)[r.value := EOC_MIN]
      ensures r.Some? && Mirrored(old(disk), g) ==> Mirrored(disk, g)
      ensures reliable && r.None? ==> disk == old(disk) && chains == old(chains)
      ensures reliable && r.None? ==> forall c | 2 <= c <= g.maxCluster :: Fat(disk, g)[c] != 0
      ensures TracksOn(old(disk), disk, g, old(chains), chains)
    {
      hide Fat, SetFat, SetBoth, ChainsOk, Mirrored, Tracked;
      ghost var d := disk;
      r := AllocCluster();
      if r.Some? {
        SetBothEffect(d, g, r.value, EOC_MIN);
        ClaimKeeps(Fat(d, g), chains, r.value);
        ClaimTracked(Fat(d, g), chains, r.value);
        chains := chains + [[r.value]];
      } else if disk != d {
        ghost var c :| 2 <= c <= g.maxCluster && Fat(d, g)[c] == 0 && disk == SetFat(d, g, 0, c, EOC_MIN);
        FatAfterSet(d, g, c, EOC_MIN);
        SetFatFrame(d, g, 0, c, EOC_MIN);
        ClaimKeeps(Fat(d, g), chains, c);
        ClaimTracked(Fat(d, g), chains, c);
        chains := chains + [[c]];
      }
    }

    /** Links cluster `j` of chain `me` to the cluster just claimed. */
    method Link(ghost me: nat, ghost j: nat, cluster: nat, next: nat) returns (ok: bool)
      requires Buffers() && GeometryOk(g, |disk|) && ChainsOk(Fat(disk, g), chains)
      requires me < |chains| - 1 && j < |chains[me]| && chains[me][j] == cluster <= g.maxCluster
      requires next <= g.maxCluster && chains[|chains| - 1] == [next]
      modifies this`disk, this`chains, buf
      ensures DataSame(old(disk), disk, g) && ChainsOk(Fat(disk, g), chains)
      ensures chains == old(chains) || chains == Relink(old(chains), me, j)
      ensures ok ==> chains == Relink(old(chains), me, j)
      ensures ok ==> Fat(disk, g) == Fat(old(disk), g)[cluster := next]
      ensures ok && Mirrored(old(disk), g) ==> Mirrored(disk, g)
      ensures reliable ==> ok
      ensures TracksOn(old(disk), disk, g, old(chains), chains)
    {
      ghost var d := disk;
      ok := WriteFatEntry(cluster, next);
      LinkKeeps(Fat(d, g), chains, me, j, next);
      LinkTracked(Fat(d, g), chains, me, j, next);
      if ok {
        SetBothEffect(d, g, cluster, next);
        chains := Relink(chains, me, j);
      } else if disk != d {
        FatAfterSet(d, g, cluster, next);
        SetFatFrame(d, g, 0, cluster, next);
        chains := Relink(chains, me, j);
      }
    }

    /** Gives chain `me` a new cluster after its `j`-th. */
    method Extend(ghost me: nat, ghost j: nat, cluster: nat) returns (r: Option<nat>)
      requires Buffers() && GeometryOk(g, |disk|) && ChainsOk(Fat(disk, g), chains)
      requires me < |chains| && j < |chains[me]| && chains[me][j] == cluster
      modifies this`disk, this`chains, this`cuts, buf
      ensures DataSame(old(disk), disk, g) && ChainsOk(Fat(disk, g), chains) && Kept(old(chains), chains, me)
      ensures r.Some? ==> chains[me] == old(chains)[me][..j + 1] + [r.value]
      ensures Shares(old(chains)[me], chains[me], j + 1)
      ensures r.Some? ==> Claimed(Fat(old(disk), g), Fat(disk, g), r.value)
      ensures r.Some? && Mirrored(old(disk), g) ==> Mirrored(disk, g)
      ensures reliable && r.None? ==> disk == old(disk) && chains == old(chains) && NoneFree(Fat(disk, g))
      ensures TracksOn(old(disk), disk, g, old(chains), chains)
      ensures cuts == old(cuts) + if old(chains)[me] <= chains[me] then 0 else 1
    {
      hide Fat, Tracked, Mirrored, Linked, GeometryOk;
      LinkedNotFree(Fat(disk, g), chains[me], j);
      r := Claim();
      if r.Some? {
        assert chains[me] == old(chains)[me];
        var ok := Link(me, j, cluster, r.value);
        if !ok { r := None; }
      }
      if !(old(chains)[me] <= chains[me]) {
        cuts := cuts + 1;
      }
    }

    /** One step along chain `me` from its `j`-th cluster, a new cluster added where the walk
        finds no next one (at the end of the chain, or wherever a FAT read fails). */
    method Advance(ghost me: nat, ghost j: nat, cluster: nat) returns (r: Option<nat>)
      requires Buffers() && GeometryOk(g, |disk|) && ChainsOk(Fat(disk, g), chains)
      requires me < |chains| && j < |chains[me]| && chains[me][j] == cluster
      modifies this`disk, this`chains, this`cuts, buf
      ensures DataSame(old(disk), disk, g) && ChainsOk(Fat(disk, g), chains) && Kept(old(chains), chains, me)
      ensures r.Some? ==> j + 1 < |chains[me]| && chains[me][j + 1] == r.value
      ensures reliable && Mirrored(old(disk), g) ==> Mirrored(disk, g)
      ensures reliable && j + 1 < |old(chains)[me]| ==> r.Some?
      ensures reliable && (j + 1 < |old(chains)[me]| || r.None?) ==> disk == old(disk) && chains == old(chains)
      ensures reliable && r.Some? && j + 1 == |old(chains)[me]| ==>
                chains[me] == old(chains)[me] + [r.value] && Claimed(Fat(old(disk), g), Fat(disk, g), r.value)
      ensures reliable && r.None? ==> NoneFree(Fat(disk, g))
      ensures TracksOn(old(disk), disk, g, old(chains), chains)
      ensures cuts == old(cuts) + if old(chains)[me] <= chains[me] then 0 else 1
      ensures reliable ==> cuts == old(cuts)
      ensures Shares(old(chains)[me], chains[me], j + 1)
    {
      LinkedInRange(Fat(disk, g), chains[me]);
      assert LinkAt(Fat(disk, g), chains[me], j);
      r := NextCluster(cluster);
      if r.None? {
        r := Extend(me, j, cluster);
      }
    }

    /** Walks chain `me` from its head to cluster number `ci`. */
    method Walk(ghost me: nat, first: nat, ci: nat) returns (ok: bool, cluster: nat, ghost m: nat)
      requires Buffers() && GeometryOk(g, |disk|) && ChainsOk(Fat(disk, g), chains)
      requires me < |chains| && 0 < |chains[me]| && chains[me][0] == first
      modifies this`disk, this`chains, this`cuts, buf
      ensures DataSame(old(disk), disk, g) && ChainsOk(Fat(disk, g), chains) && Kept(old(chains), chains, me)
      ensures ok ==> ci < |chains[me]| && cluster == chains[me][ci]
      ensures reliable && ci <= |old(chains)[me]| ==>
                && (Mirrored(old(disk), g) ==> Mirrored(disk, g))
                && Sought(old(disk), disk, g, old(chains), chains, old(chains)[me], chains[me], ci, ok, cluster)
      ensures TracksOn(old(disk), disk, g, old(chains), chains)
      ensures cuts >= old(cuts) && (cuts == old(cuts) ==> old(chains)[me] <= chains[me])
      ensures reliable ==> cuts == old(cuts)
      ensures Shares(old(chains)[me], chains[me], m) && m >= 1 && (cuts == old(cuts) ==> m == |old(chains)[me]|)
    {
      ghost var d0, chains0 := disk, chains;
      ghost var ch := chains[me];
      var i := 0;
      ok, cluster, m := true, first, |ch|;
      while i < ci
        invariant 0 <= i <= ci && DataSame(d0, disk, g) && ChainsOk(Fat(disk, g), chains) && Kept(chains0, chains, me)
        invariant TracksOn(d0, disk, g, chains0, chains)
        invariant i < |chains[me]| && cluster == chains[me][i]
        invariant cuts >= old(cuts) && (cuts == old(cuts) ==> ch <= chains[me]) && (reliable ==> cuts == old(cuts))
        invariant Shares(ch, chains[me], m) && m >= 1 && (cuts == old(cuts) ==> m == |ch|)
        invariant reliable && ci <= |ch| ==>
                    && (Mirrored(d0, g) ==> Mirrored(disk, g))
                    && if i < |ch| then disk == d0 && chains == chains0
                       else chains[me] == ch + [cluster] && Claimed(Fat(d0, g), Fat(disk, g), cluster)
      {
        ghost var chains1 := chains;
        var r := Advance(me, i, cluster);
        KeptTrans(chains0, chains1, chains, me);
        SharesLess(ch, chains1[me], chains[me], m, i + 1);
        m := if chains1[me] <= chains[me] then m else Min(m, i + 1);
        if r.None? { return false, cluster, m; }
        cluster, i := r.value, i + 1;
      }
    }

    /** The head of the open file's chain, claimed now if the file has none. */
    method FirstCluster() returns (ok: bool, ghost me: nat)
      requires Buffers() && Sound(disk, g, chains, file, slot)
      modifies this`disk, this`file, this`chains, buf
      ensures Sound(disk, g, chains, file, slot) && chains[0] == old(chains)[0]
              && file == old(file).(start := file.start)
      ensures DataSame(old(disk), disk, g) && OthersKept(old(disk), disk, g, chains[0], slot)
      ensures ok ==> 1 <= me < |chains| && 0 < |chains[me]| && chains[me][0] == file.start != 0
      ensures old(file.start) != 0 ==> ok && disk == old(disk) && chains == old(chains) && file == old(file)
      ensures reliable && old(file.start) == 0 ==>
                && (Mirrored(old(disk), g) ==> Mirrored(disk, g))
                && if ok then chains[me] == [file.start] && Claimed(Fat(old(disk), g), Fat(disk, g), file.start)
                   else disk == old(disk) && chains == old(chains) && file == old(file) && NoneFree(Fat(disk, g))
      ensures TracksOn(old(disk), disk, g, old(chains), chains)
    {
      hide Root, Blocks, Fat, ChainsOk, StartsOk, Listed, OthersKept, Mirrored;
      ghost var d0, chains0, file0 := disk, chains, file;
      ok, me := true, |chains|;
      if file.start == 0 {
        var r := Claim();
        ok := r.Some?;
        if ok {
          file := file.(start := r.value);
        }
        FatStep(d0, disk, g, chains0, chains, me, file0, file, slot);
      } else {
        me :| 1 <= me < |chains| && |chains[me]| > 0 && chains[me][0] == file.start;
        OthersRefl(disk, g, chains[0], slot);
      }
    }

    /** The cluster holding offset cluster number `ci` of the open file, which gets a first
        cluster here if it has none and further clusters where the walk finds no next one. */
    method SeekCluster(ci: nat) returns (ok: bool, cluster: nat, ghost me: nat, ghost m: nat)
      requires Buffers() && Sound(disk, g, chains, file, slot)
      modifies this`disk, this`file, this`chains, this`cuts, buf
      ensures Sound(disk, g, chains, file, slot) && chains[0] == old(chains)[0]
              && file == old(file).(start := file.start)
      ensures DataSame(old(disk), disk, g) && OthersKept(old(disk), disk, g, chains[0], slot)
      ensures ok ==>
              1 <= me < |chains| && ci < |chains[me]| && chains[me][0] == file.start != 0 && cluster == chains[me][ci]
      ensures reliable && ci <= |Chain(Fat(old(disk), g), old(file.start))| ==>
                && (Mirrored(old(disk), g) ==> Mirrored(disk, g))
                && (disk == old(disk) ==> file == old(file))
                && Sought(old(disk), disk, g, old(chains), chains, Chain(Fat(old(disk), g), old(file.start)),
                          if ok then chains[me] else [], ci, ok, cluster)
      ensures TracksOn(old(disk), disk, g, old(chains), chains)
      ensures cuts >= old(cuts)
      ensures ok && cuts == old(cuts) ==> old(FileChain(disk, g, file)) <= FileChain(disk, g, file)
      ensures reliable ==> cuts == old(cuts)
      ensures Shares(old(FileChain(disk, g, file)), FileChain(disk, g, file), m)
      ensures cuts == old(cuts) ==> m == |old(FileChain(disk, g, file))|
      ensures m >= 1 || old(FileChain(disk, g, file)) == []
    {
      hide Root, Blocks, Fat, Chain, ChainsOk, StartsOk, Listed, OpenAt, Mirrored, NoneFree;
      ghost var d0, start0 := disk, file.start;
      ok, me := FirstCluster();
      cluster, m := 0, 0;
      NoChain(Fat(disk, g));
      if start0 == 0 {
        NoChain(Fat(d0, g));
      } else {
        ChainIs(Fat(d0, g), chains, me);
      }
      if ok {
        ghost var d1, chains1 := disk, chains;
        ok, cluster, m := Walk(me, file.start, ci);
        if start0 == 0 {
          m := 0;
        }
        FatStep(d1, disk, g, chains1, chains, me, file, file, slot);
        OthersTrans(d0, d1, disk, g, chains[0], slot);
        ChainIs(Fat(disk, g), chains, me);
      }
    }

    // ----- the client operations -----

    function ClusterToSector(cluster: nat): (s: nat)
      requires 2 <= cluster
      ensures s == ClusterSector(g, cluster)
    {
      SpanIsMul(g.spc, cluster - 2);
      g.firstData + (cluster - 2) * g.spc
    }

    /** A byte offset as cluster number, sector within the cluster, byte within the sector. */
    method Split(offset: nat) returns (clusterIndex: nat, sectorInCluster: nat, offsetInSector: nat)
      requires g.spc > 0
      ensures clusterIndex == Quot(offset / 512, g.spc) && sectorInCluster == Rem(offset / 512, g.spc)
      ensures offsetInSector == offset % 512
    {
      var clusterSize := g.spc * 512;
      SplitOffset(offset, g.spc);
      clusterIndex := offset / clusterSize;
      var offsetInCluster := offset % clusterSize;
      sectorInCluster := offsetInCluster / 512;
      offsetInSector := offsetInCluster % 512;
    }

    /** Read-modify-write of the open file's directory entry. */
    method WriteDirentUpdate() returns (ok: bool)
      requires Buffers() && Sound(disk, g, chains, file, slot)
      modifies this`disk, buf
      ensures Fits(old(disk), file)
      ensures ok ==> disk == Persist(old(disk), file)
      ensures !ok ==> disk == old(disk)
      ensures reliable ==> ok
      ensures Sound(disk, g, chains, file, slot) && OthersKept(old(disk), disk, g, chains[0], slot)
      ensures Fat(disk, g) == Fat(old(disk), g)
      ensures ok ==> InStep(disk, g, chains, file, slot)
    {
      hide Root, ChainsOk, StartsOk, Listed, OpenAt, OthersKept, Patch, LeBytes, InStep, Fat, LeVal, Sound;
      SoundBasics(disk, g, chains, file, slot);
      DirentInStep(disk, g, chains, file, slot);
      OthersRefl(disk, g, chains[0], slot);
      ok := ReadSector(file.dirent.sector);
      if !ok { return; }
      LeHalves(file.start);
      PutLe(file.dirent.offset + 20, file.start / 0x1_0000, 2);
      PutLe(file.dirent.offset + 26, file.start % 0x1_0000, 2);
      PutLe(file.dirent.offset + 28, file.size, 4);
      ok := WriteSector(file.dirent.sector);
    }

    /** Read-modify-write of one data sector: `n` client bytes at `at`. */
    method PatchSector(sector: nat, at: nat, n: nat) returns (ok: bool)
      requires Buffers() && at + n <= 512 && sector < |disk|
      modifies this`disk, buf
      ensures ok ==> disk == old(disk)[sector := Patch(old(disk)[sector], at, client[..n])]
      ensures !ok ==> disk == old(disk)
      ensures reliable ==> ok
    {
      ok := ReadSector(sector);
      if !ok { return; }
      forall i | 0 <= i < n { buf[at + i] := client[i]; }
      assert buf[..] == Patch(disk[sector], at, client[..n]);
      ok := WriteSector(sector);
    }

    /** Shrinks the recorded size; never grows it. */
    method TruncateFile(newSize: nat) returns (r: nat)
      requires Buffers() && Sound(disk, g, chains, file, slot)
      modifies this`disk, this`file, buf
      ensures Sound(disk, g, chains, file, slot) && OthersKept(old(disk), disk, g, chains[0], slot)
      ensures r == 0 || r == 1
      ensures file == if newSize <= old(file.size) then old(file).(size := newSize) else old(file)
      ensures reliable && old(Good(disk, g, chains, file, slot)) ==>
                && Good(disk, g, chains, file, slot)
                && (r == 1 <==> newSize <= old(file.size))
                && Stored(disk, g, file) == if r == 1 then old(Stored(disk, g, file))[..newSize]
                   else old(Stored(disk, g, file))
      ensures Fat(disk, g) == Fat(old(disk), g)
      ensures newSize <= old(file.size) ==>
                Stored(disk, g, file) == old(Stored(disk, g, file))[..Min(newSize, |old(Stored(disk, g, file))|)]
      ensures r == 1 ==> newSize <= old(file.size) && InStep(disk, g, chains, file, slot)
    {
      hide Root, Fat, StartsOk, Listed, ChainsOk, Chain, PatchStartSize, IsFile, Heads, At;
      ghost var d0, file0 := disk, file;
      OthersRefl(disk, g, chains[0], slot);
      if newSize > file.size { return 0; }
      file := file.(size := newSize);
      if Good(d0, g, chains, file0, slot) {
        TruncateGood(d0, g, chains, file0, newSize, slot);
      }
      TruncatedAnyhow(d0, g, chains, file0, newSize, slot);
      var ok := WriteDirentUpdate();
      return if ok then 1 else 0;
    }

    /** The data sector, the recorded size, the directory entry. */
    method Store(ghost me: nat, ghost ci: nat, cluster: nat, sectorInCluster: nat, offset: nat, n: nat)
      returns (ok: bool)
      requires Buffers() && offset % 512 + n <= 512 && Sound(disk, g, chains, file, slot) && g.spc > 0
      requires 1 <= me < |chains| && chains[me] != [] && chains[me][0] == file.start != 0
      requires ci == Quot(offset / 512, g.spc) < |chains[me]| && chains[me][ci] == cluster
      requires sectorInCluster == Rem(offset / 512, g.spc)
      modifies this`disk, this`file, buf
      ensures Sound(disk, g, chains, file, slot) && OthersKept(old(disk), disk, g, chains[0], slot)
      ensures Fat(disk, g) == Fat(old(disk), g)
      ensures file == old(file).(size := file.size) && (reliable ==> ok)
      ensures BytesKept(Stored(old(disk), g, old(file)), Stored(disk, g, file), old(file.size), offset, n)
      ensures ok ==>
              ReadsBack(Stored(disk, g, file), file.size, offset, client[..n]) && InStep(disk, g, chains, file, slot)
      ensures ok ==> file.size == NewSize(old(file).size, offset, n) >= old(file.size)
      ensures ok && offset + n < U32 ==> offset + n <= file.size
      ensures Holds(old(disk), g, chains, me, offset)
      ensures ok ==>
              Fits(old(disk), file) && disk == Persist(Deposited(old(disk), g, chains, me, offset, client[..n]), file)
    {
      hide Sound, OthersKept, Fat, Chain, ChainsOk, Patch, NewSize, PatchStartSize, ChainSector, InStep, BytesKept,
           ReadsBack, Stored, Span, Quot, Rem, ClusterSector;
      ghost var d1, file1 := disk, file;
      SoundBasics(disk, g, chains, file, slot);
      OthersRefl(disk, g, chains[0], slot);
      SameBytes(Stored(d1, g, file1), file1.size, offset, n);
      LinkedNotFree(Fat(disk, g), chains[me], ci);
      var sector := ClusterToSector(cluster) + sectorInCluster;
      SectorFound(d1, g, chains, me, offset, ci, cluster, sector);
      ok := PatchSector(sector, offset % 512, n);
      if !ok { return; }
      DataStep(d1, g, chains, me, offset / 512, Patch(d1[sector], offset % 512, client[..n]), file, slot);
      NewSizeGrows(file.size, offset, n);
      file := file.(size := NewSize(file.size, offset, n));
      ghost var d2 := disk;
      StoredPatched(d1, d2, g, chains, file1, file, me, offset, client[..n], sector);
      Resized(d2, g, chains, file1, file, slot);
      PersistKeeps(d2, g, chains, file, slot, me);
      ok := WriteDirentUpdate();
      OthersTrans(d1, d2, disk, g, chains[0], slot);
    }

    /** Up to one sector's worth of client bytes written at `offset`. Whatever fails, the structure and
        every other file are kept, the `n` bytes reported read back, and so do all bytes of the first
        `m` clusters outside the range written; `m` is all of them unless a failed FAT read cut the
        chain. Without failures the content is spliced (`Written`). The new end is 32-bit arithmetic
        and wraps past 4 GiB - 1. */
    method WriteFile(offset: nat, len: nat) returns (n: nat, ghost m: nat)
      requires Buffers() && Sound(disk, g, chains, file, slot) && offset < U32 && len < U32
      modifies this`disk, this`file, this`chains, this`cuts, buf
      ensures Sound(disk, g, chains, file, slot) && chains[0] == old(chains)[0] && file.dirent == old(file.dirent)
      ensures n <= len && n <= 512
      ensures OthersKept(old(disk), disk, g, chains[0], slot)
      ensures reliable && old(Good(disk, g, chains, file, slot)) ==>
                && Good(disk, g, chains, file, slot)
                && Written(old(disk), disk, g, old(file), file, offset, len, client[..], n)
      ensures TracksOn(old(disk), disk, g, old(chains), chains)
      ensures cuts >= old(cuts)
      ensures n > 0 && cuts == old(cuts) && old(file.size <= Capacity(disk, g, file)) ==>
                && SplicedAnyhow(old(disk), disk, g, old(file), file, offset, client[..n])
                && InStep(disk, g, chains, file, slot)
      ensures reliable ==> cuts == old(cuts)
      ensures cuts == old(cuts) ==> m == |old(FileChain(disk, g, file))|
      ensures KeptBefore(old(disk), disk, g, old(file), file, m, offset, Min(len, 512 - offset % 512))
      ensures n > 0 ==>
                && n == Min(len, 512 - offset % 512) && offset <= old(file.size)
                && ReadsBack(Stored(disk, g, file), file.size, offset, client[..n])
                && (offset + n < U32 ==> offset + n <= file.size) && InStep(disk, g, chains, file, slot)
    {
      hide Sound, Good, OthersKept, Written, Sought, Fat, Chain, ChainsOk, Mirrored, FileContent, Span, Quot, Rem,
           Patch, NewSize, PatchStartSize, BytesKept, ReadsBack, InStep, Shares, Stored, Tracked, SplicedAnyhow,
           InRange, DataSame, ClusterSector, ChainSector, NoneFree, Holds, Deposited, KeptBefore;
      ghost var d0, chains0, file0 := disk, chains, file;
      SoundBasics(disk, g, chains, file, slot);
      OthersRefl(disk, g, chains[0], slot);
      ghost var range := Min(len, 512 - offset % 512);
      if offset > file.size {
        WroteNothing(d0, g, chains0, file0, slot, offset, len, client[..]);
        KeptAll(d0, g, file0, offset, range);
        return 0, |FileChain(d0, g, file0)|;
      }
      var clusterIndex, sectorInCluster, offsetInSector := Split(offset);
      ghost var good := reliable && Good(d0, g, chains0, file0, slot);
      if good {
        GoodCovered(d0, g, chains0, file0, slot);
        OffsetCluster(offset, g.spc, |FileChain(d0, g, file0)|);
      }

      var ok, cluster, me, m0 := SeekCluster(clusterIndex);
      m := m0;
      SoundBasics(disk, g, chains, file, slot);
      KeptSought(d0, disk, g, chains0, chains, file0, file, slot, m, offset, range);
      ghost var d1, file1 := disk, file;
      if !ok {
        if good {
          WroteNone(d0, disk, g, chains0, chains, file0, slot, offset, len, client[..], clusterIndex, cluster);
        }
        return 0, m;
      }
      var n0 := Min(len, 512 - offsetInSector);
      ok := Store(me, clusterIndex, cluster, sectorInCluster, offset, n0);
      SoundBasics(disk, g, chains, file, slot);
      OthersTrans(d0, d1, disk, g, chains[0], slot);
      KeptAgain(d0, d1, disk, g, file0, file1, file, m, offset, n0);
      if good {
        WroteGood(d0, d1, g, chains0, chains, file0, file1, slot, me, clusterIndex, cluster, offset, len, client[..],
            n0);
      }
      if ok && cuts == old(cuts) && file0.size <= Capacity(d0, g, file0) {
        WroteUncut(d0, d1, g, chains0, chains, file0, file1, slot, me, offset, client[..n0]);
      }
      return if ok then n0 else 0, m;
    }

    /** The open file's bytes from `offset` on, placed in the client buffer: as many as asked for, or up to
        the end of the sector or of the file. Nothing past the end, or when a transfer fails. */
    method ReadFile(offset: nat, len: nat) returns (n: nat)
      requires Buffers() && Sound(disk, g, chains, file, slot)
      modifies buf, client
      ensures GeometryOk(g, |disk|) && n <= 512 && client[n..] == old(client[n..])
      ensures n > 0 ==>
                && n <= len && offset % 512 + n <= 512 && offset + n <= |Stored(disk, g, file)|
                && (n == len || (offset + n) % 512 == 0 || offset + n == |Stored(disk, g, file)|)
                && client[..n] == Stored(disk, g, file)[offset..offset + n]
      ensures reliable && offset < |Stored(disk, g, file)| && len > 0 ==> n > 0
    {
      hide Sound, Good, Fat, FileChain, Stored, ChainsOk, Linked, ChainSector, ClusterSector, Span, Quot, Rem, Mirrored;
      SoundBasics(disk, g, chains, file, slot);
      StoredLength(disk, g, file);
      if offset >= file.size { return 0; }
      var clusterIndex, sectorInCluster, offsetInSector := Split(offset);
      ghost var me := OwnChain(disk, g, chains, file, slot);
      QuotLt(offset / 512, g.spc, |chains[me]|);
      var cluster := Follow(me, clusterIndex);
      if cluster.None? { return 0; }
      LinkedNotFree(Fat(disk, g), chains[me], clusterIndex);
      var sector := ClusterToSector(cluster.value) + sectorInCluster;
      SectorFound(disk, g, chains, me, offset, clusterIndex, cluster.value, sector);
      var ok := ReadSector(sector);
      if !ok { return 0; }
      n := Min(Min(len, 512 - offsetInSector), file.size - offset);
      CopyOut(offsetInSector, n);
      ReadsContent(disk, g, chains, file, me, offset, n);
      ReadEnds(|Stored(disk, g, file)|, file.size, offset, len, n);
    }

    /** Follows the open file's chain without extending it. */
    method Follow(ghost me: nat, clusterIndex: nat) returns (r: Option<nat>)
      requires Buffers() && GeometryOk(g, |disk|) && me < |chains| && Linked(Fat(disk, g), chains[me])
      requires |chains[me]| > 0 && chains[me][0] == file.start
      modifies buf
      ensures r.Some? ==> clusterIndex < |chains[me]| && r.value == chains[me][clusterIndex]
      ensures reliable ==> (r.Some? <==> clusterIndex < |chains[me]|)
    {
      var cluster := file.start;
      var i := 0;
      while i < clusterIndex
        invariant 0 <= i <= clusterIndex && i < |chains[me]| && cluster == chains[me][i]
      {
        LinkedNotFree(Fat(disk, g), chains[me], i);
        if i + 1 < |chains[me]| {
          LinkedNotFree(Fat(disk, g), chains[me], i + 1);
        }
        assert LinkAt(Fat(disk, g), chains[me], i);
        var next := NextCluster(cluster);
        if next.None? { return None; }
        cluster, i := next.value, i + 1;
      }
      return Some(cluster);
    }

    method CopyOut(at: nat, n: nat)
      requires Buffers() && at + n <= 512
      modifies client
      ensures client[..n] == buf[at..at + n] && client[n..] == old(client[n..])
    {
      forall j | 0 <= j < n { client[j] := buf[at + j]; }
    }
  }
}
