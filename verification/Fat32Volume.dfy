/**
 The meaning of a FAT32 volume held as raw 512-byte sectors: the primary FAT as a table of
 28-bit links, files and the root directory as chains of clusters, directory entries as
 32-byte records, and a file's content as the bytes along its chain.
 Layout follows the sections "FAT Data Structure" and "FAT Directory Structure" of the
 Microsoft FAT32 File System Specification.
 */
module Fat32Volume {
  import opened Bytes

  type Sector = s: seq<byte> | |s| == 512 witness seq(512, _ => 0)

  const EOC_MIN: nat := 0x0FFF_FFF8

  /** The link part of a FAT word, and the reserved part above it. */
  function Low28(v: nat): (r: nat)
    ensures r < 0x1000_0000 && r <= v
  {
    if v < 0x1000_0000 then v else Low28(v - 0x1000_0000)
  }

  function High4(v: nat): nat { v - Low28(v) }

  /** `Low28` is the remainder modulo 2^28: masking with 0x0FFF_FFFF. */
  lemma {:induction false} Low28Masks(v: nat)
    ensures Low28(v) == v % 0x1000_0000
  {
    if v >= 0x1000_0000 {
      Low28Masks(v - 0x1000_0000);
    }
  }

  lemma {:induction false} HighBound(x: nat, k: nat)
    requires x < 0x1000_0000 * k
    ensures High4(x) + 0x1000_0000 <= 0x1000_0000 * k
  {
    if x >= 0x1000_0000 {
      HighBound(x - 0x1000_0000, k - 1);
    }
  }

  lemma {:induction false} HighLow(x: nat, v: nat)
    requires v < 0x1000_0000
    ensures Low28(High4(x) + v) == v
  {
    if x >= 0x1000_0000 {
      HighLow(x - 0x1000_0000, v);
    }
  }

  // ----- `n` groups of `m`: products and quotients by a group size not known in advance -----

  ghost function Span(m: nat, n: nat): nat {
    if n == 0 then 0 else Span(m, n - 1) + m
  }

  ghost function Quot(q: nat, m: nat): nat
    requires m > 0
  {
    if q < m then 0 else 1 + Quot(q - m, m)
  }

  ghost function Rem(q: nat, m: nat): nat
    requires m > 0
  {
    if q < m then q else Rem(q - m, m)
  }

  lemma {:induction false} SpanIsMul(m: nat, n: nat)
    ensures Span(m, n) == n * m
  {
    if n > 0 {
      SpanIsMul(m, n - 1);
      assert n * m == (n - 1) * m + m;
    }
  }

  lemma {:induction false} SpanMono(m: nat, a: nat, b: nat)
    requires a <= b
    ensures Span(m, a) <= Span(m, b)
  {
    if a < b {
      SpanMono(m, a, b - 1);
    }
  }

  lemma {:induction false} SpanShift(m: nat, n: nat)
    ensures Span(m, n + 1) == Span(m, 1) + Span(m, n) && Span(m, 1) == m
  {
    assert Span(m, 1) == Span(m, 0) + m;
    if n > 0 {
      SpanShift(m, n - 1);
    }
  }

  lemma {:induction false} QuotRem(q: nat, m: nat)
    requires m > 0
    ensures q == Span(m, Quot(q, m)) + Rem(q, m) && Rem(q, m) < m
  {
    if q >= m {
      QuotRem(q - m, m);
      SpanShift(m, Quot(q - m, m));
    }
  }

  /** Position `q` falls in one of `n` groups exactly when its group number is below `n`. */
  lemma QuotLt(q: nat, m: nat, n: nat)
    requires m > 0
    ensures q < Span(m, n) <==> Quot(q, m) < n
  {
    QuotRem(q, m);
    if Quot(q, m) < n {
      SpanMono(m, Quot(q, m) + 1, n);
    } else {
      SpanMono(m, n, Quot(q, m));
    }
  }

  /** Group number and place within the group determine the position. */
  lemma {:induction false} QuotOf(m: nat, n: nat, r: nat)
    requires r < m
    ensures Quot(Span(m, n) + r, m) == n && Rem(Span(m, n) + r, m) == r
  {
    if n > 0 {
      QuotOf(m, n - 1, r);
    }
  }

  lemma MulAtLeast(k: nat, m: nat)
    requires k > 0
    ensures k * m >= m
  {
    assert k * m == (k - 1) * m + m;
  }

  lemma DivUnique(q: nat, m: nat, n: nat, r: nat)
    requires m > 0 && q == n * m + r && r < m
    ensures q / m == n && q % m == r
  {
    var n' := q / m;
    assert n' * m + q % m == q && 0 <= q % m < m;
    assert (n - n') * m == n * m - n' * m;
    if n' < n {
      MulAtLeast(n - n', m);
    } else if n < n' {
      MulAtLeast(n' - n, m);
    }
  }

  /** The fields of the BIOS parameter block that the server keeps. */
  datatype Geometry = Geometry(spc: nat, firstData: nat, fatBegin: nat, fatSz: nat,
                               rootCluster: nat, maxCluster: nat)

  /** What the server takes for granted about the layout: two FAT copies in front of the data
      area, a FAT with an entry for every cluster, every data cluster on the disk. */
  ghost predicate GeometryOk(g: Geometry, sectors: nat) {
    && 1 <= g.spc < 256
    && g.fatBegin + 2 * g.fatSz <= g.firstData
    && 4 * (g.maxCluster + 1) <= 512 * g.fatSz
    && 2 <= g.rootCluster <= g.maxCluster < 0x0FFF_FFF7
    && g.firstData + Span(g.spc, g.maxCluster - 1) <= sectors <= U32
  }

  // ----- the FAT as a table -----

  function FatSector(g: Geometry, copy: nat, c: nat): nat {
    g.fatBegin + (if copy == 0 then 0 else g.fatSz) + c / 128
  }

  function EntOffset(c: nat): (o: nat)
    ensures o + 4 <= 512
  {
    c % 128 * 4
  }

  lemma EntOffsetsApart(c: nat, c': nat)
    requires c / 128 == c' / 128 && c != c'
    ensures EntOffset(c) + 4 <= EntOffset(c') || EntOffset(c') + 4 <= EntOffset(c)
  {
  }

  function RawEntry(b: Sector, c: nat): (v: nat)
    ensures v < U32
  {
    Le32(b, EntOffset(c))
  }

  /** The primary FAT: entry `c` is the masked 28-bit link of cluster `c`. */
  ghost function Fat(d: seq<Sector>, g: Geometry): (fat: seq<nat>)
    requires GeometryOk(g, |d|)
    ensures |fat| == g.maxCluster + 1
    ensures forall c | 0 <= c < |fat| :: fat[c] == Low28(RawEntry(d[FatSector(g, 0, c)], c))
  {
    seq(g.maxCluster + 1, c requires 0 <= c <= g.maxCluster => Low28(RawEntry(d[FatSector(g, 0, c)], c)))
  }

  /** Where the FAT has the entry of a cluster: four bytes, the low end first, in the first copy. */
  lemma FatBytes(d: seq<Sector>, g: Geometry, c: nat)
    requires GeometryOk(g, |d|) && c <= g.maxCluster
    ensures var b, o := d[g.fatBegin + c / 128], 4 * (c % 128);
            Fat(d, g)[c] == (Number(b[o + 1], b[o]) + 65536 * Number(b[o + 3], b[o + 2])) % 0x1000_0000
  {
    var b, o := d[g.fatBegin + c / 128], 4 * (c % 128);
    assert b[o..o + 4] == [b[o], b[o + 1], b[o + 2], b[o + 3]];
    LeFour(b[o], b[o + 1], b[o + 2], b[o + 3]);
    hide LeVal;
    Low28Masks(RawEntry(b, c));
  }

  /** A FAT sector after entry `c` is set to `v`, the top four bits kept. */
  function SetEntry(b: Sector, c: nat, v: nat): (r: Sector)
  {
    HighBound(RawEntry(b, c), 16);
    Patch(b, EntOffset(c), ToLe32(High4(RawEntry(b, c)) + Low28(v)))
  }

  ghost function SetFat(d: seq<Sector>, g: Geometry, copy: nat, c: nat, v: nat): (r: seq<Sector>)
    requires GeometryOk(g, |d|) && copy < 2 && c <= g.maxCluster
    ensures |r| == |d|
  {
    d[FatSector(g, copy, c) := SetEntry(d[FatSector(g, copy, c)], c, v)]
  }

  ghost function SetBoth(d: seq<Sector>, g: Geometry, c: nat, v: nat): (r: seq<Sector>)
    requires GeometryOk(g, |d|) && c <= g.maxCluster
    ensures |r| == |d|
  {
    SetFat(SetFat(d, g, 0, c, v), g, 1, c, v)
  }

  ghost predicate Mirrored(d: seq<Sector>, g: Geometry)
    requires GeometryOk(g, |d|)
  {
    forall x | g.fatBegin <= x < g.fatBegin + g.fatSz :: d[x] == d[x + g.fatSz]
  }

  lemma Le32Patched(b: Sector, o: nat, w: seq<byte>, o': nat)
    requires o + 4 <= 512 && o' + 4 <= 512 && |w| == 4
    requires o' == o || o + 4 <= o' || o' + 4 <= o
    ensures Le32(Patch(b, o, w), o') == if o' == o then Le32(w, 0) else Le32(b, o')
  {
    assert Patch(b, o, w)[o'..o' + 4] == if o' == o then w else b[o'..o' + 4];
    assert w[0..4] == w;
  }

  lemma MaskWord(x: nat, v: nat)
    requires x < U32 && v < 0x1000_0000
    ensures High4(x) + Low28(v) < U32 && Low28(High4(x) + Low28(v)) == v
    ensures High4(High4(x) + Low28(v)) == High4(x)
  {
    HighBound(x, 16);
    HighLow(x, v);
  }

  lemma SetEntryReads(b: Sector, c: nat, v: nat, c': nat)
    requires v < 0x1000_0000
    requires c / 128 == c' / 128
    ensures Low28(RawEntry(SetEntry(b, c, v), c')) == if c' == c then v else Low28(RawEntry(b, c'))
    ensures High4(RawEntry(SetEntry(b, c, v), c')) == High4(RawEntry(b, c'))
  {
    hide Patch, ToLe32, Le32, Low28, High4, EntOffset;
    MaskWord(RawEntry(b, c), v);
    if c != c' {
      EntOffsetsApart(c, c');
    }
    Le32Patched(b, EntOffset(c), ToLe32(High4(RawEntry(b, c)) + Low28(v)), EntOffset(c'));
  }

  /** The top four bits of every entry of the primary table are the same. */
  ghost predicate ReservedKept(d: seq<Sector>, d': seq<Sector>, g: Geometry)
    requires GeometryOk(g, |d|) && |d'| == |d|
  {
    forall c | 0 <= c <= g.maxCluster ::
      High4(RawEntry(d'[FatSector(g, 0, c)], c)) == High4(RawEntry(d[FatSector(g, 0, c)], c))
  }

  /** Writing an entry of the primary copy updates exactly that link of the table, and no reserved bit. */
  lemma FatAfterSet(d: seq<Sector>, g: Geometry, c: nat, v: nat)
    requires GeometryOk(g, |d|) && c <= g.maxCluster && v < 0x1000_0000
    ensures Fat(SetFat(d, g, 0, c, v), g) == Fat(d, g)[c := v]
    ensures ReservedKept(d, SetFat(d, g, 0, c, v), g)
  {
    hide SetEntry, RawEntry, Low28, High4;
    var d' := SetFat(d, g, 0, c, v);
    forall c' | 0 <= c' <= g.maxCluster
      ensures Fat(d', g)[c'] == if c' == c then v else Fat(d, g)[c']
      ensures High4(RawEntry(d'[FatSector(g, 0, c')], c')) == High4(RawEntry(d[FatSector(g, 0, c')], c'))
    {
      if c / 128 == c' / 128 {
        SetEntryReads(d[FatSector(g, 0, c)], c, v, c');
      }
    }
  }

  /** Writing an entry of the second copy leaves the primary table as it was. */
  lemma FatAfterMirror(d: seq<Sector>, g: Geometry, c: nat, v: nat)
    requires GeometryOk(g, |d|) && c <= g.maxCluster
    ensures Fat(SetFat(d, g, 1, c, v), g) == Fat(d, g)
  {
    hide SetEntry, RawEntry, Low28;
    var d' := SetFat(d, g, 1, c, v);
    forall k | 0 <= k <= g.maxCluster ensures Fat(d', g)[k] == Fat(d, g)[k] {
      assert FatSector(g, 0, k) < g.fatBegin + g.fatSz <= FatSector(g, 1, c);
    }
  }

  /** Writing an entry of both copies keeps them identical. */
  lemma MirrorAfterBoth(d: seq<Sector>, g: Geometry, c: nat, v: nat)
    requires GeometryOk(g, |d|) && c <= g.maxCluster && Mirrored(d, g)
    ensures Mirrored(SetBoth(d, g, c, v), g)
  {
    var e := SetFat(d, g, 0, c, v);
    assert e[FatSector(g, 1, c)] == d[g.fatBegin + g.fatSz + c / 128];
    assert d[g.fatBegin + c / 128] == d[g.fatBegin + g.fatSz + c / 128];
  }

  // ----- cluster chains -----

  /** Cluster `j` of `ch` links to the next one, or ends the chain if it is the last. */
  ghost predicate LinkAt(fat: seq<nat>, ch: seq<nat>, j: nat)
    requires j < |ch|
  {
    && 2 <= ch[j] < |fat|
    && if j + 1 < |ch| then fat[ch[j]] == ch[j + 1] else fat[ch[j]] >= EOC_MIN
  }

  /** `ch` is a complete chain of the table. */
  ghost predicate Linked(fat: seq<nat>, ch: seq<nat>) {
    forall j | 0 <= j < |ch| :: LinkAt(fat, ch, j)
  }

  lemma LinkedFrame(fat: seq<nat>, fat': seq<nat>, ch: seq<nat>)
    requires Linked(fat, ch) && |fat| == |fat'|
    requires forall j | 0 <= j < |ch| :: ch[j] < |fat| ==> fat'[ch[j]] == fat[ch[j]]
    ensures Linked(fat', ch)
  {
    forall j | 0 <= j < |ch| ensures LinkAt(fat', ch, j) {
      assert LinkAt(fat, ch, j);
    }
  }

  lemma LinkedNotFree(fat: seq<nat>, ch: seq<nat>, j: nat)
    requires Linked(fat, ch) && j < |ch|
    ensures 2 <= ch[j] < |fat| && fat[ch[j]] >= 2
  {
    assert LinkAt(fat, ch, j);
    if j + 1 < |ch| {
      assert LinkAt(fat, ch, j + 1);
    }
  }

  lemma LinkedInRange(fat: seq<nat>, ch: seq<nat>)
    requires Linked(fat, ch)
    ensures forall j | 0 <= j < |ch| :: 2 <= ch[j] < |fat|
  {
    forall j | 0 <= j < |ch| ensures 2 <= ch[j] < |fat| {
      assert LinkAt(fat, ch, j);
    }
  }

  /** No cluster occurs twice, within a chain or across chains. */
  ghost predicate Disjoint(chains: seq<seq<nat>>) {
    forall i, j, i', j' | 0 <= i < |chains| && 0 <= j < |chains[i]| && 0 <= i' < |chains| && 0 <= j' < |chains[i']| ::
      chains[i][j] == chains[i'][j'] ==> i == i' && j == j'
  }

  /** The link graph as a set of disjoint, acyclic, in-range chains. */
  ghost predicate ChainsOk(fat: seq<nat>, chains: seq<seq<nat>>) {
    && (forall i | 0 <= i < |chains| :: Linked(fat, chains[i]))
    && Disjoint(chains)
  }

  /** Claiming a free cluster adds a one-cluster chain. */
  lemma ClaimKeeps(fat: seq<nat>, chains: seq<seq<nat>>, c: nat)
    requires ChainsOk(fat, chains) && 2 <= c < |fat| && fat[c] == 0
    ensures ChainsOk(fat[c := EOC_MIN], chains + [[c]])
  {
    forall i, j | 0 <= i < |chains| && 0 <= j < |chains[i]|
      ensures chains[i][j] != c
    {
      LinkedNotFree(fat, chains[i], j);
    }
    forall i | 0 <= i < |chains| ensures Linked(fat[c := EOC_MIN], chains[i]) {
      LinkedFrame(fat, fat[c := EOC_MIN], chains[i]);
    }
  }

  /** Linking `chains[i][j]` to the one-cluster chain at the end: chain `i` is cut after `j` and
      continued by the new cluster; what followed stays behind as a chain of its own. */
  ghost function Relink(chains: seq<seq<nat>>, i: nat, j: nat): (r: seq<seq<nat>>)
    requires i < |chains| - 1 && j < |chains[i]|
    ensures |r| == |chains|
    ensures forall k | 0 <= k < |chains| - 1 && k != i :: r[k] == chains[k]
    ensures |r[i]| == j + 1 + |chains[|chains| - 1]|
  {
    chains[i := chains[i][..j + 1] + chains[|chains| - 1]][|chains| - 1 := chains[i][j + 1..]]
  }

  lemma LinkKeeps(fat: seq<nat>, chains: seq<seq<nat>>, i: nat, j: nat, c: nat)
    requires ChainsOk(fat, chains) && i < |chains| - 1 && j < |chains[i]|
    requires chains[|chains| - 1] == [c]
    ensures chains[i][j] < |fat|
    ensures ChainsOk(fat[chains[i][j] := c], Relink(chains, i, j))
  {
    var r := Relink(chains, i, j);
    LinkedNotFree(fat, chains[i], j);
    forall k | 0 <= k < |r| ensures Linked(fat[chains[i][j] := c], r[k]) {
      LinkOne(fat, chains, i, j, c, k);
    }
    LinkDisjoint(chains, i, j, c);
  }

  // ----- no cluster is lost track of -----

  ghost predicate OnChain(chains: seq<seq<nat>>, c: nat) {
    exists i | 0 <= i < |chains| :: c in chains[i]
  }

  /** Every cluster in use lies on a recorded chain: a file's, the root's, or one left behind. */
  ghost predicate Tracked(fat: seq<nat>, chains: seq<seq<nat>>) {
    forall c | 2 <= c < |fat| && fat[c] != 0 :: OnChain(chains, c)
  }

  lemma ClaimTracks(fat: seq<nat>, chains: seq<seq<nat>>, c: nat)
    requires Tracked(fat, chains) && c < |fat|
    ensures Tracked(fat[c := EOC_MIN], chains + [[c]])
  {
    var chains' := chains + [[c]];
    assert c in chains'[|chains|];
    forall x | OnChain(chains, x) ensures OnChain(chains', x) {
      var i :| 0 <= i < |chains| && x in chains[i];
      assert x in chains'[i];
    }
  }

  /** Linking moves clusters between chains and loses none, wherever the link is written. */
  lemma LinkTracks(fat: seq<nat>, chains: seq<seq<nat>>, i: nat, j: nat, c: nat)
    requires Tracked(fat, chains) && i < |chains| - 1 && j < |chains[i]| && chains[i][j] < |fat|
    ensures Tracked(fat[chains[i][j] := c], Relink(chains, i, j))
  {
    var r, last := Relink(chains, i, j), |chains| - 1;
    forall x | OnChain(chains, x) ensures OnChain(r, x) {
      var k :| 0 <= k < |chains| && x in chains[k];
      if k == i {
        assert x in chains[i][..j + 1] || x in chains[i][j + 1..];
        assert x in r[i] || x in r[last];
      } else if k == last {
        assert x in r[i];
      } else {
        assert r[k] == chains[k];
      }
    }
    assert chains[i][j] in chains[i];
  }

  /** What an operation keeps: no cluster in use is lost track of. */
  ghost predicate TracksOn(d: seq<Sector>, d': seq<Sector>, g: Geometry, chains: seq<seq<nat>>, chains': seq<seq<nat>>)
    requires GeometryOk(g, |d|) && GeometryOk(g, |d'|)
  {
    Tracked(Fat(d, g), chains) ==> Tracked(Fat(d', g), chains')
  }

  lemma LinkOne(fat: seq<nat>, chains: seq<seq<nat>>, i: nat, j: nat, c: nat, k: nat)
    requires ChainsOk(fat, chains) && i < |chains| - 1 && j < |chains[i]| && k < |chains|
    requires chains[i][j] < |fat|
    requires chains[|chains| - 1] == [c]
    ensures Linked(fat[chains[i][j] := c], Relink(chains, i, j)[k])
  {
    var last := |chains| - 1;
    var r := Relink(chains, i, j);
    assert Linked(fat, chains[i]) && Linked(fat, chains[last]) && Linked(fat, chains[k]);
    assert chains[last][0] == c;
    var f' := fat[chains[i][j] := c];
    LinkedNotFree(fat, chains[i], j);
    if k == i {
      forall m | 0 <= m < |r[k]| ensures LinkAt(f', r[k], m) {
        if m <= j {
          assert LinkAt(fat, chains[i], m);
          assert r[k][m] == chains[i][m] && (m < j ==> chains[i][m] != chains[i][j]);
        } else {
          assert LinkAt(fat, chains[last], 0);
          assert r[k][m] == c && c != chains[i][j];
        }
      }
    } else if k == last {
      forall m | 0 <= m < |r[k]| ensures LinkAt(f', r[k], m) {
        assert LinkAt(fat, chains[i], j + 1 + m);
        assert r[k][m] == chains[i][j + 1 + m] && chains[i][j + 1 + m] != chains[i][j];
      }
    } else {
      LinkedInRange(fat, chains[k]);
      LinkedFrame(fat, f', chains[k]);
    }
  }

  lemma LinkDisjoint(chains: seq<seq<nat>>, i: nat, j: nat, c: nat)
    requires Disjoint(chains) && i < |chains| - 1 && j < |chains[i]|
    requires chains[|chains| - 1] == [c]
    ensures Disjoint(Relink(chains, i, j))
  {
    hide Relink;
    var r := Relink(chains, i, j);
    forall a, x, b, y | 0 <= a < |r| && 0 <= x < |r[a]| && 0 <= b < |r| && 0 <= y < |r[b]| && r[a][x] == r[b][y]
      ensures a == b && x == y
    {
      var (a0, x0) := Origin(chains, i, j, c, a, x);
      var (b0, y0) := Origin(chains, i, j, c, b, y);
      assert chains[a0][x0] == chains[b0][y0];
    }
  }

  /** Each position of the relinked chains comes from one position of the old ones. */
  ghost function Origin(chains: seq<seq<nat>>, i: nat, j: nat, c: nat, a: nat, x: nat): (p: (nat, nat))
    requires i < |chains| - 1 && j < |chains[i]| && chains[|chains| - 1] == [c]
    requires a < |chains| && x < |Relink(chains, i, j)[a]|
    ensures p.0 < |chains| && p.1 < |chains[p.0]| && chains[p.0][p.1] == Relink(chains, i, j)[a][x]
    ensures a == i ==> p == if x <= j then (i, x) else (|chains| - 1, 0)
    ensures a == |chains| - 1 ==> p == (i, j + 1 + x)
    ensures a != i && a != |chains| - 1 ==> p == (a, x)
  {
    if a == i then (if x <= j then (i, x) else (|chains| - 1, 0))
    else if a == |chains| - 1 then (i, j + 1 + x) else (a, x)
  }

  /** The chain that starts at `c`, read off the table link by link. */
  ghost function Follow(fat: seq<nat>, c: nat, fuel: nat): (ch: seq<nat>)
    ensures forall j | 0 <= j < |ch| :: 2 <= ch[j] < |fat|
    decreases fuel
  {
    if fuel == 0 || c < 2 || c >= |fat| then [] else [c] + Follow(fat, fat[c], fuel - 1)
  }

  ghost function Chain(fat: seq<nat>, c: nat): (ch: seq<nat>)
    ensures forall j | 0 <= j < |ch| :: 2 <= ch[j] < |fat|
  {
    Follow(fat, c, |fat|)
  }

  lemma {:induction false} FollowLinked(fat: seq<nat>, ch: seq<nat>, fuel: nat)
    requires Linked(fat, ch) && 0 < |ch| <= fuel && |fat| <= EOC_MIN
    ensures Follow(fat, ch[0], fuel) == ch
    decreases fuel
  {
    assert LinkAt(fat, ch, 0);
    if |ch| > 1 {
      assert ch == [ch[0]] + ch[1..];
      assert Linked(fat, ch[1..]) by {
        forall j | 0 <= j < |ch[1..]| ensures LinkAt(fat, ch[1..], j) {
          assert LinkAt(fat, ch, j + 1);
        }
      }
      FollowLinked(fat, ch[1..], fuel - 1);
    } else {
      assert fat[ch[0]] >= EOC_MIN;
      assert Follow(fat, fat[ch[0]], fuel - 1) == [];
    }
  }

  lemma {:induction false} DistinctShort(ch: seq<nat>, lim: nat)
    requires forall j | 0 <= j < |ch| :: ch[j] < lim
    requires forall j, j' | 0 <= j < j' < |ch| :: ch[j] != ch[j']
    ensures |ch| <= lim
    decreases lim
  {
    if |ch| > 0 {
      assert ch[0] < lim;
      if j :| 0 <= j < |ch| && ch[j] == lim - 1 {
        var r := ch[..j] + ch[j + 1..];
        DistinctShort(r, lim - 1);
      } else {
        DistinctShort(ch, lim - 1);
      }
    }
  }

  /** A recorded chain is exactly what following the table from its head gives: a chain is a
      function of the FAT alone, so the bookkeeping in `chains` cannot invent contents. */
  lemma ChainIs(fat: seq<nat>, chains: seq<seq<nat>>, i: nat)
    requires ChainsOk(fat, chains) && i < |chains| && |chains[i]| > 0 && |fat| <= EOC_MIN
    ensures Chain(fat, chains[i][0]) == chains[i]
  {
    LinkedInRange(fat, chains[i]);
    DistinctShort(chains[i], |fat|);
    FollowLinked(fat, chains[i], |fat|);
  }

  // ----- clusters as sectors -----

  ghost function ClusterSector(g: Geometry, c: nat): (s: nat)
    requires 2 <= c
  {
    g.firstData + Span(g.spc, c - 2)
  }

  lemma ClusterInDisk(g: Geometry, sectors: nat, c: nat, s: nat)
    requires GeometryOk(g, sectors) && 2 <= c <= g.maxCluster && s < g.spc
    ensures g.firstData <= ClusterSector(g, c) + s < sectors
  {
    SpanMono(g.spc, c - 1, g.maxCluster - 1);
  }

  lemma ClustersApart(g: Geometry, c: nat, s: nat, c': nat, s': nat)
    requires 2 <= c && 2 <= c' && s < g.spc && s' < g.spc
    requires ClusterSector(g, c) + s == ClusterSector(g, c') + s'
    ensures c == c' && s == s'
  {
    QuotOf(g.spc, c - 2, s);
    QuotOf(g.spc, c' - 2, s');
  }

  ghost predicate InRange(g: Geometry, ch: seq<nat>) {
    forall j | 0 <= j < |ch| :: 2 <= ch[j] <= g.maxCluster
  }

  /** The sector number of the `q`-th sector of a chain. */
  ghost function ChainSector(g: Geometry, ch: seq<nat>, q: nat): (s: nat)
    requires g.spc > 0 && Quot(q, g.spc) < |ch| && 2 <= ch[Quot(q, g.spc)]
  {
    ClusterSector(g, ch[Quot(q, g.spc)]) + Rem(q, g.spc)
  }

  lemma ChainSectorInDisk(g: Geometry, sectors: nat, ch: seq<nat>, q: nat)
    requires GeometryOk(g, sectors) && InRange(g, ch) && q < Span(g.spc, |ch|)
    ensures Quot(q, g.spc) < |ch| && g.firstData <= ChainSector(g, ch, q) < sectors
  {
    QuotLt(q, g.spc, |ch|);
    QuotRem(q, g.spc);
    ClusterInDisk(g, sectors, ch[Quot(q, g.spc)], Rem(q, g.spc));
  }

  /** The sectors of a cluster. */
  ghost function ClusterBlocks(d: seq<Sector>, g: Geometry, c: nat): (bs: seq<Sector>)
    requires GeometryOk(g, |d|) && 2 <= c <= g.maxCluster
    ensures |bs| == g.spc
  {
    ClusterInDisk(g, |d|, c, g.spc - 1);
    d[ClusterSector(g, c)..ClusterSector(g, c) + g.spc]
  }

  lemma ClusterBlockAt(d: seq<Sector>, g: Geometry, c: nat, s: nat)
    requires GeometryOk(g, |d|) && 2 <= c <= g.maxCluster && s < g.spc
    ensures ClusterSector(g, c) + s < |d| && ClusterBlocks(d, g, c)[s] == d[ClusterSector(g, c) + s]
  {
    ClusterInDisk(g, |d|, c, g.spc - 1);
    hide ClusterSector, Span;
  }

  /** The sectors of a chain, in order. */
  ghost function Blocks(d: seq<Sector>, g: Geometry, ch: seq<nat>): (bs: seq<Sector>)
    requires GeometryOk(g, |d|) && InRange(g, ch)
    ensures |bs| == Span(g.spc, |ch|)
  {
    if ch == [] then [] else Blocks(d, g, ch[..|ch| - 1]) + ClusterBlocks(d, g, ch[|ch| - 1])
  }

  lemma {:induction false} BlockAt(d: seq<Sector>, g: Geometry, ch: seq<nat>, q: nat)
    requires GeometryOk(g, |d|) && InRange(g, ch) && q < Span(g.spc, |ch|)
    ensures Quot(q, g.spc) < |ch| && g.firstData <= ChainSector(g, ch, q) < |d|
    ensures Blocks(d, g, ch)[q] == d[ChainSector(g, ch, q)]
    decreases |ch|
  {
    hide Quot, Rem, ClusterBlocks, ClusterSector;
    ChainSectorInDisk(g, |d|, ch, q);
    var k := |ch| - 1;
    var n := Span(g.spc, k);
    var init, last := Blocks(d, g, ch[..k]), ClusterBlocks(d, g, ch[k]);
    assert Blocks(d, g, ch) == init + last && |init| == n;
    if q < n {
      BlockAt(d, g, ch[..k], q);
      assert Blocks(d, g, ch)[q] == init[q];
    } else {
      QuotOf(g.spc, k, q - n);
      ClusterBlockAt(d, g, ch[k], q - n);
      assert Blocks(d, g, ch)[q] == last[q - n];
    }
  }

  lemma SectorsApart(g: Geometry, ch: seq<nat>, r: nat, q: nat)
    requires g.spc > 0 && Quot(r, g.spc) < |ch| && Quot(q, g.spc) < |ch|
    requires 2 <= ch[Quot(r, g.spc)] && 2 <= ch[Quot(q, g.spc)]
    requires forall j, j' | 0 <= j < j' < |ch| :: ch[j] != ch[j']
    requires ChainSector(g, ch, r) == ChainSector(g, ch, q)
    ensures r == q
  {
    QuotRem(r, g.spc);
    QuotRem(q, g.spc);
    ClustersApart(g, ch[Quot(r, g.spc)], Rem(r, g.spc), ch[Quot(q, g.spc)], Rem(q, g.spc));
  }

  /** Writing the `q`-th sector of a chain without repetition replaces that block and no other. */
  lemma BlocksAfterWrite(d: seq<Sector>, g: Geometry, ch: seq<nat>, q: nat, b: Sector)
    requires GeometryOk(g, |d|) && InRange(g, ch) && q < Span(g.spc, |ch|)
    requires forall j, j' | 0 <= j < j' < |ch| :: ch[j] != ch[j']
    ensures Quot(q, g.spc) < |ch| && g.firstData <= ChainSector(g, ch, q) < |d|
    ensures Blocks(d[ChainSector(g, ch, q) := b], g, ch) == Blocks(d, g, ch)[q := b]
  {
    BlockAt(d, g, ch, q);
    var d' := d[ChainSector(g, ch, q) := b];
    forall r | 0 <= r < Span(g.spc, |ch|)
      ensures Blocks(d', g, ch)[r] == Blocks(d, g, ch)[q := b][r]
    {
      BlockAt(d, g, ch, r);
      BlockAt(d', g, ch, r);
      if ChainSector(g, ch, r) == ChainSector(g, ch, q) {
        SectorsApart(g, ch, r, q);
      }
    }
  }

  /** Chains outside the written cluster keep their blocks. */
  lemma BlocksFrame(d: seq<Sector>, g: Geometry, ch: seq<nat>, c: nat, s: nat, b: Sector)
    requires GeometryOk(g, |d|) && InRange(g, ch) && 2 <= c <= g.maxCluster && s < g.spc && c !in ch
    ensures g.firstData <= ClusterSector(g, c) + s < |d|
    ensures Blocks(d[ClusterSector(g, c) + s := b], g, ch) == Blocks(d, g, ch)
  {
    ClusterInDisk(g, |d|, c, s);
    var d' := d[ClusterSector(g, c) + s := b];
    forall r | 0 <= r < Span(g.spc, |ch|)
      ensures Blocks(d', g, ch)[r] == Blocks(d, g, ch)[r]
    {
      BlockAt(d, g, ch, r);
      BlockAt(d', g, ch, r);
      if ChainSector(g, ch, r) == ClusterSector(g, c) + s {
        QuotRem(r, g.spc);
        ClustersApart(g, ch[Quot(r, g.spc)], Rem(r, g.spc), c, s);
      }
    }
  }

  /** Everything from the first data sector on is the same on both disks. */
  ghost predicate DataSame(d: seq<Sector>, d': seq<Sector>, g: Geometry) {
    && |d| == |d'|
    && forall x | g.firstData <= x < |d| :: d[x] == d'[x]
  }

  lemma BlocksSame(d: seq<Sector>, d': seq<Sector>, g: Geometry, ch: seq<nat>)
    requires GeometryOk(g, |d|) && InRange(g, ch) && DataSame(d, d', g)
    ensures Blocks(d, g, ch) == Blocks(d', g, ch)
  {
    forall r | 0 <= r < Span(g.spc, |ch|) ensures Blocks(d', g, ch)[r] == Blocks(d, g, ch)[r] {
      BlockAt(d, g, ch, r);
      BlockAt(d', g, ch, r);
    }
  }

  /** The blocks of an extended chain begin with the blocks of the chain. */
  lemma BlocksPrefix(d: seq<Sector>, g: Geometry, ch: seq<nat>, c: nat)
    requires GeometryOk(g, |d|) && InRange(g, ch + [c]) && InRange(g, ch)
    ensures |Blocks(d, g, ch + [c])| == |Blocks(d, g, ch)| + g.spc
    ensures Blocks(d, g, ch + [c])[..Span(g.spc, |ch|)] == Blocks(d, g, ch)
  {
    var ch' := ch + [c];
    assert Span(g.spc, |ch'|) == Span(g.spc, |ch|) + g.spc;
    forall r | 0 <= r < Span(g.spc, |ch|) ensures Blocks(d, g, ch')[r] == Blocks(d, g, ch)[r] {
      BlockAt(d, g, ch, r);
      BlockAt(d, g, ch', r);
    }
  }

  // ----- file contents -----

  /** The first `size` bytes stored in a run of sectors (all of them, if there are fewer). */
  ghost function Content(bs: seq<Sector>, size: nat): (s: seq<byte>)
    ensures |s| == Min(size, 512 * |bs|)
  {
    seq(Min(size, 512 * |bs|), p requires 0 <= p < 512 * |bs| => bs[p / 512][p % 512])
  }

  /** `prev` with `data` written over it at `o`, longer by whatever reaches past the end. */
  function Splice(prev: seq<byte>, o: nat, data: seq<byte>): (r: seq<byte>)
    requires o <= |prev|
    ensures |r| == if o + |data| > |prev| then o + |data| else |prev|
  {
    prev[..o] + data + (if o + |data| <= |prev| then prev[o + |data|..] else [])
  }

  /** Overwriting part of one sector splices the content. */
  lemma ContentSplice(bs: seq<Sector>, size: nat, o: nat, data: seq<byte>)
    requires o <= size <= 512 * |bs| && o / 512 < |bs| && o % 512 + |data| <= 512
    ensures o + |data| <= 512 * |bs|
    ensures var bs' := bs[o / 512 := Patch(bs[o / 512], o % 512, data)];
            && Content(bs', if o + |data| > size then o + |data| else size) == Splice(Content(bs, size), o, data)
            && Content(bs', size) == Splice(Content(bs, size), o, data)[..size]
  {
    var bs' := bs[o / 512 := Patch(bs[o / 512], o % 512, data)];
    var size' := if o + |data| > size then o + |data| else size;
    var c := Content(bs', size');
    var e := Splice(Content(bs, size), o, data);
    forall p | 0 <= p < size' ensures c[p] == e[p] {
      if p / 512 == o / 512 {
      } else {
        assert bs'[p / 512] == bs[p / 512];
      }
    }
    assert c == e;
    assert Content(bs', size) == c[..size];
  }

  /** Up to position `upTo`, `now` has what `was` had, except perhaps in `[offset, offset + n)`. */
  ghost predicate BytesKept(was: seq<byte>, now: seq<byte>, upTo: nat, offset: nat, n: nat) {
    forall p | 0 <= p < |was| && p < upTo && !(offset <= p < offset + n) :: p < |now| && now[p] == was[p]
  }

  /** `now` has `data` at `offset`, as far as the recorded size goes. */
  ghost predicate ReadsBack(now: seq<byte>, size: nat, offset: nat, data: seq<byte>) {
    && (data != [] && offset < size ==> Min(offset + |data|, size) <= |now|)
    && forall p | offset <= p < offset + |data| && p < size :: p < |now| && now[p] == data[p - offset]
  }

  /** Overwriting part of one sector, for content of any length: the bytes read back, and all others
      are as they were. */
  lemma ContentPatched(bs: seq<Sector>, size: nat, size': nat, o: nat, data: seq<byte>)
    requires o / 512 < |bs| && o % 512 + |data| <= 512 && size <= size'
    ensures var now := Content(bs[o / 512 := Patch(bs[o / 512], o % 512, data)], size');
            BytesKept(Content(bs, size), now, size, o, |data|) && ReadsBack(now, size', o, data)
  {
    var q := o / 512;
    var bs' := bs[q := Patch(bs[q], o % 512, data)];
    var was, now := Content(bs, size), Content(bs', size');
    forall p | 0 <= p < |was| && !(o <= p < o + |data|) ensures p < |now| && now[p] == was[p] {
      if p / 512 != q {
        assert bs'[p / 512] == bs[p / 512];
      }
    }
    forall p | o <= p < o + |data| && p < size' ensures p < |now| && now[p] == data[p - o] {
      assert p / 512 == q && p % 512 == o % 512 + (p - o);
    }
  }

  /** Sectors that agree on the first `n` hold the same content up to there. */
  lemma ContentAgrees(bs: seq<Sector>, bs': seq<Sector>, n: nat, size: nat)
    requires n <= |bs| && n <= |bs'| && bs[..n] == bs'[..n]
    ensures BytesKept(Content(bs, size), Content(bs', size), 512 * n, 0, 0)
  {
    forall p | 0 <= p < size && p < 512 * n ensures Content(bs', size)[p] == Content(bs, size)[p] {
      assert bs[p / 512] == bs[..n][p / 512] == bs'[p / 512];
    }
  }

  /** A chain cut behind the sectors `kept` and continued by others stores the same content if and only
      if the content ends before the cut, or the others hold what the ones behind the cut held. */
  lemma ContentCut(kept: seq<Sector>, behind: seq<Sector>, others: seq<Sector>, size: nat)
    ensures Content(kept + others, size) == Content(kept + behind, size) <==>
            size <= 512 * |kept| ||
            Content(others, size - 512 * |kept|) == Content(behind, size - 512 * |kept|)
  {
    ContentJoined(kept, behind, size);
    ContentJoined(kept, others, size);
    hide Content;
    if size > 512 * |kept| {
      var n := 512 * |kept|;
      var a, b, c := Content(kept, n), Content(behind, size - n), Content(others, size - n);
      assert (a + b)[n..] == b && (a + c)[n..] == c;
    }
  }

  lemma ContentJoined(a: seq<Sector>, b: seq<Sector>, size: nat)
    ensures Content(a + b, size) ==
            if size <= 512 * |a| then Content(a, size)
            else Content(a, 512 * |a|) + Content(b, size - 512 * |a|)
  {
    var n := 512 * |a|;
    var s := Content(a + b, size);
    var t := if size <= n then Content(a, size) else Content(a, n) + Content(b, size - n);
    forall p | 0 <= p < |s| ensures s[p] == t[p] {
      if p < n {
        assert (a + b)[p / 512] == a[p / 512];
      } else {
        assert p / 512 - |a| == (p - n) / 512 && p % 512 == (p - n) % 512;
        assert (a + b)[p / 512] == b[(p - n) / 512];
      }
    }
  }

  lemma ContentShrinks(bs: seq<Sector>, size: nat, n: nat)
    requires n <= size
    ensures Content(bs, n) == Content(bs, size)[..Min(n, |Content(bs, size)|)]
  {
  }

  lemma ContentPrefix(bs: seq<Sector>, bs': seq<Sector>, size: nat)
    requires |bs| <= |bs'| && bs'[..|bs|] == bs && size <= 512 * |bs|
    ensures Content(bs', size) == Content(bs, size)
  {
    forall p | 0 <= p < size ensures Content(bs', size)[p] == Content(bs, size)[p] {
      assert bs'[p / 512] == bs'[..|bs|][p / 512];
    }
  }

  /** The bytes of the file whose chain starts at `start` and whose recorded size is `size`. */
  ghost function FileContent(d: seq<Sector>, g: Geometry, start: nat, size: nat): (s: seq<byte>)
    requires GeometryOk(g, |d|)
  {
    Content(Blocks(d, g, Chain(Fat(d, g), start)), size)
  }

  // ----- directory entries -----

  type Name = s: seq<byte> | |s| == 11 witness seq(11, _ => 32)
  type Entry = s: seq<byte> | |s| == 32 witness seq(32, _ => 0)

  /** An entry a name lookup may match: in use, neither a long-name part nor a volume label. */
  predicate IsFile(e: Entry) {
    e[0] != 0x00 && e[0] != 0xE5 && e[11] != 0x0F && e[11] / 8 % 2 == 0
  }

  function EntStart(e: Entry): (c: nat)
    ensures c < U32
  {
    LeBound(e[26..28] + e[20..22]);
    Limits();
    LeVal(e[26..28] + e[20..22])
  }

  function EntSize(e: Entry): (n: nat)
    ensures n < U32
  {
    Le32(e, 28)
  }

  /** Where a directory entry has its numbers, the low end first. */
  lemma EntryBytes(e: Entry)
    ensures EntStart(e) == Number(e[27], e[26]) + 65536 * Number(e[21], e[20])
    ensures EntSize(e) == Number(e[29], e[28]) + 65536 * Number(e[31], e[30])
  {
    assert e[26..28] + e[20..22] == [e[26], e[27], e[20], e[21]] && e[28..32] == [e[28], e[29], e[30], e[31]];
    LeFour(e[26], e[27], e[20], e[21]);
    LeFour(e[28], e[29], e[30], e[31]);
  }

  /** Entry `k` of a directory stored in `bs`: sixteen 32-byte records to a sector. */
  ghost function Ents(bs: seq<Sector>): (es: seq<Entry>)
    ensures |es| == 16 * |bs|
    ensures forall k | 0 <= k < |es| :: es[k] == bs[k / 16][k % 16 * 32..k % 16 * 32 + 32]
  {
    seq(16 * |bs|, k requires 0 <= k < 16 * |bs| => bs[k / 16][k % 16 * 32..k % 16 * 32 + 32])
  }

  function PatchStartSize(b: seq<byte>, o: nat, start: nat, size: nat): (r: seq<byte>)
    requires o + 32 <= |b| && start < U32 && size < U32
    ensures |r| == |b|
    ensures forall i | 0 <= i < |b| && !(o + 20 <= i < o + 22) && !(o + 26 <= i < o + 32) :: r[i] == b[i]
  {
    Patch(Patch(Patch(b, o + 20, ToLe32(start)[2..4]), o + 26, ToLe32(start)[0..2]), o + 28, ToLe32(size))
  }

  /** An updated entry reads back the new start and size and keeps its name and attributes. */
  lemma PatchedEntry(e: Entry, start: nat, size: nat)
    requires start < U32 && size < U32
    ensures var e' := PatchStartSize(e, 0, start, size);
            && EntStart(e') == start && EntSize(e') == size && e'[..12] == e[..12] && IsFile(e') == IsFile(e)
  {
    var e' := PatchStartSize(e, 0, start, size);
    var w, sz := ToLe32(start), ToLe32(size);
    assert e'[20..22] == w[2..4] && e'[26..28] == w[0..2] && e'[28..32] == sz;
    assert w[0..2] + w[2..4] == w == w[0..4] && sz[0..4] == sz;
    assert e'[0] == e[..12][0] == e[0] && e'[11] == e[11];
    hide LeVal, LeBytes, Patch, PatchStartSize;
  }

  /** A sector rewritten only inside record `j` changes only that entry. */
  lemma EntsAfterWrite(bs: seq<Sector>, q: nat, j: nat, b: Sector)
    requires q < |bs| && j < 16
    requires forall i | 0 <= i < 512 && !(j * 32 <= i < j * 32 + 32) :: b[i] == bs[q][i]
    ensures Ents(bs[q := b]) == Ents(bs)[q * 16 + j := b[j * 32..j * 32 + 32]]
  {
    var es, es' := Ents(bs), Ents(bs[q := b]);
    forall k | 0 <= k < |es| ensures es'[k] == es[q * 16 + j := b[j * 32..j * 32 + 32]][k] {
      if k / 16 == q && k % 16 != j {
        assert b[k % 16 * 32..k % 16 * 32 + 32] == bs[q][k % 16 * 32..k % 16 * 32 + 32];
      }
    }
  }

  // ----- name lookup -----

  /** The first file entry called `name` at or after `k`, stopping at an end-of-directory mark. */
  ghost function LookupFrom(es: seq<Entry>, name: Name, k: nat): (r: Option<nat>)
    ensures r.Some? ==> k <= r.value < |es| && IsFile(es[r.value]) && es[r.value][..11] == name
    decreases |es| - k
  {
    if k >= |es| || es[k][0] == 0x00 then None
    else if IsFile(es[k]) && es[k][..11] == name then Some(k)
    else LookupFrom(es, name, k + 1)
  }

  ghost function Lookup(es: seq<Entry>, name: Name): (r: Option<nat>)
    ensures r.Some? ==> r.value < |es| && IsFile(es[r.value]) && es[r.value][..11] == name
  {
    LookupFrom(es, name, 0)
  }

  /** After the first end-of-directory mark every entry is one. */
  ghost predicate EndMarked(es: seq<Entry>) {
    forall k, k' | 0 <= k < k' < |es| :: es[k][0] == 0x00 ==> es[k'][0] == 0x00
  }

  // ----- the volume invariant -----

  ghost predicate Heads(chains: seq<seq<nat>>, c: nat) {
    exists i | 1 <= i < |chains| :: |chains[i]| > 0 && chains[i][0] == c
  }

  /** What every run keeps, sector failures included: the link graph is sound, the root
      directory is chain 0, every file starts at the head of its own chain, the directory is used up
      to its end mark. */
  ghost predicate Structure(d: seq<Sector>, g: Geometry, chains: seq<seq<nat>>) {
    && GeometryOk(g, |d|)
    && ChainsOk(Fat(d, g), chains)
    && |chains| > 0 && |chains[0]| > 0 && chains[0][0] == g.rootCluster
    && InRange(g, chains[0])
    && StartsOk(Root(d, g, chains[0]), chains) && Listed(Root(d, g, chains[0]))
  }

  ghost function Root(d: seq<Sector>, g: Geometry, root: seq<nat>): (es: seq<Entry>)
    requires GeometryOk(g, |d|) && InRange(g, root)
    ensures |es| == 16 * (Span(g.spc, |root|))
  {
    Ents(Blocks(d, g, root))
  }

  ghost predicate StartsOk(es: seq<Entry>, chains: seq<seq<nat>>) {
    && (forall k | 0 <= k < |es| && IsFile(es[k]) :: EntStart(es[k]) == 0 || Heads(chains, EntStart(es[k])))
    && (forall k, k' | 0 <= k < k' < |es| && IsFile(es[k]) && IsFile(es[k']) ::
          EntStart(es[k]) != 0 ==> EntStart(es[k]) != EntStart(es[k']))
  }

  /** Nothing is listed behind an end mark, and a file without a chain is empty. */
  ghost predicate Listed(es: seq<Entry>) {
    EndMarked(es) && forall k | 0 <= k < |es| && IsFile(es[k]) && EntStart(es[k]) == 0 :: EntSize(es[k]) == 0
  }

  /** Every recorded size is covered by the file's chain. */
  ghost predicate Covered(d: seq<Sector>, g: Geometry, es: seq<Entry>)
    requires GeometryOk(g, |d|)
  {
    forall k | 0 <= k < |es| && IsFile(es[k]) ::
      EntSize(es[k]) <= 512 * Span(g.spc, |Chain(Fat(d, g), EntStart(es[k]))|)
  }

  /** A consistent volume: sound structure, identical FAT copies, covered sizes. */
  ghost predicate Volume(d: seq<Sector>, g: Geometry, chains: seq<seq<nat>>) {
    && Structure(d, g, chains)
    && Mirrored(d, g)
    && Covered(d, g, Root(d, g, chains[0]))
  }
}
