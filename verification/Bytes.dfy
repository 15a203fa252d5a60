/** Bytes, fixed-width words and in-place patches shared by the disk and network models. */
module Bytes {

  type byte = x: int | 0 <= x < 256

  const U32: nat := 0x1_0000_0000

  datatype Option<+T> = None | Some(value: T)

  function Min(a: nat, b: nat): nat { if a <= b then a else b }

  function Word(lo: nat, hi: nat): nat { lo + 256 * hi }

  /** The number that bytes stand for, least significant first. */
  function LeVal(s: seq<byte>): nat {
    if s == [] then 0 else Word(s[0], LeVal(s[1..]))
  }

  /** The `n` low bytes of `v`, least significant first. */
  function LeBytes(v: nat, n: nat): (b: seq<byte>)
    ensures |b| == n
  {
    if n == 0 then [] else [v % 256] + LeBytes(v / 256, n - 1)
  }

  function Limit(n: nat): (l: nat)
    ensures l > 0
  {
    if n == 0 then 1 else 256 * Limit(n - 1)
  }

  lemma {:induction false} LeBound(s: seq<byte>)
    ensures LeVal(s) < Limit(|s|)
  {
    if s != [] {
      LeBound(s[1..]);
    }
  }

  lemma {:induction false} LeRoundTrip(v: nat, n: nat)
    requires v < Limit(n)
    ensures LeVal(LeBytes(v, n)) == v
  {
    if n > 0 {
      LeRoundTrip(v / 256, n - 1);
      assert LeBytes(v, n)[1..] == LeBytes(v / 256, n - 1);
    }
  }

  lemma LeConcat2(a: seq<byte>, b: seq<byte>)
    requires |a| == 2
    ensures LeVal(a + b) == LeVal(a) + 0x1_0000 * LeVal(b)
  {
    assert (a + b)[1..] == a[1..] + b && (a[1..] + b)[1..] == b && a[1..][1..] == [];
    assert LeVal(a + b) == Word(a[0], LeVal(a[1..] + b)) && LeVal(a[1..] + b) == Word(a[1], LeVal(b));
    assert LeVal(a) == Word(a[0], LeVal(a[1..])) && LeVal(a[1..]) == Word(a[1], 0);
  }

  lemma Limits()
    ensures Limit(2) == 0x1_0000 && Limit(4) == U32
  {
    assert Limit(1) == 256 && Limit(3) == 0x100_0000;
  }

  /** The bytes of a 32-bit word are those of its two halves. */
  lemma LeHalves(v: nat)
    requires v < U32
    ensures LeBytes(v, 4)[0..2] == LeBytes(v % 0x1_0000, 2) && LeBytes(v, 4)[2..4] == LeBytes(v / 0x1_0000, 2)
  {
    var q, r := v / 0x1_0000, v % 0x1_0000;
    var x := r / 256;
    HalfDigits(q, r);
    assert LeBytes(v, 4) == [v % 256] + LeBytes(v / 256, 3);
    assert LeBytes(v / 256, 3) == [v / 256 % 256] + LeBytes(q, 2);
    assert LeBytes(r, 2) == [r % 256] + LeBytes(x, 1) && LeBytes(x, 1) == [x % 256] + LeBytes(x / 256, 0);
    hide LeBytes;
  }

  lemma DivStep(q: nat, x: nat)
    requires x < 256
    ensures (256 * q + x) / 256 == q && (256 * q + x) % 256 == x
  {
  }

  lemma HalfDigits(q: nat, r: nat)
    requires r < 0x1_0000
    ensures var v := 0x1_0000 * q + r; v % 256 == r % 256 && v / 256 % 256 == r / 256 % 256 && v / 256 / 256 == q
  {
    var x, y := r / 256, r % 256;
    DivStep(256 * q + x, y);
    DivStep(q, x);
    DivStep(0, x);
    assert 0x1_0000 * q + r == 256 * (256 * q + x) + y;
  }

  lemma LeZero()
    ensures LeVal([0, 0, 0, 0]) == 0
  {
    var z: seq<byte> := [0, 0, 0, 0];
    assert z[1..] == [0, 0, 0] && z[1..][1..] == [0, 0] && z[1..][1..][1..] == [0] && z[1..][1..][1..][1..] == [];
  }

  // ----- little-endian words (disk structures) -----

  function Le16(b: seq<byte>, o: nat): (v: nat)
    requires o + 2 <= |b|
    ensures v < 0x1_0000
  {
    LeBound(b[o..o + 2]);
    Limits();
    LeVal(b[o..o + 2])
  }

  function Le32(b: seq<byte>, o: nat): (v: nat)
    requires o + 4 <= |b|
    ensures v < U32
  {
    LeBound(b[o..o + 4]);
    Limits();
    LeVal(b[o..o + 4])
  }

  function ToLe32(v: nat): (b: seq<byte>)
    requires v < U32
    ensures |b| == 4 && Le32(b, 0) == v
  {
    LeRoundTrip(v, 4);
    Limits();
    assert LeBytes(v, 4)[0..4] == LeBytes(v, 4);
    LeBytes(v, 4)
  }

  // ----- big-endian words (network structures) -----

  function Be16(b: seq<byte>, o: nat): (v: nat)
    requires o + 2 <= |b|
    ensures v < 0x1_0000
  {
    LeBound([b[o + 1], b[o]]);
    Limits();
    LeVal([b[o + 1], b[o]])
  }

  function Be32(b: seq<byte>, o: nat): (v: nat)
    requires o + 4 <= |b|
    ensures v < U32
  {
    LeBound([b[o + 3], b[o + 2], b[o + 1], b[o]]);
    Limits();
    LeVal([b[o + 3], b[o + 2], b[o + 1], b[o]])
  }

  function ToBe16(v: nat): (b: seq<byte>)
    requires v < 0x1_0000
    ensures |b| == 2 && Be16(b, 0) == v
  {
    var l := LeBytes(v, 2);
    LeRoundTrip(v, 2);
    Limits();
    assert [l[0], l[1]] == l;
    [l[1], l[0]]
  }

  function ToBe32(v: nat): (b: seq<byte>)
    requires v < U32
    ensures |b| == 4 && Be32(b, 0) == v
  {
    var l := LeBytes(v, 4);
    LeRoundTrip(v, 4);
    Limits();
    assert [l[0], l[1], l[2], l[3]] == l;
    [l[3], l[2], l[1], l[0]]
  }

  /** `s` with `p` written over it starting at `o`. */
  function Patch<T>(s: seq<T>, o: nat, p: seq<T>): (r: seq<T>)
    requires o + |p| <= |s|
    ensures |r| == |s|
    ensures forall i | 0 <= i < |s| :: r[i] == if o <= i < o + |p| then p[i - o] else s[i]
  {
    s[..o] + p + s[o + |p|..]
  }

  /** Two bytes as a number. */
  function Number(high: byte, low: byte): (v: nat) { 256 * (high as int) + low as int }

  lemma LeTwo(a: byte, b: byte)
    ensures LeVal([a, b]) == Number(b, a)
  {
    assert [a, b][1..] == [b] && [b][1..] == [];
    assert LeVal([b]) == Word(b, LeVal([]));
    assert LeVal([a, b]) == Word(a, LeVal([b]));
  }

  lemma LeFour(a: byte, b: byte, c: byte, d: byte)
    ensures LeVal([a, b, c, d]) == Number(b, a) + 65536 * Number(d, c)
  {
    LeTwo(c, d);
    assert [a, b, c, d][1..] == [b, c, d] && [b, c, d][1..] == [c, d];
    assert LeVal([b, c, d]) == Word(b, LeVal([c, d]));
    assert LeVal([a, b, c, d]) == Word(a, LeVal([b, c, d]));
  }
}
