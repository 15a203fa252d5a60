/**
 The physical frame allocator: one bit per frame, packed eight to a byte, scanned linearly.
 Everything is stated about the frames the bits stand for.
 */
module KernelFrames {
  import opened Bytes

  const FRAME_SIZE := 4096

  /** Bit `k` of `b`. */
  function Bit(b: bv8, k: bv3): bool {
    (b & (1 << k)) != 0
  }

  lemma BitSet(b: bv8, k: bv3, on: bool, j: bv3)
    ensures Bit(WithBit(b, k, on), j) == if j == k then on else Bit(b, j)
  {
  }

  lemma NoBits(j: bv3)
    ensures !Bit(0, j)
  {
  }

  function WithBit(b: bv8, k: bv3, on: bool): bv8 {
    if on then b | (1 << k) else b & !(1 << k)
  }

  /** The place of frame `f` in its byte. */
  function Place(f: nat): bv3 { (f % 8) as bv3 }

  lemma SamePlace(f: nat, g: nat)
    requires f / 8 == g / 8 && Place(f) == Place(g)
    ensures f == g
  {
    assert Place(f) as nat == f % 8 && Place(g) as nat == g % 8;
  }

  class Bitmap {
    const bits: array<bv8>
    const count: nat

    ghost predicate Valid()
      reads this
    {
      count <= 8 * bits.Length
    }

    predicate IsUsed(f: nat)
      reads this, bits
      requires Valid() && f < count
    {
      Bit(bits[f / 8], Place(f))
    }

    /** The frames in use, as a function of their number. */
    ghost function View(): (v: seq<bool>)
      reads this, bits
      requires Valid()
      ensures |v| == count && forall f | 0 <= f < count :: v[f] == IsUsed(f)
    {
      seq(count, f requires 0 <= f < count reads this, bits requires Valid() => IsUsed(f))
    }

    method SetUsed(f: nat, used: bool)
      requires Valid() && f < count
      modifies bits
      ensures View() == old(View())[f := used]
    {
      hide Bit, Place, WithBit;
      ghost var was := bits[..];
      bits[f / 8] := WithBit(bits[f / 8], Place(f), used);
      forall g | 0 <= g < count ensures IsUsed(g) == if g == f then used else Bit(was[g / 8], Place(g)) {
        if g / 8 == f / 8 {
          BitSet(was[f / 8], Place(f), used, Place(g));
          if Place(g) == Place(f) {
            SamePlace(f, g);
          }
        }
      }
    }

    /** Everything below `reserved` is the kernel's. */
    constructor (frames: nat, reserved: nat)
      ensures Valid() && fresh(bits) && count == frames && View() == seq(frames, f => f < reserved)
    {
      bits := new bv8[(frames + 7) / 8](_ => 0);
      count := frames;
      new;
      forall g | 0 <= g < count ensures !IsUsed(g) {
        NoBits(Place(g));
      }
      var f := 0;
      while f < frames && f < reserved
        invariant f <= frames && (f <= reserved) && View() == seq(frames, g => g < f)
      {
        SetUsed(f, true);
        f := f + 1;
      }
    }

    /** Marks the frames that `[start, end)` touches. */
    method ReserveRange(start: nat, end: nat)
      requires Valid()
      modifies bits
      ensures View() == Marked(old(View()), start / FRAME_SIZE, (end + FRAME_SIZE - 1) / FRAME_SIZE, true)
    {
      var first := start / FRAME_SIZE;
      var last := Min((end + FRAME_SIZE - 1) / FRAME_SIZE, count);
      var f := first;
      while f < last
        invariant first <= f && (f <= last || f == first) && View() == Marked(old(View()), first, f, true)
      {
        SetUsed(f, true);
        f := f + 1;
      }
    }

    /** The lowest free frame. */
    method AllocFrame() returns (r: Option<nat>)
      requires Valid()
      modifies bits
      ensures r.None? ==> View() == old(View()) && forall f | 0 <= f < count :: old(View())[f]
      ensures r.Some? ==> r.value < count && !old(View())[r.value] && View() == old(View())[r.value := true]
      ensures r.Some? ==> forall f | 0 <= f < r.value :: old(View())[f]
    {
      r := None;
      var f := 0;
      while f < count && IsUsed(f)
        invariant f <= count && forall g | 0 <= g < f :: View()[g]
      {
        f := f + 1;
      }
      if f < count {
        SetUsed(f, true);
        r := Some(f);
      }
    }

    /** The lowest run of `n` free frames, or nothing at all if there is no such run. */
    method AllocContiguous(n: nat) returns (r: Option<nat>)
      requires Valid()
      modifies bits
      ensures r.None? <==> n == 0 || forall s: nat :: !FreeRun(old(View()), s, n)
      ensures r.None? ==> View() == old(View())
      ensures r.Some? ==> FreeRun(old(View()), r.value, n) && View() == Marked(old(View()), r.value, r.value + n, true)
      ensures r.Some? ==> forall s: nat | s < r.value :: !FreeRun(old(View()), s, n)
    {
      r := None;
      if n > 0 {
        var start, len, f := 0, 0, 0;
        while f < count && len < n
          invariant f <= count && start + len == f && len <= n
          invariant forall g | start <= g < f :: !View()[g]
          invariant start == 0 || View()[start - 1]
          invariant forall s: nat | s + n <= f && s < start :: !FreeRun(View(), s, n)
        {
          if IsUsed(f) {
            len := 0;
            start := f + 1;
          } else {
            len := len + 1;
          }
          f := f + 1;
        }
        NoEarlierRun(View(), start, n, f);
        if len == n {
          assert FreeRun(View(), start, n);
          Mark(start, start + n, true);
          r := Some(start);
        }
      }
    }

    method Mark(lo: nat, hi: nat, used: bool)
      requires Valid() && lo <= hi <= count
      modifies bits
      ensures View() == Marked(old(View()), lo, hi, used)
    {
      var f := lo;
      while f < hi
        invariant lo <= f <= hi && View() == Marked(old(View()), lo, f, used)
      {
        SetUsed(f, used);
        f := f + 1;
      }
    }

    method FreeContiguous(first: nat, n: nat)
      requires Valid() && first + n <= count
      modifies bits
      ensures View() == Marked(old(View()), first, first + n, false)
    {
      Mark(first, first + n, false);
    }
  }

  /** `v` with every frame in `[lo, hi)` set to `used`. */
  ghost function Marked(v: seq<bool>, lo: nat, hi: nat, used: bool): (r: seq<bool>)
    ensures |r| == |v| && forall f | 0 <= f < |v| :: r[f] == if lo <= f < hi then used else v[f]
  {
    seq(|v|, f requires 0 <= f < |v| => if lo <= f < hi then used else v[f])
  }

  ghost predicate FreeRun(v: seq<bool>, s: nat, n: nat) {
    s + n <= |v| && forall f | s <= f < s + n :: !v[f]
  }

  lemma NoEarlierRun(v: seq<bool>, start: nat, n: nat, f: nat)
    requires start <= f <= |v| && f <= start + n && (start == 0 || v[start - 1]) && n > 0
    requires forall s: nat | s + n <= f && s < start :: !FreeRun(v, s, n)
    ensures forall s: nat | s < start :: !FreeRun(v, s, n)
    ensures f == |v| && f < start + n ==> forall s: nat :: !FreeRun(v, s, n)
  {
  }

  /** Giving back a run that was just allocated restores the bitmap. */
  lemma AllocThenFree(v: seq<bool>, s: nat, n: nat)
    requires FreeRun(v, s, n)
    ensures Marked(Marked(v, s, s + n, true), s, s + n, false) == v
  {
  }
}
