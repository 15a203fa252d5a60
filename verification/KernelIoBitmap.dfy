/** The I/O permission bitmap: an incremental reset that always equals a full rebuild. */
module KernelIoBitmap {
  import opened KernelFrames

  const BITMAP_BYTES := 8193
  const ALL: bv8 := 0xFF

  type port = x: int | 0 <= x < 65536

  function AllOnes(): (b: seq<bv8>)
    ensures |b| == BITMAP_BYTES && forall i | 0 <= i < BITMAP_BYTES :: b[i] == ALL
  {
    seq(BITMAP_BYTES, i => ALL)
  }

  /** `b` with the bit of `p` cleared: access to `p` is allowed. */
  function Allow(b: seq<bv8>, p: port): (r: seq<bv8>)
    requires |b| == BITMAP_BYTES
    ensures |r| == BITMAP_BYTES
  {
    b[p / 8 := WithBit(b[p / 8], Place(p), false)]
  }

  function AllowAll(b: seq<bv8>, ports: seq<port>): (r: seq<bv8>)
    requires |b| == BITMAP_BYTES
    ensures |r| == BITMAP_BYTES
    decreases |ports|
  {
    if ports == [] then b else AllowAll(Allow(b, ports[0]), ports[1..])
  }

  /** The simple form: deny everything, then allow each port. */
  function Rebuilt(ports: seq<port>): seq<bv8> { AllowAll(AllOnes(), ports) }

  function Needed(ports: seq<port>): (n: nat)
    ensures n <= BITMAP_BYTES && forall k | 0 <= k < |ports| :: ports[k] / 8 < n
  {
    if ports == [] then 0
    else var rest := Needed(ports[1..]); if ports[0] / 8 + 1 > rest then ports[0] / 8 + 1 else rest
  }

  predicate Denied(b: seq<bv8>, p: port)
    requires |b| == BITMAP_BYTES
  {
    Bit(b[p / 8], Place(p))
  }

  lemma AllowOne(b: seq<bv8>, p: port, q: port)
    requires |b| == BITMAP_BYTES
    ensures Denied(Allow(b, p), q) == (q != p && Denied(b, q))
  {
    hide Bit, WithBit, Place;
    if p / 8 == q / 8 {
      BitSet(b[p / 8], Place(p), false, Place(q));
      if Place(p) == Place(q) {
        SamePlace(p, q);
      }
    }
  }

  lemma {:induction false} AllowedExact(b: seq<bv8>, ports: seq<port>, q: port)
    requires |b| == BITMAP_BYTES
    ensures Denied(AllowAll(b, ports), q) <==> q !in ports && Denied(b, q)
    decreases |ports|
  {
    if ports != [] {
      hide Denied, Allow;
      AllowOne(b, ports[0], q);
      AllowedExact(Allow(b, ports[0]), ports[1..], q);
    }
  }

  /** After a rebuild a port is allowed exactly when it is listed. */
  lemma RebuiltExact(ports: seq<port>, q: port)
    ensures Denied(Rebuilt(ports), q) <==> q !in ports
  {
    AllowedExact(AllOnes(), ports, q);
    assert Denied(AllOnes(), q) by {
      AllBits(Place(q));
    }
    hide AllowAll, Denied;
  }

  lemma AllBits(k: bv3)
    ensures Bit(ALL, k)
  {
  }

  lemma {:induction false} Untouched(b: seq<bv8>, ports: seq<port>, i: nat)
    requires |b| == BITMAP_BYTES && i < BITMAP_BYTES && forall k | 0 <= k < |ports| :: ports[k] / 8 < i
    ensures AllowAll(b, ports)[i] == b[i]
    decreases |ports|
  {
    if ports != [] {
      Untouched(Allow(b, ports[0]), ports[1..], i);
    }
  }

  class IoBitmap {
    const bits: array<bv8>
    /** Bytes from here on are all ones. */
    var dirty: nat

    ghost predicate Valid()
      reads this, bits
    {
      bits.Length == BITMAP_BYTES && dirty <= BITMAP_BYTES && forall i | dirty <= i < BITMAP_BYTES :: bits[i] == ALL
    }

    constructor ()
      ensures Valid() && fresh(bits) && bits[..] == Rebuilt([])
    {
      bits := new bv8[BITMAP_BYTES](_ => ALL);
      dirty := 0;
      new;
      assert bits[..] == AllOnes();
    }

    method NeededBytes(ports: seq<port>) returns (n: nat)
      ensures n == Needed(ports)
    {
      n := 0;
      var i := |ports|;
      while i > 0
        invariant 0 <= i <= |ports| && n == Needed(ports[i..])
      {
        i := i - 1;
        assert ports[i..][1..] == ports[i + 1..];
        if ports[i] / 8 + 1 > n {
          n := ports[i] / 8 + 1;
        }
      }
    }

    /** Resets only the bytes that may differ, and still ends up with a full rebuild. */
    method SetPermissions(ports: seq<port>)
      requires Valid()
      modifies this, bits
      ensures Valid() && bits[..] == Rebuilt(ports)
    {
      hide WithBit, Place;
      var needed := NeededBytes(ports);
      var reset := if dirty > needed then dirty else needed;
      var i := 0;
      while i < reset
        invariant i <= reset && forall j | 0 <= j < i || reset <= j < BITMAP_BYTES :: bits[j] == ALL
      {
        bits[i] := ALL;
        i := i + 1;
      }
      assert bits[..] == AllOnes();
      i := 0;
      while i < |ports|
        invariant i <= |ports| && AllowAll(bits[..], ports[i..]) == Rebuilt(ports)
      {
        ghost var b := bits[..];
        var p := ports[i];
        bits[p / 8] := WithBit(bits[p / 8], Place(p), false);
        assert bits[..] == Allow(b, p);
        assert ports[i..][1..] == ports[i + 1..];
        i := i + 1;
      }
      dirty := needed;
      forall j | dirty <= j < BITMAP_BYTES ensures bits[j] == ALL {
        Untouched(AllOnes(), ports, j);
        assert bits[..][j] == bits[j];
      }
    }
  }
}
