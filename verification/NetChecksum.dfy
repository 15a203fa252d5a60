/** The Internet checksum: accumulate big-endian words, fold the carries, complement (RFC 1071). */
module NetChecksum {
  import opened Bytes

  /** The sum of the 16-bit big-endian words of `s`; an odd last byte counts as a high byte. */
  function WordSum(s: seq<byte>): nat {
    if |s| == 0 then 0
    else if |s| == 1 then Word(0, s[0])
    else Be16(s, 0) + WordSum(s[2..])
  }

  /** The one's-complement sum: congruent to `sum` modulo 65535, and 0 only for 0. */
  function Fold(sum: nat): (f: nat)
    ensures f <= 0xFFFF
  {
    if sum == 0 then 0 else 1 + (sum - 1) % 0xFFFF
  }

  function Checksum(sum: nat): (c: nat)
    ensures c <= 0xFFFF
  {
    0xFFFF - Fold(sum)
  }

  /** A receiver that adds up everything, checksum included, gets all ones. */
  ghost predicate Verifies(sum: nat) { Fold(sum) == 0xFFFF }

  method Accumulate(sum: nat, data: seq<byte>) returns (r: nat)
    requires sum + WordSum(data) < U32
    ensures r == sum + WordSum(data)
  {
    r := sum;
    var i := 0;
    while i + 2 <= |data|
      invariant i <= |data| && r + WordSum(data[i..]) == sum + WordSum(data)
    {
      assert data[i..][2..] == data[i + 2..];
      r := r + Be16(data, i);
      i := i + 2;
    }
    if i < |data| {
      r := r + Word(0, data[i]);
    }
  }

  /** One fold of the carries keeps the residue and shrinks the sum. */
  lemma FoldStep(sum: nat)
    requires sum >= 0x1_0000
    ensures var next := sum % 0x1_0000 + sum / 0x1_0000; 0 < next < sum && Fold(next) == Fold(sum)
  {
    var q := sum / 0x1_0000;
    var next := sum % 0x1_0000 + q;
    assert next == sum - 0xFFFF * q;
    assert (sum - 1) % 0xFFFF == (next - 1) % 0xFFFF by {
      ModShift(next - 1, q);
    }
  }

  lemma ModShift(x: nat, q: nat)
    ensures (x + 0xFFFF * q) % 0xFFFF == x % 0xFFFF
  {
  }

  method Finish(sum: nat) returns (c: nat)
    ensures c == Checksum(sum)
  {
    var s := sum;
    while s / 0x1_0000 != 0
      invariant Fold(s) == Fold(sum)
      decreases s
    {
      FoldStep(s);
      s := s % 0x1_0000 + s / 0x1_0000;
    }
    c := 0xFFFF - s;
  }

  /** A sum completed by its own checksum verifies. */
  lemma Completed(sum: nat)
    ensures Verifies(sum + Checksum(sum))
  {
    if sum > 0 {
      var q := (sum - 1) / 0xFFFF;
      assert sum + Checksum(sum) == 0xFFFF * (q + 1);
      ModShift(0xFFFE, q);
    }
  }

  lemma {:induction false} WordSumConcat(a: seq<byte>, b: seq<byte>)
    requires |a| % 2 == 0
    ensures WordSum(a + b) == WordSum(a) + WordSum(b)
    decreases |a|
  {
    if a == [] {
      assert a + b == b;
    } else {
      assert (a + b)[2..] == a[2..] + b;
      WordSumConcat(a[2..], b);
    }
  }

  /** An odd number of bytes counts as if a zero byte followed (RFC 1071). */
  lemma {:induction false} OddPadded(s: seq<byte>)
    requires |s| % 2 == 1
    ensures WordSum(s + [0]) == WordSum(s)
    decreases |s|
  {
    if |s| == 1 {
      LeTwo(0, s[0]);
      assert (s + [0])[2..] == [];
    } else {
      assert (s + [0])[2..] == s[2..] + [0];
      OddPadded(s[2..]);
    }
  }

  /** The words are added with the big end first. */
  lemma WordsAdd(a: byte, b: byte, s: seq<byte>)
    ensures WordSum([a, b] + s) == Number(a, b) + WordSum(s)
  {
    LeTwo(b, a);
    assert ([a, b] + s)[2..] == s;
  }

  /** An aligned 16-bit field contributes its value. */
  lemma FieldSum(a: seq<byte>, c: nat, b: seq<byte>)
    requires |a| % 2 == 0 && c < 0x1_0000
    ensures WordSum(a + ToBe16(c) + b) == WordSum(a) + c + WordSum(b)
  {
    hide WordSum, Be16, ToBe16, LeVal, LeBytes;
    var f := ToBe16(c);
    assert a + f + b == a + (f + b);
    WordSumConcat(a, f + b);
    WordSumConcat(f, b);
    WordSumOne(c);
  }

  lemma WordSumOne(v: nat)
    requires v < 0x1_0000
    ensures WordSum(ToBe16(v)) == v
  {
    assert ToBe16(v)[2..] == [];
  }

  lemma {:induction false} WordSumBound(s: seq<byte>)
    ensures WordSum(s) <= 0x8000 * |s| + 0x8000
    decreases |s|
  {
    if |s| > 1 {
      WordSumBound(s[2..]);
    }
  }
}
