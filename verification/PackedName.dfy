/** The 8.3 form in which the client library hands a typed file name to the file server. */
module PackedName {
  import opened Bytes
  import opened Fat32Volume

  function Large(b: byte): (u: byte) {
    if 97 <= b <= 122 then b - 32 else b
  }

  /** Where the first dot is, the length if there is none. */
  function Dot(typed: seq<byte>): (i: nat)
    ensures i <= |typed| && (i < |typed| ==> typed[i] == 46)
    ensures forall j | 0 <= j < i :: typed[j] != 46
  {
    if typed == [] || typed[0] == 46 then 0 else 1 + Dot(typed[1..])
  }

  function Base(typed: seq<byte>): (s: seq<byte>) {
    typed[..Dot(typed)]
  }

  function Extension(typed: seq<byte>): (s: seq<byte>) {
    if Dot(typed) < |typed| then typed[Dot(typed) + 1..] else []
  }

  /** The first `n` bytes of `s` in upper case, filled up with spaces. */
  ghost function Field(s: seq<byte>, n: nat): (r: seq<byte>)
    ensures |r| == n
  {
    seq(n, i requires 0 <= i => if i < |s| then Large(s[i]) else 32)
  }

  /** What a directory entry of the typed name starts with. */
  ghost function Packed(typed: seq<byte>): (name: Name) {
    Field(Base(typed), 8) + Field(Extension(typed), 3)
  }

  lemma FieldBlank(n: nat)
    ensures Field([], n) == seq(n, _ => 32)
  {
  }

  lemma FieldStep(s: seq<byte>, i: nat, n: nat)
    requires i < |s| && i < n
    ensures Field(s[..i + 1], n) == Field(s[..i], n)[i := Large(s[i])]
  {
    hide Large;
  }

  lemma FieldCut(s: seq<byte>, n: nat)
    ensures Field(s[..Min(|s|, n)], n) == Field(s, n)
  {
  }

  method Pack(typed: seq<byte>) returns (name: Name)
    ensures name == Packed(typed)
  {
    hide Field, Large;
    assert Field([], 8) + Field([], 3) == seq(11, _ => 32) by {
      FieldBlank(8);
      FieldBlank(3);
    }
    var out := new byte[11](_ => 32);
    var dot := 0;
    while dot < |typed| && typed[dot] != 46
      invariant dot <= Dot(typed)
    {
      dot := dot + 1;
    }
    var base, extension := typed[..dot], if dot < |typed| then typed[dot + 1..] else [];
    for i := 0 to Min(|base|, 8)
      invariant out[..] == Field(base[..i], 8) + Field([], 3)
    {
      FieldStep(base, i, 8);
      out[i] := Large(base[i]);
    }
    FieldCut(base, 8);
    for i := 0 to Min(|extension|, 3)
      invariant out[..] == Field(base, 8) + Field(extension[..i], 3)
    {
      FieldStep(extension, i, 3);
      out[8 + i] := Large(extension[i]);
    }
    FieldCut(extension, 3);
    return out[..];
  }

  /** Byte by byte: what stands before the first dot, eight bytes of it, and what stands behind it, three
      bytes; small letters in their large form, and spaces where there is nothing. */
  lemma PackedBytes(typed: seq<byte>, dot: nat)
    requires dot <= |typed| && (dot < |typed| ==> typed[dot] == 46) && forall j | 0 <= j < dot :: typed[j] != 46
    ensures forall i | 0 <= i < 8 :: Packed(typed)[i] == if i < dot then Large(typed[i]) else 32
    ensures var behind := if dot < |typed| then typed[dot + 1..] else [];
            forall i | 0 <= i < 3 :: Packed(typed)[8..][i] == if i < |behind| then Large(behind[i]) else 32
    ensures forall c: byte :: Large(c) == if 97 <= c && c <= 122 then c - 32 else c
  {
    assert Dot(typed) == dot;
  }

  /** A typed name is stored as one of the two markers if and only if it starts with it. */
  lemma OrdinaryExact(typed: seq<byte>)
    ensures Packed(typed)[0] == 0x00 || Packed(typed)[0] == 0xE5 <==>
            typed != [] && (typed[0] == 0x00 || typed[0] == 0xE5)
  {
    assert Packed(typed)[0] == Field(Base(typed), 8)[0];
  }

  /** The form in which a stored name can be typed. */
  ghost function Spelled(name: Name): (typed: seq<byte>) {
    name[..8] + [46] + name[8..]
  }

  /** Every stored name without lower-case letters, and without a dot in its first part, can be typed;
      the others cannot be reached by typing. */
  lemma TypedExact(name: Name)
    ensures (exists typed :: Packed(typed) == name) <==>
            (forall i | 0 <= i < 11 :: Large(name[i]) == name[i]) && 46 !in name[..8]
  {
    if (forall i | 0 <= i < 11 :: Large(name[i]) == name[i]) && 46 !in name[..8] {
      var typed := Spelled(name);
      assert Dot(typed) == 8 by {
        assert typed[8] == 46 && forall j | 0 <= j < 8 :: typed[j] == name[..8][j] != 46;
      }
      assert Base(typed) == name[..8] && Extension(typed) == name[8..];
      assert Packed(typed) == name;
    }
    forall typed | Packed(typed) == name
      ensures (forall i | 0 <= i < 11 :: Large(name[i]) == name[i]) && 46 !in name[..8]
    {
      assert name[..8] == Field(Base(typed), 8);
    }
  }
}
