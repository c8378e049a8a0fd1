/** The substitution box derived at first use (aes.c; section 5.1.1 of FIPS-197). */
module Sbox {
  import opened Bytes
  import opened Gf256

  function Rotl8(x: byte, n: nat): byte
    requires 0 < n < 8
  {
    (x << n) | (x >> (8 - n))
  }

  function Affine(b: byte): byte {
    b ^ Rotl8(b, 1) ^ Rotl8(b, 2) ^ Rotl8(b, 3) ^ Rotl8(b, 4) ^ 0x63
  }

  /** The affine map backwards, as section 5.3.2 of FIPS-197 gives it. */
  function Unaffine(s: byte): byte {
    Rotl8(s, 1) ^ Rotl8(s, 3) ^ Rotl8(s, 6) ^ 0x05
  }

  /** The multiplicative inverse, with 0 standing for its own. */
  function Reciprocal(a: byte): byte { if a == 0 then 0 else Inverse(a) }

  function SubByte(b: byte): byte { Affine(Reciprocal(b)) }

  function InvSubByte(s: byte): byte { Reciprocal(Unaffine(s)) }

  /** The sum of the bits that are set, as a bit. */
  function Parity(x: byte): byte {
    var y := x ^ (x >> 4);
    var z := y ^ (y >> 2);
    (z ^ (z >> 1)) & 1
  }

  /** The affine map as the matrix of section 5.1.1 of FIPS-197: each bit sums bits i, i + 4, i + 5, i + 6 and i + 7 of
      the byte, counted round, and a bit of 0x63. */
  lemma AffineRows(b: byte)
    ensures Affine(b) == 0x63 ^ Parity(b & 0xF1) ^ (Parity(b & 0xE3) << 1) ^ (Parity(b & 0xC7) << 2) ^
            (Parity(b & 0x8F) << 3) ^ (Parity(b & 0x1F) << 4) ^ (Parity(b & 0x3E) << 5) ^ (Parity(b & 0x7C) << 6) ^
            (Parity(b & 0xF8) << 7)
  {
  }

  /** The box is the affine map of the inverse: of 0 it is 0x63, and otherwise of the one b with a * b = 1. */
  lemma SubByteIs(a: byte, b: byte)
    requires if a == 0 then b == 0 else Times(a, b) == 1
    ensures SubByte(a) == Affine(b) && Affine(0) == 0x63
  {
    hide Inverse, Times;
    if a != 0 {
      HasInverse(a);
      UniqueInverse(a, b, Inverse(a));
    }
  }

  lemma AffineInverts(b: byte)
    ensures Unaffine(Affine(b)) == b
  {
  }

  lemma AffineInverted(s: byte)
    ensures Affine(Unaffine(s)) == s
  {
  }

  lemma ReciprocalInverts(a: byte)
    ensures Reciprocal(Reciprocal(a)) == a
  {
    hide Inverse, Times;
    var b := Reciprocal(a);
    if a != 0 {
      HasInverse(a);
      ZeroTimes(a);
      HasInverse(b);
      Commutes(a, b);
      UniqueInverse(b, a, Inverse(b));
    }
  }

  /** The box is a bijection of the 256 bytes, and the second box is its inverse. */
  lemma SboxBijective(b: byte)
    ensures InvSubByte(SubByte(b)) == b && SubByte(InvSubByte(b)) == b
  {
    hide Affine, Unaffine, Reciprocal;
    AffineInverts(Reciprocal(b));
    ReciprocalInverts(b);
    ReciprocalInverts(Unaffine(b));
    AffineInverted(b);
  }

  lemma ByteNotZero(n: nat)
    requires 0 < n < 256
    ensures n as byte != 0
  {
    ByteOfNat(n);
    NatOfByte(n as byte);
  }

  lemma NatOfByte(b: byte)
    ensures (b as nat) < 256 && (b as nat) as byte == b && (b as nat == 0 <==> b == 0)
  {
  }

  /** Where the box sends i, as an index. */
  function Slot(i: nat): nat
    requires i < 256
  {
    SubByte(i as byte) as nat
  }

  class Tables {
    const sbox: array<byte>
    const invSbox: array<byte>
    var ready: bool

    ghost predicate Sized() {
      sbox.Length == 256 && invSbox.Length == 256 && sbox != invSbox
    }

    /** Both tables hold the box and its inverse, whole. */
    ghost predicate Built()
      requires Sized()
      reads sbox, invSbox
    {
      && (forall i: nat :: i < 256 ==> sbox[i] == SubByte(i as byte))
      && (forall i: nat :: i < 256 ==> invSbox[i] == InvSubByte(i as byte))
    }

    ghost predicate Valid()
      reads this, sbox, invSbox
    {
      Sized() && (ready ==> Built())
    }

    constructor ()
      ensures Valid() && !ready && fresh(sbox) && fresh(invSbox)
    {
      hide Built;
      sbox := new byte[256];
      invSbox := new byte[256];
      ready := false;
    }

    /** The first b with a * b = 1, by trying them in turn; there always is one. */
    static method Search(a: byte) returns (b: byte)
      requires a != 0
      ensures b == Reciprocal(a)
    {
      hide *;
      ghost var found := InverseAt(a);
      var i: nat := 1;
      while i < 256
        invariant 1 <= i <= 256 && i <= found < 256
        decreases 256 - i
      {
        b := ByteAt(i);
        var p := Gmul(a, b);
        if p == 1 {
          IsReciprocal(a, b);
          return;
        }
        i := i + 1;
      }
      assert false;
    }

    static function ByteAt(i: nat): byte
      requires i < 256
    {
      i as byte
    }

    /** The search meets the inverse. */
    static lemma InverseAt(a: byte) returns (i: nat)
      requires a != 0
      ensures 1 <= i < 256 && Times(a, ByteAt(i)) == 1
    {
      hide Times, Inverse;
      HasInverse(a);
      ZeroTimes(a);
      NatOfByte(Inverse(a));
      i := Inverse(a) as nat;
    }

    static lemma IsReciprocal(a: byte, b: byte)
      requires a != 0 && Times(a, b) == 1
      ensures b == Reciprocal(a)
    {
      hide Times, Inverse;
      HasInverse(a);
      UniqueInverse(a, b, Inverse(a));
    }

    method Reciprocals() returns (inv: array<byte>)
      ensures fresh(inv) && inv.Length == 256
      ensures forall a: nat :: a < 256 ==> inv[a] == Reciprocal(a as byte)
    {
      hide Inverse, Reciprocal;
      inv := new byte[256];
      inv[0] := 0;
      ReciprocalZero();
      var a := 1;
      while a < 256
        invariant 1 <= a <= 256
        invariant forall k: nat :: k < a ==> inv[k] == Reciprocal(k as byte)
      {
        ByteNotZero(a);
        var b := Search(a as byte);
        inv[a] := b;
        a := a + 1;
      }
    }

    static lemma ReciprocalZero()
      ensures Reciprocal(0 as nat as byte) == 0
    {
      ByteOfNat(0);
    }

    method Build()
      requires Valid()
      modifies this`ready, sbox, invSbox
      ensures Valid() && ready
    {
      hide Built, Reciprocal;
      if ready { return; }
      var inv := Reciprocals();
      Fill(inv);
      ready := true;
    }

    method Fill(inv: array<byte>)
      requires Sized() && inv != sbox && inv != invSbox && inv.Length == 256
      requires forall a: nat :: a < 256 ==> inv[a] == Reciprocal(a as byte)
      modifies sbox, invSbox
      ensures Built()
    {
      hide Reciprocal, InvSubByte, SubByte, Affine;
      var i := 0;
      while i < 256
        invariant 0 <= i <= 256
        invariant forall k: nat :: k < i ==> sbox[k] == SubByte(k as byte)
        invariant forall k: nat :: k < i ==> invSbox[Slot(k)] == k as byte
      {
        var b := inv[i];
        var s := b ^ Rotl8(b, 1) ^ Rotl8(b, 2) ^ Rotl8(b, 3) ^ Rotl8(b, 4) ^ 0x63;
        IsSubByte(i as byte, b, s);
        SubBytesDiffer(i);
        sbox[i] := s;
        invSbox[s as nat] := i as byte;
        i := i + 1;
      }
      forall k: nat | k < 256
        ensures invSbox[k] == InvSubByte(k as byte)
      {
        ByteOfNat(k);
        SboxBijective(k as byte);
        var j := InvSubByte(k as byte) as nat;
        NatOfByte(InvSubByte(k as byte));
        assert Slot(j) == k;
      }
    }

    static lemma IsSubByte(i: byte, b: byte, s: byte)
      requires b == Reciprocal(i)
      requires s == b ^ Rotl8(b, 1) ^ Rotl8(b, 2) ^ Rotl8(b, 3) ^ Rotl8(b, 4) ^ 0x63
      ensures s == SubByte(i) && (s as nat) < 256
    {
      NatOfByte(s);
      hide Reciprocal, Rotl8;
    }

    static lemma SubBytesDiffer(i: nat)
      requires i < 256
      ensures forall k: nat :: k < i ==> Slot(k) != Slot(i)
    {
      hide SubByte, InvSubByte;
      forall k: nat | k < i
        ensures Slot(k) != Slot(i)
      {
        SboxBijective(k as byte);
        SboxBijective(i as byte);
        ByteOfNat(k);
        ByteOfNat(i);
        NatOfByte(SubByte(k as byte));
        NatOfByte(SubByte(i as byte));
      }
    }
  }
}
