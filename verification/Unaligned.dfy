/** The unaligned load and store pairs, little-endian (recomp_rt.h). */
module Unaligned {

  type word = bv32

  type byte = bv8

  const SPACE := 0x1_0000_0000

  /** Guest memory, byte by byte. */
  type Memory = nat -> byte

  /** An address some bytes on; addresses are 32 bits wide. */
  function Plus(a: nat, i: nat): nat { (a + i) % SPACE }

  /** The aligned word an address lies in, and where in it. */
  function Container(a: nat): nat { a - a % 4 }

  function Join(b3: byte, b2: byte, b1: byte, b0: byte): word {
    ((b3 as word) << 24) | ((b2 as word) << 16) | ((b1 as word) << 8) | (b0 as word)
  }

  /** Byte i of a word, the lowest first. */
  function Part(w: word, i: nat): byte
    requires i < 4
  {
    if i == 0 then (w & 0xFF) as byte
    else if i == 1 then ((w >> 8) & 0xFF) as byte
    else if i == 2 then ((w >> 16) & 0xFF) as byte
    else ((w >> 24) & 0xFF) as byte
  }

  /** psp_read32. */
  function Read32(m: Memory, a: nat): word { Join(m(Plus(a, 3)), m(Plus(a, 2)), m(Plus(a, 1)), m(Plus(a, 0))) }

  /** psp_write32. */
  function Write32(m: Memory, a: nat, w: word): Memory {
    (x: nat) => if x == Plus(a, 0) then Part(w, 0) else if x == Plus(a, 1) then Part(w, 1)
         else if x == Plus(a, 2) then Part(w, 2) else if x == Plus(a, 3) then Part(w, 3) else m(x)
  }

  /** lwl: the register r takes the container w's bytes up to b at its top. */
  function LoadLeft(r: word, w: word, b: nat): word
    requires b < 4
  {
    if b == 0 then (r & 0x00FF_FFFF) | (w << 24)
    else if b == 1 then (r & 0x0000_FFFF) | (w << 16)
    else if b == 2 then (r & 0x0000_00FF) | (w << 8)
    else w
  }

  /** lwr: the container's bytes from b on at its bottom. */
  function LoadRight(r: word, w: word, b: nat): word
    requires b < 4
  {
    if b == 0 then w
    else if b == 1 then (r & 0xFF00_0000) | (w >> 8)
    else if b == 2 then (r & 0xFFFF_0000) | (w >> 16)
    else (r & 0xFFFF_FF00) | (w >> 24)
  }

  /** swl: the container w takes the top of the register v up to byte b. */
  function StoreLeft(w: word, v: word, b: nat): word
    requires b < 4
  {
    if b == 0 then (w & 0xFFFF_FF00) | (v >> 24)
    else if b == 1 then (w & 0xFFFF_0000) | (v >> 16)
    else if b == 2 then (w & 0xFF00_0000) | (v >> 8)
    else v
  }

  /** swr: it takes the bottom of v from byte b on. */
  function StoreRight(w: word, v: word, b: nat): word
    requires b < 4
  {
    if b == 0 then v
    else if b == 1 then (w & 0x0000_00FF) | (v << 8)
    else if b == 2 then (w & 0x0000_FFFF) | (v << 16)
    else (w & 0x00FF_FFFF) | (v << 24)
  }

  /** psp_lwl, psp_lwr, psp_swl, psp_swr. */
  function Lwl(m: Memory, r: word, a: nat): word { LoadLeft(r, Read32(m, Container(a)), a % 4) }

  function Lwr(m: Memory, r: word, a: nat): word { LoadRight(r, Read32(m, Container(a)), a % 4) }

  function Swl(m: Memory, v: word, a: nat): Memory {
    Write32(m, Container(a), StoreLeft(Read32(m, Container(a)), v, a % 4))
  }

  function Swr(m: Memory, v: word, a: nat): Memory {
    Write32(m, Container(a), StoreRight(Read32(m, Container(a)), v, a % 4))
  }

  // ---- each operation, byte by byte

  lemma JoinParts(b3: byte, b2: byte, b1: byte, b0: byte)
    ensures var w := Join(b3, b2, b1, b0); Part(w, 0) == b0 && Part(w, 1) == b1 && Part(w, 2) == b2 && Part(w, 3) == b3
  {
  }

  lemma PartsDecide(x: word, y: word)
    requires Part(x, 0) == Part(y, 0) && Part(x, 1) == Part(y, 1) && Part(x, 2) == Part(y, 2)
             && Part(x, 3) == Part(y, 3)
    ensures x == y
  {
  }

  lemma LoadLeftBits0(r: word, w: word)
    ensures var x := (r & 0x00FF_FFFF) | (w << 24);
            && (x & 0xFF) as byte == (r & 0xFF) as byte
            && ((x >> 8) & 0xFF) as byte == ((r >> 8) & 0xFF) as byte
            && ((x >> 16) & 0xFF) as byte == ((r >> 16) & 0xFF) as byte
            && ((x >> 24) & 0xFF) as byte == (w & 0xFF) as byte
  {
  }

  lemma LoadLeftBits1(r: word, w: word)
    ensures var x := (r & 0x0000_FFFF) | (w << 16);
            && (x & 0xFF) as byte == (r & 0xFF) as byte
            && ((x >> 8) & 0xFF) as byte == ((r >> 8) & 0xFF) as byte
            && ((x >> 16) & 0xFF) as byte == (w & 0xFF) as byte
            && ((x >> 24) & 0xFF) as byte == ((w >> 8) & 0xFF) as byte
  {
  }

  lemma LoadLeftBits2(r: word, w: word)
    ensures var x := (r & 0x0000_00FF) | (w << 8);
            && (x & 0xFF) as byte == (r & 0xFF) as byte
            && ((x >> 8) & 0xFF) as byte == (w & 0xFF) as byte
            && ((x >> 16) & 0xFF) as byte == ((w >> 8) & 0xFF) as byte
            && ((x >> 24) & 0xFF) as byte == ((w >> 16) & 0xFF) as byte
  {
  }

  /** The bytes lwl leaves in the register. */
  lemma LoadLeftParts(r: word, w: word, b: nat, i: nat)
    requires b < 4 && i < 4
    ensures Part(LoadLeft(r, w, b), i) == if i >= 3 - b then Part(w, i + b - 3) else Part(r, i)
  {
    if b == 0 {
      LoadLeftBits0(r, w);
    } else if b == 1 {
      LoadLeftBits1(r, w);
    } else if b == 2 {
      LoadLeftBits2(r, w);
    }
    if i == 0 {
    } else if i == 1 {
    } else if i == 2 {
    }
  }

  lemma LoadRightBits1(r: word, w: word)
    ensures var x := (r & 0xFF00_0000) | (w >> 8);
            && (x & 0xFF) as byte == ((w >> 8) & 0xFF) as byte
            && ((x >> 8) & 0xFF) as byte == ((w >> 16) & 0xFF) as byte
            && ((x >> 16) & 0xFF) as byte == ((w >> 24) & 0xFF) as byte
            && ((x >> 24) & 0xFF) as byte == ((r >> 24) & 0xFF) as byte
  {
  }

  lemma LoadRightBits2(r: word, w: word)
    ensures var x := (r & 0xFFFF_0000) | (w >> 16);
            && (x & 0xFF) as byte == ((w >> 16) & 0xFF) as byte
            && ((x >> 8) & 0xFF) as byte == ((w >> 24) & 0xFF) as byte
            && ((x >> 16) & 0xFF) as byte == ((r >> 16) & 0xFF) as byte
            && ((x >> 24) & 0xFF) as byte == ((r >> 24) & 0xFF) as byte
  {
  }

  lemma LoadRightBits3(r: word, w: word)
    ensures var x := (r & 0xFFFF_FF00) | (w >> 24);
            && (x & 0xFF) as byte == ((w >> 24) & 0xFF) as byte
            && ((x >> 8) & 0xFF) as byte == ((r >> 8) & 0xFF) as byte
            && ((x >> 16) & 0xFF) as byte == ((r >> 16) & 0xFF) as byte
            && ((x >> 24) & 0xFF) as byte == ((r >> 24) & 0xFF) as byte
  {
  }

  /** The bytes lwr leaves in the register. */
  lemma LoadRightParts(r: word, w: word, b: nat, i: nat)
    requires b < 4 && i < 4
    ensures Part(LoadRight(r, w, b), i) == if i < 4 - b then Part(w, i + b) else Part(r, i)
  {
    if b == 1 {
      LoadRightBits1(r, w);
    } else if b == 2 {
      LoadRightBits2(r, w);
    } else if b == 3 {
      LoadRightBits3(r, w);
    }
    if i == 0 {
    } else if i == 1 {
    } else if i == 2 {
    }
  }

  lemma StoreLeftBits0(w: word, v: word)
    ensures var x := (w & 0xFFFF_FF00) | (v >> 24);
            && (x & 0xFF) as byte == ((v >> 24) & 0xFF) as byte
            && ((x >> 8) & 0xFF) as byte == ((w >> 8) & 0xFF) as byte
            && ((x >> 16) & 0xFF) as byte == ((w >> 16) & 0xFF) as byte
            && ((x >> 24) & 0xFF) as byte == ((w >> 24) & 0xFF) as byte
  {
  }

  lemma StoreLeftBits1(w: word, v: word)
    ensures var x := (w & 0xFFFF_0000) | (v >> 16);
            && (x & 0xFF) as byte == ((v >> 16) & 0xFF) as byte
            && ((x >> 8) & 0xFF) as byte == ((v >> 24) & 0xFF) as byte
            && ((x >> 16) & 0xFF) as byte == ((w >> 16) & 0xFF) as byte
            && ((x >> 24) & 0xFF) as byte == ((w >> 24) & 0xFF) as byte
  {
  }

  lemma StoreLeftBits2(w: word, v: word)
    ensures var x := (w & 0xFF00_0000) | (v >> 8);
            && (x & 0xFF) as byte == ((v >> 8) & 0xFF) as byte
            && ((x >> 8) & 0xFF) as byte == ((v >> 16) & 0xFF) as byte
            && ((x >> 16) & 0xFF) as byte == ((v >> 24) & 0xFF) as byte
            && ((x >> 24) & 0xFF) as byte == ((w >> 24) & 0xFF) as byte
  {
  }

  /** The bytes swl leaves in the container. */
  lemma StoreLeftParts(w: word, v: word, b: nat, i: nat)
    requires b < 4 && i < 4
    ensures Part(StoreLeft(w, v, b), i) == if i <= b then Part(v, i + 3 - b) else Part(w, i)
  {
    if b == 0 {
      StoreLeftBits0(w, v);
    } else if b == 1 {
      StoreLeftBits1(w, v);
    } else if b == 2 {
      StoreLeftBits2(w, v);
    }
    if i == 0 {
    } else if i == 1 {
    } else if i == 2 {
    }
  }

  lemma StoreRightBits1(w: word, v: word)
    ensures var x := (w & 0x0000_00FF) | (v << 8);
            && (x & 0xFF) as byte == (w & 0xFF) as byte
            && ((x >> 8) & 0xFF) as byte == (v & 0xFF) as byte
            && ((x >> 16) & 0xFF) as byte == ((v >> 8) & 0xFF) as byte
            && ((x >> 24) & 0xFF) as byte == ((v >> 16) & 0xFF) as byte
  {
  }

  lemma StoreRightBits2(w: word, v: word)
    ensures var x := (w & 0x0000_FFFF) | (v << 16);
            && (x & 0xFF) as byte == (w & 0xFF) as byte
            && ((x >> 8) & 0xFF) as byte == ((w >> 8) & 0xFF) as byte
            && ((x >> 16) & 0xFF) as byte == (v & 0xFF) as byte
            && ((x >> 24) & 0xFF) as byte == ((v >> 8) & 0xFF) as byte
  {
  }

  lemma StoreRightBits3(w: word, v: word)
    ensures var x := (w & 0x00FF_FFFF) | (v << 24);
            && (x & 0xFF) as byte == (w & 0xFF) as byte
            && ((x >> 8) & 0xFF) as byte == ((w >> 8) & 0xFF) as byte
            && ((x >> 16) & 0xFF) as byte == ((w >> 16) & 0xFF) as byte
            && ((x >> 24) & 0xFF) as byte == (v & 0xFF) as byte
  {
  }

  /** The bytes swr leaves in the container. */
  lemma StoreRightParts(w: word, v: word, b: nat, i: nat)
    requires b < 4 && i < 4
    ensures Part(StoreRight(w, v, b), i) == if i >= b then Part(v, i - b) else Part(w, i)
  {
    if b == 1 {
      StoreRightBits1(w, v);
    } else if b == 2 {
      StoreRightBits2(w, v);
    } else if b == 3 {
      StoreRightBits3(w, v);
    }
    if i == 0 {
    } else if i == 1 {
    } else if i == 2 {
    }
  }

  // ---- addresses

  /** Byte i of the four from `a`: in the second container of the pair, or in the first. */
  lemma InOneOfTwo(a: nat, i: nat)
    requires a < SPACE && i < 4
    ensures var b, c := a % 4, Plus(a, 3) % 4;
            && (i >= 3 - c ==> Plus(Container(Plus(a, 3)), i + c - 3) == Plus(a, i))
            && (i < 4 - b ==> Plus(Container(a), i + b) == Plus(a, i))
            && (i >= 3 - c || i < 4 - b)
  {
    var d := a / 4;
    assert a == 4 * d + a % 4;
  }

  /** How far x is from `a`, going up. */
  function Distance(a: nat, x: nat): nat
    requires a < SPACE && x < SPACE
  {
    if x >= a then x - a else x + SPACE - a
  }

  /** The places the two stores write are the four bytes from `a`, and they agree on which byte goes where. */
  lemma StoredPlaces(a: nat, x: nat)
    requires a < SPACE && x < SPACE
    ensures var a', d := Plus(a, 3), Distance(a, x);
            var right := Container(x) == Container(a) && x % 4 >= a % 4;
            var left := Container(x) == Container(a') && x % 4 <= a' % 4;
            && (right ==> d == x % 4 - a % 4) && (left ==> d == x % 4 + 3 - a' % 4)
            && (d < 4 <==> left || right)
  {
  }

  // ---- reads and writes of a container

  lemma ReadPart(m: Memory, a: nat, i: nat)
    requires i < 4
    ensures Part(Read32(m, a), i) == m(Plus(a, i))
  {
    JoinParts(m(Plus(a, 3)), m(Plus(a, 2)), m(Plus(a, 1)), m(Plus(a, 0)));
    hide Join, Part, Plus;
  }

  /** Byte k of a container. */
  lemma Inside(a: nat, x: nat, k: nat)
    requires a < SPACE && x < SPACE && k < 4
    ensures x == Plus(Container(a), k) <==> Container(x) == Container(a) && x % 4 == k
  {
  }

  lemma WriteAt(m: Memory, a: nat, w: word, x: nat)
    requires a < SPACE && x < SPACE
    ensures Write32(m, Container(a), w)(x) == if Container(x) == Container(a) then Part(w, x % 4) else m(x)
  {
    hide Part, Plus, Container;
    var c := Container(a);
    Inside(a, x, 0);
    Inside(a, x, 1);
    Inside(a, x, 2);
    Inside(a, x, 3);
    if x % 4 == 0 {
    } else if x % 4 == 1 {
    } else if x % 4 == 2 {
    }
  }

  lemma ContainerPart(m: Memory, a: nat, x: nat)
    requires a < SPACE && x < SPACE && Container(x) == Container(a)
    ensures Part(Read32(m, Container(a)), x % 4) == m(x)
  {
    hide Part, Read32, Container, Plus;
    ReadPart(m, Container(a), x % 4);
    Inside(a, x, x % 4);
  }

  lemma SwlAt(m: Memory, v: word, a: nat, x: nat)
    requires a < SPACE && x < SPACE
    ensures Swl(m, v, a)(x) ==
            if Container(x) == Container(a) && x % 4 <= a % 4 then Part(v, x % 4 + 3 - a % 4) else m(x)
  {
    hide Part, Read32, Write32, StoreLeft, Container;
    var w := Read32(m, Container(a));
    WriteAt(m, a, StoreLeft(w, v, a % 4), x);
    if Container(x) == Container(a) {
      ContainerPart(m, a, x);
      StoreLeftParts(w, v, a % 4, x % 4);
    }
  }

  lemma SwrAt(m: Memory, v: word, a: nat, x: nat)
    requires a < SPACE && x < SPACE
    ensures Swr(m, v, a)(x) == if Container(x) == Container(a) && x % 4 >= a % 4 then Part(v, x % 4 - a % 4) else m(x)
  {
    hide Part, Read32, Write32, StoreRight, Container;
    var w := Read32(m, Container(a));
    WriteAt(m, a, StoreRight(w, v, a % 4), x);
    if Container(x) == Container(a) {
      ContainerPart(m, a, x);
      StoreRightParts(w, v, a % 4, x % 4);
    }
  }

  // ---- the pairs

  lemma LoadPairPart(m: Memory, r: word, a: nat, i: nat)
    requires a < SPACE && i < 4
    ensures Part(Lwl(m, Lwr(m, r, a), Plus(a, 3)), i) == m(Plus(a, i))
    ensures Part(Lwr(m, Lwl(m, r, Plus(a, 3)), a), i) == m(Plus(a, i))
  {
    hide Part, Read32, LoadLeft, LoadRight, Container, Plus;
    var a' := Plus(a, 3);
    var b, c := a % 4, a' % 4;
    var v, w := Read32(m, Container(a)), Read32(m, Container(a'));
    InOneOfTwo(a, i);
    LoadLeftParts(Lwr(m, r, a), w, c, i);
    LoadRightParts(r, v, b, i);
    LoadLeftParts(r, w, c, i);
    LoadRightParts(Lwl(m, r, a'), v, b, i);
    if i >= 3 - c { ReadPart(m, Container(a'), i + c - 3); }
    if i < 4 - b { ReadPart(m, Container(a), i + b); }
  }

  /** lwr at an address and lwl three above it, in either order, load the little-endian word there, whatever the
      register held. */
  lemma UnalignedLoad(m: Memory, r: word, a: nat)
    requires a < SPACE
    ensures Lwl(m, Lwr(m, r, a), Plus(a, 3)) == Read32(m, a)
    ensures Lwr(m, Lwl(m, r, Plus(a, 3)), a) == Read32(m, a)
  {
    hide *;
    var x, y, z := Lwl(m, Lwr(m, r, a), Plus(a, 3)), Lwr(m, Lwl(m, r, Plus(a, 3)), a), Read32(m, a);
    LoadPairPart(m, r, a, 0);
    LoadPairPart(m, r, a, 1);
    LoadPairPart(m, r, a, 2);
    LoadPairPart(m, r, a, 3);
    ReadPart(m, a, 0);
    ReadPart(m, a, 1);
    ReadPart(m, a, 2);
    ReadPart(m, a, 3);
    PartsDecide(x, z);
    PartsDecide(y, z);
  }

  /** swr at an address and swl three above it, in either order, write the register's four bytes there and nothing
      else. */
  lemma UnalignedStore(m: Memory, v: word, a: nat, x: nat)
    requires a < SPACE && x < SPACE
    ensures var stored := if Distance(a, x) < 4 then Part(v, Distance(a, x)) else m(x);
            Swl(Swr(m, v, a), v, Plus(a, 3))(x) == stored && Swr(Swl(m, v, Plus(a, 3)), v, a)(x) == stored
  {
    hide Part, Swl, Swr, Container, Plus, Distance;
    PlusFits(a, 3);
    StoredPlaces(a, x);
    SwrAt(m, v, a, x);
    SwlAt(Swr(m, v, a), v, Plus(a, 3), x);
    SwlAt(m, v, Plus(a, 3), x);
    SwrAt(Swl(m, v, Plus(a, 3)), v, a, x);
  }

  lemma PlusFits(a: nat, i: nat)
    ensures Plus(a, i) < SPACE
  {
  }

  lemma DistancePlus(a: nat, i: nat)
    requires a < SPACE && i < 4
    ensures Plus(a, i) < SPACE && Distance(a, Plus(a, i)) == i
  {
  }

  /** A load pair after a store pair gives back what was stored, in memory that held anything and a register that
      holds anything. */
  lemma LoadAfterStore(m: Memory, v: word, r: word, a: nat)
    requires a < SPACE
    ensures var m' := Swl(Swr(m, v, a), v, Plus(a, 3)); Lwl(m', Lwr(m', r, a), Plus(a, 3)) == v
  {
    hide *;
    var m' := Swl(Swr(m, v, a), v, Plus(a, 3));
    UnalignedLoad(m', r, a);
    StoredPart(m, v, a, 0);
    StoredPart(m, v, a, 1);
    StoredPart(m, v, a, 2);
    StoredPart(m, v, a, 3);
    PartsDecide(Read32(m', a), v);
  }

  lemma StoredPart(m: Memory, v: word, a: nat, i: nat)
    requires a < SPACE && i < 4
    ensures Part(Read32(Swl(Swr(m, v, a), v, Plus(a, 3)), a), i) == Part(v, i)
  {
    hide *;
    DistancePlus(a, i);
    ReadPart(Swl(Swr(m, v, a), v, Plus(a, 3)), a, i);
    UnalignedStore(m, v, a, Plus(a, i));
  }
}
