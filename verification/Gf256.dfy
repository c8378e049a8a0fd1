/** Arithmetic in GF(2^8) modulo x^8 + x^4 + x^3 + x + 1 (aes.c; section 4.2 of FIPS-197). */
module Gf256 {

  type byte = bv8

  /** Multiplication by x. */
  function Xtime(a: byte): byte { if a & 0x80 != 0 then (a << 1) ^ 0x1B else a << 1 }

  /** Addition; the shifts and tests are named too, so that a proof can hide what they compute. */
  function Plus(a: byte, b: byte): byte { a ^ b }

  function Sel(c: bool, a: byte): byte { if c then a else 0 }

  predicate Odd(a: byte) { a & 1 != 0 }

  function Half(a: byte): byte { a >> 1 }

  /** The sum of x^i * a over the set bits i < n of b. */
  function Mul(a: byte, b: byte, n: nat): byte
    decreases n
  {
    if n == 0 then 0 else Plus(Sel(Odd(b), a), Mul(Xtime(a), Half(b), n - 1))
  }

  /** The product. */
  function Times(a: byte, b: byte): byte { Mul(a, b, 8) }

  /** gmul: shift and add over the eight bits of b. */
  method Gmul(a: byte, b: byte) returns (p: byte)
    ensures p == Times(a, b)
  {
    hide Plus, Mul;
    var x, y := a, b;
    p := 0;
    var i := 0;
    ZeroPlus(Mul(a, b, 8));
    while i < 8
      invariant 0 <= i <= 8 && Plus(p, Mul(x, y, 8 - i)) == Times(a, b)
    {
      MulStep(x, y, 8 - i);
      PlusAssoc(p, Sel(Odd(y), x), Mul(Xtime(x), Half(y), 8 - i - 1));
      PlusSel(p, Odd(y), x);
      if y & 1 != 0 { p := p ^ x; }
      var hi := x & 0x80;
      x := x << 1;
      if hi != 0 { x := x ^ 0x1B; }
      y := y >> 1;
      i := i + 1;
    }
    MulNone(x, y);
    ZeroPlus(p);
  }

  // ---- facts about bits

  lemma MulStep(a: byte, b: byte, n: nat)
    ensures n > 0 ==> Mul(a, b, n) == Plus(Sel(Odd(b), a), Mul(Xtime(a), Half(b), n - 1))
  {
    hide Xtime, Sel, Plus, Odd, Half;
  }

  lemma MulNone(a: byte, b: byte)
    ensures Mul(a, b, 0) == 0
  {
  }

  lemma PlusSel(p: byte, c: bool, x: byte)
    ensures Plus(p, Sel(c, x)) == if c then p ^ x else p
  {
  }

  lemma ZeroPlus(a: byte)
    ensures Plus(0, a) == a == Plus(a, 0) && Plus(a, a) == 0
  {
  }

  lemma PlusAssoc(a: byte, b: byte, c: byte)
    ensures Plus(Plus(a, b), c) == Plus(a, Plus(b, c))
    ensures Plus(a, b) == Plus(b, a)
  {
  }

  lemma PlusSwap(a: byte, b: byte, c: byte, d: byte)
    ensures Plus(Plus(a, b), Plus(c, d)) == Plus(Plus(a, c), Plus(b, d))
  {
    hide *;
    PlusAssoc(a, b, Plus(c, d));
    PlusAssoc(b, c, d);
    PlusAssoc(c, b, d);
    PlusAssoc(a, c, Plus(b, d));
  }

  lemma HalfPlus(x: byte, y: byte)
    ensures Half(Plus(x, y)) == Plus(Half(x), Half(y))
    ensures Odd(Plus(x, y)) == (Odd(x) != Odd(y))
  {
  }

  lemma XtimePlus(x: byte, y: byte)
    ensures Xtime(Plus(x, y)) == Plus(Xtime(x), Xtime(y))
  {
    hide *;
    XtimeParts(x);
    XtimeParts(y);
    XtimeParts(Plus(x, y));
    TwicePlus(x, y);
    SelPlus(Top(x), Top(y), 0x1B, 0x1B);
    PlusSwap(Twice(x), Twice(y), Sel(Top(x), 0x1B), Sel(Top(y), 0x1B));
  }

  function Twice(a: byte): byte { a << 1 }

  predicate Top(a: byte) { a & 0x80 != 0 }

  lemma XtimeParts(a: byte)
    ensures Xtime(a) == Plus(Twice(a), Sel(Top(a), 0x1B))
  {
  }

  lemma TwicePlus(x: byte, y: byte)
    ensures Twice(Plus(x, y)) == Plus(Twice(x), Twice(y))
    ensures Top(Plus(x, y)) == (Top(x) != Top(y))
  {
  }

  lemma SelPlus(p: bool, q: bool, a: byte, b: byte)
    ensures Sel(p != q, a) == Plus(Sel(p, a), Sel(q, a))
    ensures Sel(p, Plus(a, b)) == Plus(Sel(p, a), Sel(p, b))
    ensures Xtime(Sel(p, a)) == Sel(p, Xtime(a))
  {
  }

  lemma Zeros()
    ensures Xtime(0) == 0 && Half(0) == 0 && !Odd(0) && forall c, a :: !c || a == 0 ==> Sel(c, a) == 0
  {
  }

  // ---- the ring laws

  lemma {:induction false} MulPlusLeft(x: byte, y: byte, b: byte, n: nat)
    ensures Mul(Plus(x, y), b, n) == Plus(Mul(x, b, n), Mul(y, b, n))
    decreases n
  {
    hide *;
    if n == 0 {
      MulNone(x, b);
      MulNone(y, b);
      MulNone(Plus(x, y), b);
      ZeroPlus(0);
    } else {
      MulStep(x, b, n);
      MulStep(y, b, n);
      MulStep(Plus(x, y), b, n);
      XtimePlus(x, y);
      MulPlusLeft(Xtime(x), Xtime(y), Half(b), n - 1);
      SelPlus(Odd(b), Odd(b), x, y);
      PlusSwap(Sel(Odd(b), x), Sel(Odd(b), y), Mul(Xtime(x), Half(b), n - 1), Mul(Xtime(y), Half(b), n - 1));
    }
  }

  lemma {:induction false} MulPlusRight(a: byte, x: byte, y: byte, n: nat)
    ensures Mul(a, Plus(x, y), n) == Plus(Mul(a, x, n), Mul(a, y, n))
    decreases n
  {
    hide *;
    if n == 0 {
      MulNone(a, x);
      MulNone(a, y);
      MulNone(a, Plus(x, y));
      ZeroPlus(0);
    } else {
      MulStep(a, x, n);
      MulStep(a, y, n);
      MulStep(a, Plus(x, y), n);
      HalfPlus(x, y);
      MulPlusRight(Xtime(a), Half(x), Half(y), n - 1);
      SelPlus(Odd(x), Odd(y), a, a);
      PlusSwap(Sel(Odd(x), a), Sel(Odd(y), a), Mul(Xtime(a), Half(x), n - 1), Mul(Xtime(a), Half(y), n - 1));
    }
  }

  lemma {:induction false} MulZero(b: byte, n: nat)
    ensures Mul(0, b, n) == 0 && Mul(b, 0, n) == 0
    decreases n
  {
    hide *;
    if n == 0 {
      MulNone(0, b);
      MulNone(b, 0);
    } else {
      Zeros();
      ZeroPlus(0);
      MulStep(0, b, n);
      MulStep(b, 0, n);
      MulZero(Half(b), n - 1);
      MulZero(Xtime(b), n - 1);
    }
  }

  lemma MulSel(p: bool, a: byte, b: byte, n: nat)
    ensures Mul(Sel(p, a), b, n) == Sel(p, Mul(a, b, n)) && Mul(b, Sel(p, a), n) == Sel(p, Mul(b, a, n))
  {
    MulZero(b, n);
    hide Mul;
  }

  /** Multiplying by x first or last is the same. */
  lemma {:induction false} MulXtime(a: byte, b: byte, n: nat)
    ensures Mul(Xtime(a), b, n) == Xtime(Mul(a, b, n))
    decreases n
  {
    hide *;
    if n == 0 {
      MulNone(a, b);
      MulNone(Xtime(a), b);
      Zeros();
    } else {
      MulStep(a, b, n);
      MulStep(Xtime(a), b, n);
      MulXtime(Xtime(a), Half(b), n - 1);
      SelPlus(Odd(b), Odd(b), a, a);
      XtimePlus(Sel(Odd(b), a), Mul(Xtime(a), Half(b), n - 1));
    }
  }

  /** Two multiplications by bit sums can be done in either order. */
  lemma {:induction false} MulSwap(u: byte, a: byte, b: byte, n: nat, k: nat)
    ensures Mul(Mul(u, a, n), b, k) == Mul(Mul(u, b, k), a, n)
    decreases n
  {
    hide *;
    if n == 0 {
      MulNone(u, a);
      MulNone(Mul(u, b, k), a);
      MulZero(b, k);
    } else {
      MulStep(u, a, n);
      MulStep(Mul(u, b, k), a, n);
      MulPlusLeft(Sel(Odd(a), u), Mul(Xtime(u), Half(a), n - 1), b, k);
      MulSel(Odd(a), u, b, k);
      MulSwap(Xtime(u), Half(a), b, n - 1, k);
      MulXtime(u, b, k);
    }
  }

  // ---- Times is the multiplication of a commutative ring with one

  /** The product as a term, its eight steps written out. */
  function Steps(a: byte, b: byte): byte { Four(a, b, Four(Xtime4(a), Half4(b), 0)) }

  function Four(a: byte, b: byte, rest: byte): byte {
    Plus(Sel(Odd(b), a), Plus(Sel(Odd(Half(b)), Xtime(a)),
      Plus(Sel(Odd(Half(Half(b))), Xtime(Xtime(a))),
           Plus(Sel(Odd(Half(Half(Half(b)))), Xtime(Xtime(Xtime(a)))), rest))))
  }

  function Xtime4(a: byte): byte { Xtime(Xtime(Xtime(Xtime(a)))) }

  function Half4(a: byte): byte { Half(Half(Half(Half(a)))) }

  lemma MulFour(a: byte, b: byte, n: nat)
    requires n >= 4
    ensures Mul(a, b, n) == Four(a, b, Mul(Xtime4(a), Half4(b), n - 4))
  {
    hide Xtime, Half, Odd, Sel, Plus, Mul;
    MulStep(a, b, n);
    MulStep(Xtime(a), Half(b), n - 1);
    MulStep(Xtime(Xtime(a)), Half(Half(b)), n - 2);
    MulStep(Xtime(Xtime(Xtime(a))), Half(Half(Half(b))), n - 3);
  }

  lemma Unfolded(a: byte, b: byte)
    ensures Times(a, b) == Steps(a, b)
  {
    hide Xtime4, Half4, Four, Mul;
    MulFour(a, b, 8);
    MulFour(Xtime4(a), Half4(b), 4);
    MulNone(Xtime4(Xtime4(a)), Half4(Half4(b)));
  }

  lemma OneLeft(a: byte)
    ensures Times(1, a) == a
  {
    Unfolded(1, a);
    OneSteps(a);
    hide Times, Steps;
  }

  lemma OneSteps(a: byte)
    ensures Steps(1, a) == a
  {
  }

  function Square(a: byte): byte {
    Sel(a & 1 != 0, 1) ^ Sel(a & 2 != 0, 4) ^ Sel(a & 4 != 0, 0x10) ^ Sel(a & 8 != 0, 0x40)
    ^ Sel(a & 0x10 != 0, 0x1B) ^ Sel(a & 0x20 != 0, 0x6C) ^ Sel(a & 0x40 != 0, 0xAB) ^ Sel(a & 0x80 != 0, 0x9A)
  }

  lemma SquareSteps(a: byte)
    ensures Steps(a, a) == Square(a)
  {
  }

  lemma SquareRoots(a: byte)
    ensures Square(a) == a ==> a == 0 || a == 1
  {
  }

  lemma Frobenius(a: byte)
    ensures Square(Square(Square(Square(Square(Square(Square(Square(a)))))))) == a
  {
  }

  // ---- Times is the multiplication of a field

  lemma Commutes(a: byte, b: byte)
    ensures Times(a, b) == Times(b, a)
  {
    OneLeft(a);
    OneLeft(b);
    MulSwap(1, a, b, 8, 8);
    hide Mul;
  }

  lemma Associates(a: byte, b: byte, c: byte)
    ensures Times(Times(a, b), c) == Times(a, Times(b, c))
  {
    Commutes(a, b);
    MulSwap(b, a, c, 8, 8);
    Commutes(Times(b, c), a);
    hide Mul;
  }

  lemma Distributes(a: byte, b: byte, c: byte)
    ensures Times(a, Plus(b, c)) == Plus(Times(a, b), Times(a, c))
    ensures Times(Plus(a, b), c) == Plus(Times(a, c), Times(b, c))
  {
    hide Mul, Plus;
    MulPlusRight(a, b, c, 8);
    MulPlusLeft(a, b, c, 8);
  }

  lemma IsSquare(a: byte)
    ensures Times(a, a) == Square(a)
  {
    Unfolded(a, a);
    SquareSteps(a);
    hide Times, Steps, Square;
  }

  lemma Swap(a: byte, b: byte, c: byte, d: byte)
    ensures Times(Times(a, b), Times(c, d)) == Times(Times(a, c), Times(b, d))
  {
    hide *;
    Associates(a, b, Times(c, d));
    Associates(b, c, d);
    Commutes(b, c);
    Associates(c, b, d);
    Associates(a, c, Times(b, d));
  }

  lemma SquareTimes(a: byte, b: byte)
    ensures Square(Times(a, b)) == Times(Square(a), Square(b))
  {
    hide *;
    Swap(a, b, a, b);
    IsSquare(a);
    IsSquare(b);
    IsSquare(Times(a, b));
  }

  /** The product of the n squares a, a^2, a^4, ... */
  function Squares(a: byte, n: nat): byte
    decreases n
  {
    if n == 0 then 1 else Times(a, Squares(Square(a), n - 1))
  }

  function SquareN(a: byte, n: nat): byte
    decreases n
  {
    if n == 0 then a else SquareN(Square(a), n - 1)
  }

  lemma SquaresNone(a: byte)
    ensures Squares(a, 0) == 1 && SquareN(a, 0) == a && Square(1) == 1
  {
  }

  lemma SquaresStep(a: byte, n: nat)
    ensures n > 0 ==> Squares(a, n) == Times(a, Squares(Square(a), n - 1)) && SquareN(a, n) == SquareN(Square(a), n - 1)
  {
    hide Times, Square;
  }

  lemma {:induction false} SquareSquares(a: byte, n: nat)
    ensures Square(Squares(a, n)) == Squares(Square(a), n)
    decreases n
  {
    hide *;
    if n == 0 {
      SquaresNone(a);
      SquaresNone(Square(a));
    } else {
      SquaresStep(a, n);
      SquaresStep(Square(a), n);
      SquareTimes(a, Squares(Square(a), n - 1));
      SquareSquares(Square(a), n - 1);
    }
  }

  /** Appending the next square at the end of the product, instead of at its head. */
  lemma {:induction false} SquaresLast(a: byte, n: nat)
    ensures Squares(a, n + 1) == Times(Squares(a, n), SquareN(a, n))
    decreases n
  {
    hide *;
    SquaresStep(a, n + 1);
    if n == 0 {
      SquaresNone(a);
      SquaresNone(Square(a));
      OneLeft(a);
      Commutes(a, 1);
    } else {
      SquaresStep(a, n);
      SquaresLast(Square(a), n - 1);
      Associates(a, Squares(Square(a), n - 1), SquareN(Square(a), n - 1));
    }
  }

  lemma {:induction false} PowerOfTwo(a: byte, n: nat)
    ensures SquareN(a, n) == Times(a, Squares(a, n))
    decreases n
  {
    hide *;
    if n == 0 {
      SquaresNone(a);
      OneLeft(a);
      Commutes(a, 1);
    } else {
      SquaresStep(a, n);
      PowerOfTwo(Square(a), n - 1);
      IsSquare(a);
      Associates(a, a, Squares(Square(a), n - 1));
    }
  }

  lemma FrobeniusN(a: byte)
    ensures SquareN(a, 8) == a
  {
    Frobenius(a);
    SquareNFour(a, 8);
    SquareNFour(Square(Square(Square(Square(a)))), 4);
    hide Square;
  }

  lemma SquareNFour(a: byte, n: nat)
    requires n >= 4
    ensures SquareN(a, n) == SquareN(Square(Square(Square(Square(a)))), n - 4)
  {
    hide Square;
    SquaresStep(Square(a), n - 1);
    SquaresStep(Square(Square(a)), n - 2);
    SquaresStep(Square(Square(Square(a))), n - 3);
  }

  /** a^254: the product of a^2, a^4, ..., a^128. */
  function Inverse(a: byte): byte { Squares(Square(a), 7) }

  lemma ZeroTimes(a: byte)
    ensures Times(0, a) == 0 && Times(a, 0) == 0
  {
    MulZero(a, 8);
    hide Mul;
  }

  /** Every element but 0 has an inverse: a * a^254 is its own square, so it is 0 or 1, and 0 would make a = 0. */
  lemma HasInverse(a: byte)
    ensures a != 0 ==> Times(a, Inverse(a)) == 1
  {
    hide Times, Square, Squares, SquareN;
    SquaresStep(a, 8);
    SquareSquares(a, 8);
    SquaresLast(Square(a), 7);
    FrobeniusN(a);
    Commutes(a, Inverse(a));
    SquareRoots(Squares(a, 8));
    PowerOfTwo(a, 8);
    ZeroTimes(a);
  }

  /** The inverse is unique, which is why the order of the search does not matter. */
  lemma UniqueInverse(a: byte, b: byte, c: byte)
    requires Times(a, b) == 1 && Times(a, c) == 1
    ensures b == c
  {
    hide *;
    Commutes(a, b);
    Associates(b, a, c);
    OneLeft(c);
    OneLeft(b);
    Commutes(b, 1);
  }

  /** Doubling shifts, and what leaves the byte comes back as 1 + x + x^3 + x^4; with the laws above that is all there
      is to know of the product. */
  lemma DoubleReduces(a: byte)
    ensures Times(a, 1) == a && Times(a, 2) == (a << 1) ^ (if a >= 0x80 then 0x1B else 0)
  {
    Commutes(a, 1);
    OneLeft(a);
    Commutes(a, 2);
    MulXtime(1, a, 8);
    assert Xtime(1) == 2;
    hide Mul;
  }
}
