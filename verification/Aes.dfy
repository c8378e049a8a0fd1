/** The block cipher of FIPS-197 on values: the rounds of section 5 and what undoes them. */
module Aes {
  import opened Gf256
  import opened Sbox

  /** Byte i is row i % 4 of column i / 4. */
  type block = s: seq<byte> | |s| == 16 witness ZERO

  const ZERO: seq<byte> := [0, 0, 0, 0, 0, 0, 0, 0, 0, 0, 0, 0, 0, 0, 0, 0]

  function Xor(a: block, b: block): block { seq(16, i requires 0 <= i < 16 => Plus(a[i], b[i])) }

  function SubBytes(s: block): block { seq(16, i requires 0 <= i < 16 => SubByte(s[i])) }

  function InvSubBytes(s: block): block { seq(16, i requires 0 <= i < 16 => InvSubByte(s[i])) }

  /** A column counted round: n mod 4, for n below 8. */
  function Wrap(n: nat): nat { if n >= 4 then n - 4 else n }

  /** The byte r columns further on in row r, and the one r columns back. */
  function Left(i: nat): (j: nat)
    requires i < 16
    ensures j < 16
  {
    4 * Wrap(i / 4 + i % 4) + i % 4
  }

  function Right(i: nat): (j: nat)
    requires i < 16
    ensures j < 16
  {
    4 * Wrap(i / 4 + 4 - i % 4) + i % 4
  }

  /** Row r rotated left by r. */
  function ShiftRows(s: block): block { seq(16, i requires 0 <= i < 16 => s[Left(i)]) }

  /** Row r rotated right by r. */
  function InvShiftRows(s: block): block { seq(16, i requires 0 <= i < 16 => s[Right(i)]) }

  /** One row of a matrix of coefficients on a column. */
  function Dot(a: byte, b: byte, c: byte, d: byte, k: byte, l: byte, m: byte, n: byte): byte {
    Plus(Plus(Times(a, k), Times(b, l)), Plus(Times(c, m), Times(d, n)))
  }

  function Mix(a: byte, b: byte, c: byte, d: byte): byte { Dot(a, b, c, d, 2, 3, 1, 1) }

  function InvMix(a: byte, b: byte, c: byte, d: byte): byte { Dot(a, b, c, d, 0x0E, 0x0B, 0x0D, 0x09) }

  /** A column through the matrix whose rows are the first one turned. */
  function MixColumn(a: byte, b: byte, c: byte, d: byte): (r: seq<byte>)
    ensures |r| == 4
  {
    [Mix(a, b, c, d), Mix(b, c, d, a), Mix(c, d, a, b), Mix(d, a, b, c)]
  }

  function InvMixColumn(a: byte, b: byte, c: byte, d: byte): (r: seq<byte>)
    ensures |r| == 4
  {
    [InvMix(a, b, c, d), InvMix(b, c, d, a), InvMix(c, d, a, b), InvMix(d, a, b, c)]
  }

  /** Column c, and the two ways through the matrix. */
  function MixedAt(s: block, c: nat): (r: seq<byte>)
    requires c < 4
    ensures |r| == 4
  {
    MixColumn(s[4 * c], s[4 * c + 1], s[4 * c + 2], s[4 * c + 3])
  }

  function InvMixedAt(s: block, c: nat): (r: seq<byte>)
    requires c < 4
    ensures |r| == 4
  {
    InvMixColumn(s[4 * c], s[4 * c + 1], s[4 * c + 2], s[4 * c + 3])
  }

  function MixColumns(s: block): block { seq(16, i requires 0 <= i < 16 => MixedAt(s, i / 4)[i % 4]) }

  function InvMixColumns(s: block): block { seq(16, i requires 0 <= i < 16 => InvMixedAt(s, i / 4)[i % 4]) }

  // ---- each step is undone

  lemma XorCancels(a: block, b: block)
    ensures Xor(Xor(a, b), b) == a
  {
    hide Plus;
    forall i: nat | i < 16
      ensures Xor(Xor(a, b), b)[i] == a[i]
    {
      PlusAssoc(a[i], b[i], b[i]);
      ZeroPlus(a[i]);
      ZeroPlus(b[i]);
    }
  }

  lemma SubBytesUndone(s: block)
    ensures InvSubBytes(SubBytes(s)) == s && SubBytes(InvSubBytes(s)) == s
  {
    hide SubByte, InvSubByte;
    forall i | 0 <= i < 16
      ensures InvSubBytes(SubBytes(s))[i] == s[i] && SubBytes(InvSubBytes(s))[i] == s[i]
    {
      SboxBijective(s[i]);
    }
  }

  lemma WrapBack(q: nat, r: nat)
    requires q < 4 && r < 4
    ensures Wrap(Wrap(q + r) + 4 - r) == q && Wrap(q + r) < 4
    ensures Wrap(Wrap(q + 4 - r) + r) == q && Wrap(q + 4 - r) < 4
  {
  }

  lemma TurnedBack(i: nat)
    requires i < 16
    ensures Left(Right(i)) == i && Right(Left(i)) == i
  {
    hide Wrap;
    var q, r := i / 4, i % 4;
    WrapBack(q, r);
    Parts(Wrap(q + r), r);
    Parts(Wrap(q + 4 - r), r);
    var left, right := 4 * Wrap(q + r) + r, 4 * Wrap(q + 4 - r) + r;
    assert Left(i) == left && Right(i) == right && i == 4 * q + r;
    assert left / 4 == Wrap(q + r) && left % 4 == r && right / 4 == Wrap(q + 4 - r) && right % 4 == r;
  }

  lemma Parts(q: nat, r: nat)
    requires q < 4 && r < 4
    ensures (4 * q + r) / 4 == q && (4 * q + r) % 4 == r
  {
  }

  lemma ShiftRowsUndone(s: block)
    ensures InvShiftRows(ShiftRows(s)) == s && ShiftRows(InvShiftRows(s)) == s
  {
    hide Left, Right;
    forall i: nat | i < 16
      ensures InvShiftRows(ShiftRows(s))[i] == s[i] && ShiftRows(InvShiftRows(s))[i] == s[i]
    {
      TurnedBack(i);
    }
  }

  function Sum(a: byte, b: byte, c: byte, d: byte): byte { Plus(Plus(a, b), Plus(c, d)) }

  lemma SumTurns(a: byte, b: byte, c: byte, d: byte)
    ensures Sum(b, c, d, a) == Sum(a, b, c, d)
  {
    hide Plus;
    PlusAssoc(a, d, 0);
    PlusSwap(b, c, a, d);
    PlusAssoc(a, b, 0);
  }

  lemma SumPlus(a: byte, b: byte, c: byte, d: byte, p: byte, q: byte, r: byte, s: byte)
    ensures Sum(Plus(a, p), Plus(b, q), Plus(c, r), Plus(d, s)) == Plus(Sum(a, b, c, d), Sum(p, q, r, s))
  {
    hide Plus;
    PlusSwap(a, p, b, q);
    PlusSwap(c, r, d, s);
    PlusSwap(Plus(a, b), Plus(p, q), Plus(c, d), Plus(r, s));
  }

  lemma DotIsSum(a: byte, b: byte, c: byte, d: byte, k: byte, l: byte, m: byte, n: byte)
    ensures Dot(a, b, c, d, k, l, m, n) == Sum(Times(a, k), Times(b, l), Times(c, m), Times(d, n))
  {
    hide Plus, Times;
  }

  /** A row of coefficients distributes over a sum of columns. */
  lemma DotPlus(a: byte, b: byte, c: byte, d: byte, p: byte, q: byte, r: byte, s: byte,
                k: byte, l: byte, m: byte, n: byte)
    ensures Dot(Plus(a, p), Plus(b, q), Plus(c, r), Plus(d, s), k, l, m, n)
         == Plus(Dot(a, b, c, d, k, l, m, n), Dot(p, q, r, s, k, l, m, n))
  {
    hide *;
    DotIsSum(a, b, c, d, k, l, m, n);
    DotIsSum(p, q, r, s, k, l, m, n);
    DotIsSum(Plus(a, p), Plus(b, q), Plus(c, r), Plus(d, s), k, l, m, n);
    Distributes(a, p, k);
    Distributes(b, q, l);
    Distributes(c, r, m);
    Distributes(d, s, n);
    SumPlus(Times(a, k), Times(b, l), Times(c, m), Times(d, n), Times(p, k), Times(q, l), Times(r, m), Times(s, n));
  }

  /** A common left factor comes out of a sum, and out of a row. */
  lemma TimesSum(v: byte, a: byte, b: byte, c: byte, d: byte)
    ensures Times(v, Sum(a, b, c, d)) == Sum(Times(v, a), Times(v, b), Times(v, c), Times(v, d))
  {
    hide Times, Plus;
    Distributes(v, Plus(a, b), Plus(c, d));
    Distributes(v, a, b);
    Distributes(v, c, d);
  }

  lemma DotTimes(v: byte, a: byte, b: byte, c: byte, d: byte, k: byte, l: byte, m: byte, n: byte)
    ensures Dot(Times(v, a), Times(v, b), Times(v, c), Times(v, d), k, l, m, n) == Times(v, Dot(a, b, c, d, k, l, m, n))
  {
    hide *;
    DotIsSum(a, b, c, d, k, l, m, n);
    DotIsSum(Times(v, a), Times(v, b), Times(v, c), Times(v, d), k, l, m, n);
    TimesSum(v, Times(a, k), Times(b, l), Times(c, m), Times(d, n));
    Associates(v, a, k);
    Associates(v, b, l);
    Associates(v, c, m);
    Associates(v, d, n);
  }

  /** The column with coefficient i turned down the rows, times the four inputs, one input at a time. */
  lemma Turned(a: byte, b: byte, c: byte, d: byte, i: byte, j: byte, k: byte, l: byte)
    ensures Dot(a, b, c, d, i, j, k, l) == Sum(Times(a, i), Times(b, j), Times(c, k), Times(d, l))
    ensures Dot(b, c, d, a, i, j, k, l) == Sum(Times(a, l), Times(b, i), Times(c, j), Times(d, k))
    ensures Dot(c, d, a, b, i, j, k, l) == Sum(Times(a, k), Times(b, l), Times(c, i), Times(d, j))
    ensures Dot(d, a, b, c, i, j, k, l) == Sum(Times(a, j), Times(b, k), Times(c, l), Times(d, i))
  {
    hide *;
    DotIsSum(a, b, c, d, i, j, k, l);
    DotIsSum(b, c, d, a, i, j, k, l);
    DotIsSum(c, d, a, b, i, j, k, l);
    DotIsSum(d, a, b, c, i, j, k, l);
    SumTurns(Times(a, l), Times(b, i), Times(c, j), Times(d, k));
    SumTurns(Times(a, k), Times(b, l), Times(c, i), Times(d, j));
    SumTurns(Times(b, l), Times(c, i), Times(d, j), Times(a, k));
    SumTurns(Times(d, i), Times(a, j), Times(b, k), Times(c, l));
  }

  /** The product of two turning matrices, its first row worked out: each input times one row of the other. */
  lemma Composed(a: byte, b: byte, c: byte, d: byte, i: byte, j: byte, k: byte, l: byte,
                 p: byte, q: byte, r: byte, s: byte)
    ensures Dot(Dot(a, b, c, d, i, j, k, l), Dot(b, c, d, a, i, j, k, l),
                Dot(c, d, a, b, i, j, k, l), Dot(d, a, b, c, i, j, k, l), p, q, r, s)
         == Sum(Times(a, Dot(i, l, k, j, p, q, r, s)), Times(b, Dot(j, i, l, k, p, q, r, s)),
                Times(c, Dot(k, j, i, l, p, q, r, s)), Times(d, Dot(l, k, j, i, p, q, r, s)))
  {
    hide *;
    Turned(a, b, c, d, i, j, k, l);
    DotTimes(a, i, l, k, j, p, q, r, s);
    DotTimes(b, j, i, l, k, p, q, r, s);
    DotTimes(c, k, j, i, l, p, q, r, s);
    DotTimes(d, l, k, j, i, p, q, r, s);
    DotSum(Times(a, i), Times(a, l), Times(a, k), Times(a, j), Times(b, j), Times(b, i), Times(b, l), Times(b, k),
           Times(c, k), Times(c, j), Times(c, i), Times(c, l), Times(d, l), Times(d, k), Times(d, j), Times(d, i),
           p, q, r, s);
  }

  lemma DotSum(a0: byte, a1: byte, a2: byte, a3: byte, b0: byte, b1: byte, b2: byte, b3: byte,
               c0: byte, c1: byte, c2: byte, c3: byte, d0: byte, d1: byte, d2: byte, d3: byte,
               p: byte, q: byte, r: byte, s: byte)
    ensures Dot(Sum(a0, b0, c0, d0), Sum(a1, b1, c1, d1), Sum(a2, b2, c2, d2), Sum(a3, b3, c3, d3), p, q, r, s)
         == Sum(Dot(a0, a1, a2, a3, p, q, r, s), Dot(b0, b1, b2, b3, p, q, r, s),
                Dot(c0, c1, c2, c3, p, q, r, s), Dot(d0, d1, d2, d3, p, q, r, s))
  {
    hide Dot, Plus;
    DotPlus(Plus(a0, b0), Plus(a1, b1), Plus(a2, b2), Plus(a3, b3),
            Plus(c0, d0), Plus(c1, d1), Plus(c2, d2), Plus(c3, d3), p, q, r, s);
    DotPlus(a0, a1, a2, a3, b0, b1, b2, b3, p, q, r, s);
    DotPlus(c0, c1, c2, c3, d0, d1, d2, d3, p, q, r, s);
  }

  lemma TimesConstants()
    ensures Times(2, 0x0E) == 0x1C && Times(3, 0x0E) == 0x12 && Times(1, 0x0E) == 0x0E
    ensures Times(2, 0x0B) == 0x16 && Times(3, 0x0B) == 0x1D && Times(1, 0x0B) == 0x0B
    ensures Times(2, 0x0D) == 0x1A && Times(3, 0x0D) == 0x17 && Times(1, 0x0D) == 0x0D
    ensures Times(2, 0x09) == 0x12 && Times(3, 0x09) == 0x1B && Times(1, 0x09) == 0x09
  {
    hide Times;
    OneLeft(0x0E);
    OneLeft(0x0B);
    OneLeft(0x0D);
    OneLeft(0x09);
    Unfolded(2, 0x0E);
    Unfolded(3, 0x0E);
    Unfolded(2, 0x0B);
    Unfolded(3, 0x0B);
    Unfolded(2, 0x0D);
    Unfolded(3, 0x0D);
    Unfolded(2, 0x09);
    Unfolded(3, 0x09);
  }

  /** The two matrices are inverse: the first row of their product is that of the identity. */
  lemma RowsCancel()
    ensures Dot(2, 1, 1, 3, 0x0E, 0x0B, 0x0D, 0x09) == 1
    ensures Dot(3, 2, 1, 1, 0x0E, 0x0B, 0x0D, 0x09) == 0
    ensures Dot(1, 3, 2, 1, 0x0E, 0x0B, 0x0D, 0x09) == 0
    ensures Dot(1, 1, 3, 2, 0x0E, 0x0B, 0x0D, 0x09) == 0
  {
    hide Times;
    TimesConstants();
  }

  lemma OnlyFirst(a: byte, b: byte, c: byte, d: byte)
    ensures Sum(Times(a, 1), Times(b, 0), Times(c, 0), Times(d, 0)) == a
  {
    hide Times;
    Commutes(a, 1);
    OneLeft(a);
    ZeroTimes(b);
    ZeroTimes(c);
    ZeroTimes(d);
  }

  lemma InvMixOfMix(a: byte, b: byte, c: byte, d: byte)
    ensures InvMix(Mix(a, b, c, d), Mix(b, c, d, a), Mix(c, d, a, b), Mix(d, a, b, c)) == a
  {
    hide Dot, Times, Sum;
    Composed(a, b, c, d, 2, 3, 1, 1, 0x0E, 0x0B, 0x0D, 0x09);
    RowsCancel();
    OnlyFirst(a, b, c, d);
  }

  lemma ColumnUndone(a: byte, b: byte, c: byte, d: byte)
    ensures var m := MixColumn(a, b, c, d); InvMixColumn(m[0], m[1], m[2], m[3]) == [a, b, c, d]
  {
    hide Mix, InvMix;
    InvMixOfMix(a, b, c, d);
    InvMixOfMix(b, c, d, a);
    InvMixOfMix(c, d, a, b);
    InvMixOfMix(d, a, b, c);
  }

  lemma MixedColumn(s: block, c: nat)
    requires c < 4
    ensures MixColumns(s)[4 * c] == MixedAt(s, c)[0] && MixColumns(s)[4 * c + 1] == MixedAt(s, c)[1]
    ensures MixColumns(s)[4 * c + 2] == MixedAt(s, c)[2] && MixColumns(s)[4 * c + 3] == MixedAt(s, c)[3]
    ensures InvMixColumns(s)[4 * c] == InvMixedAt(s, c)[0] && InvMixColumns(s)[4 * c + 1] == InvMixedAt(s, c)[1]
    ensures InvMixColumns(s)[4 * c + 2] == InvMixedAt(s, c)[2] && InvMixColumns(s)[4 * c + 3] == InvMixedAt(s, c)[3]
  {
    hide MixedAt, InvMixedAt;
  }

  lemma ColumnOfUndone(s: block, c: nat)
    requires c < 4
    ensures InvMixedAt(MixColumns(s), c) == [s[4 * c], s[4 * c + 1], s[4 * c + 2], s[4 * c + 3]]
  {
    hide MixColumn, InvMixColumn, MixColumns;
    MixedColumn(s, c);
    ColumnUndone(s[4 * c], s[4 * c + 1], s[4 * c + 2], s[4 * c + 3]);
  }

  lemma MixColumnsUndone(s: block)
    ensures InvMixColumns(MixColumns(s)) == s
  {
    hide InvMixedAt, MixColumns;
    forall i: nat | i < 16
      ensures InvMixColumns(MixColumns(s))[i] == s[i]
    {
      ColumnOfUndone(s, i / 4);
    }
  }

  // ---- the cipher

  /** The round keys: one for before the first round, one for each round. */
  type keys = k: seq<block> | |k| >= 2 witness [ZERO, ZERO]

  function Round(s: block, k: block): block { Xor(MixColumns(ShiftRows(SubBytes(s))), k) }

  /** The first n rounds. */
  function Rounds(k: keys, s: block, n: nat): block
    requires n < |k|
  {
    if n == 0 then s else Round(Rounds(k, s, n - 1), k[n])
  }

  function Encrypt(k: keys, input: block): block {
    var last := |k| - 1;
    Xor(ShiftRows(SubBytes(Rounds(k, Xor(input, k[0]), last - 1))), k[last])
  }

  function InvRound(s: block, k: block): block { InvMixColumns(Xor(InvSubBytes(InvShiftRows(s)), k)) }

  /** Rounds n, n - 1, ..., 1 backwards. */
  function InvRounds(k: keys, s: block, n: nat): block
    requires n < |k|
    decreases n
  {
    if n == 0 then s else InvRounds(k, InvRound(s, k[n]), n - 1)
  }

  function Decrypt(k: keys, input: block): block {
    var last := |k| - 1;
    Xor(InvSubBytes(InvShiftRows(InvRounds(k, Xor(input, k[last]), last - 1))), k[0])
  }

  /** The state an inverse round starts from: a round's two byte steps done, its mixing not. */
  function Stirred(s: block): block { ShiftRows(SubBytes(s)) }

  lemma StirredUndone(s: block)
    ensures InvSubBytes(InvShiftRows(Stirred(s))) == s
  {
    hide SubBytes, InvSubBytes, ShiftRows, InvShiftRows;
    ShiftRowsUndone(SubBytes(s));
    SubBytesUndone(s);
  }

  lemma RoundUndone(s: block, k: block)
    ensures InvRound(Stirred(Round(s, k)), k) == Stirred(s)
  {
    hide SubBytes, InvSubBytes, ShiftRows, InvShiftRows, MixColumns, InvMixColumns, Xor;
    StirredUndone(Round(s, k));
    XorCancels(MixColumns(Stirred(s)), k);
    MixColumnsUndone(Stirred(s));
  }

  lemma {:induction false} RoundsUndone(k: keys, s: block, n: nat)
    requires n < |k|
    ensures InvRounds(k, Stirred(Rounds(k, s, n)), n) == Stirred(s)
    decreases n
  {
    hide Stirred, Round, InvRound;
    if n > 0 {
      RoundUndone(Rounds(k, s, n - 1), k[n]);
      RoundsUndone(k, s, n - 1);
    }
  }

  /** Decryption undoes encryption, for any round keys and any number of rounds. */
  lemma DecryptUndoesEncrypt(k: keys, input: block)
    ensures Decrypt(k, Encrypt(k, input)) == input
  {
    hide Rounds, InvRounds, Xor, SubBytes, InvSubBytes, ShiftRows, InvShiftRows;
    var last := |k| - 1;
    var s := Xor(input, k[0]);
    var t := Rounds(k, s, last - 1);
    XorCancels(Stirred(t), k[last]);
    RoundsUndone(k, s, last - 1);
    StirredUndone(s);
    XorCancels(input, k[0]);
  }

  // ---- the cipher byte by byte (section 5.1 of FIPS-197)

  function Sum5(a: byte, b: byte, c: byte, d: byte, k: byte): byte { a ^ b ^ c ^ d ^ k }

  /** The byte of row t that the row shift brings into column c, substituted. */
  function Shifted(s: block, c: nat, t: nat): byte
    requires c < 4 && t < 4
  {
    SubByte(s[4 * ((c + t) % 4) + t])
  }

  /** Column c of a round, by the bytes it is made of. */
  ghost predicate RoundColumn(s: block, k: block, s': block, c: nat)
    requires c < 4
  {
    var a0, a1, a2, a3 := Shifted(s, c, 0), Shifted(s, c, 1), Shifted(s, c, 2), Shifted(s, c, 3);
    && s'[4 * c] == Sum5(Times(a0, 2), Times(a1, 3), a2, a3, k[4 * c])
    && s'[4 * c + 1] == Sum5(Times(a1, 2), Times(a2, 3), a3, a0, k[4 * c + 1])
    && s'[4 * c + 2] == Sum5(Times(a2, 2), Times(a3, 3), a0, a1, k[4 * c + 2])
    && s'[4 * c + 3] == Sum5(Times(a3, 2), Times(a0, 3), a1, a2, k[4 * c + 3])
  }

  /** A round, and the last one, which does not mix. */
  ghost predicate RoundStep(s: block, k: block, s': block) {
    forall c: nat :: c < 4 ==> RoundColumn(s, k, s', c)
  }

  ghost predicate LastStep(s: block, k: block, s': block) {
    forall c: nat, t: nat {:trigger Shifted(s, c, t)} :: c < 4 && t < 4 ==>
      s'[4 * c + t] == Shifted(s, c, t) ^ k[4 * c + t]
  }

  /** The states of an encryption, from the block with the first key added to the result. */
  ghost predicate Encryption(k: keys, input: block, s: seq<block>) {
    && |s| == |k|
    && (forall i: nat :: i < 16 ==> s[0][i] == input[i] ^ k[0][i])
    && (forall n: nat :: 0 < n < |k| - 1 ==> RoundStep(s[n - 1], k[n], s[n]))
    && LastStep(s[|k| - 2], k[|k| - 1], s[|k| - 1])
  }

  lemma LeftIs(c: nat, t: nat)
    requires c < 4 && t < 4
    ensures Left(4 * c + t) == 4 * ((c + t) % 4) + t
  {
    Parts(c, t);
  }

  lemma SumIs(a: byte, b: byte, c: byte, d: byte, k: byte)
    ensures Plus(Plus(Plus(a, b), Plus(c, d)), k) == Sum5(a, b, c, d, k)
  {
  }

  lemma MixIs(a: byte, b: byte, c: byte, d: byte, k: byte)
    ensures Plus(Mix(a, b, c, d), k) == Sum5(Times(a, 2), Times(b, 3), c, d, k)
  {
    hide Times, Plus, Sum5;
    Commutes(c, 1);
    Commutes(d, 1);
    OneLeft(c);
    OneLeft(d);
    SumIs(Times(a, 2), Times(b, 3), c, d, k);
  }

  lemma ShiftedIs(s: block, c: nat, t: nat)
    requires c < 4 && t < 4
    ensures Stirred(s)[4 * c + t] == Shifted(s, c, t)
  {
    hide SubByte, Left;
    LeftIs(c, t);
  }

  lemma MixedIs(s: block, c: nat)
    requires c < 4
    ensures MixedAt(Stirred(s), c) ==
            MixColumn(Shifted(s, c, 0), Shifted(s, c, 1), Shifted(s, c, 2), Shifted(s, c, 3))
  {
    hide Stirred, Shifted, MixColumn;
    ShiftedIs(s, c, 0);
    ShiftedIs(s, c, 1);
    ShiftedIs(s, c, 2);
    ShiftedIs(s, c, 3);
  }

  lemma ColumnIs(s: block, k: block, s': block, c: nat)
    requires c < 4 && RoundColumn(s, k, s', c)
    ensures s'[4 * c] == Round(s, k)[4 * c] && s'[4 * c + 1] == Round(s, k)[4 * c + 1]
    ensures s'[4 * c + 2] == Round(s, k)[4 * c + 2] && s'[4 * c + 3] == Round(s, k)[4 * c + 3]
  {
    hide Times, Mix, Shifted, Stirred, Plus, Sum5, MixedAt, Round;
    var a0, a1, a2, a3 := Shifted(s, c, 0), Shifted(s, c, 1), Shifted(s, c, 2), Shifted(s, c, 3);
    MixedIs(s, c);
    MixIs(a0, a1, a2, a3, k[4 * c]);
    MixIs(a1, a2, a3, a0, k[4 * c + 1]);
    MixIs(a2, a3, a0, a1, k[4 * c + 2]);
    MixIs(a3, a0, a1, a2, k[4 * c + 3]);
    RoundAt(s, k, c, 0);
    RoundAt(s, k, c, 1);
    RoundAt(s, k, c, 2);
    RoundAt(s, k, c, 3);
  }

  lemma RoundAt(s: block, k: block, c: nat, t: nat)
    requires c < 4 && t < 4
    ensures Round(s, k)[4 * c + t] == Plus(MixedAt(Stirred(s), c)[t], k[4 * c + t])
  {
    hide MixedAt, Plus, ShiftRows, SubBytes;
    StirredIs(s);
    Parts(c, t);
  }

  lemma StirredIs(s: block)
    ensures Stirred(s) == ShiftRows(SubBytes(s))
  {
  }

  /** A round is what its columns are. */
  lemma RoundIs(s: block, k: block, s': block)
    requires RoundStep(s, k, s')
    ensures s' == Round(s, k)
  {
    hide RoundColumn, Round;
    forall i: nat | i < 16 ensures s'[i] == Round(s, k)[i] {
      ColumnIs(s, k, s', i / 4);
      assert i == 4 * (i / 4) + i % 4;
    }
  }

  lemma LastIs(s: block, k: block, s': block)
    requires LastStep(s, k, s')
    ensures s' == Xor(Stirred(s), k)
  {
    hide Shifted, Stirred;
    forall i: nat | i < 16 ensures s'[i] == Xor(Stirred(s), k)[i] {
      ShiftedIs(s, i / 4, i % 4);
      assert i == 4 * (i / 4) + i % 4;
    }
  }

  lemma {:induction false} RoundsAre(k: keys, input: block, s: seq<block>, n: nat)
    requires Encryption(k, input, s) && n < |k| - 1
    ensures s[n] == Rounds(k, Xor(input, k[0]), n)
  {
    hide RoundStep, LastStep, Round;
    if n == 0 {
      assert s[0] == Xor(input, k[0]);
    } else {
      RoundsAre(k, input, s, n - 1);
      RoundIs(s[n - 1], k[n], s[n]);
    }
  }

  /** Encryption is the cipher as its bytes define it: whatever states satisfy the equations of every round end in its
      result. */
  lemma EncryptIs(k: keys, input: block, s: seq<block>)
    requires Encryption(k, input, s)
    ensures s[|k| - 1] == Encrypt(k, input)
  {
    hide RoundStep, LastStep, Rounds, Xor, SubBytes, ShiftRows, Stirred;
    RoundsAre(k, input, s, |k| - 2);
    LastIs(s[|k| - 2], k[|k| - 1], s[|k| - 1]);
    StirredIs(s[|k| - 2]);
  }

  // ---- key expansion (section 5.2 of FIPS-197)

  datatype Word = Word(b0: byte, b1: byte, b2: byte, b3: byte)

  function XorWord(a: Word, b: Word): Word { Word(a.b0 ^ b.b0, a.b1 ^ b.b1, a.b2 ^ b.b2, a.b3 ^ b.b3) }

  function RotWord(a: Word): Word { Word(a.b1, a.b2, a.b3, a.b0) }

  function SubWord(a: Word): Word { Word(SubByte(a.b0), SubByte(a.b1), SubByte(a.b2), SubByte(a.b3)) }

  /** x^n. */
  function Rcon(n: nat): byte { if n == 0 then 1 else Xtime(Rcon(n - 1)) }

  /** The words nk names: 4, 6 or 8. */
  predicate KeyWords(nk: nat) { nk == 4 || nk == 6 || nk == 8 }

  function Expanded(key: seq<byte>, nk: nat, i: nat): Word
    requires KeyWords(nk) && |key| >= 4 * nk
  {
    if i < nk then Word(key[4 * i], key[4 * i + 1], key[4 * i + 2], key[4 * i + 3])
    else XorWord(Expanded(key, nk, i - nk), Turn(Expanded(key, nk, i - 1), nk, i))
  }

  /** The constant of word i, a multiple of nk: x^(i / nk - 1). */
  function Constant(nk: nat, i: nat): Word
    requires KeyWords(nk) && i >= nk
  {
    var n := if nk == 4 then i / 4 else if nk == 6 then i / 6 else i / 8;
    Word(Rcon(n - 1), 0, 0, 0)
  }

  /** What the word before word i becomes on its way into word i. */
  function Turn(w: Word, nk: nat, i: nat): Word
    requires KeyWords(nk) && i >= nk
  {
    var r := if nk == 4 then i % 4 else if nk == 6 then i % 6 else i % 8;
    if r == 0 then XorWord(SubWord(RotWord(w)), Constant(nk, i))
    else if nk > 6 && r == 4 then SubWord(w)
    else w
  }

  function Bytes(w: Word): seq<byte> { [w.b0, w.b1, w.b2, w.b3] }

  /** The key of round r: the next four words. */
  function RoundKey(key: seq<byte>, nk: nat, r: nat): block
    requires KeyWords(nk) && |key| >= 4 * nk
  {
    Bytes(Expanded(key, nk, 4 * r)) + Bytes(Expanded(key, nk, 4 * r + 1))
    + Bytes(Expanded(key, nk, 4 * r + 2)) + Bytes(Expanded(key, nk, 4 * r + 3))
  }

  function Schedule(key: seq<byte>, nk: nat): (k: keys)
    requires KeyWords(nk) && |key| >= 4 * nk
    ensures |k| == nk + 7
  {
    seq(nk + 7, r requires 0 <= r < nk + 7 => RoundKey(key, nk, r))
  }

  // ---- the schedule byte by byte

  /** The constants of the words a multiple of the key length on. */
  lemma RconValues()
    ensures [Rcon(0), Rcon(1), Rcon(2), Rcon(3), Rcon(4)] == [0x01, 0x02, 0x04, 0x08, 0x10]
    ensures [Rcon(5), Rcon(6), Rcon(7), Rcon(8), Rcon(9)] == [0x20, 0x40, 0x80, 0x1B, 0x36]
  {
  }

  /** Which multiple of the key length i is, counted from 0. */
  function TurnNumber(nk: nat, i: nat): (q: nat)
    requires KeyWords(nk) && i >= nk
    ensures q == i / nk - 1
  {
    if nk == 4 then i / 4 - 1 else if nk == 6 then i / 6 - 1 else i / 8 - 1
  }

  /** Word i of a schedule, by its bytes: the key itself, or the word a key length back with the last one added, which
      has its bytes turned up and substituted, and a constant added, at every multiple of the key length, and is
      substituted half-way between them if the key is a long one. */
  ghost predicate ScheduleWord(key: seq<byte>, nk: nat, w: seq<Word>, i: nat)
    requires KeyWords(nk) && |key| >= 4 * nk && i < |w|
  {
    if i < nk then
      w[i].b0 == key[4 * i] && w[i].b1 == key[4 * i + 1] && w[i].b2 == key[4 * i + 2] && w[i].b3 == key[4 * i + 3]
    else
      var back, last := w[i - nk], w[i - 1];
      if i % nk == 0 then
        && w[i].b0 == Plus(back.b0, Plus(SubByte(last.b1), Rcon(TurnNumber(nk, i))))
        && w[i].b1 == Plus(back.b1, SubByte(last.b2))
        && w[i].b2 == Plus(back.b2, SubByte(last.b3)) && w[i].b3 == Plus(back.b3, SubByte(last.b0))
      else if nk == 8 && i % nk == 4 then
        && w[i].b0 == Plus(back.b0, SubByte(last.b0)) && w[i].b1 == Plus(back.b1, SubByte(last.b1))
        && w[i].b2 == Plus(back.b2, SubByte(last.b2)) && w[i].b3 == Plus(back.b3, SubByte(last.b3))
      else
        && w[i].b0 == Plus(back.b0, last.b0) && w[i].b1 == Plus(back.b1, last.b1)
        && w[i].b2 == Plus(back.b2, last.b2) && w[i].b3 == Plus(back.b3, last.b3)
  }

  lemma ConstantIs(nk: nat, i: nat)
    requires KeyWords(nk) && i >= nk && i % nk == 0
    ensures Constant(nk, i) == Word(Rcon(TurnNumber(nk, i)), 0, 0, 0)
  {
    hide Rcon;
    if nk == 4 {
    } else if nk == 6 {
    } else {
    }
  }

  lemma TurnCases(w: Word, nk: nat, i: nat)
    requires KeyWords(nk) && i >= nk
    ensures Turn(w, nk, i) == if i % nk == 0 then XorWord(SubWord(RotWord(w)), Constant(nk, i))
                              else if nk > 6 && i % nk == 4 then SubWord(w) else w
  {
    hide Constant, SubWord, RotWord, XorWord;
    if nk == 4 {
    } else if nk == 6 {
    } else {
    }
  }

  lemma XorWordIs(a: Word, b: Word)
    ensures XorWord(a, b) == Word(Plus(a.b0, b.b0), Plus(a.b1, b.b1), Plus(a.b2, b.b2), Plus(a.b3, b.b3))
  {
  }

  lemma TurnedUp(w: Word, c: byte)
    ensures XorWord(SubWord(RotWord(w)), Word(c, 0, 0, 0)) ==
            Word(Plus(SubByte(w.b1), c), SubByte(w.b2), SubByte(w.b3), SubByte(w.b0))
  {
    hide SubByte, Plus, XorWord;
    XorWordIs(SubWord(RotWord(w)), Word(c, 0, 0, 0));
    ZeroPlus(SubByte(w.b2));
    ZeroPlus(SubByte(w.b3));
    ZeroPlus(SubByte(w.b0));
  }

  lemma TurnIs(w: Word, nk: nat, i: nat)
    requires KeyWords(nk) && i >= nk
    ensures Turn(w, nk, i) ==
      if i % nk == 0 then
        Word(Plus(SubByte(w.b1), Rcon(TurnNumber(nk, i))), SubByte(w.b2), SubByte(w.b3), SubByte(w.b0))
      else if nk == 8 && i % nk == 4 then Word(SubByte(w.b0), SubByte(w.b1), SubByte(w.b2), SubByte(w.b3))
      else w
  {
    hide Rcon, SubByte, Constant, Turn, Plus, XorWord, RotWord;
    TurnCases(w, nk, i);
    if i % nk == 0 {
      ConstantIs(nk, i);
      TurnedUp(w, Rcon(TurnNumber(nk, i)));
    }
  }

  /** The words of the schedule satisfy these equations, and no others do. */
  lemma {:induction false} ScheduleIs(key: seq<byte>, nk: nat, w: seq<Word>, i: nat)
    requires KeyWords(nk) && |key| >= 4 * nk && i <= |w|
    ensures (forall j: nat :: j < i ==> ScheduleWord(key, nk, w, j)) <==>
            (forall j: nat :: j < i ==> w[j] == Expanded(key, nk, j))
  {
    if i > 0 {
      ScheduleIs(key, nk, w, i - 1);
      if forall j: nat :: j < i - 1 ==> w[j] == Expanded(key, nk, j) {
        WordIs(key, nk, w, i - 1);
      }
    }
  }

  lemma WordIs(key: seq<byte>, nk: nat, w: seq<Word>, i: nat)
    requires KeyWords(nk) && |key| >= 4 * nk && i < |w|
    requires forall j: nat :: j < i ==> w[j] == Expanded(key, nk, j)
    ensures ScheduleWord(key, nk, w, i) <==> w[i] == Expanded(key, nk, i)
  {
    hide Rcon, SubByte, Turn, Plus, XorWord;
    if i >= nk {
      var turned := Turn(w[i - 1], nk, i);
      TurnIs(w[i - 1], nk, i);
      XorWordIs(w[i - nk], turned);
      assert Expanded(key, nk, i) == XorWord(w[i - nk], turned);
    }
  }

  /** Round r's key holds words 4 r to 4 r + 3, byte by byte. */
  lemma RoundKeyIs(key: seq<byte>, nk: nat, r: nat, c: nat)
    requires KeyWords(nk) && |key| >= 4 * nk && r < nk + 7 && c < 4
    ensures var k, w := Schedule(key, nk)[r], Expanded(key, nk, 4 * r + c);
      k[4 * c] == w.b0 && k[4 * c + 1] == w.b1 && k[4 * c + 2] == w.b2 && k[4 * c + 3] == w.b3
  {
    hide Expanded;
    FourWords(Expanded(key, nk, 4 * r), Expanded(key, nk, 4 * r + 1), Expanded(key, nk, 4 * r + 2),
              Expanded(key, nk, 4 * r + 3), c);
    hide Bytes;
  }

  lemma FourWords(w0: Word, w1: Word, w2: Word, w3: Word, c: nat)
    requires c < 4
    ensures var k := Bytes(w0) + Bytes(w1) + Bytes(w2) + Bytes(w3);
      var w := if c == 0 then w0 else if c == 1 then w1 else if c == 2 then w2 else w3;
      && |k| == 16
      && k[4 * c] == w.b0 && k[4 * c + 1] == w.b1 && k[4 * c + 2] == w.b2 && k[4 * c + 3] == w.b3
  {
    var w := if c == 0 then w0 else if c == 1 then w1 else if c == 2 then w2 else w3;
    FourBytes(w0);
    FourBytes(w1);
    FourBytes(w2);
    FourBytes(w3);
    hide Bytes;
    var b := [Bytes(w0), Bytes(w1), Bytes(w2), Bytes(w3)];
    assert b[c] == Bytes(w);
    Joined(b[0], b[1], b[2], b[3], c, 0);
    Joined(b[0], b[1], b[2], b[3], c, 1);
    Joined(b[0], b[1], b[2], b[3], c, 2);
    Joined(b[0], b[1], b[2], b[3], c, 3);
  }

  lemma FourBytes(w: Word)
    ensures var b := Bytes(w); |b| == 4 && b[0] == w.b0 && b[1] == w.b1 && b[2] == w.b2 && b[3] == w.b3
  {
  }

  lemma Joined(p: seq<byte>, q: seq<byte>, r: seq<byte>, s: seq<byte>, c: nat, t: nat)
    requires |p| == |q| == |r| == |s| == 4 && c < 4 && t < 4
    ensures |p + q + r + s| == 16 && (p + q + r + s)[4 * c + t] == [p, q, r, s][c][t]
  {
  }
}
