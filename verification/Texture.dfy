/** Where a texel byte lies: linear rows, or blocks of 16 bytes by 8 rows (render.c). */
module Texture {

  /** tex_offset; rowb is the bytes in a row. */
  function Offset(rowb: nat, swizzled: bool, xb: nat, y: nat): nat {
    if !swizzled then y * rowb + xb
    else (y / 8 * (rowb / 16) + xb / 16) * 128 + y % 8 * 16 + xb % 16
  }

  /** The byte column and row stored at an offset. */
  function Column(rowb: nat, swizzled: bool, o: nat): nat
    requires rowb >= 16
  {
    if !swizzled then o % rowb else o / 128 % (rowb / 16) * 16 + o % 16
  }

  function Row(rowb: nat, swizzled: bool, o: nat): nat
    requires rowb >= 16
  {
    if !swizzled then o / rowb else o / 128 / (rowb / 16) * 8 + o / 16 % 8
  }

  lemma Monotone(a: int, b: int, n: nat)
    ensures a <= b ==> a * n <= b * n
  {
  }

  lemma DivMod(a: nat, b: nat, n: nat)
    requires b < n
    ensures (a * n + b) / n == a && (a * n + b) % n == b
  {
    var q, r := (a * n + b) / n, (a * n + b) % n;
    assert q * n + r == a * n + b;
    Monotone(q + 1, a, n);
    Monotone(a + 1, q, n);
  }

  /** A block number and the place in the block. */
  lemma InBlock(block: nat, row: nat, col: nat)
    requires row < 8 && col < 16
    ensures var o := block * 128 + row * 16 + col; o / 128 == block && o / 16 % 8 == row && o % 16 == col
  {
    var o := block * 128 + row * 16 + col;
    assert o / 16 == block * 8 + row;
  }

  /** A row of blocks and the block in it. */
  lemma BelowProduct(a: nat, b: nat, m: nat, n: nat)
    requires a < m && b < n
    ensures a * n + b < m * n
  {
    Monotone(a + 1, m, n);
  }

  lemma Blocks(rowb: nat, height: nat)
    requires rowb % 16 == 0 && height % 8 == 0
    ensures height / 8 * (rowb / 16) * 128 == rowb * height
  {
    var r, h := rowb / 16, height / 8;
    assert rowb == 16 * r && height == 8 * h;
    assert (16 * r) * (8 * h) == h * r * 128;
  }

  /** The byte grid goes into [0, rowb * height), and the place can be read back from the offset. */
  lemma OffsetFits(rowb: nat, swizzled: bool, height: nat, xb: nat, y: nat)
    requires rowb % 16 == 0 && height % 8 == 0 && xb < rowb && y < height
    ensures Offset(rowb, swizzled, xb, y) < rowb * height
    ensures Column(rowb, swizzled, Offset(rowb, swizzled, xb, y)) == xb
    ensures Row(rowb, swizzled, Offset(rowb, swizzled, xb, y)) == y
  {
    if swizzled {
      var n := rowb / 16;
      var block := y / 8 * n + xb / 16;
      InBlock(block, y % 8, xb % 16);
      DivMod(y / 8, xb / 16, n);
      BelowProduct(y / 8, xb / 16, height / 8, n);
      Blocks(rowb, height);
    } else {
      DivMod(y, xb, rowb);
      BelowProduct(y, xb, height, rowb);
    }
  }

  lemma Quotient(o: nat, m: nat, n: nat)
    requires n > 0 && o < m * n
    ensures o / n < m && o == o / n * n + o % n
  {
    Monotone(m, o / n, n);
  }

  lemma SwizzledBack(rowb: nat, o: nat)
    requires rowb >= 16 && o / 128 == o / 128 / (rowb / 16) * (rowb / 16) + o / 128 % (rowb / 16)
    ensures Offset(rowb, true, Column(rowb, true, o), Row(rowb, true, o)) == o
  {
    var n := rowb / 16;
    var a, b := o / 128 / n, o / 128 % n;
    assert (a * 8 + o / 16 % 8) / 8 == a && (a * 8 + o / 16 % 8) % 8 == o / 16 % 8;
    assert (b * 16 + o % 16) / 16 == b && (b * 16 + o % 16) % 16 == o % 16;
    assert o == o / 128 * 128 + o / 16 % 8 * 16 + o % 16;
  }

  /** Every offset below rowb * height is the place of a byte of the grid. */
  lemma OffsetCovers(rowb: nat, swizzled: bool, height: nat, o: nat)
    requires rowb % 16 == 0 && rowb > 0 && height % 8 == 0 && o < rowb * height
    ensures Column(rowb, swizzled, o) < rowb && Row(rowb, swizzled, o) < height
    ensures Offset(rowb, swizzled, Column(rowb, swizzled, o), Row(rowb, swizzled, o)) == o
  {
    if swizzled {
      var n := rowb / 16;
      Blocks(rowb, height);
      assert o / 128 < height / 8 * n;
      Quotient(o / 128, height / 8, n);
      SwizzledBack(rowb, o);
    } else {
      Quotient(o, height, rowb);
    }
  }

  /** Linear rows follow one another. Swizzled, the bytes of a 16 by 8 block are one run, 16 to a row; blocks follow one
      another to the right, and rows of blocks downwards. With the place of the first byte this is every byte's
      place. */
  lemma OffsetSteps(rowb: nat, swizzled: bool, xb: nat, y: nat)
    requires rowb % 16 == 0
    ensures Offset(rowb, swizzled, 0, 0) == 0
    ensures !swizzled ==> Offset(rowb, swizzled, xb + 1, y) == Offset(rowb, swizzled, xb, y) + 1
    ensures !swizzled ==> Offset(rowb, swizzled, xb, y + 1) == Offset(rowb, swizzled, xb, y) + rowb
    ensures swizzled && xb % 16 < 15 ==> Offset(rowb, swizzled, xb + 1, y) == Offset(rowb, swizzled, xb, y) + 1
    ensures swizzled && y % 8 < 7 ==> Offset(rowb, swizzled, xb, y + 1) == Offset(rowb, swizzled, xb, y) + 16
    ensures swizzled ==> Offset(rowb, swizzled, xb + 16, y) == Offset(rowb, swizzled, xb, y) + 128
    ensures swizzled ==> Offset(rowb, swizzled, xb, y + 8) == Offset(rowb, swizzled, xb, y) + 8 * rowb
  {
    if swizzled {
      var n := rowb / 16;
      assert (y + 8) / 8 == y / 8 + 1 && (y + 8) % 8 == y % 8 && (xb + 16) / 16 == xb / 16 + 1;
      assert (y / 8 + 1) * n == y / 8 * n + n;
      assert y % 8 < 7 ==> (y + 1) / 8 == y / 8 && (y + 1) % 8 == y % 8 + 1;
    } else {
      assert (y + 1) * rowb == y * rowb + rowb;
    }
  }
}
