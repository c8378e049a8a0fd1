/** Cipher block chaining over a buffer (aes.c; section 6.2 of NIST SP 800-38A). */
module Cbc {
  import opened Gf256
  import opened Sbox
  import opened Aes
  import opened AesC

  /** Whole blocks only: a short tail is not touched. */
  function CbcEncrypt(k: keys, iv: block, data: seq<byte>): seq<byte>
    decreases |data|
  {
    if |data| < 16 then [] else
      var c := Encrypt(k, Xor(iv, data[..16]));
      c + CbcEncrypt(k, c, data[16..])
  }

  function CbcDecrypt(k: keys, iv: block, data: seq<byte>): seq<byte>
    decreases |data|
  {
    if |data| < 16 then [] else
      Xor(Decrypt(k, data[..16]), iv) + CbcDecrypt(k, data[..16], data[16..])
  }

  lemma {:induction false} CbcLength(k: keys, iv: block, data: seq<byte>)
    ensures |CbcEncrypt(k, iv, data)| == |CbcDecrypt(k, iv, data)| == |data| - |data| % 16
    decreases |data|
  {
    hide Encrypt, Decrypt, Xor;
    if |data| >= 16 {
      CbcLength(k, Encrypt(k, Xor(iv, data[..16])), data[16..]);
      CbcLength(k, data[..16], data[16..]);
    }
  }

  /** Block i of a buffer. */
  function BlockOf(data: seq<byte>, i: nat): block
    requires 16 * i + 16 <= |data|
  {
    data[16 * i..16 * i + 16]
  }

  lemma BlockShift(first: block, rest: seq<byte>, i: nat)
    requires 16 * i + 16 <= |rest|
    ensures BlockOf(first + rest, i + 1) == BlockOf(rest, i) && BlockOf(first + rest, 0) == first
  {
  }

  /** Each block of ciphertext is the encryption of its plaintext with the ciphertext before it added, and each block
      of plaintext the decryption of its ciphertext with the ciphertext before it added. */
  lemma {:induction false} CbcBlocks(k: keys, iv: block, data: seq<byte>, i: nat)
    requires 16 * i + 16 <= |data|
    ensures var c := CbcEncrypt(k, iv, data);
      && |c| == |data| - |data| % 16
      && BlockOf(c, i) == Encrypt(k, Xor(if i == 0 then iv else BlockOf(c, i - 1), BlockOf(data, i)))
    ensures var p := CbcDecrypt(k, iv, data);
      && |p| == |data| - |data| % 16
      && BlockOf(p, i) == Xor(Decrypt(k, BlockOf(data, i)), if i == 0 then iv else BlockOf(data, i - 1))
    decreases i
  {
    hide Encrypt, Decrypt, Xor, BlockOf;
    CbcLength(k, iv, data);
    var first, rest := data[..16], data[16..];
    var c, p := Encrypt(k, Xor(iv, first)), Xor(Decrypt(k, first), iv);
    var cs, ps := CbcEncrypt(k, c, rest), CbcDecrypt(k, first, rest);
    assert data == first + rest;
    if i == 0 {
      FirstBlock(first, rest);
      FirstBlock(c, cs);
      FirstBlock(p, ps);
    } else {
      CbcBlocks(k, c, rest, i - 1);
      CbcBlocks(k, first, rest, i - 1);
      BlockShift(first, rest, i - 1);
      BlockShift(c, cs, i - 1);
      BlockShift(p, ps, i - 1);
      if i > 1 {
        BlockShift(first, rest, i - 2);
        BlockShift(c, cs, i - 2);
      }
    }
  }

  lemma FirstBlock(first: block, rest: seq<byte>)
    ensures BlockOf(first + rest, 0) == first
  {
  }

  /** Decrypting undoes encrypting, block by block; the short tail is lost. */
  lemma {:induction false} CbcUndone(k: keys, iv: block, data: seq<byte>)
    ensures CbcDecrypt(k, iv, CbcEncrypt(k, iv, data)) == data[..|data| - |data| % 16]
    decreases |data|
  {
    hide Xor, Encrypt, Decrypt;
    if |data| >= 16 {
      var p: block := data[..16];
      var c := Encrypt(k, Xor(iv, p));
      var all := CbcEncrypt(k, iv, data);
      assert all[..16] == c && all[16..] == CbcEncrypt(k, c, data[16..]);
      DecryptUndoesEncrypt(k, Xor(iv, p));
      XorSides(iv, p);
      CbcUndone(k, c, data[16..]);
      assert data[..|data| - |data| % 16] == p + data[16..][..|data| - 16 - |data| % 16];
    }
  }

  lemma XorSides(a: block, b: block)
    ensures Xor(Xor(a, b), a) == b
  {
    XorTurns(a, b);
    XorCancels(b, a);
  }

  lemma XorTurns(a: block, b: block)
    ensures Xor(a, b) == Xor(b, a)
  {
    hide Plus;
    forall i: nat | i < 16
      ensures Xor(a, b)[i] == Xor(b, a)[i]
    {
      PlusAssoc(a[i], b[i], 0);
    }
  }

  /** `b` with `part` written over it from `at` on. */
  function Over(b: seq<byte>, at: nat, part: seq<byte>): (r: seq<byte>)
    requires at + |part| <= |b|
    ensures |r| == |b|
  {
    b[..at] + part + b[at + |part|..]
  }

  lemma OverNothing(b: seq<byte>, at: nat)
    requires at <= |b|
    ensures Over(b, at, []) == b
  {
  }

  lemma OverMore(b: seq<byte>, at: nat, part: seq<byte>, more: seq<byte>)
    requires at + |part| + |more| <= |b|
    ensures Over(Over(b, at, part), at + |part|, more) == Over(b, at, part + more)
  {
  }

  method Store(a: array<byte>, at: nat, part: seq<byte>)
    requires at + |part| <= a.Length
    modifies a
    ensures a[..] == Over(old(a[..]), at, part)
  {
    var i := 0;
    while i < |part|
      invariant 0 <= i <= |part|
      invariant forall j: nat :: j < a.Length ==> a[j] == if at <= j < at + i then part[j - at] else old(a[j])
    {
      a[at + i] := part[i];
      i := i + 1;
    }
    assert forall j: nat :: j < a.Length ==> a[j] == Over(old(a[..]), at, part)[j];
  }

  /** The buffers of a chained run: the same place, or two arrays. */
  ghost predicate Apart(t: Tables, src: array<byte>, from: nat, dst: array<byte>, to: nat, len: nat)
  {
    && from + len <= src.Length && to + len <= dst.Length
    && (src == dst ==> from == to)
    && dst != t.sbox && dst != t.invSbox
  }

  /** A run of which `done` has been written and data[off..] is still to come. */
  ghost predicate Underway(enc: bool, k: keys, iv: block, data: seq<byte>, chain: block, done: seq<byte>) {
    && |done| <= |data| && |done| % 16 == 0
    && (if enc then CbcEncrypt(k, iv, data) == done + CbcEncrypt(k, chain, data[|done|..])
        else CbcDecrypt(k, iv, data) == done + CbcDecrypt(k, chain, data[|done|..]))
  }

  lemma Started(enc: bool, k: keys, iv: block, data: seq<byte>)
    ensures Underway(enc, k, iv, data, iv, [])
  {
    hide CbcEncrypt, CbcDecrypt;
    assert data[0..] == data;
    assert [] + CbcEncrypt(k, iv, data) == CbcEncrypt(k, iv, data);
    assert [] + CbcDecrypt(k, iv, data) == CbcDecrypt(k, iv, data);
  }

  lemma Encrypted(k: keys, iv: block, data: seq<byte>, chain: block, done: seq<byte>, p: block)
    requires Underway(true, k, iv, data, chain, done) && |done| + 16 <= |data| && p == data[|done|..|done| + 16]
    ensures var c := Encrypt(k, Xor(chain, p)); Underway(true, k, iv, data, c, done + c)
  {
    hide Encrypt, Xor;
    var c := Encrypt(k, Xor(chain, p));
    var rest := data[|done|..];
    assert rest[..16] == p && rest[16..] == data[|done + c|..];
    assert done + (c + CbcEncrypt(k, c, rest[16..])) == (done + c) + CbcEncrypt(k, c, rest[16..]);
  }

  lemma Decrypted(k: keys, iv: block, data: seq<byte>, chain: block, done: seq<byte>, c: block)
    requires Underway(false, k, iv, data, chain, done) && |done| + 16 <= |data| && c == data[|done|..|done| + 16]
    ensures var p := Xor(Decrypt(k, c), chain); Underway(false, k, iv, data, c, done + p)
  {
    hide Decrypt, Xor;
    var p := Xor(Decrypt(k, c), chain);
    var rest := data[|done|..];
    assert rest[..16] == c && rest[16..] == data[|done + p|..];
    assert done + (p + CbcDecrypt(k, c, rest[16..])) == (done + p) + CbcDecrypt(k, c, rest[16..]);
  }

  lemma Finished(enc: bool, k: keys, iv: block, data: seq<byte>, chain: block, done: seq<byte>)
    requires Underway(enc, k, iv, data, chain, done) && |done| + 16 > |data|
    ensures done == if enc then CbcEncrypt(k, iv, data) else CbcDecrypt(k, iv, data)
  {
    hide Encrypt, Decrypt;
  }

  /** Writing the next block: the output grows by it, the rest of the input stays. */
  method WriteBlock(src: array<byte>, from: nat, dst: array<byte>, to: nat, len: nat, off: nat, b: block,
                    ghost was: seq<byte>, ghost data: seq<byte>, ghost done: seq<byte>)
    requires from + len <= src.Length && to + len <= dst.Length && (src == dst ==> from == to)
    requires |was| == dst.Length && |data| == len && |done| == off && off + 16 <= len
    requires dst[..] == Over(was, to, done) && src[from + off..from + len] == data[off..]
    modifies dst
    ensures dst[..] == Over(was, to, done + b) && src[from + off + 16..from + len] == data[off + 16..]
  {
    OverMore(was, to, done, b);
    Store(dst, to + off, b);
    assert src[from + off + 16..from + len] == data[off..][16..];
  }

  /** The next block of the input. */
  method ReadBlock(src: array<byte>, from: nat, len: nat, off: nat, ghost data: seq<byte>) returns (b: block)
    requires from + len <= src.Length && |data| == len && off + 16 <= len
    requires src[from + off..from + len] == data[off..]
    ensures b == data[off..off + 16]
  {
    b := src[from + off..from + off + 16];
    assert data[off..][..16] == data[off..off + 16];
  }

  method XorOf(a: block, b: block) returns (r: block)
    ensures r == Xor(a, b)
  {
    r := seq(16, i requires 0 <= i < 16 => a[i] ^ b[i]);
  }

  /** aes_cbc_encrypt, in place too. */
  method CbcEncryptBuffer(ctx: Context, t: Tables, iv: block, src: array<byte>, from: nat, dst: array<byte>, to: nat,
                          len: nat, ghost k: keys)
    requires ctx.Ready(t, k) && Apart(t, src, from, dst, to, len)
    modifies dst
    ensures ctx.Ready(t, k)
    ensures |CbcEncrypt(k, iv, old(src[from..from + len]))| <= len
    ensures dst[..] == Over(old(dst[..]), to, CbcEncrypt(k, iv, old(src[from..from + len])))
  {
    hide Context.Ready, Over, Underway, CbcEncrypt, Encrypt, Xor;
    ghost var data, was := src[from..from + len], dst[..];
    ghost var done: seq<byte> := [];
    var chain := iv;
    var off := 0;
    OverNothing(was, to);
    Started(true, k, iv, data);
    while off + 16 <= len
      invariant 0 <= off <= len && |done| == off && ctx.Ready(t, k)
      invariant dst[..] == Over(was, to, done) && src[from + off..from + len] == data[off..]
      invariant Underway(true, k, iv, data, chain, done)
    {
      var p := ReadBlock(src, from, len, off, data);
      Encrypted(k, iv, data, chain, done, p);
      chain := XorOf(chain, p);
      chain := ctx.EncryptBlock(t, chain, k);
      WriteBlock(src, from, dst, to, len, off, chain, was, data, done);
      done := done + chain;
      off := off + 16;
    }
    Finished(true, k, iv, data, chain, done);
  }

  /** aes_cbc_decrypt: the ciphertext block is saved before it is written over. */
  method CbcDecryptBuffer(ctx: Context, t: Tables, iv: block, src: array<byte>, from: nat, dst: array<byte>, to: nat,
                          len: nat, ghost k: keys)
    requires ctx.Ready(t, k) && Apart(t, src, from, dst, to, len)
    modifies dst
    ensures ctx.Ready(t, k)
    ensures |CbcDecrypt(k, iv, old(src[from..from + len]))| <= len
    ensures dst[..] == Over(old(dst[..]), to, CbcDecrypt(k, iv, old(src[from..from + len])))
  {
    hide Context.Ready, Over, Underway, CbcDecrypt, Decrypt, Xor;
    ghost var data, was := src[from..from + len], dst[..];
    ghost var done: seq<byte> := [];
    var chain := iv;
    var off := 0;
    OverNothing(was, to);
    Started(false, k, iv, data);
    while off + 16 <= len
      invariant 0 <= off <= len && |done| == off && ctx.Ready(t, k)
      invariant dst[..] == Over(was, to, done) && src[from + off..from + len] == data[off..]
      invariant Underway(false, k, iv, data, chain, done)
    {
      var next := ReadBlock(src, from, len, off, data);
      Decrypted(k, iv, data, chain, done, next);
      var plain := ctx.DecryptBlock(t, next, k);
      plain := XorOf(plain, chain);
      WriteBlock(src, from, dst, to, len, off, plain, was, data, done);
      done := done + plain;
      chain := next;
      off := off + 16;
    }
    Finished(false, k, iv, data, chain, done);
  }
}
