/** AES-CMAC (cmac.c; RFC 4493 sections 2.3 and 2.4). */
module Cmac {
  import opened Gf256
  import opened Sbox
  import opened Aes
  import opened AesC
  import opened Cbc

  // ---- the shift of a 128-bit number

  function Num(b: byte): nat { b as nat }

  /** A byte string as a number, its first byte on top. */
  function Value(b: seq<byte>): nat {
    if b == [] then 0 else 256 * Value(b[..|b| - 1]) + Num(b[|b| - 1])
  }

  function Doubled(a: byte, into: byte): byte { (a << 1) | into }

  function Carry(a: byte): byte { a >> 7 }

  /** One bit to the left: each byte takes the top bit of the one after it. */
  function ShiftLeft(b: seq<byte>, into: byte): seq<byte> {
    if b == [] then [] else
      var last := b[|b| - 1];
      ShiftLeft(b[..|b| - 1], Carry(last)) + [Doubled(last, into)]
  }

  lemma {:induction false} ShiftLength(b: seq<byte>, into: byte)
    ensures |ShiftLeft(b, into)| == |b|
    decreases |b|
  {
    hide Doubled, Carry;
    if b != [] { ShiftLength(b[..|b| - 1], Carry(b[|b| - 1])); }
  }

  lemma {:induction false} ShiftBytes(b: seq<byte>, into: byte, i: nat)
    requires i < |b|
    ensures |ShiftLeft(b, into)| == |b|
    ensures ShiftLeft(b, into)[i] == Doubled(b[i], if i + 1 < |b| then Carry(b[i + 1]) else into)
    decreases |b|
  {
    hide Doubled, Carry;
    ShiftLength(b, into);
    ShiftLength(b[..|b| - 1], Carry(b[|b| - 1]));
    if i + 1 < |b| { ShiftBytes(b[..|b| - 1], Carry(b[|b| - 1]), i); }
  }

  function Pow256(n: nat): nat { if n == 0 then 1 else 256 * Pow256(n - 1) }

  lemma ShiftByte(a: byte, into: byte)
    requires Num(into) <= 1
    ensures Num(Doubled(a, into)) + 256 * Num(Carry(a)) == 2 * Num(a) + Num(into) && Num(Carry(a)) <= 1
  {
  }

  /** Shifting doubles the number, up to the bit that falls off the top. */
  lemma {:induction false} ShiftDoubles(b: seq<byte>, into: byte)
    requires Num(into) <= 1 && b != []
    ensures Value(ShiftLeft(b, into)) + Pow256(|b|) * Num(Carry(b[0])) == 2 * Value(b) + Num(into)
    decreases |b|
  {
    hide Num, Doubled, Carry, ShiftLeft;
    var init, last := b[..|b| - 1], b[|b| - 1];
    ShiftByte(last, into);
    ShiftSplit(b, into);
    if init == [] {
      assert Value(ShiftLeft(b, into)) == Num(Doubled(last, into));
      assert Value(b) == Num(last) && Pow256(1) == 256;
    } else {
      ShiftDoubles(init, Carry(last));
      Scale(Pow256(|init|), Num(Carry(b[0])));
    }
  }

  lemma ShiftSplit(b: seq<byte>, into: byte)
    requires b != []
    ensures var last := b[|b| - 1];
            Value(ShiftLeft(b, into)) == 256 * Value(ShiftLeft(b[..|b| - 1], Carry(last))) + Num(Doubled(last, into))
    ensures |b| == 1 ==> ShiftLeft(b, into) == [Doubled(b[0], into)]
  {
    hide Num, Doubled, Carry;
    var s := ShiftLeft(b, into);
    assert s[..|s| - 1] == ShiftLeft(b[..|b| - 1], Carry(b[|b| - 1]));
  }

  lemma Scale(p: nat, c: nat)
    ensures 256 * (p * c) == (256 * p) * c
  {
  }

  // ---- subkeys

  const RB: byte := 0x87

  /** The doubling of section 2.3: shift, and fold the lost bit back in. */
  function Double(l: block): block {
    ShiftLength(l, 0);
    if Carry(l[0]) != 0 then ShiftLeft(l, 0)[15 := ShiftLeft(l, 0)[15] ^ RB] else ShiftLeft(l, 0)
  }

  lemma {:induction false} ValueBound(b: seq<byte>)
    ensures Value(b) < Pow256(|b|)
    decreases |b|
  {
    hide Num;
    if b != [] {
      ValueBound(b[..|b| - 1]);
      NumBound(b[|b| - 1]);
    }
  }

  lemma NumBound(b: byte)
    ensures Num(b) < 256
  {
  }

  /** In numbers: twice the number, unless that is 2^128 or more; then 2^128 less, with 0x87 added to its last byte. */
  lemma DoubleIs(l: block)
    ensures var s := ShiftLeft(l, 0);
      && |s| == 16
      && if 2 * Value(l) < Pow256(16) then Value(s) == 2 * Value(l) && Double(l) == s
         else Value(s) == 2 * Value(l) - Pow256(16) && Double(l) == s[15 := s[15] ^ 0x87]
  {
    hide ShiftLeft, Value, Pow256, Num, Carry;
    var s := ShiftLeft(l, 0);
    ShiftLength(l, 0);
    CarryIs(l[0]);
    ShiftDoubles(l, 0);
    ValueBound(s);
  }

  lemma CarryIs(a: byte)
    ensures Num(Carry(a)) == (if Carry(a) != 0 then 1 else 0) && Num(0) == 0
  {
  }

  function K1(k: keys): block { Double(Encrypt(k, ZERO)) }

  function K2(k: keys): block { Double(K1(k)) }

  // ---- the code of a message

  /** The chained code of whole blocks: encrypt, add the next block, encrypt, ... */
  function Chain(k: keys, x: block, data: seq<byte>): block
    decreases |data|
  {
    if |data| < 16 then x else Chain(k, Encrypt(k, Xor(x, data[..16])), data[16..])
  }

  predicate Complete(msg: seq<byte>) { msg != [] && |msg| % 16 == 0 }

  /** A last block cut short: a one bit, then zeros. */
  function Padded(rest: seq<byte>): block
    requires |rest| < 16
  {
    rest + [0x80] + ZERO[|rest| + 1..]
  }

  /** The offset of the last block; the empty message has one too. */
  function LastOffset(msg: seq<byte>): (r: nat)
    ensures r <= |msg| && |msg| - r <= 16 && (Complete(msg) <==> |msg| - r == 16)
  {
    if Complete(msg) then |msg| - 16 else |msg| - |msg| % 16
  }

  /** The last block with its subkey added: K1 on a whole one, K2 on a padded one. */
  function LastBlock(k: keys, msg: seq<byte>): block {
    if Complete(msg) then Xor(msg[LastOffset(msg)..], K1(k)) else Xor(Padded(msg[LastOffset(msg)..]), K2(k))
  }

  /** The last block byte by byte: the last sixteen of a message of whole blocks, with the first subkey; or what is
      over, a byte 0x80 and zeros, with the second. */
  lemma LastBlockIs(k: keys, msg: seq<byte>, i: nat)
    requires i < 16
    ensures msg != [] && |msg| % 16 == 0 ==>
      LastOffset(msg) == |msg| - 16 && LastBlock(k, msg)[i] == msg[|msg| - 16 + i] ^ K1(k)[i]
    ensures msg == [] || |msg| % 16 != 0 ==>
      var over: nat := |msg| % 16;
      && LastOffset(msg) == |msg| - over
      && LastBlock(k, msg)[i] ==
         (if i < over then msg[|msg| - over + i] else if i == over then 0x80 else 0) ^ K2(k)[i]
  {
    hide K1, K2;
    if !Complete(msg) { PaddedIs(msg[LastOffset(msg)..], i); }
  }

  lemma PaddedIs(rest: seq<byte>, i: nat)
    requires |rest| < 16 && i < 16
    ensures Padded(rest)[i] == if i < |rest| then rest[i] else if i == |rest| then 0x80 else 0
  {
  }

  /** AES-CMAC: the chained code of the message with its last block tweaked. */
  function Mac(k: keys, msg: seq<byte>): block {
    Chain(k, ZERO, msg[..LastOffset(msg)] + LastBlock(k, msg))
  }

  /** The code is the last block that CBC encryption with a zero vector puts out. */
  lemma {:induction false} ChainIsLastOfCbc(k: keys, x: block, data: seq<byte>)
    requires |data| >= 16
    ensures var c := CbcEncrypt(k, x, data); |c| >= 16 && c[|c| - 16..] == Chain(k, x, data)
    decreases |data|
  {
    hide Encrypt, Xor;
    var y := Encrypt(k, Xor(x, data[..16]));
    var rest: seq<byte> := CbcEncrypt(k, y, data[16..]);
    var all: seq<byte> := CbcEncrypt(k, x, data);
    CbcLength(k, y, data[16..]);
    if |data| >= 32 {
      ChainIsLastOfCbc(k, y, data[16..]);
      assert all[|all| - 16..] == rest[|rest| - 16..];
    } else {
      assert rest == [] && all == y;
    }
  }

  lemma MacIsCbcMac(k: keys, msg: seq<byte>)
    ensures var c := CbcEncrypt(k, ZERO, msg[..LastOffset(msg)] + LastBlock(k, msg));
            |c| >= 16 && c[|c| - 16..] == Mac(k, msg)
  {
    hide Encrypt, Xor, K1, K2, CbcEncrypt, Chain;
    ChainIsLastOfCbc(k, ZERO, msg[..LastOffset(msg)] + LastBlock(k, msg));
  }

  /** Folding whole blocks one after the other. */
  lemma {:induction false} ChainAppend(k: keys, x: block, data: seq<byte>, b: block)
    requires |data| % 16 == 0
    ensures Chain(k, x, data + b) == Encrypt(k, Xor(Chain(k, x, data), b))
    decreases |data|
  {
    hide Encrypt, Xor;
    var all := data + b;
    if data == [] {
      assert all[..16] == b && all[16..] == [];
    } else {
      assert all[..16] == data[..16] && all[16..] == data[16..] + b;
      ChainAppend(k, Encrypt(k, Xor(x, data[..16])), data[16..], b);
    }
  }

  /** shift_left_1, with the bit that falls off. */
  method ShiftLeft1(input: block) returns (output: block, carry: byte)
    ensures output == ShiftLeft(input, 0) && carry == Carry(input[0])
  {
    hide ShiftLeft;
    carry := input[0] >> 7;
    var out := new byte[16];
    var i := 0;
    while i < 15
      invariant 0 <= i <= 15
      invariant forall j: nat :: j < i ==> out[j] == Doubled(input[j], Carry(input[j + 1]))
    {
      out[i] := (input[i] << 1) | (input[i + 1] >> 7);
      i := i + 1;
    }
    out[15] := input[15] << 1;
    LastByte(input[15]);
    output := out[..];
    IsShifted(input, output);
  }

  lemma IsShifted(b: block, s: block)
    requires forall i: nat :: i < 15 ==> s[i] == Doubled(b[i], Carry(b[i + 1]))
    requires s[15] == Doubled(b[15], 0)
    ensures s == ShiftLeft(b, 0)
  {
    hide Doubled, Carry, ShiftLeft;
    ShiftLength(b, 0);
    forall i: nat | i < 16
      ensures s[i] == ShiftLeft(b, 0)[i]
    {
      ShiftBytes(b, 0, i);
    }
  }

  lemma LastByte(a: byte)
    ensures Doubled(a, 0) == a << 1
  {
  }

  method DoubleOf(l: block) returns (r: block)
    ensures r == Double(l)
  {
    hide ShiftLeft, Carry;
    var carry;
    r, carry := ShiftLeft1(l);
    if carry != 0 { r := r[15 := r[15] ^ RB]; }
  }

  /** generate_subkeys. */
  method Subkeys(ctx: Context, t: Tables, ghost k: keys) returns (k1: block, k2: block)
    requires ctx.Ready(t, k)
    ensures k1 == K1(k) && k2 == K2(k)
  {
    hide Encrypt, Double, Context.Ready;
    var l := ctx.EncryptBlock(t, ZERO, k);
    k1 := DoubleOf(l);
    k2 := DoubleOf(k1);
  }

  /** Zeros, the bytes copied over them, a one bit after those. */
  method PadOf(part: seq<byte>) returns (last: block)
    requires |part| < 16
    ensures last == Padded(part)
  {
    last := ZERO;
    last := part + last[|part|..];
    last := last[|part| := 0x80];
    assert last == part + [0x80] + ZERO[|part| + 1..];
  }

  /** The last block, tweaked. */
  method LastBlockOf(msg: array<byte>, from: nat, len: nat, complete: bool, offset: nat, k1: block, k2: block,
                     ghost k: keys)
    returns (last: block)
    requires from + len <= msg.Length && complete == Complete(msg[from..from + len])
    requires offset == LastOffset(msg[from..from + len]) && k1 == K1(k) && k2 == K2(k)
    ensures last == LastBlock(k, msg[from..from + len])
  {
    hide K1, K2, Xor, Padded;
    ghost var m := msg[from..from + len];
    if complete {
      last := msg[from + offset..from + offset + 16];
      assert last == m[offset..];
      last := XorOf(last, k1);
    } else {
      var part := msg[from + offset..from + len];
      assert part == m[offset..];
      last := PadOf(part);
      last := XorOf(last, k2);
    }
  }

  /** aes_cmac over the len bytes of msg from `from` on. */
  method AesCmac(t: Tables, key: seq<byte>, keyBits: int, msg: array<byte>, from: nat, len: nat) returns (mac: block)
    requires t.Valid() && from + len <= msg.Length && msg != t.sbox && msg != t.invSbox
    requires keyBits in {128, 192, 256} ==> |key| >= keyBits / 8
    modifies t, t.sbox, t.invSbox
    ensures t.Valid() && t.ready
    ensures mac == if keyBits in {128, 192, 256} then Mac(Schedule(key, keyBits / 32), msg[from..from + len]) else ZERO
  {
    hide Tables.Built, Schedule, Mac, Context.Holds;
    var ctx := new Context();
    var code := ctx.Init(t, key, keyBits);
    if code != 0 { return ZERO; }
    mac := CmacWith(ctx, t, msg, from, len, Schedule(key, keyBits / 32));
  }

  method CmacWith(ctx: Context, t: Tables, msg: array<byte>, from: nat, len: nat, ghost k: keys) returns (mac: block)
    requires ctx.Ready(t, k) && from + len <= msg.Length
    ensures mac == Mac(k, msg[from..from + len])
  {
    hide Context.Ready, Encrypt, K1, K2, LastBlock, Xor, Chain;
    ghost var m := msg[from..from + len];
    var k1, k2 := Subkeys(ctx, t, k);
    var complete := len != 0 && len % 16 == 0;
    var blocks := if complete then len / 16 else len / 16 + 1;
    var lastOffset := (blocks - 1) * 16;
    var last := LastBlockOf(msg, from, len, complete, lastOffset, k1, k2, k);
    var x: block := ZERO;
    ghost var done: seq<byte> := [];
    ChainNone(k, x);
    var b := 0;
    while b + 1 < blocks
      invariant 0 <= b < blocks && done == m[..16 * b] && x == Chain(k, ZERO, done)
    {
      var next := BlockAt(msg, from, len, b);
      assert m[..16 * (b + 1)] == done + next;
      ChainAppend(k, ZERO, done, next);
      x := XorOf(x, next);
      x := ctx.EncryptBlock(t, x, k);
      done := done + next;
      b := b + 1;
    }
    ChainAppend(k, ZERO, done, last);
    x := XorOf(x, last);
    mac := ctx.EncryptBlock(t, x, k);
  }

  /** Block b of the message. */
  method BlockAt(msg: array<byte>, from: nat, len: nat, b: nat) returns (r: block)
    requires from + len <= msg.Length && 16 * b + 16 <= len
    ensures r == msg[from..from + len][16 * b..16 * b + 16]
  {
    r := msg[from + b * 16..from + b * 16 + 16];
    ghost var m := msg[from..from + len];
    ghost var part := m[16 * b..16 * b + 16];
    forall i: nat | i < 16
      ensures r[i] == part[i]
    {
      assert part[i] == m[16 * b + i] == msg[from + 16 * b + i];
    }
  }

  lemma ChainNone(k: keys, x: block)
    ensures Chain(k, x, []) == x
  {
  }

  /** cmac_equal: no bit of any pair differs. */
  method CmacEqual(a: block, b: block) returns (same: bool)
    ensures same <==> a == b
  {
    var diff: byte := 0;
    var i := 0;
    while i < 16
      invariant 0 <= i <= 16 && (diff == 0 <==> a[..i] == b[..i])
    {
      NoBits(diff, a[i], b[i]);
      assert a[..i + 1] == a[..i] + [a[i]] && b[..i + 1] == b[..i] + [b[i]];
      diff := diff | (a[i] ^ b[i]);
      i := i + 1;
    }
    same := diff == 0;
  }

  lemma NoBits(diff: byte, a: byte, b: byte)
    ensures diff | (a ^ b) == 0 <==> diff == 0 && a == b
  {
  }
}
