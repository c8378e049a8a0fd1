/** aes_init, the steps on the 16-byte state, and the two block functions (aes.c). */
module AesC {
  import opened Gf256
  import opened Sbox
  import opened Aes

  /** The word an entry of aes_ctx holds, its first byte on top. */
  function Unpack(k: bv32): Word {
    Word(((k >> 24) & 0xFF) as byte, ((k >> 16) & 0xFF) as byte, ((k >> 8) & 0xFF) as byte, (k & 0xFF) as byte)
  }

  function Join(a: byte, b: byte, c: byte, d: byte): bv32 {
    ((a as bv32) << 24) | ((b as bv32) << 16) | ((c as bv32) << 8) | (d as bv32)
  }

  function Rotl32(w: bv32): bv32 { (w << 8) | (w >> 24) }

  lemma UnpackJoin(a: byte, b: byte, c: byte, d: byte)
    ensures Unpack(Join(a, b, c, d)) == Word(a, b, c, d)
    ensures Unpack((a as bv32) << 24) == Word(a, 0, 0, 0)
  {
  }

  /** The bytes of a word make it up, the first one on top. */
  lemma UnpackIs(k: bv32)
    ensures var w := Unpack(k);
      k == ((w.b0 as bv32) << 24) | ((w.b1 as bv32) << 16) | ((w.b2 as bv32) << 8) | (w.b3 as bv32)
  {
  }

  lemma UnpackXor(a: bv32, b: bv32)
    ensures Unpack(a ^ b) == XorWord(Unpack(a), Unpack(b))
  {
  }

  lemma UnpackRotl(w: bv32)
    ensures Unpack(Rotl32(w)) == RotWord(Unpack(w))
  {
  }

  method Look(t: Tables, b: byte) returns (r: byte)
    requires t.Valid() && t.ready
    ensures r == SubByte(b)
  {
    NatOfByte(b);
    hide SubByte;
    r := t.sbox[b as nat];
  }

  method LookBack(t: Tables, b: byte) returns (r: byte)
    requires t.Valid() && t.ready
    ensures r == InvSubByte(b)
  {
    NatOfByte(b);
    hide InvSubByte;
    r := t.invSbox[b as nat];
  }

  method SubWordOf(t: Tables, w: bv32) returns (r: bv32)
    requires t.Valid() && t.ready
    ensures Unpack(r) == SubWord(Unpack(w))
  {
    hide SubByte, Tables.Valid;
    var b0 := Look(t, ((w >> 24) & 0xFF) as byte);
    var b1 := Look(t, ((w >> 16) & 0xFF) as byte);
    var b2 := Look(t, ((w >> 8) & 0xFF) as byte);
    var b3 := Look(t, (w & 0xFF) as byte);
    r := Join(b0, b1, b2, b3);
    hide Join;
    UnpackJoin(b0, b1, b2, b3);
  }

  /** The multiples of nk from nk to i - 1. */
  function Multiples(nk: nat, i: nat): nat
    requires KeyWords(nk) && i >= nk
  {
    if nk == 4 then (i - 1) / 4 else if nk == 6 then (i - 1) / 6 else (i - 1) / 8
  }

  lemma MultiplesStep(nk: nat, i: nat)
    requires KeyWords(nk) && i >= nk
    ensures Multiples(nk, nk) == 0
    ensures i % nk == 0 ==> Constant(nk, i) == Word(Rcon(Multiples(nk, i)), 0, 0, 0)
    ensures i % nk == 0 ==> Multiples(nk, i + 1) == Multiples(nk, i) + 1
    ensures i % nk != 0 ==> Multiples(nk, i + 1) == Multiples(nk, i)
  {
    hide Rcon;
    if nk == 4 {
    } else if nk == 6 {
    } else {
    }
  }

  lemma RconStep(n: nat)
    ensures Rcon(n + 1) == Times(Rcon(n), 2)
  {
    var r := Rcon(n);
    TwoTimes(r);
    hide Times, Xtime;
  }

  lemma TwoTimes(a: byte)
    ensures Times(a, 2) == Xtime(a)
  {
    Commutes(a, 2);
    OneLeft(a);
    MulXtime(1, a, 8);
    assert Xtime(1) == 2;
    hide Mul, Xtime;
  }

  class Context {
    const rk: array<bv32>
    var rounds: nat

    constructor ()
      ensures rk.Length == 60 && fresh(rk)
    {
      rk := new bv32[60];
      rounds := 0;
    }

    /** The round keys are those of this schedule. */
    ghost predicate Holds(k: keys)
      reads this, rk
    {
      && rk.Length == 60
      && |k| == rounds + 1 <= 15
      && (forall r: nat :: r <= rounds ==> HoldsKey(r, k[r]))
    }

    /** The tables are built and the round keys are those of this schedule. */
    ghost predicate Ready(t: Tables, k: keys)
      reads this, rk, t, t.sbox, t.invSbox
    {
      t.Valid() && t.ready && Holds(k)
    }

    ghost predicate HoldsKey(r: nat, k: block)
      requires rk.Length == 60 && r <= 14
      reads rk
    {
      && Unpack(rk[4 * r]) == Word(k[0], k[1], k[2], k[3])
      && Unpack(rk[4 * r + 1]) == Word(k[4], k[5], k[6], k[7])
      && Unpack(rk[4 * r + 2]) == Word(k[8], k[9], k[10], k[11])
      && Unpack(rk[4 * r + 3]) == Word(k[12], k[13], k[14], k[15])
    }

    /** The word after the one in prev. */
    method Turned(t: Tables, nk: nat, i: nat, prev: bv32, rcon: byte) returns (temp: bv32, next: byte)
      requires t.Valid() && t.ready && KeyWords(nk) && i >= nk
      requires rcon == Rcon(Multiples(nk, i))
      ensures Unpack(temp) == Turn(Unpack(prev), nk, i)
      ensures next == Rcon(Multiples(nk, i + 1))
    {
      hide Rcon, Unpack, Multiples, Constant, Turn, Tables.Valid, Rotl32, XorWord, SubWord, RotWord, Times;
      MultiplesStep(nk, i);
      TurnCases(Unpack(prev), nk, i);
      temp, next := prev, rcon;
      if i % nk == 0 {
        UnpackRotl(prev);
        var s := SubWordOf(t, Rotl32(prev));
        temp := s ^ ((rcon as bv32) << 24);
        UnpackXor(s, (rcon as bv32) << 24);
        UnpackJoin(rcon, 0, 0, 0);
        RconStep(Multiples(nk, i));
        next := Gmul(rcon, 2);
      } else if nk > 6 && i % nk == 4 {
        temp := SubWordOf(t, prev);
      }
    }

    ghost predicate Upto(key: seq<byte>, nk: nat, i: nat)
      requires KeyWords(nk) && |key| >= 4 * nk && rk.Length == 60 && i <= 60
      reads rk
    {
      forall j: nat :: j < i ==> Unpack(rk[j]) == Expanded(key, nk, j)
    }

    /** The words in the schedule array. */
    ghost function Words(): (w: seq<Word>)
      requires rk.Length == 60
      reads rk
      ensures |w| == 60
    {
      seq(60, i requires 0 <= i < 60 reads rk => Unpack(rk[i]))
    }

    lemma WordsScheduled(key: seq<byte>, nk: nat, total: nat)
      requires KeyWords(nk) && |key| >= 4 * nk && rk.Length == 60 && total <= 60 && Upto(key, nk, total)
      ensures forall i: nat :: i < total ==> ScheduleWord(key, nk, Words(), i)
    {
      hide Unpack, Expanded, ScheduleWord;
      ScheduleIs(key, nk, Words(), total);
    }

    method LoadKey(key: seq<byte>, nk: nat)
      requires KeyWords(nk) && |key| >= 4 * nk && rk.Length == 60
      modifies rk
      ensures Upto(key, nk, nk)
    {
      hide Unpack, Join;
      var i := 0;
      while i < nk
        invariant 0 <= i <= nk && Upto(key, nk, i)
      {
        rk[i] := Join(key[4 * i], key[4 * i + 1], key[4 * i + 2], key[4 * i + 3]);
        UnpackJoin(key[4 * i], key[4 * i + 1], key[4 * i + 2], key[4 * i + 3]);
        i := i + 1;
      }
    }

    method Expand(t: Tables, key: seq<byte>, nk: nat, total: nat)
      requires t.Valid() && t.ready && KeyWords(nk) && |key| >= 4 * nk && rk.Length == 60
      requires nk <= total <= 60 && Upto(key, nk, nk)
      modifies rk
      ensures Upto(key, nk, total)
    {
      hide Unpack, Rcon, Multiples, Turn, XorWord, Tables.Built;
      var rcon: byte := 1;
      MultiplesStep(nk, nk);
      RconNone();
      var i := nk;
      while i < total
        invariant nk <= i <= total && Upto(key, nk, i) && rcon == Rcon(Multiples(nk, i))
      {
        var temp;
        temp, rcon := Turned(t, nk, i, rk[i - 1], rcon);
        UnpackXor(rk[i - nk], temp);
        rk[i] := rk[i - nk] ^ temp;
        i := i + 1;
      }
    }

    static lemma RconNone()
      ensures Rcon(0) == 1
    {
    }

    lemma Scheduled(key: seq<byte>, nk: nat)
      requires KeyWords(nk) && |key| >= 4 * nk && rk.Length == 60 && rounds == nk + 6
      requires Upto(key, nk, 4 * (rounds + 1))
      ensures Holds(Schedule(key, nk))
    {
      hide Unpack, Expanded;
      var k := Schedule(key, nk);
      forall r: nat | r <= rounds
        ensures HoldsKey(r, k[r])
      {
        assert Unpack(rk[4 * r]) == Expanded(key, nk, 4 * r);
        assert Unpack(rk[4 * r + 1]) == Expanded(key, nk, 4 * r + 1);
        assert Unpack(rk[4 * r + 2]) == Expanded(key, nk, 4 * r + 2);
        assert Unpack(rk[4 * r + 3]) == Expanded(key, nk, 4 * r + 3);
      }
    }

    /** aes_init. */
    method Init(t: Tables, key: seq<byte>, keyBits: int) returns (code: int)
      requires t.Valid() && rk.Length == 60 && t.sbox.Length == 256
      requires keyBits in {128, 192, 256} ==> |key| >= keyBits / 8
      modifies this, rk, t, t.sbox, t.invSbox
      ensures t.Valid() && t.ready
      ensures code == if keyBits in {128, 192, 256} then 0 else -1
      ensures code == 0 ==> Holds(Schedule(key, keyBits / 32)) && rounds == keyBits / 32 + 6
      ensures code == 0 ==>
              forall i: nat :: i < 4 * (rounds + 1) ==> ScheduleWord(key, keyBits / 32, Words(), i)
      ensures code != 0 ==> rounds == old(rounds) && rk[..] == old(rk[..])
    {
      hide Tables.Built, Unpack, HoldsKey, Expanded, Schedule, ScheduleWord;
      t.Build();
      var nk;
      if keyBits == 128 { nk := 4; }
      else if keyBits == 192 { nk := 6; }
      else if keyBits == 256 { nk := 8; }
      else { return -1; }
      rounds := nk + 6;
      LoadKey(key, nk);
      Expand(t, key, nk, 4 * (rounds + 1));
      Scheduled(key, nk);
      WordsScheduled(key, nk, 4 * (rounds + 1));
      code := 0;
    }

    /** add_round_key with the four words from rk[4 * r]. */
    method AddRoundKey(s: array<byte>, r: nat, ghost k: block)
      requires rk.Length == 60 && s.Length == 16 && r <= 14 && HoldsKey(r, k)
      modifies s
      ensures s[..] == Xor(old(s[..]), k)
    {
      hide Unpack, HoldsKey, Xor;
      ghost var was: block := s[..];
      var c := 0;
      while c < 4
        invariant 0 <= c <= 4
        invariant forall i: nat :: i < 16 ==> s[i] == if i / 4 < c then Xor(was, k)[i] else was[i]
      {
        AtColumn(r, k, c);
        AddWord(s, c, Unpack(rk[4 * r + c]), was, k);
        c := c + 1;
      }
    }

    static lemma XorAt(s: block, k: block, i: nat)
      requires i < 16
      ensures Xor(s, k)[i] == Plus(s[i], k[i])
    {
      hide Plus;
    }

    static method AddWord(s: array<byte>, c: nat, w: Word, ghost was: block, ghost k: block)
      requires s.Length == 16 && c < 4
      requires w == Word(k[4 * c], k[4 * c + 1], k[4 * c + 2], k[4 * c + 3])
      requires s[4 * c] == was[4 * c] && s[4 * c + 1] == was[4 * c + 1]
      requires s[4 * c + 2] == was[4 * c + 2] && s[4 * c + 3] == was[4 * c + 3]
      modifies s
      ensures forall i: nat :: i < 16 ==> s[i] == if i / 4 == c then Xor(was, k)[i] else old(s[i])
    {
      hide Xor, Plus;
      XorAt(was, k, 4 * c);
      XorAt(was, k, 4 * c + 1);
      XorAt(was, k, 4 * c + 2);
      XorAt(was, k, 4 * c + 3);
      PutColumn(s, c, Plus(s[4 * c], w.b0), Plus(s[4 * c + 1], w.b1), Plus(s[4 * c + 2], w.b2),
                Plus(s[4 * c + 3], w.b3));
    }

    lemma AtColumn(r: nat, k: block, c: nat)
      requires rk.Length == 60 && r <= 14 && HoldsKey(r, k) && c < 4
      ensures Unpack(rk[4 * r + c]) == Word(k[4 * c], k[4 * c + 1], k[4 * c + 2], k[4 * c + 3])
    {
      hide Unpack;
      match c case 0 => case 1 => case 2 => case _ =>
    }

    /** aes_encrypt_block. */
    method EncryptBlock(t: Tables, input: block, ghost k: keys) returns (output: block)
      requires Ready(t, k)
      ensures output == Encrypt(k, input)
    {
      hide Xor, Tables.Valid, SubBytes, ShiftRows, MixColumns, HoldsKey;
      var s := Load(input);
      AddRoundKey(s, 0, k[0]);
      ghost var start := s[..];
      var r := 1;
      while r < rounds
        invariant 1 <= r <= rounds && s[..] == Rounds(k, start, r - 1)
      {
        SubBytesOf(t, s);
        ShiftRowsOf(s);
        MixColumnsOf(s);
        AddRoundKey(s, r, k[r]);
        r := r + 1;
      }
      SubBytesOf(t, s);
      ShiftRowsOf(s);
      AddRoundKey(s, rounds, k[rounds]);
      output := s[..];
    }

    /** aes_decrypt_block. */
    method DecryptBlock(t: Tables, input: block, ghost k: keys) returns (output: block)
      requires Ready(t, k)
      ensures output == Decrypt(k, input)
    {
      hide Xor, Tables.Valid, InvSubBytes, InvShiftRows, InvMixColumns, HoldsKey;
      var s := Load(input);
      AddRoundKey(s, rounds, k[rounds]);
      ghost var start := s[..];
      var r := rounds - 1;
      while r > 0
        invariant 0 <= r < rounds && InvRounds(k, s[..], r) == InvRounds(k, start, rounds - 1)
      {
        InvShiftRowsOf(s);
        InvSubBytesOf(t, s);
        AddRoundKey(s, r, k[r]);
        InvMixColumnsOf(s);
        r := r - 1;
      }
      InvShiftRowsOf(s);
      InvSubBytesOf(t, s);
      AddRoundKey(s, 0, k[0]);
      output := s[..];
    }
  }

  // ---- the steps, each in place on the sixteen bytes

  method Load(input: block) returns (s: array<byte>)
    ensures fresh(s) && s.Length == 16 && s[..] == input
  {
    s := new byte[16](i requires 0 <= i < 16 => input[i]);
  }

  method SubBytesOf(t: Tables, s: array<byte>)
    requires t.Valid() && t.ready && s.Length == 16 && s != t.sbox && s != t.invSbox
    modifies s
    ensures s[..] == SubBytes(old(s[..]))
  {
    hide SubByte, Tables.Built;
    var i := 0;
    while i < 16
      invariant 0 <= i <= 16
      invariant forall j: nat :: j < i ==> s[j] == SubByte(old(s[j]))
      invariant forall j: nat :: i <= j < 16 ==> s[j] == old(s[j])
    {
      s[i] := Look(t, s[i]);
      i := i + 1;
    }
  }

  method InvSubBytesOf(t: Tables, s: array<byte>)
    requires t.Valid() && t.ready && s.Length == 16 && s != t.sbox && s != t.invSbox
    modifies s
    ensures s[..] == InvSubBytes(old(s[..]))
  {
    hide InvSubByte, Tables.Built;
    var i := 0;
    while i < 16
      invariant 0 <= i <= 16
      invariant forall j: nat :: j < i ==> s[j] == InvSubByte(old(s[j]))
      invariant forall j: nat :: i <= j < 16 ==> s[j] == old(s[j])
    {
      s[i] := LookBack(t, s[i]);
      i := i + 1;
    }
  }

  /** The place byte i comes from when the rows before `rows`, and the columns before c of that row, are turned left. */
  function From(i: nat, rows: nat, c: nat): (j: nat)
    requires i < 16
    ensures j < 16
  {
    if i % 4 < rows || (i % 4 == rows && i / 4 < c) then Left(i) else i
  }

  /** The same when they are turned right; there the columns are counted before the turn. */
  function Back(i: nat, rows: nat, c: nat): (j: nat)
    requires i < 16
    ensures j < 16
  {
    if i % 4 < rows || (i % 4 == rows && Wrap(i / 4 + 4 - i % 4) < c) then Right(i) else i
  }

  lemma FromStep(i: nat, r: nat, c: nat)
    requires i < 16 && 1 <= r < 4 && c < 4
    ensures From(i, r, c + 1) == if i == 4 * c + r then 4 * ((c + r) % 4) + r else From(i, r, c)
    ensures From(i, 1, 0) == i && From(i, r, 4) == From(i, r + 1, 0)
  {
    Parts(i / 4, i % 4);
    Parts(c, r);
    Parts(Wrap(c + r), r);
  }

  function FromAll(was: block, r: nat, c: nat): block { seq(16, i requires 0 <= i < 16 => was[From(i, r, c)]) }

  lemma FromSteps(was: block, r: nat, c: nat)
    requires 1 <= r < 4 && c < 4
    ensures FromAll(was, r, c)[4 * c + r := was[4 * ((c + r) % 4) + r]] == FromAll(was, r, c + 1)
  {
    hide From;
    var at, from := 4 * c + r, 4 * ((c + r) % 4) + r;
    var moved := FromAll(was, r, c)[at := was[from]];
    forall i: nat | i < 16
      ensures moved[i] == FromAll(was, r, c + 1)[i]
    {
      FromStep(i, r, c);
      if i == at {
      }
    }
  }

  lemma FromRow(was: block, r: nat)
    requires 1 <= r < 4
    ensures FromAll(was, 1, 0) == was && FromAll(was, r, 4) == FromAll(was, r + 1, 0)
  {
    hide From;
    forall i: nat | i < 16
      ensures FromAll(was, 1, 0)[i] == was[i] && FromAll(was, r, 4)[i] == FromAll(was, r + 1, 0)[i]
    {
      FromStep(i, r, 0);
    }
  }

  lemma AllFrom(was: block)
    ensures FromAll(was, 4, 0) == ShiftRows(was)
  {
  }

  lemma BackStep(i: nat, r: nat, c: nat)
    requires i < 16 && 1 <= r < 4 && c < 4
    ensures Back(i, r, c + 1) == if i == 4 * ((c + r) % 4) + r then 4 * c + r else Back(i, r, c)
    ensures Back(i, 1, 0) == i && Back(i, r, 4) == Back(i, r + 1, 0)
  {
    ColumnBack(i / 4, r, c);
    Parts(Wrap(c + r), r);
    hide Wrap;
  }

  lemma ColumnBack(q: nat, r: nat, c: nat)
    requires q < 4 && 1 <= r < 4 && c < 4
    ensures Wrap(q + 4 - r) < 4 && Wrap(c + r) == (c + r) % 4
    ensures Wrap(q + 4 - r) == c <==> q == Wrap(c + r)
  {
  }

  function BackAll(was: block, r: nat, c: nat): block { seq(16, i requires 0 <= i < 16 => was[Back(i, r, c)]) }

  lemma BackSteps(was: block, r: nat, c: nat)
    requires 1 <= r < 4 && c < 4
    ensures BackAll(was, r, c)[4 * ((c + r) % 4) + r := was[4 * c + r]] == BackAll(was, r, c + 1)
  {
    hide Back;
    var at, from := 4 * ((c + r) % 4) + r, 4 * c + r;
    var moved := BackAll(was, r, c)[at := was[from]];
    forall i: nat | i < 16
      ensures moved[i] == BackAll(was, r, c + 1)[i]
    {
      BackStep(i, r, c);
      if i == at {
      }
    }
  }

  lemma BackRow(was: block, r: nat)
    requires 1 <= r < 4
    ensures BackAll(was, 1, 0) == was && BackAll(was, r, 4) == BackAll(was, r + 1, 0)
  {
    hide Back;
    forall i: nat | i < 16
      ensures BackAll(was, 1, 0)[i] == was[i] && BackAll(was, r, 4)[i] == BackAll(was, r + 1, 0)[i]
    {
      BackStep(i, r, 0);
    }
  }

  lemma AllBack(was: block)
    ensures BackAll(was, 4, 0) == InvShiftRows(was)
  {
  }

  method ShiftRowsOf(s: array<byte>)
    requires s.Length == 16
    modifies s
    ensures s[..] == ShiftRows(old(s[..]))
  {
    var t := Load(s[..]);
    ghost var was: block := t[..];
    hide FromAll;
    var r := 1;
    FromRow(was, 1);
    while r < 4
      invariant 1 <= r <= 4 && t[..] == was && s[..] == FromAll(was, r, 0)
    {
      FromRow(was, r);
      var c := 0;
      while c < 4
        invariant 0 <= c <= 4 && t[..] == was && s[..] == FromAll(was, r, c)
      {
        FromSteps(was, r, c);
        s[4 * c + r] := t[4 * ((c + r) % 4) + r];
        c := c + 1;
      }
      r := r + 1;
    }
    AllFrom(was);
  }

  method InvShiftRowsOf(s: array<byte>)
    requires s.Length == 16
    modifies s
    ensures s[..] == InvShiftRows(old(s[..]))
  {
    var t := Load(s[..]);
    ghost var was: block := t[..];
    hide BackAll;
    var r := 1;
    BackRow(was, 1);
    while r < 4
      invariant 1 <= r <= 4 && t[..] == was && s[..] == BackAll(was, r, 0)
    {
      BackRow(was, r);
      var c := 0;
      while c < 4
        invariant 0 <= c <= 4 && t[..] == was && s[..] == BackAll(was, r, c)
      {
        BackSteps(was, r, c);
        s[4 * ((c + r) % 4) + r] := t[4 * c + r];
        c := c + 1;
      }
      r := r + 1;
    }
    AllBack(was);
  }

  /** The four products of a row, as mix_columns and inv_mix_columns add them. */
  method Row(a: byte, b: byte, c: byte, d: byte, k: byte, l: byte, m: byte, n: byte) returns (r: byte)
    ensures r == Dot(a, b, c, d, k, l, m, n)
  {
    hide Times;
    var p := Gmul(a, k);
    var q := Gmul(b, l);
    var u := Gmul(c, m);
    var v := Gmul(d, n);
    r := p ^ q ^ u ^ v;
    SumOf(p, q, u, v);
  }

  lemma SumOf(a: byte, b: byte, c: byte, d: byte)
    ensures a ^ b ^ c ^ d == Plus(Plus(a, b), Plus(c, d))
  {
  }

  /** 2a + 3b + c + d, where the last two are added as they are. */
  method MixOf(a: byte, b: byte, c: byte, d: byte) returns (r: byte)
    ensures r == Mix(a, b, c, d)
  {
    hide Times;
    var p := Gmul(a, 2);
    var q := Gmul(b, 3);
    r := p ^ q ^ c ^ d;
    SumOf(p, q, c, d);
    Commutes(c, 1);
    Commutes(d, 1);
    OneLeft(c);
    OneLeft(d);
  }

  /** Writing one column. */
  method PutColumn(s: array<byte>, c: nat, b0: byte, b1: byte, b2: byte, b3: byte)
    requires s.Length == 16 && c < 4
    modifies s
    ensures forall i: nat :: i < 16 ==> s[i] == if i / 4 == c then [b0, b1, b2, b3][i % 4] else old(s[i])
  {
    s[4 * c] := b0;
    s[4 * c + 1] := b1;
    s[4 * c + 2] := b2;
    s[4 * c + 3] := b3;
  }

  method MixColumnsOf(s: array<byte>)
    requires s.Length == 16
    modifies s
    ensures s[..] == MixColumns(old(s[..]))
  {
    hide MixColumns, MixedAt;
    ghost var was: block := s[..];
    var c := 0;
    while c < 4
      invariant 0 <= c <= 4
      invariant forall i: nat :: i < 16 ==> s[i] == if i / 4 < c then MixedAt(was, i / 4)[i % 4] else was[i]
    {
      MixColumnOf(s, was, c);
      c := c + 1;
    }
    MixColumnsAt(was, s[..]);
  }

  lemma MixColumnsAt(s: block, t: block)
    requires forall i: nat :: i < 16 ==> t[i] == MixedAt(s, i / 4)[i % 4]
    ensures t == MixColumns(s)
  {
    hide MixedAt;
  }

  lemma InvMixColumnsAt(s: block, t: block)
    requires forall i: nat :: i < 16 ==> t[i] == InvMixedAt(s, i / 4)[i % 4]
    ensures t == InvMixColumns(s)
  {
    hide InvMixedAt;
  }

  method MixColumnOf(s: array<byte>, ghost was: block, c: nat)
    requires s.Length == 16 && c < 4
    requires s[4 * c] == was[4 * c] && s[4 * c + 1] == was[4 * c + 1]
    requires s[4 * c + 2] == was[4 * c + 2] && s[4 * c + 3] == was[4 * c + 3]
    modifies s
    ensures forall i: nat :: i < 16 ==> s[i] == if i / 4 == c then MixedAt(was, c)[i % 4] else old(s[i])
  {
    hide Mix;
    var a0, a1, a2, a3 := s[4 * c], s[4 * c + 1], s[4 * c + 2], s[4 * c + 3];
    var b0 := MixOf(a0, a1, a2, a3);
    var b1 := MixOf(a1, a2, a3, a0);
    var b2 := MixOf(a2, a3, a0, a1);
    var b3 := MixOf(a3, a0, a1, a2);
    PutColumn(s, c, b0, b1, b2, b3);
  }

  method InvMixColumnsOf(s: array<byte>)
    requires s.Length == 16
    modifies s
    ensures s[..] == InvMixColumns(old(s[..]))
  {
    hide InvMixColumns, InvMixedAt;
    ghost var was: block := s[..];
    var c := 0;
    while c < 4
      invariant 0 <= c <= 4
      invariant forall i: nat :: i < 16 ==> s[i] == if i / 4 < c then InvMixedAt(was, i / 4)[i % 4] else was[i]
    {
      InvMixColumnOf(s, was, c);
      c := c + 1;
    }
    InvMixColumnsAt(was, s[..]);
  }

  method InvMixColumnOf(s: array<byte>, ghost was: block, c: nat)
    requires s.Length == 16 && c < 4
    requires s[4 * c] == was[4 * c] && s[4 * c + 1] == was[4 * c + 1]
    requires s[4 * c + 2] == was[4 * c + 2] && s[4 * c + 3] == was[4 * c + 3]
    modifies s
    ensures forall i: nat :: i < 16 ==> s[i] == if i / 4 == c then InvMixedAt(was, c)[i % 4] else old(s[i])
  {
    hide Dot;
    var a0, a1, a2, a3 := s[4 * c], s[4 * c + 1], s[4 * c + 2], s[4 * c + 3];
    var b0 := Row(a0, a1, a2, a3, 0x0E, 0x0B, 0x0D, 0x09);
    var b1 := Row(a0, a1, a2, a3, 0x09, 0x0E, 0x0B, 0x0D);
    var b2 := Row(a0, a1, a2, a3, 0x0D, 0x09, 0x0E, 0x0B);
    var b3 := Row(a0, a1, a2, a3, 0x0B, 0x0D, 0x09, 0x0E);
    DotTurns(a0, a1, a2, a3);
    PutColumn(s, c, b0, b1, b2, b3);
  }

  lemma DotTurns(a: byte, b: byte, c: byte, d: byte)
    ensures Dot(a, b, c, d, 0x09, 0x0E, 0x0B, 0x0D) == InvMix(b, c, d, a)
    ensures Dot(a, b, c, d, 0x0D, 0x09, 0x0E, 0x0B) == InvMix(c, d, a, b)
    ensures Dot(a, b, c, d, 0x0B, 0x0D, 0x09, 0x0E) == InvMix(d, a, b, c)
  {
    Aes.Turned(a, b, c, d, 0x0E, 0x0B, 0x0D, 0x09);
    DotIsSum(a, b, c, d, 0x09, 0x0E, 0x0B, 0x0D);
    DotIsSum(a, b, c, d, 0x0D, 0x09, 0x0E, 0x0B);
    DotIsSum(a, b, c, d, 0x0B, 0x0D, 0x09, 0x0E);
    hide Dot, Sum, Times;
  }
}
