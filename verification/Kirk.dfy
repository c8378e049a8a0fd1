/** KIRK command 1: building a container and opening it (kirk.c). */
module Kirk {
  import opened Bytes
  import opened Gf256
  import opened Sbox
  import opened Aes
  import opened AesC
  import opened Cbc
  import opened Cmac

  const HEADER := 0x90
  const META := 0x60
  const META_SIZE := 0x30

  datatype Code = Ok | TooSmall | BadMode | Ecdsa | HeaderCmac | DataCmac | SizeOverflow

  datatype Info = Info(mode: nat, useEcdsa: nat, isDevkit: nat, dataSize: nat, dataOffset: nat,
                       headerOk: bool, dataOk: bool)

  // ---- numbers in the buffer

  function Word32(b: seq<byte>): nat
    requires |b| == 4
  {
    Num(b[0]) + 0x100 * Num(b[1]) + 0x1_0000 * Num(b[2]) + 0x100_0000 * Num(b[3])
  }

  function Digit(v: nat): byte
    requires v < 0x100
  {
    v as byte
  }

  function Bytes32(v: nat): (r: seq<byte>)
    requires v < 0x1_0000_0000
    ensures |r| == 4
  {
    [Digit(v % 0x100), Digit(v / 0x100 % 0x100), Digit(v / 0x1_0000 % 0x100), Digit(v / 0x100_0000)]
  }

  lemma Digits(v: nat)
    ensures v ==
            v % 0x100 + 0x100 * (v / 0x100 % 0x100) + 0x1_0000 * (v / 0x1_0000 % 0x100) + 0x100_0000 * (v / 0x100_0000)
  {
    var a := v / 0x100;
    var b := a / 0x100;
    assert v / 0x1_0000 == b && v / 0x100_0000 == b / 0x100;
  }

  lemma NumDigit(v: nat)
    requires v < 0x100
    ensures Num(Digit(v)) == v
  {
    ByteOfNat(v);
  }

  lemma Word32Bytes(v: nat)
    requires v < 0x1_0000_0000
    ensures Word32(Bytes32(v)) == v
  {
    hide Num, Digit;
    Digits(v);
    NumDigit(v % 0x100);
    NumDigit(v / 0x100 % 0x100);
    NumDigit(v / 0x1_0000 % 0x100);
    NumDigit(v / 0x100_0000);
  }

  function Field(buf: seq<byte>, at: nat): nat
    requires at + 4 <= |buf|
  {
    Word32(buf[at..at + 4])
  }

  /** read_meta; the two verdicts are not known yet. */
  function Meta(buf: seq<byte>): Info
    requires |buf| >= HEADER
  {
    Info(Field(buf, META), Field(buf, META + 4), Field(buf, META + 0x0C), Field(buf, META + 0x10),
         Field(buf, META + 0x14), false, false)
  }

  /** A length rounded up to whole blocks. */
  function Blocks(n: nat): nat { (n + 15) / 16 * 16 }

  lemma WholeBlocks(n: nat)
    ensures Blocks(n) % 16 == 0 && n <= Blocks(n) < n + 16
  {
  }

  function Zeros(n: nat): (r: seq<byte>)
    ensures |r| == n
  {
    seq(n, _ => 0)
  }

  function Key(k: seq<byte>): keys
    requires |k| == 16
  {
    Schedule(k, 4)
  }

  // ---- opening

  datatype Opening = Opening(code: Code, info: Info, buf: seq<byte>, at: nat, len: nat)

  predicate Fits(buf: seq<byte>, i: Info) { HEADER + i.dataOffset + Blocks(i.dataSize) <= |buf| }

  /** The two keys in the first 0x20 bytes. */
  function Keys(kirk: seq<byte>, buf: seq<byte>): (r: seq<byte>)
    requires |kirk| == 16 && |buf| >= HEADER
    ensures |r| == 0x20
  {
    CbcLength(Key(kirk), ZERO, buf[..0x20]);
    CbcDecrypt(Key(kirk), ZERO, buf[..0x20])
  }

  /** The bytes the second code signs: the metadata, the padding and the encrypted body. */
  function Signed(buf: seq<byte>, i: Info): seq<byte>
    requires |buf| >= HEADER && Fits(buf, i)
  {
    buf[META..HEADER + i.dataOffset + Blocks(i.dataSize)]
  }

  /** The metadata with the two verdicts. */
  function Checked(kirk: seq<byte>, buf: seq<byte>, i: Info): (r: Info)
    requires |kirk| == 16 && |buf| >= HEADER && Fits(buf, i)
    ensures r.dataSize == i.dataSize && r.dataOffset == i.dataOffset
  {
    var mac := Key(Keys(kirk, buf)[0x10..]);
    i.(headerOk := Mac(mac, buf[META..META + META_SIZE]) == buf[0x20..0x30],
       dataOk := Mac(mac, Signed(buf, i)) == buf[0x30..0x40])
  }

  /** The body, decrypted where it lies. */
  function Bared(kirk: seq<byte>, buf: seq<byte>, i: Info): seq<byte>
    requires |kirk| == 16 && |buf| >= HEADER && Fits(buf, i)
  {
    var at := HEADER + i.dataOffset;
    CbcLength(Key(Keys(kirk, buf)[..0x10]), ZERO, buf[at..at + Blocks(i.dataSize)]);
    Over(buf, at, CbcDecrypt(Key(Keys(kirk, buf)[..0x10]), ZERO, buf[at..at + Blocks(i.dataSize)]))
  }

  /** kirk_cmd1_decrypt on values: the result code, the report, the buffer afterwards and where the body is. */
  function Open(kirk: seq<byte>, buf: seq<byte>, before: Info): Opening
    requires |kirk| == 16
  {
    if |buf| < HEADER then Opening(TooSmall, before, buf, 0, 0) else
      var i := Meta(buf);
      if i.mode != 1 then Opening(BadMode, i, buf, 0, 0)
      else if i.useEcdsa != 0 then Opening(Ecdsa, i, buf, 0, 0)
      else if !Fits(buf, i) then Opening(SizeOverflow, i, buf, 0, 0)
      else
        var c := Checked(kirk, buf, i);
        if !c.headerOk then Opening(HeaderCmac, c, buf, 0, 0)
        else if !c.dataOk then Opening(DataCmac, c, buf, 0, 0)
        else Opening(Ok, c, Bared(kirk, buf, i), HEADER + i.dataOffset, i.dataSize)
  }

  // ---- building

  function MetaBytes(size: nat, pad: nat): (r: seq<byte>)
    requires size < 0x1_0000_0000 && pad < 0x1_0000_0000
    ensures |r| == META_SIZE
  {
    Bytes32(1) + Bytes32(0) + Zeros(4) + Bytes32(0) + Bytes32(size) + Bytes32(pad) + Zeros(24)
  }

  /** The data with zeros up to a whole number of blocks. */
  function Full(data: seq<byte>): (r: seq<byte>)
    ensures |r| == Blocks(|data|) && |r| % 16 == 0
  {
    WholeBlocks(|data|);
    data + Zeros(Blocks(|data|) - |data|)
  }

  function Body(body: seq<byte>, data: seq<byte>): (r: seq<byte>)
    requires |body| == 16
    ensures |r| == Blocks(|data|)
  {
    CbcLength(Key(body), ZERO, Full(data));
    CbcEncrypt(Key(body), ZERO, Full(data))
  }

  function Wrapped(kirk: seq<byte>, body: seq<byte>, cmac: seq<byte>): (r: seq<byte>)
    requires |kirk| == |body| == |cmac| == 16
    ensures |r| == 0x20
  {
    CbcLength(Key(kirk), ZERO, body + cmac);
    CbcEncrypt(Key(kirk), ZERO, body + cmac)
  }

  /** The container: wrapped keys, the two codes, zeros, metadata, padding, encrypted body. */
  function Container(kirk: seq<byte>, body: seq<byte>, cmac: seq<byte>, data: seq<byte>, pad: nat): (r: seq<byte>)
    requires |kirk| == |body| == |cmac| == 16 && |data| < 0x1_0000_0000 && pad < 0x1_0000_0000
    ensures |r| == HEADER + pad + Blocks(|data|)
  {
    var meta := MetaBytes(|data|, pad);
    var signed := meta + Zeros(pad) + Body(body, data);
    Wrapped(kirk, body, cmac) + Mac(Key(cmac), meta) + Mac(Key(cmac), signed) + Zeros(0x20) + signed
  }

  // ---- what is built opens again

  /** Where the parts of a container lie, whatever follows it. */
  lemma Parts(kirk: seq<byte>, body: seq<byte>, cmac: seq<byte>, data: seq<byte>, pad: nat, rest: seq<byte>)
    requires |kirk| == |body| == |cmac| == 16 && |data| < 0x1_0000_0000 && pad < 0x1_0000_0000
    ensures var c := Container(kirk, body, cmac, data, pad) + rest;
            var meta := MetaBytes(|data|, pad);
            var signed := meta + Zeros(pad) + Body(body, data);
            && c[..0x20] == Wrapped(kirk, body, cmac)
            && c[0x20..0x30] == Mac(Key(cmac), meta) && c[0x30..0x40] == Mac(Key(cmac), signed)
            && c[META..META + META_SIZE] == meta
            && c[META..HEADER + pad + Blocks(|data|)] == signed
            && c[HEADER + pad..HEADER + pad + Blocks(|data|)] == Body(body, data)
  {
    hide Wrapped, Mac, Key, Body, MetaBytes, Blocks, Zeros;
  }

  lemma FieldOf(buf: seq<byte>, meta: seq<byte>, k: nat)
    requires |buf| >= HEADER && buf[META..META + META_SIZE] == meta && k + 4 <= META_SIZE
    ensures Field(buf, META + k) == Word32(meta[k..k + 4])
  {
    hide Word32;
    Part(buf, META, META + META_SIZE, META + k, META + k + 4);
  }

  lemma MetaParts(size: nat, pad: nat)
    requires size < 0x1_0000_0000 && pad < 0x1_0000_0000
    ensures var m := MetaBytes(size, pad);
            && m[0..4] == Bytes32(1) && m[4..8] == Bytes32(0) && m[0x0C..0x10] == Bytes32(0)
            && m[0x10..0x14] == Bytes32(size) && m[0x14..0x18] == Bytes32(pad)
  {
    hide Bytes32, Zeros;
  }

  lemma MetaRead(buf: seq<byte>, size: nat, pad: nat)
    requires size < 0x1_0000_0000 && pad < 0x1_0000_0000 && |buf| >= HEADER
    requires buf[META..META + META_SIZE] == MetaBytes(size, pad)
    ensures Meta(buf) == Info(1, 0, 0, size, pad, false, false)
  {
    hide Word32, Bytes32, MetaBytes, Field;
    var m := MetaBytes(size, pad);
    MetaParts(size, pad);
    FieldOf(buf, m, 0);
    FieldOf(buf, m, 4);
    FieldOf(buf, m, 0x0C);
    FieldOf(buf, m, 0x10);
    FieldOf(buf, m, 0x14);
    Word32Bytes(1);
    Word32Bytes(0);
    Word32Bytes(size);
    Word32Bytes(pad);
  }

  /** The four bytes at `at` are a number's, the lowest first. */
  ghost predicate LittleAt(b: seq<byte>, at: nat, v: nat)
    requires at + 4 <= |b|
  {
    && Num(b[at]) == v % 0x100 && Num(b[at + 1]) == v / 0x100 % 0x100
    && Num(b[at + 2]) == v / 0x1_0000 % 0x100 && Num(b[at + 3]) == v / 0x100_0000
  }

  lemma FieldIs(b: seq<byte>, at: nat, v: nat)
    requires at + 4 <= |b|
    ensures LittleAt(b, at, v) <==> Field(b, at) == v
  {
    hide Num;
    Digits(v);
    var s := b[at..at + 4];
    assert s[0] == b[at] && s[1] == b[at + 1] && s[2] == b[at + 2] && s[3] == b[at + 3];
    ByteNum(s[0]);
    ByteNum(s[1]);
    ByteNum(s[2]);
    OneNumber(Num(s[0]), Num(s[1]), Num(s[2]), Num(s[3]), v);
  }

  lemma OneNumber(a: nat, b: nat, c: nat, d: nat, v: nat)
    requires a < 0x100 && b < 0x100 && c < 0x100
    ensures v == a + 0x100 * b + 0x1_0000 * c + 0x100_0000 * d <==>
            a == v % 0x100 && b == v / 0x100 % 0x100 && c == v / 0x1_0000 % 0x100 && d == v / 0x100_0000
  {
    Digits(v);
  }

  lemma ByteNum(b: byte)
    ensures Num(b) < 0x100
  {
  }

  lemma Bytes32Are(v: nat, b: seq<byte>, at: nat)
    requires v < 0x1_0000_0000 && at + 4 <= |b| && b[at..at + 4] == Bytes32(v)
    ensures LittleAt(b, at, v)
  {
    hide Num, Digit;
    NumDigit(v % 0x100);
    NumDigit(v / 0x100 % 0x100);
    NumDigit(v / 0x1_0000 % 0x100);
    NumDigit(v / 0x100_0000);
    assert b[at] == b[at..at + 4][0] && b[at + 1] == b[at..at + 4][1];
    assert b[at + 2] == b[at..at + 4][2] && b[at + 3] == b[at..at + 4][3];
  }

  /** What is read from the header: little-endian numbers at fixed places. */
  lemma MetaIs(buf: seq<byte>, i: Info)
    requires |buf| >= 0x90
    ensures Meta(buf) == i <==>
      && LittleAt(buf, 0x60, i.mode) && LittleAt(buf, 0x64, i.useEcdsa) && LittleAt(buf, 0x6C, i.isDevkit)
      && LittleAt(buf, 0x70, i.dataSize) && LittleAt(buf, 0x74, i.dataOffset) && !i.headerOk && !i.dataOk
  {
    hide Field, LittleAt;
    FieldIs(buf, 0x60, i.mode);
    FieldIs(buf, 0x64, i.useEcdsa);
    FieldIs(buf, 0x6C, i.isDevkit);
    FieldIs(buf, 0x70, i.dataSize);
    FieldIs(buf, 0x74, i.dataOffset);
  }

  /** What a built container holds in its header, byte by byte: the mode, no signature, retail, the size and the
      padding, and zeros. */
  lemma ContainerFields(kirk: seq<byte>, body: seq<byte>, cmac: seq<byte>, data: seq<byte>, pad: nat)
    requires |kirk| == |body| == |cmac| == 16 && |data| < 0x1_0000_0000 && pad < 0x1_0000_0000
    ensures var c := Container(kirk, body, cmac, data, pad);
      && |c| == 0x90 + pad + (|data| + 15) / 16 * 16
      && LittleAt(c, 0x60, 1) && LittleAt(c, 0x64, 0) && LittleAt(c, 0x6C, 0)
      && LittleAt(c, 0x70, |data|) && LittleAt(c, 0x74, pad)
      && (forall i: nat :: 0x40 <= i < 0x60 || 0x68 <= i < 0x6C || 0x78 <= i < 0x90 + pad ==> c[i] == 0)
  {
    hide Mac, Wrapped, Body, Bytes32, LittleAt, Key, MetaBytes;
    var c, m := Container(kirk, body, cmac, data, pad), MetaBytes(|data|, pad);
    Parts(kirk, body, cmac, data, pad, []);
    assert c + [] == c;
    MetaParts(|data|, pad);
    MetaZeros(|data|, pad);
    Part(c, 0x60, 0x90, 0x60, 0x64);
    Part(c, 0x60, 0x90, 0x64, 0x68);
    Part(c, 0x60, 0x90, 0x6C, 0x70);
    Part(c, 0x60, 0x90, 0x70, 0x74);
    Part(c, 0x60, 0x90, 0x74, 0x78);
    Bytes32Are(1, c, 0x60);
    Bytes32Are(0, c, 0x64);
    Bytes32Are(0, c, 0x6C);
    Bytes32Are(|data|, c, 0x70);
    Bytes32Are(pad, c, 0x74);
    forall i: nat | 0x40 <= i < 0x60 || 0x68 <= i < 0x6C || 0x78 <= i < 0x90 + pad
      ensures c[i] == 0
    {
      if 0x60 <= i < 0x90 { assert c[i] == c[0x60..0x90][i - 0x60]; }
    }
  }

  lemma MetaZeros(size: nat, pad: nat)
    requires size < 0x1_0000_0000 && pad < 0x1_0000_0000
    ensures var m := MetaBytes(size, pad);
      forall i: nat :: 8 <= i < 12 || 24 <= i < 48 ==> m[i] == 0
  {
    hide Bytes32;
  }

  lemma KeysRead(kirk: seq<byte>, body: seq<byte>, cmac: seq<byte>, buf: seq<byte>)
    requires |kirk| == |body| == |cmac| == 16 && |buf| >= HEADER
    requires buf[..0x20] == Wrapped(kirk, body, cmac)
    ensures Keys(kirk, buf) == body + cmac
  {
    hide CbcEncrypt, CbcDecrypt, Key;
    CbcUndone(Key(kirk), ZERO, body + cmac);
  }

  /** What each result of opening means: nothing is given back unless both codes are right, the first over the metadata
      and the second over everything to the end of the body, under the second of the keys that the first 0x20 bytes
      unwrap to; then exactly the body is decrypted, under the first, and otherwise nothing is touched. */
  lemma OpenIs(kirk: seq<byte>, buf: seq<byte>, before: Info)
    requires |kirk| == 16 && |buf| >= 0x90
    ensures var o, i := Open(kirk, buf, before), Meta(buf);
      var at := 0x90 + i.dataOffset;
      var end := at + (i.dataSize + 15) / 16 * 16;
      var keys: seq<byte> := CbcDecrypt(Schedule(kirk, 4), ZERO, buf[..0x20]);
      && |keys| == 0x20
      && (o.code == BadMode <==> i.mode != 1)
      && (o.code == Ecdsa <==> i.mode == 1 && i.useEcdsa != 0)
      && (o.code == SizeOverflow <==> i.mode == 1 && i.useEcdsa == 0 && end > |buf|)
      && (o.code != Ok ==> o.buf == buf)
      && (i.mode == 1 && i.useEcdsa == 0 && end <= |buf| ==> CodesDecide(o, i, buf, keys, at, end))
  {
    hide Meta, Schedule, Mac, CbcDecrypt, CodesDecide, Bared, Checked;
    CbcLength(Schedule(kirk, 4), ZERO, buf[..0x20]);
    var i := Meta(buf);
    if i.mode == 1 && i.useEcdsa == 0 && Fits(buf, i) { CodesMean(kirk, buf, before); }
  }

  /** The codes over the metadata and over all up to the end of the body decide the result, and the body's length and
      place are the header's. */
  ghost predicate CodesDecide(o: Opening, i: Info, buf: seq<byte>, keys: seq<byte>, at: nat, end: nat)
    requires |buf| >= 0x90 && |keys| == 0x20 && 0x90 <= at <= end <= |buf|
  {
    var header := Mac(Schedule(keys[0x10..], 4), buf[0x60..0x90]) == buf[0x20..0x30];
    var whole := Mac(Schedule(keys[0x10..], 4), buf[0x60..end]) == buf[0x30..0x40];
    && (o.code == HeaderCmac <==> !header) && (o.code == DataCmac <==> header && !whole)
    && (o.code == Ok <==> header && whole)
    && (o.code == Ok ==>
          && o.at == at && o.len == i.dataSize
          && o.buf == buf[..at] + CbcDecrypt(Schedule(keys[..0x10], 4), ZERO, buf[at..end]) + buf[end..])
  }

  lemma CheckedIs(kirk: seq<byte>, buf: seq<byte>, i: Info, end: nat)
    requires |kirk| == 16 && |buf| >= 0x90 && Fits(buf, i) && end == 0x90 + i.dataOffset + Blocks(i.dataSize)
    ensures var c, keys := Checked(kirk, buf, i), Keys(kirk, buf);
      && (c.headerOk <==> Mac(Key(keys[0x10..]), buf[0x60..0x90]) == buf[0x20..0x30])
      && (c.dataOk <==> Mac(Key(keys[0x10..]), buf[0x60..end]) == buf[0x30..0x40])
  {
    hide Mac, Keys, Key, Blocks;
  }

  lemma BaredIs(kirk: seq<byte>, buf: seq<byte>, i: Info, at: nat, end: nat)
    requires |kirk| == 16 && |buf| >= 0x90 && Fits(buf, i) && at == 0x90 + i.dataOffset
             && end == at + Blocks(i.dataSize)
    ensures Bared(kirk, buf, i) ==
            buf[..at] + CbcDecrypt(Key(Keys(kirk, buf)[..0x10]), ZERO, buf[at..end]) + buf[end..]
  {
    hide Key, Keys, CbcDecrypt;
    WholeBlocks(i.dataSize);
    CbcLength(Key(Keys(kirk, buf)[..0x10]), ZERO, buf[at..at + Blocks(i.dataSize)]);
  }

  lemma CodesMean(kirk: seq<byte>, buf: seq<byte>, before: Info)
    requires |kirk| == 16 && |buf| >= 0x90 && Meta(buf).mode == 1 && Meta(buf).useEcdsa == 0 && Fits(buf, Meta(buf))
    ensures var i := Meta(buf);
      var at := 0x90 + i.dataOffset;
      CodesDecide(Open(kirk, buf, before), i, buf, Keys(kirk, buf), at, at + (i.dataSize + 15) / 16 * 16)
  {
    hide Meta, Schedule, Mac, CbcDecrypt, Keys, Checked, Bared;
    var i := Meta(buf);
    var at := 0x90 + i.dataOffset;
    CheckedIs(kirk, buf, i, at + Blocks(i.dataSize));
    BaredIs(kirk, buf, i, at, at + Blocks(i.dataSize));
  }

  /** Opening a built container, with anything after it, succeeds, verifies both codes and gives the data back. */
  lemma OpenUndoesBuild(kirk: seq<byte>, body: seq<byte>, cmac: seq<byte>, data: seq<byte>, pad: nat, rest: seq<byte>,
                        before: Info)
    requires |kirk| == |body| == |cmac| == 16 && |data| < 0x1_0000_0000 && pad < 0x1_0000_0000
    ensures var c := Container(kirk, body, cmac, data, pad) + rest;
            var o := Open(kirk, c, before);
            && o.code == Ok && o.info == Info(1, 0, 0, |data|, pad, true, true)
            && o.at == HEADER + pad && o.len == |data| && o.at + o.len <= |o.buf|
            && o.buf[o.at..o.at + o.len] == data
            && o.buf == Over(c, o.at, Full(data))
  {
    hide Container, Meta, Keys, Mac, Key, MetaBytes, Body, Full, Wrapped, CbcDecrypt, CbcEncrypt, Zeros, Blocks, Over;
    var c := Container(kirk, body, cmac, data, pad) + rest;
    var i := Info(1, 0, 0, |data|, pad, false, false);
    Parts(kirk, body, cmac, data, pad, rest);
    MetaRead(c, |data|, pad);
    KeysRead(kirk, body, cmac, c);
    assert (body + cmac)[..0x10] == body && (body + cmac)[0x10..] == cmac;
    BodyRead(body, data);
    assert Bared(kirk, c, i) == Over(c, HEADER + pad, Full(data));
    Underneath(c, HEADER + pad, data);
  }

  lemma BodyRead(body: seq<byte>, data: seq<byte>)
    requires |body| == 16
    ensures CbcDecrypt(Key(body), ZERO, Body(body, data)) == Full(data)
  {
    hide CbcEncrypt, CbcDecrypt, Key, Full, Blocks;
    CbcUndone(Key(body), ZERO, Full(data));
  }

  lemma Underneath(c: seq<byte>, at: nat, data: seq<byte>)
    requires at + |Full(data)| <= |c|
    ensures at + |data| <= |c| && Over(c, at, Full(data))[at..at + |data|] == data
  {
    hide Blocks;
    WholeBlocks(|data|);
  }

  // ---- the two operations on buffers

  method ReadMeta(buf: array<byte>) returns (i: Info)
    requires buf.Length >= HEADER
    ensures i == Meta(buf[..])
  {
    var mode := Read32(buf, META);
    var useEcdsa := Read32(buf, META + 4);
    var isDevkit := Read32(buf, META + 0x0C);
    var dataSize := Read32(buf, META + 0x10);
    var dataOffset := Read32(buf, META + 0x14);
    i := Info(mode, useEcdsa, isDevkit, dataSize, dataOffset, false, false);
  }

  method Read32(buf: array<byte>, at: nat) returns (v: nat)
    requires at + 4 <= buf.Length
    ensures v == Field(buf[..], at) && LittleAt(buf[..], at, v)
  {
    hide Num, LittleAt;
    FieldIs(buf[..], at, Field(buf[..], at));
    v := Num(buf[at]) + 0x100 * Num(buf[at + 1]) + 0x1_0000 * Num(buf[at + 2]) + 0x100_0000 * Num(buf[at + 3]);
  }

  /** A buffer that is neither of the tables. */
  ghost predicate Free(t: Tables, buf: array<byte>) { buf != t.sbox && buf != t.invSbox }

  /** Steps 1 to 3: the keys, and the two codes under the second of them. */
  method Check(t: Tables, kirk: seq<byte>, buf: array<byte>, info: Info) returns (keys: seq<byte>, checked: Info)
    requires |kirk| == 16 && t.Valid() && Free(t, buf) && buf.Length >= HEADER && Fits(buf[..], info)
    modifies t, t.sbox, t.invSbox
    ensures t.Valid() && keys == Keys(kirk, buf[..]) && checked == Checked(kirk, buf[..], info)
  {
    hide Tables.Built, Schedule, CbcDecrypt, Mac, Blocks;
    keys := OpenKeys(t, kirk, buf);
    var meta := AesCmac(t, keys[0x10..], 128, buf, META, META_SIZE);
    var expected: block := buf[0x20..0x30];
    var headerOk := CmacEqual(meta, expected);
    var length := META_SIZE + info.dataOffset + Blocks(info.dataSize);
    var signed := AesCmac(t, keys[0x10..], 128, buf, META, length);
    expected := buf[0x30..0x40];
    var dataOk := CmacEqual(signed, expected);
    SameSlice(buf, META, META + META_SIZE);
    SameSlice(buf, META, META + length);
    SameSlice(buf, 0x20, 0x30);
    SameSlice(buf, 0x30, 0x40);
    checked := info.(headerOk := headerOk, dataOk := dataOk);
  }

  lemma SameSlice(buf: array<byte>, i: nat, j: nat)
    requires i <= j <= buf.Length
    ensures buf[i..j] == buf[..][i..j]
  {
  }

  method OpenKeys(t: Tables, kirk: seq<byte>, buf: array<byte>) returns (keys: seq<byte>)
    requires |kirk| == 16 && t.Valid() && Free(t, buf) && buf.Length >= HEADER
    modifies t, t.sbox, t.invSbox
    ensures t.Valid() && keys == Keys(kirk, buf[..])
  {
    hide Tables.Built, CbcDecrypt, Context.Holds, Schedule;
    var kek := new Context();
    var code := kek.Init(t, kirk, 128);
    var copy := new byte[0x20](i requires 0 <= i < 0x20 && buf.Length >= HEADER reads buf => buf[i]);
    assert copy[0..0 + 0x20] == buf[..][..0x20];
    CbcLength(Key(kirk), ZERO, buf[..][..0x20]);
    CbcDecryptBuffer(kek, t, ZERO, copy, 0, copy, 0, 0x20, Key(kirk));
    keys := copy[..];
  }

  /** kirk_cmd1_decrypt. */
  method Decrypt(t: Tables, kirk: seq<byte>, buf: array<byte>, before: Info)
    returns (code: Code, info: Info, at: nat, len: nat)
    requires |kirk| == 16 && t.Valid() && Free(t, buf)
    modifies t, t.sbox, t.invSbox, buf
    ensures t.Valid()
    ensures Opening(code, info, buf[..], at, len) == Open(kirk, old(buf[..]), before)
  {
    hide Tables.Built, Meta, Keys, Checked, Bared, Blocks;
    info, at, len := before, 0, 0;
    if buf.Length < HEADER { return TooSmall, info, at, len; }
    info := ReadMeta(buf);
    if info.mode != 1 { return BadMode, info, at, len; }
    if info.useEcdsa != 0 { return Ecdsa, info, at, len; }
    var bodyAt := HEADER + info.dataOffset;
    var bodyPad := Blocks(info.dataSize);
    if bodyAt > buf.Length || bodyPad > buf.Length - bodyAt { return SizeOverflow, info, at, len; }
    var plain := info;
    var keys;
    keys, info := Check(t, kirk, buf, plain);
    if !info.headerOk { return HeaderCmac, info, at, len; }
    if !info.dataOk { return DataCmac, info, at, len; }
    assert buf[..] == old(buf[..]);
    Bare(t, kirk, keys, buf, plain);
    code, at, len := Ok, bodyAt, info.dataSize;
  }

  method Bare(t: Tables, kirk: seq<byte>, keys: seq<byte>, buf: array<byte>, i: Info)
    requires |kirk| == 16 && t.Valid() && Free(t, buf) && buf.Length >= HEADER && Fits(buf[..], i)
    requires keys == Keys(kirk, buf[..])
    modifies t, t.sbox, t.invSbox, buf
    ensures t.Valid() && buf[..] == Bared(kirk, old(buf[..]), i)
  {
    hide Tables.Built, Keys, CbcDecrypt, Context.Holds, Schedule, Over, Blocks;
    var ctx := new Context();
    var code := ctx.Init(t, keys[..0x10], 128);
    var at := HEADER + i.dataOffset;
    assert buf[at..at + Blocks(i.dataSize)] == buf[..][at..at + Blocks(i.dataSize)];
    CbcDecryptBuffer(ctx, t, ZERO, buf, at, buf, at, Blocks(i.dataSize), Key(keys[..0x10]));
  }

  // ---- building in a buffer

  method Write32(out: array<byte>, at: nat, v: nat)
    requires at + 4 <= out.Length && v < 0x1_0000_0000
    modifies out
    ensures out[..] == Over(old(out[..]), at, Bytes32(v)) && LittleAt(out[..], at, v)
  {
    hide Bytes32, LittleAt;
    Store(out, at, Bytes32(v));
    Bytes32Are(v, out[..], at);
  }

  /** Writing over one part of a buffer leaves every other part. */
  lemma OverParts(b: seq<byte>, at: nat, part: seq<byte>, i: nat, j: nat)
    requires at + |part| <= |b| && i <= j <= |b|
    ensures Over(b, at, part)[at..at + |part|] == part
    ensures j <= at || at + |part| <= i ==> Over(b, at, part)[i..j] == b[i..j]
  {
  }

  /** The fields of the metadata, written on zeros. */
  method WriteMeta(out: array<byte>, size: nat, pad: nat)
    requires size < 0x1_0000_0000 && pad < 0x1_0000_0000 && out.Length >= HEADER
    requires out[META..HEADER] == Zeros(META_SIZE)
    modifies out
    ensures out[..] == Over(old(out[..]), META, MetaBytes(size, pad))
  {
    hide Bytes32;
    ghost var was := out[..];
    Write32(out, META, 1);
    Write32(out, META + 0x04, 0);
    Write32(out, META + 0x0C, 0);
    Write32(out, META + 0x10, size);
    Write32(out, META + 0x14, pad);
    MetaWritten(was, Bytes32(1), Bytes32(0), Bytes32(size), Bytes32(pad));
  }

  /** Writing past a gap that already holds the right bytes. */
  lemma Gap(was: seq<byte>, at: nat, p: seq<byte>, g: seq<byte>, q: seq<byte>)
    requires at + |p| + |g| + |q| <= |was| && was[at + |p|..at + |p| + |g|] == g
    ensures Over(Over(was, at, p), at + |p| + |g|, q) == Over(was, at, p + g + q)
  {
    assert Over(was, at, p) == Over(was, at, p + g);
    OverMore(was, at, p + g, q);
  }

  lemma MetaWritten(was: seq<byte>, one: seq<byte>, zero: seq<byte>, size: seq<byte>, pad: seq<byte>)
    requires |one| == |zero| == |size| == |pad| == 4 && |was| >= HEADER && was[META..HEADER] == Zeros(META_SIZE)
    ensures Over(Over(Over(Over(Over(was, META, one), META + 4, zero), META + 0x0C, zero), META + 0x10, size),
                 META + 0x14, pad)
         == Over(was, META, one + zero + Zeros(4) + zero + size + pad + Zeros(24))
  {
    hide Over;
    OverMore(was, META, one, zero);
    ZeroGap(was, META + 8, 4);
    Gap(was, META, one + zero, Zeros(4), zero);
    OverMore(was, META, one + zero + Zeros(4) + zero, size);
    OverMore(was, META, one + zero + Zeros(4) + zero + size, pad);
    ZeroGap(was, META + 24, 24);
    var all := one + zero + Zeros(4) + zero + size + pad;
    Gap(was, META, all, Zeros(24), []);
    OverNothing(Over(was, META, all), HEADER);
    assert all + Zeros(24) + [] == all + Zeros(24);
  }

  lemma Part(b: seq<byte>, i: nat, j: nat, k: nat, l: nat)
    requires i <= k <= l <= j <= |b|
    ensures b[k..l] == b[i..j][k - i..l - i]
  {
    var outer := b[i..j];
    var inner := outer[k - i..l - i];
    assert |inner| == l - k;
    forall m: nat | m < l - k
      ensures inner[m] == b[k..l][m]
    {
      assert inner[m] == outer[k - i + m] == b[k + m];
    }
  }

  lemma ZerosPart(n: nat, k: nat, l: nat)
    requires k <= l <= n
    ensures Zeros(n)[k..l] == Zeros(l - k)
  {
  }

  lemma ZeroGap(was: seq<byte>, at: nat, n: nat)
    requires |was| >= HEADER && was[META..HEADER] == Zeros(META_SIZE) && META <= at && at + n <= HEADER
    ensures was[at..at + n] == Zeros(n)
  {
    hide Zeros;
    Part(was, META, HEADER, at, at + n);
    ZerosPart(META_SIZE, at - META, at - META + n);
  }

  /** A buffer that starts with a container's parts starts with the container. */
  lemma Assembled(out: seq<byte>, kirk: seq<byte>, body: seq<byte>, cmac: seq<byte>, data: seq<byte>, pad: nat)
    requires |kirk| == |body| == |cmac| == 16 && |data| < 0x1_0000_0000 && pad < 0x1_0000_0000
    requires |out| >= HEADER + pad + Blocks(|data|)
    requires var at := HEADER + pad;
             && out[..0x20] == Wrapped(kirk, body, cmac)
             && out[0x20..0x30] == Mac(Key(cmac), out[META..HEADER])
             && out[0x30..0x40] == Mac(Key(cmac), out[META..at + Blocks(|data|)])
             && out[0x40..META] == Zeros(0x20) && out[META..HEADER] == MetaBytes(|data|, pad)
             && out[HEADER..at] == Zeros(pad) && out[at..at + Blocks(|data|)] == Body(body, data)
    ensures out[..HEADER + pad + Blocks(|data|)] == Container(kirk, body, cmac, data, pad)
  {
    hide Wrapped, Mac, Key, MetaBytes, Body, Blocks, Zeros;
    var at := HEADER + pad;
    assert out[META..at + Blocks(|data|)] == out[META..HEADER] + out[HEADER..at] + out[at..at + Blocks(|data|)];
  }

  /** What the encryption starts from: zeros over the whole container, the metadata, the padded data. */
  ghost predicate Prepared(o: seq<byte>, data: seq<byte>, pad: nat)
    requires |data| < 0x1_0000_0000 && pad < 0x1_0000_0000
  {
    var at := HEADER + pad;
    && |o| >= at + Blocks(|data|)
    && o[..META] == Zeros(META) && o[META..HEADER] == MetaBytes(|data|, pad) && o[HEADER..at] == Zeros(pad)
    && o[at..at + Blocks(|data|)] == Full(data)
  }

  method Prepare(data: seq<byte>, pad: nat, out: array<byte>)
    requires |data| < 0x1_0000_0000 && pad < 0x1_0000_0000
    requires out.Length >= HEADER + pad + Blocks(|data|)
    modifies out
    ensures Prepared(out[..], data, pad)
    ensures out[HEADER + pad + Blocks(|data|)..] == old(out[HEADER + pad + Blocks(|data|)..])
  {
    hide Blocks, MetaBytes, Over, Zeros, Prepared;
    WholeBlocks(|data|);
    var end := HEADER + pad + Blocks(|data|);
    ghost var was := out[..];
    Store(out, 0, Zeros(end));
    ghost var o := out[..];
    OverParts(was, 0, Zeros(end), end, |was|);
    Part(o, 0, end, META, HEADER);
    ZerosPart(end, META, HEADER);
    WriteMeta(out, |data|, pad);
    Store(out, HEADER + pad, data);
    PreparedParts(o, data, pad);
    assert was[end..|was|] == was[end..];
  }

  /** The parts the two later writes leave alone. */
  lemma Untouched(o: seq<byte>, m: seq<byte>, at: nat, data: seq<byte>, i: nat, j: nat)
    requires |m| == META_SIZE && HEADER <= at && at + |data| <= |o| && i <= j <= |o|
    requires (j <= META || HEADER <= i) && (j <= at || at + |data| <= i)
    ensures Over(Over(o, META, m), at, data)[i..j] == o[i..j]
  {
    hide Over;
    OverParts(o, META, m, i, j);
    OverParts(Over(o, META, m), at, data, i, j);
  }

  lemma PreparedParts(o: seq<byte>, data: seq<byte>, pad: nat)
    requires |data| < 0x1_0000_0000 && pad < 0x1_0000_0000
    requires |o| >= HEADER + pad + Blocks(|data|) && |data| <= Blocks(|data|)
    requires o[0..HEADER + pad + Blocks(|data|)] == Zeros(HEADER + pad + Blocks(|data|))
    ensures var r := Over(Over(o, META, MetaBytes(|data|, pad)), HEADER + pad, data);
            Prepared(r, data, pad) && r[HEADER + pad + Blocks(|data|)..] == o[HEADER + pad + Blocks(|data|)..]
  {
    hide Blocks, MetaBytes, Over, Zeros;
    var at, end := HEADER + pad, HEADER + pad + Blocks(|data|);
    var m := MetaBytes(|data|, pad);
    var r := Over(Over(o, META, m), at, data);
    Untouched(o, m, at, data, 0, META);
    Untouched(o, m, at, data, HEADER, at);
    Untouched(o, m, at, data, at + |data|, end);
    Untouched(o, m, at, data, end, |o|);
    ZeroPart(o, end, 0, META);
    ZeroPart(o, end, HEADER, at);
    ZeroPart(o, end, at + |data|, end);
    OverParts(o, META, m, 0, 0);
    OverParts(Over(o, META, m), at, data, META, HEADER);
    assert r[at..end] == r[at..at + |data|] + r[at + |data|..end];
    assert r[..META] == r[0..META] && r[end..] == r[end..|r|] && o[end..] == o[end..|o|];
  }

  lemma ZeroPart(b: seq<byte>, n: nat, k: nat, l: nat)
    requires k <= l <= n <= |b| && b[0..n] == Zeros(n)
    ensures b[k..l] == Zeros(l - k)
  {
    hide Zeros;
    Part(b, 0, n, k, l);
    ZerosPart(n, k, l);
  }

  method EncryptBody(t: Tables, body: seq<byte>, data: seq<byte>, out: array<byte>, at: nat)
    requires |body| == 16 && t.Valid() && Free(t, out) && at + Blocks(|data|) <= out.Length
    requires out[at..at + Blocks(|data|)] == Full(data)
    modifies t, t.sbox, t.invSbox, out
    ensures t.Valid() && out[..] == Over(old(out[..]), at, Body(body, data))
  {
    hide Tables.Built, CbcEncrypt, Context.Holds, Schedule, Over, Blocks, Full;
    var ctx := new Context();
    var code := ctx.Init(t, body, 128);
    CbcEncryptBuffer(ctx, t, ZERO, out, at, out, at, Blocks(|data|), Key(body));
  }

  /** The two codes, each stored as soon as it is made; neither covers the place of the other. */
  method Sign(t: Tables, cmac: seq<byte>, out: array<byte>, length: nat)
    requires |cmac| == 16 && t.Valid() && Free(t, out) && HEADER <= META + length <= out.Length
    modifies t, t.sbox, t.invSbox, out
    ensures t.Valid()
    ensures out[..] == Over(old(out[..]), 0x20,
                            Mac(Key(cmac), old(out[META..HEADER])) + Mac(Key(cmac), old(out[META..META + length])))
  {
    hide Tables.Built, Mac, Schedule, Over;
    ghost var was := out[..];
    var first := AesCmac(t, cmac, 128, out, META, META_SIZE);
    Store(out, 0x20, first);
    OverParts(was, 0x20, first, META, META + length);
    assert out[META..META + length] == out[..][META..META + length];
    assert was[META..META + length] == old(out[META..META + length]);
    var second := AesCmac(t, cmac, 128, out, META, length);
    Store(out, 0x30, second);
    OverMore(was, 0x20, first, second);
  }

  /** The two keys, wrapped where they lie. */
  method Wrap(t: Tables, kirk: seq<byte>, body: seq<byte>, cmac: seq<byte>, out: array<byte>)
    requires |kirk| == |body| == |cmac| == 16 && t.Valid() && Free(t, out) && out.Length >= HEADER
    modifies t, t.sbox, t.invSbox, out
    ensures t.Valid() && out[..] == Over(old(out[..]), 0, Wrapped(kirk, body, cmac))
  {
    hide Tables.Built, CbcEncrypt, Context.Holds, Schedule, Over;
    ghost var was := out[..];
    Store(out, 0, body);
    Store(out, 0x10, cmac);
    OverMore(was, 0, body, cmac);
    OverParts(was, 0, body + cmac, 0, 0);
    assert out[0..0 + 0x20] == out[..][0..0 + 0x20];
    var kek := new Context();
    var code := kek.Init(t, kirk, 128);
    CbcEncryptBuffer(kek, t, ZERO, out, 0, out, 0, 0x20, Key(kirk));
    OverOver(was, 0, body + cmac, Wrapped(kirk, body, cmac));
  }

  lemma OverOver(b: seq<byte>, at: nat, p: seq<byte>, q: seq<byte>)
    requires |p| == |q| && at + |p| <= |b|
    ensures Over(Over(b, at, p), at, q) == Over(b, at, q)
  {
  }

  /** kirk_cmd1_build. */
  method Build(t: Tables, kirk: seq<byte>, body: seq<byte>, cmac: seq<byte>, data: seq<byte>, pad: nat,
               out: array<byte>)
    returns (code: Code, total: nat)
    requires |kirk| == |body| == |cmac| == 16 && |data| < 0x1_0000_0000 && pad < 0x1_0000_0000
    requires t.Valid() && Free(t, out)
    modifies t, t.sbox, t.invSbox, out
    ensures t.Valid()
    ensures var size := |Container(kirk, body, cmac, data, pad)|;
            if out.Length < size then code == SizeOverflow && out[..] == old(out[..])
            else code == Ok && total == size && out[..] == Container(kirk, body, cmac, data, pad) + old(out[size..])
  {
    hide Tables.Built, Container, Mac, Key, Over, Prepared, Blocks, Body, Wrapped;
    ghost var was := out[..];
    var bodyPad := Blocks(|data|);
    var at := HEADER + pad;
    total := at + bodyPad;
    if out.Length < total { return SizeOverflow, 0; }
    Prepare(data, pad, out);
    ghost var o := out[..];
    PreparedBody(o, data, pad);
    assert out[at..at + bodyPad] == o[at..at + bodyPad];
    EncryptBody(t, body, data, out, at);
    ghost var p := out[..];
    Sign(t, cmac, out, META_SIZE + pad + bodyPad);
    Wrap(t, kirk, body, cmac, out);
    assert old(out[total..]) == was[total..] && o[total..] == was[total..];
    Built(o, p, out[..], kirk, body, cmac, data, pad);
    code := Ok;
  }

  lemma PreparedBody(o: seq<byte>, data: seq<byte>, pad: nat)
    requires |data| < 0x1_0000_0000 && pad < 0x1_0000_0000 && Prepared(o, data, pad)
    ensures |o| >= HEADER + pad + Blocks(|data|)
    ensures o[HEADER + pad..HEADER + pad + Blocks(|data|)] == Full(data)
  {
    hide Blocks, Zeros, MetaBytes, Full;
  }

  lemma Built(o: seq<byte>, p: seq<byte>, r: seq<byte>, kirk: seq<byte>, body: seq<byte>, cmac: seq<byte>,
              data: seq<byte>, pad: nat)
    requires |kirk| == |body| == |cmac| == 16 && |data| < 0x1_0000_0000 && pad < 0x1_0000_0000
    requires Prepared(o, data, pad) && |o| >= HEADER + pad + Blocks(|data|)
    requires p == Over(o, HEADER + pad, Body(body, data))
    requires r == Over(Over(p, 0x20, Mac(Key(cmac), p[META..HEADER])
                                     + Mac(Key(cmac), p[META..META + (META_SIZE + pad + Blocks(|data|))])),
                       0, Wrapped(kirk, body, cmac))
    ensures r == Container(kirk, body, cmac, data, pad) + o[HEADER + pad + Blocks(|data|)..]
  {
    hide Container, Mac, Key, Over, Blocks, Body, Wrapped, Zeros, MetaBytes;
    var at, end := HEADER + pad, HEADER + pad + Blocks(|data|);
    var b, w := Body(body, data), Wrapped(kirk, body, cmac);
    var macs := Mac(Key(cmac), p[META..HEADER]) + Mac(Key(cmac), p[META..META + (META_SIZE + pad + Blocks(|data|))]);
    var q := Over(p, 0x20, macs);
    OverParts(q, 0, w, 0x20, 0x40);
    OverParts(p, 0x20, macs, 0, 0);
    assert r[0x20..0x30] == r[0x20..0x40][..0x10] && r[0x30..0x40] == r[0x20..0x40][0x10..];
    Kept(o, p, q, r, at, b, macs, w, 0x40, META);
    Kept(o, p, q, r, at, b, macs, w, META, HEADER);
    Kept(o, p, q, r, at, b, macs, w, HEADER, at);
    Kept(o, p, q, r, at, b, macs, w, end, |o|);
    OverParts(o, at, b, META, HEADER);
    OverParts(p, 0x20, macs, META, end);
    OverParts(q, 0, w, META, end);
    OverParts(p, 0x20, macs, at, end);
    OverParts(q, 0, w, at, end);
    ZeroPart(o, META, 0x40, META);
    Assembled(r, kirk, body, cmac, data, pad);
    assert r == r[..end] + r[end..|o|] && o[end..|o|] == o[end..];
  }

  /** What lies outside all three writes is as it was. */
  lemma Kept(o: seq<byte>, p: seq<byte>, q: seq<byte>, r: seq<byte>, at: nat, b: seq<byte>, macs: seq<byte>,
             w: seq<byte>, i: nat, j: nat)
    requires at + |b| <= |o| && |macs| == 0x20 && |w| == 0x20 && 0x40 <= i <= j <= |o| && (j <= at || at + |b| <= i)
    requires p == Over(o, at, b) && q == Over(p, 0x20, macs) && r == Over(q, 0, w)
    ensures r[i..j] == o[i..j]
  {
    hide Over;
    OverParts(o, at, b, i, j);
    OverParts(p, 0x20, macs, i, j);
    OverParts(q, 0, w, i, j);
  }
}
