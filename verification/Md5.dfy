/** The MD5 message-digest algorithm of RFC 1321, section by section. */
module Rfc1321 {
  import opened BlockHash

  datatype Chain = Chain(a: Word, b: Word, c: Word, d: Word)

  // Sections 3.1 and 3.2
  function Pad(message: seq<Byte>): (padded: seq<Byte>)
    ensures |padded| % 64 == 0
  {
    message + Filler(|message|) + LittleEndianLength(8 * |message|)
  }

  function LittleEndianLength(bits: nat): (bytes: seq<Byte>)
    ensures |bytes| == 8
  {
    var l := bits % TWO_TO_THE_64;
    [CountByte(l, 0), CountByte(l, 1), CountByte(l, 2), CountByte(l, 3),
     CountByte(l, 4), CountByte(l, 5), CountByte(l, 6), CountByte(l, 7)]
  }

  // Section 3.3
  const INITIAL := Chain(Word(0x67452301), Word(0xefcdab89), Word(0x98badcfe), Word(0x10325476))

  // Section 3.4
  function F(x: bv32, y: bv32, z: bv32): bv32 { (x & y) | (!x & z) }
  function G(x: bv32, y: bv32, z: bv32): bv32 { (x & z) | (y & !z) }
  function H(x: bv32, y: bv32, z: bv32): bv32 { x ^ y ^ z }
  function I(x: bv32, y: bv32, z: bv32): bv32 { y ^ (x | !z) }

  function Auxiliary(i: nat, x: bv32, y: bv32, z: bv32): bv32 {
    if i < 16 then F(x, y, z) else if i < 32 then G(x, y, z) else if i < 48 then H(x, y, z) else I(x, y, z)
  }

  /** Which word of the block operation i uses. */
  function Index(i: nat): (k: nat)
    ensures k < 16
  {
    if i < 16 then Index1(i) else if i < 32 then Index2(i - 16) else if i < 48 then Index3(i - 32) else Index4(i - 48)
  }

  // The index, shift and table entry of operation j of each round
  function Index1(j: nat): (k: nat)
    ensures k < 16
  {
    j % 16
  }

  function Index2(j: nat): (k: nat)
    ensures k < 16
  {
    (5 * j + 1) % 16
  }

  function Index3(j: nat): (k: nat)
    ensures k < 16
  {
    (3 * j + 5) % 16
  }

  function Index4(j: nat): (k: nat)
    ensures k < 16
  {
    (7 * j) % 16
  }

  function Shift(i: nat): Amount {
    if i < 16 then Shift1(i) else if i < 32 then Shift2(i - 16) else if i < 48 then Shift3(i - 32) else Shift4(i - 48)
  }

  function Shift1(j: nat): Amount {
    if j % 4 == 0 then 7 else if j % 4 == 1 then 12 else if j % 4 == 2 then 17 else 22
  }

  function Shift2(j: nat): Amount {
    if j % 4 == 0 then 5 else if j % 4 == 1 then 9 else if j % 4 == 2 then 14 else 20
  }

  function Shift3(j: nat): Amount {
    if j % 4 == 0 then 4 else if j % 4 == 1 then 11 else if j % 4 == 2 then 16 else 23
  }

  function Shift4(j: nat): Amount {
    if j % 4 == 0 then 6 else if j % 4 == 1 then 10 else if j % 4 == 2 then 15 else 21
  }

  function T1(j: nat): Word
    requires j < 16
  {
    if j == 0 then Word(0xd76aa478) else if j == 1 then Word(0xe8c7b756)
    else if j == 2 then Word(0x242070db) else if j == 3 then Word(0xc1bdceee)
    else if j == 4 then Word(0xf57c0faf) else if j == 5 then Word(0x4787c62a)
    else if j == 6 then Word(0xa8304613) else if j == 7 then Word(0xfd469501)
    else if j == 8 then Word(0x698098d8) else if j == 9 then Word(0x8b44f7af)
    else if j == 10 then Word(0xffff5bb1) else if j == 11 then Word(0x895cd7be)
    else if j == 12 then Word(0x6b901122) else if j == 13 then Word(0xfd987193)
    else if j == 14 then Word(0xa679438e) else Word(0x49b40821)
  }

  function T2(j: nat): Word
    requires j < 16
  {
    if j == 0 then Word(0xf61e2562) else if j == 1 then Word(0xc040b340)
    else if j == 2 then Word(0x265e5a51) else if j == 3 then Word(0xe9b6c7aa)
    else if j == 4 then Word(0xd62f105d) else if j == 5 then Word(0x02441453)
    else if j == 6 then Word(0xd8a1e681) else if j == 7 then Word(0xe7d3fbc8)
    else if j == 8 then Word(0x21e1cde6) else if j == 9 then Word(0xc33707d6)
    else if j == 10 then Word(0xf4d50d87) else if j == 11 then Word(0x455a14ed)
    else if j == 12 then Word(0xa9e3e905) else if j == 13 then Word(0xfcefa3f8)
    else if j == 14 then Word(0x676f02d9) else Word(0x8d2a4c8a)
  }

  function T3(j: nat): Word
    requires j < 16
  {
    if j == 0 then Word(0xfffa3942) else if j == 1 then Word(0x8771f681)
    else if j == 2 then Word(0x6d9d6122) else if j == 3 then Word(0xfde5380c)
    else if j == 4 then Word(0xa4beea44) else if j == 5 then Word(0x4bdecfa9)
    else if j == 6 then Word(0xf6bb4b60) else if j == 7 then Word(0xbebfbc70)
    else if j == 8 then Word(0x289b7ec6) else if j == 9 then Word(0xeaa127fa)
    else if j == 10 then Word(0xd4ef3085) else if j == 11 then Word(0x04881d05)
    else if j == 12 then Word(0xd9d4d039) else if j == 13 then Word(0xe6db99e5)
    else if j == 14 then Word(0x1fa27cf8) else Word(0xc4ac5665)
  }

  function T4(j: nat): Word
    requires j < 16
  {
    if j == 0 then Word(0xf4292244) else if j == 1 then Word(0x432aff97)
    else if j == 2 then Word(0xab9423a7) else if j == 3 then Word(0xfc93a039)
    else if j == 4 then Word(0x655b59c3) else if j == 5 then Word(0x8f0ccc92)
    else if j == 6 then Word(0xffeff47d) else if j == 7 then Word(0x85845dd1)
    else if j == 8 then Word(0x6fa87e4f) else if j == 9 then Word(0xfe2ce6e0)
    else if j == 10 then Word(0xa3014314) else if j == 11 then Word(0x4e0811a1)
    else if j == 12 then Word(0xf7537e82) else if j == 13 then Word(0xbd3af235)
    else if j == 14 then Word(0x2ad7d2bb) else Word(0xeb86d391)
  }

  function T(i: nat): Word
    requires i < 64
  {
    if i < 16 then T1(i) else if i < 32 then T2(i - 16) else if i < 48 then T3(i - 32) else T4(i - 48)
  }

  type Words = x: seq<Word> | |x| == 16 witness seq(16, i => Word(0))

  function BlockWords(m: Block): Words {
    seq(16, k requires 0 <= k < 16 => LittleEndian(m[4 * k], m[4 * k + 1], m[4 * k + 2], m[4 * k + 3]))
  }

  /** a = b + ((a + f(b,c,d) + X[k] + T[i]) <<< s), with the names rotated for the next operation. */
  function Operation(x: Words, i: nat, v: Chain): Chain
    requires i < 64
  {
    var sum := Sum4(v.a, Word(Auxiliary(i, v.b.bits, v.c.bits, v.d.bits)), x[Index(i)], T(i));
    Chain(v.d, Add(v.b, RotateLeft(Shift(i), sum)), v.b, v.c)
  }

  function Operations(x: Words, count: nat, v: Chain): Chain
    requires count <= 64
  {
    if count == 0 then v else Operation(x, count - 1, Operations(x, count - 1, v))
  }

  function Compress(h: Chain, m: Block): Chain {
    CompressWords(h, BlockWords(m))
  }

  function CompressWords(h: Chain, x: Words): Chain {
    var v := Operations(x, 64, h);
    Chain(Add(h.a, v.a), Add(h.b, v.b), Add(h.c, v.c), Add(h.d, v.d))
  }

  function HashValue(data: seq<Byte>): Chain
    requires |data| % 64 == 0
  {
    Fold(Compress, INITIAL, data)
  }

  // Section 3.5
  function ChainBytes(h: Chain): (bytes: seq<Byte>)
    ensures |bytes| == 16
  {
    WordBytes(h.a) + WordBytes(h.b) + WordBytes(h.c) + WordBytes(h.d)
  }

  function Digest(message: seq<Byte>): (digest: seq<Byte>)
    ensures |digest| == 16
  {
    ChainBytes(HashValue(Pad(message)))
  }
}

/** base/md5.cc on a little-endian machine, where byteReverse changes nothing. */
module Md5 {
  import opened BlockHash
  import Rfc1321
  import Sequences

  // The four core functions; F1 and F2 are rewritten to save an operation.
  function F1(x: bv32, y: bv32, z: bv32): bv32 { z ^ (x & (y ^ z)) }
  function F2(x: bv32, y: bv32, z: bv32): bv32 { F1(z, x, y) }
  function F3(x: bv32, y: bv32, z: bv32): bv32 { x ^ y ^ z }
  function F4(x: bv32, y: bv32, z: bv32): bv32 { y ^ (x | !z) }

  lemma SelectRewritten(x: bv32, y: bv32, z: bv32)
    ensures (z ^ (x & (y ^ z))) == ((x & y) | (!x & z))
  {}

  lemma SelectRewritten2(x: bv32, y: bv32, z: bv32)
    ensures (y ^ (z & (x ^ y))) == ((x & z) | (y & !z))
  {}

  /** The core functions compute the auxiliary functions of section 3.4. */
  lemma F1IsF(x: bv32, y: bv32, z: bv32)
    ensures F1(x, y, z) == Rfc1321.F(x, y, z)
  {
    SelectRewritten(x, y, z);
  }

  lemma F2IsG(x: bv32, y: bv32, z: bv32)
    ensures F2(x, y, z) == Rfc1321.G(x, y, z)
  {
    SelectRewritten2(x, y, z);
  }

  lemma F3IsH(x: bv32, y: bv32, z: bv32)
    ensures F3(x, y, z) == Rfc1321.H(x, y, z)
  {}

  lemma F4IsI(x: bv32, y: bv32, z: bv32)
    ensures F4(x, y, z) == Rfc1321.I(x, y, z)
  {}

  /** MD5STEP, given the value f of the core function. */
  function Md5Step(f: Word, w: Word, x: Word, data: Word, s: Amount): Word {
    Add(RotateLeft(s, Add(w, Add(f, data))), x)
  }

  lemma StepIsOperation(x: Rfc1321.Words, i: nat, v: Rfc1321.Chain, f: Word)
    requires i < 64 && f == Word(Rfc1321.Auxiliary(i, v.b.bits, v.c.bits, v.d.bits))
    ensures var data := Add(x[Rfc1321.Index(i)], Rfc1321.T(i));
            Rfc1321.Operation(x, i, v) == Rfc1321.Chain(v.d, Md5Step(f, v.a, v.b, data, Rfc1321.Shift(i)), v.b, v.c)
  {
    hide Add, RotateLeft, Rfc1321.Auxiliary, Rfc1321.Index, Rfc1321.T, Rfc1321.Shift;
    var sum := Sum4(v.a, f, x[Rfc1321.Index(i)], Rfc1321.T(i));
    AddCommutes(v.b, RotateLeft(Rfc1321.Shift(i), sum));
  }

  method Step1(w: Word, x: Word, y: Word, z: Word, data: Word, s: Amount,
               ghost inp: Rfc1321.Words, ghost j: nat, ghost v: Rfc1321.Chain)
    returns (r: Word)
    requires j < 16 && s == Rfc1321.Shift1(j)
    requires data == Add(inp[Rfc1321.Index1(j)], Rfc1321.T1(j))
    requires Rfc1321.Operations(inp, j, v) == Rfc1321.Chain(w, x, y, z)
    ensures Rfc1321.Operations(inp, j + 1, v) == Rfc1321.Chain(z, r, x, y)
  {
    hide Rfc1321.Operation, Rfc1321.T1, Rfc1321.Index1, Rfc1321.Shift1, Md5Step, Add, F1, Rfc1321.F;
    F1IsF(x.bits, y.bits, z.bits);
    r := Md5Step(Word(F1(x.bits, y.bits, z.bits)), w, x, data, s);
    StepIsOperation(inp, j, Rfc1321.Chain(w, x, y, z), Word(F1(x.bits, y.bits, z.bits)));
  }

  method Step2(w: Word, x: Word, y: Word, z: Word, data: Word, s: Amount,
               ghost inp: Rfc1321.Words, ghost j: nat, ghost v: Rfc1321.Chain)
    returns (r: Word)
    requires j < 16 && s == Rfc1321.Shift2(j)
    requires data == Add(inp[Rfc1321.Index2(j)], Rfc1321.T2(j))
    requires Rfc1321.Operations(inp, 16 + j, v) == Rfc1321.Chain(w, x, y, z)
    ensures Rfc1321.Operations(inp, 17 + j, v) == Rfc1321.Chain(z, r, x, y)
  {
    hide Rfc1321.Operation, Rfc1321.T2, Rfc1321.Index2, Rfc1321.Shift2, Md5Step, Add, F2, Rfc1321.G;
    F2IsG(x.bits, y.bits, z.bits);
    r := Md5Step(Word(F2(x.bits, y.bits, z.bits)), w, x, data, s);
    StepIsOperation(inp, 16 + j, Rfc1321.Chain(w, x, y, z), Word(F2(x.bits, y.bits, z.bits)));
  }

  method Step3(w: Word, x: Word, y: Word, z: Word, data: Word, s: Amount,
               ghost inp: Rfc1321.Words, ghost j: nat, ghost v: Rfc1321.Chain)
    returns (r: Word)
    requires j < 16 && s == Rfc1321.Shift3(j)
    requires data == Add(inp[Rfc1321.Index3(j)], Rfc1321.T3(j))
    requires Rfc1321.Operations(inp, 32 + j, v) == Rfc1321.Chain(w, x, y, z)
    ensures Rfc1321.Operations(inp, 33 + j, v) == Rfc1321.Chain(z, r, x, y)
  {
    hide Rfc1321.Operation, Rfc1321.T3, Rfc1321.Index3, Rfc1321.Shift3, Md5Step, Add, F3, Rfc1321.H;
    F3IsH(x.bits, y.bits, z.bits);
    r := Md5Step(Word(F3(x.bits, y.bits, z.bits)), w, x, data, s);
    StepIsOperation(inp, 32 + j, Rfc1321.Chain(w, x, y, z), Word(F3(x.bits, y.bits, z.bits)));
  }

  method Step4(w: Word, x: Word, y: Word, z: Word, data: Word, s: Amount,
               ghost inp: Rfc1321.Words, ghost j: nat, ghost v: Rfc1321.Chain)
    returns (r: Word)
    requires j < 16 && s == Rfc1321.Shift4(j)
    requires data == Add(inp[Rfc1321.Index4(j)], Rfc1321.T4(j))
    requires Rfc1321.Operations(inp, 48 + j, v) == Rfc1321.Chain(w, x, y, z)
    ensures Rfc1321.Operations(inp, 49 + j, v) == Rfc1321.Chain(z, r, x, y)
  {
    hide Rfc1321.Operation, Rfc1321.T4, Rfc1321.Index4, Rfc1321.Shift4, Md5Step, Add, F4, Rfc1321.I;
    F4IsI(x.bits, y.bits, z.bits);
    r := Md5Step(Word(F4(x.bits, y.bits, z.bits)), w, x, data, s);
    StepIsOperation(inp, 48 + j, Rfc1321.Chain(w, x, y, z), Word(F4(x.bits, y.bits, z.bits)));
  }

  ghost function Chain(buf: array<Word>): Rfc1321.Chain
    requires buf.Length == 4
    reads buf
  {
    Rfc1321.Chain(buf[0], buf[1], buf[2], buf[3])
  }

  /** Operations 0 to 15 of MD5Transform. */
  method Round1(inp: Rfc1321.Words, a0: Word, b0: Word, c0: Word, d0: Word, ghost v: Rfc1321.Chain)
    returns (a: Word, b: Word, c: Word, d: Word)
    requires Rfc1321.Operations(inp, 0, v) == Rfc1321.Chain(a0, b0, c0, d0)
    ensures Rfc1321.Operations(inp, 16, v) == Rfc1321.Chain(a, b, c, d)
  {
    hide Rfc1321.Operations, Add;
    a, b, c, d := a0, b0, c0, d0;
    a := Step1(a, b, c, d, Add(inp[0], Word(0xd76aa478)), 7, inp, 0, v);
    d := Step1(d, a, b, c, Add(inp[1], Word(0xe8c7b756)), 12, inp, 1, v);
    c := Step1(c, d, a, b, Add(inp[2], Word(0x242070db)), 17, inp, 2, v);
    b := Step1(b, c, d, a, Add(inp[3], Word(0xc1bdceee)), 22, inp, 3, v);
    a := Step1(a, b, c, d, Add(inp[4], Word(0xf57c0faf)), 7, inp, 4, v);
    d := Step1(d, a, b, c, Add(inp[5], Word(0x4787c62a)), 12, inp, 5, v);
    c := Step1(c, d, a, b, Add(inp[6], Word(0xa8304613)), 17, inp, 6, v);
    b := Step1(b, c, d, a, Add(inp[7], Word(0xfd469501)), 22, inp, 7, v);
    a := Step1(a, b, c, d, Add(inp[8], Word(0x698098d8)), 7, inp, 8, v);
    d := Step1(d, a, b, c, Add(inp[9], Word(0x8b44f7af)), 12, inp, 9, v);
    c := Step1(c, d, a, b, Add(inp[10], Word(0xffff5bb1)), 17, inp, 10, v);
    b := Step1(b, c, d, a, Add(inp[11], Word(0x895cd7be)), 22, inp, 11, v);
    a := Step1(a, b, c, d, Add(inp[12], Word(0x6b901122)), 7, inp, 12, v);
    d := Step1(d, a, b, c, Add(inp[13], Word(0xfd987193)), 12, inp, 13, v);
    c := Step1(c, d, a, b, Add(inp[14], Word(0xa679438e)), 17, inp, 14, v);
    b := Step1(b, c, d, a, Add(inp[15], Word(0x49b40821)), 22, inp, 15, v);
  }

  /** Operations 16 to 31 of MD5Transform. */
  method Round2(inp: Rfc1321.Words, a0: Word, b0: Word, c0: Word, d0: Word, ghost v: Rfc1321.Chain)
    returns (a: Word, b: Word, c: Word, d: Word)
    requires Rfc1321.Operations(inp, 16, v) == Rfc1321.Chain(a0, b0, c0, d0)
    ensures Rfc1321.Operations(inp, 32, v) == Rfc1321.Chain(a, b, c, d)
  {
    hide Rfc1321.Operations, Add;
    a, b, c, d := a0, b0, c0, d0;
    a := Step2(a, b, c, d, Add(inp[1], Word(0xf61e2562)), 5, inp, 0, v);
    d := Step2(d, a, b, c, Add(inp[6], Word(0xc040b340)), 9, inp, 1, v);
    c := Step2(c, d, a, b, Add(inp[11], Word(0x265e5a51)), 14, inp, 2, v);
    b := Step2(b, c, d, a, Add(inp[0], Word(0xe9b6c7aa)), 20, inp, 3, v);
    a := Step2(a, b, c, d, Add(inp[5], Word(0xd62f105d)), 5, inp, 4, v);
    d := Step2(d, a, b, c, Add(inp[10], Word(0x02441453)), 9, inp, 5, v);
    c := Step2(c, d, a, b, Add(inp[15], Word(0xd8a1e681)), 14, inp, 6, v);
    b := Step2(b, c, d, a, Add(inp[4], Word(0xe7d3fbc8)), 20, inp, 7, v);
    a := Step2(a, b, c, d, Add(inp[9], Word(0x21e1cde6)), 5, inp, 8, v);
    d := Step2(d, a, b, c, Add(inp[14], Word(0xc33707d6)), 9, inp, 9, v);
    c := Step2(c, d, a, b, Add(inp[3], Word(0xf4d50d87)), 14, inp, 10, v);
    b := Step2(b, c, d, a, Add(inp[8], Word(0x455a14ed)), 20, inp, 11, v);
    a := Step2(a, b, c, d, Add(inp[13], Word(0xa9e3e905)), 5, inp, 12, v);
    d := Step2(d, a, b, c, Add(inp[2], Word(0xfcefa3f8)), 9, inp, 13, v);
    c := Step2(c, d, a, b, Add(inp[7], Word(0x676f02d9)), 14, inp, 14, v);
    b := Step2(b, c, d, a, Add(inp[12], Word(0x8d2a4c8a)), 20, inp, 15, v);
  }

  /** Operations 32 to 47 of MD5Transform. */
  method Round3(inp: Rfc1321.Words, a0: Word, b0: Word, c0: Word, d0: Word, ghost v: Rfc1321.Chain)
    returns (a: Word, b: Word, c: Word, d: Word)
    requires Rfc1321.Operations(inp, 32, v) == Rfc1321.Chain(a0, b0, c0, d0)
    ensures Rfc1321.Operations(inp, 48, v) == Rfc1321.Chain(a, b, c, d)
  {
    hide Rfc1321.Operations, Add;
    a, b, c, d := a0, b0, c0, d0;
    a := Step3(a, b, c, d, Add(inp[5], Word(0xfffa3942)), 4, inp, 0, v);
    d := Step3(d, a, b, c, Add(inp[8], Word(0x8771f681)), 11, inp, 1, v);
    c := Step3(c, d, a, b, Add(inp[11], Word(0x6d9d6122)), 16, inp, 2, v);
    b := Step3(b, c, d, a, Add(inp[14], Word(0xfde5380c)), 23, inp, 3, v);
    a := Step3(a, b, c, d, Add(inp[1], Word(0xa4beea44)), 4, inp, 4, v);
    d := Step3(d, a, b, c, Add(inp[4], Word(0x4bdecfa9)), 11, inp, 5, v);
    c := Step3(c, d, a, b, Add(inp[7], Word(0xf6bb4b60)), 16, inp, 6, v);
    b := Step3(b, c, d, a, Add(inp[10], Word(0xbebfbc70)), 23, inp, 7, v);
    a := Step3(a, b, c, d, Add(inp[13], Word(0x289b7ec6)), 4, inp, 8, v);
    d := Step3(d, a, b, c, Add(inp[0], Word(0xeaa127fa)), 11, inp, 9, v);
    c := Step3(c, d, a, b, Add(inp[3], Word(0xd4ef3085)), 16, inp, 10, v);
    b := Step3(b, c, d, a, Add(inp[6], Word(0x04881d05)), 23, inp, 11, v);
    a := Step3(a, b, c, d, Add(inp[9], Word(0xd9d4d039)), 4, inp, 12, v);
    d := Step3(d, a, b, c, Add(inp[12], Word(0xe6db99e5)), 11, inp, 13, v);
    c := Step3(c, d, a, b, Add(inp[15], Word(0x1fa27cf8)), 16, inp, 14, v);
    b := Step3(b, c, d, a, Add(inp[2], Word(0xc4ac5665)), 23, inp, 15, v);
  }

  /** Operations 48 to 63 of MD5Transform. */
  method Round4(inp: Rfc1321.Words, a0: Word, b0: Word, c0: Word, d0: Word, ghost v: Rfc1321.Chain)
    returns (a: Word, b: Word, c: Word, d: Word)
    requires Rfc1321.Operations(inp, 48, v) == Rfc1321.Chain(a0, b0, c0, d0)
    ensures Rfc1321.Operations(inp, 64, v) == Rfc1321.Chain(a, b, c, d)
  {
    hide Rfc1321.Operations, Add;
    a, b, c, d := a0, b0, c0, d0;
    a := Step4(a, b, c, d, Add(inp[0], Word(0xf4292244)), 6, inp, 0, v);
    d := Step4(d, a, b, c, Add(inp[7], Word(0x432aff97)), 10, inp, 1, v);
    c := Step4(c, d, a, b, Add(inp[14], Word(0xab9423a7)), 15, inp, 2, v);
    b := Step4(b, c, d, a, Add(inp[5], Word(0xfc93a039)), 21, inp, 3, v);
    a := Step4(a, b, c, d, Add(inp[12], Word(0x655b59c3)), 6, inp, 4, v);
    d := Step4(d, a, b, c, Add(inp[3], Word(0x8f0ccc92)), 10, inp, 5, v);
    c := Step4(c, d, a, b, Add(inp[10], Word(0xffeff47d)), 15, inp, 6, v);
    b := Step4(b, c, d, a, Add(inp[1], Word(0x85845dd1)), 21, inp, 7, v);
    a := Step4(a, b, c, d, Add(inp[8], Word(0x6fa87e4f)), 6, inp, 8, v);
    d := Step4(d, a, b, c, Add(inp[15], Word(0xfe2ce6e0)), 10, inp, 9, v);
    c := Step4(c, d, a, b, Add(inp[6], Word(0xa3014314)), 15, inp, 10, v);
    b := Step4(b, c, d, a, Add(inp[13], Word(0x4e0811a1)), 21, inp, 11, v);
    a := Step4(a, b, c, d, Add(inp[4], Word(0xf7537e82)), 6, inp, 12, v);
    d := Step4(d, a, b, c, Add(inp[11], Word(0xbd3af235)), 10, inp, 13, v);
    c := Step4(c, d, a, b, Add(inp[2], Word(0x2ad7d2bb)), 15, inp, 14, v);
    b := Step4(b, c, d, a, Add(inp[9], Word(0xeb86d391)), 21, inp, 15, v);
  }

  method MD5Transform(buf: array<Word>, inp: Rfc1321.Words)
    requires buf.Length == 4
    modifies buf
    ensures Chain(buf) == Rfc1321.CompressWords(old(Chain(buf)), inp)
  {
    ghost var v := Chain(buf);
    assert Rfc1321.Operations(inp, 0, v) == v;
    hide Rfc1321.Operations, Add;
    var a, b, c, d := buf[0], buf[1], buf[2], buf[3];
    a, b, c, d := Round1(inp, a, b, c, d, v);
    a, b, c, d := Round2(inp, a, b, c, d, v);
    a, b, c, d := Round3(inp, a, b, c, d, v);
    a, b, c, d := Round4(inp, a, b, c, d, v);
    buf[0] := Add(buf[0], a);
    buf[1] := Add(buf[1], b);
    buf[2] := Add(buf[2], c);
    buf[3] := Add(buf[3], d);
  }

  /** The sixteen words of a 64-byte buffer read as uint32_t. */
  function WordsOf(inb: array<Byte>): Rfc1321.Words
    requires inb.Length == 64
    reads inb
  {
    Rfc1321.BlockWords(inb[..])
  }

  class MD5Context {
    const buf: array<Word>   // four words
    var bits0: nat           // two 32-bit halves of the 64-bit count of message bits
    var bits1: nat
    const inb: array<Byte>   // 64 bytes
    ghost var absorbed: seq<Byte>  // the message so far

    ghost predicate Valid()
      reads this, buf, inb
    {
      && Sized()
      && BitCount(bits0, bits1, |absorbed|)
      && Chained(absorbed[..Full(|absorbed|)])
      && inb[..|absorbed| % 64] == absorbed[Full(|absorbed|)..]
    }

    ghost predicate Sized()
      reads this
    {
      buf.Length == 4 && inb.Length == 64
    }

    /** buf holds the hash value of `data`. */
    ghost predicate Chained(data: seq<Byte>)
      reads buf
    {
      buf.Length == 4 && |data| % 64 == 0 && Chain(buf) == Rfc1321.HashValue(data)
    }

    lemma ChainIs(data: seq<Byte>)
      requires Chained(data)
      ensures buf.Length == 4 && |data| % 64 == 0 && Chain(buf) == Rfc1321.HashValue(data)
    {
    }

    constructor ()
      ensures Valid() && absorbed == []
      ensures fresh(buf) && fresh(inb)
    {
      buf := new Word[4];
      inb := new Byte[64];
      new;
      MD5Init();
    }

    /** A context with the fields of the other. */
    constructor CopyOf(context: MD5Context)
      requires context.Valid()
      ensures Valid() && absorbed == context.absorbed
      ensures fresh(buf) && fresh(inb)
    {
      buf := new Word[4];
      inb := new Byte[64];
      bits0, bits1, absorbed := context.bits0, context.bits1, context.absorbed;
      new;
      forall i | 0 <= i < 4 { buf[i] := context.buf[i]; }
      forall i | 0 <= i < 64 { inb[i] := context.inb[i]; }
      assert inb[..] == context.inb[..];
    }

    method MD5Init()
      requires Sized()
      modifies this, buf
      ensures Valid() && absorbed == []
    {
      buf[0] := Word(0x67452301);
      buf[1] := Word(0xefcdab89);
      buf[2] := Word(0x98badcfe);
      buf[3] := Word(0x10325476);
      bits0 := 0;
      bits1 := 0;
      absorbed := [];
    }

    /** Puts the bytes into the buffer from `at` on. */
    method Copy(at: nat, data: seq<Byte>)
      requires Sized() && at + |data| <= 64
      modifies inb
      ensures inb[..at] == old(inb[..at])
      ensures inb[at..at + |data|] == data
      ensures inb[at + |data|..] == old(inb[at + |data|..])
    {
      forall i | 0 <= i < |data| {
        inb[at + i] := data[i];
      }
    }

    /** Folds the full buffer into the chain. */
    method TransformBuffer(ghost data: seq<Byte>)
      requires Sized() && Chained(data)
      modifies buf
      ensures Chained(data + inb[..])
    {
      hide Rfc1321.CompressWords;
      MD5Transform(buf, WordsOf(inb));
      FoldOneMore(Rfc1321.Compress, Rfc1321.INITIAL, data, inb[..]);
    }

    /** The first section of MD5Update; t is the old low half. */
    method UpdateBitCount(len: nat, ghost before: nat) returns (t: nat)
      requires BitCount(bits0, bits1, before)
      modifies `bits0, `bits1
      ensures BitCount(bits0, bits1, before + len)
      ensures (t / 8) % 64 == before % 64
    {
      t := bits0;
      bits0 := (t + (len % TWO_TO_THE_32 * 8) % TWO_TO_THE_32) % TWO_TO_THE_32;
      if bits0 < t {
        bits1 := (bits1 + 1) % TWO_TO_THE_32;
      }
      bits1 := (bits1 + (len / 0x2000_0000) % TWO_TO_THE_32) % TWO_TO_THE_32;
      CountGrows(t, old(bits1), bits0, bits1, before, len);
      BytesBuffered(t, old(bits1), before);
    }

    method MD5Update(data: seq<Byte>)
      requires Valid()
      modifies this, buf, inb
      ensures Valid() && absorbed == old(absorbed) + data
    {
      hide Chained, BitCount, Full;
      var pos, len := 0, |data|;
      ghost var m := absorbed;
      var t := UpdateBitCount(len, |m|);
      absorbed := m + data;

      t := (t / 8) % 64;  // how far inb is filled
      if t != 0 {
        var need := 64 - t;
        if len < need {
          BufferAll(data, t, m);
          return;
        }
        FillBuffer(data[..need], t, m);
        pos := need;
        len := len - need;
      } else {
        assert m[..Full(|m|)] == m + data[..0];
      }
      UpdateBlocks(data, pos, len, m);
    }

    /** Bytes that do not fill the block whose first t bytes are in inb. */
    method BufferAll(data: seq<Byte>, t: nat, ghost m: seq<Byte>)
      requires Sized() && BitCount(bits0, bits1, |absorbed|) && absorbed == m + data
      requires t == |m| % 64 && t + |data| < 64
      requires Chained(m[..Full(|m|)]) && inb[..t] == m[Full(|m|)..]
      modifies inb
      ensures Valid()
    {
      hide Chained, BitCount, Full;
      Copy(t, data);
      SameBlock(m, data);
      assert inb[..t + |data|] == inb[..t] + inb[t..t + |data|];
    }

    /** The rest of a block whose first t bytes are in inb. */
    method FillBuffer(data: seq<Byte>, t: nat, ghost m: seq<Byte>)
      requires Sized() && t + |data| == 64 && t == |m| % 64
      requires Chained(m[..Full(|m|)]) && inb[..t] == m[Full(|m|)..]
      modifies buf, inb
      ensures Chained(m + data)
    {
      hide Chained, BitCount, Full;
      Copy(t, data);
      assert inb[..] == inb[..t] + inb[t..t + |data|];
      TransformBuffer(m[..Full(|m|)]);
      Regroup(m, Full(|m|), data);
    }

    /** One whole block. */
    method UpdateBlock(data: seq<Byte>, pos: nat, ghost m: seq<Byte>)
      requires Sized() && pos + 64 <= |data| && Chained(m + data[..pos])
      modifies buf, inb
      ensures Chained(m + data[..pos + 64])
    {
      hide Chained, BitCount, Full;
      Copy(0, data[pos..pos + 64]);
      assert inb[..] == data[pos..pos + 64];
      TransformBuffer(m + data[..pos]);
      Extend(m, data, pos);
    }

    /** The last two sections of MD5Update: whole blocks, then what remains. */
    method UpdateBlocks(data: seq<Byte>, start: nat, length: nat, ghost m: seq<Byte>)
      requires Sized() && BitCount(bits0, bits1, |absorbed|) && absorbed == m + data
      requires start + length == |data| && (|m| + start) % 64 == 0 && Chained(m + data[..start])
      modifies buf, inb
      ensures Valid()
    {
      hide Chained, BitCount, Full;
      var pos, len := start, length;
      while len >= 64
        invariant pos + len == |data|
        invariant Chained(m + data[..pos]) && (|m| + pos) % 64 == 0
      {
        UpdateBlock(data, pos, m);
        pos := pos + 64;
        len := len - 64;
      }
      Copy(0, data[pos..]);
      Remaining(m, data, pos);
    }

    method MD5Final() returns (digest: seq<Byte>)
      requires Valid()
      modifies this, buf, inb
      ensures digest == Rfc1321.Digest(old(absorbed))
      ensures Wiped()
    {
      hide Chained;
      ghost var m := absorbed;
      ghost var done := m[..Full(|m|)];
      BytesBuffered(bits0, bits1, |m|);
      var count := (bits0 / 8) % 64;
      Copy(count, [0x80]);
      var p := count + 1;
      count := 64 - 1 - count;
      assert inb[..p] == m[Full(|m|)..] + [0x80];
      if count < 8 {
        // the length goes into the next block
        Copy(p, Zeros(count));
        ghost var first := m[Full(|m|)..] + [0x80] + Zeros(count);
        assert inb[..] == first;
        TransformBuffer(done);
        done := done + first;
        Copy(0, Zeros(56));
        assert done + inb[..56] == m + Filler(|m|) by { TwoLots(m, count); }
      } else {
        Copy(p, Zeros(count - 8));
        assert inb[..56] == m[Full(|m|)..] + [0x80] + Zeros(count - 8);
        assert done + inb[..56] == m + Filler(|m|) by { OneLot(m, count); }
      }
      digest := FinishDigest(m, done);
    }

    /** The length goes into the last eight bytes. */
    method PutLength(ghost m: seq<Byte>, ghost done: seq<Byte>)
      requires Sized() && BitCount(bits0, bits1, |m|)
      requires done + inb[..56] == m + Filler(|m|)
      modifies inb
      ensures done + inb[..] == Rfc1321.Pad(m)
    {
      hide CountByte, BitCount, Filler;
      ghost var len := Rfc1321.LittleEndianLength(8 * |m|);
      Copy(56, [CountByte(bits0, 0), CountByte(bits0, 1), CountByte(bits0, 2), CountByte(bits0, 3)]);
      assert inb[..56] == old(inb[..56]);
      Copy(60, [CountByte(bits1, 0), CountByte(bits1, 1), CountByte(bits1, 2), CountByte(bits1, 3)]);
      LengthHalves(bits0, bits1, |m|);
      assert inb[..] == old(inb[..56]) + len;
      Sequences.Assoc(done, old(inb[..56]), len);
    }

    /** The common tail of MD5Final: length, last transform, digest, wipe. */
    method FinishDigest(ghost m: seq<Byte>, ghost done: seq<Byte>) returns (digest: seq<Byte>)
      requires Sized() && BitCount(bits0, bits1, |m|) && Chained(done)
      requires done + inb[..56] == m + Filler(|m|)
      modifies this, buf, inb
      ensures digest == Rfc1321.Digest(m)
      ensures Wiped()
    {
      hide CountByte, BitCount, Chained, Filler, Wiped, Rfc1321.HashValue, Rfc1321.Pad;
      PutLength(m, done);
      TransformBuffer(done);
      ChainIs(Rfc1321.Pad(m));
      digest := WordBytes(buf[0]) + WordBytes(buf[1]) + WordBytes(buf[2]) + WordBytes(buf[3]);
      Wipe();
    }

    /** Clears the context. */
    method Wipe()
      requires Sized()
      modifies this, buf, inb
      ensures Wiped()
    {
      bits0, bits1 := 0, 0;
      forall i | 0 <= i < 4 { buf[i] := Word(0); }
      forall i | 0 <= i < 64 { inb[i] := 0; }
    }

    predicate Wiped()
      reads this, buf, inb
    {
      && bits0 == bits1 == 0
      && buf[..] == seq(buf.Length, i => Word(0))
      && inb[..] == seq(inb.Length, i => 0)
    }
  }

  function Full(n: nat): (f: nat)
    ensures f <= n && f % 64 == 0 && n - f == n % 64
  {
    n - n % 64
  }

  /** The two halves hold the number of bits in n bytes, modulo 2^64. */
  ghost predicate BitCount(bits0: nat, bits1: nat, n: nat) {
    && bits0 < TWO_TO_THE_32 && bits1 < TWO_TO_THE_32
    && bits0 + bits1 * TWO_TO_THE_32 == (8 * n) % TWO_TO_THE_64
  }

  lemma BytesBuffered(bits0: nat, bits1: nat, n: nat)
    requires BitCount(bits0, bits1, n)
    ensures (bits0 / 8) % 64 == n % 64
  {
  }

  lemma {:induction false} CountGrows(t: nat, high: nat, bits0: nat, bits1: nat, n: nat, len: nat)
    requires BitCount(t, high, n)
    requires bits0 == (t + (len % TWO_TO_THE_32 * 8) % TWO_TO_THE_32) % TWO_TO_THE_32
    requires var carried := if bits0 < t then (high + 1) % TWO_TO_THE_32 else high;
             bits1 == (carried + (len / 0x2000_0000) % TWO_TO_THE_32) % TWO_TO_THE_32
    ensures BitCount(bits0, bits1, n + len)
  {
    var x, y := len % 0x2000_0000, len / 0x2000_0000;
    LowHalf(len, x, y);
    var carry := if bits0 < t then 1 else 0;
    LowSum(t, 8 * x, bits0);
    HighSum(high, carry, y, bits1);
    var k := (high + carry + y) / TWO_TO_THE_32;
    var j := (8 * n) / TWO_TO_THE_64;
    HalvesSum(t, high, n, len, bits0, bits1, x, y, carry, j, k);
    Remainder(8 * (n + len), bits0 + bits1 * TWO_TO_THE_32, j + k);
  }

  lemma LowSum(t: nat, u: nat, low: nat)
    requires t < TWO_TO_THE_32 && u < TWO_TO_THE_32 && low == (t + u) % TWO_TO_THE_32
    ensures low == t + u - (if low < t then TWO_TO_THE_32 else 0)
  {
  }

  lemma HighSum(high: nat, carry: nat, y: nat, sum: nat)
    requires high < TWO_TO_THE_32 && carry <= 1
    requires sum == ((if carry == 1 then (high + 1) % TWO_TO_THE_32 else high) + y % TWO_TO_THE_32) % TWO_TO_THE_32
    ensures sum == (high + carry + y) % TWO_TO_THE_32
  {
    var yq := y / TWO_TO_THE_32;
    assert y == y % TWO_TO_THE_32 + yq * TWO_TO_THE_32;
  }

  lemma HalvesSum(t: nat, high: nat, n: nat, len: nat, bits0: nat, bits1: nat, x: nat, y: nat, carry: nat, j: nat,
      k: nat)
    requires t + high * TWO_TO_THE_32 == 8 * n - j * TWO_TO_THE_64
    requires len == x + 0x2000_0000 * y
    requires bits0 == t + 8 * x - carry * TWO_TO_THE_32
    requires bits1 == high + carry + y - k * TWO_TO_THE_32
    ensures bits0 + bits1 * TWO_TO_THE_32 == 8 * (n + len) - (j + k) * TWO_TO_THE_64
  {
  }

  lemma LowHalf(len: nat, x: nat, y: nat)
    requires x == len % 0x2000_0000 && y == len / 0x2000_0000
    ensures (len % TWO_TO_THE_32 * 8) % TWO_TO_THE_32 == 8 * x
  {
    assert len % TWO_TO_THE_32 == x + 0x2000_0000 * (y % 8);
  }

  lemma Remainder(total: nat, rest: nat, k: int)
    requires rest < TWO_TO_THE_64 && rest == total - k * TWO_TO_THE_64
    ensures total % TWO_TO_THE_64 == rest
  {
  }

  lemma LengthHalves(bits0: nat, bits1: nat, n: nat)
    requires BitCount(bits0, bits1, n)
    ensures Rfc1321.LittleEndianLength(8 * n)
         == [CountByte(bits0, 0), CountByte(bits0, 1), CountByte(bits0, 2), CountByte(bits0, 3)]
          + [CountByte(bits1, 0), CountByte(bits1, 1), CountByte(bits1, 2), CountByte(bits1, 3)]
  {
    hide CountByte;
    var l := bits0 + bits1 * TWO_TO_THE_32;
    LowByte(bits0, bits1, l, 0);
    LowByte(bits0, bits1, l, 1);
    LowByte(bits0, bits1, l, 2);
    LowByte(bits0, bits1, l, 3);
    HighByte(bits0, bits1, l, 0);
    HighByte(bits0, bits1, l, 1);
    HighByte(bits0, bits1, l, 2);
    HighByte(bits0, bits1, l, 3);
  }

  lemma LowByte(bits0: nat, bits1: nat, l: nat, k: nat)
    requires k < 4 && bits0 < TWO_TO_THE_32 && l == bits0 + bits1 * TWO_TO_THE_32
    ensures CountByte(l, k) == CountByte(bits0, k)
  {
    SameResidue(bits0, l, bits1 * 0x100_0000);
    if k == 1 {
      assert l / 0x100 == bits0 / 0x100 + bits1 * 0x100_0000;
      SameResidue(bits0 / 0x100, l / 0x100, bits1 * 0x1_0000);
    } else if k == 2 {
      assert l / 0x1_0000 == bits0 / 0x1_0000 + bits1 * 0x1_0000;
      SameResidue(bits0 / 0x1_0000, l / 0x1_0000, bits1 * 0x100);
    } else if k == 3 {
      assert l / 0x100_0000 == bits0 / 0x100_0000 + bits1 * 0x100;
      SameResidue(bits0 / 0x100_0000, l / 0x100_0000, bits1);
    }
  }

  lemma SameResidue(x: nat, y: nat, k: nat)
    requires y == x + k * 256
    ensures y % 256 == x % 256
  {
  }

  lemma HighByte(bits0: nat, bits1: nat, l: nat, k: nat)
    requires k < 4 && bits0 < TWO_TO_THE_32 && l == bits0 + bits1 * TWO_TO_THE_32
    ensures CountByte(l, k + 4) == CountByte(bits1, k)
  {
    if k == 0 {
      assert l / TWO_TO_THE_32 == bits1;
    } else if k == 1 {
      assert l / 0x100_0000_0000 == bits1 / 0x100;
    } else if k == 2 {
      assert l / 0x1_0000_0000_0000 == bits1 / 0x1_0000;
    } else {
      assert l / 0x100_0000_0000_0000 == bits1 / 0x100_0000;
    }
  }

  lemma Extend(m: seq<Byte>, data: seq<Byte>, pos: nat)
    requires pos + 64 <= |data|
    ensures m + data[..pos] + data[pos..pos + 64] == m + data[..pos + 64]
  {
  }

  lemma Remaining(m: seq<Byte>, data: seq<Byte>, pos: nat)
    requires pos <= |data| < pos + 64 && (|m| + pos) % 64 == 0
    ensures Full(|m + data|) == |m| + pos && |m + data| % 64 == |data| - pos
    ensures (m + data)[..|m| + pos] == m + data[..pos]
    ensures (m + data)[|m| + pos..] == data[pos..]
  {
  }

  lemma Regroup(m: seq<Byte>, k: nat, more: seq<Byte>)
    requires k <= |m|
    ensures m[..k] + (m[k..] + more) == m + more
  {
  }

  lemma SameBlock(m: seq<Byte>, data: seq<Byte>)
    requires |m| % 64 + |data| < 64
    ensures Full(|m + data|) == Full(|m|)
    ensures (m + data)[..Full(|m|)] == m[..Full(|m|)]
    ensures (m + data)[Full(|m|)..] == m[Full(|m|)..] + data
  {
  }

  lemma TwoLots(m: seq<Byte>, count: nat)
    requires count == 63 - |m| % 64 && count < 8
    ensures m[..Full(|m|)] + (m[Full(|m|)..] + [0x80] + Zeros(count)) + Zeros(56) == m + Filler(|m|)
  {
    assert Zeros(count) + Zeros(56) == Zeros((55 - |m|) % 64);
  }

  lemma OneLot(m: seq<Byte>, count: nat)
    requires count == 63 - |m| % 64 && count >= 8
    ensures m[..Full(|m|)] + (m[Full(|m|)..] + [0x80] + Zeros(count - 8)) == m + Filler(|m|)
  {
    assert count - 8 == (55 - |m|) % 64;
  }

  method MD5IntermediateFinal(context: MD5Context) returns (digest: seq<Byte>)
    requires context.Valid()
    ensures digest == Rfc1321.Digest(context.absorbed)
    ensures unchanged(context) && unchanged(context.buf) && unchanged(context.inb)
  {
    var contextCopy := new MD5Context.CopyOf(context);
    digest := contextCopy.MD5Final();
  }

  method MD5Sum(data: seq<Byte>) returns (digest: seq<Byte>)
    ensures digest == Rfc1321.Digest(data)
  {
    var ctx := new MD5Context();
    ctx.MD5Update(data);
    assert ctx.absorbed == data;
    digest := ctx.MD5Final();
  }

  /** MD5Init, MD5Update as often as needed, MD5Final. */
  method MD5InPieces(pieces: seq<seq<Byte>>) returns (digest: seq<Byte>)
    ensures digest == Rfc1321.Digest(Concat(pieces))
  {
    var ctx := new MD5Context();
    var i := 0;
    while i < |pieces|
      invariant i <= |pieces| && fresh(ctx) && fresh(ctx.buf) && fresh(ctx.inb)
      invariant ctx.Valid() && ctx.absorbed == Concat(pieces[..i])
    {
      ctx.MD5Update(pieces[i]);
      ConcatSnoc(pieces, i);
      i := i + 1;
    }
    assert pieces[..|pieces|] == pieces;
    digest := ctx.MD5Final();
  }
}
