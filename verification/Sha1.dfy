/** The hash computation of FIPS PUB 180-3, section by section. */
module Fips180 {
  import opened BlockHash

  /** The working variables, and equally the hash value, of section 6.1.2. */
  datatype Vars = Vars(a: Word, b: Word, c: Word, d: Word, e: Word)

  // Section 4.1.1
  function Ch(x: bv32, y: bv32, z: bv32): bv32 { (x & y) ^ (!x & z) }
  function Parity(x: bv32, y: bv32, z: bv32): bv32 { x ^ y ^ z }
  function Maj(x: bv32, y: bv32, z: bv32): bv32 { (x & y) ^ (x & z) ^ (y & z) }

  function Ft(t: nat, x: bv32, y: bv32, z: bv32): bv32 {
    if t < 20 then Ch(x, y, z) else if 40 <= t < 60 then Maj(x, y, z) else Parity(x, y, z)
  }

  // Section 4.2.1
  function Kt(t: nat): Word {
    if t < 20 then Word(0x5a827999) else if t < 40 then Word(0x6ed9eba1)
    else if t < 60 then Word(0x8f1bbcdc) else Word(0xca62c1d6)
  }

  // Section 5.3.1
  const INITIAL := Vars(Word(0x67452301), Word(0xefcdab89), Word(0x98badcfe), Word(0x10325476), Word(0xc3d2e1f0))

  // Section 5.1.1, for messages of whole bytes
  function Pad(message: seq<Byte>): (padded: seq<Byte>)
    ensures |padded| % 64 == 0
  {
    message + Filler(|message|) + BigEndianLength(8 * |message|)
  }

  function BigEndianLength(bits: nat): (bytes: seq<Byte>)
    ensures |bytes| == 8
  {
    var l := bits % TWO_TO_THE_64;
    [CountByte(l, 7), CountByte(l, 6), CountByte(l, 5), CountByte(l, 4),
     CountByte(l, 3), CountByte(l, 2), CountByte(l, 1), CountByte(l, 0)]
  }

  // Section 5.2.1
  function MessageWord(m: Block, t: nat): Word
    requires t < 16
  {
    BigEndian(m[4 * t], m[4 * t + 1], m[4 * t + 2], m[4 * t + 3])
  }

  // Section 6.1.2, steps 1 to 4
  function Wt(m: Block, t: nat): Word {
    if t < 16 then MessageWord(m, t)
    else RotateLeft(1, Xor4(Wt(m, t - 3), Wt(m, t - 8), Wt(m, t - 14), Wt(m, t - 16)))
  }

  function Step(t: nat, w: Word, v: Vars): Vars {
    Vars(Sum5(RotateLeft(5, v.a), Word(Ft(t, v.b.bits, v.c.bits, v.d.bits)), v.e, Kt(t), w),
         v.a, RotateLeft(30, v.b), v.c, v.d)
  }

  function Steps(m: Block, count: nat, v: Vars): Vars {
    if count == 0 then v else Step(count - 1, Wt(m, count - 1), Steps(m, count - 1, v))
  }

  function Compress(h: Vars, m: Block): Vars {
    var v := Steps(m, 80, h);
    Vars(Add(v.a, h.a), Add(v.b, h.b), Add(v.c, h.c), Add(v.d, h.d), Add(v.e, h.e))
  }

  function HashValue(data: seq<Byte>): Vars
    requires |data| % 64 == 0
  {
    Fold(Compress, INITIAL, data)
  }

  function BigEndianBytes(w: Word): (bytes: seq<Byte>)
    ensures |bytes| == 4
  {
    [ByteOf(w.bits, 3), ByteOf(w.bits, 2), ByteOf(w.bits, 1), ByteOf(w.bits, 0)]
  }

  function Digest(message: seq<Byte>): (digest: seq<Byte>)
    ensures |digest| == 20
  {
    VarsBytes(HashValue(Pad(message)))
  }

  function VarsBytes(h: Vars): (bytes: seq<Byte>)
    ensures |bytes| == 20
  {
    BigEndianBytes(h.a) + BigEndianBytes(h.b) + BigEndianBytes(h.c) + BigEndianBytes(h.d) + BigEndianBytes(h.e)
  }
}

/** base/sha1_portable.cc on a little-endian machine. */
module Sha1 {
  import WordValues
  import opened BlockHash
  import Fips180

  /** The round functions as the code writes them, with OR where the standard has XOR. */
  function F(t: nat, b: bv32, c: bv32, d: bv32): bv32 {
    if t < 20 then (b & c) | (!b & d)
    else if t < 40 then b ^ c ^ d
    else if t < 60 then (b & c) | (b & d) | (c & d)
    else b ^ c ^ d
  }

  lemma ChWithOr(x: bv32, y: bv32, z: bv32)
    ensures ((x & y) | (!x & z)) == Fips180.Ch(x, y, z)
  {}

  lemma MajWithOr(x: bv32, y: bv32, z: bv32)
    ensures ((x & y) | (x & z) | (y & z)) == Fips180.Maj(x, y, z)
  {}

  lemma FIsStandard(t: nat, b: bv32, c: bv32, d: bv32)
    ensures F(t, b, c, d) == Fips180.Ft(t, b, c, d)
  {
    hide Fips180.Ch, Fips180.Maj;
    ChWithOr(b, c, d);
    MajWithOr(b, c, d);
  }

  function K(t: nat): Word {
    if t < 20 then Word(0x5a827999)
    else if t < 40 then Word(0x6ed9eba1)
    else if t < 60 then Word(0x8f1bbcdc)
    else Word(0xca62c1d6)
  }

  function SwapEnds(t: bv32): bv32 {
    (t >> 24) | ((t >> 8) & 0xff00) | ((t & 0xff00) << 8) | (t << 24)
  }

  lemma SwapEndsReads(b0: Byte, b1: Byte, b2: Byte, b3: Byte)
    ensures SwapEnds(Join(b0, b1, b2, b3)) == Join(b3, b2, b1, b0)
  {}

  lemma SwapEndsWrites(w: bv32)
    ensures ByteOf(SwapEnds(w), 0) == ByteOf(w, 3)
    ensures ByteOf(SwapEnds(w), 1) == ByteOf(w, 2)
    ensures ByteOf(SwapEnds(w), 2) == ByteOf(w, 1)
    ensures ByteOf(SwapEnds(w), 3) == ByteOf(w, 0)
  {}

  lemma AddendsSwap(v: Word, w: Word, x: Word, y: Word, z: Word)
    ensures Sum5(v, w, x, y, z) == Sum5(v, w, x, z, y)
  {
    hide Add;
    WordValues.AddSwaps(Add(Add(v, w), x), y, z);
  }

  lemma StepAgrees(t: nat, w: Word, v: Fips180.Vars)
    ensures Fips180.Step(t, w, v)
         == Fips180.Vars(Sum5(RotateLeft(5, v.a), Word(F(t, v.b.bits, v.c.bits, v.d.bits)), v.e, w, K(t)),
                         v.a, RotateLeft(30, v.b), v.c, v.d)
  {
    assert K(t) == Fips180.Kt(t);
    hide F, Fips180.Ft, RotateLeft, K, Fips180.Kt, Sum5;
    FIsStandard(t, v.b.bits, v.c.bits, v.d.bits);
    AddendsSwap(RotateLeft(5, v.a), Word(F(t, v.b.bits, v.c.bits, v.d.bits)), v.e, w, K(t));
  }

  lemma NothingHashed()
    ensures Fips180.HashValue([]) == Fips180.INITIAL
  {
  }

  class SecureHashAlgorithm {
    var A: Word
    var B: Word
    var C: Word
    var D: Word
    var E: Word
    const H: array<Word>     // five words
    const M: array<Byte>     // the union of W (80 words) and M (its first 64 bytes)
    var cursor: nat
    var l: nat               // 64-bit count of message bits
    ghost var absorbed: seq<Byte>  // every byte stored into M since Init, in order

    /** Everything absorbed is either folded into H or waiting in M below the cursor. */
    ghost predicate Valid()
      reads `cursor, `absorbed, H, M
    {
      && H.Length == 5 && M.Length == 320
      && cursor <= 64 && cursor <= |absorbed| && (|absorbed| - cursor) % 64 == 0
      && HashVars() == Fips180.HashValue(absorbed[..|absorbed| - cursor])
      && M[..cursor] == absorbed[|absorbed| - cursor..]
    }

    /** Between calls of Update: the whole of `absorbed` is message, and l counts its bits. */
    ghost predicate Absorbing()
      reads `cursor, `absorbed, `l, H, M
    {
      && Valid()
      && cursor < 64
      && l == (8 * |absorbed|) % TWO_TO_THE_64
    }

    ghost function HashVars(): Fips180.Vars
      requires H.Length == 5
      reads H
    {
      Fips180.Vars(H[0], H[1], H[2], H[3], H[4])
    }

    function W(t: nat): Word
      requires M.Length == 320 && t < 80
      reads M
    {
      LittleEndian(M[4 * t], M[4 * t + 1], M[4 * t + 2], M[4 * t + 3])
    }

    method StoreW(t: nat, w: Word)
      requires M.Length == 320 && t < 80
      modifies M
      ensures W(t) == w
      ensures forall i :: 0 <= i < 320 && !(4 * t <= i < 4 * t + 4) ==> M[i] == old(M[i])
    {
      StoreThenLoad(w.bits);
      M[4 * t], M[4 * t + 1], M[4 * t + 2], M[4 * t + 3] :=
        ByteOf(w.bits, 0), ByteOf(w.bits, 1), ByteOf(w.bits, 2), ByteOf(w.bits, 3);
    }

    constructor ()
      ensures Absorbing() && absorbed == []
      ensures fresh(H) && fresh(M)
    {
      H := new Word[5];
      M := new Byte[320];
      new;
      Init();
    }

    method Init()
      requires H.Length == 5 && M.Length == 320
      modifies this, H
      ensures Absorbing() && absorbed == []
    {
      NothingHashed();
      hide Fips180.HashValue, Fold;
      A := Word(0);
      B := Word(0);
      C := Word(0);
      D := Word(0);
      E := Word(0);
      cursor := 0;
      l := 0;
      H[0] := Word(0x67452301);
      H[1] := Word(0xefcdab89);
      H[2] := Word(0x98badcfe);
      H[3] := Word(0x10325476);
      H[4] := Word(0xc3d2e1f0);
      absorbed := [];
      assert HashVars() == Fips180.INITIAL;
      assert absorbed[..|absorbed| - cursor] == [] && M[..cursor] == [];
    }

    /** M[cursor++] = b */
    method Put(b: Byte)
      requires Valid() && cursor < 64
      modifies this`cursor, this`absorbed, M
      ensures Valid() && absorbed == old(absorbed) + [b] && cursor == old(cursor) + 1
    {
      M[cursor] := b;
      cursor := cursor + 1;
      absorbed := absorbed + [b];
      assert absorbed[..|absorbed| - cursor] == old(absorbed[..|absorbed| - cursor]);
    }

    method Update(data: seq<Byte>)
      requires Absorbing()
      modifies this, H, M
      ensures Absorbing() && absorbed == old(absorbed) + data
    {
      hide Valid;
      var d := 0;
      while d < |data|
        invariant d <= |data|
        invariant Absorbing() && absorbed == old(absorbed) + data[..d]
      {
        Put(data[d]);
        d := d + 1;
        if cursor >= 64 {
          Process();
        }
        l := (l + 8) % TWO_TO_THE_64;
        CountOneMore(|absorbed| - 1);
        assert data[..d] == data[..d - 1] + [data[d - 1]];
      }
    }

    method Pad()
      requires Absorbing()
      modifies this, H, M
      ensures Valid() && cursor == 64
      ensures absorbed == Fips180.Pad(old(absorbed))
    {
      hide Valid, CountByte, Padded;
      ghost var message := absorbed;
      ghost var zeros, start := 0, cursor;
      CursorIs();
      Put(0x80);
      PaddedStep(message, 0);
      if cursor > 64 - 8 {
        // no room left in this block for the length
        while cursor < 64
          invariant Valid() && l == old(l) && cursor <= 64
          invariant cursor == start + 1 + zeros
          invariant absorbed == Padded(message, zeros)
        {
          Put(0);
          PaddedStep(message, zeros);
          zeros := zeros + 1;
        }
        Process();
      }
      while cursor < 64 - 8
        invariant Valid() && l == old(l) && cursor <= 56
        invariant start + 1 + zeros == (if start > 55 then cursor + 64 else cursor)
        invariant absorbed == Padded(message, zeros)
      {
        Put(0);
        PaddedStep(message, zeros);
        zeros := zeros + 1;
      }
      PaddedFull(message, start, zeros);
      PutLength();
    }

    /** The tail of Pad: the 64-bit count, most significant byte first. */
    method PutLength()
      requires Valid() && cursor == 56
      modifies this`cursor, this`absorbed, M
      ensures Valid() && cursor == 64
      ensures absorbed == old(absorbed)
                       + [CountByte(l, 7), CountByte(l, 6), CountByte(l, 5), CountByte(l, 4),
                          CountByte(l, 3), CountByte(l, 2), CountByte(l, 1), CountByte(l, 0)]
    {
      hide Valid, CountByte;
      Put(CountByte(l, 7));
      Put(CountByte(l, 6));
      Put(CountByte(l, 5));
      Put(CountByte(l, 4));
      Put(CountByte(l, 3));
      Put(CountByte(l, 2));
      Put(CountByte(l, 1));
      Put(CountByte(l, 0));
      Grouped(old(absorbed), CountByte(l, 7), CountByte(l, 6), CountByte(l, 5), CountByte(l, 4),
              CountByte(l, 3), CountByte(l, 2), CountByte(l, 1), CountByte(l, 0));
    }

    lemma CursorIs()
      requires Valid() && cursor < 64
      ensures cursor == |absorbed| % 64
    {
    }

    method Process()
      requires Valid() && cursor == 64
      modifies this`A, this`B, this`C, this`D, this`E, this`cursor, H, M
      ensures Valid() && cursor == 0
    {
      hide Fips180.Compress;
      ghost var block: Block := absorbed[|absorbed| - 64..];
      ghost var done := absorbed[..|absorbed| - 64];
      SwapBlock(block);
      Expand(block);
      Mix(block);
      cursor := 0;
      FoldOneMore(Fips180.Compress, Fips180.INITIAL, done, block);
      assert absorbed == done + block && absorbed[..|absorbed|] == absorbed;
    }

    /** Step a of Process: the sixteen message words, byte-swapped where they lie. */
    method SwapBlock(ghost block: Block)
      requires M.Length == 320 && M[..64] == block
      modifies M
      ensures forall i :: 0 <= i < 16 ==> W(i) == Fips180.Wt(block, i)
    {
      var t := 0;
      while t < 16
        invariant t <= 16
        invariant forall i :: 0 <= i < t ==> W(i) == Fips180.Wt(block, i)
        invariant forall i :: 4 * t <= i < 64 ==> M[i] == block[i]
      {
        SwapEndsReads(M[4 * t], M[4 * t + 1], M[4 * t + 2], M[4 * t + 3]);
        StoreW(t, Word(SwapEnds(W(t).bits)));
        t := t + 1;
      }
    }

    /** Step b of Process: the message schedule, over the storage the block came from. */
    method Expand(ghost block: Block)
      requires M.Length == 320
      requires forall i :: 0 <= i < 16 ==> W(i) == Fips180.Wt(block, i)
      modifies M
      ensures forall i :: 0 <= i < 80 ==> W(i) == Fips180.Wt(block, i)
    {
      hide RotateLeft, Xor4, LittleEndian, Fips180.Wt;
      var t := 16;
      while t < 80
        invariant 16 <= t <= 80
        invariant forall i :: 0 <= i < t ==> W(i) == Fips180.Wt(block, i)
      {
        WtIs(block, t);
        StoreW(t, RotateLeft(1, Xor4(W(t - 3), W(t - 8), W(t - 14), W(t - 16))));
        t := t + 1;
      }
    }

    /** Steps c, d and e of Process. */
    method Mix(ghost block: Block)
      requires H.Length == 5 && M.Length == 320
      requires forall i :: 0 <= i < 80 ==> W(i) == Fips180.Wt(block, i)
      modifies this`A, this`B, this`C, this`D, this`E, H
      ensures HashVars() == Fips180.Compress(old(HashVars()), block)
    {
      hide Fips180.Wt, Fips180.Ft, Fips180.Step, F, K, RotateLeft, W, Add, Sum5;
      ghost var h := HashVars();
      A, B, C, D, E := H[0], H[1], H[2], H[3], H[4];
      var t := 0;
      while t < 80
        invariant t <= 80
        invariant Fips180.Vars(A, B, C, D, E) == Fips180.Steps(block, t, h)
        modifies this`A, this`B, this`C, this`D, this`E
      {
        StepAgrees(t, W(t), Fips180.Vars(A, B, C, D, E));
        var TEMP := Sum5(RotateLeft(5, A), Word(F(t, B.bits, C.bits, D.bits)), E, W(t), K(t));
        E := D;
        D := C;
        C := RotateLeft(30, B);
        B := A;
        A := TEMP;
        t := t + 1;
      }
      H[0] := Add(H[0], A);
      H[1] := Add(H[1], B);
      H[2] := Add(H[2], C);
      H[3] := Add(H[3], D);
      H[4] := Add(H[4], E);
      AddCommutes(h.a, A);
      AddCommutes(h.b, B);
      AddCommutes(h.c, C);
      AddCommutes(h.d, D);
      AddCommutes(h.e, E);
    }

    method Final()
      requires Absorbing()
      modifies this, H, M
      ensures H.Length == 5 && Digest() == Fips180.Digest(old(absorbed))
    {
      Pad();
      Process();
      HashIs();
      SwapHash();
    }

    lemma HashIs()
      requires Valid() && cursor == 0
      ensures |absorbed| % 64 == 0 && HashVars() == Fips180.HashValue(absorbed)
    {
      assert absorbed[..|absorbed|] == absorbed;
    }

    /** The loop of Final: each word of H byte-swapped in place. */
    method SwapHash()
      requires H.Length == 5
      modifies H
      ensures Digest() == Fips180.VarsBytes(old(HashVars()))
    {
      hide SwapEnds, ByteOf;
      ghost var h := HashVars();
      var t := 0;
      while t < 5
        invariant t <= 5
        invariant forall i :: 0 <= i < t ==> H[i] == Word(SwapEnds(old(H[i]).bits))
        invariant forall i :: t <= i < 5 ==> H[i] == old(H[i])
      {
        H[t] := Word(SwapEnds(H[t].bits));
        t := t + 1;
      }
      SwapEndsWrites(h.a.bits);
      SwapEndsWrites(h.b.bits);
      SwapEndsWrites(h.c.bits);
      SwapEndsWrites(h.d.bits);
      SwapEndsWrites(h.e.bits);
    }

    /** The bytes of H as they lie in memory. */
    function Digest(): seq<Byte>
      requires H.Length == 5
      reads H
    {
      WordBytes(H[0]) + WordBytes(H[1]) + WordBytes(H[2]) + WordBytes(H[3]) + WordBytes(H[4])
    }
  }

  lemma WtIs(m: Block, t: nat)
    requires t >= 16
    ensures Fips180.Wt(m, t) == RotateLeft(1, Xor4(Fips180.Wt(m, t - 3), Fips180.Wt(m, t - 8),
                                                   Fips180.Wt(m, t - 14), Fips180.Wt(m, t - 16)))
  {
  }

  lemma Grouped(s: seq<Byte>, b7: Byte, b6: Byte, b5: Byte, b4: Byte, b3: Byte, b2: Byte, b1: Byte, b0: Byte)
    ensures s + [b7] + [b6] + [b5] + [b4] + [b3] + [b2] + [b1] + [b0] == s + [b7, b6, b5, b4, b3, b2, b1, b0]
  {
    var four := s + [b7, b6, b5, b4];
    assert s + [b7] + [b6] + [b5] + [b4] == four;
    assert four + [b3] + [b2] + [b1] + [b0] == four + [b3, b2, b1, b0];
    assert four + [b3, b2, b1, b0] == s + [b7, b6, b5, b4, b3, b2, b1, b0];
  }

  ghost function Padded(message: seq<Byte>, zeros: nat): (padded: seq<Byte>)
    ensures |padded| == |message| + 1 + zeros
  {
    message + ([0x80] + Zeros(zeros))
  }

  lemma PaddedStep(message: seq<Byte>, zeros: nat)
    ensures message + [0x80] == Padded(message, 0)
    ensures Padded(message, zeros) + [0] == Padded(message, zeros + 1)
  {
    assert Zeros(zeros) + [0] == Zeros(zeros + 1);
  }

  lemma PaddedFull(message: seq<Byte>, start: nat, zeros: nat)
    requires start == |message| % 64 && start + 1 + zeros == if start > 55 then 120 else 56
    ensures Padded(message, zeros) == message + Filler(|message|)
  {
    assert zeros == (55 - |message|) % 64;
  }

  lemma CountOneMore(n: nat)
    ensures ((8 * n) % TWO_TO_THE_64 + 8) % TWO_TO_THE_64 == (8 * (n + 1)) % TWO_TO_THE_64
  {
    var m := TWO_TO_THE_64;
    assert 8 * n == (8 * n) / m * m + (8 * n) % m;
  }

  method SHA1HashBytes(data: seq<Byte>) returns (hash: seq<Byte>)
    ensures hash == Fips180.Digest(data)
  {
    var sha := new SecureHashAlgorithm();
    sha.Update(data);
    assert sha.absorbed == data;
    sha.Final();
    hash := sha.Digest();
  }

  /** The pattern of lines 24 to 30: data fed piece by piece. */
  method HashInPieces(pieces: seq<seq<Byte>>) returns (hash: seq<Byte>)
    ensures hash == Fips180.Digest(Concat(pieces))
  {
    hide SecureHashAlgorithm.Absorbing;
    var sha := new SecureHashAlgorithm();
    var i := 0;
    while i < |pieces|
      invariant i <= |pieces| && fresh(sha) && fresh(sha.H) && fresh(sha.M)
      invariant sha.Absorbing() && sha.absorbed == Concat(pieces[..i])
    {
      sha.Update(pieces[i]);
      ConcatSnoc(pieces, i);
      i := i + 1;
    }
    assert pieces[..|pieces|] == pieces;
    sha.Final();
    hash := sha.Digest();
  }
}
