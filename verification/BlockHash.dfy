/** What the two digests share: bytes and 32-bit words of a little-endian machine, and a
    compression function folded over the 64-byte blocks of a byte string. */
module BlockHash {
  type Byte = bv8
  /** A 32-bit word; its own type, so that proofs see its bits only where they look at them. */
  datatype Word = Word(bits: bv32)
  type Block = b: seq<Byte> | |b| == 64 witness seq(64, i => 0)

  const TWO_TO_THE_32: int := 0x1_0000_0000
  const TWO_TO_THE_64: int := 0x1_0000_0000_0000_0000

  function Join(b0: Byte, b1: Byte, b2: Byte, b3: Byte): bv32 {
    ((b3 as bv32) << 24) | ((b2 as bv32) << 16) | ((b1 as bv32) << 8) | (b0 as bv32)
  }

  /** The word stored at four consecutive addresses of a little-endian machine. */
  function LittleEndian(b0: Byte, b1: Byte, b2: Byte, b3: Byte): Word {
    Word(Join(b0, b1, b2, b3))
  }

  function BigEndian(b0: Byte, b1: Byte, b2: Byte, b3: Byte): Word {
    LittleEndian(b3, b2, b1, b0)
  }

  function ByteOf(w: bv32, k: nat): Byte
    requires k < 4
  {
    if k == 0 then (w & 0xff) as Byte
    else if k == 1 then ((w >> 8) & 0xff) as Byte
    else if k == 2 then ((w >> 16) & 0xff) as Byte
    else ((w >> 24) & 0xff) as Byte
  }

  /** The bytes of a word, lowest address first, on a little-endian machine. */
  function WordBytes(w: Word): (bytes: seq<Byte>)
    ensures |bytes| == 4
  {
    [ByteOf(w.bits, 0), ByteOf(w.bits, 1), ByteOf(w.bits, 2), ByteOf(w.bits, 3)]
  }

  lemma StoreThenLoad(w: bv32)
    ensures Join(ByteOf(w, 0), ByteOf(w, 1), ByteOf(w, 2), ByteOf(w, 3)) == w
  {}

  /** How far a word is rotated. */
  type Amount = n: bv6 | 0 < n < 32 witness 1

  function RotateLeft(n: Amount, x: Word): Word {
    Word((x.bits << n) | (x.bits >> (32 - n)))
  }

  predicate Bit(w: bv32, k: bv6)
    requires k < 32
  {
    (w >> k) & 1 == 1
  }

  /** Bit k comes from n places below, counted round the word: no bit is lost. */
  lemma RotateLeftMovesBits(n: Amount, x: Word, k: bv6)
    requires k < 32
    ensures Bit(RotateLeft(n, x).bits, k) == Bit(x.bits, (k - n) % 32)
  {}

  // Operations modulo 2^32 and bit by bit, named so that proofs can keep them apart from their bits.
  function Sum(x: bv32, y: bv32): bv32 { x + y }
  function Add(x: Word, y: Word): Word { Word(Sum(x.bits, y.bits)) }
  function Sum4(w: Word, x: Word, y: Word, z: Word): Word { Add(w, Add(x, Add(y, z))) }
  function Sum5(v: Word, w: Word, x: Word, y: Word, z: Word): Word { Add(Add(Add(Add(v, w), x), y), z) }

  function Xor(x: Word, y: Word): Word { Word(x.bits ^ y.bits) }
  function Xor4(w: Word, x: Word, y: Word, z: Word): Word { Xor(Xor(Xor(w, x), y), z) }

  lemma AddCommutes(x: Word, y: Word)
    ensures Add(x, y) == Add(y, x)
  {}

  /** Bits 8*k to 8*k+7 of a 64-bit count. */
  function CountByte(bits: nat, k: nat): Byte
    requires k < 8
  {
    var shifted :=
      if k == 0 then bits else if k == 1 then bits / 0x100 else if k == 2 then bits / 0x1_0000
      else if k == 3 then bits / 0x100_0000 else if k == 4 then bits / 0x1_0000_0000
      else if k == 5 then bits / 0x100_0000_0000 else if k == 6 then bits / 0x1_0000_0000_0000
      else bits / 0x100_0000_0000_0000;
    (shifted % 256) as Byte
  }

  function Zeros(count: nat): (bytes: seq<Byte>)
    ensures |bytes| == count
  {
    seq(count, i => 0)
  }

  /** `compress` folded, left to right, over the blocks of `data`. */
  function Fold<S>(compress: (S, Block) -> S, h: S, data: seq<Byte>): S
    requires |data| % 64 == 0
    decreases |data|
  {
    if data == [] then h else Fold(compress, compress(h, data[..64]), data[64..])
  }

  lemma {:induction false} FoldAppend<S>(compress: (S, Block) -> S, h: S, a: seq<Byte>, b: seq<Byte>)
    requires |a| % 64 == 0 && |b| % 64 == 0
    ensures Fold(compress, h, a + b) == Fold(compress, Fold(compress, h, a), b)
    decreases |a|
  {
    if a == [] {
      assert a + b == b;
    } else {
      assert (a + b)[..64] == a[..64] && (a + b)[64..] == a[64..] + b;
      FoldAppend(compress, compress(h, a[..64]), a[64..], b);
    }
  }

  lemma FoldOneMore<S>(compress: (S, Block) -> S, h: S, data: seq<Byte>, block: Block)
    requires |data| % 64 == 0
    ensures Fold(compress, h, data + block) == compress(Fold(compress, h, data), block)
  {
    FoldAppend(compress, h, data, block);
    var mid := Fold(compress, h, data);
    assert block[..64] == block && block[64..] == [];
    assert Fold(compress, mid, block) == Fold(compress, compress(mid, block), []);
  }

  /** The bytes appended before the length field: a one bit, then as few zero bits as make the
      total a multiple of 64 bytes once the eight-byte length is added. */
  function Filler(length: nat): (bytes: seq<Byte>)
    ensures (length + |bytes| + 8) % 64 == 0
    ensures 1 <= |bytes| <= 64 && bytes[0] == 0x80
    ensures forall k :: 0 < k < |bytes| ==> bytes[k] == 0
  {
    [0x80] + Zeros((55 - length) % 64)
  }

  /** No shorter filler would do. */
  lemma FillerIsShortest(length: nat, n: nat)
    requires 1 <= n && (length + n + 8) % 64 == 0
    ensures |Filler(length)| <= n
  {
    var p, q := (length + n + 8) / 64, (55 - length) / 64;
    assert n - 1 == 64 * (p - 1 + q) + (55 - length) % 64;
  }

  function Concat(pieces: seq<seq<Byte>>): seq<Byte> {
    if pieces == [] then [] else pieces[0] + Concat(pieces[1..])
  }

  lemma {:induction false} ConcatSnoc(pieces: seq<seq<Byte>>, i: nat)
    requires i < |pieces|
    ensures Concat(pieces[..i + 1]) == Concat(pieces[..i]) + pieces[i]
  {
    if i > 0 {
      ConcatSnoc(pieces[1..], i - 1);
      assert pieces[..i + 1][1..] == pieces[1..][..i] && pieces[..i][1..] == pieces[1..][..i - 1];
    }
  }
}

/** The operations on words as what they are for: addition modulo 2^32, and exclusive OR bit by bit. */
module WordValues {
  import opened BlockHash

  /** A word with one bit more, for the carry out of it; its own type for the reason Word is. */
  datatype Wide = Wide(bits: bv33)

  predicate IsZero(w: Wide) { w.bits == 0 }
  predicate IsFull(w: Wide) { w.bits == 0x1_ffff_ffff }
  predicate Odd(w: Wide) { w.bits & 1 == 1 }
  function Half(w: Wide): Wide { Wide(w.bits >> 1) }
  function Next(w: Wide): Wide { Wide(w.bits + 1) }
  function Join(x: Wide, y: Wide): Wide { Wide(x.bits | y.bits) }

  /** The number that binary digits stand for. */
  function Number(w: Wide): nat
    decreases w.bits
  {
    Halved(w);
    if IsZero(w) then 0 else (if Odd(w) then 1 else 0) + 2 * Number(Half(w))
  }

  function Extend(x: bv32): bv33 { x as bv33 }

  function Value(w: Word): nat { Number(Wide(Extend(w.bits))) }

  lemma Halved(w: Wide)
    ensures !IsZero(w) ==> Half(w).bits < w.bits
    ensures IsZero(w) ==> IsZero(Half(w)) && !Odd(w)
  {}

  lemma Unfold(w: Wide)
    ensures Number(w) == (if Odd(w) then 1 else 0) + 2 * Number(Half(w))
  {
    Halved(w);
    hide Odd, Half;
  }

  // Counting

  lemma NextOfEven(w: Wide)
    requires !Odd(w)
    ensures Half(Next(w)) == Half(w) && Odd(Next(w))
  {}

  lemma NextOfOdd(w: Wide)
    requires Odd(w) && !IsFull(w)
    ensures Half(Next(w)) == Next(Half(w)) && !Odd(Next(w))
  {}

  lemma HalfIsNotFull(w: Wide)
    ensures !IsFull(Half(w))
  {}

  lemma {:induction false} NextIs(w: Wide)
    requires !IsFull(w)
    ensures Number(Next(w)) == Number(w) + 1
    decreases w.bits
  {
    Halved(w);
    hide IsFull, Odd, Half, Next;
    Unfold(w);
    Unfold(Next(w));
    if Odd(w) {
      NextOfOdd(w);
      HalfIsNotFull(w);
      NextIs(Half(w));
    } else {
      NextOfEven(w);
    }
  }

  // Addition, on the bits themselves: they are equal sums only where the sums are in sight

  lemma NextIsBits(w: bv33, n: bv33)
    requires n == w + 1 && w != 0x1_ffff_ffff
    ensures Number(Wide(n)) == Number(Wide(w)) + 1
  {
    NextIs(Wide(w));
    hide Number;
  }

  predicate IsSum(x: bv33, y: bv33, s: bv33) { x <= 0xffff_ffff && y <= 0xffff_ffff && s == x + y }

  lemma SumOfFewer(x: bv33, y: bv33, s: bv33)
    requires IsSum(x, y, s) && y != 0
    ensures IsSum(x, y - 1, s - 1)
  {}

  lemma NoOverflow(x: bv33, y: bv33, s: bv33)
    requires IsSum(x, y, s) && y != 0
    ensures s != 0 && y - 1 < y
  {}

  lemma SumOfNone(x: bv33, s: bv33)
    requires IsSum(x, 0, s)
    ensures s == x
  {}

  lemma NoneIsNone()
    ensures Number(Wide(0)) == 0
  {}

  lemma OneMore(w: bv33)
    requires w != 0
    ensures Number(Wide(w)) == Number(Wide(w - 1)) + 1
  {
    hide Number;
    NextIsBits(w - 1, w);
  }

  lemma {:induction false} SumIs(x: bv33, y: bv33, s: bv33)
    requires IsSum(x, y, s)
    ensures Number(Wide(s)) == Number(Wide(x)) + Number(Wide(y))
    decreases y
  {
    hide *;
    if y == 0 {
      NoneIsNone();
      SumOfNone(x, s);
    } else {
      NoOverflow(x, y, s);
      SumOfFewer(x, y, s);
      OneMore(s);
      OneMore(y);
      SumIs(x, y - 1, s - 1);
    }
  }

  // The carry out of a word

  /** t is a power of two, above w. */
  predicate Above(t: Wide, w: Wide) { t.bits != 0 && t.bits & (t.bits - 1) == 0 && w.bits < t.bits }

  predicate IsOne(t: Wide) { t.bits == 1 }

  lemma AboveHalf(t: Wide, w: Wide)
    requires Above(t, w) && !IsOne(t)
    ensures Above(Half(t), Half(w)) && !Odd(t) && !IsZero(t)
  {}

  lemma JoinFirst(t: Wide, w: Wide)
    requires !Odd(t)
    ensures Odd(Join(w, t)) == Odd(w)
  {}

  lemma JoinHalf(t: Wide, w: Wide)
    ensures Half(Join(w, t)) == Join(Half(w), Half(t))
  {}

  lemma AboveOne(t: Wide, w: Wide)
    requires Above(t, w) && IsOne(t)
    ensures IsZero(w) && Join(w, t) == t && Odd(t) && IsZero(Half(t))
  {}

  lemma {:induction false} TopBit(w: Wide, t: Wide)
    requires Above(t, w)
    ensures Number(Join(w, t)) == Number(w) + Number(t) && Number(w) < Number(t)
    decreases t.bits
  {
    hide Odd, Half, Join, Above, IsZero, IsOne;
    Unfold(w);
    Unfold(t);
    Unfold(Join(w, t));
    if IsOne(t) {
      AboveOne(t, w);
      assert Number(w) == 0 && Number(Half(t)) == 0;
    } else {
      AboveHalf(t, w);
      JoinFirst(t, w);
      JoinHalf(t, w);
      Halved(t);
      TopBit(Half(w), Half(t));
    }
  }

  /** Four more zeros at the end. */
  lemma FourPlaces(a: bv33, b: bv33, c: bv33, d: bv33, e: bv33)
    requires a & 1 == b & 1 == c & 1 == d & 1 == 0
    requires a >> 1 == b && b >> 1 == c && c >> 1 == d && d >> 1 == e
    ensures Number(Wide(a)) == 16 * Number(Wide(e))
  {
    Doubles(a, b);
    Doubles(b, c);
    Doubles(c, d);
    Doubles(d, e);
    hide Number;
  }

  lemma Doubles(a: bv33, b: bv33)
    requires a & 1 == 0 && a >> 1 == b
    ensures Number(Wide(a)) == 2 * Number(Wide(b))
  {
    Unfold(Wide(a));
    hide Number;
  }

  lemma One()
    ensures Number(Wide(1)) == 1
  {
    Unfold(Wide(1));
    assert Odd(Wide(1)) && IsZero(Half(Wide(1)));
  }

  lemma CarryOut()
    ensures Number(Wide(0x1_0000_0000)) == TWO_TO_THE_32
  {
    One();
    hide Number;
    FourPlaces(0x1_0000_0000, 0x8000_0000, 0x4000_0000, 0x2000_0000, 0x1000_0000);
    FourPlaces(0x1000_0000, 0x800_0000, 0x400_0000, 0x200_0000, 0x100_0000);
    FourPlaces(0x100_0000, 0x80_0000, 0x40_0000, 0x20_0000, 0x10_0000);
    FourPlaces(0x10_0000, 0x8_0000, 0x4_0000, 0x2_0000, 0x1_0000);
    FourPlaces(0x1_0000, 0x8000, 0x4000, 0x2000, 0x1000);
    FourPlaces(0x1000, 0x800, 0x400, 0x200, 0x100);
    FourPlaces(0x100, 0x80, 0x40, 0x20, 0x10);
    FourPlaces(0x10, 8, 4, 2, 1);
  }

  function WideSum(x: bv32, y: bv32): bv33 { (x as bv33) + (y as bv33) }

  lemma ItsSumIs(x: bv32, y: bv32)
    ensures IsSum(x as bv33, y as bv33, WideSum(x, y))
  {}

  lemma LowIsBelow(x: bv32)
    ensures Above(Wide(0x1_0000_0000), Wide(Extend(x)))
  {}

  lemma LowOrCarry(x: bv32, y: bv32, z: bv33, low: bv33)
    requires z == (x as bv33) + (y as bv33) && low == (x + y) as bv33
    ensures z == low || z == low | 0x1_0000_0000
  {}

  lemma JoinBits(x: bv33, y: bv33)
    ensures Join(Wide(x), Wide(y)) == Wide(x | y)
  {}

  lemma WithoutCarry(x: bv32, y: bv32, z: bv33, low: bv33)
    requires z == WideSum(x, y) && low == Extend(Sum(x, y))
    ensures z == low || z == low | 0x1_0000_0000
  {
    var wide := (x as bv33) + (y as bv33);
    var narrow := (x + y) as bv33;
    assert WideSum(x, y) == wide;
    assert Extend(x + y) == narrow && Sum(x, y) == x + y;
    LowOrCarry(x, y, wide, narrow);
    hide WideSum, Sum, Extend;
  }

  lemma LowOrJoined(x: bv32, y: bv32, z: bv33, low: bv33)
    requires z == WideSum(x, y) && low == Extend(Sum(x, y))
    ensures z == low || Wide(z) == Join(Wide(low), Wide(0x1_0000_0000))
  {
    hide *;
    WithoutCarry(x, y, z, low);
    JoinBits(low, 0x1_0000_0000);
  }

  lemma Reduce(sum: nat, low: nat)
    requires low < TWO_TO_THE_32 && (sum == low || sum == low + TWO_TO_THE_32)
    ensures low == sum % TWO_TO_THE_32
  {}

  lemma SumBits(x: bv32, y: bv32)
    ensures Number(Wide(Extend(Sum(x, y)))) == (Number(Wide(Extend(x))) + Number(Wide(Extend(y)))) % TWO_TO_THE_32
  {
    hide *;
    var z, low := WideSum(x, y), Extend(Sum(x, y));
    ExtendedSum(x, y, z);
    LowOrJoined(x, y, z, low);
    LowIsBelow(Sum(x, y));
    TopBit(Wide(low), Wide(0x1_0000_0000));
    CarryOut();
    Reduce(Number(Wide(z)), Number(Wide(low)));
  }

  lemma ExtendedSum(x: bv32, y: bv32, z: bv33)
    requires z == WideSum(x, y)
    ensures Number(Wide(z)) == Number(Wide(Extend(x))) + Number(Wide(Extend(y)))
  {
    hide Number, WideSum, IsSum;
    ItsSumIs(x, y);
    SumIs(x as bv33, y as bv33, z);
  }

  /** Add is addition modulo 2^32. */
  lemma AddIs(x: Word, y: Word)
    ensures Value(Add(x, y)) == (Value(x) + Value(y)) % TWO_TO_THE_32
  {
    hide Number, Extend, Sum;
    SumBits(x.bits, y.bits);
  }

  lemma Reduced(a: int, b: int)
    ensures (a + b % TWO_TO_THE_32) % TWO_TO_THE_32 == (a + b) % TWO_TO_THE_32
  {
    var q := b / TWO_TO_THE_32;
    assert a + b == a + b % TWO_TO_THE_32 + q * TWO_TO_THE_32;
  }

  lemma AddMore(sum: Word, total: nat, x: Word)
    requires Value(sum) == total % TWO_TO_THE_32
    ensures Value(Add(sum, x)) == (total + Value(x)) % TWO_TO_THE_32
  {
    hide *;
    AddIs(sum, x);
    Reduced(Value(x), total);
  }

  lemma Sum4Is(w: Word, x: Word, y: Word, z: Word)
    ensures Value(Sum4(w, x, y, z)) == (Value(w) + Value(x) + Value(y) + Value(z)) % TWO_TO_THE_32
  {
    hide Value, Add;
    AddIs(y, z);
    AddIs(x, Add(y, z));
    Reduced(Value(x), Value(y) + Value(z));
    AddIs(w, Add(x, Add(y, z)));
    Reduced(Value(w), Value(x) + Value(y) + Value(z));
  }

  lemma Sum5Is(v: Word, w: Word, x: Word, y: Word, z: Word)
    ensures Value(Sum5(v, w, x, y, z)) == (Value(v) + Value(w) + Value(x) + Value(y) + Value(z)) % TWO_TO_THE_32
  {
    hide Value, Add;
    AddIs(v, w);
    AddMore(Add(v, w), Value(v) + Value(w), x);
    AddMore(Add(Add(v, w), x), Value(v) + Value(w) + Value(x), y);
    AddMore(Add(Add(Add(v, w), x), y), Value(v) + Value(w) + Value(x) + Value(y), z);
  }

  predicate LastBit(w: Word) { w.bits & 1 == 1 }
  function Shifted(w: Word): Word { Word(w.bits >> 1) }

  /** Bit k, the lowest being bit 0. */
  predicate BitAt(w: Word, k: nat)
    decreases k
  {
    if k == 0 then LastBit(w) else BitAt(Shifted(w), k - 1)
  }

  lemma XorLast(x: Word, y: Word)
    ensures LastBit(Xor(x, y)) == (LastBit(x) != LastBit(y))
  {}

  lemma XorShifted(x: Word, y: Word)
    ensures Shifted(Xor(x, y)) == Xor(Shifted(x), Shifted(y))
  {}

  lemma {:induction false} XorBit(x: Word, y: Word, k: nat)
    ensures BitAt(Xor(x, y), k) == (BitAt(x, k) != BitAt(y, k))
    decreases k
  {
    hide LastBit, Shifted, Xor;
    if k == 0 {
      XorLast(x, y);
    } else {
      XorShifted(x, y);
      XorBit(Shifted(x), Shifted(y), k - 1);
    }
  }

  /** Xor4 is exclusive OR bit by bit. */
  lemma Xor4Is(w: Word, x: Word, y: Word, z: Word, k: nat)
    ensures BitAt(Xor4(w, x, y, z), k) == (BitAt(w, k) != (BitAt(x, k) != (BitAt(y, k) != BitAt(z, k))))
  {
    hide BitAt, Xor;
    XorBit(w, x, k);
    XorBit(Xor(w, x), y, k);
    XorBit(Xor(Xor(w, x), y), z, k);
  }

  /** Words with the same value are the same. */
  lemma {:induction false} ValueTells(x: Wide, y: Wide)
    requires Number(x) == Number(y)
    ensures x == y
    decreases x.bits
  {
    Unfold(x);
    Unfold(y);
    Halved(x);
    hide Odd, Half, IsZero;
    if IsZero(x) {
      ZeroHasNone(x);
      NoneIsZero(y);
      BothZero(x, y);
    } else {
      ValueTells(Half(x), Half(y));
      SameHalves(x, y);
    }
  }

  lemma ZeroHasNone(x: Wide)
    requires IsZero(x)
    ensures Number(x) == 0
  {}

  lemma {:induction false} NoneIsZero(y: Wide)
    requires Number(y) == 0
    ensures IsZero(y)
    decreases y.bits
  {
    Unfold(y);
    Halved(y);
    hide Odd, Half, IsZero;
    if !IsZero(y) {
      NoneIsZero(Half(y));
      EvenHalf(y);
    }
  }

  lemma EvenHalf(y: Wide)
    requires IsZero(Half(y)) && !Odd(y)
    ensures IsZero(y)
  {}

  lemma BothZero(x: Wide, y: Wide)
    requires IsZero(x) && IsZero(y)
    ensures x == y
  {}

  lemma SameHalves(x: Wide, y: Wide)
    requires Half(x) == Half(y) && Odd(x) == Odd(y)
    ensures x == y
  {}

  lemma ExtendTells(x: bv32, y: bv32)
    requires Wide(Extend(x)) == Wide(Extend(y))
    ensures x == y
  {}

  lemma SameValue(x: Word, y: Word)
    requires Value(x) == Value(y)
    ensures x == y
  {
    hide Number, Extend;
    ValueTells(Wide(Extend(x.bits)), Wide(Extend(y.bits)));
    ExtendTells(x.bits, y.bits);
  }

  /** Addends may be taken in another order. */
  lemma AddSwaps(sum: Word, y: Word, z: Word)
    ensures Add(Add(sum, y), z) == Add(Add(sum, z), y)
  {
    hide *;
    AddIs(sum, y);
    AddMore(Add(sum, y), Value(sum) + Value(y), z);
    AddIs(sum, z);
    AddMore(Add(sum, z), Value(sum) + Value(z), y);
    SameValue(Add(Add(sum, y), z), Add(Add(sum, z), y));
  }
}
