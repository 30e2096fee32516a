/** The bytes that Pickle (base/pickle.cc) writes: little-endian, two's complement, padded with zeros. */
module PickleBytes {
  import opened Options
  import opened PickleFormat

  /** Byte k is the digit of weight 256^k. */
  lemma {:induction false} LittleEndian(v: nat, n: nat, k: nat)
    requires k < n
    ensures ToBytes(v, n)[k] == v / Power(k) % 256
    decreases n
  {
    if k > 0 {
      LittleEndian(v / 256, n - 1, k - 1);
      DivideTwice(v, Power(k - 1));
    }
  }

  lemma DivideTwice(v: nat, p: nat)
    requires p > 0
    ensures v / 256 / p == v / (256 * p)
  {
    var q, r := v / 256 / p, v / 256 % p;
    var low := v % 256;
    assert v / 256 == p * q + r && v == 256 * (v / 256) + low;
    assert v == (256 * p) * q + (256 * r + low) && 256 * r + low < 256 * p;
    Quotient(v, 256 * p, q, 256 * r + low);
  }

  lemma Quotient(v: nat, d: nat, q: nat, r: nat)
    requires v == d * q + r && r < d
    ensures v / d == q
  {
    var q' := v / d;
    assert v == d * q' + v % d;
    assert d * (q - q') == v % d - r && d * (q' - q) == r - v % d;
    AtLeast(d, q - q');
    AtLeast(d, q' - q);
  }

  lemma AtLeast(d: nat, x: int)
    ensures x >= 1 ==> d * x >= d
  {
  }

  /** A number of n bytes differs from its bytes as read by a multiple of 256^n, and is in the range of
      its type: two's complement. */
  lemma InterpretIs(u: nat, n: nat, signed: bool)
    requires n > 0 && u < Power(n)
    ensures var v := Interpret(u, n, signed); (v - u) % Power(n) == 0 && Fits(v, n, signed)
    ensures Represent(Interpret(u, n, signed), n) == u
  {
    hide Power, Half;
    Multiples(Power(n));
  }

  lemma RepresentIs(v: int, n: nat, signed: bool)
    requires Fits(v, n, signed)
    ensures (Represent(v, n) - v) % Power(n) == 0 && Represent(v, n) < Power(n)
  {
    hide Power, Half;
    Multiples(Power(n));
  }

  lemma Multiples(p: int)
    requires p > 0
    ensures 0 % p == 0 && p % p == 0 && (0 - p) % p == 0
  {
    assert 0 - p == p * (0 - 1);
  }

  /** Every value of the type has bytes of its own: reading and writing are inverse both ways. */
  lemma {:induction false} BytesReadBack(s: seq<Byte>)
    ensures ToBytes(FromBytes(s), |s|) == s
  {
    if s != [] {
      BytesReadBack(s[1..]);
      var rest := FromBytes(s[1..]);
      assert FromBytes(s) % 256 == s[0] && FromBytes(s) / 256 == rest;
      assert s == [s[0]] + s[1..];
    }
  }

  lemma WrittenAsRead(s: seq<Byte>, signed: bool)
    requires s != []
    ensures var v := Interpret(FromBytes(s), |s|, signed);
            Fits(v, |s|, signed) && ToBytes(Represent(v, |s|), |s|) == s
  {
    hide *;
    InterpretIs(FromBytes(s), |s|, signed);
    BytesReadBack(s);
  }

  /** Padding is zero, and shorter than a word. */
  lemma PaddingIsZero(s: seq<Byte>, k: nat)
    requires |s| <= k < |Padded(s)|
    ensures Padded(s)[k] == 0 && |Padded(s)| < |s| + 4 && |Padded(s)| % 4 == 0
  {
  }

  /** Any byte but zero is true. */
  lemma BoolIsNonzero(sizeTMax: nat, payload: seq<Byte>, index: nat)
    requires index < |payload|
    ensures Read(sizeTMax, payload, index, BoolKind).value == Some(Bool(payload[index] != 0))
  {
  }

  // One value of each kind, as it lies in the payload

  lemma Four(v: nat)
    ensures ToBytes(v, 4) == [v % 256, v / 256 % 256, v / 256 / 256 % 256, v / 256 / 256 / 256 % 256]
  {
    var v1, v2, v3 := v / 256, v / 256 / 256, v / 256 / 256 / 256;
    assert ToBytes(v3, 1) == [v3 % 256] + ToBytes(v3 / 256, 0);
    assert ToBytes(v2, 2) == [v2 % 256] + ToBytes(v3, 1);
    assert ToBytes(v1, 3) == [v1 % 256] + ToBytes(v2, 2);
  }

  /** A number whose bytes fill whole words. */
  lemma PodIs(v: int, n: nat, bytes: seq<Byte>)
    requires n > 0 && n % 4 == 0 && 0 - Half(n) <= v < Power(n) && ToBytes(Represent(v, n), n) == bytes
    ensures Pod(v, n) == bytes
  {
    hide Power, Half, ToBytes, Represent;
  }

  lemma EncodedBools()
    ensures Encode(Bool(true)) == [1, 0, 0, 0] && Encode(Bool(false)) == [0, 0, 0, 0]
  {
    Powers();
    Four(1);
    Four(0);
    PodIs(1, 4, [1, 0, 0, 0]);
    PodIs(0, 4, [0, 0, 0, 0]);
    hide Pod;
  }

  lemma EncodedNumber()
    ensures Fits(-2, 4, true) && Encode(Number(4, true, -2)) == [0xFE, 0xFF, 0xFF, 0xFF]
  {
    Powers();
    Four(0xFFFF_FFFE);
    PodIs(-2, 4, [0xFE, 0xFF, 0xFF, 0xFF]);
    hide Pod;
  }

  lemma EncodedShort()
    ensures Fits(258, 2, false) && Encode(Number(2, false, 258)) == [2, 1, 0, 0]
  {
    Powers();
    assert ToBytes(258, 2) == [2] + ToBytes(1, 1) == [2, 1];
    hide ToBytes;
  }

  lemma EncodedSizeT()
    ensures SizeT(258).Writable(Power(8)) && Encode(SizeT(258)) == [2, 1, 0, 0, 0, 0, 0, 0]
  {
    Powers();
    Eight(258);
    PodIs(258, 8, [2, 1, 0, 0, 0, 0, 0, 0]);
    hide Pod;
  }

  /** Small numbers, in eight bytes. */
  lemma Eight(v: nat)
    requires v < 0x1_0000
    ensures ToBytes(v, 8) == [v % 256, v / 256, 0, 0, 0, 0, 0, 0]
  {
    Four(0);
    var zeros := ToBytes(0, 4);
    assert ToBytes(0, 5) == [0] + zeros;
    assert ToBytes(0, 6) == [0] + ToBytes(0, 5);
    assert ToBytes(v / 256, 7) == [v / 256] + ToBytes(0, 6);
    assert ToBytes(v, 8) == [v % 256] + ToBytes(v / 256, 7);
  }

  lemma EncodedLength(n: nat)
    requires n < 256
    ensures Fits(n, 4, true) && Pod(n, 4) == [n, 0, 0, 0]
  {
    Powers();
    Four(n);
    PodIs(n, 4, [n, 0, 0, 0]);
  }

  lemma PaddedTo4(s: seq<Byte>)
    ensures |s| == 1 ==> Padded(s) == s + [0, 0, 0]
    ensures |s| == 2 ==> Padded(s) == s + [0, 0]
  {
  }

  lemma EncodedString()
    ensures String([97, 98]).Writable(Power(8)) && Encode(String([97, 98])) == [2, 0, 0, 0, 97, 98, 0, 0]
  {
    EncodedLength(2);
    PaddedTo4([97, 98]);
    hide Pod, Padded, Power;
  }

  lemma EncodedData()
    ensures Data([7]).Writable(Power(8)) && Encode(Data([7])) == [1, 0, 0, 0, 7, 0, 0, 0]
    ensures Bytes([7]).Writable(Power(8)) && Encode(Bytes([7])) == [7, 0, 0, 0]
  {
    EncodedLength(1);
    PaddedTo4([7]);
    hide Pod, Padded, Power;
  }

  lemma OneUnit()
    ensures Units([0x1234]) == [0x34, 0x12]
  {
    assert ToBytes(0x1234, 2) == [0x34] + ToBytes(0x12, 1) == [0x34, 0x12];
    assert Units([0x1234]) == ToBytes(0x1234, 2) + Units([]);
  }

  lemma EncodedString16()
    ensures String16([0x1234]).Writable(Power(8)) && Encode(String16([0x1234])) == [1, 0, 0, 0, 0x34, 0x12, 0, 0]
  {
    OneUnit();
    EncodedLength(1);
    PaddedTo4([0x34, 0x12]);
    hide Pod, Padded, Power, Units;
  }
}
