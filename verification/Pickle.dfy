/**
 * Pickle and PickleIterator (base/pickle.h, base/pickle.cc): values appended to a growing buffer
 * behind a header that holds the payload size, and read back in order.  Little-endian.
 */
module PickleFormat {
  import opened Options
  import opened Sequences

  type Byte = x: int | 0 <= x < 256
  type Char16 = x: int | 0 <= x < 65536

  const UINT32_MAX: nat := 0xFFFF_FFFF
  const INT_MAX: nat := 0x7FFF_FFFF

  predicate IsInt(x: int) { -0x8000_0000 <= x <= INT_MAX }

  /** AlignInt */
  function Align(i: nat, alignment: nat): (a: nat)
    requires alignment == 4 || alignment == 64
    ensures i <= a < i + alignment && a % alignment == 0
  {
    if alignment == 4 then
      RoundUp4(i);
      i + (4 - i % 4) % 4
    else
      RoundUp64(i);
      i + (64 - i % 64) % 64
  }

  lemma RoundUp4(i: nat)
    ensures (i + (4 - i % 4) % 4) % 4 == 0
  {
  }

  lemma RoundUp64(i: nat)
    ensures (i + (64 - i % 64) % 64) % 64 == 0
  {
  }

  // Numbers as bytes

  function Power(n: nat): (p: nat)
    ensures p > 0
  {
    if n == 0 then 1 else 256 * Power(n - 1)
  }

  function Half(n: nat): (h: nat)
    requires n > 0
    ensures 2 * h == Power(n)
  {
    128 * Power(n - 1)
  }

  function ToBytes(v: nat, n: nat): (s: seq<Byte>)
    ensures |s| == n
  {
    if n == 0 then [] else [v % 256] + ToBytes(v / 256, n - 1)
  }

  function FromBytes(s: seq<Byte>): (v: nat)
    ensures v < Power(|s|)
  {
    if s == [] then 0 else s[0] + 256 * FromBytes(s[1..])
  }

  /** The object representation of a number: two's complement when it is signed. */
  function Represent(v: int, n: nat): (u: nat)
    requires n > 0 && 0 - Half(n) <= v < Power(n)
    ensures u < Power(n)
  {
    if v < 0 then v + Power(n) else v
  }

  function Interpret(u: nat, n: nat, signed: bool): int
    requires n > 0
  {
    if signed && u >= Half(n) then u - Power(n) else u
  }

  predicate Fits(v: int, n: nat, signed: bool) {
    n > 0 && if signed then 0 - Half(n) <= v < Half(n) else 0 <= v < Power(n)
  }

  lemma {:induction false} FromToBytes(v: nat, n: nat)
    requires v < Power(n)
    ensures FromBytes(ToBytes(v, n)) == v
  {
    if n > 0 { FromToBytes(v / 256, n - 1); }
  }

  lemma NumberReadsBack(v: int, n: nat, signed: bool)
    requires Fits(v, n, signed)
    ensures Interpret(FromBytes(ToBytes(Represent(v, n), n)), n, signed) == v
  {
    FromToBytes(Represent(v, n), n);
  }

  function Units(u: seq<Char16>): (s: seq<Byte>)
    ensures |s| == 2 * |u|
  {
    if u == [] then [] else ToBytes(u[0], 2) + Units(u[1..])
  }

  function FromUnits(s: seq<Byte>): (u: seq<Char16>)
    requires |s| % 2 == 0
    ensures |s| == 2 * |u|
  {
    if s == [] then [] else [Unit(s[0], s[1])] + FromUnits(s[2..])
  }

  function Unit(low: Byte, high: Byte): Char16 { low + 256 * high }

  lemma {:induction false} UnitsReadBack(u: seq<Char16>)
    ensures FromUnits(Units(u)) == u
  {
    if u != [] {
      UnitsReadBack(u[1..]);
      assert ToBytes(u[0] / 256, 1) == [u[0] / 256 % 256] + ToBytes(u[0] / 256 / 256, 0);
      assert ToBytes(u[0], 2) == [u[0] % 256, u[0] / 256 % 256];
      assert Units(u)[2..] == Units(u[1..]);
    }
  }

  function Zeros(n: nat): seq<Byte> { seq(n, i => 0) }

  // Values

  /** sizeof(size_t) on the reading machine is 4 or 8. */
  datatype Kind =
    | BoolKind
    | NumberKind(size: nat, signed: bool)
    | SizeTKind
    | StringKind
    | String16Kind
    | DataKind
    | BytesKind(length: int)

  /** A floating-point number is the number its bits are. */
  datatype Value =
    | Bool(b: bool)
    | Number(size: nat, signed: bool, v: int)
    | SizeT(n: nat)
    | String(s: seq<Byte>)
    | String16(u: seq<Char16>)
    | Data(s: seq<Byte>)
    | Bytes(s: seq<Byte>)
  {
    function Kind(): (k: Kind) {
      match this
      case Bool(_) => BoolKind
      case Number(size, signed, _) => NumberKind(size, signed)
      case SizeT(_) => SizeTKind
      case String(_) => StringKind
      case String16(_) => String16Kind
      case Data(_) => DataKind
      case Bytes(s) => BytesKind(|s|)
    }

    /** What the type, and int for a length, can hold. */
    predicate Writable(sizeTMax: nat) {
      match this
      case Bool(_) => true
      case Number(size, signed, v) => Fits(v, size, signed) && size <= 8
      case SizeT(n) => n <= sizeTMax && n < Power(8)
      case String(s) => |s| <= INT_MAX
      case String16(u) => 2 * |u| <= INT_MAX
      case Data(s) => |s| <= INT_MAX
      case Bytes(s) => |s| <= INT_MAX
    }
  }

  function Padded(s: seq<Byte>): (p: seq<Byte>)
    ensures |p| == Align(|s|, 4) && s <= p
  {
    s + Zeros(Align(|s|, 4) - |s|)
  }

  function Pod(v: int, n: nat): seq<Byte>
    requires n > 0 && 0 - Half(n) <= v < Power(n)
  {
    Padded(ToBytes(Represent(v, n), n))
  }

  lemma Powers()
    ensures Power(1) == 0x100 && Power(2) == 0x1_0000 && Power(4) == 0x1_0000_0000
    ensures Power(8) == 0x1_0000_0000_0000_0000 && Half(4) == 0x8000_0000
  {
    assert Power(3) == 0x100_0000 && Power(5) == 0x100_0000_0000;
    assert Power(6) == 0x1_0000_0000_0000 && Power(7) == 0x100_0000_0000_0000;
  }

  function Encode(value: Value): (s: seq<Byte>)
    requires value.Writable(Power(8))
  {
    Powers();
    match value
    case Bool(b) => Pod(if b then 1 else 0, 4)
    case Number(size, signed, v) => Pod(v, size)
    case SizeT(n) => Pod(n, 8)
    case String(s) => Pod(|s|, 4) + Padded(s)
    case String16(u) => Pod(|u|, 4) + Padded(Units(u))
    case Data(s) => Pod(|s|, 4) + Padded(s)
    case Bytes(s) => Padded(s)
  }

  // Reading

  /** The byte a read starts at, if any, and the read index afterwards. */
  datatype Pointer = Pointer(at: Option<nat>, next: nat)

  /** GetReadPointerAndAdvance and Advance */
  function Take(end: nat, index: nat, length: int): (p: Pointer)
    requires index <= end
    ensures index <= p.next <= end
    ensures p.at.Some? <==> 0 <= length <= end - index
    ensures p.at.Some? ==> p.at.value == index
    ensures p.at.None? ==> p.next == end
  {
    if length < 0 || end - index < length then Pointer(None, end)
    else
      var aligned := Align(length, 4);
      Pointer(Some(index), if end - index < aligned then end else index + aligned)
  }

  /** GetReadPointerAndAdvance for a number of elements */
  function TakeElements(end: nat, index: nat, count: int, size: nat): (p: Pointer)
    requires index <= end
    ensures index <= p.next <= end
    ensures p.at.Some? ==> p.at.value == index && 0 <= count * size <= end - index
  {
    if !IsInt(count * size) then Pointer(None, index) else Take(end, index, count * size)
  }

  datatype Outcome = Outcome(value: Option<Value>, next: nat)

  function ReadNumber(payload: seq<Byte>, index: nat, size: nat, signed: bool): (r: Outcome)
    requires index <= |payload| && size > 0
    ensures index <= r.next <= |payload|
    ensures r.value.Some? ==> r.value.value.Number?
  {
    var p := Take(|payload|, index, size);
    if p.at.None? then Outcome(None, p.next)
    else Outcome(Some(Number(size, signed, Interpret(FromBytes(payload[index..index + size]), size, signed))), p.next)
  }

  /** A length and that many 16-bit units. */
  function ReadUnits(payload: seq<Byte>, index: nat): (r: Outcome)
    requires index <= |payload|
    ensures index <= r.next <= |payload|
  {
    var length := ReadNumber(payload, index, 4, true);
    if length.value.None? then length
    else
      var p := TakeElements(|payload|, length.next, length.value.value.v, 2);
      if p.at.None? then Outcome(None, p.next)
      else
        var from := p.at.value;
        Outcome(Some(String16(FromUnits(payload[from..from + length.value.value.v * 2]))), p.next)
  }

  /** Read* of PickleIterator, for each kind of value. */
  function Read(sizeTMax: nat, payload: seq<Byte>, index: nat, kind: Kind): (r: Outcome)
    requires index <= |payload| && (kind.NumberKind? ==> kind.size > 0)
    ensures index <= r.next <= |payload|
  {
    match kind
    case BoolKind =>
      var p := Take(|payload|, index, 1);
      Outcome(if p.at.Some? then Some(Bool(payload[index] != 0)) else None, p.next)
    case NumberKind(size, signed) => ReadNumber(payload, index, size, signed)
    case SizeTKind =>
      var r := ReadNumber(payload, index, 8, false);
      Outcome(if r.value.Some? && 0 <= r.value.value.v <= sizeTMax then Some(SizeT(r.value.value.v)) else None, r.next)
    case String16Kind => ReadUnits(payload, index)
    case StringKind =>
      var r := ReadBlock(payload, index);
      Outcome(if r.bytes.Some? then Some(String(r.bytes.value)) else None, r.next)
    case DataKind =>
      var r := ReadBlock(payload, index);
      Outcome(if r.bytes.Some? then Some(Data(r.bytes.value)) else None, r.next)
    case BytesKind(length) =>
      var p := Take(|payload|, index, length);
      Outcome(if p.at.Some? then Some(Bytes(payload[index..index + length])) else None, p.next)
  }

  datatype Block = Block(bytes: Option<seq<Byte>>, next: nat)

  /** A length and that many bytes. */
  function ReadBlock(payload: seq<Byte>, index: nat): (r: Block)
    requires index <= |payload|
    ensures index <= r.next <= |payload|
  {
    var length := ReadNumber(payload, index, 4, true);
    if length.value.None? then Block(None, length.next)
    else
      var p := Take(|payload|, length.next, length.value.value.v);
      if p.at.None? then Block(None, p.next)
      else Block(Some(payload[length.next..length.next + length.value.value.v]), p.next)
  }

  // What is written reads back

  lemma TakePadded(before: seq<Byte>, s: seq<Byte>, after: seq<Byte>)
    ensures var payload, index := before + Padded(s) + after, |before|;
            && Take(|payload|, index, |s|) == Pointer(Some(index), |before + Padded(s)|)
            && payload[index..index + |s|] == s
  {
    var payload := before + Padded(s) + after;
    assert payload[|before|..|before| + |s|] == Padded(s)[..|s|];
    AlignedSize(|s|);
  }

  lemma AlignedSize(n: nat)
    ensures Align(Align(n, 4), 4) == Align(n, 4)
  {
  }

  lemma PodReadsBack(before: seq<Byte>, v: int, n: nat, signed: bool, after: seq<Byte>)
    requires Fits(v, n, signed)
    ensures ReadNumber(before + Pod(v, n) + after, |before|, n, signed)
         == Outcome(Some(Number(n, signed, v)), |before + Pod(v, n)|)
  {
    NumberReadsBack(v, n, signed);
    hide Fits, Represent, Interpret, ToBytes, FromBytes, Padded, Take, Power, Half;
    TakePadded(before, ToBytes(Represent(v, n), n), after);
  }

  lemma Regroup(a: seq<Byte>, b: seq<Byte>, c: seq<Byte>, d: seq<Byte>)
    ensures a + (b + c) + d == a + b + (c + d)
    ensures a + (b + c) + d == a + b + c + d
    ensures a + (b + c) == a + b + c
  {
  }

  lemma IntFits(n: nat)
    requires n <= INT_MAX
    ensures Fits(n, 4, true)
  {
    Powers();
  }

  lemma BlockOf(payload: seq<Byte>, index: nat, from: nat, s: seq<Byte>, next: nat)
    requires index <= |payload| && from <= from + |s| <= |payload| && payload[from..from + |s|] == s
    requires ReadNumber(payload, index, 4, true) == Outcome(Some(Number(4, true, |s|)), from)
    requires Take(|payload|, from, |s|) == Pointer(Some(from), next)
    ensures ReadBlock(payload, index) == Block(Some(s), next)
  {
    hide ReadNumber, Take;
  }

  lemma UnitsOf(sizeTMax: nat, payload: seq<Byte>, index: nat, from: nat, u: seq<Char16>, next: nat)
    requires index <= |payload| && from <= from + 2 * |u| <= |payload| && payload[from..from + 2 * |u|] == Units(u)
    requires 2 * |u| <= INT_MAX
    requires ReadNumber(payload, index, 4, true) == Outcome(Some(Number(4, true, |u|)), from)
    requires Take(|payload|, from, 2 * |u|) == Pointer(Some(from), next)
    ensures Read(sizeTMax, payload, index, String16Kind) == Outcome(Some(String16(u)), next)
  {
    hide ReadNumber, Take, Units, FromUnits;
    UnitsReadBack(u);
  }

  lemma BlockReadsBack(before: seq<Byte>, s: seq<Byte>, after: seq<Byte>)
    requires |s| <= INT_MAX
    ensures Fits(|s|, 4, true)
    ensures ReadBlock(before + (Pod(|s|, 4) + Padded(s)) + after, |before|)
         == Block(Some(s), |before + (Pod(|s|, 4) + Padded(s))|)
  {
    hide *;
    IntFits(|s|);
    var length, body := Pod(|s|, 4), Padded(s);
    var payload := before + (length + body) + after;
    Regroup(before, length, body, after);
    PodReadsBack(before, |s|, 4, true, body + after);
    TakePadded(before + length, s, after);
    assert |payload| >= |before + length| + |s|;
    BlockOf(payload, |before|, |before + length|, s, |before + length + body|);
  }

  lemma UnitsBlockReadsBack(sizeTMax: nat, before: seq<Byte>, u: seq<Char16>, after: seq<Byte>)
    requires 2 * |u| <= INT_MAX
    ensures Fits(|u|, 4, true)
    ensures Read(sizeTMax, before + (Pod(|u|, 4) + Padded(Units(u))) + after, |before|, String16Kind)
         == Outcome(Some(String16(u)), |before + (Pod(|u|, 4) + Padded(Units(u)))|)
  {
    hide *;
    IntFits(|u|);
    var length, body := Pod(|u|, 4), Padded(Units(u));
    var payload := before + (length + body) + after;
    Regroup(before, length, body, after);
    PodReadsBack(before, |u|, 4, true, body + after);
    TakePadded(before + length, Units(u), after);
    assert |payload| >= |before + length| + 2 * |u|;
    UnitsOf(sizeTMax, payload, |before|, |before + length|, u, |before + length + body|);
  }

  /** A bool takes the four bytes of an int and is read from the first. */
  lemma BoolReadsBack(sizeTMax: nat, before: seq<Byte>, b: bool, after: seq<Byte>)
    ensures Fits(if b then 1 else 0, 4, true)
    ensures var pod := Pod(if b then 1 else 0, 4);
            Read(sizeTMax, before + pod + after, |before|, BoolKind) == Outcome(Some(Bool(b)), |before + pod|)
  {
    Powers();
    var v := if b then 1 else 0;
    var bytes := ToBytes(v, 4);
    assert bytes[0] == v;
    var pod := Pod(v, 4);
    assert |pod| == 4 && pod[0] == v;
    assert (before + pod + after)[|before|] == pod[0];
  }

  lemma SizeFits(n: nat)
    requires n < Power(8)
    ensures Fits(n, 8, false)
  {
  }

  /** Whatever comes before and after, a written value is read back and the index moves past it. */
  lemma ValueReadsBack(sizeTMax: nat, before: seq<Byte>, value: Value, after: seq<Byte>)
    requires value.Writable(Power(8)) && value.Writable(sizeTMax)
    ensures Read(sizeTMax, before + Encode(value) + after, |before|, value.Kind())
         == Outcome(Some(value), |before + Encode(value)|)
  {
    Powers();
    hide Power, Half, Pod, Padded, Take, Units, ReadNumber, ReadBlock, Fits, FromUnits, TakeElements;
    match value
    case Bool(b) => BoolReadsBack(sizeTMax, before, b, after);
    case Number(size, signed, v) => PodReadsBack(before, v, size, signed, after);
    case SizeT(n) =>
      SizeFits(n);
      PodReadsBack(before, n, 8, false, after);
    case String(s) => BlockReadsBack(before, s, after);
    case String16(u) => UnitsBlockReadsBack(sizeTMax, before, u, after);
    case Data(s) => BlockReadsBack(before, s, after);
    case Bytes(s) => TakePadded(before, s, after);
  }

  ghost predicate AllWritable(sizeTMax: nat, values: seq<Value>) {
    forall i :: 0 <= i < |values| ==> values[i].Writable(Power(8)) && values[i].Writable(sizeTMax)
  }

  ghost function EncodeAll(sizeTMax: nat, values: seq<Value>): seq<Byte>
    requires AllWritable(sizeTMax, values)
  {
    if values == [] then [] else EncodeAll(sizeTMax, values[..|values| - 1]) + Encode(values[|values| - 1])
  }

  /** Reads in order, giving up at the first that fails. */
  function ReadAll(sizeTMax: nat, payload: seq<Byte>, index: nat, kinds: seq<Kind>): (r: Results)
    requires index <= |payload| && forall i :: 0 <= i < |kinds| ==> (kinds[i].NumberKind? ==> kinds[i].size > 0)
    ensures index <= r.next <= |payload|
    decreases |kinds|
  {
    if kinds == [] then Results(Some([]), index)
    else
      var first := ReadAll(sizeTMax, payload, index, kinds[..|kinds| - 1]);
      if first.values.None? then first
      else
        var last := Read(sizeTMax, payload, first.next, kinds[|kinds| - 1]);
        Results(if last.value.Some? then Some(first.values.value + [last.value.value]) else None, last.next)
  }

  datatype Results = Results(values: Option<seq<Value>>, next: nat)

  function Kinds(values: seq<Value>): (k: seq<Kind>)
    ensures |k| == |values| && forall i :: 0 <= i < |values| ==> k[i] == values[i].Kind()
  {
    seq(|values|, i requires 0 <= i < |values| => values[i].Kind())
  }

  lemma {:induction false} AllReadBack(sizeTMax: nat, values: seq<Value>, after: seq<Byte>)
    requires AllWritable(sizeTMax, values)
    ensures forall i :: 0 <= i < |values| ==> (values[i].Kind().NumberKind? ==> values[i].Kind().size > 0)
    ensures ReadAll(sizeTMax, EncodeAll(sizeTMax, values) + after, 0, Kinds(values))
         == Results(Some(values), |EncodeAll(sizeTMax, values)|)
  {
    KindsHaveSizes(sizeTMax, values);
    if values != [] {
      var n := |values| - 1;
      var first, last := EncodeAll(sizeTMax, values[..n]), Encode(values[n]);
      assert EncodeAll(sizeTMax, values) == first + last;
      Assoc(first, last, after);
      assert Kinds(values)[..n] == Kinds(values[..n]);
      assert values == values[..n] + [values[n]];
      hide Read, Encode, EncodeAll;
      AllReadBack(sizeTMax, values[..n], last + after);
      ValueReadsBack(sizeTMax, first, values[n], after);
    }
  }

  lemma KindsHaveSizes(sizeTMax: nat, values: seq<Value>)
    requires AllWritable(sizeTMax, values)
    ensures forall i :: 0 <= i < |values| ==> (values[i].Kind().NumberKind? ==> values[i].Kind().size > 0)
  {
  }

  /** The values come back in order, and one further integer read fails. */
  lemma RoundTrip(sizeTMax: nat, values: seq<Value>)
    requires AllWritable(sizeTMax, values)
    ensures forall i :: 0 <= i < |values| ==> (values[i].Kind().NumberKind? ==> values[i].Kind().size > 0)
    ensures var payload := EncodeAll(sizeTMax, values);
            var r := ReadAll(sizeTMax, payload, 0, Kinds(values));
            && r == Results(Some(values), |payload|)
            && Read(sizeTMax, payload, r.next, NumberKind(4, true)) == Outcome(None, |payload|)
  {
    AllReadBack(sizeTMax, values, []);
    assert EncodeAll(sizeTMax, values) + [] == EncodeAll(sizeTMax, values);
  }

  // Reading arbitrary bytes

  /** A failed read that leaves bytes to be read: a count of 16-bit units whose size in bytes is no int,
      or a 64-bit size that does not fit size_t. */
  predicate LeavesBytes(sizeTMax: nat, payload: seq<Byte>, index: nat, kind: Kind)
    requires index <= |payload|
  {
    || (kind.String16Kind?
        && index + 4 < |payload|
        && !IsInt(2 * Interpret(FromBytes(payload[index..index + 4]), 4, true)))
    || (kind.SizeTKind? && index + 8 < |payload| && FromBytes(payload[index..index + 8]) > sizeTMax)
  }

  /** A failed read exhausts the iterator, with those two exceptions and no other. */
  lemma FailureExhausts(sizeTMax: nat, payload: seq<Byte>, index: nat, kind: Kind)
    requires index <= |payload| && (kind.NumberKind? ==> kind.size > 0)
    requires Read(sizeTMax, payload, index, kind).value.None?
    ensures Read(sizeTMax, payload, index, kind).next == |payload| <==> !LeavesBytes(sizeTMax, payload, index, kind)
  {
    hide Power, Half, FromBytes;
    if kind.SizeTKind? { SizeTFails(sizeTMax, payload, index); }
    if kind.String16Kind? { UnitsFail(sizeTMax, payload, index); }
  }

  /** The first bytes are the 32-bit count 0x7fffffff; four more are left. */
  lemma CountLeavesBytes(sizeTMax: nat)
    ensures var payload := [0xff, 0xff, 0xff, 0x7f, 1, 2, 3, 4];
            Read(sizeTMax, payload, 0, String16Kind) == Outcome(None, 4)
  {
    var payload: seq<Byte> := [0xff, 0xff, 0xff, 0x7f, 1, 2, 3, 4];
    assert payload[0..4] == [0xff, 0xff, 0xff, 0x7f];
    CountIs();
    Powers();
    hide FromBytes, Power, Half;
    assert Interpret(0x7fff_ffff, 4, true) == 0x7fff_ffff;
    assert Align(4, 4) == 4;
  }

  lemma CountIs()
    ensures FromBytes([0xff, 0xff, 0xff, 0x7f]) == 0x7fff_ffff
  {
    var a: seq<Byte> := [0xff, 0xff, 0xff, 0x7f];
    assert a[1..] == [0xff, 0xff, 0x7f] && a[1..][1..] == [0xff, 0x7f] && a[1..][1..][1..] == [0x7f];
    assert FromBytes([0x7f]) == 0x7f;
    assert FromBytes([0xff, 0x7f]) == 0x7fff;
    assert FromBytes([0xff, 0xff, 0x7f]) == 0x7f_ffff;
  }

  lemma SizeTFails(sizeTMax: nat, payload: seq<Byte>, index: nat)
    requires index <= |payload| && Read(sizeTMax, payload, index, SizeTKind).value.None?
    ensures Read(sizeTMax, payload, index, SizeTKind).next == |payload|
       <==> !LeavesBytes(sizeTMax, payload, index, SizeTKind)
  {
    hide Power, Half, FromBytes;
    if index + 8 <= |payload| {
      assert Align(8, 4) == 8;
      assert ReadNumber(payload, index, 8, false).value.value.v == FromBytes(payload[index..index + 8]);
    }
  }

  lemma UnitsFail(sizeTMax: nat, payload: seq<Byte>, index: nat)
    requires index <= |payload| && Read(sizeTMax, payload, index, String16Kind).value.None?
    ensures Read(sizeTMax, payload, index, String16Kind).next == |payload|
            <==> !LeavesBytes(sizeTMax, payload, index, String16Kind)
  {
    hide Power, Half, FromBytes;
    if index + 4 <= |payload| {
      assert Align(4, 4) == 4;
      var length := ReadNumber(payload, index, 4, true);
      assert length.next == index + 4;
      assert length.value.value.v == Interpret(FromBytes(payload[index..index + 4]), 4, true);
    }
  }

  /** Bytes a kind needs at least. */
  function Least(kind: Kind): int {
    match kind
    case BoolKind => 1
    case NumberKind(size, _) => size
    case SizeTKind => 8
    case BytesKind(length) => length
    case _ => 4
  }

  /** An exhausted iterator reads nothing more. */
  lemma ExhaustedReadsNothing(sizeTMax: nat, payload: seq<Byte>, kind: Kind)
    requires kind.NumberKind? ==> kind.size > 0
    requires Least(kind) > 0
    ensures Read(sizeTMax, payload, |payload|, kind) == Outcome(None, |payload|)
  {
  }

  /** A successful read gives a value of its kind whose bytes are all inside the payload, ahead of the
      index, and skips what follows them for alignment as far as the payload goes. */
  lemma SuccessIsInside(sizeTMax: nat, payload: seq<Byte>, index: nat, kind: Kind)
    requires index <= |payload| && (kind.NumberKind? ==> kind.size > 0)
    requires Read(sizeTMax, payload, index, kind).value.Some?
    ensures var r := Read(sizeTMax, payload, index, kind);
            && r.value.value.Kind() == kind
            && index + Taken(r.value.value) <= |payload|
            && r.next == Smaller(index + Align(Taken(r.value.value), 4), |payload|)
  {
    hide Power, Half, FromBytes, Interpret, FromUnits, ReadBlock, Align;
    match kind
    case StringKind => BlockIsInside(payload, index);
    case DataKind => BlockIsInside(payload, index);
    case String16Kind =>
      var length := ReadNumber(payload, index, 4, true).value.value.v;
      AlignAfterLength(0);
      AlignAfterLength(2 * length);
    case SizeTKind =>
    case _ =>
  }

  lemma BlockIsInside(payload: seq<Byte>, index: nat)
    requires index <= |payload| && ReadBlock(payload, index).bytes.Some?
    ensures var r := ReadBlock(payload, index); var n := 4 + |r.bytes.value|;
            index + n <= |payload| && r.next == Smaller(index + Align(n, 4), |payload|)
  {
    hide Power, Half, FromBytes, Interpret, Align;
    AlignAfterLength(0);
    AlignAfterLength(|ReadBlock(payload, index).bytes.value|);
  }

  function Smaller(a: nat, b: nat): nat { if a < b then a else b }

  lemma AlignAfterLength(n: nat)
    ensures Align(4 + n, 4) == 4 + Align(n, 4) && Align(0, 4) == 0
  {
  }

  /** The bytes of a value, without what follows for alignment. */
  function Taken(value: Value): nat {
    match value
    case Bool(_) => 1
    case Number(size, _, _) => size
    case SizeT(_) => 8
    case String(s) => 4 + |s|
    case String16(u) => 4 + 2 * |u|
    case Data(s) => 4 + |s|
    case Bytes(s) => |s|
  }
}

module Pickles {
  import opened Options
  import opened PickleFormat
  import opened Sequences

  const PAYLOAD_UNIT: nat := 64
  const HEADER: nat := 4

  method Memcpy(to: array<Byte>, at: nat, data: seq<Byte>)
    requires at + |data| <= to.Length
    modifies to
    ensures to[..] == old(to[..at]) + data + old(to[at + |data|..])
  {
    var i := 0;
    while i < |data|
      invariant i <= |data|
      invariant to[..at] == old(to[..at]) && to[at..at + i] == data[..i] && to[at + |data|..] == old(to[at + |data|..])
    {
      to[at + i] := data[i];
      i := i + 1;
    }
    assert to[..] == to[..at] + to[at..at + |data|] + to[at + |data|..];
  }

  /** The bytes a buffer begins with say how long the payload is. */
  function PayloadSize(bytes: seq<Byte>): (n: nat)
    requires |bytes| >= HEADER
    ensures n <= UINT32_MAX
  {
    Powers();
    FromBytes(bytes[..HEADER])
  }

  /** The header size that the constructor from bytes settles on; 0 when it will not use them. */
  function Wrap(data: seq<Byte>): nat
    requires |data| <= INT_MAX
  {
    if |data| < HEADER then 0 else WrapSizes(|data|, PayloadSize(data))
  }

  function WrapSizes(length: nat, payload: nat): nat {
    // int minus uint32 is taken modulo 2^32
    var size := (length - payload) % (UINT32_MAX + 1);
    var bounded := if size > length then 0 else size;
    if bounded != Align(bounded, 4) then 0 else bounded
  }

  lemma WrapSizesIs(length: nat, payload: nat, headerSize: nat)
    requires HEADER <= length <= INT_MAX && payload <= UINT32_MAX
    ensures headerSize != 0 && WrapSizes(length, payload) == headerSize
      <==> HEADER <= headerSize && headerSize % 4 == 0 && headerSize + payload == length
  {
    var size := (length - payload) % (UINT32_MAX + 1);
    assert size == if payload <= length then length - payload else length - payload + UINT32_MAX + 1;
    AlignedAlready(if size > length then 0 else size);
    hide Align;
  }

  /** Bytes are accepted exactly when an aligned header of at least four bytes and the payload it tells
      of make up their whole length. */
  lemma WrapIff(data: seq<Byte>, headerSize: nat)
    requires |data| <= INT_MAX
    ensures headerSize != 0 && Wrap(data) == headerSize
      <==> HEADER <= headerSize <= |data| && headerSize % 4 == 0 && headerSize + PayloadSize(data) == |data|
  {
    hide PayloadSize, WrapSizes;
    if |data| >= HEADER { WrapSizesIs(|data|, PayloadSize(data), headerSize); }
  }

  lemma AlignedAlready(n: nat)
    ensures n % 4 == 0 <==> Align(n, 4) == n
  {
  }

  /** The end of the pickle that begins `data`, if all of it is there. */
  function FindNext(headerSize: nat, data: seq<Byte>): Option<nat> {
    if |data| < HEADER then None
    else if |data| < headerSize || |data| - headerSize < PayloadSize(data) then None
    else Some(headerSize + PayloadSize(data))
  }

  /** What FindNext delimits is a pickle that can be wrapped, and it finds every one. */
  lemma FindNextIff(headerSize: nat, data: seq<Byte>, end: nat)
    requires HEADER <= headerSize <= PAYLOAD_UNIT && headerSize % 4 == 0 && |data| <= INT_MAX
    ensures FindNext(headerSize, data) == Some(end) <==> end <= |data| && Wrap(data[..end]) == headerSize
  {
    hide PayloadSize;
    if end <= |data| {
      if end < HEADER {
        assert Wrap(data[..end]) == 0;
      } else {
        PayloadOfPrefix(data, end);
        hide Wrap;
        WrapIff(data[..end], headerSize);
      }
    }
  }

  lemma PayloadOfPrefix(data: seq<Byte>, end: nat)
    requires HEADER <= end <= |data|
    ensures PayloadSize(data[..end]) == PayloadSize(data)
  {
    assert data[..end][..HEADER] == data[..HEADER];
  }

  /** The bytes of a pickle: they wrap, and the payload reads back. */
  lemma WrittenWraps(bytes: seq<Byte>, headerSize: nat, sizeTMax: nat, values: seq<Value>)
    requires |bytes| <= INT_MAX && HEADER <= headerSize <= |bytes| && headerSize % 4 == 0
    requires AllWritable(sizeTMax, values)
    requires headerSize + PayloadSize(bytes) == |bytes| && bytes[headerSize..] == EncodeAll(sizeTMax, values)
    ensures Wrap(bytes) == headerSize
    ensures forall i :: 0 <= i < |values| ==> (values[i].Kind().NumberKind? ==> values[i].Kind().size > 0)
    ensures ReadAll(sizeTMax, bytes[Wrap(bytes)..], 0, Kinds(values)).values == Some(values)
  {
    WrapIff(bytes, headerSize);
    RoundTrip(sizeTMax, values);
  }

  lemma SamePrefix(a: seq<Byte>, b: seq<Byte>, size: nat, headerSize: nat)
    requires HEADER <= headerSize <= size <= |a| && size <= |b| && a[..size] == b[..size]
    ensures PayloadSize(a) == PayloadSize(b)
    ensures a[..headerSize] == b[..headerSize] && a[headerSize..size] == b[headerSize..size]
    ensures a[HEADER..headerSize] == b[HEADER..headerSize]
  {
    assert forall i :: 0 <= i < size ==> a[i] == a[..size][i] == b[..size][i] == b[i];
    assert a[..HEADER] == b[..HEADER];
  }

  lemma SamePart(a: seq<Byte>, b: seq<Byte>, headerSize: nat, end: nat)
    requires HEADER <= headerSize <= end <= |a| && end <= |b| && a[..end] == b[..end]
    ensures a[HEADER..headerSize] == b[HEADER..headerSize] && a[headerSize..end] == b[headerSize..end]
  {
    assert forall i :: 0 <= i < end ==> a[i] == a[..end][i] == b[..end][i] == b[i];
  }

  lemma SameStart(a: seq<Byte>, b: seq<Byte>, end: nat)
    requires end <= |a| <= |b| && b[..|a|] == a
    ensures b[..end] == a[..end]
  {
    assert b[..|a|][..end] == b[..end];
  }

  lemma SamePayload(a: seq<Byte>, b: seq<Byte>, headerSize: nat)
    requires HEADER <= headerSize <= |a| <= |b| && b[..|a|] == a
    ensures PayloadSize(b) == PayloadSize(a)
    ensures headerSize + PayloadSize(a) <= |a| ==>
              b[headerSize..headerSize + PayloadSize(a)] == a[headerSize..headerSize + PayloadSize(a)]
  {
    SameStart(a, b, HEADER);
    if headerSize + PayloadSize(a) <= |a| {
      SameStart(a, b, headerSize + PayloadSize(a));
      SamePart(b, a, headerSize, headerSize + PayloadSize(a));
    }
  }

  predicate Multiples(headerSize: nat, capacity: nat, offset: nat) {
    headerSize % 4 == 0 && capacity % PAYLOAD_UNIT == 0 && offset % 4 == 0
  }

  lemma MultiplesAfter(headerSize: nat, capacity: nat, offset: nat, n: nat)
    requires Multiples(headerSize, capacity, offset)
    ensures Multiples(headerSize, capacity, offset + Align(n, 4))
  {
    hide Align;
    var a := Align(n, 4);
    assert (offset + a) % 4 == 0;
  }

  /** Setting the size in the header touches neither the rest of the header nor the payload. */
  lemma AfterWrite(before: seq<Byte>, after: seq<Byte>, headerSize: nat, head: seq<Byte>, data: seq<Byte>)
    requires HEADER <= headerSize <= |head| && |head| + |data| <= |before| == |after|
    requires after[HEADER..] == before[HEADER..]
    requires before[..|head|] == head && before[|head|..|head| + |data|] == data
    ensures after[headerSize..|head| + |data|] == head[headerSize..] + data
    ensures after[HEADER..headerSize] == head[HEADER..headerSize]
  {
    assert forall i :: HEADER <= i < |after| ==>
      after[i] == after[HEADER..][i - HEADER] == before[HEADER..][i - HEADER] == before[i];
    assert forall i :: 0 <= i < |head| ==> before[i] == before[..|head|][i] == head[i];
    assert forall i :: 0 <= i < |data| ==> before[|head| + i] == before[|head|..|head| + |data|][i] == data[i];
  }

  lemma DataParts(s: seq<Byte>)
    requires |s| <= INT_MAX
    ensures Fits(|s|, 4, true) && Bytes(s).Writable(Power(8)) && Data(s).Writable(Power(8))
    ensures Encode(Data(s)) == Encode(Number(4, true, |s|)) + Encode(Bytes(s))
  {
    IntFits(|s|);
  }

  lemma Overwritten(payload: seq<Byte>, offset: nat, data: seq<Byte>, after: seq<Byte>)
    requires offset <= |payload| && after == payload[..offset] + data
    ensures after == payload + data <==> |payload| == offset
  {
    if |payload| == offset { assert payload[..offset] == payload; }
  }

  class Pickle {
    var buffer: array<Byte>
    var headerSize: nat
    var capacityAfterHeader: nat
    var writeOffset: nat
    /** The capacities given up by growing, and the largest size a write or a reservation has needed. */
    ghost var outgrown: nat
    ghost var largest: nat

    ghost predicate Sound()
      reads this
    {
      && HEADER <= headerSize && buffer.Length == headerSize + capacityAfterHeader
      && Multiples(headerSize, capacityAfterHeader, writeOffset)
      && writeOffset <= capacityAfterHeader && writeOffset <= UINT32_MAX
    }

    /** What the writes so far have appended. */
    ghost function Written(): seq<Byte>
      requires Sound()
      reads this, buffer
    {
      buffer[headerSize..headerSize + writeOffset]
    }

    /** The payload size in the header is the write offset: the payload is what was written. */
    ghost predicate Valid()
      reads this, buffer
    {
      Sound() && PayloadSize(buffer[..]) == writeOffset
    }

    /** All the header tells of is in the buffer.  A copy of bytes has a payload it has not written. */
    ghost predicate Whole()
      reads this, buffer
    {
      Sound() && writeOffset <= PayloadSize(buffer[..]) <= capacityAfterHeader
    }

    /** What readers are given. */
    ghost function Payload(): seq<Byte>
      requires Whole()
      reads this, buffer
    {
      buffer[headerSize..headerSize + PayloadSize(buffer[..])]
    }

    /** Growing is paid for: what was given up is less than what there is, which is not much more than
        was ever needed. */
    ghost predicate Thrifty()
      reads this
    {
      && outgrown < capacityAfterHeader
      && (capacityAfterHeader == PAYLOAD_UNIT || capacityAfterHeader < 3 * largest + PAYLOAD_UNIT)
    }

    constructor ()
      ensures Valid() && Written() == [] && headerSize == HEADER && Thrifty() && fresh(buffer)
    {
      Powers();
      headerSize, capacityAfterHeader, writeOffset := HEADER, PAYLOAD_UNIT, 0;
      buffer := new Byte[HEADER + PAYLOAD_UNIT](i => 0);
      outgrown, largest := 0, 0;
      new;
      SetPayloadSize(0);
    }

    constructor WithHeader(headerSize: nat)
      requires HEADER <= headerSize <= PAYLOAD_UNIT
      ensures Valid() && Written() == [] && this.headerSize == Align(headerSize, 4) && Thrifty() && fresh(buffer)
    {
      Powers();
      this.headerSize, capacityAfterHeader, writeOffset := Align(headerSize, 4), PAYLOAD_UNIT, 0;
      buffer := new Byte[Align(headerSize, 4) + PAYLOAD_UNIT](i => 0);
      outgrown, largest := 0, 0;
      new;
      SetPayloadSize(0);
    }

    /** A copy of a pickle that only wraps bytes takes over its write offset, which is 0. */
    constructor CopyOfWrapped(data: seq<Byte>)
      requires |data| <= INT_MAX && Wrap(data) != 0
      ensures Whole() && fresh(buffer) && headerSize == Wrap(data) && writeOffset == 0
      ensures |data| <= buffer.Length && buffer[..|data|] == data
      ensures Payload() == data[Wrap(data)..]
    {
      WrapIff(data, Wrap(data));
      headerSize, writeOffset := Wrap(data), 0;
      capacityAfterHeader := Align(|data|, PAYLOAD_UNIT);
      buffer := new Byte[Wrap(data) + Align(|data|, PAYLOAD_UNIT)](i => 0);
      outgrown, largest := 0, 0;
      new;
      Memcpy(buffer, 0, data);
      assert buffer[..][..|data|] == data[..|data|];
      SamePrefix(buffer[..], data, |data|, headerSize);
    }

    /** A copy has the payload of the other, and goes on writing where the other would. */
    constructor Copy(other: Pickle)
      requires other.Whole()
      ensures Whole() && fresh(buffer) && headerSize == other.headerSize && writeOffset == other.writeOffset
      ensures Payload() == other.Payload() && buffer[..headerSize] == other.buffer[..other.headerSize]
      ensures other.Valid() ==> Valid() && Written() == other.Written()
    {
      headerSize, writeOffset := other.headerSize, other.writeOffset;
      var size := other.headerSize + PayloadSize(other.buffer[..]);
      capacityAfterHeader := Align(size, PAYLOAD_UNIT);
      buffer := new Byte[other.headerSize + Align(size, PAYLOAD_UNIT)](i => 0);
      outgrown, largest := 0, 0;
      new;
      Memcpy(buffer, 0, other.buffer[..size]);
      assert buffer[..size] == other.buffer[..size];
      SamePrefix(buffer[..], other.buffer[..], size, headerSize);
    }

    method SetPayloadSize(size: nat)
      requires Sound() && size <= UINT32_MAX
      modifies buffer
      ensures PayloadSize(buffer[..]) == size && buffer[HEADER..] == old(buffer[HEADER..])
    {
      Powers();
      FromToBytes(size, HEADER);
      Memcpy(buffer, 0, ToBytes(size, HEADER));
      assert buffer[..][..HEADER] == ToBytes(size, HEADER);
    }

    method Resize(newCapacity: nat)
      requires Sound() && newCapacity >= capacityAfterHeader
      modifies `buffer, `capacityAfterHeader
      ensures Sound() && fresh(buffer) && capacityAfterHeader == Align(newCapacity, PAYLOAD_UNIT)
      ensures buffer.Length >= old(buffer.Length) && buffer[..old(buffer.Length)] == old(buffer[..])
    {
      var capacity := Align(newCapacity, PAYLOAD_UNIT);
      var bytes := new Byte[headerSize + capacity](i => 0);
      Memcpy(bytes, 0, buffer[..]);
      buffer := bytes;
      capacityAfterHeader := capacity;
      assert buffer[..old(buffer.Length)] == old(buffer[..]);
    }

    method Reserve(length: nat)
      requires Sound() && writeOffset + Align(length, 4) <= UINT32_MAX
      modifies `buffer, `capacityAfterHeader, `outgrown, `largest
      ensures Sound() && (buffer == old(buffer) || fresh(buffer))
      ensures buffer.Length >= old(buffer.Length) && buffer[..old(buffer.Length)] == old(buffer[..])
      ensures old(Whole()) ==> Whole() && Payload() == old(Payload())
      ensures capacityAfterHeader >= writeOffset + length
      ensures capacityAfterHeader == old(capacityAfterHeader) || capacityAfterHeader >= 2 * old(capacityAfterHeader)
      ensures old(Thrifty()) ==> Thrifty()
    {
      hide PayloadSize;
      var newSize := writeOffset + Align(length, 4);
      largest := if newSize > largest then newSize else largest;
      if newSize > capacityAfterHeader {
        outgrown := outgrown + capacityAfterHeader;
        Resize(capacityAfterHeader * 2 + newSize);
      }
      assert buffer[..old(buffer.Length)] == old(buffer[..]);
      SamePayload(old(buffer[..]), buffer[..], headerSize);
    }

    /** The payload becomes what was written before and the bytes.  That appends to it exactly if it was
        all written by this pickle; of a payload copied from bytes, the rest is lost. */
    method WriteBytesCommon(data: seq<Byte>)
      requires Sound() && writeOffset + Align(|data|, 4) <= UINT32_MAX
      modifies this, buffer
      ensures Valid() && headerSize == old(headerSize) && (buffer == old(buffer) || fresh(buffer))
      ensures Written() == old(Written()) + Padded(data)
      ensures old(Whole()) ==> (
        && Whole() && Payload() == old(Payload())[..old(writeOffset)] + Padded(data)
        && (Payload() == old(Payload()) + Padded(data) <==> old(PayloadSize(buffer[..])) == old(writeOffset)))
      ensures buffer[HEADER..headerSize] == old(buffer[HEADER..headerSize])
      ensures capacityAfterHeader == old(capacityAfterHeader) || capacityAfterHeader >= 2 * old(capacityAfterHeader)
      ensures old(Thrifty()) ==> Thrifty()
    {
      ghost var payload := if Whole() then Payload() else [];
      if Whole() { WrittenFirst(); }
      hide Align, Multiples, Padded, PayloadSize, Written, Payload, Whole, Thrifty;
      StoreIn(data);
      WrittenIsAll();
      if old(Whole()) { Overwritten(payload, old(writeOffset), Padded(data), Payload()); }
    }

    lemma WrittenFirst()
      requires Whole()
      ensures |Payload()| == PayloadSize(buffer[..]) && Written() == Payload()[..writeOffset]
    {
    }

    lemma WrittenIsAll()
      requires Valid()
      ensures Whole() && Payload() == Written()
    {
    }

    /** Makes room for the bytes and stores them. */
    method StoreIn(data: seq<Byte>)
      requires Sound() && writeOffset + Align(|data|, 4) <= UINT32_MAX
      modifies this, buffer
      ensures Valid() && headerSize == old(headerSize) && (buffer == old(buffer) || fresh(buffer))
      ensures Written() == old(Written()) + Padded(data)
      ensures buffer[HEADER..headerSize] == old(buffer[HEADER..headerSize])
      ensures capacityAfterHeader == old(capacityAfterHeader) || capacityAfterHeader >= 2 * old(capacityAfterHeader)
      ensures old(Thrifty()) ==> Thrifty()
    {
      hide Align, Multiples, Padded, PayloadSize;
      Grow(writeOffset + Align(|data|, 4));
      SameStart(old(buffer[..]), buffer[..], headerSize + writeOffset);
      SamePart(buffer[..], old(buffer[..]), headerSize, headerSize + writeOffset);
      Store(data);
    }

    /** The writing of WriteBytesCommon, once there is room. */
    method Store(data: seq<Byte>)
      requires Sound() && writeOffset + Align(|data|, 4) <= UINT32_MAX
      requires writeOffset + Align(|data|, 4) <= capacityAfterHeader
      modifies `writeOffset, buffer
      ensures Valid() && Written() == old(Written()) + Padded(data)
      ensures buffer[HEADER..headerSize] == old(buffer[HEADER..headerSize])
    {
      hide Align, Multiples, Padded, PayloadSize;
      ghost var head := buffer[..headerSize + writeOffset];
      MultiplesAfter(headerSize, capacityAfterHeader, writeOffset, |data|);
      SamePart(head, buffer[..], headerSize, |head|);
      AppendBytes(data);
      ghost var appended := buffer[..];
      SetPayloadSize(writeOffset + Align(|data|, 4));
      writeOffset := writeOffset + Align(|data|, 4);
      AfterWrite(appended, buffer[..], headerSize, head, Padded(data));
    }

    /** The growing of WriteBytesCommon. */
    method Grow(newSize: nat)
      requires Sound() && newSize <= UINT32_MAX
      modifies `buffer, `capacityAfterHeader, `outgrown, `largest
      ensures Sound() && (buffer == old(buffer) || fresh(buffer)) && newSize <= capacityAfterHeader
      ensures buffer.Length >= old(buffer.Length) && buffer[..old(buffer.Length)] == old(buffer[..])
      ensures capacityAfterHeader == old(capacityAfterHeader) || capacityAfterHeader >= 2 * old(capacityAfterHeader)
      ensures old(Thrifty()) ==> Thrifty()
    {
      largest := if newSize > largest then newSize else largest;
      if newSize > capacityAfterHeader {
        outgrown := outgrown + capacityAfterHeader;
        Resize(if capacityAfterHeader * 2 > newSize then capacityAfterHeader * 2 else newSize);
      }
      assert buffer[..old(buffer.Length)] == old(buffer[..]);
    }

    /** Copies the bytes to the write offset and fills them up with zeros. */
    method AppendBytes(data: seq<Byte>)
      requires Sound() && writeOffset + Align(|data|, 4) <= capacityAfterHeader
      modifies buffer
      ensures var at := headerSize + writeOffset;
              && buffer[..at] == old(buffer[..at])
              && buffer[at..at + Align(|data|, 4)] == Padded(data)
    {
      var at := headerSize + writeOffset;
      Memcpy(buffer, at, data);
      Memcpy(buffer, at + |data|, Zeros(Align(|data|, 4) - |data|));
    }

    method WritePOD(size: nat, signed: bool, v: int) returns (ok: bool)
      requires Sound() && Fits(v, size, signed) && size <= 8
      requires writeOffset + |Encode(Number(size, signed, v))| <= UINT32_MAX
      modifies this, buffer
      ensures ok && Valid() && Written() == old(Written()) + Encode(Number(size, signed, v))
      ensures headerSize == old(headerSize) && (buffer == old(buffer) || fresh(buffer))
      ensures buffer[HEADER..headerSize] == old(buffer[HEADER..headerSize])
      ensures old(Thrifty()) ==> Thrifty()
    {
      hide Padded, Power, Half;
      WriteBytesCommon(ToBytes(Represent(v, size), size));
      return true;
    }

    method WriteBool(b: bool) returns (ok: bool)
      requires Sound() && Bool(b).Writable(Power(8)) && writeOffset + |Encode(Bool(b))| <= UINT32_MAX
      modifies this, buffer
      ensures ok && Valid() && Written() == old(Written()) + Encode(Bool(b))
      ensures headerSize == old(headerSize) && (buffer == old(buffer) || fresh(buffer))
      ensures buffer[HEADER..headerSize] == old(buffer[HEADER..headerSize])
      ensures old(Thrifty()) ==> Thrifty()
    {
      Powers();
      hide Power, Pod;
      assert Fits(if b then 1 else 0, 4, true);
      ok := WritePOD(4, true, if b then 1 else 0);
    }

    method WriteSizeT(n: nat) returns (ok: bool)
      requires Sound() && SizeT(n).Writable(Power(8)) && writeOffset + |Encode(SizeT(n))| <= UINT32_MAX
      modifies this, buffer
      ensures ok && Valid() && Written() == old(Written()) + Encode(SizeT(n))
      ensures headerSize == old(headerSize) && (buffer == old(buffer) || fresh(buffer))
      ensures buffer[HEADER..headerSize] == old(buffer[HEADER..headerSize])
      ensures old(Thrifty()) ==> Thrifty()
    {
      hide Power, Pod;
      ok := WritePOD(8, false, n);
    }

    method WriteBytes(s: seq<Byte>) returns (ok: bool)
      requires Sound() && Bytes(s).Writable(Power(8)) && writeOffset + |Encode(Bytes(s))| <= UINT32_MAX
      modifies this, buffer
      ensures ok && Valid() && Written() == old(Written()) + Encode(Bytes(s))
      ensures headerSize == old(headerSize) && (buffer == old(buffer) || fresh(buffer))
      ensures buffer[HEADER..headerSize] == old(buffer[HEADER..headerSize])
      ensures old(Thrifty()) ==> Thrifty()
    {
      hide Padded;
      WriteBytesCommon(s);
      return true;
    }

    method WriteString(s: seq<Byte>) returns (ok: bool)
      requires Sound() && String(s).Writable(Power(8)) && writeOffset + |Encode(String(s))| <= UINT32_MAX
      modifies this, buffer
      ensures ok && Valid() && Written() == old(Written()) + Encode(String(s))
      ensures headerSize == old(headerSize) && (buffer == old(buffer) || fresh(buffer))
      ensures buffer[HEADER..headerSize] == old(buffer[HEADER..headerSize])
      ensures old(Thrifty()) ==> Thrifty()
    {
      IntFits(|s|);
      hide Padded, Pod, Power, Fits;
      Assoc(Written(), Pod(|s|, 4), Padded(s));
      ok := WritePOD(4, true, |s|);
      ok := WriteBytes(s);
    }

    method WriteString16(u: seq<Char16>) returns (ok: bool)
      requires Sound() && String16(u).Writable(Power(8)) && writeOffset + |Encode(String16(u))| <= UINT32_MAX
      modifies this, buffer
      ensures ok && Valid() && Written() == old(Written()) + Encode(String16(u))
      ensures headerSize == old(headerSize) && (buffer == old(buffer) || fresh(buffer))
      ensures buffer[HEADER..headerSize] == old(buffer[HEADER..headerSize])
      ensures old(Thrifty()) ==> Thrifty()
    {
      IntFits(|u|);
      hide Padded, Pod, Power, Fits;
      Assoc(Written(), Pod(|u|, 4), Padded(Units(u)));
      ok := WritePOD(4, true, |u|);
      ok := WriteBytes(Units(u));
    }

    /** A negative length is refused and nothing is written. */
    method WriteData(data: seq<Byte>, length: int) returns (ok: bool)
      requires Sound() && length <= |data| && length <= INT_MAX
      requires length >= 0 ==> writeOffset + |Encode(Data(data[..length]))| <= UINT32_MAX
      modifies this, buffer
      ensures ok <==> length >= 0
      ensures !ok ==> Sound() && Written() == old(Written()) && writeOffset == old(writeOffset) && buffer == old(buffer)
                      && buffer[..] == old(buffer[..])
      ensures ok ==> Valid() && Written() == old(Written()) + Encode(Data(data[..length]))
      ensures headerSize == old(headerSize) && (buffer == old(buffer) || fresh(buffer))
      ensures buffer[HEADER..headerSize] == old(buffer[HEADER..headerSize])
      ensures old(Thrifty()) ==> Thrifty()
    {
      if length < 0 {
        return false;
      }
      var bytes := data[..length];
      DataParts(bytes);
      hide Encode, Padded, Pod, Power, Half, Fits;
      Assoc(Written(), Encode(Number(4, true, length)), Encode(Bytes(bytes)));
      ok := WritePOD(4, true, length);
      ok := WriteBytes(bytes);
    }
  }

  /** A pickle that is a copy of bytes starts its payload over when it is written to. */
  method WriteAfterWrapping(data: seq<Byte>, more: seq<Byte>) returns (payload: seq<Byte>)
    requires |data| <= INT_MAX && Wrap(data) != 0 && Align(|more|, 4) <= UINT32_MAX
    ensures payload == Padded(more)
  {
    var pickle := new Pickle.CopyOfWrapped(data);
    hide Wrap, Align, Padded, PayloadSize;
    pickle.WriteBytesCommon(more);
    assert pickle.Payload() == Padded(more);
    payload := pickle.buffer[pickle.headerSize..pickle.headerSize + PayloadSize(pickle.buffer[..])];
  }

  /** A PickleIterator over the payload a pickle has when the iterator is made. */
  class PickleIterator {
    const payload: seq<Byte>
    const sizeTMax: nat
    var readIndex: nat
    const endIndex: nat

    ghost predicate Valid()
      reads this
    {
      readIndex <= endIndex == |payload|
    }

    constructor (payload: seq<Byte>, sizeTMax: nat)
      ensures Valid() && readIndex == 0 && this.payload == payload && this.sizeTMax == sizeTMax
    {
      this.payload, this.sizeTMax := payload, sizeTMax;
      readIndex, endIndex := 0, |payload|;
    }

    /** Never past the end. */
    method Advance(size: nat)
      requires Valid()
      modifies `readIndex
      ensures Valid()
      ensures readIndex == Smaller(old(readIndex) + Align(size, 4), endIndex)
    {
      var alignedSize := Align(size, 4);
      if endIndex - readIndex < alignedSize {
        readIndex := endIndex;
      } else {
        readIndex := readIndex + alignedSize;
      }
    }

    method GetReadPointerAndAdvance(numBytes: int) returns (at: Option<nat>)
      requires Valid()
      modifies `readIndex
      ensures Valid() && Pointer(at, readIndex) == Take(endIndex, old(readIndex), numBytes)
    {
      if numBytes < 0 || endIndex - readIndex < numBytes {
        readIndex := endIndex;
        return None;
      }
      at := Some(readIndex);
      Advance(numBytes);
    }

    method GetReadPointerForElements(numElements: int, sizeElement: nat) returns (at: Option<nat>)
      requires Valid()
      modifies `readIndex
      ensures Valid() && Pointer(at, readIndex) == TakeElements(endIndex, old(readIndex), numElements, sizeElement)
    {
      var numBytes := numElements * sizeElement;
      if !IsInt(numBytes) {
        return None;
      }
      at := GetReadPointerAndAdvance(numBytes);
    }

    method ReadBuiltinType(size: nat, signed: bool) returns (result: Option<Value>)
      requires Valid() && size > 0
      modifies `readIndex
      ensures Valid() && Outcome(result, readIndex) == Read(sizeTMax, payload, old(readIndex), NumberKind(size, signed))
    {
      var at := GetReadPointerAndAdvance(size);
      if at.None? {
        return None;
      }
      result := Some(Number(size, signed, Interpret(FromBytes(payload[at.value..at.value + size]), size, signed)));
    }

    method ReadBool() returns (result: Option<Value>)
      requires Valid()
      modifies `readIndex
      ensures Valid() && Outcome(result, readIndex) == Read(sizeTMax, payload, old(readIndex), BoolKind)
    {
      var at := GetReadPointerAndAdvance(1);
      result := if at.Some? then Some(Bool(payload[at.value] != 0)) else None;
    }

    method ReadSizeT() returns (result: Option<Value>)
      requires Valid()
      modifies `readIndex
      ensures Valid() && Outcome(result, readIndex) == Read(sizeTMax, payload, old(readIndex), SizeTKind)
    {
      var number := ReadBuiltinType(8, false);
      result := if number.Some? && 0 <= number.value.v <= sizeTMax then Some(SizeT(number.value.v)) else None;
    }

    method ReadString() returns (result: Option<Value>)
      requires Valid()
      modifies `readIndex
      ensures Valid() && Outcome(result, readIndex) == Read(sizeTMax, payload, old(readIndex), StringKind)
    {
      var length := ReadBuiltinType(4, true);
      if length.None? {
        return None;
      }
      var at := GetReadPointerAndAdvance(length.value.v);
      result := if at.Some? then Some(String(payload[at.value..at.value + length.value.v])) else None;
    }

    method ReadString16() returns (result: Option<Value>)
      requires Valid()
      modifies `readIndex
      ensures Valid() && Outcome(result, readIndex) == Read(sizeTMax, payload, old(readIndex), String16Kind)
    {
      var length := ReadBuiltinType(4, true);
      if length.None? {
        return None;
      }
      var at := GetReadPointerForElements(length.value.v, 2);
      result := if at.Some? then Some(String16(FromUnits(payload[at.value..at.value + length.value.v * 2]))) else None;
    }

    method ReadData() returns (result: Option<Value>)
      requires Valid()
      modifies `readIndex
      ensures Valid() && Outcome(result, readIndex) == Read(sizeTMax, payload, old(readIndex), DataKind)
    {
      var length := ReadBuiltinType(4, true);
      if length.None? {
        return None;
      }
      var bytes := ReadBytes(length.value.v);
      result := if bytes.Some? then Some(Data(bytes.value.s)) else None;
    }

    method ReadBytes(length: int) returns (result: Option<Value>)
      requires Valid()
      modifies `readIndex
      ensures Valid() && Outcome(result, readIndex) == Read(sizeTMax, payload, old(readIndex), BytesKind(length))
      ensures result.Some? ==> result.value.Bytes?
    {
      var at := GetReadPointerAndAdvance(length);
      result := if at.Some? then Some(Bytes(payload[at.value..at.value + length])) else None;
    }
  }

  // Writing with one class and reading with the other

  /** The Write member for the kind of value. */
  method WriteValue(pickle: Pickle, value: Value)
    requires pickle.Sound() && value.Writable(Power(8)) && pickle.writeOffset + |Encode(value)| <= UINT32_MAX
    modifies pickle, pickle.buffer
    ensures pickle.Valid() && pickle.Written() == old(pickle.Written()) + Encode(value)
    ensures pickle.headerSize == old(pickle.headerSize)
    ensures pickle.buffer == old(pickle.buffer) || fresh(pickle.buffer)
  {
    hide Power, Half, Pod, Padded, Fits, Align, PayloadSize;
    var ok;
    match value
    case Bool(b) => ok := pickle.WriteBool(b);
    case Number(size, signed, v) => ok := pickle.WritePOD(size, signed, v);
    case SizeT(n) => ok := pickle.WriteSizeT(n);
    case String(s) => ok := pickle.WriteString(s);
    case String16(u) => ok := pickle.WriteString16(u);
    case Data(s) =>
      assert s[..|s|] == s;
      ok := pickle.WriteData(s, |s|);
    case Bytes(s) => ok := pickle.WriteBytes(s);
  }

  /** The Read member for the kind. */
  method ReadKind(iterator_: PickleIterator, kind: Kind) returns (result: Option<Value>)
    requires iterator_.Valid() && (kind.NumberKind? ==> kind.size > 0)
    modifies iterator_`readIndex
    ensures iterator_.Valid()
    ensures Outcome(result, iterator_.readIndex)
         == Read(iterator_.sizeTMax, iterator_.payload, old(iterator_.readIndex), kind)
  {
    hide Read;
    match kind
    case BoolKind => result := iterator_.ReadBool();
    case NumberKind(size, signed) => result := iterator_.ReadBuiltinType(size, signed);
    case SizeTKind => result := iterator_.ReadSizeT();
    case StringKind => result := iterator_.ReadString();
    case String16Kind => result := iterator_.ReadString16();
    case DataKind => result := iterator_.ReadData();
    case BytesKind(length) => result := iterator_.ReadBytes(length);
  }

  lemma EncodeNext(sizeTMax: nat, values: seq<Value>, i: nat)
    requires AllWritable(sizeTMax, values) && i < |values|
    ensures EncodeAll(sizeTMax, values[..i + 1]) == EncodeAll(sizeTMax, values[..i]) + Encode(values[i])
  {
    assert values[..i + 1][..i] == values[..i];
  }

  lemma {:induction false} EncodePrefix(sizeTMax: nat, values: seq<Value>, i: nat)
    requires AllWritable(sizeTMax, values) && i <= |values|
    ensures |EncodeAll(sizeTMax, values[..i])| <= |EncodeAll(sizeTMax, values)|
    decreases |values| - i
  {
    hide Encode;
    if i < |values| {
      EncodeNext(sizeTMax, values, i);
      EncodePrefix(sizeTMax, values, i + 1);
    } else {
      assert values[..i] == values;
    }
  }

  /** Values written to a new pickle, as the bytes of its header and payload. */
  method WriteAll(sizeTMax: nat, values: seq<Value>) returns (bytes: seq<Byte>)
    requires AllWritable(sizeTMax, values) && HEADER + |EncodeAll(sizeTMax, values)| <= INT_MAX
    ensures HEADER <= |bytes| <= INT_MAX && HEADER + PayloadSize(bytes) == |bytes|
    ensures bytes[HEADER..] == EncodeAll(sizeTMax, values)
  {
    var pickle := new Pickle();
    hide Encode, PayloadSize, EncodeAll, AllWritable;
    var i := 0;
    assert EncodeAll(sizeTMax, values[..0]) == [] by { NothingEncoded(sizeTMax, values); }
    while i < |values|
      invariant i <= |values| && pickle.Valid() && pickle.headerSize == HEADER && fresh(pickle) && fresh(pickle.buffer)
      invariant AllWritable(sizeTMax, values[..i]) && pickle.Written() == EncodeAll(sizeTMax, values[..i])
    {
      OneWritable(sizeTMax, values, i);
      EncodeNext(sizeTMax, values, i);
      EncodePrefix(sizeTMax, values, i + 1);
      WriteValue(pickle, values[i]);
      i := i + 1;
    }
    assert values[..i] == values;
    var size := HEADER + pickle.writeOffset;
    bytes := pickle.buffer[..size];
    PayloadOfPrefix(pickle.buffer[..], size);
    assert pickle.buffer[..][..size] == bytes;
    assert bytes[HEADER..] == pickle.Written();
  }

  lemma NothingEncoded(sizeTMax: nat, values: seq<Value>)
    ensures AllWritable(sizeTMax, values[..0]) && EncodeAll(sizeTMax, values[..0]) == []
  {
  }

  lemma OneWritable(sizeTMax: nat, values: seq<Value>, i: nat)
    requires AllWritable(sizeTMax, values) && i < |values|
    ensures values[i].Writable(Power(8)) && AllWritable(sizeTMax, values[..i]) && AllWritable(sizeTMax, values[..i + 1])
  {
  }

  /** Whatever is written to a pickle, its bytes are accepted as a pickle, and an iterator over the payload
      reads the same values. */
  method WriteThenRead(sizeTMax: nat, values: seq<Value>) returns (result: Option<seq<Value>>)
    requires AllWritable(sizeTMax, values) && HEADER + |EncodeAll(sizeTMax, values)| <= INT_MAX
    ensures result == Some(values)
  {
    var bytes := WriteAll(sizeTMax, values);
    WrittenWraps(bytes, HEADER, sizeTMax, values);
    hide Wrap, PayloadSize, EncodeAll, AllWritable, Read;
    var kinds := Kinds(values);
    result := ReadBack(bytes[Wrap(bytes)..], sizeTMax, kinds);
  }

  /** Reads one value after the other, until one fails. */
  method ReadBack(payload: seq<Byte>, sizeTMax: nat, kinds: seq<Kind>) returns (result: Option<seq<Value>>)
    requires forall i :: 0 <= i < |kinds| ==> (kinds[i].NumberKind? ==> kinds[i].size > 0)
    ensures result == ReadAll(sizeTMax, payload, 0, kinds).values
  {
    var iterator_ := new PickleIterator(payload, sizeTMax);
    hide Read;
    var values, i := [], 0;
    while i < |kinds|
      invariant i <= |kinds| && iterator_.Valid() && iterator_.payload == payload && iterator_.sizeTMax == sizeTMax
      invariant ReadAll(sizeTMax, payload, 0, kinds[..i]) == Results(Some(values), iterator_.readIndex)
    {
      ReadNext(sizeTMax, payload, kinds, i);
      var value := ReadKind(iterator_, kinds[i]);
      if value.None? {
        FailedRead(sizeTMax, payload, kinds, i + 1);
        return None;
      }
      values := values + [value.value];
      i := i + 1;
    }
    assert kinds[..i] == kinds;
    result := Some(values);
  }

  lemma ReadNext(sizeTMax: nat, payload: seq<Byte>, kinds: seq<Kind>, i: nat)
    requires i < |kinds| && forall k :: 0 <= k < |kinds| ==> (kinds[k].NumberKind? ==> kinds[k].size > 0)
    requires ReadAll(sizeTMax, payload, 0, kinds[..i]).values.Some?
    ensures var first := ReadAll(sizeTMax, payload, 0, kinds[..i]);
            var last := Read(sizeTMax, payload, first.next, kinds[i]);
            ReadAll(sizeTMax, payload, 0, kinds[..i + 1])
            == Results(if last.value.Some? then Some(first.values.value + [last.value.value]) else None, last.next)
  {
    hide Read;
    assert kinds[..i + 1][..i] == kinds[..i];
  }

  lemma {:induction false} FailedRead(sizeTMax: nat, payload: seq<Byte>, kinds: seq<Kind>, i: nat)
    requires i <= |kinds| && forall k :: 0 <= k < |kinds| ==> (kinds[k].NumberKind? ==> kinds[k].size > 0)
    requires ReadAll(sizeTMax, payload, 0, kinds[..i]).values.None?
    ensures ReadAll(sizeTMax, payload, 0, kinds).values.None?
    decreases |kinds| - i
  {
    hide Read;
    if i < |kinds| {
      assert kinds[..i + 1][..i] == kinds[..i];
      FailedRead(sizeTMax, payload, kinds, i + 1);
    } else {
      assert kinds[..i] == kinds;
    }
  }
}
