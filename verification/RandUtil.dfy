/** Rejection sampling in RandGenerator, and RandInt on top of it (base/rand_util.cc). */
module RandUtil {
  import opened Options

  const UINT64_MAX: nat := 0xFFFF_FFFF_FFFF_FFFF
  const INT_MIN: int := -0x8000_0000
  const INT_MAX: int := 0x7FFF_FFFF

  type Uint64 = x: int | 0 <= x <= UINT64_MAX
  type Int = x: int | INT_MIN <= x <= INT_MAX

  /** How many whole multiples of the range are accepted. */
  function Rounds(range: Uint64): (q: nat)
    requires range > 0
    ensures q >= 1 && q * range <= UINT64_MAX < (q + 1) * range
  {
    var q := UINT64_MAX / range;
    assert UINT64_MAX == q * range + UINT64_MAX % range;
    assert (q + 1) * range == q * range + range;
    AtLeastOne(UINT64_MAX, range);
    q
  }

  lemma AtLeastOne(a: nat, b: nat)
    requires a >= b > 0
    ensures a / b >= 1
  {
    var q := a / b;
    assert a == q * b + a % b;
    Scaled(q, b);
  }

  lemma Scaled(d: int, n: int)
    requires n > 0
    ensures d >= 1 ==> d * n >= n
    ensures d <= -1 ==> d * n <= -n
    ensures d == 0 ==> d * n == 0
  {
  }

  predicate Accepted(range: Uint64, value: Uint64)
    requires range > 0
  {
    value <= Rounds(range) * range - 1
  }

  /** `values` is what RandUint64 will give; the loop ends at the first that is accepted. */
  method RandGenerator(range: Uint64, values: seq<Uint64>) returns (result: Option<Uint64>, used: nat)
    requires range > 0
    ensures used <= |values|
    ensures result.None? ==> used == |values| && forall i :: 0 <= i < |values| ==> !Accepted(range, values[i])
    ensures result.Some? ==>
      && used > 0 && Accepted(range, values[used - 1])
      && (forall i :: 0 <= i < used - 1 ==> !Accepted(range, values[i]))
      && result.value < range && values[used - 1] in Preimages(range, result.value)
  {
    var maxAcceptableValue := (UINT64_MAX / range) * range - 1;
    assert maxAcceptableValue == Rounds(range) * range - 1;
    used := 0;
    while used < |values|
      invariant used <= |values| && forall i :: 0 <= i < used ==> !Accepted(range, values[i])
    {
      var value := values[used];
      used := used + 1;
      if value <= maxAcceptableValue {
        assert value in Preimages(range, value % range);
        return Some(value % range), used;
      }
    }
    result := None;
  }

  /** The accepted values that give a result. */
  ghost function Preimages(range: Uint64, result: nat): set<int>
    requires range > 0
  {
    Below(Rounds(range), range, result)
  }

  ghost function Below(q: nat, range: int, result: nat): set<int>
    requires range > 0
  {
    UpTo(q * range, range, result)
  }

  ghost function UpTo(bound: int, range: int, result: nat): set<int>
    requires range > 0
  {
    set v | 0 <= v < bound && v % range == result
  }

  lemma MultipleMod(q: nat, range: int, r: int)
    requires range > 0 && 0 <= r < range
    ensures (q * range + r) % range == r
  {
    var v := q * range + r;
    SameQuotient(q, v / range, range, r, v % range);
  }

  lemma SameQuotient(q: int, k: int, range: int, r: int, s: int)
    requires range > 0 && 0 <= r < range && 0 <= s < range && q * range + r == k * range + s
    ensures q == k && r == s
  {
    var d := q - k;
    assert d * range == q * range - k * range == s - r;
    Scaled(d, range);
  }

  /** In each round every result occurs once. */
  lemma {:induction false} BelowCounts(q: nat, range: int, result: nat)
    requires range > 0 && result < range
    ensures |Below(q, range, result)| == q
  {
    if q == 0 {
      assert Below(0, range, result) == {};
    } else {
      BelowCounts(q - 1, range, result);
      var start := (q - 1) * range;
      assert q * range == start + range && start >= 0;
      forall v | start <= v < start + range ensures v % range == v - start {
        MultipleMod(q - 1, range, v - start);
      }
      OneRound(start, range, result);
    }
  }

  lemma OneRound(start: nat, range: int, result: nat)
    requires range > 0 && result < range
    requires forall v :: start <= v < start + range ==> v % range == v - start
    ensures |UpTo(start + range, range, result)| == |UpTo(start, range, result)| + 1
  {
    var last := start + result;
    assert last !in UpTo(start, range, result);
    assert UpTo(start + range, range, result) == UpTo(start, range, result) + {last};
  }

  /** Every result below the range has the same number of accepted values behind it. */
  lemma Uniform(range: Uint64, result: nat)
    requires range > 0 && result < range
    ensures |Preimages(range, result)| == UINT64_MAX / range
    ensures forall v: Uint64 :: v in Preimages(range, result) <==> Accepted(range, v) && v % range == result
  {
    BelowCounts(Rounds(range), range, result);
  }

  /** Of the values below the greatest, more than half are accepted, so the loop is short. */
  lemma MostAreAccepted(range: Uint64)
    requires range > 0
    ensures Rounds(range) * range <= UINT64_MAX < 2 * (Rounds(range) * range)
    ensures forall v: Uint64 :: Accepted(range, v) <==> v < Rounds(range) * range
  {
    var q := Rounds(range);
    assert (q + 1) * range == q * range + range;
    assert q * range >= range by { assert (q - 1) * range >= 0; assert q * range == (q - 1) * range + range; }
  }

  // RandInt

  /** Truncation to 32 bits, and wrap-around of a sum. */
  function ToInt(x: int): (i: Int) {
    (x - INT_MIN) % 0x1_0000_0000 + INT_MIN
  }

  /** The conversions to uint64 wrap around, and so does their difference. */
  function Range(min: Int, max: Int): (r: int)
    ensures 0 <= r <= UINT64_MAX
  {
    (max % (UINT64_MAX + 1) - min % (UINT64_MAX + 1) + 1) % (UINT64_MAX + 1)
  }

  function Chosen(min: Int, drawn: int): Int {
    ToInt(min + ToInt(drawn))
  }

  /** The first accepted value is one of those behind the result. */
  ghost predicate FirstAccepted(range: Uint64, values: seq<Uint64>, result: nat)
    requires range > 0
  {
    exists i :: 0 <= i < |values| && values[i] in Preimages(range, result) && Accepted(range, values[i])
      && (forall j :: 0 <= j < i ==> !Accepted(range, values[j]))
  }

  method RandInt(min: Int, max: Int, values: seq<Uint64>) returns (result: Option<int>)
    requires min <= max
    ensures result.None? <==> forall i :: 0 <= i < |values| ==> !Accepted(max - min + 1, values[i])
    ensures result.Some? ==> min <= result.value <= max && FirstAccepted(max - min + 1, values, result.value - min)
  {
    RangeIs(min, max);
    var range := Range(min, max);
    var drawn, used := RandGenerator(range, values);
    hide Range, Chosen, Preimages, Accepted;
    if drawn.None? {
      return None;
    }
    ChosenIs(min, max, drawn.value);
    result := Some(Chosen(min, drawn.value));
    assert result.value - min == drawn.value;
  }

  lemma RangeIs(min: Int, max: Int)
    requires min <= max
    ensures Range(min, max) == max - min + 1
  {
  }

  lemma ChosenIs(min: Int, max: Int, drawn: int)
    requires min <= max && 0 <= drawn <= max - min
    ensures Chosen(min, drawn) == min + drawn
  {
  }

  /** Every integer from min to max is hit, each by exactly one draw, and no other is. */
  lemma EachHitOnce(min: Int, max: Int, result: int)
    requires min <= max
    ensures min <= result <= max <==> exists drawn :: 0 <= drawn < Range(min, max) && Chosen(min, drawn) == result
    ensures forall a, b ::
      0 <= a < Range(min, max) && 0 <= b < Range(min, max) && Chosen(min, a) == Chosen(min, b) ==> a == b
  {
    RangeIs(min, max);
    forall drawn | 0 <= drawn < Range(min, max) ensures Chosen(min, drawn) == min + drawn {
      ChosenIs(min, max, drawn);
    }
    if min <= result <= max {
      assert Chosen(min, result - min) == result;
    }
  }

  /** The sum in RandInt wraps around for some draw exactly when the interval is wider than an int. */
  lemma WrapsIff(min: Int, max: Int)
    requires min <= max
    ensures (forall drawn :: 0 <= drawn < Range(min, max) ==> INT_MIN <= min + ToInt(drawn) <= INT_MAX)
       <==> max - min <= INT_MAX
  {
    RangeIs(min, max);
    if max - min > INT_MAX {
      var drawn := INT_MAX + 1;
      assert ToInt(drawn) == INT_MIN && min < 0;
    }
  }
}
