/** `Tenor`: an immutable duration of non-negative years, months, weeks and
    days. Ordering and equality look only at a cached key, `_totalDays`,
    which counts a year as 360 days, a month as 30 and a week as 7, and
    which is a 32-bit `int` computed without an overflow guard. */
module Tenors {
  import opened Wrappers
  import opened Decimal

  /** `int.MinValue`. */
  const MinInt32: int := -0x8000_0000

  /** The modulus of 32-bit two's complement arithmetic. */
  const Modulus32: int := 0x1_0000_0000

  /** A C# `int`. */
  type Int32 = x: int | MinInt32 <= x <= MaxInt32

  /** A field of a constructed tenor: an `int` the constructor accepted. */
  type Count = x: int | 0 <= x <= MaxInt32

  /** What unchecked C# `int` arithmetic makes of the exact value `x`. */
  function Wrap32(x: int): (r: Int32)
    ensures (x - r) % Modulus32 == 0
    ensures MinInt32 <= x <= MaxInt32 ==> r == x
  {
    var m := (x - MinInt32) % Modulus32;
    assert x - (m + MinInt32) == Modulus32 * ((x - MinInt32) / Modulus32);
    m + MinInt32
  }

  /** Wrapping an intermediate result does not change the final wrapped
      sum: so wrapping after every operation, as C# does, is the same as
      wrapping once at the end. */
  lemma WrapAdd(a: int, b: int)
    ensures Wrap32(Wrap32(a) + b) == Wrap32(a + b)
  {
    var k := (a - Wrap32(a)) / Modulus32;
    assert a == Wrap32(a) + k * Modulus32;
    var x := Wrap32(a) + b - MinInt32;
    assert a + b - MinInt32 == x + k * Modulus32;
    ModShift(x, k);
  }

  lemma ModShift(x: int, k: int)
    ensures (x + k * Modulus32) % Modulus32 == x % Modulus32
  {
    var q := x / Modulus32;
    var r := x % Modulus32;
    assert x + k * Modulus32 == (q + k) * Modulus32 + r;
  }

  /** The parameter name an `ArgumentOutOfRangeException` carries. */
  datatype OutOfRange = OutOfRange(paramName: string)

  datatype Tenor = Tenor(years: Count, months: Count, weeks: Count, days: Count) {

    /** The length in days the key is meant to hold, in exact arithmetic. */
    function NormalizedDays(): nat {
      years * 360 + months * 30 + weeks * 7 + days
    }

    /** `_totalDays`: the normalised length as a 32-bit `int`; it equals
        the exact length whenever that fits in an `int`, and otherwise
        agrees with it only modulo 2^32. */
    function TotalDays(): (r: Int32)
      ensures (NormalizedDays() - r) % Modulus32 == 0
      ensures NormalizedDays() <= MaxInt32 ==> r == NormalizedDays()
    {
      Wrap32(NormalizedDays())
    }

    /** `CompareTo(Tenor)`. */
    function CompareTo(value: Tenor): (r: int)
      ensures r == Compare(this, value)
    {
      var t := value.TotalDays();
      if TotalDays() > t then 1 else if TotalDays() < t then -1 else 0
    }

    /** `CompareTo(object)`: a null reference sorts first, anything that
        is not a tenor is an error. */
    function CompareToObject(value: Object): (r: Result<int, ArgumentException>)
      ensures value.Null? ==> r == Success(1)
      ensures value.NotTenor? ==> r == Failure(ArgumentException("Must Be Tenor"))
      ensures value.Boxed? ==> r == Success(Compare(this, value.tenor))
    {
      match value
      case Null => Success(1)
      case NotTenor => Failure(ArgumentException("Must Be Tenor"))
      case Boxed(other) =>
        var t := other.TotalDays();
        Success(if TotalDays() > t then 1 else if TotalDays() < t then -1 else 0)
    }

    /** `Equals(Tenor)`: equal keys, not equal fields. */
    function Equals(other: Tenor): (r: bool)
      ensures r <==> Compare(this, other) == 0
    {
      TotalDays() == other.TotalDays()
    }

    /** `Equals(object)`: false for a null reference or a non-tenor. */
    function EqualsObject(value: Object): (r: bool)
      ensures r <==> value.Boxed? && Compare(this, value.tenor) == 0
    {
      match value
      case Boxed(other) => TotalDays() == other.TotalDays()
      case _ => false
    }

    /** `ToString()`: the positive fields as `{n}y{n}m{n}w{n}d`, in that
        order; the all-zero tenor renders as the empty string. */
    function ToString(): (s: string)
      ensures s == [] <==> this == Zero
    {
      Part(years, 'y') + Part(months, 'm') + Part(weeks, 'w') + Part(days, 'd')
    }
  }

  /** `default(Tenor)`. */
  const Zero: Tenor := Tenor(0, 0, 0, 0)

  /** One field of `ToString`: its decimal digits and unit letter, or
      nothing for a zero field. */
  function Part(n: Count, unit: char): (s: string)
    ensures s == [] <==> n == 0
    ensures n > 0 ==> s[|s| - 1] == unit && AllDigits(s[..|s| - 1]) && DecimalValue(s[..|s| - 1]) == n
  {
    if n > 0 then
      assert (NatToString(n) + [unit])[..|NatToString(n)|] == NatToString(n);
      NatToString(n) + [unit]
    else []
  }

  /** The argument of `CompareTo(object)` and `Equals(object)`: a null
      reference, a boxed tenor, or an object of some other type. */
  datatype Object = Null | Boxed(tenor: Tenor) | NotTenor

  /** An `ArgumentException` and its message. */
  datatype ArgumentException = ArgumentException(message: string)

  /** `new Tenor(years, months, weeks, days)`: rejects the first negative
      argument in the order years, months, weeks, days. */
  function New(years: Int32, months: Int32, weeks: Int32, days: Int32): (r: Result<Tenor, OutOfRange>)
    ensures r.Success? <==> years >= 0 && months >= 0 && weeks >= 0 && days >= 0
    ensures years < 0 ==> r == Failure(OutOfRange("years"))
    ensures years >= 0 && months < 0 ==> r == Failure(OutOfRange("months"))
    ensures years >= 0 && months >= 0 && weeks < 0 ==> r == Failure(OutOfRange("weeks"))
    ensures years >= 0 && months >= 0 && weeks >= 0 && days < 0 ==> r == Failure(OutOfRange("days"))
    ensures r.Success? ==> r.value.years == years && r.value.months == months
                           && r.value.weeks == weeks && r.value.days == days
    ensures r.Success? ==> r.value.TotalDays() == Wrap32(years * 360 + months * 30 + weeks * 7 + days)
  {
    if years < 0 then Failure(OutOfRange("years"))
    else if months < 0 then Failure(OutOfRange("months"))
    else if weeks < 0 then Failure(OutOfRange("weeks"))
    else if days < 0 then Failure(OutOfRange("days"))
    else Success(Tenor(years, months, weeks, days))
  }

  /** Wrapping both operands of a sum does not change the wrapped sum. */
  lemma WrapSum(a: int, b: int)
    ensures Wrap32(Wrap32(a) + Wrap32(b)) == Wrap32(a + b)
  {
    WrapAdd(a, Wrap32(b));
    WrapAdd(b, a);
  }

  /** `_totalDays` as C# evaluates `years * 360 + months * 30 + weeks * 7 + days`:
      every product and every sum wrapped to 32 bits. */
  lemma StepwiseTotalDays(t: Tenor)
    ensures Wrap32(Wrap32(Wrap32(Wrap32(t.years * 360) + Wrap32(t.months * 30))
                          + Wrap32(t.weeks * 7)) + t.days)
            == t.TotalDays()
  {
    WrapSum(t.years * 360, t.months * 30);
    WrapSum(t.years * 360 + t.months * 30, t.weeks * 7);
    WrapAdd(t.years * 360 + t.months * 30 + t.weeks * 7, t.days);
  }

  /** `Compare(t1, t2)`: the sign of the difference of the keys, computed
      by comparison so the difference itself cannot overflow. */
  function Compare(t1: Tenor, t2: Tenor): (r: int)
    ensures r == 1 <==> t1.TotalDays() > t2.TotalDays()
    ensures r == -1 <==> t1.TotalDays() < t2.TotalDays()
    ensures r == 0 <==> t1.TotalDays() == t2.TotalDays()
  {
    if t1.TotalDays() > t2.TotalDays() then 1
    else if t1.TotalDays() < t2.TotalDays() then -1
    else 0
  }

  /** Static `Equals(t1, t2)`. */
  function AreEqual(t1: Tenor, t2: Tenor): (r: bool)
    ensures r <==> t1.Equals(t2)
    ensures r <==> t2.Equals(t1)
  {
    t1.TotalDays() == t2.TotalDays()
  }

  /** `operator ==`. */
  function Eq(t1: Tenor, t2: Tenor): (r: bool)
    ensures r <==> Compare(t1, t2) == 0
  {
    t1.TotalDays() == t2.TotalDays()
  }

  /** `operator !=`. */
  function Ne(t1: Tenor, t2: Tenor): (r: bool)
    ensures r <==> !Eq(t1, t2)
  {
    t1.TotalDays() != t2.TotalDays()
  }

  /** `operator <`. */
  function Lt(t1: Tenor, t2: Tenor): (r: bool)
    ensures r <==> Compare(t1, t2) < 0
  {
    t1.TotalDays() < t2.TotalDays()
  }

  /** `operator <=`. */
  function Le(t1: Tenor, t2: Tenor): (r: bool)
    ensures r <==> Compare(t1, t2) <= 0
  {
    t1.TotalDays() <= t2.TotalDays()
  }

  /** `operator >`. */
  function Gt(t1: Tenor, t2: Tenor): (r: bool)
    ensures r <==> Compare(t1, t2) > 0
    ensures r <==> Lt(t2, t1)
  {
    t1.TotalDays() > t2.TotalDays()
  }

  /** `operator >=`. */
  function Ge(t1: Tenor, t2: Tenor): (r: bool)
    ensures r <==> Compare(t1, t2) >= 0
    ensures r <==> Le(t2, t1)
  {
    t1.TotalDays() >= t2.TotalDays()
  }

  /** `Compare` is antisymmetric and returns only -1, 0 or 1. */
  lemma CompareAntisymmetric(t1: Tenor, t2: Tenor)
    ensures Compare(t1, t2) in {-1, 0, 1}
    ensures Compare(t1, t2) == -Compare(t2, t1)
  {
  }

  /** `Compare` is transitive: the key orders tenors as a total preorder,
      wrapped or not. */
  lemma CompareTransitive(t1: Tenor, t2: Tenor, t3: Tenor)
    requires Compare(t1, t2) <= 0 && Compare(t2, t3) <= 0
    ensures Compare(t1, t3) <= 0
  {
  }

  /** The key is exact while the normalised length fits in an `int`. */
  predicate NoOverflow(t: Tenor) {
    t.NormalizedDays() <= MaxInt32
  }

  /** Within that range, `Compare` orders tenors by their normalised length. */
  lemma CompareByLength(t1: Tenor, t2: Tenor)
    requires NoOverflow(t1) && NoOverflow(t2)
    ensures Compare(t1, t2) == 1 <==> t1.NormalizedDays() > t2.NormalizedDays()
    ensures Compare(t1, t2) == -1 <==> t1.NormalizedDays() < t2.NormalizedDays()
    ensures Compare(t1, t2) == 0 <==> t1.NormalizedDays() == t2.NormalizedDays()
  {
  }

  /** Outside it the key wraps: 5965233 years (2147483880 days) sorts
      before one day. */
  lemma WrapBreaksLength()
    ensures Tenor(5965233, 0, 0, 0).NormalizedDays() > Tenor(0, 0, 0, 1).NormalizedDays()
    ensures Tenor(5965233, 0, 0, 0).TotalDays() == -2147483416
    ensures Compare(Tenor(5965233, 0, 0, 0), Tenor(0, 0, 0, 1)) == -1
  {
  }

  /** Equality is on the key, not the fields: one week and one day equals
      eight days, and the two still print differently. */
  lemma WeekAndDayEqualsEightDays()
    ensures Tenor(0, 0, 1, 1).Equals(Tenor(0, 0, 0, 8))
    ensures AreEqual(Tenor(0, 0, 1, 1), Tenor(0, 0, 0, 8)) && Eq(Tenor(0, 0, 1, 1), Tenor(0, 0, 0, 8))
    ensures !Ne(Tenor(0, 0, 1, 1), Tenor(0, 0, 0, 8))
    ensures Tenor(0, 0, 1, 1) != Tenor(0, 0, 0, 8)
    ensures Tenor(0, 0, 1, 1).ToString() == "1w1d"
    ensures Tenor(0, 0, 0, 8).ToString() == "8d"
  {
    assert NatToString(1) == "1";
    assert NatToString(8) == "8";
  }
}
