/** Scaled-integer numbers of the desk calculator and the integer helpers
    IntPower, RescaleNumber, IntMax, IntMin and IntAbs. Integers are
    mathematical: the int64/int32 widths of the original are not modelled. */
module Numbers {

  /** A fixed-point decimal: it stands for `number / 10^scale`. */
  datatype ScaledNumber = ScaledNumber(number: int, scale: int)

  /** The numeric zero every fresh stack item holds. */
  const Zero: ScaledNumber := ScaledNumber(0, 0)

  /** The start values of IntMax and IntMin (math.MinInt32, math.MaxInt32). */
  const MinInt32: int := -0x8000_0000
  const MaxInt32: int := 0x7fff_ffff

  /** n to a natural power. */
  function Pow(n: int, k: nat): (r: int)
    ensures n > 0 ==> r > 0
  {
    if k == 0 then 1 else n * Pow(n, k - 1)
  }

  /** Absolute value (IntAbs); the int32 overflow of -MinInt32 is not modelled. */
  function Abs(n: int): (r: int)
    ensures r >= 0 && (r == n || r == -n)
  {
    if n >= 0 then n else n * -1
  }

  /** Go's integer `/`: the quotient truncated toward zero. */
  function Quot(a: int, b: int): int
    requires b != 0
  {
    if a >= 0 && b > 0 then a / b
    else if a >= 0 then -(a / -b)
    else if b > 0 then -(-a / b)
    else -a / -b
  }

  /** Go's integer `%`: the remainder takes the sign of the dividend. */
  function Rem(a: int, b: int): int
    requires b != 0
  {
    if a >= 0 && b > 0 then a % b
    else if a >= 0 then a % -b
    else if b > 0 then -(-a % b)
    else -(-a % -b)
  }

  /** Quot and Rem are Go's truncated division: they recombine to the
      dividend, the remainder is smaller than the divisor and never has the
      opposite sign of the dividend. */
  lemma QuotRem(a: int, b: int)
    requires b != 0
    ensures a == Quot(a, b) * b + Rem(a, b)
    ensures Abs(Rem(a, b)) < Abs(b)
    ensures a >= 0 ==> Rem(a, b) >= 0
    ensures a <= 0 ==> Rem(a, b) <= 0
  {
    if a >= 0 && b > 0 {
      assert a == (a / b) * b + a % b;
    } else if a >= 0 {
      assert a == (a / -b) * -b + a % -b;
    } else if b > 0 {
      assert -a == (-a / b) * b + -a % b;
    } else {
      assert -a == (-a / -b) * -b + -a % -b;
    }
  }

  /** x quotiented k times by n, as IntPower's second loop does. */
  function RepeatQuot(m: int, n: int, k: nat): int
    requires n != 0
    decreases k
  {
    if k == 0 then m else RepeatQuot(Quot(m, n), n, k - 1)
  }

  /** What IntPower(n, y) returns: for y > 0 it multiplies n into itself
      y - 1 times; otherwise it divides n by n once per value of i from 0
      down to y, that is 1 - y times. Go panics on n == 0 there. */
  function IntPowerValue(n: int, y: int): int
    requires y > 0 || n != 0
  {
    if y > 0 then Pow(n, y) else RepeatQuot(n, n, 1 - y)
  }

  /** IntPower, with its two loops. */
  method IntPower(n: int, y: int) returns (m: int)
    requires y > 0 || n != 0
    ensures m == IntPowerValue(n, y)
  {
    m := n;
    if y > 0 {
      var i := 1;
      while i < y
        invariant 1 <= i <= y
        invariant m == Pow(n, i)
      {
        m := m * n;
        i := i + 1;
      }
    } else {
      var i := 0;
      while i >= y
        invariant y - 1 <= i <= 0
        invariant RepeatQuot(m, n, i - y + 1) == IntPowerValue(n, y)
      {
        m := Quot(m, n);
        i := i - 1;
      }
    }
  }

  /** For positive exponents IntPower is a power: the exponents add up
      when two results are multiplied. */
  lemma IntPowerAdd(n: int, a: int, b: int)
    requires a >= 1 && b >= 1
    ensures IntPowerValue(n, a + b) == IntPowerValue(n, a) * IntPowerValue(n, b)
  {
    PowAdd(n, a, b);
  }

  /** For the exponent zero IntPower gives 1 (n / n). */
  lemma IntPowerZero(n: int)
    requires n != 0
    ensures IntPowerValue(n, 0) == 1
  {
    QuotSelf(n);
  }

  lemma QuotSelf(n: int)
    requires n != 0
    ensures Quot(n, n) == 1
  {
  }

  lemma {:induction false} RepeatQuotVanishes(m: int, n: int, k: nat)
    requires Abs(n) >= 2 && Abs(m) <= 1
    ensures RepeatQuot(m, n, k + 1) == 0
    decreases k
  {
    assert Quot(m, n) == 0;
    if k > 0 {
      RepeatQuotVanishes(Quot(m, n), n, k - 1);
    }
  }

  /** For a negative exponent IntPower gives 0 whenever |n| >= 2: the first
      division yields 1 and the next one 0. */
  lemma IntPowerNegative(n: int, y: int)
    requires Abs(n) >= 2 && y < 0
    ensures IntPowerValue(n, y) == 0
  {
    QuotSelf(n);
    RepeatQuotVanishes(1, n, -y - 1);
  }

  /** RescaleNumber as written: the value is multiplied by
      IntPower(10, newScale - scale) and the scale is left as it was. */
  function Rescale(n: ScaledNumber, newScale: int): (r: ScaledNumber)
    ensures r.scale == n.scale
  {
    ScaledNumber(n.number * IntPowerValue(10, newScale - n.scale), n.scale)
  }

  /** Rescaling to a scale at least the current one multiplies the value by
      10^(difference) and keeps the scale. */
  lemma RescaleUp(n: ScaledNumber, newScale: int)
    requires newScale >= n.scale
    ensures Rescale(n, newScale) == ScaledNumber(n.number * Pow(10, newScale - n.scale), n.scale)
  {
    if newScale == n.scale {
      IntPowerZero(10);
    }
  }

  /** Rescaling to a smaller scale zeroes the value (IntPower(10, -k) == 0). */
  lemma RescaleDown(n: ScaledNumber, newScale: int)
    requires newScale < n.scale
    ensures Rescale(n, newScale) == ScaledNumber(0, n.scale)
  {
    IntPowerNegative(10, newScale - n.scale);
  }

  /** Rescaling to the current scale changes nothing. */
  lemma RescaleSame(n: ScaledNumber)
    ensures Rescale(n, n.scale) == n
  {
    IntPowerZero(10);
  }

  /** RescaleNumber, which updates the number in place through IntPower. */
  method RescaleNumber(n: ScaledNumber, newScale: int) returns (r: ScaledNumber)
    ensures r == Rescale(n, newScale)
  {
    var factor := IntPower(10, newScale - n.scale);
    r := ScaledNumber(n.number * factor, n.scale);
  }

  /** The coercion to an unscaled integer used by i, o, k and Q: the
      number itself at scale 0 and zero at any positive scale. */
  lemma RescaleToZero(n: ScaledNumber)
    requires n.scale >= 0
    ensures Rescale(n, 0).number == if n.scale == 0 then n.number else 0
  {
    if n.scale == 0 {
      RescaleSame(n);
    } else {
      RescaleDown(n, 0);
    }
  }

  /** What IntMax returns: the largest of MinInt32 and the arguments. */
  function MaxOf(na: seq<int>): (m: int)
    ensures m >= MinInt32
    ensures forall k | 0 <= k < |na| :: na[k] <= m
    ensures m == MinInt32 || exists k | 0 <= k < |na| :: na[k] == m
  {
    if na == [] then MinInt32
    else
      var m := MaxOf(na[..|na| - 1]);
      if na[|na| - 1] > m then na[|na| - 1] else m
  }

  /** What IntMin returns: the smallest of MaxInt32 and the arguments. */
  function MinOf(na: seq<int>): (m: int)
    ensures m <= MaxInt32
    ensures forall k | 0 <= k < |na| :: m <= na[k]
    ensures m == MaxInt32 || exists k | 0 <= k < |na| :: na[k] == m
  {
    if na == [] then MaxInt32
    else
      var m := MinOf(na[..|na| - 1]);
      if na[|na| - 1] < m then na[|na| - 1] else m
  }

  /** IntMax, with its loop over the arguments. */
  method IntMax(na: seq<int>) returns (max: int)
    ensures max == MaxOf(na)
  {
    max := MinInt32;
    var i := 0;
    while i < |na|
      invariant 0 <= i <= |na|
      invariant max == MaxOf(na[..i])
    {
      assert na[..i + 1][..i] == na[..i];
      if na[i] > max {
        max := na[i];
      }
      i := i + 1;
    }
    assert na[..i] == na;
  }

  /** IntMin, with its loop over the arguments. */
  method IntMin(na: seq<int>) returns (min: int)
    ensures min == MinOf(na)
  {
    min := MaxInt32;
    var i := 0;
    while i < |na|
      invariant 0 <= i <= |na|
      invariant min == MinOf(na[..i])
    {
      assert na[..i + 1][..i] == na[..i];
      if na[i] < min {
        min := na[i];
      }
      i := i + 1;
    }
    assert na[..i] == na;
  }

  /** The maximum of the ordinary arguments ignores the MinInt32 start value
      whenever one argument is at least that large. */
  lemma MaxOfThree(a: int, b: int, c: int)
    requires a >= MinInt32 || b >= MinInt32 || c >= MinInt32
    ensures MaxOf([a, b, c]) == if a >= b && a >= c then a else if b >= c then b else c
  {
    assert [a][..0] == [];
    assert MaxOf([a]) == if a > MinInt32 then a else MinInt32;
    assert [a, b][..1] == [a];
    assert [a, b, c][..2] == [a, b];
  }

  lemma MinOfTwo(a: int, b: int)
    requires a <= MaxInt32 || b <= MaxInt32
    ensures MinOf([a, b]) == if a <= b then a else b
  {
    assert [a][..0] == [];
    assert MinOf([a]) == if a < MaxInt32 then a else MaxInt32;
    assert [a, b][..1] == [a];
  }

  /** The common scale max(0, a.scale, b.scale) at which `<` and `>` compare. */
  function CommonScale(a: ScaledNumber, b: ScaledNumber): (k: nat)
    ensures k >= a.scale && k >= b.scale
  {
    if a.scale >= b.scale && a.scale >= 0 then a.scale
    else if b.scale >= 0 then b.scale
    else 0
  }

  /** The number's value written at scale k, which is at least its own. */
  function AtScale(n: ScaledNumber, k: int): int
    requires k >= n.scale
  {
    n.number * Pow(10, k - n.scale)
  }

  /** The comparison of `<` and `>`: the value number / 10^scale of a is
      below that of b, decided exactly at the common scale. */
  predicate Below(a: ScaledNumber, b: ScaledNumber)
  {
    var k := CommonScale(a, b);
    AtScale(a, k) < AtScale(b, k)
  }

  lemma {:induction false} PowAdd(n: int, i: nat, j: nat)
    ensures Pow(n, i + j) == Pow(n, i) * Pow(n, j)
  {
    if i > 0 {
      PowAdd(n, i - 1, j);
      assert Pow(n, i + j) == n * Pow(n, (i - 1) + j);
      MulAssoc(n, Pow(n, i - 1), Pow(n, j));
    }
  }

  lemma MulMono(x: int, y: int, p: int)
    requires p > 0
    ensures x * p < y * p <==> x < y
  {
    if x < y {
      assert (y - x) * p > 0;
    }
    if x * p < y * p {
      assert (y - x) * p > 0;
    }
  }

  /** Writing a number at a larger scale multiplies it by the power of ten
      of the difference. */
  lemma AtScaleShift(n: ScaledNumber, k: int, j: nat)
    requires k >= n.scale
    ensures AtScale(n, k + j) == AtScale(n, k) * Pow(10, j)
  {
    var d: nat := k - n.scale;
    assert k + j - n.scale == d + j;
    PowAdd(10, d, j);
    MulAssoc(n.number, Pow(10, d), Pow(10, j));
  }

  lemma MulAssoc(x: int, y: int, z: int)
    ensures x * (y * z) == (x * y) * z
  {
  }

  /** The comparison does not depend on the scale it is carried out at: any
      scale at least both numbers' scales gives the same answer, so Below
      compares the values the numbers stand for. */
  lemma BelowAtAnyScale(a: ScaledNumber, b: ScaledNumber, k: int)
    requires k >= a.scale && k >= b.scale && k >= 0
    ensures Below(a, b) <==> AtScale(a, k) < AtScale(b, k)
  {
    var c := CommonScale(a, b);
    AtScaleShift(a, c, k - c);
    AtScaleShift(b, c, k - c);
    MulMono(AtScale(a, c), AtScale(b, c), Pow(10, k - c));
  }

  /** Numbers at the same scale compare by their integers. */
  lemma BelowSameScale(a: ScaledNumber, b: ScaledNumber)
    requires a.scale == b.scale
    ensures Below(a, b) <==> a.number < b.number
  {
    var k := CommonScale(a, b);
    AtScaleShift(a, a.scale, k - a.scale);
    AtScaleShift(b, b.scale, k - b.scale);
    MulMono(a.number, b.number, Pow(10, k - a.scale));
  }
}
