/** The oracle's arithmetic helpers, with the machine width written out. */
module Arithmetic {
  import opened Prelude
  import opened Sums

  const U256_MAX: nat := U128_MAX * U128_MAX + 2 * U128_MAX
  const STAKE_MULTIPLIER_BASE: nat := 10_000

  /** `a * b / divisor` with a 256-bit intermediate product and a checked narrowing to 128 bits. */
  function CalcProduct(a: nat, b: nat, divisor: nat): Result<nat> {
    var product := a * b;
    :- Need(product <= U256_MAX, Overflow);
    :- Need(divisor != 0, DivisionByZero);
    var quotient := product / divisor;
    :- Need(quotient <= U128_MAX, Overflow);
    Ok(quotient)
  }

  function MultiplyStake(stake: nat, multiplier: Option<nat>): Result<nat> {
    match multiplier
    case None => Ok(stake)
    case Some(m) =>
      :- Need(stake * m <= U128_MAX, Overflow);
      Ok(stake * m / STAKE_MULTIPLIER_BASE)
  }

  /** `part * x / whole`, rounded down: the share of `x` that belongs to `part` of `whole`. */
  function Share(part: nat, x: nat, whole: nat): nat
    requires whole > 0
  {
    part * x / whole
  }

  lemma MulMonotone(a: nat, b: nat, c: nat, d: nat)
    requires a <= c && b <= d
    ensures a * b <= c * d
  {
    assert a * b <= c * b;
    assert c * b <= c * d;
  }

  lemma CancelStrict(a: nat, b: nat, d: nat)
    requires a * d < b * d
    ensures a < b
  {
    if b <= a { MulMonotone(b, d, a, d); }
  }

  lemma DivBounds(n: nat, d: nat)
    requires d > 0
    ensures n / d * d <= n < n / d * d + d
  {
  }

  lemma ShareBounds(part: nat, x: nat, whole: nat)
    requires whole > 0
    ensures Share(part, x, whole) * whole <= part * x < Share(part, x, whole) * whole + whole
  {
    DivBounds(part * x, whole);
  }

  /** A share `part` of `whole`, taken of `x`, never exceeds `x`. */
  lemma ShareAtMost(part: nat, x: nat, whole: nat)
    requires whole > 0 && part <= whole
    ensures Share(part, x, whole) <= x
  {
    ShareBounds(part, x, whole);
    MulMonotone(part, x, whole, x);
    CancelStrict(Share(part, x, whole), x + 1, whole);
  }

  /** The share is below the part itself when what is shared out is below the whole. */
  lemma ShareBelowPart(part: nat, x: nat, whole: nat)
    requires x < whole && part > 0
    ensures Share(part, x, whole) < part
  {
    ShareBounds(part, x, whole);
    assert part * x < part * whole;
    CancelStrict(Share(part, x, whole), part, whole);
  }

  /** On 128-bit arguments the product never leaves 256 bits, so a share computes exactly. */
  lemma CalcProductIsExactFloor(part: nat, x: nat, whole: nat)
    requires part <= whole <= U128_MAX && x <= U128_MAX && whole > 0
    ensures CalcProduct(part, x, whole) == Ok(Share(part, x, whole))
    ensures Share(part, x, whole) <= x
  {
    MulMonotone(part, x, U128_MAX, U128_MAX);
    ShareAtMost(part, x, whole);
  }

  /** The narrowing panics exactly when the true quotient needs more than 128 bits. */
  lemma CalcProductPanics(a: nat, b: nat, divisor: nat)
    requires a <= U128_MAX && b <= U128_MAX && divisor > 0
    ensures CalcProduct(a, b, divisor).Panic? <==> a * b >= (U128_MAX + 1) * divisor
  {
    MulMonotone(a, b, U128_MAX, U128_MAX);
    ShareBounds(a, b, divisor);
    var q := Share(a, b, divisor);
    if q > U128_MAX {
      MulMonotone(U128_MAX + 1, divisor, q, divisor);
    } else {
      MulMonotone(q + 1, divisor, U128_MAX + 1, divisor);
      assert (q + 1) * divisor == q * divisor + divisor;
    }
  }

  ghost function Shares<K>(weights: map<K, nat>, x: nat, whole: nat): map<K, nat>
    requires whole > 0
  {
    map k | k in weights :: Share(weights[k], x, whole)
  }

  ghost function Positive<K>(weights: map<K, nat>): set<K> {
    set k | k in weights && weights[k] > 0
  }

  lemma PositiveWithout<K>(weights: map<K, nat>, k: K)
    requires k in weights
    ensures |Positive(weights)| == |Positive(weights - {k})| + (if weights[k] > 0 then 1 else 0)
  {
    assert Positive(weights - {k}) == Positive(weights) - {k};
  }

  /** Rounding each share down loses less than one unit of `whole` per positive weight. */
  lemma {:induction false} SharesScaled<K>(weights: map<K, nat>, x: nat, whole: nat)
    requires whole > 0
    ensures whole * MapSum(Shares(weights, x, whole)) <= x * MapSum(weights)
    ensures x * MapSum(weights)
      <= whole * MapSum(Shares(weights, x, whole)) + |Positive(weights)| * (whole - 1)
    decreases |weights|
  {
    if k :| k in weights {
      var rest := weights - {k};
      SizeWithout(weights, k);
      SharesScaled(rest, x, whole);
      SharesWithout(weights, x, whole, k);
      PositiveWithout(weights, k);
      SharesScaledStep(weights[k], MapSum(rest), MapSum(Shares(rest, x, whole)), x, whole,
                       |Positive(rest)|);
    } else {
      assert weights == map[] && Shares(weights, x, whole) == map[];
    }
  }

  lemma SharesWithout<K>(weights: map<K, nat>, x: nat, whole: nat, k: K)
    requires whole > 0 && k in weights
    ensures MapSum(weights) == weights[k] + MapSum(weights - {k})
    ensures MapSum(Shares(weights, x, whole))
      == Share(weights[k], x, whole) + MapSum(Shares(weights - {k}, x, whole))
  {
    MapSumRemove(weights, k);
    assert Shares(weights, x, whole) - {k} == Shares(weights - {k}, x, whole);
    MapSumRemove(Shares(weights, x, whole), k);
  }

  lemma SharesScaledStep(w: nat, sum: nat, paid: nat, x: nat, whole: nat, count: nat)
    requires whole > 0
    requires whole * paid <= x * sum <= whole * paid + count * (whole - 1)
    ensures whole * (Share(w, x, whole) + paid) <= x * (w + sum)
    ensures x * (w + sum)
      <= whole * (Share(w, x, whole) + paid) + (count + if w > 0 then 1 else 0) * (whole - 1)
  {
    var q := Share(w, x, whole);
    ShareBounds(w, x, whole);
    assert whole * (q + paid) == q * whole + whole * paid;
    assert x * (w + sum) == w * x + x * sum;
    assert (count + 1) * (whole - 1) == count * (whole - 1) + (whole - 1);
  }

  /** Shares of parts that add up to at most `whole` add up to at most `x`. */
  lemma SharesAtMost<K>(weights: map<K, nat>, x: nat, whole: nat)
    requires whole > 0 && MapSum(weights) <= whole
    ensures MapSum(Shares(weights, x, whole)) <= x
  {
    SharesScaled(weights, x, whole);
    SharesAtMostScaled(MapSum(weights), MapSum(Shares(weights, x, whole)), x, whole);
  }

  lemma SharesAtMostScaled(sum: nat, paid: nat, x: nat, whole: nat)
    requires whole > 0 && sum <= whole && whole * paid <= x * sum
    ensures paid <= x
  {
    MulMonotone(x, sum, x, whole);
    assert (x + 1) * whole == x * whole + whole;
    CancelStrict(paid, x + 1, whole);
  }

  /** If the parts add up to exactly `whole`, the dust is less than the number of positive parts. */
  lemma SharesDust<K>(weights: map<K, nat>, x: nat, whole: nat)
    requires whole > 0 && MapSum(weights) == whole
    ensures |Positive(weights)| >= 1
    ensures x <= MapSum(Shares(weights, x, whole)) + (|Positive(weights)| - 1)
  {
    SharesScaled(weights, x, whole);
    if |Positive(weights)| == 0 { MapSumZeroWhenNonePositive(weights); }
    SharesDustScaled(MapSum(Shares(weights, x, whole)), x, whole, |Positive(weights)|);
  }

  /** The bound is met: one unit less than `n` equal parts, shared among them, is all dust. */
  lemma SharesDustIsTight<K>(weights: map<K, nat>)
    requires weights != map[] && forall k :: k in weights ==> weights[k] == 1
    ensures |weights| > 0 && MapSum(weights) == |weights|
    ensures var x := |weights| - 1;
      x == MapSum(Shares(weights, x, |weights|)) + (|Positive(weights)| - 1)
  {
    OnesAddUp(weights);
    MapSumAllZero(Shares(weights, |weights| - 1, |weights|));
  }

  lemma {:induction false} OnesAddUp<K>(weights: map<K, nat>)
    requires forall k :: k in weights ==> weights[k] == 1
    ensures MapSum(weights) == |weights| == |Positive(weights)|
    decreases |weights|
  {
    if k :| k in weights {
      SizeWithout(weights, k);
      MapSumRemove(weights, k);
      PositiveWithout(weights, k);
      OnesAddUp(weights - {k});
    } else {
      assert weights == map[];
    }
  }

  lemma SharesDustScaled(paid: nat, x: nat, whole: nat, count: nat)
    requires whole > 0 && count >= 1
    requires x * whole <= whole * paid + count * (whole - 1)
    ensures x < paid + count
  {
    assert (paid + count) * whole == whole * paid + count * (whole - 1) + count;
    CancelStrict(x, paid + count, whole);
  }

  lemma MapSumZeroWhenNonePositive<K>(weights: map<K, nat>)
    requires |Positive(weights)| == 0
    ensures MapSum(weights) == 0
  {
    if k :| k in weights && weights[k] > 0 {
      PositiveWithout(weights, k);
    } else {
      MapSumAllZero(weights);
    }
  }

  lemma {:induction false} MapSumAllZero<K>(weights: map<K, nat>)
    requires forall k :: k in weights ==> weights[k] == 0
    ensures MapSum(weights) == 0
    decreases |weights|
  {
    if k :| k in weights {
      SizeWithout(weights, k);
      MapSumRemove(weights, k);
      MapSumAllZero(weights - {k});
    }
  }
}
