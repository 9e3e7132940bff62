/** The reward schedule of the blocks. */
module Schedule {
  import opened Types

  function Power(base: real, n: nat): real { if n == 0 then 1.0 else base * Power(base, n - 1) }

  /** What is left of the subsidy from one block to the next. */
  const KEEP: real := 1.0 - 0.0000016435998841934918

  /** The subsidy after `n` steps of decay, rounded down. */
  function Decayed(units: int, n: nat): int { (units as real * Power(KEEP, n)).Floor }

  /** `scheduled_reward_for_block`, with exact arithmetic in place of `long double`. */
  function Scheduled(units: int, index: nat): int { if index == 0 then 0 else Max(1, Decayed(units, index - 1)) }

  lemma {:induction false} PowerShrinks(n: nat)
    ensures 0.0 < Power(KEEP, n + 1) <= Power(KEEP, n) <= 1.0
  {
    if n > 0 {
      PowerShrinks(n - 1);
    }
    ProductSign(1.0 - KEEP, Power(KEEP, n));
    ProductSign(KEEP, Power(KEEP, n));
  }

  lemma ProductSign(x: real, y: real)
    requires x > 0.0 && y > 0.0
    ensures x * y > 0.0 && (1.0 - x) * y == y - x * y
  {
  }

  lemma ProductMonotone(u: real, x: real, y: real)
    requires u >= 0.0 && x >= y
    ensures u * x >= u * y
  {
    assert u * (x - y) == u * x - u * y;
  }

  lemma FloorMonotone(x: real, y: real)
    requires x <= y
    ensures x.Floor <= y.Floor
  {
  }

  lemma DecayFalls(units: int, n: nat)
    requires units >= 1
    ensures Decayed(units, n + 1) <= Decayed(units, n) <= units
  {
    hide Power;
    var u, x, y := units as real, Power(KEEP, n), Power(KEEP, n + 1);
    PowerShrinks(n);
    ProductMonotone(u, x, y);
    ProductMonotone(u, 1.0, x);
    FloorMonotone(u * y, u * x);
    FloorMonotone(u * x, u);
    assert u.Floor == units;
  }

  lemma FirstReward(units: int)
    ensures Decayed(units, 0) == units
  {
    assert units as real * 1.0 == units as real;
  }

  /** Rewards never grow from one block to the next, and stay between one unit and the first reward. */
  lemma ScheduleFalls(units: int, index: nat)
    requires units >= 1 && index >= 1
    ensures 1 <= Scheduled(units, index + 1) <= Scheduled(units, index) <= units && Scheduled(units, 1) == units
  {
    hide Decayed;
    DecayFalls(units, index - 1);
    FirstReward(units);
  }

  lemma {:induction false} PowerBounds(n: nat)
    ensures 1.0 - n as real * (1.0 - KEEP) <= Power(KEEP, n) && Power(KEEP, n) * (1.0 + n as real * (1.0 - KEEP)) <= 1.0
  {
    if n > 0 {
      PowerBounds(n - 1);
      PowerShrinks(n - 1);
      BoundStep(1.0 - KEEP, (n - 1) as real, Power(KEEP, n - 1));
    }
  }

  lemma BoundStep(x: real, m: real, p: real)
    requires 0.0 <= x <= 1.0 && m >= 0.0 && 0.0 <= p <= 1.0 && 1.0 - m * x <= p && p * (1.0 + m * x) <= 1.0
    ensures 1.0 - (m + 1.0) * x <= (1.0 - x) * p && (1.0 - x) * p * (1.0 + (m + 1.0) * x) <= 1.0
  {
    assert (m + 1.0) * x == m * x + x;
    assert (1.0 - x) * p == p - x * p;
    ProductMonotone(x, 1.0, p);
    var q := (1.0 - x) * (1.0 + m * x + x);
    assert q == 1.0 + m * x - x * (m * x) - x * x by { Expand(x, m * x); }
    ProductNonNegative(m, x);
    ProductNonNegative(x, m * x);
    ProductNonNegative(x, x);
    ProductMonotone(p, 1.0 + m * x, q);
    assert (1.0 - x) * p * (1.0 + (m + 1.0) * x) == p * q by { Regroup(1.0 - x, p, 1.0 + m * x + x); }
  }

  lemma Expand(x: real, y: real)
    ensures (1.0 - x) * (1.0 + y + x) == 1.0 + y - x * y - x * x
  {
    assert (1.0 - x) * (1.0 + y + x) == (1.0 + y + x) - x * (1.0 + y + x);
    assert x * (1.0 + y + x) == x + x * y + x * x;
  }

  lemma Regroup(a: real, p: real, b: real)
    ensures a * p * b == p * (a * b)
  {
    assert a * p == p * a;
  }

  lemma ProductNonNegative(x: real, y: real)
    requires x >= 0.0 && y >= 0.0
    ensures x * y >= 0.0
  {
  }

  /** The subsidy falls no faster than a straight line and no slower than a hyperbola with the decay as their slope. */
  lemma SubsidyBounds(units: int, n: nat)
    requires units >= 1
    ensures var fall := n as real * (1.0 - KEEP);
            units as real * (1.0 - fall) < Decayed(units, n) as real + 1.0 && Decayed(units, n) as real * (1.0 + fall) <= units as real
  {
    hide Power;
    var u, p, fall := units as real, Power(KEEP, n), n as real * (1.0 - KEEP);
    PowerBounds(n);
    ProductMonotone(u, p, 1.0 - fall);
    ProductNonNegative(n as real, 1.0 - KEEP);
    var whole := Decayed(units, n) as real;
    assert whole <= u * p < whole + 1.0;
    ProductMonotone(1.0 + fall, u * p, whole);
    ProductMonotone(u, 1.0, p * (1.0 + fall));
    assert (1.0 + fall) * (u * p) == u * (p * (1.0 + fall)) by { Regroup(1.0 + fall, u, p); }
  }

  /** From a first reward of 115 the reward of block 24193 is 110. */
  lemma RewardAfterDecay()
    ensures Scheduled(115, 24193) == 110
  {
    hide Decayed;
    SubsidyBounds(115, 24192);
  }
}
