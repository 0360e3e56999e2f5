/**
 * The statistics cadence: after each sample the loop reports when the
 * running total is a multiple of the statistics interval.
 */
module Cadence {

  function Abs(x: int): nat
  {
    if x < 0 then -x else x
  }

  /**
   * The cadence test after a sample, `total % interval == 0`. Python's `%`
   * takes the sign of the divisor and Dafny's is never negative, so the two
   * remainders differ for a negative interval (`7 % -3` is `-2` in Python,
   * `1` in Dafny), but for a non-zero interval they are zero together.
   */
  predicate Fires(total: nat, interval: int)
  {
    interval != 0 && total % interval == 0
  }

  /** The cadence fires exactly at the multiples of the interval's magnitude. */
  lemma FiresIff(total: nat, interval: int)
    ensures Fires(total, interval) <==> interval != 0 && total % Abs(interval) == 0
  {
    if interval != 0 {
      ModAbs(total, interval);
    }
  }

  lemma {:induction false} MulAtLeast(x: int, a: int)
    requires a > 0
    ensures x >= 1 ==> x * a >= a
    ensures x <= -1 ==> x * a <= -a
    decreases Abs(x)
  {
    if x > 1 {
      MulAtLeast(x - 1, a);
    } else if x < -1 {
      MulAtLeast(x + 1, a);
    }
  }

  /** Quotient and remainder are the only ones with a remainder in range. */
  lemma DivModUnique(t: int, a: int, q: int, r: int)
    requires a > 0 && t == q * a + r && 0 <= r < a
    ensures t / a == q && t % a == r
  {
    var q0, r0 := t / a, t % a;
    assert t == q0 * a + r0;
    MulAtLeast(q - q0, a);
  }

  /** Dafny's Euclidean remainder does not depend on the sign of the divisor. */
  lemma ModAbs(t: int, i: int)
    requires i != 0
    ensures t % i == t % Abs(i)
  {
    if i < 0 {
      var q, r := t / i, t % i;
      assert t == q * i + r;
      assert t == (-q) * Abs(i) + r;
      DivModUnique(t, Abs(i), -q, r);
    }
  }

  /** The first report is due after exactly `|interval|` samples. */
  lemma FiresAt(t: nat, i: int)
    requires i != 0 && t > 0
    ensures Fires(t, i) ==> t >= Abs(i)
    ensures t == Abs(i) ==> Fires(t, i)
  {
    var a := Abs(i);
    ModAbs(t, i);
    var q, r := t / a, t % a;
    assert t == q * a + r;
    MulAtLeast(q, a);
    if t == a {
      DivModUnique(t, a, 1, 0);
    }
  }

  /** How the number of completed intervals grows with one more sample. */
  lemma DivStep(t: nat, i: int)
    requires i != 0
    ensures (t + 1) / Abs(i) == t / Abs(i) + (if Fires(t + 1, i) then 1 else 0)
    ensures Fires(t + 1, i) ==> t + 1 == (t / Abs(i) + 1) * Abs(i)
  {
    var a := Abs(i);
    ModAbs(t + 1, i);
    var q, r := t / a, t % a;
    assert t == q * a + r;
    if r == a - 1 {
      DivModUnique(t + 1, a, q + 1, 0);
    } else {
      DivModUnique(t + 1, a, q, r + 1);
    }
  }
}
