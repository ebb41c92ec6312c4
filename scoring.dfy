/** The live metrics of App.tsx:218-225. Time is counted in ticks of 100 ms
    (ten ticks per second), so an elapsed time of `ticks` stands for
    `ticks / 10` seconds. `Math.round` rounds halves upwards:
    round(x) = floor(x + 1/2). */
module Scoring {

  const TicksPerSecond: nat := 10

  /** `r` is what `Math.round` returns for `x`. */
  ghost predicate RoundsTo(x: real, r: int)
  {
    r as real - 0.5 <= x < r as real + 0.5
  }

  /** Words per minute: `round((typed / 5) / (seconds / 60))`, and 0 when no
      time has elapsed. With seconds = ticks / 10 this is
      round(120 * typed / ticks) = floor((240 * typed + ticks) / (2 * ticks)). */
  function Wpm(typed: nat, ticks: nat): nat
  {
    if ticks == 0 then 0 else (240 * typed + ticks) / (2 * ticks)
  }

  /** The integer formula is `Math.round` of the source's expression, and 0
      when no time has elapsed. */
  lemma WpmRounds(typed: nat, ticks: nat)
    ensures ticks == 0 ==> Wpm(typed, ticks) == 0
    ensures ticks > 0 ==>
      RoundsTo((typed as real / 5.0) / ((ticks as real / TicksPerSecond as real) / 60.0), Wpm(typed, ticks))
  {
    if ticks > 0 {
      var n, t := typed as real, ticks as real;
      assert (n / 5.0) / ((t / 10.0) / 60.0) == (120 * typed) as real / t;
      RoundQuotient(120 * typed, ticks, Wpm(typed, ticks));
    }
  }

  /** Integer half-up rounding of a quotient: (2 * num + den) / (2 * den)
      is what `Math.round` returns for num / den. */
  lemma RoundQuotient(num: int, den: int, r: int)
    requires den > 0 && r == (2 * num + den) / (2 * den)
    ensures RoundsTo(num as real / den as real, r)
  {
    var m := (2 * num + den) % (2 * den);
    assert 2 * den * r + m == 2 * num + den && 0 <= m < 2 * den;
    var lo, hi := 2 * r * den - den, 2 * r * den + den;
    assert lo <= 2 * num < hi;
    var x, d, q := num as real, den as real, r as real;
    assert lo as real == (q - 0.5) * d * 2.0 && hi as real == (q + 0.5) * d * 2.0;
    assert (q - 0.5) * d <= x < (q + 0.5) * d;
    DivBounds(x, d, q - 0.5, q + 0.5);
  }

  /** Dividing a two-sided bound by a positive denominator. */
  lemma DivBounds(x: real, t: real, lo: real, hi: real)
    requires t > 0.0 && lo * t <= x < hi * t
    ensures lo <= x / t < hi
  {
    assert x / t * t == x;
  }

  /** Accuracy in percent: `round((total - errors) / total * 100)`, and 100
      before any keystroke. */
  function Accuracy(total: nat, errors: nat): int
  {
    if total == 0 then 100 else (200 * (total - errors) + total) / (2 * total)
  }

  /** The integer formula is `Math.round` of the source's expression, 100
      before any keystroke, and a percentage whenever the errors are among
      the keystrokes. */
  lemma AccuracyRounds(total: nat, errors: nat)
    ensures total == 0 ==> Accuracy(total, errors) == 100
    ensures total > 0 ==> RoundsTo(((total - errors) as real / total as real) * 100.0, Accuracy(total, errors))
    ensures errors <= total ==> 0 <= Accuracy(total, errors) <= 100
  {
    if total > 0 {
      var r := Accuracy(total, errors);
      var c, t := (total - errors) as real, total as real;
      assert (c / t) * 100.0 == (100 * (total - errors)) as real / t;
      RoundQuotient(100 * (total - errors), total, r);
      if errors <= total {
        DivMonotone(total, 200 * (total - errors) + total, 2 * total);
        DivMonotone(200 * (total - errors) + total, 201 * total, 2 * total);
        assert 0 <= total / (2 * total);
        DivAtLeast(201 * total, 2 * total, 101);
      }
    }
  }

  /** More errors over the same number of keystrokes never raise accuracy. */
  lemma {:induction false} AccuracyAntitone(total: nat, e1: nat, e2: nat)
    requires e1 <= e2
    ensures Accuracy(total, e2) <= Accuracy(total, e1)
  {
    if total > 0 {
      var a, b := 200 * (total - e1) + total, 200 * (total - e2) + total;
      assert b <= a;
      DivMonotone(b, a, 2 * total);
    }
  }

  /** More characters in the same time never lower the speed. */
  lemma {:induction false} WpmMonotone(n1: nat, n2: nat, ticks: nat)
    requires n1 <= n2
    ensures Wpm(n1, ticks) <= Wpm(n2, ticks)
  {
    if ticks > 0 {
      DivMonotone(240 * n1 + ticks, 240 * n2 + ticks, 2 * ticks);
    }
  }

  lemma MulMonotone(d: int, x: int, y: int)
    requires d >= 0 && x <= y
    ensures d * x <= d * y
  {
    assert d * y - d * x == d * (y - x);
  }

  lemma DivMonotone(a: int, b: int, d: int)
    requires a <= b && d > 0
    ensures a / d <= b / d
  {
    var qa, qb := a / d, b / d;
    assert d * qa + a % d == a && 0 <= a % d < d;
    assert d * qb + b % d == b && 0 <= b % d < d;
    if qa > qb {
      MulMonotone(d, qb + 1, qa);
      assert false;
    }
  }

  /** For a positive divisor, a quotient reaches `k` exactly when the
      dividend reaches `k` times the divisor. */
  lemma DivAtLeast(a: int, d: int, k: int)
    requires d > 0
    ensures a / d >= k <==> a >= k * d
  {
    var q := a / d;
    assert d * q + a % d == a && 0 <= a % d < d;
    if q >= k {
      MulMonotone(d, k, q);
    } else {
      MulMonotone(d, q + 1, k);
    }
  }

  /** Comparing two quotients by cross-multiplication. */
  lemma DivCross(a: int, b: int, c: int, d: int)
    requires b > 0 && d > 0 && a * d <= c * b
    ensures a / b <= c / d
  {
    var q := a / b;
    assert b * q + a % b == a && 0 <= a % b;
    assert q * b <= a;
    MulMonotone(d, q * b, a);
    assert (q * d) * b == d * (q * b);
    assert (q * d) * b <= c * b;
    if q * d > c {
      MulMonotone(b, c + 1, q * d);
      assert false;
    }
    DivAtLeast(c, d, q);
  }

  /** One more correct keystroke never lowers accuracy. */
  lemma AccuracyRisesWithCorrectKey(total: nat, errors: nat)
    requires errors <= total
    ensures Accuracy(total, errors) <= Accuracy(total + 1, errors)
  {
    if total > 0 {
      var a, c := 200 * (total - errors) + total, 200 * (total + 1 - errors) + total + 1;
      assert a * (2 * total + 2) == 2 * total * c - 400 * errors by {
        assert a * (2 * total + 2) == 2 * (201 * total - 200 * errors) * (total + 1);
        assert 2 * total * c == 2 * total * (201 * total + 201 - 200 * errors);
      }
      DivCross(a, 2 * total, c, 2 * total + 2);
    }
  }

  /** The cosmetic "overdrive" indicator: a streak of at least 20 words or a
      speed of at least 90 WPM. */
  predicate IsOverdrive(streak: nat, wpm: nat)
  {
    streak >= 20 || wpm >= 90
  }

  /** In characters and ticks, 90 WPM is reached exactly when at least 179
      characters are typed per 240 ticks; so overdrive holds iff the streak
      is long enough or that pace is met. */
  lemma OverdriveThreshold(streak: nat, typed: nat, ticks: nat)
    ensures IsOverdrive(streak, Wpm(typed, ticks))
      <==> streak >= 20 || (ticks > 0 && 240 * typed >= 179 * ticks)
  {
    if ticks > 0 {
      DivAtLeast(240 * typed + ticks, 2 * ticks, 90);
    }
  }
}
