/**
 * The speed estimator at the head of `analize_secuence` (src/morse.rs:45-52):
 * from the number of presses and their total length it infers the operator's
 * words per minute and, from that, the unit ("dot") time and the derived
 * thresholds the classifier compares pulse lengths against.
 */
module SpeedEstimator {
  import opened Wrappers

  /** The reference rate in the dot formula. */
  const DEFAULT_WPM: nat := 60

  /** Seconds in a minute, the numerator's time base. */
  const ONE_MINUTE: nat := 60

  /** The four lengths, in milliseconds, that the classifier works with. */
  datatype Timing = Timing(dot: nat, dash: nat, word: nat, threshold: nat)

  /** The two divisions of the estimator that can have a zero divisor. */
  datatype SpeedError =
    | ZeroScaledTime  // total press time under 20 ms: `time as u128` is 0 (line 48)
    | ZeroWpm         // too few presses for the time: `wpm` is 0 (line 49)

  /**
   * `total_press_time / 1000 * 50`, truncated. The source computes it in f32
   * and casts to u128; here it is the exact integer quotient.
   */
  function ScaledTime(totalPressTime: nat): nat {
    totalPressTime * 50 / 1000
  }

  /** `(total_presses * ONE_MINUTE) / time`, defined only for a non-zero scaled time. */
  function Wpm(totalPresses: nat, totalPressTime: nat): nat
    requires ScaledTime(totalPressTime) > 0
  {
    totalPresses * ONE_MINUTE / ScaledTime(totalPressTime)
  }

  /** The relations every timing the estimator produces satisfies. */
  predicate Derived(t: Timing) {
    t.dash == t.dot * 3 && t.word == t.dot * 7 && t.threshold == t.dot / 2
  }

  /**
   * The estimator of src/morse.rs:47-52. Where the source would divide by
   * zero (and panic), the result is a `Failure` naming the division.
   */
  function EstimateTiming(totalPresses: nat, totalPressTime: nat): (r: Result<Timing, SpeedError>)
    ensures r.Success? ==> Derived(r.value)
    ensures r.Success? ==> r.value.threshold <= r.value.dash
  {
    var time := ScaledTime(totalPressTime);
    if time == 0 then Failure(ZeroScaledTime)
    else
      var wpm := Wpm(totalPresses, totalPressTime);
      if DEFAULT_WPM * wpm == 0 then Failure(ZeroWpm)
      else Success(FromDot(Dot(wpm)))
  }

  /** `(ONE_MINUTE * 1000) / (DEFAULT_WPM * wpm)`, defined only for a non-zero divisor. */
  function Dot(wpm: nat): nat
    requires DEFAULT_WPM * wpm != 0
  {
    (ONE_MINUTE * 1000) / (DEFAULT_WPM * wpm)
  }

  /** The lengths derived from a dot time (src/morse.rs:50-52). */
  function FromDot(dot: nat): (t: Timing)
    ensures Derived(t) && t.dot == dot
    ensures t.threshold <= t.dash
  {
    Timing(dot, dot * 3, dot * 7, dot / 2)
  }

  /** Euclidean division has a unique quotient and remainder. */
  lemma DivUnique(a: int, d: int, q: int, r: int)
    requires d > 0 && 0 <= r < d && a == q * d + r
    ensures a / d == q && a % d == r
  {
    var q0, r0 := a / d, a % d;
    assert a == q0 * d + r0;
    assert (q - q0) * d == r0 - r;
    if q > q0 {
      MulAtLeast(q - q0, d);
    } else if q < q0 {
      MulAtLeast(q0 - q, d);
    }
  }

  lemma MulAtLeast(k: int, d: int)
    requires k >= 1 && d > 0
    ensures k * d >= d
  {
    assert k * d == (k - 1) * d + d;
    assert (k - 1) * d >= 0;
  }

  /** The scaled time is the press time in units of 20 ms. */
  lemma {:induction false} ScaledTimeIsTwentieth(totalPressTime: nat)
    ensures ScaledTime(totalPressTime) == totalPressTime / 20
  {
    var q, r := totalPressTime / 20, totalPressTime % 20;
    assert totalPressTime * 50 == q * 1000 + r * 50;
    DivUnique(totalPressTime * 50, 1000, q, r * 50);
  }

  /** For a positive divisor, a quotient is positive exactly when the dividend reaches the divisor. */
  lemma QuotientPositive(a: nat, d: nat)
    requires d > 0
    ensures a / d > 0 <==> a >= d
  {
    if a < d {
      DivUnique(a, d, 0, a);
    } else {
      DivUnique(a, d, 1 + (a - d) / d, (a - d) % d);
    }
  }

  /**
   * The estimator succeeds exactly when neither division has a zero divisor:
   * at least 20 ms of pressing, and at least one minute-scaled press per 20 ms.
   * In particular it fails whenever no press was recorded.
   */
  lemma {:induction false} EstimateDefinedIff(totalPresses: nat, totalPressTime: nat)
    ensures EstimateTiming(totalPresses, totalPressTime) == Failure(ZeroScaledTime)
            <==> totalPressTime < 20
    ensures EstimateTiming(totalPresses, totalPressTime) == Failure(ZeroWpm)
            <==> totalPressTime >= 20 && 60 * totalPresses < totalPressTime / 20
    ensures EstimateTiming(totalPresses, totalPressTime).Success?
            <==> totalPressTime >= 20 && 60 * totalPresses >= totalPressTime / 20
    ensures totalPresses == 0 ==> EstimateTiming(totalPresses, totalPressTime).Failure?
  {
    ScaledTimeIsTwentieth(totalPressTime);
    QuotientPositive(totalPressTime, 20);
    if totalPressTime >= 20 {
      QuotientPositive(totalPresses * 60, totalPressTime / 20);
    }
  }

  /** The dot time is `60 * 1000 / (60 * wpm)`, which is `1000 / wpm`. */
  lemma {:induction false} DotIsThousandOverWpm(totalPresses: nat, totalPressTime: nat)
    requires EstimateTiming(totalPresses, totalPressTime).Success?
    ensures ScaledTime(totalPressTime) > 0 && Wpm(totalPresses, totalPressTime) > 0
    ensures EstimateTiming(totalPresses, totalPressTime).value.dot
            == 1000 / Wpm(totalPresses, totalPressTime)
  {
    var w := Wpm(totalPresses, totalPressTime);
    var q, r := 1000 / w, 1000 % w;
    assert 60000 == q * (60 * w) + 60 * r;
    DivUnique(60000, 60 * w, q, 60 * r);
  }

  /**
   * The thresholds are ordered: a dot (with its tolerance) never reaches a
   * dash, a dash never reaches a word gap; all strictly once the dot is
   * non-zero.
   */
  lemma ThresholdsOrdered(t: Timing)
    requires Derived(t)
    ensures t.threshold <= t.dot + t.threshold <= t.dash <= t.word
    ensures t.dot > 0 ==> t.dot + t.threshold < t.dash < t.word
  {
  }

  /** The dot time rounds down to zero exactly when the estimated rate exceeds 1000. */
  lemma {:induction false} DotZeroIff(totalPresses: nat, totalPressTime: nat)
    requires EstimateTiming(totalPresses, totalPressTime).Success?
    ensures ScaledTime(totalPressTime) > 0
    ensures EstimateTiming(totalPresses, totalPressTime).value.dot == 0
            <==> Wpm(totalPresses, totalPressTime) > 1000
  {
    DotIsThousandOverWpm(totalPresses, totalPressTime);
    var w := Wpm(totalPresses, totalPressTime);
    QuotientPositive(1000, w);
  }
}
