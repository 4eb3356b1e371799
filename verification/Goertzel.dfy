/** The Goertzel filter is a fast form of one bin of the discrete Fourier
    transform.  Arithmetic is over the exact reals, and the angle is given by
    any cosine and sine with c*c + s*s == 1. */
module Goertzel {

  datatype Complex = Complex(re: real, im: real)

  function Add(a: Complex, b: Complex): Complex { Complex(a.re + b.re, a.im + b.im) }

  function Mul(a: Complex, b: Complex): Complex {
    Complex(a.re * b.re - a.im * b.im, a.re * b.im + a.im * b.re)
  }

  function Scale(x: real, a: Complex): Complex { Complex(x * a.re, x * a.im) }

  function Conjugate(a: Complex): Complex { Complex(a.re, -a.im) }

  /** The squared magnitude. */
  function Norm2(a: Complex): real { a.re * a.re + a.im * a.im }

  predicate OnCircle(c: real, s: real) { c * c + s * s == 1.0 }

  /** The rotation by `k` times the angle. */
  function Turn(c: real, s: real, k: nat): Complex {
    if k == 0 then Complex(1.0, 0.0) else Mul(Complex(c, s), Turn(c, s, k - 1))
  }

  /** The transform by its definition: the sum of sample k turned back by k angles. */
  function Dft(xs: seq<real>, c: real, s: real): Complex {
    if xs == [] then Complex(0.0, 0.0)
    else
      var n := |xs| - 1;
      Add(Dft(xs[..n], c, s), Scale(xs[n], Conjugate(Turn(c, s, n))))
  }

  /** The power of one bin: squared magnitude over the squared sample count. */
  function DftPower(xs: seq<real>, c: real, s: real): real {
    if xs == [] then 0.0 else PerSquaredCount(Norm2(Dft(xs, c, s)), |xs|)
  }

  function PerSquaredCount(x: real, n: nat): real
    requires n > 0
  {
    x / (n as real * n as real)
  }

  // ------------------------------------------------------------- the filter

  /** The recurrence's two registers after all samples: previous, previous_two. */
  function Registers(xs: seq<real>, coefficient: real): (real, real) {
    if xs == [] then (0.0, 0.0)
    else
      var n := |xs| - 1;
      var (p, q) := Registers(xs[..n], coefficient);
      (Feed(xs[n], p, q, coefficient), p)
  }

  /** One step of the recurrence. */
  function Feed(x: real, p: real, q: real, coefficient: real): real {
    x + coefficient * p - q
  }

  function RawPower(p: real, q: real, coefficient: real): real {
    q * q + p * p - coefficient * p * q
  }

  method GoertzelPower(samples: seq<real>, cosine: real, ghost sine: real) returns (power: real)
    requires OnCircle(cosine, sine)
    ensures power == DftPower(samples, cosine, sine)
  {
    if samples == [] {
      return 0.0;
    }
    var coefficient := 2.0 * cosine;
    var previous, previousTwo := 0.0, 0.0;
    for i := 0 to |samples|
      invariant previous == Registers(samples[..i], coefficient).0
      invariant previousTwo == Registers(samples[..i], coefficient).1
    {
      assert samples[..i + 1][..i] == samples[..i];
      var current := Feed(samples[i], previous, previousTwo, coefficient);
      previousTwo := previous;
      previous := current;
    }
    assert samples[..|samples|] == samples;
    var raw := RawPower(previous, previousTwo, coefficient);
    RegistersGiveDft(samples, cosine, sine);
    var clamped := if raw > 0.0 then raw else 0.0;
    assert clamped == Norm2(Dft(samples, cosine, sine));
    power := PerSquaredCount(clamped, |samples|);
  }

  lemma TimesBack(x: real, square: real)
    requires square > 0.0
    ensures x / square * square == x
  {
  }

  lemma SquareIsPositive(x: real)
    requires x > 0.0
    ensures x * x > 0.0
  {
  }

  /** What a power is multiplied with to give the squared magnitude back. */
  lemma PowerTimesSquaredCount(magnitude: real, n: nat)
    requires n > 0
    ensures PerSquaredCount(magnitude, n) * (n as real * n as real) == magnitude
  {
    SquareIsPositive(n as real);
    TimesBack(magnitude, n as real * n as real);
  }

  // --------------------------------------------------------- complex algebra

  lemma NormIsNonNegative(a: Complex)
    ensures Norm2(a) >= 0.0
  {
    assert a.re * a.re >= 0.0 && a.im * a.im >= 0.0;
  }

  lemma MulAssociative(a: Complex, b: Complex, d: Complex)
    ensures Mul(Mul(a, b), d) == Mul(a, Mul(b, d))
  {
    calc {
      (a.re * b.re - a.im * b.im) * d.re - (a.re * b.im + a.im * b.re) * d.im;
      a.re * (b.re * d.re - b.im * d.im) - a.im * (b.re * d.im + b.im * d.re);
    }
    calc {
      (a.re * b.re - a.im * b.im) * d.im + (a.re * b.im + a.im * b.re) * d.re;
      a.re * (b.re * d.im + b.im * d.re) + a.im * (b.re * d.re - b.im * d.im);
    }
  }

  lemma MulDistributes(a: Complex, b: Complex, d: Complex)
    ensures Mul(a, Add(b, d)) == Add(Mul(a, b), Mul(a, d))
  {
  }

  lemma MulScaled(a: Complex, x: real, b: Complex)
    ensures Mul(a, Scale(x, b)) == Scale(x, Mul(a, b))
  {
  }

  lemma NormMultiplies(a: Complex, b: Complex)
    ensures Norm2(Mul(a, b)) == Norm2(a) * Norm2(b)
  {
    var u, v, w, z := a.re * b.re, a.im * b.im, a.re * b.im, a.im * b.re;
    assert u * v == w * z;
    calc {
      Norm2(Mul(a, b));
      (u - v) * (u - v) + (w + z) * (w + z);
      u * u + v * v + w * w + z * z;
      (a.re * a.re) * (b.re * b.re) + (a.im * a.im) * (b.im * b.im)
        + (a.re * a.re) * (b.im * b.im) + (a.im * a.im) * (b.re * b.re);
      Norm2(a) * Norm2(b);
    }
  }

  lemma {:induction false} TurnsStayOnCircle(c: real, s: real, k: nat)
    requires OnCircle(c, s)
    ensures Norm2(Turn(c, s, k)) == 1.0
  {
    if k > 0 {
      TurnsStayOnCircle(c, s, k - 1);
      NormMultiplies(Complex(c, s), Turn(c, s, k - 1));
    }
  }

  // ------------------------------------------------------------ the identity

  /** The registers after `xs`, read as one complex number. */
  function Combined(xs: seq<real>, c: real, s: real): Complex {
    var (p, q) := Registers(xs, 2.0 * c);
    Complex(p - c * q, s * q)
  }

  /** One more sample turns the combined number once and adds the sample. */
  lemma CombinedStep(p: real, q: real, x: real, c: real, s: real)
    requires OnCircle(c, s)
    ensures Complex((x + 2.0 * c * p - q) - c * p, s * p) ==
            Add(Complex(x, 0.0), Mul(Complex(c, s), Complex(p - c * q, s * q)))
  {
    calc {
      c * (p - c * q) - s * (s * q);
      c * p - (c * c + s * s) * q;
      c * p - q;
    }
    calc {
      c * (s * q) + s * (p - c * q);
      s * p;
    }
  }

  lemma CombinedUnfolds(xs: seq<real>, c: real, s: real)
    requires OnCircle(c, s) && xs != []
    ensures Combined(xs, c, s) ==
            Add(Complex(xs[|xs| - 1], 0.0), Mul(Complex(c, s), Combined(xs[..|xs| - 1], c, s)))
  {
    var n := |xs| - 1;
    var (p, q) := Registers(xs[..n], 2.0 * c);
    CombinedStep(p, q, xs[n], c, s);
  }

  /** A sum whose last term is turned back by `turn`, turned forward again. */
  lemma TurnForward(turn: Complex, d: Complex, x: real)
    requires Norm2(turn) == 1.0
    ensures Mul(turn, Add(d, Scale(x, Conjugate(turn)))) == Add(Complex(x, 0.0), Mul(turn, d))
  {
    TurnedLastTerm(turn, x);
    MulDistributes(turn, d, Scale(x, Conjugate(turn)));
  }

  /** Before the first sample both sides are zero, whatever the angle. */
  lemma NothingTurns(a: Complex, b: Complex)
    ensures Mul(a, Complex(0.0, 0.0)) == Mul(b, Complex(0.0, 0.0))
  {
  }

  /** Turning the transform forward by the last index gives the combined number. */
  lemma {:induction false} CombinedIsTurnedDft(xs: seq<real>, c: real, s: real)
    requires OnCircle(c, s) && xs != []
    ensures Combined(xs, c, s) == Mul(Turn(c, s, |xs| - 1), Dft(xs, c, s))
    decreases |xs|, 0
  {
    var n := |xs| - 1;
    CombinedUnfolds(xs, c, s);
    TurnsStayOnCircle(c, s, n);
    TurnForward(Turn(c, s, n), Dft(xs[..n], c, s), xs[n]);
    FrontTurns(xs[..n], c, s);
  }

  lemma {:induction false} FrontTurns(front: seq<real>, c: real, s: real)
    requires OnCircle(c, s)
    ensures Mul(Complex(c, s), Combined(front, c, s)) == Mul(Turn(c, s, |front|), Dft(front, c, s))
    decreases |front|, 1
  {
    if front == [] {
      NothingTurns(Complex(c, s), Turn(c, s, 0));
    } else {
      CombinedIsTurnedDft(front, c, s);
      MulAssociative(Complex(c, s), Turn(c, s, |front| - 1), Dft(front, c, s));
    }
  }

  /** The last term, turned forward by as much as it was turned back, is the sample. */
  lemma TurnedLastTerm(turn: Complex, x: real)
    requires Norm2(turn) == 1.0
    ensures Mul(turn, Scale(x, Conjugate(turn))) == Complex(x, 0.0)
  {
    MulScaled(turn, x, Conjugate(turn));
    assert Mul(turn, Conjugate(turn)) == Complex(1.0, 0.0) by {
      assert turn.re * turn.re - turn.im * -turn.im == Norm2(turn);
      assert turn.re * -turn.im + turn.im * turn.re == 0.0;
    }
  }

  lemma CombinedNorm(p: real, q: real, c: real, s: real)
    requires OnCircle(c, s)
    ensures Norm2(Complex(p - c * q, s * q)) == RawPower(p, q, 2.0 * c)
  {
    calc {
      (p - c * q) * (p - c * q) + (s * q) * (s * q);
      p * p - 2.0 * c * p * q + (c * c + s * s) * (q * q);
      RawPower(p, q, 2.0 * c);
    }
  }

  lemma PowerIsCombinedNorm(xs: seq<real>, c: real, s: real)
    requires OnCircle(c, s)
    ensures var (p, q) := Registers(xs, 2.0 * c); RawPower(p, q, 2.0 * c) == Norm2(Combined(xs, c, s))
  {
    var (p, q) := Registers(xs, 2.0 * c);
    CombinedNorm(p, q, c, s);
  }

  /** Turning changes no magnitude. */
  lemma TurnKeepsNorm(turn: Complex, d: Complex)
    requires Norm2(turn) == 1.0
    ensures Norm2(Mul(turn, d)) == Norm2(d)
  {
    NormMultiplies(turn, d);
  }

  lemma CombinedNormIsDftNorm(xs: seq<real>, c: real, s: real)
    requires OnCircle(c, s)
    ensures Norm2(Combined(xs, c, s)) == Norm2(Dft(xs, c, s))
  {
    if xs == [] {
      assert Combined(xs, c, s) == Complex(0.0 - c * 0.0, s * 0.0) == Complex(0.0, 0.0);
    } else {
      CombinedIsTurnedDft(xs, c, s);
      TurnsStayOnCircle(c, s, |xs| - 1);
      TurnKeepsNorm(Turn(c, s, |xs| - 1), Dft(xs, c, s));
    }
  }

  /** For any samples the filter's power is the squared magnitude of the direct
      sum; so it is never negative and the clamp at zero never changes it. */
  lemma RegistersGiveDft(xs: seq<real>, c: real, s: real)
    requires OnCircle(c, s)
    ensures var (p, q) := Registers(xs, 2.0 * c); RawPower(p, q, 2.0 * c) == Norm2(Dft(xs, c, s)) >= 0.0
  {
    PowerIsCombinedNorm(xs, c, s);
    CombinedNormIsDftNorm(xs, c, s);
    NormIsNonNegative(Dft(xs, c, s));
  }

  // -------------------------------------------------- the strongest frequency

  function GridFrequency(min: real, step: real, k: nat): real {
    if k == 0 then min else GridFrequency(min, step, k - 1) + step
  }

  /** Power of the bin at a frequency, the angle's cosine and sine given per frequency. */
  ghost function PowerAt(xs: seq<real>, cos: real -> real, sin: real -> real, frequency: real): real {
    DftPower(xs, cos(frequency), sin(frequency))
  }

  /** Scans the grid and returns its first strongest frequency; an empty grid
      gives the lower bound. */
  method DominantGoertzelFrequency(
    samples: seq<real>, min: real, max: real, step: real, cos: real -> real, ghost sin: real -> real)
    returns (best: real, ghost at: nat)
    requires step > 0.0
    requires forall f: real :: OnCircle(cos(f), sin(f))
    ensures best == GridFrequency(min, step, at)
    ensures min > max ==> best == min
    ensures min <= max ==> best <= max
    ensures forall k: nat :: GridFrequency(min, step, k) <= max ==>
              PowerAt(samples, cos, sin, GridFrequency(min, step, k)) <= PowerAt(samples, cos, sin, best)
    ensures forall k: nat :: k < at ==>
              PowerAt(samples, cos, sin, GridFrequency(min, step, k)) < PowerAt(samples, cos, sin, best)
  {
    var frequency := min;
    best, at := min, 0;
    var bestPower, scanned := 0.0, false;
    ghost var n: nat := 0;
    while frequency <= max
      invariant frequency == GridFrequency(min, step, n)
      invariant best == GridFrequency(min, step, at)
      invariant scanned <==> n > 0
      invariant !scanned ==> at == 0
      invariant scanned ==> at < n && best <= max && min <= max && bestPower == PowerAt(samples, cos, sin, best)
      invariant forall k: nat :: k < n ==> PowerAt(samples, cos, sin, GridFrequency(min, step, k)) <= bestPower
      invariant forall k: nat :: k < at ==> PowerAt(samples, cos, sin, GridFrequency(min, step, k)) < bestPower
      decreases (max - frequency) / step
    {
      var power := GoertzelPower(samples, cos(frequency), sin(frequency));
      if !scanned || power > bestPower {
        bestPower, scanned, best, at := power, true, frequency, n;
      }
      StepsAhead(max, frequency, step);
      frequency := frequency + step;
      n := n + 1;
    }
    forall k: nat | GridFrequency(min, step, k) <= max ensures k < n {
      if n <= k {
        GridIsIncreasing(min, step, n, k);
      }
    }
  }

  lemma DivideBack(a: real, b: real, step: real)
    requires step > 0.0 && b * step == a
    ensures a / step == b
  {
  }

  lemma StepsAhead(max: real, frequency: real, step: real)
    requires step > 0.0
    ensures (max - (frequency + step)) / step == (max - frequency) / step - 1.0
  {
    var ahead := (max - frequency) / step;
    assert ahead * step == max - frequency;
    assert (ahead - 1.0) * step == max - (frequency + step);
    DivideBack(max - (frequency + step), ahead - 1.0, step);
  }

  /** Nothing of the grid is left behind the first frequency past the bound. */
  lemma {:induction false} GridIsIncreasing(min: real, step: real, n: nat, k: nat)
    requires step > 0.0 && n <= k
    ensures GridFrequency(min, step, n) <= GridFrequency(min, step, k)
    decreases k
  {
    if n < k {
      GridIsIncreasing(min, step, n, k - 1);
    }
  }
}
