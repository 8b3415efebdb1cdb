/**
 * Amplitude vectors ("waveforms") of the oscillator nodes, over exact reals.
 *
 * A waveform is a sequence of complex amplitudes. The arithmetic that needs
 * transcendental functions is supplied by the caller: the L2 norm (a square
 * root) as a function `norm`, and the phase factor e^(i*angle) of a rotation
 * as a complex number.
 */
module Waveform {

  datatype Complex = Complex(re: real, im: real)

  const Zero: Complex := Complex(0.0, 0.0)
  const One: Complex := Complex(1.0, 0.0)

  /** The factor applied to a neighbour's waveform during interference. */
  const Gain: real := 0.5

  function Add(a: Complex, b: Complex): Complex {
    Complex(a.re + b.re, a.im + b.im)
  }

  function Scale(a: Complex, g: real): Complex {
    Complex(g * a.re, g * a.im)
  }

  function Mul(a: Complex, b: Complex): Complex {
    Complex(a.re * b.re - a.im * b.im, a.re * b.im + a.im * b.re)
  }

  /** Squared magnitude |z|^2, the unnormalised Born weight of one slot. */
  function Weight(z: Complex): (r: real)
    ensures r >= 0.0
  {
    z.re * z.re + z.im * z.im
  }

  /** |a * z|^2 = |a|^2 * |z|^2 */
  lemma WeightOfProduct(a: Complex, z: Complex)
    ensures Weight(Mul(a, z)) == Weight(a) * Weight(z)
  {
    var p := Mul(a, z);
    calc {
      p.re * p.re + p.im * p.im;
      (a.re * z.re - a.im * z.im) * (a.re * z.re - a.im * z.im)
        + (a.re * z.im + a.im * z.re) * (a.re * z.im + a.im * z.re);
      (a.re * a.re + a.im * a.im) * (z.re * z.re + z.im * z.im);
    }
  }

  /** A waveform of `n` ones (np.ones). */
  function Ones(n: nat): (w: seq<Complex>)
    ensures |w| == n
  {
    seq(n, _ => One)
  }

  /** A waveform of `n` zeros (np.zeros_like). */
  function Zeros(n: nat): (w: seq<Complex>)
    ensures |w| == n
  {
    seq(n, _ => Zero)
  }

  /** The standard basis vector of length `n` with its one at `k`. */
  function Basis(n: nat, k: nat): (w: seq<Complex>)
    requires k < n
    ensures |w| == n
    ensures w[k] == One && forall j :: 0 <= j < n && j != k ==> w[j] == Zero
  {
    Zeros(n)[k := One]
  }

  /** Sum of the squared magnitudes: the squared L2 norm. */
  function Total(w: seq<Complex>): (r: real)
    ensures r >= 0.0
    decreases |w|
  {
    if w == [] then 0.0 else Total(w[..|w| - 1]) + Weight(w[|w| - 1])
  }

  /** Adding one more slot adds its weight to the running total. */
  lemma TotalSnoc(w: seq<Complex>, m: nat)
    requires m < |w|
    ensures Total(w[..m + 1]) == Total(w[..m]) + Weight(w[m])
  {
    assert w[..m + 1][..m] == w[..m];
  }

  /**
   * Searches the cumulative weights from slot `k` on for the first slot whose
   * running total exceeds the threshold `t`.
   */
  function FirstAbove(w: seq<Complex>, t: real, k: nat): (r: nat)
    requires k < |w|
    requires Total(w[..k]) <= t < Total(w)
    ensures k <= r < |w|
    ensures Total(w[..r]) <= t < Total(w[..r + 1])
    ensures forall m :: k < m <= r ==> Total(w[..m]) <= t
    decreases |w| - k
  {
    if t < Total(w[..k + 1]) then k
    else
      assert k + 1 < |w| by {
        assert w[..|w|] == w;
      }
      FirstAbove(w, t, k + 1)
  }

  /** The fraction `u` of a waveform's total weight. */
  function Threshold(w: seq<Complex>, u: real): (t: real)
    requires 0.0 <= u < 1.0 && Total(w) > 0.0
    ensures 0.0 <= t < Total(w)
  {
    FractionBelow(u, Total(w));
    u * Total(w)
  }

  /**
   * Born-rule sampling as numpy's `choice(len(w), p=|w|^2 / sum)` does it
   * for a uniform draw `u` in [0, 1): the first index whose cumulative
   * weight exceeds the fraction `u` of the total (a cdf search with
   * side='right').
   */
  function Sample(w: seq<Complex>, u: real): (r: nat)
    requires 0.0 <= u < 1.0
    requires Total(w) > 0.0
    ensures r < |w|
    ensures Weight(w[r]) > 0.0
    ensures Total(w[..r]) <= Threshold(w, u) < Total(w[..r + 1])
    ensures forall m :: 0 < m <= r ==> Total(w[..m]) <= Threshold(w, u)
  {
    var t := Threshold(w, u);
    assert w[..0] == [];
    var r := FirstAbove(w, t, 0);
    TotalSnoc(w, r);
    r
  }

  lemma FractionBelow(u: real, x: real)
    requires 0.0 <= u < 1.0 && x > 0.0
    ensures 0.0 <= u * x < x
  {
    assert x - u * x == (1.0 - u) * x;
  }

  /** Prefix totals of a waveform whose only non-zero slot is `k`. */
  lemma {:induction false} SingleSupportPrefix(w: seq<Complex>, k: nat, m: nat)
    requires k < |w| && m <= |w|
    requires forall j :: 0 <= j < |w| && j != k ==> Weight(w[j]) == 0.0
    ensures Total(w[..m]) == if m > k then Weight(w[k]) else 0.0
    decreases m
  {
    if m == 0 {
      assert w[..0] == [];
    } else {
      SingleSupportPrefix(w, k, m - 1);
      TotalSnoc(w, m - 1);
    }
  }

  /**
   * When only slot `k` has a non-zero amplitude, sampling yields `k`
   * whatever the draw.
   */
  lemma SampleSingleSupport(w: seq<Complex>, k: nat, u: real)
    requires k < |w| && 0.0 <= u < 1.0
    requires Weight(w[k]) > 0.0
    requires forall j :: 0 <= j < |w| && j != k ==> Weight(w[j]) == 0.0
    ensures Total(w) > 0.0 && Sample(w, u) == k
  {
    SingleSupportPrefix(w, k, |w|);
    assert w[..|w|] == w;
    FractionBelow(u, Total(w));
    var r := Sample(w, u);
    SingleSupportPrefix(w, k, r);
    SingleSupportPrefix(w, k, r + 1);
  }

  /** Sampling a basis vector always yields its index. */
  lemma SampleBasis(n: nat, k: nat, u: real)
    requires k < n && 0.0 <= u < 1.0
    ensures Total(Basis(n, k)) > 0.0 && Sample(Basis(n, k), u) == k
  {
    var b := Basis(n, k);
    assert Weight(b[k]) == 1.0;
    forall j | 0 <= j < n && j != k
      ensures Weight(b[j]) == 0.0
    {
      assert b[j] == Zero;
    }
    SampleSingleSupport(b, k, u);
  }

  /** Waveforms with the same weight slot by slot have the same totals. */
  lemma {:induction false} SameWeightsSameTotals(a: seq<Complex>, b: seq<Complex>, m: nat)
    requires |a| == |b| && m <= |a|
    requires forall k :: 0 <= k < |a| ==> Weight(a[k]) == Weight(b[k])
    ensures Total(a[..m]) == Total(b[..m])
    decreases m
  {
    if m == 0 {
      assert a[..0] == [] && b[..0] == [];
    } else {
      SameWeightsSameTotals(a, b, m - 1);
      TotalSnoc(a, m - 1);
      TotalSnoc(b, m - 1);
    }
  }

  function Scaled(w: seq<Complex>, g: real): (r: seq<Complex>)
    ensures |r| == |w|
  {
    seq(|w|, k requires 0 <= k < |w| => Scale(w[k], g))
  }

  /**
   * In-place normalisation: divide by the norm when it is positive, leave
   * the waveform as it is otherwise.
   */
  function Normalized(w: seq<Complex>, norm: real): (r: seq<Complex>)
    ensures |r| == |w|
    ensures norm <= 0.0 ==> r == w
  {
    if norm > 0.0 then Scaled(w, 1.0 / norm) else w
  }

  /** Scaling back by a positive norm restores the waveform. */
  lemma NormalizedInverse(w: seq<Complex>, norm: real)
    requires norm > 0.0
    ensures Scaled(Normalized(w, norm), norm) == w
  {
    var r := Scaled(Normalized(w, norm), norm);
    forall k | 0 <= k < |w|
      ensures r[k] == w[k]
    {
      assert norm * (1.0 / norm) == 1.0;
      assert norm * ((1.0 / norm) * w[k].re) == w[k].re;
      assert norm * ((1.0 / norm) * w[k].im) == w[k].im;
    }
  }

  lemma {:induction false} TotalScaled(w: seq<Complex>, g: real)
    ensures Total(Scaled(w, g)) == g * g * Total(w)
    decreases |w|
  {
    if w != [] {
      var n := |w| - 1;
      var s := Scaled(w, g);
      TotalScaled(w[..n], g);
      assert s[..n] == Scaled(w[..n], g);
      assert s[n] == Scale(w[n], g);
      WeightScaled(w[n], g);
      assert Total(w) == Total(w[..n]) + Weight(w[n]);
      assert Total(s) == Total(s[..n]) + Weight(s[n]);
      hide Total, Weight;
      Distribute(g * g, Total(w[..n]), Weight(w[n]));
    }
  }

  lemma WeightScaled(z: Complex, g: real)
    ensures Weight(Scale(z, g)) == g * g * Weight(z)
  {
    SquareScaled(g, z.re);
    SquareScaled(g, z.im);
    Distribute(g * g, z.re * z.re, z.im * z.im);
  }

  lemma SquareScaled(g: real, x: real)
    ensures (g * x) * (g * x) == g * g * (x * x)
  {
  }

  lemma Distribute(c: real, a: real, b: real)
    ensures c * a + c * b == c * (a + b)
  {
  }

  /** `r` is the L2 norm of `w`, and it is positive. */
  ghost predicate IsNorm(w: seq<Complex>, r: real) {
    r > 0.0 && r * r == Total(w)
  }

  /**
   * Dividing by the true L2 norm (the non-negative root of the squared
   * norm) gives a unit waveform.
   */
  lemma NormalizedIsUnit(w: seq<Complex>, norm: real)
    requires IsNorm(w, norm)
    ensures Total(Normalized(w, norm)) == 1.0
  {
    var g := 1.0 / norm;
    TotalScaled(w, g);
    assert g * norm == 1.0;
    calc {
      g * g * Total(w);
      g * g * (norm * norm);
      (g * norm) * (g * norm);
      1.0;
    }
  }

  /** Multiplication of every slot by the phase factor `z`. */
  function Rotated(w: seq<Complex>, z: Complex): (r: seq<Complex>)
    ensures |r| == |w|
  {
    seq(|w|, k requires 0 <= k < |w| => Mul(w[k], z))
  }

  /**
   * A unit phase factor changes no slot's weight, hence not the Born
   * probabilities either.
   */
  lemma RotationKeepsWeights(w: seq<Complex>, z: Complex)
    requires Weight(z) == 1.0
    ensures forall k :: 0 <= k < |w| ==> Weight(Rotated(w, z)[k]) == Weight(w[k])
    ensures Total(Rotated(w, z)) == Total(w)
  {
    var r := Rotated(w, z);
    forall k | 0 <= k < |w|
      ensures Weight(r[k]) == Weight(w[k])
    {
      WeightOfProduct(w[k], z);
    }
    SameWeightsSameTotals(w, r, |w|);
    assert w[..|w|] == w && r[..|r|] == r;
  }

  /** `a += g * b`, slot by slot. */
  function AddScaled(a: seq<Complex>, b: seq<Complex>, g: real): (r: seq<Complex>)
    requires |a| == |b|
    ensures |r| == |a|
  {
    seq(|a|, k requires 0 <= k < |a| => Add(a[k], Scale(b[k], g)))
  }

  /**
   * Where interference reads a neighbour's waveform from: the node itself
   * (a self-link, which reads the running sum) or another node's waveform.
   */
  datatype Source = Itself | Other(wave: seq<Complex>)

  ghost predicate Fits(srcs: seq<Source>, n: nat) {
    forall i :: 0 <= i < |srcs| && srcs[i].Other? ==> |srcs[i].wave| == n
  }

  /**
   * The interference loop: for every neighbour in list order, add `Gain`
   * times its waveform to the running waveform.
   */
  function Interfered(w: seq<Complex>, srcs: seq<Source>): (r: seq<Complex>)
    requires Fits(srcs, |w|)
    ensures |r| == |w|
    decreases |srcs|
  {
    if srcs == [] then w
    else
      var acc := Interfered(w, srcs[..|srcs| - 1]);
      match srcs[|srcs| - 1]
      case Itself => AddScaled(acc, acc, Gain)
      case Other(v) => AddScaled(acc, v, Gain)
  }

  function AddWaves(a: seq<Complex>, b: seq<Complex>): (r: seq<Complex>)
    requires |a| == |b|
    ensures |r| == |a|
  {
    seq(|a|, k requires 0 <= k < |a| => Add(a[k], b[k]))
  }

  /** The sum of the neighbours' waveforms. */
  function SumOfOthers(srcs: seq<Source>, n: nat): (r: seq<Complex>)
    requires Fits(srcs, n)
    requires forall i :: 0 <= i < |srcs| ==> srcs[i].Other?
    ensures |r| == n
    decreases |srcs|
  {
    if srcs == [] then Zeros(n)
    else AddWaves(SumOfOthers(srcs[..|srcs| - 1], n), srcs[|srcs| - 1].wave)
  }

  /**
   * Without self-links, interference adds `Gain` times the sum of the
   * neighbours' waveforms.
   */
  lemma {:induction false} InterferedIsGainTimesSum(w: seq<Complex>, srcs: seq<Source>)
    requires Fits(srcs, |w|)
    requires forall i :: 0 <= i < |srcs| ==> srcs[i].Other?
    ensures Interfered(w, srcs) == AddScaled(w, SumOfOthers(srcs, |w|), Gain)
    decreases |srcs|
  {
    if srcs == [] {
      forall k | 0 <= k < |w|
        ensures AddScaled(w, Zeros(|w|), Gain)[k] == w[k]
      {
      }
    } else {
      var front := srcs[..|srcs| - 1];
      InterferedIsGainTimesSum(w, front);
      var s := SumOfOthers(front, |w|);
      var v := srcs[|srcs| - 1].wave;
      var lhs := Interfered(w, srcs);
      var rhs := AddScaled(w, SumOfOthers(srcs, |w|), Gain);
      forall k | 0 <= k < |w|
        ensures lhs[k] == rhs[k]
      {
        assert lhs[k] == Add(Add(w[k], Scale(s[k], Gain)), Scale(v[k], Gain));
        assert rhs[k] == Add(w[k], Scale(Add(s[k], v[k]), Gain));
      }
    }
  }

  /**
   * `propagate_resonance` on one node: per iteration, interfere with the
   * neighbours, normalise by the supplied norm, then rotate by the
   * iteration's phase factor.
   */
  function Resonated(w: seq<Complex>, srcs: seq<Source>, norm: seq<Complex> -> real,
                     factors: seq<Complex>): (r: seq<Complex>)
    requires Fits(srcs, |w|)
    ensures |r| == |w|
    decreases |factors|
  {
    if factors == [] then w
    else
      var prev := Resonated(w, srcs, norm, factors[..|factors| - 1]);
      var mixed := Interfered(prev, srcs);
      Rotated(Normalized(mixed, norm(mixed)), factors[|factors| - 1])
  }

  /**
   * When the last phase factor lies on the unit circle and the norm is the
   * true L2 norm of the mixed waveform, propagation leaves a unit vector.
   */
  lemma ResonatedIsUnit(w: seq<Complex>, srcs: seq<Source>, norm: seq<Complex> -> real, factors: seq<Complex>)
    requires Fits(srcs, |w|) && factors != []
    requires Weight(factors[|factors| - 1]) == 1.0
    requires var mixed := Interfered(Resonated(w, srcs, norm, factors[..|factors| - 1]), srcs);
      IsNorm(mixed, norm(mixed))
    ensures Total(Resonated(w, srcs, norm, factors)) == 1.0
  {
    var mixed := Interfered(Resonated(w, srcs, norm, factors[..|factors| - 1]), srcs);
    var z := factors[|factors| - 1];
    var unit := Normalized(mixed, norm(mixed));
    assert Total(unit) == 1.0 by {
      NormalizedIsUnit(mixed, norm(mixed));
    }
    assert Resonated(w, srcs, norm, factors) == Rotated(unit, z);
    hide Total, Weight, Resonated, Interfered, Normalized, Rotated, IsNorm;
    RotationKeepsWeights(unit, z);
  }
}
