/**
 * Samples (Sample.cs): an input vector paired with an output vector, and the
 * min-max normalisation of a sample list.
 */
module Samples {
  import opened Vectors

  datatype Sample = Sample(input: Vec, output: Vec)

  /** The input of a sample, as a function value for the generic partitioning code. */
  function InputOf(s: Sample): Vec
  {
    s.input
  }

  function Inputs(samples: seq<Sample>): (vs: seq<Vec>)
    ensures |vs| == |samples| && forall k | 0 <= k < |samples| :: vs[k] == samples[k].input
  {
    seq(|samples|, k requires 0 <= k < |samples| => samples[k].input)
  }

  function Outputs(samples: seq<Sample>): (vs: seq<Vec>)
    ensures |vs| == |samples| && forall k | 0 <= k < |samples| :: vs[k] == samples[k].output
  {
    seq(|samples|, k requires 0 <= k < |samples| => samples[k].output)
  }

  /** Every input has `din` components and every output `dout`. */
  predicate Uniform(samples: seq<Sample>, din: nat, dout: nat)
  {
    forall k | 0 <= k < |samples| :: |samples[k].input| == din && |samples[k].output| == dout
  }

  lemma UniformWide(samples: seq<Sample>, din: nat, dout: nat)
    requires Uniform(samples, din, dout)
    ensures Wide(Inputs(samples), din) && Wide(Outputs(samples), dout)
    ensures SameLength(Inputs(samples), din) && SameLength(Outputs(samples), dout)
  {
  }

  lemma UniformSub(samples: seq<Sample>, sub: seq<Sample>, din: nat, dout: nat)
    requires Uniform(samples, din, dout) && multiset(sub) <= multiset(samples)
    ensures Uniform(sub, din, dout)
  {
    forall k | 0 <= k < |sub| ensures |sub[k].input| == din && |sub[k].output| == dout {
      assert sub[k] in multiset(sub);
      assert sub[k] in multiset(samples);
    }
  }

  /** The component-wise mean output of a non-empty list (what the trees call Sample.AverageOutput). */
  function MeanOutput(samples: seq<Sample>, dout: nat): (m: Vec)
    requires |samples| > 0 && Wide(Outputs(samples), dout)
    ensures |m| == dout
  {
    Mean(Outputs(samples), dout)
  }

  // ---------------------------------------------------------------------------
  // Min-max normalisation (Sample.Normalize, Sample.Conormalize)
  // ---------------------------------------------------------------------------

  function Min(a: real, b: real): real { if a <= b then a else b }

  function Max(a: real, b: real): real { if a >= b then a else b }

  /** The least value of component i over a non-empty list of vectors. */
  function ColMin(vs: seq<Vec>, i: nat): real
    requires |vs| > 0 && Wide(vs, i + 1)
    decreases |vs|
  {
    if |vs| == 1 then vs[0][i] else Min(ColMin(vs[..|vs| - 1], i), vs[|vs| - 1][i])
  }

  /** The greatest value of component i over a non-empty list of vectors. */
  function ColMax(vs: seq<Vec>, i: nat): real
    requires |vs| > 0 && Wide(vs, i + 1)
    decreases |vs|
  {
    if |vs| == 1 then vs[0][i] else Max(ColMax(vs[..|vs| - 1], i), vs[|vs| - 1][i])
  }

  /** ColMin and ColMax are attained bounds of the column. */
  lemma {:induction false} ColBounds(vs: seq<Vec>, i: nat)
    requires |vs| > 0 && Wide(vs, i + 1)
    ensures forall k | 0 <= k < |vs| :: ColMin(vs, i) <= vs[k][i] <= ColMax(vs, i)
    ensures exists k | 0 <= k < |vs| :: vs[k][i] == ColMin(vs, i)
    ensures exists k | 0 <= k < |vs| :: vs[k][i] == ColMax(vs, i)
    decreases |vs|
  {
    if |vs| > 1 {
      var p := vs[..|vs| - 1];
      ColBounds(p, i);
      var kmin :| 0 <= kmin < |p| && p[kmin][i] == ColMin(p, i);
      var kmax :| 0 <= kmax < |p| && p[kmax][i] == ColMax(p, i);
      if ColMin(p, i) <= vs[|vs| - 1][i] {
        assert vs[kmin][i] == ColMin(vs, i);
      } else {
        assert vs[|vs| - 1][i] == ColMin(vs, i);
      }
      if ColMax(p, i) >= vs[|vs| - 1][i] {
        assert vs[kmax][i] == ColMax(vs, i);
      } else {
        assert vs[|vs| - 1][i] == ColMax(vs, i);
      }
      forall k | 0 <= k < |vs| ensures ColMin(vs, i) <= vs[k][i] <= ColMax(vs, i) {
        if k < |vs| - 1 {
          assert vs[k] == p[k];
        }
      }
    } else {
      assert vs[0][i] == ColMin(vs, i);
      assert vs[0][i] == ColMax(vs, i);
    }
  }

  /** x mapped from [lo, hi] onto [0, 1]; a zero-width range maps to 0. */
  function Rescale(x: real, lo: real, hi: real): real
  {
    if hi - lo == 0.0 then 0.0 else (x - lo) / (hi - lo)
  }

  lemma RescaleRange(x: real, lo: real, hi: real)
    requires lo <= x <= hi
    ensures 0.0 <= Rescale(x, lo, hi) <= 1.0
    ensures x == lo ==> Rescale(x, lo, hi) == 0.0
    ensures x == hi && lo != hi ==> Rescale(x, lo, hi) == 1.0
  {
    if hi - lo != 0.0 {
      UnitFraction(x - lo, hi - lo);
    }
  }

  lemma UnitFraction(a: real, r: real)
    requires 0.0 <= a <= r && r > 0.0
    ensures 0.0 <= a / r <= 1.0
  {
    var q := a / r;
    assert q * r == a;
  }

  /** v rescaled component by component against the columns of vs. */
  function NormalizeVec(v: Vec, vs: seq<Vec>): (w: Vec)
    requires |vs| > 0 && Wide(vs, |v|)
    ensures |w| == |v|
  {
    seq(|v|, i requires 0 <= i < |v| => Rescale(v[i], ColMin(vs, i), ColMax(vs, i)))
  }

  /** Every sample rescaled against the column bounds of the whole list. */
  function NormalizeSpec(samples: seq<Sample>, din: nat, dout: nat): seq<Sample>
    requires |samples| > 0 && Uniform(samples, din, dout)
  {
    seq(|samples|, k requires 0 <= k < |samples| =>
      Sample(NormalizeVec(samples[k].input, Inputs(samples)), NormalizeVec(samples[k].output, Outputs(samples))))
  }

  /**
   * Normalising keeps the list length and the vector lengths; every value lands
   * in [0, 1]; a column's minimum maps to 0, its maximum to 1 unless the column is
   * constant, and a constant column maps to 0 throughout.
   */
  lemma NormalizeProperties(samples: seq<Sample>, din: nat, dout: nat, k: nat, i: nat)
    requires |samples| > 0 && Uniform(samples, din, dout) && k < |samples| && i < din
    ensures |NormalizeSpec(samples, din, dout)| == |samples|
    ensures Uniform(NormalizeSpec(samples, din, dout), din, dout)
    ensures var x := NormalizeSpec(samples, din, dout)[k].input[i];
      && 0.0 <= x <= 1.0
      && (samples[k].input[i] == ColMin(Inputs(samples), i) ==> x == 0.0)
      && (samples[k].input[i] == ColMax(Inputs(samples), i) != ColMin(Inputs(samples), i) ==> x == 1.0)
      && (ColMin(Inputs(samples), i) == ColMax(Inputs(samples), i) ==> x == 0.0)
  {
    var vs := Inputs(samples);
    ColBounds(vs, i);
    assert vs[k] == samples[k].input;
    RescaleRange(samples[k].input[i], ColMin(vs, i), ColMax(vs, i));
  }

  /** The same statement for the output components. */
  lemma NormalizeOutputProperties(samples: seq<Sample>, din: nat, dout: nat, k: nat, i: nat)
    requires |samples| > 0 && Uniform(samples, din, dout) && k < |samples| && i < dout
    ensures var y := NormalizeSpec(samples, din, dout)[k].output[i];
      && 0.0 <= y <= 1.0
      && (samples[k].output[i] == ColMin(Outputs(samples), i) ==> y == 0.0)
      && (samples[k].output[i] == ColMax(Outputs(samples), i) != ColMin(Outputs(samples), i) ==> y == 1.0)
      && (ColMin(Outputs(samples), i) == ColMax(Outputs(samples), i) ==> y == 0.0)
  {
    var vs := Outputs(samples);
    ColBounds(vs, i);
    assert vs[k] == samples[k].output;
    RescaleRange(samples[k].output[i], ColMin(vs, i), ColMax(vs, i));
  }

  /** The min/max scan over all vectors: lo[i] and hi[i] are the column bounds. */
  method ColumnBounds(vs: seq<Vec>, n: nat) returns (lo: seq<real>, hi: seq<real>)
    requires |vs| > 0 && Wide(vs, n)
    ensures |lo| == n && |hi| == n
    ensures forall i | 0 <= i < n :: lo[i] == ColMin(vs, i) && hi[i] == ColMax(vs, i)
  {
    var first := vs[0];
    var mins := new real[n](i requires 0 <= i < n => first[i]);
    var maxs := new real[n](i requires 0 <= i < n => first[i]);
    var k := 1;
    while k < |vs|
      invariant 1 <= k <= |vs|
      invariant forall i | 0 <= i < n :: mins[i] == ColMin(vs[..k], i) && maxs[i] == ColMax(vs[..k], i)
    {
      assert vs[..k + 1][..k] == vs[..k];
      var i := 0;
      while i < n
        invariant 0 <= i <= n
        invariant forall j | 0 <= j < i :: mins[j] == ColMin(vs[..k + 1], j) && maxs[j] == ColMax(vs[..k + 1], j)
        invariant forall j | i <= j < n :: mins[j] == ColMin(vs[..k], j) && maxs[j] == ColMax(vs[..k], j)
      {
        if vs[k][i] < mins[i] {
          mins[i] := vs[k][i];
        }
        if vs[k][i] > maxs[i] {
          maxs[i] := vs[k][i];
        }
        i := i + 1;
      }
      k := k + 1;
    }
    assert vs[..k] == vs;
    lo := mins[..];
    hi := maxs[..];
  }

  /** One vector rescaled into a fresh array. */
  method RescaleVec(v: Vec, lo: seq<real>, hi: seq<real>) returns (w: Vec)
    requires |v| <= |lo| && |v| <= |hi|
    ensures |w| == |v| && forall i | 0 <= i < |v| :: w[i] == Rescale(v[i], lo[i], hi[i])
  {
    var a := new real[|v|];
    var i := 0;
    while i < |v|
      invariant 0 <= i <= |v|
      invariant forall j | 0 <= j < i :: a[j] == Rescale(v[j], lo[j], hi[j])
    {
      var range := hi[i] - lo[i];
      if range == 0.0 {
        a[i] := 0.0;
      } else {
        a[i] := (v[i] - lo[i]) / range;
      }
      i := i + 1;
    }
    w := a[..];
  }

  /** Sample.Normalize: a new list of samples, rescaled column by column. */
  method Normalize(samples: seq<Sample>, din: nat, dout: nat) returns (normalized: seq<Sample>)
    requires |samples| > 0 && Uniform(samples, din, dout)
    ensures normalized == NormalizeSpec(samples, din, dout)
  {
    var ilo, ihi := ColumnBounds(Inputs(samples), din);
    var olo, ohi := ColumnBounds(Outputs(samples), dout);
    normalized := [];
    var k := 0;
    while k < |samples|
      invariant 0 <= k <= |samples|
      invariant normalized == NormalizeSpec(samples, din, dout)[..k]
    {
      var input := RescaleVec(samples[k].input, ilo, ihi);
      var output := RescaleVec(samples[k].output, olo, ohi);
      assert input == NormalizeVec(samples[k].input, Inputs(samples));
      assert output == NormalizeVec(samples[k].output, Outputs(samples));
      normalized := normalized + [Sample(input, output)];
      k := k + 1;
    }
  }

  /** Sample.Conormalize: normalise A and B together, then split the result back at |A|. */
  method Conormalize(a: seq<Sample>, b: seq<Sample>, din: nat, dout: nat) returns (na: seq<Sample>, nb: seq<Sample>)
    requires |a + b| > 0 && Uniform(a + b, din, dout)
    ensures |na| == |a| && |nb| == |b|
    ensures na + nb == NormalizeSpec(a + b, din, dout)
  {
    var joint := Normalize(a + b, din, dout);
    na := joint[..|a|];
    nb := joint[|a|..|a| + |b|];
    assert joint == na + nb;
  }
}
