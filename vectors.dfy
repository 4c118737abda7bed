/**
 * Numeric vectors (the source's `float[]`), read as sequences of reals, and the
 * vector routines of Utility.cs: averaging, concatenation and the distances.
 *
 * Euclidean distance is modelled by its square: the square root is monotone,
 * so every comparison the ensembles make between two distances is unchanged.
 */
module Vectors {

  type Vec = seq<real>

  function Zeros(n: nat): (z: Vec)
    ensures |z| == n && forall i | 0 <= i < n :: z[i] == 0.0
  {
    seq(n, _ => 0.0)
  }

  function Add(a: Vec, b: Vec): (c: Vec)
    requires |a| == |b|
    ensures |c| == |a| && forall i | 0 <= i < |a| :: c[i] == a[i] + b[i]
  {
    seq(|a|, i requires 0 <= i < |a| => a[i] + b[i])
  }

  function Sub(a: Vec, b: Vec): (c: Vec)
    requires |a| == |b|
    ensures |c| == |a| && forall i | 0 <= i < |a| :: c[i] == a[i] - b[i]
  {
    seq(|a|, i requires 0 <= i < |a| => a[i] - b[i])
  }

  function Scale(c: real, v: Vec): (w: Vec)
    ensures |w| == |v| && forall i | 0 <= i < |v| :: w[i] == c * v[i]
  {
    seq(|v|, i requires 0 <= i < |v| => c * v[i])
  }

  function Abs(x: real): real
  {
    if x < 0.0 then -x else x
  }

  /** The indices 0, 1, ..., n-1 in increasing order (`Enumerable.Range(0, n)`). */
  function Range(n: nat): (r: seq<int>)
    ensures |r| == n && forall i | 0 <= i < n :: r[i] == i
  {
    seq(n, i => i)
  }

  /** Every index of `fs` addresses a component of a vector of length `n`. */
  predicate InRange(fs: seq<int>, n: nat)
  {
    forall k | 0 <= k < |fs| :: 0 <= fs[k] < n
  }

  /** Every vector of `vs` has at least `n` components. */
  predicate Wide(vs: seq<Vec>, n: nat)
  {
    forall k | 0 <= k < |vs| :: n <= |vs[k]|
  }

  /** Every vector of `vs` has exactly `n` components. */
  predicate SameLength(vs: seq<Vec>, n: nat)
  {
    forall k | 0 <= k < |vs| :: |vs[k]| == n
  }

  // ---------------------------------------------------------------------------
  // Averaging (Utility.Average)
  // ---------------------------------------------------------------------------

  /** Component `i` summed over the vectors of `vs`, in list order. */
  function ColumnSum(vs: seq<Vec>, i: nat): real
    requires Wide(vs, i + 1)
    decreases |vs|
  {
    if vs == [] then 0.0 else ColumnSum(vs[..|vs| - 1], i) + vs[|vs| - 1][i]
  }

  /** The component-wise arithmetic mean of the first `n` components of `vs`. */
  function Mean(vs: seq<Vec>, n: nat): Vec
    requires |vs| > 0 && Wide(vs, n)
  {
    seq(n, i requires 0 <= i < n => ColumnSum(vs, i) / |vs| as real)
  }

  lemma {:induction false} ColumnSumAppend(a: seq<Vec>, b: seq<Vec>, i: nat)
    requires Wide(a, i + 1) && Wide(b, i + 1)
    ensures Wide(a + b, i + 1)
    ensures ColumnSum(a + b, i) == ColumnSum(a, i) + ColumnSum(b, i)
    decreases |b|
  {
    if b != [] {
      var b' := b[..|b| - 1];
      assert (a + b)[..|a + b| - 1] == a + b';
      ColumnSumAppend(a, b', i);
    } else {
      assert a + b == a;
    }
  }

  /** Reordering the vectors does not change a column sum. */
  lemma {:induction false} ColumnSumPermutation(a: seq<Vec>, b: seq<Vec>, i: nat)
    requires Wide(a, i + 1) && multiset(a) == multiset(b)
    ensures Wide(b, i + 1)
    ensures ColumnSum(a, i) == ColumnSum(b, i)
    decreases |a|
  {
    assert Wide(b, i + 1) by {
      forall k | 0 <= k < |b| ensures i + 1 <= |b[k]| {
        assert b[k] in multiset(b);
        assert b[k] in a;
      }
    }
    if a == [] {
      assert |b| == |multiset(b)| == 0;
    } else {
      var x := a[|a| - 1];
      var a' := a[..|a| - 1];
      assert a == a' + [x];
      assert multiset(a') == multiset(a) - multiset{x};
      assert x in multiset(b);
      var j :| 0 <= j < |b| && b[j] == x;
      var b' := b[..j] + b[j + 1..];
      ColumnSumRemove(b, j, i);
      ColumnSumPermutation(a', b', i);
    }
  }

  /** Taking vector j out of the list lowers each column sum by its component. */
  lemma ColumnSumRemove(b: seq<Vec>, j: nat, i: nat)
    requires j < |b| && Wide(b, i + 1)
    ensures multiset(b[..j] + b[j + 1..]) == multiset(b) - multiset{b[j]}
    ensures Wide(b[..j] + b[j + 1..], i + 1)
    ensures ColumnSum(b, i) == ColumnSum(b[..j] + b[j + 1..], i) + b[j][i]
  {
    var x := b[j];
    assert b == b[..j] + [x] + b[j + 1..];
    ColumnSumAppend(b[..j], [x], i);
    ColumnSumAppend(b[..j] + [x], b[j + 1..], i);
    ColumnSumAppend(b[..j], b[j + 1..], i);
    assert ColumnSum([x], i) == x[i] by {
      assert [x][..0] == [];
    }
  }

  /** Averaging `c` copies of one vector gives that vector back. */
  lemma {:induction false} MeanOfCopies(v: Vec, c: nat)
    requires c > 0
    ensures Mean(seq(c, _ => v), |v|) == v
  {
    var vs := seq(c, _ => v);
    forall i | 0 <= i < |v| ensures Mean(vs, |v|)[i] == v[i] {
      CopiesColumnSum(v, c, i);
      assert (c as real * v[i]) / c as real == v[i];
    }
  }

  lemma {:induction false} CopiesColumnSum(v: Vec, c: nat, i: nat)
    requires i < |v|
    ensures ColumnSum(seq(c, _ => v), i) == c as real * v[i]
  {
    if c > 0 {
      assert seq(c, _ => v)[..c - 1] == seq(c - 1, _ => v);
      CopiesColumnSum(v, c - 1, i);
    }
  }

  /** Utility.Average: component i of the result is the sum of v[i] over the list, divided by its count. */
  method Average(vectors: seq<Vec>) returns (average: Vec)
    requires |vectors| > 0 && Wide(vectors, |vectors[0]|)
    ensures |average| == |vectors[0]|
    ensures forall i | 0 <= i < |average| :: average[i] == ColumnSum(vectors, i) / |vectors| as real
  {
    var n := |vectors[0]|;
    var acc := new real[n](_ => 0.0);
    var k := 0;
    while k < |vectors|
      invariant 0 <= k <= |vectors|
      invariant forall i | 0 <= i < n :: acc[i] == ColumnSum(vectors[..k], i)
    {
      assert vectors[..k + 1][..k] == vectors[..k];
      var i := 0;
      while i < n
        invariant 0 <= i <= n
        invariant forall j | 0 <= j < i :: acc[j] == ColumnSum(vectors[..k + 1], j)
        invariant forall j | i <= j < n :: acc[j] == ColumnSum(vectors[..k], j)
      {
        acc[i] := acc[i] + vectors[k][i];
        i := i + 1;
      }
      k := k + 1;
    }
    assert vectors[..k] == vectors;
    var i := 0;
    while i < n
      invariant 0 <= i <= n
      invariant forall j | 0 <= j < i :: acc[j] == ColumnSum(vectors, j) / |vectors| as real
      invariant forall j | i <= j < n :: acc[j] == ColumnSum(vectors, j)
    {
      acc[i] := acc[i] / |vectors| as real;
      i := i + 1;
    }
    average := acc[..];
  }

  /** acc[i] += v[i] for every component of the accumulator (the forests' summing loops). */
  method AddInto(acc: array<real>, v: Vec)
    requires acc.Length <= |v|
    modifies acc
    ensures forall i | 0 <= i < acc.Length :: acc[i] == old(acc[i]) + v[i]
  {
    var i := 0;
    while i < acc.Length
      invariant 0 <= i <= acc.Length
      invariant forall j | 0 <= j < i :: acc[j] == old(acc[j]) + v[j]
      invariant forall j | i <= j < acc.Length :: acc[j] == old(acc[j])
    {
      acc[i] := acc[i] + v[i];
      i := i + 1;
    }
  }

  /** acc[i] /= n for every component of the accumulator (the forests' averaging loops). */
  method DivideBy(acc: array<real>, n: real)
    requires n != 0.0
    modifies acc
    ensures forall i | 0 <= i < acc.Length :: acc[i] == old(acc[i]) / n
  {
    var i := 0;
    while i < acc.Length
      invariant 0 <= i <= acc.Length
      invariant forall j | 0 <= j < i :: acc[j] == old(acc[j]) / n
      invariant forall j | i <= j < acc.Length :: acc[j] == old(acc[j])
    {
      acc[i] := acc[i] / n;
      i := i + 1;
    }
  }

  // ---------------------------------------------------------------------------
  // Concatenation (Utility.Concat)
  // ---------------------------------------------------------------------------

  /** The vectors of `vs` laid end to end, in list order. */
  function Flatten(vs: seq<Vec>): Vec
    decreases |vs|
  {
    if vs == [] then [] else Flatten(vs[..|vs| - 1]) + vs[|vs| - 1]
  }

  lemma {:induction false} FlattenLength(vs: seq<Vec>, n: nat)
    requires SameLength(vs, n)
    ensures |Flatten(vs)| == |vs| * n
    decreases |vs|
  {
    if vs != [] {
      FlattenLength(vs[..|vs| - 1], n);
      MulSucc(|vs| - 1, n);
    }
  }

  lemma {:induction false} FlattenAt(vs: seq<Vec>, n: nat, k: nat, j: nat)
    requires SameLength(vs, n) && k < |vs| && j < n
    ensures |Flatten(vs)| == |vs| * n
    ensures k * n + j < |Flatten(vs)| && Flatten(vs)[k * n + j] == vs[k][j]
    decreases |vs|
  {
    FlattenLength(vs, n);
    var m := |vs| - 1;
    FlattenLength(vs[..m], n);
    MulSucc(k, n);
    MulSucc(m, n);
    if k < m {
      MulMonotone(k + 1, m, n);
      FlattenAt(vs[..m], n, k, j);
    } else {
      MulMonotone(k, m, n);
    }
  }

  lemma FlattenPrefix(vs: seq<Vec>, i: nat)
    requires i < |vs|
    ensures Flatten(vs[..i + 1]) == Flatten(vs[..i]) + vs[i]
  {
    assert vs[..i + 1][..i] == vs[..i];
  }

  lemma MulMonotone(a: nat, b: nat, n: nat)
    requires a <= b
    ensures a * n <= b * n
  {
  }

  lemma MulSucc(a: nat, n: nat)
    ensures a * n + n == (a + 1) * n
  {
  }

  /** Array.Copy(src, 0, dst, offset, src.Length). */
  method CopyInto(src: Vec, dst: array<real>, offset: nat)
    requires offset + |src| <= dst.Length
    modifies dst
    ensures dst[..offset] == old(dst[..offset])
    ensures dst[offset..offset + |src|] == src
  {
    var j := 0;
    while j < |src|
      invariant 0 <= j <= |src|
      invariant dst[..offset] == old(dst[..offset])
      invariant dst[offset..offset + j] == src[..j]
    {
      dst[offset + j] := src[j];
      j := j + 1;
    }
  }

  /** Utility.Concat, for vectors of one common length: the blocks in list order. */
  method Concat(vectors: seq<Vec>) returns (concat: Vec)
    requires |vectors| > 0 && SameLength(vectors, |vectors[0]|)
    ensures |concat| == |vectors[0]| * |vectors|
    ensures concat == Flatten(vectors)
  {
    var n := |vectors[0]|;
    var a := new real[n * |vectors|](_ => 0.0);
    var i, offset := 0, 0;
    while i < |vectors|
      invariant 0 <= i <= |vectors|
      invariant offset == i * n
      invariant offset <= a.Length
      invariant a[..offset] == Flatten(vectors[..i])
    {
      MulSucc(i, n);
      MulMonotone(i + 1, |vectors|, n);
      FlattenPrefix(vectors, i);
      CopyInto(vectors[i], a, offset);
      assert a[..offset + n] == a[..offset] + a[offset..offset + n];
      offset := offset + n;
      i := i + 1;
    }
    assert vectors[..i] == vectors;
    assert a[..] == a[..offset];
    concat := a[..];
  }

  // ---------------------------------------------------------------------------
  // Distances (MeanAbsoluteDistance, EuclideanDistance, WeightedMeanAbsoluteDistance)
  // ---------------------------------------------------------------------------

  /** The per-component term a distance sums: |x - y| or (x - y)^2. */
  datatype Metric = Absolute | Squared

  function Term(m: Metric, x: real, y: real): real
  {
    match m
    case Absolute => Abs(x - y)
    case Squared => (x - y) * (x - y)
  }

  /** The metric's terms summed over the first `n` components. */
  function DiffSum(m: Metric, a: Vec, b: Vec, n: nat): real
    requires n <= |a| && n <= |b|
    decreases n
  {
    if n == 0 then 0.0 else DiffSum(m, a, b, n - 1) + Term(m, a[n - 1], b[n - 1])
  }

  /** The metric's terms summed over the listed components only, in list order. */
  function DiffSumOn(m: Metric, a: Vec, b: Vec, fs: seq<int>): real
    requires InRange(fs, |a|) && InRange(fs, |b|)
    decreases |fs|
  {
    if fs == [] then 0.0
    else DiffSumOn(m, a, b, fs[..|fs| - 1]) + Term(m, a[fs[|fs| - 1]], b[fs[|fs| - 1]])
  }

  /**
   * Every term is non-negative, symmetric and zero on equal components; an
   * absolute term is zero only there.
   */
  lemma TermProperties(m: Metric, x: real, y: real)
    ensures Term(m, x, y) >= 0.0 && Term(m, x, y) == Term(m, y, x)
    ensures x == y ==> Term(m, x, y) == 0.0
    ensures m == Absolute ==> (Term(m, x, y) == 0.0 <==> x == y)
  {
  }

  /**
   * A distance sum is non-negative, symmetric and zero on equal prefixes; the
   * absolute sum is zero only on equal prefixes.
   */
  lemma {:induction false} DiffSumProperties(m: Metric, a: Vec, b: Vec, n: nat)
    requires n <= |a| && n <= |b|
    ensures DiffSum(m, a, b, n) >= 0.0
    ensures DiffSum(m, a, b, n) == DiffSum(m, b, a, n)
    ensures a[..n] == b[..n] ==> DiffSum(m, a, b, n) == 0.0
    ensures m == Absolute ==> (DiffSum(m, a, b, n) == 0.0 <==> a[..n] == b[..n])
  {
    if n > 0 {
      DiffSumProperties(m, a, b, n - 1);
      TermProperties(m, a[n - 1], b[n - 1]);
      assert a[..n] == a[..n - 1] + [a[n - 1]];
      assert b[..n] == b[..n - 1] + [b[n - 1]];
      if a[..n] == b[..n] {
        assert a[..n - 1] == a[..n][..n - 1];
      }
    }
  }

  /** Restricting to all components 0..n-1 in order gives the unrestricted sum. */
  lemma {:induction false} DiffSumOnAll(m: Metric, a: Vec, b: Vec, n: nat)
    requires n <= |a| && n <= |b|
    ensures InRange(Range(n), |a|) && InRange(Range(n), |b|)
    ensures DiffSumOn(m, a, b, Range(n)) == DiffSum(m, a, b, n)
  {
    if n > 0 {
      assert Range(n)[..n - 1] == Range(n - 1);
      DiffSumOnAll(m, a, b, n - 1);
    }
  }

  /** A restricted distance reads only the listed components of its arguments. */
  lemma {:induction false} DiffSumOnReadsOnly(m: Metric, a: Vec, b: Vec, a': Vec, b': Vec, fs: seq<int>)
    requires InRange(fs, |a|) && InRange(fs, |b|) && InRange(fs, |a'|) && InRange(fs, |b'|)
    requires forall k | 0 <= k < |fs| :: a[fs[k]] == a'[fs[k]] && b[fs[k]] == b'[fs[k]]
    ensures DiffSumOn(m, a, b, fs) == DiffSumOn(m, a', b', fs)
    decreases |fs|
  {
    if fs != [] {
      DiffSumOnReadsOnly(m, a, b, a', b', fs[..|fs| - 1]);
    }
  }

  lemma {:induction false} DiffSumOnNonNegative(m: Metric, a: Vec, b: Vec, fs: seq<int>)
    requires InRange(fs, |a|) && InRange(fs, |b|)
    ensures DiffSumOn(m, a, b, fs) >= 0.0
    ensures DiffSumOn(m, a, b, fs) == DiffSumOn(m, b, a, fs)
    decreases |fs|
  {
    if fs != [] {
      DiffSumOnNonNegative(m, a, b, fs[..|fs| - 1]);
      TermProperties(m, a[fs[|fs| - 1]], b[fs[|fs| - 1]]);
    }
  }

  /** The loop shared by the unrestricted distances: sum the metric's terms over a.Length components. */
  method SumTerms(m: Metric, a: Vec, b: Vec) returns (distance: real)
    requires |a| <= |b|
    ensures distance == DiffSum(m, a, b, |a|)
  {
    distance := 0.0;
    var i := 0;
    while i < |a|
      invariant 0 <= i <= |a|
      invariant distance == DiffSum(m, a, b, i)
    {
      distance := distance + Term(m, a[i], b[i]);
      i := i + 1;
    }
  }

  /** The loop shared by the restricted distances: sum the metric's terms over the listed components. */
  method SumTermsOn(m: Metric, a: Vec, b: Vec, features: seq<int>) returns (distance: real)
    requires InRange(features, |a|) && InRange(features, |b|)
    ensures distance == DiffSumOn(m, a, b, features)
  {
    distance := 0.0;
    var i := 0;
    while i < |features|
      invariant 0 <= i <= |features|
      invariant distance == DiffSumOn(m, a, b, features[..i])
    {
      assert features[..i + 1][..i] == features[..i];
      distance := distance + Term(m, a[features[i]], b[features[i]]);
      i := i + 1;
    }
    assert features[..i] == features;
  }

  /** Utility.MeanAbsoluteDistance(a, b): the absolute differences averaged over a.Length. */
  method MeanAbsoluteDistance(a: Vec, b: Vec) returns (distance: real)
    requires 0 < |a| <= |b|
    ensures distance == DiffSum(Absolute, a, b, |a|) / |a| as real
  {
    distance := SumTerms(Absolute, a, b);
    distance := distance / |a| as real;
  }

  /** Utility.MeanAbsoluteDistance(a, b, features): averaged over the listed components only. */
  method MeanAbsoluteDistanceOn(a: Vec, b: Vec, features: seq<int>) returns (distance: real)
    requires |features| > 0 && InRange(features, |a|) && InRange(features, |b|)
    ensures distance == DiffSumOn(Absolute, a, b, features) / |features| as real
  {
    distance := SumTermsOn(Absolute, a, b, features);
    distance := distance / |features| as real;
  }

  /** Utility.EuclideanDistance(a, b), squared: the sum of squared differences over a.Length. */
  method SquaredEuclideanDistance(a: Vec, b: Vec) returns (distance: real)
    requires |a| <= |b|
    ensures distance == DiffSum(Squared, a, b, |a|)
  {
    distance := SumTerms(Squared, a, b);
  }

  /** Utility.EuclideanDistance(a, b, features), squared: summed over the listed components only. */
  method SquaredEuclideanDistanceOn(a: Vec, b: Vec, features: seq<int>) returns (distance: real)
    requires InRange(features, |a|) && InRange(features, |b|)
    ensures distance == DiffSumOn(Squared, a, b, features)
  {
    distance := SumTermsOn(Squared, a, b, features);
  }

  /** Sum of the first `n` weights. */
  function WeightSum(w: Vec, n: nat): real
    requires n <= |w|
  {
    if n == 0 then 0.0 else WeightSum(w, n - 1) + w[n - 1]
  }

  /** Sum of |a_i - b_i| * w_i over the first `n` components. */
  function WeightedAbsSum(a: Vec, b: Vec, w: Vec, n: nat): real
    requires n <= |a| && n <= |b| && n <= |w|
  {
    if n == 0 then 0.0 else WeightedAbsSum(a, b, w, n - 1) + Abs(a[n - 1] - b[n - 1]) * w[n - 1]
  }

  /** With every weight equal to c, the weighted sums are c times the unweighted ones. */
  lemma {:induction false} UniformWeights(a: Vec, b: Vec, w: Vec, c: real, n: nat)
    requires n <= |a| && n <= |b| && n <= |w|
    requires forall i | 0 <= i < n :: w[i] == c
    ensures WeightSum(w, n) == n as real * c
    ensures WeightedAbsSum(a, b, w, n) == c * DiffSum(Absolute, a, b, n)
  {
    if n > 0 {
      UniformWeights(a, b, w, c, n - 1);
    }
  }

  /** Utility.WeightedMeanAbsoluteDistance: Σ|a_i - b_i| w_i / Σ w_i over a.Length components. */
  method WeightedMeanAbsoluteDistance(a: Vec, b: Vec, w: Vec) returns (distance: real)
    requires |a| <= |b| && |a| <= |w|
    requires WeightSum(w, |a|) != 0.0
    ensures distance == WeightedAbsSum(a, b, w, |a|) / WeightSum(w, |a|)
  {
    distance := 0.0;
    var weightSum := 0.0;
    var i := 0;
    while i < |a|
      invariant 0 <= i <= |a|
      invariant weightSum == WeightSum(w, i)
      invariant distance == WeightedAbsSum(a, b, w, i)
    {
      weightSum := weightSum + w[i];
      distance := distance + Abs(a[i] - b[i]) * w[i];
      i := i + 1;
    }
    distance := distance / weightSum;
  }

  /** With equal positive weights the weighted distance is the plain mean absolute distance. */
  lemma UniformWeightedIsMean(a: Vec, b: Vec, w: Vec, c: real)
    requires 0 < |a| <= |b| && |a| <= |w| && c > 0.0
    requires forall i | 0 <= i < |a| :: w[i] == c
    ensures WeightSum(w, |a|) != 0.0
    ensures WeightedAbsSum(a, b, w, |a|) / WeightSum(w, |a|) == DiffSum(Absolute, a, b, |a|) / |a| as real
  {
    UniformWeights(a, b, w, c, |a|);
    var n := |a| as real;
    var s := DiffSum(Absolute, a, b, |a|);
    DivCancel(c, s, n);
  }

  lemma DivCancel(c: real, s: real, n: real)
    requires c != 0.0 && n != 0.0
    ensures (c * s) / (n * c) == s / n
  {
    var q := s / n;
    assert s == q * n;
    assert c * s == q * (n * c);
  }
}
