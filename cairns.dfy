/**
 * What Models/CairnTree.cs and Models/RandomCairnTree.cs share: a node holds
 * the mean output of its samples and their error, and a split node two
 * "cairns" (the inputs of two of its samples); every sample goes to the side
 * of the cairn its input is nearer to, a tie going left.
 *
 * Both trees work on a list of indices into the sample list and on the
 * matrix of distances between sample inputs. Euclidean distance is taken
 * squared (see Vectors), which decides every comparison the same way.
 */
module Cairns {
  import opened Wrappers
  import opened Vectors
  import opened Samples

  /** The error a node records: Minimize.MeanSquaredError or Minimize.MeanAbsoluteError. */
  datatype Minimize = MeanSquaredError | MeanAbsoluteError

  function MetricOf(minimize: Minimize): Metric
  {
    match minimize
    case MeanSquaredError => Squared
    case MeanAbsoluteError => Absolute
  }

  /**
   * A cairn tree. A node built on no samples divides by a count of zero, so
   * its error and every one of its `width` output components are NaN:
   * `Empty(width)`, whose output is defined only when it has no component at
   * all. Otherwise a
   * node stores the mean output and the error of its samples, and a split
   * node also the inputs of its two cairns and the children built on the
   * samples nearer to each.
   */
  datatype Cairn =
    | Empty(width: nat)
    | Leaf(output: Vec, error: real)
    | Split(output: Vec, error: real, leftCairn: Vec, rightCairn: Vec, left: Cairn, right: Cairn)

  // ---------------------------------------------------------------------------
  // Distances and the nearer-cairn partition
  // ---------------------------------------------------------------------------

  /** sampleDistances[i, j]: the distance between the inputs of samples i and j. */
  function Dist(samples: seq<Sample>, i: int, j: int): real
    requires 0 <= i < |samples| && 0 <= j < |samples| && |samples[i].input| <= |samples[j].input|
  {
    DiffSum(Squared, samples[i].input, samples[j].input, |samples[i].input|)
  }

  /** Between samples of one input width, distances are symmetric and non-negative, and zero from a sample to itself. */
  lemma DistProperties(samples: seq<Sample>, i: int, j: int, din: nat, dout: nat)
    requires Uniform(samples, din, dout) && 0 <= i < |samples| && 0 <= j < |samples|
    ensures Dist(samples, i, j) == Dist(samples, j, i) && Dist(samples, i, j) >= 0.0
    ensures Dist(samples, i, i) == 0.0
  {
    DiffSumProperties(Squared, samples[i].input, samples[j].input, din);
    DiffSumProperties(Squared, samples[i].input, samples[i].input, din);
  }

  /** Sample s is at least as near to cairn l as to cairn r, so it goes left. */
  predicate GoesLeft(samples: seq<Sample>, l: int, r: int, s: int, din: nat, dout: nat)
    requires Uniform(samples, din, dout) && 0 <= l < |samples| && 0 <= r < |samples| && 0 <= s < |samples|
  {
    Dist(samples, l, s) <= Dist(samples, r, s)
  }

  /** In the pair loops over list positions a < b, pair (i, j) is visited at or after position (a, b). */
  predicate Ahead(a: int, b: int, i: int, j: int)
  {
    i > a || (i == a && j >= b)
  }

  /** The index list split between the cairns: (leftIndices, rightIndices), each in list order. */
  function Sides(samples: seq<Sample>, idx: seq<int>, l: int, r: int, din: nat, dout: nat): (sides: (seq<int>, seq<int>))
    requires Uniform(samples, din, dout) && InRange(idx, |samples|) && 0 <= l < |samples| && 0 <= r < |samples|
    ensures InRange(sides.0, |samples|) && InRange(sides.1, |samples|)
    decreases |idx|
  {
    if idx == [] then ([], [])
    else
      var p := Sides(samples, idx[..|idx| - 1], l, r, din, dout);
      var s := idx[|idx| - 1];
      if GoesLeft(samples, l, r, s, din, dout) then (p.0 + [s], p.1) else (p.0, p.1 + [s])
  }

  /**
   * The two sides share out the index list, every index on the left is at
   * least as near to l as to r, and every index on the right is nearer to r.
   */
  lemma {:induction false} SidesFacts(samples: seq<Sample>, idx: seq<int>, l: int, r: int, din: nat, dout: nat)
    requires Uniform(samples, din, dout) && InRange(idx, |samples|) && 0 <= l < |samples| && 0 <= r < |samples|
    ensures var (ls, rs) := Sides(samples, idx, l, r, din, dout);
      && |ls| + |rs| == |idx|
      && multiset(ls) + multiset(rs) == multiset(idx)
      && (forall k | 0 <= k < |ls| :: GoesLeft(samples, l, r, ls[k], din, dout))
      && (forall k | 0 <= k < |rs| :: !GoesLeft(samples, l, r, rs[k], din, dout))
    decreases |idx|
  {
    if idx != [] {
      var p := idx[..|idx| - 1];
      SidesFacts(samples, p, l, r, din, dout);
      assert idx == p + [idx[|idx| - 1]];
    }
  }

  /** Entry k of the index list lands on the side its own distances select. */
  lemma {:induction false} SidesMember(samples: seq<Sample>, idx: seq<int>, l: int, r: int, din: nat, dout: nat, k: nat)
    requires Uniform(samples, din, dout) && InRange(idx, |samples|) && 0 <= l < |samples| && 0 <= r < |samples|
    requires k < |idx|
    ensures if GoesLeft(samples, l, r, idx[k], din, dout) then idx[k] in Sides(samples, idx, l, r, din, dout).0
            else idx[k] in Sides(samples, idx, l, r, din, dout).1
    decreases |idx|
  {
    if k < |idx| - 1 {
      var p := idx[..|idx| - 1];
      SidesMember(samples, p, l, r, din, dout, k);
      assert p[k] == idx[k];
    }
  }

  /** A left cairn from the index list always goes left: its distance to itself is zero. */
  lemma CairnGoesLeft(samples: seq<Sample>, idx: seq<int>, a: nat, r: int, din: nat, dout: nat)
    requires Uniform(samples, din, dout) && InRange(idx, |samples|) && a < |idx| && 0 <= r < |samples|
    ensures idx[a] in Sides(samples, idx, idx[a], r, din, dout).0
    ensures |Sides(samples, idx, idx[a], r, din, dout).0| > 0
  {
    DistProperties(samples, idx[a], idx[a], din, dout);
    DistProperties(samples, r, idx[a], din, dout);
    SidesMember(samples, idx, idx[a], r, din, dout, a);
  }

  // ---------------------------------------------------------------------------
  // A node's output and error (CalculateAverageOutput, CalculateError)
  // ---------------------------------------------------------------------------

  /** The samples the index list names, in list order. */
  function Gather(samples: seq<Sample>, idx: seq<int>): (g: seq<Sample>)
    requires InRange(idx, |samples|)
    ensures |g| == |idx| && forall k | 0 <= k < |idx| :: g[k] == samples[idx[k]]
  {
    seq(|idx|, k requires 0 <= k < |idx| => samples[idx[k]])
  }

  lemma GatherUniform(samples: seq<Sample>, idx: seq<int>, din: nat, dout: nat)
    requires Uniform(samples, din, dout) && InRange(idx, |samples|)
    ensures Uniform(Gather(samples, idx), din, dout)
    ensures Wide(Outputs(Gather(samples, idx)), dout)
  {
  }

  /** CalculateAverageOutput on a non-empty index list: the mean output of the listed samples. */
  function MeanOf(samples: seq<Sample>, idx: seq<int>, din: nat, dout: nat): (avg: Vec)
    requires Uniform(samples, din, dout) && InRange(idx, |samples|) && |idx| > 0
    ensures |avg| == dout
  {
    GatherUniform(samples, idx, din, dout);
    MeanOutput(Gather(samples, idx), dout)
  }

  /** The deviations of the listed samples' outputs from avg, summed in list order. */
  function Deviation(minimize: Minimize, samples: seq<Sample>, idx: seq<int>, avg: Vec, din: nat, dout: nat): real
    requires Uniform(samples, din, dout) && InRange(idx, |samples|) && |avg| == dout
    decreases |idx|
  {
    if idx == [] then 0.0
    else Deviation(minimize, samples, idx[..|idx| - 1], avg, din, dout)
         + DiffSum(MetricOf(minimize), samples[idx[|idx| - 1]].output, avg, dout)
  }

  lemma {:induction false} DeviationNonNegative(minimize: Minimize, samples: seq<Sample>, idx: seq<int>, avg: Vec, din: nat, dout: nat)
    requires Uniform(samples, din, dout) && InRange(idx, |samples|) && |avg| == dout
    ensures Deviation(minimize, samples, idx, avg, din, dout) >= 0.0
    decreases |idx|
  {
    if idx != [] {
      DeviationNonNegative(minimize, samples, idx[..|idx| - 1], avg, din, dout);
      DiffSumProperties(MetricOf(minimize), samples[idx[|idx| - 1]].output, avg, dout);
    }
  }

  /** CalculateError on a non-empty index list: the summed deviation over the count, never negative. */
  function ErrorOf(minimize: Minimize, samples: seq<Sample>, idx: seq<int>, avg: Vec, din: nat, dout: nat): (e: real)
    requires Uniform(samples, din, dout) && InRange(idx, |samples|) && |avg| == dout && |idx| > 0
    ensures e >= 0.0
  {
    DeviationNonNegative(minimize, samples, idx, avg, din, dout);
    Deviation(minimize, samples, idx, avg, din, dout) / |idx| as real
  }

  /** A node that does not split: its samples' mean output and error, or NaN throughout when it has none. */
  function LeafOf(minimize: Minimize, samples: seq<Sample>, idx: seq<int>, din: nat, dout: nat): Cairn
    requires Uniform(samples, din, dout) && InRange(idx, |samples|)
  {
    if idx == [] then Empty(dout)
    else
      var avg := MeanOf(samples, idx, din, dout);
      Leaf(avg, ErrorOf(minimize, samples, idx, avg, din, dout))
  }

  // ---------------------------------------------------------------------------
  // Prediction
  // ---------------------------------------------------------------------------

  /**
   * Predict: a leaf answers its output (NaN for an empty node with output
   * components, the empty vector for one without); a split node
   * measures the input against both cairns, which throws when the input is
   * longer than a cairn, and asks the child of the nearer one, a tie going
   * left.
   */
  function Predict(t: Cairn, x: Vec): (y: Result<Vec>)
    ensures y.Err? ==> y.error == OutOfRange || y.error == Undefined
  {
    match t
    case Empty(w) => if w == 0 then Ok([]) else Err(Undefined)
    case Leaf(output, _) => Ok(output)
    case Split(_, _, lc, rc, l, r) =>
      if |x| > |lc| || |x| > |rc| then Err(OutOfRange)
      else if DiffSum(Squared, x, lc, |x|) <= DiffSum(Squared, x, rc, |x|) then Predict(l, x)
      else Predict(r, x)
  }

  /** Predict on a split whose cairns are as wide as x follows the nearer cairn. */
  lemma PredictSplit(t: Cairn, x: Vec)
    requires t.Split? && |t.leftCairn| == |x| && |t.rightCairn| == |x|
    ensures Predict(t, x) == if DiffSum(Squared, x, t.leftCairn, |x|) <= DiffSum(Squared, x, t.rightCairn, |x|)
                             then Predict(t.left, x) else Predict(t.right, x)
  {
  }

  /** Every node's output has dout components and every cairn din. */
  predicate Shaped(t: Cairn, din: nat, dout: nat)
  {
    match t
    case Empty(w) => w == dout
    case Leaf(output, _) => |output| == dout
    case Split(output, _, lc, rc, l, r) =>
      |output| == dout && |lc| == din && |rc| == din && Shaped(l, din, dout) && Shaped(r, din, dout)
  }

  /** No node of the tree was built on an empty index list. */
  predicate Full(t: Cairn)
  {
    match t
    case Empty(_) => false
    case Leaf(_, _) => true
    case Split(_, _, _, _, l, r) => Full(l) && Full(r)
  }

  /**
   * On a shaped tree every answer has dout components; an input of at most
   * din components never throws, and its answer is defined whenever the
   * tree is full or has no output components.
   */
  lemma {:induction false} PredictShape(t: Cairn, x: Vec, din: nat, dout: nat)
    requires Shaped(t, din, dout)
    ensures |x| <= din ==> Predict(t, x) != Err(OutOfRange)
    ensures Predict(t, x).Ok? ==> |Predict(t, x).value| == dout
    ensures |x| <= din && Full(t) ==> Predict(t, x).Ok?
    ensures |x| <= din && dout == 0 ==> Predict(t, x) == Ok([])
  {
    match t
    case Empty(_) =>
    case Leaf(_, _) =>
    case Split(_, _, lc, rc, l, r) =>
      PredictShape(l, x, din, dout);
      PredictShape(r, x, din, dout);
  }

  // ---------------------------------------------------------------------------
  // The loops both trees share
  // ---------------------------------------------------------------------------

  /** Build's distance matrix: entry [a, b] and entry [b, a] both hold the distance between samples a and b. */
  method Distances(samples: seq<Sample>, din: nat, dout: nat) returns (d: array2<real>)
    requires Uniform(samples, din, dout)
    ensures fresh(d) && d.Length0 == |samples| && d.Length1 == |samples|
    ensures forall a, b | 0 <= a < |samples| && 0 <= b < |samples| :: d[a, b] == Dist(samples, a, b)
    ensures forall a, b | 0 <= a < |samples| && 0 <= b < |samples| :: d[a, b] == d[b, a]
  {
    var n := |samples|;
    d := new real[n, n];
    for a := 0 to n
      invariant forall i, j | 0 <= i < n && 0 <= j < n && (i < a || j < a) :: d[i, j] == Dist(samples, i, j)
    {
      for b := a to n
        invariant forall i, j | 0 <= i < n && 0 <= j < n && (i < a || j < a) :: d[i, j] == Dist(samples, i, j)
        invariant forall j | a <= j < b :: d[a, j] == Dist(samples, a, j) && d[j, a] == Dist(samples, j, a)
      {
        var distance := SquaredEuclideanDistance(samples[a].input, samples[b].input);
        DistProperties(samples, a, b, din, dout);
        d[a, b] := distance;
        d[b, a] := distance;
      }
    }
    forall a, b | 0 <= a < n && 0 <= b < n ensures d[a, b] == d[b, a] {
      DistProperties(samples, a, b, din, dout);
    }
  }

  /** A distance matrix that matches the samples. */
  ghost predicate Matches(d: array2<real>, samples: seq<Sample>)
    reads d
  {
    && d.Length0 == |samples| && d.Length1 == |samples|
    && forall a, b | 0 <= a < |samples| && 0 <= b < |samples| && |samples[a].input| <= |samples[b].input| ::
         d[a, b] == Dist(samples, a, b)
  }

  /** The partition loop: each listed index goes to the side of the nearer cairn, read from the distance matrix. */
  method Divide(samples: seq<Sample>, idx: seq<int>, l: int, r: int, d: array2<real>, din: nat, dout: nat)
    returns (leftIndices: seq<int>, rightIndices: seq<int>)
    requires Uniform(samples, din, dout) && InRange(idx, |samples|) && 0 <= l < |samples| && 0 <= r < |samples|
    requires Matches(d, samples)
    ensures (leftIndices, rightIndices) == Sides(samples, idx, l, r, din, dout)
  {
    leftIndices, rightIndices := [], [];
    for i := 0 to |idx|
      invariant (leftIndices, rightIndices) == Sides(samples, idx[..i], l, r, din, dout)
    {
      assert idx[..i + 1][..i] == idx[..i];
      var s := idx[i];
      if d[l, s] <= d[r, s] {
        leftIndices := leftIndices + [s];
      } else {
        rightIndices := rightIndices + [s];
      }
    }
    assert idx[..|idx|] == idx;
  }

  /** CalculateAverageOutput: the outputs of the listed samples averaged component by component. */
  method AverageOutput(samples: seq<Sample>, idx: seq<int>, din: nat, dout: nat) returns (avg: Vec)
    requires Uniform(samples, din, dout) && InRange(idx, |samples|) && |idx| > 0
    ensures avg == MeanOf(samples, idx, din, dout)
  {
    GatherUniform(samples, idx, din, dout);
    var outputs := Outputs(Gather(samples, idx));
    avg := Average(outputs);
  }

  /** CalculateError: each listed sample's deviation from avg, summed, over the count. */
  method NodeError(minimize: Minimize, samples: seq<Sample>, idx: seq<int>, avg: Vec, din: nat, dout: nat) returns (error: real)
    requires Uniform(samples, din, dout) && InRange(idx, |samples|) && |avg| == dout && |idx| > 0
    ensures error == ErrorOf(minimize, samples, idx, avg, din, dout)
  {
    error := 0.0;
    for i := 0 to |idx|
      invariant error == Deviation(minimize, samples, idx[..i], avg, din, dout)
    {
      assert idx[..i + 1][..i] == idx[..i];
      var deviation := SumTerms(MetricOf(minimize), samples[idx[i]].output, avg);
      error := error + deviation;
    }
    assert idx[..|idx|] == idx;
    error := error / |idx| as real;
  }

  /** A node's output and error, NaN (Empty) for an empty index list. */
  method NewLeaf(minimize: Minimize, samples: seq<Sample>, idx: seq<int>, din: nat, dout: nat) returns (t: Cairn)
    requires Uniform(samples, din, dout) && InRange(idx, |samples|)
    ensures t == LeafOf(minimize, samples, idx, din, dout)
  {
    if idx == [] {
      return Empty(dout);
    }
    var output := AverageOutput(samples, idx, din, dout);
    var error := NodeError(minimize, samples, idx, output, din, dout);
    return Leaf(output, error);
  }
}
