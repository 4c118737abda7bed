/**
 * Models/CairnTree.cs: a cairn tree that picks, at every node, the pair of
 * cairns whose split has the lowest weighted error.
 *
 * A node stops when it has reached maxLeafDepth or holds fewer than
 * 2 * minSamplesPerLeaf samples. Otherwise every pair of its samples at list
 * positions a < b is tried, in order, as (left cairn, right cairn); a pair
 * counts when both sides keep at least minSamplesPerLeaf samples and its
 * weighted error is strictly below the best so far, which starts at the
 * node's own error. A side with no samples has NaN error, which compares
 * below nothing, so such a pair never counts. The children are grown on the
 * two sides of the best pair.
 */
module CairnTrees {
  import opened Wrappers
  import opened Vectors
  import opened Samples
  import opened Cairns

  /** (bestLeftCairnIndex, bestRightCairnIndex), absent while they are -1, and bestSplitError. */
  datatype Best = Best(pair: Option<(int, int)>, error: real)

  /** The pair's cairns are indices into the sample list. */
  predicate BestInRange(best: Best, n: nat)
  {
    best.pair.Some? ==> 0 <= best.pair.value.0 < n && 0 <= best.pair.value.1 < n
  }

  /** Splitting at the cairns at list positions i and j leaves at least m samples, and at least one, on each side. */
  predicate Acceptable(samples: seq<Sample>, idx: seq<int>, i: int, j: int, m: int, din: nat, dout: nat)
    requires Uniform(samples, din, dout) && InRange(idx, |samples|) && 0 <= i < |idx| && 0 <= j < |idx|
  {
    var sides := Sides(samples, idx, idx[i], idx[j], din, dout);
    |sides.0| >= m && |sides.1| >= m && |sides.1| > 0
  }

  /** One side's error weighted by its share of the node's samples. */
  function SideError(minimize: Minimize, samples: seq<Sample>, side: seq<int>, total: nat, din: nat, dout: nat): real
    requires Uniform(samples, din, dout) && InRange(side, |samples|) && |side| > 0 && total > 0
  {
    (|side| as real / total as real) * ErrorOf(minimize, samples, side, MeanOf(samples, side, din, dout), din, dout)
  }

  /** The split's error: the two sides' errors, weighted by their shares of the node's samples. */
  function SplitError(minimize: Minimize, samples: seq<Sample>, idx: seq<int>, i: int, j: int, din: nat, dout: nat): real
    requires Uniform(samples, din, dout) && InRange(idx, |samples|) && 0 <= i < |idx| && 0 <= j < |idx|
    requires |Sides(samples, idx, idx[i], idx[j], din, dout).1| > 0
  {
    var sides := Sides(samples, idx, idx[i], idx[j], din, dout);
    CairnGoesLeft(samples, idx, i, idx[j], din, dout);
    SideError(minimize, samples, sides.0, |idx|, din, dout) + SideError(minimize, samples, sides.1, |idx|, din, dout)
  }

  /** The inner loop's test: the pair at list positions i, j counts when it is acceptable. */
  function Counts(samples: seq<Sample>, idx: seq<int>, m: int, din: nat, dout: nat): (int, int) -> bool
    requires Uniform(samples, din, dout) && InRange(idx, |samples|)
  {
    (i, j) => 0 <= i < |idx| && 0 <= j < |idx| && Acceptable(samples, idx, i, j, m, din, dout)
  }

  /** The split error of the pair at list positions i, j where it counts (never read elsewhere). */
  function Scores(minimize: Minimize, samples: seq<Sample>, idx: seq<int>, m: int, din: nat, dout: nat): (int, int) -> real
    requires Uniform(samples, din, dout) && InRange(idx, |samples|)
  {
    (i, j) =>
      if 0 <= i < |idx| && 0 <= j < |idx| && Acceptable(samples, idx, i, j, m, din, dout)
      then SplitError(minimize, samples, idx, i, j, din, dout) else 0.0
  }

  /** One pass of the inner loop: the pair at positions i, j replaces the best when it counts and scores below it. */
  function Consider(counts: (int, int) -> bool, scores: (int, int) -> real, idx: seq<int>, i: int, j: int, best: Best): Best
    requires 0 <= i < |idx| && 0 <= j < |idx|
  {
    if counts(i, j) && scores(i, j) < best.error then Best(Some((idx[i], idx[j])), scores(i, j)) else best
  }

  /** The pair loops from position (a, b) on, in the order the source visits them. */
  function Scan(counts: (int, int) -> bool, scores: (int, int) -> real, idx: seq<int>, n: nat, a: nat, b: nat, best: Best): (c: Best)
    requires InRange(idx, n) && a <= |idx| && BestInRange(best, n)
    ensures BestInRange(c, n)
    decreases |idx| - a, |idx| - b
  {
    if a == |idx| then best
    else if b >= |idx| then Scan(counts, scores, idx, n, a + 1, a + 2, best)
    else Scan(counts, scores, idx, n, a, b + 1, Consider(counts, scores, idx, a, b, best))
  }

  /**
   * From position (a, b) on, the scan keeps the best unless some counting
   * pair ahead, returned as (i, j), scores below it, and no counting pair
   * ahead scores below the result.
   */
  lemma {:induction false} ScanFacts(counts: (int, int) -> bool, scores: (int, int) -> real, idx: seq<int>, n: nat,
                                     a: nat, b: nat, best: Best) returns (i: int, j: int)
    requires InRange(idx, n) && a <= |idx| && a < b && BestInRange(best, n)
    ensures var c := Scan(counts, scores, idx, n, a, b, best);
      && c.error <= best.error
      && (c == best || (
            && 0 <= i < j < |idx| && Ahead(a, b, i, j) && counts(i, j)
            && c == Best(Some((idx[i], idx[j])), scores(i, j)) && c.error < best.error))
      && (forall i', j' | 0 <= i' < j' < |idx| && Ahead(a, b, i', j') && counts(i', j') :: scores(i', j') >= c.error)
    decreases |idx| - a, |idx| - b
  {
    i, j := 0, 0;
    if a == |idx| {
    } else if b >= |idx| {
      i, j := ScanFacts(counts, scores, idx, n, a + 1, a + 2, best);
    } else {
      var best' := Consider(counts, scores, idx, a, b, best);
      i, j := ScanFacts(counts, scores, idx, n, a, b + 1, best');
      if Scan(counts, scores, idx, n, a, b + 1, best') == best' {
        i, j := a, b;
      }
    }
  }

  /** The search on a node's list, started from the node's own error. */
  function Search(minimize: Minimize, samples: seq<Sample>, idx: seq<int>, m: int, err: real, din: nat, dout: nat): (c: Best)
    requires Uniform(samples, din, dout) && InRange(idx, |samples|)
    ensures BestInRange(c, |samples|)
  {
    Scan(Counts(samples, idx, m, din, dout), Scores(minimize, samples, idx, m, din, dout), idx, |samples|, 0, 1, Best(None, err))
  }

  /**
   * The search's result: when it names a pair, that pair at positions i < j
   * of the node's list is acceptable and its split error is below the
   * node's error; no acceptable pair has a lower split error; and when it
   * names none, no acceptable pair improves on the node's error.
   */
  lemma BestPair(minimize: Minimize, samples: seq<Sample>, idx: seq<int>, m: int, err: real, din: nat, dout: nat)
    returns (i: int, j: int)
    requires Uniform(samples, din, dout) && InRange(idx, |samples|)
    ensures var c := Search(minimize, samples, idx, m, err, din, dout);
      && (c.pair.Some? ==>
            && 0 <= i < j < |idx| && Acceptable(samples, idx, i, j, m, din, dout)
            && c.pair.value == (idx[i], idx[j]) && SplitError(minimize, samples, idx, i, j, din, dout) == c.error
            && c.error < err)
      && (c.pair.None? ==> c.error == err)
      && (forall i', j' | 0 <= i' < j' < |idx| && Acceptable(samples, idx, i', j', m, din, dout) ::
            SplitError(minimize, samples, idx, i', j', din, dout) >= c.error)
  {
    var counts, scores := Counts(samples, idx, m, din, dout), Scores(minimize, samples, idx, m, din, dout);
    i, j := ScanFacts(counts, scores, idx, |samples|, 0, 1, Best(None, err));
    var c := Search(minimize, samples, idx, m, err, din, dout);
    forall i', j' | 0 <= i' < j' < |idx| && Acceptable(samples, idx, i', j', m, din, dout)
      ensures SplitError(minimize, samples, idx, i', j', din, dout) >= c.error
    {
      assert Ahead(0, 1, i', j') && counts(i', j');
    }
  }

  /** A chosen pair takes two positions of the list. */
  lemma PairNeedsTwo(minimize: Minimize, samples: seq<Sample>, idx: seq<int>, m: int, err: real, din: nat, dout: nat)
    requires Uniform(samples, din, dout) && InRange(idx, |samples|)
    ensures Search(minimize, samples, idx, m, err, din, dout).pair.Some? ==> |idx| >= 2
  {
    var i, j := BestPair(minimize, samples, idx, m, err, din, dout);
  }

  // ---------------------------------------------------------------------------
  // Growing the tree
  // ---------------------------------------------------------------------------

  /**
   * The pair a node on the index list splits at: none when the list is
   * empty, the depth limit is reached or fewer than 2 * m samples remain,
   * otherwise the result of the search started from the node's own error.
   */
  function Chosen(minimize: Minimize, samples: seq<Sample>, idx: seq<int>, m: int, maxDepth: int, depth: int,
                  din: nat, dout: nat): (c: Option<(int, int)>)
    requires Uniform(samples, din, dout) && InRange(idx, |samples|)
    ensures c.Some? ==> 0 <= c.value.0 < |samples| && 0 <= c.value.1 < |samples|
    ensures c.Some? ==> depth < maxDepth && |idx| >= m * 2 && |idx| >= 2
  {
    if idx == [] || depth >= maxDepth || |idx| < m * 2 then None
    else
      var err := ErrorOf(minimize, samples, idx, MeanOf(samples, idx, din, dout), din, dout);
      PairNeedsTwo(minimize, samples, idx, m, err, din, dout);
      Search(minimize, samples, idx, m, err, din, dout).pair
  }

  /**
   * The private constructor on an index list: the node's mean output and
   * error, and, when a pair is chosen, the children grown on its two sides,
   * one level deeper.
   */
  function Grow(minimize: Minimize, samples: seq<Sample>, idx: seq<int>, m: int, maxDepth: int, depth: int,
                din: nat, dout: nat): (t: Cairn)
    requires Uniform(samples, din, dout) && InRange(idx, |samples|)
    ensures t.Split? ==> depth < maxDepth && |idx| >= m * 2 && |idx| >= 2
    decreases maxDepth - depth
  {
    if idx == [] then Empty(dout)
    else
      var avg := MeanOf(samples, idx, din, dout);
      var err := ErrorOf(minimize, samples, idx, avg, din, dout);
      match Chosen(minimize, samples, idx, m, maxDepth, depth, din, dout)
      case None => Leaf(avg, err)
      case Some((l, r)) =>
        var sides := Sides(samples, idx, l, r, din, dout);
        Split(avg, err, samples[l].input, samples[r].input,
              Grow(minimize, samples, sides.0, m, maxDepth, depth + 1, din, dout),
              Grow(minimize, samples, sides.1, m, maxDepth, depth + 1, din, dout))
  }

  /** The children of a split come from an acceptable pair, so neither side is empty and every node is full. */
  lemma {:induction false} GrowFull(minimize: Minimize, samples: seq<Sample>, idx: seq<int>, m: int, maxDepth: int, depth: int,
                                    din: nat, dout: nat)
    requires Uniform(samples, din, dout) && InRange(idx, |samples|) && |idx| > 0
    ensures Full(Grow(minimize, samples, idx, m, maxDepth, depth, din, dout))
    ensures Shaped(Grow(minimize, samples, idx, m, maxDepth, depth, din, dout), din, dout)
    decreases maxDepth - depth
  {
    var c := Chosen(minimize, samples, idx, m, maxDepth, depth, din, dout);
    if c.Some? {
      var err := ErrorOf(minimize, samples, idx, MeanOf(samples, idx, din, dout), din, dout);
      var i, j := BestPair(minimize, samples, idx, m, err, din, dout);
      CairnGoesLeft(samples, idx, i, idx[j], din, dout);
      var sides := Sides(samples, idx, idx[i], idx[j], din, dout);
      GrowFull(minimize, samples, sides.0, m, maxDepth, depth + 1, din, dout);
      GrowFull(minimize, samples, sides.1, m, maxDepth, depth + 1, din, dout);
    }
  }

  /**
   * The part of the index list that ends in the leaf x reaches: the node's
   * list where no pair is chosen, otherwise the cell of the side whose cairn
   * is nearer to x, a tie going left.
   */
  ghost function Cell(minimize: Minimize, samples: seq<Sample>, idx: seq<int>, m: int, maxDepth: int, depth: int,
                      din: nat, dout: nat, x: Vec): seq<int>
    requires Uniform(samples, din, dout) && InRange(idx, |samples|) && |x| == din
    decreases maxDepth - depth
  {
    match Chosen(minimize, samples, idx, m, maxDepth, depth, din, dout)
    case None => idx
    case Some((l, r)) =>
      var sides := Sides(samples, idx, l, r, din, dout);
      if DiffSum(Squared, x, samples[l].input, |x|) <= DiffSum(Squared, x, samples[r].input, |x|)
      then Cell(minimize, samples, sides.0, m, maxDepth, depth + 1, din, dout, x)
      else Cell(minimize, samples, sides.1, m, maxDepth, depth + 1, din, dout, x)
  }

  /** A chosen pair unfolds the tree into a split on its two sides, and x's cell into the cell of the side x is nearer. */
  lemma GrowSplit(minimize: Minimize, samples: seq<Sample>, idx: seq<int>, m: int, maxDepth: int, depth: int,
                  din: nat, dout: nat, x: Vec, l: int, r: int)
    requires Uniform(samples, din, dout) && InRange(idx, |samples|) && |x| == din
    requires Chosen(minimize, samples, idx, m, maxDepth, depth, din, dout) == Some((l, r))
    ensures var sides := Sides(samples, idx, l, r, din, dout);
      var t := Grow(minimize, samples, idx, m, maxDepth, depth, din, dout);
      var nearer := DiffSum(Squared, x, samples[l].input, |x|) <= DiffSum(Squared, x, samples[r].input, |x|);
      && t.Split? && t.leftCairn == samples[l].input && t.rightCairn == samples[r].input
      && t.left == Grow(minimize, samples, sides.0, m, maxDepth, depth + 1, din, dout)
      && t.right == Grow(minimize, samples, sides.1, m, maxDepth, depth + 1, din, dout)
      && Cell(minimize, samples, idx, m, maxDepth, depth, din, dout, x)
         == if nearer then Cell(minimize, samples, sides.0, m, maxDepth, depth + 1, din, dout, x)
            else Cell(minimize, samples, sides.1, m, maxDepth, depth + 1, din, dout, x)
  {
  }

  /** With no pair chosen the node is a leaf on its whole list, which is x's cell. */
  lemma GrowLeaf(minimize: Minimize, samples: seq<Sample>, idx: seq<int>, m: int, maxDepth: int, depth: int,
                 din: nat, dout: nat, x: Vec)
    requires Uniform(samples, din, dout) && InRange(idx, |samples|) && |x| == din
    requires Chosen(minimize, samples, idx, m, maxDepth, depth, din, dout).None?
    ensures Grow(minimize, samples, idx, m, maxDepth, depth, din, dout) == LeafOf(minimize, samples, idx, din, dout)
    ensures Cell(minimize, samples, idx, m, maxDepth, depth, din, dout, x) == idx
  {
  }

  /**
   * Predict on an input of the training width answers the mean output of
   * the samples in x's cell, a sub-multiset of the node's list (NaN for an
   * empty cell, unless there are no output components).
   */
  lemma {:induction false} PredictIsCellMean(minimize: Minimize, samples: seq<Sample>, idx: seq<int>, m: int, maxDepth: int,
                                             depth: int, din: nat, dout: nat, x: Vec)
    requires Uniform(samples, din, dout) && InRange(idx, |samples|) && |x| == din
    ensures var cell := Cell(minimize, samples, idx, m, maxDepth, depth, din, dout, x);
      && multiset(cell) <= multiset(idx) && InRange(cell, |samples|)
      && Predict(Grow(minimize, samples, idx, m, maxDepth, depth, din, dout), x)
         == if cell != [] then Ok(MeanOf(samples, cell, din, dout)) else if dout == 0 then Ok([]) else Err(Undefined)
    decreases maxDepth - depth
  {
    var c := Chosen(minimize, samples, idx, m, maxDepth, depth, din, dout);
    if c.None? {
      GrowLeaf(minimize, samples, idx, m, maxDepth, depth, din, dout, x);
    } else {
      var (l, r) := c.value;
      GrowSplit(minimize, samples, idx, m, maxDepth, depth, din, dout, x, l, r);
      var t := Grow(minimize, samples, idx, m, maxDepth, depth, din, dout);
      PredictSplit(t, x);
      var sides := Sides(samples, idx, l, r, din, dout);
      SidesFacts(samples, idx, l, r, din, dout);
      if DiffSum(Squared, x, samples[l].input, |x|) <= DiffSum(Squared, x, samples[r].input, |x|) {
        PredictIsCellMean(minimize, samples, sides.0, m, maxDepth, depth + 1, din, dout, x);
        assert multiset(sides.0) <= multiset(idx);
      } else {
        PredictIsCellMean(minimize, samples, sides.1, m, maxDepth, depth + 1, din, dout, x);
        assert multiset(sides.1) <= multiset(idx);
      }
    }
  }

  /** A training sample's own input reaches the cell that holds its index. */
  lemma {:induction false} CellHoldsSample(minimize: Minimize, samples: seq<Sample>, idx: seq<int>, m: int, maxDepth: int,
                                           depth: int, din: nat, dout: nat, k: nat)
    requires Uniform(samples, din, dout) && InRange(idx, |samples|) && k < |idx|
    ensures idx[k] in Cell(minimize, samples, idx, m, maxDepth, depth, din, dout, samples[idx[k]].input)
    decreases maxDepth - depth
  {
    var s := idx[k];
    var c := Chosen(minimize, samples, idx, m, maxDepth, depth, din, dout);
    if c.Some? {
      var (l, r) := c.value;
      var sides := Sides(samples, idx, l, r, din, dout);
      DistProperties(samples, l, s, din, dout);
      DistProperties(samples, r, s, din, dout);
      SidesMember(samples, idx, l, r, din, dout, k);
      if GoesLeft(samples, l, r, s, din, dout) {
        var k' :| 0 <= k' < |sides.0| && sides.0[k'] == s;
        CellHoldsSample(minimize, samples, sides.0, m, maxDepth, depth + 1, din, dout, k');
      } else {
        var k' :| 0 <= k' < |sides.1| && sides.1[k'] == s;
        CellHoldsSample(minimize, samples, sides.1, m, maxDepth, depth + 1, din, dout, k');
      }
    }
  }

  /**
   * On the input of a training sample the tree answers the mean output of
   * a part of the samples that contains that sample.
   */
  lemma TrainingPrediction(minimize: Minimize, samples: seq<Sample>, m: int, maxDepth: int, din: nat, dout: nat, s: nat)
    requires Uniform(samples, din, dout) && s < |samples|
    ensures var idx := Range(|samples|);
      var cell := Cell(minimize, samples, idx, m, maxDepth, 0, din, dout, samples[s].input);
      && s in cell && multiset(cell) <= multiset(idx) && InRange(cell, |samples|)
      && Predict(Grow(minimize, samples, idx, m, maxDepth, 0, din, dout), samples[s].input)
         == Ok(MeanOf(samples, cell, din, dout))
  {
    var idx := Range(|samples|);
    CellHoldsSample(minimize, samples, idx, m, maxDepth, 0, din, dout, s);
    PredictIsCellMean(minimize, samples, idx, m, maxDepth, 0, din, dout, samples[s].input);
  }

  // ---------------------------------------------------------------------------
  // The source's loops
  // ---------------------------------------------------------------------------

  /** The weighted error of a split whose sides are both non-empty. */
  method WeightedError(minimize: Minimize, samples: seq<Sample>, total: nat, leftIndices: seq<int>, rightIndices: seq<int>,
                       din: nat, dout: nat) returns (splitError: real)
    requires Uniform(samples, din, dout) && InRange(leftIndices, |samples|) && InRange(rightIndices, |samples|)
    requires |leftIndices| > 0 && |rightIndices| > 0 && total > 0
    ensures splitError == SideError(minimize, samples, leftIndices, total, din, dout)
                          + SideError(minimize, samples, rightIndices, total, din, dout)
  {
    var leftOutputAverage := AverageOutput(samples, leftIndices, din, dout);
    var rightOutputAverage := AverageOutput(samples, rightIndices, din, dout);
    var leftError := NodeError(minimize, samples, leftIndices, leftOutputAverage, din, dout);
    var rightError := NodeError(minimize, samples, rightIndices, rightOutputAverage, din, dout);
    var leftWeight := |leftIndices| as real / total as real;
    var rightWeight := |rightIndices| as real / total as real;
    splitError := leftWeight * leftError + rightWeight * rightError;
  }

  /**
   * The body of the inner pair loop: partition by the two cairns, and when
   * both sides are large enough, compare the weighted error with the best.
   */
  method TryPair(minimize: Minimize, samples: seq<Sample>, idx: seq<int>, a: int, b: int, d: array2<real>, m: int,
                 best: Best, din: nat, dout: nat) returns (best': Best)
    requires Uniform(samples, din, dout) && InRange(idx, |samples|) && 0 <= a < |idx| && 0 <= b < |idx| && Matches(d, samples)
    ensures best' == Consider(Counts(samples, idx, m, din, dout), Scores(minimize, samples, idx, m, din, dout), idx, a, b, best)
  {
    var leftIndices, rightIndices := Divide(samples, idx, idx[a], idx[b], d, din, dout);
    assert Counts(samples, idx, m, din, dout)(a, b) <==> |leftIndices| >= m && |rightIndices| >= m && |rightIndices| > 0;
    if |leftIndices| >= m && |rightIndices| >= m {
      if |rightIndices| == 0 {
        // the right side's error is 0/0, and a NaN split error is below nothing
        return best;
      }
      CairnGoesLeft(samples, idx, a, idx[b], din, dout);
      var splitError := WeightedError(minimize, samples, |idx|, leftIndices, rightIndices, din, dout);
      assert splitError == Scores(minimize, samples, idx, m, din, dout)(a, b);
      if splitError < best.error {
        return Best(Some((idx[a], idx[b])), splitError);
      }
    }
    return best;
  }

  /** The two pair loops: every pair of positions a < b, in order, starting from the node's own error. */
  method SearchPairs(minimize: Minimize, samples: seq<Sample>, idx: seq<int>, d: array2<real>, m: int, error: real,
                     din: nat, dout: nat) returns (best: Best)
    requires Uniform(samples, din, dout) && InRange(idx, |samples|) && Matches(d, samples)
    ensures best == Search(minimize, samples, idx, m, error, din, dout)
  {
    var counts, scores := Counts(samples, idx, m, din, dout), Scores(minimize, samples, idx, m, din, dout);
    var n := |samples|;
    best := Best(None, error);
    var a := 0;
    while a < |idx|
      invariant 0 <= a <= |idx| && BestInRange(best, n)
      invariant Scan(counts, scores, idx, n, a, a + 1, best) == Search(minimize, samples, idx, m, error, din, dout)
    {
      var b := a + 1;
      while b < |idx|
        invariant a + 1 <= b <= |idx| && BestInRange(best, n)
        invariant Scan(counts, scores, idx, n, a, b, best) == Search(minimize, samples, idx, m, error, din, dout)
      {
        best := TryPair(minimize, samples, idx, a, b, d, m, best, din, dout);
        b := b + 1;
      }
      a := a + 1;
    }
  }

  /** The private constructor, recursively building the children from the partition recomputed for the best pair. */
  method Construct(minimize: Minimize, samples: seq<Sample>, idx: seq<int>, d: array2<real>, m: int, maxDepth: int, depth: int,
                   din: nat, dout: nat) returns (t: Cairn)
    requires Uniform(samples, din, dout) && InRange(idx, |samples|) && Matches(d, samples)
    ensures t == Grow(minimize, samples, idx, m, maxDepth, depth, din, dout)
    decreases maxDepth - depth
  {
    t := NewLeaf(minimize, samples, idx, din, dout);
    if idx == [] || depth >= maxDepth || |idx| < m * 2 {
      return;
    }
    var best := SearchPairs(minimize, samples, idx, d, m, t.error, din, dout);
    if best.pair.None? {
      return;
    }
    var (l, r) := best.pair.value;
    var leftIndices, rightIndices := Divide(samples, idx, l, r, d, din, dout);
    var left := Construct(minimize, samples, leftIndices, d, m, maxDepth, depth + 1, din, dout);
    var right := Construct(minimize, samples, rightIndices, d, m, maxDepth, depth + 1, din, dout);
    t := Split(t.output, t.error, samples[l].input, samples[r].input, left, right);
  }

  /**
   * CairnTree.Build: the distance matrix, then the root on every index
   * 0..n-1 at depth 0; the root reads samples[0], so an empty list throws.
   */
  method Build(samples: seq<Sample>, minSamplesPerLeaf: int, maxLeafDepth: int, minimize: Minimize, din: nat, dout: nat)
    returns (r: Result<Cairn>)
    requires Uniform(samples, din, dout)
    ensures |samples| == 0 ==> r == Err(OutOfRange)
    ensures |samples| > 0 ==> r == Ok(Grow(minimize, samples, Range(|samples|), minSamplesPerLeaf, maxLeafDepth, 0, din, dout))
    ensures r.Ok? ==> Full(r.value) && Shaped(r.value, din, dout)
  {
    var d := Distances(samples, din, dout);
    if |samples| == 0 {
      return Err(OutOfRange);
    }
    var sampleIndices := Range(|samples|);
    var t := Construct(minimize, samples, sampleIndices, d, minSamplesPerLeaf, maxLeafDepth, 0, din, dout);
    GrowFull(minimize, samples, sampleIndices, minSamplesPerLeaf, maxLeafDepth, 0, din, dout);
    return Ok(t);
  }
}
