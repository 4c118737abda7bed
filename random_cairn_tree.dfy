/**
 * Models/RandomCairnTree.cs: a cairn tree that splits every node at the first
 * pair of cairns, in a random order of its samples, that leaves enough
 * samples on each side.
 *
 * A node stops when it has reached maxLeafDepth or holds fewer than
 * 2 * minSamplesPerLeaf samples. Otherwise its index list is shuffled by a
 * fresh System.Random, the pairs of list positions a < b are visited in
 * order, and the first pair whose two sides both keep at least
 * minSamplesPerLeaf samples becomes (left cairn, right cairn); there is no
 * error comparison. The children are grown on the two sides, which keep the
 * shuffled order. With minSamplesPerLeaf at most 0 a side may be empty, and
 * the child grown on it is the NaN node `Empty`.
 */
module RandomCairnTrees {
  import opened Wrappers
  import opened Vectors
  import opened Samples
  import opened Rng
  import opened Cairns

  // ---------------------------------------------------------------------------
  // The first fitting pair
  // ---------------------------------------------------------------------------

  /** The inner loop's test: both sides of the pair at list positions i, j keep at least m samples. */
  function Fits(samples: seq<Sample>, order: seq<int>, m: int, din: nat, dout: nat): (int, int) -> bool
    requires Uniform(samples, din, dout) && InRange(order, |samples|)
  {
    (i, j) =>
      && 0 <= i < |order| && 0 <= j < |order|
      && var sides := Sides(samples, order, order[i], order[j], din, dout);
         |sides.0| >= m && |sides.1| >= m
  }

  /** The pair loops over positions below n from (a, b) on, stopping at the first pair that fits. */
  function First(fits: (int, int) -> bool, n: nat, a: nat, b: nat): (c: Option<(int, int)>)
    requires a < b
    ensures c.Some? ==> 0 <= c.value.0 < c.value.1 < n
    decreases n - a, n - b
  {
    if a >= n then None
    else if b >= n then First(fits, n, a + 1, a + 2)
    else if fits(a, b) then Some((a, b))
    else First(fits, n, a, b + 1)
  }

  /**
   * From position (a, b) on, the loops stop at a pair that fits, and every
   * pair ahead that fits is visited no earlier than it; so with no result,
   * no pair ahead fits.
   */
  lemma {:induction false} FirstFacts(fits: (int, int) -> bool, n: nat, a: nat, b: nat)
    requires a < b
    ensures var c := First(fits, n, a, b);
      && (c.Some? ==> Ahead(a, b, c.value.0, c.value.1) && fits(c.value.0, c.value.1))
      && (forall i, j | 0 <= i < j < n && Ahead(a, b, i, j) && fits(i, j) :: c.Some? && Ahead(c.value.0, c.value.1, i, j))
    decreases n - a, n - b
  {
    if a >= n {
    } else if b >= n {
      FirstFacts(fits, n, a + 1, a + 2);
    } else if !fits(a, b) {
      FirstFacts(fits, n, a, b + 1);
    }
  }

  // ---------------------------------------------------------------------------
  // Growing a node
  // ---------------------------------------------------------------------------

  /**
   * What the private constructor decides at a node: to stop, or to divide at
   * cairns l and r into the two sides; either way with the stream position
   * after its shuffle (unchanged when it stops before shuffling).
   */
  datatype Decision =
    | Stop(pos: nat)
    | Part(l: int, r: int, leftSide: seq<int>, rightSide: seq<int>, pos: nat)

  /**
   * The node's decision: stop at maxDepth or below 2 * m samples; otherwise
   * shuffle and divide at the first fitting pair of the shuffled list, or
   * stop when none fits.
   */
  function Decide(samples: seq<Sample>, idx: seq<int>, m: int, maxDepth: int, depth: int, din: nat, dout: nat,
                  rng: Stream, pos: nat): (d: Decision)
    requires Uniform(samples, din, dout) && InRange(idx, |samples|)
    ensures d.Part? ==> depth < maxDepth && |idx| >= 2 && 0 <= d.l < |samples| && 0 <= d.r < |samples|
    ensures d.Part? ==> InRange(d.leftSide, |samples|) && InRange(d.rightSide, |samples|)
  {
    if depth >= maxDepth || |idx| < m * 2 then Stop(pos)
    else
      var shuffled := Shuffle(idx, rng, pos);
      ShuffleInRange(idx, |samples|, rng, pos);
      var order := shuffled.0;
      match First(Fits(samples, order, m, din, dout), |order|, 0, 1)
      case None => Stop(shuffled.1)
      case Some((i, j)) =>
        var sides := Sides(samples, order, order[i], order[j], din, dout);
        Part(order[i], order[j], sides.0, sides.1, shuffled.1)
  }

  /**
   * The cairns are the first pair of the shuffled list, at positions i < j,
   * whose sides both keep m samples: no pair visited before it fits. A node
   * that shuffled and still stopped has no fitting pair at all.
   */
  lemma DecideIsFirstPair(samples: seq<Sample>, idx: seq<int>, m: int, maxDepth: int, depth: int, din: nat, dout: nat,
                          rng: Stream, pos: nat) returns (i: int, j: int)
    requires Uniform(samples, din, dout) && InRange(idx, |samples|)
    ensures var d := Decide(samples, idx, m, maxDepth, depth, din, dout, rng, pos);
      var order := Shuffle(idx, rng, pos).0;
      && InRange(order, |samples|)
      && (d.Part? ==>
            && 0 <= i < j < |order| && d.l == order[i] && d.r == order[j]
            && Fits(samples, order, m, din, dout)(i, j)
            && (forall i', j' | 0 <= i' < j' < |order| && !Ahead(i, j, i', j') :: !Fits(samples, order, m, din, dout)(i', j')))
      && (d.Stop? && depth < maxDepth && |idx| >= m * 2 ==>
            forall i', j' | 0 <= i' < j' < |order| :: !Fits(samples, order, m, din, dout)(i', j'))
  {
    ShuffleInRange(idx, |samples|, rng, pos);
    var order := Shuffle(idx, rng, pos).0;
    var fits := Fits(samples, order, m, din, dout);
    FirstFacts(fits, |order|, 0, 1);
    i, j := 0, 0;
    var c := First(fits, |order|, 0, 1);
    if c.Some? {
      i, j := c.value.0, c.value.1;
    }
  }

  /**
   * A divided node's sides are the two sides of its cairns over the shuffled
   * list: each keeps at least m samples, the left one at least its cairn,
   * and together they hold the node's samples.
   */
  lemma DecideFacts(samples: seq<Sample>, idx: seq<int>, m: int, maxDepth: int, depth: int, din: nat, dout: nat,
                    rng: Stream, pos: nat)
    requires Uniform(samples, din, dout) && InRange(idx, |samples|)
    ensures var d := Decide(samples, idx, m, maxDepth, depth, din, dout, rng, pos);
      d.Part? ==>
        && InRange(Shuffle(idx, rng, pos).0, |samples|)
        && (d.leftSide, d.rightSide) == Sides(samples, Shuffle(idx, rng, pos).0, d.l, d.r, din, dout)
        && |d.leftSide| >= m && |d.rightSide| >= m && |d.leftSide| > 0
        && multiset(d.leftSide) + multiset(d.rightSide) == multiset(idx)
  {
    var d := Decide(samples, idx, m, maxDepth, depth, din, dout, rng, pos);
    if d.Part? {
      var i, j := DecideIsFirstPair(samples, idx, m, maxDepth, depth, din, dout, rng, pos);
      var order := Shuffle(idx, rng, pos).0;
      ShufflePermutes(idx, rng, pos);
      SidesFacts(samples, order, d.l, d.r, din, dout);
      CairnGoesLeft(samples, order, i, d.r, din, dout);
    }
  }

  /**
   * The private constructor on an index list, with the stream position it
   * starts from: the node's mean output and error, and when it divides, the
   * left child grown first and the right child from where the left one
   * stopped. Returns the tree and the position after it.
   */
  function RGrow(minimize: Minimize, samples: seq<Sample>, idx: seq<int>, m: int, maxDepth: int, depth: int,
                 din: nat, dout: nat, rng: Stream, pos: nat): (r: (Cairn, nat))
    requires Uniform(samples, din, dout) && InRange(idx, |samples|)
    decreases maxDepth - depth
  {
    match Decide(samples, idx, m, maxDepth, depth, din, dout, rng, pos)
    case Stop(p) => (LeafOf(minimize, samples, idx, din, dout), p)
    case Part(l, r, ls, rs, p) =>
      var avg := MeanOf(samples, idx, din, dout);
      var left := RGrow(minimize, samples, ls, m, maxDepth, depth + 1, din, dout, rng, p);
      var right := RGrow(minimize, samples, rs, m, maxDepth, depth + 1, din, dout, rng, left.1);
      (Split(avg, ErrorOf(minimize, samples, idx, avg, din, dout), samples[l].input, samples[r].input, left.0, right.0), right.1)
  }

  /**
   * Every node's output has dout components and every cairn din; with
   * minSamplesPerLeaf positive both sides of every split are non-empty, so
   * a tree grown on samples is full.
   */
  lemma {:induction false} RGrowShape(minimize: Minimize, samples: seq<Sample>, idx: seq<int>, m: int, maxDepth: int,
                                      depth: int, din: nat, dout: nat, rng: Stream, pos: nat)
    requires Uniform(samples, din, dout) && InRange(idx, |samples|)
    ensures Shaped(RGrow(minimize, samples, idx, m, maxDepth, depth, din, dout, rng, pos).0, din, dout)
    ensures m > 0 && |idx| > 0 ==> Full(RGrow(minimize, samples, idx, m, maxDepth, depth, din, dout, rng, pos).0)
    decreases maxDepth - depth
  {
    var d := Decide(samples, idx, m, maxDepth, depth, din, dout, rng, pos);
    if d.Part? {
      DecideFacts(samples, idx, m, maxDepth, depth, din, dout, rng, pos);
      var left := RGrow(minimize, samples, d.leftSide, m, maxDepth, depth + 1, din, dout, rng, d.pos);
      RGrowShape(minimize, samples, d.leftSide, m, maxDepth, depth + 1, din, dout, rng, d.pos);
      RGrowShape(minimize, samples, d.rightSide, m, maxDepth, depth + 1, din, dout, rng, left.1);
    }
  }

  // ---------------------------------------------------------------------------
  // Prediction
  // ---------------------------------------------------------------------------

  /**
   * The part of the index list that ends in the leaf x reaches: the node's
   * list where it stops, otherwise the cell of the side whose cairn is
   * nearer to x (the left one on a tie).
   */
  ghost function RCell(minimize: Minimize, samples: seq<Sample>, idx: seq<int>, m: int, maxDepth: int, depth: int,
                       din: nat, dout: nat, rng: Stream, pos: nat, x: Vec): seq<int>
    requires Uniform(samples, din, dout) && InRange(idx, |samples|) && |x| == din
    decreases maxDepth - depth
  {
    match Decide(samples, idx, m, maxDepth, depth, din, dout, rng, pos)
    case Stop(_) => idx
    case Part(l, r, ls, rs, p) =>
      if DiffSum(Squared, x, samples[l].input, |x|) <= DiffSum(Squared, x, samples[r].input, |x|)
      then RCell(minimize, samples, ls, m, maxDepth, depth + 1, din, dout, rng, p, x)
      else RCell(minimize, samples, rs, m, maxDepth, depth + 1, din, dout, rng,
                 RGrow(minimize, samples, ls, m, maxDepth, depth + 1, din, dout, rng, p).1, x)
  }

  /** A node that stops is a leaf on its whole list, which is x's cell. */
  lemma RGrowLeaf(minimize: Minimize, samples: seq<Sample>, idx: seq<int>, m: int, maxDepth: int, depth: int,
                  din: nat, dout: nat, rng: Stream, pos: nat, x: Vec)
    requires Uniform(samples, din, dout) && InRange(idx, |samples|) && |x| == din
    requires Decide(samples, idx, m, maxDepth, depth, din, dout, rng, pos).Stop?
    ensures RGrow(minimize, samples, idx, m, maxDepth, depth, din, dout, rng, pos).0 == LeafOf(minimize, samples, idx, din, dout)
    ensures RCell(minimize, samples, idx, m, maxDepth, depth, din, dout, rng, pos, x) == idx
  {
  }

  /** A divided node is a split on its two sides, and x's cell is the cell of the side x is nearer. */
  lemma RGrowSplit(minimize: Minimize, samples: seq<Sample>, idx: seq<int>, m: int, maxDepth: int, depth: int,
                   din: nat, dout: nat, rng: Stream, pos: nat, x: Vec)
    requires Uniform(samples, din, dout) && InRange(idx, |samples|) && |x| == din
    requires Decide(samples, idx, m, maxDepth, depth, din, dout, rng, pos).Part?
    ensures var d := Decide(samples, idx, m, maxDepth, depth, din, dout, rng, pos);
      var t := RGrow(minimize, samples, idx, m, maxDepth, depth, din, dout, rng, pos).0;
      var left := RGrow(minimize, samples, d.leftSide, m, maxDepth, depth + 1, din, dout, rng, d.pos);
      var nearer := DiffSum(Squared, x, samples[d.l].input, |x|) <= DiffSum(Squared, x, samples[d.r].input, |x|);
      && t.Split? && t.leftCairn == samples[d.l].input && t.rightCairn == samples[d.r].input
      && t.left == left.0
      && t.right == RGrow(minimize, samples, d.rightSide, m, maxDepth, depth + 1, din, dout, rng, left.1).0
      && RCell(minimize, samples, idx, m, maxDepth, depth, din, dout, rng, pos, x)
         == if nearer then RCell(minimize, samples, d.leftSide, m, maxDepth, depth + 1, din, dout, rng, d.pos, x)
            else RCell(minimize, samples, d.rightSide, m, maxDepth, depth + 1, din, dout, rng, left.1, x)
  {
  }

  /**
   * Predict on an input of the training width answers the mean output of
   * the samples in x's cell, a sub-multiset of the node's list (NaN for an
   * empty cell, unless there are no output components).
   */
  lemma {:induction false} RPredictIsCellMean(minimize: Minimize, samples: seq<Sample>, idx: seq<int>, m: int, maxDepth: int,
                                              depth: int, din: nat, dout: nat, rng: Stream, pos: nat, x: Vec)
    requires Uniform(samples, din, dout) && InRange(idx, |samples|) && |x| == din
    ensures var cell := RCell(minimize, samples, idx, m, maxDepth, depth, din, dout, rng, pos, x);
      && multiset(cell) <= multiset(idx) && InRange(cell, |samples|)
      && Predict(RGrow(minimize, samples, idx, m, maxDepth, depth, din, dout, rng, pos).0, x)
         == if cell != [] then Ok(MeanOf(samples, cell, din, dout)) else if dout == 0 then Ok([]) else Err(Undefined)
    decreases maxDepth - depth
  {
    var d := Decide(samples, idx, m, maxDepth, depth, din, dout, rng, pos);
    if d.Stop? {
      RGrowLeaf(minimize, samples, idx, m, maxDepth, depth, din, dout, rng, pos, x);
    } else {
      RGrowSplit(minimize, samples, idx, m, maxDepth, depth, din, dout, rng, pos, x);
      DecideFacts(samples, idx, m, maxDepth, depth, din, dout, rng, pos);
      var t := RGrow(minimize, samples, idx, m, maxDepth, depth, din, dout, rng, pos).0;
      PredictSplit(t, x);
      var left := RGrow(minimize, samples, d.leftSide, m, maxDepth, depth + 1, din, dout, rng, d.pos);
      if DiffSum(Squared, x, samples[d.l].input, |x|) <= DiffSum(Squared, x, samples[d.r].input, |x|) {
        RPredictIsCellMean(minimize, samples, d.leftSide, m, maxDepth, depth + 1, din, dout, rng, d.pos, x);
        assert multiset(d.leftSide) <= multiset(idx);
      } else {
        RPredictIsCellMean(minimize, samples, d.rightSide, m, maxDepth, depth + 1, din, dout, rng, left.1, x);
        assert multiset(d.rightSide) <= multiset(idx);
      }
    }
  }

  /** A training sample's own input reaches the cell that holds its index. */
  lemma {:induction false} RCellHoldsSample(minimize: Minimize, samples: seq<Sample>, idx: seq<int>, m: int, maxDepth: int,
                                            depth: int, din: nat, dout: nat, rng: Stream, pos: nat, k: nat)
    requires Uniform(samples, din, dout) && InRange(idx, |samples|) && k < |idx|
    ensures idx[k] in RCell(minimize, samples, idx, m, maxDepth, depth, din, dout, rng, pos, samples[idx[k]].input)
    decreases maxDepth - depth
  {
    var s := idx[k];
    var x := samples[s].input;
    var d := Decide(samples, idx, m, maxDepth, depth, din, dout, rng, pos);
    if d.Part? {
      RGrowSplit(minimize, samples, idx, m, maxDepth, depth, din, dout, rng, pos, x);
      DecideFacts(samples, idx, m, maxDepth, depth, din, dout, rng, pos);
      var order := Shuffle(idx, rng, pos).0;
      SidesFacts(samples, order, d.l, d.r, din, dout);
      DistProperties(samples, d.l, s, din, dout);
      DistProperties(samples, d.r, s, din, dout);
      assert s in multiset(d.leftSide) + multiset(d.rightSide) by {
        assert s in multiset(idx);
      }
      var left := RGrow(minimize, samples, d.leftSide, m, maxDepth, depth + 1, din, dout, rng, d.pos);
      if GoesLeft(samples, d.l, d.r, s, din, dout) {
        var k' :| 0 <= k' < |d.leftSide| && d.leftSide[k'] == s;
        RCellHoldsSample(minimize, samples, d.leftSide, m, maxDepth, depth + 1, din, dout, rng, d.pos, k');
      } else {
        var k' :| 0 <= k' < |d.rightSide| && d.rightSide[k'] == s;
        RCellHoldsSample(minimize, samples, d.rightSide, m, maxDepth, depth + 1, din, dout, rng, left.1, k');
      }
    }
  }

  /**
   * On the input of a training sample the tree answers the mean output of
   * a part of the samples that contains that sample.
   */
  lemma RTrainingPrediction(minimize: Minimize, samples: seq<Sample>, m: int, maxDepth: int, din: nat, dout: nat,
                            rng: Stream, pos: nat, s: nat)
    requires Uniform(samples, din, dout) && s < |samples|
    ensures var idx := Range(|samples|);
      var cell := RCell(minimize, samples, idx, m, maxDepth, 0, din, dout, rng, pos, samples[s].input);
      && s in cell && multiset(cell) <= multiset(idx) && InRange(cell, |samples|)
      && Predict(RGrow(minimize, samples, idx, m, maxDepth, 0, din, dout, rng, pos).0, samples[s].input)
         == Ok(MeanOf(samples, cell, din, dout))
  {
    var idx := Range(|samples|);
    RCellHoldsSample(minimize, samples, idx, m, maxDepth, 0, din, dout, rng, pos, s);
    RPredictIsCellMean(minimize, samples, idx, m, maxDepth, 0, din, dout, rng, pos, samples[s].input);
  }

  // ---------------------------------------------------------------------------
  // The source's loops
  // ---------------------------------------------------------------------------

  /**
   * The two pair loops with their break flag: the cairns of the first pair
   * of the shuffled list whose sides both keep m samples, and those sides.
   */
  method FindPair(samples: seq<Sample>, order: seq<int>, d: array2<real>, m: int, din: nat, dout: nat)
    returns (found: Option<(int, int)>, leftIndices: seq<int>, rightIndices: seq<int>)
    requires Uniform(samples, din, dout) && InRange(order, |samples|) && Matches(d, samples)
    ensures var p := First(Fits(samples, order, m, din, dout), |order|, 0, 1);
      && found.Some? == p.Some?
      && (p.Some? ==>
            && found.value == (order[p.value.0], order[p.value.1])
            && (leftIndices, rightIndices) == Sides(samples, order, found.value.0, found.value.1, din, dout))
  {
    var fits := Fits(samples, order, m, din, dout);
    found, leftIndices, rightIndices := None, [], [];
    var splitFound := false;
    var a := 0;
    while a < |order|
      invariant 0 <= a <= |order| && !splitFound && found.None?
      invariant First(fits, |order|, 0, 1) == First(fits, |order|, a, a + 1)
    {
      var b := a + 1;
      while b < |order|
        invariant a + 1 <= b <= |order| && !splitFound && found.None?
        invariant First(fits, |order|, 0, 1) == First(fits, |order|, a, b)
      {
        leftIndices, rightIndices := Divide(samples, order, order[a], order[b], d, din, dout);
        if |leftIndices| >= m && |rightIndices| >= m {
          found := Some((order[a], order[b]));
          splitFound := true;
          break;
        }
        b := b + 1;
      }
      if splitFound {
        break;
      }
      a := a + 1;
    }
  }

  /**
   * The private constructor: the leaf values first; then, unless the node
   * stops, the shuffle, the pair search and the two children, left first.
   */
  method Construct(minimize: Minimize, samples: seq<Sample>, idx: seq<int>, d: array2<real>, m: int, maxDepth: int,
                   depth: int, din: nat, dout: nat, rng: Stream, pos: nat) returns (t: Cairn, pos': nat)
    requires Uniform(samples, din, dout) && InRange(idx, |samples|) && Matches(d, samples)
    ensures (t, pos') == RGrow(minimize, samples, idx, m, maxDepth, depth, din, dout, rng, pos)
    decreases maxDepth - depth
  {
    t := NewLeaf(minimize, samples, idx, din, dout);
    pos' := pos;
    if depth >= maxDepth || |idx| < m * 2 {
      return;
    }
    var shuffled := Shuffle(idx, rng, pos);
    ShuffleInRange(idx, |samples|, rng, pos);
    var sampleIndices := shuffled.0;
    pos' := shuffled.1;
    var found, leftIndices, rightIndices := FindPair(samples, sampleIndices, d, m, din, dout);
    if found.None? {
      return;
    }
    var (l, r) := found.value;
    var left, afterLeft := Construct(minimize, samples, leftIndices, d, m, maxDepth, depth + 1, din, dout, rng, pos');
    var right, afterRight := Construct(minimize, samples, rightIndices, d, m, maxDepth, depth + 1, din, dout, rng, afterLeft);
    t := Split(t.output, t.error, samples[l].input, samples[r].input, left, right);
    pos' := afterRight;
  }

  /**
   * RandomCairnTree.Build: the distance matrix, then the root on every index
   * 0..n-1 at depth 0; the root reads samples[0], so an empty list throws.
   */
  method Build(samples: seq<Sample>, minSamplesPerLeaf: int, maxLeafDepth: int, minimize: Minimize, din: nat, dout: nat,
               rng: Stream, pos: nat) returns (r: Result<Cairn>, pos': nat)
    requires Uniform(samples, din, dout)
    ensures |samples| == 0 ==> r == Err(OutOfRange) && pos' == pos
    ensures |samples| > 0 ==>
      (r, pos') == (Ok(RGrow(minimize, samples, Range(|samples|), minSamplesPerLeaf, maxLeafDepth, 0, din, dout, rng, pos).0),
                    RGrow(minimize, samples, Range(|samples|), minSamplesPerLeaf, maxLeafDepth, 0, din, dout, rng, pos).1)
    ensures r.Ok? ==> Shaped(r.value, din, dout) && (minSamplesPerLeaf > 0 ==> Full(r.value))
  {
    var d := Distances(samples, din, dout);
    if |samples| == 0 {
      return Err(OutOfRange), pos;
    }
    var sampleIndices := Range(|samples|);
    var t;
    t, pos' := Construct(minimize, samples, sampleIndices, d, minSamplesPerLeaf, maxLeafDepth, 0, din, dout, rng, pos);
    RGrowShape(minimize, samples, sampleIndices, minSamplesPerLeaf, maxLeafDepth, 0, din, dout, rng, pos);
    return Ok(t), pos';
  }
}
