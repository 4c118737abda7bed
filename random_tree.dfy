/**
 * Random-attempt tree induction, shared by RandomTree.cs (an integer depth
 * limit) and Models/RandomTree.cs (an optional one).
 *
 * A node stores the mean output of its samples and stays a leaf when it has
 * fewer than 2 * minSamplesPerLeaf samples or has reached the depth limit.
 * Otherwise it makes up to maxSplitAttempts attempts; each draws a component
 * (random.Next(input length)) and then a sample (random.Next(count)) whose
 * value of that component is the threshold. The first attempt leaving
 * strictly more than minSamplesPerLeaf samples on both sides is taken, with
 * no error comparison, and the two sides are grown into the children, left
 * first. A child handed no samples throws, which aborts the whole
 * construction; that can only happen when minSamplesPerLeaf is negative.
 *
 * Every node of the source creates its own System.Random; here all draws are
 * read from one stream, each node continuing where the previous one stopped.
 */
module RandomTrees {
  import opened Wrappers
  import opened Vectors
  import opened Samples
  import opened Rng
  import opened Trees

  /** Every sample's input has `din` components. */
  predicate InputWidth(samples: seq<Sample>, din: nat)
  {
    forall k | 0 <= k < |samples| :: |samples[k].input| == din
  }

  /** The (component, threshold) pair of the attempt whose two draws start at stream position p. */
  function AttemptAt(samples: seq<Sample>, rng: Stream, p: nat, din: nat): (c: (nat, real))
    requires |samples| > 0 && din > 0 && InputWidth(samples, din)
    ensures c.0 < din && HasFeature(samples, InputOf, c.0)
  {
    var f := Draw(rng, p, din);
    var k := Draw(rng, p + 1, |samples|);
    (f, samples[k].input[f])
  }

  /** The threshold of an attempt is the drawn component of one of the samples. */
  lemma AttemptObserved(samples: seq<Sample>, rng: Stream, p: nat, din: nat)
    requires |samples| > 0 && din > 0 && InputWidth(samples, din)
    ensures var c := AttemptAt(samples, rng, p, din);
      exists k | 0 <= k < |samples| :: samples[k].input[c.0] == c.1
  {
    var k := Draw(rng, p + 1, |samples|);
    assert samples[k].input[AttemptAt(samples, rng, p, din).0] == AttemptAt(samples, rng, p, din).1;
  }

  /** Both sides keep strictly more than m samples. */
  predicate ValidSplit(samples: seq<Sample>, c: (nat, real), m: int)
    requires HasFeature(samples, InputOf, c.0)
  {
    |LeftOf(samples, InputOf, c.0, c.1)| > m && |RightOf(samples, InputOf, c.0, c.1)| > m
  }

  /** The attempt loop: the first valid attempt among `attempts` ones, and the stream position after it. */
  function FirstValid(samples: seq<Sample>, m: int, attempts: int, rng: Stream, pos: nat, din: nat)
    : (r: (Option<(nat, real)>, nat))
    requires |samples| > 0 && din > 0 && InputWidth(samples, din)
    ensures r.0.Some? ==> r.0.value.0 < din
    decreases attempts
  {
    if attempts <= 0 then (None, pos)
    else
      var c := AttemptAt(samples, rng, pos, din);
      if ValidSplit(samples, c, m) then (Some(c), pos + 2)
      else FirstValid(samples, m, attempts - 1, rng, pos + 2, din)
  }

  /** No attempt starting at the positions from, from + 2, ... below `to` is valid. */
  predicate NoneValid(samples: seq<Sample>, m: int, rng: Stream, from: nat, to: nat, din: nat)
    requires |samples| > 0 && din > 0 && InputWidth(samples, din)
    decreases if to >= from then to - from else 0
  {
    from + 2 <= to ==>
      !ValidSplit(samples, AttemptAt(samples, rng, from, din), m) && NoneValid(samples, m, rng, from + 2, to, din)
  }

  /**
   * Attempts consume two draws each. When none succeeds all `attempts` of
   * them were made and were invalid; otherwise the chosen split is the one
   * drawn by the last attempt made, and every earlier attempt was invalid.
   */
  lemma {:induction false} FirstValidFacts(samples: seq<Sample>, m: int, attempts: int, rng: Stream, pos: nat, din: nat)
    requires |samples| > 0 && din > 0 && InputWidth(samples, din)
    ensures var r := FirstValid(samples, m, attempts, rng, pos, din);
      && pos <= r.1 <= pos + 2 * (if attempts < 0 then 0 else attempts)
      && (r.0.None? ==> r.1 == pos + 2 * (if attempts < 0 then 0 else attempts) && NoneValid(samples, m, rng, pos, r.1, din))
      && (r.0.Some? ==>
            && pos + 2 <= r.1
            && r.0.value == AttemptAt(samples, rng, r.1 - 2, din)
            && ValidSplit(samples, r.0.value, m)
            && NoneValid(samples, m, rng, pos, r.1 - 2, din))
    decreases attempts
  {
    if attempts > 0 && !ValidSplit(samples, AttemptAt(samples, rng, pos, din), m) {
      FirstValidFacts(samples, m, attempts - 1, rng, pos + 2, din);
    }
  }

  /** What is left of the depth limit: the measure the recursion decreases when a limit is set. */
  function Budget(maxDepth: Option<int>, depth: int): nat
  {
    if maxDepth.Some? && depth < maxDepth.value then maxDepth.value - depth else 0
  }

  /** The leaf test: too few samples for two leaves, or the depth limit (when there is one) reached. */
  predicate Stops(n: nat, m: int, maxDepth: Option<int>, depth: int)
  {
    n < m * 2 || (maxDepth.Some? && depth >= maxDepth.value)
  }

  /**
   * The tree built on `samples` from stream position `pos`, and the position
   * after it. Without a depth limit the recursion ends because both sides of
   * a valid split are non-empty, which needs minSamplesPerLeaf >= 0.
   */
  function Grow(samples: seq<Sample>, m: int, maxDepth: Option<int>, attempts: int, depth: int,
                rng: Stream, pos: nat, din: nat, dout: nat): (Result<Tree>, nat)
    requires din > 0 && Uniform(samples, din, dout) && (maxDepth.Some? || m >= 0)
    decreases Budget(maxDepth, depth), |samples|
  {
    if |samples| == 0 then (Err(EmptySamples), pos)
    else
      var output := MeanOutput(samples, dout);
      if Stops(|samples|, m, maxDepth, depth) then (Ok(Leaf(output)), pos)
      else
        var (c, p) := FirstValid(samples, m, attempts, rng, pos, din);
        if c.None? then (Ok(Leaf(output)), p)
        else
          FirstValidFacts(samples, m, attempts, rng, pos, din);
          var (f, v) := c.value;
          var (ls, rs) := Sides(samples, f, v, din, dout);
          var (l, p1) := Grow(ls, m, maxDepth, attempts, depth + 1, rng, p, din, dout);
          if l.Err? then (Err(l.error), p1)
          else
            var (r, p2) := Grow(rs, m, maxDepth, attempts, depth + 1, rng, p1, din, dout);
            if r.Err? then (Err(r.error), p2)
            else (Ok(Split(output, f, v, l.value, r.value)), p2)
  }

  /** A tree that was built fits its samples: every node holds the mean output of the samples that reached it. */
  lemma {:induction false} GrowFits(samples: seq<Sample>, m: int, maxDepth: Option<int>, attempts: int, depth: int,
                                    rng: Stream, pos: nat, din: nat, dout: nat)
    requires din > 0 && Uniform(samples, din, dout) && (maxDepth.Some? || m >= 0)
    ensures var r := Grow(samples, m, maxDepth, attempts, depth, rng, pos, din, dout).0;
      r.Ok? ==> Fits(r.value, samples, din, dout)
    decreases Budget(maxDepth, depth), |samples|
  {
    var (r, _) := Grow(samples, m, maxDepth, attempts, depth, rng, pos, din, dout);
    if r.Ok? && r.value.Split? {
      FirstValidFacts(samples, m, attempts, rng, pos, din);
      var (c, p) := FirstValid(samples, m, attempts, rng, pos, din);
      var (f, v) := c.value;
      var (ls, rs) := Sides(samples, f, v, din, dout);
      var (l, p1) := Grow(ls, m, maxDepth, attempts, depth + 1, rng, p, din, dout);
      var (rt, _) := Grow(rs, m, maxDepth, attempts, depth + 1, rng, p1, din, dout);
      assert l.Ok? && rt.Ok? && r.value == Split(MeanOutput(samples, dout), f, v, l.value, rt.value);
      GrowFits(ls, m, maxDepth, attempts, depth + 1, rng, p, din, dout);
      GrowFits(rs, m, maxDepth, attempts, depth + 1, rng, p1, din, dout);
    }
  }

  /** With minSamplesPerLeaf >= 0 no child is ever empty, so a non-empty list always yields a tree. */
  lemma {:induction false} GrowSucceeds(samples: seq<Sample>, m: int, maxDepth: Option<int>, attempts: int, depth: int,
                                        rng: Stream, pos: nat, din: nat, dout: nat)
    requires din > 0 && Uniform(samples, din, dout) && m >= 0
    ensures Grow(samples, m, maxDepth, attempts, depth, rng, pos, din, dout).0.Ok? <==> |samples| > 0
    decreases Budget(maxDepth, depth), |samples|
  {
    if |samples| > 0 && !Stops(|samples|, m, maxDepth, depth) {
      FirstValidFacts(samples, m, attempts, rng, pos, din);
      var (c, p) := FirstValid(samples, m, attempts, rng, pos, din);
      if c.Some? {
        var (f, v) := c.value;
        var (ls, rs) := Sides(samples, f, v, din, dout);
        var (l, p1) := Grow(ls, m, maxDepth, attempts, depth + 1, rng, p, din, dout);
        GrowSucceeds(ls, m, maxDepth, attempts, depth + 1, rng, p, din, dout);
        GrowSucceeds(rs, m, maxDepth, attempts, depth + 1, rng, p1, din, dout);
      }
    }
  }

  /** With a depth limit D, a tree built at depth d has no path with more than D - d splits. */
  lemma {:induction false} GrowHeight(samples: seq<Sample>, m: int, maxDepth: Option<int>, attempts: int, depth: int,
                                      rng: Stream, pos: nat, din: nat, dout: nat)
    requires din > 0 && Uniform(samples, din, dout) && maxDepth.Some?
    ensures var r := Grow(samples, m, maxDepth, attempts, depth, rng, pos, din, dout).0;
      r.Ok? ==> Height(r.value) <= Budget(maxDepth, depth)
    decreases Budget(maxDepth, depth), |samples|
  {
    var (r, _) := Grow(samples, m, maxDepth, attempts, depth, rng, pos, din, dout);
    if r.Ok? && r.value.Split? {
      var (c, p) := FirstValid(samples, m, attempts, rng, pos, din);
      var (f, v) := c.value;
      var (ls, rs) := Sides(samples, f, v, din, dout);
      var (l, p1) := Grow(ls, m, maxDepth, attempts, depth + 1, rng, p, din, dout);
      GrowHeight(ls, m, maxDepth, attempts, depth + 1, rng, p, din, dout);
      GrowHeight(rs, m, maxDepth, attempts, depth + 1, rng, p1, din, dout);
    }
  }

  /**
   * The decision at the root: a stopping node is a leaf, and a split node's
   * feature is a component of the inputs and leaves more than
   * minSamplesPerLeaf samples on each side.
   */
  lemma GrowDecision(samples: seq<Sample>, m: int, maxDepth: Option<int>, attempts: int, depth: int,
                     rng: Stream, pos: nat, din: nat, dout: nat)
    requires din > 0 && Uniform(samples, din, dout) && (maxDepth.Some? || m >= 0) && |samples| > 0
    ensures var r := Grow(samples, m, maxDepth, attempts, depth, rng, pos, din, dout).0;
      && (Stops(|samples|, m, maxDepth, depth) ==> r.Ok? && r.value.Leaf?)
      && (r.Ok? && r.value.Split? ==>
            && r.value.feature < din
            && |LeftOf(samples, InputOf, r.value.feature, r.value.threshold)| > m
            && |RightOf(samples, InputOf, r.value.feature, r.value.threshold)| > m)
  {
    if !Stops(|samples|, m, maxDepth, depth) {
      FirstValidFacts(samples, m, attempts, rng, pos, din);
    }
  }

  /**
   * A split node's threshold is the value of its feature in one of the
   * node's samples, so that sample passes the test and the left side is
   * never empty.
   */
  lemma GrowThresholdObserved(samples: seq<Sample>, m: int, maxDepth: Option<int>, attempts: int, depth: int,
                              rng: Stream, pos: nat, din: nat, dout: nat)
    requires din > 0 && Uniform(samples, din, dout) && (maxDepth.Some? || m >= 0) && |samples| > 0
    ensures var r := Grow(samples, m, maxDepth, attempts, depth, rng, pos, din, dout).0;
      r.Ok? && r.value.Split? ==>
        && r.value.feature < din
        && (exists k | 0 <= k < |samples| :: samples[k].input[r.value.feature] == r.value.threshold)
        && HasFeature(samples, InputOf, r.value.feature)
        && |LeftOf(samples, InputOf, r.value.feature, r.value.threshold)| > 0
  {
    GrowRoot(samples, m, maxDepth, attempts, depth, rng, pos, din, dout);
    if !Stops(|samples|, m, maxDepth, depth) {
      FirstValidObserved(samples, m, attempts, rng, pos, din);
    }
    var r := Grow(samples, m, maxDepth, attempts, depth, rng, pos, din, dout).0;
    if r.Ok? && r.value.Split? {
      var f, v := r.value.feature, r.value.threshold;
      assert HasFeature(samples, InputOf, f);
      var k :| 0 <= k < |samples| && samples[k].input[f] == v;
      PartitionMember(samples, InputOf, f, v, k);
    }
  }

  /** A split node carries the attempt the loop chose. */
  lemma GrowRoot(samples: seq<Sample>, m: int, maxDepth: Option<int>, attempts: int, depth: int,
                 rng: Stream, pos: nat, din: nat, dout: nat)
    requires din > 0 && Uniform(samples, din, dout) && (maxDepth.Some? || m >= 0) && |samples| > 0
    ensures var r := Grow(samples, m, maxDepth, attempts, depth, rng, pos, din, dout).0;
      r.Ok? && r.value.Split? ==>
        !Stops(|samples|, m, maxDepth, depth) &&
        FirstValid(samples, m, attempts, rng, pos, din).0 == Some((r.value.feature, r.value.threshold))
  {
  }

  /** The chosen attempt's threshold is observed in the samples. */
  lemma {:induction false} FirstValidObserved(samples: seq<Sample>, m: int, attempts: int, rng: Stream, pos: nat, din: nat)
    requires |samples| > 0 && din > 0 && InputWidth(samples, din)
    ensures var c := FirstValid(samples, m, attempts, rng, pos, din).0;
      c.Some? ==> exists k | 0 <= k < |samples| :: samples[k].input[c.value.0] == c.value.1
    decreases attempts
  {
    if attempts > 0 {
      if ValidSplit(samples, AttemptAt(samples, rng, pos, din), m) {
        AttemptObserved(samples, rng, pos, din);
      } else {
        FirstValidObserved(samples, m, attempts - 1, rng, pos + 2, din);
      }
    }
  }

  /** A node that could split but stays a leaf made all its attempts, and none was valid. */
  lemma GrowLeafAfterAttempts(samples: seq<Sample>, m: int, maxDepth: Option<int>, attempts: int, depth: int,
                              rng: Stream, pos: nat, din: nat, dout: nat)
    requires din > 0 && Uniform(samples, din, dout) && (maxDepth.Some? || m >= 0) && |samples| > 0
    ensures var r := Grow(samples, m, maxDepth, attempts, depth, rng, pos, din, dout);
      r.0.Ok? && r.0.value.Leaf? && !Stops(|samples|, m, maxDepth, depth) ==>
        && r.1 == pos + 2 * (if attempts < 0 then 0 else attempts)
        && NoneValid(samples, m, rng, pos, r.1, din)
  {
    if !Stops(|samples|, m, maxDepth, depth) {
      FirstValidFacts(samples, m, attempts, rng, pos, din);
    }
  }

  /** One turn of the attempt loop. */
  lemma FirstValidStep(samples: seq<Sample>, m: int, attempts: int, rng: Stream, pos: nat, din: nat)
    requires |samples| > 0 && din > 0 && InputWidth(samples, din) && attempts > 0
    ensures var c := AttemptAt(samples, rng, pos, din);
      FirstValid(samples, m, attempts, rng, pos, din)
        == if ValidSplit(samples, c, m) then (Some(c), pos + 2) else FirstValid(samples, m, attempts - 1, rng, pos + 2, din)
  {
  }

  /** The attempt loop of the constructor. */
  method FindSplit(samples: seq<Sample>, m: int, attempts: int, rng: Stream, pos: nat, din: nat)
    returns (c: Option<(nat, real)>, pos': nat)
    requires |samples| > 0 && din > 0 && InputWidth(samples, din)
    ensures (c, pos') == FirstValid(samples, m, attempts, rng, pos, din)
  {
    pos' := pos;
    var attempt := 0;
    while attempt < attempts
      invariant 0 <= attempt && (attempts >= 0 ==> attempt <= attempts) && pos' == pos + 2 * attempt
      invariant FirstValid(samples, m, attempts, rng, pos, din) == FirstValid(samples, m, attempts - attempt, rng, pos', din)
    {
      var f := Draw(rng, pos', din);
      var v := samples[Draw(rng, pos' + 1, |samples|)].input[f];
      assert (f, v) == AttemptAt(samples, rng, pos', din);
      FirstValidStep(samples, m, attempts - attempt, rng, pos', din);
      pos' := pos' + 2;
      var left, right := Partition(samples, InputOf, f, v);
      if |left| > m && |right| > m {
        return Some((f, v)), pos';
      }
      attempt := attempt + 1;
    }
    return None, pos';
  }

  /**
   * RandomTree.cs's constructor: rejects an empty list, takes the mean
   * output, and unless the node stops, builds the children (left first)
   * from the first valid attempt.
   */
  method RandomTree(samples: seq<Sample>, m: int, maxDepth: int, attempts: int, depth: int,
                    rng: Stream, pos: nat, din: nat, dout: nat) returns (r: Result<Tree>, pos': nat)
    requires din > 0 && Uniform(samples, din, dout)
    ensures (r, pos') == Grow(samples, m, Some(maxDepth), attempts, depth, rng, pos, din, dout)
    decreases Budget(Some(maxDepth), depth), |samples|
  {
    if |samples| == 0 {
      return Err(EmptySamples), pos;
    }
    UniformWide(samples, din, dout);
    var output := Average(Outputs(samples));
    assert output == MeanOutput(samples, dout);
    if |samples| < m * 2 {
      return Ok(Leaf(output)), pos;
    }
    if depth >= maxDepth {
      return Ok(Leaf(output)), pos;
    }
    var c, p := FindSplit(samples, m, attempts, rng, pos, din);
    if c.None? {
      return Ok(Leaf(output)), p;
    }
    var (f, v) := c.value;
    var left, right := Partition(samples, InputOf, f, v);
    assert (left, right) == Sides(samples, f, v, din, dout);
    var l, p1 := RandomTree(left, m, maxDepth, attempts, depth + 1, rng, p, din, dout);
    if l.Err? {
      return Err(l.error), p1;
    }
    var rt, p2 := RandomTree(right, m, maxDepth, attempts, depth + 1, rng, p1, din, dout);
    if rt.Err? {
      return Err(rt.error), p2;
    }
    return Ok(Split(output, f, v, l.value, rt.value)), p2;
  }
}
