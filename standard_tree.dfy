/**
 * Models/StandardTree.cs: greedy best-split induction of a regression tree.
 *
 * A node stores the mean output of its samples. It stays a leaf when it has
 * fewer than 2 * minSamplesPerLeaf samples or has reached maxLeafDepth
 * (-1 meaning no limit). Otherwise every listed feature with more than one
 * distinct value, and every distinct value of it as threshold, is a
 * candidate; a candidate is valid when both sides keep minSamplesPerLeaf
 * samples, and its cost is the count-weighted sum of the two sides' errors.
 * The first candidate whose cost is strictly below the best so far (which
 * starts at the node's own error) wins.
 *
 * The node error (CalculateError, dispatching on the reduction to
 * Sample.OutputMeanSquaredError or Sample.OutputMeanAbsoluteError) is the
 * parameter `err`. A side with no samples has a NaN mean and a NaN error, so
 * its cost never compares below the best; such a candidate is invalid here.
 */
module StandardTrees {
  import opened Wrappers
  import opened Vectors
  import opened Samples
  import opened Trees

  type Candidate = (nat, real)

  /** Every candidate's feature is a component of every input. */
  predicate Splittable(samples: seq<Sample>, cands: seq<Candidate>)
  {
    forall k | 0 <= k < |cands| :: HasFeature(samples, InputOf, cands[k].0)
  }

  /** The thresholds tried for feature f: none when it takes a single value, otherwise every distinct value. */
  function FeatureCandidates(samples: seq<Sample>, f: nat): (cs: seq<Candidate>)
    requires HasFeature(samples, InputOf, f)
    ensures Splittable(samples, cs)
    ensures forall k | 0 <= k < |cs| :: cs[k].0 == f && cs[k].1 in Values(samples, InputOf, f)
    ensures |cs| > 0 ==> |Values(samples, InputOf, f)| > 1
  {
    var values := Values(samples, InputOf, f);
    if |values| == 1 then [] else seq(|values|, i requires 0 <= i < |values| => (f, values[i]))
  }

  /** All candidates, feature by feature in the order of `features`. */
  function Candidates(samples: seq<Sample>, features: seq<int>, din: nat): (cs: seq<Candidate>)
    requires InRange(features, din) && forall k | 0 <= k < |samples| :: |samples[k].input| == din
    ensures Splittable(samples, cs)
    decreases |features|
  {
    if features == [] then []
    else
      Candidates(samples, features[..|features| - 1], din)
        + FeatureCandidates(samples, features[|features| - 1] as nat)
  }

  /** The cost of splitting at input[f] <= v, or None when the split is invalid. */
  function Cost(samples: seq<Sample>, c: Candidate, m: int, err: seq<Sample> -> real): Option<real>
    requires HasFeature(samples, InputOf, c.0)
  {
    var l, r := LeftOf(samples, InputOf, c.0, c.1), RightOf(samples, InputOf, c.0, c.1);
    if |l| >= m && |r| >= m && |l| > 0 && |r| > 0 then
      var n := |samples| as real;
      Some((|l| as real / n) * err(l) + (|r| as real / n) * err(r))
    else None
  }

  /**
   * The best-split scan over `cands` starting from error e0: a candidate
   * replaces the best only when its cost is strictly lower.
   */
  function Search(samples: seq<Sample>, cands: seq<Candidate>, m: int, err: seq<Sample> -> real, e0: real)
    : (Option<Candidate>, real)
    requires Splittable(samples, cands)
    decreases |cands|
  {
    if cands == [] then (None, e0)
    else
      var prev := Search(samples, cands[..|cands| - 1], m, err, e0);
      var cost := Cost(samples, cands[|cands| - 1], m, err);
      if cost.Some? && cost.value < prev.1 then (Some(cands[|cands| - 1]), cost.value) else prev
  }

  /**
   * The scan's result: no valid candidate beats e0 when nothing is chosen;
   * otherwise the chosen candidate is valid, strictly below e0, no more
   * costly than any valid candidate and strictly cheaper than every valid
   * candidate before its first occurrence.
   */
  lemma {:induction false} SearchFacts(samples: seq<Sample>, cands: seq<Candidate>, m: int, err: seq<Sample> -> real, e0: real)
    requires Splittable(samples, cands)
    ensures var (best, e) := Search(samples, cands, m, err, e0);
      && e <= e0
      && (best.None? ==> e == e0)
      && (forall k | 0 <= k < |cands| && Cost(samples, cands[k], m, err).Some? ::
            e <= Cost(samples, cands[k], m, err).value)
      && (best.Some? ==> exists i | 0 <= i < |cands| ::
            && cands[i] == best.value
            && Cost(samples, cands[i], m, err) == Some(e) && e < e0
            && forall k | 0 <= k < i && Cost(samples, cands[k], m, err).Some? ::
                 e < Cost(samples, cands[k], m, err).value)
    decreases |cands|
  {
    if cands != [] {
      var p := cands[..|cands| - 1];
      SearchFacts(samples, p, m, err, e0);
      var (best, e) := Search(samples, cands, m, err, e0);
      var (pbest, pe) := Search(samples, p, m, err, e0);
      forall k | 0 <= k < |p| ensures cands[k] == p[k] { }
      if best != pbest || e != pe {
        assert 0 <= |p| < |cands| && cands[|p|] == best.value;
      } else if best.Some? {
        var i :| 0 <= i < |p| && p[i] == best.value && Cost(samples, p[i], m, err) == Some(e) && e < e0
          && forall k | 0 <= k < i && Cost(samples, p[k], m, err).Some? :: e < Cost(samples, p[k], m, err).value;
        assert cands[i] == p[i];
      }
    }
  }

  /** No split when the node is too small for two leaves or is at the depth limit (-1: unlimited). */
  predicate Stops(n: nat, m: int, maxDepth: int, depth: int)
  {
    n < m * 2 || (maxDepth != -1 && depth >= maxDepth)
  }

  /** The tree the constructor builds on a non-empty sample list. */
  function Grow(samples: seq<Sample>, features: seq<int>, m: int, maxDepth: int, err: seq<Sample> -> real,
                depth: int, din: nat, dout: nat): Tree
    requires |samples| > 0 && Uniform(samples, din, dout) && InRange(features, din)
    decreases |samples|
  {
    var output := MeanOutput(samples, dout);
    if Stops(|samples|, m, maxDepth, depth) then Leaf(output)
    else
      var best := Choose(samples, features, m, err, din);
      if best.None? then Leaf(output)
      else
        var (f, v) := best.value;
        var l, r := LeftOf(samples, InputOf, f, v), RightOf(samples, InputOf, f, v);
        PartitionFacts(samples, InputOf, f, v);
        UniformSub(samples, l, din, dout);
        UniformSub(samples, r, din, dout);
        Split(output, f, v,
          Grow(l, features, m, maxDepth, err, depth + 1, din, dout),
          Grow(r, features, m, maxDepth, err, depth + 1, din, dout))
  }

  /** Every candidate is a listed feature with several values, and one of its observed values. */
  lemma {:induction false} CandidatesSound(samples: seq<Sample>, features: seq<int>, din: nat)
    requires InRange(features, din) && forall k | 0 <= k < |samples| :: |samples[k].input| == din
    ensures var cs := Candidates(samples, features, din);
      forall k | 0 <= k < |cs| ::
        && cs[k].0 in features
        && cs[k].0 < din
        && |Values(samples, InputOf, cs[k].0)| > 1
        && cs[k].1 in Values(samples, InputOf, cs[k].0)
    decreases |features|
  {
    if features != [] {
      var p := features[..|features| - 1];
      CandidatesSound(samples, p, din);
      assert forall k | 0 <= k < |p| :: p[k] == features[k];
      assert Candidates(samples, features, din)
        == Candidates(samples, p, din) + FeatureCandidates(samples, features[|features| - 1] as nat);
    }
  }

  /** Conversely, every observed value of every listed feature with several values is a candidate. */
  lemma {:induction false} CandidatesComplete(samples: seq<Sample>, features: seq<int>, din: nat, f: nat, v: real)
    requires InRange(features, din) && forall k | 0 <= k < |samples| :: |samples[k].input| == din
    requires f in features && f < din && |Values(samples, InputOf, f)| > 1 && v in Values(samples, InputOf, f)
    ensures (f, v) in Candidates(samples, features, din)
    decreases |features|
  {
    var p := features[..|features| - 1];
    var g := features[|features| - 1];
    assert features == p + [g];
    if g == f {
      var values := Values(samples, InputOf, f);
      var j :| 0 <= j < |values| && values[j] == v;
      assert FeatureCandidates(samples, f)[j] == (f, v);
    } else {
      CandidatesComplete(samples, p, din, f, v);
    }
  }

  /**
   * The split the search chooses, if any: it is valid, uses a component of
   * the inputs, and costs strictly less than the node's error.
   */
  function Choose(samples: seq<Sample>, features: seq<int>, m: int, err: seq<Sample> -> real, din: nat)
    : (best: Option<Candidate>)
    requires InRange(features, din) && forall k | 0 <= k < |samples| :: |samples[k].input| == din
    ensures best.Some? ==>
      && best.value.0 < din
      && Cost(samples, best.value, m, err).Some?
      && Cost(samples, best.value, m, err).value < err(samples)
  {
    var cands := Candidates(samples, features, din);
    SearchFacts(samples, cands, m, err, err(samples));
    CandidatesSound(samples, features, din);
    Search(samples, cands, m, err, err(samples)).0
  }

  /** The grown tree fits its samples: every node holds the mean output of the samples that reached it. */
  lemma {:induction false} GrowFits(samples: seq<Sample>, features: seq<int>, m: int, maxDepth: int,
                                    err: seq<Sample> -> real, depth: int, din: nat, dout: nat)
    requires |samples| > 0 && Uniform(samples, din, dout) && InRange(features, din)
    ensures Fits(Grow(samples, features, m, maxDepth, err, depth, din, dout), samples, din, dout)
    decreases |samples|
  {
    var t := Grow(samples, features, m, maxDepth, err, depth, din, dout);
    if t.Split? {
      var (f, v) := (t.feature, t.threshold);
      var l, r := LeftOf(samples, InputOf, f, v), RightOf(samples, InputOf, f, v);
      PartitionFacts(samples, InputOf, f, v);
      UniformSub(samples, l, din, dout);
      UniformSub(samples, r, din, dout);
      GrowFits(l, features, m, maxDepth, err, depth + 1, din, dout);
      GrowFits(r, features, m, maxDepth, err, depth + 1, din, dout);
    }
  }

  /**
   * The decision at the root: a leaf when the node stops or no valid
   * candidate costs less than the node's error; otherwise the split uses a
   * listed feature with several values at an observed threshold, keeps at
   * least minSamplesPerLeaf samples (and at least one) on each side, costs
   * strictly less than the node's error and no more than any valid candidate.
   */
  lemma GrowDecision(samples: seq<Sample>, features: seq<int>, m: int, maxDepth: int,
                     err: seq<Sample> -> real, depth: int, din: nat, dout: nat)
    requires |samples| > 0 && Uniform(samples, din, dout) && InRange(features, din)
    ensures var t := Grow(samples, features, m, maxDepth, err, depth, din, dout);
      var cands := Candidates(samples, features, din);
      && (Stops(|samples|, m, maxDepth, depth) ==> t.Leaf?)
      && (t.Leaf? && !Stops(|samples|, m, maxDepth, depth) ==>
            forall k | 0 <= k < |cands| && Cost(samples, cands[k], m, err).Some? ::
              Cost(samples, cands[k], m, err).value >= err(samples))
      && (t.Split? ==>
            && t.feature in features
            && |Values(samples, InputOf, t.feature)| > 1
            && t.threshold in Values(samples, InputOf, t.feature)
            && Cost(samples, (t.feature, t.threshold), m, err).Some?
            && var e := Cost(samples, (t.feature, t.threshold), m, err).value;
              && e < err(samples)
              && forall k | 0 <= k < |cands| && Cost(samples, cands[k], m, err).Some? ::
                   e <= Cost(samples, cands[k], m, err).value)
  {
    var cands := Candidates(samples, features, din);
    SearchFacts(samples, cands, m, err, err(samples));
    CandidatesSound(samples, features, din);
  }

  /** One more candidate at the end of the scan. */
  lemma SearchAppend(samples: seq<Sample>, cands: seq<Candidate>, c: Candidate, m: int, err: seq<Sample> -> real, e0: real)
    requires Splittable(samples, cands + [c])
    ensures Splittable(samples, cands) && HasFeature(samples, InputOf, c.0)
    ensures var prev := Search(samples, cands, m, err, e0);
      var cost := Cost(samples, c, m, err);
      Search(samples, cands + [c], m, err, e0)
        == if cost.Some? && cost.value < prev.1 then (Some(c), cost.value) else prev
  {
    assert (cands + [c])[..|cands|] == cands;
    assert (cands + [c])[|cands|] == c;
    assert forall k | 0 <= k < |cands| :: cands[k] == (cands + [c])[k];
  }

  /** Gathers both sides of input[f] <= v and, when the split is valid, weighs their errors by their sizes. */
  method SplitCost(samples: seq<Sample>, f: nat, v: real, m: int, err: seq<Sample> -> real) returns (cost: Option<real>)
    requires HasFeature(samples, InputOf, f)
    ensures cost == Cost(samples, (f, v), m, err)
  {
    var left, right := Partition(samples, InputOf, f, v);
    var c: Candidate := (f, v);
    assert left == LeftOf(samples, InputOf, c.0, c.1) && right == RightOf(samples, InputOf, c.0, c.1);
    if left != [] && right != [] && |left| >= m && |right| >= m {
      var leftError := err(left);
      var rightError := err(right);
      var n := |samples| as real;
      var leftWeight := |left| as real / n;
      var rightWeight := |right| as real / n;
      cost := Some(leftWeight * leftError + rightWeight * rightError);
      assert Cost(samples, c, m, err).Some?;
      assert Cost(samples, c, m, err).value == leftWeight * leftError + rightWeight * rightError;
    } else {
      cost := None;
      assert Cost(samples, c, m, err).None?;
    }
  }

  /** The value loop for one feature: tries each candidate threshold of f after those already scanned. */
  method ScanFeature(samples: seq<Sample>, f: nat, m: int, err: seq<Sample> -> real, e0: real,
                     done: seq<Candidate>, best: Option<Candidate>, bestError: real)
    returns (best': Option<Candidate>, bestError': real)
    requires HasFeature(samples, InputOf, f) && Splittable(samples, done)
    requires (best, bestError) == Search(samples, done, m, err, e0)
    ensures (best', bestError') == Search(samples, done + FeatureCandidates(samples, f), m, err, e0)
  {
    best', bestError' := best, bestError;
    var values := Values(samples, InputOf, f);
    var mine := FeatureCandidates(samples, f);
    if |values| == 1 {
      assert done + mine == done;
      return;
    }
    var vi := 0;
    assert done + mine[..0] == done;
    while vi < |values|
      invariant 0 <= vi <= |values|
      invariant (best', bestError') == Search(samples, done + mine[..vi], m, err, e0)
    {
      var v := values[vi];
      assert mine[vi] == (f, v);
      assert done + mine[..vi + 1] == (done + mine[..vi]) + [(f, v)];
      SearchAppend(samples, done + mine[..vi], (f, v), m, err, e0);
      var cost := SplitCost(samples, f, v, m, err);
      if cost.Some? && cost.value < bestError' {
        bestError' := cost.value;
        best' := Some((f, v));
      }
      vi := vi + 1;
    }
    assert mine[..vi] == mine;
  }

  /** The feature loop of the split search. */
  method SearchSplit(samples: seq<Sample>, features: seq<int>, m: int, err: seq<Sample> -> real, din: nat)
    returns (best: Option<Candidate>)
    requires InRange(features, din) && forall k | 0 <= k < |samples| :: |samples[k].input| == din
    ensures best == Choose(samples, features, m, err, din)
  {
    var error := err(samples);
    best := None;
    var bestError := error;
    var fi := 0;
    while fi < |features|
      invariant 0 <= fi <= |features|
      invariant (best, bestError) == Search(samples, Candidates(samples, features[..fi], din), m, err, error)
    {
      assert features[..fi + 1][..fi] == features[..fi];
      best, bestError := ScanFeature(samples, features[fi] as nat, m, err, error,
        Candidates(samples, features[..fi], din), best, bestError);
      fi := fi + 1;
    }
    assert features[..fi] == features;
  }

  /**
   * The constructor: an empty list is rejected; otherwise the node takes the
   * mean output and, unless it stops, searches for the split and builds both
   * children from the partition at the chosen split.
   */
  method StandardTree(samples: seq<Sample>, features: seq<int>, m: int, maxDepth: int,
                      err: seq<Sample> -> real, depth: int, din: nat, dout: nat) returns (r: Result<Tree>)
    requires Uniform(samples, din, dout) && InRange(features, din)
    ensures |samples| == 0 ==> r == Err(EmptySamples)
    ensures |samples| > 0 ==> r == Ok(Grow(samples, features, m, maxDepth, err, depth, din, dout))
    decreases |samples|
  {
    if |samples| == 0 {
      return Err(EmptySamples);
    }
    UniformWide(samples, din, dout);
    var output := Average(Outputs(samples));
    assert output == MeanOutput(samples, dout);
    if |samples| < m * 2 {
      return Ok(Leaf(output));
    }
    if maxDepth != -1 && depth >= maxDepth {
      return Ok(Leaf(output));
    }
    var best := SearchSplit(samples, features, m, err, din);
    if best.None? {
      return Ok(Leaf(output));
    }
    var (f, v) := best.value;
    var left, right := Partition(samples, InputOf, f, v);
    PartitionFacts(samples, InputOf, f, v);
    UniformSub(samples, left, din, dout);
    UniformSub(samples, right, din, dout);
    var l := StandardTree(left, features, m, maxDepth, err, depth + 1, din, dout);
    var r' := StandardTree(right, features, m, maxDepth, err, depth + 1, din, dout);
    return Ok(Split(output, f, v, l.value, r'.value));
  }
}
