/**
 * WeightedRandomForest.cs: a bag of weighted random trees.
 *
 * Each tree is grown on a bootstrap resample of the weighted samples (the
 * resample holds the same sample values, weights included) using a random
 * choice of xComponentCount of the input components. The forest predicts the
 * component-wise mean of its trees' predictions and counts the nodes of all
 * its trees. Every AddTree of the source creates its own System.Random; here
 * it reads the stream from the position where the previous one stopped.
 */
module WeightedForests {
  import opened Wrappers
  import opened Vectors
  import opened Rng
  import opened Trees
  import opened WeightedTrees

  /** A resample of uniform samples is uniform. */
  lemma BagUniform(ws: seq<WeightedSample>, rng: Stream, pos: nat, din: nat, dout: nat)
    requires WUniform(ws, din, dout)
    ensures WUniform(Resampled(ws, rng, pos).0, din, dout)
  {
    ResampledFrom(ws, rng, pos);
  }

  /**
   * AddTree on a non-empty list: the resample (|ws| draws), then the tree
   * GrowOn builds on it from the following draws.
   */
  function NewTree(ws: seq<WeightedSample>, k: int, m: int, rng: Stream, pos: nat, din: nat, dout: nat): (r: (WTree, nat))
    requires |ws| > 0 && WUniform(ws, din, dout) && m >= 0
  {
    BagUniform(ws, rng, pos, din, dout);
    var (bag, p) := Resampled(ws, rng, pos);
    GrowOn(bag, k, m, rng, p, din, dout)
  }

  /**
   * The shuffle of 0, ..., din-1 cut to k components (din draws from
   * position p), then the tree grown on the bag from the following draws.
   */
  function GrowOn(bag: seq<WeightedSample>, k: int, m: int, rng: Stream, p: nat, din: nat, dout: nat): (r: (WTree, nat))
    requires |bag| > 0 && WUniform(bag, din, dout) && m >= 0
  {
    ShuffledFeaturesInRange(din, k, rng, p);
    var chosen := ShuffledFeatures(din, k, rng, p);
    WGrow(bag, chosen.0, m, rng, chosen.1, din, dout)
  }

  /** The tree GrowOn builds fits the bag and has the forest's shape. */
  lemma GrowOnFits(bag: seq<WeightedSample>, k: int, m: int, rng: Stream, p: nat, din: nat, dout: nat)
    requires |bag| > 0 && WUniform(bag, din, dout) && m >= 0
    ensures WFits(GrowOn(bag, k, m, rng, p, din, dout).0, bag, din, dout)
    ensures WShaped(GrowOn(bag, k, m, rng, p, din, dout).0, din, dout)
  {
    ShuffledFeaturesInRange(din, k, rng, p);
    var chosen := ShuffledFeatures(din, k, rng, p);
    WGrowFits(bag, chosen.0, m, rng, chosen.1, din, dout);
    WFitsShape(GrowOn(bag, k, m, rng, p, din, dout).0, bag, din, dout);
  }

  /**
   * The tree AddTree builds fits a resample of |ws| samples drawn from ws
   * and has the forest's shape. (Its components are min(k, din) distinct
   * indices below din, by Rng.ShuffledFeaturesProperties.)
   */
  lemma NewTreeFacts(ws: seq<WeightedSample>, k: int, m: int, rng: Stream, pos: nat, din: nat, dout: nat)
    requires |ws| > 0 && WUniform(ws, din, dout) && m >= 0
    ensures var bag := Resampled(ws, rng, pos).0;
      && |bag| == |ws|
      && (forall i | 0 <= i < |bag| :: bag[i] in ws)
      && WFits(NewTree(ws, k, m, rng, pos, din, dout).0, bag, din, dout)
    ensures WShaped(NewTree(ws, k, m, rng, pos, din, dout).0, din, dout)
    ensures PositiveWeights(ws) || dout == 0 ==> Defined(NewTree(ws, k, m, rng, pos, din, dout).0)
  {
    ResampledFrom(ws, rng, pos);
    BagUniform(ws, rng, pos, din, dout);
    var (bag, p) := Resampled(ws, rng, pos);
    GrowOnFits(bag, k, m, rng, p, din, dout);
    if PositiveWeights(ws) || dout == 0 {
      assert PositiveWeights(ws) ==> PositiveWeights(bag);
      WFitsDefined(NewTree(ws, k, m, rng, pos, din, dout).0, bag, din, dout);
    }
  }

  /** Every tree has a defined prediction for x. */
  predicate AllDefined(trees: seq<WTree>, x: Vec)
    requires AllCover(trees, x)
  {
    forall k | 0 <= k < |trees| :: Predict(trees[k], x).Ok?
  }

  /** Each tree's prediction for x, in list order. */
  function TreePredictions(trees: seq<WTree>, x: Vec): (ps: seq<Vec>)
    requires AllCover(trees, x) && AllDefined(trees, x)
    ensures |ps| == |trees| && forall k | 0 <= k < |trees| :: Ok(ps[k]) == Predict(trees[k], x)
  {
    seq(|trees|, k requires 0 <= k < |trees| => Predict(trees[k], x).value)
  }

  /**
   * The forest's prediction: an input too short for some tree throws; a tree
   * without a defined prediction makes the mean undefined; otherwise the
   * component-wise mean of the tree predictions, which for a forest without
   * trees is undefined (0 / 0) unless there are no components at all.
   */
  function ForestPredict(trees: seq<WTree>, x: Vec, din: nat, dout: nat): (y: Result<Vec>)
    requires forall k | 0 <= k < |trees| :: WShaped(trees[k], din, dout)
    ensures y.Ok? ==> |y.value| == dout
  {
    if !AllCover(trees, x) then Err(OutOfRange)
    else if !AllDefined(trees, x) then Err(Undefined)
    else if trees == [] then (if dout == 0 then Ok([]) else Err(NotFitted))
    else
      PredictionsShaped(trees, x, din, dout);
      Ok(Mean(TreePredictions(trees, x), dout))
  }

  lemma PredictionsShaped(trees: seq<WTree>, x: Vec, din: nat, dout: nat)
    requires forall k | 0 <= k < |trees| :: WShaped(trees[k], din, dout)
    requires AllCover(trees, x) && AllDefined(trees, x)
    ensures SameLength(TreePredictions(trees, x), dout) && Wide(TreePredictions(trees, x), dout)
  {
    forall k | 0 <= k < |trees| ensures |TreePredictions(trees, x)[k]| == dout {
      assert Predict(trees[k], x) in LeafOutputs(trees[k]);
    }
  }

  /**
   * An input at least as wide as the training inputs is always answered when
   * every leaf has a defined value and there are trees (or no components),
   * and the answer has dout components.
   */
  lemma ForestPredictDefined(trees: seq<WTree>, x: Vec, din: nat, dout: nat)
    requires forall k | 0 <= k < |trees| :: WShaped(trees[k], din, dout) && Defined(trees[k])
    requires (|trees| > 0 || dout == 0) && |x| >= din
    ensures ForestPredict(trees, x, din, dout).Ok?
    ensures |ForestPredict(trees, x, din, dout).value| == dout
  {
    forall k | 0 <= k < |trees| ensures CoversPath(trees[k], x) {
      RoutableWider(trees[k], din, |x|);
      RoutableCoversPath(trees[k], x);
    }
    forall k | 0 <= k < |trees| ensures Predict(trees[k], x).Ok? {
      assert Predict(trees[k], x) in LeafOutputs(trees[k]);
    }
  }

  /** A forest of one tree predicts what the tree predicts, and is undefined where the tree is. */
  lemma SingleTreeForest(t: WTree, x: Vec, din: nat, dout: nat)
    requires WShaped(t, din, dout) && CoversPath(t, x)
    ensures Predict(t, x).Ok? ==> ForestPredict([t], x, din, dout) == Predict(t, x)
    ensures Predict(t, x).Err? ==> ForestPredict([t], x, din, dout) == Err(Undefined)
  {
    assert AllCover([t], x);
    if Predict(t, x).Ok? {
      var ps := TreePredictions([t], x);
      PredictionsShaped([t], x, din, dout);
      assert ps == seq(1, _ => Predict(t, x).value);
      MeanOfCopies(Predict(t, x).value, 1);
    } else {
      assert [t][0] == t && !AllDefined([t], x);
    }
  }

  /** The order of the trees does not matter. */
  lemma ForestPredictOrder(trees: seq<WTree>, others: seq<WTree>, x: Vec, din: nat, dout: nat)
    requires forall k | 0 <= k < |trees| :: WShaped(trees[k], din, dout)
    requires multiset(others) == multiset(trees)
    ensures forall k | 0 <= k < |others| :: WShaped(others[k], din, dout)
    ensures ForestPredict(others, x, din, dout) == ForestPredict(trees, x, din, dout)
  {
    assert |others| == |multiset(others)| == |trees|;
    forall k | 0 <= k < |others| ensures WShaped(others[k], din, dout) && (AllCover(trees, x) ==> CoversPath(others[k], x)) {
      assert others[k] in multiset(others);
    }
    forall k | 0 <= k < |trees| ensures AllCover(others, x) ==> CoversPath(trees[k], x) {
      assert trees[k] in multiset(trees);
    }
    assert AllCover(trees, x) <==> AllCover(others, x);
    if AllCover(trees, x) {
      forall k | 0 <= k < |others| ensures AllDefined(trees, x) ==> Predict(others[k], x).Ok? {
        assert others[k] in multiset(others);
      }
      forall k | 0 <= k < |trees| ensures AllDefined(others, x) ==> Predict(trees[k], x).Ok? {
        assert trees[k] in multiset(trees);
      }
      assert AllDefined(trees, x) <==> AllDefined(others, x);
    }
    assert trees == [] <==> others == [];
    if AllCover(trees, x) && AllDefined(trees, x) && trees != [] {
      var a, b := TreePredictions(trees, x), TreePredictions(others, x);
      PredictionsShaped(trees, x, din, dout);
      PredictionsShaped(others, x, din, dout);
      MapPermutation(trees, others, x);
      forall i | 0 <= i < dout ensures Mean(b, dout)[i] == Mean(a, dout)[i] {
        ColumnSumPermutation(a, b, i);
      }
      assert Mean(b, dout) == Mean(a, dout);
    }
  }

  /** Predicting with each tree commutes with reordering the trees. */
  lemma MapPermutation(trees: seq<WTree>, others: seq<WTree>, x: Vec)
    requires AllCover(trees, x) && AllCover(others, x) && AllDefined(trees, x) && AllDefined(others, x)
    requires multiset(others) == multiset(trees)
    ensures multiset(TreePredictions(others, x)) == multiset(TreePredictions(trees, x))
  {
    var g := (t: WTree) => if CoversPath(t, x) && Predict(t, x).Ok? then Predict(t, x).value else [];
    MapPermutes(g, others, trees);
    assert TreePredictions(others, x) == Map(g, others);
    assert TreePredictions(trees, x) == Map(g, trees);
  }

  class WeightedRandomForest {
    const outputComponentCount: nat
    const allXComponents: seq<int>
    const xComponentCount: int
    const minSamplesPerLeaf: int
    var trees: seq<WTree>

    /** The components are 0, ..., din-1 and every tree has the forest's shape. */
    ghost predicate Valid()
      reads this
    {
      && allXComponents == Range(|allXComponents|)
      && minSamplesPerLeaf >= 0
      && forall k | 0 <= k < |trees| :: WShaped(trees[k], |allXComponents|, outputComponentCount)
    }

    constructor Empty(din: nat, dout: nat, xComponentCount: int, minSamplesPerLeaf: int)
      requires minSamplesPerLeaf >= 0
      ensures Valid() && trees == []
      ensures allXComponents == Range(din) && outputComponentCount == dout
      ensures this.xComponentCount == xComponentCount && this.minSamplesPerLeaf == minSamplesPerLeaf
    {
      outputComponentCount := dout;
      allXComponents := Range(din);
      this.xComponentCount := xComponentCount;
      this.minSamplesPerLeaf := minSamplesPerLeaf;
      trees := [];
    }

    /**
     * The constructor: an empty list throws; otherwise the dimensions come
     * from the first sample and treeCount trees are added, one after another.
     */
    static method Build(ws: seq<WeightedSample>, xComponentCount: int, treeCount: int, minSamplesPerLeaf: int,
                        rng: Stream, pos: nat, din: nat, dout: nat)
      returns (r: Result<WeightedRandomForest>, pos': nat)
      requires WUniform(ws, din, dout) && minSamplesPerLeaf >= 0
      ensures |ws| == 0 ==> r == Err(EmptySamples) && pos' == pos
      ensures |ws| > 0 ==> r.Ok? && fresh(r.value) && r.value.Valid()
      ensures r.Ok? ==>
        && r.value.allXComponents == Range(din) && r.value.outputComponentCount == dout
        && |r.value.trees| == (if treeCount < 0 then 0 else treeCount)
        && (r.value.trees, pos') == GrownTrees(ws, treeCount, xComponentCount, minSamplesPerLeaf, rng, pos, din, dout)
    {
      if |ws| == 0 {
        return Err(EmptySamples), pos;
      }
      var forest := new WeightedRandomForest.Empty(|ws[0].input|, |ws[0].output|, xComponentCount, minSamplesPerLeaf);
      pos' := pos;
      var t := 0;
      while t < treeCount
        invariant forest.Valid() && forest.allXComponents == Range(din) && forest.outputComponentCount == dout
        invariant forest.xComponentCount == xComponentCount && forest.minSamplesPerLeaf == minSamplesPerLeaf
        invariant 0 <= t <= (if treeCount < 0 then 0 else treeCount)
        invariant (forest.trees, pos') == GrownTrees(ws, t, xComponentCount, minSamplesPerLeaf, rng, pos, din, dout)
        invariant |forest.trees| == t
        modifies forest
      {
        GrownTreesStep(ws, t, xComponentCount, minSamplesPerLeaf, rng, pos, din, dout);
        var a, p := forest.AddTree(ws, rng, pos', din, dout);
        pos' := p;
        t := t + 1;
      }
      return Ok(forest), pos';
    }

    /** AddTree: appends the tree NewTree describes; with no samples the tree constructor throws and nothing is added. */
    method AddTree(ws: seq<WeightedSample>, rng: Stream, pos: nat, din: nat, dout: nat) returns (r: Result<()>, pos': nat)
      requires Valid() && din == |allXComponents| && dout == outputComponentCount && WUniform(ws, din, dout)
      modifies this
      ensures Valid()
      ensures |ws| == 0 ==> r == Err(EmptySamples) && trees == old(trees) && pos' == pos + din
      ensures |ws| > 0 ==>
        var nt := NewTree(ws, xComponentCount, minSamplesPerLeaf, rng, pos, din, dout);
        r == Ok(()) && trees == old(trees) + [nt.0] && pos' == nt.1
    {
      var bag, p := Resample(ws, rng, pos);
      BagUniform(ws, rng, pos, din, dout);
      var (shuffled, p1) := Shuffle(allXComponents, rng, p);
      var comps := Take(shuffled, xComponentCount);
      ShuffledFeaturesInRange(din, xComponentCount, rng, p);
      var t, p2 := WeightedRandomTree(bag, comps, minSamplesPerLeaf, rng, p1, din, dout);
      if t.Err? {
        return Err(t.error), p2;
      }
      NewTreeFacts(ws, xComponentCount, minSamplesPerLeaf, rng, pos, din, dout);
      trees := trees + [t.value];
      return Ok(()), p2;
    }

    /**
     * Predict: sums the tree predictions component by component, then divides
     * by the number of trees. An undefined tree prediction leaves the sum
     * undefined, but the later trees are still consulted and may throw.
     */
    method Predict(x: Vec) returns (y: Result<Vec>)
      requires Valid()
      ensures y == ForestPredict(trees, x, |allXComponents|, outputComponentCount)
    {
      var din, dout := |allXComponents|, outputComponentCount;
      var acc := new real[dout](_ => 0.0);
      var undefined := false;
      ghost var ps: seq<Vec> := [];
      var k := 0;
      while k < |trees|
        invariant 0 <= k <= |trees| && acc.Length == dout
        invariant AllCover(trees[..k], x) && (undefined <==> !AllDefined(trees[..k], x))
        invariant !undefined ==> ps == TreePredictions(trees[..k], x) && Wide(ps, dout)
        invariant !undefined ==> forall i | 0 <= i < dout :: acc[i] == ColumnSum(ps, i)
      {
        assert trees[..k + 1] == trees[..k] + [trees[k]];
        if !CoversPath(trees[k], x) {
          assert !AllCover(trees, x);
          return Err(OutOfRange);
        }
        var prediction := Trees.Predict(trees[k], x);
        if prediction.Err? {
          undefined := true;
        } else if !undefined {
          var p := prediction.value;
          assert |p| == dout;
          AddInto(acc, p);
          forall i | 0 <= i < dout ensures acc[i] == ColumnSum(ps + [p], i) {
            ColumnSumAppend(ps, [p], i);
          }
          ps := ps + [p];
        }
        k := k + 1;
      }
      assert trees[..k] == trees;
      if undefined {
        return Err(Undefined);
      }
      if |trees| == 0 {
        return if dout == 0 then Ok([]) else Err(NotFitted);
      }
      DivideBy(acc, |trees| as real);
      assert acc[..] == Mean(ps, dout);
      y := Ok(acc[..]);
    }

    /** CountNodes: the node counts of all trees added up. */
    method CountNodes() returns (count: int)
      ensures count == TotalSize(trees)
    {
      count := 0;
      var k := 0;
      while k < |trees|
        invariant 0 <= k <= |trees|
        invariant count == TotalSize(trees[..k])
      {
        assert trees[..k + 1][..k] == trees[..k];
        count := Trees.CountNodes(trees[k], count);
        k := k + 1;
      }
      assert trees[..k] == trees;
    }
  }

  /** The trees the constructor adds, in order, and the stream position after them. */
  function GrownTrees(ws: seq<WeightedSample>, count: int, k: int, m: int, rng: Stream, pos: nat, din: nat, dout: nat)
    : (r: (seq<WTree>, nat))
    requires WUniform(ws, din, dout) && m >= 0
    ensures |r.0| == (if count < 0 || |ws| == 0 then 0 else count)
    ensures forall j | 0 <= j < |r.0| :: WShaped(r.0[j], din, dout)
    ensures PositiveWeights(ws) || dout == 0 ==> forall j | 0 <= j < |r.0| :: Defined(r.0[j])
    decreases if count < 0 then 0 else count
  {
    if count <= 0 || |ws| == 0 then ([], pos)
    else
      var (ts, p) := GrownTrees(ws, count - 1, k, m, rng, pos, din, dout);
      NewTreeFacts(ws, k, m, rng, p, din, dout);
      var (t, p') := NewTree(ws, k, m, rng, p, din, dout);
      (ts + [t], p')
  }

  /** One more tree: the next NewTree, read from where the previous trees stopped. */
  lemma GrownTreesStep(ws: seq<WeightedSample>, count: nat, k: int, m: int, rng: Stream, pos: nat, din: nat, dout: nat)
    requires |ws| > 0 && WUniform(ws, din, dout) && m >= 0
    ensures var g := GrownTrees(ws, count, k, m, rng, pos, din, dout);
      var nt := NewTree(ws, k, m, rng, g.1, din, dout);
      GrownTrees(ws, count + 1, k, m, rng, pos, din, dout) == (g.0 + [nt.0], nt.1)
  {
  }

  /**
   * A forest built on positive weights (or with no output components) answers
   * every input at least as wide as the training inputs with dout components,
   * when it was asked for at least one tree.
   */
  lemma GrownForestAnswers(ws: seq<WeightedSample>, count: int, k: int, m: int, rng: Stream, pos: nat, din: nat, dout: nat, x: Vec)
    requires |ws| > 0 && WUniform(ws, din, dout) && m >= 0 && (PositiveWeights(ws) || dout == 0)
    requires (count > 0 || dout == 0) && |x| >= din
    ensures var y := ForestPredict(GrownTrees(ws, count, k, m, rng, pos, din, dout).0, x, din, dout);
      y.Ok? && |y.value| == dout
  {
    ForestPredictDefined(GrownTrees(ws, count, k, m, rng, pos, din, dout).0, x, din, dout);
  }
}
