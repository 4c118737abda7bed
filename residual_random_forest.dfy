/**
 * ResidualRandomForest.cs: residual boosting over random trees.
 *
 * The residual samples are built once and their outputs rewritten in place
 * after every stage. Each stage's tree comes from the constructor
 * RandomTree(new Random(), samples, minSamplesPerLeaf, splitAttempts); that
 * overload is not part of this model, so the forest receives it as a
 * `Learner`, and only what the forest relies on is required of it: its trees
 * test input components below din and their leaves have dout components.
 */
module ResidualRandomForests {
  import opened Wrappers
  import opened Vectors
  import opened Samples
  import opened Trees
  import opened Boosting

  /** A tree's prediction where its path is covered (callers check coverage before asking). */
  function TreeOutput(t: Tree, x: Vec): (y: Vec)
    ensures CoversPath(t, x) ==> y == Predict(t, x)
  {
    if CoversPath(t, x) then Predict(t, x) else []
  }

  /** Every tree the constructor can build has leaves with dout components. */
  ghost predicate LeavesWidth(grow: Learner<Tree>, dout: nat)
  {
    forall s, t :: LeafWidth(grow(s, t), dout)
  }

  /** Every tree the constructor can build tests components below din and has dout-component leaves. */
  ghost predicate Grows(grow: Learner<Tree>, din: nat, dout: nat)
  {
    LeavesWidth(grow, dout) && forall s, t :: Routable(grow(s, t), din)
  }

  /** Such trees answer every training input with dout components. */
  lemma GrowsAnswers(grow: Learner<Tree>, samples: seq<Sample>, din: nat, dout: nat)
    requires Grows(grow, din, dout) && Uniform(samples, din, dout)
    ensures LearnerAnswers(grow, TreeOutput, samples, dout)
  {
    forall s, t, i | 0 <= i < |samples| ensures |TreeOutput(grow(s, t), samples[i].input)| == dout {
      RoutableCoversPath(grow(s, t), samples[i].input);
      PredictWidth(grow(s, t), samples[i].input, dout);
    }
  }

  /**
   * The forest's answer: an input too short for some tree throws; otherwise
   * the boosted sum of the tree predictions.
   */
  function BoostedPredict(trees: seq<Tree>, lr: real, x: Vec, dout: nat): (y: Result<Vec>)
    requires forall k | 0 <= k < |trees| :: LeafWidth(trees[k], dout)
    ensures y.Ok? <==> AllCover(trees, x)
    ensures y.Ok? ==> |y.value| == dout
  {
    if !AllCover(trees, x) then Err(OutOfRange)
    else
      CoveredAnswers(trees, x, dout);
      Ok(Boost(trees, TreeOutput, lr, x, dout))
  }

  lemma CoveredAnswers(trees: seq<Tree>, x: Vec, dout: nat)
    requires forall k | 0 <= k < |trees| :: LeafWidth(trees[k], dout)
    requires AllCover(trees, x)
    ensures Answers(trees, TreeOutput, x, dout)
  {
    forall k | 0 <= k < |trees| ensures |TreeOutput(trees[k], x)| == dout {
      PredictWidth(trees[k], x, dout);
    }
  }

  /**
   * After t stages, the forest's answer for a training input is that
   * sample's accumulator, and the sample's residual is its output less it.
   */
  lemma TrainingPrediction(grow: Learner<Tree>, samples: seq<Sample>, lr: real, t: nat, din: nat, dout: nat, i: nat)
    requires Grows(grow, din, dout) && Uniform(samples, din, dout) && i < |samples|
    ensures LearnerAnswers(grow, TreeOutput, samples, dout) && OutputWidth(samples, dout)
    ensures var trees := Stages(grow, TreeOutput, samples, lr, t, dout);
      && (forall k | 0 <= k < |trees| :: LeafWidth(trees[k], dout))
      && BoostedPredict(trees, lr, samples[i].input, dout) == Ok(Accumulators(trees, TreeOutput, lr, samples, dout)[i])
      && StageResiduals(grow, TreeOutput, samples, lr, t, dout)[i].output
         == Sub(samples[i].output, Accumulators(trees, TreeOutput, lr, samples, dout)[i])
  {
    GrowsAnswers(grow, samples, din, dout);
    var trees := Stages(grow, TreeOutput, samples, lr, t, dout);
    StagesGrown(grow, samples, lr, t, din, dout);
    forall k | 0 <= k < |trees| ensures CoversPath(trees[k], samples[i].input) {
      RoutableCoversPath(trees[k], samples[i].input);
    }
    var acc := Accumulators(trees, TreeOutput, lr, samples, dout)[i];
    var res := StageResiduals(grow, TreeOutput, samples, lr, t, dout)[i].output;
    assert res == Sub(samples[i].output, acc) by {
      assert Add(res, acc) == samples[i].output;
      forall j | 0 <= j < dout ensures res[j] == samples[i].output[j] - acc[j] {
        assert Add(res, acc)[j] == res[j] + acc[j];
      }
    }
  }

  /** Every stage tree is one the constructor built, so it has the constructor's shape. */
  lemma {:induction false} StagesGrown(grow: Learner<Tree>, samples: seq<Sample>, lr: real, t: nat, din: nat, dout: nat)
    requires Grows(grow, din, dout) && Uniform(samples, din, dout)
    requires LearnerAnswers(grow, TreeOutput, samples, dout)
    ensures forall k | 0 <= k < t :: Shaped(Stages(grow, TreeOutput, samples, lr, t, dout)[k], din, dout)
    decreases t
  {
    if t > 0 {
      StagesGrown(grow, samples, lr, t - 1, din, dout);
      var before := Stages(grow, TreeOutput, samples, lr, t - 1, dout);
      assert Stages(grow, TreeOutput, samples, lr, t, dout)[..t - 1] == before;
    }
  }

  class ResidualRandomForest {
    const outputComponentCount: nat
    const minSamplesPerLeaf: int
    const splitAttempts: int
    const learningRate: real
    /** RandomTree(new Random(), samples, minSamplesPerLeaf, splitAttempts), for the stage of the given index. */
    const grow: Learner<Tree>
    var randomTrees: seq<Tree>

    /** Every tree, added or still to come, has leaves with outputComponentCount components. */
    ghost predicate Valid()
      reads this
    {
      && LeavesWidth(grow, outputComponentCount)
      && forall k | 0 <= k < |randomTrees| :: LeafWidth(randomTrees[k], outputComponentCount)
    }

    constructor Empty(dout: nat, minSamplesPerLeaf: int, splitAttempts: int, learningRate: real, grow: Learner<Tree>)
      requires LeavesWidth(grow, dout)
      ensures Valid() && randomTrees == []
      ensures outputComponentCount == dout && this.minSamplesPerLeaf == minSamplesPerLeaf
      ensures this.splitAttempts == splitAttempts && this.learningRate == learningRate && this.grow == grow
    {
      outputComponentCount := dout;
      this.minSamplesPerLeaf := minSamplesPerLeaf;
      this.splitAttempts := splitAttempts;
      this.learningRate := learningRate;
      this.grow := grow;
      randomTrees := [];
    }

    /**
     * The constructor: an empty list throws; otherwise treeCount stages,
     * each a tree fitted on the residuals the trees before it leave.
     */
    static method Build(samples: seq<Sample>, treeCount: int, minSamplesPerLeaf: int, splitAttempts: int,
                        learningRate: real, grow: Learner<Tree>, din: nat, dout: nat)
      returns (r: Result<ResidualRandomForest>)
      requires Uniform(samples, din, dout) && Grows(grow, din, dout)
      ensures |samples| == 0 ==> r == Err(EmptySamples)
      ensures |samples| > 0 ==> r.Ok? && fresh(r.value) && r.value.Valid()
      ensures r.Ok? ==>
        && r.value.outputComponentCount == dout && r.value.learningRate == learningRate && r.value.grow == grow
        && OutputWidth(samples, dout) && LearnerAnswers(grow, TreeOutput, samples, dout)
        && r.value.randomTrees == Stages(grow, TreeOutput, samples, learningRate, if treeCount < 0 then 0 else treeCount, dout)
    {
      if |samples| == 0 {
        return Err(EmptySamples);
      }
      GrowsAnswers(grow, samples, din, dout);
      var forest := new ResidualRandomForest.Empty(|samples[0].output|, minSamplesPerLeaf, splitAttempts, learningRate, grow);
      var accumulators, residuals := StartResiduals(samples);
      assert accumulators == Accumulators([], TreeOutput, learningRate, samples, dout);
      var t := 0;
      while t < treeCount
        invariant 0 <= t <= (if treeCount < 0 then 0 else treeCount)
        invariant forest.Valid() && forest.outputComponentCount == dout
        invariant forest.learningRate == learningRate && forest.grow == grow
        invariant forest.randomTrees == Stages(grow, TreeOutput, samples, learningRate, t, dout)
        invariant accumulators == Accumulators(forest.randomTrees, TreeOutput, learningRate, samples, dout)
        invariant residuals == Residuals(samples, accumulators)
        modifies forest
      {
        ghost var before := forest.randomTrees;
        forest.AddTree(residuals);
        var tree := forest.randomTrees[t];
        accumulators, residuals := UpdateStage(tree, before, learningRate, samples, accumulators, residuals, din, dout, grow);
        t := t + 1;
      }
      return Ok(forest);
    }

    /** AddTree: builds one tree on the given samples and appends it. */
    method AddTree(samples: seq<Sample>)
      requires Valid()
      modifies this
      ensures Valid()
      ensures randomTrees == old(randomTrees) + [grow(samples, |old(randomTrees)|)]
    {
      var tree := grow(samples, |randomTrees|);
      randomTrees := randomTrees + [tree];
    }

    /**
     * Predict: lr times each tree's prediction, added in tree order onto a
     * zero accumulator; an input too short for a tree throws.
     */
    method Predict(x: Vec) returns (y: Result<Vec>)
      requires Valid()
      ensures y == BoostedPredict(randomTrees, learningRate, x, outputComponentCount)
    {
      var acc := Zeros(outputComponentCount);
      for k := 0 to |randomTrees|
        invariant AllCover(randomTrees[..k], x) && Answers(randomTrees[..k], TreeOutput, x, outputComponentCount)
        invariant acc == Boost(randomTrees[..k], TreeOutput, learningRate, x, outputComponentCount)
      {
        if !CoversPath(randomTrees[k], x) {
          return Err(OutOfRange);
        }
        var prediction := Trees.Predict(randomTrees[k], x);
        PredictWidth(randomTrees[k], x, outputComponentCount);
        acc := AddScaled(acc, learningRate, prediction);
        assert randomTrees[..k + 1][..k] == randomTrees[..k];
      }
      assert randomTrees[..|randomTrees|] == randomTrees;
      return Ok(acc);
    }

    /** CountNodes: the node counts of all trees added up. */
    method CountNodes() returns (count: int)
      ensures count == TotalSize(randomTrees)
    {
      count := 0;
      for k := 0 to |randomTrees|
        invariant count == TotalSize(randomTrees[..k])
      {
        assert randomTrees[..k + 1][..k] == randomTrees[..k];
        count := Trees.CountNodes(randomTrees[k], count);
      }
      assert randomTrees[..|randomTrees|] == randomTrees;
    }
  }

  /**
   * The update loop after a tree is added: each residual sample's input goes
   * to the new tree, and its accumulator and residual output are rewritten.
   */
  method UpdateStage(tree: Tree, ghost before: seq<Tree>, lr: real, samples: seq<Sample>, accumulators: seq<Vec>, residuals: seq<Sample>,
                     din: nat, dout: nat, ghost grow: Learner<Tree>)
    returns (accumulators': seq<Vec>, residuals': seq<Sample>)
    requires Uniform(samples, din, dout) && Grows(grow, din, dout) && LearnerAnswers(grow, TreeOutput, samples, dout)
    requires |samples| > 0 && before == Stages(grow, TreeOutput, samples, lr, |before|, dout)
    requires tree == grow(residuals, |before|)
    requires accumulators == Accumulators(before, TreeOutput, lr, samples, dout)
    requires residuals == Residuals(samples, accumulators)
    ensures before + [tree] == Stages(grow, TreeOutput, samples, lr, |before| + 1, dout)
    ensures accumulators' == Accumulators(before + [tree], TreeOutput, lr, samples, dout)
    ensures residuals' == Residuals(samples, accumulators')
  {
    forall i | 0 <= i < |samples| ensures |TreeOutput(tree, samples[i].input)| == dout {
    }
    accumulators', residuals' := ApplyStage(tree, TreeOutput, lr, samples, accumulators, residuals, dout);
    NextAccumulators(before, tree, TreeOutput, lr, samples, accumulators, accumulators', dout);
  }
}
