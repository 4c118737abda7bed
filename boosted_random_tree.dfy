/**
 * BoostedRandomTree.cs: residual boosting over random trees.
 *
 * The constructor keeps one running prediction per sample, starting at zero;
 * every stage builds a fresh residual list (output less running prediction),
 * grows a tree on it, appends the tree and adds lr times the tree's
 * prediction to every running prediction. The trees are built by a
 * RandomTree(random, samples, xComponents) constructor that RandomTree.cs
 * does not declare, so a stage is a `Predictor` produced by a `Learner`
 * (the shared Random is the stage index), required only to answer with the
 * output width.
 */
module BoostedRandomTrees {
  import opened Wrappers
  import opened Vectors
  import opened Samples
  import opened Boosting

  class BoostedRandomTree {
    const outputComponentCount: nat
    const learningRate: real
    /** RandomTree(random, samples, xComponents), for the stage of the given index. */
    const grow: Learner<Predictor>
    var randomTrees: seq<Predictor>

    ghost predicate Valid()
      reads this
    {
      LearnerWidth(grow, outputComponentCount) && PredictorsWidth(randomTrees, outputComponentCount)
    }

    constructor Empty(dout: nat, learningRate: real, grow: Learner<Predictor>)
      requires LearnerWidth(grow, dout)
      ensures Valid() && randomTrees == []
      ensures outputComponentCount == dout && this.learningRate == learningRate && this.grow == grow
    {
      outputComponentCount := dout;
      this.learningRate := learningRate;
      this.grow := grow;
      randomTrees := [];
    }

    /**
     * The constructor: reading samples[0] throws on an empty list; otherwise
     * treeCount stages (none when it is not positive), each a tree grown on
     * the residuals of the trees before it.
     */
    static method Build(samples: seq<Sample>, treeCount: int, learningRate: real, grow: Learner<Predictor>, dout: nat)
      returns (r: Result<BoostedRandomTree>)
      requires OutputWidth(samples, dout) && LearnerWidth(grow, dout)
      ensures |samples| == 0 ==> r == Err(OutOfRange)
      ensures |samples| > 0 ==> r.Ok? && fresh(r.value) && r.value.Valid()
      ensures r.Ok? ==>
        && r.value.outputComponentCount == dout && r.value.learningRate == learningRate && r.value.grow == grow
        && LearnerAnswers(grow, Apply, samples, dout)
        && r.value.randomTrees == Stages(grow, Apply, samples, learningRate, if treeCount < 0 then 0 else treeCount, dout)
    {
      if |samples| == 0 {
        return Err(OutOfRange);
      }
      LearnerAnswersAll(grow, samples, dout);
      var forest := new BoostedRandomTree.Empty(|samples[0].output|, learningRate, grow);
      var currentPredictions, _ := StartResiduals(samples);
      ghost var none: seq<Predictor> := [];
      assert currentPredictions == Accumulators(none, Apply, learningRate, samples, dout);
      var treeIndex := 0;
      while treeIndex < treeCount
        invariant 0 <= treeIndex <= (if treeCount < 0 then 0 else treeCount)
        invariant forest.Valid() && forest.outputComponentCount == dout
        invariant forest.learningRate == learningRate && forest.grow == grow
        invariant forest.randomTrees == Stages(grow, Apply, samples, learningRate, treeIndex, dout)
        invariant currentPredictions == Accumulators(forest.randomTrees, Apply, learningRate, samples, dout)
        modifies forest
      {
        currentPredictions := TrainStage(forest, samples, currentPredictions, dout);
        treeIndex := treeIndex + 1;
      }
      return Ok(forest);
    }

    /** Predict: lr times each tree's prediction, added in tree order onto a zero sum. */
    method Predict(x: Vec) returns (y: Vec)
      requires Valid()
      ensures Answers(randomTrees, Apply, x, outputComponentCount)
      ensures y == Boost(randomTrees, Apply, learningRate, x, outputComponentCount)
    {
      PredictorsAnswer(randomTrees, x, outputComponentCount);
      y := PredictSum(randomTrees, Apply, learningRate, x, outputComponentCount);
    }
  }

  /**
   * One pass of the constructor's tree loop: residuals built fresh from the
   * running predictions, one tree grown on them and appended, and the running
   * predictions advanced by it.
   */
  method TrainStage(forest: BoostedRandomTree, samples: seq<Sample>, currentPredictions: seq<Vec>, dout: nat)
    returns (currentPredictions': seq<Vec>)
    requires forest.Valid() && forest.outputComponentCount == dout
    requires OutputWidth(samples, dout) && LearnerAnswers(forest.grow, Apply, samples, dout)
    requires forest.randomTrees == Stages(forest.grow, Apply, samples, forest.learningRate, |forest.randomTrees|, dout)
    requires currentPredictions == Accumulators(forest.randomTrees, Apply, forest.learningRate, samples, dout)
    modifies forest
    ensures forest.Valid()
    ensures forest.randomTrees == Stages(forest.grow, Apply, samples, forest.learningRate, |old(forest.randomTrees)| + 1, dout)
    ensures currentPredictions' == Accumulators(forest.randomTrees, Apply, forest.learningRate, samples, dout)
  {
    ghost var before := forest.randomTrees;
    var residuals := FreshResiduals(samples, currentPredictions);
    var randomTree := forest.grow(residuals, |forest.randomTrees|);
    forest.randomTrees := forest.randomTrees + [randomTree];
    currentPredictions' := AddStage(randomTree, before, forest.learningRate, samples, currentPredictions, residuals, dout, forest.grow);
  }

  /**
   * The stage's last loop: every running prediction gains lr times the new
   * tree's prediction for the sample's input, so the running predictions are
   * again the boosted predictions of the trees so far.
   */
  method AddStage(randomTree: Predictor, ghost before: seq<Predictor>, lr: real, samples: seq<Sample>,
                  currentPredictions: seq<Vec>, residuals: seq<Sample>, dout: nat, ghost grow: Learner<Predictor>)
    returns (currentPredictions': seq<Vec>)
    requires OutputWidth(samples, dout) && LearnerWidth(grow, dout) && LearnerAnswers(grow, Apply, samples, dout)
    requires before == Stages(grow, Apply, samples, lr, |before|, dout)
    requires currentPredictions == Accumulators(before, Apply, lr, samples, dout)
    requires residuals == Residuals(samples, currentPredictions)
    requires randomTree == grow(residuals, |before|)
    ensures before + [randomTree] == Stages(grow, Apply, samples, lr, |before| + 1, dout)
    ensures currentPredictions' == Accumulators(before + [randomTree], Apply, lr, samples, dout)
  {
    forall i | 0 <= i < |samples| ensures |Apply(randomTree, samples[i].input)| == dout {
    }
    currentPredictions' := Accumulate(randomTree, Apply, lr, samples, currentPredictions, dout);
    NextAccumulators(before, randomTree, Apply, lr, samples, currentPredictions, currentPredictions', dout);
  }
}
