/**
 * HeavyResidualRandomForest.cs: residual boosting over whole random forests.
 *
 * Unlike ResidualRandomForest, every stage builds a fresh residual list from
 * the accumulators. A stage is RandomForest(samples, xComponentCount,
 * treeCount, minSamplesPerLeaf, threadCount); RandomForest.cs is not part of
 * this model, so a stage is a `Predictor` produced by a `Learner`, required
 * only to answer with outputComponentCount components.
 */
module HeavyResidualRandomForests {
  import opened Wrappers
  import opened Vectors
  import opened Samples
  import opened Boosting

  class HeavyResidualRandomForest {
    const outputComponentCount: nat
    const xComponentCount: int
    const treeCount: int
    const minSamplesPerLeaf: int
    const learningRate: real
    const threadCount: int
    /** RandomForest(samples, xComponentCount, treeCount, minSamplesPerLeaf, threadCount), for the stage of the given index. */
    const growForest: Learner<Predictor>
    var randomForests: seq<Predictor>

    ghost predicate Valid()
      reads this
    {
      LearnerWidth(growForest, outputComponentCount) && PredictorsWidth(randomForests, outputComponentCount)
    }

    constructor Empty(dout: nat, xComponentCount: int, treeCount: int, minSamplesPerLeaf: int, learningRate: real,
                      threadCount: int, growForest: Learner<Predictor>)
      requires LearnerWidth(growForest, dout)
      ensures Valid() && randomForests == []
      ensures outputComponentCount == dout && this.xComponentCount == xComponentCount && this.treeCount == treeCount
      ensures this.minSamplesPerLeaf == minSamplesPerLeaf && this.learningRate == learningRate
      ensures this.threadCount == threadCount && this.growForest == growForest
    {
      outputComponentCount := dout;
      this.xComponentCount := xComponentCount;
      this.treeCount := treeCount;
      this.minSamplesPerLeaf := minSamplesPerLeaf;
      this.learningRate := learningRate;
      this.threadCount := threadCount;
      this.growForest := growForest;
      randomForests := [];
    }

    /**
     * The constructor: an empty list throws; otherwise forestCount stages,
     * each a forest fitted on residuals rebuilt from the accumulators.
     */
    static method Build(samples: seq<Sample>, xComponentCount: int, forestCount: int, treeCount: int, minSamplesPerLeaf: int,
                        learningRate: real, threadCount: int, growForest: Learner<Predictor>, dout: nat)
      returns (r: Result<HeavyResidualRandomForest>)
      requires OutputWidth(samples, dout) && LearnerWidth(growForest, dout)
      ensures |samples| == 0 ==> r == Err(EmptySamples)
      ensures |samples| > 0 ==> r.Ok? && fresh(r.value) && r.value.Valid()
      ensures r.Ok? ==>
        && r.value.outputComponentCount == dout && r.value.learningRate == learningRate && r.value.growForest == growForest
        && LearnerAnswers(growForest, Apply, samples, dout)
        && r.value.randomForests == Stages(growForest, Apply, samples, learningRate, if forestCount < 0 then 0 else forestCount, dout)
    {
      if |samples| == 0 {
        return Err(EmptySamples);
      }
      LearnerAnswersAll(growForest, samples, dout);
      var forest := new HeavyResidualRandomForest.Empty(|samples[0].output|, xComponentCount, treeCount, minSamplesPerLeaf,
                                                        learningRate, threadCount, growForest);
      var accumulators, _ := StartResiduals(samples);
      ghost var none: seq<Predictor> := [];
      assert accumulators == Accumulators(none, Apply, learningRate, samples, dout);
      var t := 0;
      while t < forestCount
        invariant 0 <= t <= (if forestCount < 0 then 0 else forestCount)
        invariant forest.Valid() && forest.outputComponentCount == dout
        invariant forest.learningRate == learningRate && forest.growForest == growForest
        invariant forest.randomForests == Stages(growForest, Apply, samples, learningRate, t, dout)
        invariant accumulators == Accumulators(forest.randomForests, Apply, learningRate, samples, dout)
        modifies forest
      {
        ghost var before := forest.randomForests;
        var residuals := FreshResiduals(samples, accumulators);
        forest.AddForest(residuals);
        var stage := forest.randomForests[t];
        accumulators := UpdateStage(stage, before, learningRate, samples, accumulators, residuals, dout, growForest);
        t := t + 1;
      }
      return Ok(forest);
    }

    /** AddForest: builds one forest on the given samples and appends it. */
    method AddForest(samples: seq<Sample>)
      requires Valid()
      modifies this
      ensures Valid()
      ensures randomForests == old(randomForests) + [growForest(samples, |old(randomForests)|)]
    {
      var stage := growForest(samples, |randomForests|);
      randomForests := randomForests + [stage];
    }

    /** Predict: lr times each forest's prediction, added in stage order onto a zero accumulator. */
    method Predict(x: Vec) returns (y: Vec)
      requires Valid()
      ensures Answers(randomForests, Apply, x, outputComponentCount)
      ensures y == Boost(randomForests, Apply, learningRate, x, outputComponentCount)
    {
      PredictorsAnswer(randomForests, x, outputComponentCount);
      y := PredictSum(randomForests, Apply, learningRate, x, outputComponentCount);
    }
  }

  /** The update loop after a forest is added: each accumulator gains lr times the forest's prediction for its input. */
  method UpdateStage(stage: Predictor, ghost before: seq<Predictor>, lr: real, samples: seq<Sample>, accumulators: seq<Vec>,
                     residuals: seq<Sample>, dout: nat, ghost growForest: Learner<Predictor>)
    returns (accumulators': seq<Vec>)
    requires OutputWidth(samples, dout) && LearnerWidth(growForest, dout) && LearnerAnswers(growForest, Apply, samples, dout)
    requires before == Stages(growForest, Apply, samples, lr, |before|, dout)
    requires accumulators == Accumulators(before, Apply, lr, samples, dout)
    requires residuals == Residuals(samples, accumulators)
    requires stage == growForest(residuals, |before|)
    ensures before + [stage] == Stages(growForest, Apply, samples, lr, |before| + 1, dout)
    ensures accumulators' == Accumulators(before + [stage], Apply, lr, samples, dout)
  {
    forall i | 0 <= i < |residuals| ensures |Apply(stage, residuals[i].input)| == dout {
      assert residuals[i].input == samples[i].input;
    }
    accumulators' := Accumulate(stage, Apply, lr, residuals, accumulators, dout);
    forall i | 0 <= i < |samples| ensures accumulators'[i] == Add(accumulators[i], Scale(lr, Apply(stage, samples[i].input))) {
      assert residuals[i].input == samples[i].input;
    }
    NextAccumulators(before, stage, Apply, lr, samples, accumulators, accumulators', dout);
  }
}
