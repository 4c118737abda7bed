/**
 * ResidualPredictor.cs: residual boosting that keeps its training state.
 *
 * The object holds the samples, the per-sample accumulators, the residual
 * samples and the models; every AddModel() builds one more model on the
 * current residuals and rewrites the accumulators and residual outputs in
 * place. The protected AddModel(residuals) and Predict(model, input) are
 * supplied by subclasses outside this model: here the first is the parameter
 * `build`, and the predictions it returns are the new model's predictions
 * for the residual inputs.
 */
module ResidualPredictors {
  import opened Wrappers
  import opened Vectors
  import opened Samples
  import opened Boosting

  class ResidualPredictor {
    const samples: seq<Sample>
    const learningRate: real
    /** The subclass's AddModel(residuals), for the model of the given index. */
    const build: Learner<Predictor>
    /** The output width of the samples. */
    const outputWidth: nat
    var accumulators: seq<Vec>
    var residuals: seq<Sample>
    var models: seq<Predictor>

    /**
     * The models are the stages of residual boosting on the samples, every
     * accumulator is the boosted prediction for its sample's input, and every
     * residual output is the sample's output less its accumulator.
     */
    ghost predicate Valid()
      reads this
    {
      && OutputWidth(samples, outputWidth) && LearnerWidth(build, outputWidth)
      && LearnerAnswers(build, Apply, samples, outputWidth)
      && models == Stages(build, Apply, samples, learningRate, |models|, outputWidth)
      && accumulators == Accumulators(models, Apply, learningRate, samples, outputWidth)
      && residuals == Residuals(samples, accumulators)
    }

    /** The constructor: zero accumulators, residuals equal to the samples, then modelCount calls of AddModel(). */
    constructor (samples: seq<Sample>, learningRate: real, modelCount: int, build: Learner<Predictor>, dout: nat)
      requires OutputWidth(samples, dout) && LearnerWidth(build, dout)
      ensures Valid() && this.samples == samples && this.learningRate == learningRate && this.build == build
      ensures outputWidth == dout && |models| == (if modelCount < 0 then 0 else modelCount)
      ensures models == Stages(build, Apply, samples, learningRate, |models|, dout)
    {
      this.samples := samples;
      this.learningRate := learningRate;
      this.build := build;
      outputWidth := dout;
      var accs, rs := StartResiduals(samples);
      accumulators := accs;
      residuals := rs;
      models := [];
      new;
      LearnerAnswersAll(build, samples, dout);
      ghost var none: seq<Predictor> := [];
      assert accumulators == Accumulators(none, Apply, learningRate, samples, dout);
      var modelIndex := 0;
      while modelIndex < modelCount
        invariant 0 <= modelIndex <= (if modelCount < 0 then 0 else modelCount)
        invariant Valid() && |models| == modelIndex
        invariant this.samples == samples && this.learningRate == learningRate && this.build == build && outputWidth == dout
      {
        AddModel();
        modelIndex := modelIndex + 1;
      }
    }

    /**
     * AddModel(): one more model, built on the current residuals; every
     * accumulator gains lr times its prediction for the sample's input and
     * the residual outputs are rewritten.
     */
    method AddModel()
      requires Valid()
      modifies this
      ensures Valid()
      ensures models == old(models) + [build(old(residuals), |old(models)|)]
    {
      var model := build(residuals, |models|);
      var predictions := PredictInputs(model, Apply, residuals);
      forall i | 0 <= i < |samples| ensures predictions[i] == Apply(model, samples[i].input) && |predictions[i]| == outputWidth {
        assert residuals[i].input == samples[i].input;
      }
      ghost var before := models;
      models := models + [model];
      var accs, rs := ApplyPredictions(predictions, learningRate, samples, accumulators, residuals, outputWidth);
      NextAccumulators(before, model, Apply, learningRate, samples, accumulators, accs, outputWidth);
      accumulators, residuals := accs, rs;
    }

    /**
     * Predict: the accumulator has samples[0].output.Length components, so
     * with no samples it throws; otherwise lr times each model's prediction,
     * added in model order onto a zero accumulator.
     */
    method Predict(x: Vec) returns (y: Result<Vec>)
      requires Valid()
      ensures |samples| == 0 ==> y == Err(OutOfRange)
      ensures |samples| > 0 ==>
        Answers(models, Apply, x, outputWidth) && y == Ok(Boost(models, Apply, learningRate, x, outputWidth))
    {
      if |samples| == 0 {
        return Err(OutOfRange);
      }
      StagesWidth(build, samples, learningRate, |models|, outputWidth);
      PredictorsAnswer(models, x, outputWidth);
      var accumulator := PredictSum(models, Apply, learningRate, x, |samples[0].output|);
      return Ok(accumulator);
    }
  }
}
