/**
 * Models/ResidualAggregator.cs: residual boosting over a fixed list of models.
 *
 * Fit marks the output length, then fits every model once, in list order, on
 * the current residual samples; after every model but the last it predicts
 * each residual input and rewrites the accumulators and residual outputs in
 * place. The models are those of Models/Model.cs, an interface whose
 * implementations are outside this file: model k's Fit followed by its
 * Predict is the parameter `fit`.
 */
module ResidualAggregators {
  import opened Wrappers
  import opened Vectors
  import opened Samples
  import opened Boosting

  /** Model k fitted on the given samples and features, seen through its Predict. */
  type ModelFit = (nat, seq<Sample>, seq<int>) -> Predictor

  /** Every fitted model answers every input with n components. */
  ghost predicate FitWidth(fit: ModelFit, n: nat)
  {
    forall k, s, f, x :: |fit(k, s, f)(x)| == n
  }

  /** The models as a booster's learner: stage k is model k fitted with the given features. */
  function Staged(fit: ModelFit, features: seq<int>): Learner<Predictor>
  {
    (s, k) => fit(k, s, features)
  }

  lemma StagedWidth(fit: ModelFit, features: seq<int>, n: nat)
    requires FitWidth(fit, n)
    ensures LearnerWidth(Staged(fit, features), n)
  {
    forall s, k, x ensures |Staged(fit, features)(s, k)(x)| == n {
      assert |fit(k, s, features)(x)| == n;
    }
  }

  class ResidualAggregator {
    const fit: ModelFit
    /** models.Count */
    const modelCount: nat
    const learningRate: real
    var outputLength: Option<nat>
    /** The fitted state of each model, in list order. */
    var fitted: seq<Predictor>

    /** Once fitted, every model is fitted and answers with outputLength components. */
    ghost predicate Valid()
      reads this
    {
      outputLength.Some? ==> |fitted| == modelCount && PredictorsWidth(fitted, outputLength.value)
    }

    constructor (learningRate: real, modelCount: nat, fit: ModelFit)
      ensures Valid() && outputLength.None? && fitted == []
      ensures this.learningRate == learningRate && this.modelCount == modelCount && this.fit == fit
    {
      this.learningRate := learningRate;
      this.modelCount := modelCount;
      this.fit := fit;
      outputLength := None;
      fitted := [];
    }

    /**
     * Fit: an empty list throws at samples[0] before anything changes;
     * otherwise outputLength is the output width and the models hold the
     * stages of residual boosting, each fitted on the residuals the models
     * before it leave.
     */
    method Fit(samples: seq<Sample>, features: seq<int>, dout: nat) returns (r: Result<()>)
      requires Valid() && OutputWidth(samples, dout) && FitWidth(fit, dout)
      modifies this
      ensures Valid()
      ensures |samples| == 0 ==> r == Err(OutOfRange) && outputLength == old(outputLength) && fitted == old(fitted)
      ensures |samples| > 0 ==>
        && r == Ok(()) && outputLength == Some(dout)
        && LearnerAnswers(Staged(fit, features), Apply, samples, dout)
        && fitted == Stages(Staged(fit, features), Apply, samples, learningRate, modelCount, dout)
    {
      if |samples| == 0 {
        return Err(OutOfRange);
      }
      var learn := Staged(fit, features);
      StagedWidth(fit, features, dout);
      StagesWidth(learn, samples, learningRate, modelCount, dout);
      outputLength := Some(|samples[0].output|);
      var accumulators, residuals := StartResiduals(samples);
      ghost var none: seq<Predictor> := [];
      assert accumulators == Accumulators(none, Apply, learningRate, samples, dout);
      fitted := [];
      for modelIndex := 0 to modelCount
        invariant outputLength == Some(dout)
        invariant fitted == Stages(learn, Apply, samples, learningRate, modelIndex, dout)
        invariant modelIndex < modelCount ==>
          accumulators == Accumulators(fitted, Apply, learningRate, samples, dout) && residuals == Residuals(samples, accumulators)
      {
        var model, accumulators', residuals' := FitStage(fit, modelIndex, modelIndex == modelCount - 1, features, learningRate,
                                                         samples, accumulators, residuals, fitted, dout);
        fitted := fitted + [model];
        accumulators, residuals := accumulators', residuals';
      }
      StagesWidth(learn, samples, learningRate, modelCount, dout);
      return Ok(());
    }

    /** Predict: throws before Fit; otherwise lr times each model's prediction, added in list order onto a zero accumulator. */
    method Predict(x: Vec) returns (y: Result<Vec>)
      requires Valid()
      ensures outputLength.None? ==> y == Err(NotFitted)
      ensures outputLength.Some? ==>
        Answers(fitted, Apply, x, outputLength.value) && y == Ok(Boost(fitted, Apply, learningRate, x, outputLength.value))
    {
      if outputLength.None? {
        return Err(NotFitted);
      }
      PredictorsAnswer(fitted, x, outputLength.value);
      var accumulator := PredictSum(fitted, Apply, learningRate, x, outputLength.value);
      return Ok(accumulator);
    }
  }

  /**
   * One pass of Fit's model loop: model k is fitted on the residuals; unless
   * it is the last model, every accumulator gains lr times its prediction for
   * the sample's input and the residual outputs are rewritten. The last
   * model's predictions update nothing.
   */
  method FitStage(fit: ModelFit, k: nat, last: bool, features: seq<int>, lr: real, samples: seq<Sample>,
                  accumulators: seq<Vec>, residuals: seq<Sample>, ghost before: seq<Predictor>, dout: nat)
    returns (model: Predictor, accumulators': seq<Vec>, residuals': seq<Sample>)
    requires OutputWidth(samples, dout) && FitWidth(fit, dout)
    requires !last ==>
      && (forall i | 0 <= i < |samples| :: Answers(before, Apply, samples[i].input, dout))
      && accumulators == Accumulators(before, Apply, lr, samples, dout)
      && residuals == Residuals(samples, accumulators)
    ensures model == fit(k, residuals, features)
    ensures last ==> accumulators' == accumulators && residuals' == residuals
    ensures !last ==>
      && (forall i | 0 <= i < |samples| :: Answers(before + [model], Apply, samples[i].input, dout))
      && accumulators' == Accumulators(before + [model], Apply, lr, samples, dout)
      && residuals' == Residuals(samples, accumulators')
  {
    model := fit(k, residuals, features);
    if last {
      return model, accumulators, residuals;
    }
    var predictions := PredictInputs(model, Apply, residuals);
    forall i | 0 <= i < |samples| ensures predictions[i] == Apply(model, samples[i].input) && |predictions[i]| == dout {
      assert residuals[i].input == samples[i].input;
    }
    accumulators', residuals' := ApplyPredictions(predictions, lr, samples, accumulators, residuals, dout);
    NextAccumulators(before, model, Apply, lr, samples, accumulators, accumulators', dout);
  }
}
