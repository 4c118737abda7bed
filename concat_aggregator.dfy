/**
 * Models/ConcatAggregator.cs: models side by side.
 *
 * Fit fits every model, in list order, on the same samples; Predict asks
 * every model about the same input and joins the answers end to end with
 * Utility.Concat, which reads vectors[0].Length and so throws when there
 * are no models. The models are those of Models/Model.cs, an interface
 * whose implementations are outside this file: model i's Fit followed by
 * its Predict is the parameter `fit`.
 */
module ConcatAggregators {
  import opened Wrappers
  import opened Vectors
  import opened Samples
  import opened Boosting
  import opened Bagging

  /** Model i fitted on the given samples, seen through its Predict. */
  type ModelFit = (nat, seq<Sample>) -> Predictor

  /** Model i after Fit: fitted on the samples themselves. */
  function ConcatModel(fit: ModelFit, samples: seq<Sample>, i: nat): Predictor
  {
    fit(i, samples)
  }

  /** The first count models after Fit. */
  function FittedModels(fit: ModelFit, samples: seq<Sample>, count: nat): (ms: seq<Predictor>)
    ensures |ms| == count
  {
    seq(count, i requires 0 <= i < count => ConcatModel(fit, samples, i))
  }

  /**
   * Predict, for models whose answers share one length: none throws;
   * otherwise the answers, in model order, end to end.
   */
  function Joined(models: seq<Predictor>, x: Vec): (y: Result<Vec>)
  {
    if models == [] then Err(OutOfRange) else Ok(Flatten(Predictions(Apply, models, x)))
  }

  /**
   * With every model answering n components, the joined answer has
   * models.Count * n components, and block k of it is model k's answer.
   */
  lemma JoinedBlocks(models: seq<Predictor>, x: Vec, n: nat, k: nat, j: nat)
    requires Answers(models, Apply, x, n) && |models| > 0 && k < |models| && j < n
    ensures Joined(models, x).Ok?
    ensures |Joined(models, x).value| == |models| * n
    ensures k * n + j < |models| * n && Joined(models, x).value[k * n + j] == models[k](x)[j]
  {
    FlattenAt(Predictions(Apply, models, x), n, k, j);
  }

  class ConcatAggregator {
    const fit: ModelFit
    /** The models, in list order, as they currently predict. */
    var models: seq<Predictor>

    constructor (models: seq<Predictor>, fit: ModelFit)
      ensures this.models == models && this.fit == fit
    {
      this.models := models;
      this.fit := fit;
    }

    /** Fit: every model, in list order, fitted on the same samples. */
    method Fit(samples: seq<Sample>)
      modifies this
      ensures models == FittedModels(fit, samples, old(|models|))
    {
      var count := |models|;
      for modelIndex := 0 to count
        invariant |models| == count
        invariant models[..modelIndex] == FittedModels(fit, samples, modelIndex)
      {
        var model := fit(modelIndex, samples);
        assert models[modelIndex := model][..modelIndex + 1] == models[..modelIndex] + [model];
        assert FittedModels(fit, samples, modelIndex + 1) == FittedModels(fit, samples, modelIndex) + [model];
        models := models[modelIndex := model];
      }
      assert models[..count] == models;
    }

    /** Predict: every model asked once, in list order, and the answers joined end to end. */
    method Predict(x: Vec, ghost n: nat) returns (y: Result<Vec>)
      requires Answers(models, Apply, x, n)
      ensures y == Joined(models, x)
    {
      var predictions := Predicted(Apply, models, x);
      if |predictions| == 0 {
        return Err(OutOfRange);
      }
      var concat := Concat(predictions);
      return Ok(concat);
    }
  }
}
