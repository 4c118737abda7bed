/**
 * Models/StackAggregator.cs: models chained one after another.
 *
 * Fit fits the models in list order, each on a working copy of the
 * samples whose inputs the models before it have replaced by their
 * predictions; Predict feeds the input through the models in the same
 * order. The models are those of Models/Model.cs, an interface whose
 * implementations are outside this file: model i's Fit followed by its
 * Predict is the parameter `fit`.
 */
module StackAggregators {
  import opened Vectors
  import opened Samples
  import opened Boosting

  /** Model i fitted on the given samples and features, seen through its Predict. */
  type ModelFit = (nat, seq<Sample>, seq<int>) -> Predictor

  /** The input fed through the models in list order: the first model sees x, each later one its predecessor's answer. */
  function Compose(models: seq<Predictor>, x: Vec): Vec
  {
    if |models| == 0 then x
    else models[|models| - 1](Compose(models[..|models| - 1], x))
  }

  /** Feeding through a then b is feeding through a + b: the stack is a pipeline. */
  lemma {:induction false} ComposeAppend(a: seq<Predictor>, b: seq<Predictor>, x: Vec)
    ensures Compose(a + b, x) == Compose(b, Compose(a, x))
    decreases |b|
  {
    if |b| == 0 {
      assert a + b == a;
    } else {
      var last := |b| - 1;
      assert (a + b)[..|a + b| - 1] == a + b[..last];
      ComposeAppend(a, b[..last], x);
    }
  }

  /** A stack of one model is that model. */
  lemma ComposeOne(model: Predictor, x: Vec)
    ensures Compose([model], x) == model(x)
  {
    assert [model][..0] == [];
  }

  /** Every sample's input replaced by the model's prediction for it, its output kept. */
  function Relabeled(model: Predictor, samples: seq<Sample>): (next: seq<Sample>)
    ensures |next| == |samples|
  {
    seq(|samples|, j requires 0 <= j < |samples| => Sample(model(samples[j].input), samples[j].output))
  }

  /** The samples model i is fitted on: the caller's samples for the first, relabelled by each model before it. */
  function Fed(fit: ModelFit, samples: seq<Sample>, features: seq<int>, i: nat): (s: seq<Sample>)
    ensures |s| == |samples|
  {
    if i == 0 then samples
    else
      var before := Fed(fit, samples, features, i - 1);
      Relabeled(fit(i - 1, before, features), before)
  }

  /** Model i after Fit. */
  function StackModel(fit: ModelFit, samples: seq<Sample>, features: seq<int>, i: nat): Predictor
  {
    fit(i, Fed(fit, samples, features, i), features)
  }

  /** The first count models after Fit. */
  function Stacked(fit: ModelFit, samples: seq<Sample>, features: seq<int>, count: nat): (ms: seq<Predictor>)
    ensures |ms| == count
  {
    seq(count, i requires 0 <= i < count => StackModel(fit, samples, features, i))
  }

  /** One more model: it is fitted on what the models before it fed it. */
  lemma StackedStep(fit: ModelFit, samples: seq<Sample>, features: seq<int>, i: nat)
    ensures Stacked(fit, samples, features, i + 1) == Stacked(fit, samples, features, i) + [StackModel(fit, samples, features, i)]
    ensures Fed(fit, samples, features, i + 1) == Relabeled(StackModel(fit, samples, features, i), Fed(fit, samples, features, i))
  {
    var a := Stacked(fit, samples, features, i + 1);
    var b := Stacked(fit, samples, features, i);
    forall j | 0 <= j < i ensures a[j] == b[j] {
    }
  }

  /**
   * Model i is trained to map the stack of the models before it to the
   * original outputs: sample j of its training list has as input the
   * composition of the first i fitted models applied to samples[j].input,
   * and samples[j].output as output.
   */
  lemma {:induction false} FedIsComposition(fit: ModelFit, samples: seq<Sample>, features: seq<int>, i: nat, j: nat)
    requires j < |samples|
    ensures Fed(fit, samples, features, i)[j] == Sample(Compose(Stacked(fit, samples, features, i), samples[j].input), samples[j].output)
  {
    if i > 0 {
      FedIsComposition(fit, samples, features, i - 1, j);
      assert Stacked(fit, samples, features, i)[..i - 1] == Stacked(fit, samples, features, i - 1);
    }
  }

  class StackAggregator {
    const fit: ModelFit
    /** The models, in list order, as they currently predict. */
    var models: seq<Predictor>

    constructor (models: seq<Predictor>, fit: ModelFit)
      ensures this.models == models && this.fit == fit
    {
      this.models := models;
      this.fit := fit;
    }

    /**
     * Fit: every model, in list order, is fitted on the working copy, which
     * then, unless it was the last model, has its inputs replaced by that
     * model's predictions. The caller's samples are not touched.
     */
    method Fit(samples: seq<Sample>, features: seq<int>)
      modifies this
      ensures models == Stacked(fit, samples, features, old(|models|))
    {
      var nextSamples := samples;
      var count := |models|;
      for modelIndex := 0 to count
        invariant |models| == count
        invariant modelIndex < count ==> nextSamples == Fed(fit, samples, features, modelIndex)
        invariant models[..modelIndex] == Stacked(fit, samples, features, modelIndex)
      {
        var model := fit(modelIndex, nextSamples, features);
        assert models[modelIndex := model][..modelIndex + 1] == models[..modelIndex] + [model];
        StackedStep(fit, samples, features, modelIndex);
        models := models[modelIndex := model];
        if modelIndex < count - 1 {
          nextSamples := Relabel(model, nextSamples);
        }
      }
      assert models[..count] == models;
    }

    /** Predict: the input fed through every model, in list order; with no models, the input itself. */
    method Predict(x: Vec) returns (prediction: Vec)
      ensures prediction == Compose(models, x)
    {
      prediction := x;
      for modelIndex := 0 to |models|
        invariant prediction == Compose(models[..modelIndex], x)
      {
        assert models[..modelIndex + 1][..modelIndex] == models[..modelIndex];
        prediction := models[modelIndex](prediction);
      }
      assert models[..|models|] == models;
    }
  }

  /**
   * The relabelling step of Fit: the model's prediction for every sample,
   * collected first, then every sample replaced by one with that prediction
   * as input and its own output.
   */
  method Relabel(model: Predictor, samples: seq<Sample>) returns (next: seq<Sample>)
    ensures next == Relabeled(model, samples)
  {
    var predictions: seq<Vec> := [];
    for j := 0 to |samples|
      invariant |predictions| == j
      invariant forall i | 0 <= i < j :: predictions[i] == model(samples[i].input)
    {
      predictions := predictions + [model(samples[j].input)];
    }
    next := samples;
    for j := 0 to |samples|
      invariant |next| == |samples|
      invariant forall i | 0 <= i < j :: next[i] == Sample(predictions[i], samples[i].output)
      invariant forall i | j <= i < |samples| :: next[i] == samples[i]
    {
      next := next[j := Sample(predictions[j], next[j].output)];
    }
  }
}
