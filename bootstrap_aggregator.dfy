/**
 * Models/BootstrapAggregator.cs: bagging over a fixed list of models.
 *
 * Fit draws, for every model in list order, a bootstrap bag of the samples
 * and a random subset of the input features from one local Random, records
 * the features and fits the model on the bag reduced to them. Predict asks
 * every model about the input reduced to its own features and averages the
 * answers. The models are those of Models/Model.cs, an interface whose
 * implementations are outside this file: model i's Fit followed by its
 * Predict is the parameter `fit`.
 */
module BootstrapAggregators {
  import opened Wrappers
  import opened Vectors
  import opened Samples
  import opened Rng
  import opened Boosting
  import opened Bagging

  /** Model i fitted on the given samples, seen through its Predict. */
  type ModelFit = (nat, seq<Sample>) -> Predictor

  /** Every fitted model answers every input with n components. */
  ghost predicate FitWidth(fit: ModelFit, n: nat)
  {
    forall i, s, x :: |fit(i, s)(x)| == n
  }

  // ---------------------------------------------------------------------------
  // The draws of Fit
  // ---------------------------------------------------------------------------

  /**
   * Where model i's draws start in Fit's Random: every model before it took
   * samples.Count draws for its bag and n for its feature shuffle.
   */
  function BagStart(samples: seq<Sample>, i: nat): nat
    requires |samples| > 0
  {
    i * (|samples| + |samples[0].input|)
  }

  /** Model i's bag, and the position after its draws. */
  function Bag(samples: seq<Sample>, rng: Stream, i: nat): (seq<Sample>, nat)
    requires |samples| > 0
  {
    Resampled(samples, rng, BagStart(samples, i))
  }

  /** Model i's features: the first k of a shuffle of 0..n-1, drawn right after its bag. */
  function FeatureBag(samples: seq<Sample>, k: int, rng: Stream, i: nat): seq<int>
    requires |samples| > 0
  {
    ShuffledFeatures(|samples[0].input|, k, rng, Bag(samples, rng, i).1).0
  }

  /**
   * Model i's bag has samples.Count members, each one of the samples; its
   * features are k (clamped into [0, n]) distinct indices below n.
   */
  lemma BagFacts(samples: seq<Sample>, k: int, rng: Stream, i: nat)
    requires |samples| > 0
    ensures var bag := Bag(samples, rng, i).0;
      |bag| == |samples| && forall j | 0 <= j < |bag| :: bag[j] in samples
    ensures var fs := FeatureBag(samples, k, rng, i);
      var n := |samples[0].input|;
      && |fs| == (if k < 0 then 0 else if k > n then n else k)
      && Distinct(fs) && InRange(fs, n)
  {
    ResampledFrom(samples, rng, BagStart(samples, i));
    ShuffledFeaturesProperties(|samples[0].input|, k, rng, Bag(samples, rng, i).1);
  }

  /** Model i after Fit: fitted on its bag reduced to its features. */
  function FittedModel(fit: ModelFit, samples: seq<Sample>, k: int, rng: Stream, i: nat): Predictor
    requires |samples| > 0 && InputWidth(samples, |samples[0].input|)
  {
    var bag := Bag(samples, rng, i).0;
    var fs := FeatureBag(samples, k, rng, i);
    BagFacts(samples, k, rng, i);
    assert forall j | 0 <= j < |bag| :: InRange(fs, |bag[j].input|) by {
      forall j | 0 <= j < |bag| ensures |bag[j].input| == |samples[0].input| {
        assert bag[j] in samples;
      }
    }
    fit(i, ReselectSamples(bag, fs))
  }

  /** The feature lists of the first count models. */
  function FeatureBags(samples: seq<Sample>, k: int, rng: Stream, count: nat): (fss: seq<seq<int>>)
    requires |samples| > 0
    ensures |fss| == count
  {
    seq(count, i requires 0 <= i < count => FeatureBag(samples, k, rng, i))
  }

  /** The first count models after Fit. */
  function FittedModels(fit: ModelFit, samples: seq<Sample>, k: int, rng: Stream, count: nat): (ms: seq<Predictor>)
    requires |samples| > 0 && InputWidth(samples, |samples[0].input|)
    ensures |ms| == count
  {
    seq(count, i requires 0 <= i < count => FittedModel(fit, samples, k, rng, i))
  }

  /** One more model: its features follow those of the models before it. */
  lemma FeatureBagsStep(samples: seq<Sample>, k: int, rng: Stream, i: nat)
    requires |samples| > 0
    ensures FeatureBags(samples, k, rng, i + 1) == FeatureBags(samples, k, rng, i) + [FeatureBag(samples, k, rng, i)]
  {
    var a := FeatureBags(samples, k, rng, i + 1);
    var b := FeatureBags(samples, k, rng, i);
    forall j | 0 <= j < i ensures a[j] == b[j] {
    }
  }

  /** One more model: its fitted state follows those of the models before it. */
  lemma FittedModelsStep(fit: ModelFit, samples: seq<Sample>, k: int, rng: Stream, i: nat)
    requires |samples| > 0 && InputWidth(samples, |samples[0].input|)
    ensures FittedModels(fit, samples, k, rng, i + 1) == FittedModels(fit, samples, k, rng, i) + [FittedModel(fit, samples, k, rng, i)]
  {
    var a := FittedModels(fit, samples, k, rng, i + 1);
    var b := FittedModels(fit, samples, k, rng, i);
    forall j | 0 <= j < i ensures a[j] == b[j] {
    }
  }

  /**
   * With a percentage in (0, 1], every model of a fitted aggregator has
   * featuresPerBag distinct features below n: at least one and at most n
   * when there are inputs to choose from, and all n at 100 percent.
   */
  lemma FeatureBagsFacts(samples: seq<Sample>, pct: real, rng: Stream, count: nat, i: nat)
    requires |samples| > 0 && 0.0 < pct <= 1.0 && i < count
    ensures var n := |samples[0].input|;
      var fs := FeatureBags(samples, FeaturesPerBag(n, pct), rng, count)[i];
      && |fs| == FeaturesPerBag(n, pct) && Distinct(fs) && InRange(fs, n)
      && (n > 0 ==> 1 <= |fs| <= n)
      && (pct == 1.0 ==> |fs| == n)
  {
    var n := |samples[0].input|;
    FeaturesPerBagBounds(n, pct);
    BagFacts(samples, FeaturesPerBag(n, pct), rng, i);
  }

  // ---------------------------------------------------------------------------
  // The prediction
  // ---------------------------------------------------------------------------

  /** Every model's features are listed and index into x. */
  predicate Selects(models: seq<Predictor>, modelFeatures: seq<seq<int>>, x: Vec)
  {
    |models| <= |modelFeatures| && forall i | 0 <= i < |models| :: InRange(modelFeatures[i], |x|)
  }

  /** Every model's answer about x reduced to its features, in list order. */
  function MemberAnswers(models: seq<Predictor>, modelFeatures: seq<seq<int>>, x: Vec): (ps: seq<Vec>)
    requires Selects(models, modelFeatures, x)
    ensures |ps| == |models|
  {
    seq(|models|, i requires 0 <= i < |models| => models[i](Reselect(x, modelFeatures[i])))
  }

  /**
   * Predict: a model without recorded features, or with a feature x lacks,
   * throws; otherwise the answers are averaged, which throws when there are
   * none. So a prediction needs a model, and features for every model.
   */
  function Prediction(models: seq<Predictor>, modelFeatures: seq<seq<int>>, x: Vec): (y: Result<Vec>)
    ensures y.Ok? ==> 0 < |models| <= |modelFeatures|
    ensures y.Ok? ==> forall i | 0 <= i < |models| :: InRange(modelFeatures[i], |x|)
  {
    if !Selects(models, modelFeatures, x) then Err(OutOfRange)
    else AverageOf(MemberAnswers(models, modelFeatures, x))
  }

  /**
   * After a successful Fit of count models, an input with at least the
   * training inputs' width gets an answer exactly when there is a model, and
   * the answer has the models' output width.
   */
  lemma PredictAfterFit(fit: ModelFit, samples: seq<Sample>, pct: real, rng: Stream, count: nat, x: Vec, dout: nat)
    requires |samples| > 0 && InputWidth(samples, |samples[0].input|) && 0.0 < pct <= 1.0
    requires |samples[0].input| <= |x| && FitWidth(fit, dout)
    ensures var k := FeaturesPerBag(|samples[0].input|, pct);
      var y := Prediction(FittedModels(fit, samples, k, rng, count), FeatureBags(samples, k, rng, count), x);
      (y.Ok? <==> count > 0) && (y.Ok? ==> |y.value| == dout)
  {
    var k := FeaturesPerBag(|samples[0].input|, pct);
    var models := FittedModels(fit, samples, k, rng, count);
    var fss := FeatureBags(samples, k, rng, count);
    forall i | 0 <= i < count ensures InRange(fss[i], |x|) {
      BagFacts(samples, k, rng, i);
    }
    assert Selects(models, fss, x);
    var ps := MemberAnswers(models, fss, x);
    forall i | 0 <= i < count ensures |ps[i]| == dout {
      assert ps[i] == FittedModel(fit, samples, k, rng, i)(Reselect(x, fss[i]));
    }
  }

  /** An aggregator of one model answers what that model answers about the reduced input. */
  lemma PredictOneModel(model: Predictor, features: seq<int>, x: Vec)
    requires InRange(features, |x|)
    ensures Prediction([model], [features], x) == Ok(model(Reselect(x, features)))
  {
    assert MemberAnswers([model], [features], x) == [model(Reselect(x, features))];
    AverageOfOne(model(Reselect(x, features)));
  }

  // ---------------------------------------------------------------------------
  // The aggregator
  // ---------------------------------------------------------------------------

  class BootstrapAggregator {
    const fit: ModelFit
    const featurePercentPerBag: real
    /** The models, in list order, as they currently predict. */
    var models: seq<Predictor>
    var modelFeatures: seq<seq<int>>

    /** The percentage is valid, and the recorded feature lists are none or one per model. */
    ghost predicate Valid()
      reads this
    {
      && 0.0 < featurePercentPerBag <= 1.0
      && (modelFeatures == [] || |modelFeatures| == |models|)
    }

    constructor (featurePercentPerBag: real, models: seq<Predictor>, fit: ModelFit)
      requires 0.0 < featurePercentPerBag <= 1.0
      ensures Valid() && this.models == models && modelFeatures == []
      ensures this.featurePercentPerBag == featurePercentPerBag && this.fit == fit
    {
      this.fit := fit;
      this.featurePercentPerBag := featurePercentPerBag;
      this.models := models;
      modelFeatures := [];
    }

    /** The public constructor: a percentage outside (0, 1] throws. */
    static method New(featurePercentPerBag: real, models: seq<Predictor>, fit: ModelFit)
      returns (r: Result<BootstrapAggregator>)
      ensures r.Err? <==> featurePercentPerBag <= 0.0 || featurePercentPerBag > 1.0
      ensures r.Err? ==> r.error == BadArgument
      ensures r.Ok? ==> fresh(r.value) && r.value.Valid() && r.value.models == models && r.value.modelFeatures == []
      ensures r.Ok? ==> r.value.featurePercentPerBag == featurePercentPerBag && r.value.fit == fit
    {
      if featurePercentPerBag <= 0.0 || featurePercentPerBag > 1.0 {
        return Err(BadArgument);
      }
      var aggregator := new BootstrapAggregator(featurePercentPerBag, models, fit);
      return Ok(aggregator);
    }

    /**
     * Fit: the feature lists are cleared first; an empty list then throws at
     * samples[0]. Otherwise every model, in list order, is fitted on its own
     * bag and features, drawn one model after another from a fresh Random
     * `rng`, and its features are recorded.
     */
    method Fit(samples: seq<Sample>, rng: Stream) returns (r: Result<()>)
      requires Valid() && (|samples| > 0 ==> InputWidth(samples, |samples[0].input|))
      modifies this
      ensures Valid() && |models| == old(|models|)
      ensures |samples| == 0 ==> r == Err(OutOfRange) && modelFeatures == [] && models == old(models)
      ensures |samples| > 0 ==>
        var k := FeaturesPerBag(|samples[0].input|, featurePercentPerBag);
        && r == Ok(())
        && modelFeatures == FeatureBags(samples, k, rng, |models|)
        && models == FittedModels(fit, samples, k, rng, |models|)
    {
      modelFeatures := [];
      if |samples| == 0 {
        return Err(OutOfRange);
      }
      var k := FeaturesPerBag(|samples[0].input|, featurePercentPerBag);
      var pos := 0;
      var count := |models|;
      for i := 0 to count
        invariant |models| == count
        invariant pos == BagStart(samples, i)
        invariant modelFeatures == FeatureBags(samples, k, rng, i)
        invariant models[..i] == FittedModels(fit, samples, k, rng, i)
      {
        var features, model, pos' := FitModel(fit, samples, k, rng, i, pos);
        FeatureBagsStep(samples, k, rng, i);
        FittedModelsStep(fit, samples, k, rng, i);
        assert models[i := model][..i + 1] == models[..i] + [model];
        modelFeatures := modelFeatures + [features];
        models := models[i := model];
        pos := pos';
      }
      assert models[..count] == models;
      return Ok(());
    }

    /** Predict: every model's answer about x reduced to its features, averaged. */
    method Predict(x: Vec) returns (y: Result<Vec>)
      ensures y == Prediction(models, modelFeatures, x)
    {
      var predictions := [];
      for i := 0 to |models|
        invariant Selects(models[..i], modelFeatures, x)
        invariant predictions == MemberAnswers(models[..i], modelFeatures, x)
      {
        if i >= |modelFeatures| {
          return Err(OutOfRange);
        }
        var features := modelFeatures[i];
        if !InRange(features, |x|) {
          return Err(OutOfRange);
        }
        assert models[..i + 1] == models[..i] + [models[i]];
        predictions := predictions + [models[i](Reselect(x, features))];
      }
      assert models[..|models|] == models;
      y := Averaged(predictions);
    }
  }

  /**
   * One pass of Fit's model loop: samples.Count draws for the bag, a shuffle
   * of the feature indices, and the model fitted on the bag reduced to the
   * features taken.
   */
  method FitModel(fit: ModelFit, samples: seq<Sample>, k: int, rng: Stream, i: nat, pos: nat)
    returns (features: seq<int>, model: Predictor, pos': nat)
    requires |samples| > 0 && InputWidth(samples, |samples[0].input|) && pos == BagStart(samples, i)
    ensures features == FeatureBag(samples, k, rng, i)
    ensures model == FittedModel(fit, samples, k, rng, i)
    ensures pos' == BagStart(samples, i + 1)
  {
    var n := |samples[0].input|;
    var bag, p := Resample(samples, rng, pos);
    features := ShuffledFeatures(n, k, rng, p).0;
    BagFacts(samples, k, rng, i);
    forall j | 0 <= j < |bag| ensures InRange(features, |bag[j].input|) {
      assert bag[j] in samples;
    }
    model := fit(i, ReselectSamples(bag, features));
    MulSucc(i, |samples| + n);
    pos' := p + n;
  }
}
