/**
 * BaggedPredictors/BaggedPredictor.cs: a growing bag of models with
 * optional feature bagging.
 *
 * AddModel() draws a bootstrap bag of the samples and, when featuresPerBag
 * is set, a random subset of the input features (otherwise all of them, in
 * order), builds one model from them through the subclass's AddModel and
 * appends it. Predict averages the models' answers. The subclass hooks are
 * the parameters `build` and `predict`; every AddModel() makes a fresh
 * Random, and their draws are one stream `random` read from `position` on.
 */
module BaggedPredictors {
  import opened Wrappers
  import opened Vectors
  import opened Samples
  import opened Rng
  import opened Bagging

  /** One AddModel()'s draws: the bag, the feature list, and the position after them. */
  datatype Draws = Draws(bag: seq<Sample>, features: seq<int>, next: nat)

  /**
   * The bag is samples.Count draws from the samples; then the features are
   * 0..n-1 in order, or the first featuresPerBag of a shuffle of them.
   */
  function BagDraws(samples: seq<Sample>, featuresPerBag: Option<int>, rng: Stream, pos: nat): Draws
    requires |samples| > 0
  {
    var bag := Resampled(samples, rng, pos);
    match featuresPerBag
    case None => Draws(bag.0, Range(|samples[0].input|), bag.1)
    case Some(k) =>
      var fs := ShuffledFeatures(|samples[0].input|, k, rng, bag.1);
      Draws(bag.0, fs.0, fs.1)
  }

  /**
   * A bag has samples.Count members, each one of the samples. Without
   * featuresPerBag the features are exactly 0..n-1 and no shuffle is drawn;
   * with it they are min(featuresPerBag, n) distinct indices below n (none
   * for a negative count).
   */
  lemma BagDrawsFacts(samples: seq<Sample>, featuresPerBag: Option<int>, rng: Stream, pos: nat)
    requires |samples| > 0
    ensures var d := BagDraws(samples, featuresPerBag, rng, pos);
      |d.bag| == |samples| && forall j | 0 <= j < |d.bag| :: d.bag[j] in samples
    ensures var d := BagDraws(samples, featuresPerBag, rng, pos);
      featuresPerBag.None? ==> d.features == Range(|samples[0].input|) && d.next == pos + |samples|
    ensures var d := BagDraws(samples, featuresPerBag, rng, pos);
      var n := |samples[0].input|;
      featuresPerBag.Some? ==>
        var k := featuresPerBag.value;
        && |d.features| == (if k < 0 then 0 else if k > n then n else k)
        && Distinct(d.features) && InRange(d.features, n)
        && d.next == pos + |samples| + n
  {
    ResampledFrom(samples, rng, pos);
    if featuresPerBag.Some? {
      ShuffledFeaturesProperties(|samples[0].input|, featuresPerBag.value, rng, Resampled(samples, rng, pos).1);
    }
  }

  /**
   * Build(count): the models count AddModel() calls append, in order, and
   * the position after their draws; each call draws where the one before it
   * stopped.
   */
  function Built<M>(build: (seq<Sample>, seq<int>) -> M, samples: seq<Sample>, featuresPerBag: Option<int>,
                    rng: Stream, pos: nat, count: nat): (r: (seq<M>, nat))
    requires |samples| > 0
    ensures |r.0| == count && pos <= r.1
  {
    if count == 0 then ([], pos)
    else
      var before := Built(build, samples, featuresPerBag, rng, pos, count - 1);
      var d := BagDraws(samples, featuresPerBag, rng, before.1);
      BagDrawsFacts(samples, featuresPerBag, rng, before.1);
      (before.0 + [build(d.bag, d.features)], d.next)
  }

  /** One more AddModel() call appends one model, drawn where the calls before it stopped. */
  lemma BuiltNext<M>(build: (seq<Sample>, seq<int>) -> M, samples: seq<Sample>, featuresPerBag: Option<int>,
                     rng: Stream, pos: nat, count: nat)
    requires |samples| > 0
    ensures var before := Built(build, samples, featuresPerBag, rng, pos, count);
      var d := BagDraws(samples, featuresPerBag, rng, before.1);
      Built(build, samples, featuresPerBag, rng, pos, count + 1) == (before.0 + [build(d.bag, d.features)], d.next)
  {
  }

  /**
   * Model i of count built ones is built from the draws of the i-th
   * AddModel(): a bag of samples.Count samples and that call's features.
   */
  lemma {:induction false} BuiltAt<M>(build: (seq<Sample>, seq<int>) -> M, samples: seq<Sample>, featuresPerBag: Option<int>,
                                      rng: Stream, pos: nat, count: nat, i: nat)
    requires |samples| > 0 && i < count
    ensures var d := BagDraws(samples, featuresPerBag, rng, Built(build, samples, featuresPerBag, rng, pos, i).1);
      Built(build, samples, featuresPerBag, rng, pos, count).0[i] == build(d.bag, d.features)
    decreases count
  {
    BuiltNext(build, samples, featuresPerBag, rng, pos, count - 1);
    if i < count - 1 {
      BuiltAt(build, samples, featuresPerBag, rng, pos, count - 1, i);
    }
  }

  class BaggedPredictor<M> {
    /** The subclass's AddModel(baggedSamples, baggedFeatures) and Predict(model, input). */
    const build: (seq<Sample>, seq<int>) -> M
    const predict: (M, Vec) -> Vec
    /** The draws of the successive AddModel() Randoms, and how many have been taken. */
    const random: Stream
    var position: nat
    const samples: seq<Sample>
    const featuresPerBag: Option<int>
    var models: seq<M>

    constructor (samples: seq<Sample>, featuresPerBag: Option<int>, build: (seq<Sample>, seq<int>) -> M,
                 predict: (M, Vec) -> Vec, random: Stream)
      ensures models == [] && position == 0
      ensures this.samples == samples && this.featuresPerBag == featuresPerBag
      ensures this.build == build && this.predict == predict && this.random == random
    {
      this.samples := samples;
      this.featuresPerBag := featuresPerBag;
      this.build := build;
      this.predict := predict;
      this.random := random;
      position := 0;
      models := [];
    }

    /**
     * AddModel(): the bag loop draws nothing from an empty list, and the
     * feature list then throws at samples[0], adding nothing; otherwise one
     * model, built from the bag and features drawn, is appended.
     */
    method AddModel() returns (r: Result<()>)
      modifies this
      ensures |samples| == 0 ==> r == Err(OutOfRange) && models == old(models) && position == old(position)
      ensures |samples| > 0 ==>
        var d := BagDraws(samples, featuresPerBag, random, old(position));
        r == Ok(()) && models == old(models) + [build(d.bag, d.features)] && position == d.next
    {
      var bag, p := Resample(samples, random, position);
      if |samples| == 0 {
        return Err(OutOfRange);
      }
      var n := |samples[0].input|;
      var features;
      if featuresPerBag.None? {
        features := Range(n);
      } else {
        var shuffled := Shuffle(Range(n), random, p);
        features := Take(shuffled.0, featuresPerBag.value);
        p := shuffled.1;
      }
      var model := build(bag, features);
      models := models + [model];
      position := p;
      return Ok(());
    }

    /**
     * Build(modelCount): modelCount AddModel() calls, which with no samples
     * throw at the first; a count of zero or less adds nothing.
     */
    method Build(modelCount: int) returns (r: Result<()>)
      modifies this
      ensures |samples| == 0 && modelCount > 0 ==> r == Err(OutOfRange) && models == old(models) && position == old(position)
      ensures |samples| == 0 && modelCount <= 0 ==> r == Ok(()) && models == old(models) && position == old(position)
      ensures |samples| > 0 ==>
        var built := Built(build, samples, featuresPerBag, random, old(position), if modelCount < 0 then 0 else modelCount);
        r == Ok(()) && models == old(models) + built.0 && position == built.1
    {
      var modelIndex := 0;
      while modelIndex < modelCount
        invariant 0 <= modelIndex <= (if modelCount < 0 then 0 else modelCount)
        invariant |samples| == 0 ==> modelIndex == 0 && models == old(models) && position == old(position)
        invariant |samples| > 0 ==>
          var built := Built(build, samples, featuresPerBag, random, old(position), modelIndex);
          models == old(models) + built.0 && position == built.1
      {
        var added := AddModel();
        if added.Err? {
          return added;
        }
        BuiltNext(build, samples, featuresPerBag, random, old(position), modelIndex);
        ghost var built := Built(build, samples, featuresPerBag, random, old(position), modelIndex);
        assert models == old(models) + built.0 + [models[|models| - 1]];
        modelIndex := modelIndex + 1;
      }
      return Ok(());
    }

    /** Predict: every model's answer about x, averaged. */
    method Predict(x: Vec) returns (y: Result<Vec>)
      ensures y == AverageOf(Predictions(predict, models, x))
    {
      var predictions := Predicted(predict, models, x);
      y := Averaged(predictions);
    }
  }
}
