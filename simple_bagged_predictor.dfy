/**
 * BaggedPredictor.cs: a growing bag of models without feature bagging.
 *
 * AddModel() draws a bootstrap bag of the samples, builds one model from it
 * through the subclass's AddModel and appends it; it never reads
 * samples[0], so with no samples the bag is empty and a model is still
 * built. Predict averages the models' answers. The subclass hooks are the
 * parameters `build` and `predict`; every AddModel() makes a fresh Random,
 * and their draws are one stream `random` read from `position` on.
 */
module SimpleBaggedPredictors {
  import opened Wrappers
  import opened Vectors
  import opened Samples
  import opened Rng
  import opened Bagging

  /**
   * Build(count): the models count AddModel() calls append, in order, and
   * the position after their draws; each call takes samples.Count draws
   * where the one before it stopped.
   */
  function Built<M>(build: seq<Sample> -> M, samples: seq<Sample>, rng: Stream, pos: nat, count: nat): (r: (seq<M>, nat))
    ensures |r.0| == count
    ensures r.1 == pos + count * |samples|
  {
    if count == 0 then ([], pos)
    else
      var before := Built(build, samples, rng, pos, count - 1);
      var bag := Resampled(samples, rng, before.1);
      MulSucc(count - 1, |samples|);
      (before.0 + [build(bag.0)], bag.1)
  }

  /** One more AddModel() call appends one model, built on a bag drawn where the calls before it stopped. */
  lemma BuiltNext<M>(build: seq<Sample> -> M, samples: seq<Sample>, rng: Stream, pos: nat, count: nat)
    ensures var before := Built(build, samples, rng, pos, count);
      var bag := Resampled(samples, rng, before.1);
      Built(build, samples, rng, pos, count + 1) == (before.0 + [build(bag.0)], bag.1)
  {
  }

  /**
   * Model i of count built ones is built on the i-th bag: samples.Count
   * samples, each one of the samples, drawn from position pos + i * samples.Count.
   */
  lemma {:induction false} BuiltAt<M>(build: seq<Sample> -> M, samples: seq<Sample>, rng: Stream, pos: nat, count: nat, i: nat)
    requires i < count
    ensures var bag := Resampled(samples, rng, pos + i * |samples|).0;
      && Built(build, samples, rng, pos, count).0[i] == build(bag)
      && |bag| == |samples| && forall j | 0 <= j < |bag| :: bag[j] in samples
    decreases count
  {
    BuiltNext(build, samples, rng, pos, count - 1);
    if i < count - 1 {
      BuiltAt(build, samples, rng, pos, count - 1, i);
    }
    ResampledFrom(samples, rng, pos + i * |samples|);
  }

  class BaggedPredictor<M> {
    /** The subclass's AddModel(baggedSamples) and Predict(model, input). */
    const build: seq<Sample> -> M
    const predict: (M, Vec) -> Vec
    /** The draws of the successive AddModel() Randoms, and how many have been taken. */
    const random: Stream
    var position: nat
    const samples: seq<Sample>
    var models: seq<M>

    constructor (samples: seq<Sample>, build: seq<Sample> -> M, predict: (M, Vec) -> Vec, random: Stream)
      ensures models == [] && position == 0
      ensures this.samples == samples && this.build == build && this.predict == predict && this.random == random
    {
      this.samples := samples;
      this.build := build;
      this.predict := predict;
      this.random := random;
      position := 0;
      models := [];
    }

    /** AddModel(): one model, built on a bag of samples.Count draws, is appended. */
    method AddModel()
      modifies this
      ensures var bag := Resampled(samples, random, old(position));
        models == old(models) + [build(bag.0)] && position == bag.1
    {
      var bag, p := Resample(samples, random, position);
      var model := build(bag);
      models := models + [model];
      position := p;
    }

    /** Build(modelCount): modelCount AddModel() calls; a count of zero or less adds nothing. */
    method Build(modelCount: int)
      modifies this
      ensures var built := Built(build, samples, random, old(position), if modelCount < 0 then 0 else modelCount);
        models == old(models) + built.0 && position == built.1
    {
      var modelIndex := 0;
      while modelIndex < modelCount
        invariant 0 <= modelIndex <= (if modelCount < 0 then 0 else modelCount)
        invariant var built := Built(build, samples, random, old(position), modelIndex);
          models == old(models) + built.0 && position == built.1
      {
        AddModel();
        BuiltNext(build, samples, random, old(position), modelIndex);
        ghost var built := Built(build, samples, random, old(position), modelIndex);
        assert models == old(models) + built.0 + [models[|models| - 1]];
        modelIndex := modelIndex + 1;
      }
    }

    /** Predict: every model's answer about x, averaged. */
    method Predict(x: Vec) returns (y: Result<Vec>)
      ensures y == AverageOf(Predictions(predict, models, x))
    {
      var predictions := Predicted(predict, models, x);
      y := Averaged(predictions);
    }
  }
}
