/**
 * Bagging, the parts shared by Models/BootstrapAggregator.cs,
 * BaggedPredictors/BaggedPredictor.cs and BaggedPredictor.cs.
 *
 * A bag is samples.Count draws of samples[random.Next(samples.Count)]
 * (Rng.Resampled); a feature bag is the first k of a shuffle of
 * 0..n-1 (Rng.ShuffledFeatures). The members' predictions are averaged by
 * Utility.Average, which reads vectors[0].Length and so throws on an empty
 * list, and throws as well on a prediction shorter than the first one.
 */
module Bagging {
  import opened Wrappers
  import opened Vectors
  import opened Samples
  import opened Rng
  import opened Boosting

  /**
   * Utility.Average on the members' predictions: defined exactly when there
   * is a prediction and none is shorter than the first; then it has the
   * first prediction's length, and component i is the sum of the
   * predictions' components i over their count.
   */
  function AverageOf(ps: seq<Vec>): (y: Result<Vec>)
    ensures y.Ok? <==> |ps| > 0 && forall k | 0 <= k < |ps| :: |ps[0]| <= |ps[k]|
    ensures y.Ok? ==> |y.value| == |ps[0]| && forall i | 0 <= i < |ps[0]| :: y.value[i] == ColumnSum(ps, i) / |ps| as real
  {
    if ps == [] || !Wide(ps, |ps[0]|) then Err(OutOfRange) else Ok(Mean(ps, |ps[0]|))
  }

  /** The average of one prediction is that prediction. */
  lemma AverageOfOne(v: Vec)
    ensures AverageOf([v]) == Ok(v)
  {
    assert [v] == seq(1, _ => v);
    MeanOfCopies(v, 1);
  }

  /** Among predictions of one common length, the order of the members does not matter. */
  lemma AverageOfPermutation(ps: seq<Vec>, qs: seq<Vec>, n: nat)
    requires SameLength(ps, n) && multiset(qs) == multiset(ps)
    ensures AverageOf(qs) == AverageOf(ps)
  {
    assert |qs| == |multiset(qs)| == |ps|;
    if ps != [] {
      forall k | 0 <= k < |qs| ensures |qs[k]| == n {
        assert qs[k] in multiset(ps);
      }
      assert Wide(ps, n) && Wide(qs, n);
      forall i | 0 <= i < n ensures Mean(qs, n)[i] == Mean(ps, n)[i] {
        ColumnSumPermutation(ps, qs, i);
      }
      assert Mean(qs, n) == Mean(ps, n);
    }
  }

  /** Utility.Average, reached through its two throwing cases. */
  method Averaged(ps: seq<Vec>) returns (y: Result<Vec>)
    ensures y == AverageOf(ps)
  {
    if |ps| == 0 {
      return Err(OutOfRange);
    }
    var k := 0;
    while k < |ps|
      invariant 0 <= k <= |ps|
      invariant Wide(ps[..k], |ps[0]|)
    {
      if |ps[k]| < |ps[0]| {
        return Err(OutOfRange);
      }
      k := k + 1;
    }
    assert ps[..k] == ps;
    var average := Average(ps);
    assert average == Mean(ps, |ps[0]|);
    return Ok(average);
  }

  /** Every member's prediction for x, in member order. */
  function Predictions<M>(predict: (M, Vec) -> Vec, models: seq<M>, x: Vec): (ps: seq<Vec>)
  {
    Map((m: M) => predict(m, x), models)
  }

  /** The loop that asks every member for its prediction, in member order. */
  method Predicted<M>(predict: (M, Vec) -> Vec, models: seq<M>, x: Vec) returns (ps: seq<Vec>)
    ensures ps == Predictions(predict, models, x)
  {
    ps := [];
    for k := 0 to |models|
      invariant ps == Predictions(predict, models[..k], x)
    {
      assert models[..k + 1] == models[..k] + [models[k]];
      MapAppend((m: M) => predict(m, x), models[..k], [models[k]]);
      ps := ps + [predict(models[k], x)];
    }
    assert models[..|models|] == models;
  }

  /**
   * The averaged prediction does not depend on the order in which the
   * members were added, when every member answers with n components.
   */
  lemma PredictionsOrderFree<M>(predict: (M, Vec) -> Vec, models: seq<M>, reordered: seq<M>, x: Vec, n: nat)
    requires multiset(reordered) == multiset(models) && Answers(models, predict, x, n)
    ensures AverageOf(Predictions(predict, reordered, x)) == AverageOf(Predictions(predict, models, x))
  {
    var f := (m: M) => predict(m, x);
    MapPermutes(f, models, reordered);
    AverageOfPermutation(Predictions(predict, models, x), Predictions(predict, reordered, x), n);
  }

  /** A bag of one model answers what that model answers. */
  lemma OneMember<M>(predict: (M, Vec) -> Vec, model: M, x: Vec)
    ensures AverageOf(Predictions(predict, [model], x)) == Ok(predict(model, x))
  {
    assert Predictions(predict, [model], x) == [predict(model, x)];
    AverageOfOne(predict(model, x));
  }

  // ---------------------------------------------------------------------------
  // Feature bags
  // ---------------------------------------------------------------------------

  /** Every input has n components. */
  predicate InputWidth(samples: seq<Sample>, n: nat)
  {
    forall k | 0 <= k < |samples| :: |samples[k].input| == n
  }

  /**
   * Sample.ReselectFeatures on one input: the listed components, in list
   * order. (Sample.ReselectFeatures is not part of this model; it is read
   * here as picking input[f] for every listed f.)
   */
  function Reselect(x: Vec, features: seq<int>): (y: Vec)
    requires InRange(features, |x|)
  {
    seq(|features|, j requires 0 <= j < |features| => x[features[j]])
  }

  /** Sample.ReselectFeatures on a list: every input reselected, every output kept. */
  function ReselectSamples(samples: seq<Sample>, features: seq<int>): (r: seq<Sample>)
    requires forall k | 0 <= k < |samples| :: InRange(features, |samples[k].input|)
    ensures |r| == |samples|
    ensures forall k | 0 <= k < |samples| :: r[k].output == samples[k].output && |r[k].input| == |features|
  {
    seq(|samples|, k requires 0 <= k < |samples| => Sample(Reselect(samples[k].input, features), samples[k].output))
  }

  /**
   * BootstrapAggregator's featuresPerBag: (int)(n * pct), raised to 1 and
   * then cut to n. The cast truncates toward zero, which is the floor for
   * the non-negative products a valid percentage gives.
   */
  function FeaturesPerBag(n: nat, pct: real): (k: int)
    requires 0.0 < pct
  {
    var scaled := (n as real * pct).Floor;
    var atLeastOne := if scaled < 1 then 1 else scaled;
    if n < atLeastOne then n else atLeastOne
  }

  /**
   * For a percentage in (0, 1]: between 1 and n features when there are
   * any, none when there are none, and all of them at 100 percent.
   */
  lemma FeaturesPerBagBounds(n: nat, pct: real)
    requires 0.0 < pct <= 1.0
    ensures n > 0 ==> 1 <= FeaturesPerBag(n, pct) <= n
    ensures n == 0 ==> FeaturesPerBag(n, pct) == 0
    ensures pct == 1.0 ==> FeaturesPerBag(n, pct) == n
  {
    assert 0.0 <= n as real * pct <= n as real by {
      assert n as real * pct <= n as real * 1.0;
    }
  }
}
