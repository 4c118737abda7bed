/**
 * Error.cs: the error measures of a list of predictions against the
 * samples' outputs.
 *
 * MeanSquaredError and MeanAbsoluteError add one term per output
 * component of every sample and divide by the number of samples (not of
 * components); ArgmaxError is the fraction of samples whose output and
 * prediction peak at different components. Each walks the samples and
 * reads predictions[i] and prediction[j] for every output component j, so
 * a shorter prediction list or prediction throws; with no samples the
 * division is 0/0 and the result is NaN.
 */
module Errors {
  import opened Wrappers
  import opened Vectors
  import opened Samples

  /** Every sample has a prediction, with at least as many components as its output. */
  predicate Covers(samples: seq<Sample>, predictions: seq<Vec>)
  {
    |samples| <= |predictions| && forall i | 0 <= i < |samples| :: |samples[i].output| <= |predictions[i]|
  }

  /** The metric's terms over every output component of the first count samples. */
  function ErrorSum(m: Metric, samples: seq<Sample>, predictions: seq<Vec>, count: nat): real
    requires count <= |samples| && Covers(samples, predictions)
  {
    if count == 0 then 0.0
    else
      var i := count - 1;
      ErrorSum(m, samples, predictions, i) + DiffSum(m, samples[i].output, predictions[i], |samples[i].output|)
  }

  /** The mean error: a missing prediction or component throws, no samples give NaN, otherwise the sum over the sample count. */
  function MeanError(m: Metric, samples: seq<Sample>, predictions: seq<Vec>): (e: Result<real>)
  {
    if !Covers(samples, predictions) then Err(OutOfRange)
    else if |samples| == 0 then Err(Undefined)
    else Ok(ErrorSum(m, samples, predictions, |samples|) / |samples| as real)
  }

  /** Every prediction agrees with its sample's output on the output's components. */
  predicate Exact(samples: seq<Sample>, predictions: seq<Vec>)
    requires Covers(samples, predictions)
  {
    forall i | 0 <= i < |samples| :: predictions[i][..|samples[i].output|] == samples[i].output
  }

  /**
   * An error sum is non-negative and zero on exact predictions; the
   * absolute sum is zero only on exact predictions.
   */
  lemma {:induction false} ErrorSumProperties(m: Metric, samples: seq<Sample>, predictions: seq<Vec>, count: nat)
    requires count <= |samples| && Covers(samples, predictions)
    ensures ErrorSum(m, samples, predictions, count) >= 0.0
    ensures Exact(samples[..count], predictions) ==> ErrorSum(m, samples, predictions, count) == 0.0
    ensures m == Absolute ==> (ErrorSum(m, samples, predictions, count) == 0.0 <==> Exact(samples[..count], predictions))
  {
    if count > 0 {
      var i := count - 1;
      var out := samples[i].output;
      ErrorSumProperties(m, samples, predictions, i);
      DiffSumProperties(m, out, predictions[i], |out|);
      assert out[..|out|] == out;
      assert samples[..count][..i] == samples[..i];
      if Exact(samples[..count], predictions) {
        assert samples[..count][i] == samples[i];
        assert Exact(samples[..i], predictions);
      }
      if m == Absolute && ErrorSum(m, samples, predictions, count) == 0.0 {
        forall k | 0 <= k < count ensures predictions[k][..|samples[..count][k].output|] == samples[..count][k].output {
          if k < i {
            assert samples[..count][k] == samples[..i][k];
          }
        }
      }
    }
  }

  /**
   * MeanSquaredError and MeanAbsoluteError are non-negative and zero on
   * exact predictions; the absolute one is zero only on exact predictions.
   */
  lemma MeanErrorProperties(m: Metric, samples: seq<Sample>, predictions: seq<Vec>)
    requires MeanError(m, samples, predictions).Ok?
    ensures MeanError(m, samples, predictions).value >= 0.0
    ensures Exact(samples, predictions) ==> MeanError(m, samples, predictions).value == 0.0
    ensures m == Absolute ==> (MeanError(m, samples, predictions).value == 0.0 <==> Exact(samples, predictions))
  {
    ErrorSumProperties(m, samples, predictions, |samples|);
    assert samples[..|samples|] == samples;
  }

  /** One sample's error is its whole error sum, not divided by its number of components. */
  lemma OneSampleError(m: Metric, sample: Sample, prediction: Vec)
    requires |sample.output| <= |prediction|
    ensures MeanError(m, [sample], [prediction]) == Ok(DiffSum(m, sample.output, prediction, |sample.output|))
  {
    assert Covers([sample], [prediction]);
    assert ErrorSum(m, [sample], [prediction], 1) == DiffSum(m, sample.output, prediction, |sample.output|);
  }

  /** The accumulation both mean errors share: every sample's terms added, then the sum divided by the sample count. */
  method MeanErrorLoop(m: Metric, samples: seq<Sample>, predictions: seq<Vec>) returns (e: Result<real>)
    ensures e == MeanError(m, samples, predictions)
  {
    var error := 0.0;
    for i := 0 to |samples|
      invariant Covers(samples[..i], predictions)
      invariant error == ErrorSum(m, samples[..i], predictions, i)
    {
      if i >= |predictions| || |predictions[i]| < |samples[i].output| {
        return Err(OutOfRange);
      }
      var terms := SumTerms(m, samples[i].output, predictions[i]);
      assert samples[..i + 1][..i] == samples[..i];
      ErrorSumPrefix(m, samples[..i + 1], samples[..i], predictions, i);
      error := error + terms;
    }
    assert samples[..|samples|] == samples;
    if |samples| == 0 {
      return Err(Undefined);
    }
    return Ok(error / |samples| as real);
  }

  /** An error sum reads only the samples it adds up. */
  lemma {:induction false} ErrorSumPrefix(m: Metric, samples: seq<Sample>, prefix: seq<Sample>, predictions: seq<Vec>, count: nat)
    requires count <= |prefix| <= |samples| && prefix == samples[..|prefix|]
    requires Covers(samples, predictions)
    ensures Covers(prefix, predictions)
    ensures ErrorSum(m, samples, predictions, count) == ErrorSum(m, prefix, predictions, count)
  {
    if count > 0 {
      ErrorSumPrefix(m, samples, prefix, predictions, count - 1);
      assert prefix[count - 1] == samples[count - 1];
    }
  }

  /** Error.MeanSquaredError. */
  method MeanSquaredError(samples: seq<Sample>, predictions: seq<Vec>) returns (e: Result<real>)
    ensures e == MeanError(Squared, samples, predictions)
  {
    e := MeanErrorLoop(Squared, samples, predictions);
  }

  /** Error.MeanAbsoluteError. */
  method MeanAbsoluteError(samples: seq<Sample>, predictions: seq<Vec>) returns (e: Result<real>)
    ensures e == MeanError(Absolute, samples, predictions)
  {
    e := MeanErrorLoop(Absolute, samples, predictions);
  }

  // ---------------------------------------------------------------------------
  // ArgmaxError
  // ---------------------------------------------------------------------------

  /**
   * The scan over the first n components: the index only moves on a value
   * strictly above the best so far, starting from minus infinity, so it is
   * -1 for no components and otherwise the first index of the maximum.
   */
  function Argmax(v: Vec, n: nat): (r: int)
    requires n <= |v|
    ensures -1 <= r < n
  {
    if n == 0 then -1
    else
      var best := Argmax(v, n - 1);
      if best == -1 || v[n - 1] > v[best] then n - 1 else best
  }

  /** Argmax picks a maximal component, and every component before it is strictly smaller. */
  lemma {:induction false} ArgmaxIsFirstMax(v: Vec, n: nat)
    requires n <= |v|
    ensures n == 0 <==> Argmax(v, n) == -1
    ensures n > 0 ==> 0 <= Argmax(v, n) < n
    ensures n > 0 ==> forall j | 0 <= j < n :: v[j] <= v[Argmax(v, n)]
    ensures n > 0 ==> forall j | 0 <= j < Argmax(v, n) :: v[j] < v[Argmax(v, n)]
  {
    if n > 0 {
      ArgmaxIsFirstMax(v, n - 1);
    }
  }

  /** Whether sample i's output and prediction peak at different components (the prediction read over the output's length). */
  predicate Mismatch(sample: Sample, prediction: Vec)
    requires |sample.output| <= |prediction|
  {
    Argmax(sample.output, |sample.output|) != Argmax(prediction, |sample.output|)
  }

  /** The number of mismatched samples among the first count. */
  function Mismatches(samples: seq<Sample>, predictions: seq<Vec>, count: nat): (c: nat)
    requires count <= |samples| && Covers(samples, predictions)
  {
    if count == 0 then 0
    else Mismatches(samples, predictions, count - 1) + if Mismatch(samples[count - 1], predictions[count - 1]) then 1 else 0
  }

  /** ArgmaxError: a missing prediction or component throws, no samples give NaN, otherwise the mismatched fraction. */
  function ArgmaxErrorOf(samples: seq<Sample>, predictions: seq<Vec>): (e: Result<real>)
  {
    if !Covers(samples, predictions) then Err(OutOfRange)
    else if |samples| == 0 then Err(Undefined)
    else Ok(Mismatches(samples, predictions, |samples|) as real / |samples| as real)
  }

  /** At most count of count samples mismatch; none does when every argmax agrees, all do when none agrees. */
  lemma {:induction false} MismatchesBound(samples: seq<Sample>, predictions: seq<Vec>, count: nat)
    requires count <= |samples| && Covers(samples, predictions)
    ensures Mismatches(samples, predictions, count) <= count
    ensures (forall i | 0 <= i < count :: !Mismatch(samples[i], predictions[i])) ==> Mismatches(samples, predictions, count) == 0
    ensures (forall i | 0 <= i < count :: Mismatch(samples[i], predictions[i])) ==> Mismatches(samples, predictions, count) == count
  {
    if count > 0 {
      MismatchesBound(samples, predictions, count - 1);
    }
  }

  /** ArgmaxError lies in [0, 1]: 0 when every argmax agrees, 1 when none does. */
  lemma ArgmaxErrorRange(samples: seq<Sample>, predictions: seq<Vec>)
    requires ArgmaxErrorOf(samples, predictions).Ok?
    ensures 0.0 <= ArgmaxErrorOf(samples, predictions).value <= 1.0
    ensures (forall i | 0 <= i < |samples| :: !Mismatch(samples[i], predictions[i])) ==> ArgmaxErrorOf(samples, predictions).value == 0.0
    ensures (forall i | 0 <= i < |samples| :: Mismatch(samples[i], predictions[i])) ==> ArgmaxErrorOf(samples, predictions).value == 1.0
  {
    var c := Mismatches(samples, predictions, |samples|);
    MismatchesBound(samples, predictions, |samples|);
    assert c as real <= |samples| as real;
  }

  /** The inner loop of ArgmaxError: both scans, side by side, over the output's components. */
  method Argmaxes(actual: Vec, prediction: Vec) returns (actualIndex: int, predictionIndex: int)
    requires |actual| <= |prediction|
    ensures actualIndex == Argmax(actual, |actual|) && predictionIndex == Argmax(prediction, |actual|)
  {
    actualIndex, predictionIndex := -1, -1;
    var actualValue, predictionValue := 0.0, 0.0;
    for j := 0 to |actual|
      invariant actualIndex == Argmax(actual, j) && predictionIndex == Argmax(prediction, j)
      invariant actualIndex != -1 ==> actualValue == actual[actualIndex]
      invariant predictionIndex != -1 ==> predictionValue == prediction[predictionIndex]
    {
      ArgmaxIsFirstMax(actual, j);
      ArgmaxIsFirstMax(prediction, j);
      if actualIndex == -1 || actual[j] > actualValue {
        actualValue, actualIndex := actual[j], j;
      }
      if predictionIndex == -1 || prediction[j] > predictionValue {
        predictionValue, predictionIndex := prediction[j], j;
      }
    }
  }

  /** Error.ArgmaxError. */
  method ArgmaxError(samples: seq<Sample>, predictions: seq<Vec>) returns (e: Result<real>)
    ensures e == ArgmaxErrorOf(samples, predictions)
  {
    var errors := 0;
    for i := 0 to |samples|
      invariant Covers(samples[..i], predictions)
      invariant errors == Mismatches(samples[..i], predictions, i)
    {
      if i >= |predictions| || |predictions[i]| < |samples[i].output| {
        return Err(OutOfRange);
      }
      var actualIndex, predictionIndex := Argmaxes(samples[i].output, predictions[i]);
      MismatchesPrefix(samples[..i + 1], samples[..i], predictions, i);
      if actualIndex != predictionIndex {
        errors := errors + 1;
      }
    }
    assert samples[..|samples|] == samples;
    if |samples| == 0 {
      return Err(Undefined);
    }
    return Ok(errors as real / |samples| as real);
  }

  /** A mismatch count reads only the samples it counts. */
  lemma {:induction false} MismatchesPrefix(samples: seq<Sample>, prefix: seq<Sample>, predictions: seq<Vec>, count: nat)
    requires count <= |prefix| <= |samples| && prefix == samples[..|prefix|]
    requires Covers(samples, predictions)
    ensures Covers(prefix, predictions)
    ensures Mismatches(samples, predictions, count) == Mismatches(prefix, predictions, count)
  {
    if count > 0 {
      MismatchesPrefix(samples, prefix, predictions, count - 1);
      assert prefix[count - 1] == samples[count - 1];
    }
  }
}
