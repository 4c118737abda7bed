/**
 * Residual boosting, the engine shared by ResidualRandomForest.cs,
 * HeavyResidualRandomForest.cs, Models/ResidualAggregator.cs,
 * ResidualPredictor.cs and BoostedRandomTree.cs.
 *
 * Every training sample carries an accumulator, zero at the start. Stage t
 * fits a model on the residual samples (same inputs, outputs less the
 * accumulators); then every accumulator gains learningRate times the new
 * model's prediction for its input. The booster predicts, for any input, the
 * learning-rate-scaled sum of its stage predictions in stage order.
 *
 * The stage models are generic (`M`): a fitted model is read only through a
 * prediction function `predict`, and a stage is produced by a `Learner`, the
 * constructor the booster calls, given the residual samples and the stage's
 * index (which stands for the stage's own random choices).
 */
module Boosting {
  import opened Vectors
  import opened Samples

  type Learner<M> = (seq<Sample>, nat) -> M

  /** A stage model seen only through its Predict (Models/Model.cs and the unmodelled forests and trees). */
  type Predictor = Vec -> Vec

  function Apply(p: Predictor, x: Vec): Vec
  {
    p(x)
  }

  /** Every output has n components. */
  predicate OutputWidth(samples: seq<Sample>, n: nat)
  {
    forall i | 0 <= i < |samples| :: |samples[i].output| == n
  }

  /** Every stage answers x with n components. */
  predicate Answers<M>(stages: seq<M>, predict: (M, Vec) -> Vec, x: Vec, n: nat)
  {
    forall k | 0 <= k < |stages| :: |predict(stages[k], x)| == n
  }

  /** Every model the learner can build answers every training input with n components. */
  ghost predicate LearnerAnswers<M>(learn: Learner<M>, predict: (M, Vec) -> Vec, samples: seq<Sample>, n: nat)
  {
    forall s, t, i | 0 <= i < |samples| :: |predict(learn(s, t), samples[i].input)| == n
  }

  // ---------------------------------------------------------------------------
  // The boosted prediction
  // ---------------------------------------------------------------------------

  /** The accumulator of Predict: zero, then lr·p(x) added for each stage p, in stage order. */
  function Boost<M>(stages: seq<M>, predict: (M, Vec) -> Vec, lr: real, x: Vec, n: nat): (y: Vec)
    requires Answers(stages, predict, x, n)
    ensures |y| == n
    decreases |stages|
  {
    if stages == [] then Zeros(n)
    else Add(Boost(stages[..|stages| - 1], predict, lr, x, n), Scale(lr, predict(stages[|stages| - 1], x)))
  }

  /** The plain sum of the stage predictions. */
  function PredictionSum<M>(stages: seq<M>, predict: (M, Vec) -> Vec, x: Vec, n: nat): (y: Vec)
    requires Answers(stages, predict, x, n)
    ensures |y| == n
    decreases |stages|
  {
    if stages == [] then Zeros(n)
    else Add(PredictionSum(stages[..|stages| - 1], predict, x, n), predict(stages[|stages| - 1], x))
  }

  /** The boosted prediction is the learning rate times the sum of the stage predictions. */
  lemma {:induction false} BoostIsScaledSum<M>(stages: seq<M>, predict: (M, Vec) -> Vec, lr: real, x: Vec, n: nat)
    requires Answers(stages, predict, x, n)
    ensures Boost(stages, predict, lr, x, n) == Scale(lr, PredictionSum(stages, predict, x, n))
    decreases |stages|
  {
    if stages != [] {
      var init := stages[..|stages| - 1];
      BoostIsScaledSum(init, predict, lr, x, n);
      var a, p := PredictionSum(init, predict, x, n), predict(stages[|stages| - 1], x);
      assert Add(Scale(lr, a), Scale(lr, p)) == Scale(lr, Add(a, p)) by {
        forall j | 0 <= j < n ensures Add(Scale(lr, a), Scale(lr, p))[j] == Scale(lr, Add(a, p))[j] {
          calc {
            Add(Scale(lr, a), Scale(lr, p))[j];
            lr * a[j] + lr * p[j];
            lr * (a[j] + p[j]);
          }
        }
      }
    } else {
      assert Scale(lr, Zeros(n)) == Zeros(n);
    }
  }

  /** Boosting two runs of stages one after the other adds their predictions. */
  lemma {:induction false} BoostAppend<M>(a: seq<M>, b: seq<M>, predict: (M, Vec) -> Vec, lr: real, x: Vec, n: nat)
    requires Answers(a, predict, x, n) && Answers(b, predict, x, n)
    ensures Answers(a + b, predict, x, n)
    ensures Boost(a + b, predict, lr, x, n) == Add(Boost(a, predict, lr, x, n), Boost(b, predict, lr, x, n))
    decreases |b|
  {
    var ab := a + b;
    assert Answers(ab, predict, x, n) by {
      forall k | 0 <= k < |ab| ensures |predict(ab[k], x)| == n {
        if k >= |a| {
          assert ab[k] == b[k - |a|];
        }
      }
    }
    if b == [] {
      assert ab == a;
      assert Add(Boost(a, predict, lr, x, n), Zeros(n)) == Boost(a, predict, lr, x, n);
    } else {
      var init := b[..|b| - 1];
      BoostAppend(a, init, predict, lr, x, n);
      assert ab[..|ab| - 1] == a + init;
      var u, v, w := Boost(a, predict, lr, x, n), Boost(init, predict, lr, x, n), Scale(lr, predict(b[|b| - 1], x));
      assert Add(Add(u, v), w) == Add(u, Add(v, w));
    }
  }

  // ---------------------------------------------------------------------------
  // Training: residuals, accumulators and the stages
  // ---------------------------------------------------------------------------

  /** The residual samples: the same inputs, each output less its accumulator. */
  function Residuals(samples: seq<Sample>, accs: seq<Vec>): (r: seq<Sample>)
    requires |accs| == |samples| && forall i | 0 <= i < |samples| :: |accs[i]| == |samples[i].output|
    ensures |r| == |samples|
    ensures forall i | 0 <= i < |samples| ::
      r[i].input == samples[i].input && |r[i].output| == |accs[i]| && Add(r[i].output, accs[i]) == samples[i].output
  {
    var r := seq(|samples|, i requires 0 <= i < |samples| => Sample(samples[i].input, Sub(samples[i].output, accs[i])));
    assert forall i | 0 <= i < |samples| :: Add(r[i].output, accs[i]) == samples[i].output by {
      forall i | 0 <= i < |samples| ensures Add(r[i].output, accs[i]) == samples[i].output {
        assert Add(r[i].output, accs[i]) == samples[i].output;
      }
    }
    r
  }

  /** Every training accumulator: the boosted prediction of the stages for the sample's input. */
  function Accumulators<M>(stages: seq<M>, predict: (M, Vec) -> Vec, lr: real, samples: seq<Sample>, n: nat): (accs: seq<Vec>)
    requires forall i | 0 <= i < |samples| :: Answers(stages, predict, samples[i].input, n)
    ensures |accs| == |samples| && forall i | 0 <= i < |samples| :: |accs[i]| == n
  {
    seq(|samples|, i requires 0 <= i < |samples| => Boost(stages, predict, lr, samples[i].input, n))
  }

  /** The stages a booster builds: stage t is fitted on the residuals the first t stages leave. */
  function Stages<M>(learn: Learner<M>, predict: (M, Vec) -> Vec, samples: seq<Sample>, lr: real, t: nat, n: nat)
    : (stages: seq<M>)
    requires OutputWidth(samples, n) && LearnerAnswers(learn, predict, samples, n)
    ensures |stages| == t
    ensures forall i | 0 <= i < |samples| :: Answers(stages, predict, samples[i].input, n)
    decreases t
  {
    if t == 0 then []
    else
      var before := Stages(learn, predict, samples, lr, t - 1, n);
      before + [learn(Residuals(samples, Accumulators(before, predict, lr, samples, n)), t - 1)]
  }

  /** The residuals the first t stages leave. */
  function StageResiduals<M>(learn: Learner<M>, predict: (M, Vec) -> Vec, samples: seq<Sample>, lr: real, t: nat, n: nat)
    : (r: seq<Sample>)
    requires OutputWidth(samples, n) && LearnerAnswers(learn, predict, samples, n)
    ensures |r| == |samples|
  {
    Residuals(samples, Accumulators(Stages(learn, predict, samples, lr, t, n), predict, lr, samples, n))
  }

  /** Before any stage the residuals are the training samples themselves. */
  lemma FirstResiduals<M>(learn: Learner<M>, predict: (M, Vec) -> Vec, samples: seq<Sample>, lr: real, n: nat)
    requires OutputWidth(samples, n) && LearnerAnswers(learn, predict, samples, n)
    ensures StageResiduals(learn, predict, samples, lr, 0, n) == samples
  {
    var r := StageResiduals(learn, predict, samples, lr, 0, n);
    forall i | 0 <= i < |samples| ensures r[i] == samples[i] {
      assert r[i].output == Sub(samples[i].output, Zeros(n));
      assert r[i].output == samples[i].output;
    }
  }

  /** Each stage lowers every residual by lr times its own prediction for that sample. */
  lemma ResidualStep<M>(learn: Learner<M>, predict: (M, Vec) -> Vec, samples: seq<Sample>, lr: real, t: nat, n: nat, i: nat)
    requires OutputWidth(samples, n) && LearnerAnswers(learn, predict, samples, n) && i < |samples|
    ensures var stage := Stages(learn, predict, samples, lr, t + 1, n)[t];
      && stage == learn(StageResiduals(learn, predict, samples, lr, t, n), t)
      && StageResiduals(learn, predict, samples, lr, t + 1, n)[i].output
         == Sub(StageResiduals(learn, predict, samples, lr, t, n)[i].output, Scale(lr, predict(stage, samples[i].input)))
  {
    var before := Stages(learn, predict, samples, lr, t, n);
    var after := Stages(learn, predict, samples, lr, t + 1, n);
    var stage := after[t];
    var x, y := samples[i].input, samples[i].output;
    assert after[..t] == before;
    var a, p := Boost(before, predict, lr, x, n), Scale(lr, predict(stage, x));
    assert Boost(after, predict, lr, x, n) == Add(a, p);
    assert Sub(y, Add(a, p)) == Sub(Sub(y, a), p);
  }

  /** The accumulators after one more stage: each gains lr times the stage's prediction. */
  lemma AccumulatorsStep<M>(stages: seq<M>, m: M, predict: (M, Vec) -> Vec, lr: real, samples: seq<Sample>, n: nat, i: nat)
    requires forall j | 0 <= j < |samples| :: Answers(stages, predict, samples[j].input, n)
    requires forall j | 0 <= j < |samples| :: |predict(m, samples[j].input)| == n
    requires i < |samples|
    ensures forall j | 0 <= j < |samples| :: Answers(stages + [m], predict, samples[j].input, n)
    ensures Accumulators(stages + [m], predict, lr, samples, n)[i]
         == Add(Accumulators(stages, predict, lr, samples, n)[i], Scale(lr, predict(m, samples[i].input)))
  {
    forall j | 0 <= j < |samples| ensures Answers(stages + [m], predict, samples[j].input, n) {
      BoostAppendOne(stages, m, predict, samples[j].input, n);
    }
    assert (stages + [m])[..|stages|] == stages;
  }

  lemma BoostAppendOne<M>(stages: seq<M>, m: M, predict: (M, Vec) -> Vec, x: Vec, n: nat)
    requires Answers(stages, predict, x, n) && |predict(m, x)| == n
    ensures Answers(stages + [m], predict, x, n)
  {
    forall k | 0 <= k < |stages| + 1 ensures |predict((stages + [m])[k], x)| == n {
      if k < |stages| {
        assert (stages + [m])[k] == stages[k];
      }
    }
  }

  // ---------------------------------------------------------------------------
  // The update loops the boosters share
  // ---------------------------------------------------------------------------

  /** `accumulator[j] += learningRate * prediction[j]` for every component j. */
  method AddScaled(acc: Vec, lr: real, prediction: Vec) returns (acc': Vec)
    requires |prediction| == |acc|
    ensures acc' == Add(acc, Scale(lr, prediction))
  {
    acc' := acc;
    for j := 0 to |prediction|
      invariant |acc'| == |acc|
      invariant forall k | 0 <= k < j :: acc'[k] == acc[k] + lr * prediction[k]
      invariant forall k | j <= k < |acc| :: acc'[k] == acc[k]
    {
      acc' := acc'[j := acc'[j] + lr * prediction[j]];
    }
  }

  /** `residual[i] = output[i] - accumulator[i]` for every component i. */
  method Residual(output: Vec, acc: Vec) returns (residual: Vec)
    requires |acc| == |output|
    ensures residual == Sub(output, acc)
  {
    residual := [];
    for i := 0 to |output|
      invariant |residual| == i
      invariant forall k | 0 <= k < i :: residual[k] == output[k] - acc[k]
    {
      residual := residual + [output[i] - acc[i]];
    }
  }

  /**
   * The in-place update, component by component: `accumulator[j] +=
   * learningRate * prediction[j]`, then `residual[j] = output[j] -
   * accumulator[j]`.
   */
  method UpdateSample(acc: Vec, residual: Vec, output: Vec, lr: real, prediction: Vec) returns (acc': Vec, residual': Vec)
    requires |prediction| == |acc| == |residual| == |output|
    ensures acc' == Add(acc, Scale(lr, prediction))
    ensures residual' == Sub(output, acc')
  {
    acc', residual' := acc, residual;
    for j := 0 to |prediction|
      invariant |acc'| == |acc| && |residual'| == |residual|
      invariant forall k | 0 <= k < j :: acc'[k] == acc[k] + lr * prediction[k] && residual'[k] == output[k] - acc'[k]
      invariant forall k | j <= k < |acc| :: acc'[k] == acc[k]
    {
      acc' := acc'[j := acc'[j] + lr * prediction[j]];
      residual' := residual'[j := output[j] - acc'[j]];
    }
  }

  /** The zeroed accumulators and the starting residual samples (each output less its zero accumulator). */
  method StartResiduals(samples: seq<Sample>) returns (accs: seq<Vec>, residuals: seq<Sample>)
    ensures |accs| == |samples| && forall i | 0 <= i < |samples| :: accs[i] == Zeros(|samples[i].output|)
    ensures forall i | 0 <= i < |samples| :: |accs[i]| == |samples[i].output|
    ensures residuals == Residuals(samples, accs) && residuals == samples
  {
    accs := [];
    for i := 0 to |samples|
      invariant |accs| == i && forall k | 0 <= k < i :: accs[k] == Zeros(|samples[k].output|)
    {
      accs := accs + [Zeros(|samples[i].output|)];
    }
    residuals := FreshResiduals(samples, accs);
    forall i | 0 <= i < |samples| ensures residuals[i] == samples[i] {
      assert residuals[i].output == Sub(samples[i].output, accs[i]);
    }
  }

  /** A new residual list: `new Sample(sample.input, residual)` with residual = output - accumulator. */
  method FreshResiduals(samples: seq<Sample>, accs: seq<Vec>) returns (residuals: seq<Sample>)
    requires |accs| == |samples| && forall i | 0 <= i < |samples| :: |accs[i]| == |samples[i].output|
    ensures residuals == Residuals(samples, accs)
  {
    residuals := [];
    for i := 0 to |samples|
      invariant |residuals| == i
      invariant forall k | 0 <= k < i :: residuals[k] == Residuals(samples, accs)[k]
    {
      var residual := Residual(samples[i].output, accs[i]);
      residuals := residuals + [Sample(samples[i].input, residual)];
    }
  }

  /**
   * The per-sample update loop of the in-place boosters: each residual
   * sample's input goes to the new stage, and its accumulator and residual
   * output are updated in place.
   */
  method ApplyStage<M>(m: M, predict: (M, Vec) -> Vec, lr: real, samples: seq<Sample>, accs: seq<Vec>, residuals: seq<Sample>, n: nat)
    returns (accs': seq<Vec>, residuals': seq<Sample>)
    requires OutputWidth(samples, n) && |accs| == |samples| && forall i | 0 <= i < |samples| :: |accs[i]| == n
    requires residuals == Residuals(samples, accs)
    requires forall i | 0 <= i < |samples| :: |predict(m, samples[i].input)| == n
    ensures |accs'| == |samples|
    ensures forall i | 0 <= i < |samples| :: accs'[i] == Add(accs[i], Scale(lr, predict(m, samples[i].input)))
    ensures forall i | 0 <= i < |samples| :: |accs'[i]| == n
    ensures residuals' == Residuals(samples, accs')
  {
    accs', residuals' := accs, residuals;
    for i := 0 to |samples|
      invariant |accs'| == |samples| && |residuals'| == |samples|
      invariant forall k | 0 <= k < i :: accs'[k] == Add(accs[k], Scale(lr, predict(m, samples[k].input)))
      invariant forall k | i <= k < |samples| :: accs'[k] == accs[k]
      invariant forall k | 0 <= k < |samples| :: residuals'[k] == Sample(samples[k].input, Sub(samples[k].output, accs'[k]))
    {
      var prediction := predict(m, residuals'[i].input);
      var acc, residual := UpdateSample(accs'[i], residuals'[i].output, samples[i].output, lr, prediction);
      accs' := accs'[i := acc];
      residuals' := residuals'[i := Sample(residuals'[i].input, residual)];
    }
  }

  /** The same update with the predictions computed beforehand, one per sample. */
  method ApplyPredictions(predictions: seq<Vec>, lr: real, samples: seq<Sample>, accs: seq<Vec>, residuals: seq<Sample>, n: nat)
    returns (accs': seq<Vec>, residuals': seq<Sample>)
    requires OutputWidth(samples, n) && |accs| == |samples| && forall i | 0 <= i < |samples| :: |accs[i]| == n
    requires residuals == Residuals(samples, accs)
    requires |predictions| == |samples| && forall i | 0 <= i < |samples| :: |predictions[i]| == n
    ensures |accs'| == |samples|
    ensures forall i | 0 <= i < |samples| :: accs'[i] == Add(accs[i], Scale(lr, predictions[i]))
    ensures forall i | 0 <= i < |samples| :: |accs'[i]| == n
    ensures residuals' == Residuals(samples, accs')
  {
    accs', residuals' := accs, residuals;
    for i := 0 to |samples|
      invariant |accs'| == |samples| && |residuals'| == |samples|
      invariant forall k | 0 <= k < i :: accs'[k] == Add(accs[k], Scale(lr, predictions[k]))
      invariant forall k | i <= k < |samples| :: accs'[k] == accs[k]
      invariant forall k | 0 <= k < |samples| :: residuals'[k] == Sample(samples[k].input, Sub(samples[k].output, accs'[k]))
    {
      var acc, residual := UpdateSample(accs'[i], residuals'[i].output, samples[i].output, lr, predictions[i]);
      accs' := accs'[i := acc];
      residuals' := residuals'[i := Sample(residuals'[i].input, residual)];
    }
  }

  /** The accumulator-only update of the boosters that rebuild their residuals every stage. */
  method Accumulate<M>(m: M, predict: (M, Vec) -> Vec, lr: real, samples: seq<Sample>, accs: seq<Vec>, n: nat)
    returns (accs': seq<Vec>)
    requires |accs| == |samples| && forall i | 0 <= i < |samples| :: |accs[i]| == n
    requires forall i | 0 <= i < |samples| :: |predict(m, samples[i].input)| == n
    ensures |accs'| == |samples|
    ensures forall i | 0 <= i < |samples| :: accs'[i] == Add(accs[i], Scale(lr, predict(m, samples[i].input)))
  {
    accs' := accs;
    for i := 0 to |samples|
      invariant |accs'| == |samples|
      invariant forall k | 0 <= k < i :: accs'[k] == Add(accs[k], Scale(lr, predict(m, samples[k].input)))
      invariant forall k | i <= k < |samples| :: accs'[k] == accs[k]
    {
      var prediction := predict(m, samples[i].input);
      var acc := AddScaled(accs'[i], lr, prediction);
      accs' := accs'[i := acc];
    }
  }

  /** A stage added to the booster moves the accumulators to those of the longer stage list. */
  lemma NextAccumulators<M>(stages: seq<M>, m: M, predict: (M, Vec) -> Vec, lr: real, samples: seq<Sample>,
                            accs: seq<Vec>, accs': seq<Vec>, n: nat)
    requires forall j | 0 <= j < |samples| :: Answers(stages, predict, samples[j].input, n)
    requires forall j | 0 <= j < |samples| :: |predict(m, samples[j].input)| == n
    requires accs == Accumulators(stages, predict, lr, samples, n) && |accs'| == |samples|
    requires forall i | 0 <= i < |samples| :: accs'[i] == Add(accs[i], Scale(lr, predict(m, samples[i].input)))
    ensures forall j | 0 <= j < |samples| :: Answers(stages + [m], predict, samples[j].input, n)
    ensures accs' == Accumulators(stages + [m], predict, lr, samples, n)
  {
    forall i | 0 <= i < |samples| ensures accs'[i] == Accumulators(stages + [m], predict, lr, samples, n)[i] {
      AccumulatorsStep(stages, m, predict, lr, samples, n, i);
    }
  }

  /** A model's prediction for every sample's input, in sample order. */
  method PredictInputs<M>(m: M, predict: (M, Vec) -> Vec, samples: seq<Sample>) returns (predictions: seq<Vec>)
    ensures |predictions| == |samples|
    ensures forall i | 0 <= i < |samples| :: predictions[i] == predict(m, samples[i].input)
  {
    predictions := [];
    for i := 0 to |samples|
      invariant |predictions| == i
      invariant forall k | 0 <= k < i :: predictions[k] == predict(m, samples[k].input)
    {
      predictions := predictions + [predict(m, samples[i].input)];
    }
  }

  /** The accumulator loop of Predict: start from zero and add lr times each stage's prediction, in stage order. */
  method PredictSum<M>(stages: seq<M>, predict: (M, Vec) -> Vec, lr: real, x: Vec, n: nat) returns (y: Vec)
    requires Answers(stages, predict, x, n)
    ensures y == Boost(stages, predict, lr, x, n)
  {
    y := Zeros(n);
    for k := 0 to |stages|
      invariant y == Boost(stages[..k], predict, lr, x, n)
    {
      var prediction := predict(stages[k], x);
      y := AddScaled(y, lr, prediction);
      assert stages[..k + 1][..k] == stages[..k];
    }
    assert stages[..|stages|] == stages;
  }

  // ---------------------------------------------------------------------------
  // Stages seen only through their predictions
  // ---------------------------------------------------------------------------

  /** Every predictor answers every input with n components. */
  ghost predicate PredictorsWidth(ps: seq<Predictor>, n: nat)
  {
    forall k, x | 0 <= k < |ps| :: |ps[k](x)| == n
  }

  /** Every predictor the learner can build answers every input with n components. */
  ghost predicate LearnerWidth(learn: Learner<Predictor>, n: nat)
  {
    forall s, t, x :: |learn(s, t)(x)| == n
  }

  lemma PredictorsAnswer(ps: seq<Predictor>, x: Vec, n: nat)
    requires PredictorsWidth(ps, n)
    ensures Answers(ps, Apply, x, n)
  {
    forall k | 0 <= k < |ps| ensures |Apply(ps[k], x)| == n {
      assert |ps[k](x)| == n;
    }
  }

  lemma LearnerAnswersAll(learn: Learner<Predictor>, samples: seq<Sample>, n: nat)
    requires LearnerWidth(learn, n)
    ensures LearnerAnswers(learn, Apply, samples, n)
  {
    forall s, t, i | 0 <= i < |samples| ensures |Apply(learn(s, t), samples[i].input)| == n {
      assert |learn(s, t)(samples[i].input)| == n;
    }
  }

  /** The stages of such a learner answer every input, not only the training inputs. */
  lemma {:induction false} StagesWidth(learn: Learner<Predictor>, samples: seq<Sample>, lr: real, t: nat, n: nat)
    requires OutputWidth(samples, n) && LearnerWidth(learn, n)
    ensures LearnerAnswers(learn, Apply, samples, n)
    ensures PredictorsWidth(Stages(learn, Apply, samples, lr, t, n), n)
    decreases t
  {
    LearnerAnswersAll(learn, samples, n);
    if t > 0 {
      StagesWidth(learn, samples, lr, t - 1, n);
    }
  }
}
