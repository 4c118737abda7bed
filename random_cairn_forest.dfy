/**
 * Models/RandomCairnForest.cs: a bag of random cairn trees.
 *
 * The forest keeps its samples and tree parameters; AddTree() draws a
 * bootstrap resample of the samples from the forest's Random and grows one
 * random cairn tree on it; Predict averages the trees' answers component by
 * component. The trees' own per-node Randoms are a second stream.
 */
module RandomCairnForests {
  import opened Wrappers
  import opened Vectors
  import opened Samples
  import opened Rng
  import opened Cairns
  import RandomCairnTrees

  // ---------------------------------------------------------------------------
  // The forest's answer
  // ---------------------------------------------------------------------------

  /** No tree throws on x. */
  predicate Reaches(trees: seq<Cairn>, x: Vec)
  {
    forall k | 0 <= k < |trees| :: Predict(trees[k], x) != Err(OutOfRange)
  }

  /** Every tree answers x with numbers: no NaN node is reached. */
  predicate Answered(trees: seq<Cairn>, x: Vec)
  {
    forall k | 0 <= k < |trees| :: Predict(trees[k], x).Ok?
  }

  /** The trees' answers for x, in tree order. */
  function TreeAnswers(trees: seq<Cairn>, x: Vec): (ps: seq<Vec>)
    requires Answered(trees, x)
    ensures |ps| == |trees|
  {
    seq(|trees|, k requires 0 <= k < |trees| => Predict(trees[k], x).value)
  }

  /** Shaped trees answer with dout components. */
  lemma AnswersWidth(trees: seq<Cairn>, x: Vec, din: nat, dout: nat)
    requires (forall k | 0 <= k < |trees| :: Shaped(trees[k], din, dout)) && Answered(trees, x)
    ensures SameLength(TreeAnswers(trees, x), dout) && Wide(TreeAnswers(trees, x), dout)
  {
    forall k | 0 <= k < |trees| ensures |TreeAnswers(trees, x)[k]| == dout {
      PredictShape(trees[k], x, din, dout);
    }
  }

  /**
   * The forest's prediction: an input longer than some cairn on its path
   * throws; otherwise a NaN answer of any tree makes every component NaN,
   * and so does a forest without trees (0/0), unless there are no components
   * at all; otherwise the component-wise mean of the trees' answers.
   */
  function ForestPredict(trees: seq<Cairn>, x: Vec, din: nat, dout: nat): (y: Result<Vec>)
    requires forall k | 0 <= k < |trees| :: Shaped(trees[k], din, dout)
    ensures y.Ok? ==> |y.value| == dout
  {
    if !Reaches(trees, x) then Err(OutOfRange)
    else if !Answered(trees, x) then Err(Undefined)
    else if trees == [] then (if dout == 0 then Ok([]) else Err(NotFitted))
    else
      AnswersWidth(trees, x, din, dout);
      Ok(Mean(TreeAnswers(trees, x), dout))
  }

  /**
   * A forest of full trees (or of any trees, when there are no output
   * components) answers every input of at most din components with dout
   * numbers, provided it has a tree or no component is asked for.
   */
  lemma ForestPredictDefined(trees: seq<Cairn>, x: Vec, din: nat, dout: nat)
    requires forall k | 0 <= k < |trees| :: Shaped(trees[k], din, dout) && (Full(trees[k]) || dout == 0)
    requires (|trees| > 0 || dout == 0) && |x| <= din
    ensures ForestPredict(trees, x, din, dout).Ok?
    ensures |ForestPredict(trees, x, din, dout).value| == dout
  {
    forall k | 0 <= k < |trees| ensures Predict(trees[k], x).Ok? {
      PredictShape(trees[k], x, din, dout);
    }
  }

  /** A forest of one tree answers exactly what the tree answers, failures included. */
  lemma SingleTreeForest(t: Cairn, x: Vec, din: nat, dout: nat)
    requires Shaped(t, din, dout)
    ensures ForestPredict([t], x, din, dout) == Predict(t, x)
  {
    PredictShape(t, x, din, dout);
    if Predict(t, x).Ok? {
      var v := Predict(t, x).value;
      assert TreeAnswers([t], x) == seq(1, _ => v);
      MeanOfCopies(v, 1);
    } else {
      assert [t][0] == t;
    }
  }

  // ---------------------------------------------------------------------------
  // Growing a tree
  // ---------------------------------------------------------------------------

  /** A resample of samples sharing widths shares them. */
  lemma ResampledUniform(samples: seq<Sample>, random: Stream, pos: nat, din: nat, dout: nat)
    requires Uniform(samples, din, dout)
    ensures Uniform(Resampled(samples, random, pos).0, din, dout)
  {
    ResampledFrom(samples, random, pos);
  }

  /**
   * One AddTree on non-empty samples: the bootstrap resample drawn from the
   * forest's stream at pos, and the random cairn tree grown on all of it
   * from the node stream at nodePos; with the two positions after them.
   */
  function NewTree(samples: seq<Sample>, m: int, maxDepth: int, minimize: Minimize, din: nat, dout: nat,
                   random: Stream, pos: nat, nodeRandom: Stream, nodePos: nat): (r: (Cairn, nat, nat))
    requires Uniform(samples, din, dout)
  {
    var bag := Resampled(samples, random, pos);
    ResampledUniform(samples, random, pos, din, dout);
    var grown := RandomCairnTrees.RGrow(minimize, bag.0, Range(|bag.0|), m, maxDepth, 0, din, dout, nodeRandom, nodePos);
    (grown.0, bag.1, grown.1)
  }

  /**
   * The new tree has the samples' widths and, with a positive leaf minimum
   * on non-empty samples, is full; the resample consumed one value of the
   * forest's stream per sample, and every one of the new tree's training
   * samples is one of the forest's.
   */
  lemma NewTreeFacts(samples: seq<Sample>, m: int, maxDepth: int, minimize: Minimize, din: nat, dout: nat,
                     random: Stream, pos: nat, nodeRandom: Stream, nodePos: nat)
    requires Uniform(samples, din, dout)
    ensures var grown := NewTree(samples, m, maxDepth, minimize, din, dout, random, pos, nodeRandom, nodePos);
      && Shaped(grown.0, din, dout) && (m > 0 && |samples| > 0 ==> Full(grown.0))
      && grown.1 == pos + |samples|
  {
    var bag := Resampled(samples, random, pos);
    ResampledUniform(samples, random, pos, din, dout);
    RandomCairnTrees.RGrowShape(minimize, bag.0, Range(|bag.0|), m, maxDepth, 0, din, dout, nodeRandom, nodePos);
  }

  /**
   * AddTree's work on the forest's values: the resampling loop, then the
   * tree's Build on the resample, which throws when there are no samples.
   */
  method GrowTree(samples: seq<Sample>, m: int, maxDepth: int, minimize: Minimize, din: nat, dout: nat,
                  random: Stream, pos: nat, nodeRandom: Stream, nodePos: nat)
    returns (t: Result<Cairn>, pos': nat, nodePos': nat)
    requires Uniform(samples, din, dout)
    ensures |samples| == 0 ==> t == Err(OutOfRange) && pos' == pos && nodePos' == nodePos
    ensures |samples| > 0 ==>
      var grown := NewTree(samples, m, maxDepth, minimize, din, dout, random, pos, nodeRandom, nodePos);
      t == Ok(grown.0) && pos' == grown.1 && nodePos' == grown.2
    ensures t.Ok? ==> Shaped(t.value, din, dout) && (m > 0 ==> Full(t.value))
  {
    var resamples;
    resamples, pos' := Resample(samples, random, pos);
    ResampledUniform(samples, random, pos, din, dout);
    t, nodePos' := RandomCairnTrees.Build(resamples, m, maxDepth, minimize, din, dout, nodeRandom, nodePos);
  }

  // ---------------------------------------------------------------------------
  // The forest
  // ---------------------------------------------------------------------------

  class RandomCairnForest {
    /** The forest's Random, read by the resampling, and how many values it has given. */
    const random: Stream
    var position: nat
    /** The per-node Randoms of the trees, one stream, and how many values it has given. */
    const nodeRandom: Stream
    var nodePosition: nat
    const samples: seq<Sample>
    const minSamplesPerLeaf: int
    const maxLeafDepth: int
    const minimize: Minimize
    /** The input and output widths of the samples. */
    const inputWidth: nat
    const outputWidth: nat
    var trees: seq<Cairn>

    /** The samples share their widths, every tree has them, and with a positive leaf minimum every tree is full. */
    ghost predicate Valid()
      reads this
    {
      && Uniform(samples, inputWidth, outputWidth)
      && (forall k | 0 <= k < |trees| :: Shaped(trees[k], inputWidth, outputWidth))
      && (minSamplesPerLeaf > 0 ==> forall k | 0 <= k < |trees| :: Full(trees[k]))
    }

    constructor (samples: seq<Sample>, minSamplesPerLeaf: int, maxLeafDepth: int, minimize: Minimize,
                 random: Stream, nodeRandom: Stream, din: nat, dout: nat)
      requires Uniform(samples, din, dout)
      ensures Valid() && trees == [] && position == 0 && nodePosition == 0
      ensures this.samples == samples && this.minSamplesPerLeaf == minSamplesPerLeaf && this.maxLeafDepth == maxLeafDepth
      ensures this.minimize == minimize && this.random == random && this.nodeRandom == nodeRandom
      ensures inputWidth == din && outputWidth == dout
    {
      this.random := random;
      position := 0;
      this.nodeRandom := nodeRandom;
      nodePosition := 0;
      this.samples := samples;
      this.minSamplesPerLeaf := minSamplesPerLeaf;
      this.maxLeafDepth := maxLeafDepth;
      this.minimize := minimize;
      inputWidth := din;
      outputWidth := dout;
      trees := [];
    }

    /**
     * AddTree: samples.Count draws of random.Next(samples.Count), then one
     * tree grown on the resample. With no samples the resample is empty and
     * growing it throws at samples[0], leaving the trees as they were.
     */
    method AddTree() returns (r: Result<()>)
      requires Valid()
      modifies this
      ensures Valid()
      ensures |samples| == 0 ==>
        r == Err(OutOfRange) && trees == old(trees) && position == old(position) && nodePosition == old(nodePosition)
      ensures |samples| > 0 ==>
        var grown := NewTree(samples, minSamplesPerLeaf, maxLeafDepth, minimize, inputWidth, outputWidth,
                             random, old(position), nodeRandom, old(nodePosition));
        r == Ok(()) && trees == old(trees) + [grown.0] && position == grown.1 && nodePosition == grown.2
    {
      var t, p, q := GrowTree(samples, minSamplesPerLeaf, maxLeafDepth, minimize, inputWidth, outputWidth,
                              random, position, nodeRandom, nodePosition);
      if t.Err? {
        return Err(t.error);
      }
      position, nodePosition := p, q;
      trees := trees + [t.value];
      return Ok(());
    }

    /**
     * Predict: the sum starts with samples[0].output.Length zeros, so with no
     * samples it throws; otherwise every tree's answer is added in, and the
     * sum divided by the number of trees.
     */
    method Predict(x: Vec) returns (y: Result<Vec>)
      requires Valid()
      ensures |samples| == 0 ==> y == Err(OutOfRange)
      ensures |samples| > 0 ==> y == ForestPredict(trees, x, inputWidth, outputWidth)
    {
      if |samples| == 0 {
        return Err(OutOfRange);
      }
      var dout := |samples[0].output|;
      var acc := new real[dout](_ => 0.0);
      var undefined := false;
      ghost var ps: seq<Vec> := [];
      var k := 0;
      while k < |trees|
        invariant 0 <= k <= |trees| && acc.Length == outputWidth
        invariant Reaches(trees[..k], x) && (undefined <==> !Answered(trees[..k], x))
        invariant !undefined ==> ps == TreeAnswers(trees[..k], x) && Wide(ps, outputWidth)
        invariant !undefined ==> forall i | 0 <= i < outputWidth :: acc[i] == ColumnSum(ps, i)
      {
        assert trees[..k + 1] == trees[..k] + [trees[k]];
        var answer := Cairns.Predict(trees[k], x);
        if answer.Err? && answer.error == OutOfRange {
          assert !Reaches(trees, x);
          return Err(OutOfRange);
        }
        PredictShape(trees[k], x, inputWidth, outputWidth);
        if answer.Err? {
          undefined := true;
        } else if !undefined {
          AddInto(acc, answer.value);
          forall i | 0 <= i < outputWidth ensures acc[i] == ColumnSum(ps + [answer.value], i) {
            ColumnSumAppend(ps, [answer.value], i);
          }
          ps := ps + [answer.value];
        }
        k := k + 1;
      }
      assert trees[..k] == trees;
      if undefined {
        return Err(Undefined);
      }
      if |trees| == 0 {
        return if outputWidth == 0 then Ok([]) else Err(NotFitted);
      }
      DivideBy(acc, |trees| as real);
      assert acc[..] == Mean(ps, outputWidth);
      y := Ok(acc[..]);
    }
  }
}
