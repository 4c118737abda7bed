/**
 * WeightedRandomTree.cs: a tree over weighted samples.
 *
 * A node stores the weighted mean output sum(w * y) / sum(w) of its samples;
 * weights are not checked, and a node whose weights sum to zero has no
 * defined mean (every component NaN or infinite), which the model records as
 * the node output Err(Undefined).
 * A node holding a single sample is a leaf. Otherwise the listed components
 * are tried in order: the distinct values of a component are put in a
 * random order (one draw per value), a component with a single value is
 * skipped, and the first value leaving strictly more than minSamplesPerLeaf
 * samples on both sides of `input[f] <= value` is taken. The two sides are
 * grown, left first, with the same random source and the same component
 * list. Nothing compares errors.
 */
module WeightedTrees {
  import opened Wrappers
  import opened Vectors
  import opened Rng
  import opened Trees

  datatype WeightedSample = WeightedSample(input: Vec, output: Vec, weight: real)

  /** A weighted tree: each node's output is its weighted mean, or Err(Undefined) when there is none. */
  type WTree = NodeTree<Result<Vec>>

  function WInputOf(s: WeightedSample): Vec
  {
    s.input
  }

  /** Every input has `din` components. */
  predicate WInputWidth(ws: seq<WeightedSample>, din: nat)
  {
    forall k | 0 <= k < |ws| :: |ws[k].input| == din
  }

  /** Every input has `din` components and every output `dout`. */
  predicate WUniform(ws: seq<WeightedSample>, din: nat, dout: nat)
  {
    forall k | 0 <= k < |ws| :: |ws[k].input| == din && |ws[k].output| == dout
  }

  /** Every weight is positive (what a caller of the forest usually supplies, though nothing checks it). */
  predicate PositiveWeights(ws: seq<WeightedSample>)
  {
    forall k | 0 <= k < |ws| :: ws[k].weight > 0.0
  }

  lemma WUniformSub(ws: seq<WeightedSample>, sub: seq<WeightedSample>, din: nat, dout: nat)
    requires WUniform(ws, din, dout) && multiset(sub) <= multiset(ws)
    ensures WUniform(sub, din, dout)
    ensures PositiveWeights(ws) ==> PositiveWeights(sub)
  {
    forall k | 0 <= k < |sub| ensures |sub[k].input| == din && |sub[k].output| == dout && (PositiveWeights(ws) ==> sub[k].weight > 0.0) {
      assert sub[k] in multiset(sub);
      assert sub[k] in multiset(ws);
    }
  }

  // ---------------------------------------------------------------------------
  // The weighted leaf value
  // ---------------------------------------------------------------------------

  /** The sum of the weights, in list order. */
  function TotalWeight(ws: seq<WeightedSample>): real
    decreases |ws|
  {
    if ws == [] then 0.0 else TotalWeight(ws[..|ws| - 1]) + ws[|ws| - 1].weight
  }

  /** The sum of output[i] * weight, in list order. */
  function WeightedColumn(ws: seq<WeightedSample>, i: nat): real
    requires forall k | 0 <= k < |ws| :: i < |ws[k].output|
    decreases |ws|
  {
    if ws == [] then 0.0 else WeightedColumn(ws[..|ws| - 1], i) + ws[|ws| - 1].output[i] * ws[|ws| - 1].weight
  }

  /** Positive weights have a positive sum. */
  lemma {:induction false} TotalWeightPositive(ws: seq<WeightedSample>)
    requires |ws| > 0 && PositiveWeights(ws)
    ensures TotalWeight(ws) > 0.0
    decreases |ws|
  {
    if |ws| > 1 {
      TotalWeightPositive(ws[..|ws| - 1]);
    }
  }

  /**
   * The node output: component i is sum(w * y[i]) / sum(w). Dividing by a
   * zero total weight makes every component NaN or infinite, so the mean is
   * then undefined, unless there is no component at all.
   */
  function WeightedMean(ws: seq<WeightedSample>, din: nat, dout: nat): (m: Result<Vec>)
    requires WUniform(ws, din, dout)
    ensures m.Ok? <==> TotalWeight(ws) != 0.0 || dout == 0
    ensures m.Err? ==> m.error == Undefined
    ensures m.Ok? ==> |m.value| == dout && forall i | 0 <= i < dout :: m.value[i] * TotalWeight(ws) == WeightedColumn(ws, i)
  {
    if TotalWeight(ws) == 0.0 then
      if dout == 0 then Ok([]) else Err(Undefined)
    else
      Ok(seq(dout, i requires 0 <= i < dout => WeightedColumn(ws, i) / TotalWeight(ws)))
  }

  /** With positive weights, as with no output components, every node has a defined mean. */
  lemma PositiveWeightsDefined(ws: seq<WeightedSample>, din: nat, dout: nat)
    requires |ws| > 0 && WUniform(ws, din, dout) && (PositiveWeights(ws) || dout == 0)
    ensures WeightedMean(ws, din, dout).Ok?
  {
    if dout > 0 {
      TotalWeightPositive(ws);
    }
  }

  function WOutputs(ws: seq<WeightedSample>): (vs: seq<Vec>)
    ensures |vs| == |ws| && forall k | 0 <= k < |ws| :: vs[k] == ws[k].output
  {
    seq(|ws|, k requires 0 <= k < |ws| => ws[k].output)
  }

  /** With one common weight, the weighted sums are that weight times the plain sums. */
  lemma {:induction false} EqualWeightSums(ws: seq<WeightedSample>, c: real, i: nat)
    requires forall k | 0 <= k < |ws| :: ws[k].weight == c && i < |ws[k].output|
    ensures Wide(WOutputs(ws), i + 1)
    ensures TotalWeight(ws) == c * |ws| as real
    ensures WeightedColumn(ws, i) == c * ColumnSum(WOutputs(ws), i)
    decreases |ws|
  {
    if ws != [] {
      var p := ws[..|ws| - 1];
      EqualWeightSums(p, c, i);
      assert WOutputs(ws)[..|ws| - 1] == WOutputs(p);
    }
  }

  /** When all weights are one non-zero value the weighted mean is the plain component-wise mean. */
  lemma EqualWeightsMean(ws: seq<WeightedSample>, din: nat, dout: nat, c: real)
    requires |ws| > 0 && WUniform(ws, din, dout)
    requires c != 0.0 && forall k | 0 <= k < |ws| :: ws[k].weight == c
    ensures Wide(WOutputs(ws), dout)
    ensures WeightedMean(ws, din, dout) == Ok(Mean(WOutputs(ws), dout))
  {
    if dout > 0 {
      var n := |ws| as real;
      EqualWeightSums(ws, c, dout - 1);
      assert TotalWeight(ws) == n * c by { assert c * n == n * c; }
      assert n * c != 0.0;
      var mean := seq(dout, i requires 0 <= i < dout => WeightedColumn(ws, i) / TotalWeight(ws));
      assert WeightedMean(ws, din, dout) == Ok(mean);
      forall i | 0 <= i < dout ensures mean[i] == Mean(WOutputs(ws), dout)[i] {
        EqualWeightSums(ws, c, i);
        DivCancel(c, ColumnSum(WOutputs(ws), i), n);
      }
      assert mean == Mean(WOutputs(ws), dout);
    } else {
      assert WeightedMean(ws, din, dout).value == [] == Mean(WOutputs(ws), dout);
    }
  }


  /**
   * The output loop of the constructor: weighted sums accumulated sample by
   * sample, then divided by the total weight, which leaves no defined
   * component when that total is zero.
   */
  method WeightedAverage(ws: seq<WeightedSample>, din: nat, dout: nat) returns (output: Result<Vec>)
    requires WUniform(ws, din, dout)
    ensures output == WeightedMean(ws, din, dout)
  {
    var acc := new real[dout](_ => 0.0);
    var weight := 0.0;
    var k := 0;
    while k < |ws|
      invariant 0 <= k <= |ws|
      invariant weight == TotalWeight(ws[..k])
      invariant forall i | 0 <= i < dout :: acc[i] == WeightedColumn(ws[..k], i)
    {
      assert ws[..k + 1][..k] == ws[..k];
      weight := weight + ws[k].weight;
      var i := 0;
      while i < dout
        invariant 0 <= i <= dout
        invariant forall j | 0 <= j < i :: acc[j] == WeightedColumn(ws[..k + 1], j)
        invariant forall j | i <= j < dout :: acc[j] == WeightedColumn(ws[..k], j)
      {
        acc[i] := acc[i] + ws[k].output[i] * ws[k].weight;
        i := i + 1;
      }
      k := k + 1;
    }
    assert ws[..k] == ws;
    if weight == 0.0 && dout > 0 {
      return Err(Undefined);
    }
    if weight == 0.0 {
      return Ok([]);
    }
    var i := 0;
    while i < dout
      invariant 0 <= i <= dout
      invariant forall j | 0 <= j < i :: acc[j] == WeightedColumn(ws, j) / TotalWeight(ws)
      invariant forall j | i <= j < dout :: acc[j] == WeightedColumn(ws, j)
    {
      acc[i] := acc[i] / weight;
      i := i + 1;
    }
    assert acc[..] == WeightedMean(ws, din, dout).value;
    output := Ok(acc[..]);
  }

  // ---------------------------------------------------------------------------
  // Choosing the split
  // ---------------------------------------------------------------------------

  /** The two sides of input[f] <= v, each again uniform. */
  function WSides(ws: seq<WeightedSample>, f: nat, v: real, din: nat, dout: nat): (r: (seq<WeightedSample>, seq<WeightedSample>))
    requires WUniform(ws, din, dout) && f < din
    ensures HasFeature(ws, WInputOf, f)
    ensures r == (LeftOf(ws, WInputOf, f, v), RightOf(ws, WInputOf, f, v))
    ensures |r.0| + |r.1| == |ws| && WUniform(r.0, din, dout) && WUniform(r.1, din, dout)
  {
    var ls, rs := LeftOf(ws, WInputOf, f, v), RightOf(ws, WInputOf, f, v);
    PartitionFacts(ws, WInputOf, f, v);
    WUniformSub(ws, ls, din, dout);
    WUniformSub(ws, rs, din, dout);
    (ls, rs)
  }

  /** Both sides keep strictly more than m samples. */
  predicate WValid(ws: seq<WeightedSample>, f: nat, v: real, m: int)
    requires HasFeature(ws, WInputOf, f)
  {
    |LeftOf(ws, WInputOf, f, v)| > m && |RightOf(ws, WInputOf, f, v)| > m
  }

  /** The first value of vs, in order, that makes a valid split. */
  function FirstValidValue(ws: seq<WeightedSample>, f: nat, vs: seq<real>, m: int): (r: Option<real>)
    requires HasFeature(ws, WInputOf, f)
    ensures r.Some? ==> r.value in vs
    decreases |vs|
  {
    if vs == [] then None
    else if WValid(ws, f, vs[0], m) then Some(vs[0])
    else FirstValidValue(ws, f, vs[1..], m)
  }

  /** The chosen value is valid and every value before it is not; with no choice, no value is valid. */
  lemma {:induction false} FirstValidValueFacts(ws: seq<WeightedSample>, f: nat, vs: seq<real>, m: int)
    requires HasFeature(ws, WInputOf, f)
    ensures var r := FirstValidValue(ws, f, vs, m);
      && (r.None? ==> forall j | 0 <= j < |vs| :: !WValid(ws, f, vs[j], m))
      && (r.Some? ==> exists j | 0 <= j < |vs| :: vs[j] == r.value && WValid(ws, f, vs[j], m) &&
                        forall i | 0 <= i < j :: !WValid(ws, f, vs[i], m))
    decreases |vs|
  {
    if vs != [] && !WValid(ws, f, vs[0], m) {
      var r := FirstValidValue(ws, f, vs, m);
      FirstValidValueFacts(ws, f, vs[1..], m);
      if r.Some? {
        var j :| 0 <= j < |vs[1..]| && vs[1..][j] == r.value && WValid(ws, f, vs[1..][j], m) &&
                 forall i | 0 <= i < j :: !WValid(ws, f, vs[1..][i], m);
        assert vs[j + 1] == r.value;
        forall i | 0 <= i < j + 1 ensures !WValid(ws, f, vs[i], m) {
          if i > 0 { assert vs[i] == vs[1..][i - 1]; }
        }
      } else {
        forall j | 0 <= j < |vs| ensures !WValid(ws, f, vs[j], m) {
          if j > 0 { assert vs[j] == vs[1..][j - 1]; }
        }
      }
    }
  }

  /**
   * The component loop: for each listed component in order, its distinct
   * values in shuffled order (the shuffle consumes one draw per value) and the
   * first valid one, skipping single-valued components. Answers the split and
   * the stream position after the last shuffle.
   */
  function FirstSplit(ws: seq<WeightedSample>, comps: seq<int>, m: int, rng: Stream, pos: nat, din: nat)
    : (r: (Option<(nat, real)>, nat))
    requires WInputWidth(ws, din) && InRange(comps, din)
    ensures r.0.Some? ==> r.0.value.0 < din
    decreases |comps|
  {
    if comps == [] then (None, pos)
    else
      var f := comps[0];
      assert HasFeature(ws, WInputOf, f);
      var (vs, p) := Shuffle(Values(ws, WInputOf, f), rng, pos);
      var hit := if |vs| == 1 then None else FirstValidValue(ws, f, vs, m);
      if hit.Some? then (Some((f, hit.value)), p)
      else FirstSplit(ws, comps[1..], m, rng, p, din)
  }

  /**
   * A chosen split uses a listed component with more than one distinct
   * value, a threshold among those values, and leaves more than m samples
   * on each side.
   */
  lemma {:induction false} FirstSplitFacts(ws: seq<WeightedSample>, comps: seq<int>, m: int, rng: Stream, pos: nat, din: nat)
    requires WInputWidth(ws, din) && InRange(comps, din)
    ensures var c := FirstSplit(ws, comps, m, rng, pos, din).0;
      c.Some? ==>
        && c.value.0 in comps
        && HasFeature(ws, WInputOf, c.value.0)
        && |Values(ws, WInputOf, c.value.0)| > 1
        && c.value.1 in Values(ws, WInputOf, c.value.0)
        && WValid(ws, c.value.0, c.value.1, m)
    decreases |comps|
  {
    if comps != [] {
      var f := comps[0];
      assert HasFeature(ws, WInputOf, f);
      var values := Values(ws, WInputOf, f);
      var (vs, p) := Shuffle(values, rng, pos);
      var hit := if |vs| == 1 then None else FirstValidValue(ws, f, vs, m);
      if hit.Some? {
        ShufflePermutes(values, rng, pos);
        FirstValidValueFacts(ws, f, vs, m);
        assert hit.value in multiset(vs);
        assert |values| == |vs|;
      } else {
        FirstSplitFacts(ws, comps[1..], m, rng, p, din);
      }
    }
  }

  /** A component with a single value never splits validly: everything lands on the left. */
  lemma SingleValueInvalid(ws: seq<WeightedSample>, f: nat, v: real, m: int)
    requires HasFeature(ws, WInputOf, f) && m >= 0 && |Values(ws, WInputOf, f)| == 1
    ensures !WValid(ws, f, v, m) || v != Values(ws, WInputOf, f)[0]
  {
    if v == Values(ws, WInputOf, f)[0] {
      ValuesFacts(ws, WInputOf, f);
      forall k | 0 <= k < |ws| ensures ws[k].input[f] <= v {
        assert WInputOf(ws[k])[f] in Values(ws, WInputOf, f);
      }
      AllPassRightEmpty(ws, f, v);
    }
  }

  /** When every element passes the test, the right side is empty. */
  lemma {:induction false} AllPassRightEmpty(ws: seq<WeightedSample>, f: nat, v: real)
    requires HasFeature(ws, WInputOf, f)
    requires forall k | 0 <= k < |ws| :: ws[k].input[f] <= v
    ensures RightOf(ws, WInputOf, f, v) == []
    decreases |ws|
  {
    if ws != [] {
      AllPassRightEmpty(ws[..|ws| - 1], f, v);
    }
  }

  /**
   * A node stays a leaf only when no listed component has any distinct
   * value that would split validly.
   */
  lemma {:induction false} FirstSplitNone(ws: seq<WeightedSample>, comps: seq<int>, m: int, rng: Stream, pos: nat, din: nat)
    requires WInputWidth(ws, din) && InRange(comps, din) && m >= 0
    ensures FirstSplit(ws, comps, m, rng, pos, din).0.None? ==>
      forall k, v | 0 <= k < |comps| && v in Values(ws, WInputOf, comps[k]) :: !WValid(ws, comps[k], v, m)
    decreases |comps|
  {
    if comps != [] && FirstSplit(ws, comps, m, rng, pos, din).0.None? {
      var f := comps[0];
      assert HasFeature(ws, WInputOf, f);
      var values := Values(ws, WInputOf, f);
      var (vs, p) := Shuffle(values, rng, pos);
      FirstSplitNone(ws, comps[1..], m, rng, p, din);
      ShufflePermutes(values, rng, pos);
      forall v | v in values ensures !WValid(ws, f, v, m) {
        if |vs| == 1 {
          assert |values| == 1;
          SingleValueInvalid(ws, f, v, m);
        } else {
          FirstValidValueFacts(ws, f, vs, m);
          assert v in multiset(vs);
        }
      }
      forall k, v | 0 <= k < |comps| && v in Values(ws, WInputOf, comps[k]) ensures !WValid(ws, comps[k], v, m) {
        if k > 0 {
          assert comps[k] == comps[1..][k - 1];
        }
      }
    }
  }

  // ---------------------------------------------------------------------------
  // Growing the tree
  // ---------------------------------------------------------------------------

  /**
   * The tree built on a non-empty list and the stream position after it.
   * With minSamplesPerLeaf >= 0 both sides of a valid split are non-empty,
   * which is what makes the construction end.
   */
  function WGrow(ws: seq<WeightedSample>, comps: seq<int>, m: int, rng: Stream, pos: nat, din: nat, dout: nat): (WTree, nat)
    requires |ws| > 0 && WUniform(ws, din, dout) && InRange(comps, din) && m >= 0
    decreases |ws|
  {
    var out := WeightedMean(ws, din, dout);
    if |ws| == 1 then (Leaf(out), pos)
    else
      var (c, p) := FirstSplit(ws, comps, m, rng, pos, din);
      if c.None? then (Leaf(out), p)
      else
        FirstSplitFacts(ws, comps, m, rng, pos, din);
        var (f, v) := c.value;
        var (ls, rs) := WSides(ws, f, v, din, dout);
        var (l, p1) := WGrow(ls, comps, m, rng, p, din, dout);
        var (r, p2) := WGrow(rs, comps, m, rng, p1, din, dout);
        (Split(out, f, v, l, r), p2)
  }

  /** Every node holds the weighted mean output of the samples that reached it, and splits them by input[f] <= v. */
  ghost predicate WFits(t: WTree, ws: seq<WeightedSample>, din: nat, dout: nat)
  {
    && |ws| > 0
    && WUniform(ws, din, dout)
    && t.output == WeightedMean(ws, din, dout)
    && match t
       case Leaf(_) => true
       case Split(_, f, v, l, r) =>
         && f < din
         && WFits(l, LeftOf(ws, WInputOf, f, v), din, dout)
         && WFits(r, RightOf(ws, WInputOf, f, v), din, dout)
  }

  lemma {:induction false} WFitsPartitions(t: WTree, ws: seq<WeightedSample>, din: nat, dout: nat)
    requires WFits(t, ws, din, dout)
    ensures Partitions(t, ws, WInputOf)
  {
    match t
    case Leaf(_) =>
    case Split(_, f, v, l, r) =>
      WFitsPartitions(l, LeftOf(ws, WInputOf, f, v), din, dout);
      WFitsPartitions(r, RightOf(ws, WInputOf, f, v), din, dout);
  }

  /** Every defined leaf value has `n` components. */
  predicate WLeafWidth(t: WTree, n: nat)
  {
    forall y | y in LeafOutputs(t) && y.Ok? :: |y.value| == n
  }

  /** Every component the tree tests is below din, and every defined leaf value has dout components. */
  predicate WShaped(t: WTree, din: nat, dout: nat)
  {
    Routable(t, din) && WLeafWidth(t, dout)
  }

  /** Every leaf has a defined value. */
  predicate Defined(t: WTree)
  {
    forall y | y in LeafOutputs(t) :: y.Ok?
  }

  /** A tree grown on samples of width din with dout outputs tests only components below din and has leaf values of length dout. */
  lemma {:induction false} WFitsShape(t: WTree, ws: seq<WeightedSample>, din: nat, dout: nat)
    requires WFits(t, ws, din, dout)
    ensures WShaped(t, din, dout)
  {
    match t
    case Leaf(_) =>
    case Split(_, f, v, l, r) =>
      WFitsShape(l, LeftOf(ws, WInputOf, f, v), din, dout);
      WFitsShape(r, RightOf(ws, WInputOf, f, v), din, dout);
  }

  /**
   * A tree grown on positive weights, or with no output components, has a
   * defined value at every leaf, since every node received a non-empty part
   * of those samples.
   */
  lemma {:induction false} WFitsDefined(t: WTree, ws: seq<WeightedSample>, din: nat, dout: nat)
    requires WFits(t, ws, din, dout) && (PositiveWeights(ws) || dout == 0)
    ensures Defined(t)
  {
    match t
    case Leaf(_) =>
      PositiveWeightsDefined(ws, din, dout);
    case Split(_, f, v, l, r) =>
      var (ls, rs) := WSides(ws, f, v, din, dout);
      PartitionFacts(ws, WInputOf, f, v);
      WUniformSub(ws, ls, din, dout);
      WUniformSub(ws, rs, din, dout);
      WFitsDefined(l, ls, din, dout);
      WFitsDefined(r, rs, din, dout);
  }

  lemma {:induction false} WGrowFits(ws: seq<WeightedSample>, comps: seq<int>, m: int, rng: Stream, pos: nat, din: nat, dout: nat)
    requires |ws| > 0 && WUniform(ws, din, dout) && InRange(comps, din) && m >= 0
    ensures WFits(WGrow(ws, comps, m, rng, pos, din, dout).0, ws, din, dout)
    decreases |ws|
  {
    var (c, p) := FirstSplit(ws, comps, m, rng, pos, din);
    if |ws| > 1 && c.Some? {
      FirstSplitFacts(ws, comps, m, rng, pos, din);
      var (f, v) := c.value;
      var (ls, rs) := WSides(ws, f, v, din, dout);
      var (l, p1) := WGrow(ls, comps, m, rng, p, din, dout);
      WGrowFits(ls, comps, m, rng, p, din, dout);
      WGrowFits(rs, comps, m, rng, p1, din, dout);
    }
  }

  /**
   * The decision at the root: one sample makes a leaf; a split uses a listed
   * component with more than one distinct value, one of those values as the
   * threshold, and leaves more than m samples on each side; a leaf made from
   * several samples means no listed component had a valid value.
   */
  lemma WGrowDecision(ws: seq<WeightedSample>, comps: seq<int>, m: int, rng: Stream, pos: nat, din: nat, dout: nat)
    requires |ws| > 0 && WUniform(ws, din, dout) && InRange(comps, din) && m >= 0
    ensures var t := WGrow(ws, comps, m, rng, pos, din, dout).0;
      && (|ws| == 1 ==> t.Leaf?)
      && (t.Split? ==>
            && t.feature in comps
            && HasFeature(ws, WInputOf, t.feature)
            && |Values(ws, WInputOf, t.feature)| > 1
            && t.threshold in Values(ws, WInputOf, t.feature)
            && |LeftOf(ws, WInputOf, t.feature, t.threshold)| > m
            && |RightOf(ws, WInputOf, t.feature, t.threshold)| > m)
      && (t.Leaf? && |ws| > 1 ==>
            forall k, v | 0 <= k < |comps| && v in Values(ws, WInputOf, comps[k]) :: !WValid(ws, comps[k], v, m))
  {
    FirstSplitFacts(ws, comps, m, rng, pos, din);
    FirstSplitNone(ws, comps, m, rng, pos, din);
  }

  /**
   * Predict on a grown tree: the weighted mean output of the training samples
   * in the leaf the input reaches, a non-empty part of the samples that holds
   * every sample with that very input.
   */
  lemma WPredictIsLeafMean(t: WTree, ws: seq<WeightedSample>, din: nat, dout: nat, x: Vec)
    requires WFits(t, ws, din, dout) && |x| == din
    ensures Partitions(t, ws, WInputOf) && Routable(t, |x|) && CoversPath(t, x)
    ensures var reach := Reach(t, ws, WInputOf, x);
      && |reach| > 0
      && multiset(reach) <= multiset(ws)
      && (forall s | s in ws && s.input == x :: s in reach)
      && WUniform(reach, din, dout)
      && Predict(t, x) == WeightedMean(reach, din, dout)
  {
    WFitsPartitions(t, ws, din, dout);
    PartitionsRoutable(t, ws, WInputOf, din);
    ReachFacts(t, ws, WInputOf, x);
    RoutableCoversPath(t, x);
    WPredictMean(t, ws, din, dout, x);
  }

  lemma {:induction false} WPredictMean(t: WTree, ws: seq<WeightedSample>, din: nat, dout: nat, x: Vec)
    requires WFits(t, ws, din, dout) && Partitions(t, ws, WInputOf) && Routable(t, |x|) && CoversPath(t, x)
    ensures |Reach(t, ws, WInputOf, x)| > 0 && WUniform(Reach(t, ws, WInputOf, x), din, dout)
    ensures Predict(t, x) == WeightedMean(Reach(t, ws, WInputOf, x), din, dout)
  {
    match t
    case Leaf(_) =>
    case Split(_, f, v, l, r) =>
      if x[f] <= v {
        WPredictMean(l, LeftOf(ws, WInputOf, f, v), din, dout, x);
      } else {
        WPredictMean(r, RightOf(ws, WInputOf, f, v), din, dout, x);
      }
  }

  /** A tree grown on n weighted samples has at most 2n - 1 nodes (what CountNodes counts). */
  lemma WGrowSize(ws: seq<WeightedSample>, comps: seq<int>, m: int, rng: Stream, pos: nat, din: nat, dout: nat)
    requires |ws| > 0 && WUniform(ws, din, dout) && InRange(comps, din) && m >= 0
    ensures Size(WGrow(ws, comps, m, rng, pos, din, dout).0) <= 2 * |ws| - 1
  {
    var t := WGrow(ws, comps, m, rng, pos, din, dout).0;
    WGrowFits(ws, comps, m, rng, pos, din, dout);
    WFitsPartitions(t, ws, din, dout);
    PartitionsSize(t, ws, WInputOf);
  }

  // ---------------------------------------------------------------------------
  // The constructor's loops
  // ---------------------------------------------------------------------------

  /** The value loop for one component: partitions on each value in turn and stops at the first valid one. */
  method ScanValues(ws: seq<WeightedSample>, f: nat, vs: seq<real>, m: int) returns (hit: Option<real>)
    requires HasFeature(ws, WInputOf, f)
    ensures hit == FirstValidValue(ws, f, vs, m)
  {
    var vi := 0;
    while vi < |vs|
      invariant 0 <= vi <= |vs|
      invariant FirstValidValue(ws, f, vs, m) == FirstValidValue(ws, f, vs[vi..], m)
    {
      var left, right := Partition(ws, WInputOf, f, vs[vi]);
      if |left| > m && |right| > m {
        return Some(vs[vi]);
      }
      assert vs[vi..][1..] == vs[vi + 1..];
      vi := vi + 1;
    }
    return None;
  }

  /** The component loop of the constructor. */
  method FindWeightedSplit(ws: seq<WeightedSample>, comps: seq<int>, m: int, rng: Stream, pos: nat, din: nat)
    returns (c: Option<(nat, real)>, pos': nat)
    requires WInputWidth(ws, din) && InRange(comps, din)
    ensures (c, pos') == FirstSplit(ws, comps, m, rng, pos, din)
  {
    pos' := pos;
    var ci := 0;
    while ci < |comps|
      invariant 0 <= ci <= |comps|
      invariant FirstSplit(ws, comps, m, rng, pos, din) == FirstSplit(ws, comps[ci..], m, rng, pos', din)
    {
      var f := comps[ci];
      assert comps[ci..][0] == f && comps[ci..][1..] == comps[ci + 1..];
      assert HasFeature(ws, WInputOf, f);
      var (vs, p) := Shuffle(Values(ws, WInputOf, f), rng, pos');
      pos' := p;
      if |vs| != 1 {
        var hit := ScanValues(ws, f, vs, m);
        if hit.Some? {
          return Some((f, hit.value)), pos';
        }
      }
      ci := ci + 1;
    }
    return None, pos';
  }

  /**
   * WeightedRandomTree.cs's constructor: an empty list throws; otherwise the
   * tree WGrow builds from the same draws.
   */
  method WeightedRandomTree(ws: seq<WeightedSample>, comps: seq<int>, m: int, rng: Stream, pos: nat, din: nat, dout: nat)
    returns (r: Result<WTree>, pos': nat)
    requires WUniform(ws, din, dout) && InRange(comps, din) && m >= 0
    ensures |ws| == 0 ==> r == Err(EmptySamples) && pos' == pos
    ensures |ws| > 0 ==> r == Ok(WGrow(ws, comps, m, rng, pos, din, dout).0) && pos' == WGrow(ws, comps, m, rng, pos, din, dout).1
    decreases |ws|
  {
    if |ws| == 0 {
      return Err(EmptySamples), pos;
    }
    var output := WeightedAverage(ws, din, dout);
    if |ws| == 1 {
      return Ok(Leaf(output)), pos;
    }
    var c, p := FindWeightedSplit(ws, comps, m, rng, pos, din);
    if c.None? {
      return Ok(Leaf(output)), p;
    }
    FirstSplitFacts(ws, comps, m, rng, pos, din);
    var (f, v) := c.value;
    var ls, rs := Partition(ws, WInputOf, f, v);
    assert (ls, rs) == WSides(ws, f, v, din, dout);
    var l, p1 := WeightedRandomTree(ls, comps, m, rng, p, din, dout);
    var rt, p2 := WeightedRandomTree(rs, comps, m, rng, p1, din, dout);
    return Ok(Split(output, f, v, l.value, rt.value)), p2;
  }
}
