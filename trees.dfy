/**
 * The axis-aligned regression tree shared by StandardTree, RandomTree,
 * Models/RandomTree and WeightedRandomTree: a node keeps the mean output of
 * the samples that reached it and, when it splits, a feature index and a
 * threshold; samples whose feature value is at most the threshold go left.
 *
 * A source node whose split fields are unset is a `Leaf`; one whose split
 * fields are set always has both children, so a `Split` holds two subtrees.
 * Partitioning is generic over the element type (plain or weighted samples)
 * through the `input` projection.
 */
module Trees {
  import opened Vectors
  import opened Samples
  import opened Rng

  /** A node's output is a vector in every tree but the weighted one, whose nodes may have no defined mean. */
  datatype NodeTree<O> =
    | Leaf(output: O)
    | Split(output: O, feature: nat, threshold: real, left: NodeTree<O>, right: NodeTree<O>)

  type Tree = NodeTree<Vec>

  /** Every split feature of `t` is a component of a vector of length `d`. */
  predicate Routable<O>(t: NodeTree<O>, d: nat)
  {
    match t
    case Leaf(_) => true
    case Split(_, f, _, l, r) => f < d && Routable(l, d) && Routable(r, d)
  }

  /**
   * Every component a split reads on the path `x` takes is a component of `x`:
   * exactly when the descent does not index past the end of the input.
   */
  predicate CoversPath<O>(t: NodeTree<O>, x: Vec)
  {
    match t
    case Leaf(_) => true
    case Split(_, f, v, l, r) => f < |x| && (if x[f] <= v then CoversPath(l, x) else CoversPath(r, x))
  }

  /** An input as wide as every component its splits read covers its path. */
  lemma {:induction false} RoutableCoversPath<O>(t: NodeTree<O>, x: Vec)
    requires Routable(t, |x|)
    ensures CoversPath(t, x)
  {
    match t
    case Leaf(_) =>
    case Split(_, f, v, l, r) =>
      if x[f] <= v { RoutableCoversPath(l, x); } else { RoutableCoversPath(r, x); }
  }

  /** The leaf values of `t`, left to right. */
  function LeafOutputs<O>(t: NodeTree<O>): seq<O>
  {
    match t
    case Leaf(y) => [y]
    case Split(_, _, _, l, r) => LeafOutputs(l) + LeafOutputs(r)
  }

  /** Prediction: descend left when x[feature] <= threshold, right otherwise, and answer the leaf's output. */
  function Predict<O>(t: NodeTree<O>, x: Vec): (y: O)
    requires CoversPath(t, x)
    ensures y in LeafOutputs(t)
  {
    match t
    case Leaf(y) => y
    case Split(_, f, v, l, r) => if x[f] <= v then Predict(l, x) else Predict(r, x)
  }

  /** Every leaf value of `t` has `n` components. */
  predicate LeafWidth(t: Tree, n: nat)
  {
    match t
    case Leaf(y) => |y| == n
    case Split(_, _, _, l, r) => LeafWidth(l, n) && LeafWidth(r, n)
  }

  /** A tree whose leaf values have n components predicts vectors of n components. */
  lemma {:induction false} PredictWidth(t: Tree, x: Vec, n: nat)
    requires LeafWidth(t, n) && CoversPath(t, x)
    ensures |Predict(t, x)| == n
  {
    match t
    case Leaf(_) =>
    case Split(_, f, v, l, r) =>
      if x[f] <= v { PredictWidth(l, x, n); } else { PredictWidth(r, x, n); }
  }

  /** The number of nodes of `t`. */
  function Size<O>(t: NodeTree<O>): nat
  {
    match t
    case Leaf(_) => 1
    case Split(_, _, _, l, r) => 1 + Size(l) + Size(r)
  }

  /** The number of splits on the longest root-to-leaf path. */
  function Height<O>(t: NodeTree<O>): nat
  {
    match t
    case Leaf(_) => 0
    case Split(_, _, _, l, r) => 1 + if Height(l) >= Height(r) then Height(l) else Height(r)
  }

  /** A full binary tree has one node fewer than twice its leaves. */
  lemma {:induction false} SizeLeaves<O>(t: NodeTree<O>)
    ensures Size(t) == 2 * |LeafOutputs(t)| - 1
  {
    match t
    case Leaf(_) =>
    case Split(_, _, _, l, r) =>
      SizeLeaves(l);
      SizeLeaves(r);
  }

  /** CountNodes(ref count): adds the number of nodes of the subtree to the counter. */
  method CountNodes<O>(t: NodeTree<O>, count: int) returns (count': int)
    ensures count' == count + Size(t)
  {
    count' := count + 1;
    if t.Split? {
      count' := CountNodes(t.left, count');
      count' := CountNodes(t.right, count');
    }
  }

  // ---------------------------------------------------------------------------
  // Partitioning a node's samples by `input[f] <= v`
  // ---------------------------------------------------------------------------

  /** Every element's input has component `f`. */
  predicate HasFeature<T>(xs: seq<T>, input: T -> Vec, f: nat)
  {
    forall k | 0 <= k < |xs| :: f < |input(xs[k])|
  }

  /** The elements with input[f] <= v, in their original order (the left list). */
  function LeftOf<T>(xs: seq<T>, input: T -> Vec, f: nat, v: real): seq<T>
    requires HasFeature(xs, input, f)
    decreases |xs|
  {
    if xs == [] then []
    else
      var p := LeftOf(xs[..|xs| - 1], input, f, v);
      if input(xs[|xs| - 1])[f] <= v then p + [xs[|xs| - 1]] else p
  }

  /** The elements with input[f] > v, in their original order (the right list). */
  function RightOf<T>(xs: seq<T>, input: T -> Vec, f: nat, v: real): seq<T>
    requires HasFeature(xs, input, f)
    decreases |xs|
  {
    if xs == [] then []
    else
      var p := RightOf(xs[..|xs| - 1], input, f, v);
      if input(xs[|xs| - 1])[f] <= v then p else p + [xs[|xs| - 1]]
  }

  /** The two lists share out the elements: together they hold each element as often as xs does. */
  lemma {:induction false} PartitionCounts<T>(xs: seq<T>, input: T -> Vec, f: nat, v: real)
    requires HasFeature(xs, input, f)
    ensures |LeftOf(xs, input, f, v)| + |RightOf(xs, input, f, v)| == |xs|
    ensures multiset(LeftOf(xs, input, f, v)) + multiset(RightOf(xs, input, f, v)) == multiset(xs)
    decreases |xs|
  {
    if xs != [] {
      var p := xs[..|xs| - 1];
      PartitionCounts(p, input, f, v);
      assert xs == p + [xs[|xs| - 1]];
    }
  }

  /** Every element of the left list passes the test input[f] <= v and every element of the right list fails it. */
  lemma {:induction false} PartitionTests<T>(xs: seq<T>, input: T -> Vec, f: nat, v: real)
    requires HasFeature(xs, input, f)
    ensures var l, r := LeftOf(xs, input, f, v), RightOf(xs, input, f, v);
      && HasFeature(l, input, f) && HasFeature(r, input, f)
      && (forall k | 0 <= k < |l| :: input(l[k])[f] <= v)
      && (forall k | 0 <= k < |r| :: input(r[k])[f] > v)
    decreases |xs|
  {
    if xs != [] {
      PartitionTests(xs[..|xs| - 1], input, f, v);
    }
  }

  /** Both halves of the partition's contract. */
  lemma PartitionFacts<T>(xs: seq<T>, input: T -> Vec, f: nat, v: real)
    requires HasFeature(xs, input, f)
    ensures var l, r := LeftOf(xs, input, f, v), RightOf(xs, input, f, v);
      && |l| + |r| == |xs|
      && multiset(l) + multiset(r) == multiset(xs)
      && HasFeature(l, input, f) && HasFeature(r, input, f)
      && (forall k | 0 <= k < |l| :: input(l[k])[f] <= v)
      && (forall k | 0 <= k < |r| :: input(r[k])[f] > v)
  {
    PartitionCounts(xs, input, f, v);
    PartitionTests(xs, input, f, v);
  }

  /** Element k of xs lands on the side its own test selects. */
  lemma {:induction false} PartitionMember<T>(xs: seq<T>, input: T -> Vec, f: nat, v: real, k: nat)
    requires HasFeature(xs, input, f) && k < |xs|
    ensures if input(xs[k])[f] <= v then xs[k] in LeftOf(xs, input, f, v) else xs[k] in RightOf(xs, input, f, v)
    decreases |xs|
  {
    if k < |xs| - 1 {
      var p := xs[..|xs| - 1];
      PartitionMember(p, input, f, v, k);
      assert p[k] == xs[k];
    }
  }

  /** The partition loop: each element is appended to the list its test selects. */
  method Partition<T>(xs: seq<T>, input: T -> Vec, f: nat, v: real) returns (left: seq<T>, right: seq<T>)
    requires HasFeature(xs, input, f)
    ensures left == LeftOf(xs, input, f, v) && right == RightOf(xs, input, f, v)
  {
    left, right := [], [];
    var i := 0;
    while i < |xs|
      invariant 0 <= i <= |xs|
      invariant left == LeftOf(xs[..i], input, f, v) && right == RightOf(xs[..i], input, f, v)
    {
      assert xs[..i + 1][..i] == xs[..i];
      if input(xs[i])[f] <= v {
        left := left + [xs[i]];
      } else {
        right := right + [xs[i]];
      }
      i := i + 1;
    }
    assert xs[..i] == xs;
  }

  /**
   * The distinct values of component f over the elements, in order of first
   * occurrence (HistogramInputComponent's set, and LINQ's Distinct).
   */
  function Values<T>(xs: seq<T>, input: T -> Vec, f: nat): seq<real>
    requires HasFeature(xs, input, f)
    decreases |xs|
  {
    if xs == [] then []
    else
      var p := Values(xs[..|xs| - 1], input, f);
      var x := input(xs[|xs| - 1])[f];
      if x in p then p else p + [x]
  }

  /** The values are pairwise distinct and are exactly the observed values of component f. */
  lemma {:induction false} ValuesFacts<T>(xs: seq<T>, input: T -> Vec, f: nat)
    requires HasFeature(xs, input, f)
    ensures Distinct(Values(xs, input, f))
    ensures forall i | 0 <= i < |Values(xs, input, f)| :: exists k | 0 <= k < |xs| :: input(xs[k])[f] == Values(xs, input, f)[i]
    ensures forall k | 0 <= k < |xs| :: input(xs[k])[f] in Values(xs, input, f)
    ensures |xs| > 0 ==> |Values(xs, input, f)| > 0
    decreases |xs|
  {
    if xs != [] {
      var p := xs[..|xs| - 1];
      ValuesFacts(p, input, f);
      forall i | 0 <= i < |Values(xs, input, f)|
        ensures exists k | 0 <= k < |xs| :: input(xs[k])[f] == Values(xs, input, f)[i]
      {
        if i < |Values(p, input, f)| {
          var k :| 0 <= k < |p| && input(p[k])[f] == Values(p, input, f)[i];
          assert xs[k] == p[k];
        } else {
          assert input(xs[|xs| - 1])[f] == Values(xs, input, f)[i];
        }
      }
      forall k | 0 <= k < |xs| ensures input(xs[k])[f] in Values(xs, input, f) {
        if k < |p| {
          assert xs[k] == p[k];
        }
      }
    }
  }

  /** A sub-multiset of a list whose inputs all have length d has the same property. */
  lemma SubLengths<T>(xs: seq<T>, ys: seq<T>, input: T -> Vec, d: nat)
    requires multiset(ys) <= multiset(xs)
    requires forall k | 0 <= k < |xs| :: |input(xs[k])| == d
    ensures forall k | 0 <= k < |ys| :: |input(ys[k])| == d
  {
    forall k | 0 <= k < |ys| ensures |input(ys[k])| == d {
      assert ys[k] in multiset(ys);
      assert ys[k] in multiset(xs);
      var j :| 0 <= j < |xs| && xs[j] == ys[k];
    }
  }

  // ---------------------------------------------------------------------------
  // A tree grown on a sample list
  // ---------------------------------------------------------------------------

  /**
   * `t` was grown on `xs`: every node received a non-empty list, and a split
   * node handed its left child exactly LeftOf and its right child RightOf.
   */
  ghost predicate Partitions<T, O>(t: NodeTree<O>, xs: seq<T>, input: T -> Vec)
  {
    && |xs| > 0
    && match t
       case Leaf(_) => true
       case Split(_, f, v, l, r) =>
         && HasFeature(xs, input, f)
         && Partitions(l, LeftOf(xs, input, f, v), input)
         && Partitions(r, RightOf(xs, input, f, v), input)
  }

  /** A tree grown on n samples has at most 2n - 1 nodes, hence at most n leaves. */
  lemma {:induction false} PartitionsSize<T, O>(t: NodeTree<O>, xs: seq<T>, input: T -> Vec)
    requires Partitions(t, xs, input)
    ensures Size(t) <= 2 * |xs| - 1
    ensures |LeafOutputs(t)| <= |xs|
  {
    SizeLeaves(t);
    match t
    case Leaf(_) =>
    case Split(_, f, v, l, r) =>
      PartitionFacts(xs, input, f, v);
      PartitionsSize(l, LeftOf(xs, input, f, v), input);
      PartitionsSize(r, RightOf(xs, input, f, v), input);
  }

  /** When every input has length d, every split feature of a grown tree is below d. */
  lemma {:induction false} PartitionsRoutable<T, O>(t: NodeTree<O>, xs: seq<T>, input: T -> Vec, d: nat)
    requires Partitions(t, xs, input)
    requires forall k | 0 <= k < |xs| :: |input(xs[k])| == d
    ensures Routable(t, d)
  {
    match t
    case Leaf(_) =>
    case Split(_, f, v, l, r) =>
      assert f < |input(xs[0])|;
      var ls, rs := LeftOf(xs, input, f, v), RightOf(xs, input, f, v);
      PartitionFacts(xs, input, f, v);
      SubLengths(xs, ls, input, d);
      SubLengths(xs, rs, input, d);
      PartitionsRoutable(l, ls, input, d);
      PartitionsRoutable(r, rs, input, d);
  }

  /** The training elements that end in the same leaf as x. */
  ghost function Reach<T, O>(t: NodeTree<O>, xs: seq<T>, input: T -> Vec, x: Vec): seq<T>
    requires Partitions(t, xs, input) && Routable(t, |x|)
  {
    match t
    case Leaf(_) => xs
    case Split(_, f, v, l, r) =>
      if x[f] <= v then Reach(l, LeftOf(xs, input, f, v), input, x)
      else Reach(r, RightOf(xs, input, f, v), input, x)
  }

  /**
   * The leaf x reaches received a non-empty part of the training list, and
   * every training element whose input is x itself is in that part.
   */
  lemma {:induction false} ReachFacts<T, O>(t: NodeTree<O>, xs: seq<T>, input: T -> Vec, x: Vec)
    requires Partitions(t, xs, input) && Routable(t, |x|)
    ensures |Reach(t, xs, input, x)| > 0
    ensures multiset(Reach(t, xs, input, x)) <= multiset(xs)
    ensures forall y | y in xs && input(y) == x :: y in Reach(t, xs, input, x)
  {
    match t
    case Leaf(_) =>
    case Split(_, f, v, l, r) =>
      var ls, rs := LeftOf(xs, input, f, v), RightOf(xs, input, f, v);
      PartitionFacts(xs, input, f, v);
      if x[f] <= v {
        ReachFacts(l, ls, input, x);
      } else {
        ReachFacts(r, rs, input, x);
      }
      forall y | y in xs && input(y) == x ensures y in Reach(t, xs, input, x) {
        var k :| 0 <= k < |xs| && xs[k] == y;
        PartitionMember(xs, input, f, v, k);
      }
  }

  // ---------------------------------------------------------------------------
  // Mean-labelled trees (every node stores the mean output of its samples)
  // ---------------------------------------------------------------------------

  /** The two sides of input[f] <= v over a uniform sample list, each again uniform. */
  function Sides(samples: seq<Sample>, f: nat, v: real, din: nat, dout: nat): (r: (seq<Sample>, seq<Sample>))
    requires Uniform(samples, din, dout) && f < din
    ensures HasFeature(samples, InputOf, f)
    ensures r == (LeftOf(samples, InputOf, f, v), RightOf(samples, InputOf, f, v))
    ensures |r.0| + |r.1| == |samples| && Uniform(r.0, din, dout) && Uniform(r.1, din, dout)
  {
    var ls, rs := LeftOf(samples, InputOf, f, v), RightOf(samples, InputOf, f, v);
    PartitionFacts(samples, InputOf, f, v);
    UniformSub(samples, ls, din, dout);
    UniformSub(samples, rs, din, dout);
    (ls, rs)
  }

  /**
   * `t` was grown on `samples`: the samples have `din` inputs and `dout`
   * outputs, every node stores the mean output of the samples that reached
   * it, and a split node's feature is below `din` and its children were grown
   * on the two sides of its test.
   */
  ghost predicate Fits(t: Tree, samples: seq<Sample>, din: nat, dout: nat)
  {
    && |samples| > 0
    && Uniform(samples, din, dout)
    && t.output == MeanOutput(samples, dout)
    && match t
       case Leaf(_) => true
       case Split(_, f, v, l, r) =>
         && f < din
         && Fits(l, LeftOf(samples, InputOf, f, v), din, dout)
         && Fits(r, RightOf(samples, InputOf, f, v), din, dout)
  }

  lemma {:induction false} FitsPartitions(t: Tree, samples: seq<Sample>, din: nat, dout: nat)
    requires Fits(t, samples, din, dout)
    ensures Partitions(t, samples, InputOf)
  {
    match t
    case Leaf(_) =>
    case Split(_, f, v, l, r) =>
      FitsPartitions(l, LeftOf(samples, InputOf, f, v), din, dout);
      FitsPartitions(r, RightOf(samples, InputOf, f, v), din, dout);
  }

  /**
   * A fitted tree routes every input of the training width, and its
   * prediction is the mean output of the training samples in the leaf the
   * input reaches, a non-empty sub-multiset of the samples containing every
   * sample with that very input.
   */
  lemma {:induction false} PredictIsLeafMean(t: Tree, samples: seq<Sample>, din: nat, dout: nat, x: Vec)
    requires Fits(t, samples, din, dout) && |x| == din
    ensures Partitions(t, samples, InputOf) && Routable(t, |x|) && CoversPath(t, x)
    ensures var reach := Reach(t, samples, InputOf, x);
      && |reach| > 0
      && multiset(reach) <= multiset(samples)
      && (forall s | s in samples && s.input == x :: s in reach)
      && Wide(Outputs(reach), dout)
      && Predict(t, x) == MeanOutput(reach, dout)
  {
    FitsPartitions(t, samples, din, dout);
    PartitionsRoutable(t, samples, InputOf, din);
    ReachFacts(t, samples, InputOf, x);
    RoutableCoversPath(t, x);
    PredictMean(t, samples, din, dout, x);
  }

  lemma {:induction false} PredictMean(t: Tree, samples: seq<Sample>, din: nat, dout: nat, x: Vec)
    requires Fits(t, samples, din, dout) && Partitions(t, samples, InputOf) && Routable(t, |x|) && CoversPath(t, x)
    ensures |Reach(t, samples, InputOf, x)| > 0
    ensures Wide(Outputs(Reach(t, samples, InputOf, x)), dout)
    ensures Predict(t, x) == MeanOutput(Reach(t, samples, InputOf, x), dout)
  {
    match t
    case Leaf(_) =>
    case Split(_, f, v, l, r) =>
      if x[f] <= v {
        PredictMean(l, LeftOf(samples, InputOf, f, v), din, dout, x);
      } else {
        PredictMean(r, RightOf(samples, InputOf, f, v), din, dout, x);
      }
  }

  // ---------------------------------------------------------------------------
  // Lists of trees (the forests)
  // ---------------------------------------------------------------------------

  /** Every component a tree tests is below din, and every leaf value has dout components. */
  predicate Shaped(t: Tree, din: nat, dout: nat)
  {
    Routable(t, din) && LeafWidth(t, dout)
  }

  /** A tree routes every input at least as wide as the components it tests. */
  lemma {:induction false} RoutableWider<O>(t: NodeTree<O>, d: nat, e: nat)
    requires Routable(t, d) && d <= e
    ensures Routable(t, e)
  {
    match t
    case Leaf(_) =>
    case Split(_, _, _, l, r) =>
      RoutableWider(l, d, e);
      RoutableWider(r, d, e);
  }

  /** Every tree routes x without indexing past its end. */
  predicate AllCover<O>(trees: seq<NodeTree<O>>, x: Vec)
  {
    forall k | 0 <= k < |trees| :: CoversPath(trees[k], x)
  }

  /** The nodes of all trees. */
  function TotalSize<O>(trees: seq<NodeTree<O>>): nat
    decreases |trees|
  {
    if trees == [] then 0 else TotalSize(trees[..|trees| - 1]) + Size(trees[|trees| - 1])
  }

  /** Each tree is a full binary tree, so the node count is twice the leaf count less the number of trees. */
  lemma {:induction false} TotalSizeLeaves<O>(trees: seq<NodeTree<O>>)
    ensures TotalSize(trees) + |trees| == 2 * TotalLeaves(trees)
    decreases |trees|
  {
    if trees != [] {
      TotalSizeLeaves(trees[..|trees| - 1]);
      SizeLeaves(trees[|trees| - 1]);
    }
  }

  function TotalLeaves<O>(trees: seq<NodeTree<O>>): nat
    decreases |trees|
  {
    if trees == [] then 0 else TotalLeaves(trees[..|trees| - 1]) + |LeafOutputs(trees[|trees| - 1])|
  }
}
