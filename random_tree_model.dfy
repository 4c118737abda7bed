/**
 * Models/RandomTree.cs: the random-attempt tree as a mutable object.
 *
 * A node is created unfitted (no output, no split, no children). `Fit`
 * throws on an empty list; otherwise it stores the mean output, forgets any
 * previous split and children, and, unless the node stops, allocates two
 * fresh children one level deeper with the same parameters and fits them
 * (left first) on the two sides of the first valid attempt. The depth limit
 * is optional (`int?`). The tree a fitted node describes is the `Tree` value
 * of the Trees module, and it is exactly the one RandomTrees.Grow builds.
 */
module RandomTreeModels {
  import opened Wrappers
  import opened Vectors
  import opened Samples
  import opened Rng
  import opened Trees
  import opened RandomTrees

  class RandomTreeModel {
    const minSamplesPerLeaf: int
    const maxLeafDepth: Option<int>
    const maxSplitAttempts: int
    const currentDepth: int

    var output: Option<Vec>
    /** splitXComponent and splitXValue, which the source always sets and clears together. */
    var split: Option<(nat, real)>
    var left: RandomTreeModel?
    var right: RandomTreeModel?

    ghost var Repr: set<object>

    /** A child shares the parameters and sits one level deeper. */
    predicate ChildOf(c: RandomTreeModel)
    {
      && c.minSamplesPerLeaf == minSamplesPerLeaf
      && c.maxLeafDepth == maxLeafDepth
      && c.maxSplitAttempts == maxSplitAttempts
      && c.currentDepth == currentDepth + 1
    }

    /** A node has both children exactly when it has a split, and only a node with an output has a split. */
    ghost predicate Valid()
      reads this, Repr
      decreases Repr
    {
      && this in Repr
      && (split.None? <==> left == null)
      && (split.None? <==> right == null)
      && (split.Some? ==> output.Some?)
      && (left != null ==>
            && left in Repr && left.Repr <= Repr && this !in left.Repr
            && ChildOf(left) && left.Valid())
      && (right != null ==>
            && right in Repr && right.Repr <= Repr && this !in right.Repr
            && ChildOf(right) && right.Valid())
      && (left != null && right != null ==> left.Repr !! right.Repr)
    }

    /** The tree this node describes, when it and every node below it have been fitted. */
    ghost function Model(): Option<Tree>
      reads this, Repr
      requires Valid()
      decreases Repr
    {
      if output.None? then None
      else if split.None? then Some(Leaf(output.value))
      else
        var l := left.Model();
        var r := right.Model();
        if l.Some? && r.Some? then Some(Split(output.value, split.value.0, split.value.1, l.value, r.value))
        else None
    }

    constructor (minSamplesPerLeaf: int, maxLeafDepth: Option<int>, maxSplitAttempts: int, currentDepth: int)
      ensures Valid() && fresh(Repr) && Repr == {this}
      ensures this.minSamplesPerLeaf == minSamplesPerLeaf && this.maxLeafDepth == maxLeafDepth
      ensures this.maxSplitAttempts == maxSplitAttempts && this.currentDepth == currentDepth
      ensures output.None? && split.None? && Model().None?
    {
      this.minSamplesPerLeaf := minSamplesPerLeaf;
      this.maxLeafDepth := maxLeafDepth;
      this.maxSplitAttempts := maxSplitAttempts;
      this.currentDepth := currentDepth;
      output := None;
      split := None;
      left := null;
      right := null;
      Repr := {this};
    }

    /**
     * Fit: an empty list throws and changes nothing; otherwise the node ends
     * up describing the tree Grow builds from the same draws (so, by
     * RandomTrees.GrowFits, a tree that fits its samples). A child handed no
     * samples makes the fit fail as Grow does, which needs a negative
     * minSamplesPerLeaf.
     */
    method Fit(samples: seq<Sample>, rng: Stream, pos: nat, din: nat, dout: nat) returns (r: Result<()>, pos': nat)
      requires Valid()
      requires din > 0 && Uniform(samples, din, dout) && (maxLeafDepth.Some? || minSamplesPerLeaf >= 0)
      modifies this
      ensures Valid() && fresh(Repr - old(Repr))
      ensures var g := Grow(samples, minSamplesPerLeaf, maxLeafDepth, maxSplitAttempts, currentDepth, rng, pos, din, dout);
        && pos' == g.1
        && (g.0.Err? ==> r == Err(g.0.error))
        && (g.0.Ok? ==> r == Ok(()) && Model() == Some(g.0.value))
      ensures |samples| == 0 ==>
        r == Err(EmptySamples) && output == old(output) && split == old(split) && left == old(left) && right == old(right)
      decreases Budget(maxLeafDepth, currentDepth), |samples|, 2
    {
      if |samples| == 0 {
        return Err(EmptySamples), pos;
      }
      UniformWide(samples, din, dout);
      var mean := Average(Outputs(samples));
      assert mean == MeanOutput(samples, dout);
      output := Some(mean);
      split := None;
      left := null;
      right := null;
      Repr := {this};
      if |samples| < minSamplesPerLeaf * 2 {
        return Ok(()), pos;
      }
      if maxLeafDepth.Some? && currentDepth >= maxLeafDepth.value {
        return Ok(()), pos;
      }
      var c, p := FindSplit(samples, minSamplesPerLeaf, maxSplitAttempts, rng, pos, din);
      if c.None? {
        return Ok(()), p;
      }
      FirstValidFacts(samples, minSamplesPerLeaf, maxSplitAttempts, rng, pos, din);
      var (f, v) := c.value;
      var ls, rs := Partition(samples, InputOf, f, v);
      assert (ls, rs) == Sides(samples, f, v, din, dout);
      ghost var gl := Grow(ls, minSamplesPerLeaf, maxLeafDepth, maxSplitAttempts, currentDepth + 1, rng, p, din, dout);
      ghost var gr := Grow(rs, minSamplesPerLeaf, maxLeafDepth, maxSplitAttempts, currentDepth + 1, rng, gl.1, din, dout);
      assert Grow(samples, minSamplesPerLeaf, maxLeafDepth, maxSplitAttempts, currentDepth, rng, pos, din, dout)
        == if gl.0.Err? then (Err(gl.0.error), gl.1)
           else if gr.0.Err? then (Err(gr.0.error), gr.1)
           else (Ok(Split(mean, f, v, gl.0.value, gr.0.value)), gr.1);
      r, pos' := FitChildren(f, v, ls, rs, rng, p, din, dout);
    }

    /** The split branch of Fit: records the split, then builds and fits both children, left first. */
    method FitChildren(f: nat, v: real, ls: seq<Sample>, rs: seq<Sample>, rng: Stream, p: nat, din: nat, dout: nat)
      returns (r: Result<()>, pos': nat)
      requires Valid() && Repr == {this} && output.Some? && split.None?
      requires din > 0 && Uniform(ls, din, dout) && Uniform(rs, din, dout)
      requires maxLeafDepth.Some? ==> currentDepth < maxLeafDepth.value
      requires maxLeafDepth.None? ==> minSamplesPerLeaf >= 0 && |ls| > 0 && |rs| > 0
      modifies this
      ensures Valid() && fresh(Repr - old(Repr))
      ensures output == old(output) && split == Some((f, v))
      ensures var gl := Grow(ls, minSamplesPerLeaf, maxLeafDepth, maxSplitAttempts, currentDepth + 1, rng, p, din, dout);
        if gl.0.Err? then r == Err(gl.0.error) && pos' == gl.1
        else
          var gr := Grow(rs, minSamplesPerLeaf, maxLeafDepth, maxSplitAttempts, currentDepth + 1, rng, gl.1, din, dout);
          && pos' == gr.1
          && (gr.0.Err? ==> r == Err(gr.0.error))
          && (gr.0.Ok? ==> r == Ok(()) && Model() == Some(Split(output.value, f, v, gl.0.value, gr.0.value)))
      decreases Budget(maxLeafDepth, currentDepth), |ls| + |rs|, 1
    {
      split := Some((f, v));
      var l := new RandomTreeModel(minSamplesPerLeaf, maxLeafDepth, maxSplitAttempts, currentDepth + 1);
      var rt := new RandomTreeModel(minSamplesPerLeaf, maxLeafDepth, maxSplitAttempts, currentDepth + 1);
      left, right := l, rt;
      var rl, p1 := l.Fit(ls, rng, p, din, dout);
      assert rt !in l.Repr && this !in l.Repr;
      r, pos' := FitRest(rl, rs, rng, p1, din, dout);
    }

    /**
     * The rest of FitChildren once the left child has been fitted: a failure
     * there aborts the fit; otherwise the right child is fitted.
     */
    method FitRest(rl: Result<()>, rs: seq<Sample>, rng: Stream, p1: nat, din: nat, dout: nat) returns (r: Result<()>, pos': nat)
      requires output.Some? && split.Some? && left != null && right != null
      requires left.Valid() && right.Valid() && right.Repr == {right} && (rl.Ok? ==> left.Model().Some?)
      requires this !in left.Repr && right !in left.Repr && ChildOf(left) && ChildOf(right)
      requires din > 0 && Uniform(rs, din, dout)
      requires maxLeafDepth.Some? ==> currentDepth < maxLeafDepth.value
      requires maxLeafDepth.None? ==> minSamplesPerLeaf >= 0
      modifies this, right
      ensures Valid() && fresh(Repr - ({this} + old(left.Repr) + old(right.Repr)))
      ensures output == old(output) && split == old(split)
      ensures rl.Err? ==> r == Err(rl.error) && pos' == p1
      ensures rl.Ok? ==>
        var gr := Grow(rs, minSamplesPerLeaf, maxLeafDepth, maxSplitAttempts, currentDepth + 1, rng, p1, din, dout);
        && pos' == gr.1
        && (gr.0.Err? ==> r == Err(gr.0.error))
        && (gr.0.Ok? ==> r == Ok(()) && Model() == Some(Split(output.value, split.value.0, split.value.1, old(left.Model()).value, gr.0.value)))
      decreases Budget(maxLeafDepth, currentDepth), if maxLeafDepth.None? then |rs| + 1 else 0, 0
    {
      if rl.Err? {
        Repr := {this} + left.Repr + right.Repr;
        return Err(rl.error), p1;
      }
      ghost var lm := left.Model();
      var rr, p2 := right.Fit(rs, rng, p1, din, dout);
      assert left.Repr !! right.Repr && this !in right.Repr;
      assert left.Model() == lm;
      Repr := {this} + left.Repr + right.Repr;
      if rr.Err? {
        return Err(rr.error), p2;
      }
      return Ok(()), p2;
    }

    /**
     * Predict: an unfitted leaf throws; otherwise the descent goes left
     * exactly when input[f] <= threshold. On a fitted node it is the
     * prediction of the tree the node describes; an input too short for a
     * component a split reads throws.
     */
    function Predict(x: Vec): (y: Result<Vec>)
      reads this, Repr
      requires Valid()
      ensures output.None? ==> y == Err(NotFitted)
      ensures Model().Some? ==>
        && (y.Ok? <==> CoversPath(Model().value, x))
        && (y.Ok? ==> CoversPath(Model().value, x) && y.value == Trees.Predict(Model().value, x))
        && (y.Err? ==> y.error == OutOfRange)
      decreases Repr
    {
      if split.None? then
        if output.None? then Err(NotFitted) else Ok(output.value)
      else
        var (f, v) := split.value;
        if f >= |x| then Err(OutOfRange)
        else if x[f] <= v then left.Predict(x)
        else right.Predict(x)
    }
  }
}
