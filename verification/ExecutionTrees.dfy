/** Sequences may contain sequences: running a tree of actions is running its fixtures in order. */
module ExecutionTrees {
  import opened Execution

  datatype Tree = Leaf(action: Action) | Sequence(children: seq<Tree>)

  // The fixture actions in order of insertion
  function Flatten(tree: Tree): seq<Action>
    decreases tree, 0
  {
    match tree
    case Leaf(a) => [a]
    case Sequence(children) => FlattenTo(children, |children|)
  }

  function FlattenTo(children: seq<Tree>, n: nat): seq<Action>
    requires n <= |children|
    decreases children, n
  {
    if n == 0 then [] else FlattenTo(children, n - 1) + Flatten(children[n - 1])
  }

  // Running an action after the calls in `w`, the first of which by a fixture is number `f`
  datatype Progress = Progress(outcome: Outcome, next: nat)

  function RunTree(o: Oracle, tree: Tree, f: nat, w: seq<Event>): Progress
    decreases tree, 0
  {
    match tree
    case Leaf(a) => Progress(RunFixture(o, a, f, w), f + 1)
    case Sequence(children) => RunChildren(o, children, |children|, f, w)
  }

  // The loop of CfixsRunSequenceAction over the first `n` members
  function RunChildren(o: Oracle, children: seq<Tree>, n: nat, f: nat, w: seq<Event>): Progress
    requires n <= |children|
    decreases children, n
  {
    if n == 0 then Progress(Outcome(Success, w), f)
    else
      var p := RunChildren(o, children, n - 1, f, w);
      if Failed(p.outcome.hr) then p else RunTree(o, children[n - 1], p.next, p.outcome.trace)
  }

  lemma {:induction false} SequencePrefix(o: Oracle, xs: seq<Action>, ys: seq<Action>, n: nat)
    requires n <= |xs|
    ensures RunSequence(o, xs + ys, n) == RunSequence(o, xs, n)
  {
    if n > 0 {
      SequencePrefix(o, xs, ys, n - 1);
      assert (xs + ys)[n - 1] == xs[n - 1];
    }
  }

  // Going on with `tree` after the sequence `xs` succeeded is running the sequence with the fixtures
  // of the tree appended.
  ghost predicate Continues(o: Oracle, xs: seq<Action>, p: Progress, ys: seq<Action>)
  {
    && p.outcome == RunSequence(o, xs + ys, |xs + ys|)
    && (!Failed(p.outcome.hr) ==> p.next == |xs + ys|)
  }

  lemma LeafContinues(o: Oracle, xs: seq<Action>, a: Action)
    requires !Failed(RunSequence(o, xs, |xs|).hr)
    ensures Continues(o, xs, RunTree(o, Leaf(a), |xs|, RunSequence(o, xs, |xs|).trace), [a])
  {
    var ys := xs + [a];
    var n := |xs|;
    SequencePrefix(o, xs, [a], n);
    assert ys[n] == a && |ys| == n + 1;
    LastRun(o, ys, n);
  }

  lemma LastRun(o: Oracle, ys: seq<Action>, n: nat)
    requires n < |ys| && !Failed(RunSequence(o, ys, n).hr)
    ensures RunSequence(o, ys, n + 1) == RunFixture(o, ys[n], n, RunSequence(o, ys, n).trace)
  {
  }

  lemma {:induction false} TreeContinues(o: Oracle, xs: seq<Action>, tree: Tree)
    requires !Failed(RunSequence(o, xs, |xs|).hr)
    ensures Continues(o, xs, RunTree(o, tree, |xs|, RunSequence(o, xs, |xs|).trace), Flatten(tree))
    decreases tree, 0
  {
    match tree
    case Leaf(a) => LeafContinues(o, xs, a);
    case Sequence(children) => ChildrenContinue(o, xs, children, |children|);
  }

  lemma {:induction false} ChildrenContinue(o: Oracle, xs: seq<Action>, children: seq<Tree>, n: nat)
    requires n <= |children| && !Failed(RunSequence(o, xs, |xs|).hr)
    ensures Continues(o, xs, RunChildren(o, children, n, |xs|, RunSequence(o, xs, |xs|).trace), FlattenTo(children, n))
    decreases children, n
  {
    var w := RunSequence(o, xs, |xs|).trace;
    if n == 0 {
      assert xs + [] == xs;
    } else {
      ChildrenContinue(o, xs, children, n - 1);
      var p := RunChildren(o, children, n - 1, |xs|, w);
      var zs := xs + FlattenTo(children, n - 1);
      var ys := Flatten(children[n - 1]);
      assert xs + FlattenTo(children, n) == zs + ys;
      if Failed(p.outcome.hr) {
        SequencePrefix(o, zs, ys, |zs|);
        SequenceStays(o, zs + ys, |zs|, |zs + ys|);
      } else {
        TreeContinues(o, zs, children[n - 1]);
      }
    }
  }

  // A nested sequence behaves like the flat one.
  lemma NestingIsTransparent(o: Oracle, tree: Tree)
    ensures RunTree(o, tree, 0, []).outcome == RunSequence(o, Flatten(tree), |Flatten(tree)|)
  {
    TreeContinues(o, [], tree);
    assert [] + Flatten(tree) == Flatten(tree);
  }
}
