/** Prune of DecisionTree/Leaf.cs: bottom-up soft pruning. Each branch compares its
    misclassification rate plus a per-terminal penalty `alpha` with its purity plus `alpha`,
    and marks itself hidden when the subtree does not pay for itself. */
module Pruning {
  import opened Wrappers
  import opened Corpus
  import opened LeafNode
  import opened Training

  /** Prune can run on `t` with these corpora: at every branch, hidden or not, every point
      has the feature the node cuts on, because Prune partitions both corpora by it. */
  predicate Prunable(t: Leaf, signal: seq<DataPoint>, background: seq<DataPoint>)
  {
    t.Branch? ==>
      InRange(signal, t.variable) && InRange(background, t.variable) &&
      Prunable(t.output1, LowSide(signal, t.variable, t.split), LowSide(background, t.variable, t.split)) &&
      Prunable(t.output2, HighSide(signal, t.variable, t.split), HighSide(background, t.variable, t.split))
  }

  /** Tree.Prune runs on the corpora the tree was trained on, and a tree Train built can be
      pruned with them. */
  lemma {:induction false} TrainedTreesArePrunable(t: Leaf, signal: seq<DataPoint>, background: seq<DataPoint>)
    requires TrainedOn(t, signal, background)
    ensures Prunable(t, signal, background)
  {
    if t.Branch? {
      var v, sp := t.variable, t.split;
      TrainedTreesArePrunable(t.output1, LowSide(signal, v, sp), LowSide(background, v, sp));
      TrainedTreesArePrunable(t.output2, HighSide(signal, v, sp), HighSide(background, v, sp));
    }
  }

  /** Where Prune can run, findError can run: inference on every point reads only
      features that exist. */
  lemma {:induction false} PrunableRoutable(t: Leaf, signal: seq<DataPoint>, background: seq<DataPoint>)
    requires Prunable(t, signal, background)
    ensures AllRoutable(t, signal) && AllRoutable(t, background)
  {
    if t.Branch? {
      var v, sp := t.variable, t.split;
      PrunableRoutable(t.output1, LowSide(signal, v, sp), LowSide(background, v, sp));
      PrunableRoutable(t.output2, HighSide(signal, v, sp), HighSide(background, v, sp));
      SidesRoute(t, signal);
      SidesRoute(t, background);
    }
  }

  /** A corpus whose two sides route through the two children routes through the branch. */
  lemma SidesRoute(t: Leaf, ps: seq<DataPoint>)
    requires t.Branch? && InRange(ps, t.variable)
    requires AllRoutable(t.output1, LowSide(ps, t.variable, t.split))
    requires AllRoutable(t.output2, HighSide(ps, t.variable, t.split))
    ensures AllRoutable(t, ps)
  {
    var v, sp := t.variable, t.split;
    var low, high := LowSide(ps, v, sp), HighSide(ps, v, sp);
    SidesMembership(ps, v, sp);
    forall i | 0 <= i < |ps|
      ensures Routable(t, ps[i].variables)
    {
      if DoSplit(ps[i].variables, v, sp) {
        var j :| 0 <= j < |low| && low[j] == ps[i];
        assert Routable(t.output1, low[j].variables);
      } else {
        var j :| 0 <= j < |high| && high[j] == ps[i];
        assert Routable(t.output2, high[j].variables);
      }
    }
  }

  /** The test `error + alpha*leaves < Purity + alpha` on doubles. A NaN error (both
      corpora empty) fails it. An undefined purity is +Infinity when nSignal is positive
      (the test holds), NaN when it is zero (the test fails) and -Infinity when it is
      negative (the test fails). */
  predicate CostBelowBudget(t: Leaf, error: Option<real>, alpha: real, leaves: int)
  {
    error.Some? &&
    match Purity(t)
    case Some(p) => error.value + alpha * leaves as real < p + alpha
    case None => t.nSignal > 0
  }

  /** Terminal nodes inference can reach: a hidden branch answers like a terminal. */
  function VisibleTerminals(t: Leaf): (n: nat)
    ensures n >= 1
    ensures n <= Terminals(t)
  {
    if Stops(t) then 1 else VisibleTerminals(t.output1) + VisibleTerminals(t.output2)
  }

  /** Prune: the pruned tree and the count it returns. The error is that of the node as it
      stands on entry, before its children are pruned; a branch that passes the test keeps
      its hidden flag as it was, one that fails it is hidden and counts as one terminal. */
  function PruneSpec(t: Leaf, signal: seq<DataPoint>, background: seq<DataPoint>, alpha: real): (r: (Leaf, int))
    requires Prunable(t, signal, background)
    ensures 1 <= r.1 <= Terminals(t)
    ensures t.Terminal? ==> r == (t, 1)
    decreases t
  {
    if t.Terminal? then (t, 1)
    else
      PrunableRoutable(t, signal, background);
      var error := ErrorRate(t, signal, background);
      var v, sp := t.variable, t.split;
      var low := PruneSpec(t.output1, LowSide(signal, v, sp), LowSide(background, v, sp), alpha);
      var high := PruneSpec(t.output2, HighSide(signal, v, sp), HighSide(background, v, sp), alpha);
      PruneStep(t, error, alpha, low, high)
  }

  /** The decision at a branch whose error on entry is `error`, given its pruned children
      with their counts: keep it with the children's count, or hide it and count 1. */
  function PruneStep(t: Leaf, error: Option<real>, alpha: real, low: (Leaf, int), high: (Leaf, int)): (r: (Leaf, int))
    requires t.Branch?
    ensures r.0.Branch? && r.0.output1 == low.0 && r.0.output2 == high.0
    ensures r.1 == 1 || r.1 == low.1 + high.1
    // a branch that passes the test keeps its flag and its children's count; one that
    // fails it is hidden and counts as one terminal
    ensures CostBelowBudget(t, error, alpha, low.1 + high.1) ==> r.1 == low.1 + high.1 && r.0.isHidden == t.isHidden
    ensures !CostBelowBudget(t, error, alpha, low.1 + high.1) ==> r.1 == 1 && r.0.isHidden
  {
    if CostBelowBudget(t, error, alpha, low.1 + high.1) then
      (Branch(t.variable, t.split, t.nSignal, t.nBackground, t.isHidden, low.0, high.0), low.1 + high.1)
    else (Branch(t.variable, t.split, t.nSignal, t.nBackground, true, low.0, high.0), 1)
  }

  /** Prune, with the findError loops and the two partition loops. */
  method Prune(t: Leaf, signal: seq<DataPoint>, background: seq<DataPoint>, alpha: real)
    returns (r: Leaf, count: int)
    requires Prunable(t, signal, background)
    ensures (r, count) == PruneSpec(t, signal, background, alpha)
    decreases t
  {
    PrunableRoutable(t, signal, background);
    var error := FindError(t, signal, background);
    if t.Terminal? {
      return t, 1;
    }
    var signalLeft, signalRight := Partition(signal, t.variable, t.split);
    var backgroundLeft, backgroundRight := Partition(background, t.variable, t.split);
    var output1, leftTerminalNodes := Prune(t.output1, signalLeft, backgroundLeft, alpha);
    var output2, rightTerminalNodes := Prune(t.output2, signalRight, backgroundRight, alpha);
    r, count := KeepOrHide(t, error, alpha, output1, leftTerminalNodes, output2, rightTerminalNodes);
  }

  /** The test at the end of Prune: keep the branch with its children's count, or hide it
      and count it as one terminal. */
  method KeepOrHide(t: Leaf, error: Option<real>, alpha: real, output1: Leaf, leftTerminalNodes: int,
                    output2: Leaf, rightTerminalNodes: int) returns (r: Leaf, count: int)
    requires t.Branch?
    ensures (r, count) == PruneStep(t, error, alpha, (output1, leftTerminalNodes), (output2, rightTerminalNodes))
  {
    if CostBelowBudget(t, error, alpha, leftTerminalNodes + rightTerminalNodes) {
      return Branch(t.variable, t.split, t.nSignal, t.nBackground, t.isHidden, output1, output2),
             leftTerminalNodes + rightTerminalNodes;
    }
    return Branch(t.variable, t.split, t.nSignal, t.nBackground, true, output1, output2), 1;
  }

  /** Prune only hides: the pruned tree has the shape, variables, cuts and counts of the
      input, and every node hidden before is still hidden. */
  lemma {:induction false} PruneOnlyHides(t: Leaf, signal: seq<DataPoint>, background: seq<DataPoint>, alpha: real)
    requires Prunable(t, signal, background)
    ensures Agrees(t, PruneSpec(t, signal, background, alpha).0)
    ensures HiddenGrows(t, PruneSpec(t, signal, background, alpha).0)
    decreases t
  {
    if t.Branch? {
      var v, sp := t.variable, t.split;
      PruneOnlyHides(t.output1, LowSide(signal, v, sp), LowSide(background, v, sp), alpha);
      PruneOnlyHides(t.output2, HighSide(signal, v, sp), HighSide(background, v, sp), alpha);
    }
  }

  /** On a tree with nothing hidden (a freshly trained or reloaded one), the count Prune
      returns is the number of terminals inference can reach in the pruned tree. */
  lemma {:induction false} PruneCountsVisibleTerminals(t: Leaf, signal: seq<DataPoint>, background: seq<DataPoint>,
                                                       alpha: real)
    requires Prunable(t, signal, background) && NoneHidden(t)
    ensures PruneSpec(t, signal, background, alpha).1 == VisibleTerminals(PruneSpec(t, signal, background, alpha).0)
    decreases t
  {
    if t.Branch? {
      var v, sp := t.variable, t.split;
      PruneCountsVisibleTerminals(t.output1, LowSide(signal, v, sp), LowSide(background, v, sp), alpha);
      PruneCountsVisibleTerminals(t.output2, HighSide(signal, v, sp), HighSide(background, v, sp), alpha);
    }
  }

  /** resetHidden undoes a prune of a tree with nothing hidden, whatever the penalty. */
  lemma ResetUndoesPrune(t: Leaf, signal: seq<DataPoint>, background: seq<DataPoint>, alpha: real)
    requires Prunable(t, signal, background) && NoneHidden(t)
    ensures ResetHidden(PruneSpec(t, signal, background, alpha).0) == t
  {
    var pruned := PruneSpec(t, signal, background, alpha).0;
    PruneOnlyHides(t, signal, background, alpha);
    AgreesResetEqual(t, pruned);
    ResetHiddenKeepsUnhidden(t);
  }
}
