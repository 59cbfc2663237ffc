/** The boosting loop of DecisionTree/Forest.cs. A round normalises the weights of the
    combined corpus, grows a tree under them, sums the weight of the points that tree
    misclassifies, scales each weight up (misclassified) or down (classified correctly)
    by a weight constant, and appends the tree with its vote. Inference is the
    vote-weighted mean of the trees' outputs. */
module Boosting {
  import opened Wrappers
  import opened Corpus
  import opened LeafNode

  /** A trained tree, seen only through its output on a feature vector; `None` stands for
      a non-finite output. */
  type Tree = seq<real> -> Option<real>

  /** The combined corpus: feature vectors with their labels (true for signal). */
  type Labels = seq<(seq<real>, bool)>

  // ---------------------------------------------------------------- normalisation

  /** Sum of the weights, accumulated from the front as the summing loop does. */
  function Sum(w: seq<real>): real
  {
    if |w| == 0 then 0.0 else Sum(w[..|w| - 1]) + w[|w| - 1]
  }

  /** Every weight divided by `c`. */
  function Scaled(w: seq<real>, c: real): (r: seq<real>)
    requires c != 0.0
    ensures |r| == |w|
  {
    seq(|w|, i requires 0 <= i < |w| => w[i] / c)
  }

  /** Dividing every weight by `c` divides the total by `c`. */
  lemma {:induction false} SumScaled(w: seq<real>, c: real)
    requires c != 0.0
    ensures Sum(Scaled(w, c)) == Sum(w) / c
  {
    if |w| > 0 {
      var n := |w| - 1;
      assert Scaled(w, c)[..n] == Scaled(w[..n], c);
      SumScaled(w[..n], c);
      assert Sum(w[..n]) / c + w[n] / c == (Sum(w[..n]) + w[n]) / c;
    }
  }

  /** After the normalisation loops the weights sum to one. */
  lemma NormalisedSumsToOne(w: seq<real>)
    requires Sum(w) != 0.0
    ensures Sum(Scaled(w, Sum(w))) == 1.0
  {
    var total := Sum(w);
    SumScaled(w, total);
    assert total / total == 1.0;
  }

  /** Every weight is positive. */
  predicate AllPositive(w: seq<real>)
  {
    forall i :: 0 <= i < |w| ==> w[i] > 0.0
  }

  /** Weights that are all positive have a positive total (when there is any weight). */
  lemma {:induction false} SumOfPositives(w: seq<real>)
    requires AllPositive(w)
    ensures |w| > 0 ==> Sum(w) > 0.0
    ensures Sum(w) >= 0.0
  {
    if |w| > 0 {
      var n := |w| - 1;
      assert forall i :: 0 <= i < n ==> w[..n][i] == w[i];
      SumOfPositives(w[..n]);
    }
  }

  // ---------------------------------------------------------------- error weight

  /** The tree's rounded output disagrees with the label: `Math.Round(out) == 1` differs
      from "is signal". A non-finite output never rounds to 1. */
  predicate Misclassified(tree: Tree, point: (seq<real>, bool))
  {
    PredictsSignal(tree(point.0)) != point.1
  }

  /** totalErrorWeight: the weights of exactly the misclassified points, summed. */
  function ErrorWeight(w: seq<real>, data: Labels, tree: Tree): real
    requires |w| == |data|
  {
    if |w| == 0 then 0.0
    else
      var n := |w| - 1;
      ErrorWeight(w[..n], data[..n], tree) + (if Misclassified(tree, data[n]) then w[n] else 0.0)
  }

  /** The weights of exactly the correctly classified points, summed. */
  function CorrectWeight(w: seq<real>, data: Labels, tree: Tree): real
    requires |w| == |data|
  {
    if |w| == 0 then 0.0
    else
      var n := |w| - 1;
      CorrectWeight(w[..n], data[..n], tree) + (if Misclassified(tree, data[n]) then 0.0 else w[n])
  }

  /** Every point is counted on exactly one side: the two weights add up to the total. */
  lemma {:induction false} WeightSplits(w: seq<real>, data: Labels, tree: Tree)
    requires |w| == |data|
    ensures ErrorWeight(w, data, tree) + CorrectWeight(w, data, tree) == Sum(w)
  {
    if |w| > 0 {
      WeightSplits(w[..|w| - 1], data[..|w| - 1], tree);
    }
  }

  /** With non-negative weights the error weight lies between 0 and the total, and it is 0
      exactly when every point of positive weight is classified correctly. */
  lemma {:induction false} ErrorWeightBounds(w: seq<real>, data: Labels, tree: Tree)
    requires |w| == |data|
    requires forall i :: 0 <= i < |w| ==> w[i] >= 0.0
    ensures 0.0 <= ErrorWeight(w, data, tree) <= Sum(w)
    ensures ErrorWeight(w, data, tree) == 0.0 <==>
            forall i :: 0 <= i < |w| && w[i] > 0.0 ==> !Misclassified(tree, data[i])
  {
    if |w| > 0 {
      var n := |w| - 1;
      assert forall i :: 0 <= i < n ==> w[..n][i] == w[i] && data[..n][i] == data[i];
      ErrorWeightBounds(w[..n], data[..n], tree);
      WeightSplits(w[..n], data[..n], tree);
      WeightSplits(w, data, tree);
      ErrorWeightBounds(w[..n], data[..n], tree);
      CorrectWeightNonNegative(w, data, tree);
    }
  }

  lemma {:induction false} CorrectWeightNonNegative(w: seq<real>, data: Labels, tree: Tree)
    requires |w| == |data|
    requires forall i :: 0 <= i < |w| ==> w[i] >= 0.0
    ensures CorrectWeight(w, data, tree) >= 0.0
  {
    if |w| > 0 {
      var n := |w| - 1;
      assert forall i :: 0 <= i < n ==> w[..n][i] == w[i];
      CorrectWeightNonNegative(w[..n], data[..n], tree);
    }
  }

  // ---------------------------------------------------------------- reweighting

  /** The reweight loop: a misclassified point's weight is multiplied by `c`, any other
      point's weight divided by `c`. */
  function Reweighted(w: seq<real>, data: Labels, tree: Tree, c: real): (r: seq<real>)
    requires |w| == |data| && c != 0.0
    ensures |r| == |w|
  {
    seq(|w|, i requires 0 <= i < |w| => if Misclassified(tree, data[i]) then w[i] * c else w[i] / c)
  }

  lemma ReweightedPrefix(w: seq<real>, data: Labels, tree: Tree, c: real, n: nat)
    requires |w| == |data| && c != 0.0 && n <= |w|
    ensures Reweighted(w, data, tree, c)[..n] == Reweighted(w[..n], data[..n], tree, c)
  {
    var a, b := Reweighted(w, data, tree, c)[..n], Reweighted(w[..n], data[..n], tree, c);
    forall k | 0 <= k < n
      ensures a[k] == b[k]
    {
      assert data[..n][k] == data[k] && w[..n][k] == w[k];
    }
  }

  /** Reweighting multiplies the misclassified weight by `c`. */
  lemma {:induction false} ErrorWeightReweighted(w: seq<real>, data: Labels, tree: Tree, c: real)
    requires |w| == |data| && c != 0.0
    ensures ErrorWeight(Reweighted(w, data, tree, c), data, tree) == ErrorWeight(w, data, tree) * c
  {
    if |w| > 0 {
      var n := |w| - 1;
      var r := Reweighted(w, data, tree, c);
      ReweightedPrefix(w, data, tree, c, n);
      ErrorWeightReweighted(w[..n], data[..n], tree, c);
      var before := ErrorWeight(w[..n], data[..n], tree);
      assert ErrorWeight(r[..n], data[..n], tree) == before * c;
      if Misclassified(tree, data[n]) {
        assert ErrorWeight(w, data, tree) == before + w[n];
        assert ErrorWeight(r, data, tree) == before * c + w[n] * c;
        assert before * c + w[n] * c == (before + w[n]) * c;
      } else {
        assert ErrorWeight(w, data, tree) == before;
        assert ErrorWeight(r, data, tree) == before * c;
      }
    }
  }

  /** Reweighting divides the correctly classified weight by `c`. */
  lemma {:induction false} CorrectWeightReweighted(w: seq<real>, data: Labels, tree: Tree, c: real)
    requires |w| == |data| && c != 0.0
    ensures CorrectWeight(Reweighted(w, data, tree, c), data, tree) == CorrectWeight(w, data, tree) / c
  {
    if |w| > 0 {
      var n := |w| - 1;
      var r := Reweighted(w, data, tree, c);
      ReweightedPrefix(w, data, tree, c, n);
      CorrectWeightReweighted(w[..n], data[..n], tree, c);
      var before := CorrectWeight(w[..n], data[..n], tree);
      assert CorrectWeight(r[..n], data[..n], tree) == before / c;
      if Misclassified(tree, data[n]) {
        assert CorrectWeight(r, data, tree) == before / c;
      } else {
        assert CorrectWeight(r, data, tree) == before / c + w[n] / c;
        var a, b := before / c, w[n] / c;
        assert a * c == before && b * c == w[n];
        assert (a + b) * c == before + w[n];
      }
    }
  }

  /** `c` is the weight constant sqrt((1 - e) / e) of the source for every error weight
      strictly between 0 and 1. */
  ghost predicate IsWeightConstant(factor: real -> real)
  {
    forall e :: 0.0 < e < 1.0 ==> factor(e) > 0.0 && factor(e) * factor(e) == (1.0 - e) / e
  }

  /** The point of the weight constant: on normalised weights with error weight e, after
      reweighting by sqrt((1 - e) / e) the misclassified and the correctly classified
      points carry the same weight, sqrt(e (1 - e)) each. */
  lemma ReweightBalances(w: seq<real>, data: Labels, tree: Tree, c: real)
    requires |w| == |data| && Sum(w) == 1.0
    requires 0.0 < ErrorWeight(w, data, tree) < 1.0
    requires c > 0.0 && c * c == (1.0 - ErrorWeight(w, data, tree)) / ErrorWeight(w, data, tree)
    ensures ErrorWeight(Reweighted(w, data, tree, c), data, tree) ==
            CorrectWeight(Reweighted(w, data, tree, c), data, tree)
  {
    var r := Reweighted(w, data, tree, c);
    calc {
      ErrorWeight(r, data, tree);
      { ErrorWeightReweighted(w, data, tree, c); }
      ErrorWeight(w, data, tree) * c;
      { WeightSplits(w, data, tree);
        BalanceArithmetic(ErrorWeight(w, data, tree), CorrectWeight(w, data, tree), c); }
      CorrectWeight(w, data, tree) / c;
      { CorrectWeightReweighted(w, data, tree, c); }
      CorrectWeight(r, data, tree);
    }
  }

  /** e c = r / c when the weights e and r sum to 1 and c is the square root of r / e. */
  lemma BalanceArithmetic(e: real, r: real, c: real)
    requires e + r == 1.0 && 0.0 < e < 1.0 && c > 0.0 && c * c == (1.0 - e) / e
    ensures e * c == r / c
  {
    var k := c * c;
    assert e * k == 1.0 - e;
    assert (e * c) * c == 1.0 - e;
  }

  // ---------------------------------------------------------------- rounds

  /** The weights, the appended (tree, vote) pairs, and the round that stopped the loop. */
  datatype BoostState = BoostState(weights: seq<real>, trees: seq<(Tree, real)>, degenerate: Option<int>)

  /** Round `i`. The model stops at a round whose weights sum to zero (the source divides
      by zero) or whose error weight is not strictly between 0 and 1 (the source takes the
      square root of a negative number or divides by zero); the weights are then left
      as the round has made them so far. */
  function Round(st: BoostState, data: Labels, grow: seq<real> -> Tree, factor: real -> real,
                 vote: real -> real, i: int): (r: BoostState)
    requires |st.weights| == |data| && IsWeightConstant(factor)
    ensures |r.weights| == |data|
    ensures r.degenerate.None? ==> |r.trees| == |st.trees| + 1 && r.trees[..|st.trees|] == st.trees
    ensures r.degenerate.Some? ==> r.trees == st.trees && r.degenerate == Some(i)
  {
    var total := Sum(st.weights);
    if total == 0.0 then st.(degenerate := Some(i))
    else
      var w := Scaled(st.weights, total);
      var tree := grow(w);
      var e := ErrorWeight(w, data, tree);
      if !(0.0 < e < 1.0) then BoostState(w, st.trees, Some(i))
      else BoostState(Reweighted(w, data, tree, factor(e)), st.trees + [(tree, vote(e))], None)
  }

  /** The first `n` rounds from the weights `w0`, or those up to the one that stopped. */
  function BoostRounds(w0: seq<real>, data: Labels, grow: seq<real> -> Tree, factor: real -> real,
                       vote: real -> real, n: nat): (r: BoostState)
    requires |w0| == |data| && IsWeightConstant(factor)
    ensures |r.weights| == |data|
    ensures r.degenerate.None? ==> |r.trees| == n
    ensures r.degenerate.Some? ==> 0 <= r.degenerate.value < n && |r.trees| == r.degenerate.value
  {
    if n == 0 then BoostState(w0, [], None)
    else
      var prev := BoostRounds(w0, data, grow, factor, vote, n - 1);
      if prev.degenerate.Some? then prev else Round(prev, data, grow, factor, vote, n - 1)
  }

  /** Rounds only append: the pairs of the first m rounds are a prefix of those of the
      first n, and once the loop has stopped nothing changes. */
  lemma {:induction false} RoundsOnlyAppend(w0: seq<real>, data: Labels, grow: seq<real> -> Tree,
                                            factor: real -> real, vote: real -> real, m: nat, n: nat)
    requires |w0| == |data| && IsWeightConstant(factor) && m <= n
    ensures BoostRounds(w0, data, grow, factor, vote, m).trees <= BoostRounds(w0, data, grow, factor, vote, n).trees
    ensures BoostRounds(w0, data, grow, factor, vote, m).degenerate.Some? ==>
            BoostRounds(w0, data, grow, factor, vote, n) == BoostRounds(w0, data, grow, factor, vote, m)
    decreases n
  {
    if m < n {
      RoundsOnlyAppend(w0, data, grow, factor, vote, m, n - 1);
      var prev := BoostRounds(w0, data, grow, factor, vote, n - 1);
      if prev.degenerate.None? {
        var next := Round(prev, data, grow, factor, vote, n - 1);
        assert BoostRounds(w0, data, grow, factor, vote, n) == next;
        assert prev.trees <= next.trees;
      }
    }
  }

  /** One round keeps positive weights positive. */
  lemma RoundKeepsWeightsPositive(st: BoostState, data: Labels, grow: seq<real> -> Tree, factor: real -> real,
                                  vote: real -> real, i: int)
    requires |st.weights| == |data| && IsWeightConstant(factor)
    requires AllPositive(st.weights)
    ensures AllPositive(Round(st, data, grow, factor, vote, i).weights)
  {
    var total := Sum(st.weights);
    SumOfPositives(st.weights);
    if total != 0.0 {
      var w := Scaled(st.weights, total);
      forall k | 0 <= k < |w|
        ensures w[k] > 0.0
      {
        PositiveQuotient(st.weights[k], total);
      }
      var tree := grow(w);
      var e := ErrorWeight(w, data, tree);
      if 0.0 < e < 1.0 {
        var c := factor(e);
        var r := Reweighted(w, data, tree, c);
        forall k | 0 <= k < |r|
          ensures r[k] > 0.0
        {
          PositiveQuotient(w[k], c);
          assert w[k] * c > 0.0;
        }
      }
    }
  }

  lemma PositiveQuotient(a: real, b: real)
    requires a > 0.0 && b > 0.0
    ensures a / b > 0.0
  {
    assert (a / b) * b == a;
  }

  /** Positive weights stay positive through every round. */
  lemma {:induction false} RoundsKeepWeightsPositive(w0: seq<real>, data: Labels, grow: seq<real> -> Tree,
                                                     factor: real -> real, vote: real -> real, n: nat)
    requires |w0| == |data| && IsWeightConstant(factor)
    requires AllPositive(w0)
    ensures AllPositive(BoostRounds(w0, data, grow, factor, vote, n).weights)
  {
    if n > 0 {
      RoundsKeepWeightsPositive(w0, data, grow, factor, vote, n - 1);
      var prev := BoostRounds(w0, data, grow, factor, vote, n - 1);
      var r := BoostRounds(w0, data, grow, factor, vote, n);
      if prev.degenerate.None? {
        assert r == Round(prev, data, grow, factor, vote, n - 1);
        RoundKeepsWeightsPositive(prev, data, grow, factor, vote, n - 1);
      } else {
        assert r == prev;
      }
    }
  }

  /** Each completed round leaves weights under which the tree it appended is no better
      than a coin: misclassified and correctly classified points weigh the same. */
  lemma RoundBalances(st: BoostState, data: Labels, grow: seq<real> -> Tree, factor: real -> real,
                      vote: real -> real, i: int)
    requires |st.weights| == |data| && IsWeightConstant(factor)
    requires Round(st, data, grow, factor, vote, i).degenerate.None?
    ensures var r := Round(st, data, grow, factor, vote, i);
      var tree := r.trees[|r.trees| - 1].0;
      ErrorWeight(r.weights, data, tree) == CorrectWeight(r.weights, data, tree)
  {
    var total := Sum(st.weights);
    var w := Scaled(st.weights, total);
    var tree := grow(w);
    var e := ErrorWeight(w, data, tree);
    NormalisedSumsToOne(st.weights);
    ReweightBalances(w, data, tree, factor(e));
  }

  // ---------------------------------------------------------------- inference

  /** Σ outᵢ·wᵢ over the trees; `None` when some tree's output is not finite. */
  function VoteSum(trees: seq<(Tree, real)>, x: seq<real>): Option<real>
  {
    if |trees| == 0 then Some(0.0)
    else
      var n := |trees| - 1;
      var sum, out := VoteSum(trees[..n], x), trees[n].0(x);
      if sum.Some? && out.Some? then Some(sum.value + out.value * trees[n].1) else None
  }

  /** Σ wᵢ over the trees. */
  function WeightSum(trees: seq<(Tree, real)>): real
  {
    if |trees| == 0 then 0.0 else WeightSum(trees[..|trees| - 1]) + trees[|trees| - 1].1
  }

  /** RunDataPoint: the vote-weighted mean of the trees' outputs; `None` where the double
      result is not finite (a non-finite output, or votes that sum to zero). */
  function WeightedMean(trees: seq<(Tree, real)>, x: seq<real>): Option<real>
  {
    match VoteSum(trees, x)
    case None => None
    case Some(p) => if WeightSum(trees) == 0.0 then None else Some(p / WeightSum(trees))
  }

  /** When every tree gives `c`, the vote sum is `c` times the vote total. */
  lemma {:induction false} UnanimousVoteSum(trees: seq<(Tree, real)>, x: seq<real>, c: real)
    requires forall i :: 0 <= i < |trees| ==> trees[i].0(x) == Some(c)
    ensures VoteSum(trees, x).Some? && VoteSum(trees, x).value == c * WeightSum(trees)
  {
    if |trees| > 0 {
      var n := |trees| - 1;
      var init, v := trees[..n], trees[n].1;
      assert forall i :: 0 <= i < n ==> init[i] == trees[i];
      assert forall i :: 0 <= i < |init| ==> init[i].0(x) == Some(c);
      UnanimousVoteSum(init, x, c);
      assert trees[n].0(x) == Some(c);
      var before, total := WeightSum(init), WeightSum(trees);
      assert total == before + v;
      assert VoteSum(init, x).value == c * before;
      assert VoteSum(trees, x).Some? && VoteSum(trees, x).value == c * before + c * v;
      assert c * before + c * v == c * total;
      assert VoteSum(trees, x).value == c * total;
    }
  }

  /** Trees that agree on `x` give their common output, whatever their votes, as long as the
      votes do not sum to zero. */
  lemma UnanimousMean(trees: seq<(Tree, real)>, x: seq<real>, c: real)
    requires forall i :: 0 <= i < |trees| ==> trees[i].0(x) == Some(c)
    requires WeightSum(trees) != 0.0
    ensures WeightedMean(trees, x).Some? && WeightedMean(trees, x).value == c
  {
    UnanimousVoteSum(trees, x, c);
    var total := WeightSum(trees);
    assert c * total / total == c;
    assert WeightedMean(trees, x).value == c;
  }

  /** With positive votes and outputs in [0, 1], the mean is in [0, 1]. */
  lemma {:induction false} MeanInUnit(trees: seq<(Tree, real)>, x: seq<real>)
    requires |trees| > 0
    requires forall i :: 0 <= i < |trees| ==> trees[i].1 > 0.0
    requires forall i :: 0 <= i < |trees| ==> trees[i].0(x).Some? && 0.0 <= trees[i].0(x).value <= 1.0
    ensures WeightedMean(trees, x).Some? && 0.0 <= WeightedMean(trees, x).value <= 1.0
  {
    VoteSumBounds(trees, x);
    FractionInUnit(VoteSum(trees, x).value, WeightSum(trees));
  }

  lemma {:induction false} VoteSumBounds(trees: seq<(Tree, real)>, x: seq<real>)
    requires forall i :: 0 <= i < |trees| ==> trees[i].1 > 0.0
    requires forall i :: 0 <= i < |trees| ==> trees[i].0(x).Some? && 0.0 <= trees[i].0(x).value <= 1.0
    ensures VoteSum(trees, x).Some?
    ensures 0.0 <= VoteSum(trees, x).value <= WeightSum(trees)
    ensures |trees| > 0 ==> WeightSum(trees) > 0.0
  {
    if |trees| > 0 {
      var n := |trees| - 1;
      assert forall i :: 0 <= i < n ==> trees[..n][i] == trees[i];
      VoteSumBounds(trees[..n], x);
      assert trees[n].0(x).Some?;
      var o, v := trees[n].0(x).value, trees[n].1;
      assert 0.0 <= o * v <= v by {
        assert 0.0 <= o * v;
        assert (1.0 - o) * v >= 0.0;
      }
      assert VoteSum(trees, x) == Some(VoteSum(trees[..n], x).value + o * v);
    }
  }

  // ---------------------------------------------------------------- the loops of a round

  /** Rounds a Train call runs: the loop runs while the counter is below forestSize. */
  function RoundCount(forestSize: int): nat
  {
    if forestSize < 0 then 0 else forestSize
  }

  /** The loop that sums the weights (totalWeights). */
  method SumWeights(weights: array<real>) returns (total: real)
    ensures total == Sum(weights[..])
  {
    total := 0.0;
    var j := 0;
    while j < weights.Length
      invariant 0 <= j <= weights.Length
      invariant total == Sum(weights[..j])
    {
      assert weights[..j + 1][..j] == weights[..j];
      total := total + weights[j];
      j := j + 1;
    }
    assert weights[..j] == weights[..];
  }

  /** The loop that divides every weight by the total, in place. */
  method DivideAll(weights: array<real>, total: real)
    requires total != 0.0
    modifies weights
    ensures weights[..] == Scaled(old(weights[..]), total)
  {
    var j := 0;
    while j < weights.Length
      invariant 0 <= j <= weights.Length
      invariant forall k :: 0 <= k < j ==> weights[k] == old(weights[k]) / total
      invariant forall k :: j <= k < weights.Length ==> weights[k] == old(weights[k])
    {
      weights[j] := weights[j] / total;
      j := j + 1;
    }
  }

  /** The loop that sums the weights of the misclassified points (totalErrorWeight). */
  method MisclassifiedWeight(weights: array<real>, data: Labels, tree: Tree) returns (total: real)
    requires weights.Length == |data|
    ensures total == ErrorWeight(weights[..], data, tree)
  {
    total := 0.0;
    var j := 0;
    while j < weights.Length
      invariant 0 <= j <= weights.Length
      invariant total == ErrorWeight(weights[..j], data[..j], tree)
    {
      assert weights[..j + 1][..j] == weights[..j];
      assert data[..j + 1][..j] == data[..j];
      if Misclassified(tree, data[j]) {
        total := total + weights[j];
      }
      j := j + 1;
    }
    assert weights[..j] == weights[..];
    assert data[..j] == data;
  }

  /** The reweight loop, in place. */
  method Reweight(weights: array<real>, data: Labels, tree: Tree, weightConstant: real)
    requires weights.Length == |data| && weightConstant != 0.0
    modifies weights
    ensures weights[..] == Reweighted(old(weights[..]), data, tree, weightConstant)
  {
    var j := 0;
    while j < weights.Length
      invariant 0 <= j <= weights.Length
      invariant forall k :: 0 <= k < j ==>
        weights[k] == if Misclassified(tree, data[k]) then old(weights[k]) * weightConstant
                      else old(weights[k]) / weightConstant
      invariant forall k :: j <= k < weights.Length ==> weights[k] == old(weights[k])
    {
      if Misclassified(tree, data[j]) {
        weights[j] := weights[j] * weightConstant;
      } else {
        weights[j] := weights[j] / weightConstant;
      }
      j := j + 1;
    }
    ghost var expected := Reweighted(old(weights[..]), data, tree, weightConstant);
    assert forall k :: 0 <= k < weights.Length ==> weights[..][k] == expected[k];
  }

  /** The body of Train's loop for round `i`: normalise, grow, sum the error weight,
      reweight. It answers the (tree, vote) pair to append, or `None` where the model stops. */
  method OneRound(weights: array<real>, data: Labels, grow: seq<real> -> Tree, factor: real -> real,
                  vote: real -> real, ghost trees: seq<(Tree, real)>, i: int)
    returns (appended: Option<(Tree, real)>)
    requires weights.Length == |data| && IsWeightConstant(factor)
    modifies weights
    ensures var r := Round(BoostState(old(weights[..]), trees, None), data, grow, factor, vote, i);
      weights[..] == r.weights &&
      (appended.None? <==> r.degenerate.Some?) &&
      (appended.Some? ==> r.trees == trees + [appended.value])
  {
    var totalWeights := SumWeights(weights);
    if totalWeights == 0.0 {
      return None;
    }
    DivideAll(weights, totalWeights);
    var tree := grow(weights[..]);
    var totalErrorWeight := MisclassifiedWeight(weights, data, tree);
    if !(0.0 < totalErrorWeight < 1.0) {
      return None;
    }
    var weightConstant := factor(totalErrorWeight);
    var treeWeight := vote(totalErrorWeight);
    Reweight(weights, data, tree, weightConstant);
    return Some((tree, treeWeight));
  }

  // ---------------------------------------------------------------- the forest

  /** A Forest: the number of rounds a Train call runs and the (tree, vote) list. */
  class Forest {
    const forestSize: int
    var trees: seq<(Tree, real)>

    constructor(forestSize: int)
      ensures this.forestSize == forestSize && trees == []
    {
      this.forestSize := forestSize;
      trees := [];
    }

    /** Train: `forestSize` rounds (none when it is negative). `weights` holds the Weight
        field of the combined list's points, which are the corpora's own points; `grow`
        stands for training and pruning a new Tree on the corpora under those weights,
        `factor` for the weight constant sqrt((1 - e) / e) and `vote` for the tree weight
        log(weightConstant). The answer names the round that stopped the loop, if any. */
    method Train(signal: seq<seq<real>>, background: seq<seq<real>>, weights: array<real>,
                 grow: seq<real> -> Tree, factor: real -> real, vote: real -> real)
      returns (degenerate: Option<int>)
      requires weights.Length == |signal| + |background|
      requires IsWeightConstant(factor)
      modifies this, weights
      ensures var st := BoostRounds(old(weights[..]), Labelled(signal, background), grow, factor, vote,
                                    RoundCount(forestSize));
        weights[..] == st.weights && trees == old(trees) + st.trees && degenerate == st.degenerate
    {
      var combinedData := BuildCombined(signal, background);
      degenerate := RunRounds(combinedData, weights, grow, factor, vote);
    }

    /** Train's loop over the rounds, on the combined list. */
    method RunRounds(data: Labels, weights: array<real>, grow: seq<real> -> Tree, factor: real -> real,
                     vote: real -> real) returns (degenerate: Option<int>)
      requires weights.Length == |data|
      requires IsWeightConstant(factor)
      modifies this, weights
      ensures var st := BoostRounds(old(weights[..]), data, grow, factor, vote, RoundCount(forestSize));
        weights[..] == st.weights && trees == old(trees) + st.trees && degenerate == st.degenerate
    {
      ghost var w0, trees0 := weights[..], trees;
      ghost var n := RoundCount(forestSize);
      ghost var st := BoostRounds(w0, data, grow, factor, vote, 0);
      degenerate := None;
      var i := 0;
      while i < forestSize && degenerate.None?
        invariant 0 <= i <= n
        invariant st == BoostRounds(w0, data, grow, factor, vote, i)
        invariant weights[..] == st.weights && trees == trees0 + st.trees && degenerate == st.degenerate
      {
        ghost var next := Round(st, data, grow, factor, vote, i);
        assert BoostRounds(w0, data, grow, factor, vote, i + 1) == next;
        assert st == BoostState(weights[..], st.trees, None);
        var appended := OneRound(weights, data, grow, factor, vote, st.trees, i);
        if appended.Some? {
          assert trees0 + (st.trees + [appended.value]) == trees + [appended.value];
          trees := trees + [appended.value];
        } else {
          degenerate := Some(i);
        }
        st := next;
        i := i + 1;
      }
      RoundsOnlyAppend(w0, data, grow, factor, vote, i, n);
    }

    /** RunDataPoint, with its accumulator loop. */
    method RunDataPoint(x: seq<real>) returns (r: Option<real>)
      ensures r == WeightedMean(trees, x)
    {
      // `finite` is false once a tree's output is not finite and the double sum with it
      var totalTreePurity, finite := 0.0, true;
      var totalTreeWeight := 0.0;
      var i := 0;
      while i < |trees|
        invariant 0 <= i <= |trees|
        invariant VoteSum(trees[..i], x).Some? == finite
        invariant finite ==> VoteSum(trees[..i], x).value == totalTreePurity
        invariant totalTreeWeight == WeightSum(trees[..i])
      {
        assert trees[..i + 1][..i] == trees[..i];
        var treeWeight := trees[i].1;
        var output := trees[i].0(x);
        if output.Some? {
          totalTreePurity := totalTreePurity + output.value * treeWeight;
        } else {
          finite := false;
        }
        totalTreeWeight := totalTreeWeight + treeWeight;
        i := i + 1;
      }
      assert trees[..i] == trees;
      if !finite || totalTreeWeight == 0.0 {
        r := None;
      } else {
        r := Some(totalTreePurity / totalTreeWeight);
        assert r.value == WeightedMean(trees, x).value;
      }
    }
  }
}
