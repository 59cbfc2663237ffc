/** ChooseVariable of DecisionTree/Leaf.cs: the search for a node's cut. For every feature
    it scans the weighted minimum to maximum in 100 equal chunks, then 50 chunks in a window
    of one first-pass chunk on each side of the best cut found so far; one running best is
    carried across passes and features. */
module SplitSearch {
  import opened Corpus

  /** Combined point count below which a node never branches. */
  const StoppingCount: nat := 55

  /** Number of chunks of the first pass; each later pass halves it. */
  const FirstPassChunks: nat := 100

  /** Number of passes per feature. */
  const Passes: nat := 2

  /** Weighted signal and background mass below (`<`) and at or above (`>=`) a candidate cut. */
  datatype Tally = Tally(lowSignal: real, highSignal: real, lowBackground: real, highBackground: real)

  /** The search's running best and the node's `variable` and `split` fields, which the
      search overwrites whenever the best improves. */
  datatype SearchState = SearchState(bestVariableIndex: int, bestSplitValue: real, bestPurityDiff: real,
                                     variable: int, split: real)

  /** Every labelled point has at least `n` features. */
  predicate Wide(data: seq<(DataPoint, bool)>, n: nat)
  {
    forall j :: 0 <= j < |data| ==> n <= |data[j].0.variables|
  }

  // ---------------------------------------------------------------- tallies

  /** Adds one labelled point to the side of the cut `t` it falls on. */
  function Add(ta: Tally, point: (DataPoint, bool), k: nat, t: real): Tally
    requires k < |point.0.variables|
  {
    var p, isSignal := point.0, point.1;
    if isSignal then
      if p.variables[k] >= t then ta.(highSignal := ta.highSignal + p.weight)
      else ta.(lowSignal := ta.lowSignal + p.weight)
    else
      if p.variables[k] >= t then ta.(highBackground := ta.highBackground + p.weight)
      else ta.(lowBackground := ta.lowBackground + p.weight)
  }

  /** The tally of all points for feature `k` and cut `t`. */
  function TallyOf(data: seq<(DataPoint, bool)>, k: nat, t: real): Tally
    requires Wide(data, k + 1)
  {
    if |data| == 0 then Tally(0.0, 0.0, 0.0, 0.0)
    else Add(TallyOf(data[..|data| - 1], k, t), data[|data| - 1], k, t)
  }

  /** Total weight of the points labelled `isSignal`. */
  function ClassWeight(data: seq<(DataPoint, bool)>, isSignal: bool): real
  {
    if |data| == 0 then 0.0
    else ClassWeight(data[..|data| - 1], isSignal) +
         (if data[|data| - 1].1 == isSignal then data[|data| - 1].0.weight else 0.0)
  }

  /** Every point is counted on exactly one side of any cut: low plus high is the whole
      class weight. */
  lemma {:induction false} TallyConserves(data: seq<(DataPoint, bool)>, k: nat, t: real)
    requires Wide(data, k + 1)
    ensures TallyOf(data, k, t).lowSignal + TallyOf(data, k, t).highSignal == ClassWeight(data, true)
    ensures TallyOf(data, k, t).lowBackground + TallyOf(data, k, t).highBackground == ClassWeight(data, false)
  {
    if |data| > 0 {
      TallyConserves(data[..|data| - 1], k, t);
    }
  }

  /** The tally loop over the combined list. */
  method TallyAt(data: seq<(DataPoint, bool)>, k: nat, splitValue: real) returns (ta: Tally)
    requires Wide(data, k + 1)
    ensures ta == TallyOf(data, k, splitValue)
  {
    var numLowSignals, numHighSignals, numLowBackground, numHighBackground := 0.0, 0.0, 0.0, 0.0;
    var j := 0;
    while j < |data|
      invariant 0 <= j <= |data|
      invariant Tally(numLowSignals, numHighSignals, numLowBackground, numHighBackground) == TallyOf(data[..j], k, splitValue)
    {
      assert data[..j + 1][..j] == data[..j];
      var (p, isSignal) := data[j];
      if isSignal {
        if p.variables[k] >= splitValue {
          numHighSignals := numHighSignals + p.weight;
        } else {
          numLowSignals := numLowSignals + p.weight;
        }
      } else {
        if p.variables[k] >= splitValue {
          numHighBackground := numHighBackground + p.weight;
        } else {
          numLowBackground := numLowBackground + p.weight;
        }
      }
      j := j + 1;
    }
    assert data[..j] == data;
    ta := Tally(numLowSignals, numHighSignals, numLowBackground, numHighBackground);
  }

  // ---------------------------------------------------------------- one candidate

  function Abs(x: real): real
  {
    if x < 0.0 then -x else x
  }

  /** Both sides of the cut carry positive weight. */
  predicate BothSidesWeighted(ta: Tally)
  {
    ta.highSignal + ta.highBackground > 0.0 && ta.lowSignal + ta.lowBackground > 0.0
  }

  /** |signal fraction above - signal fraction below|. */
  function PurityDiff(ta: Tally): real
    requires BothSidesWeighted(ta)
  {
    Abs(ta.highSignal / (ta.highBackground + ta.highSignal) - ta.lowSignal / (ta.lowBackground + ta.lowSignal))
  }

  /** The score of the cut `t` on feature `k` when the cut is usable at all (both sides
      weighted, score below 1). */
  predicate Usable(data: seq<(DataPoint, bool)>, k: nat, t: real)
    requires Wide(data, k + 1)
  {
    BothSidesWeighted(TallyOf(data, k, t)) && PurityDiff(TallyOf(data, k, t)) < 1.0
  }

  /** The update of the running best by one candidate cut. */
  function Consider(st: SearchState, ta: Tally, k: nat, t: real): (r: SearchState)
    // the best never decreases and every accepted score is below 1
    ensures r.bestPurityDiff >= st.bestPurityDiff
    ensures r == st || r.bestPurityDiff < 1.0
    // only a strict improvement replaces the best, so ties keep the earlier cut
    ensures r == st || (r.bestPurityDiff > st.bestPurityDiff &&
                        r.variable == r.bestVariableIndex == k && r.split == r.bestSplitValue == t)
    // a usable candidate with a larger score is always taken
    ensures BothSidesWeighted(ta) && st.bestPurityDiff < PurityDiff(ta) < 1.0 ==> r.bestPurityDiff == PurityDiff(ta)
  {
    if BothSidesWeighted(ta) && PurityDiff(ta) > st.bestPurityDiff && PurityDiff(ta) < 1.0 then
      SearchState(k, t, PurityDiff(ta), k, t)
    else st
  }

  /** A usable cut `t` of feature `f` scores at most `best`. */
  predicate NoBetter(data: seq<(DataPoint, bool)>, f: nat, t: real, best: real)
    requires Wide(data, f + 1)
  {
    Usable(data, f, t) ==> PurityDiff(TallyOf(data, f, t)) <= best
  }

  /** The state's best is a usable cut of an existing feature, scoring exactly the best
      score, and the node's variable and split are that cut. */
  predicate Recorded(r: SearchState, data: seq<(DataPoint, bool)>)
  {
    0 <= r.bestVariableIndex && Wide(data, r.bestVariableIndex + 1) &&
    r.variable == r.bestVariableIndex && r.split == r.bestSplitValue &&
    Usable(data, r.bestVariableIndex, r.bestSplitValue) &&
    PurityDiff(TallyOf(data, r.bestVariableIndex, r.bestSplitValue)) == r.bestPurityDiff
  }

  // ---------------------------------------------------------------- one pass

  /** The i-th cut of a pass: min + i * chunkSize. */
  function Threshold(lo: real, size: real, i: nat): real
  {
    lo + (i as real) * size
  }

  /** The running best after the first `n` cuts of a pass. */
  function ScanUpTo(st: SearchState, data: seq<(DataPoint, bool)>, k: nat, lo: real, size: real, n: nat): SearchState
    requires Wide(data, k + 1)
  {
    if n == 0 then st
    else
      var t := Threshold(lo, size, n - 1);
      Consider(ScanUpTo(st, data, k, lo, size, n - 1), TallyOf(data, k, t), k, t)
  }

  /** After a pass the best is at least its old value and at least the score of every
      usable cut of the pass; it stays below 1; and the state changes only by a strict
      improvement on this feature that records a usable cut scoring the new best. */
  lemma {:induction false} ScanKeepsMaximum(st: SearchState, data: seq<(DataPoint, bool)>, k: nat, lo: real, size: real, n: nat)
    requires Wide(data, k + 1)
    requires st.bestPurityDiff < 1.0
    ensures var r := ScanUpTo(st, data, k, lo, size, n);
      st.bestPurityDiff <= r.bestPurityDiff < 1.0 &&
      (forall i :: 0 <= i < n ==> NoBetter(data, k, Threshold(lo, size, i), r.bestPurityDiff)) &&
      (r == st || (r.bestPurityDiff > st.bestPurityDiff && r.bestVariableIndex == k && Recorded(r, data)))
  {
    if n > 0 {
      ScanKeepsMaximum(st, data, k, lo, size, n - 1);
    }
  }

  /** The loop over the chunks of one pass, with the candidate update inline. */
  method ScanPass(st: SearchState, data: seq<(DataPoint, bool)>, k: nat, lo: real, chunkSize: real, chunks: nat)
    returns (r: SearchState)
    requires Wide(data, k + 1)
    ensures r == ScanUpTo(st, data, k, lo, chunkSize, chunks)
  {
    r := st;
    var i := 0;
    while i < chunks
      invariant 0 <= i <= chunks
      invariant r == ScanUpTo(st, data, k, lo, chunkSize, i)
    {
      var splitValue := lo + (i as real) * chunkSize;
      var ta := TallyAt(data, k, splitValue);
      assert ScanUpTo(st, data, k, lo, chunkSize, i + 1) == Consider(r, ta, k, splitValue);
      if ta.highSignal + ta.highBackground > 0.0 && ta.lowSignal + ta.lowBackground > 0.0 {
        var diff := PurityDiff(ta);
        if diff > r.bestPurityDiff && diff < 1.0 {
          r := SearchState(k, splitValue, diff, k, splitValue);
        }
      }
      i := i + 1;
    }
  }

  // ---------------------------------------------------------------- one feature

  /** Smallest and largest value of feature `k`, as the scan with its else-if finds them. */
  function Range(data: seq<(DataPoint, bool)>, k: nat): (r: (real, real))
    requires |data| > 0 && Wide(data, k + 1)
  {
    if |data| == 1 then (data[0].0.variables[k], data[0].0.variables[k])
    else
      var init := data[..|data| - 1];
      assert Wide(init, k + 1) by {
        assert forall j :: 0 <= j < |init| ==> init[j] == data[j];
      }
      var prev := Range(init, k);
      var v := data[|data| - 1].0.variables[k];
      if v < prev.0 then (v, prev.1) else if v > prev.1 then (prev.0, v) else prev
  }

  /** The range bounds every point's value of feature `k`, and both ends are attained. */
  lemma {:induction false} RangeBounds(data: seq<(DataPoint, bool)>, k: nat)
    requires |data| > 0 && Wide(data, k + 1)
    ensures Range(data, k).0 <= Range(data, k).1
    ensures forall j :: 0 <= j < |data| ==> Range(data, k).0 <= data[j].0.variables[k] <= Range(data, k).1
    ensures exists j :: 0 <= j < |data| && data[j].0.variables[k] == Range(data, k).0
    ensures exists j :: 0 <= j < |data| && data[j].0.variables[k] == Range(data, k).1
  {
    if |data| > 1 {
      var init := data[..|data| - 1];
      assert forall j :: 0 <= j < |init| ==> init[j] == data[j];
      RangeBounds(init, k);
    }
  }

  /** The min/max loop of one feature. */
  method MinMax(data: seq<(DataPoint, bool)>, k: nat) returns (min: real, max: real)
    requires |data| > 0 && Wide(data, k + 1)
    ensures (min, max) == Range(data, k)
  {
    min, max := 0.0, 0.0;
    var i := 0;
    while i < |data|
      invariant 0 <= i <= |data|
      invariant i > 0 ==> (min, max) == Range(data[..i], k)
    {
      assert data[..i + 1][..i] == data[..i];
      if i == 0 {
        min := data[i].0.variables[k];
        max := data[i].0.variables[k];
      } else {
        if data[i].0.variables[k] < min {
          min := data[i].0.variables[k];
        } else if data[i].0.variables[k] > max {
          max := data[i].0.variables[k];
        }
      }
      i := i + 1;
    }
    assert data[..i] == data;
  }

  /** The remaining `n` passes over [lo, hi] with `chunks` chunks; each next pass is
      centred on the running best, whichever feature it came from. */
  function PassesFrom(st: SearchState, data: seq<(DataPoint, bool)>, k: nat, lo: real, hi: real, chunks: nat, n: nat): SearchState
    requires Wide(data, k + 1)
    requires n <= Passes && chunks >= n
    decreases n
  {
    if n == 0 then st
    else
      var size := (hi - lo) / (chunks as real);
      var next := ScanUpTo(st, data, k, lo, size, chunks);
      PassesFrom(next, data, k, next.bestSplitValue - size, next.bestSplitValue + size, chunks / 2, n - 1)
  }

  /** Both passes over feature `k`. */
  function FeatureSearch(st: SearchState, data: seq<(DataPoint, bool)>, k: nat): SearchState
    requires |data| > 0 && Wide(data, k + 1)
  {
    var range := Range(data, k);
    PassesFrom(st, data, k, range.0, range.1, FirstPassChunks, Passes)
  }

  /** Passes keep the best at least its old value and below 1, and change the state only by
      a strict improvement on this feature that records a usable cut scoring the new best. */
  lemma {:induction false} PassesKeepBest(st: SearchState, data: seq<(DataPoint, bool)>, k: nat, lo: real, hi: real, chunks: nat, n: nat)
    requires Wide(data, k + 1)
    requires n <= Passes && chunks >= n
    requires st.bestPurityDiff < 1.0
    ensures var r := PassesFrom(st, data, k, lo, hi, chunks, n);
      st.bestPurityDiff <= r.bestPurityDiff < 1.0 &&
      (r == st || (r.bestPurityDiff > st.bestPurityDiff && r.bestVariableIndex == k && Recorded(r, data)))
    decreases n
  {
    if n > 0 {
      var size := (hi - lo) / (chunks as real);
      var next := ScanUpTo(st, data, k, lo, size, chunks);
      ScanKeepsMaximum(st, data, k, lo, size, chunks);
      PassesKeepBest(next, data, k, next.bestSplitValue - size, next.bestSplitValue + size, chunks / 2, n - 1);
    }
  }

  /** The min/max scan and the two passes of one feature. */
  method ScanFeature(st: SearchState, data: seq<(DataPoint, bool)>, k: nat) returns (r: SearchState)
    requires |data| > 0 && Wide(data, k + 1)
    ensures r == FeatureSearch(st, data, k)
  {
    var min, max := MinMax(data, k);
    var chunks: nat := FirstPassChunks;
    r := st;
    var n := 0;
    while n < Passes
      invariant 0 <= n <= Passes
      invariant chunks >= Passes - n
      invariant PassesFrom(r, data, k, min, max, chunks, Passes - n) == FeatureSearch(st, data, k)
    {
      var chunkSize := (max - min) / (chunks as real);
      r := ScanPass(r, data, k, min, chunkSize, chunks);
      min := r.bestSplitValue - chunkSize;
      max := r.bestSplitValue + chunkSize;
      chunks := chunks / 2;
      n := n + 1;
    }
  }

  /** The search over one feature keeps the best at least its old value and below 1, and
      changes the state only by a strict improvement on this feature, recording a usable cut
      that scores the new best. */
  lemma FeatureKeepsBest(st: SearchState, data: seq<(DataPoint, bool)>, k: nat)
    requires |data| > 0 && Wide(data, k + 1)
    requires st.bestPurityDiff < 1.0
    ensures var r := FeatureSearch(st, data, k);
      st.bestPurityDiff <= r.bestPurityDiff < 1.0 &&
      (r == st || (r.bestPurityDiff > st.bestPurityDiff && r.bestVariableIndex == k && Recorded(r, data)))
  {
    var range := Range(data, k);
    PassesKeepBest(st, data, k, range.0, range.1, FirstPassChunks, Passes);
  }

  /** The i-th cut of the first pass over feature `f`. */
  function FirstPassCut(data: seq<(DataPoint, bool)>, f: nat, i: nat): real
    requires |data| > 0 && Wide(data, f + 1)
  {
    var range := Range(data, f);
    Threshold(range.0, (range.1 - range.0) / (FirstPassChunks as real), i)
  }

  /** The i-th cut of the second pass over feature `f` when the feature's search starts at
      `st`: the window spans one first-pass chunk on each side of the best split after the
      first pass. */
  function SecondPassCut(st: SearchState, data: seq<(DataPoint, bool)>, f: nat, i: nat): real
    requires |data| > 0 && Wide(data, f + 1)
  {
    var range := Range(data, f);
    var size := (range.1 - range.0) / (FirstPassChunks as real);
    var next := ScanUpTo(st, data, f, range.0, size, FirstPassChunks);
    var lo := next.bestSplitValue - size;
    var hi := next.bestSplitValue + size;
    Threshold(lo, (hi - lo) / ((FirstPassChunks / 2) as real), i)
  }

  /** After the search over feature `k` the best is at least the score of every usable cut
      of both its passes. */
  lemma FeatureCovers(st: SearchState, data: seq<(DataPoint, bool)>, k: nat)
    requires |data| > 0 && Wide(data, k + 1)
    requires st.bestPurityDiff < 1.0
    ensures forall i :: 0 <= i < FirstPassChunks ==>
              NoBetter(data, k, FirstPassCut(data, k, i), FeatureSearch(st, data, k).bestPurityDiff)
    ensures forall i :: 0 <= i < FirstPassChunks / 2 ==>
              NoBetter(data, k, SecondPassCut(st, data, k, i), FeatureSearch(st, data, k).bestPurityDiff)
  {
    var range := Range(data, k);
    var size := (range.1 - range.0) / (FirstPassChunks as real);
    var next := ScanUpTo(st, data, k, range.0, size, FirstPassChunks);
    var lo, hi := next.bestSplitValue - size, next.bestSplitValue + size;
    var size2 := (hi - lo) / ((FirstPassChunks / 2) as real);
    var last := ScanUpTo(next, data, k, lo, size2, FirstPassChunks / 2);
    assert PassesFrom(next, data, k, lo, hi, FirstPassChunks / 2, 1) == last;
    assert FeatureSearch(st, data, k) == last;
    ScanKeepsMaximum(st, data, k, range.0, size, FirstPassChunks);
    ScanKeepsMaximum(next, data, k, lo, size2, FirstPassChunks / 2);
  }

  // ---------------------------------------------------------------- all features

  /** The running best after features 0 .. k-1. */
  function SearchUpTo(st: SearchState, data: seq<(DataPoint, bool)>, k: nat): SearchState
    requires |data| > 0 && Wide(data, k)
  {
    if k == 0 then st
    else FeatureSearch(SearchUpTo(st, data, k - 1), data, k - 1)
  }

  /** Across features the best never decreases and stays below 1; when nothing improved it
      the state, including the node's variable and split, is the initial one; otherwise the
      node's variable and split are a usable cut of a searched feature that scores exactly
      the best. */
  lemma {:induction false} SearchKeepsBest(st: SearchState, data: seq<(DataPoint, bool)>, k: nat)
    requires |data| > 0 && Wide(data, k)
    requires st.bestPurityDiff < 1.0
    ensures var r := SearchUpTo(st, data, k);
      st.bestPurityDiff <= r.bestPurityDiff < 1.0 &&
      (r == st || (r.bestPurityDiff > st.bestPurityDiff && r.bestVariableIndex < k && Recorded(r, data)))
  {
    if k > 0 {
      SearchKeepsBest(st, data, k - 1);
      var prev := SearchUpTo(st, data, k - 1);
      FeatureKeepsBest(prev, data, k - 1);
    }
  }

  /** `best` is at least the score of every usable cut that the search from `st` over
      features 0 .. k-1 examines, in either pass. */
  predicate CoversExamined(st: SearchState, data: seq<(DataPoint, bool)>, k: nat, best: real)
    requires |data| > 0 && Wide(data, k)
  {
    (forall f, i :: 0 <= f < k && 0 <= i < FirstPassChunks ==>
       NoBetter(data, f, FirstPassCut(data, f, i), best)) &&
    (forall f, i :: 0 <= f < k && 0 <= i < FirstPassChunks / 2 ==>
       NoBetter(data, f, SecondPassCut(SearchUpTo(st, data, f), data, f, i), best))
  }

  /** The search over features 0 .. k-1 ends at the best cut it examined. */
  lemma {:induction false} SearchCovers(st: SearchState, data: seq<(DataPoint, bool)>, k: nat)
    requires |data| > 0 && Wide(data, k)
    requires st.bestPurityDiff < 1.0
    ensures CoversExamined(st, data, k, SearchUpTo(st, data, k).bestPurityDiff)
  {
    if k > 0 {
      SearchCovers(st, data, k - 1);
      SearchKeepsBest(st, data, k - 1);
      CoversOneMore(st, data, k - 1);
    }
  }

  /** One more feature keeps the best covering everything examined so far. */
  lemma CoversOneMore(st: SearchState, data: seq<(DataPoint, bool)>, f: nat)
    requires |data| > 0 && Wide(data, f + 1)
    requires SearchUpTo(st, data, f).bestPurityDiff < 1.0
    requires CoversExamined(st, data, f, SearchUpTo(st, data, f).bestPurityDiff)
    ensures CoversExamined(st, data, f + 1, SearchUpTo(st, data, f + 1).bestPurityDiff)
  {
    var prev := SearchUpTo(st, data, f);
    var best := FeatureSearch(prev, data, f).bestPurityDiff;
    FeatureKeepsBest(prev, data, f);
    CoversRaised(st, data, f, prev.bestPurityDiff, best);
    FeatureCovers(prev, data, f);
    CoversNextFeature(st, data, f, best);
  }

  /** A larger best still covers what a smaller one covered. This and CoversNextFeature
      are separate lemmas only to keep CoversOneMore's proof context small. */
  lemma CoversRaised(st: SearchState, data: seq<(DataPoint, bool)>, k: nat, best: real, higher: real)
    requires |data| > 0 && Wide(data, k)
    requires CoversExamined(st, data, k, best) && best <= higher
    ensures CoversExamined(st, data, k, higher)
  {
  }

  /** Covering features 0 .. f-1 and both passes of feature f covers features 0 .. f
      (split out of CoversOneMore, as CoversRaised is). */
  lemma CoversNextFeature(st: SearchState, data: seq<(DataPoint, bool)>, f: nat, best: real)
    requires |data| > 0 && Wide(data, f + 1)
    requires CoversExamined(st, data, f, best)
    requires forall i :: 0 <= i < FirstPassChunks ==> NoBetter(data, f, FirstPassCut(data, f, i), best)
    requires forall i :: 0 <= i < FirstPassChunks / 2 ==>
               NoBetter(data, f, SecondPassCut(SearchUpTo(st, data, f), data, f, i), best)
    ensures CoversExamined(st, data, f + 1, best)
  {
  }

  /** The search state ChooseVariable starts from: best 0 at feature 0, cut 0, and the
      node's current fields. */
  function Initial(variable0: int, split0: real): SearchState
  {
    SearchState(0, 0.0, 0.0, variable0, split0)
  }

  lemma LabelledWide(signal: seq<DataPoint>, background: seq<DataPoint>, dim: nat)
    requires AllWidth(signal, dim) && AllWidth(background, dim)
    ensures Wide(Labelled(signal, background), dim)
  {
    var data := Labelled(signal, background);
    forall j | 0 <= j < |data| ensures dim <= |data[j].0.variables| {
      if j < |signal| { assert data[j].0 == signal[j]; } else { assert data[j].0 == background[j - |signal|]; }
    }
  }

  /** The search state after the search over all `dim` features. */
  function SearchOutcome(signal: seq<DataPoint>, background: seq<DataPoint>, variable0: int, split0: real, dim: nat)
    : (r: SearchState)
    requires |signal| > 0 && AllWidth(signal, dim) && AllWidth(background, dim)
    ensures (r.variable == variable0 && r.split == split0) || 0 <= r.variable < dim
  {
    LabelledWide(signal, background, dim);
    SearchKeepsBest(Initial(variable0, split0), Labelled(signal, background), dim);
    SearchUpTo(Initial(variable0, split0), Labelled(signal, background), dim)
  }

  /** The search over the labelled corpus is SearchOutcome. */
  lemma OutcomeOfSearch(signal: seq<DataPoint>, background: seq<DataPoint>, variable0: int, split0: real, dim: nat,
                        data: seq<(DataPoint, bool)>, st: SearchState)
    requires |signal| > 0 && AllWidth(signal, dim) && AllWidth(background, dim)
    requires data == Labelled(signal, background) && |data| > 0 && Wide(data, dim)
    requires st == SearchUpTo(Initial(variable0, split0), data, dim)
    ensures st == SearchOutcome(signal, background, variable0, split0, dim)
  {
  }

  /** ChooseVariable: (branch, variable, split). It answers false when either corpus is
      empty or there are fewer than 55 points, whatever the search found; the variable and
      split it hands back are those the search wrote, even when it answers false. */
  function ChooseSpec(signal: seq<DataPoint>, background: seq<DataPoint>, variable0: int, split0: real, dim: nat)
    : (r: (bool, int, real))
    requires AllWidth(signal, dim) && AllWidth(background, dim)
    ensures r.0 <==> |signal| > 0 && |background| > 0 && |signal| + |background| >= StoppingCount
    ensures (r.1 == variable0 && r.2 == split0) || 0 <= r.1 < dim
  {
    if |signal| == 0 || |background| == 0 then (false, variable0, split0)
    else
      var outcome := SearchOutcome(signal, background, variable0, split0, dim);
      (|signal| + |background| >= StoppingCount, outcome.variable, outcome.split)
  }

  /** With both corpora non-empty, ChooseVariable ends at the best cut it examined: the
      search's best is at least the score of every usable cut of both passes of every
      feature, and the variable and split handed back are either a usable cut scoring
      exactly that best, or the node's old fields when no cut scored above 0. */
  lemma ChosenCutIsBest(signal: seq<DataPoint>, background: seq<DataPoint>, variable0: int, split0: real, dim: nat)
    requires |signal| > 0 && |background| > 0 && AllWidth(signal, dim) && AllWidth(background, dim)
    ensures var data := Labelled(signal, background);
      var r := ChooseSpec(signal, background, variable0, split0, dim);
      var best := SearchOutcome(signal, background, variable0, split0, dim).bestPurityDiff;
      Wide(data, dim) &&
      CoversExamined(Initial(variable0, split0), data, dim, best) &&
      ((r.1 == variable0 && r.2 == split0 && best == 0.0) ||
       (0 <= r.1 < dim && Usable(data, r.1, r.2) && PurityDiff(TallyOf(data, r.1, r.2)) == best))
  {
    var data := Labelled(signal, background);
    LabelledWide(signal, background, dim);
    SearchKeepsBest(Initial(variable0, split0), data, dim);
    SearchCovers(Initial(variable0, split0), data, dim);
  }

  /** ChooseVariable with its loops. */
  method ChooseVariable(signal: seq<DataPoint>, background: seq<DataPoint>, variable0: int, split0: real, ghost dim: nat)
    returns (branch: bool, variable: int, split: real)
    requires AllWidth(signal, dim) && AllWidth(background, dim)
    ensures (branch, variable, split) == ChooseSpec(signal, background, variable0, split0, dim)
  {
    if |signal| == 0 || |background| == 0 {
      return false, variable0, split0;
    }
    var combinedData := BuildCombined(signal, background);
    LabelledWide(signal, background, dim);
    var st := SearchFeatures(combinedData, variable0, split0, |signal[0].variables|);
    OutcomeOfSearch(signal, background, variable0, split0, dim, combinedData, st);
    variable, split := st.variable, st.split;
    branch := |signal| + |background| >= StoppingCount;
  }

  /** The loop of ChooseVariable over the features 0 .. dim-1. */
  method SearchFeatures(data: seq<(DataPoint, bool)>, variable0: int, split0: real, dim: nat) returns (st: SearchState)
    requires |data| > 0 && Wide(data, dim)
    ensures st == SearchUpTo(Initial(variable0, split0), data, dim)
  {
    st := Initial(variable0, split0);
    var k := 0;
    while k < dim
      invariant 0 <= k <= dim
      invariant st == SearchUpTo(Initial(variable0, split0), data, k)
    {
      st := ScanFeature(st, data, k);
      k := k + 1;
    }
  }
}
