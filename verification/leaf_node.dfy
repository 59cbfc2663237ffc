/** The decision-tree node of DecisionTree/Leaf.cs: its shape, its purity, routing,
    inference, the recursive reset of the soft-prune flag, the partition of a corpus by a
    node's cut, and the misclassification rate. */
module LeafNode {
  import opened Wrappers
  import opened Corpus

  /** A node. `Terminal` is a node whose children are null (IsFinal); a `Branch` always has
      both. Every node keeps the `variable` and `split` fields, which the search for a cut may
      have written even when the node stayed terminal. */
  datatype Leaf =
    | Terminal(variable: int, split: real, nSignal: int, nBackground: int, isHidden: bool)
    | Branch(variable: int, split: real, nSignal: int, nBackground: int, isHidden: bool,
             output1: Leaf, output2: Leaf)

  /** Inference stops at a node that is terminal or hidden. */
  predicate Stops(t: Leaf)
  {
    t.Terminal? || t.isHidden
  }

  /** `n` is `t` or a node below it. */
  predicate IsSubtree(n: Leaf, t: Leaf)
  {
    n == t || (t.Branch? && (IsSubtree(n, t.output1) || IsSubtree(n, t.output2)))
  }

  /** Every node of `t` holds non-negative counts (true of every trained tree). */
  predicate CountsNatural(t: Leaf)
  {
    0 <= t.nSignal && 0 <= t.nBackground &&
    (t.Branch? ==> CountsNatural(t.output1) && CountsNatural(t.output2))
  }

  /** No node of `t` is hidden. */
  predicate NoneHidden(t: Leaf)
  {
    !t.isHidden && (t.Branch? ==> NoneHidden(t.output1) && NoneHidden(t.output2))
  }

  /** `a` and `b` have the same shape and the same variable, split and counts at every
      node; only the hidden flags may differ. */
  predicate Agrees(a: Leaf, b: Leaf)
  {
    a.variable == b.variable && a.split == b.split &&
    a.nSignal == b.nSignal && a.nBackground == b.nBackground &&
    a.Terminal? == b.Terminal? &&
    (a.Branch? ==> Agrees(a.output1, b.output1) && Agrees(a.output2, b.output2))
  }

  /** Every node hidden in `a` is hidden in `b` (both of the same shape). */
  predicate HiddenGrows(a: Leaf, b: Leaf)
  {
    (a.isHidden ==> b.isHidden) &&
    a.Terminal? == b.Terminal? &&
    (a.Branch? ==> HiddenGrows(a.output1, b.output1) && HiddenGrows(a.output2, b.output2))
  }

  /** Number of terminal nodes of `t`. */
  function Terminals(t: Leaf): (n: nat)
    ensures n >= 1
  {
    match t
    case Terminal(_, _, _, _, _) => 1
    case Branch(_, _, _, _, _, o1, o2) => Terminals(o1) + Terminals(o2)
  }

  // ---------------------------------------------------------------- purity and rounding

  /** nSignal / (nSignal + nBackground); `None` where the double division has a zero
      divisor and the source gets NaN or an infinity. */
  function Purity(t: Leaf): (r: Option<real>)
    ensures r.None? <==> t.nSignal + t.nBackground == 0
    ensures 0 <= t.nSignal && 0 <= t.nBackground && r.Some? ==> 0.0 <= r.value <= 1.0
  {
    if t.nSignal + t.nBackground == 0 then None
    else
      var s, n := t.nSignal as real, (t.nSignal + t.nBackground) as real;
      if 0 <= t.nSignal && 0 <= t.nBackground then
        FractionFacts(s, n);
        Some(s / n)
      else Some(s / n)
  }

  /** Facts about a fraction c / n of a count by a positive total, used for purities and
      error rates. */
  lemma FractionFacts(c: real, n: real)
    requires 0.0 <= c <= n && n > 0.0
    ensures 0.0 <= c / n <= 1.0
    ensures c / n == 1.0 <==> c == n
    ensures c / n > 0.5 <==> c + c > n
  {
    FractionInUnit(c, n);
    FractionAboveHalf(c, n);
  }

  lemma FractionInUnit(c: real, n: real)
    requires 0.0 <= c <= n && n > 0.0
    ensures 0.0 <= c / n <= 1.0
    ensures c / n == 1.0 <==> c == n
  {
    var q := c / n;
    assert q * n == c;
  }

  lemma FractionAboveHalf(c: real, n: real)
    requires n > 0.0
    ensures c / n > 0.5 <==> c + c > n
  {
    var q := c / n;
    assert q * n == c;
    if q < 0.5 {
      assert (0.5 - q) * n > 0.0;
    } else if q > 0.5 {
      assert (q - 0.5) * n > 0.0;
    }
  }

  /** Math.Round(p) == 1 under round-half-to-even: 0.5 goes to 0 and 1.5 to 2. */
  predicate RoundsToOne(p: real)
  {
    0.5 < p < 1.5
  }

  /** Math.Round(p) == 0 under round-half-to-even: -0.5 and 0.5 both go to 0. */
  predicate RoundsToZero(p: real)
  {
    -0.5 <= p <= 0.5
  }

  /** The output rounds to 1; a non-finite output never does. */
  predicate PredictsSignal(o: Option<real>)
  {
    o.Some? && RoundsToOne(o.value)
  }

  /** The output rounds to 0; a non-finite output never does. */
  predicate PredictsBackground(o: Option<real>)
  {
    o.Some? && RoundsToZero(o.value)
  }

  /** At a node with natural counts, rounding its purity picks signal exactly when it holds
      more signal than background, and background exactly when it holds some point and no
      more signal than background; an empty node (NaN) is neither. */
  lemma PurityRounding(t: Leaf)
    requires 0 <= t.nSignal && 0 <= t.nBackground
    ensures PredictsSignal(Purity(t)) <==> t.nSignal > t.nBackground
    ensures PredictsBackground(Purity(t)) <==> t.nSignal + t.nBackground > 0 && t.nSignal <= t.nBackground
  {
    var s, n := t.nSignal as real, (t.nSignal + t.nBackground) as real;
    if n > 0.0 {
      FractionFacts(s, n);
    }
  }

  // ---------------------------------------------------------------- routing and inference

  /** DoSplit: the point goes to output1 when its feature is at most the cut. */
  predicate DoSplit(x: seq<real>, variable: int, split: real)
    requires 0 <= variable < |x|
  {
    x[variable] <= split
  }

  /** RunDataPoint on `x` reads only features that exist (otherwise the source throws). */
  predicate Routable(t: Leaf, x: seq<real>)
  {
    match t
    case Terminal(_, _, _, _, _) => true
    case Branch(v, sp, _, _, h, o1, o2) =>
      h || (0 <= v < |x| && if DoSplit(x, v, sp) then Routable(o1, x) else Routable(o2, x))
  }

  /** The first node on the path of `x` that is terminal or hidden. */
  function Reached(t: Leaf, x: seq<real>): (n: Leaf)
    requires Routable(t, x)
    ensures Stops(n) && IsSubtree(n, t)
  {
    if Stops(t) then t
    else if DoSplit(x, t.variable, t.split) then Reached(t.output1, x)
    else Reached(t.output2, x)
  }

  /** RunDataPoint: the purity of the node where `x` stops. */
  function RunDataPoint(t: Leaf, x: seq<real>): (r: Option<real>)
    requires Routable(t, x)
    ensures r == Purity(Reached(t, x))
    ensures CountsNatural(t) && r.Some? ==> 0.0 <= r.value <= 1.0
  {
    if t.Terminal? || t.isHidden then Purity(t)
    else if DoSplit(x, t.variable, t.split) then RunDataPoint(t.output1, x)
    else RunDataPoint(t.output2, x)
  }

  /** A Branch that is not hidden sends `x` to output1 exactly when x[variable] <= split. */
  lemma RoutingFollowsCut(t: Leaf, x: seq<real>)
    requires t.Branch? && !t.isHidden && Routable(t, x)
    ensures 0 <= t.variable < |x|
    ensures x[t.variable] <= t.split ==> RunDataPoint(t, x) == RunDataPoint(t.output1, x)
    ensures x[t.variable] > t.split ==> RunDataPoint(t, x) == RunDataPoint(t.output2, x)
  {
  }

  // ---------------------------------------------------------------- resetHidden

  /** resetHidden: clears the hidden flag on every node of the subtree. */
  function ResetHidden(t: Leaf): (r: Leaf)
    ensures NoneHidden(r) && Agrees(t, r)
  {
    match t
    case Terminal(v, sp, ns, nb, _) => Terminal(v, sp, ns, nb, false)
    case Branch(v, sp, ns, nb, _, o1, o2) => Branch(v, sp, ns, nb, false, ResetHidden(o1), ResetHidden(o2))
  }

  /** A tree with nothing hidden is left as it is. */
  lemma {:induction false} ResetHiddenKeepsUnhidden(t: Leaf)
    requires NoneHidden(t)
    ensures ResetHidden(t) == t
  {
    if t.Branch? {
      ResetHiddenKeepsUnhidden(t.output1);
      ResetHiddenKeepsUnhidden(t.output2);
    }
  }

  /** resetHidden is idempotent. */
  lemma ResetHiddenIdempotent(t: Leaf)
    ensures ResetHidden(ResetHidden(t)) == ResetHidden(t)
  {
    ResetHiddenKeepsUnhidden(ResetHidden(t));
  }

  /** Two trees that differ only in hidden flags reset to the same tree. */
  lemma {:induction false} AgreesResetEqual(a: Leaf, b: Leaf)
    requires Agrees(a, b)
    ensures ResetHidden(a) == ResetHidden(b)
  {
    if a.Branch? {
      AgreesResetEqual(a.output1, b.output1);
      AgreesResetEqual(a.output2, b.output2);
    }
  }

  /** After resetHidden every point is answered by a terminal node. */
  lemma {:induction false} ResetHiddenReachesTerminal(t: Leaf, x: seq<real>)
    requires Routable(ResetHidden(t), x)
    ensures Reached(ResetHidden(t), x).Terminal?
  {
    var r := ResetHidden(t);
    if t.Branch? {
      if DoSplit(x, r.variable, r.split) {
        ResetHiddenReachesTerminal(t.output1, x);
      } else {
        ResetHiddenReachesTerminal(t.output2, x);
      }
    }
  }

  // ---------------------------------------------------------------- partition by a cut

  /** Every point of `ps` has feature `v`. */
  predicate InRange(ps: seq<DataPoint>, v: int)
  {
    forall i :: 0 <= i < |ps| ==> 0 <= v < |ps[i].variables|
  }

  /** The points that DoSplit sends to output1, in their original order. */
  function LowSide(ps: seq<DataPoint>, v: int, sp: real): (r: seq<DataPoint>)
    requires InRange(ps, v)
    ensures |r| <= |ps|
  {
    if |ps| == 0 then []
    else
      var last := ps[|ps| - 1];
      LowSide(ps[..|ps| - 1], v, sp) + (if DoSplit(last.variables, v, sp) then [last] else [])
  }

  /** The points that DoSplit sends to output2, in their original order. */
  function HighSide(ps: seq<DataPoint>, v: int, sp: real): (r: seq<DataPoint>)
    requires InRange(ps, v)
    ensures |r| <= |ps|
  {
    if |ps| == 0 then []
    else
      var last := ps[|ps| - 1];
      HighSide(ps[..|ps| - 1], v, sp) + (if DoSplit(last.variables, v, sp) then [] else [last])
  }

  /** Every point goes to exactly one side: the two sides together are the corpus. */
  lemma PartitionConserves(ps: seq<DataPoint>, v: int, sp: real)
    requires InRange(ps, v)
    ensures |LowSide(ps, v, sp)| + |HighSide(ps, v, sp)| == |ps|
    ensures multiset(LowSide(ps, v, sp)) + multiset(HighSide(ps, v, sp)) == multiset(ps)
  {
    SidesMultiset(ps, v, sp);
    assert |multiset(LowSide(ps, v, sp))| == |LowSide(ps, v, sp)|;
    assert |multiset(HighSide(ps, v, sp))| == |HighSide(ps, v, sp)|;
  }

  /** The multiset half of PartitionConserves, by induction on the corpus. */
  lemma {:induction false} SidesMultiset(ps: seq<DataPoint>, v: int, sp: real)
    requires InRange(ps, v)
    ensures multiset(LowSide(ps, v, sp)) + multiset(HighSide(ps, v, sp)) == multiset(ps)
  {
    if |ps| > 0 {
      var init, last := ps[..|ps| - 1], ps[|ps| - 1];
      assert InRange(init, v) by {
        assert forall i :: 0 <= i < |init| ==> init[i] == ps[i];
      }
      SidesMultiset(init, v, sp);
      assert ps == init + [last];
      assert multiset(ps) == multiset(init) + multiset{last};
      if DoSplit(last.variables, v, sp) {
        assert LowSide(ps, v, sp) == LowSide(init, v, sp) + [last];
        assert multiset(LowSide(ps, v, sp)) == multiset(LowSide(init, v, sp)) + multiset{last};
        assert HighSide(ps, v, sp) == HighSide(init, v, sp);
      } else {
        assert LowSide(ps, v, sp) == LowSide(init, v, sp);
        assert HighSide(ps, v, sp) == HighSide(init, v, sp) + [last];
        assert multiset(HighSide(ps, v, sp)) == multiset(HighSide(init, v, sp)) + multiset{last};
      }
    }
  }

  /** Each side keeps the original order: the side of a concatenation is the
      concatenation of the sides. */
  lemma {:induction false} LowSideKeepsOrder(a: seq<DataPoint>, b: seq<DataPoint>, v: int, sp: real)
    requires InRange(a, v) && InRange(b, v)
    ensures InRange(a + b, v)
    ensures LowSide(a + b, v, sp) == LowSide(a, v, sp) + LowSide(b, v, sp)
  {
    forall i | 0 <= i < |a + b|
      ensures 0 <= v < |(a + b)[i].variables|
    {
      if i < |a| { assert (a + b)[i] == a[i]; } else { assert (a + b)[i] == b[i - |a|]; }
    }
    if |b| > 0 {
      var binit, last := b[..|b| - 1], b[|b| - 1];
      assert InRange(binit, v) by {
        assert forall i :: 0 <= i < |binit| ==> binit[i] == b[i];
      }
      LowSideKeepsOrder(a, binit, v, sp);
      assert (a + b)[..|a + b| - 1] == a + binit;
      assert (a + b)[|a + b| - 1] == last;
      var tail := if DoSplit(last.variables, v, sp) then [last] else [];
      calc {
        LowSide(a + b, v, sp);
        LowSide(a + binit, v, sp) + tail;
        LowSide(a, v, sp) + LowSide(binit, v, sp) + tail;
        LowSide(a, v, sp) + (LowSide(binit, v, sp) + tail);
        LowSide(a, v, sp) + LowSide(b, v, sp);
      }
    } else {
      assert a + b == a;
    }
  }

  /** A point is on the low side exactly when it is in the corpus and DoSplit holds for
      it, and on the high side exactly when it is in the corpus and DoSplit fails. */
  lemma {:induction false} SidesMembership(ps: seq<DataPoint>, v: int, sp: real)
    requires InRange(ps, v)
    ensures forall i :: 0 <= i < |LowSide(ps, v, sp)| ==> LowSide(ps, v, sp)[i] in ps
    ensures forall i :: 0 <= i < |HighSide(ps, v, sp)| ==> HighSide(ps, v, sp)[i] in ps
    ensures forall i :: 0 <= i < |ps| && DoSplit(ps[i].variables, v, sp) ==> ps[i] in LowSide(ps, v, sp)
    ensures forall i :: 0 <= i < |ps| && !DoSplit(ps[i].variables, v, sp) ==> ps[i] in HighSide(ps, v, sp)
  {
    if |ps| > 0 {
      var init := ps[..|ps| - 1];
      assert forall i :: 0 <= i < |init| ==> init[i] == ps[i];
      SidesMembership(init, v, sp);
    }
  }

  /** Both sides keep the corpus's feature count. */
  lemma SidesKeepWidth(ps: seq<DataPoint>, v: int, sp: real, dim: nat)
    requires InRange(ps, v) && AllWidth(ps, dim)
    ensures AllWidth(LowSide(ps, v, sp), dim) && AllWidth(HighSide(ps, v, sp), dim)
  {
    SidesMembership(ps, v, sp);
  }

  /** The two foreach loops of Train and Prune that split a corpus by this node's cut. */
  method Partition(ps: seq<DataPoint>, v: int, sp: real) returns (low: seq<DataPoint>, high: seq<DataPoint>)
    requires InRange(ps, v)
    ensures low == LowSide(ps, v, sp) && high == HighSide(ps, v, sp)
    ensures |low| + |high| == |ps|
  {
    low, high := [], [];
    var i := 0;
    while i < |ps|
      invariant 0 <= i <= |ps|
      invariant InRange(ps[..i], v)
      invariant low == LowSide(ps[..i], v, sp) && high == HighSide(ps[..i], v, sp)
    {
      assert ps[..i + 1][..i] == ps[..i];
      if DoSplit(ps[i].variables, v, sp) {
        low := low + [ps[i]];
      } else {
        high := high + [ps[i]];
      }
      i := i + 1;
    }
    assert ps[..i] == ps;
    PartitionConserves(ps, v, sp);
  }

  // ---------------------------------------------------------------- findError

  /** RunDataPoint can be evaluated on every point of `ps`. */
  predicate AllRoutable(t: Leaf, ps: seq<DataPoint>)
  {
    forall i :: 0 <= i < |ps| ==> Routable(t, ps[i].variables)
  }

  /** The rounded output of `t` on `p` equals the label (1 for signal, 0 for background). */
  predicate Classifies(t: Leaf, p: DataPoint, isSignal: bool)
    requires Routable(t, p.variables)
  {
    if isSignal then PredictsSignal(RunDataPoint(t, p.variables))
    else PredictsBackground(RunDataPoint(t, p.variables))
  }

  /** How many points of `ps` `t` classifies as `isSignal` says they are. */
  function CorrectCount(t: Leaf, ps: seq<DataPoint>, isSignal: bool): (c: nat)
    requires AllRoutable(t, ps)
    ensures c <= |ps|
  {
    if |ps| == 0 then 0
    else
      CorrectCount(t, ps[..|ps| - 1], isSignal) + (if Classifies(t, ps[|ps| - 1], isSignal) then 1 else 0)
  }

  /** findError: the fraction of all points misclassified by rounding; `None` (NaN) when
      both corpora are empty. */
  function ErrorRate(t: Leaf, signal: seq<DataPoint>, background: seq<DataPoint>): (r: Option<real>)
    requires AllRoutable(t, signal) && AllRoutable(t, background)
    ensures r.None? <==> |signal| + |background| == 0
    ensures r.Some? ==> 0.0 <= r.value <= 1.0
  {
    var n := |signal| + |background|;
    if n == 0 then None
    else
      var c := CorrectCount(t, signal, true) + CorrectCount(t, background, false);
      FractionFacts(c as real, n as real);
      Some(1.0 - c as real / n as real)
  }

  /** The error rate is 0 exactly when there are points and every one of them is
      classified correctly. */
  lemma ErrorRateZero(t: Leaf, signal: seq<DataPoint>, background: seq<DataPoint>)
    requires AllRoutable(t, signal) && AllRoutable(t, background)
    ensures ErrorRate(t, signal, background) == Some(0.0) <==>
      |signal| + |background| > 0 &&
      (forall i :: 0 <= i < |signal| ==> Classifies(t, signal[i], true)) &&
      (forall i :: 0 <= i < |background| ==> Classifies(t, background[i], false))
  {
    var n := |signal| + |background|;
    if n > 0 {
      var cs, cb := CorrectCount(t, signal, true), CorrectCount(t, background, false);
      FractionInUnit((cs + cb) as real, n as real);
      assert ErrorRate(t, signal, background) == Some(0.0) <==> cs + cb == n;
      assert cs + cb == n <==> cs == |signal| && cb == |background|;
      CorrectCountAll(t, signal, true);
      CorrectCountAll(t, background, false);
    }
  }

  lemma AllRoutablePrefix(t: Leaf, ps: seq<DataPoint>, n: nat)
    requires AllRoutable(t, ps) && n <= |ps|
    ensures AllRoutable(t, ps[..n])
  {
    assert forall i :: 0 <= i < n ==> ps[..n][i] == ps[i];
  }

  /** The count reaches the corpus size exactly when every point is classified correctly. */
  lemma {:induction false} CorrectCountAll(t: Leaf, ps: seq<DataPoint>, isSignal: bool)
    requires AllRoutable(t, ps)
    ensures CorrectCount(t, ps, isSignal) == |ps| <==> forall i :: 0 <= i < |ps| ==> Classifies(t, ps[i], isSignal)
  {
    if |ps| > 0 {
      var n := |ps| - 1;
      CorrectCountStep(t, ps, isSignal, n);
      assert ps[..n + 1] == ps;
      CorrectCountAll(t, ps[..n], isSignal);
      assert forall i :: 0 <= i < n ==> ps[..n][i] == ps[i];
    }
  }

  /** One more point adds one to the count exactly when it is classified correctly. */
  lemma CorrectCountStep(t: Leaf, ps: seq<DataPoint>, isSignal: bool, i: nat)
    requires AllRoutable(t, ps) && i < |ps|
    ensures AllRoutable(t, ps[..i]) && AllRoutable(t, ps[..i + 1])
    ensures CorrectCount(t, ps[..i + 1], isSignal) ==
            CorrectCount(t, ps[..i], isSignal) + (if Classifies(t, ps[i], isSignal) then 1 else 0)
  {
    AllRoutablePrefix(t, ps, i);
    AllRoutablePrefix(t, ps, i + 1);
    assert ps[..i + 1][..i] == ps[..i];
    assert ps[..i + 1][i] == ps[i];
  }

  /** findError: one counting loop per corpus, then the fraction of points missed. */
  method FindError(t: Leaf, signal: seq<DataPoint>, background: seq<DataPoint>) returns (r: Option<real>)
    requires AllRoutable(t, signal) && AllRoutable(t, background)
    ensures r == ErrorRate(t, signal, background)
  {
    var fromSignal := CountCorrect(t, signal, true);
    var fromBackground := CountCorrect(t, background, false);
    var correctEvents := fromSignal + fromBackground;
    var n := |signal| + |background|;
    if n == 0 {
      r := None;
    } else {
      r := Some(1.0 - correctEvents as real / n as real);
    }
  }

  /** One of findError's loops: count the points of one corpus that rounding classifies
      as the corpus's label. */
  method CountCorrect(t: Leaf, ps: seq<DataPoint>, isSignal: bool) returns (c: nat)
    requires AllRoutable(t, ps)
    ensures c == CorrectCount(t, ps, isSignal)
  {
    AllRoutablePrefix(t, ps, 0);
    c := 0;
    var i := 0;
    while i < |ps|
      invariant 0 <= i <= |ps|
      invariant c == CorrectCount(t, ps[..i], isSignal)
    {
      CorrectCountStep(t, ps, isSignal, i);
      if Classifies(t, ps[i], isSignal) {
        c := c + 1;
      }
      i := i + 1;
    }
    assert ps[..i] == ps;
  }
}
