/** Samples and the combined, labelled view of two corpora. */
module Corpus {

  /** One observation: its feature vector and its boosting weight. */
  datatype DataPoint = DataPoint(variables: seq<real>, weight: real)

  /** Every point of `ps` has exactly `dim` features. */
  predicate AllWidth(ps: seq<DataPoint>, dim: nat)
  {
    forall i :: 0 <= i < |ps| ==> |ps[i].variables| == dim
  }

  /** Every signal point labelled true, then every background point labelled false,
      each group in its original order. */
  function Labelled<T>(signal: seq<T>, background: seq<T>): seq<(T, bool)>
  {
    seq(|signal|, i requires 0 <= i < |signal| => (signal[i], true)) +
    seq(|background|, j requires 0 <= j < |background| => (background[j], false))
  }

  /** The two loops that fill the combined list. */
  method BuildCombined<T>(signal: seq<T>, background: seq<T>) returns (combined: seq<(T, bool)>)
    ensures |combined| == |signal| + |background|
    ensures forall i :: 0 <= i < |signal| ==> combined[i] == (signal[i], true)
    ensures forall j :: 0 <= j < |background| ==> combined[|signal| + j] == (background[j], false)
    ensures combined == Labelled(signal, background)
  {
    combined := [];
    var i := 0;
    while i < |signal|
      invariant 0 <= i <= |signal|
      invariant |combined| == i
      invariant forall m :: 0 <= m < i ==> combined[m] == (signal[m], true)
    {
      combined := combined + [(signal[i], true)];
      i := i + 1;
    }
    var j := 0;
    while j < |background|
      invariant 0 <= j <= |background|
      invariant |combined| == |signal| + j
      invariant forall m :: 0 <= m < |signal| ==> combined[m] == (signal[m], true)
      invariant forall m :: 0 <= m < j ==> combined[|signal| + m] == (background[m], false)
    {
      combined := combined + [(background[j], false)];
      j := j + 1;
    }
  }
}
