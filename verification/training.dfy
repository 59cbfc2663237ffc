/** Train of DecisionTree/Leaf.cs: record the counts, ask ChooseVariable, partition both
    corpora by the chosen cut and train two fresh children on the two sides. */
module Training {
  import opened Wrappers
  import opened Corpus
  import opened LeafNode
  import opened SplitSearch

  /** Ways the source's Train fails to return a tree: DoSplit reading a feature that does
      not exist (the cut variable left at -1 when no candidate qualified), and recursion
      that does not stop within the allotted depth (points that all route to one side are
      handed to the same split search again). */
  datatype TrainError = IndexOutOfRange | OutOfFuel

  /** At every branch the children's counts add up to the parent's. */
  predicate CountsAddUp(t: Leaf)
  {
    t.Branch? ==>
      t.nSignal == t.output1.nSignal + t.output2.nSignal &&
      t.nBackground == t.output1.nBackground + t.output2.nBackground &&
      CountsAddUp(t.output1) && CountsAddUp(t.output2)
  }

  /** Every branch holds points of both classes and at least 55 points, and cuts on an
      existing feature. */
  predicate BranchesAboveFloor(t: Leaf, dim: nat)
  {
    t.Branch? ==>
      t.nSignal > 0 && t.nBackground > 0 && t.nSignal + t.nBackground >= StoppingCount &&
      0 <= t.variable < dim &&
      BranchesAboveFloor(t.output1, dim) && BranchesAboveFloor(t.output2, dim)
  }

  /** `t` was trained on exactly these corpora: its counts are their sizes and each child
      was trained on the points its side of the cut receives. */
  predicate TrainedOn(t: Leaf, signal: seq<DataPoint>, background: seq<DataPoint>)
  {
    t.nSignal == |signal| && t.nBackground == |background| && !t.isHidden &&
    (t.Branch? ==>
      InRange(signal, t.variable) && InRange(background, t.variable) &&
      TrainedOn(t.output1, LowSide(signal, t.variable, t.split), LowSide(background, t.variable, t.split)) &&
      TrainedOn(t.output2, HighSide(signal, t.variable, t.split), HighSide(background, t.variable, t.split)))
  }

  /** The tree Train builds on a node whose fields are (variable0, split0), with at most
      `fuel` nested calls. Children start as `new Leaf()`: variable -1, split 0. */
  function TrainSpec(signal: seq<DataPoint>, background: seq<DataPoint>, variable0: int, split0: real,
                     dim: nat, fuel: nat): (r: Result<Leaf, TrainError>)
    requires AllWidth(signal, dim) && AllWidth(background, dim)
    ensures r.Ok? ==> r.value.nSignal == |signal| && r.value.nBackground == |background| && !r.value.isHidden
    decreases fuel, 1
  {
    if fuel == 0 then Err(OutOfFuel)
    else
      var choice := ChooseSpec(signal, background, variable0, split0, dim);
      var v, sp := choice.1, choice.2;
      if !choice.0 then Ok(Terminal(v, sp, |signal|, |background|, false))
      else if !(0 <= v < dim) then Err(IndexOutOfRange)
      else TrainBranch(signal, background, v, sp, dim, fuel)
  }

  /** A branching node with cut (v, sp): both children trained, with one call less, on
      the two sides of the cut. */
  function TrainBranch(signal: seq<DataPoint>, background: seq<DataPoint>, v: int, sp: real,
                       dim: nat, fuel: nat): (r: Result<Leaf, TrainError>)
    requires AllWidth(signal, dim) && AllWidth(background, dim)
    requires 0 <= v < dim && fuel > 0
    ensures r.Ok? ==> r.value.Branch? && r.value.variable == v && r.value.split == sp &&
                      r.value.nSignal == |signal| && r.value.nBackground == |background| && !r.value.isHidden
    decreases fuel, 0
  {
    SidesKeepWidth(signal, v, sp, dim);
    SidesKeepWidth(background, v, sp, dim);
    var low := TrainSpec(LowSide(signal, v, sp), LowSide(background, v, sp), -1, 0.0, dim, fuel - 1);
    var high := TrainSpec(HighSide(signal, v, sp), HighSide(background, v, sp), -1, 0.0, dim, fuel - 1);
    if low.Err? then low
    else if high.Err? then high
    else Ok(Branch(v, sp, |signal|, |background|, false, low.value, high.value))
  }

  /** What Train builds: a tree trained on exactly its corpora, whose counts add up at
      every branch, whose branches all hold both classes and at least 55 points and cut on
      an existing feature, and in which nothing is hidden. */
  predicate WellTrained(t: Leaf, signal: seq<DataPoint>, background: seq<DataPoint>, dim: nat)
  {
    TrainedOn(t, signal, background) && CountsAddUp(t) && BranchesAboveFloor(t, dim) &&
    CountsNatural(t) && NoneHidden(t)
  }

  /** Every tree TrainSpec builds is WellTrained. */
  lemma {:induction false} TrainSpecShape(signal: seq<DataPoint>, background: seq<DataPoint>, variable0: int,
                                          split0: real, dim: nat, fuel: nat)
    requires AllWidth(signal, dim) && AllWidth(background, dim)
    ensures TrainSpec(signal, background, variable0, split0, dim, fuel).Ok? ==>
            WellTrained(TrainSpec(signal, background, variable0, split0, dim, fuel).value, signal, background, dim)
    decreases fuel
  {
    var r := TrainSpec(signal, background, variable0, split0, dim, fuel);
    if fuel > 0 && r.Ok? && r.value.Branch? {
      var choice := ChooseSpec(signal, background, variable0, split0, dim);
      assert choice.0 && 0 <= choice.1 < dim;
      assert r == TrainBranch(signal, background, choice.1, choice.2, dim, fuel);
      BranchShape(signal, background, choice.1, choice.2, dim, fuel);
    }
  }

  /** TrainSpecShape at a branch, from the shape of both children. */
  lemma {:induction false} BranchShape(signal: seq<DataPoint>, background: seq<DataPoint>, v: int, sp: real,
                                       dim: nat, fuel: nat)
    requires AllWidth(signal, dim) && AllWidth(background, dim)
    requires 0 <= v < dim && fuel > 0
    requires |signal| > 0 && |background| > 0 && |signal| + |background| >= StoppingCount
    ensures TrainBranch(signal, background, v, sp, dim, fuel).Ok? ==>
            WellTrained(TrainBranch(signal, background, v, sp, dim, fuel).value, signal, background, dim)
    decreases fuel, 0
  {
    SidesKeepWidth(signal, v, sp, dim);
    SidesKeepWidth(background, v, sp, dim);
    var lowSignal, lowBackground := LowSide(signal, v, sp), LowSide(background, v, sp);
    var highSignal, highBackground := HighSide(signal, v, sp), HighSide(background, v, sp);
    var low := TrainSpec(lowSignal, lowBackground, -1, 0.0, dim, fuel - 1);
    var high := TrainSpec(highSignal, highBackground, -1, 0.0, dim, fuel - 1);
    if low.Ok? && high.Ok? {
      TrainSpecShape(lowSignal, lowBackground, -1, 0.0, dim, fuel - 1);
      TrainSpecShape(highSignal, highBackground, -1, 0.0, dim, fuel - 1);
      JoinWellTrained(signal, background, v, sp, dim, low.value, high.value);
      assert TrainBranch(signal, background, v, sp, dim, fuel) ==
             Ok(Branch(v, sp, |signal|, |background|, false, low.value, high.value));
    }
  }

  /** A branch over two well-trained children of its two sides is well trained. */
  lemma JoinWellTrained(signal: seq<DataPoint>, background: seq<DataPoint>, v: int, sp: real, dim: nat,
                        low: Leaf, high: Leaf)
    requires AllWidth(signal, dim) && AllWidth(background, dim) && 0 <= v < dim
    requires |signal| > 0 && |background| > 0 && |signal| + |background| >= StoppingCount
    requires WellTrained(low, LowSide(signal, v, sp), LowSide(background, v, sp), dim)
    requires WellTrained(high, HighSide(signal, v, sp), HighSide(background, v, sp), dim)
    ensures WellTrained(Branch(v, sp, |signal|, |background|, false, low, high), signal, background, dim)
  {
    var t := Branch(v, sp, |signal|, |background|, false, low, high);
    JoinTrainedOn(signal, background, v, sp, dim, low, high);
    JoinCountsAddUp(signal, background, v, sp, dim, low, high);
    assert BranchesAboveFloor(t, dim) && CountsNatural(t) && NoneHidden(t);
  }

  lemma JoinTrainedOn(signal: seq<DataPoint>, background: seq<DataPoint>, v: int, sp: real, dim: nat,
                      low: Leaf, high: Leaf)
    requires AllWidth(signal, dim) && AllWidth(background, dim) && 0 <= v < dim
    requires TrainedOn(low, LowSide(signal, v, sp), LowSide(background, v, sp))
    requires TrainedOn(high, HighSide(signal, v, sp), HighSide(background, v, sp))
    ensures TrainedOn(Branch(v, sp, |signal|, |background|, false, low, high), signal, background)
  {
    assert InRange(signal, v) && InRange(background, v);
  }

  lemma JoinCountsAddUp(signal: seq<DataPoint>, background: seq<DataPoint>, v: int, sp: real, dim: nat,
                        low: Leaf, high: Leaf)
    requires AllWidth(signal, dim) && AllWidth(background, dim) && 0 <= v < dim
    requires CountsAddUp(low) && low.nSignal == |LowSide(signal, v, sp)| &&
             low.nBackground == |LowSide(background, v, sp)|
    requires CountsAddUp(high) && high.nSignal == |HighSide(signal, v, sp)| &&
             high.nBackground == |HighSide(background, v, sp)|
    ensures CountsAddUp(Branch(v, sp, |signal|, |background|, false, low, high))
  {
    assert InRange(signal, v) && InRange(background, v);
    PartitionConserves(signal, v, sp);
    PartitionConserves(background, v, sp);
  }

  /** Train, with its partition loops. */
  method Train(signal: seq<DataPoint>, background: seq<DataPoint>, variable0: int, split0: real,
               ghost dim: nat, fuel: nat) returns (r: Result<Leaf, TrainError>)
    requires AllWidth(signal, dim) && AllWidth(background, dim)
    ensures r == TrainSpec(signal, background, variable0, split0, dim, fuel)
    decreases fuel, 1
  {
    if fuel == 0 {
      return Err(OutOfFuel);
    }
    var nSignal, nBackground := |signal|, |background|;
    var branch, variable, split := ChooseVariable(signal, background, variable0, split0, dim);
    if !branch {
      return Ok(Terminal(variable, split, nSignal, nBackground, false));
    }
    // branching implies a non-empty signal corpus; DoSplit on its first point throws
    // unless the variable is a feature index
    assert |signal[0].variables| == dim;
    if !(0 <= variable < |signal[0].variables|) {
      return Err(IndexOutOfRange);
    }
    r := TrainChildren(signal, background, variable, split, dim, fuel);
  }

  /** The rest of Train at a branching node: partition both corpora, train output1, then
      output2. */
  method TrainChildren(signal: seq<DataPoint>, background: seq<DataPoint>, variable: int, split: real,
                       ghost dim: nat, fuel: nat) returns (r: Result<Leaf, TrainError>)
    requires AllWidth(signal, dim) && AllWidth(background, dim)
    requires 0 <= variable < dim && fuel > 0
    ensures r == TrainBranch(signal, background, variable, split, dim, fuel)
    decreases fuel, 0
  {
    var nSignal, nBackground := |signal|, |background|;
    var signalLeft, signalRight := Partition(signal, variable, split);
    var backgroundLeft, backgroundRight := Partition(background, variable, split);
    SidesKeepWidth(signal, variable, split, dim);
    SidesKeepWidth(background, variable, split, dim);
    var output1 := Train(signalLeft, backgroundLeft, -1, 0.0, dim, fuel - 1);
    if output1.Err? {
      return Err(output1.error);
    }
    var output2 := Train(signalRight, backgroundRight, -1, 0.0, dim, fuel - 1);
    if output2.Err? {
      return Err(output2.error);
    }
    r := Ok(Branch(variable, split, nSignal, nBackground, false, output1.value, output2.value));
  }

  /** A node of at most 54 points, or with an empty corpus, is trained as a terminal. */
  lemma SmallCorporaStayTerminal(signal: seq<DataPoint>, background: seq<DataPoint>, variable0: int, split0: real,
                                 dim: nat, fuel: nat)
    requires AllWidth(signal, dim) && AllWidth(background, dim)
    requires fuel > 0
    requires |signal| == 0 || |background| == 0 || |signal| + |background| < StoppingCount
    ensures TrainSpec(signal, background, variable0, split0, dim, fuel).Ok?
    ensures TrainSpec(signal, background, variable0, split0, dim, fuel).value.Terminal?
  {
  }
}
