/** Write and the reading constructor Leaf(BinaryReader) of DecisionTree/Leaf.cs. The byte
    encoding is abstracted: the stream is a sequence of per-node records. */
module Serialization {
  import opened Wrappers
  import opened LeafNode

  /** What Write emits for one node: int32 variable, double split, int32 nSignal,
      int32 nBackground, bool IsFinal. The hidden flag is not written. */
  datatype Record = Record(variable: int, split: real, nSignal: int, nBackground: int, isFinal: bool)

  /** Number of nodes of `t`. */
  function NodeCount(t: Leaf): (n: nat)
    ensures n >= Terminals(t)
  {
    match t
    case Terminal(_, _, _, _, _) => 1
    case Branch(_, _, _, _, _, o1, o2) => 1 + NodeCount(o1) + NodeCount(o2)
  }

  /** Write on a stream: the node's record, then, for a branch, output1's records and
      output2's, followed by whatever the stream holds after this node (`rest`). */
  function WriteOnto(t: Leaf, rest: seq<Record>): (r: seq<Record>)
    ensures |r| == NodeCount(t) + |rest|
  {
    var head := Record(t.variable, t.split, t.nSignal, t.nBackground, t.Terminal?);
    match t
    case Terminal(_, _, _, _, _) => [head] + rest
    case Branch(_, _, _, _, _, o1, o2) => [head] + WriteOnto(o1, WriteOnto(o2, rest))
  }

  /** Write on its own: one record per node, in preorder. */
  function Write(t: Leaf): (r: seq<Record>)
    ensures |r| == NodeCount(t)
  {
    WriteOnto(t, [])
  }

  /** Leaf(BinaryReader): one node and its subtrees from the front of the stream, with what
      the stream holds after them; `None` where the stream ends too early (the reader
      throws). Every node read is not hidden. */
  function Read(rs: seq<Record>): (r: Option<(Leaf, seq<Record>)>)
    ensures r.Some? ==> |r.value.1| < |rs| && NoneHidden(r.value.0)
    decreases |rs|
  {
    if |rs| == 0 then None
    else
      var h := rs[0];
      if h.isFinal then Some((Terminal(h.variable, h.split, h.nSignal, h.nBackground, false), rs[1..]))
      else
        var low := Read(rs[1..]);
        if low.None? then None
        else
          var high := Read(low.value.1);
          if high.None? then None
          else Some((Branch(h.variable, h.split, h.nSignal, h.nBackground, false, low.value.0, high.value.0),
                     high.value.1))
  }

  /** Reading what Write put on a stream gives back the tree with every hidden flag
      cleared, and leaves exactly what followed it. */
  lemma {:induction false} ReadWrite(t: Leaf, rest: seq<Record>)
    ensures Read(WriteOnto(t, rest)) == Some((ResetHidden(t), rest))
  {
    var head := Record(t.variable, t.split, t.nSignal, t.nBackground, t.Terminal?);
    var rs := WriteOnto(t, rest);
    if t.Terminal? {
      assert rs == [head] + rest;
      assert rs[1..] == rest;
    } else {
      var after := WriteOnto(t.output2, rest);
      assert rs == [head] + WriteOnto(t.output1, after);
      assert rs[1..] == WriteOnto(t.output1, after);
      ReadWrite(t.output1, after);
      ReadWrite(t.output2, rest);
    }
  }

  /** Read(Write(t)) == resetHidden(t): a saved tree always comes back unpruned, and the
      whole stream is consumed. */
  lemma RoundTripDropsHidden(t: Leaf)
    ensures Read(Write(t)) == Some((ResetHidden(t), []))
  {
    ReadWrite(t, []);
  }

  /** Conversely, whatever Read accepts is exactly the Write of the tree it builds,
      followed by what it left on the stream. */
  lemma {:induction false} WriteRead(rs: seq<Record>)
    requires Read(rs).Some?
    ensures WriteOnto(Read(rs).value.0, Read(rs).value.1) == rs
    decreases |rs|
  {
    var h := rs[0];
    if h.isFinal {
      assert rs == [h] + rs[1..];
    } else {
      var low := Read(rs[1..]).value;
      WriteRead(rs[1..]);
      WriteRead(low.1);
      assert rs == [h] + rs[1..];
    }
  }
}
