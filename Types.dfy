// The shared types of the cut pipeline (MediaPlayer/Types.h): a Sequence is a
// (start, end) pair of times, each Sequence carries one SequenceState, and a
// SequenceMap is an ordered map from Sequence to SequenceState.

module Types {
  import VTime

  /** The lifecycle of one cut; only declared, no transitions are coded. */
  datatype OperationState = Ready | Processing | Succeeded | Failed

  datatype SequenceState = SequenceState(
    state: OperationState,
    selected: bool,
    isEditing: bool,
    filePath: string)

  /** SequenceState{}: the default member initialisers. */
  function DefaultSequenceState(): (s: SequenceState)
    ensures s.state == Ready && !s.selected && !s.isEditing && s.filePath == ""
  {
    SequenceState(Ready, false, false, "")
  }

  /** std::pair<VTime, VTime>: `start` is `first`, `end` is `second`. */
  datatype Sequence = Sequence(start: VTime.VTime, end: VTime.VTime)

  /** std::map<Sequence, SequenceState>: one state per key. */
  type SequenceMap = map<Sequence, SequenceState>

  /** std::pair's operator<, built from VTime's operator<. */
  predicate SequenceLess(a: Sequence, b: Sequence) {
    VTime.Lt(a.start, b.start) || (!VTime.Lt(b.start, a.start) && VTime.Lt(a.end, b.end))
  }

  /** Exactly the four declared states exist. */
  lemma OperationStatesAreFour(s: OperationState)
    ensures s == Ready || s == Processing || s == Succeeded || s == Failed
    ensures |{Ready, Processing, Succeeded, Failed}| == 4
  {
  }

  /** Two sequences are equal iff both their components are. */
  lemma SequenceEquality(a: Sequence, b: Sequence)
    ensures a == b <==> a.start == b.start && a.end == b.end
  {
  }

  /** The key order is lexicographic (start, then end) and a strict total order. */
  lemma SequenceLessIsStrictTotalOrder(a: Sequence, b: Sequence, c: Sequence)
    ensures SequenceLess(a, b) <==> a.start.ms < b.start.ms || (a.start.ms == b.start.ms && a.end.ms < b.end.ms)
    ensures !SequenceLess(a, a)
    ensures SequenceLess(a, b) && SequenceLess(b, c) ==> SequenceLess(a, c)
    ensures a == b || SequenceLess(a, b) || SequenceLess(b, a)
  {
  }

  /** The least key of a non-empty key set. */
  ghost function Least(keys: set<Sequence>): (k: Sequence)
    requires keys != {}
    ensures k in keys
    ensures forall x :: x in keys && x != k ==> SequenceLess(k, x)
    decreases |keys|
  {
    var x :| x in keys;
    if keys - {x} == {} then
      assert keys == {x};
      x
    else
      var m := Least(keys - {x});
      if SequenceLess(x, m) then x else m
  }

  /** The given keys, strictly ascending. */
  ghost function Ascending(keys: set<Sequence>): (r: seq<Sequence>)
    ensures |r| == |keys|
    ensures forall k :: k in keys <==> k in r
    ensures forall i, j :: 0 <= i < j < |r| ==> SequenceLess(r[i], r[j])
    decreases |keys|
  {
    if keys == {} then []
    else
      var k := Least(keys);
      var rest := Ascending(keys - {k});
      var r := [k] + rest;
      assert forall j :: 0 < j < |r| ==> r[j] == rest[j - 1];
      r
  }

  /** The order in which a SequenceMap is iterated: every key once, ascending. */
  ghost function IterationOrder(m: SequenceMap): (r: seq<Sequence>)
    ensures |r| == |m|
    ensures forall k :: k in m <==> k in r
    ensures forall i, j :: 0 <= i < j < |r| ==> SequenceLess(r[i], r[j])
  {
    Ascending(m.Keys)
  }
}
