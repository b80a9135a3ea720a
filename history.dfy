/** The bounded undo/redo history of the editor (the `History` struct of src/editor.rs). */
module EditorHistory {
  import opened Text
  import opened Levels

  /** A full copy of the layers together with the selected layer index (`HistoryState`). */
  datatype Snapshot = Snapshot(layers: seq<Layer>, currentLayer: nat)

  /** The editor keeps at most this many undo steps. */
  const MaxHistory: nat := 50

  /** The most entries a stack can hold: `push` evicts only once the length has reached
      `max_size`, so even a bound of zero keeps one entry. */
  function Capacity(maxSize: nat): nat { if maxSize == 0 then 1 else maxSize }

  /** `VecDeque` push at the back, after dropping the front entry when the length has
      reached `maxSize` (`History::push` and `History::push_redo`). */
  function PushBounded<T>(stack: seq<T>, x: T, maxSize: nat): (r: seq<T>)
    ensures |r| >= 1 && r[|r| - 1] == x
    ensures |stack| <= Capacity(maxSize) ==> |r| <= Capacity(maxSize)
    ensures |stack| < maxSize ==> |r| == |stack| + 1
    ensures |r| <= |stack| + 1
  {
    var kept := if |stack| >= maxSize && |stack| > 0 then stack[1..] else stack;
    kept + [x]
  }

  /** The two stacks as values; the top of a stack is its last element. */
  datatype HistoryModel = HistoryModel(undo: seq<Snapshot>, redo: seq<Snapshot>, maxSize: nat)
  {
    predicate Bounded() { |undo| <= Capacity(maxSize) && |redo| <= Capacity(maxSize) }

    /** A new action: the snapshot goes on the undo stack and the redo stack is emptied. */
    function Record(s: Snapshot): HistoryModel
    {
      this.(undo := PushBounded(undo, s, maxSize), redo := [])
    }

    function PushRedo(s: Snapshot): HistoryModel
    {
      this.(redo := PushBounded(redo, s, maxSize))
    }

    function PopUndo(): HistoryModel
    {
      if |undo| == 0 then this else this.(undo := undo[..|undo| - 1])
    }

    function PopRedo(): HistoryModel
    {
      if |redo| == 0 then this else this.(redo := redo[..|redo| - 1])
    }
  }

  function Top(stack: seq<Snapshot>): Option<Snapshot>
  {
    if |stack| == 0 then None else Some(stack[|stack| - 1])
  }

  /** Recording snapshots one after another. */
  function RecordAll(h: HistoryModel, ss: seq<Snapshot>): HistoryModel
    decreases |ss|
  {
    if |ss| == 0 then h else RecordAll(h.Record(ss[0]), ss[1..])
  }

  /** The last `n` entries of `s`, or all of them when there are fewer. */
  function Newest<T>(s: seq<T>, n: nat): (r: seq<T>)
    ensures |r| == if |s| <= n then |s| else n
  {
    if |s| <= n then s else s[|s| - n..]
  }

  /** Dropping a prefix that keeps at least `n` entries does not change the newest `n`. */
  lemma NewestOfSuffix<T>(s: seq<T>, j: nat, n: nat)
    requires j <= |s| && (j > 0 ==> |s| - j >= n)
    ensures Newest(s[j..], n) == Newest(s, n)
  {
    if j > 0 {
      assert s[j..][|s| - j - n..] == s[|s| - n..];
    }
  }

  /** After any run of recordings the undo stack holds the newest `Capacity` snapshots, oldest
      first, so undoing returns them newest first; the oldest are the ones evicted. */
  lemma {:induction false} RecordAllKeepsNewest(h: HistoryModel, ss: seq<Snapshot>)
    requires |h.undo| <= Capacity(h.maxSize)
    ensures RecordAll(h, ss).undo == Newest(h.undo + ss, Capacity(h.maxSize))
    decreases |ss|
  {
    if |ss| > 0 {
      RecordAllKeepsNewest(h.Record(ss[0]), ss[1..]);
      RecordStep(h, ss);
    } else {
      assert h.undo + ss == h.undo;
    }
  }

  /** Recording keeps the bound and, as soon as one snapshot is recorded, empties the redo stack. */
  lemma {:induction false} RecordAllClearsRedo(h: HistoryModel, ss: seq<Snapshot>)
    ensures RecordAll(h, ss).maxSize == h.maxSize
    ensures |ss| > 0 ==> RecordAll(h, ss).redo == []
    decreases |ss|
  {
    if |ss| > 0 {
      RecordAllClearsRedo(h.Record(ss[0]), ss[1..]);
    }
  }

  /** One recording moves the window of newest snapshots along without changing it. */
  lemma RecordStep(h: HistoryModel, ss: seq<Snapshot>)
    requires |h.undo| <= Capacity(h.maxSize) && |ss| > 0
    ensures Newest(h.Record(ss[0]).undo + ss[1..], Capacity(h.maxSize)) == Newest(h.undo + ss, Capacity(h.maxSize))
  {
    var j := PushOffset(h.undo, ss[0], h.maxSize);
    assert h.Record(ss[0]).undo + ss[1..] == (h.undo + ss)[j..] by {
      assert h.undo + [ss[0]] + ss[1..] == h.undo + ss;
    }
    NewestOfSuffix(h.undo + ss, j, Capacity(h.maxSize));
  }

  /** How many entries one bounded push evicts from the front: none while there is room,
      one once the stack is full. */
  lemma PushOffset(stack: seq<Snapshot>, x: Snapshot, maxSize: nat) returns (j: nat)
    requires |stack| <= Capacity(maxSize)
    ensures j <= 1 && PushBounded(stack, x, maxSize) == (stack + [x])[j..]
    ensures j == 1 ==> |PushBounded(stack, x, maxSize)| == Capacity(maxSize)
  {
    if |stack| >= maxSize && |stack| > 0 {
      j := 1;
      assert stack[1..] + [x] == (stack + [x])[1..];
    } else {
      j := 0;
      assert stack + [x] == (stack + [x])[0..];
    }
  }

  /** With room for two steps, three recordings keep the last two. */
  lemma CapacityTwoKeepsLastTwo(s1: Snapshot, s2: Snapshot, s3: Snapshot)
    ensures RecordAll(HistoryModel([], [], 2), [s1, s2, s3]).undo == [s2, s3]
  {
    RecordAllKeepsNewest(HistoryModel([], [], 2), [s1, s2, s3]);
    assert [] + [s1, s2, s3] == [s1, s2, s3];
  }

  /** The history object the editor owns. */
  class History {
    var undoStack: seq<Snapshot>
    var redoStack: seq<Snapshot>
    const maxSize: nat

    function Model(): HistoryModel
      reads this
    {
      HistoryModel(undoStack, redoStack, maxSize)
    }

    predicate Valid()
      reads this
    {
      Model().Bounded()
    }

    constructor (maxSize: nat)
      ensures Valid() && Model() == HistoryModel([], [], maxSize)
    {
      undoStack := [];
      redoStack := [];
      this.maxSize := maxSize;
    }

    method Push(s: Snapshot)
      requires Valid()
      modifies this
      ensures Valid() && Model() == old(Model()).Record(s)
    {
      if |undoStack| >= maxSize && |undoStack| > 0 {
        undoStack := undoStack[1..];
      }
      undoStack := undoStack + [s];
      redoStack := [];
    }

    method Undo() returns (r: Option<Snapshot>)
      requires Valid()
      modifies this
      ensures Valid() && r == Top(old(undoStack)) && Model() == old(Model()).PopUndo()
    {
      if |undoStack| == 0 {
        r := None;
      } else {
        r := Some(undoStack[|undoStack| - 1]);
        undoStack := undoStack[..|undoStack| - 1];
      }
    }

    method Redo() returns (r: Option<Snapshot>)
      requires Valid()
      modifies this
      ensures Valid() && r == Top(old(redoStack)) && Model() == old(Model()).PopRedo()
    {
      if |redoStack| == 0 {
        r := None;
      } else {
        r := Some(redoStack[|redoStack| - 1]);
        redoStack := redoStack[..|redoStack| - 1];
      }
    }

    method PushRedo(s: Snapshot)
      requires Valid()
      modifies this
      ensures Valid() && Model() == old(Model()).PushRedo(s)
    {
      if |redoStack| >= maxSize && |redoStack| > 0 {
        redoStack := redoStack[1..];
      }
      redoStack := redoStack + [s];
    }

    function CanUndo(): (b: bool)
      reads this
      ensures b <==> Top(undoStack).Some?
    {
      |undoStack| > 0
    }

    function CanRedo(): (b: bool)
      reads this
      ensures b <==> Top(redoStack).Some?
    {
      |redoStack| > 0
    }
  }
}
