/**
 * The crate's own unit tests of the cursor, restated as client methods whose
 * postconditions are the expected outcomes.  They are proved from the
 * contracts of `Cursor` and `Tapes` alone.
 */
module CursorTests {
  import opened Wrappers
  import opened MachineWords
  import opened Tapes
  import opened Cursor

  /** The ten-item vector every test starts from. */
  function TestItems(): (s: seq<int>)
    ensures |s| == 10
  {
    [0, 1, 2, 3, 4, 5, 9, 8, 7, 6]
  }

  /** `new` starts at 0 over exactly the given vector, which `into_inner` and `get_ref` hand back. */
  method NewAndIntoInner() returns (start: usize, back: seq<int>, viewed: seq<int>)
    ensures start == 0
    ensures back == TestItems() && viewed == TestItems()
  {
    var tape := new SeqTape(VecBacking, TestItems());
    var c := new CollectionCursor(tape);
    start := c.Position();
    viewed := c.GetRef().items;
    var t := c.IntoInner();
    back := t.items;
  }

  /**
   * The `Start` rows of the `seek` test, from a fresh cursor: each result
   * and the head after it.
   */
  method SeekStartRows() returns (results: seq<Option<usize>>, heads: seq<usize>)
    ensures results == [Some(3), Some(0)]
    ensures heads == [3, 0]
  {
    var tape := new SeqTape(VecBacking, TestItems());
    var c := new CollectionCursor(tape);
    var r1 := c.Seek(Start(3));
    var h1 := c.pos;
    assert r1 == Some(3) && h1 == 3;
    var r2 := c.Seek(Start(0));
    var h2 := c.pos;
    assert r2 == Some(0) && h2 == 0;
    results := [r1, r2];
    heads := [h1, h2];
  }

  /**
   * The `Current` rows of the `seek` test, from the head at 0: each result
   * and the head after it.
   */
  method SeekCurrentRows() returns (results: seq<Option<usize>>, heads: seq<usize>)
    ensures results == [Some(0), Some(7), Some(5), Some(0)]
    ensures heads == [0, 7, 5, 0]
  {
    var tape := new SeqTape(VecBacking, TestItems());
    var c := new CollectionCursor(tape);
    var r1 := c.Seek(Current(0));
    var h1 := c.pos;
    assert r1 == Some(0) && h1 == 0;
    var r2 := c.Seek(Current(7));
    var h2 := c.pos;
    assert r2 == Some(7) && h2 == 7;
    var r3 := c.Seek(Current(-2));
    var h3 := c.pos;
    assert r3 == Some(5) && h3 == 5;
    var r4 := c.Seek(Current(-5));
    var h4 := c.pos;
    assert r4 == Some(0) && h4 == 0;
    results := [r1, r2, r3, r4];
    heads := [h1, h2, h3, h4];
  }

  /**
   * The `End` rows of the `seek` test, from the head at 0: each result and
   * the head after it.
   */
  method SeekEndRows() returns (results: seq<Option<usize>>, heads: seq<usize>)
    ensures results == [Some(10), Some(9), Some(5), Some(0)]
    ensures heads == [10, 9, 5, 0]
  {
    var tape := new SeqTape(VecBacking, TestItems());
    var c := new CollectionCursor(tape);
    var r1 := c.Seek(End(0));
    var h1 := c.pos;
    assert r1 == Some(10) && h1 == 10;
    var r2 := c.Seek(End(-1));
    var h2 := c.pos;
    assert r2 == Some(9) && h2 == 9;
    var r3 := c.Seek(End(-5));
    var h3 := c.pos;
    assert r3 == Some(5) && h3 == 5;
    var r4 := c.Seek(End(-10));
    var h4 := c.pos;
    assert r4 == Some(0) && h4 == 0;
    results := [r1, r2, r3, r4];
    heads := [h1, h2, h3, h4];
  }

  /**
   * The second half of the `seek` test: after moving to 7, every seek 20
   * past either end fails and leaves the head at 7.  Each result and the head after it.
   */
  method SeekOutOfBounds() returns (results: seq<Option<usize>>, heads: seq<usize>)
    ensures results == [Some(7), None, None, None, None, None, None]
    ensures heads == [7, 7, 7, 7, 7, 7, 7]
  {
    var tape := new SeqTape(VecBacking, TestItems());
    var c := new CollectionCursor(tape);
    var pastEnd: usize := 20;
    var beforeBeginning: isize := -20;
    var r1 := c.Seek(Start(7));
    var h1 := c.pos;
    assert r1 == Some(7) && h1 == 7;
    var r2 := c.Seek(Start(pastEnd));
    var h2 := c.pos;
    assert r2 == None && h2 == 7;
    var r3 := c.Seek(Current(beforeBeginning));
    var h3 := c.pos;
    assert r3 == None && h3 == 7;
    var r4 := c.Seek(Current(pastEnd));
    var h4 := c.pos;
    assert r4 == None && h4 == 7;
    var r5 := c.Seek(End(1));
    var h5 := c.pos;
    assert r5 == None && h5 == 7;
    var r6 := c.Seek(End(beforeBeginning));
    var h6 := c.pos;
    assert r6 == None && h6 == 7;
    var r7 := c.Seek(End(pastEnd));
    var h7 := c.pos;
    assert r7 == None && h7 == 7;
    results := [r1, r2, r3, r4, r5, r6, r7];
    heads := [h1, h2, h3, h4, h5, h6, h7];
  }

  /** The `position` test: the head reads back whatever it was set to, even far out of bounds. */
  method PositionRows() returns (heads: seq<usize>)
    ensures heads == [0, 5, USIZE_MAX]
  {
    var tape := new SeqTape(VecBacking, TestItems());
    var c := new CollectionCursor(tape);
    var p1 := c.Position();
    c.pos := 5;
    var p2 := c.Position();
    c.pos := USIZE_MAX;
    var p3 := c.Position();
    heads := [p1, p2, p3];
  }

  /**
   * The `clamp_to_collection_bounds` test: a head at `usize::MAX` is pulled
   * back to the length 10, and a head at 2 is left alone.
   */
  method ClampRows() returns (wasInBounds: bool, repaired: usize, kept: usize)
    ensures !wasInBounds && repaired == 10 && kept == 2
  {
    var tape := new SeqTape(VecBacking, TestItems());
    var c := new CollectionCursor(tape);
    c.pos := USIZE_MAX;
    wasInBounds := c.InBounds();
    c.ClampToCollectionBounds();
    repaired := c.pos;
    c.pos := 2;
    c.ClampToCollectionBounds();
    kept := c.pos;
  }

  /**
   * Seeking to the end and back to the start lands on 0, and the vector
   * handed back by `into_inner` is the one the cursor was made from.
   */
  method EndThenStartRoundTrip() returns (head: usize, back: seq<int>)
    ensures head == 0 && back == TestItems()
  {
    var tape := new SeqTape(VecBacking, TestItems());
    var c := new CollectionCursor(tape);
    c.SeekToEnd();
    c.SeekToStart();
    head := c.Position();
    var t := c.IntoInner();
    back := t.items;
  }

  /**
   * The escape hatch: emptying the tape through `get_mut` strands the head at
   * 10, where nothing can be read and even `Current(0)` fails, until clamping
   * brings it back to 0.
   */
  method ShrinkThenClamp() returns (stranded: usize, atHead: Option<int>, stay: Option<usize>, repaired: usize)
    ensures stranded == 10 && atHead == None && stay == None && repaired == 0
  {
    var tape := new SeqTape(DequeBacking, TestItems());
    var c := new CollectionCursor(tape);
    c.SeekToEnd();
    var t := c.GetMut();
    t.Clear();
    stranded := c.Position();
    atHead := c.GetItemAtHead();
    stay := c.Seek(Current(0));
    c.ClampToCollectionBounds();
    repaired := c.Position();
  }

  /**
   * The head operations on `[1, 2, 3]` with the head at 1: `set_item_at_head`
   * inserts 9 under the head, `remove_item_at_head` takes it out again, and
   * `clear` empties the tape and returns the head to 0.
   */
  method HeadOperations() returns (afterSet: seq<int>, removed: Option<int>, afterRemove: seq<int>, head: usize)
    ensures afterSet == [1, 9, 2, 3]
    ensures removed == Some(9) && afterRemove == [1, 2, 3]
    ensures head == 0
  {
    var tape := new SeqTape(VecBacking, [1, 2, 3]);
    var c := new CollectionCursor(tape);
    var moved := c.SeekForwardOne();
    c.SetItemAtHead(9);
    afterSet := tape.items;
    removed := c.RemoveItemAtHead();
    afterRemove := tape.items;
    c.Clear();
    head := c.Position();
  }
}
