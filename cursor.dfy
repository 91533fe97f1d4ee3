/**
 * The collection cursor: a tape together with a head position, the seek
 * directives that move the head, and the operations at the head.
 */
module Cursor {
  import opened Wrappers
  import opened MachineWords
  import opened Tapes

  /** Where a seek is measured from. */
  datatype SeekFrom =
    | Start(index: usize)   // the index itself
    | End(offset: isize)    // the length plus the offset
    | Current(offset: isize) // the head position plus the offset

  // ---------------------------------------------------------------------------
  // The seek algorithm, as functions of the length and the old position

  /** The exact integer a directive names, with no bound on its size or sign. */
  function Intended(dir: SeekFrom, len: usize, pos: usize): int
  {
    match dir
    case Start(p) => p
    case End(k) => len + k
    case Current(k) => pos + k
  }

  /**
   * The candidate position in machine arithmetic: the additions are
   * overflow-checked, so the candidate is absent exactly when the intended
   * position is not a `usize`, and otherwise it is the intended position.
   */
  function Candidate(dir: SeekFrom, len: usize, pos: usize): (r: Option<usize>)
    ensures r.Some? <==> 0 <= Intended(dir, len, pos) <= USIZE_MAX
    ensures r.Some? ==> r.value == Intended(dir, len, pos)
  {
    match dir
    case Start(p) => Some(p)
    case End(k) => CheckedAddSigned(len, k)
    case Current(k) => CheckedAddSigned(pos, k)
  }

  /**
   * What a seek returns: the candidate if it lies within `[0, len]`.  Since
   * `len` is itself a `usize`, overflow never hides a reachable position and
   * never lets an unreachable one through.
   */
  function Resolve(dir: SeekFrom, len: usize, pos: usize): (r: Option<usize>)
    ensures r.Some? <==> 0 <= Intended(dir, len, pos) <= len
    ensures r.Some? ==> r.value == Intended(dir, len, pos) && r.value <= len
  {
    match Candidate(dir, len, pos)
    case Some(n) => if n <= len then Some(n) else None
    case None => None
  }

  /** `pos.min(len)`: the position pulled back to the end of the tape if it lies beyond it. */
  function Clamped(pos: usize, len: usize): (r: usize)
    ensures r <= len && r <= pos
    ensures r == pos || r == len
  {
    if pos <= len then pos else len
  }

  /** `len.checked_sub(1).unwrap_or_default()`: the index of the last item, or 0 for an empty tape. */
  function LastItemIndex(len: usize): (r: usize)
    ensures len == 0 ==> r == 0
    ensures len > 0 ==> r == len - 1
  {
    CheckedSub(len, 1).UnwrapOr(0)
  }

  // ---------------------------------------------------------------------------
  // Properties of seeking

  /** `Start(p)` lands on `p` exactly when `p <= len`, whatever the old position. */
  lemma SeekStart(p: usize, len: usize, pos: usize)
    ensures Resolve(Start(p), len, pos) == if p <= len then Some(p) else None
  {
  }

  /** `End(k)` lands on `len + k` exactly when `k` is between `-len` and 0; in particular `End(0)` always lands on `len`. */
  lemma SeekEnd(k: isize, len: usize, pos: usize)
    ensures Resolve(End(k), len, pos) == if 0 <= len + k <= len then Some(len + k) else None
    ensures Resolve(End(0), len, pos) == Some(len)
  {
  }

  /** `Current(k)` lands on `pos + k` exactly when that lies in `[0, len]`. */
  lemma SeekCurrent(k: isize, len: usize, pos: usize)
    ensures Resolve(Current(k), len, pos) == if 0 <= pos + k <= len then Some(pos + k) else None
  {
  }

  /** `Current(0)` keeps an in-bounds position and fails on one that has drifted past the end. */
  lemma SeekCurrentZero(len: usize, pos: usize)
    ensures Resolve(Current(0), len, pos) == if pos <= len then Some(pos) else None
  {
  }

  /**
   * Overflow is failure: from the largest position, `Current(2)` wraps around to
   * 1, which would be inside any non-empty tape, yet the seek fails.
   */
  lemma WrappedCandidateRejected(len: usize)
    requires len >= 1
    ensures OverflowingAdd(USIZE_MAX, AsUsize(2)) == (1, true)
    ensures Resolve(Current(2), len, USIZE_MAX) == None
  {
  }

  /** Seeking again to where a successful seek landed is a successful no-op. */
  lemma SeekLandingIsStable(dir: SeekFrom, len: usize, pos: usize)
    requires Resolve(dir, len, pos).Some?
    ensures Resolve(Current(0), len, Resolve(dir, len, pos).value) == Resolve(dir, len, pos)
    ensures Resolve(Start(Resolve(dir, len, pos).value), len, pos) == Resolve(dir, len, pos)
  {
  }

  /** Clamping twice is clamping once. */
  lemma ClampIdempotent(pos: usize, len: usize)
    ensures Clamped(Clamped(pos, len), len) == Clamped(pos, len)
  {
  }

  /** Clamping an in-bounds position leaves it alone. */
  lemma ClampKeepsInBounds(pos: usize, len: usize)
    requires pos <= len
    ensures Clamped(pos, len) == pos
  {
  }

  /** The last-item index is where `Start(len - 1)`, or `Start(0)` on an empty tape, lands; never before 0. */
  lemma LastItemIsSeekable(len: usize, pos: usize)
    ensures Resolve(Start(LastItemIndex(len)), len, pos) == Some(LastItemIndex(len))
    ensures len > 0 ==> Resolve(End(-1), len, pos) == Some(LastItemIndex(len))
  {
  }

  // ---------------------------------------------------------------------------
  // The cursor

  class CollectionCursor<T> {
    /** The collection the cursor points into. */
    const inner: SeqTape<T>
    /**
     * The head position.  It is meant to satisfy `pos <= len` (`InBounds`),
     * but a caller that shrinks the tape through `GetMut` can break that
     * until `ClampToCollectionBounds` repairs it.
     */
    var pos: usize

    ghost predicate Valid()
      reads this, inner
    {
      inner.Valid()
    }

    /** The soft invariant `0 <= pos <= len`. */
    predicate InBounds()
      reads this, inner
    {
      pos <= |inner.items|
    }

    /** `new`: wraps the tape with the head at 0. */
    constructor (inner: SeqTape<T>)
      requires inner.Valid()
      ensures Valid() && InBounds()
      ensures this.inner == inner && pos == 0
    {
      this.inner := inner;
      pos := 0;
    }

    /** `position`: the head, which lies within the tape whenever the soft invariant holds. */
    function Position(): (r: usize)
      reads this, inner
      ensures InBounds() ==> r <= |inner.items|
      ensures r == pos
    {
      pos
    }

    /** `get_ref`: the wrapped tape. */
    function GetRef(): (t: SeqTape<T>)
      ensures t == inner
    {
      inner
    }

    /**
     * `get_mut`: the wrapped tape, which the caller may then change in any
     * way, including shrinking it below the head.
     */
    method GetMut() returns (t: SeqTape<T>)
      ensures t == inner
    {
      t := inner;
    }

    /** `into_inner`: gives the tape back, with the contents it has now. */
    method IntoInner() returns (t: SeqTape<T>)
      ensures t == inner && t.items == inner.items
    {
      t := inner;
    }

    /**
     * `seek`: moves the head to the resolved target and returns it, or
     * returns nothing and changes nothing.  A success leaves the head in
     * bounds even if it had drifted out before.
     */
    method Seek(dir: SeekFrom) returns (r: Option<usize>)
      requires Valid()
      modifies this
      ensures Valid() && inner.items == old(inner.items)
      ensures r == Resolve(dir, |inner.items|, old(pos))
      ensures r.Some? <==> 0 <= Intended(dir, |inner.items|, old(pos)) <= |inner.items|
      ensures r.Some? ==> pos == r.value && InBounds()
      ensures r.None? ==> pos == old(pos)
    {
      var collectionLen := inner.Len();
      var desired := Candidate(dir, collectionLen, pos);
      if desired.Some? && desired.value <= collectionLen {
        pos := desired.value;
        r := desired;
      } else {
        r := None;
      }
    }

    /** `clamp_to_collection_bounds`: `pos := min(pos, len)`, which restores the soft invariant. */
    method ClampToCollectionBounds()
      requires Valid()
      modifies this
      ensures Valid() && inner.items == old(inner.items)
      ensures pos == Clamped(old(pos), |inner.items|)
      ensures InBounds()
      ensures old(InBounds()) ==> pos == old(pos)
    {
      pos := if pos <= inner.Len() then pos else inner.Len();
    }

    /** `seek_to_start`: the head goes to 0, where `Start(0)` would land. */
    method SeekToStart()
      requires Valid()
      modifies this
      ensures Valid() && inner.items == old(inner.items)
      ensures pos == 0 && InBounds()
      ensures Resolve(Start(0), |inner.items|, old(pos)) == Some(pos)
    {
      pos := 0;
    }

    /** `seek_relative`: a seek from the current position. */
    method SeekRelative(offset: isize) returns (r: Option<usize>)
      requires Valid()
      modifies this
      ensures Valid() && inner.items == old(inner.items)
      ensures r.Some? <==> 0 <= old(pos) + offset <= |inner.items|
      ensures r.Some? ==> r.value == old(pos) + offset && pos == r.value
      ensures r.None? ==> pos == old(pos)
    {
      r := Seek(Current(offset));
    }

    /** `seek_backward_one`: moves one place back when that lands in `[0, len]`. */
    method SeekBackwardOne() returns (moved: bool)
      requires Valid()
      modifies this
      ensures Valid() && inner.items == old(inner.items)
      ensures moved <==> 1 <= old(pos) <= |inner.items| + 1
      ensures pos == if moved then old(pos) - 1 else old(pos)
    {
      var r := SeekRelative(-1);
      moved := r.Some?;
    }

    /** `seek_forward_one`: moves one place forward when that does not pass the end. */
    method SeekForwardOne() returns (moved: bool)
      requires Valid()
      modifies this
      ensures Valid() && inner.items == old(inner.items)
      ensures moved <==> old(pos) + 1 <= |inner.items|
      ensures pos == if moved then old(pos) + 1 else old(pos)
    {
      var r := SeekRelative(1);
      moved := r.Some?;
    }

    /** `seek_to_last_item`: the head goes to the last item, or to 0 on an empty tape. */
    method SeekToLastItem()
      requires Valid()
      modifies this
      ensures Valid() && inner.items == old(inner.items)
      ensures pos == LastItemIndex(|inner.items|) && InBounds()
      ensures |inner.items| > 0 ==> pos == |inner.items| - 1
      ensures Resolve(Start(if |inner.items| > 0 then |inner.items| - 1 else 0), |inner.items|, old(pos)) == Some(pos)
    {
      pos := LastItemIndex(inner.Len());
    }

    /** `seek_to_end`: the head goes to the length, where `End(0)` would land. */
    method SeekToEnd()
      requires Valid()
      modifies this
      ensures Valid() && inner.items == old(inner.items)
      ensures pos == |inner.items| && InBounds()
      ensures Resolve(End(0), |inner.items|, old(pos)) == Some(pos)
    {
      pos := inner.Len();
    }

    /** `get_item_at_head`: the item under the head, absent when the head is at or past the end. */
    function GetItemAtHead(): (r: Option<T>)
      reads this, inner
      ensures r.Some? <==> pos < |inner.items|
      ensures r.Some? ==> r.value == inner.items[pos]
    {
      inner.GetItem(pos)
    }

    /** `clear`: empties the tape and puts the head back at 0, wherever it was. */
    method Clear()
      requires Valid()
      modifies this, inner
      ensures Valid() && InBounds()
      ensures inner.items == [] && pos == 0
    {
      inner.Clear();
      pos := 0;
    }

    /** `get_item_at_head_mut`, the write given as `update`; the head does not move and the length does not change. */
    method GetItemAtHeadMut(update: T -> T) returns (present: bool)
      requires Valid()
      modifies inner
      ensures Valid() && pos == old(pos)
      ensures present <==> pos < old(|inner.items|)
      ensures inner.items == if present then old(inner.items[pos := update(inner.items[pos])]) else old(inner.items)
      ensures old(InBounds()) ==> InBounds()
    {
      present := inner.GetItemMut(pos, update);
    }

    /**
     * `set_item_at_head`: inserts at the head, so the new item is under the
     * head and the old ones from the head on move one place up.  The head
     * does not move.
     */
    method SetItemAtHead(item: T)
      requires Valid()
      requires pos <= |inner.items| < USIZE_MAX
      modifies inner
      ensures Valid() && pos == old(pos) && InBounds()
      ensures inner.items == Inserted(old(inner.items), pos, item)
      ensures GetItemAtHead() == Some(item)
    {
      inner.SetItem(pos, item);
    }

    /**
     * `remove_item_at_head`: takes out the item under the head, or returns
     * nothing and changes nothing.  The head does not move, and a head in
     * bounds stays in bounds.
     */
    method RemoveItemAtHead() returns (r: Option<T>)
      requires Valid()
      modifies inner
      ensures Valid() && pos == old(pos)
      ensures r.Some? <==> pos < old(|inner.items|)
      ensures r.Some? ==> r.value == old(inner.items[pos]) && inner.items == Removed(old(inner.items), pos)
      ensures r.None? ==> inner.items == old(inner.items)
      ensures old(InBounds()) ==> InBounds()
    {
      r := inner.RemoveItem(pos);
    }
  }
}
