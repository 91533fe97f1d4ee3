/**
 * The sequence-backed collections a cursor can wrap: the adapters that make
 * `Vec<T>` and `VecDeque<T>` indexable and mutably indexable.  Both are a
 * sequence of items; what the adapters fix is the meaning of each capability
 * on that sequence (`set_item` inserts, `remove_item` shifts, `clear` empties).
 */
module Tapes {
  import opened Wrappers
  import opened MachineWords

  /** Which standard container backs a tape; only `remove_item` is written differently for the two. */
  datatype Backing = VecBacking | DequeBacking

  // ---------------------------------------------------------------------------
  // What the standard containers do to their contents

  /** The contents after inserting `x` at `i`: later items move one place up. */
  function Inserted<T>(s: seq<T>, i: nat, x: T): (r: seq<T>)
    requires i <= |s|
    ensures |r| == |s| + 1
    ensures r[i] == x
    ensures forall j :: 0 <= j < i ==> r[j] == s[j]
    ensures forall j :: i < j < |r| ==> r[j] == s[j - 1]
  {
    s[..i] + [x] + s[i..]
  }

  /** The contents after taking out the item at `i`: later items move one place down. */
  function Removed<T>(s: seq<T>, i: nat): (r: seq<T>)
    requires i < |s|
    ensures |r| == |s| - 1
    ensures forall j :: 0 <= j < i ==> r[j] == s[j]
    ensures forall j :: i <= j < |r| ==> r[j] == s[j + 1]
  {
    s[..i] + s[i + 1..]
  }

  /** `Vec::remove`: defined only for an index in range (it panics otherwise). */
  function VecRemove<T>(s: seq<T>, i: nat): (r: (T, seq<T>))
    requires i < |s|
  {
    (s[i], Removed(s, i))
  }

  /** `VecDeque::remove`: absent for an index out of range. */
  function DequeRemove<T>(s: seq<T>, i: nat): (r: Option<(T, seq<T>)>)
  {
    if i < |s| then Some((s[i], Removed(s, i))) else None
  }

  /** The `Vec` adapter's `remove_item`: bounds-check first, then `Vec::remove`. */
  function VecRemoveItem<T>(s: seq<T>, i: nat): (r: (Option<T>, seq<T>))
    ensures r.0.Some? <==> i < |s|
    ensures r.0.Some? ==> r.0.value == s[i] && r.1 == Removed(s, i)
    ensures r.0.None? ==> r.1 == s
  {
    if i < |s| then
      var (item, rest) := VecRemove(s, i);
      (Some(item), rest)
    else
      (None, s)
  }

  /** The `VecDeque` adapter's `remove_item`: forwards to `VecDeque::remove`. */
  function DequeRemoveItem<T>(s: seq<T>, i: nat): (r: (Option<T>, seq<T>))
    ensures r.0.Some? <==> i < |s|
    ensures r.0.Some? ==> r.0.value == s[i] && r.1 == Removed(s, i)
    ensures r.0.None? ==> r.1 == s
  {
    match DequeRemove(s, i)
    case Some((item, rest)) => (Some(item), rest)
    case None => (None, s)
  }

  // ---------------------------------------------------------------------------
  // Properties of the adapters

  /** The two adapters remove alike, although one checks the bound itself and the other relies on the container. */
  lemma RemoveAdaptersAgree<T>(s: seq<T>, i: nat)
    ensures VecRemoveItem(s, i) == DequeRemoveItem(s, i)
  {
  }

  /** Removing at the index just inserted at gives back the item and the old contents. */
  lemma RemoveUndoesInsert<T>(s: seq<T>, i: nat, x: T)
    requires i <= |s|
    ensures VecRemoveItem(Inserted(s, i, x), i) == (Some(x), s)
  {
    var t := Inserted(s, i, x);
    assert Removed(t, i) == s;
  }

  /** Inserting a removed item back where it was restores the contents. */
  lemma InsertUndoesRemove<T>(s: seq<T>, i: nat)
    requires i < |s|
    ensures Inserted(Removed(s, i), i, s[i]) == s
  {
  }

  // ---------------------------------------------------------------------------
  // A tape: the collection object a cursor owns

  class SeqTape<T> {
    const backing: Backing
    var items: seq<T>

    /** A container never holds more items than `usize` can count. */
    ghost predicate Valid()
      reads this
    {
      |items| <= USIZE_MAX
    }

    constructor (backing: Backing, items: seq<T>)
      requires |items| <= USIZE_MAX
      ensures Valid()
      ensures this.backing == backing && this.items == items
    {
      this.backing := backing;
      this.items := items;
    }

    /** `len`: the number of items held. */
    function Len(): (n: usize)
      requires Valid()
      reads this
      ensures n == |items|
    {
      |items|
    }

    /** `get_item`: the item at `index`, present exactly when `index` is below the length. */
    function GetItem(index: usize): (r: Option<T>)
      reads this
      ensures r.Some? <==> index < |items|
      ensures r.Some? ==> r.value == items[index]
    {
      if index < |items| then Some(items[index]) else None
    }

    /**
     * `get_item_mut`, with the caller's write through the returned reference
     * given as `update`: when an item is present it becomes `update` of itself.
     */
    method GetItemMut(index: usize, update: T -> T) returns (present: bool)
      requires Valid()
      modifies this
      ensures Valid()
      ensures present <==> index < old(|items|)
      ensures items == if present then old(items[index := update(items[index])]) else old(items)
    {
      present := index < |items|;
      if present {
        items := items[index := update(items[index])];
      }
    }

    /**
     * `set_item`: inserts (it does not overwrite), growing the tape by one.
     * The container panics on an index past the end or on a full length, so
     * both are demanded of the caller.
     */
    method SetItem(index: usize, item: T)
      requires Valid()
      requires index <= |items| < USIZE_MAX
      modifies this
      ensures Valid()
      ensures items == Inserted(old(items), index, item)
    {
      items := Inserted(items, index, item);
    }

    /** `remove_item`: the item at `index` taken out, or absent with nothing changed. */
    method RemoveItem(index: usize) returns (r: Option<T>)
      requires Valid()
      modifies this
      ensures Valid()
      ensures r.Some? <==> index < old(|items|)
      ensures r.Some? ==> r.value == old(items[index]) && items == Removed(old(items), index)
      ensures r.None? ==> items == old(items)
    {
      match backing
      case VecBacking =>
        r, items := VecRemoveItem(items, index).0, VecRemoveItem(items, index).1;
      case DequeBacking =>
        r, items := DequeRemoveItem(items, index).0, DequeRemoveItem(items, index).1;
    }

    /** `clear`: no items remain. */
    method Clear()
      modifies this
      ensures Valid()
      ensures items == []
    {
      items := [];
    }
  }
}
