# Collection cursor, modelled in Dafny

This project models the cursor of the `michis_cassette_vec` crate. A
`CollectionCursor` wraps an indexable collection (its *tape*, `inner`)
together with a head position `pos`. The head moves with `seek`, which takes a
`SeekFrom` directive:

- `Start(p)` means index `p`.
- `End(k)` means the length plus `k`.
- `Current(k)` means the head plus `k`.

A seek succeeds only when the target lies in `[0, len]`. When it fails, nothing
changes. The additions use `checked_add_signed`, so an overflow is a failure.
The crate also has derived seeks, `clamp_to_collection_bounds`, the head
operations, and adapters that make `Vec<T>` and `VecDeque<T>` usable as tapes.

Files:

- `wrappers.dfy`: `Option`.
- `machine_words.dfy`: `usize` and `isize` as 64-bit bounded integers.
  `checked_add_signed` is computed the way the standard library computes it:
  a wrapping add of the reinterpreted offset, then an xor of the carry with the
  offset's sign. Its contract is the exact-arithmetic meaning.
- `tapes.dfy` (for `src/tapelike_impls.rs`):
  - The sequence functions `Inserted` and `Removed`.
  - The standard containers' `remove`.
  - The two adapters' `remove_item`, and the lemmas relating these.
  - The class `SeqTape`: a sequence-backed tape whose methods change its `items` in place. Its `backing` (`Vec` or `VecDeque`) selects which adapter's `remove_item` runs.
- `cursor.dfy` (for `src/lib.rs`):
  - `SeekFrom`.
  - The pure candidate computation `Candidate`, and `Resolve`, the specification of `seek`.
  - `Clamped` and `LastItemIndex`, and the lemmas about seeking.
  - The class `CollectionCursor`, whose methods update `pos` and the tape. Each method's contract ties its effect to those functions.
- `cursor_tests.dfy`: the crate's unit tests and a few further scenarios, as
  client methods. Their postconditions are the expected outcomes, proved from the
  contracts alone.

Behaviour of the code that is easy to misread, and that the model keeps:

- The Vec and VecDeque adapters' `set_item` **inserts**: it shifts later items and grows the tape. It does not overwrite.
- `seek_to_start`, `seek_to_end` and `seek_to_last_item` assign `pos` directly rather than calling `seek`. Their contracts prove they land where `Start(0)`, `End(0)` and `Start(len - 1)`/`Start(0)` would land.
- `Current(0)` fails when the head has drifted past the end. It is not always a no-op success (`SeekCurrentZero`).
- `src/tapelike_impls.rs` names the capability traits `TapeLike`/`TapeLikeMut`. These are older names for `IndexableCollection`/`IndexableCollectionMut`. The model treats them as one contract.

## Model

| member | source | states |
|---|---|---|
| `MachineWords.CheckedAddSigned` | src/lib.rs:80-81 | the checked signed add is present exactly when `a + k` lies in `[0, usize::MAX]`, and is then `a + k`: overflow and underflow are failures, never wrapped values |
| `MachineWords.CheckedSub` | src/lib.rs:113 | `checked_sub` is present exactly when `b <= a`, and is then `a - b` |
| `Tapes.Inserted` | src/tapelike_impls.rs:24-26 | inserting at `i` grows the contents by one; the new item is at `i`, earlier items stay, later items move one place up |
| `Tapes.Removed` | src/tapelike_impls.rs:28-30 | removing at `i` shrinks the contents by one; earlier items stay, later items move one place down |
| `Tapes.VecRemoveItem` | src/tapelike_impls.rs:28-30 | the `Vec` adapter returns the item at `i` and the shifted contents when `i < len`; otherwise it returns none and leaves the contents unchanged |
| `Tapes.DequeRemoveItem` | src/tapelike_impls.rs:58-60 | the `VecDeque` adapter gives the same outcome through the container's own `Option` |
| `Tapes.RemoveAdaptersAgree` | src/tapelike_impls.rs:7-65 | the `Vec` and `VecDeque` adapters remove identically on every sequence and index |
| `Tapes.RemoveUndoesInsert` | src/tapelike_impls.rs:24-30 | removing at the index just inserted at returns the inserted item and restores the old contents |
| `Tapes.InsertUndoesRemove` | src/tapelike_impls.rs:24-30 | inserting a removed item back at its index restores the contents |
| `Tapes.SeqTape.Len` | src/tapelike_impls.rs:10-12 | `len` is the number of items |
| `Tapes.SeqTape.GetItem` | src/tapelike_impls.rs:14-16 | `get_item(i)` is present exactly when `i < len`, and is then item `i` |
| `Tapes.SeqTape.GetItemMut` | src/tapelike_impls.rs:20-22 | `get_item_mut(i)` finds an item exactly when `i < len`; a write through it changes only item `i`, and otherwise nothing changes |
| `Tapes.SeqTape.SetItem` | src/tapelike_impls.rs:24-26 | `set_item(i, x)` makes the contents `Inserted(old, i, x)`; an index past the end is excluded because the container panics on it |
| `Tapes.SeqTape.RemoveItem` | src/tapelike_impls.rs:28-30 | `remove_item(i)` returns item `i` and shifts the rest down when `i < len`; otherwise it returns none and changes nothing, for either backing |
| `Tapes.SeqTape.Clear` | src/tapelike_impls.rs:32-34 | `clear` leaves no items |
| `Cursor.Candidate` | src/lib.rs:78-82 | the candidate is present exactly when the exact target (`p`, `len + k` or `pos + k`) is a `usize`, and is then that target |
| `Cursor.Resolve` | src/lib.rs:75-87 | a seek succeeds exactly when the exact target lies in `[0, len]`, and then yields that target; overflow never hides a reachable position or admits an unreachable one |
| `Cursor.Clamped` | src/lib.rs:89-93 | the clamped head is at most the length and at most the old head, and equals one of them |
| `Cursor.LastItemIndex` | src/lib.rs:112-114 | the last-item index is `len - 1`, or 0 for an empty tape |
| `Cursor.SeekStart` | src/lib.rs:79 | `Start(p)` yields `Some(p)` iff `p <= len`, else `None`, whatever the head |
| `Cursor.SeekEnd` | src/lib.rs:80 | `End(k)` yields `Some(len + k)` iff `0 <= len + k <= len`, else `None`; `End(0)` always yields `len` |
| `Cursor.SeekCurrent` | src/lib.rs:81 | `Current(k)` yields `Some(pos + k)` iff `0 <= pos + k <= len`, else `None` |
| `Cursor.SeekCurrentZero` | src/lib.rs:81-86 | `Current(0)` keeps an in-bounds head and fails on a head past the end |
| `Cursor.WrappedCandidateRejected` | src/lib.rs:81 | from `usize::MAX`, `Current(2)` would wrap to 1, inside any non-empty tape, yet the seek fails |
| `Cursor.SeekLandingIsStable` | src/lib.rs:84-86 | where a successful seek lands, `Current(0)` and `Start` of that position succeed and land again |
| `Cursor.ClampIdempotent` | src/lib.rs:89-93 | clamping twice equals clamping once |
| `Cursor.ClampKeepsInBounds` | src/lib.rs:89-93 | clamping an in-bounds head leaves it unchanged |
| `Cursor.LastItemIsSeekable` | src/lib.rs:112-114 | the last-item index is where `Start` of it lands, and for a non-empty tape where `End(-1)` lands |
| `Cursor.CollectionCursor.constructor` | src/lib.rs:25-30 | `new` wraps exactly the given tape with the head at 0, in bounds |
| `Cursor.CollectionCursor.Position` | src/lib.rs:36-38 | `position` is the head, which is within the tape whenever the soft invariant holds |
| `Cursor.CollectionCursor.GetRef` | src/lib.rs:41-43 | `get_ref` is the wrapped tape |
| `Cursor.CollectionCursor.GetMut` | src/lib.rs:56-58 | `get_mut` hands out the wrapped tape itself, which the caller may then change |
| `Cursor.CollectionCursor.IntoInner` | src/lib.rs:60-62 | `into_inner` gives back the wrapped tape with its current contents |
| `Cursor.CollectionCursor.Seek` | src/lib.rs:75-87 | `seek` returns `Resolve` of the directive; on success the head is the result and in bounds, even if it was out of bounds before; on failure the head is unchanged; the tape is never changed |
| `Cursor.CollectionCursor.ClampToCollectionBounds` | src/lib.rs:89-93 | the head becomes `min(pos, len)`: back in bounds, unchanged when already in bounds, tape unchanged |
| `Cursor.CollectionCursor.SeekToStart` | src/lib.rs:95-97 | the head becomes 0, where `Start(0)` lands |
| `Cursor.CollectionCursor.SeekBackwardOne` | src/lib.rs:99-101 | moves back one, and reports true, exactly when `1 <= pos <= len + 1`; otherwise nothing changes |
| `Cursor.CollectionCursor.SeekRelative` | src/lib.rs:104-106 | succeeds exactly when `0 <= pos + offset <= len`, then the head is `pos + offset`; otherwise nothing changes |
| `Cursor.CollectionCursor.SeekForwardOne` | src/lib.rs:108-110 | moves forward one, and reports true, exactly when `pos + 1 <= len`; otherwise nothing changes |
| `Cursor.CollectionCursor.SeekToLastItem` | src/lib.rs:112-114 | the head becomes `len - 1`, or 0 on an empty tape, where the matching `Start` lands |
| `Cursor.CollectionCursor.SeekToEnd` | src/lib.rs:116-118 | the head becomes `len`, where `End(0)` lands |
| `Cursor.CollectionCursor.GetItemAtHead` | src/lib.rs:123-125 | the item under the head is present exactly when `pos < len` |
| `Cursor.CollectionCursor.Clear` | src/lib.rs:130-133 | the tape becomes empty and the head becomes 0, wherever it was |
| `Cursor.CollectionCursor.GetItemAtHeadMut` | src/lib.rs:135-137 | a write at the head changes only the item under the head, and only when one is there; the head does not move |
| `Cursor.CollectionCursor.SetItemAtHead` | src/lib.rs:139-141 | the new item is inserted under the head, later items shift up, and the head does not move and stays in bounds |
| `Cursor.CollectionCursor.RemoveItemAtHead` | src/lib.rs:143-145 | the item under the head is taken out and the rest shift down, or nothing changes; the head does not move, and a head in bounds stays in bounds |
| `CursorTests.TestItems` | src/lib.rs:216-224 | the test vector has ten items |
| `CursorTests.NewAndIntoInner` | src/lib.rs:239-275 | a new cursor is at 0, and `get_ref` and `into_inner` give back exactly the vector it was made from |
| `CursorTests.PositionRows` | src/lib.rs:247-257 | `position` reads back 0, 5 and `usize::MAX` as the head is set to them |
| `CursorTests.SeekStartRows` | src/lib.rs:301-304 | `Start(3)` and `Start(0)` return and land on 3 and 0 |
| `CursorTests.SeekCurrentRows` | src/lib.rs:306-309 | `Current(0, 7, -2, -5)` from 0 return and land on 0, 7, 5, 0 |
| `CursorTests.SeekEndRows` | src/lib.rs:311-314 | `End(0, -1, -5, -10)` return and land on 10, 9, 5, 0 |
| `CursorTests.SeekOutOfBounds` | src/lib.rs:316-333 | from 7, every seek 20 past either end returns none and leaves the head at 7 |
| `CursorTests.ClampRows` | src/lib.rs:336-350 | a head at `usize::MAX` is out of bounds and clamps to 10; a head at 2 stays at 2 |
| `CursorTests.EndThenStartRoundTrip` | src/lib.rs:95-118 | seeking to the end and then to the start lands on 0, and `into_inner` gives back the original vector |
| `CursorTests.ShrinkThenClamp` | src/lib.rs:45-58 | emptying the tape through `get_mut` strands the head at 10. There, nothing can be read and `Current(0)` fails. Clamping brings the head back to 0 |
| `CursorTests.HeadOperations` | src/lib.rs:123-145 | on `[1, 2, 3]` with the head at 1, setting 9 gives `[1, 9, 2, 3]`. Removing gives back 9 and `[1, 2, 3]`. Clearing puts the head at 0 |

## Left out

- The capability traits `IndexableCollection`/`IndexableCollectionMut` are not modelled as abstract interfaces. Dafny traits are not used here. The cursor is written over the sequence-backed `SeqTape`, which implements both traits for `Vec` and `VecDeque`. Other implementors are not covered.
- The `GenericArray` adapter in `src/trait_impls_by_crate/generic_array.rs` is not part of this model. Its bodies come from forwarding macros that are not available. Its `len` is the constant `N::USIZE`.
- The derived `Clone`, `Debug`, `Default`, `Hash`, `PartialEq`, `Eq`, `PartialOrd` and `Ord` impls are not modelled. Neither are the optional `serde` derives. They are boilerplate.
- Rust ownership and borrowing are not modelled. `get_ref` and `get_mut` both return the tape object. `into_inner` does not consume the cursor, and a caller may keep an alias to the tape passed to `new`.
- `Cursor.CollectionCursor.GetItemAtHeadMut` (and `Tapes.SeqTape.GetItemMut`) does not return a mutable reference. The caller's write through that reference is given as a function `update` applied to the item.
- `usize` and `isize` are fixed at 64 bits. Targets with other pointer widths are not modelled.
- `Tapes.SeqTape.SetItem` and `Cursor.CollectionCursor.SetItemAtHead` require an index at most the length and a length below `usize::MAX`. This is because `Vec::insert` and `VecDeque::insert` panic otherwise. The panic itself is not modelled.
- Memory allocation failure is not modelled.
