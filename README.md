# Sequence (IDATA2302 Lab02) in Dafny

A model of the lab's `Sequence` class: a resizable sequence of `int` items,
indexed from 1, stored in the first `length` slots of an `int[]` buffer of
`capacity` slots. An insert at a full buffer first doubles it; a remove that
leaves a non-empty sequence using at most a quarter of the buffer halves it.
Out-of-range indices, a remove from an empty sequence and a capacity below the
initial item count are refused.

The project has two modules.

- `SequenceSpec` (`sequence_spec.dfy`) is the abstract view. A `Shape` is the
  items in order plus the capacity. `InsertStep` and `RemoveStep` give the
  outcome and the new shape of one call, including the grow and shrink policy
  (`GrownCapacity`, `ShrunkCapacity`) and every error case. `Run` plays a list
  of calls. The lemmas state what holds across calls: the capacity bound, the
  length count, and the insert/remove round trips.
- `Lab02` (`sequence.dfy`) is the class itself. `Sequence` keeps the
  source's three fields (the buffer as an `array<int>`) and a ghost field
  `Elements` holding the abstract items. `Valid()` ties them together: the buffer has
  `capacity` slots, its first `length` slots are `Elements`, and the unused
  slots hold zero, as a freshly allocated Java array and the zeroing in
  `remove` leave them. Each mutating method carries the source's loops with
  their invariants. Its `ensures` equates the new abstract shape and the
  outcome with the step function applied to the old shape.

Exceptions become values: the mutating methods return an `Outcome`, `Get`
returns a `Result`, and the two-argument constructor is the factory method
`Create`, which returns `Err(CapacityTooSmall)` where the source throws.

A capacity of 0 doubles to 0 (`Sequence.java:89`), and the write at line 84
then falls outside the empty buffer, which ends in an array-bounds exception.
The model reports this as `Failed(IndexOutOfBounds)` with the items and
capacity unchanged, and `InsertStep` states that an insert at a valid index
succeeds exactly when the capacity is positive.

## Model

| member | source | states |
|---|---|---|
| SequenceSpec.InsertAt | src/main/java/no/ntnu/idata2302/lab02/Sequence.java:79-85 | the result is one longer, holds `item` at `index`, the items before it unchanged and the items from `index` on one place to the right |
| SequenceSpec.RemoveAt | src/main/java/no/ntnu/idata2302/lab02/Sequence.java:112-117 | the result is one shorter, the items before `index` unchanged and the items after it one place to the left |
| SequenceSpec.GrownCapacity | src/main/java/no/ntnu/idata2302/lab02/Sequence.java:76-78 | the capacity is kept when there is a free slot and doubled when the buffer is full, so a positive capacity always leaves room for one more item |
| SequenceSpec.ShrunkCapacity | src/main/java/no/ntnu/idata2302/lab02/Sequence.java:118-120 | the capacity is kept or halved; it shrinks exactly when the new length is positive and at most a quarter of the capacity; an empty sequence never shrinks; after a shrink the buffer is at least twice the length |
| SequenceSpec.InsertStep | src/main/java/no/ntnu/idata2302/lab02/Sequence.java:72-86 | a failure changes nothing; `InvalidIndex` exactly when the index is outside 1..length+1; success exactly for a valid index and a positive capacity; on success the items are `InsertAt` of the old ones and the capacity doubles exactly when the buffer was full; the capacity bound is preserved |
| SequenceSpec.RemoveStep | src/main/java/no/ntnu/idata2302/lab02/Sequence.java:105-121 | a failure changes nothing; `EmptySequence` exactly for an empty sequence; `InvalidIndex` exactly for a non-empty sequence and an index outside 1..length; success exactly for an index in 1..length; on success the items are `RemoveAt` of the old ones, the capacity is halved exactly when the new length is positive and at most a quarter of it, and otherwise kept; the capacity bound is preserved |
| SequenceSpec.ItemAt | src/main/java/no/ntnu/idata2302/lab02/Sequence.java:60-65 | a get succeeds exactly for an index in 1..length and otherwise fails with `InvalidIndex` |
| SequenceSpec.RunKeepsFits | src/main/java/no/ntnu/idata2302/lab02/Sequence.java:72-132 | `length <= capacity` holds after any sequence of inserts and removes, failed ones included |
| SequenceSpec.RunLength | src/main/java/no/ntnu/idata2302/lab02/Sequence.java:72-121 | after a run of calls that all succeed, the length is the starting length plus the inserts minus the removes |
| SequenceSpec.InsertThenRemove | src/main/java/no/ntnu/idata2302/lab02/Sequence.java:72-121 | a remove at the index just inserted at succeeds and gives back the original items |
| SequenceSpec.RemoveThenInsert | src/main/java/no/ntnu/idata2302/lab02/Sequence.java:105-117 | inserting a removed item back at its index restores the items |
| SequenceSpec.GetAfterInsert | src/main/java/no/ntnu/idata2302/lab02/Sequence.java:60-85 | after a successful insert, a get at that index returns the item, gets before it are unchanged and the old items are found one index further on |
| Lab02.Sequence.constructor | src/main/java/no/ntnu/idata2302/lab02/Sequence.java:24-26 | a new empty sequence with capacity 100 and a fresh, zeroed buffer |
| Lab02.Sequence.FromItems | src/main/java/no/ntnu/idata2302/lab02/Sequence.java:32-37 | the copy loop: the sequence holds the given items in a fresh buffer of the given capacity |
| Lab02.Sequence.Create | src/main/java/no/ntnu/idata2302/lab02/Sequence.java:28-38 | fails with `CapacityTooSmall` exactly when the capacity is below the item count, a negative capacity included; otherwise a fresh valid sequence holding the given items at the given capacity |
| Lab02.Sequence.GetLength | src/main/java/no/ntnu/idata2302/lab02/Sequence.java:43-45 | the length field is the number of items |
| Lab02.Sequence.GetCapacity | src/main/java/no/ntnu/idata2302/lab02/Sequence.java:50-52 | the capacity is the buffer size and at least the number of items |
| Lab02.Sequence.Get | src/main/java/no/ntnu/idata2302/lab02/Sequence.java:60-65 | the buffer read agrees with `ItemAt` on the abstract items, the error case included |
| Lab02.Sequence.Insert | src/main/java/no/ntnu/idata2302/lab02/Sequence.java:72-86 | keeps the invariant, and the outcome and new items and capacity are `InsertStep` of the old ones; the buffer is replaced exactly when a valid insert met a full buffer |
| Lab02.Sequence.ShiftRight | src/main/java/no/ntnu/idata2302/lab02/Sequence.java:81-83 | the insert's shift loop: items before the gap stay, items from the gap on move up one slot, the unused slots stay zero |
| Lab02.Sequence.DoubleArraySize | src/main/java/no/ntnu/idata2302/lab02/Sequence.java:88-97 | a fresh buffer of twice the capacity holding the same items, invariant kept |
| Lab02.Sequence.Remove | src/main/java/no/ntnu/idata2302/lab02/Sequence.java:105-121 | keeps the invariant, and the outcome and new items and capacity are `RemoveStep` of the old ones; the buffer is replaced exactly when the capacity changed, and otherwise the freed slot is zeroed |
| Lab02.Sequence.ShiftLeft | src/main/java/no/ntnu/idata2302/lab02/Sequence.java:113-115 | the remove's shift loop: items before the index stay, the items after it move down one slot, the last item's slot and those after it are untouched |
| Lab02.Sequence.HalveArraySize | src/main/java/no/ntnu/idata2302/lab02/Sequence.java:123-132 | a fresh buffer of half the capacity holding the same items, invariant kept |
| Lab02.Sequence.ToArray | src/main/java/no/ntnu/idata2302/lab02/Sequence.java:171-173 | returns the buffer itself, which holds the items followed by zeroes up to the capacity |

## Left out

- `search`, `extrema` and `hasDuplicate` are stubs that only throw "not yet implemented" (`Sequence.java:141-165`); there is no behaviour to model.
- Lab02.Sequence.DoubleArraySize: does not model 32-bit overflow of `capacity * 2`, because capacities are unbounded `nat`; in Java a capacity of 2^30 or more wraps to a negative or zero value, and a negative one makes the allocation at line 90 throw.
- Lab02.Sequence.ToArray: states that the returned array is the buffer itself, but not what later writes through that alias by a client do to the sequence.
- Exception messages are modelled only as `Error` kinds, not as text.
- The shifting loops of `insert` and `remove` are their own methods, `ShiftRight` and `ShiftLeft`, called where the loops stand; the loop bodies are those of the source.
- The client scenario methods at the end of `sequence.dfy` are worked examples and model no source lines.
