/** The Sequence class of the lab: a resizable, 1-indexed sequence of integers
    held in an int buffer whose first `length` slots are the items. */
module Lab02 {
  import opened SequenceSpec

  /** Capacity of a Sequence made by the no-argument constructor. */
  const InitialCapacity: nat := 100

  /** `n` unused buffer slots as the runtime leaves them: zero. */
  function Filler(n: nat): (z: seq<int>)
    ensures |z| == n && forall j :: 0 <= j < n ==> z[j] == 0
  {
    seq(n, _ => 0)
  }

  /** A buffer whose first `|e| + 1` slots hold the first `index - 1` items of
      `e`, then `item`, then the rest of `e`, holds `e` with `item` inserted at
      `index`. */
  lemma ShiftedIsInsert(a: array<int>, e: seq<int>, item: int, index: int)
    requires IsGap(e, index) && |e| < a.Length
    requires a[index - 1] == item
    requires forall j :: 0 <= j < index - 1 ==> a[j] == e[j]
    requires forall j :: index <= j <= |e| ==> a[j] == e[j - 1]
    ensures a[..|e| + 1] == InsertAt(e, item, index)
  {
  }

  class Sequence {
    var capacity: nat
    var length: nat
    var items: array<int>

    /** The items, in order: the abstract value of the sequence. */
    ghost var Elements: seq<int>

    /** `capacity` is the buffer's size and at least `length`; the first
        `length` slots hold the items and the rest hold zero. */
    ghost predicate Valid()
      reads this, items
    {
      length <= capacity && capacity == items.Length &&
      Elements == items[..length] &&
      forall j :: length <= j < capacity ==> items[j] == 0
    }

    /** An empty sequence of the initial capacity. */
    constructor ()
      ensures Valid() && fresh(items)
      ensures Elements == [] && capacity == InitialCapacity
    {
      capacity := InitialCapacity;
      length := 0;
      items := new int[InitialCapacity](_ => 0);
      Elements := [];
    }

    /** A sequence holding a copy of `source`, in a buffer of `capacity` slots. */
    constructor FromItems(capacity: nat, source: array<int>)
      requires source.Length <= capacity
      ensures Valid() && fresh(items)
      ensures Elements == source[..] && this.capacity == capacity
    {
      var buffer := new int[capacity](_ => 0);
      var i := 0;
      while i < source.Length
        invariant 0 <= i <= source.Length
        invariant buffer[..i] == source[..i]
        invariant forall j :: source.Length <= j < capacity ==> buffer[j] == 0
      {
        buffer[i] := source[i];
        i := i + 1;
      }
      this.capacity := capacity;
      length := source.Length;
      items := buffer;
      Elements := source[..];
    }

    /** The parameterised constructor: refuses a capacity below the number of
        items, a negative one included, before allocating anything. */
    static method Create(capacity: int, source: array<int>) returns (r: Result<Sequence>)
      ensures r.Err? <==> capacity < source.Length
      ensures r.Err? ==> r.error == CapacityTooSmall
      ensures r.Ok? ==> fresh(r.value) && fresh(r.value.items) && r.value.Valid()
      ensures r.Ok? ==> r.value.Elements == source[..] && r.value.capacity == capacity
    {
      if capacity < source.Length {
        return Err(CapacityTooSmall);
      }
      var s := new Sequence.FromItems(capacity as nat, source);
      return Ok(s);
    }

    function GetLength(): (n: nat)
      reads this, items
      requires Valid()
      ensures n == |Elements|
    {
      length
    }

    function GetCapacity(): (c: nat)
      reads this, items
      requires Valid()
      ensures c == items.Length && |Elements| <= c
    {
      capacity
    }

    /** The item at 1-based `index`, refused unless `1 <= index <= length`. */
    function Get(index: int): (r: Result<int>)
      reads this, items
      requires Valid()
      ensures r == ItemAt(Elements, index)
    {
      if index < 1 || index > length then Err(InvalidIndex) else Ok(items[index - 1])
    }

    /** Puts `item` at 1-based `index`, moving the items from there on one slot
        to the right; a full buffer is doubled first. */
    method Insert(item: int, index: int) returns (outcome: Outcome)
      requires Valid()
      modifies this, items
      ensures Valid()
      ensures Step(outcome, Shape(Elements, capacity)) == InsertStep(Shape(old(Elements), old(capacity)), item, index)
      ensures if outcome != Failed(InvalidIndex) && old(length) == old(capacity)
              then fresh(items) else items == old(items)
    {
      if index < 1 || index > length + 1 {
        return Failed(InvalidIndex);
      }
      ghost var before := Shape(Elements, capacity);
      if length == capacity {
        DoubleArraySize();
      }
      var zeroBasedIndex := index - 1;
      if zeroBasedIndex >= items.Length {
        // the shift moves nothing here, and the write below is out of bounds
        assert InsertStep(before, item, index) == Step(Failed(IndexOutOfBounds), before);
        return Failed(IndexOutOfBounds);
      }
      ghost var e := Elements;
      assert e == before.elements && capacity == GrownCapacity(before.capacity, |e|);
      ShiftRight(zeroBasedIndex);
      items[zeroBasedIndex] := item;
      assert forall j :: length < j < capacity ==> items[j] == 0;
      length := length + 1;
      outcome := Done;
      Elements := InsertAt(e, item, index);
      ShiftedIsInsert(items, e, item, index);
      InsertStepDone(before, item, index);
    }

    /** The copy loop of an insert: moves the items at offsets `from` to
        `length - 1` one slot up, highest offset first, into the free slot at
        `length`. */
    method ShiftRight(from: nat)
      requires Valid() && from <= length < capacity
      modifies items
      ensures forall j :: 0 <= j < from ==> items[j] == Elements[j]
      ensures forall j :: from < j <= length ==> items[j] == Elements[j - 1]
      ensures forall j :: length < j < capacity ==> items[j] == 0
    {
      var i := length - 1;
      while i >= from
        invariant from - 1 <= i <= length - 1
        invariant forall j :: 0 <= j <= i ==> items[j] == old(items[j])
        invariant forall j :: i + 2 <= j <= length ==> items[j] == old(items[j - 1])
        invariant forall j :: length < j < capacity ==> items[j] == old(items[j])
      {
        items[i + 1] := items[i];
        i := i - 1;
      }
    }

    /** Replaces the buffer by one twice the size holding the same items. */
    method DoubleArraySize()
      requires Valid()
      modifies this
      ensures Valid() && fresh(items)
      ensures Elements == old(Elements) && length == old(length)
      ensures capacity == 2 * old(capacity)
    {
      var newCapacity := capacity * 2;
      var newItems := new int[newCapacity](_ => 0);
      var i := 0;
      while i < length
        modifies newItems
        invariant 0 <= i <= length
        invariant newItems[..i] == items[..i]
        invariant forall j :: length <= j < newCapacity ==> newItems[j] == 0
      {
        newItems[i] := items[i];
        i := i + 1;
      }
      items := newItems;
      capacity := newCapacity;
    }

    /** Takes out the item at 1-based `index`, moving the items after it one
        slot to the left and zeroing the slot freed at the end; the buffer is
        halved when no more than a quarter of it is left in use, unless the
        sequence is now empty. */
    method Remove(index: int) returns (outcome: Outcome)
      requires Valid()
      modifies this, items
      ensures Valid()
      ensures Step(outcome, Shape(Elements, capacity)) == RemoveStep(Shape(old(Elements), old(capacity)), index)
      ensures capacity == old(capacity) ==> items == old(items)
      ensures capacity != old(capacity) ==> fresh(items)
      ensures outcome == Done && capacity == old(capacity) ==> items[length] == 0
    {
      if length == 0 {
        return Failed(EmptySequence);
      }
      if index < 1 || index > length {
        return Failed(InvalidIndex);
      }
      var zeroBasedIndex := index - 1;
      ghost var before := Shape(Elements, capacity);
      ShiftLeft(zeroBasedIndex);
      items[length - 1] := 0;
      assert forall j :: length - 1 <= j < capacity ==> items[j] == 0;
      length := length - 1;
      outcome := Done;
      Elements := RemoveAt(before.elements, index);
      assert items[..length] == Elements;
      if length > 0 && length <= capacity / 4 {
        HalveArraySize();
      }
      assert capacity == ShrunkCapacity(before.capacity, length);
    }

    /** The copy loop of a remove: moves the items at offsets `from + 1` to
        `length - 1` one slot down, lowest offset first, over the item at
        `from`. */
    method ShiftLeft(from: nat)
      requires Valid() && from < length
      modifies items
      ensures forall j :: 0 <= j < from ==> items[j] == Elements[j]
      ensures forall j :: from <= j < length - 1 ==> items[j] == Elements[j + 1]
      ensures forall j :: length - 1 <= j < capacity ==> items[j] == old(items[j])
    {
      var i := from;
      while i < length - 1
        invariant from <= i <= length - 1
        invariant forall j :: 0 <= j < from ==> items[j] == Elements[j]
        invariant forall j :: from <= j < i ==> items[j] == Elements[j + 1]
        invariant forall j :: i <= j < capacity ==> items[j] == old(items[j])
      {
        items[i] := items[i + 1];
        i := i + 1;
      }
    }

    /** Replaces the buffer by one half the size holding the same items. */
    method HalveArraySize()
      requires Valid() && length <= capacity / 2
      modifies this
      ensures Valid() && fresh(items)
      ensures Elements == old(Elements) && length == old(length)
      ensures capacity == old(capacity) / 2
    {
      var newCapacity := capacity / 2;
      var newItems := new int[newCapacity](_ => 0);
      var i := 0;
      while i < length
        modifies newItems
        invariant 0 <= i <= length
        invariant newItems[..i] == items[..i]
        invariant forall j :: length <= j < newCapacity ==> newItems[j] == 0
      {
        newItems[i] := items[i];
        i := i + 1;
      }
      items := newItems;
      capacity := newCapacity;
    }

    /** The raw buffer itself, not a copy: the items followed by the zeroed
        unused slots. */
    method ToArray() returns (a: array<int>)
      requires Valid()
      ensures a == items
      ensures a[..] == Elements + Filler(capacity - length)
    {
      a := items;
      assert a[..] == a[..length] + a[length..];
    }
  }

  /** A client run: three inserts into an empty sequence, then gets. */
  method ScenarioInsertAndGet()
  {
    var s := new Sequence();
    var o := s.Insert(5, 1);
    o := s.Insert(3, 1);
    o := s.Insert(9, 2);
    assert s.Elements == [3, 9, 5];
    assert s.Get(2) == Ok(9);
    assert s.Get(0) == Err(InvalidIndex) && s.Get(4) == Err(InvalidIndex);
  }

  /** A client run: a full buffer of two doubles on an append. */
  method ScenarioGrowth()
  {
    var source := new int[2](_ => 7);
    var r := Sequence.Create(2, source);
    var s := r.value;
    var o := s.Insert(1, 3);
    assert o == Done && s.Elements == [7, 7, 1] && s.capacity == 4;
  }

  /** A client run: draining [1, 2, 3, 4] from the front halves the buffer
      once a single item is left in four slots. */
  method ScenarioShrink()
  {
    var source := new int[4](j => j + 1);
    var r := Sequence.Create(4, source);
    var s := r.value;
    assert s.Elements == [1, 2, 3, 4];
    var o := s.Remove(1);
    o := s.Remove(1);
    assert s.Elements == [3, 4] && s.capacity == 4;
    o := s.Remove(1);
    assert o == Done && s.Elements == [4] && s.capacity == 2;
  }
}
