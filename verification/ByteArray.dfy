/** The growing array of Server/server_array.c: items of a fixed size, addressed by bytes. */
module ByteArray {
  import opened Bytes

  type Item = seq<byte>

  function Pow2(k: nat): nat {
    if k == 0 then 1 else 2 * Pow2(k - 1)
  }

  /** The capacity after n pushes into an array that started with capacity c: full arrays double. */
  function CapacityAfter(c: nat, n: nat): nat {
    if n == 0 then c
    else
      var capacity := CapacityAfter(c, n - 1);
      if n - 1 >= capacity then 2 * capacity else capacity
  }

  /** The items those pushes have moved, each reallocation counted as a full move. */
  function MovesAfter(c: nat, n: nat): nat {
    if n == 0 then 0
    else
      var capacity := CapacityAfter(c, n - 1);
      MovesAfter(c, n - 1) + (if n - 1 >= capacity then capacity else 0)
  }

  /** Capacities are the starting one times a power of two, and n pushes together move fewer than 2n items. */
  lemma {:induction false} MovesAreLinear(c: nat, n: nat) returns (k: nat)
    requires 0 < c
    ensures CapacityAfter(c, n) == c * Pow2(k) && n <= CapacityAfter(c, n)
    ensures MovesAfter(c, n) == CapacityAfter(c, n) - c
    ensures CapacityAfter(c, n) == c || CapacityAfter(c, n) < 2 * n
    ensures n > 0 ==> MovesAfter(c, n) < 2 * n
  {
    if n == 0 {
      k := 0;
    } else {
      k := MovesAreLinear(c, n - 1);
      if n - 1 >= CapacityAfter(c, n - 1) {
        k := k + 1;
        DoublePower(c, k);
      }
    }
  }

  lemma DoublePower(c: nat, k: nat)
    requires 0 < k
    ensures 2 * (c * Pow2(k - 1)) == c * Pow2(k)
  {}

  lemma SlotFits(index: nat, capacity: nat, width: nat)
    requires index < capacity
    ensures 0 <= index * width <= (index + 1) * width <= capacity * width
    ensures (index + 1) * width == index * width + width
  {
    MulMonotone(index + 1, capacity, width);
  }

  lemma {:induction false} MulMonotone(x: nat, y: nat, width: nat)
    requires x <= y
    ensures 0 <= x * width <= y * width
  {
    if x < y {
      MulMonotone(x, y - 1, width);
    }
  }

  /** The bytes of item `index`; getIndexAddress is the left end of the slice. */
  function Slot(bytes: seq<byte>, index: nat, capacity: nat, width: nat): Item
    requires index < capacity && |bytes| == capacity * width
  {
    SlotFits(index, capacity, width);
    bytes[index * width..(index + 1) * width]
  }

  function SlotsOf(bytes: seq<byte>, size: nat, capacity: nat, width: nat): (items: seq<Item>)
    requires size <= capacity && |bytes| == capacity * width
  {
    seq(size, i requires 0 <= i < size => Slot(bytes, i, capacity, width))
  }

  /** Growing the buffer, or writing beyond the used items, keeps the used items. */
  lemma SlotsKept(before: seq<byte>, after: seq<byte>, size: nat, capacity: nat, capacity': nat, width: nat)
    requires size <= capacity && size <= capacity' && |before| == capacity * width && |after| == capacity' * width
    requires size * width <= |before| && size * width <= |after|
    requires before[..size * width] == after[..size * width]
    ensures SlotsOf(before, size, capacity, width) == SlotsOf(after, size, capacity', width)
  {
    forall i: nat | i < size ensures Slot(before, i, capacity, width) == Slot(after, i, capacity', width) {
      SlotFits(i, capacity, width);
      SlotFits(i, capacity', width);
      SlotFits(i, size, width);
      assert before[i * width..(i + 1) * width] == before[..size * width][i * width..(i + 1) * width];
      assert after[i * width..(i + 1) * width] == after[..size * width][i * width..(i + 1) * width];
    }
  }

  /** Rewriting one slot changes that item only. */
  lemma SlotsUpdated(before: seq<byte>, after: seq<byte>, size: nat, capacity: nat, width: nat, index: nat, item: Item)
    requires index < size <= capacity && |before| == |after| == capacity * width && |item| == width
    requires Slot(after, index, capacity, width) == item
    requires forall k :: 0 <= k < |before| && !(index * width <= k < (index + 1) * width) ==> after[k] == before[k]
    ensures SlotsOf(after, size, capacity, width) == SlotsOf(before, size, capacity, width)[index := item]
  {
    forall i: nat | i < size && i != index ensures Slot(after, i, capacity, width) == Slot(before, i, capacity, width) {
      SlotFits(i, capacity, width);
      if i < index {
        MulMonotone(i + 1, index, width);
      } else {
        MulMonotone(index + 1, i, width);
      }
    }
  }

  lemma SlotsAppended(before: seq<byte>, after: seq<byte>, size: nat, capacity: nat, width: nat, item: Item)
    requires size < capacity && |before| == |after| == capacity * width
    requires 0 <= size * width <= size * width + width <= capacity * width
    requires after[size * width..size * width + width] == item
    requires after[..size * width] == before[..size * width]
    ensures SlotsOf(after, size + 1, capacity, width) == SlotsOf(before, size, capacity, width) + [item]
  {
    SlotFits(size, capacity, width);
    SlotsKept(before, after, size, capacity, capacity, width);
    assert SlotsOf(after, size + 1, capacity, width)
        == SlotsOf(after, size, capacity, width) + [Slot(after, size, capacity, width)];
  }

  /** memcpy of an item into the buffer. */
  method WriteBytes(data: array<byte>, base: nat, item: Item)
    requires base + |item| <= data.Length
    modifies data
    ensures data[base..base + |item|] == item
    ensures data[..base] == old(data[..base]) && data[base + |item|..] == old(data[base + |item|..])
  {
    var i := 0;
    while i < |item|
      invariant 0 <= i <= |item|
      invariant data[base..base + i] == item[..i]
      invariant data[..base] == old(data[..base]) && data[base + |item|..] == old(data[base + |item|..])
    {
      data[base + i] := item[i];
      i := i + 1;
      assert data[base..base + i] == data[base..base + i - 1] + [item[i - 1]];
    }
  }

  lemma SlotsUntouched(before: seq<byte>, after: seq<byte>, size: nat, capacity: nat, width: nat, index: nat)
    requires size <= index < capacity && |before| == |after| == capacity * width
    requires forall k :: 0 <= k < |before| && !(index * width <= k < (index + 1) * width) ==> after[k] == before[k]
    ensures SlotsOf(after, size, capacity, width) == SlotsOf(before, size, capacity, width)
  {
    MulMonotone(size, index, width);
    MulMonotone(size, capacity, width);
    assert before[..size * width] == after[..size * width];
    SlotsKept(before, after, size, capacity, capacity, width);
  }

  class Array {
    const width: nat
    /** the capacity the array was created with */
    ghost const start: nat
    var size: nat
    var capacity: nat
    var data: array<byte>
    /** items moved by all the reallocations so far, each counted as a full move */
    ghost var moved: nat

    ghost predicate Valid()
      reads this, data
    {
      size <= capacity && data.Length == capacity * width
    }

    /** Only pushes have changed the size and the capacity. */
    ghost predicate Grown()
      reads this
    {
      capacity == CapacityAfter(start, size) && moved == MovesAfter(start, size)
    }

    ghost function Items(): (items: seq<Item>)
      reads this, data
      requires Valid()
      ensures |items| == size
    {
      SlotsOf(data[..], size, capacity, width)
    }

    constructor (width: nat, capacity: nat)
      ensures Valid() && Grown() && fresh(data) && Items() == []
      ensures this.width == width && this.capacity == start == capacity && size == 0
    {
      this.width := width;
      this.start := capacity;
      this.capacity := capacity;
      size, moved := 0, 0;
      data := new byte[capacity * width];
    }

    /** realloc to any capacity: a smaller one is ignored, otherwise a new block holds the old bytes. */
    method Resize(newCapacity: nat)
      requires Valid()
      modifies this
      ensures Valid() && size == old(size) && Items() == old(Items())
      ensures if newCapacity < old(capacity) then capacity == old(capacity) && data == old(data) && moved == old(moved)
              else capacity == newCapacity && fresh(data) && moved == old(moved) + old(capacity)
    {
      hide Slot, SlotsOf;
      if capacity > newCapacity {
        return;
      }
      MulMonotone(capacity, newCapacity, width);
      MulMonotone(size, capacity, width);
      var block := new byte[newCapacity * width];
      WriteBytes(block, 0, data[..]);
      moved := moved + capacity;
      assert block[..][..size * width] == block[0..data.Length][..size * width];
      SlotsKept(data[..], block[..], size, capacity, newCapacity, width);
      data := block;
      capacity := newCapacity;
    }

    /** Appends a copy of the item and returns its index. A zero starting capacity never grows, so it is excluded. */
    method PushBack(item: Item) returns (index: nat)
      requires Valid() && |item| == width && 0 < capacity
      modifies this, data
      ensures Valid() && 0 < capacity && (data == old(data) || fresh(data))
      ensures index == old(size)
      ensures Items() == old(Items()) + [item]
      ensures old(Grown()) ==> Grown()
    {
      hide Slot, SlotsOf;
      index := size;
      ghost var before := Items();
      if index >= capacity {
        Resize(capacity * 2);
      }
      assert SlotsOf(data[..], size, capacity, width) == before;
      SlotFits(index, capacity, width);
      ghost var bytes := data[..];
      WriteBytes(data, index * width, item);
      assert data[..][..index * width] == data[..index * width] && bytes[..index * width] == data[..index * width];
      SlotsAppended(bytes, data[..], index, capacity, width, item);
      size := size + 1;
    }

    /** memcpy out of the array; only the capacity is checked, so a slot beyond the size gives stale bytes. */
    method GetItem(index: nat) returns (item: Item)
      requires Valid() && index < capacity
      ensures item == Slot(data[..], index, capacity, width)
      ensures index < size ==> item == Items()[index]
    {
      SlotFits(index, capacity, width);
      item := data[index * width..(index + 1) * width];
    }

    /** A write through the pointer that arrayUnsafeGetItem returns; again only the capacity is checked. */
    method SetItem(index: nat, item: Item)
      requires Valid() && index < capacity && |item| == width
      modifies data
      ensures Valid() && Slot(data[..], index, capacity, width) == item
      ensures Items() == if index < size then old(Items())[index := item] else old(Items())
    {
      SlotFits(index, capacity, width);
      ghost var bytes := data[..];
      var base := index * width;
      WriteBytes(data, base, item);
      forall k | 0 <= k < data.Length && !(base <= k < base + width) ensures data[k] == bytes[k] {
        if k < base {
          assert data[k] == data[..base][k] && bytes[k] == bytes[..base][k];
        } else {
          assert data[k] == data[base + width..][k - base - width]
              && bytes[k] == bytes[base + width..][k - base - width];
        }
      }
      assert Slot(data[..], index, capacity, width) == item;
      if index < size {
        SlotsUpdated(bytes, data[..], size, capacity, width, index, item);
      } else {
        SlotsUntouched(bytes, data[..], size, capacity, width, index);
      }
    }

    /** arrayGetCopy: an independent array, exactly full. */
    method GetCopy() returns (copy: Array)
      requires Valid()
      ensures fresh(copy) && fresh(copy.data) && copy.Valid() && copy.Items() == Items()
      ensures copy.width == width && copy.capacity == copy.size
    {
      copy := new Array(width, size);
      MulMonotone(size, capacity, width);
      copy.size := size;
      forall k | 0 <= k < size * width {
        copy.data[k] := data[k];
      }
      assert copy.data[..][..size * width] == data[..][..size * width];
      SlotsKept(data[..], copy.data[..], size, capacity, size, width);
    }
  }
}
