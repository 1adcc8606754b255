/** The storage of a queue in kernel/queue.c: a ring of fixed-size items in a byte
    array with a write and a read position, and its agreement with the sequence of
    items that the kernel model keeps. */
module ByteQueue {
  import opened Common

  /** n taken round a ring of the given length. */
  function Around(n: nat, length: nat): nat
    requires 0 < length
  {
    if n < length then n else if n < 2 * length then n - length else n - 2 * length
  }

  /** The slot of item i: the read position is one slot before the first. */
  function Slot(r: nat, i: nat, length: nat): nat
    requires 0 < length
  {
    Around(r + 1 + i, length)
  }

  lemma SlotBounds(r: nat, i: nat, length: nat)
    requires r < length && i <= length
    ensures Slot(r, i, length) < length
  {
  }

  lemma SlotsDistinct(r: nat, i: nat, j: nat, length: nat)
    requires r < length && i < j < length
    ensures Slot(r, i, length) != Slot(r, j, length)
  {
  }

  lemma SlotRange(k: nat, size: nat, length: nat)
    requires k < length
    ensures 0 <= k * size && k * size + size <= length * size
  {
    Product(k + 1, length, size);
    assert (k + 1) * size == k * size + size;
  }

  lemma Product(a: nat, b: nat, size: nat)
    requires a <= b
    ensures a * size <= b * size
  {
    assert (b - a) * size >= 0;
    assert b * size == a * size + (b - a) * size;
  }

  lemma Apart(k: nat, j: nat, size: nat)
    requires k != j
    ensures k * size + size <= j * size || j * size + size <= k * size
  {
    if k < j {
      Product(k + 1, j, size);
      assert (k + 1) * size == k * size + size;
    } else {
      Product(j + 1, k, size);
      assert (j + 1) * size == j * size + size;
    }
  }

  /** The bytes of slot k. */
  ghost function Bytes(store: seq<bv8>, k: nat, size: nat): Item
    requires k * size + size <= |store|
  {
    store[k * size..k * size + size]
  }

  /** Every item is where the read position says. */
  ghost predicate Stores(store: seq<bv8>, r: nat, length: nat, size: nat, items: seq<Item>) {
    && r < length && |store| == length * size && |items| <= length
    && forall i :: 0 <= i < |items| ==> Holds(store, r, i, length, size, items[i])
  }

  ghost predicate Holds(store: seq<bv8>, r: nat, i: nat, length: nat, size: nat, item: Item)
    requires r < length && |store| == length * size && i < length
  {
    SlotBounds(r, i, length);
    SlotRange(Slot(r, i, length), size, length);
    |item| == size && Bytes(store, Slot(r, i, length), size) == item
  }

  /** `after` is `store` with the item in slot k. */
  ghost predicate Written(store: seq<bv8>, after: seq<bv8>, k: nat, size: nat, item: Item) {
    && |after| == |store| && k * size + size <= |store| && |item| == size
    && Bytes(after, k, size) == item
    && forall b :: 0 <= b < |store| && !(k * size <= b < k * size + size) ==> after[b] == store[b]
  }

  lemma OtherSlot(store: seq<bv8>, after: seq<bv8>, k: nat, size: nat, item: Item, j: nat)
    requires Written(store, after, k, size, item) && j != k && j * size + size <= |store|
    ensures Bytes(after, j, size) == Bytes(store, j, size)
  {
    Apart(k, j, size);
  }

  lemma KeepsItem(store: seq<bv8>, after: seq<bv8>, k: nat, r: nat, i: nat, length: nat, size: nat, item: Item, x: Item)
    requires r < length && |store| == length * size && i < length && Holds(store, r, i, length, size, item)
    requires Written(store, after, k, size, x) && Slot(r, i, length) != k
    ensures |after| == length * size && Holds(after, r, i, length, size, item)
  {
    SlotBounds(r, i, length);
    SlotRange(Slot(r, i, length), size, length);
    OtherSlot(store, after, k, size, x, Slot(r, i, length));
  }

  /** A new last item. */
  lemma StoreBack(store: seq<bv8>, after: seq<bv8>, r: nat, length: nat, size: nat, items: seq<Item>, x: Item)
    requires Stores(store, r, length, size, items) && |items| < length
    requires Written(store, after, Slot(r, |items|, length), size, x)
    ensures Stores(after, r, length, size, items + [x])
  {
    hide Slot, Written, Holds;
    WrittenLength(store, after, Slot(r, |items|, length), size, x);
    forall i | 0 <= i < |items| + 1 ensures Holds(after, r, i, length, size, (items + [x])[i]) {
      if i < |items| {
        SlotsDistinct(r, i, |items|, length);
        KeepsItem(store, after, Slot(r, |items|, length), r, i, length, size, items[i], x);
      } else {
        WrittenHolds(store, after, r, i, length, size, x);
      }
    }
  }

  lemma WrittenLength(store: seq<bv8>, after: seq<bv8>, k: nat, size: nat, x: Item)
    requires Written(store, after, k, size, x)
    ensures |after| == |store|
  {
  }

  lemma WrittenHolds(store: seq<bv8>, after: seq<bv8>, r: nat, i: nat, length: nat, size: nat, x: Item)
    requires r < length && i < length && |store| == length * size && Written(store, after, Slot(r, i, length), size, x)
    ensures |after| == length * size && Holds(after, r, i, length, size, x)
  {
  }

  /** A new first item: the read position moves back one slot. */
  lemma StoreFront(store: seq<bv8>, after: seq<bv8>, r: nat, length: nat, size: nat, items: seq<Item>, x: Item)
    requires Stores(store, r, length, size, items) && |items| < length && Written(store, after, r, size, x)
    ensures Stores(after, if r == 0 then length - 1 else r - 1, length, size, [x] + items)
  {
    var r' := if r == 0 then length - 1 else r - 1;
    var items' := [x] + items;
    hide Slot, Written, Holds;
    WrittenLength(store, after, r, size, x);
    SlotBack(r, 0, length);
    forall i | 0 <= i < |items'| ensures Holds(after, r', i, length, size, items'[i]) {
      if i == 0 {
        WrittenHolds(store, after, r', 0, length, size, x);
      } else {
        SlotBack(r, i, length);
        assert items'[i] == items[i - 1];
        KeepsItem(store, after, r, r, i - 1, length, size, items[i - 1], x);
        SameSlot(after, r', i, r, i - 1, length, size, items[i - 1]);
      }
    }
  }

  /** Slots seen from one slot further back. */
  lemma SlotBack(r: nat, i: nat, length: nat)
    requires r < length && i < length
    ensures var r' := if r == 0 then length - 1 else r - 1;
            Slot(r', i, length) == (if i == 0 then r else Slot(r, i - 1, length))
              && (i > 0 ==> Slot(r', i, length) != r)
  {
  }

  lemma SameSlot(store: seq<bv8>, r: nat, i: nat, r': nat, i': nat, length: nat, size: nat, item: Item)
    requires r < length && r' < length && i < length && i' < length && |store| == length * size
    requires Slot(r, i, length) == Slot(r', i', length)
    ensures Holds(store, r, i, length, size, item) == Holds(store, r', i', length, size, item)
  {
  }

  /** The first item leaves: the read position moves on to its slot. */
  lemma TakeFront(store: seq<bv8>, r: nat, length: nat, size: nat, items: seq<Item>)
    requires Stores(store, r, length, size, items) && items != []
    ensures var r' := Slot(r, 0, length); r' < length && Stores(store, r', length, size, items[1..])
  {
    var r', rest := Slot(r, 0, length), items[1..];
    forall i | 0 <= i < |rest| ensures Holds(store, r', i, length, size, rest[i]) {
      assert Slot(r', i, length) == Slot(r, i + 1, length);
      assert Holds(store, r, i + 1, length, size, items[i + 1]);
      SameSlot(store, r', i, r, i + 1, length, size, items[i + 1]);
    }
  }

  class Queue {
    const length: nat
    const itemSize: nat
    const store: array<bv8>
    /** Byte positions in the store. */
    var writeTo: nat
    var readFrom: nat
    var waiting: nat
    /** The items in the queue, the first to leave first. */
    ghost var contents: seq<Item>
    ghost var reader: nat

    ghost predicate Valid()
      reads this, store
    {
      && 0 < length && store.Length == length * itemSize && waiting == |contents|
      && (itemSize > 0 ==>
            && readFrom == reader * itemSize && Stores(store[..], reader, length, itemSize, contents)
            && writeTo == Slot(reader, |contents|, length) * itemSize)
      && (itemSize == 0 ==> forall i :: 0 <= i < |contents| ==> contents[i] == [])
    }

    constructor (n: nat, size: nat)
      requires n > 0
      ensures Valid() && length == n && itemSize == size && contents == [] && fresh(store)
    {
      length, itemSize := n, size;
      store := new bv8[n * size];
      writeTo := 0;
      readFrom := (n - 1) * if size > 0 then size else 1;
      waiting, contents, reader := 0, [], n - 1;
    }

    /** The tokens a counting semaphore begins with. */
    method SetCount(n: nat)
      requires Valid() && itemSize == 0
      modifies `waiting, `contents
      ensures Valid() && contents == seq(n, _ => [])
    {
      waiting := n;
      contents := seq(n, _ => []);
    }

    /** memcpy into the store. */
    method Copy(at: nat, item: Item)
      requires at + |item| <= store.Length
      modifies store
      ensures store[at..at + |item|] == item
      ensures forall b :: 0 <= b < store.Length && !(at <= b < at + |item|) ==> store[b] == old(store[b])
    {
      for i := 0 to |item|
        invariant store[at..at + i] == item[..i]
        invariant forall b :: 0 <= b < store.Length && !(at <= b < at + i) ==> store[b] == old(store[b])
      {
        store[at + i] := item[i];
        assert item[..i + 1] == item[..i] + [item[i]];
      }
    }

    /** prvCopyIn at the back. */
    method PutBack(item: Item)
      requires Valid() && |item| == itemSize && |contents| < length
      modifies this, store
      ensures Valid() && contents == old(contents) + [item]
    {
      if itemSize > 0 {
        ghost var k, before := Slot(reader, |contents|, length), store[..];
        SlotBounds(reader, |contents|, length);
        SlotRange(k, itemSize, length);
        Copy(writeTo, item);
        assert Written(before, store[..], k, itemSize, item);
        StoreBack(before, store[..], reader, length, itemSize, contents, item);
        NextSlot(reader, |contents|, length, itemSize);
        hide Stores, Written;
        writeTo := writeTo + itemSize;
        if writeTo >= store.Length {
          writeTo := 0;
        }
      }
      waiting := waiting + 1;
      contents := contents + [item];
    }

    /** prvCopyIn at the front. */
    method PutFront(item: Item)
      requires Valid() && |item| == itemSize && |contents| < length
      modifies this, store
      ensures Valid() && contents == [item] + old(contents)
    {
      if itemSize > 0 {
        ghost var before := store[..];
        SlotRange(reader, itemSize, length);
        Copy(readFrom, item);
        assert Written(before, store[..], reader, itemSize, item);
        StoreFront(before, store[..], reader, length, itemSize, contents, item);
        PreviousSlot(reader, |contents|, length, itemSize);
        hide Stores, Written;
        if readFrom == 0 {
          readFrom := store.Length - itemSize;
        } else {
          readFrom := readFrom - itemSize;
        }
        reader := if reader == 0 then length - 1 else reader - 1;
      }
      waiting := waiting + 1;
      contents := [item] + contents;
    }

    /** prvCopyOut */
    method Take() returns (item: Item)
      requires Valid() && contents != []
      modifies this
      ensures Valid() && item == old(contents)[0] && contents == old(contents)[1..]
    {
      item := [];
      if itemSize > 0 {
        TakeFront(store[..], reader, length, itemSize, contents);
        NextReader(reader, length, itemSize, |contents|);
        assert Holds(store[..], reader, 0, length, itemSize, contents[0]);
        readFrom := readFrom + itemSize;
        if readFrom >= store.Length {
          readFrom := 0;
        }
        reader := Slot(reader, 0, length);
        SlotRange(reader, itemSize, length);
        item := store[readFrom..readFrom + itemSize];
      }
      waiting := waiting - 1;
      contents := contents[1..];
    }
  }

  /** Moving the write position on by one item, and round at the end. */
  lemma NextSlot(r: nat, n: nat, length: nat, size: nat)
    requires r < length && n < length && size > 0
    ensures var next := Slot(r, n, length) * size + size;
            Slot(r, n + 1, length) * size == if next >= length * size then 0 else next
  {
    var k := Slot(r, n, length);
    assert k * size + size == (k + 1) * size;
    if k + 1 < length { Product(k + 2, length, size); assert (k + 2) * size == (k + 1) * size + size; }
  }

  lemma PreviousSlot(r: nat, n: nat, length: nat, size: nat)
    requires r < length && n < length && size > 0
    ensures r * size == 0 <==> r == 0
    ensures var r' := if r == 0 then length - 1 else r - 1;
            && r' * size == (if r == 0 then length * size - size else r * size - size)
            && Slot(r', n + 1, length) == Slot(r, n, length)
  {
    if r > 0 { Product(1, r, size); assert 1 * size == size; assert r * size == (r - 1) * size + size; }
    assert length * size == (length - 1) * size + size;
  }

  lemma NextReader(r: nat, length: nat, size: nat, n: nat)
    requires r < length && size > 0 && 0 < n <= length
    ensures var next := r * size + size;
            Slot(r, 0, length) * size == if next >= length * size then 0 else next
    ensures Slot(Slot(r, 0, length), n - 1, length) == Slot(r, n, length)
  {
    assert r * size + size == (r + 1) * size;
    if r + 1 < length { Product(r + 2, length, size); assert (r + 2) * size == (r + 1) * size + size; }
  }
}
