/** The intrusive circular doubly-linked list of kernel/list.c on real nodes.
    Every method is proved against the operation of the same name on `Ring`. */
module Lists {
  import opened Rings

  /** What a list item is: the end marker of a list, or one of a task's two items. */
  datatype Kind = Sentinel | StateItem | EventItem

  /** ListItem_t. `owner` is the handle of the owning task. */
  class ListItem {
    ghost const kind: Kind
    var value: nat
    var next: ListItem?
    var prev: ListItem?
    var owner: nat
    var container: List?

    /** vListInitialiseItem */
    constructor (ghost k: Kind)
      ensures container == null && next == null && prev == null && value == 0 && owner == 0 && kind == k
    {
      kind := k;
      value, next, prev, owner, container := 0, null, null, 0, null;
    }
  }

  /** List_t: count, cursor and sentinel. The ghost fields name the ring of
      nodes, sentinel first, and the cursor's position on it. */
  class List {
    var count: nat
    var index: ListItem
    const end: ListItem
    ghost var nodes: seq<ListItem>
    ghost var cursor: nat

    /** The sequence this list represents. */
    ghost function View(): Ring<ListItem>
      requires nodes != []
      reads this
    {
      Ring(nodes[1..], cursor)
    }

    /** Next and previous are inverse along the whole ring, the count and every
        item's container are exact, and the cursor is a node of the ring. */
    ghost predicate Valid()
      reads this, end, nodes
    {
      && 0 < |nodes| && nodes[0] == end && count == |nodes| - 1
      && Distinct(nodes)
      && Linked(nodes)
      && cursor < |nodes| && index == nodes[cursor]
      && end.container == null && end.value == MaxDelay
      && forall i :: 0 < i < |nodes| ==> nodes[i].container == this
    }

    /** vListInitialise */
    constructor ()
      ensures Valid() && fresh(end) && nodes == [end] && cursor == 0 && end.kind.Sentinel?
    {
      var e := new ListItem(Sentinel);
      end := e;
      index := e;
      count := 0;
      nodes, cursor := [e], 0;
      new;
      end.value := MaxDelay;
      end.next := end;
      end.prev := end;
    }

    /** The four link writes shared by both insertions, and the bookkeeping. */
    method LinkWrites(item: ListItem, p: ListItem, q: ListItem, ghost k: nat)
      requires Valid() && item.container == null && item != end
      requires k < |nodes| && p == nodes[k] && q == nodes[Succ(k, |nodes|)]
      modifies this`count, item`next, item`prev, item`container, nodes`next, nodes`prev
      ensures count == old(count) + 1
      ensures LinkedBut(nodes, k, Succ(k, |nodes|))
      ensures item.next == q && item.prev == p && p.next == item && q.prev == item
      ensures item !in nodes && item.container == this
      ensures forall i :: 0 < i < |nodes| ==> nodes[i].container == this
    {
      item.next := q;
      item.prev := p;
      p.next := item;
      q.prev := item;
      item.container := this;
      count := count + 1;
    }

    /** Link `item` between p and its successor q. */
    method Link(item: ListItem, p: ListItem, q: ListItem, ghost k: nat)
      requires Valid() && item.container == null && item != end
      requires k < |nodes| && p == nodes[k] && q == nodes[Succ(k, |nodes|)]
      modifies this`count, this`nodes, this`cursor, item`next, item`prev, item`container
      modifies nodes`next, nodes`prev
      ensures Valid() && item.container == this
      ensures nodes == SpliceIn(old(nodes), k + 1, item)
      ensures cursor == if k < old(cursor) then old(cursor) + 1 else old(cursor)
    {
      LinkWrites(item, p, q, k);
      ghost var before := nodes;
      SplicedCursor(nodes, cursor, k, item);
      nodes := SpliceIn(nodes, k + 1, item);
      cursor := if k < cursor then cursor + 1 else cursor;
      SplicedDistinct(before, k + 1, item);
      Spliced(this, before, k, item);
    }

    /** vListInsertEnd: the item goes in front of the cursor. */
    method InsertEnd(item: ListItem)
      requires Valid() && item.container == null && item != end
      modifies this`count, this`nodes, this`cursor, item`next, item`prev, item`container
      modifies nodes`next, nodes`prev
      ensures Valid() && View() == EndInsert(old(View()), item)
      ensures item.container == this
    {
      ghost var k := Pred(cursor, |nodes|);
      assert index.prev == nodes[k] && index == nodes[Succ(k, |nodes|)];
      EndInsertNodes(nodes, cursor, item);
      Link(item, index.prev, index, k);
    }

    /** The ordering keys of the items, in ring order. */
    ghost function Keys(): seq<nat>
      requires nodes != []
      reads this, nodes
    {
      seq(|nodes| - 1, i requires 0 <= i < |nodes| - 1 reads this, nodes => nodes[i + 1].value)
    }

    /** vListInsert's walk. The sentinel's key ends it at the latest after the
        last item, whatever the items' keys are. */
    method FindInsertionPoint(v: nat) returns (it: ListItem, ghost k: nat)
      requires Valid() && v <= MaxDelay
      ensures k < |nodes| && it == nodes[k] && k == InsertionPoint(Keys(), v)
    {
      k := 0;
      if v == MaxDelay {
        it, k := end.prev, |nodes| - 1;
      } else {
        it := end;
        while it.next.value <= v
          invariant 0 <= k < |nodes| && it == nodes[k]
          invariant forall i :: 0 <= i < k ==> Keys()[i] <= v
          decreases |nodes| - k
        {
          it := it.next;
          k := k + 1;
        }
        WalkStops(Keys(), v, k);
      }
    }

    /** vListInsert: link after the keys that are <= the item's key. */
    method Insert(item: ListItem)
      requires Valid() && item.container == null && item != end
      requires item.value <= MaxDelay
      modifies this`count, this`nodes, this`cursor, item`next, item`prev, item`container
      modifies nodes`next, nodes`prev
      ensures Valid() && item.container == this
      ensures View() == InsertAt(old(View()), InsertionPoint(old(Keys()), item.value), item)
    {
      var it;
      ghost var k;
      it, k := FindInsertionPoint(item.value);
      InsertAtNodes(nodes, cursor, k, item);
      Link(item, it, it.next, k);
    }

    /** listGET_OWNER_OF_NEXT_ENTRY: the round-robin step. */
    method NextOwner() returns (owner: nat)
      requires Valid() && |nodes| > 1
      modifies this`index, this`cursor
      ensures Valid() && View() == Advance(old(View()))
      ensures 0 < cursor < |nodes| && owner == Served(View()).owner
    {
      index := index.next;
      cursor := Succ(cursor, |nodes|);
      if index == end {
        index := index.next;
        cursor := 1;
      }
      owner := index.owner;
    }

    /** The writes of a removal. */
    method UnlinkWrites(item: ListItem, ghost k: nat)
      requires Valid() && 0 < k < |nodes| && nodes[k] == item
      modifies this`count, this`index, item`container, nodes`next, nodes`prev
      ensures LinkedBut(nodes, Pred(k, |nodes|), Succ(k, |nodes|))
      ensures nodes[Pred(k, |nodes|)].next == nodes[Succ(k, |nodes|)]
      ensures nodes[Succ(k, |nodes|)].prev == nodes[Pred(k, |nodes|)]
      ensures index == nodes[if k == cursor then k - 1 else cursor]
      ensures count == old(count) - 1 && item.container == null
      ensures forall i :: 0 < i < |nodes| && i != k ==> nodes[i].container == this
    {
      item.next.prev := item.prev;
      item.prev.next := item.next;
      if index == item {
        index := item.prev;
      }
      item.container := null;
      count := count - 1;
    }

    /** Take the item out of the ring. */
    method Unlink(item: ListItem, ghost k: nat)
      requires Valid() && 0 < k < |nodes| && nodes[k] == item
      modifies this`count, this`index, this`nodes, this`cursor, item`container
      modifies nodes`next, nodes`prev
      ensures Valid() && item.container == null
      ensures nodes == CutOut(old(nodes), k)
      ensures cursor == if k <= old(cursor) then old(cursor) - 1 else old(cursor)
    {
      UnlinkWrites(item, k);
      ghost var before := nodes;
      CutCursor(nodes, cursor, k);
      nodes := CutOut(nodes, k);
      cursor := if k <= cursor then cursor - 1 else cursor;
      CutDistinct(before, k);
      Unspliced(this, before, k);
    }
  }

  /** uxListRemove: unlink the item from whatever list holds it; a cursor on
      the item steps back. Returns how many items are left. */
  method ListRemove(item: ListItem) returns (left: nat)
    requires item.container != null && item.container.Valid() && item in item.container.nodes
    modifies item.container`count, item.container`index, item.container`nodes, item.container`cursor
    modifies item.container.nodes`next, item.container.nodes`prev, item`container
    ensures item.container == null
    ensures var list := old(item.container);
            && list.Valid()
            && item in old(list.View()).items
            && list.View() == Remove(old(list.View()), item)
            && left == |list.View().items|
  {
    var list := item.container;
    RemoveNodes(list.nodes, list.cursor, item);
    list.Unlink(item, IndexOf(list.nodes, item));
    return list.count;
  }

  /** Successor and predecessor positions on a ring of n nodes. */
  function Succ(i: nat, n: nat): nat { if i + 1 == n then 0 else i + 1 }
  function Pred(i: nat, n: nat): nat requires 0 < n { if i == 0 then n - 1 else i - 1 }

  ghost predicate Linked(nodes: seq<ListItem>)
    reads nodes
  {
    && (forall i {:trigger nodes[i].next} :: 0 <= i < |nodes| ==> nodes[i].next == nodes[Succ(i, |nodes|)])
    && (forall i {:trigger nodes[i].prev} :: 0 <= i < |nodes| ==> nodes[i].prev == nodes[Pred(i, |nodes|)])
  }

  /** Linked, but for the next pointer of node a and the previous one of node b. */
  ghost predicate LinkedBut(nodes: seq<ListItem>, a: nat, b: nat)
    reads nodes
  {
    && (forall i {:trigger nodes[i].next} ::
          0 <= i < |nodes| && i != a ==> nodes[i].next == nodes[Succ(i, |nodes|)])
    && (forall i {:trigger nodes[i].prev} ::
          0 <= i < |nodes| && i != b ==> nodes[i].prev == nodes[Pred(i, |nodes|)])
  }

  ghost predicate Distinct<T>(s: seq<T>) {
    forall i, j :: 0 <= i < j < |s| ==> s[i] != s[j]
  }

  function SpliceIn<T>(s: seq<T>, k: nat, x: T): seq<T>
    requires k <= |s|
  {
    seq(|s| + 1, i requires 0 <= i <= |s| => if i < k then s[i] else if i == k then x else s[i - 1])
  }

  lemma SplicedDistinct<T>(s: seq<T>, k: nat, x: T)
    requires k <= |s| && Distinct(s) && x !in s
    ensures Distinct(SpliceIn(s, k, x))
  {
  }

  /** Four pointer writes around position k splice the item into the ring. */
  lemma Spliced(list: List, nodes: seq<ListItem>, k: nat, item: ListItem)
    requires k < |nodes|
    requires LinkedBut(nodes, k, Succ(k, |nodes|))
    requires item.next == nodes[Succ(k, |nodes|)] && item.prev == nodes[k]
    requires nodes[k].next == item && nodes[Succ(k, |nodes|)].prev == item
    requires item.container == list
    requires forall i :: 0 < i < |nodes| ==> nodes[i].container == list
    ensures var after := SpliceIn(nodes, k + 1, item);
            && Linked(after)
            && forall i :: 0 < i < |after| ==> after[i].container == list
  {
    var n := |nodes|;
    var after := SpliceIn(nodes, k + 1, item);
    forall i | 0 <= i <= n
      ensures after[i].next == after[Succ(i, n + 1)] && after[i].prev == after[Pred(i, n + 1)]
      ensures 0 < i ==> after[i].container == list
    {
      if i == k + 1 {
        assert after[Succ(i, n + 1)] == nodes[Succ(k, n)];
      } else {
        var j := if i <= k then i else i - 1;
        assert after[i] == nodes[j];
        assert j != k ==> after[Succ(i, n + 1)] == nodes[Succ(j, n)];
        assert j != Succ(k, n) ==> after[Pred(i, n + 1)] == nodes[Pred(j, n)];
      }
    }
  }

  /** The cursor's node and the sentinel keep their identity under a splice. */
  lemma SplicedCursor<T>(nodes: seq<T>, cursor: nat, k: nat, x: T)
    requires cursor < |nodes| && k < |nodes|
    ensures var after := SpliceIn(nodes, k + 1, x);
            && |after| == |nodes| + 1 && after[0] == nodes[0]
            && after[if k < cursor then cursor + 1 else cursor] == nodes[cursor]
  {
  }

  lemma EndInsertNodes<T>(nodes: seq<T>, cursor: nat, x: T)
    requires cursor < |nodes|
    ensures var k := Pred(cursor, |nodes|);
            Ring(SpliceIn(nodes, k + 1, x)[1..], if k < cursor then cursor + 1 else cursor)
            == EndInsert(Ring(nodes[1..], cursor), x)
  {
  }

  lemma InsertAtNodes<T>(nodes: seq<T>, cursor: nat, k: nat, x: T)
    requires cursor < |nodes| && k < |nodes|
    ensures Ring(SpliceIn(nodes, k + 1, x)[1..], if k < cursor then cursor + 1 else cursor)
            == InsertAt(Ring(nodes[1..], cursor), k, x)
  {
  }

  function CutOut<T>(s: seq<T>, k: nat): seq<T>
    requires k < |s|
  {
    seq(|s| - 1, i requires 0 <= i < |s| - 1 => if i < k then s[i] else s[i + 1])
  }

  lemma CutDistinct<T>(s: seq<T>, k: nat)
    requires k < |s| && Distinct(s)
    ensures Distinct(CutOut(s, k))
  {
  }

  /** Two pointer writes around position k take the node out of the ring. */
  lemma Unspliced(list: List, nodes: seq<ListItem>, k: nat)
    requires 0 < k < |nodes|
    requires LinkedBut(nodes, Pred(k, |nodes|), Succ(k, |nodes|))
    requires nodes[Pred(k, |nodes|)].next == nodes[Succ(k, |nodes|)]
    requires nodes[Succ(k, |nodes|)].prev == nodes[Pred(k, |nodes|)]
    requires forall i :: 0 < i < |nodes| && i != k ==> nodes[i].container == list
    ensures var after := CutOut(nodes, k);
            && Linked(after)
            && forall i :: 0 < i < |after| ==> after[i].container == list
  {
    var n := |nodes|;
    var after := CutOut(nodes, k);
    forall i | 0 <= i < n - 1
      ensures after[i].next == after[Succ(i, n - 1)] && after[i].prev == after[Pred(i, n - 1)]
      ensures 0 < i ==> after[i].container == list
    {
      var j := if i < k then i else i + 1;
      assert after[i] == nodes[j];
      assert after[Succ(i, n - 1)] == nodes[if Succ(j, n) == k then Succ(k, n) else Succ(j, n)];
      assert after[Pred(i, n - 1)] == nodes[if Pred(j, n) == k then Pred(k, n) else Pred(j, n)];
    }
  }

  lemma CutCursor<T>(nodes: seq<T>, cursor: nat, k: nat)
    requires cursor < |nodes| && 0 < k < |nodes|
    ensures var after := CutOut(nodes, k);
            && |after| == |nodes| - 1 && after[0] == nodes[0]
            && after[if k <= cursor then cursor - 1 else cursor]
               == nodes[if k == cursor then k - 1 else cursor]
  {
  }

  lemma RemoveNodes<T>(nodes: seq<T>, cursor: nat, x: T)
    requires cursor < |nodes| && x in nodes && nodes[0] != x
    ensures var k := IndexOf(nodes, x);
            && x in nodes[1..] && 0 < k
            && Ring(CutOut(nodes, k)[1..], if k <= cursor then cursor - 1 else cursor)
               == Remove(Ring(nodes[1..], cursor), x)
  {
    var k, items := IndexOf(nodes, x), nodes[1..];
    assert k == 1 + IndexOf(items, x);
    assert CutOut(nodes, k)[1..] == items[..k - 1] + items[k..];
  }

  lemma WalkStops(keys: seq<nat>, v: nat, k: nat)
    requires k <= |keys| && forall i :: 0 <= i < k ==> keys[i] <= v
    requires k < |keys| ==> v < keys[k]
    ensures Walk(keys, v) == k
  {
  }
}
