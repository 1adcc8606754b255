/** The sequence view of a kernel list (kernel/list.c): the items between the
    sentinel and itself, in `next` order, and the round-robin cursor.
    `cursor == 0` is the sentinel; `cursor == i > 0` is `items[i - 1]`. */
module Rings {

  /** portMAX_DELAY: the largest tick value and the sentinel's ordering key. */
  const MaxDelay: nat := 0xFFFF_FFFF

  datatype Ring<T> = Ring(items: seq<T>, cursor: nat) {
    ghost predicate WellFormed() {
      && cursor <= |items|
      && forall i, j :: 0 <= i < j < |items| ==> items[i] != items[j]
    }
  }

  // ----- Operations --------------------------------------------------------

  /** vListInsertEnd: link in front of the cursor. */
  function EndInsert<T>(r: Ring<T>, x: T): Ring<T>
    requires r.cursor <= |r.items|
  {
    if r.cursor == 0 then Ring(r.items + [x], 0)
    else Ring(r.items[..r.cursor - 1] + [x] + r.items[r.cursor - 1..], r.cursor + 1)
  }

  /** Link after the first `k` items. */
  function InsertAt<T>(r: Ring<T>, k: nat, x: T): Ring<T>
    requires r.cursor <= |r.items| && k <= |r.items|
  {
    Ring(r.items[..k] + [x] + r.items[k..], if k < r.cursor then r.cursor + 1 else r.cursor)
  }

  /** uxListRemove: unlink item `j`; a cursor on it steps back. */
  function RemoveAt<T>(r: Ring<T>, j: nat): Ring<T>
    requires r.cursor <= |r.items| && j < |r.items|
  {
    Ring(r.items[..j] + r.items[j + 1..], if j < r.cursor then r.cursor - 1 else r.cursor)
  }

  function IndexOf<T(==)>(s: seq<T>, x: T): (k: nat)
    requires x in s
    ensures k < |s| && s[k] == x && x !in s[..k]
  {
    if s[0] == x then 0 else 1 + IndexOf(s[1..], x)
  }

  function Remove<T(==)>(r: Ring<T>, x: T): Ring<T>
    requires r.cursor <= |r.items| && x in r.items
  {
    RemoveAt(r, IndexOf(r.items, x))
  }

  /** listGET_OWNER_OF_NEXT_ENTRY: step the cursor, skipping the sentinel. */
  function Advance<T>(r: Ring<T>): Ring<T>
    requires r.cursor <= |r.items|
  {
    if r.cursor < |r.items| then r.(cursor := r.cursor + 1)
    else if r.items == [] then r.(cursor := 0)
    else r.(cursor := 1)
  }

  /** The item under the cursor. */
  function Served<T>(r: Ring<T>): T
    requires 0 < r.cursor <= |r.items|
  {
    r.items[r.cursor - 1]
  }

  // ----- Membership --------------------------------------------------------

  lemma InsertAtKeeps<T>(r: Ring<T>, k: nat, x: T)
    requires r.WellFormed() && k <= |r.items| && x !in r.items
    ensures InsertAt(r, k, x).WellFormed()
    ensures forall y :: y in InsertAt(r, k, x).items <==> y == x || y in r.items
  {
    var s := InsertAt(r, k, x).items;
    assert s[k] == x;
    forall y ensures y in s <==> y == x || y in r.items {
      if y in r.items {
        var i :| 0 <= i < |r.items| && r.items[i] == y;
        assert s[if i < k then i else i + 1] == y;
      }
    }
  }

  lemma EndInsertKeeps<T>(r: Ring<T>, x: T)
    requires r.WellFormed() && x !in r.items
    ensures EndInsert(r, x).WellFormed()
    ensures forall y :: y in EndInsert(r, x).items <==> y == x || y in r.items
  {
    var k := if r.cursor == 0 then |r.items| else r.cursor - 1;
    InsertAtKeeps(r, k, x);
    assert EndInsert(r, x).items == InsertAt(r, k, x).items;
  }

  lemma RemoveKeeps<T>(r: Ring<T>, x: T)
    requires r.WellFormed() && x in r.items
    ensures Remove(r, x).WellFormed() && |Remove(r, x).items| == |r.items| - 1
    ensures forall y :: y in Remove(r, x).items <==> y != x && y in r.items
  {
    var j := IndexOf(r.items, x);
    var s := Remove(r, x).items;
    forall y ensures y in s <==> y != x && y in r.items {
      if y != x && y in r.items {
        var i :| 0 <= i < |r.items| && r.items[i] == y;
        assert s[if i < j then i else i - 1] == y;
      }
    }
  }

  // ----- Round robin -------------------------------------------------------

  /** The items in the order in which the coming `Advance`s serve them. */
  function Order<T>(r: Ring<T>): seq<T>
    requires r.cursor <= |r.items|
  {
    r.items[r.cursor..] + r.items[..r.cursor]
  }

  /** One switch serves the head of the service order and sends it to the back. */
  lemma AdvanceRotates<T>(r: Ring<T>)
    requires r.cursor <= |r.items| && r.items != []
    ensures Advance(r).items == r.items && 0 < Advance(r).cursor <= |r.items|
    ensures Served(Advance(r)) == Order(r)[0]
    ensures Order(Advance(r)) == Order(r)[1..] + [Order(r)[0]]
  {
  }

  function AdvanceN<T>(r: Ring<T>, n: nat): Ring<T>
    requires r.cursor <= |r.items|
  {
    if n == 0 then r else Advance(AdvanceN(r, n - 1))
  }

  lemma NextRemainder(k: nat, n: nat)
    requires 0 < k && 0 < n
    ensures k % n == if (k - 1) % n + 1 == n then 0 else (k - 1) % n + 1
  {
    var q, m := (k - 1) / n, (k - 1) % n;
    assert k == n * q + (m + 1);
    if m + 1 < n { IsRemainder(k, n, q, m + 1); }
    else { assert k == n * (q + 1) + 0; IsRemainder(k, n, q + 1, 0); }
  }

  lemma IsRemainder(k: nat, n: nat, q: nat, m: nat)
    requires k == n * q + m && m < n
    ensures k % n == m
  {
    var d := k / n - q;
    assert n * d == m - k % n;
    MulGrows(n, d);
  }

  lemma MulGrows(n: int, d: int)
    requires 0 < n
    ensures (d >= 1 ==> n * d >= n) && (d <= -1 ==> n * d <= -n)
  {
    if d >= 1 { assert n * (d - 1) >= 0; }
    if d <= -1 { assert n * (-d - 1) >= 0; }
  }

  lemma RotateOnce<T>(s: seq<T>, m: nat)
    requires m < |s|
    ensures var t := s[m..] + s[..m];
            t[1..] + [t[0]] == s[m + 1..] + s[..m + 1]
    ensures s[|s|..] + s[..|s|] == s[0..] + s[..0]
  {
  }

  /** k switches turn the service order k places, over the end as often as need be. */
  lemma {:induction false} AdvanceNRotates<T>(r: Ring<T>, k: nat)
    requires r.cursor <= |r.items| && r.items != []
    ensures AdvanceN(r, k).items == r.items && AdvanceN(r, k).cursor <= |r.items|
    ensures |Order(r)| == |r.items|
    ensures Order(AdvanceN(r, k)) == Order(r)[k % |r.items|..] + Order(r)[..k % |r.items|]
  {
    assert |Order(r)| == |r.items|;
    if k == 0 {
      IsRemainder(0, |r.items|, 0, 0);
    } else {
      AdvanceNRotates(r, k - 1);
      AdvanceRotates(AdvanceN(r, k - 1));
      NextRemainder(k, |r.items|);
      RotateOnce(Order(r), (k - 1) % |r.items|);
      hide Order;
    }
  }

  lemma AdvanceNServes<T>(r: Ring<T>, k: nat)
    requires r.cursor <= |r.items| && 0 < k && r.items != []
    ensures 0 < AdvanceN(r, k).cursor <= |AdvanceN(r, k).items| && |Order(r)| == |r.items|
    ensures Served(AdvanceN(r, k)) == Order(r)[(k - 1) % |r.items|]
  {
    AdvanceNRotates(r, k - 1);
    AdvanceRotates(AdvanceN(r, k - 1));
    hide Order;
  }

  /** n switches over an unchanged list of n items serve every item exactly
      once: the k-th switch serves `Order(r)[k - 1]`, the served items are the list's
      items without repetition, and the service order is back where it began. */
  lemma RoundRobin<T>(r: Ring<T>)
    requires r.WellFormed()
    ensures forall k :: 0 < k <= |r.items| ==>
              && 0 < AdvanceN(r, k).cursor <= |AdvanceN(r, k).items|
              && Served(AdvanceN(r, k)) == Order(r)[k - 1]
    ensures forall x :: x in r.items ==> exists k :: 0 <= k < |r.items| && Order(r)[k] == x
    ensures forall i, j :: 0 <= i < j < |r.items| ==> Order(r)[i] != Order(r)[j]
    ensures Order(AdvanceN(r, |r.items|)) == Order(r)
  {
    hide Order, AdvanceN, Served, Ring.WellFormed;
    OrderIsPermutation(r);
    forall k | 0 < k <= |r.items|
      ensures 0 < AdvanceN(r, k).cursor <= |AdvanceN(r, k).items|
      ensures Served(AdvanceN(r, k)) == Order(r)[k - 1]
    {
      AdvanceNServes(r, k);
      IsRemainder(k - 1, |r.items|, 0, k - 1);
    }
    if r.items != [] {
      AdvanceNRotates(r, |r.items|);
      IsRemainder(|r.items|, |r.items|, 1, 0);
    } else {
      Unmoved(r);
    }
  }

  lemma Unmoved<T>(r: Ring<T>)
    requires r.cursor <= |r.items|
    ensures AdvanceN(r, 0) == r
  {
  }

  lemma OrderIsPermutation<T>(r: Ring<T>)
    requires r.WellFormed()
    ensures r.cursor <= |r.items| && |Order(r)| == |r.items|
    ensures forall x :: x in r.items ==> exists k :: 0 <= k < |r.items| && Order(r)[k] == x
    ensures forall i, j :: 0 <= i < j < |r.items| ==> Order(r)[i] != Order(r)[j]
  {
    forall x | x in r.items ensures exists k :: 0 <= k < |r.items| && Order(r)[k] == x {
      var i :| 0 <= i < |r.items| && r.items[i] == x;
      assert Order(r)[if i < r.cursor then i + (|r.items| - r.cursor) else i - r.cursor] == x;
    }
  }

  /** An end-insert delays nobody but the item under the cursor: everyone else
      keeps its place in the service order, and the newcomer is served after all
      of them. */
  lemma EndInsertDelaysOnlyCursor<T>(r: Ring<T>, x: T)
    requires r.cursor <= |r.items|
    ensures r.cursor == 0 ==> Order(EndInsert(r, x)) == Order(r) + [x]
    ensures r.cursor > 0 ==>
              var n := |r.items| - 1;
              && Order(r)[n] == Served(r)
              && Order(EndInsert(r, x)) == Order(r)[..n] + [x] + [Order(r)[n]]
  {
  }

  /** Removing one item leaves the service order of the others as it was. */
  lemma RemoveKeepsOrder<T>(r: Ring<T>, j: nat)
    requires r.cursor <= |r.items| && j < |r.items|
    ensures var k := if j < r.cursor then j + (|r.items| - r.cursor) else j - r.cursor;
            Order(r)[k] == r.items[j] && Order(RemoveAt(r, j)) == Order(r)[..k] + Order(r)[k + 1..]
  {
  }

  // ----- Ordered insertion -------------------------------------------------

  /** Where vListInsert's walk stops: after the leading keys that are <= v. */
  function Walk(keys: seq<nat>, v: nat): (k: nat)
    ensures k <= |keys|
    ensures forall i :: 0 <= i < k ==> keys[i] <= v
    ensures k < |keys| ==> v < keys[k]
  {
    if keys == [] || keys[0] > v then 0 else 1 + Walk(keys[1..], v)
  }

  ghost predicate Ascending(keys: seq<nat>) {
    forall i, j :: 0 <= i < j < |keys| ==> keys[i] <= keys[j]
  }

  /** The insertion point the code chooses: the tail for a portMAX_DELAY key,
      the walk otherwise. On ascending keys both are the end of the equals. */
  function InsertionPoint(keys: seq<nat>, v: nat): (k: nat)
    ensures k <= |keys|
  {
    if v == MaxDelay then |keys| else Walk(keys, v)
  }

  /** Ordered insertion keeps the keys ascending and is stable: what precedes
      the new key is <= it, what follows is strictly greater. */
  lemma InsertionKeepsOrder(keys: seq<nat>, v: nat)
    requires Ascending(keys) && v <= MaxDelay
    requires forall i :: 0 <= i < |keys| ==> keys[i] <= MaxDelay
    ensures var k := InsertionPoint(keys, v);
            && Ascending(keys[..k] + [v] + keys[k..])
            && (forall i :: 0 <= i < k ==> keys[i] <= v)
            && (forall i :: k <= i < |keys| ==> v < keys[i])
  {
  }
}
