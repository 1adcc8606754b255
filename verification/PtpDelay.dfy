/** The path delay filter of port/ptp/ptp_core.c: the median of a ring of the last
    eight samples, found by insertion sort on a copy. */
module PtpDelay {
  import opened CInt

  const Win: nat := 8

  // ----- Insertion sort ----------------------------------------------------

  /** v goes behind everything that is not above it. */
  function Insert(t: seq<int>, v: int): (r: seq<int>)
    ensures |r| == |t| + 1
  {
    if t == [] || t[|t| - 1] <= v then t + [v] else Insert(t[..|t| - 1], v) + [t[|t| - 1]]
  }

  lemma {:induction false} InsertAt(t: seq<int>, v: int, j: nat)
    requires j <= |t| && (j > 0 ==> t[j - 1] <= v) && forall k :: j <= k < |t| ==> t[k] > v
    ensures Insert(t, v) == t[..j] + [v] + t[j..]
  {
    if j < |t| {
      var n := |t| - 1;
      InsertAt(t[..n], v, j);
      assert t[..n][..j] == t[..j] && t[j..] == t[..n][j..] + [t[n]];
    } else {
      assert t[..j] == t && t[j..] == [];
    }
  }

  function Sorted(s: seq<int>): (r: seq<int>)
    ensures |r| == |s|
  {
    if s == [] then [] else Insert(Sorted(s[..|s| - 1]), s[|s| - 1])
  }

  ghost predicate Ascending(t: seq<int>) {
    forall i, j :: 0 <= i < j < |t| ==> t[i] <= t[j]
  }

  lemma {:induction false} InsertMultiset(t: seq<int>, v: int)
    ensures multiset(Insert(t, v)) == multiset(t) + multiset{v}
  {
    if t != [] && t[|t| - 1] > v {
      var n := |t| - 1;
      InsertMultiset(t[..n], v);
      assert t == t[..n] + [t[n]];
    }
  }

  lemma {:induction false} InsertBounded(t: seq<int>, v: int, b: int)
    requires v <= b && forall i :: 0 <= i < |t| ==> t[i] <= b
    ensures forall i :: 0 <= i <= |t| ==> Insert(t, v)[i] <= b
  {
    if t != [] && t[|t| - 1] > v { InsertBounded(t[..|t| - 1], v, b); }
  }

  lemma {:induction false} InsertAscends(t: seq<int>, v: int)
    requires Ascending(t)
    ensures Ascending(Insert(t, v))
  {
    if t != [] && t[|t| - 1] > v {
      var n := |t| - 1;
      InsertAscends(t[..n], v);
      InsertBounded(t[..n], v, t[n]);
    }
  }

  lemma {:induction false} SortedIsSorted(s: seq<int>)
    ensures Ascending(Sorted(s)) && multiset(Sorted(s)) == multiset(s)
  {
    if s != [] {
      var n := |s| - 1;
      SortedIsSorted(s[..n]);
      InsertAscends(Sorted(s[..n]), s[n]);
      InsertMultiset(Sorted(s[..n]), s[n]);
      hide Insert, Ascending;
      assert s == s[..n] + [s[n]];
    }
  }

  lemma SameLength(a: seq<int>, b: seq<int>)
    requires multiset(a) == multiset(b)
    ensures |a| == |b|
  {
    assert |a| == |multiset(a)| && |b| == |multiset(b)|;
  }

  lemma LastIsGreatest(a: seq<int>, b: seq<int>)
    requires Ascending(b) && multiset(a) == multiset(b) && a != [] && b != []
    ensures a[|a| - 1] <= b[|b| - 1]
  {
    assert a[|a| - 1] in multiset(b);
    var j :| 0 <= j < |b| && b[j] == a[|a| - 1];
  }

  lemma DropLast(a: seq<int>)
    requires a != []
    ensures multiset(a[..|a| - 1]) == multiset(a) - multiset{a[|a| - 1]}
  {
    assert a == a[..|a| - 1] + [a[|a| - 1]];
  }

  /** There is only one ascending arrangement. */
  lemma {:induction false} AscendingUnique(a: seq<int>, b: seq<int>)
    requires Ascending(a) && Ascending(b) && multiset(a) == multiset(b)
    ensures a == b
  {
    SameLength(a, b);
    if a != [] {
      var n := |a| - 1;
      LastIsGreatest(a, b);
      LastIsGreatest(b, a);
      DropLast(a);
      DropLast(b);
      AscendingUnique(a[..n], b[..n]);
      assert a == a[..n] + [a[n]] && b == b[..n] + [b[n]];
    }
  }

  // ----- The median --------------------------------------------------------

  function Middle(t: seq<int>): int
    requires t != []
  {
    var n := |t|;
    if n % 2 == 1 then t[n / 2] else Quot(t[n / 2 - 1] + t[n / 2], 2)
  }

  function Median(s: seq<int>): int
    requires s != []
  {
    Middle(Sorted(s))
  }

  function CountIn(s: seq<int>, lo: int, hi: int): (n: nat)
    ensures n <= |s|
  {
    if s == [] then 0 else CountIn(s[..|s| - 1], lo, hi) + if lo <= s[|s| - 1] <= hi then 1 else 0
  }

  lemma {:induction false} CountInsert(t: seq<int>, v: int, lo: int, hi: int)
    ensures CountIn(Insert(t, v), lo, hi) == CountIn(t, lo, hi) + if lo <= v <= hi then 1 else 0
  {
    var r := Insert(t, v);
    if t != [] && t[|t| - 1] > v {
      var n := |t| - 1;
      CountInsert(t[..n], v, lo, hi);
      assert r[..|r| - 1] == Insert(t[..n], v);
    } else {
      assert r[..|r| - 1] == t;
    }
  }

  lemma {:induction false} CountSorted(s: seq<int>, lo: int, hi: int)
    ensures CountIn(Sorted(s), lo, hi) == CountIn(s, lo, hi)
  {
    if s != [] {
      CountSorted(s[..|s| - 1], lo, hi);
      CountInsert(Sorted(s[..|s| - 1]), s[|s| - 1], lo, hi);
    }
  }

  /** At most the rest is inside when a stretch is outside. */
  lemma {:induction false} CountOutside(t: seq<int>, from: nat, to: nat, lo: int, hi: int)
    requires from <= to <= |t| && forall i :: from <= i < to ==> !(lo <= t[i] <= hi)
    ensures CountIn(t, lo, hi) <= |t| - (to - from)
  {
    if t != [] && from < to {
      var n := |t| - 1;
      CountOutside(t[..n], from, if to == |t| then n else to, lo, hi);
    }
  }

  /** The median is between two bounds when most samples are: a minority of late
      or early time stamps cannot move it out. */
  lemma MedianIsRobust(s: seq<int>, lo: int, hi: int)
    requires s != [] && 2 * CountIn(s, lo, hi) > |s|
    ensures lo <= Median(s) <= hi
  {
    SortedIsSorted(s);
    CountSorted(s, lo, hi);
    MiddleIsRobust(Sorted(s), lo, hi);
  }

  lemma MiddleIsRobust(t: seq<int>, lo: int, hi: int)
    requires t != [] && Ascending(t) && 2 * CountIn(t, lo, hi) > |t|
    ensures lo <= Middle(t) <= hi
  {
    hide CountIn;
    var n := |t|;
    var a, b := if n % 2 == 1 then n / 2 else n / 2 - 1, n / 2;
    if t[a] < lo { CountOutside(t, 0, a + 1, lo, hi); }
    if t[b] > hi { CountOutside(t, b, n, lo, hi); }
    assert lo <= t[a] <= t[b] <= hi;
    QuotBounds(t[a] + t[b], 2);
  }

  /** How many samples are not above x, or not below it. */
  function Count(s: seq<int>, x: int, up: bool): (n: nat)
    ensures n <= |s|
  {
    if s == [] then 0
    else
      var v := s[|s| - 1];
      Count(s[..|s| - 1], x, up) + if (up && v <= x) || (!up && v >= x) then 1 else 0
  }

  /** x is a sample with k others before it when they are put in order: more than k are
      not above it, and at least |s| - k are not below it. */
  ghost predicate IsKth(s: seq<int>, k: nat, x: int) {
    x in s && Count(s, x, true) > k && Count(s, x, false) >= |s| - k
  }

  lemma {:induction false} InsertCount(t: seq<int>, v: int, x: int, up: bool)
    ensures Count(Insert(t, v), x, up) == Count(t, x, up) + if (up && v <= x) || (!up && v >= x) then 1 else 0
  {
    var r := Insert(t, v);
    if t != [] && t[|t| - 1] > v {
      var n := |t| - 1;
      InsertCount(t[..n], v, x, up);
      assert r[..|r| - 1] == Insert(t[..n], v);
    } else {
      assert r[..|r| - 1] == t;
    }
  }

  lemma {:induction false} SortedCount(s: seq<int>, x: int, up: bool)
    ensures Count(Sorted(s), x, up) == Count(s, x, up)
  {
    if s != [] {
      SortedCount(s[..|s| - 1], x, up);
      InsertCount(Sorted(s[..|s| - 1]), s[|s| - 1], x, up);
    }
  }

  /** A stretch that counts, counts. */
  lemma {:induction false} StretchCounts(t: seq<int>, from: nat, to: nat, x: int, up: bool)
    requires from <= to <= |t| && forall i :: from <= i < to ==> (if up then t[i] <= x else t[i] >= x)
    ensures Count(t, x, up) >= to - from
  {
    if t != [] && from < to {
      var n := |t| - 1;
      StretchCounts(t[..n], from, if to == |t| then n else to, x, up);
    }
  }

  lemma SortedIsKth(s: seq<int>, k: nat)
    requires k < |s|
    ensures IsKth(s, k, Sorted(s)[k])
  {
    var t := Sorted(s);
    SortedIsSorted(s);
    hide Sorted, Count;
    assert t[k] in multiset(t);
    StretchCounts(t, 0, k + 1, t[k], true);
    StretchCounts(t, k, |t|, t[k], false);
    SortedCount(s, t[k], true);
    SortedCount(s, t[k], false);
  }

  /** There is only one k-th sample. */
  lemma KthIsUnique(s: seq<int>, k: nat, x: int, y: int)
    requires IsKth(s, k, x) && IsKth(s, k, y)
    ensures x == y
  {
    if x < y { CountsAreApart(s, x, y); }
    if y < x { CountsAreApart(s, y, x); }
  }

  lemma {:induction false} CountsAreApart(s: seq<int>, x: int, y: int)
    requires x < y
    ensures Count(s, x, true) + Count(s, y, false) <= |s|
  {
    if s != [] { CountsAreApart(s[..|s| - 1], x, y); }
  }

  /** The median is half the sum of the two middle samples, rounded toward zero, which
      is the middle sample itself when their number is odd. */
  lemma MedianIsMiddle(s: seq<int>) returns (a: int, b: int)
    requires s != []
    ensures IsKth(s, (|s| - 1) / 2, a) && IsKth(s, |s| / 2, b) && Median(s) == Quot(a + b, 2)
    ensures |s| % 2 == 1 ==> a == b == Median(s)
  {
    a, b := Sorted(s)[(|s| - 1) / 2], Sorted(s)[|s| / 2];
    SortedIsKth(s, (|s| - 1) / 2);
    SortedIsKth(s, |s| / 2);
    if |s| % 2 == 1 { QuotBounds(a + b, 2); }
  }

  // ----- The window --------------------------------------------------------

  datatype Window = Window(win: seq<int>, n: nat, idx: nat, ns: int) {
    predicate Valid() { |win| == Win && n <= Win && idx < Win && (n < Win ==> idx == n) }

    function Add(sample: int): Window
      requires Valid()
    {
      var win' := win[idx := sample];
      var n' := if n < Win then n + 1 else n;
      Window(win', n', (idx + 1) % Win, Median(win'[..n']))
    }
  }

  function AddAll(w: Window, samples: seq<int>): (r: Window)
    requires w.Valid()
    ensures r.Valid()
  {
    if samples == [] then w else AddAll(w, samples[..|samples| - 1]).Add(samples[|samples| - 1])
  }

  function Last(samples: seq<int>): seq<int> {
    if |samples| <= Win then samples else samples[|samples| - Win..]
  }

  /** The slot of the k-th sample. */
  ghost function Slot(k: nat): (i: nat)
    ensures i < Win
  {
    k % Win
  }

  /** Where the ring keeps the last samples. */
  ghost predicate Holds(r: Window, samples: seq<int>) {
    && r.Valid() && r.n == |Last(samples)| && r.idx == Slot(|samples|)
    && forall k {:trigger samples[k]} :: |samples| - r.n <= k < |samples| ==> r.win[Slot(k)] == samples[k]
  }

  lemma EmptyHolds(w: Window)
    requires w.Valid() && w.n == 0 && w.idx == 0
    ensures Holds(w, []) && Last([]) == [] && w.win[..0] == []
  {
  }

  lemma {:induction false} RingHolds(w: Window, samples: seq<int>)
    requires w.Valid() && w.n == 0 && w.idx == 0
    ensures Holds(AddAll(w, samples), samples)
  {
    hide Holds, Window.Add;
    if samples == [] {
      EmptyHolds(w);
    } else {
      var m := |samples| - 1;
      RingHolds(w, samples[..m]);
      AddHolds(AddAll(w, samples[..m]), samples[..m], samples[m]);
      assert samples == samples[..m] + [samples[m]];
    }
  }

  lemma AddHolds(r: Window, samples: seq<int>, x: int)
    requires Holds(r, samples)
    ensures Holds(r.Add(x), samples + [x])
  {
    hide Median, Slot;
    var m, r' := |samples|, r.Add(x);
    NextSlot(m);
    forall k {:trigger (samples + [x])[k]} | m + 1 - r'.n <= k <= m ensures r'.win[Slot(k)] == (samples + [x])[k] {
      if k < m { AddElsewhere(r, samples, x, k); }
    }
  }

  /** The other slots keep their samples. */
  lemma AddElsewhere(r: Window, samples: seq<int>, x: int, k: nat)
    requires Holds(r, samples) && |samples| + 1 - r.Add(x).n <= k < |samples|
    ensures r.Add(x).win[Slot(k)] == (samples + [x])[k]
  {
    hide Median, Slot;
    OtherSlot(k, |samples|);
    assert samples[k] == (samples + [x])[k];
  }

  lemma NextSlot(m: nat)
    ensures (Slot(m) + 1) % Win == Slot(m + 1)
    ensures m >= Win ==> Slot(m - Win) == Slot(m)
    ensures m < Win ==> Slot(m) == m
  {
  }

  lemma OtherSlot(k: nat, m: nat)
    requires k < m < k + Win
    ensures Slot(k) != Slot(m)
  {
  }

  lemma {:induction false} RingMultiset(w: Window, samples: seq<int>)
    requires w.Valid() && w.n == 0 && w.idx == 0
    ensures var r := AddAll(w, samples); multiset(r.win[..r.n]) == multiset(Last(samples))
  {
    hide Holds, Window.Add, Last;
    if samples == [] {
      EmptyHolds(w);
    } else {
      var m := |samples| - 1;
      RingHolds(w, samples[..m]);
      RingMultiset(w, samples[..m]);
      AddMultiset(AddAll(w, samples[..m]), samples[..m], samples[m]);
      assert samples == samples[..m] + [samples[m]];
    }
  }

  lemma AddMultiset(r: Window, samples: seq<int>, x: int)
    requires Holds(r, samples) && multiset(r.win[..r.n]) == multiset(Last(samples))
    ensures var r' := r.Add(x); multiset(r'.win[..r'.n]) == multiset(Last(samples + [x]))
  {
    if r.n < Win { AddNew(r, samples, x); } else { AddOver(r, samples, x); }
    hide Holds, Window.Add, Last;
  }

  lemma AddNew(r: Window, samples: seq<int>, x: int)
    requires Holds(r, samples) && multiset(r.win[..r.n]) == multiset(Last(samples)) && r.n < Win
    ensures var r' := r.Add(x); multiset(r'.win[..r'.n]) == multiset(Last(samples + [x]))
  {
    hide Median;
    assert r.Add(x).win[..r.n + 1] == r.win[..r.n] + [x];
    assert Last(samples + [x]) == Last(samples) + [x];
  }

  lemma AddOver(r: Window, samples: seq<int>, x: int)
    requires Holds(r, samples) && multiset(r.win[..r.n]) == multiset(Last(samples)) && r.n == Win
    ensures var r' := r.Add(x); multiset(r'.win[..r'.n]) == multiset(Last(samples + [x]))
  {
    OldestSlot(r, samples);
    LastShifts(samples, x);
    hide Median, Holds, Last;
    var was := Last(samples);
    assert r.win[..Win] == r.win && r.Add(x).win[..Win] == r.win[r.idx := x];
    ReplaceOldest(r.win, r.idx, was, x);
  }

  /** The next slot to be written holds the oldest sample. */
  lemma OldestSlot(r: Window, samples: seq<int>)
    requires Holds(r, samples) && r.n == Win
    ensures |samples| >= Win && r.win[r.idx] == Last(samples)[0]
  {
    var m := |samples|;
    NextSlot(m);
    assert samples[m - Win] == Last(samples)[0];
  }

  lemma LastShifts(samples: seq<int>, x: int)
    requires |samples| >= Win
    ensures Last(samples) != [] && Last(samples + [x]) == Last(samples)[1..] + [x]
  {
  }

  lemma ReplaceOldest(win: seq<int>, i: nat, was: seq<int>, x: int)
    requires i < |win| && was != [] && multiset(win) == multiset(was) && win[i] == was[0]
    ensures multiset(win[i := x]) == multiset(was[1..] + [x])
  {
    assert was == [was[0]] + was[1..];
  }

  /** After any run of samples the filtered delay is the median of the last eight
      (of all of them while there are fewer). */
  lemma FilterIsMedianOfLast(w: Window, samples: seq<int>)
    requires w.Valid() && w.n == 0 && w.idx == 0 && samples != []
    ensures AddAll(w, samples).ns == Median(Last(samples))
  {
    var r := AddAll(w, samples);
    RingMultiset(w, samples);
    RingHolds(w, samples);
    hide Sorted, Holds, Last;
    SortedIsSorted(r.win[..r.n]);
    SortedIsSorted(Last(samples));
    AscendingUnique(Sorted(r.win[..r.n]), Sorted(Last(samples)));
  }

  class Filter {
    const win: array<int>
    var n: nat
    var idx: nat
    var ns: int

    predicate Valid()
      reads this
    {
      win.Length == Win && n <= Win && idx < Win && (n < Win ==> idx == n)
    }

    function View(): (w: Window)
      requires Valid()
      reads this, win
      ensures w.Valid()
    {
      Window(win[..], n, idx, ns)
    }

    constructor ()
      ensures Valid() && fresh(win) && n == 0 && idx == 0 && ns == -1
    {
      win := new int[Win];
      n, idx, ns := 0, 0, -1;
    }

    method Clear()
      requires Valid()
      modifies this
      ensures Valid() && View() == old(View()).(n := 0, idx := 0, ns := -1)
    {
      n, idx, ns := 0, 0, -1;
    }

    method Add(sample: int)
      requires Valid()
      modifies this, win
      ensures Valid() && View() == old(View()).Add(sample)
    {
      win[idx] := sample;
      idx := (idx + 1) % Win;
      if n < Win {
        n := n + 1;
      }
      assert win[..] == old(win[..])[old(idx) := sample];
      assert win[..][..n] == win[..n];
      ns := Middling(win, n);
    }

    /** The copy, its insertion sort and the middle of the result. */
    static method Middling(a: array<int>, n: nat) returns (m: int)
      requires 0 < n <= a.Length
      ensures m == Median(a[..n])
    {
      var s := new int[n];
      for i := 0 to n
        invariant s[..i] == a[..i]
      {
        s[i] := a[i];
      }
      assert s[..] == a[..n];
      Sort(s);
      m := if n % 2 == 1 then s[n / 2] else Quot(s[n / 2 - 1] + s[n / 2], 2);
      assert s[..] == Sorted(a[..n]);
    }

    static method Sort(s: array<int>)
      requires s.Length > 0
      modifies s
      ensures s[..] == Sorted(old(s[..]))
    {
      ghost var was := s[..];
      assert s[..1] == [was[0]] && was[..1][..0] == [];
      var i := 1;
      while i < s.Length
        invariant 1 <= i <= s.Length
        invariant s[..i] == Sorted(was[..i]) && s[i..] == was[i..]
      {
        assert s[i] == was[i];
        Place(s, i);
        assert was[..i + 1][..i] == was[..i];
        assert s[i + 1..] == was[i..][1..];
        i := i + 1;
      }
      assert was[..i] == was && s[..i] == s[..];
    }

    /** Shift what is above s[i] and put s[i] in the gap. */
    static method Place(s: array<int>, i: nat)
      requires 0 < i < s.Length
      modifies s
      ensures s[..i + 1] == Insert(old(s[..i]), old(s[i])) && s[i + 1..] == old(s[i + 1..])
    {
      var v, j := s[i], i;
      ghost var t := s[..i];
      while j > 0 && s[j - 1] > v
        invariant 0 <= j <= i
        invariant forall k :: 0 <= k < j ==> s[k] == t[k]
        invariant forall k :: j < k <= i ==> s[k] == t[k - 1]
        invariant forall k :: j <= k < i ==> t[k] > v
        invariant forall k :: i < k < s.Length ==> s[k] == old(s[k])
      {
        s[j] := s[j - 1];
        j := j - 1;
      }
      s[j] := v;
      InsertAt(t, v, j);
      assert s[..i + 1] == t[..j] + [v] + t[j..];
    }
  }
}
