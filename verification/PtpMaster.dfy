/** Master selection: the data set comparison of section 9.3.4 of IEEE 1588-2008
    as port/ptp/ptp_core.c does it. */
module PtpMaster {
  datatype Dataset = Dataset(prio1: nat, clkClass: nat, clkAccuracy: nat, prio2: nat, variance: nat,
                             stepsRemoved: nat, gmId: seq<nat>, portId: seq<nat>) {
    predicate Valid() { |gmId| == 8 && |portId| == 10 }
  }

  function Cmp(a: nat, b: nat): int {
    if a == b then 0 else if a < b then -1 else 1
  }

  function CmpBytes(a: seq<nat>, b: seq<nat>): int
    requires |a| == |b|
  {
    if a == [] then 0 else if a[0] != b[0] then Cmp(a[0], b[0]) else CmpBytes(a[1..], b[1..])
  }

  method CompareBytes(a: seq<nat>, b: seq<nat>, n: nat) returns (c: int)
    requires n <= |a| && n <= |b|
    ensures c == CmpBytes(a[..n], b[..n])
  {
    for i := 0 to n
      invariant CmpBytes(a[..n], b[..n]) == CmpBytes(a[i..n], b[i..n])
    {
      if a[i] != b[i] {
        return if a[i] < b[i] then -1 else 1;
      }
      assert a[i..n][1..] == a[i + 1..n] && b[i..n][1..] == b[i + 1..n];
    }
    return 0;
  }

  /** Negative when a is the better master. */
  function Compare(a: Dataset, b: Dataset): int
    requires a.Valid() && b.Valid()
  {
    if a.prio1 != b.prio1 then Cmp(a.prio1, b.prio1)
    else if a.clkClass != b.clkClass then Cmp(a.clkClass, b.clkClass)
    else if a.clkAccuracy != b.clkAccuracy then Cmp(a.clkAccuracy, b.clkAccuracy)
    else if a.variance != b.variance then Cmp(a.variance, b.variance)
    else if a.prio2 != b.prio2 then Cmp(a.prio2, b.prio2)
    else
      var c := CmpBytes(a.gmId, b.gmId);
      if c != 0 then c
      else if a.stepsRemoved != b.stepsRemoved then Cmp(a.stepsRemoved, b.stepsRemoved)
      else CmpBytes(a.portId, b.portId)
  }

  ghost predicate Better(a: Dataset, b: Dataset)
    requires a.Valid() && b.Valid()
  {
    Compare(a, b) < 0
  }

  /** s comes before t: at the first difference it has the smaller byte. */
  ghost predicate Sooner(s: seq<nat>, t: seq<nat>) {
    exists i :: 0 <= i < |s| && i < |t| && s[..i] == t[..i] && s[i] < t[i]
  }

  /** a has the smaller value in the first of these in which a and b differ: priority 1,
      class, accuracy, variance, priority 2, grandmaster, steps removed, port. */
  ghost predicate Precedes(a: Dataset, b: Dataset) {
    if a.prio1 != b.prio1 then a.prio1 < b.prio1
    else if a.clkClass != b.clkClass then a.clkClass < b.clkClass
    else if a.clkAccuracy != b.clkAccuracy then a.clkAccuracy < b.clkAccuracy
    else if a.variance != b.variance then a.variance < b.variance
    else if a.prio2 != b.prio2 then a.prio2 < b.prio2
    else if a.gmId != b.gmId then Sooner(a.gmId, b.gmId)
    else if a.stepsRemoved != b.stepsRemoved then a.stepsRemoved < b.stepsRemoved
    else Sooner(a.portId, b.portId)
  }

  lemma {:induction false} SoonerIs(a: seq<nat>, b: seq<nat>)
    requires |a| == |b|
    ensures CmpBytes(a, b) < 0 <==> Sooner(a, b)
  {
    if a != [] {
      SoonerIs(a[1..], b[1..]);
      SoonerTail(a, b);
    }
  }

  lemma SoonerTail(a: seq<nat>, b: seq<nat>)
    requires |a| == |b| && a != []
    ensures Sooner(a, b) <==> a[0] < b[0] || (a[0] == b[0] && Sooner(a[1..], b[1..]))
  {
    if a[0] < b[0] { assert a[..0] == b[..0]; }
    if a[0] == b[0] && Sooner(a[1..], b[1..]) {
      var i :| 0 <= i < |a| - 1 && a[1..][..i] == b[1..][..i] && a[1..][i] < b[1..][i];
      assert a[..i + 1] == [a[0]] + a[1..][..i] && b[..i + 1] == [b[0]] + b[1..][..i];
    }
    if Sooner(a, b) && a[0] == b[0] {
      var i :| 0 <= i < |a| && a[..i] == b[..i] && a[i] < b[i];
      assert a[1..][..i - 1] == a[..i][1..] && b[1..][..i - 1] == b[..i][1..];
      assert a[1..][i - 1] < b[1..][i - 1];
    }
  }

  /** The better master is the one with the smaller value in the first difference. */
  lemma BetterIsSmaller(a: Dataset, b: Dataset)
    requires a.Valid() && b.Valid()
    ensures Better(a, b) <==> Precedes(a, b)
  {
    hide Sooner;
    SoonerIs(a.gmId, b.gmId);
    SoonerIs(a.portId, b.portId);
    CmpOrder(a.gmId, b.gmId);
    CmpOrder(a.portId, b.portId);
  }

  /** The comparison is lexicographic in the order of section 9.3.4. */
  function Key(d: Dataset): seq<nat> {
    [d.prio1, d.clkClass, d.clkAccuracy, d.variance, d.prio2] + d.gmId + [d.stepsRemoved] + d.portId
  }

  lemma {:induction false} CmpAppend(a: seq<nat>, b: seq<nat>, c: seq<nat>, d: seq<nat>)
    requires |a| == |b| && |c| == |d|
    ensures CmpBytes(a + c, b + d) == if CmpBytes(a, b) != 0 then CmpBytes(a, b) else CmpBytes(c, d)
    decreases |a|
  {
    if a == [] {
      assert a + c == c && b + d == d;
    } else {
      assert (a + c)[1..] == a[1..] + c && (b + d)[1..] == b[1..] + d;
      CmpAppend(a[1..], b[1..], c, d);
    }
  }

  lemma CompareIsLexicographic(a: Dataset, b: Dataset)
    requires a.Valid() && b.Valid()
    ensures Compare(a, b) == CmpBytes(Key(a), Key(b))
  {
    var ha, hb := [a.prio1, a.clkClass, a.clkAccuracy, a.variance, a.prio2],
                  [b.prio1, b.clkClass, b.clkAccuracy, b.variance, b.prio2];
    CmpAppend(ha + a.gmId + [a.stepsRemoved], hb + b.gmId + [b.stepsRemoved], a.portId, b.portId);
    CmpAppend(ha + a.gmId, hb + b.gmId, [a.stepsRemoved], [b.stepsRemoved]);
    CmpAppend(ha, hb, a.gmId, b.gmId);
    CmpOne(a.stepsRemoved, b.stepsRemoved);
    CmpFive(a, b);
  }

  lemma CmpOne(x: nat, y: nat)
    ensures CmpBytes([x], [y]) == Cmp(x, y)
  {
  }

  lemma CmpFive(a: Dataset, b: Dataset)
    ensures CmpBytes([a.prio1, a.clkClass, a.clkAccuracy, a.variance, a.prio2],
                     [b.prio1, b.clkClass, b.clkAccuracy, b.variance, b.prio2])
            == if a.prio1 != b.prio1 then Cmp(a.prio1, b.prio1)
               else if a.clkClass != b.clkClass then Cmp(a.clkClass, b.clkClass)
               else if a.clkAccuracy != b.clkAccuracy then Cmp(a.clkAccuracy, b.clkAccuracy)
               else if a.variance != b.variance then Cmp(a.variance, b.variance)
               else Cmp(a.prio2, b.prio2)
  {
    CmpAppend([a.prio1], [b.prio1], [a.clkClass, a.clkAccuracy, a.variance, a.prio2],
              [b.clkClass, b.clkAccuracy, b.variance, b.prio2]);
    CmpAppend([a.clkClass], [b.clkClass], [a.clkAccuracy, a.variance, a.prio2], [b.clkAccuracy, b.variance, b.prio2]);
    CmpAppend([a.clkAccuracy], [b.clkAccuracy], [a.variance, a.prio2], [b.variance, b.prio2]);
    CmpAppend([a.variance], [b.variance], [a.prio2], [b.prio2]);
    CmpOne(a.prio1, b.prio1);
    CmpOne(a.clkClass, b.clkClass);
    CmpOne(a.clkAccuracy, b.clkAccuracy);
    CmpOne(a.variance, b.variance);
    CmpOne(a.prio2, b.prio2);
    assert [a.prio1] + [a.clkClass, a.clkAccuracy, a.variance, a.prio2]
             == [a.prio1, a.clkClass, a.clkAccuracy, a.variance, a.prio2];
    assert [b.prio1] + [b.clkClass, b.clkAccuracy, b.variance, b.prio2]
             == [b.prio1, b.clkClass, b.clkAccuracy, b.variance, b.prio2];
    assert [a.clkClass] + [a.clkAccuracy, a.variance, a.prio2] == [a.clkClass, a.clkAccuracy, a.variance, a.prio2];
    assert [b.clkClass] + [b.clkAccuracy, b.variance, b.prio2] == [b.clkClass, b.clkAccuracy, b.variance, b.prio2];
    assert [a.clkAccuracy] + [a.variance, a.prio2] == [a.clkAccuracy, a.variance, a.prio2];
    assert [b.clkAccuracy] + [b.variance, b.prio2] == [b.clkAccuracy, b.variance, b.prio2];
    assert [a.variance] + [a.prio2] == [a.variance, a.prio2];
    assert [b.variance] + [b.prio2] == [b.variance, b.prio2];
  }

  lemma {:induction false} CmpOrder(a: seq<nat>, b: seq<nat>)
    requires |a| == |b|
    ensures CmpBytes(a, b) == 0 <==> a == b
    ensures CmpBytes(b, a) == -CmpBytes(a, b) && -1 <= CmpBytes(a, b) <= 1
  {
    if a != [] {
      CmpOrder(a[1..], b[1..]);
      assert a == [a[0]] + a[1..] && b == [b[0]] + b[1..];
    }
  }

  lemma {:induction false} CmpTransitive(a: seq<nat>, b: seq<nat>, c: seq<nat>)
    requires |a| == |b| == |c| && CmpBytes(a, b) < 0 && CmpBytes(b, c) < 0
    ensures CmpBytes(a, c) < 0
  {
    if a != [] && a[0] == b[0] && b[0] == c[0] {
      CmpTransitive(a[1..], b[1..], c[1..]);
    }
  }

  lemma KeyDetermines(a: Dataset, b: Dataset)
    requires a.Valid() && b.Valid() && Key(a) == Key(b)
    ensures a == b
  {
    var x, y := Key(a), Key(b);
    assert a.gmId == x[5..13] && b.gmId == y[5..13];
    assert a.portId == x[14..] && b.portId == y[14..];
    assert a.prio1 == x[0] && a.clkClass == x[1] && a.clkAccuracy == x[2] && a.variance == x[3] && a.prio2 == x[4]
           && a.stepsRemoved == x[13];
    assert b.prio1 == y[0] && b.clkClass == y[1] && b.clkAccuracy == y[2] && b.variance == y[3] && b.prio2 == y[4]
           && b.stepsRemoved == y[13];
  }

  /** Of two different data sets exactly one is better, and none is better than
      itself. */
  lemma BetterIsTotal(a: Dataset, b: Dataset)
    requires a.Valid() && b.Valid()
    ensures a == b <==> !Better(a, b) && !Better(b, a)
    ensures !(Better(a, b) && Better(b, a))
  {
    CompareIsLexicographic(a, b);
    CompareIsLexicographic(b, a);
    CmpOrder(Key(a), Key(b));
    if Key(a) == Key(b) { KeyDetermines(a, b); }
  }

  lemma BetterIsTransitive(a: Dataset, b: Dataset, c: Dataset)
    requires a.Valid() && b.Valid() && c.Valid() && Better(a, b) && Better(b, c)
    ensures Better(a, c)
  {
    CompareIsLexicographic(a, b);
    CompareIsLexicographic(b, c);
    CompareIsLexicographic(a, c);
    CmpTransitive(Key(a), Key(b), Key(c));
  }
}
