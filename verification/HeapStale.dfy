/** What vPortFree does with a pointer whose slot is marked although no block is
    allocated there: the mark is data some owner of the enclosing block left. */
module HeapStale {
  import opened HeapSpec
  import opened HeapMemory

  /** The slot at a lies strictly inside a block, behind its header. */
  ghost predicate Inside(blocks: seq<Block>, a: nat) {
    exists i :: 0 <= i < |blocks| && blocks[i].addr < a < blocks[i].End()
  }

  lemma {:induction false} Covering(blocks: seq<Block>, lo: nat, hi: nat, a: nat) returns (i: nat)
    requires Tiled(blocks, lo, hi) && lo <= a < hi
    ensures i < |blocks| && blocks[i].addr <= a < blocks[i].End()
    decreases |blocks|
  {
    if a < blocks[0].End() { i := 0; }
    else {
      i := Covering(blocks[1..], blocks[0].End(), hi, a);
      i := i + 1;
    }
  }

  /** A marked slot is the header of a live block or lies inside a block. */
  lemma MarkedSlot(mem: map<nat, Link>, start: nat, blocks: seq<Block>, lo: nat, hi: nat, a: nat)
    requires Represents(mem, start, blocks, lo, hi) && Marked(mem, a) && (a == start || lo <= a <= hi)
    ensures a != start && lo <= a < hi && (LiveAt(LiveOf(blocks), a) || Inside(blocks, a))
    ensures forall j :: 0 <= j < |FreeOf(blocks)| ==> FreeOf(blocks)[j].addr != a
  {
    ListUnmarked(mem, start, blocks, lo, hi);
    var i := Covering(blocks, lo, hi, a);
    FreeMember(blocks, blocks[i]);
    assert blocks[i].live ==> blocks[i] in LiveOf(blocks);
  }

  // ----- What the writes leave ---------------------------------------------------------

  /** No block begins strictly inside another, and none ends there. */
  lemma NothingInside(blocks: seq<Block>, lo: nat, hi: nat, i: nat, a: nat)
    requires Tiled(blocks, lo, hi) && i < |blocks| && blocks[i].addr < a < blocks[i].End()
    ensures forall b :: b in blocks ==> b.addr != a && b.End() != a
  {
    forall b | b in blocks ensures b.addr != a && b.End() != a {
      var j :| 0 <= j < |blocks| && blocks[j] == b;
      TiledAt(blocks, lo, hi, j);
      if i < j { TiledOrder(blocks, lo, hi, i, j); }
      if j < i { TiledOrder(blocks, lo, hi, j, i); }
    }
  }

  /** The slot at a, unmarked, was linked behind `it`; every other slot is as it was. */
  ghost predicate LinkedIn(mem: map<nat, Link>, m: map<nat, Link>, it: nat, a: nat) {
    && it != a && it in mem && it in m && m[it] == Link(a, mem[it].size)
    && forall x :: x in mem && x != it && x != a ==> x in m && m[x] == mem[x]
  }

  /** Not joined to the header in front of it, a slot is linked in behind it. */
  lemma SplicedAlone(m: map<nat, Link>, it: nat, a: nat, end: nat)
    requires it in m && a in m && it != a && m[it].next in m && it + m[it].size != a
    ensures LinkedIn(m, Spliced(m, it, a, end), it, a)
  {
  }

  /** The header in front of a slot inside a block, with which it is not joined. */
  lemma StaleBehind(mem: map<nat, Link>, start: nat, blocks: seq<Block>, lo: nat, hi: nat, a: nat, i: nat)
    requires Represents(mem, start, blocks, lo, hi) && i < |blocks| && blocks[i].addr < a < blocks[i].End()
    ensures var it := Behind(FreeOf(blocks), start, a);
            it in mem && it != a && it + mem[it].size != a && mem[it].next in mem
  {
    var free := FreeOf(blocks);
    var k := Below(free, a);
    TiledAt(blocks, lo, hi, i);
    NothingInside(blocks, lo, hi, i, a);
    if k > 0 {
      assert free[k - 1].addr in mem && free[k - 1] in free;
      FreeMember(blocks, free[k - 1]);
    }
    if k < |free| { assert free[k].addr in mem; }
  }

  lemma StaleLinks(mem: map<nat, Link>, start: nat, blocks: seq<Block>, lo: nat, hi: nat, a: nat, i: nat)
    requires Represents(mem, start, blocks, lo, hi) && Marked(mem, a) && i < |blocks|
             && blocks[i].addr < a < blocks[i].End()
    ensures var m, it := Unmark(mem, a), Behind(FreeOf(blocks), start, a);
            it in m && m[it].next in m && LinkedIn(mem, Spliced(m, it, a, hi), it, a)
  {
    hide Represents, Spliced, Behind, FreeOf;
    StaleBehind(mem, start, blocks, lo, hi, a, i);
    SplicedAlone(Unmark(mem, a), Behind(FreeOf(blocks), start, a), a, hi);
  }

  // ----- No tiling fits ----------------------------------------------------------------

  /** The free list of any tiling that m represents begins like the old one and
      then comes to a. */
  lemma {:induction false} ReachesStale(mem: map<nat, Link>, m: map<nat, Link>, start: nat, free: seq<Block>,
                                        other: seq<Block>, lo: nat, hi: nat, a: nat, j: nat)
    requires Chained(mem, start, free, hi) && Ordered(free, lo, hi) && Chained(m, start, other, hi)
             && (start < lo || hi < start)
    requires lo <= a < hi && j <= Below(free, a) && LinkedIn(mem, m, Behind(free, start, a), a)
    requires forall x :: 0 <= x < |free| ==> free[x].addr != a
    ensures j < |other| && other[j].addr == if j < Below(free, a) then free[j].addr else a
  {
    var k := Below(free, a);
    if j == 0 {
      assert m[start] == Link(AddrAt(other, 0, hi), 0);
    } else {
      ReachesStale(mem, m, start, free, other, lo, hi, a, j - 1);
      assert other[j - 1].addr in m;
      assert free[j - 1].addr in mem;
      if j < k { assert free[j - 1].addr != free[k - 1].addr; }
    }
  }

  /** Where a block of size n begins, its header says so. */
  lemma SizeInHeader(mem: map<nat, Link>, start: nat, blocks: seq<Block>, lo: nat, hi: nat, j: nat)
    requires Represents(mem, start, blocks, lo, hi) && j < |blocks|
    ensures blocks[j].addr in mem && mem[blocks[j].addr].size == blocks[j].size + if blocks[j].live then AllocBit else 0
    ensures blocks[j].size < AllocBit
  {
    TiledAt(blocks, lo, hi, j);
    if blocks[j].live { assert blocks[j] in LiveOf(blocks); }
    else {
      FreeMember(blocks, blocks[j]);
      var x :| 0 <= x < |FreeOf(blocks)| && FreeOf(blocks)[x] == blocks[j];
      assert FreeOf(blocks)[x].addr in mem;
    }
  }

  lemma {:induction false} GoesOn(blocks: seq<Block>, lo: nat, hi: nat, j: nat)
    requires Tiled(blocks, lo, hi) && j <= |blocks| && (if j == 0 then lo else blocks[j - 1].End()) < hi
    ensures j < |blocks|
    decreases |blocks|
  {
    if j > 0 {
      assert j > 1 ==> blocks[1..][j - 2] == blocks[j - 1];
      GoesOn(blocks[1..], blocks[0].End(), hi, j - 1);
    }
  }

  /** Up to the block around a, any tiling that m represents has the old blocks. */
  lemma {:induction false} SameUpTo(mem: map<nat, Link>, m: map<nat, Link>, start: nat, blocks: seq<Block>,
                                    other: seq<Block>, lo: nat, hi: nat, it: nat, a: nat, i: nat, j: nat)
    requires Represents(mem, start, blocks, lo, hi) && Represents(m, start, other, lo, hi) && LinkedIn(mem, m, it, a)
    requires i < |blocks| && blocks[i].addr < a < blocks[i].End() && j <= i
    ensures j < |other| && other[j].addr == blocks[j].addr && other[j].size == blocks[j].size
    decreases j
  {
    if j > 0 { SameUpTo(mem, m, start, blocks, other, lo, hi, it, a, i, j - 1); }
    TiledAt(blocks, lo, hi, j);
    NothingInside(blocks, lo, hi, i, a);
    GoesOn(other, lo, hi, j);
    TiledAt(other, lo, hi, j);
    SizeInHeader(mem, start, blocks, lo, hi, j);
    SizeInHeader(m, start, other, lo, hi, j);
    assert blocks[j] in blocks;
    hide Represents;
  }

  /** Freeing a marked slot that is no live header breaks the heap: what memory
      holds afterwards represents no tiling of the pool. */
  lemma StaleFreeBreaks(mem: map<nat, Link>, start: nat, blocks: seq<Block>, lo: nat, hi: nat, a: nat)
    requires Represents(mem, start, blocks, lo, hi) && Marked(mem, a) && (a == start || lo <= a <= hi)
    requires !LiveAt(LiveOf(blocks), a)
    ensures Inside(blocks, a)
    ensures var m, it := Unmark(mem, a), Behind(FreeOf(blocks), start, a);
            && it in m && m[it].next in m
            && forall other :: !Represents(Spliced(m, it, a, hi), start, other, lo, hi)
  {
    MarkedSlot(mem, start, blocks, lo, hi, a);
    var i :| 0 <= i < |blocks| && blocks[i].addr < a < blocks[i].End();
    StaleLinks(mem, start, blocks, lo, hi, a, i);
    var it := Behind(FreeOf(blocks), start, a);
    var m := Spliced(Unmark(mem, a), it, a, hi);
    hide Represents, Spliced, Behind, FreeOf;
    forall other ensures !Represents(m, start, other, lo, hi) {
      StaleFits(mem, m, start, blocks, other, lo, hi, a, i);
    }
  }

  lemma StaleFits(mem: map<nat, Link>, m: map<nat, Link>, start: nat, blocks: seq<Block>, other: seq<Block>, lo: nat,
                  hi: nat, a: nat, i: nat)
    requires Represents(mem, start, blocks, lo, hi) && LinkedIn(mem, m, Behind(FreeOf(blocks), start, a), a)
    requires forall j :: 0 <= j < |FreeOf(blocks)| ==> FreeOf(blocks)[j].addr != a
    requires i < |blocks| && blocks[i].addr < a < blocks[i].End()
    ensures !Represents(m, start, other, lo, hi)
  {
    if Represents(m, start, other, lo, hi) {
      TiledAt(blocks, lo, hi, i);
      FreeIsOrdered(blocks, lo, hi);
      SameUpTo(mem, m, start, blocks, other, lo, hi, Behind(FreeOf(blocks), start, a), a, i, i);
      NothingInside(other, lo, hi, i, a);
      var k := Below(FreeOf(blocks), a);
      ReachesStale(mem, m, start, FreeOf(blocks), FreeOf(other), lo, hi, a, k);
      FreeMember(other, FreeOf(other)[k]);
      assert false;
    }
  }
}
