/** Memory as portable/MemMang/heap_4.c sees it: block headers and the linked
    free list in 16-byte slots, and what the allocator's writes do to them. */
module HeapMemory {
  import opened HeapSpec

  /** BlockLink_t; address 0 is NULL. */
  datatype Link = Link(next: nat, size: nat)

  /** Address of the i-th free block; the end marker follows the last one. */
  function AddrAt(free: seq<Block>, i: nat, end: nat): nat {
    if i < |free| then free[i].addr else end
  }

  /** The headers at `start`, at the free blocks and at `end` form the list. */
  ghost predicate Chained(mem: map<nat, Link>, start: nat, free: seq<Block>, end: nat) {
    && start in mem && mem[start] == Link(AddrAt(free, 0, end), 0)
    && end in mem && mem[end] == Link(0, 0)
    && forall i {:trigger mem[free[i].addr]} {:trigger free[i].addr in mem} :: 0 <= i < |free| ==>
         free[i].addr in mem && mem[free[i].addr] == Link(AddrAt(free, i + 1, end), free[i].size)
  }

  /** Free blocks in ascending order, inside [lo, end), none touching the next. */
  ghost predicate Ordered(free: seq<Block>, lo: nat, end: nat) {
    && (forall i :: 0 <= i < |free| ==> lo <= free[i].addr < free[i].End() <= end && !free[i].live)
    && (forall i, j :: 0 <= i < j < |free| ==> free[i].End() < free[j].addr)
  }

  /** s overlaps no free block. */
  ghost predicate Apart(free: seq<Block>, s: Block) {
    forall i :: 0 <= i < |free| ==> free[i].End() <= s.addr || s.End() <= free[i].addr
  }

  // ----- Inserting into the list ------------------------------------------------

  /** Where s goes: behind the first k free blocks, joining the one in front of
      it (left) and the one behind it (right). */
  datatype Spot = Spot(k: nat, left: bool, right: bool) {
    ghost predicate For(free: seq<Block>, s: Block) {
      && k == Below(free, s.addr)
      && left == (k > 0 && free[k - 1].End() == s.addr)
      && right == (k < |free| && s.End() == free[k].addr)
    }
    ghost predicate In(free: seq<Block>) {
      k <= |free| && (left ==> k > 0) && (right ==> k < |free|)
    }
    function From(): int { if left then k - 1 else k }
    function To(): int { if right then k + 1 else k }
    ghost function Merged(free: seq<Block>, s: Block): Block
      requires In(free)
    {
      Block(if left then free[k - 1].addr else s.addr,
            (if left then free[k - 1].size else 0) + s.size + (if right then free[k].size else 0), false)
    }
    ghost function Previous(free: seq<Block>, start: nat): nat
      requires In(free)
    {
      if k == 0 then start else free[k - 1].addr
    }
  }

  /** The two header writes of an insertion. */
  ghost function Inserted(mem: map<nat, Link>, start: nat, free: seq<Block>, end: nat, s: Block,
                          spot: Spot): map<nat, Link>
    requires spot.In(free) && spot.Previous(free, start) in mem
  {
    var merged, p := spot.Merged(free, s), spot.Previous(free, start);
    var m := mem[merged.addr := Link(AddrAt(free, spot.To(), end), merged.size)];
    if spot.left then m else m[p := Link(s.addr, mem[p].size)]
  }

  /** `after` is the free list with s inserted, position by position. */
  ghost predicate Positions(free: seq<Block>, s: Block, spot: Spot, after: seq<Block>)
    requires spot.In(free)
  {
    var l, r := spot.From(), spot.To();
    && |after| == l + 1 + (|free| - r)
    && (forall i :: 0 <= i < l ==> after[i] == free[i])
    && after[l] == spot.Merged(free, s)
    && (forall i :: l < i < |after| ==> after[i] == free[i - l - 1 + r])
  }

  ghost function SpotOf(free: seq<Block>, s: Block): (spot: Spot)
    ensures spot.For(free, s) && spot.In(free)
  {
    var k := Below(free, s.addr);
    Spot(k, k > 0 && free[k - 1].End() == s.addr, k < |free| && s.End() == free[k].addr)
  }

  /** `after` is what inserting s into `free` gives. */
  ghost predicate IsInsert(free: seq<Block>, s: Block, after: seq<Block>) {
    Positions(free, s, SpotOf(free, s), after)
  }

  lemma InsertFreeAt(free: seq<Block>, s: Block, spot: Spot)
    requires spot.For(free, s)
    ensures Positions(free, s, spot, InsertFree(free, s))
  {
    var after := InsertFree(free, s);
    assert after == free[..spot.From()] + [spot.Merged(free, s)] + free[spot.To()..];
    hide InsertFree;
    PositionsOf(free, s, spot, after);
  }

  lemma PositionsOf(free: seq<Block>, s: Block, spot: Spot, after: seq<Block>)
    requires spot.In(free) && after == free[..spot.From()] + [spot.Merged(free, s)] + free[spot.To()..]
    ensures Positions(free, s, spot, after)
  {
    hide Spot.Merged;
  }

  /** s lies between the first k free blocks and the others. */
  ghost predicate Between(free: seq<Block>, lo: nat, end: nat, s: Block, spot: Spot) {
    && Ordered(free, lo, end) && spot.In(free)
    && lo <= s.addr < s.End() <= end
    && (forall i :: 0 <= i < spot.k ==> free[i].End() <= s.addr)
    && (forall i :: spot.k <= i < |free| ==> s.End() <= free[i].addr)
    && (spot.left ==> free[spot.k - 1].End() == s.addr)
    && (spot.right ==> s.End() == free[spot.k].addr)
  }

  lemma SpotBetween(free: seq<Block>, lo: nat, end: nat, s: Block, spot: Spot)
    requires Ordered(free, lo, end) && Apart(free, s) && lo <= s.addr < s.End() <= end && spot.For(free, s)
    ensures Between(free, lo, end, s, spot)
  {
  }

  /** Headers other than the two that are written keep their contents. */
  lemma HeaderAfter(mem: map<nat, Link>, start: nat, free: seq<Block>, lo: nat, end: nat, s: Block, spot: Spot, i: nat)
    requires Chained(mem, start, free, end) && Between(free, lo, end, s, spot)
    requires (start < lo || end < start) && i < |free| && spot.Previous(free, start) in mem
    ensures var m := Inserted(mem, start, free, end, s, spot);
            && free[i].addr in m
            && (i + 1 < spot.k || spot.k <= i ==> m[free[i].addr] == Link(AddrAt(free, i + 1, end), free[i].size))
            && (i + 1 == spot.k && !spot.left ==> m[free[i].addr] == Link(s.addr, free[i].size))
  {
    assert free[i].addr in mem;
    if spot.k > 0 && i != spot.k - 1 { assert free[i].addr != free[spot.k - 1].addr; }
  }

  lemma EndsAfter(mem: map<nat, Link>, start: nat, free: seq<Block>, lo: nat, end: nat, s: Block, spot: Spot)
    requires Chained(mem, start, free, end) && Between(free, lo, end, s, spot)
    requires (start < lo || end < start) && spot.Previous(free, start) in mem
    ensures var m := Inserted(mem, start, free, end, s, spot);
            var merged := spot.Merged(free, s);
            && start in m && m[start] == Link(if spot.k == 0 then s.addr else AddrAt(free, 0, end), 0)
            && end in m && m[end] == Link(0, 0)
            && merged.addr in m && m[merged.addr] == Link(AddrAt(free, spot.To(), end), merged.size)
  {
  }

  lemma PositionsChained(mem: map<nat, Link>, start: nat, free: seq<Block>, lo: nat, end: nat, s: Block, spot: Spot,
                         after: seq<Block>)
    requires Chained(mem, start, free, end) && Between(free, lo, end, s, spot)
    requires (start < lo || end < start) && spot.Previous(free, start) in mem
    requires Positions(free, s, spot, after)
    ensures Chained(Inserted(mem, start, free, end, s, spot), start, after, end)
  {
    EndsAfter(mem, start, free, lo, end, s, spot);
    var m := Inserted(mem, start, free, end, s, spot);
    forall i | 0 <= i < |after|
      ensures after[i].addr in m && m[after[i].addr] == Link(AddrAt(after, i + 1, end), after[i].size)
    {
      ChainedAt(mem, start, free, lo, end, s, spot, after, i);
    }
  }

  lemma ChainedAt(mem: map<nat, Link>, start: nat, free: seq<Block>, lo: nat, end: nat, s: Block, spot: Spot,
                  after: seq<Block>, i: nat)
    requires Chained(mem, start, free, end) && Between(free, lo, end, s, spot)
    requires (start < lo || end < start) && spot.Previous(free, start) in mem
    requires Positions(free, s, spot, after) && i < |after|
    ensures var m := Inserted(mem, start, free, end, s, spot);
            after[i].addr in m && m[after[i].addr] == Link(AddrAt(after, i + 1, end), after[i].size)
  {
    var l, r := spot.From(), spot.To();
    if i < l {
      HeaderAfter(mem, start, free, lo, end, s, spot, i);
      AddrInFront(free, s, spot, after, i, end);
    } else if i > l {
      HeaderAfter(mem, start, free, lo, end, s, spot, i - l - 1 + r);
      AddrBehind(free, s, spot, after, i, end);
    } else {
      EndsAfter(mem, start, free, lo, end, s, spot);
      AddrBehind(free, s, spot, after, i, end);
    }
  }

  lemma AddrInFront(free: seq<Block>, s: Block, spot: Spot, after: seq<Block>, i: nat, end: nat)
    requires spot.In(free) && Positions(free, s, spot, after) && i < spot.From()
    ensures AddrAt(after, i + 1, end)
            == if i + 1 == spot.From() then spot.Merged(free, s).addr else AddrAt(free, i + 1, end)
  {
  }

  lemma AddrBehind(free: seq<Block>, s: Block, spot: Spot, after: seq<Block>, i: nat, end: nat)
    requires spot.In(free) && Positions(free, s, spot, after) && spot.From() <= i < |after|
    ensures AddrAt(after, i + 1, end) == AddrAt(free, i - spot.From() + spot.To(), end)
  {
  }

  lemma InsertChained(mem: map<nat, Link>, start: nat, free: seq<Block>, lo: nat, end: nat, s: Block, spot: Spot)
    requires Chained(mem, start, free, end) && Ordered(free, lo, end) && Apart(free, s) && spot.For(free, s)
    requires lo <= s.addr < s.End() <= end && (start < lo || end < start)
    ensures spot.Previous(free, start) in mem
    ensures Chained(Inserted(mem, start, free, end, s, spot), start, InsertFree(free, s), end)
  {
    if spot.k > 0 { assert free[spot.k - 1].addr in mem; }
    SpotBetween(free, lo, end, s, spot);
    InsertFreeAt(free, s, spot);
    PositionsChained(mem, start, free, lo, end, s, spot, InsertFree(free, s));
  }

  // ----- Headers of live blocks ---------------------------------------------------

  /** The headers of the live blocks have the allocation bit and no successor.
      Nothing is said of other slots: those inside a payload belong to whoever owns
      the block, and keep what was left there when it is freed. */
  ghost predicate Headers(mem: map<nat, Link>, live: set<Block>) {
    forall b :: b in live ==> b.addr in mem && mem[b.addr] == Link(0, b.size + AllocBit)
  }

  ghost predicate LiveAt(live: set<Block>, a: nat) {
    exists b :: b in live && b.addr == a
  }

  /** prvBlockIsAllocated on the slot at a; a slot never written is zero. */
  predicate Marked(mem: map<nat, Link>, a: nat) {
    a in mem && mem[a].size >= AllocBit
  }

  /** No slot of m' is marked that was not marked in m. */
  ghost predicate NoNewMarks(m: map<nat, Link>, m': map<nat, Link>) {
    forall a :: Marked(m', a) ==> Marked(m, a)
  }

  /** No slot of m' but the one at h is marked that was not marked in m. */
  ghost predicate MarksOnly(m: map<nat, Link>, m': map<nat, Link>, h: nat) {
    forall a :: Marked(m', a) ==> Marked(m, a) || a == h
  }

  lemma HeadersWrite(mem: map<nat, Link>, live: set<Block>, a: nat, link: Link)
    requires Headers(mem, live) && !LiveAt(live, a)
    ensures Headers(mem[a := link], live)
  {
  }

  lemma HeadersAdd(mem: map<nat, Link>, live: set<Block>, b: Block)
    requires Headers(mem, live) && !LiveAt(live, b.addr)
    ensures Headers(mem[b.addr := Link(0, b.size + AllocBit)], live + {b})
  {
  }

  lemma HeadersRemove(mem: map<nat, Link>, live: set<Block>, b: Block, link: Link)
    requires Headers(mem, live) && b in live
    requires forall c :: c in live && c.addr == b.addr ==> c == b
    ensures Headers(mem[b.addr := link], live - {b})
  {
  }

  lemma ChainedWrite(mem: map<nat, Link>, start: nat, free: seq<Block>, end: nat, a: nat, link: Link)
    requires Chained(mem, start, free, end) && a != start && a != end
    requires forall i :: 0 <= i < |free| ==> free[i].addr != a
    ensures Chained(mem[a := link], start, free, end)
  {
  }

  /** Memory in which s, in no list yet, may be inserted into the free list. */
  ghost predicate Insertable(mem: map<nat, Link>, start: nat, free: seq<Block>, lo: nat, end: nat, s: Block,
                             live: set<Block>) {
    && Chained(mem, start, free, end) && Ordered(free, lo, end) && (start < lo || end < start)
    && lo <= s.addr < s.End() <= end < AllocBit && Apart(free, s)
    && s.addr in mem && mem[s.addr].size == s.size && !s.live
    && Headers(mem, live) && !LiveAt(live, start) && !LiveAt(live, s.addr)
    && forall i :: 0 <= i < |free| ==> !LiveAt(live, free[i].addr)
  }

  /** An insertion writes no live header and sets no allocation bit; the inserted
      block's own slot ends up without one. */
  lemma HeadersInserted(mem: map<nat, Link>, start: nat, free: seq<Block>, lo: nat, end: nat, s: Block, spot: Spot,
                        live: set<Block>)
    requires Insertable(mem, start, free, lo, end, s, live) && spot.For(free, s)
    requires spot.Previous(free, start) in mem
    ensures Headers(Inserted(mem, start, free, end, s, spot), live)
    ensures NoNewMarks(mem, Inserted(mem, start, free, end, s, spot))
            && !Marked(Inserted(mem, start, free, end, s, spot), s.addr)
  {
    SpotBetween(free, lo, end, s, spot);
    MergedFits(free, lo, end, s, spot);
    hide Between;
    var merged, p := spot.Merged(free, s), spot.Previous(free, start);
    var link := Link(AddrAt(free, spot.To(), end), merged.size);
    HeadersWrite(mem, live, merged.addr, link);
    if !spot.left {
      HeadersWrite(mem[merged.addr := link], live, p, Link(s.addr, mem[p].size));
    }
  }

  lemma MergedFits(free: seq<Block>, lo: nat, end: nat, s: Block, spot: Spot)
    requires Between(free, lo, end, s, spot)
    ensures spot.Merged(free, s).size <= end
  {
  }

  // ----- The writes of the code -----------------------------------------------------------

  /** What prvInsertBlockIntoFreeList writes behind the header at `it`. */
  ghost function Spliced(mem: map<nat, Link>, it: nat, b: nat, end: nat): map<nat, Link>
    requires it in mem && b in mem && mem[it].next in mem
  {
    var left := it + mem[it].size == b;
    var m := if left then mem[it := mem[it].(size := mem[it].size + mem[b].size)] else mem;
    var block := if left then it else b;
    var next := m[it].next;
    var link := if block + m[block].size != next then m[block].(next := next)
                else if next != end then Link(m[next].next, m[block].size + m[next].size)
                else m[block].(next := end);
    var m' := m[block := link];
    if it != block then m'[it := m'[it].(next := block)] else m'
  }

  lemma SplicedIsInserted(mem: map<nat, Link>, start: nat, free: seq<Block>, lo: nat, end: nat, s: Block, spot: Spot)
    requires Between(free, lo, end, s, spot) && (start < lo || end < start) && spot.For(free, s)
    requires Chained(mem, start, free, end) && s.addr in mem && mem[s.addr].size == s.size
    ensures var it := spot.Previous(free, start);
            it in mem && mem[it].next in mem
              && Spliced(mem, it, s.addr, end) == Inserted(mem, start, free, end, s, spot)
  {
    if spot.k > 0 { assert free[spot.k - 1].addr in mem; }
    if spot.k < |free| { assert free[spot.k].addr in mem; }
    var it := spot.Previous(free, start);
    assert spot.left <==> it + mem[it].size == s.addr;
    assert mem[it].next == AddrAt(free, spot.k, end);
    assert spot.right ==> mem[mem[it].next] == Link(AddrAt(free, spot.k + 1, end), free[spot.k].size);
    assert s.addr < mem[it].next && (spot.right ==> mem[it].next != end);
    hide Chained, Between, Spot.For;
  }

  /** Where the walk of prvInsertBlockIntoFreeList stops. */
  ghost function Behind(free: seq<Block>, start: nat, b: nat): nat {
    PrevAddr(free, Below(free, b), start)
  }

  /** The insertion of s, which is in no list, gives the free list with s in it. */
  lemma InsertionOk(mem: map<nat, Link>, start: nat, free: seq<Block>, lo: nat, end: nat, s: Block, live: set<Block>,
                    other: nat)
    returns (after: seq<Block>)
    requires Insertable(mem, start, free, lo, end, s, live)
    requires other in mem && other != start && other != s.addr && forall i :: 0 <= i < |free| ==> free[i].addr != other
    ensures var it := Behind(free, start, s.addr); it in mem && mem[it].next in mem
    ensures var m := Spliced(mem, Behind(free, start, s.addr), s.addr, end);
            && IsInsert(free, s, after) && Chained(m, start, after, end) && Headers(m, live)
            && other in m && m[other] == mem[other]
            && NoNewMarks(mem, m) && !Marked(m, s.addr)
  {
    hide InsertFree, Positions, Headers, Between, LiveAt, Marked, NoNewMarks;
    var spot := SpotOf(free, s);
    InsertChained(mem, start, free, lo, end, s, spot);
    HeadersInserted(mem, start, free, lo, end, s, spot, live);
    InsertedOther(mem, start, free, end, s, spot, other);
    SpotBetween(free, lo, end, s, spot);
    SplicedIsInserted(mem, start, free, lo, end, s, spot);
    after := InsertFree(free, s);
    InsertFreeAt(free, s, spot);
  }

  lemma InsertableFacts(mem: map<nat, Link>, start: nat, free: seq<Block>, lo: nat, end: nat, s: Block,
                        live: set<Block>)
    requires Insertable(mem, start, free, lo, end, s, live)
    ensures Chained(mem, start, free, end) && Ordered(free, lo, end) && lo <= s.addr < end && s.addr in mem
            && s.addr != start
    ensures forall i :: 0 <= i < |free| ==> free[i].addr != s.addr
  {
  }

  /** The slot at a without its mark and without a successor. */
  ghost function Unmark(mem: map<nat, Link>, a: nat): map<nat, Link>
    requires Marked(mem, a)
  {
    mem[a := Link(0, mem[a].size - AllocBit)]
  }

  // ----- Facts about tilings -----------------------------------------------------------

  lemma OrderedCons(b: Block, free: seq<Block>, lo: nat, from: nat, hi: nat)
    requires Ordered(free, from, hi) && !b.live && lo <= b.addr < b.End() <= hi && b.End() < from
    ensures Ordered([b] + free, lo, hi)
  {
  }

  lemma OrderedFrom(free: seq<Block>, lo: nat, from: nat, hi: nat)
    requires Ordered(free, from, hi) && lo <= from
    ensures Ordered(free, lo, hi)
  {
  }

  lemma {:induction false} FreeIsOrdered(blocks: seq<Block>, lo: nat, hi: nat)
    requires Canonical(blocks, lo, hi)
    ensures Ordered(FreeOf(blocks), lo, hi)
    decreases |blocks|
  {
    if blocks != [] {
      var b, rest := blocks[0], blocks[1..];
      TiledAt(blocks, lo, hi, 0);
      FreeIsOrdered(rest, b.End(), hi);
      if b.live {
        assert FreeOf(blocks) == FreeOf(rest);
        OrderedFrom(FreeOf(rest), lo, b.End(), hi);
      } else if rest == [] {
        assert FreeOf(blocks) == [b];
      } else {
        TiledAt(blocks, lo, hi, 1);
        FreeIsOrdered(rest[1..], rest[0].End(), hi);
        assert FreeOf(rest) == FreeOf(rest[1..]);
        OrderedCons(b, FreeOf(rest), lo, rest[0].End(), hi);
      }
    }
  }

  lemma {:induction false} FreeFitsInSum(free: seq<Block>, i: nat)
    requires i < |free|
    ensures free[i].size <= SumSizes(free)
  {
    if i > 0 { FreeFitsInSum(free[1..], i - 1); }
  }

  lemma NotLive(blocks: seq<Block>, lo: nat, hi: nat, f: Block)
    requires Tiled(blocks, lo, hi) && f in FreeOf(blocks)
    ensures !LiveAt(LiveOf(blocks), f.addr)
  {
    FreeMember(blocks, f);
    var i :| 0 <= i < |blocks| && blocks[i] == f;
    forall b | b in LiveOf(blocks) ensures b.addr != f.addr {
      var j :| 0 <= j < |blocks| && blocks[j] == b;
      TiledAt(blocks, lo, hi, i);
      TiledAt(blocks, lo, hi, j);
      if i < j { TiledOrder(blocks, lo, hi, i, j); }
      if j < i { TiledOrder(blocks, lo, hi, j, i); }
    }
  }

  /** No live block begins strictly inside block i, nor outside the pool. */
  lemma NoLiveInside(blocks: seq<Block>, lo: nat, hi: nat, i: nat, a: nat)
    requires Tiled(blocks, lo, hi) && i < |blocks|
    requires (blocks[i].addr < a < blocks[i].End()) || a < lo || hi <= a
    ensures !LiveAt(LiveOf(blocks), a)
  {
    forall b | b in LiveOf(blocks) ensures b.addr != a {
      var j :| 0 <= j < |blocks| && blocks[j] == b;
      TiledAt(blocks, lo, hi, j);
      if i < j { TiledOrder(blocks, lo, hi, i, j); }
      if j < i { TiledOrder(blocks, lo, hi, j, i); }
    }
  }

  /** The headers in memory represent this tiling of [lo, hi). */
  ghost predicate Represents(mem: map<nat, Link>, start: nat, blocks: seq<Block>, lo: nat, hi: nat) {
    && Canonical(blocks, lo, hi) && lo < hi < AllocBit && (start < lo || hi < start)
    && Chained(mem, start, FreeOf(blocks), hi)
    && Headers(mem, LiveOf(blocks))
  }

  lemma {:induction false} SumConcat(a: seq<Block>, b: seq<Block>)
    ensures SumSizes(a + b) == SumSizes(a) + SumSizes(b)
    decreases |a|
  {
    if a == [] { assert a + b == b; }
    else {
      SumConcat(a[1..], b);
      assert (a + b)[1..] == a[1..] + b;
    }
  }

  lemma SumAround(a: seq<Block>, b: Block, c: seq<Block>)
    ensures SumSizes(a + [b] + c) == SumSizes(a) + b.size + SumSizes(c)
  {
    SumConcat(a + [b], c);
    SumConcat(a, [b]);
    assert [b][1..] == [];
  }

  /** Inserting a block adds its size to the free bytes, merged or not. */
  lemma InsertFreeSum(free: seq<Block>, s: Block)
    ensures SumSizes(InsertFree(free, s)) == SumSizes(free) + s.size
  {
    var k := Below(free, s.addr);
    var l := if k > 0 && free[k - 1].End() == s.addr then k - 1 else k;
    var r := if k < |free| && s.End() == free[k].addr then k + 1 else k;
    SumAround(free[..l], InsertFree(free, s)[l], free[r..]);
    hide SumSizes;
    SumThree(free, l, r);
    SumMiddle(free, l, k, r);
  }

  lemma SumThree(free: seq<Block>, l: nat, r: nat)
    requires l <= r <= |free|
    ensures SumSizes(free) == SumSizes(free[..l]) + SumSizes(free[l..r]) + SumSizes(free[r..])
  {
    hide SumSizes;
    assert free == free[..l] + free[l..];
    assert free[l..] == free[l..r] + free[r..];
    SumConcat(free[..l], free[l..]);
    SumConcat(free[l..r], free[r..]);
  }

  /** The blocks that an insertion at k merges with. */
  lemma SumMiddle(free: seq<Block>, l: nat, k: nat, r: nat)
    requires k <= |free| && (l == k || l + 1 == k) && (r == k || r == k + 1) && r <= |free|
    ensures SumSizes(free[l..r]) == (if l < k then free[l].size else 0) + if k < r then free[k].size else 0
  {
    if l < k && k < r {
      assert free[l..r] == [free[l], free[k]];
      SumCons(free[l], [free[k]]);
      SumOne(free[k]);
      assert [free[l]] + [free[k]] == [free[l], free[k]];
    } else if l < k {
      assert free[l..r] == [free[l]];
      SumOne(free[l]);
    } else if k < r {
      assert free[l..r] == [free[k]];
      SumOne(free[k]);
    }
  }

  lemma SumOne(b: Block)
    ensures SumSizes([b]) == b.size
  {
    assert [b][1..] == [];
  }

  /** A live block of the tiling, seen from the free list. */
  lemma LiveApart(blocks: seq<Block>, lo: nat, hi: nat, i: nat)
    requires Tiled(blocks, lo, hi) && i < |blocks| && blocks[i].live
    ensures lo <= blocks[i].addr < blocks[i].End() <= hi
    ensures forall f :: f in FreeOf(blocks) ==> f.End() <= blocks[i].addr || blocks[i].End() <= f.addr
    ensures forall f :: f in FreeOf(blocks) ==> f.addr != blocks[i].addr
    ensures forall c :: c in LiveOf(blocks) && c.addr == blocks[i].addr ==> c == blocks[i]
  {
    TiledAt(blocks, lo, hi, i);
    forall b | b in blocks && b != blocks[i]
      ensures b.addr != blocks[i].addr && (b.End() <= blocks[i].addr || blocks[i].End() <= b.addr)
    {
      var j :| 0 <= j < |blocks| && blocks[j] == b;
      TiledAt(blocks, lo, hi, j);
      if i < j { TiledOrder(blocks, lo, hi, i, j); }
      if j < i { TiledOrder(blocks, lo, hi, j, i); }
    }
    forall f | f in FreeOf(blocks) ensures f in blocks && !f.live { FreeMember(blocks, f); }
  }

  /** After clearing the header of live block i, its block can be inserted. */
  lemma Cleared(mem: map<nat, Link>, start: nat, blocks: seq<Block>, lo: nat, hi: nat, i: nat)
    requires Represents(mem, start, blocks, lo, hi) && i < |blocks| && blocks[i].live
    ensures var b := blocks[i];
            Insertable(mem[b.addr := Link(0, b.size)], start, FreeOf(blocks), lo, hi, b.(live := false),
                       LiveOf(blocks) - {b})
  {
    var b, free := blocks[i], FreeOf(blocks);
    LiveApart(blocks, lo, hi, i);
    FreeIsOrdered(blocks, lo, hi);
    assert forall j :: 0 <= j < |free| ==> free[j] in free;
    ChainedWrite(mem, start, free, hi, b.addr, Link(0, b.size));
    HeadersRemove(mem, LiveOf(blocks), b, Link(0, b.size));
    NoLiveInside(blocks, lo, hi, i, start);
    forall j | 0 <= j < |free| ensures !LiveAt(LiveOf(blocks) - {b}, free[j].addr) {
      NotLive(blocks, lo, hi, free[j]);
    }
  }

  lemma InsertFreeFlag(free: seq<Block>, b: Block)
    ensures InsertFree(free, b.(live := false)) == InsertFree(free, b)
  {
  }

  lemma IsInsertUnique(free: seq<Block>, s: Block, after: seq<Block>)
    requires IsInsert(free, s, after)
    ensures after == InsertFree(free, s)
  {
    InsertFreeAt(free, s, SpotOf(free, s));
    SamePositions(free, s, SpotOf(free, s), after, InsertFree(free, s));
  }

  lemma SamePositions(free: seq<Block>, s: Block, spot: Spot, a: seq<Block>, b: seq<Block>)
    requires spot.In(free) && Positions(free, s, spot, a) && Positions(free, s, spot, b)
    ensures a == b
  {
    forall i | 0 <= i < |a| ensures a[i] == b[i] {
    }
  }

  lemma SameInsert(free: seq<Block>, s: Block, a: seq<Block>, b: seq<Block>)
    requires IsInsert(free, s, a) && IsInsert(free, s, b)
    ensures a == b
  {
    SamePositions(free, s, SpotOf(free, s), a, b);
  }

  lemma RepresentsCanonical(mem: map<nat, Link>, start: nat, blocks: seq<Block>, lo: nat, hi: nat)
    requires Represents(mem, start, blocks, lo, hi)
    ensures Canonical(blocks, lo, hi) && lo < hi < AllocBit && (start < lo || hi < start)
  {
  }

  /** The end marker is neither free nor a block. */
  lemma EndIsOther(mem: map<nat, Link>, start: nat, blocks: seq<Block>, lo: nat, hi: nat, i: nat)
    requires Represents(mem, start, blocks, lo, hi) && i < |blocks|
    ensures hi in mem && hi != start && hi != blocks[i].addr
    ensures forall j :: 0 <= j < |FreeOf(blocks)| ==> FreeOf(blocks)[j].addr != hi
  {
    FreeIsOrdered(blocks, lo, hi);
    TiledAt(blocks, lo, hi, i);
  }

  /** The header of a live block tells its size. */
  lemma HeaderOf(mem: map<nat, Link>, start: nat, blocks: seq<Block>, lo: nat, hi: nat, a: nat)
    requires Represents(mem, start, blocks, lo, hi) && LiveAt(LiveOf(blocks), a)
    ensures a in mem && mem[a] == Link(0, blocks[BlockAt(blocks, a)].size + AllocBit)
  {
    assert blocks[BlockAt(blocks, a)] in LiveOf(blocks);
  }

  lemma NoneLive(b: Block)
    requires !b.live
    ensures forall a :: !LiveAt(LiveOf([b]), a)
  {
  }

  /** The headers of the free list are not marked. */
  lemma ListUnmarked(mem: map<nat, Link>, start: nat, blocks: seq<Block>, lo: nat, hi: nat)
    requires Represents(mem, start, blocks, lo, hi)
    ensures !Marked(mem, start) && !Marked(mem, hi)
    ensures forall j :: 0 <= j < |FreeOf(blocks)| ==> !Marked(mem, FreeOf(blocks)[j].addr)
  {
    FreeIsOrdered(blocks, lo, hi);
  }

  /** Memory whose free list has block i inserted and whose live headers are the
      others represents the tiling with block i released. */
  lemma Released(mem: map<nat, Link>, start: nat, blocks: seq<Block>, lo: nat, hi: nat, i: nat, free: seq<Block>,
                 after: seq<Block>)
    requires Canonical(blocks, lo, hi) && lo < hi < AllocBit && (start < lo || hi < start)
    requires i < |blocks| && blocks[i].live
    requires free == FreeOf(blocks) && IsInsert(free, blocks[i].(live := false), after)
    requires Chained(mem, start, after, hi) && Headers(mem, LiveOf(blocks) - {blocks[i]})
    ensures Represents(mem, start, Release(blocks, i), lo, hi)
    ensures SumSizes(FreeOf(Release(blocks, i))) == SumSizes(free) + blocks[i].size
  {
    IsInsertUnique(free, blocks[i].(live := false), after);
    InsertFreeFlag(free, blocks[i]);
    InsertFreeSum(free, blocks[i]);
    ReleaseFree(blocks, lo, hi, i);
    ReleaseCanonical(blocks, lo, hi, i);
  }

  /** Freeing a live block releases it. */
  lemma FreeIsRelease(mem: map<nat, Link>, start: nat, blocks: seq<Block>, lo: nat, hi: nat, a: nat, i: nat)
    requires Represents(mem, start, blocks, lo, hi) && i < |blocks| && blocks[i].live && blocks[i].addr == a
    ensures Marked(mem, a) && mem[a].size == blocks[i].size + AllocBit
    ensures var m, it := Unmark(mem, a), Behind(FreeOf(blocks), start, a);
            && it in m && m[it].next in m
            && var m' := Spliced(m, it, a, hi);
               && Represents(m', start, Release(blocks, i), lo, hi) && NoNewMarks(mem, m') && !Marked(m', a)
    ensures SumSizes(FreeOf(Release(blocks, i))) == SumSizes(FreeOf(blocks)) + blocks[i].size
  {
    assert blocks[i] in LiveOf(blocks);
    hide Canonical, Insertable, Release, FreeOf, SumSizes, LiveOf, Chained, IsInsert, Spliced, Behind;
    var free, b := FreeOf(blocks), blocks[i];
    EndIsOther(mem, start, blocks, lo, hi, i);
    Cleared(mem, start, blocks, lo, hi, i);
    var after := InsertionOk(Unmark(mem, a), start, free, lo, hi, b.(live := false), LiveOf(blocks) - {b}, hi);
    Released(Spliced(Unmark(mem, a), Behind(free, start, a), a, hi), start, blocks, lo, hi, i, free, after);
  }

  /** What the owner writes into the payload does not disturb the allocator. */
  lemma PayloadWrite(mem: map<nat, Link>, start: nat, blocks: seq<Block>, lo: nat, hi: nat, i: nat, a: nat, link: Link)
    requires Represents(mem, start, blocks, lo, hi) && i < |blocks| && blocks[i].live
             && blocks[i].addr < a < blocks[i].End()
    ensures Represents(mem[a := link], start, blocks, lo, hi)
  {
    LiveApart(blocks, lo, hi, i);
    NoLiveInside(blocks, lo, hi, i, a);
    var free := FreeOf(blocks);
    assert forall j :: 0 <= j < |free| ==> free[j] in free;
    FreeIsOrdered(blocks, lo, hi);
    ChainedWrite(mem, start, free, hi, a, link);
    HeadersWrite(mem, LiveOf(blocks), a, link);
  }

  lemma InsertedOther(mem: map<nat, Link>, start: nat, free: seq<Block>, end: nat, s: Block, spot: Spot, other: nat)
    requires spot.In(free) && spot.Previous(free, start) in mem
    requires other in mem && other != start && other != s.addr && forall i :: 0 <= i < |free| ==> free[i].addr != other
    ensures var m := Inserted(mem, start, free, end, s, spot); other in m && m[other] == mem[other]
  {
  }

  // ----- Taking a block out of the list ----------------------------------------------

  ghost function PrevAddr(free: seq<Block>, k: nat, start: nat): nat
    requires k <= |free|
  {
    if k == 0 then start else free[k - 1].addr
  }

  /** `rest` is `free` without its k-th block. */
  ghost predicate Without(free: seq<Block>, k: nat, rest: seq<Block>) {
    && k < |free| && |rest| == |free| - 1
    && (forall i :: 0 <= i < k ==> rest[i] == free[i])
    && (forall i :: k <= i < |rest| ==> rest[i] == free[i + 1])
  }

  lemma WithoutAt(free: seq<Block>, k: nat, rest: seq<Block>, end: nat, i: nat)
    requires Without(free, k, rest) && i <= |rest|
    ensures AddrAt(rest, i, end) == AddrAt(free, if i < k then i else i + 1, end)
  {
  }

  /** Pointing the previous header past block k takes it out of the list. */
  lemma Unlinked(mem: map<nat, Link>, start: nat, free: seq<Block>, k: nat, rest: seq<Block>, lo: nat, end: nat)
    requires Chained(mem, start, free, end) && Ordered(free, lo, end) && (start < lo || end < start)
    requires Without(free, k, rest)
    ensures var p := PrevAddr(free, k, start);
            && p in mem
            && Chained(mem[p := mem[p].(next := AddrAt(free, k + 1, end))], start, rest, end)
  {
    var p := PrevAddr(free, k, start);
    if k > 0 { assert free[k - 1].addr in mem; }
    var m := mem[p := mem[p].(next := AddrAt(free, k + 1, end))];
    WithoutAt(free, k, rest, end, 0);
    forall i | 0 <= i < |rest|
      ensures rest[i].addr in m && m[rest[i].addr] == Link(AddrAt(rest, i + 1, end), rest[i].size)
    {
      var j := if i < k then i else i + 1;
      WithoutAt(free, k, rest, end, i + 1);
      assert rest[i] == free[j] && free[j].addr in mem;
      if k > 0 && j != k - 1 { assert free[j].addr != free[k - 1].addr; }
    }
  }

  lemma OrderedWithout(free: seq<Block>, k: nat, rest: seq<Block>, lo: nat, end: nat)
    requires Ordered(free, lo, end) && Without(free, k, rest)
    ensures Ordered(rest, lo, end)
  {
  }

  /** No live block begins inside b. */
  ghost predicate Clear(live: set<Block>, b: Block) {
    forall c :: c in live ==> c.addr < b.addr || b.End() <= c.addr
  }

  /** The headers of the list are not those of live blocks. */
  ghost predicate ListClear(live: set<Block>, start: nat, free: seq<Block>) {
    !LiveAt(live, start) && forall i :: 0 <= i < |free| ==> !LiveAt(live, free[i].addr)
  }

  /** Memory in which the k-th free block has been taken out of the list. */
  ghost predicate Detached(mem: map<nat, Link>, start: nat, free: seq<Block>, k: nat, rest: seq<Block>, lo: nat,
                           hi: nat, live: set<Block>) {
    && Without(free, k, rest) && Ordered(free, lo, hi) && Ordered(rest, lo, hi)
    && lo < hi < AllocBit && (start < lo || hi < start)
    && Chained(mem, start, rest, hi) && Headers(mem, live) && free[k].addr in mem
    && ListClear(live, start, rest) && Clear(live, free[k])
  }

  lemma Unlinking(mem: map<nat, Link>, start: nat, free: seq<Block>, k: nat, rest: seq<Block>, lo: nat, hi: nat,
                  live: set<Block>)
    requires Chained(mem, start, free, hi) && Ordered(free, lo, hi) && lo < hi < AllocBit && (start < lo || hi < start)
    requires Headers(mem, live) && ListClear(live, start, free) && Without(free, k, rest) && Clear(live, free[k])
    ensures var p := PrevAddr(free, k, start);
            && free[k].addr in mem && mem[free[k].addr].size == free[k].size && p in mem
            && Detached(mem[p := mem[p].(next := mem[free[k].addr].next)], start, free, k, rest, lo, hi, live)
  {
    assert free[k].addr in mem;
    Unlinked(mem, start, free, k, rest, lo, hi);
    OrderedWithout(free, k, rest, lo, hi);
    var p := PrevAddr(free, k, start);
    if k > 0 { assert free[k - 1].addr in mem; }
    HeadersWrite(mem, live, p, mem[p].(next := mem[free[k].addr].next));
  }

  /** Headers inside the detached block may be rewritten. */
  lemma DetachedWrite(mem: map<nat, Link>, start: nat, free: seq<Block>, k: nat, rest: seq<Block>, lo: nat, hi: nat,
                      live: set<Block>, a: nat, link: Link)
    requires Detached(mem, start, free, k, rest, lo, hi, live)
    requires free[k].addr <= a < free[k].End()
    ensures Detached(mem[a := link], start, free, k, rest, lo, hi, live)
  {
    ApartFrom(free, k, rest, lo, hi);
    ChainedWrite(mem, start, rest, hi, a, link);
    HeadersWrite(mem, live, a, link);
  }

  lemma ApartFrom(free: seq<Block>, k: nat, rest: seq<Block>, lo: nat, hi: nat)
    requires Without(free, k, rest) && Ordered(free, lo, hi)
    ensures forall j :: 0 <= j < |rest| ==> rest[j].End() < free[k].addr || free[k].End() < rest[j].addr
    ensures forall j :: 0 <= j < |rest| ==> rest[j].addr < free[k].addr || free[k].End() < rest[j].addr
  {
  }

  /** The tail split off the detached block may be inserted. */
  lemma TailInsertable(mem: map<nat, Link>, start: nat, free: seq<Block>, k: nat, rest: seq<Block>, lo: nat, hi: nat,
                       live: set<Block>, w: nat)
    requires Detached(mem, start, free, k, rest, lo, hi, live) && 0 < w && Splits(free[k].size, w)
    requires free[k].addr + w in mem && mem[free[k].addr + w].size == free[k].size - w
    ensures Insertable(mem, start, rest, lo, hi, Block(free[k].addr + w, free[k].size - w, false), live)
    ensures free[k].addr != start && forall j :: 0 <= j < |rest| ==> rest[j].addr != free[k].addr
  {
    ApartFrom(free, k, rest, lo, hi);
  }

  // ----- From the free list back to the tiling ------------------------------------------

  lemma ListIsClear(blocks: seq<Block>, lo: nat, hi: nat, start: nat)
    requires Tiled(blocks, lo, hi) && (start < lo || hi < start) && blocks != []
    ensures ListClear(LiveOf(blocks), start, FreeOf(blocks))
  {
    var free := FreeOf(blocks);
    NoLiveInside(blocks, lo, hi, 0, start);
    forall j | 0 <= j < |free| ensures !LiveAt(LiveOf(blocks), free[j].addr) {
      assert free[j] in free;
      NotLive(blocks, lo, hi, free[j]);
    }
  }

  /** Where a free block of the tiling is in the free list. */
  lemma FreeIndex(blocks: seq<Block>, lo: nat, hi: nat, i: nat, rest: seq<Block>)
    requires Canonical(blocks, lo, hi) && i < |blocks| && !blocks[i].live
    requires rest == FreeOf(blocks[..i]) + FreeOf(blocks[i + 1..])
    ensures var k := |FreeOf(blocks[..i])|;
            Without(FreeOf(blocks), k, rest) && FreeOf(blocks)[k] == blocks[i]
  {
    var a, c, free := FreeOf(blocks[..i]), FreeOf(blocks[i + 1..]), FreeOf(blocks);
    FreeAroundFree(blocks, i);
    assert free == a + [blocks[i]] + c;
  }

  lemma FreeIsClear(blocks: seq<Block>, lo: nat, hi: nat, i: nat)
    requires Tiled(blocks, lo, hi) && i < |blocks| && !blocks[i].live
    ensures Clear(LiveOf(blocks), blocks[i])
  {
    forall c | c in LiveOf(blocks) ensures c.addr < blocks[i].addr || blocks[i].End() <= c.addr {
      var j :| 0 <= j < |blocks| && blocks[j] == c;
      TiledAt(blocks, lo, hi, j);
      if i < j { TiledOrder(blocks, lo, hi, i, j); }
      if j < i { TiledOrder(blocks, lo, hi, j, i); }
    }
  }

  /** The first block of the list that is large enough is the k-th, or there is none. */
  ghost predicate FitsFirst(free: seq<Block>, w: nat, k: nat) {
    k <= |free| && (forall j :: 0 <= j < k ==> free[j].size < w) && (k < |free| ==> free[k].size >= w)
  }

  lemma FitsBehind(x: Block, rest: seq<Block>, w: nat, k: nat)
    requires FitsFirst([x] + rest, w, k)
    ensures if x.size < w then k > 0 && FitsFirst(rest, w, k - 1) else k == 0
  {
    var free := [x] + rest;
    assert free[0] == x && forall j :: 0 <= j < |rest| ==> free[j + 1] == rest[j];
  }

  /** One step of the free list, of its length and of the first fit. */
  lemma HeadOfFree(blocks: seq<Block>, w: nat)
    requires blocks != []
    ensures FreeOf(blocks) == (if blocks[0].live then [] else [blocks[0]]) + FreeOf(blocks[1..])
    ensures FirstFit(blocks, w) == if !blocks[0].live && blocks[0].size >= w then 0 else 1 + FirstFit(blocks[1..], w)
    ensures |FreeOf(blocks[..0])| == 0
  {
  }

  lemma CountBefore(blocks: seq<Block>, i: nat)
    requires 0 < i <= |blocks|
    ensures |FreeOf(blocks[..i])| == (if blocks[0].live then 0 else 1) + |FreeOf(blocks[1..][..i - 1])|
  {
    FreeBefore(blocks, i);
  }

  /** The first fit in the tiling is the first fit in the free list. */
  lemma {:induction false} FitInFreeList(blocks: seq<Block>, w: nat, k: nat)
    requires FitsFirst(FreeOf(blocks), w, k)
    ensures var i := FirstFit(blocks, w);
            if k < |FreeOf(blocks)| then i < |blocks| && |FreeOf(blocks[..i])| == k else i == |blocks|
  {
    if blocks != [] {
      hide FitsFirst, FreeOf, FirstFit;
      var rest := blocks[1..];
      HeadOfFree(blocks, w);
      if blocks[0].live {
        assert FreeOf(blocks) == FreeOf(rest);
        FitInFreeList(rest, w, k);
        CountBefore(blocks, 1 + FirstFit(rest, w));
      } else {
        FitsBehind(blocks[0], FreeOf(rest), w, k);
        if blocks[0].size < w {
          FitInFreeList(rest, w, k - 1);
          CountBefore(blocks, 1 + FirstFit(rest, w));
        }
      }
    }
  }

  lemma FreeBefore(blocks: seq<Block>, i: nat)
    requires 0 < i <= |blocks|
    ensures FreeOf(blocks[..i]) == (if blocks[0].live then [] else [blocks[0]]) + FreeOf(blocks[1..][..i - 1])
  {
    assert blocks[..i][1..] == blocks[1..][..i - 1];
  }

  /** More than all the free bytes fits in no free block. */
  lemma NothingFits(blocks: seq<Block>, w: nat)
    requires w > SumSizes(FreeOf(blocks))
    ensures FirstFit(blocks, w) == |blocks|
  {
    var i := FirstFit(blocks, w);
    if i < |blocks| {
      FreeMember(blocks, blocks[i]);
      var j :| 0 <= j < |FreeOf(blocks)| && FreeOf(blocks)[j] == blocks[i];
      FreeFitsInSum(FreeOf(blocks), j);
    }
  }

  /** `list` is what remains of the free list when w bytes of its k-th block are
      taken: the rest, and the tail that was split off. */
  ghost predicate Leaves(free: seq<Block>, k: nat, w: nat, rest: seq<Block>, list: seq<Block>) {
    && Without(free, k, rest) && free[k].size >= w > 0
    && (Splits(free[k].size, w) ==> IsInsert(rest, Block(free[k].addr + w, free[k].size - w, false), list))
    && (!Splits(free[k].size, w) ==> list == rest)
  }

  ghost predicate NotIn(list: seq<Block>, a: nat) {
    forall j :: 0 <= j < |list| ==> list[j].addr != a
  }

  /** What the header writes of an allocation start from. */
  ghost predicate Takeable(start: nat, free: seq<Block>, k: nat, rest: seq<Block>, list: seq<Block>, w: nat,
                           lo: nat, hi: nat, live: set<Block>) {
    && Ordered(free, lo, hi) && lo < hi < AllocBit && (start < lo || hi < start)
    && ListClear(live, start, free) && Leaves(free, k, w, rest, list)
    && Clear(live, free[k]) && NotIn(list, free[k].addr)
  }

  /** The block an allocation makes live. */
  ghost function Taken(b: Block, w: nat): Block {
    Block(b.addr, if Splits(b.size, w) then w else b.size, true)
  }

  /** The free list without block i. */
  lemma RestOf(blocks: seq<Block>, lo: nat, hi: nat, i: nat, w: nat, free: seq<Block>, list: seq<Block>)
    returns (k: nat, rest: seq<Block>)
    requires Canonical(blocks, lo, hi) && i < |blocks| && !blocks[i].live && blocks[i].size >= w >= HeaderSize
    requires free == FreeOf(blocks) && list == FreeOf(Allocate(blocks, i, w))
    ensures k == |FreeOf(blocks[..i])| && k < |free| && free[k] == blocks[i] && Leaves(free, k, w, rest, list)
  {
    k, rest := |FreeOf(blocks[..i])|, FreeOf(blocks[..i]) + FreeOf(blocks[i + 1..]);
    hide IsInsert, Without;
    FreeIndex(blocks, lo, hi, i, rest);
    TakenList(blocks, lo, hi, i, w, rest);
  }

  lemma AllocationStarts(blocks: seq<Block>, lo: nat, hi: nat, start: nat, i: nat, w: nat, free: seq<Block>,
                         list: seq<Block>)
    returns (k: nat, rest: seq<Block>)
    requires Canonical(blocks, lo, hi) && lo < hi < AllocBit && (start < lo || hi < start)
    requires i < |blocks| && !blocks[i].live && blocks[i].size >= w >= HeaderSize && w % Alignment == 0
    requires free == FreeOf(blocks) && list == FreeOf(Allocate(blocks, i, w))
    ensures k == |FreeOf(blocks[..i])| && k < |free| && free[k] == blocks[i]
    ensures Takeable(start, free, k, rest, list, w, lo, hi, LiveOf(blocks))
  {
    FreeIsOrdered(blocks, lo, hi);
    ListIsClear(blocks, lo, hi, start);
    k, rest := RestOf(blocks, lo, hi, i, w, free, list);
    FreeIsClear(blocks, lo, hi, i);
    NoFreeThere(blocks, lo, hi, i, w, list);
  }

  lemma NoFreeThere(blocks: seq<Block>, lo: nat, hi: nat, i: nat, w: nat, list: seq<Block>)
    requires Canonical(blocks, lo, hi) && i < |blocks| && !blocks[i].live && blocks[i].size >= w >= HeaderSize
    requires w % Alignment == 0 && list == FreeOf(Allocate(blocks, i, w))
    ensures NotIn(list, blocks[i].addr)
  {
    var after := Allocate(blocks, i, w);
    AllocateCanonical(blocks, lo, hi, i, w);
    LiveApart(after, lo, hi, i);
    assert forall j :: 0 <= j < |list| ==> list[j] in list;
  }

  /** What the header writes leave behind represents the new tiling. */
  lemma AllocationEnds(mem: map<nat, Link>, start: nat, blocks: seq<Block>, lo: nat, hi: nat, i: nat, w: nat,
                       list: seq<Block>)
    requires Canonical(blocks, lo, hi) && lo < hi < AllocBit && (start < lo || hi < start)
    requires i < |blocks| && !blocks[i].live && blocks[i].size >= w >= HeaderSize && w % Alignment == 0
    requires list == FreeOf(Allocate(blocks, i, w)) && Chained(mem, start, list, hi)
    requires Headers(mem, LiveOf(blocks) + {Taken(blocks[i], w)})
    ensures Represents(mem, start, Allocate(blocks, i, w), lo, hi)
    ensures SumSizes(FreeOf(Allocate(blocks, i, w))) + Taken(blocks[i], w).size == SumSizes(FreeOf(blocks))
  {
    AllocateCanonical(blocks, lo, hi, i, w);
    AllocateSum(blocks, lo, hi, i, w);
  }

  /** The list after an allocation is the free list of the new tiling. */
  lemma TakenList(blocks: seq<Block>, lo: nat, hi: nat, i: nat, w: nat, rest: seq<Block>)
    requires Canonical(blocks, lo, hi) && i < |blocks| && !blocks[i].live && blocks[i].size >= w >= HeaderSize
    requires rest == FreeOf(blocks[..i]) + FreeOf(blocks[i + 1..])
    ensures var b, after := blocks[i], Allocate(blocks, i, w);
            && (Splits(b.size, w) ==> IsInsert(rest, Block(b.addr + w, b.size - w, false), FreeOf(after)))
            && (!Splits(b.size, w) ==> FreeOf(after) == rest)
  {
    AllocateFree(blocks, i, w);
    if Splits(blocks[i].size, w) {
      var tail := Block(blocks[i].addr + w, blocks[i].size - w, false);
      SplitTailStays(blocks, lo, hi, i, w);
      InsertFreeAt(rest, tail, SpotOf(rest, tail));
    }
  }

  /** An allocation takes exactly the new live block's bytes. */
  lemma AllocateSum(blocks: seq<Block>, lo: nat, hi: nat, i: nat, w: nat)
    requires i < |blocks| && !blocks[i].live && blocks[i].size >= w
    ensures SumSizes(FreeOf(Allocate(blocks, i, w))) + Taken(blocks[i], w).size == SumSizes(FreeOf(blocks))
  {
    var b, a, c := blocks[i], FreeOf(blocks[..i]), FreeOf(blocks[i + 1..]);
    AllocateFree(blocks, i, w);
    FreeAroundFree(blocks, i);
    SumAround(a, b, c);
    SumConcat(a, c);
    SumAround(a, Block(b.addr + w, b.size - w, false), c);
  }

  /** The block a live header belongs to. */
  /** What an allocation takes out of the block that serves it, in bytes: the rounded
      size if more than two headers are left of the block, otherwise all of it. */
  lemma AllocationTakes(blocks: seq<Block>, lo: nat, hi: nat, i: nat, w: nat)
    requires Canonical(blocks, lo, hi) && i < |blocks| && !blocks[i].live && blocks[i].size >= w
    requires w >= HeaderSize && w % Alignment == 0
    ensures var s := if blocks[i].size > w + 32 then w else blocks[i].size;
            var born := Block(blocks[i].addr, s, true);
            && w <= s <= w + 32 && born !in LiveOf(blocks) && LiveOf(Allocate(blocks, i, w)) == LiveOf(blocks) + {born}
            && SumSizes(FreeOf(Allocate(blocks, i, w))) == SumSizes(FreeOf(blocks)) - s
  {
    AllocateCanonical(blocks, lo, hi, i, w);
    AllocateSum(blocks, lo, hi, i, w);
    hide Allocate, FreeOf, SumSizes;
    var s := if blocks[i].size > w + 32 then w else blocks[i].size;
    NobodyLives(blocks, lo, hi, i, Block(blocks[i].addr, s, true));
  }

  /** At the address of a free block there is no live one. */
  lemma NobodyLives(blocks: seq<Block>, lo: nat, hi: nat, i: nat, b: Block)
    requires Tiled(blocks, lo, hi) && i < |blocks| && !blocks[i].live && b.addr == blocks[i].addr && b.live
    ensures b !in LiveOf(blocks)
  {
    if b in LiveOf(blocks) {
      var j :| 0 <= j < |blocks| && blocks[j] == b;
      TiledAt(blocks, lo, hi, i);
      TiledAt(blocks, lo, hi, j);
      if i < j { TiledOrder(blocks, lo, hi, i, j); }
      if j < i { TiledOrder(blocks, lo, hi, j, i); }
      assert false;
    }
  }

  /** A release gives back the one live block at that address. */
  lemma ReleaseGives(blocks: seq<Block>, lo: nat, hi: nat, i: nat)
    requires Canonical(blocks, lo, hi) && i < |blocks| && blocks[i].live
    ensures forall b :: b in LiveOf(blocks) && b.addr == blocks[i].addr ==>
              b == blocks[i] && LiveOf(Release(blocks, i)) == LiveOf(blocks) - {b}
  {
    ReleaseCanonical(blocks, lo, hi, i);
    hide Release, NoAdjacentFree;
    forall b | b in LiveOf(blocks) && b.addr == blocks[i].addr ensures b == blocks[i] {
      var j :| 0 <= j < |blocks| && blocks[j] == b;
      TiledAt(blocks, lo, hi, i);
      TiledAt(blocks, lo, hi, j);
      if i < j { TiledOrder(blocks, lo, hi, i, j); }
      if j < i { TiledOrder(blocks, lo, hi, j, i); }
    }
  }

  ghost function BlockAt(blocks: seq<Block>, a: nat): (i: nat)
    requires LiveAt(LiveOf(blocks), a)
    ensures i < |blocks| && blocks[i].live && blocks[i].addr == a
  {
    var b :| b in LiveOf(blocks) && b.addr == a;
    HeapSpec.IndexOf(blocks, b)
  }

  lemma {:induction false} BelowIs(free: seq<Block>, b: nat, k: nat)
    requires k <= |free| && (forall i :: 0 <= i < k ==> free[i].addr < b)
    requires k < |free| ==> b <= free[k].addr
    ensures Below(free, b) == k
  {
    if k > 0 { BelowIs(free[1..], b, k - 1); }
  }
}
