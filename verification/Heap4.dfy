/** portable/MemMang/heap_4.c: the code that walks and rewrites the free list. */
module Heap4 {
  import opened HeapSpec
  import opened HeapMemory
  import opened HeapStale

  class Heap {
    const start: nat     // address of xStart
    const lo: nat        // aligned start of the pool
    const hi: nat        // address of the end marker
    var mem: map<nat, Link>
    var end: nat         // pxEnd; 0 until the first use
    var freeBytes: nat   // xFreeBytesRemaining
    var minFree: nat     // xMinimumEverFreeBytes
    ghost var blocks: seq<Block>

    /** Before the first use the pool is one free block that nobody has written
        yet; afterwards memory represents the tiling, and the free bytes add up. */
    ghost predicate Valid()
      reads this
    {
      && 0 < lo < hi < AllocBit && (start < lo || hi < start)
      && Canonical(blocks, lo, hi)
      && (end == 0 ==> mem == map[] && blocks == [Block(lo, hi - lo, false)])
      && (end != 0 ==>
            && end == hi && Represents(mem, start, blocks, lo, hi)
            && freeBytes == SumSizes(FreeOf(blocks)) && minFree <= freeBytes)
    }

    /** The pool is `total` bytes at address `pool`, with xStart elsewhere; nothing
        is written until the first use. */
    constructor (startAddr: nat, pool: nat, total: nat)
      requires 0 < pool && 3 * HeaderSize <= total && pool + total < AllocBit
      requires startAddr < pool || pool + total <= startAddr
      ensures Valid() && end == 0 && start == startAddr
      ensures pool <= lo < pool + 16 && lo < hi && pool + total - 32 < hi <= pool + total - 16
      ensures lo % Alignment == 0 && hi % Alignment == 0
      ensures blocks == [Block(lo, hi - lo, false)]
    {
      hide Canonical, Represents, PoolStart, PoolEnd, FreeOf, SumSizes;
      PoolIsOneBlock(pool, total);
      var first, last := PoolStart(pool), PoolEnd(pool, total);
      start, lo, hi := startAddr, first, last;
      mem, end, freeBytes, minFree := map[], 0, 0, 0;
      blocks := [Block(first, last - first, false)];
    }

    /** vPortInitialiseBlocks: the end marker, one free block, the byte counters. */
    method Initialise()
      requires Valid() && end == 0
      modifies this
      ensures Valid() && end == hi && blocks == old(blocks)
      ensures freeBytes == hi - lo && minFree == hi - lo && NoNewMarks(old(mem), mem)
    {
      mem := map[start := Link(lo, 0), hi := Link(0, 0), lo := Link(hi, hi - lo)];
      end := hi;
      freeBytes := hi - lo;
      minFree := freeBytes;
      assert blocks[1..] == [] && FreeOf(blocks) == blocks;
      assert LiveOf(blocks) == {};
    }

    /** The search of pvPortMalloc: first fit in address order. */
    method FindFit(w: nat, ghost free: seq<Block>) returns (prev: nat, block: nat, ghost k: nat)
      requires Chained(mem, start, free, end) && Ordered(free, lo, end) && 0 < lo && 0 < w && end == hi
      ensures k <= |free| && prev == PrevAddr(free, k, start) && block == AddrAt(free, k, end)
      ensures forall i :: 0 <= i < k ==> free[i].size < w
      ensures k < |free| ==> free[k].size >= w
      ensures prev in mem && block in mem && mem[prev].next == block
      ensures block != end <==> k < |free|
    {
      prev, k := start, 0;
      block := mem[start].next;
      if free != [] { assert free[0].addr in mem; }
      while mem[block].size < w && mem[block].next != 0
        invariant 0 <= k <= |free| && prev == PrevAddr(free, k, start) && block == AddrAt(free, k, end)
        invariant prev in mem && block in mem && mem[prev].next == block
        invariant k < |free| ==> mem[block] == Link(AddrAt(free, k + 1, end), free[k].size)
        invariant forall i :: 0 <= i < k ==> free[i].size < w
        decreases |free| - k
      {
        prev := block;
        block := mem[block].next;
        k := k + 1;
        if k < |free| { assert free[k].addr in mem; }
      }
    }

    /** pvPortMalloc: NULL exactly for a zero or oversized request or when no free
        block is as large as the rounded size; otherwise the payload of the first
        free block that is, which becomes live. */
    method Malloc(wanted: nat) returns (p: nat)
      requires Valid() && wanted < 2 * AllocBit
      modifies this
      ensures Valid() && end == hi
      ensures var i := FirstFit(old(blocks), Rounded(wanted));
              if 0 < wanted < 0x8000_0000_0000_0000 && i < |old(blocks)|
              then p == old(blocks)[i].addr + HeaderSize && blocks == Allocate(old(blocks), i, Rounded(wanted))
                   && MarksOnly(old(mem), mem, p - HeaderSize)
              else p == 0 && blocks == old(blocks) && NoNewMarks(old(mem), mem)
      ensures var least := if old(end) == 0 then hi - lo else old(minFree);
              minFree == if freeBytes < least then freeBytes else least
      ensures var free := if old(end) == 0 then hi - lo else old(freeBytes);
              if p == 0 then LiveOf(blocks) == LiveOf(old(blocks)) && freeBytes == free
              else
                var w, i := Rounded(wanted), FirstFit(old(blocks), Rounded(wanted));
                && w % 16 == 0 && wanted + 16 <= w < wanted + 32 && i < |old(blocks)|
                && var s := if old(blocks)[i].size > w + 32 then w else old(blocks)[i].size;
                   && w <= s <= w + 32 && freeBytes == free - s && Block(p - 16, s, true) !in LiveOf(old(blocks))
                   && LiveOf(blocks) == LiveOf(old(blocks)) + {Block(p - 16, s, true)}
    {
      hide FirstFit, Allocate, LiveOf, SumSizes, FreeOf, Represents, Canonical;
      ghost var before, w' := blocks, Rounded(wanted);
      if FirstFit(before, w') < |before| { AllocationTakes(before, lo, hi, FirstFit(before, w'), w'); }
      if end == 0 {
        Initialise();
      }
      p := 0;
      if wanted == 0 || wanted >= AllocBit {
        return;
      }
      var w := wanted + HeaderSize;
      if w % Alignment != 0 {
        w := w + (Alignment - w % Alignment);
      }
      p := AllocateRounded(w);
    }

    /** The part of pvPortMalloc that works on the rounded size. */
    method AllocateRounded(w: nat) returns (p: nat)
      requires Valid() && end == hi && w >= HeaderSize && w % Alignment == 0
      modifies this
      ensures Valid() && end == hi && minFree == if freeBytes < old(minFree) then freeBytes else old(minFree)
      ensures var i := FirstFit(old(blocks), w);
              if i < |old(blocks)|
              then p == old(blocks)[i].addr + HeaderSize && blocks == Allocate(old(blocks), i, w)
                   && MarksOnly(old(mem), mem, p - HeaderSize)
              else p == 0 && blocks == old(blocks) && mem == old(mem)
    {
      p := 0;
      if w > freeBytes {
        NothingFits(blocks, w);
        return;
      }
      FreeIsOrdered(blocks, lo, hi);
      var prev, block;
      ghost var k;
      prev, block, k := FindFit(w, FreeOf(blocks));
      FitInFreeList(blocks, w, k);
      if block != end {
        p := mem[prev].next + HeaderSize;
        TakeFit(prev, block, w, k);
      }
    }

    method TakeFit(prev: nat, block: nat, w: nat, ghost k: nat)
      requires Valid() && end == hi && w >= HeaderSize && w % Alignment == 0
      requires var i := FirstFit(blocks, w);
               i < |blocks| && k == |FreeOf(blocks[..i])| && k < |FreeOf(blocks)| && block == FreeOf(blocks)[k].addr
      requires prev == PrevAddr(FreeOf(blocks), k, start)
      modifies this
      ensures Valid() && end == hi && minFree == if freeBytes < old(minFree) then freeBytes else old(minFree)
      ensures block == old(blocks)[FirstFit(old(blocks), w)].addr
      ensures blocks == Allocate(old(blocks), FirstFit(old(blocks), w), w) && MarksOnly(old(mem), mem, block)
    {
      ghost var i, free := FirstFit(blocks, w), FreeOf(blocks);
      ghost var list := FreeOf(Allocate(blocks, i, w));
      FreeFitsInSum(free, k);
      hide Takeable, Represents, Canonical, FirstFit, FreeOf, Allocate, SumSizes, LiveOf, Chained, Headers, PrevAddr;
      ghost var k', rest := AllocationStarts(blocks, lo, hi, start, i, w, free, list);
      Take(prev, block, w, free, k, rest, list, LiveOf(blocks));
      AllocationEnds(mem, start, blocks, lo, hi, i, w, list);
      blocks := Allocate(blocks, i, w);
    }

    /** Carve the k-th free block out of the list and mark it. */
    method Take(prev: nat, block: nat, w: nat, ghost free: seq<Block>, ghost k: nat, ghost rest: seq<Block>,
                ghost list: seq<Block>, ghost live: set<Block>)
      requires Takeable(start, free, k, rest, list, w, lo, hi, live)
      requires Chained(mem, start, free, hi) && Headers(mem, live)
      requires end == hi && prev == PrevAddr(free, k, start) && block == free[k].addr
      requires freeBytes >= free[k].size
      modifies this`mem, this`freeBytes, this`minFree
      ensures Chained(mem, start, list, hi) && Headers(mem, live + {Taken(free[k], w)})
      ensures freeBytes == old(freeBytes) - Taken(free[k], w).size
      ensures minFree == if freeBytes < old(minFree) then freeBytes else old(minFree)
      ensures MarksOnly(old(mem), mem, block)
    {
      Carve(prev, block, w, free, k, rest, list, live);
      HeadersAdd(mem, live, Taken(free[k], w));
      ChainedWrite(mem, start, list, hi, block, Link(0, mem[block].size + AllocBit));
      freeBytes := freeBytes - mem[block].size;
      if freeBytes < minFree {
        minFree := freeBytes;
      }
      mem := mem[block := Link(0, mem[block].size + AllocBit)];
    }

    /** Unlink the k-th free block and split its tail off if it is worth it. */
    method Carve(prev: nat, block: nat, w: nat, ghost free: seq<Block>, ghost k: nat, ghost rest: seq<Block>,
                 ghost list: seq<Block>, ghost live: set<Block>)
      requires Takeable(start, free, k, rest, list, w, lo, hi, live)
      requires Chained(mem, start, free, hi) && Headers(mem, live)
      requires end == hi && prev == PrevAddr(free, k, start) && block == free[k].addr
      modifies this`mem
      ensures Chained(mem, start, list, hi) && Headers(mem, live) && block in mem && NoNewMarks(old(mem), mem)
      ensures mem[block].size == if Splits(free[k].size, w) then w else free[k].size
    {
      hide IsInsert, Insertable, Positions, ListClear, Headers, Spliced;
      Unlinking(mem, start, free, k, rest, lo, hi, live);
      mem := mem[prev := mem[prev].(next := mem[block].next)];
      assert mem[block].size == free[k].size;
      if mem[block].size - w > 2 * HeaderSize {
        SplitTail(block, w, free, k, rest, list, live);
      }
    }

    /** The tail behind the first w bytes of the detached block becomes a free block. */
    method SplitTail(block: nat, w: nat, ghost free: seq<Block>, ghost k: nat, ghost rest: seq<Block>,
                     ghost list: seq<Block>, ghost live: set<Block>)
      requires k < |free| && Detached(mem, start, free, k, rest, lo, hi, live) && 0 < w && Splits(free[k].size, w)
               && end == hi
      requires IsInsert(rest, Block(free[k].addr + w, free[k].size - w, false), list)
      requires block == free[k].addr && mem[block].size == free[k].size
      modifies this`mem
      ensures Chained(mem, start, list, hi) && Headers(mem, live) && NoNewMarks(old(mem), mem)
      ensures block in mem && mem[block].size == w
    {
      hide IsInsert, Insertable, Detached, Headers, Spliced, Chained, Ordered, Marked, Behind;
      ghost var tail := Block(block + w, free[k].size - w, false);
      WriteTail(block, w, free, k, rest, live);
      ghost var after := InsertionOk(mem, start, rest, lo, hi, tail, live, block);
      InsertableFacts(mem, start, rest, lo, hi, tail, live);
      InsertBlock(block + w, rest);
      SameInsert(rest, tail, list, after);
    }

    /** The header of the tail, and the new size of the block. */
    method WriteTail(block: nat, w: nat, ghost free: seq<Block>, ghost k: nat, ghost rest: seq<Block>,
                     ghost live: set<Block>)
      requires Detached(mem, start, free, k, rest, lo, hi, live) && 0 < w && Splits(free[k].size, w)
      requires block == free[k].addr && mem[block].size == free[k].size
      modifies this`mem
      ensures Insertable(mem, start, rest, lo, hi, Block(block + w, free[k].size - w, false), live)
      ensures block in mem && mem[block].size == w && block != start
              && forall j :: 0 <= j < |rest| ==> rest[j].addr != block
      ensures NoNewMarks(old(mem), mem)
    {
      var tail := block + w;
      var link := Link(if tail in mem then mem[tail].next else 0, mem[block].size - w);
      DetachedWrite(mem, start, free, k, rest, lo, hi, live, tail, link);
      mem := mem[tail := link];
      DetachedWrite(mem, start, free, k, rest, lo, hi, live, block, mem[block].(size := w));
      mem := mem[block := mem[block].(size := w)];
      TailInsertable(mem, start, free, k, rest, lo, hi, live, w);
    }

    /** The walk of prvInsertBlockIntoFreeList. */
    method FindPrevious(b: nat, ghost free: seq<Block>) returns (it: nat, ghost k: nat)
      requires Chained(mem, start, free, end) && Ordered(free, lo, end)
      requires lo <= b < end && forall i :: 0 <= i < |free| ==> free[i].addr != b
      ensures k == Below(free, b) && it == (if k == 0 then start else free[k - 1].addr)
      ensures it in mem && mem[it].next == AddrAt(free, k, end)
    {
      it, k := start, 0;
      while mem[it].next < b
        invariant 0 <= k <= |free| && it == (if k == 0 then start else free[k - 1].addr) && it in mem
        invariant forall i :: 0 <= i < k ==> free[i].addr < b
        invariant mem[it].next == AddrAt(free, k, end)
        decreases |free| - k
      {
        it := mem[it].next;
        k := k + 1;
      }
      BelowIs(free, b, k);
    }

    /** vPortFree, for NULL and for every slot of the pool and of xStart. The mark of
        the slot decides: without it nothing happens. A marked slot that is the
        header of a live block releases that block. A marked slot that is not, which
        can only lie strictly inside a block, leaves memory that represents no
        tiling at all. */
    method Free(p: nat)
      requires Valid() && (p == 0 || (HeaderSize <= p && (p - HeaderSize == start || lo <= p - HeaderSize <= hi)))
      modifies this`mem, this`freeBytes, this`blocks
      ensures Valid() <==> p == 0 || !Marked(old(mem), p - HeaderSize) || LiveAt(LiveOf(old(blocks)), p - HeaderSize)
      ensures p == 0 || !Marked(old(mem), p - HeaderSize) ==>
                blocks == old(blocks) && mem == old(mem) && freeBytes == old(freeBytes)
      ensures p != 0 && LiveAt(LiveOf(old(blocks)), p - HeaderSize) ==>
                && Marked(old(mem), p - HeaderSize)
                && blocks == Release(old(blocks), BlockAt(old(blocks), p - HeaderSize))
                && NoNewMarks(old(mem), mem) && !Marked(mem, p - HeaderSize)
      ensures p != 0 ==> forall b :: b in LiveOf(old(blocks)) && b.addr == p - 16 ==>
                LiveOf(blocks) == LiveOf(old(blocks)) - {b} && freeBytes == old(freeBytes) + b.size
      ensures p != 0 && Marked(old(mem), p - HeaderSize) && !LiveAt(LiveOf(old(blocks)), p - HeaderSize) ==>
                && Inside(old(blocks), p - HeaderSize) && blocks == old(blocks)
                && forall b :: !Represents(mem, start, b, lo, hi)
    {
      hide Represents, Canonical, Release, FreeOf, SumSizes, LiveOf, BlockAt, NoNewMarks, Inside;
      if p == 0 {
        return;
      }
      var a := p - HeaderSize;
      if end == 0 {
        NoneLive(blocks[0]);
      } else if LiveAt(LiveOf(blocks), a) {
        HeaderOf(mem, start, blocks, lo, hi, a);
      }
      if !Marked(mem, a) {
        return;
      }
      ghost var before := mem;
      MarkedSlot(mem, start, blocks, lo, hi, a);
      Reinsert(a);
      if LiveAt(LiveOf(blocks), a) {
        ghost var i := BlockAt(blocks, a);
        FreeIsRelease(before, start, blocks, lo, hi, a, i);
        RepresentsCanonical(mem, start, Release(blocks, i), lo, hi);
        ReleaseGives(blocks, lo, hi, i);
        blocks := Release(blocks, i);
      } else {
        StaleFreeBreaks(before, start, blocks, lo, hi, a);
      }
    }

    /** Clear the allocation bit, count the bytes, rejoin the free list. */
    method Reinsert(a: nat)
      requires Represents(mem, start, blocks, lo, hi) && end == hi && Marked(mem, a) && lo <= a < hi && a != start
      requires forall j :: 0 <= j < |FreeOf(blocks)| ==> FreeOf(blocks)[j].addr != a
      modifies this`mem, this`freeBytes
      ensures var m, it := Unmark(old(mem), a), Behind(FreeOf(blocks), start, a);
              it in m && m[it].next in m && mem == Spliced(m, it, a, hi)
      ensures freeBytes == old(freeBytes) + old(mem)[a].size - AllocBit
    {
      FreeIsOrdered(blocks, lo, hi);
      ChainedWrite(mem, start, FreeOf(blocks), hi, a, Link(0, mem[a].size - AllocBit));
      hide Canonical, FreeOf, Headers, LiveOf, Chained, Spliced, Behind;
      mem := mem[a := Link(0, mem[a].size - AllocBit)];
      freeBytes := freeBytes + mem[a].size;
      InsertBlock(a, FreeOf(blocks));
    }

    /** The application writes a slot of a payload it owns: any value, at any time. */
    method Write(a: nat, link: Link, ghost i: nat)
      requires Valid() && end != 0 && i < |blocks| && blocks[i].live
      requires blocks[i].addr + HeaderSize <= a < blocks[i].End() && (a - blocks[i].addr) % Alignment == 0
      requires link.next < 2 * AllocBit && link.size < 2 * AllocBit
      modifies this`mem
      ensures Valid() && mem == old(mem)[a := link]
    {
      hide Represents, Canonical, FreeOf, SumSizes;
      PayloadWrite(mem, start, blocks, lo, hi, i, a, link);
      mem := mem[a := link];
    }

    /** prvInsertBlockIntoFreeList: the header at b joins the list. */
    method InsertBlock(b: nat, ghost free: seq<Block>)
      requires Chained(mem, start, free, end) && Ordered(free, lo, end) && lo <= b < end && b in mem && b != start
      requires forall i :: 0 <= i < |free| ==> free[i].addr != b
      modifies this`mem
      ensures var m, it := old(mem), Behind(free, start, b);
              it in m && m[it].next in m && mem == Spliced(m, it, b, end)
    {
      var it;
      ghost var k;
      it, k := FindPrevious(b, free);
      assert mem[it].next in mem by {
        if k < |free| { assert free[k].addr in mem; }
      }
      hide Chained, Ordered;
      Splice(it, b);
    }

    /** The header writes: merge with the block in front, with the one behind. */
    method Splice(it: nat, b: nat)
      requires it in mem && b in mem && it != b && mem[it].next in mem
      modifies this`mem
      ensures mem == Spliced(old(mem), it, b, end)
    {
      var block := b;
      if it + mem[it].size == b {
        mem := mem[it := mem[it].(size := mem[it].size + mem[b].size)];
        block := it;
      }
      var next := mem[it].next;
      if block + mem[block].size == next {
        if next != end {
          mem := mem[block := Link(mem[next].next, mem[block].size + mem[next].size)];
        } else {
          mem := mem[block := mem[block].(next := end)];
        }
      } else {
        mem := mem[block := mem[block].(next := next)];
      }
      if it != block {
        mem := mem[it := mem[it].(next := block)];
      }
    }
  }

  /** The first aligned address of the pool. */
  function PoolStart(pool: nat): (a: nat)
    ensures a % Alignment == 0 && pool <= a < pool + Alignment
  {
    if pool % Alignment != 0 then (pool + (Alignment - 1)) - (pool + (Alignment - 1)) % Alignment else pool
  }

  /** The last aligned address that leaves room for the end marker. */
  function PoolEnd(pool: nat, total: nat): (a: nat)
    requires 3 * HeaderSize <= total
    ensures a % Alignment == 0 && pool + total - HeaderSize - Alignment < a <= pool + total - HeaderSize
  {
    var size := total - (PoolStart(pool) - pool);
    var a := PoolStart(pool) + size - HeaderSize;
    a - a % Alignment
  }

  lemma OneBlock(lo: nat, hi: nat)
    requires lo + HeaderSize <= hi && (hi - lo) % Alignment == 0
    ensures Canonical([Block(lo, hi - lo, false)], lo, hi)
  {
    assert [Block(lo, hi - lo, false)][1..] == [];
  }

  /** The aligned pool holds one block and the end marker. */
  lemma PoolIsOneBlock(pool: nat, total: nat)
    requires 3 * HeaderSize <= total
    ensures var lo, hi := PoolStart(pool), PoolEnd(pool, total);
            && pool <= lo < hi && hi + HeaderSize <= pool + total
            && Canonical([Block(lo, hi - lo, false)], lo, hi)
  {
    hide PoolStart, PoolEnd, Canonical;
    OneBlock(PoolStart(pool), PoolEnd(pool, total));
  }
}
