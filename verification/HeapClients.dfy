/** What an application sees of the allocator of portable/MemMang/heap_4.c. */
module HeapClients {
  import opened HeapSpec
  import opened HeapMemory
  import opened HeapStale
  import opened Heap4

  /** A write to the slot at an offset into a payload. */
  datatype Store = Store(offset: nat, link: Link) {
    ghost predicate Fits(wanted: nat) {
      && offset % Alignment == 0 && offset + 2 * HeaderSize <= Rounded(wanted)
      && link.next < 2 * AllocBit && link.size < 2 * AllocBit
    }
  }

  /** An application allocates, writes whatever it likes into its block and frees it:
      the heap is as it was, block for block and byte for byte of free space. */
  method AllocateUseFree(h: Heap, wanted: nat, stores: seq<Store>)
    requires h.Valid() && wanted < 2 * AllocBit && forall j :: 0 <= j < |stores| ==> stores[j].Fits(wanted)
    modifies h
    ensures h.Valid() && h.blocks == old(h.blocks)
    ensures old(h.end) != 0 ==> h.freeBytes == old(h.freeBytes)
  {
    hide Represents, Canonical, FreeOf, SumSizes, Allocate, Release, LiveAt, LiveOf, FirstFit, Marked, MarksOnly,
      NoNewMarks;
    ghost var blocks := h.blocks;
    var p := h.Malloc(wanted);
    if p == 0 {
      return;
    }
    ghost var i := FirstFit(blocks, Rounded(wanted));
    AllocatedBlock(blocks, h.lo, h.hi, i, Rounded(wanted));
    ghost var after := Allocate(blocks, i, Rounded(wanted));
    var j := 0;
    while j < |stores|
      invariant j <= |stores| && h.Valid() && h.end == h.hi && h.blocks == after
    {
      assert stores[j].Fits(wanted);
      h.Write(p + stores[j].offset, stores[j].link, i);
      j := j + 1;
    }
    h.Free(p);
  }

  /** The block an allocation made, and what releasing it does. */
  lemma AllocatedBlock(blocks: seq<Block>, lo: nat, hi: nat, i: nat, w: nat)
    requires Canonical(blocks, lo, hi) && i < |blocks| && !blocks[i].live && blocks[i].size >= w && w >= HeaderSize
             && w % Alignment == 0
    ensures var after := Allocate(blocks, i, w);
            && lo <= blocks[i].addr <= hi && i < |after| && after[i].live && after[i].addr == blocks[i].addr
            && after[i].size >= w
            && LiveAt(LiveOf(after), blocks[i].addr) && Release(after, BlockAt(after, blocks[i].addr)) == blocks
  {
    var after := Allocate(blocks, i, w);
    AllocateCanonical(blocks, lo, hi, i, w);
    ReleaseUndoesAllocate(blocks, lo, hi, i, w);
    assert after[i] in LiveOf(after);
    BlockAtIs(after, lo, hi, i);
    TiledAt(blocks, lo, hi, i);
  }

  /** A live block is found by its address. */
  lemma BlockAtIs(blocks: seq<Block>, lo: nat, hi: nat, i: nat)
    requires Tiled(blocks, lo, hi) && i < |blocks| && blocks[i].live
    ensures LiveAt(LiveOf(blocks), blocks[i].addr) && BlockAt(blocks, blocks[i].addr) == i
  {
    assert blocks[i] in LiveOf(blocks);
    var j := BlockAt(blocks, blocks[i].addr);
    TiledAt(blocks, lo, hi, i);
    TiledAt(blocks, lo, hi, j);
    if i < j { TiledOrder(blocks, lo, hi, i, j); }
    if j < i { TiledOrder(blocks, lo, hi, j, i); }
  }

  /** Freeing a block a second time at once changes nothing. */
  method FreeTwice(h: Heap, p: nat)
    requires h.Valid() && HeaderSize <= p && LiveAt(LiveOf(h.blocks), p - HeaderSize)
    modifies h
    ensures h.Valid() && h.blocks == Release(old(h.blocks), BlockAt(old(h.blocks), p - HeaderSize))
  {
    hide Represents, FreeOf, SumSizes, Release, LiveAt, Marked, NoNewMarks;
    LiveInPool(h.blocks, h.lo, h.hi, p - HeaderSize);
    h.Free(p);
    h.Free(p);
  }

  lemma LiveInPool(blocks: seq<Block>, lo: nat, hi: nat, a: nat)
    requires Canonical(blocks, lo, hi) && LiveAt(LiveOf(blocks), a)
    ensures lo <= a <= hi
  {
    TiledAt(blocks, lo, hi, BlockAt(blocks, a));
  }

  /** The payload pointers of the live blocks. */
  ghost predicate Live(blocks: seq<Block>, p: nat) {
    HeaderSize <= p && LiveAt(LiveOf(blocks), p - HeaderSize)
  }

  /** An application frees everything it holds, in any order: the heap is the one free
      block it began with, and all of the pool is counted as free. */
  method FreeAll(h: Heap, order: seq<nat>)
    requires h.Valid() && (forall p :: p in order <==> Live(h.blocks, p))
    requires forall i, j :: 0 <= i < j < |order| ==> order[i] != order[j]
    modifies h
    ensures h.Valid() && h.blocks == [Block(h.lo, h.hi - h.lo, false)]
    ensures h.end != 0 ==> h.freeBytes == h.hi - h.lo
  {
    hide Represents, FreeOf, SumSizes, Release, LiveAt, LiveOf, Marked, NoNewMarks, Canonical, Inside;
    var j := 0;
    while j < |order|
      invariant j <= |order| && h.Valid() && forall p :: p in order[j..] <==> Live(h.blocks, p)
    {
      var p := order[j];
      assert p in order[j..];
      LiveInPool(h.blocks, h.lo, h.hi, p - HeaderSize);
      ReleasedPointers(h.blocks, h.lo, h.hi, p);
      NextPointers(order, j);
      h.Free(p);
      j := j + 1;
    }
    assert order[|order|..] == [];
    NothingLive(h.blocks, h.lo, h.hi);
  }

  lemma NextPointers(order: seq<nat>, j: nat)
    requires j < |order| && forall i, k :: 0 <= i < k < |order| ==> order[i] != order[k]
    ensures forall p :: p in order[j + 1..] <==> p in order[j..] && p != order[j]
  {
    assert order[j..] == [order[j]] + order[j + 1..];
  }

  /** Releasing a block takes its pointer and no other. */
  lemma ReleasedPointers(blocks: seq<Block>, lo: nat, hi: nat, p: nat)
    requires Canonical(blocks, lo, hi) && Live(blocks, p)
    ensures var after := Release(blocks, BlockAt(blocks, p - HeaderSize));
            forall q :: Live(after, q) <==> Live(blocks, q) && q != p
  {
    var i := BlockAt(blocks, p - HeaderSize);
    ReleaseCanonical(blocks, lo, hi, i);
    LiveApart(blocks, lo, hi, i);
    hide Release, Canonical, LiveOf, Tiled, BlockAt;
    var after := Release(blocks, i);
    forall q: nat ensures Live(after, q) <==> Live(blocks, q) && q != p {
      if Live(blocks, q) && q != p {
        var b :| b in LiveOf(blocks) && b.addr == q - HeaderSize;
        assert b in LiveOf(after);
      }
    }
  }

  lemma NothingLive(blocks: seq<Block>, lo: nat, hi: nat)
    requires Canonical(blocks, lo, hi) && lo < hi && forall p :: !Live(blocks, p)
    ensures blocks == [Block(lo, hi - lo, false)] && SumSizes(FreeOf(blocks)) == hi - lo
  {
    LiveHasPointer(blocks);
    ReleaseAllInAnyOrder(blocks, lo, hi, []);
    SumOne(Block(lo, hi - lo, false));
    FreeOfOne(Block(lo, hi - lo, false));
  }

  lemma LiveHasPointer(blocks: seq<Block>)
    ensures forall b :: b in LiveOf(blocks) ==> Live(blocks, b.addr + HeaderSize)
  {
    forall b | b in LiveOf(blocks) ensures Live(blocks, b.addr + HeaderSize) {
      assert LiveAt(LiveOf(blocks), b.addr);
    }
  }

  lemma FreeOfOne(b: Block)
    requires !b.live
    ensures FreeOf([b]) == [b]
  {
    assert [b][1..] == [];
  }

  /** The second free that does harm: two neighbours are allocated and freed, a
      larger block takes their place, its owner fills it, and then the second of the
      two is freed again. Its old header is data of the new owner by now, and memory
      ends up representing no heap at all. */
  method SecondFreeAfterReuse(h: Heap)
    requires h.Valid() && h.blocks == [Block(h.lo, h.hi - h.lo, false)] && h.hi - h.lo >= 1024
    modifies h
    ensures forall b :: !Represents(h.mem, h.start, b, h.lo, h.hi)
  {
    hide Represents, Canonical, FreeOf, SumSizes, Allocate, Release, LiveAt, LiveOf, FirstFit, MarksOnly,
      NoNewMarks, Inside;
    ghost var lo, hi := h.lo, h.hi;
    FirstOfTwo(lo, hi);
    var a := h.Malloc(16);
    var b := h.Malloc(16);
    h.Free(a);
    h.Free(b);
    LargerBlock(lo, hi);
    var c := h.Malloc(200);
    h.Write(b - HeaderSize, Link(0, AllocBit), 0);
    h.Free(b);
  }

  /** Two allocations from an empty heap, and their releases. */
  lemma FirstOfTwo(lo: nat, hi: nat)
    requires hi - lo >= 1024 && Canonical([Block(lo, hi - lo, false)], lo, hi)
    ensures Rounded(16) == 32
    ensures var one, two := Block(lo, 32, true), Block(lo + 32, 32, true);
            var b0 := [Block(lo, hi - lo, false)];
            var b1, b2 := [one, Block(lo + 32, hi - lo - 32, false)], [one, two, Block(lo + 64, hi - lo - 64, false)];
            && FirstFit(b0, 32) == 0 && Allocate(b0, 0, 32) == b1
            && FirstFit(b1, 32) == 1 && Allocate(b1, 1, 32) == b2
            && LiveAt(LiveOf(b2), lo) && BlockAt(b2, lo) == 0
            && var b3 := Release(b2, 0);
               LiveAt(LiveOf(b3), lo + 32) && Release(b3, BlockAt(b3, lo + 32)) == b0
  {
    var one, two := Block(lo, 32, true), Block(lo + 32, 32, true);
    var b0, b1 := [Block(lo, hi - lo, false)], [one, Block(lo + 32, hi - lo - 32, false)];
    TwoAllocations(lo, hi);
    AllocateCanonical(b0, lo, hi, 0, 32);
    AllocateCanonical(b1, lo, hi, 1, 32);
    hide Canonical, Allocate;
    TwoReleases(lo, hi, one, two, Block(lo + 64, hi - lo - 64, false));
  }

  lemma TwoAllocations(lo: nat, hi: nat)
    requires hi - lo >= 1024
    ensures var one, two := Block(lo, 32, true), Block(lo + 32, 32, true);
            var b0 := [Block(lo, hi - lo, false)];
            var b1, b2 := [one, Block(lo + 32, hi - lo - 32, false)], [one, two, Block(lo + 64, hi - lo - 64, false)];
            && FirstFit(b0, 32) == 0 && Allocate(b0, 0, 32) == b1
            && FirstFit(b1, 32) == 1 && Allocate(b1, 1, 32) == b2
  {
    var one, two := Block(lo, 32, true), Block(lo + 32, 32, true);
    var b0, b1 := [Block(lo, hi - lo, false)], [one, Block(lo + 32, hi - lo - 32, false)];
    AllocateIs(b0, 0, 32);
    AllocateIs(b1, 1, 32);
    assert b1[1..] == [Block(lo + 32, hi - lo - 32, false)];
    hide Allocate;
  }

  lemma TwoReleases(lo: nat, hi: nat, one: Block, two: Block, rest: Block)
    requires one.live && two.live && !rest.live && one.addr == lo && one != two && Canonical([one, two, rest], lo, hi)
    requires lo < hi && Canonical([Block(lo, hi - lo, false)], lo, hi)
    ensures var b2 := [one, two, rest];
            && LiveAt(LiveOf(b2), lo) && BlockAt(b2, lo) == 0
            && var b3 := Release(b2, 0);
               LiveAt(LiveOf(b3), two.addr) && Release(b3, BlockAt(b3, two.addr)) == [Block(lo, hi - lo, false)]
  {
    var b2 := [one, two, rest];
    BlockAtIs(b2, lo, hi, 0);
    ReleaseCanonical(b2, lo, hi, 0);
    var b3 := Release(b2, 0);
    assert b2[1] == two && two in LiveOf(b2) && two in LiveOf(b3);
    var j := BlockAt(b3, two.addr);
    assert b3[j] in LiveOf(b3);
    LastRelease(b3, lo, hi, j, two);
  }

  lemma LastRelease(b: seq<Block>, lo: nat, hi: nat, j: nat, last: Block)
    requires Canonical(b, lo, hi) && j < |b| && b[j].live && LiveOf(b) <= {last}
    requires lo < hi && Canonical([Block(lo, hi - lo, false)], lo, hi)
    ensures Release(b, j) == [Block(lo, hi - lo, false)]
  {
    ReleaseCanonical(b, lo, hi, j);
    assert b[j] in LiveOf(b);
    assert LiveOf([Block(lo, hi - lo, false)]) == {};
    hide Canonical, Release;
    CanonicalUnique(Release(b, j), [Block(lo, hi - lo, false)], lo, hi);
  }

  lemma LargerBlock(lo: nat, hi: nat)
    requires hi - lo >= 1024
    ensures Rounded(200) == 224
    ensures var b0, b1 := [Block(lo, hi - lo, false)], [Block(lo, 224, true), Block(lo + 224, hi - lo - 224, false)];
            FirstFit(b0, 224) == 0 && Allocate(b0, 0, 224) == b1 && !LiveAt(LiveOf(b1), lo + 32)
  {
    AllocateIs([Block(lo, hi - lo, false)], 0, 224);
  }
}
