/** What the allocator of portable/MemMang/heap_4.c computes, on the sequence of
    blocks that tile its pool. */
module HeapSpec {

  const Alignment: nat := 16
  const HeaderSize: nat := 16
  /** Top bit of a 64-bit block size: the block is allocated. */
  const AllocBit: nat := 0x8000_0000_0000_0000

  datatype Block = Block(addr: nat, size: nat, live: bool) {
    function End(): nat { addr + size }
  }

  // ----- The invariant on blocks -----------------------------------------------

  /** The blocks cover [lo, hi) in address order without gap or overlap, each of
      an aligned size that holds at least its header. */
  ghost predicate Tiled(blocks: seq<Block>, lo: nat, hi: nat)
    decreases |blocks|
  {
    if blocks == [] then lo == hi
    else
      && blocks[0].addr == lo
      && blocks[0].size >= HeaderSize && blocks[0].size % Alignment == 0
      && Tiled(blocks[1..], blocks[0].End(), hi)
  }

  ghost predicate NoAdjacentFree(blocks: seq<Block>) {
    forall i, j :: 0 <= i && j == i + 1 && j < |blocks| ==> blocks[i].live || blocks[j].live
  }

  ghost predicate Canonical(blocks: seq<Block>, lo: nat, hi: nat) {
    Tiled(blocks, lo, hi) && NoAdjacentFree(blocks)
  }

  /** The free list, in address order. */
  function FreeOf(blocks: seq<Block>): seq<Block> {
    if blocks == [] then []
    else (if blocks[0].live then [] else [blocks[0]]) + FreeOf(blocks[1..])
  }

  ghost function LiveOf(blocks: seq<Block>): set<Block> {
    set b | b in blocks && b.live
  }

  function SumSizes(blocks: seq<Block>): nat {
    if blocks == [] then 0 else blocks[0].size + SumSizes(blocks[1..])
  }

  // ----- Tiling, one way and the other ---------------------------------------------

  lemma {:induction false} TiledAt(blocks: seq<Block>, lo: nat, hi: nat, i: nat)
    requires Tiled(blocks, lo, hi) && i < |blocks|
    ensures lo <= blocks[i].addr < blocks[i].End() <= hi
    ensures blocks[i].size >= HeaderSize && blocks[i].size % Alignment == 0
    ensures i == 0 ==> blocks[i].addr == lo
    ensures i > 0 ==> blocks[i].addr == blocks[i - 1].End()
    decreases i
  {
    if i > 0 {
      TiledAt(blocks[1..], blocks[0].End(), hi, i - 1);
    }
    TiledBounds(blocks[1..], blocks[0].End(), hi);
  }

  lemma {:induction false} TiledBounds(blocks: seq<Block>, lo: nat, hi: nat)
    requires Tiled(blocks, lo, hi)
    ensures lo <= hi && (blocks != [] ==> lo < hi)
    decreases |blocks|
  {
    if blocks != [] { TiledBounds(blocks[1..], blocks[0].End(), hi); }
  }

  lemma {:induction false} TiledOrder(blocks: seq<Block>, lo: nat, hi: nat, i: nat, j: nat)
    requires Tiled(blocks, lo, hi) && i < j < |blocks|
    ensures blocks[i].End() <= blocks[j].addr
    decreases j
  {
    TiledAt(blocks, lo, hi, j);
    if i < j - 1 {
      TiledAt(blocks, lo, hi, j - 1);
      TiledOrder(blocks, lo, hi, i, j - 1);
    }
  }

  lemma {:induction false} TiledConcat(a: seq<Block>, b: seq<Block>, lo: nat, mid: nat, hi: nat)
    requires Tiled(a, lo, mid) && Tiled(b, mid, hi)
    ensures Tiled(a + b, lo, hi)
    decreases |a|
  {
    if a == [] {
      assert a + b == b;
    } else {
      TiledConcat(a[1..], b, a[0].End(), mid, hi);
      assert (a + b)[1..] == a[1..] + b;
    }
  }

  lemma {:induction false} TiledSplit(blocks: seq<Block>, lo: nat, hi: nat, i: nat)
    requires Tiled(blocks, lo, hi) && i <= |blocks|
    ensures var mid := if i < |blocks| then blocks[i].addr else hi;
            Tiled(blocks[..i], lo, mid) && Tiled(blocks[i..], mid, hi)
    decreases i
  {
    if i == 0 {
      assert blocks[0..] == blocks;
    } else {
      TiledSplit(blocks[1..], blocks[0].End(), hi, i - 1);
      assert blocks[1..][..i - 1] == blocks[..i][1..];
      assert blocks[1..][i - 1..] == blocks[i..];
    }
  }

  // ----- The free list is a function of the live blocks ------------------------------

  /** Two canonical tilings of the same pool with the same live blocks are equal;
      in particular they have the same free list. */
  lemma {:induction false} CanonicalUnique(a: seq<Block>, b: seq<Block>, lo: nat, hi: nat)
    requires Canonical(a, lo, hi) && Canonical(b, lo, hi) && LiveOf(a) == LiveOf(b)
    ensures a == b
    decreases |a|
  {
    TiledBounds(a, lo, hi);
    TiledBounds(b, lo, hi);
    if a != [] {
      SameHead(a, b, lo, hi);
      DropHead(a, b, lo, hi);
      CanonicalUnique(a[1..], b[1..], a[0].End(), hi);
      assert a == [a[0]] + a[1..] && b == [b[0]] + b[1..];
    }
  }

  lemma SameHead(a: seq<Block>, b: seq<Block>, lo: nat, hi: nat)
    requires a != [] && b != []
    requires Canonical(a, lo, hi) && Canonical(b, lo, hi) && LiveOf(a) == LiveOf(b)
    ensures a[0] == b[0]
  {
    if a[0].live { LiveHead(a, b, lo, hi); }
    else if b[0].live { LiveHead(b, a, lo, hi); }
    else {
      FreeHead(a, b, lo, hi);
      FreeHead(b, a, lo, hi);
    }
  }

  lemma LiveHead(a: seq<Block>, b: seq<Block>, lo: nat, hi: nat)
    requires a != [] && b != [] && a[0].live
    requires Tiled(a, lo, hi) && Tiled(b, lo, hi) && LiveOf(a) == LiveOf(b)
    ensures a[0] == b[0]
  {
    assert a[0] in LiveOf(b);
    var j :| 0 <= j < |b| && b[j] == a[0];
    if j > 0 { TiledAt(b, lo, hi, 0); TiledOrder(b, lo, hi, 0, j); }
  }

  /** A shorter free head block would be followed by a live block that lies
      strictly inside the other tiling's free head. */
  lemma FreeHead(a: seq<Block>, b: seq<Block>, lo: nat, hi: nat)
    requires a != [] && b != [] && !a[0].live && !b[0].live
    requires Canonical(a, lo, hi) && Canonical(b, lo, hi) && LiveOf(a) == LiveOf(b)
    ensures b[0].size <= a[0].size
  {
    TiledAt(b, lo, hi, 0);
    if |a| == 1 {
      assert Tiled(a[1..], a[0].End(), hi);
    } else {
      TiledAt(a, lo, hi, 1);
      assert a[1].live && a[1] in LiveOf(b);
      var j :| 0 <= j < |b| && b[j] == a[1];
      TiledOrder(b, lo, hi, 0, j);
    }
  }

  lemma DropHead(a: seq<Block>, b: seq<Block>, lo: nat, hi: nat)
    requires a != [] && b != [] && a[0] == b[0]
    requires Canonical(a, lo, hi) && Canonical(b, lo, hi) && LiveOf(a) == LiveOf(b)
    ensures Canonical(a[1..], a[0].End(), hi) && Canonical(b[1..], a[0].End(), hi)
    ensures LiveOf(a[1..]) == LiveOf(b[1..])
  {
    TailLive(a, lo, hi);
    TailLive(b, lo, hi);
  }

  lemma TailLive(a: seq<Block>, lo: nat, hi: nat)
    requires a != [] && Tiled(a, lo, hi)
    ensures LiveOf(a[1..]) == LiveOf(a) - {a[0]}
  {
    forall b | b in a[1..] ensures b != a[0] {
      var j :| 0 <= j < |a[1..]| && a[1..][j] == b;
      TiledAt(a, lo, hi, 0);
      TiledOrder(a, lo, hi, 0, j + 1);
    }
    forall b | b in a && b != a[0] ensures b in a[1..] {
      var j :| 0 <= j < |a| && a[j] == b;
      assert a[1..][j - 1] == b;
    }
  }

  // ----- Allocation and release on the tiling -----------------------------------------

  /** The size of the block that serves a request: header added, rounded up. */
  function Rounded(wanted: nat): (w: nat)
    ensures w % Alignment == 0 && wanted + HeaderSize <= w < wanted + HeaderSize + Alignment
  {
    var n := wanted + HeaderSize;
    if n % Alignment != 0 then n + (Alignment - n % Alignment) else n
  }

  /** The first free block that is large enough, or |blocks|. */
  function FirstFit(blocks: seq<Block>, w: nat): (i: nat)
    ensures i <= |blocks|
    ensures i < |blocks| ==> !blocks[i].live && blocks[i].size >= w
    ensures forall j :: 0 <= j < i ==> blocks[j].live || blocks[j].size < w
  {
    if blocks == [] then 0
    else if !blocks[0].live && blocks[0].size >= w then 0
    else 1 + FirstFit(blocks[1..], w)
  }

  /** Whether the remainder of a block of this size is split off. */
  predicate Splits(size: nat, w: nat) {
    size >= w && size - w > 2 * HeaderSize
  }

  /** What becomes of a free block of which w bytes are allocated. */
  function Cut(b: Block, w: nat): seq<Block>
    requires b.size >= w
  {
    if Splits(b.size, w) then [Block(b.addr, w, true), Block(b.addr + w, b.size - w, false)] else [b.(live := true)]
  }

  /** Block i becomes live, its tail split off if it is large enough. */
  function Allocate(blocks: seq<Block>, i: nat, w: nat): seq<Block>
    requires i < |blocks| && blocks[i].size >= w
  {
    if i == 0 then Cut(blocks[0], w) + blocks[1..] else [blocks[0]] + Allocate(blocks[1..], i - 1, w)
  }

  lemma {:induction false} AllocateIs(blocks: seq<Block>, i: nat, w: nat)
    requires i < |blocks| && blocks[i].size >= w
    ensures Allocate(blocks, i, w) == blocks[..i] + Cut(blocks[i], w) + blocks[i + 1..]
  {
    if i > 0 {
      AllocateIs(blocks[1..], i - 1, w);
      assert blocks[..i] == [blocks[0]] + blocks[1..][..i - 1];
      assert blocks[i + 1..] == blocks[1..][i..];
    }
  }

  /** The free run that block i joins when it is released: [l, r). */
  function RunStart(blocks: seq<Block>, i: nat): (l: nat)
    requires i < |blocks|
    ensures l <= i
  {
    if i > 0 && !blocks[i - 1].live then i - 1 else i
  }

  function RunEnd(blocks: seq<Block>, i: nat): (r: nat)
    requires i < |blocks|
    ensures i < r <= |blocks|
  {
    if i + 1 < |blocks| && !blocks[i + 1].live then i + 2 else i + 1
  }

  /** Block i becomes free and merges with its free neighbours. */
  function Release(blocks: seq<Block>, i: nat): seq<Block>
    requires i < |blocks|
  {
    var l, r := RunStart(blocks, i), RunEnd(blocks, i);
    blocks[..l] + [Block(blocks[l].addr, SumSizes(blocks[l..r]), false)] + blocks[r..]
  }

  lemma {:induction false} TiledSum(blocks: seq<Block>, lo: nat, hi: nat)
    requires Tiled(blocks, lo, hi)
    ensures SumSizes(blocks) == hi - lo
    ensures (hi - lo) % Alignment == 0
    decreases |blocks|
  {
    if blocks != [] { TiledSum(blocks[1..], blocks[0].End(), hi); }
  }

  lemma AllocateKeepsTiling(blocks: seq<Block>, lo: nat, hi: nat, i: nat, w: nat)
    requires Tiled(blocks, lo, hi) && i < |blocks| && blocks[i].size >= w
    requires w >= HeaderSize && w % Alignment == 0
    ensures Tiled(Allocate(blocks, i, w), lo, hi)
  {
    var b := blocks[i];
    AllocateIs(blocks, i, w);
    TiledAt(blocks, lo, hi, i);
    TiledSplit(blocks, lo, hi, i);
    assert blocks[i..][1..] == blocks[i + 1..];
    var mid := Cut(b, w);
    assert Tiled(mid, b.addr, b.End()) by {
      if Splits(b.size, w) {
        assert mid[1..] == [mid[1]] && mid[1..][1..] == [];
      }
    }
    TiledConcat(blocks[..i], mid, lo, b.addr, b.End());
    TiledConcat(blocks[..i] + mid, blocks[i + 1..], lo, b.End(), hi);
  }

  /** `after` is `blocks` with block i cut up, position by position. */
  ghost predicate CutAt(blocks: seq<Block>, i: nat, w: nat, after: seq<Block>) {
    && i < |blocks| && blocks[i].size >= w
    && var d := |Cut(blocks[i], w)| - 1;
       && |after| == |blocks| + d
       && (forall j :: 0 <= j < i ==> after[j] == blocks[j])
       && after[i] == Cut(blocks[i], w)[0]
       && (d == 1 ==> after[i + 1] == Cut(blocks[i], w)[1])
       && (forall j :: i + d < j < |after| ==> after[j] == blocks[j - d])
  }

  lemma AllocateAt(blocks: seq<Block>, i: nat, w: nat)
    requires i < |blocks| && blocks[i].size >= w
    ensures CutAt(blocks, i, w, Allocate(blocks, i, w))
  {
    AllocateIs(blocks, i, w);
  }

  lemma AllocateCanonical(blocks: seq<Block>, lo: nat, hi: nat, i: nat, w: nat)
    requires Canonical(blocks, lo, hi) && i < |blocks| && !blocks[i].live && blocks[i].size >= w
    requires w >= HeaderSize && w % Alignment == 0
    ensures Canonical(Allocate(blocks, i, w), lo, hi)
    ensures i < |Allocate(blocks, i, w)|
    ensures Allocate(blocks, i, w)[i]
              == Block(blocks[i].addr, if Splits(blocks[i].size, w) then w else blocks[i].size, true)
    ensures LiveOf(Allocate(blocks, i, w)) == LiveOf(blocks) + {Allocate(blocks, i, w)[i]}
  {
    AllocateKeepsTiling(blocks, lo, hi, i, w);
    AllocateAt(blocks, i, w);
    CutNoAdjacent(blocks, i, w, Allocate(blocks, i, w));
    CutLive(blocks, i, w, Allocate(blocks, i, w));
  }

  lemma CutNoAdjacent(blocks: seq<Block>, i: nat, w: nat, after: seq<Block>)
    requires CutAt(blocks, i, w, after) && NoAdjacentFree(blocks) && !blocks[i].live
    ensures NoAdjacentFree(after)
  {
  }

  lemma CutLive(blocks: seq<Block>, i: nat, w: nat, after: seq<Block>)
    requires CutAt(blocks, i, w, after) && !blocks[i].live
    ensures LiveOf(after) == LiveOf(blocks) + {after[i]}
  {
    var d := |Cut(blocks[i], w)| - 1;
    forall b ensures b in LiveOf(after) <==> b in LiveOf(blocks) + {after[i]} {
      if b in LiveOf(blocks) {
        var j :| 0 <= j < |blocks| && blocks[j] == b;
        assert after[if j < i then j else j + d] == b;
      }
    }
  }

  lemma ReleaseKeepsTiling(blocks: seq<Block>, lo: nat, hi: nat, i: nat)
    requires Tiled(blocks, lo, hi) && i < |blocks|
    ensures Tiled(Release(blocks, i), lo, hi)
    ensures var l, r := RunStart(blocks, i), RunEnd(blocks, i);
            SumSizes(blocks[l..r]) == (if r < |blocks| then blocks[r].addr else hi) - blocks[l].addr
  {
    var l, r := RunStart(blocks, i), RunEnd(blocks, i);
    var a, z := blocks[l].addr, if r < |blocks| then blocks[r].addr else hi;
    TiledSplit(blocks, lo, hi, l);
    TiledSplit(blocks[l..], a, hi, r - l);
    assert blocks[l..][..r - l] == blocks[l..r] && blocks[l..][r - l..] == blocks[r..];
    TiledSum(blocks[l..r], a, z);
    TiledAt(blocks, lo, hi, l);
    assert blocks[l..r] == [blocks[l]] + blocks[l + 1..r];
    var merged := Block(a, SumSizes(blocks[l..r]), false);
    assert Tiled([merged], a, z) by { assert [merged][1..] == []; }
    TiledConcat(blocks[..l], [merged], lo, a, z);
    TiledConcat(blocks[..l] + [merged], blocks[r..], lo, z, hi);
  }

  lemma ReleaseCanonical(blocks: seq<Block>, lo: nat, hi: nat, i: nat)
    requires Canonical(blocks, lo, hi) && i < |blocks| && blocks[i].live
    ensures Canonical(Release(blocks, i), lo, hi)
    ensures LiveOf(Release(blocks, i)) == LiveOf(blocks) - {blocks[i]}
  {
    ReleaseKeepsTiling(blocks, lo, hi, i);
    var l, r := RunStart(blocks, i), RunEnd(blocks, i);
    var after := Release(blocks, i);
    assert forall j :: 0 <= j < l ==> after[j] == blocks[j];
    assert forall j :: r <= j < |blocks| ==> after[j - (r - l) + 1] == blocks[j];
    assert forall j :: l < j < |after| ==> after[j] == blocks[j + (r - l) - 1];
    ReleasedLive(blocks, lo, hi, i);
  }

  lemma ReleasedLive(blocks: seq<Block>, lo: nat, hi: nat, i: nat)
    requires Tiled(blocks, lo, hi) && i < |blocks| && blocks[i].live
    ensures LiveOf(Release(blocks, i)) == LiveOf(blocks) - {blocks[i]}
  {
    var l, r := RunStart(blocks, i), RunEnd(blocks, i);
    var after := Release(blocks, i);
    forall b ensures b in LiveOf(after) <==> b in LiveOf(blocks) - {blocks[i]} {
      if b in LiveOf(after) {
        var j :| 0 <= j < |after| && after[j] == b;
        var m := if j < l then j else j + (r - l) - 1;
        assert blocks[m] == b;
        if m < i { TiledAt(blocks, lo, hi, m); TiledOrder(blocks, lo, hi, m, i); }
        else { TiledAt(blocks, lo, hi, i); TiledOrder(blocks, lo, hi, i, m); }
      }
      if b in LiveOf(blocks) && b != blocks[i] {
        var m :| 0 <= m < |blocks| && blocks[m] == b;
        assert after[if m < l then m else m - (r - l) + 1] == b;
      }
    }
  }

  // ----- What the allocator promises ---------------------------------------------------

  /** Allocating a block and releasing it restores the tiling, and so the free
      list, exactly: even the split is undone. */
  lemma ReleaseUndoesAllocate(blocks: seq<Block>, lo: nat, hi: nat, i: nat, w: nat)
    requires Canonical(blocks, lo, hi) && i < |blocks| && !blocks[i].live && blocks[i].size >= w
    requires w >= HeaderSize && w % Alignment == 0
    ensures i < |Allocate(blocks, i, w)| && Release(Allocate(blocks, i, w), i) == blocks
  {
    AllocateCanonical(blocks, lo, hi, i, w);
    var after := Allocate(blocks, i, w);
    ReleaseCanonical(after, lo, hi, i);
    assert after[i] !in LiveOf(blocks) by {
      if after[i] in blocks {
        var j :| 0 <= j < |blocks| && blocks[j] == after[i];
        if j < i { TiledAt(blocks, lo, hi, j); TiledOrder(blocks, lo, hi, j, i); }
        else if i < j { TiledAt(blocks, lo, hi, i); TiledOrder(blocks, lo, hi, i, j); }
      }
    }
    CanonicalUnique(Release(after, i), blocks, lo, hi);
  }

  function IndexOf(blocks: seq<Block>, b: Block): (i: nat)
    requires b in blocks
    ensures i < |blocks| && blocks[i] == b
  {
    if blocks[0] == b then 0 else 1 + IndexOf(blocks[1..], b)
  }

  /** Release the blocks of `order`, one after the other. */
  ghost function ReleaseAll(blocks: seq<Block>, order: seq<Block>): seq<Block>
    decreases |order|
  {
    if order == [] then blocks
    else if order[0] !in blocks then ReleaseAll(blocks, order[1..])
    else ReleaseAll(Release(blocks, IndexOf(blocks, order[0])), order[1..])
  }

  /** Releasing every live block, in whatever order, ends in the one block that
      spans the pool. */
  lemma {:induction false} ReleaseAllInAnyOrder(blocks: seq<Block>, lo: nat, hi: nat, order: seq<Block>)
    requires Canonical(blocks, lo, hi) && lo < hi
    requires forall b :: b in order <==> b in LiveOf(blocks)
    requires forall i, j :: 0 <= i < j < |order| ==> order[i] != order[j]
    ensures ReleaseAll(blocks, order) == [Block(lo, hi - lo, false)]
    decreases |order|
  {
    if order == [] {
      var one := [Block(lo, hi - lo, false)];
      TiledSum(blocks, lo, hi);
      TiledBounds(blocks, lo, hi);
      if blocks != [] { TiledAt(blocks, lo, hi, 0); }
      assert Tiled(one[1..], hi, hi);
      assert forall b :: b in blocks && b.live ==> b in order;
      CanonicalUnique(blocks, one, lo, hi);
    } else {
      assert order[0] in LiveOf(blocks);
      var i := IndexOf(blocks, order[0]);
      ReleaseCanonical(blocks, lo, hi, i);
      forall b ensures b in order[1..] <==> b in LiveOf(Release(blocks, i)) {
        if b in order && b != order[0] {
          var j :| 0 <= j < |order| && order[j] == b;
          assert order[1..][j - 1] == b;
        }
      }
      ReleaseAllInAnyOrder(Release(blocks, i), lo, hi, order[1..]);
    }
  }

  /** Two live blocks never overlap, and their payloads are aligned if the pool is. */
  lemma LiveBlocksAreDisjoint(blocks: seq<Block>, lo: nat, hi: nat, a: Block, b: Block)
    requires Tiled(blocks, lo, hi) && lo % Alignment == 0
    requires a in LiveOf(blocks) && b in LiveOf(blocks) && a != b
    ensures a.End() <= b.addr || b.End() <= a.addr
    ensures (a.addr + HeaderSize) % Alignment == 0
  {
    var i :| 0 <= i < |blocks| && blocks[i] == a;
    var j :| 0 <= j < |blocks| && blocks[j] == b;
    if i < j { TiledOrder(blocks, lo, hi, i, j); } else { TiledOrder(blocks, lo, hi, j, i); }
    TiledSplit(blocks, lo, hi, i);
    TiledSum(blocks[..i], lo, a.addr);
    AlignedSum(lo, a.addr - lo);
  }

  lemma AlignedSum(x: nat, y: nat)
    requires x % Alignment == 0 && y % Alignment == 0
    ensures (x + y) % Alignment == 0 && (x + y + HeaderSize) % Alignment == 0
  {
  }

  // ----- The free list ------------------------------------------------------------------

  /** How many leading free blocks lie below an address. */
  function Below(free: seq<Block>, addr: nat): (k: nat)
    ensures k <= |free|
    ensures forall i :: 0 <= i < k ==> free[i].addr < addr
    ensures k < |free| ==> addr <= free[k].addr
  {
    if free == [] || free[0].addr >= addr then 0 else 1 + Below(free[1..], addr)
  }

  /** prvInsertBlockIntoFreeList: insert in address order, merging with a free
      block that ends where s begins and one that begins where s ends. */
  function InsertFree(free: seq<Block>, s: Block): seq<Block> {
    var k := Below(free, s.addr);
    var left := k > 0 && free[k - 1].End() == s.addr;
    var right := k < |free| && s.End() == free[k].addr;
    var merged := Block(if left then free[k - 1].addr else s.addr,
                        (if left then free[k - 1].size else 0) + s.size + (if right then free[k].size else 0),
                        false);
    free[..if left then k - 1 else k] + [merged] + free[if right then k + 1 else k..]
  }

  lemma {:induction false} FreeMember(blocks: seq<Block>, b: Block)
    ensures b in FreeOf(blocks) <==> b in blocks && !b.live
  {
    if blocks != [] { FreeMember(blocks[1..], b); }
  }

  lemma {:induction false} FreeConcat(a: seq<Block>, b: seq<Block>)
    ensures FreeOf(a + b) == FreeOf(a) + FreeOf(b)
    decreases |a|
  {
    if a == [] {
      assert a + b == b;
    } else {
      var head := if a[0].live then [] else [a[0]];
      assert FreeOf(a) == head + FreeOf(a[1..]);
      assert (a + b)[1..] == a[1..] + b && (a + b)[0] == a[0];
      assert FreeOf(a + b) == head + FreeOf(a[1..] + b);
      hide FreeOf;
      FreeConcat(a[1..], b);
    }
  }

  /** Which free blocks surround block i. */
  lemma FreeAround(blocks: seq<Block>, lo: nat, hi: nat, i: nat)
    requires Tiled(blocks, lo, hi) && i < |blocks|
    ensures FreeOf(blocks) == FreeOf(blocks[..i]) + FreeOf([blocks[i]]) + FreeOf(blocks[i + 1..])
    ensures forall b :: b in FreeOf(blocks[..i]) ==> b.End() <= blocks[i].addr && b.size > 0
    ensures forall b :: b in FreeOf(blocks[i + 1..]) ==> blocks[i].End() <= b.addr
  {
    assert blocks == blocks[..i] + [blocks[i]] + blocks[i + 1..];
    FreeConcat(blocks[..i] + [blocks[i]], blocks[i + 1..]);
    FreeConcat(blocks[..i], [blocks[i]]);
    forall b | b in FreeOf(blocks[..i]) ensures b.End() <= blocks[i].addr && b.size > 0 {
      FreeMember(blocks[..i], b);
      var j :| 0 <= j < i && blocks[j] == b;
      TiledAt(blocks, lo, hi, j);
      TiledOrder(blocks, lo, hi, j, i);
    }
    forall b | b in FreeOf(blocks[i + 1..]) ensures blocks[i].End() <= b.addr {
      FreeMember(blocks[i + 1..], b);
      var j :| 0 <= j < |blocks[i + 1..]| && blocks[i + 1..][j] == b;
      TiledOrder(blocks, lo, hi, i, i + 1 + j);
    }
  }

  /** Below picks out the part of the free list in front of block i. */
  lemma {:induction false} BelowBlock(a: seq<Block>, c: seq<Block>, addr: nat)
    requires forall b :: b in a ==> b.addr < addr
    requires forall b :: b in c ==> addr <= b.addr
    ensures Below(a + c, addr) == |a|
    decreases |a|
  {
    if a == [] {
      assert a + c == c;
    } else {
      assert (a + c)[0] == a[0] && (a + c)[1..] == a[1..] + c;
      BelowBlock(a[1..], c, addr);
    }
  }

  /** InsertFree where the insertion point is known. */
  lemma InsertBetween(a: seq<Block>, c: seq<Block>, s: Block)
    requires forall b :: b in a ==> b.addr < s.addr
    requires forall b :: b in c ==> s.addr <= b.addr
    ensures var left := a != [] && a[|a| - 1].End() == s.addr;
            var right := c != [] && s.End() == c[0].addr;
            var merged := Block(if left then a[|a| - 1].addr else s.addr,
                                (if left then a[|a| - 1].size else 0) + s.size + (if right then c[0].size else 0),
                                false);
            InsertFree(a + c, s)
            == (if left then a[..|a| - 1] else a) + [merged] + (if right then c[1..] else c)
  {
    BelowBlock(a, c, s.addr);
  }

  lemma LastFree(blocks: seq<Block>)
    requires blocks != []
    ensures var last := blocks[|blocks| - 1];
            !last.live ==> FreeOf(blocks) == FreeOf(blocks[..|blocks| - 1]) + [last]
  {
    var n := |blocks| - 1;
    assert blocks == blocks[..n] + [blocks[n]];
    FreeConcat(blocks[..n], [blocks[n]]);
  }

  ghost predicate MergesLeft(free: seq<Block>, s: Block) {
    free != [] && free[|free| - 1].End() == s.addr
  }

  ghost predicate MergesRight(free: seq<Block>, s: Block) {
    free != [] && s.End() == free[0].addr
  }

  /** The free list ends right below block i exactly if the block in front of it
      is free; then that block is the one. */
  lemma FreeInFront(blocks: seq<Block>, lo: nat, hi: nat, i: nat)
    requires Tiled(blocks, lo, hi) && i < |blocks|
    ensures MergesLeft(FreeOf(blocks[..i]), blocks[i]) <==> (i > 0 && !blocks[i - 1].live)
    ensures i > 0 && !blocks[i - 1].live ==> FreeOf(blocks[..i]) == FreeOf(blocks[..i - 1]) + [blocks[i - 1]]
  {
    var free := FreeOf(blocks[..i]);
    TiledAt(blocks, lo, hi, i);
    if i > 0 && !blocks[i - 1].live {
      LastFree(blocks[..i]);
      assert blocks[..i][..i - 1] == blocks[..i - 1];
    } else if free != [] {
      FreeMember(blocks[..i], free[|free| - 1]);
      var j :| 0 <= j < i && blocks[j] == free[|free| - 1];
      TiledAt(blocks, lo, hi, i - 1);
      TiledOrder(blocks, lo, hi, j, i - 1);
    }
  }

  lemma FreeBehind(blocks: seq<Block>, lo: nat, hi: nat, i: nat)
    requires Tiled(blocks, lo, hi) && i < |blocks|
    ensures MergesRight(FreeOf(blocks[i + 1..]), blocks[i]) <==> (i + 1 < |blocks| && !blocks[i + 1].live)
    ensures i + 1 < |blocks| && !blocks[i + 1].live ==>
              FreeOf(blocks[i + 1..]) == [blocks[i + 1]] + FreeOf(blocks[i + 2..])
  {
    var rest := blocks[i + 1..];
    var free := FreeOf(rest);
    if i + 1 < |blocks| {
      TiledAt(blocks, lo, hi, i + 1);
      assert rest[1..] == blocks[i + 2..];
      if blocks[i + 1].live && free != [] {
        FreeMember(rest, free[0]);
        var j :| 0 <= j < |rest| && rest[j] == free[0];
        TiledOrder(blocks, lo, hi, i + 1, i + 1 + j);
      }
    }
  }

  /** InsertFree as seen from the insertion point: a in front, c behind. */
  lemma InsertMerging(a: seq<Block>, c: seq<Block>, s: Block, l: seq<Block>, r: seq<Block>, merged: Block)
    requires forall b :: b in a ==> b.addr < s.addr
    requires forall b :: b in c ==> s.addr <= b.addr
    requires if MergesLeft(a, s) then a == l + [a[|a| - 1]] && merged.addr == a[|a| - 1].addr
             else a == l && merged.addr == s.addr
    requires if MergesRight(c, s) then c == [c[0]] + r else c == r
    requires merged.size == (if MergesLeft(a, s) then a[|a| - 1].size else 0) + s.size
                            + (if MergesRight(c, s) then c[0].size else 0)
    requires !merged.live
    ensures InsertFree(a + c, s) == l + [merged] + r
  {
    InsertBetween(a, c, s);
    if MergesLeft(a, s) { assert a[..|a| - 1] == l; }
    if MergesRight(c, s) { assert c[1..] == r; }
  }

  /** Releasing a block of the tiling is inserting it into the free list. */
  lemma ReleaseFree(blocks: seq<Block>, lo: nat, hi: nat, i: nat)
    requires Tiled(blocks, lo, hi) && i < |blocks| && blocks[i].live
    ensures FreeOf(Release(blocks, i)) == InsertFree(FreeOf(blocks), blocks[i])
  {
    var l, r := RunStart(blocks, i), RunEnd(blocks, i);
    var merged := Block(blocks[l].addr, SumSizes(blocks[l..r]), false);
    FreeParts(blocks[..l], merged, blocks[r..]);
    FreeAroundLive(blocks, lo, hi, i);
    ReleaseMerges(blocks, lo, hi, i);
  }

  lemma ReleaseMerges(blocks: seq<Block>, lo: nat, hi: nat, i: nat)
    requires Tiled(blocks, lo, hi) && i < |blocks| && blocks[i].live
    ensures var l, r := RunStart(blocks, i), RunEnd(blocks, i);
            InsertFree(FreeOf(blocks[..i]) + FreeOf(blocks[i + 1..]), blocks[i])
            == FreeOf(blocks[..l]) + [Block(blocks[l].addr, SumSizes(blocks[l..r]), false)] + FreeOf(blocks[r..])
  {
    var l, r := RunStart(blocks, i), RunEnd(blocks, i);
    RunSum(blocks, i);
    FreeAroundLive(blocks, lo, hi, i);
    FreeInFront(blocks, lo, hi, i);
    FreeBehind(blocks, lo, hi, i);
    InsertMerging(FreeOf(blocks[..i]), FreeOf(blocks[i + 1..]), blocks[i],
                  FreeOf(blocks[..l]), FreeOf(blocks[r..]), Block(blocks[l].addr, SumSizes(blocks[l..r]), false));
  }

  lemma FreeParts(a: seq<Block>, b: Block, c: seq<Block>)
    requires !b.live
    ensures FreeOf(a + [b] + c) == FreeOf(a) + [b] + FreeOf(c)
  {
    FreeConcat(a + [b], c);
    FreeConcat(a, [b]);
    assert [b][1..] == [];
  }

  lemma FreeAroundLive(blocks: seq<Block>, lo: nat, hi: nat, i: nat)
    requires Tiled(blocks, lo, hi) && i < |blocks| && blocks[i].live
    ensures FreeOf(blocks) == FreeOf(blocks[..i]) + FreeOf(blocks[i + 1..])
    ensures forall b :: b in FreeOf(blocks[..i]) ==> b.addr < blocks[i].addr
    ensures forall b :: b in FreeOf(blocks[i + 1..]) ==> blocks[i].addr <= b.addr
  {
    FreeAround(blocks, lo, hi, i);
    FreeSkips(blocks[..i], blocks[i], blocks[i + 1..]);
    assert blocks == blocks[..i] + [blocks[i]] + blocks[i + 1..];
  }

  lemma SumCons(x: Block, rest: seq<Block>)
    ensures SumSizes([x] + rest) == x.size + SumSizes(rest)
  {
    assert ([x] + rest)[1..] == rest;
  }

  lemma ShortSums(x: Block, y: Block, z: Block)
    ensures SumSizes([x]) == x.size
    ensures SumSizes([x, y]) == x.size + y.size
    ensures SumSizes([x, y, z]) == x.size + y.size + z.size
  {
    SumCons(x, []);
    SumCons(y, []);
    SumCons(z, []);
    SumCons(x, [y]);
    SumCons(y, [z]);
    SumCons(x, [y, z]);
    assert [x] + [] == [x] && [y] + [] == [y] && [z] + [] == [z];
    assert [x] + [y] == [x, y] && [y] + [z] == [y, z] && [x] + [y, z] == [x, y, z];
  }

  lemma RunSum(blocks: seq<Block>, i: nat)
    requires i < |blocks|
    ensures var l, r := RunStart(blocks, i), RunEnd(blocks, i);
            SumSizes(blocks[l..r]) == (if l < i then blocks[i - 1].size else 0) + blocks[i].size
                                      + (if r > i + 1 then blocks[i + 1].size else 0)
  {
    var l, r := RunStart(blocks, i), RunEnd(blocks, i);
    var x := blocks[i];
    if l < i && r > i + 1 {
      assert blocks[l..r] == [blocks[i - 1], x, blocks[i + 1]];
      ShortSums(blocks[i - 1], x, blocks[i + 1]);
    } else if l < i {
      assert blocks[l..r] == [blocks[i - 1], x];
      ShortSums(blocks[i - 1], x, x);
    } else if r > i + 1 {
      assert blocks[l..r] == [x, blocks[i + 1]];
      ShortSums(x, blocks[i + 1], x);
    } else {
      assert blocks[l..r] == [x];
      ShortSums(x, x, x);
    }
  }

  lemma FreeAroundFree(blocks: seq<Block>, i: nat)
    requires i < |blocks| && !blocks[i].live
    ensures FreeOf(blocks) == FreeOf(blocks[..i]) + [blocks[i]] + FreeOf(blocks[i + 1..])
  {
    assert blocks == blocks[..i] + [blocks[i]] + blocks[i + 1..];
    FreeParts(blocks[..i], blocks[i], blocks[i + 1..]);
  }

  /** Allocating a block takes it out of the free list, or leaves the tail that
      was split off in its place. */
  lemma AllocateFree(blocks: seq<Block>, i: nat, w: nat)
    requires i < |blocks| && !blocks[i].live && blocks[i].size >= w
    ensures var a, c, b := FreeOf(blocks[..i]), FreeOf(blocks[i + 1..]), blocks[i];
            && (Splits(b.size, w) ==>
                  FreeOf(Allocate(blocks, i, w)) == a + [Block(b.addr + w, b.size - w, false)] + c)
            && (!Splits(b.size, w) ==> FreeOf(Allocate(blocks, i, w)) == a + c)
  {
    var b := blocks[i];
    AllocateIs(blocks, i, w);
    if Splits(b.size, w) {
      FreeOfSplit(blocks[..i], Block(b.addr, w, true), Block(b.addr + w, b.size - w, false), blocks[i + 1..]);
    } else {
      FreeSkips(blocks[..i], b.(live := true), blocks[i + 1..]);
    }
  }

  lemma FreeOfSplit(a: seq<Block>, head: Block, tail: Block, c: seq<Block>)
    requires head.live && !tail.live
    ensures FreeOf(a + [head, tail] + c) == FreeOf(a) + [tail] + FreeOf(c)
  {
    assert a + [head, tail] + c == (a + [head]) + [tail] + c;
    FreeParts(a + [head], tail, c);
    FreeSkips(a, head, []);
    assert a + [head] + [] == a + [head];
    assert FreeOf(a) + FreeOf([]) == FreeOf(a);
  }

  lemma FreeSkips(a: seq<Block>, b: Block, c: seq<Block>)
    requires b.live
    ensures FreeOf(a + [b] + c) == FreeOf(a) + FreeOf(c)
  {
    assert [b][1..] == [];
    assert FreeOf([b]) == [];
    hide FreeOf;
    FreeConcat(a + [b], c);
    FreeConcat(a, [b]);
    assert FreeOf(a) + [] == FreeOf(a);
  }

  /** A split-off tail has no free neighbour to merge with. */
  lemma SplitTailStays(blocks: seq<Block>, lo: nat, hi: nat, i: nat, w: nat)
    requires Canonical(blocks, lo, hi) && i < |blocks| && !blocks[i].live
    requires w >= HeaderSize && Splits(blocks[i].size, w)
    ensures var a, c, b := FreeOf(blocks[..i]), FreeOf(blocks[i + 1..]), blocks[i];
            var tail := Block(b.addr + w, b.size - w, false);
            InsertFree(a + c, tail) == a + [tail] + c
  {
    var b := blocks[i];
    FreeAround(blocks, lo, hi, i);
    FreeBehind(blocks, lo, hi, i);
    InsertAlone(FreeOf(blocks[..i]), FreeOf(blocks[i + 1..]), b, Block(b.addr + w, b.size - w, false));
  }

  lemma InsertAlone(a: seq<Block>, c: seq<Block>, b: Block, tail: Block)
    requires b.addr < tail.addr <= tail.End() == b.End() && !tail.live
    requires forall x :: x in a ==> x.End() <= b.addr && x.size > 0
    requires forall x :: x in c ==> b.End() <= x.addr
    requires !MergesRight(c, b)
    ensures InsertFree(a + c, tail) == a + [tail] + c
  {
    if a != [] { assert a[|a| - 1] in a; }
    InsertMerging(a, c, tail, a, c, tail);
  }
}
