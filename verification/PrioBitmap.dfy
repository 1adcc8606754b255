/** The two-level priority bitmap of kernel/prio_bitmap.c, for 256 priorities in
    eight 32-bit words and a summary word. */
module PrioBitmap {
  const Words: nat := 8

  predicate Bit(w: bv32, i: bv32)
    requires i < 32
  {
    (w >> i) & 1 == 1
  }

  function With(w: bv32, i: bv32): bv32
    requires i < 32
  {
    w | (1 << i)
  }

  function Without(w: bv32, i: bv32): bv32
    requires i < 32
  {
    w & !(1 << i)
  }

  lemma SetBit(w: bv32, i: bv32, j: bv32)
    requires i < 32 && j < 32
    ensures Bit(With(w, i), j) <==> Bit(w, j) || i == j
    ensures With(w, i) != 0
  {
  }

  lemma ClearBit(w: bv32, i: bv32, j: bv32)
    requires i < 32 && j < 32
    ensures Bit(Without(w, i), j) <==> Bit(w, j) && i != j
  {
  }

  lemma ZeroHasNoBit(w: bv32, i: bv32)
    requires i < 32 && Bit(w, i)
    ensures w != 0
  {
  }

  /** Binary search with five tests, each of which halves what is left of w. */
  method HighestBit(word: bv32) returns (pos: bv32)
    requires word != 0
    ensures pos < 32 && Bit(word, pos) && forall j: bv32 :: j < 32 && Bit(word, j) ==> j <= pos
  {
    var w := word;
    pos := 0;
    if w & 0xFFFF_0000 != 0 {
      pos := pos + 16;
      w := w >> 16;
    }
    if w & 0x0000_FF00 != 0 {
      pos := pos + 8;
      w := w >> 8;
    }
    if w & 0x0000_00F0 != 0 {
      pos := pos + 4;
      w := w >> 4;
    }
    if w & 0x0000_000C != 0 {
      pos := pos + 2;
      w := w >> 2;
    }
    if w & 0x0000_0002 != 0 {
      pos := pos + 1;
    }
    assert pos < 32 && word >> pos == 1;
    forall j: bv32 | j < 32 && Bit(word, j) ensures j <= pos {
      TopBit(word, pos, j);
    }
  }

  lemma TopBit(w: bv32, p: bv32, j: bv32)
    requires p < 32 && j < 32 && w >> p == 1 && Bit(w, j)
    ensures j <= p
  {
  }

  function WordOf(p: bv32): (w: bv32)
    requires p < 256
    ensures w < 8
  {
    p / 32
  }

  function BitOf(p: bv32): (i: bv32)
    requires p < 256
    ensures i < 32
  {
    p % 32
  }

  lemma SamePlace(p: bv32, q: bv32)
    requires p < 256 && q < 256 && WordOf(p) == WordOf(q) && BitOf(p) == BitOf(q)
    ensures p == q
  {
  }

  lemma Joined(word: bv32, bit: bv32)
    requires word < 8 && bit < 32
    ensures var p := word * 32 + bit; p < 256 && WordOf(p) == word && BitOf(p) == bit
  {
  }

  lemma Compare(p: bv32, q: bv32)
    requires p < 256 && q < 256 && (WordOf(p) < WordOf(q) || (WordOf(p) == WordOf(q) && BitOf(p) <= BitOf(q)))
    ensures p <= q
  {
  }

  /** The array index of a word number. */
  function IndexOf(word: bv32): (i: nat)
    requires word < 8
    ensures i < Words
  {
    word as nat
  }

  lemma IndexInjective(a: bv32, b: bv32)
    requires a < 8 && b < 8 && IndexOf(a) == IndexOf(b)
    ensures a == b
  {
  }

  // ----- The bitmap and the set --------------------------------------------

  /** Priority p is marked. */
  predicate Marked(level1: seq<bv32>, p: bv32)
    requires |level1| == Words && p < 256
  {
    Bit(level1[IndexOf(WordOf(p))], BitOf(p))
  }

  /** The summary bit of word w says whether the word is zero. */
  predicate Summarised(summary: bv32, level1: seq<bv32>, w: bv32)
    requires |level1| == Words && w < 8
  {
    Bit(summary, w) <==> level1[IndexOf(w)] != 0
  }

  ghost predicate Marks(level1: seq<bv32>, occupied: set<bv32>) {
    && |level1| == Words
    && (forall p :: p in occupied ==> p < 256)
    && (forall p: bv32 {:trigger Marked(level1, p)} {:trigger p in occupied} :: p < 256 ==>
          (p in occupied <==> Marked(level1, p)))
  }

  ghost predicate Summarises(summary: bv32, level1: seq<bv32>) {
    && |level1| == Words && summary < 256
    && (forall w: bv32 {:trigger Summarised(summary, level1, w)} :: w < 8 ==> Summarised(summary, level1, w))
  }

  lemma MarkOne(level1: seq<bv32>, prio: bv32, p: bv32)
    requires |level1| == Words && prio < 256 && p < 256
    ensures var i := IndexOf(WordOf(prio));
            && (Marked(level1[i := With(level1[i], BitOf(prio))], p) <==> Marked(level1, p) || p == prio)
            && (Marked(level1[i := Without(level1[i], BitOf(prio))], p) <==> Marked(level1, p) && p != prio)
  {
    hide Bit, With, Without, WordOf, BitOf, IndexOf;
    var i := IndexOf(WordOf(prio));
    if IndexOf(WordOf(p)) == i {
      IndexInjective(WordOf(p), WordOf(prio));
      SetBit(level1[i], BitOf(prio), BitOf(p));
      ClearBit(level1[i], BitOf(prio), BitOf(p));
      if BitOf(p) == BitOf(prio) { SamePlace(p, prio); }
    }
  }

  lemma MarkAll(level1: seq<bv32>, occupied: set<bv32>, prio: bv32)
    requires Marks(level1, occupied) && prio < 256
    ensures var i := IndexOf(WordOf(prio));
            && Marks(level1[i := With(level1[i], BitOf(prio))], occupied + {prio})
            && Marks(level1[i := Without(level1[i], BitOf(prio))], occupied - {prio})
  {
    hide Marked, With, Without, WordOf, BitOf, IndexOf;
    forall p: bv32 {:trigger p in occupied} | p < 256
      ensures var i := IndexOf(WordOf(prio));
              && (Marked(level1[i := With(level1[i], BitOf(prio))], p) <==> p in occupied || p == prio)
              && (Marked(level1[i := Without(level1[i], BitOf(prio))], p) <==> p in occupied && p != prio)
    {
      MarkOne(level1, prio, p);
    }
  }

  /** The summary bits other than that of `word` are the same. */
  ghost predicate SameBut(s: bv32, s': bv32, word: bv32) {
    forall w: bv32 {:trigger Bit(s', w)} :: w < 8 && w != word ==> (Bit(s', w) <==> Bit(s, w))
  }

  /** A word changed, and its summary bit is right again. */
  lemma SummariseAgain(summary: bv32, level1: seq<bv32>, summary': bv32, word: bv32, value: bv32)
    requires Summarises(summary, level1) && word < 8 && summary' < 256 && SameBut(summary, summary', word)
    requires Bit(summary', word) <==> value != 0
    ensures Summarises(summary', level1[IndexOf(word) := value])
  {
    hide Bit, IndexOf;
    var after := level1[IndexOf(word) := value];
    forall w: bv32 | w < 8 ensures Summarised(summary', after, w) {
      assert Summarised(summary, level1, w);
      if w != word && IndexOf(w) == IndexOf(word) { IndexInjective(w, word); }
    }
  }

  lemma SmallWord(s: bv32, w: bv32)
    requires s < 256 && w < 8
    ensures With(s, w) < 256 && Without(s, w) < 256
  {
  }

  lemma SameWith(s: bv32, w: bv32)
    requires w < 8
    ensures SameBut(s, With(s, w), w)
  {
    hide Bit, With;
    forall v: bv32 {:trigger Bit(With(s, w), v)} | v < 8 && v != w ensures Bit(With(s, w), v) <==> Bit(s, v) {
      SetBit(s, w, v);
    }
  }

  lemma SameWithout(s: bv32, w: bv32)
    requires w < 8
    ensures SameBut(s, Without(s, w), w)
  {
    hide Bit, Without;
    forall v: bv32 {:trigger Bit(Without(s, w), v)} | v < 8 && v != w ensures Bit(Without(s, w), v) <==> Bit(s, v) {
      ClearBit(s, w, v);
    }
  }

  lemma SummarySet(s: bv32, w: bv32)
    requires s < 256 && w < 8
    ensures With(s, w) < 256 && Bit(With(s, w), w) && SameBut(s, With(s, w), w)
    ensures Without(s, w) < 256 && !Bit(Without(s, w), w) && SameBut(s, Without(s, w), w)
  {
    hide Bit, With, Without, SameBut;
    SmallWord(s, w);
    SetBit(s, w, w);
    ClearBit(s, w, w);
    SameWith(s, w);
    SameWithout(s, w);
  }

  lemma SmallTop(s: bv32, w: bv32)
    requires s < 256 && w < 32 && Bit(s, w)
    ensures w < 8
  {
  }

  /** A marked priority shows in the summary. */
  lemma MarkedShows(summary: bv32, level1: seq<bv32>, p: bv32)
    requires Summarises(summary, level1) && p < 256 && Marked(level1, p)
    ensures Bit(summary, WordOf(p)) && summary != 0
  {
    hide Bit, WordOf, BitOf, IndexOf;
    ZeroHasNoBit(level1[IndexOf(WordOf(p))], BitOf(p));
    assert Summarised(summary, level1, WordOf(p));
    ZeroHasNoBit(summary, WordOf(p));
  }

  class Bitmap {
    var summary: bv32
    const level1: array<bv32>
    /** The occupied priorities. */
    ghost var occupied: set<bv32>

    /** The bitmap is the set: a bit for each member, and a summary bit for each word
        that is not zero. */
    ghost predicate Valid()
      reads this, level1
    {
      level1.Length == Words && Marks(level1[..], occupied) && Summarises(summary, level1[..])
    }

    constructor ()
      ensures Valid() && occupied == {} && fresh(level1)
    {
      summary := 0;
      level1 := new bv32[Words];
      occupied := {};
      new;
      for i := 0 to Words
        invariant summary == 0 && occupied == {} && forall k :: 0 <= k < i ==> level1[k] == 0
      {
        level1[i] := 0;
      }
      NothingMarked(level1[..]);
    }

    method Set(prio: bv32)
      requires Valid() && prio < 256
      modifies this, level1
      ensures Valid() && occupied == old(occupied) + {prio}
    {
      var word, bit := WordOf(prio), BitOf(prio);
      ghost var l := level1[..];
      MarkAll(l, occupied, prio);
      SummarySet(summary, word);
      SetBit(level1[IndexOf(word)], bit, bit);
      hide Bit, With, Without, WordOf, BitOf, IndexOf, Marked, Summarised;
      SummariseAgain(summary, l, With(summary, word), word, With(level1[IndexOf(word)], bit));
      level1[IndexOf(word)] := With(level1[IndexOf(word)], bit);
      summary := With(summary, word);
      occupied := occupied + {prio};
      assert level1[..] == l[IndexOf(word) := With(l[IndexOf(word)], bit)];
    }

    method Clear(prio: bv32)
      requires Valid() && prio < 256
      modifies this, level1
      ensures Valid() && occupied == old(occupied) - {prio}
    {
      var word, bit := WordOf(prio), BitOf(prio);
      ghost var l := level1[..];
      MarkAll(l, occupied, prio);
      hide Bit, With, Without, WordOf, BitOf, IndexOf, Marked, Summarised;
      ClearSummary(summary, l, word, bit);
      level1[IndexOf(word)] := Without(level1[IndexOf(word)], bit);
      if level1[IndexOf(word)] == 0 {
        summary := Without(summary, word);
      }
      occupied := occupied - {prio};
      assert level1[..] == l[IndexOf(word) := Without(l[IndexOf(word)], bit)];
    }

    method IsEmpty() returns (empty: bool)
      requires Valid()
      ensures empty <==> occupied == {}
    {
      empty := summary == 0;
      if summary == 0 {
        SummaryZero(summary, level1[..], occupied);
      } else {
        ghost var p := Top();
        assert p in occupied;
      }
    }

    /** The highest occupied priority. */
    method Highest() returns (prio: bv32)
      requires Valid() && occupied != {}
      ensures prio in occupied && forall p :: p in occupied ==> p <= prio
    {
      SummaryZero(summary, level1[..], occupied);
      prio := Top();
    }

    method Top() returns (prio: bv32)
      requires Valid() && summary != 0
      ensures prio in occupied && forall p :: p in occupied ==> p <= prio
    {
      hide Bit, WordOf, BitOf, IndexOf;
      var topWord := HighestBit(summary);
      SmallTop(summary, topWord);
      assert Summarised(summary, level1[..], topWord);
      var topBit := HighestBit(level1[IndexOf(topWord)]);
      TopIs(summary, level1[..], occupied, topWord, topBit);
      prio := topWord * 32 + topBit;
    }
  }

  /** The highest bit of the highest word in use is the highest priority. */
  lemma TopIs(summary: bv32, level1: seq<bv32>, occupied: set<bv32>, topWord: bv32, topBit: bv32)
    requires Marks(level1, occupied) && Summarises(summary, level1) && topWord < 8 && topBit < 32
    requires Bit(level1[IndexOf(topWord)], topBit)
    requires forall j: bv32 :: j < 32 && Bit(summary, j) ==> j <= topWord
    requires forall j: bv32 :: j < 32 && Bit(level1[IndexOf(topWord)], j) ==> j <= topBit
    ensures var prio := topWord * 32 + topBit; prio in occupied && forall p :: p in occupied ==> p <= prio
  {
    hide Bit, WordOf, BitOf, IndexOf;
    Joined(topWord, topBit);
    var prio := topWord * 32 + topBit;
    assert Marked(level1, prio);
    forall p | p in occupied ensures p <= prio {
      Dominated(summary, level1, topWord, topBit, p);
    }
  }

  lemma NothingMarked(level1: seq<bv32>)
    requires |level1| == Words && forall k :: 0 <= k < Words ==> level1[k] == 0
    ensures Marks(level1, {}) && Summarises(0, level1)
  {
    forall p: bv32 | p < 256 ensures !Marked(level1, p) {
    }
    forall w: bv32 | w < 8 ensures Summarised(0, level1, w) {
    }
  }

  lemma ClearSummary(summary: bv32, level1: seq<bv32>, word: bv32, bit: bv32)
    requires Summarises(summary, level1) && word < 8 && bit < 32
    ensures var value := Without(level1[IndexOf(word)], bit);
            Summarises(if value == 0 then Without(summary, word) else summary, level1[IndexOf(word) := value])
  {
    var value := Without(level1[IndexOf(word)], bit);
    assert Summarised(summary, level1, word);
    SummarySet(summary, word);
    StillNonZero(level1[IndexOf(word)], bit);
    hide Bit, With, Without, IndexOf;
    SummariseAgain(summary, level1, if value == 0 then Without(summary, word) else summary, word, value);
  }

  lemma StillNonZero(w: bv32, i: bv32)
    requires i < 32
    ensures Without(w, i) != 0 ==> w != 0
  {
  }

  lemma SummaryZero(summary: bv32, level1: seq<bv32>, occupied: set<bv32>)
    requires Marks(level1, occupied) && Summarises(summary, level1)
    ensures summary == 0 ==> occupied == {}
  {
    if summary == 0 {
      forall p | p in occupied ensures false {
        MarkedShows(summary, level1, p);
      }
    }
  }

  lemma Dominated(summary: bv32, level1: seq<bv32>, topWord: bv32, topBit: bv32, p: bv32)
    requires Summarises(summary, level1) && p < 256 && Marked(level1, p) && topWord < 8 && topBit < 32
    requires forall j: bv32 :: j < 32 && Bit(summary, j) ==> j <= topWord
    requires forall j: bv32 :: j < 32 && Bit(level1[IndexOf(topWord)], j) ==> j <= topBit
    ensures p <= topWord * 32 + topBit
  {
    MarkedShows(summary, level1, p);
    Joined(topWord, topBit);
    hide Bit, WordOf, BitOf, IndexOf;
    assert WordOf(p) <= topWord;
    assert WordOf(p) == topWord ==> BitOf(p) <= topBit;
    Compare(p, topWord * 32 + topBit);
  }
}
