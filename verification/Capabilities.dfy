/** Capabilities and flat CNodes, kernel/cap.c. A world is the contents of any number
    of CNodes; an operation names slots by CNode and index. */
module Capabilities {
  const Slots: nat := 64
  const NoParent: nat := 0xFFFF_FFFF
  const RightAll: bv8 := 0xF

  datatype CapType = Null | Untyped | Domain | Thread | CNodeType | Endpoint | Notification | Reply | SchedContext
                   | IrqHandler | MemRegion

  datatype Cap = Cap(kind: CapType, rights: bv8, badge: nat, target: nat, parent: nat)

  const Empty: Cap := Cap(Null, 0, 0, 0, NoParent)

  datatype Status = Ok | ErrCapInvalid | ErrExists | ErrEmpty | ErrCapType | ErrState

  predicate IsBadged(kind: CapType) {
    kind == Endpoint || kind == Notification
  }

  // ----- The operations on a world -----------------------------------------

  type World = seq<seq<Cap>>

  datatype Op =
    | Copy(dn: nat, d: nat, sn: nat, s: nat, mask: bv8)
    | Mint(dn: nat, d: nat, sn: nat, s: nat, mask: bv8, badge: nat)
    | Move(dn: nat, d: nat, sn: nat, s: nat)
    | Delete(sn: nat, s: nat)

  predicate Valid(w: World) {
    forall n :: 0 <= n < |w| ==> |w[n]| == Slots
  }

  /** The CNodes exist; the slots need not. */
  predicate Names(w: World, op: Op) {
    op.sn < |w| && (!op.Delete? ==> op.dn < |w|)
  }

  function Put(w: World, n: nat, i: nat, c: Cap): World
    requires n < |w| && i < |w[n]|
  {
    w[n := w[n][i := c]]
  }

  /** The checks that copy, mint and move share, in their order. */
  function DeriveCheck(dst: seq<Cap>, d: nat, src: seq<Cap>, s: nat): Status
    requires |dst| == |src| == Slots
  {
    if s >= Slots || d >= Slots then ErrCapInvalid
    else if src[s].kind == Null then ErrEmpty
    else if dst[d].kind != Null then ErrExists
    else Ok
  }

  function StatusOf(w: World, op: Op): Status
    requires Valid(w) && Names(w, op)
  {
    match op
    case Delete(sn, s) => if s >= Slots then ErrCapInvalid else if w[sn][s].kind == Null then ErrEmpty else Ok
    case Mint(dn, d, sn, s, _, _) =>
      var st := DeriveCheck(w[dn], d, w[sn], s);
      if st != Ok then st
      else if !IsBadged(w[sn][s].kind) then ErrCapType
      else if w[sn][s].badge != 0 then ErrState
      else Ok
    case _ => DeriveCheck(w[op.dn], op.d, w[op.sn], op.s)
  }

  function Derived(c: Cap, mask: bv8, badge: nat, s: nat): Cap {
    Cap(c.kind, c.rights & mask & RightAll, badge, c.target, s)
  }

  function Apply(w: World, op: Op): World
    requires Valid(w) && Names(w, op)
  {
    if StatusOf(w, op) != Ok then w
    else
      var c := w[op.sn][op.s];
      match op
      case Copy(dn, d, _, s, mask) => Put(w, dn, d, Derived(c, mask, c.badge, s))
      case Mint(dn, d, _, s, mask, badge) => Put(w, dn, d, Derived(c, mask, badge, s))
      case Move(dn, d, sn, s) => Put(Put(w, dn, d, c), sn, s, Empty)
      case Delete(sn, s) => Put(w, sn, s, Empty)
  }

  /** r is one of the four rights: read, write, grant, execute. */
  predicate IsRight(r: bv8) {
    r == 1 || r == 2 || r == 4 || r == 8
  }

  /** c is a copy of a with the given badge and exactly the rights that both a and the
      mask have. */
  ghost predicate CopyOf(c: Cap, a: Cap, mask: bv8, badge: nat) {
    && c.kind == a.kind && c.target == a.target && c.badge == badge && c.rights <= 15
    && forall r :: IsRight(r) ==> (c.rights & r != 0 <==> a.rights & r != 0 && mask & r != 0)
  }

  lemma DerivedIsCopy(c: Cap, mask: bv8, badge: nat, s: nat)
    ensures CopyOf(Derived(c, mask, badge, s), c, mask, badge)
  {
    var rights := c.rights & mask & RightAll;
    forall r | IsRight(r) ensures rights & r != 0 <==> c.rights & r != 0 && mask & r != 0 {
      OneRight(c.rights, mask, r);
    }
    AtMostAll(c.rights, mask);
  }

  lemma OneRight(a: bv8, mask: bv8, r: bv8)
    requires IsRight(r)
    ensures (a & mask & RightAll) & r != 0 <==> a & r != 0 && mask & r != 0
  {
  }

  lemma AtMostAll(a: bv8, mask: bv8)
    ensures a & mask & RightAll <= 15
  {
  }

  predicate IsCleared(c: Cap) {
    c.kind == Null && c.rights == 0 && c.badge == 0 && c.target == 0 && c.parent == 0xFFFF_FFFF
  }

  // ----- CNodes in memory --------------------------------------------------

  class CNode {
    const slots: array<Cap>

    constructor ()
      ensures fresh(slots) && slots.Length == Slots && forall i :: 0 <= i < Slots ==> slots[i] == Empty
    {
      slots := new Cap[Slots];
      new;
      for i := 0 to Slots
        invariant slots.Length == Slots && fresh(slots) && forall k :: 0 <= k < i ==> slots[k] == Empty
      {
        slots[i] := Empty;
      }
    }
  }

  /** What a collection of separate CNodes holds. */
  ghost predicate Separate(nodes: seq<CNode>) {
    && (forall i :: 0 <= i < |nodes| ==> nodes[i].slots.Length == Slots)
    && (forall i, j :: 0 <= i < j < |nodes| ==> nodes[i].slots != nodes[j].slots)
  }

  ghost function Arrays(nodes: seq<CNode>): set<array<Cap>> {
    set i | 0 <= i < |nodes| :: nodes[i].slots
  }

  ghost function View(nodes: seq<CNode>): (w: World)
    requires Separate(nodes)
    reads Arrays(nodes)
    ensures |w| == |nodes| && Valid(w)
    ensures forall i :: 0 <= i < |w| ==> w[i] == nodes[i].slots[..]
  {
    seq(|nodes|, i requires 0 <= i < |nodes| reads Arrays(nodes) => nodes[i].slots[..])
  }

  /** One slot was written and nothing else. */
  lemma Written(w: World, w': World, n: nat, i: nat, c: Cap)
    requires Valid(w) && |w'| == |w| && n < |w| && i < Slots && w'[n] == w[n][i := c]
    requires forall k :: 0 <= k < |w| && k != n ==> w'[k] == w[k]
    ensures w' == Put(w, n, i, c)
  {
  }

  method Install(cn: CNode, slot: nat, cap: Cap) returns (st: Status)
    requires cn.slots.Length == Slots
    modifies cn.slots
    ensures st == if slot >= Slots then ErrCapInvalid else if old(cn.slots[slot]).kind != Null then ErrExists else Ok
    ensures cn.slots[..] == if st == Ok then old(cn.slots[..])[slot := cap] else old(cn.slots[..])
  {
    if slot >= Slots {
      return ErrCapInvalid;
    }
    if cn.slots[slot].kind != Null {
      return ErrExists;
    }
    cn.slots[slot] := cap;
    return Ok;
  }

  method CheckDerive(dst: CNode, d: nat, src: CNode, s: nat) returns (st: Status)
    requires dst.slots.Length == src.slots.Length == Slots
    ensures st == DeriveCheck(dst.slots[..], d, src.slots[..], s)
  {
    if s >= Slots {
      return ErrCapInvalid;
    }
    if d >= Slots {
      return ErrCapInvalid;
    }
    if src.slots[s].kind == Null {
      return ErrEmpty;
    }
    if dst.slots[d].kind != Null {
      return ErrExists;
    }
    return Ok;
  }

  method CopyCap(ghost nodes: seq<CNode>, ghost dn: nat, d: nat, ghost sn: nat, s: nat, mask: bv8, dst: CNode,
                 src: CNode)
    returns (st: Status)
    requires Separate(nodes) && dn < |nodes| && sn < |nodes| && dst == nodes[dn] && src == nodes[sn]
    modifies dst.slots
    ensures st == old(StatusOf(View(nodes), Copy(dn, d, sn, s, mask)))
    ensures View(nodes) == Apply(old(View(nodes)), Copy(dn, d, sn, s, mask))
    ensures st == Ok ==>
              && d < 64 && s < 64 && old(src.slots[s]).kind != Null && old(dst.slots[d]).kind == Null
              && CopyOf(dst.slots[d], old(src.slots[s]), mask, old(src.slots[s]).badge) && dst.slots[d].parent == s
    ensures forall i :: 0 <= i < 64 && (st != Ok || i != d) ==> dst.slots[i] == old(dst.slots[i])
  {
    ghost var w := View(nodes);
    st := CheckDerive(dst, d, src, s);
    if st == Ok {
      var c := src.slots[s];
      var r := Cap(c.kind, c.rights & mask & RightAll, c.badge, c.target, s);
      DerivedIsCopy(c, mask, c.badge, s);
      hide CopyOf;
      dst.slots[d] := r;
      Written(w, View(nodes), dn, d, r);
    }
  }

  method MintCap(ghost nodes: seq<CNode>, ghost dn: nat, d: nat, ghost sn: nat, s: nat, mask: bv8, badge: nat,
                 dst: CNode, src: CNode)
    returns (st: Status)
    requires Separate(nodes) && dn < |nodes| && sn < |nodes| && dst == nodes[dn] && src == nodes[sn]
    modifies dst.slots
    ensures st == old(StatusOf(View(nodes), Mint(dn, d, sn, s, mask, badge)))
    ensures View(nodes) == Apply(old(View(nodes)), Mint(dn, d, sn, s, mask, badge))
    ensures st == Ok ==>
              && d < 64 && s < 64 && old(src.slots[s]).kind in {Endpoint, Notification}
              && old(src.slots[s]).badge == 0 && old(dst.slots[d]).kind == Null
              && CopyOf(dst.slots[d], old(src.slots[s]), mask, badge) && dst.slots[d].parent == s
    ensures forall i :: 0 <= i < 64 && (st != Ok || i != d) ==> dst.slots[i] == old(dst.slots[i])
  {
    ghost var w := View(nodes);
    st := CheckDerive(dst, d, src, s);
    if st == Ok {
      var c := src.slots[s];
      if !IsBadged(c.kind) {
        return ErrCapType;
      }
      if c.badge != 0 {
        return ErrState;
      }
      var r := Cap(c.kind, c.rights & mask & RightAll, badge, c.target, s);
      DerivedIsCopy(c, mask, badge, s);
      hide CopyOf;
      dst.slots[d] := r;
      Written(w, View(nodes), dn, d, r);
    }
  }

  method MoveCap(ghost nodes: seq<CNode>, ghost dn: nat, d: nat, ghost sn: nat, s: nat, dst: CNode, src: CNode)
    returns (st: Status)
    requires Separate(nodes) && dn < |nodes| && sn < |nodes| && dst == nodes[dn] && src == nodes[sn]
    modifies dst.slots, src.slots
    ensures st == old(StatusOf(View(nodes), Move(dn, d, sn, s)))
    ensures View(nodes) == Apply(old(View(nodes)), Move(dn, d, sn, s))
    ensures st == Ok ==>
              && d < 64 && s < 64 && old(src.slots[s]).kind != Null && old(dst.slots[d]).kind == Null
              && dst.slots[d] == old(src.slots[s]) && IsCleared(src.slots[s])
    ensures forall i :: 0 <= i < 64 && (st != Ok || (i != d && (src != dst || i != s))) ==>
              dst.slots[i] == old(dst.slots[i])
    ensures forall i :: 0 <= i < 64 && (st != Ok || (i != s && (src != dst || i != d))) ==>
              src.slots[i] == old(src.slots[i])
  {
    ghost var w := View(nodes);
    st := CheckDerive(dst, d, src, s);
    if st == Ok {
      var c := src.slots[s];
      dst.slots[d] := c;
      ghost var w1 := View(nodes);
      Written(w, w1, dn, d, c);
      src.slots[s] := Empty;
      Written(w1, View(nodes), sn, s, Empty);
    }
  }

  method DeleteCap(ghost nodes: seq<CNode>, ghost n: nat, slot: nat, cn: CNode) returns (st: Status)
    requires Separate(nodes) && n < |nodes| && cn == nodes[n]
    modifies cn.slots
    ensures st == old(StatusOf(View(nodes), Delete(n, slot)))
    ensures View(nodes) == Apply(old(View(nodes)), Delete(n, slot))
    ensures st == Ok <==> slot < 64 && old(cn.slots[slot]).kind != Null
    ensures slot < 64 ==> cn.slots[slot].kind == Null
    ensures st == Ok ==> IsCleared(cn.slots[slot])
    ensures forall i :: 0 <= i < 64 && i != slot ==> cn.slots[i] == old(cn.slots[i])
  {
    ghost var w := View(nodes);
    if slot >= Slots {
      return ErrCapInvalid;
    }
    if cn.slots[slot].kind == Null {
      return ErrEmpty;
    }
    cn.slots[slot] := Empty;
    Written(w, View(nodes), n, slot, Empty);
    return Ok;
  }

  /** A deleted slot is free: a second delete finds nothing, and another capability can be
      installed there. */
  method Reuse(ghost nodes: seq<CNode>, ghost n: nat, slot: nat, cn: CNode, cap: Cap)
    returns (first: Status, second: Status, installed: Status)
    requires Separate(nodes) && n < |nodes| && cn == nodes[n] && slot < 64 && cn.slots[slot].kind != Null
    modifies cn.slots
    ensures first == Ok && second == ErrEmpty && installed == Ok
    ensures cn.slots[..] == old(cn.slots[..])[slot := cap]
  {
    first := DeleteCap(nodes, n, slot, cn);
    second := DeleteCap(nodes, n, slot, cn);
    installed := Install(cn, slot, cap);
  }
}
