/** What any run of capability operations keeps. */
module CapabilityRuns {
  import opened Capabilities

  datatype Place = Place(node: nat, slot: nat)

  predicate In(w: World, p: Place) {
    Valid(w) && p.node < |w| && p.slot < Slots
  }

  function At(w: World, p: Place): Cap
    requires In(w, p)
  {
    w[p.node][p.slot]
  }

  ghost predicate IsRun(ws: seq<World>, ops: seq<Op>) {
    && |ws| == |ops| + 1
    && forall i {:trigger ops[i]} :: 0 <= i < |ops| ==>
         Valid(ws[i]) && Names(ws[i], ops[i]) && ws[i + 1] == Apply(ws[i], ops[i])
  }

  /** The slot before the operation that p's contents after it come from. */
  function SourceOf(w: World, op: Op, p: Place): Place
    requires Valid(w) && Names(w, op)
  {
    if StatusOf(w, op) == Ok && !op.Delete? && p == Place(op.dn, op.d) then Place(op.sn, op.s) else p
  }

  /** The slot at time m that the capability in p at time n descends from. */
  ghost function Ancestor(ws: seq<World>, ops: seq<Op>, m: nat, n: nat, p: Place): Place
    requires IsRun(ws, ops) && m <= n <= |ops|
    decreases n
  {
    if m == n then p
    else
      assert ops[n - 1] == ops[n - 1];
      Ancestor(ws, ops, m, n - 1, SourceOf(ws[n - 1], ops[n - 1], p))
  }

  /** c is what derivation may make of a: the same object, no right more, and the
      badge if there was one. */
  ghost predicate Descends(c: Cap, a: Cap) {
    && c.kind == a.kind != Null && c.target == a.target && c.rights & !a.rights == 0
    && (a.badge != 0 || !IsBadged(a.kind) ==> c.badge == a.badge)
  }

  lemma DescendsTransitive(a: Cap, b: Cap, c: Cap)
    requires Descends(c, b) && Descends(b, a)
    ensures Descends(c, a)
  {
    Shrinks(a.rights, b.rights, c.rights);
  }

  lemma Shrinks(a: bv8, b: bv8, c: bv8)
    requires c & !b == 0 && b & !a == 0
    ensures c & !a == 0
  {
  }

  lemma Intersection(a: bv8, mask: bv8)
    ensures (a & mask & RightAll) & !a == 0 && a & !a == 0
  {
  }

  lemma StepDescends(w: World, op: Op, p: Place)
    requires Valid(w) && Names(w, op) && In(w, p)
    ensures var w' := Apply(w, op);
            && In(w', p) && In(w, SourceOf(w, op, p))
            && (At(w', p).kind != Null ==> Descends(At(w', p), At(w, SourceOf(w, op, p))))
  {
    Intersection(At(w, p).rights, 0);
    if StatusOf(w, op) == Ok {
      var c := w[op.sn][op.s];
      StatusOk(w, op);
      hide StatusOf, Put, At;
      match op {
        case Copy(dn, d, sn, s, mask) =>
          Intersection(c.rights, mask);
          PutAt(w, dn, d, Derived(c, mask, c.badge, s), p);
        case Mint(dn, d, sn, s, mask, badge) =>
          Intersection(c.rights, mask);
          PutAt(w, dn, d, Derived(c, mask, badge, s), p);
        case Move(dn, d, sn, s) =>
          Intersection(c.rights, 0);
          PutAt(w, dn, d, c, p);
          PutAt(Put(w, dn, d, c), sn, s, Empty, p);
        case Delete(sn, s) =>
          PutAt(w, sn, s, Empty, p);
      }
    }
  }

  /** What success says about the slots. */
  lemma StatusOk(w: World, op: Op)
    requires Valid(w) && Names(w, op) && StatusOf(w, op) == Ok
    ensures op.s < Slots && At(w, Place(op.sn, op.s)) == w[op.sn][op.s] && w[op.sn][op.s].kind != Null
    ensures !op.Delete? ==> op.d < Slots
    ensures op.Mint? ==> IsBadged(w[op.sn][op.s].kind) && w[op.sn][op.s].badge == 0
  {
  }

  lemma PutAt(w: World, n: nat, i: nat, c: Cap, p: Place)
    requires Valid(w) && n < |w| && i < Slots && In(w, p)
    ensures var w' := Put(w, n, i, c);
            |w'| == |w| && Valid(w') && In(w', p) && At(w', p) == if p == Place(n, i) then c else At(w, p)
  {
  }

  lemma StepValid(w: World, op: Op)
    requires Valid(w) && Names(w, op)
    ensures Valid(Apply(w, op)) && |Apply(w, op)| == |w|
  {
  }

  lemma {:induction false} RunValid(ws: seq<World>, ops: seq<Op>, n: nat)
    requires IsRun(ws, ops) && Valid(ws[0]) && n <= |ops|
    ensures Valid(ws[n]) && |ws[n]| == |ws[0]|
  {
    if n > 0 {
      RunValid(ws, ops, n - 1);
      assert ops[n - 1] == ops[n - 1];
      hide Apply, Names;
      StepValid(ws[n - 1], ops[n - 1]);
    }
  }

  /** Every capability of a run descends from the one its slot is traced back to, at
      every earlier time: rights only shrink, type and object stay, and a badge
      that was set is never changed. */
  lemma {:induction false} RunDescends(ws: seq<World>, ops: seq<Op>, m: nat, n: nat, p: Place)
    requires IsRun(ws, ops) && Valid(ws[0]) && m <= n <= |ops| && In(ws[n], p) && At(ws[n], p).kind != Null
    ensures var a := Ancestor(ws, ops, m, n, p);
            In(ws[m], a) && Descends(At(ws[n], p), At(ws[m], a))
    decreases n
  {
    hide StatusOf, SourceOf, Apply, Descends, Names;
    if m == n {
      DescendsSelf(At(ws[n], p));
    } else {
      RunValid(ws, ops, n - 1);
      RunValid(ws, ops, n);
      assert ops[n - 1] == ops[n - 1];
      var q := SourceOf(ws[n - 1], ops[n - 1], p);
      StepDescends(ws[n - 1], ops[n - 1], p);
      DescendsNotNull(At(ws[n], p), At(ws[n - 1], q));
      RunDescends(ws, ops, m, n - 1, q);
      DescendsTransitive(At(ws[m], Ancestor(ws, ops, m, n - 1, q)), At(ws[n - 1], q), At(ws[n], p));
    }
  }

  lemma DescendsSelf(c: Cap)
    requires c.kind != Null
    ensures Descends(c, c)
  {
    Intersection(c.rights, 0);
  }

  lemma DescendsNotNull(c: Cap, a: Cap)
    requires Descends(c, a)
    ensures a.kind != Null
  {
  }

  /** Some capability of the world gives this right to this object. */
  ghost predicate Grants(w: World, kind: CapType, target: nat, right: bv8)
    requires Valid(w)
  {
    exists p :: In(w, p) && At(w, p).kind == kind != Null && At(w, p).target == target && At(w, p).rights & right != 0
  }

  lemma RightOf(c: bv8, a: bv8, right: bv8)
    requires c & !a == 0 && c & right != 0
    ensures a & right != 0
  {
  }

  /** No run of copy, mint, move and delete creates authority. */
  lemma NoNewAuthority(ws: seq<World>, ops: seq<Op>, n: nat, kind: CapType, target: nat, right: bv8)
    requires IsRun(ws, ops) && Valid(ws[0]) && n <= |ops| && Valid(ws[n]) && Grants(ws[n], kind, target, right)
    ensures Grants(ws[0], kind, target, right)
  {
    var p :| In(ws[n], p) && At(ws[n], p).kind == kind != Null && At(ws[n], p).target == target
      && At(ws[n], p).rights & right != 0;
    RunDescends(ws, ops, 0, n, p);
    var a := Ancestor(ws, ops, 0, n, p);
    RightOf(At(ws[n], p).rights, At(ws[0], a).rights, right);
    assert At(ws[0], a).kind == kind;
  }

  /** A move into a cleared slot can be undone by moving back. */
  lemma MoveBack(w: World, dn: nat, d: nat, sn: nat, s: nat)
    requires Valid(w) && Names(w, Move(dn, d, sn, s)) && StatusOf(w, Move(dn, d, sn, s)) == Ok && w[dn][d] == Empty
    ensures var w' := Apply(w, Move(dn, d, sn, s));
            && Valid(w') && Names(w', Move(sn, s, dn, d)) && StatusOf(w', Move(sn, s, dn, d)) == Ok
            && Apply(w', Move(sn, s, dn, d)) == w
  {
    var w' := Apply(w, Move(dn, d, sn, s));
    var w'' := Apply(w', Move(sn, s, dn, d));
    forall n | 0 <= n < |w| ensures w''[n] == w[n] {
      assert forall i :: 0 <= i < Slots ==> w''[n][i] == w[n][i];
    }
  }

  // ----- Slot by slot ------------------------------------------------------

  /** The slots of an operation exist, its source is taken and its destination free;
      a mint wants an endpoint or a notification without a badge. */
  ghost predicate Succeeds(w: World, op: Op)
    requires Valid(w) && Names(w, op)
  {
    && op.s < 64 && w[op.sn][op.s].kind != Null
    && (!op.Delete? ==> op.d < 64 && w[op.dn][op.d].kind == Null)
    && (op.Mint? ==> w[op.sn][op.s].kind in {Endpoint, Notification} && w[op.sn][op.s].badge == 0)
  }

  /** What slot p holds after a successful operation. */
  ghost predicate HoldsAfter(w: World, op: Op, p: Place, c: Cap)
    requires Valid(w) && Names(w, op) && In(w, p) && op.s < Slots
  {
    var a := w[op.sn][op.s];
    if !op.Delete? && p == Place(op.dn, op.d) then
      match op
      case Copy(_, _, _, _, mask) => CopyOf(c, a, mask, a.badge)
      case Mint(_, _, _, _, mask, badge) => CopyOf(c, a, mask, badge)
      case _ => c == a
    else if (op.Move? || op.Delete?) && p == Place(op.sn, op.s) then IsCleared(c)
    else c == At(w, p)
  }

  /** An operation answers Ok exactly when it can succeed. It then fills the destination,
      clears the source if it is a move or a delete, and leaves all other slots of all
      CNodes alone. An operation that cannot succeed changes nothing. */
  lemma StepIsExact(w: World, op: Op, p: Place)
    requires Valid(w) && Names(w, op) && In(w, p)
    ensures StatusOf(w, op) == Ok <==> Succeeds(w, op)
    ensures var w' := Apply(w, op);
            In(w', p) && if Succeeds(w, op) then HoldsAfter(w, op, p, At(w', p)) else At(w', p) == At(w, p)
  {
    if StatusOf(w, op) == Ok {
      var c := w[op.sn][op.s];
      StatusOk(w, op);
      hide Put, CopyOf;
      match op {
        case Copy(dn, d, sn, s, mask) =>
          DerivedIsCopy(c, mask, c.badge, s);
          PutAt(w, dn, d, Derived(c, mask, c.badge, s), p);
        case Mint(dn, d, sn, s, mask, badge) =>
          DerivedIsCopy(c, mask, badge, s);
          PutAt(w, dn, d, Derived(c, mask, badge, s), p);
        case Move(dn, d, sn, s) =>
          PutAt(w, dn, d, c, p);
          PutAt(Put(w, dn, d, c), sn, s, Empty, p);
        case Delete(sn, s) =>
          PutAt(w, sn, s, Empty, p);
      }
    }
  }

  /** Why an operation fails, in the order of the checks. */
  lemma FailsBecause(w: World, op: Op)
    requires Valid(w) && Names(w, op)
    ensures var missing := op.s >= 64 || (!op.Delete? && op.d >= 64);
            && (StatusOf(w, op) == ErrCapInvalid <==> missing)
            && (StatusOf(w, op) == ErrEmpty <==> !missing && w[op.sn][op.s].kind == Null)
            && (StatusOf(w, op) == ErrExists <==>
                  !missing && w[op.sn][op.s].kind != Null && !op.Delete? && w[op.dn][op.d].kind != Null)
            && (StatusOf(w, op) == ErrCapType <==>
                  && !missing && op.Mint? && w[op.dn][op.d].kind == Null
                  && w[op.sn][op.s].kind !in {Null, Endpoint, Notification})
            && (StatusOf(w, op) == ErrState <==>
                  && !missing && op.Mint? && w[op.dn][op.d].kind == Null
                  && w[op.sn][op.s].kind in {Endpoint, Notification} && w[op.sn][op.s].badge != 0)
  {
  }

  /** What was deleted is gone: a second delete finds nothing. */
  lemma DeleteTwice(w: World, n: nat, s: nat)
    requires Valid(w) && n < |w| && Succeeds(w, Delete(n, s))
    ensures var w' := Apply(w, Delete(n, s));
            Valid(w') && |w'| == |w| && StatusOf(w', Delete(n, s)) == ErrEmpty && Apply(w', Delete(n, s)) == w'
  {
    StepValid(w, Delete(n, s));
    StepIsExact(w, Delete(n, s), Place(n, s));
  }

  // ----- Revocation --------------------------------------------------------

  /** Slot p holds a capability to the object. */
  ghost predicate Refers(w: World, p: Place, kind: CapType, target: nat) {
    In(w, p) && At(w, p).kind == kind && At(w, p).target == target
  }

  /** While capabilities are only deleted, a slot that still holds one has held it from
      the start and has not been deleted. */
  lemma {:induction false} OnlyDeleted(ws: seq<World>, ops: seq<Op>, m: nat, p: Place)
    requires IsRun(ws, ops) && Valid(ws[0]) && m <= |ops| && In(ws[m], p) && At(ws[m], p).kind != Null
    requires forall i :: 0 <= i < m ==> ops[i].Delete?
    ensures In(ws[0], p) && At(ws[m], p) == At(ws[0], p)
    ensures forall i :: 0 <= i < m ==> ops[i] != Delete(p.node, p.slot)
  {
    if m > 0 {
      RunValid(ws, ops, m - 1);
      assert ops[m - 1] == ops[m - 1];
      StepValid(ws[m - 1], ops[m - 1]);
      StepIsExact(ws[m - 1], ops[m - 1], p);
      hide Apply, StatusOf;
      OnlyDeleted(ws, ops, m - 1, p);
    }
  }

  /** An object whose every capability has been deleted is out of reach for good: no
      later operation brings one back. */
  lemma RevokedForGood(ws: seq<World>, ops: seq<Op>, m: nat, n: nat, kind: CapType, target: nat)
    requires IsRun(ws, ops) && Valid(ws[0]) && m <= n <= |ops| && kind != Null
    requires forall i :: 0 <= i < m ==> ops[i].Delete?
    requires forall p :: Refers(ws[0], p, kind, target) ==> Delete(p.node, p.slot) in ops[..m]
    ensures forall p :: !Refers(ws[n], p, kind, target)
    ensures Valid(ws[n]) && forall right :: !Grants(ws[n], kind, target, right)
  {
    RunValid(ws, ops, n);
    RunValid(ws, ops, m);
    forall p ensures !Refers(ws[n], p, kind, target) {
      if Refers(ws[n], p, kind, target) {
        RunDescends(ws, ops, m, n, p);
        var a := Ancestor(ws, ops, m, n, p);
        OnlyDeleted(ws, ops, m, a);
        assert false;
      }
    }
    hide IsRun;
    forall right ensures !Grants(ws[n], kind, target, right) {
      GrantRefers(ws[n], kind, target, right);
    }
  }

  lemma GrantRefers(w: World, kind: CapType, target: nat, right: bv8)
    requires Valid(w)
    ensures Grants(w, kind, target, right) ==> exists p :: Refers(w, p, kind, target)
  {
    if Grants(w, kind, target, right) {
      var p :| In(w, p) && At(w, p).kind == kind != Null && At(w, p).target == target && At(w, p).rights & right != 0;
      assert Refers(w, p, kind, target);
    }
  }

  /** A copy does hand on: the rights of source and mask are granted by the new slot, and
      the source still grants its own. */
  lemma CopyGrants(w: World, dn: nat, d: nat, sn: nat, s: nat, mask: bv8, right: bv8)
    requires Valid(w) && Names(w, Copy(dn, d, sn, s, mask)) && Succeeds(w, Copy(dn, d, sn, s, mask)) && IsRight(right)
    requires w[sn][s].rights & right != 0 && mask & right != 0
    ensures var w', a := Apply(w, Copy(dn, d, sn, s, mask)), w[sn][s];
            && Valid(w') && Grants(w', a.kind, a.target, right)
            && In(w', Place(dn, d)) && At(w', Place(dn, d)).rights & right != 0
            && In(w', Place(sn, s)) && At(w', Place(sn, s)) == a
  {
    var op := Copy(dn, d, sn, s, mask);
    StepValid(w, op);
    StepIsExact(w, op, Place(dn, d));
    StepIsExact(w, op, Place(sn, s));
    hide Apply;
    var c := At(Apply(w, op), Place(dn, d));
    assert c.rights & right != 0;
  }
}
