/** What derivation does to the capabilities it starts from and what revocation finds afterwards
    (kernel/src/object/cnode.c, isCapRevocable in kernel/src/object/objecttype.c), and the untyped capabilities of a
    capability space against the free indices of their region. */
module Derivations {
  import opened Words
  import opened CapSpaces
  import opened Untyped

  // ---------------------------------------------------------------- what revocation finds

  /** sameRegionAs; of what lies in an untyped region, only untyped memory is modelled. */
  predicate Covers(a: Cap, b: Cap) {
    if a.UntypedCap?
    then b.UntypedCap? && a.ptr <= b.ptr && b.ptr + Pow2(b.sizeBits) <= a.ptr + Pow2(a.sizeBits)
    else SameRegionAs(a, b)
  }

  /** isMDBParentOf */
  predicate IsParentOf(a: Cte, b: Cte) {
    && a.revocable && Covers(a.cap, b.cap)
    && match a.cap
       case EndpointCap(_, badge) => badge == 0 || (badge == b.cap.badge && !b.firstBadged)
       case NotificationCap(_, badge) => badge == 0 || (badge == b.cap.badge && !b.firstBadged)
       case _ => true
  }

  /** What can be derived from `src`: a badge can be given once, and untyped memory is copied as it is. */
  predicate Derivable(src: Cap, derived: Cap) {
    match src
    case EndpointCap(p, badge) => derived.EndpointCap? && derived.ptr == p && (badge == 0 || derived.badge == badge)
    case NotificationCap(p, badge) =>
      derived.NotificationCap? && derived.ptr == p && (badge == 0 || derived.badge == badge)
    case IrqControlCap => derived.IrqHandlerCap?
    case NullCap => false
    case ZombieCap(_, _, _) => false
    case _ => derived == src
  }

  /** Revocation of the capability from which one was derived finds it next in the list, exactly if that capability
      revokes at all. */
  lemma DerivedFound(sp: Slots, src: Ref, dest: Ref, derived: Cap)
    requires src in sp && dest in sp && src != dest && SlotLinked(sp, src) && sp[dest] == NullCte
    requires sp[src].next != src && sp[src].next != dest && Derivable(sp[src].cap, derived)
    ensures var t := Spliced(sp, Derivation(sp[src].cap, src, dest, derived));
            t[src].next == dest && (IsParentOf(t[src], t[dest]) <==> sp[src].revocable)
  {
  }

  /** The first capability with a badge revokes its copies, and so do the handler of an interrupt and a copy of untyped
      memory; other copies do not. */
  lemma CopyFoundIff(sp: Slots, src: Ref, first: Ref, second: Ref, derived: Cap)
    requires src in sp && first in sp && second in sp && src != first && src != second && first != second
    requires SlotLinked(sp, src) && sp[first] == NullCte && sp[second] == NullCte && 0 !in sp
    requires sp[src].next !in {src, first, second} && Derivable(sp[src].cap, derived)
    requires Derivable(derived, derived)
    ensures var t := Spliced(sp, Derivation(sp[src].cap, src, first, derived));
            var u := Spliced(t, Derivation(t[first].cap, first, second, derived));
            IsParentOf(u[first], u[second]) <==> derived != sp[src].cap || derived.UntypedCap?
  {
  }

  // ---------------------------------------------------------------- badges

  predicate Badged(c: Cap) {
    (c.EndpointCap? || c.NotificationCap?) && c.badge != 0
  }

  /** The derivation that each badged capability comes from: its badge was given there. */
  type Groups = map<Ref, nat>

  /** Two capabilities with one badge of one derivation. */
  ghost predicate Grouped(sp: Slots, group: Groups, p: Ref, n: Ref) {
    && p in sp && n in sp && p in group && n in group && group[p] == group[n]
    && SameObjectAs(sp[p].cap, sp[n].cap) && Badged(sp[p].cap) && Badged(sp[n].cap)
    && sp[p].cap.badge == sp[n].cap.badge
  }

  /** A badged capability that is not marked as the first of its derivation follows another one of it. */
  ghost predicate InGroup(sp: Slots, group: Groups, n: Ref)
    requires n in sp
  {
    Badged(sp[n].cap) ==> n in group && (sp[n].firstBadged || Grouped(sp, group, sp[n].prev, n))
  }

  ghost predicate GroupsOk(sp: Slots, group: Groups) {
    forall n {:trigger InGroup(sp, group, n)} :: n in sp ==> InGroup(sp, group, n)
  }

  /** Badged capabilities are derived from or moved as they are, and new ones do not come between them. */
  predicate KeepsBadges(sp: Slots, op: Op) {
    match op
    case Insert(cap, src, _) => src in sp && Derivable(sp[src].cap, cap)
    case InsertNew(parent, _, _) => parent in sp && !Badged(sp[parent].cap)
    case Move(cap, src, _) => src in sp && (Badged(cap) || Badged(sp[src].cap) ==> cap == sp[src].cap)
    case Swap(cap1, slot1, cap2, slot2) =>
      && slot1 in sp && slot2 in sp && (Badged(cap1) || Badged(sp[slot1].cap) ==> cap1 == sp[slot1].cap)
      && (Badged(cap2) || Badged(sp[slot2].cap) ==> cap2 == sp[slot2].cap)
    case _ => true
  }

  /** The groups afterwards, where `newest` is a derivation that has not been before: a capability with a new badge
      begins one, a copy belongs to that of its source, and one that moves takes its group along. */
  ghost function Regrouped(sp: Slots, group: Groups, op: Op, newest: nat): Groups
    requires KeepsBadges(sp, op)
  {
    match op
    case Write(slot, _) => group[slot := newest]
    case Insert(cap, src, dest) => group[dest := if cap == sp[src].cap && src in group then group[src] else newest]
    case InsertNew(_, slot, _) => group[slot := newest]
    case Move(_, src, dest) => Renamed(group, src, dest)
    case Swap(_, slot1, _, slot2) => Renamed(group, slot1, slot2)
    case _ => group
  }

  ghost function Renamed(group: Groups, a: Ref, b: Ref): Groups {
    map r | r in group.Keys + {a, b} && Other(a, b, r) in group :: group[Other(a, b, r)]
  }

  lemma InsertedGroups(sp: Slots, group: Groups, src: Ref, dest: Ref, cap: Cap, newest: nat)
    requires GroupsOk(sp, group) && WellLinked(sp) && src in sp && dest in sp && src != dest && sp[dest].cap.NullCap?
    requires sp[src].next != src && sp[src].next != dest && Derivable(sp[src].cap, cap)
    ensures SlotLinked(sp, src)
    ensures GroupsOk(Spliced(sp, Derivation(sp[src].cap, src, dest, cap)),
                     Regrouped(sp, group, Insert(cap, src, dest), newest))
  {
    assert SlotLinked(sp, src) && InGroup(sp, group, src);
    var t := Spliced(sp, Derivation(sp[src].cap, src, dest, cap));
    var after := Regrouped(sp, group, Insert(cap, src, dest), newest);
    forall n | n in t ensures InGroup(t, after, n) {
      assert InGroup(sp, group, n) && SlotLinked(sp, n) && SlotLinked(sp, dest);
    }
  }

  /** A new capability, marked as a first one, with no badged one behind it that is not. */
  lemma AddedGroups(sp: Slots, t: Slots, group: Groups, slot: Ref, newest: nat)
    requires GroupsOk(sp, group) && slot in sp && t.Keys == sp.Keys && t[slot].firstBadged && sp[slot].cap.NullCap?
    requires forall r :: r in sp && r != slot ==> t[r].cap == sp[r].cap && t[r].firstBadged == sp[r].firstBadged
    requires forall r :: r in sp && r != slot && t[r].prev != sp[r].prev ==> t[r].firstBadged || !Badged(t[r].cap)
    ensures GroupsOk(t, group[slot := newest])
  {
    forall n | n in t ensures InGroup(t, group[slot := newest], n) {
      assert InGroup(sp, group, n);
    }
  }

  lemma InsertedNewGroups(sp: Slots, group: Groups, parent: Ref, slot: Ref, cap: Cap, newest: nat)
    requires GroupsOk(sp, group) && WellLinked(sp) && parent in sp && slot in sp && parent != slot
    requires sp[slot].cap.NullCap? && sp[parent].next != parent && sp[parent].next != slot && !Badged(sp[parent].cap)
    ensures SlotLinked(sp, parent)
    ensures GroupsOk(Spliced(sp, Splice(parent, slot, sp[parent].cap, cap, true, true)), group[slot := newest])
  {
    assert SlotLinked(sp, parent);
    var t := Spliced(sp, Splice(parent, slot, sp[parent].cap, cap, true, true));
    forall r | r in sp && r != slot && t[r].prev != sp[r].prev ensures t[r].firstBadged || !Badged(t[r].cap) {
      assert InGroup(sp, group, r) && SlotLinked(sp, r);
    }
    AddedGroups(sp, t, group, slot, newest);
  }

  /** The next capability takes over the mark of the one that goes. */
  lemma RemovedGroups(sp: Slots, group: Groups, r: Ref)
    requires GroupsOk(sp, group) && WellLinked(sp) && r in sp && sp[r].next != r && sp[r].prev != r
    ensures SlotLinked(sp, r) && GroupsOk(Removed(sp, r), group)
  {
    assert SlotLinked(sp, r);
    var t := Removed(sp, r);
    forall n | n in t ensures InGroup(t, group, n) {
      assert InGroup(sp, group, n) && InGroup(sp, group, r) && SlotLinked(sp, n);
    }
  }

  lemma SwappedGroups(sp: Slots, t: Slots, group: Groups, a: Ref, b: Ref, atA: Cap, atB: Cap)
    requires GroupsOk(sp, group) && 0 !in sp && a in sp && b in sp && a != b && Swapped(sp, t, a, b, atA, atB)
    requires Badged(atA) || Badged(sp[b].cap) ==> atA == sp[b].cap
    requires Badged(atB) || Badged(sp[a].cap) ==> atB == sp[a].cap
    ensures GroupsOk(t, Renamed(group, a, b))
  {
    var after := Renamed(group, a, b);
    forall n | n in t ensures InGroup(t, after, n) {
      var m := Other(a, b, n);
      assert SwappedAt(sp, t, a, b, atA, atB, n) && InGroup(sp, group, m);
      if Badged(t[n].cap) && !t[n].firstBadged {
        assert Grouped(sp, group, sp[m].prev, m);
        assert SwappedAt(sp, t, a, b, atA, atB, t[n].prev);
      }
    }
  }

  /** What revocation of a badged capability finds, one after the other, is of its own derivation. */
  lemma {:induction false} RevokeInGroup(sp: Slots, group: Groups, a: Ref, found: seq<Ref>)
    requires GroupsOk(sp, group) && WellLinked(sp) && a in sp && Badged(sp[a].cap) && found != []
    requires found[0] in sp && sp[a].next == found[0]
    requires forall i :: 0 <= i < |found| - 1 ==> Consecutive(sp, found, i)
    requires forall i :: 0 <= i < |found| ==> found[i] in sp && IsParentOf(sp[a], sp[found[i]])
    ensures a in group && found[|found| - 1] in group && group[found[|found| - 1]] == group[a]
    decreases |found|
  {
    var n := |found| - 1;
    assert InGroup(sp, group, found[n]) && InGroup(sp, group, a) && SlotLinked(sp, a);
    if n > 0 {
      assert Consecutive(sp, found, n - 1) && SlotLinked(sp, found[n - 1]);
      var before := found[..n];
      assert forall i :: 0 <= i < n - 1 ==> Consecutive(sp, found, i) ==> Consecutive(sp, before, i);
      RevokeInGroup(sp, group, a, before);
    }
  }

  method InsertGrouped(space: CapSpace, cap: Cap, src: Ref, dest: Ref, ghost group: Groups, ghost newest: nat)
    requires space.Valid() && GroupsOk(space.slots, group) && Permitted(space.slots, Insert(cap, src, dest))
    requires KeepsBadges(space.slots, Insert(cap, src, dest))
    modifies space
    ensures space.Valid()
    ensures GroupsOk(space.slots, Regrouped(old(space.slots), group, Insert(cap, src, dest), newest))
  {
    ghost var sp := space.slots;
    NoSelfLink(sp, space.line, src);
    assert SlotLinked(sp, src) && SlotLinked(sp, dest);
    space.CteInsert(cap, src, dest);
    InsertedGroups(sp, group, src, dest, cap, newest);
  }

  method InsertNewGrouped(space: CapSpace, parent: Ref, slot: Ref, cap: Cap, ghost group: Groups, ghost newest: nat)
    requires space.Valid() && GroupsOk(space.slots, group) && Permitted(space.slots, InsertNew(parent, slot, cap))
    requires KeepsBadges(space.slots, InsertNew(parent, slot, cap))
    modifies space
    ensures space.Valid() && GroupsOk(space.slots, group[slot := newest])
  {
    ghost var sp := space.slots;
    NoSelfLink(sp, space.line, parent);
    assert SlotLinked(sp, parent) && SlotLinked(sp, slot);
    space.InsertNewCap(parent, slot, cap);
    InsertedNewGroups(sp, group, parent, slot, cap, newest);
  }

  method EmptyGrouped(space: CapSpace, slot: Ref, ghost group: Groups)
    requires space.Valid() && GroupsOk(space.slots, group) && slot in space.slots
    modifies space
    ensures space.Valid() && GroupsOk(space.slots, group)
  {
    NoSelfLink(space.slots, space.line, slot);
    RemovedGroups(space.slots, group, slot);
    space.EmptySlot(slot);
  }

  method ApplyGrouped(space: CapSpace, op: Op, ghost group: Groups, ghost newest: nat) returns (ghost after: Groups)
    requires space.Valid() && GroupsOk(space.slots, group) && Permitted(space.slots, op) && KeepsBadges(space.slots, op)
    modifies space
    ensures space.Valid() && after == Regrouped(old(space.slots), group, op, newest) && GroupsOk(space.slots, after)
  {
    ghost var sp := space.slots;
    after := Regrouped(sp, group, op, newest);
    match op
    case Write(slot, cap) =>
      space.WriteSlot(slot, cap);
      AddedGroups(sp, space.slots, group, slot, newest);
    case Insert(cap, src, dest) => InsertGrouped(space, cap, src, dest, group, newest);
    case InsertNew(parent, slot, cap) => InsertNewGrouped(space, parent, slot, cap, group, newest);
    case Move(cap, src, dest) =>
      space.CteMove(cap, src, dest);
      SwappedGroups(sp, space.slots, group, src, dest, NullCap, cap);
    case Swap(cap1, slot1, cap2, slot2) =>
      space.CteSwap(cap1, slot1, cap2, slot2);
      SwappedGroups(sp, space.slots, group, slot1, slot2, cap2, cap1);
    case Empty(slot) => EmptyGrouped(space, slot, group);
    case Advance(slot, index) =>
      space.SetFreeIndex(slot, index);
      forall n | n in space.slots ensures InGroup(space.slots, group, n) {
        assert InGroup(sp, group, n);
      }
  }

  /** In every run in which badges are kept, every badged capability is in the group of the operation that gave the
      badge, so that revocation stays within it. */
  method RunGrouped(refs: set<Ref>, ops: seq<Op>) returns (space: CapSpace, ghost group: Groups)
    requires 0 !in refs
    ensures space.Valid() && WellLinked(space.slots) && GroupsOk(space.slots, group)
  {
    space := new CapSpace(refs);
    group := map[];
    for i := 0 to |ops|
      invariant fresh(space) && space.Valid() && GroupsOk(space.slots, group)
    {
      if Permitted(space.slots, ops[i]) && KeepsBadges(space.slots, ops[i]) {
        group := ApplyGrouped(space, ops[i], group, i);
      }
    }
  }

  // ---------------------------------------------------------------- one open capability to a region

  /** The capability leaves nothing of its region to be handed out. */
  predicate Full(c: Cap)
    requires c.UntypedCap?
  {
    c.freeIndex * Pow2(MIN_UNTYPED_BITS) == Pow2(c.sizeBits)
  }

  predicate SameRegion(a: Cap, b: Cap) {
    a.UntypedCap? && b.UntypedCap? && a.ptr == b.ptr && a.sizeBits == b.sizeBits
  }

  ghost predicate OneFull(sp: Slots, a: Ref, b: Ref)
    requires a in sp && b in sp
  {
    a != b && SameRegion(sp[a].cap, sp[b].cap) ==> Full(sp[a].cap) || Full(sp[b].cap)
  }

  /** Of two untyped capabilities to one region, at least one is full; regions have the least size. */
  ghost predicate OneOpen(sp: Slots) {
    && (forall a, b {:trigger OneFull(sp, a, b)} :: a in sp && b in sp ==> OneFull(sp, a, b))
    && forall a :: a in sp && sp[a].cap.UntypedCap? ==> sp[a].cap.sizeBits >= MIN_UNTYPED_BITS
  }

  /** All capabilities to this region, except the one in `but`, are full. */
  predicate OthersFull(sp: Slots, c: Cap, but: Ref) {
    forall s :: s in sp && s != but && SameRegion(sp[s].cap, c) ==> Full(sp[s].cap)
  }

  /** Untyped capabilities are handed on as they are; where one is new, or memory is handed out from it, all others to
      its region are full. */
  predicate AsIs(sp: Slots, op: Op) {
    match op
    case Write(slot, cap) => cap.UntypedCap? ==> cap.sizeBits >= MIN_UNTYPED_BITS && OthersFull(sp, cap, slot)
    case Insert(cap, src, _) => src in sp && (cap.UntypedCap? ==> cap == sp[src].cap)
    case InsertNew(_, slot, cap) => cap.UntypedCap? ==> cap.sizeBits >= MIN_UNTYPED_BITS && OthersFull(sp, cap, slot)
    case Move(cap, src, _) => src in sp && (cap.UntypedCap? ==> cap == sp[src].cap)
    case Swap(cap1, slot1, cap2, slot2) =>
      && slot1 in sp && slot2 in sp
      && (cap1.UntypedCap? ==> cap1 == sp[slot1].cap) && (cap2.UntypedCap? ==> cap2 == sp[slot2].cap)
    case Empty(_) => true
    case Advance(slot, _) => slot in sp && OthersFull(sp, sp[slot].cap, slot)
  }

  lemma MarkedFull(c: Cap)
    requires c.UntypedCap? && c.sizeBits >= MIN_UNTYPED_BITS
    ensures Full(AsFull(c, c)) && SameRegion(AsFull(c, c), c)
  {
    Pow2Add(c.sizeBits - MIN_UNTYPED_BITS, MIN_UNTYPED_BITS);
  }

  /** Copying leaves one capability open at most: the source is marked full. */
  lemma InsertedOneOpen(sp: Slots, src: Ref, dest: Ref, cap: Cap)
    requires OneOpen(sp) && src in sp && dest in sp && src != dest && sp[dest].cap.NullCap?
    requires SlotLinked(sp, src) && sp[src].next != src && sp[src].next != dest
    requires cap.UntypedCap? ==> cap == sp[src].cap
    ensures OneOpen(Spliced(sp, Derivation(sp[src].cap, src, dest, cap)))
  {
    var t := Spliced(sp, Derivation(sp[src].cap, src, dest, cap));
    if cap.UntypedCap? { MarkedFull(cap); }
    forall a, b | a in t && b in t ensures OneFull(t, a, b) {
      assert OneFull(sp, a, b) && OneFull(sp, a, src) && OneFull(sp, src, b);
    }
  }

  /** A new capability to a region to which all others are full. */
  lemma AddedOneOpen(sp: Slots, t: Slots, slot: Ref)
    requires OneOpen(sp) && slot in sp && t.Keys == sp.Keys
    requires forall r :: r in sp && r != slot ==> t[r].cap == sp[r].cap
    requires t[slot].cap.UntypedCap? ==> t[slot].cap.sizeBits >= MIN_UNTYPED_BITS && OthersFull(sp, t[slot].cap, slot)
    ensures OneOpen(t)
  {
    forall a, b | a in t && b in t ensures OneFull(t, a, b) {
      assert OneFull(sp, a, b);
    }
  }

  lemma SwappedOneOpen(sp: Slots, t: Slots, a: Ref, b: Ref, atA: Cap, atB: Cap)
    requires OneOpen(sp) && a in sp && b in sp && a != b && Swapped(sp, t, a, b, atA, atB)
    requires (atA.UntypedCap? ==> atA == sp[b].cap) && (atB.UntypedCap? ==> atB == sp[a].cap)
    ensures OneOpen(t)
  {
    forall r | r in t && t[r].cap.UntypedCap? ensures t[r].cap == sp[Other(a, b, r)].cap {
      assert SwappedAt(sp, t, a, b, atA, atB, r);
    }
    forall x, y | x in t && y in t ensures OneFull(t, x, y) {
      assert OneFull(sp, Other(a, b, x), Other(a, b, y));
    }
  }

  method InsertAsIs(space: CapSpace, cap: Cap, src: Ref, dest: Ref)
    requires space.Valid() && OneOpen(space.slots) && Permitted(space.slots, Insert(cap, src, dest))
    requires AsIs(space.slots, Insert(cap, src, dest))
    modifies space
    ensures space.Valid() && OneOpen(space.slots)
  {
    ghost var sp := space.slots;
    NoSelfLink(sp, space.line, src);
    assert SlotLinked(sp, src) && SlotLinked(sp, dest);
    space.CteInsert(cap, src, dest);
    InsertedOneOpen(sp, src, dest, cap);
  }

  method InsertNewAsIs(space: CapSpace, parent: Ref, slot: Ref, cap: Cap)
    requires space.Valid() && OneOpen(space.slots) && Permitted(space.slots, InsertNew(parent, slot, cap))
    requires AsIs(space.slots, InsertNew(parent, slot, cap))
    modifies space
    ensures space.Valid() && OneOpen(space.slots)
  {
    ghost var sp := space.slots;
    space.InsertNewCap(parent, slot, cap);
    AddedOneOpen(sp, space.slots, slot);
  }

  method EmptyAsIs(space: CapSpace, slot: Ref)
    requires space.Valid() && OneOpen(space.slots) && slot in space.slots
    modifies space
    ensures space.Valid() && OneOpen(space.slots)
  {
    ghost var sp := space.slots;
    space.EmptySlot(slot);
    AddedOneOpen(sp, space.slots, slot);
  }

  method ApplyAsIs(space: CapSpace, op: Op)
    requires space.Valid() && OneOpen(space.slots) && Permitted(space.slots, op) && AsIs(space.slots, op)
    modifies space
    ensures space.Valid() && OneOpen(space.slots)
  {
    ghost var sp := space.slots;
    match op
    case Write(slot, cap) =>
      space.WriteSlot(slot, cap);
      AddedOneOpen(sp, space.slots, slot);
    case Insert(cap, src, dest) => InsertAsIs(space, cap, src, dest);
    case InsertNew(parent, slot, cap) => InsertNewAsIs(space, parent, slot, cap);
    case Move(cap, src, dest) =>
      space.CteMove(cap, src, dest);
      SwappedOneOpen(sp, space.slots, src, dest, NullCap, cap);
    case Swap(cap1, slot1, cap2, slot2) =>
      space.CteSwap(cap1, slot1, cap2, slot2);
      SwappedOneOpen(sp, space.slots, slot1, slot2, cap2, cap1);
    case Empty(slot) => EmptyAsIs(space, slot);
    case Advance(slot, index) =>
      space.SetFreeIndex(slot, index);
      AddedOneOpen(sp, space.slots, slot);
  }

  /** In every run in which untyped capabilities are handed on as they are, no two of them can hand out the same
      memory. */
  method RunAsIs(refs: set<Ref>, ops: seq<Op>) returns (space: CapSpace)
    requires 0 !in refs
    ensures space.Valid() && OneOpen(space.slots)
  {
    space := new CapSpace(refs);
    for i := 0 to |ops|
      invariant fresh(space) && space.Valid() && OneOpen(space.slots)
    {
      if Permitted(space.slots, ops[i]) && AsIs(space.slots, ops[i]) { ApplyAsIs(space, ops[i]); }
    }
  }

  // ---------------------------------------------------------------- against the region

  /** Slot `r` holds a capability to the region. */
  predicate OfRegion(sp: Slots, base: nat, sizeBits: nat, r: Ref) {
    r in sp && sp[r].cap.UntypedCap? && sp[r].cap.ptr == base && sp[r].cap.sizeBits == sizeBits
  }

  /** The next slot in the list is the next of `refs`. */
  predicate Consecutive(sp: Slots, refs: seq<Ref>, i: nat)
    requires i + 1 < |refs|
  {
    refs[i] in sp && sp[refs[i]].next == refs[i + 1]
  }

  ghost predicate InOrder(sp: Slots, refs: seq<Ref>) {
    && (forall i, j :: 0 <= i < j < |refs| ==> refs[i] != refs[j])
    && (forall i {:trigger Consecutive(sp, refs, i)} :: 0 <= i < |refs| - 1 ==> Consecutive(sp, refs, i))
  }

  /** `refs` are the slots with capabilities to the region, next to each other in the list. */
  ghost predicate Copies(sp: Slots, base: nat, sizeBits: nat, refs: seq<Ref>) {
    && InOrder(sp, refs) && (forall r :: OfRegion(sp, base, sizeBits, r) ==> r in refs)
    && forall i :: 0 <= i < |refs| ==> OfRegion(sp, base, sizeBits, refs[i])
  }

  /** Their free indices. */
  ghost function FreeOf(sp: Slots, refs: seq<Ref>): seq<nat> {
    seq(|refs|, i requires 0 <= i < |refs| => FreeAt(sp, refs[i]))
  }

  function FreeAt(sp: Slots, r: Ref): nat {
    if r in sp && sp[r].cap.UntypedCap? then sp[r].cap.freeIndex else 0
  }

  /** A copy of the last capability in `dest`, which follows it. */
  lemma CopiesMore(sp: Slots, t: Slots, base: nat, sizeBits: nat, refs: seq<Ref>, dest: Ref)
    requires Copies(sp, base, sizeBits, refs) && refs != [] && dest !in refs && dest in t
    requires OfRegion(t, base, sizeBits, dest) && OfRegion(t, base, sizeBits, refs[|refs| - 1])
    requires t[refs[|refs| - 1]].next == dest && t.Keys == sp.Keys
    requires forall r :: r in sp && r != refs[|refs| - 1] && r != dest ==>
               t[r].cap == sp[r].cap && t[r].next == sp[r].next
    ensures Copies(t, base, sizeBits, refs + [dest])
  {
    var more := refs + [dest];
    forall r | OfRegion(t, base, sizeBits, r) ensures r in more {
      assert more[|refs| - 1] == refs[|refs| - 1] && more[|refs|] == dest;
      if r != dest && r != refs[|refs| - 1] {
        assert OfRegion(sp, base, sizeBits, r);
        var i :| 0 <= i < |refs| && refs[i] == r;
        assert more[i] == r;
      }
    }
    forall i | 0 <= i < |more| ensures OfRegion(t, base, sizeBits, more[i]) {
      if i < |refs| { assert OfRegion(sp, base, sizeBits, refs[i]); }
    }
    forall i | 0 <= i < |more| - 1 ensures Consecutive(t, more, i) {
      assert OfRegion(sp, base, sizeBits, refs[i]);
      if i < |refs| - 1 { assert Consecutive(sp, refs, i); }
    }
  }

  /** cteInsert of a copy of the last one does what the region does when its capability is copied. */
  lemma CopyTied(sp: Slots, base: nat, sizeBits: nat, refs: seq<Ref>, dest: Ref)
    requires Copies(sp, base, sizeBits, refs) && refs != [] && dest in sp && sp[dest].cap.NullCap?
    requires var src := refs[|refs| - 1];
             src in sp && SlotLinked(sp, src) && sp[src].next != src && sp[src].next != dest
    ensures var src := refs[|refs| - 1];
            var t := Spliced(sp, Derivation(sp[src].cap, src, dest, sp[src].cap));
            var free := FreeOf(sp, refs);
            && Copies(t, base, sizeBits, refs + [dest])
            && FreeOf(t, refs + [dest]) == free[|refs| - 1 := MaxFreeIndex(sizeBits)] + [free[|refs| - 1]]
  {
    var n := |refs| - 1;
    var src := refs[n];
    var t := Spliced(sp, Derivation(sp[src].cap, src, dest, sp[src].cap));
    assert OfRegion(sp, base, sizeBits, src);
    assert !OfRegion(sp, base, sizeBits, dest);
    CopiesMore(sp, t, base, sizeBits, refs, dest);
    forall i | 0 <= i < n ensures FreeAt(t, refs[i]) == FreeAt(sp, refs[i]) {
      assert refs[i] != src && refs[i] != dest;
    }
    assert FreeOf(t, refs + [dest]) == FreeOf(sp, refs)[n := MaxFreeIndex(sizeBits)] + [FreeOf(sp, refs)[n]];
  }

  /** The slots without the `i`-th. */
  function Drop(refs: seq<Ref>, i: nat): (rest: seq<Ref>)
    requires i < |refs|
    ensures |rest| == |refs| - 1 && forall j :: 0 <= j < |rest| ==> rest[j] == refs[if j < i then j else j + 1]
  {
    refs[..i] + refs[i + 1..]
  }

  /** `t` is `sp` without the capability in `x`, over which its neighbours are joined. */
  ghost predicate Bridged(sp: Slots, t: Slots, x: Ref) {
    && t.Keys == sp.Keys && x in sp && t[x].cap.NullCap?
    && forall r {:trigger t[r]} :: r in sp && r != x ==>
         t[r].cap == sp[r].cap && t[r].next == if sp[r].next == x then sp[x].next else sp[r].next
  }

  lemma OrderLess(sp: Slots, t: Slots, refs: seq<Ref>, i: nat)
    requires InOrder(sp, refs) && i < |refs| && Bridged(sp, t, refs[i])
    ensures InOrder(t, Drop(refs, i))
  {
    var rest := Drop(refs, i);
    forall j | 0 <= j < |rest| - 1 ensures Consecutive(t, rest, j) {
      var k := if j < i then j else j + 1;
      assert Consecutive(sp, refs, k);
      if k + 1 == i { assert Consecutive(sp, refs, i); }
    }
  }

  lemma CopiesLess(sp: Slots, t: Slots, base: nat, sizeBits: nat, refs: seq<Ref>, i: nat)
    requires Copies(sp, base, sizeBits, refs) && i < |refs| && Bridged(sp, t, refs[i])
    ensures Copies(t, base, sizeBits, Drop(refs, i))
  {
    var rest := Drop(refs, i);
    OrderLess(sp, t, refs, i);
    forall r | OfRegion(t, base, sizeBits, r) ensures r in rest {
      assert OfRegion(sp, base, sizeBits, r);
      var k :| 0 <= k < |refs| && refs[k] == r;
      assert rest[if k < i then k else k - 1] == r;
    }
    forall j | 0 <= j < |rest| ensures OfRegion(t, base, sizeBits, rest[j]) {
      assert OfRegion(sp, base, sizeBits, refs[if j < i then j else j + 1]);
    }
  }

  lemma RemovedBridges(sp: Slots, line: Line, x: Ref)
    requires Inv(sp, line) && x in sp
    ensures SlotLinked(sp, x) && Bridged(sp, Removed(sp, x), x)
  {
    assert SlotLinked(sp, x);
    NoSelfLink(sp, line, x);
    forall r | r in sp && r != x
      ensures Removed(sp, x)[r].next == if sp[r].next == x then sp[x].next else sp[r].next
    {
      assert SlotLinked(sp, r);
    }
  }

  /** emptySlot of one of them does what the region does when its capability is deleted. */
  lemma DeleteTied(sp: Slots, line: Line, base: nat, sizeBits: nat, refs: seq<Ref>, i: nat)
    requires Inv(sp, line) && Copies(sp, base, sizeBits, refs) && i < |refs| && refs[i] in sp
    ensures SlotLinked(sp, refs[i])
    ensures var t := Removed(sp, refs[i]);
            var free := FreeOf(sp, refs);
            Copies(t, base, sizeBits, Drop(refs, i)) && FreeOf(t, Drop(refs, i)) == free[..i] + free[i + 1..]
  {
    RemovedBridges(sp, line, refs[i]);
    var t := Removed(sp, refs[i]);
    CopiesLess(sp, t, base, sizeBits, refs, i);
    FreeLess(sp, t, base, sizeBits, refs, i);
  }

  lemma FreeLess(sp: Slots, t: Slots, base: nat, sizeBits: nat, refs: seq<Ref>, i: nat)
    requires Copies(sp, base, sizeBits, refs) && i < |refs| && Bridged(sp, t, refs[i])
    ensures FreeOf(t, Drop(refs, i)) == FreeOf(sp, refs)[..i] + FreeOf(sp, refs)[i + 1..]
  {
    var rest, free := Drop(refs, i), FreeOf(sp, refs);
    forall j | 0 <= j < |rest| ensures FreeAt(t, rest[j]) == free[if j < i then j else j + 1] {
      assert OfRegion(sp, base, sizeBits, refs[if j < i then j else j + 1]);
      assert t[rest[j]].cap == sp[rest[j]].cap;
    }
  }

  /** `refs` are the slots of the capabilities that the region knows of, with their free indices. */
  ghost predicate Tied(space: CapSpace, region: Region, refs: seq<Ref>)
    reads space, region
  {
    && region.minBits == MIN_UNTYPED_BITS <= region.sizeBits
    && Copies(space.slots, region.base, region.sizeBits, refs) && FreeOf(space.slots, refs) == region.free
  }

  /** What can be done to the capabilities of a region. */
  datatype Use = CopyTo(dest: Ref) | DeleteAt(i: nat) | RetypeAt(i: nat, bits: nat, n: nat, preemptAfter: nat)

  method CopyUntyped(space: CapSpace, region: Region, refs: seq<Ref>, dest: Ref) returns (after: seq<Ref>)
    requires space.Valid() && region.Valid() && Tied(space, region, refs)
    requires dest in space.slots && space.slots[dest].cap.NullCap?
    modifies space, region
    ensures space.Valid() && region.Valid() && Tied(space, region, after)
    ensures after == if refs != [] && old(region.objects) == [] then refs + [dest] else refs
  {
    assert |refs| == |FreeOf(space.slots, refs)|;
    var ok := region.CopyCap();
    if !ok { return refs; }
    InsertCopy(space, region.base, region.sizeBits, refs, dest);
    after := refs + [dest];
  }

  /** cteInsert of a copy of the last capability to the region */
  method InsertCopy(space: CapSpace, ghost base: nat, ghost sizeBits: nat, refs: seq<Ref>, dest: Ref)
    requires space.Valid() && Copies(space.slots, base, sizeBits, refs) && refs != []
    requires dest in space.slots && space.slots[dest].cap.NullCap?
    modifies space
    ensures space.Valid() && Copies(space.slots, base, sizeBits, refs + [dest])
    ensures var free := FreeOf(old(space.slots), refs);
            FreeOf(space.slots, refs + [dest]) == free[|refs| - 1 := MaxFreeIndex(sizeBits)] + [free[|refs| - 1]]
  {
    var src := refs[|refs| - 1];
    assert OfRegion(space.slots, base, sizeBits, src);
    NoSelfLink(space.slots, space.line, src);
    assert SlotLinked(space.slots, src) && SlotLinked(space.slots, dest);
    CopyTied(space.slots, base, sizeBits, refs, dest);
    NoneSame(space.slots, src);
    space.CteInsert(space.slots[src].cap, src, dest);
  }

  /** No capability has the object of an untyped one, for it has none. */
  lemma NoneSame(sp: Slots, src: Ref)
    requires src in sp && sp[src].cap.UntypedCap?
    ensures !Leads(sp, src) && forall s :: s in sp ==> !SameObjectAs(sp[s].cap, sp[src].cap)
  {
  }

  method DeleteUntyped(space: CapSpace, region: Region, refs: seq<Ref>, i: nat) returns (after: seq<Ref>)
    requires space.Valid() && region.Valid() && Tied(space, region, refs) && i < |refs|
    modifies space, region
    ensures space.Valid() && region.Valid() && Tied(space, region, after) && after == Drop(refs, i)
  {
    assert |refs| == |FreeOf(space.slots, refs)|;
    assert OfRegion(space.slots, region.base, region.sizeBits, refs[i]);
    DeleteTied(space.slots, space.line, region.base, region.sizeBits, refs, i);
    region.DeleteCap(i);
    space.EmptySlot(refs[i]);
    after := Drop(refs, i);
  }

  method RetypeUntyped(space: CapSpace, region: Region, refs: seq<Ref>, use: Use) returns (s: Status)
    requires space.Valid() && region.Valid() && Tied(space, region, refs)
    requires use.RetypeAt? && use.i < |refs| && region.minBits <= use.bits
    modifies space, region, region.mem
    ensures space.Valid() && region.Valid() && Tied(space, region, refs)
  {
    assert |refs| == |FreeOf(space.slots, refs)|;
    ghost var free := region.free;
    s := region.Retype(use.i, use.bits, use.n, use.preemptAfter);
    assert OfRegion(space.slots, region.base, region.sizeBits, refs[use.i]);
    AdvanceTied(space.slots, region.base, region.sizeBits, refs, use.i, region.free[use.i]);
    space.SetFreeIndex(refs[use.i], region.free[use.i]);
    assert region.free == free[use.i := region.free[use.i]];
  }

  /** The store of a retype into the `i`-th of them. */
  lemma AdvanceTied(sp: Slots, base: nat, sizeBits: nat, refs: seq<Ref>, i: nat, index: nat)
    requires Copies(sp, base, sizeBits, refs) && i < |refs| && OfRegion(sp, base, sizeBits, refs[i])
    ensures var t := sp[refs[i] := sp[refs[i]].(cap := sp[refs[i]].cap.(freeIndex := index))];
            Copies(t, base, sizeBits, refs) && FreeOf(t, refs) == FreeOf(sp, refs)[i := index]
  {
    var t := sp[refs[i] := sp[refs[i]].(cap := sp[refs[i]].cap.(freeIndex := index))];
    forall r ensures OfRegion(t, base, sizeBits, r) <==> OfRegion(sp, base, sizeBits, r) {
    }
    forall j | 0 <= j < |refs| - 1 ensures Consecutive(t, refs, j) {
      assert Consecutive(sp, refs, j);
    }
  }

  /** Over every run, the capabilities in the slots are those of the region: all but the last are full, so of two of
      them one is. */
  method RunTied(space: CapSpace, region: Region, refs: seq<Ref>, uses: seq<Use>) returns (after: seq<Ref>)
    requires space.Valid() && region.Valid() && Tied(space, region, refs)
    modifies space, region, region.mem
    ensures space.Valid() && region.Valid() && Tied(space, region, after)
    ensures forall i :: 0 <= i < |after| - 1 ==> OfRegion(space.slots, region.base, region.sizeBits, after[i])
                                                 && Full(space.slots[after[i]].cap)
  {
    after := refs;
    for k := 0 to |uses|
      invariant space.Valid() && region.Valid() && Tied(space, region, after)
    {
      match uses[k]
      case CopyTo(dest) =>
        if dest in space.slots && space.slots[dest].cap.NullCap? { after := CopyUntyped(space, region, after, dest); }
      case DeleteAt(i) => if i < |after| { after := DeleteUntyped(space, region, after, i); }
      case RetypeAt(i, bits, _, _) =>
        if i < |after| && region.minBits <= bits { var _ := RetypeUntyped(space, region, after, uses[k]); }
    }
    AllButLastFull(space, region, after);
  }

  lemma AllButLastFull(space: CapSpace, region: Region, refs: seq<Ref>)
    requires region.Valid() && Tied(space, region, refs)
    ensures forall i :: 0 <= i < |refs| - 1 ==> OfRegion(space.slots, region.base, region.sizeBits, refs[i])
                                                && Full(space.slots[refs[i]].cap)
  {
    Pow2Add(region.sizeBits - MIN_UNTYPED_BITS, MIN_UNTYPED_BITS);
    forall i | 0 <= i < |refs| - 1
      ensures OfRegion(space.slots, region.base, region.sizeBits, refs[i]) && Full(space.slots[refs[i]].cap)
    {
      assert FreeOf(space.slots, refs)[i] == region.free[i];
    }
  }
}
