/** Capability slots and the derivation list that links them (kernel/src/object/cnode.c). A slot is
    known by its address; address 0 is the null pointer. */
module CapSpaces {
  import opened Words

  type Ref = nat

  /** What kind of object holds a table of slots. */
  datatype NodeKind = CNodeKind(radix: nat) | TcbKind

  datatype Cap =
    | NullCap
    | UntypedCap(ptr: nat, sizeBits: nat, freeIndex: nat)
    | EndpointCap(ptr: nat, badge: nat)
    | NotificationCap(ptr: nat, badge: nat)
    | ReplyCap(ptr: nat)
    | SchedContextCap(ptr: nat, sizeBits: nat)
    | CNodeCap(ptr: Ref, radix: nat)
    | ThreadCap(ptr: Ref)
    | IrqControlCap
    | IrqHandlerCap(irq: nat)
    | DomainCap
    | SchedControlCap
    | ZombieCap(ptr: Ref, number: nat, kind: NodeKind)

  /** sameRegionAs for a first capability that is not untyped; architecture capabilities are not
      modelled. */
  predicate SameRegionAs(a: Cap, b: Cap)
    requires !a.UntypedCap?
  {
    match a
    case EndpointCap(p, _) => b.EndpointCap? && b.ptr == p
    case NotificationCap(p, _) => b.NotificationCap? && b.ptr == p
    case CNodeCap(p, radix) => b.CNodeCap? && b.ptr == p && b.radix == radix
    case ThreadCap(p) => b.ThreadCap? && b.ptr == p
    case ReplyCap(p) => b.ReplyCap? && b.ptr == p
    case DomainCap => b.DomainCap?
    case IrqControlCap => b.IrqControlCap? || b.IrqHandlerCap?
    case IrqHandlerCap(irq) => b.IrqHandlerCap? && b.irq == irq
    case SchedContextCap(p, bits) => b.SchedContextCap? && b.ptr == p && b.sizeBits == bits
    case SchedControlCap => b.SchedControlCap?
    case _ => false
  }

  /** sameObjectAs. */
  predicate SameObjectAs(a: Cap, b: Cap) {
    if a.UntypedCap? then false
    else if a.IrqControlCap? && b.IrqHandlerCap? then false
    else SameRegionAs(a, b)
  }

  /** Capabilities that refer to an object of their own: neither null, untyped nor zombie. */
  predicate HasObject(a: Cap) {
    !a.NullCap? && !a.UntypedCap? && !a.ZombieCap?
  }

  /** The neighbour test is an equivalence on them, and nothing else passes it. */
  lemma SameObjectEquivalence(a: Cap, b: Cap, c: Cap)
    ensures SameObjectAs(a, a) <==> HasObject(a)
    ensures SameObjectAs(a, b) ==> SameObjectAs(b, a)
    ensures SameObjectAs(a, b) && SameObjectAs(b, c) ==> SameObjectAs(a, c)
  {
  }

  /** A capability table entry: the capability and its place in the derivation list. */
  datatype Cte = Cte(cap: Cap, prev: Ref, next: Ref, revocable: bool, firstBadged: bool)

  const NullCte := Cte(NullCap, 0, 0, false, false)

  type Slots = map<Ref, Cte>

  /** Links are mutual, and a slot without a capability is blank. */
  ghost predicate SlotLinked(sp: Slots, r: Ref)
    requires r in sp
  {
    && (sp[r].next != 0 ==> sp[r].next in sp && sp[sp[r].next].prev == r)
    && (sp[r].prev != 0 ==> sp[r].prev in sp && sp[sp[r].prev].next == r)
    && (sp[r].cap.NullCap? ==> sp[r] == NullCte)
  }

  ghost predicate WellLinked(sp: Slots) {
    0 !in sp && forall r {:trigger SlotLinked(sp, r)} :: r in sp ==> SlotLinked(sp, r)
  }

  /** The position of each occupied slot in one line of all derivation lists, end to end. */
  type Line = map<Ref, real>

  predicate Occupied(sp: Slots, r: Ref) {
    r in sp && !sp[r].cap.NullCap?
  }

  /** Occupied slots have different positions; a link leads to the very next position. */
  ghost predicate InLine(sp: Slots, line: Line) {
    && (forall r :: Occupied(sp, r) ==> r in line)
    && (forall a, b :: Occupied(sp, a) && Occupied(sp, b) && a != b ==> line[a] != line[b])
    && (forall a, c :: Occupied(sp, a) && Occupied(sp, c) ==> NotSkipped(sp, line, a, c))
  }

  ghost predicate NotSkipped(sp: Slots, line: Line, a: Ref, c: Ref)
    requires Occupied(sp, a) && a in line && c in line
  {
    sp[a].next != 0 ==> sp[a].next in line && line[a] < line[sp[a].next]
                        && (line[c] <= line[a] || line[sp[a].next] <= line[c])
  }

  /** Capabilities to one object are neighbours: between two of them there are only others. */
  ghost predicate Contiguous(sp: Slots, line: Line)
    requires InLine(sp, line)
  {
    forall a, b :: Occupied(sp, a) && Occupied(sp, b) ==> Together(sp, line, a, b)
  }

  /** The next slot in the list holds a capability to the same object. */
  predicate Leads(sp: Slots, a: Ref)
    requires a in sp
  {
    sp[a].next != 0 && sp[a].next in sp && SameObjectAs(sp[a].cap, sp[sp[a].next].cap)
  }

  /** The previous slot in the list holds a capability to the same object. */
  ghost predicate Follows(sp: Slots, b: Ref)
    requires b in sp
  {
    sp[b].prev != 0 && sp[b].prev in sp && SameObjectAs(sp[sp[b].prev].cap, sp[b].cap)
  }

  /** Two capabilities to one object, the first earlier in line, have others to it between them. */
  ghost predicate Together(sp: Slots, line: Line, a: Ref, b: Ref)
    requires a in sp && b in sp && a in line && b in line
  {
    SameObjectAs(sp[a].cap, sp[b].cap) && line[a] < line[b] ==> Leads(sp, a) && Follows(sp, b)
  }

  ghost predicate Inv(sp: Slots, line: Line) {
    WellLinked(sp) && InLine(sp, line) && Contiguous(sp, line)
  }

  /** No other slot holds a capability to the same object. */
  ghost predicate OnlyCap(sp: Slots, r: Ref)
    requires r in sp
  {
    forall s :: s in sp && s != r ==> !SameObjectAs(sp[s].cap, sp[r].cap)
  }

  /** isFinalCapability: looks at the two neighbours only. */
  predicate IsFinal(sp: Slots, r: Ref)
    requires r in sp && (sp[r].prev != 0 ==> sp[r].prev in sp) && (sp[r].next != 0 ==> sp[r].next in sp)
  {
    if sp[r].prev != 0 && SameObjectAs(sp[sp[r].prev].cap, sp[r].cap) then false
    else sp[r].next == 0 || !SameObjectAs(sp[r].cap, sp[sp[r].next].cap)
  }

  /** The neighbour test decides what a search of all slots would. */
  lemma FinalIsOnly(sp: Slots, line: Line, r: Ref)
    requires Inv(sp, line) && r in sp
    ensures SlotLinked(sp, r)
    ensures IsFinal(sp, r) <==> OnlyCap(sp, r)
  {
    assert SlotLinked(sp, r);
    if !OnlyCap(sp, r) {
      var s :| s in sp && s != r && SameObjectAs(sp[s].cap, sp[r].cap);
      SameObjectEquivalence(sp[s].cap, sp[r].cap, sp[s].cap);
      assert Occupied(sp, r) && Occupied(sp, s);
      assert line[r] < line[s] || line[s] < line[r];
    } else {
      if sp[r].next != 0 && sp[r].next != r { SameObjectEquivalence(sp[r].cap, sp[sp[r].next].cap, sp[r].cap); }
      NoSelfLink(sp, line, r);
    }
  }

  lemma NoSelfLink(sp: Slots, line: Line, r: Ref)
    requires Inv(sp, line) && r in sp
    ensures sp[r].next != r && sp[r].prev != r
  {
    assert SlotLinked(sp, r);
    if Occupied(sp, r) { assert NotSkipped(sp, line, r, r); }
  }

  // ---------------------------------------------------------------- inserting

  /** The derivation of a capability with another badge, of an interrupt handler or of untyped memory
      can be revoked. */
  predicate Revocable(derived: Cap, src: Cap) {
    match derived
    case EndpointCap(_, badge) => !src.EndpointCap? || badge != src.badge
    case NotificationCap(_, badge) => !src.NotificationCap? || badge != src.badge
    case IrqHandlerCap(_) => src.IrqControlCap?
    case UntypedCap(_, _, _) => true
    case _ => false
  }

  const MIN_UNTYPED_BITS := 4

  function MaxFreeIndex(sizeBits: nat): nat {
    if sizeBits < MIN_UNTYPED_BITS then 0 else Pow2(sizeBits - MIN_UNTYPED_BITS)
  }

  /** An untyped capability copied to a child can make no further objects itself. */
  function AsFull(src: Cap, derived: Cap): Cap {
    if src.UntypedCap? && derived.UntypedCap? && src.ptr == derived.ptr && src.sizeBits == derived.sizeBits
    then src.(freeIndex := MaxFreeIndex(src.sizeBits)) else src
  }

  /** A capability about to enter the list: `cap` goes to `dest`, right after `src`, whose own
      capability becomes `srcCap`. */
  datatype Splice = Splice(src: Ref, dest: Ref, srcCap: Cap, cap: Cap, revocable: bool, firstBadged: bool)

  function Spliced(sp: Slots, e: Splice): Slots
    requires e.src in sp && e.dest in sp && (sp[e.src].next != 0 ==> sp[e.src].next in sp)
  {
    var n := sp[e.src].next;
    var added := sp[e.dest := Cte(e.cap, e.src, n, e.revocable, e.firstBadged)];
    var linked := added[e.src := sp[e.src].(cap := e.srcCap, next := e.dest)];
    if n == 0 then linked else linked[n := linked[n].(prev := e.dest)]
  }

  /** Where a new capability may stand: next to another one to its object, or, if it is the first, not
      between two capabilities to one object. */
  predicate MayFollow(sp: Slots, src: Ref, cap: Cap)
    requires src in sp
  {
    || SameObjectAs(sp[src].cap, cap)
    || (!Leads(sp, src) && forall s :: s in sp ==> !SameObjectAs(sp[s].cap, cap))
  }

  ghost predicate CanSplice(sp: Slots, e: Splice) {
    && Occupied(sp, e.src) && e.dest in sp && sp[e.dest].cap.NullCap? && !e.cap.NullCap?
    && sp[e.src].next != e.src && MayFollow(sp, e.src, e.cap)
    && (e.srcCap == sp[e.src].cap || (e.srcCap.UntypedCap? && sp[e.src].cap.UntypedCap?))
  }

  lemma SplicedLinked(sp: Slots, e: Splice)
    requires WellLinked(sp) && CanSplice(sp, e)
    ensures SlotLinked(sp, e.src)
    ensures WellLinked(Spliced(sp, e))
  {
    assert SlotLinked(sp, e.src) && SlotLinked(sp, e.dest);
    var t := Spliced(sp, e);
    forall r | r in t ensures SlotLinked(t, r) {
      assert SlotLinked(sp, r);
      SplicedSlotLinked(sp, e, r);
    }
  }

  lemma SplicedSlotLinked(sp: Slots, e: Splice, r: Ref)
    requires CanSplice(sp, e) && 0 !in sp && r in sp
    requires SlotLinked(sp, e.src) && SlotLinked(sp, e.dest) && SlotLinked(sp, r)
    ensures SlotLinked(Spliced(sp, e), r)
  {
  }

  /** A position right after `x` and before everything else after it. */
  lemma RoomAfter(line: Line, x: real) returns (y: real)
    ensures x < y && forall r :: r in line && x < line[r] ==> y < line[r]
    decreases |line|
  {
    if line == map[] {
      y := x + 1.0;
    } else {
      var r :| r in line;
      var rest := line - {r};
      var z := RoomAfter(rest, x);
      y := if x < line[r] && line[r] <= z then (x + line[r]) / 2.0 else z;
      forall s | s in line && x < line[s] ensures y < line[s] {
        if s != r { assert s in rest; }
      }
    }
  }

  /** `y` comes right after `x`, before the position of `r` if that comes later. */
  ghost predicate Before(line: Line, x: real, y: real, r: Ref) {
    r in line && (x < line[r] ==> y < line[r])
  }

  lemma SplicedOccupied(sp: Slots, e: Splice, r: Ref)
    requires CanSplice(sp, e) && SlotLinked(sp, e.src)
    ensures Occupied(Spliced(sp, e), r) <==> (r == e.dest || Occupied(sp, r))
  {
  }

  lemma SplicedInLine(sp: Slots, line: Line, e: Splice, y: real)
    requires WellLinked(sp) && InLine(sp, line) && CanSplice(sp, e)
    requires line[e.src] < y && forall r :: r in line ==> Before(line, line[e.src], y, r)
    ensures SlotLinked(sp, e.src)
    ensures InLine(Spliced(sp, e), line[e.dest := y])
  {
    assert SlotLinked(sp, e.src);
    var t := Spliced(sp, e);
    var after := line[e.dest := y];
    forall r | Occupied(t, r) ensures r in after {
      SplicedOccupied(sp, e, r);
    }
    forall a, b | Occupied(t, a) && Occupied(t, b) && a != b ensures after[a] != after[b] {
      SplicedOccupied(sp, e, a);
      SplicedOccupied(sp, e, b);
      assert a != e.dest ==> Before(line, line[e.src], y, a);
      assert b != e.dest ==> Before(line, line[e.src], y, b);
    }
    forall a, c | Occupied(t, a) && Occupied(t, c) ensures NotSkipped(t, after, a, c) {
      SplicedOccupied(sp, e, a);
      SplicedOccupied(sp, e, c);
      assert SlotLinked(sp, a) && SlotLinked(sp, e.dest);
      SplicedNotSkipped(sp, line, e, y, a, c);
    }
  }

  lemma SplicedNotSkipped(sp: Slots, line: Line, e: Splice, y: real, a: Ref, c: Ref)
    requires CanSplice(sp, e) && 0 !in sp
    requires a == e.dest || Occupied(sp, a)
    requires c == e.dest || Occupied(sp, c)
    requires SlotLinked(sp, e.src) && SlotLinked(sp, e.dest) && SlotLinked(sp, a)
    requires e.src in line && line[e.src] < y && NotSkipped(sp, line, e.src, e.src)
    requires sp[e.src].next != 0 ==> Before(line, line[e.src], y, sp[e.src].next)
    requires a != e.dest ==> Before(line, line[e.src], y, a) && NotSkipped(sp, line, a, e.src)
    requires a != e.dest && a != e.src ==> line[a] != line[e.src]
    requires c != e.dest ==> Before(line, line[e.src], y, c) && NotSkipped(sp, line, e.src, c)
    requires a != e.dest && c != e.dest ==> NotSkipped(sp, line, a, c)
    ensures Occupied(Spliced(sp, e), a)
    ensures NotSkipped(Spliced(sp, e), line[e.dest := y], a, c)
  {
    var t := Spliced(sp, e);
    assert t[a].next == if a == e.src then e.dest else if a == e.dest then sp[e.src].next else sp[a].next;
    assert a != e.dest ==> sp[a].next != e.dest;
  }

  lemma SplicedBeside(sp: Slots, line: Line, e: Splice, y: real, r: Ref)
    requires CanSplice(sp, e) && 0 !in sp && r in sp && r != e.dest
    requires SlotLinked(sp, e.src) && SlotLinked(sp, e.dest) && SlotLinked(sp, r)
    requires e.src in line && line[e.src] < y && Before(line, line[e.src], y, r)
    requires Together(sp, line, r, e.src) && Together(sp, line, e.src, r)
    requires r != e.src ==> line[r] != line[e.src]
    ensures Together(Spliced(sp, e), line[e.dest := y], e.dest, r)
    ensures Together(Spliced(sp, e), line[e.dest := y], r, e.dest)
  {
    SameObjectEquivalence(sp[e.src].cap, e.cap, sp[r].cap);
    SameObjectEquivalence(e.cap, sp[r].cap, e.cap);
    SameObjectEquivalence(sp[r].cap, e.cap, sp[e.src].cap);
  }

  lemma SplicedApart(sp: Slots, line: Line, e: Splice, y: real, a: Ref, b: Ref)
    requires CanSplice(sp, e) && 0 !in sp && a in sp && b in sp && a in line && b in line
    requires SlotLinked(sp, e.src) && SlotLinked(sp, e.dest) && SlotLinked(sp, a) && SlotLinked(sp, b)
    requires a != e.dest && b != e.dest && Together(sp, line, a, b)
    ensures Together(Spliced(sp, e), line[e.dest := y], a, b)
  {
    SameObjectEquivalence(e.cap, sp[e.src].cap, sp[b].cap);
    SameObjectEquivalence(sp[e.src].cap, e.cap, sp[b].cap);
  }

  lemma SplicedContiguous(sp: Slots, line: Line, e: Splice, y: real)
    requires Inv(sp, line) && CanSplice(sp, e)
    requires line[e.src] < y && forall r :: r in line ==> Before(line, line[e.src], y, r)
    requires SlotLinked(sp, e.src) && InLine(Spliced(sp, e), line[e.dest := y])
    ensures Contiguous(Spliced(sp, e), line[e.dest := y])
  {
    var t := Spliced(sp, e);
    var after := line[e.dest := y];
    forall a, b | Occupied(t, a) && Occupied(t, b) ensures Together(t, after, a, b) {
      SplicedOccupied(sp, e, a);
      SplicedOccupied(sp, e, b);
      assert SlotLinked(sp, a) && SlotLinked(sp, b) && SlotLinked(sp, e.dest);
      if a == e.dest {
        if b != e.dest { SplicedBeside(sp, line, e, y, b); }
      } else if b == e.dest {
        SplicedBeside(sp, line, e, y, a);
      } else {
        SplicedApart(sp, line, e, y, a, b);
      }
    }
  }

  /** A new capability placed where it may stand keeps the lists well linked and contiguous. */
  lemma SplicedInv(sp: Slots, line: Line, e: Splice) returns (after: Line)
    requires Inv(sp, line) && CanSplice(sp, e)
    ensures SlotLinked(sp, e.src)
    ensures Inv(Spliced(sp, e), after)
  {
    var y := RoomAfter(line, line[e.src]);
    after := line[e.dest := y];
    SplicedLinked(sp, e);
    SplicedInLine(sp, line, e, y);
    SplicedContiguous(sp, line, e, y);
  }

  /** What cteInsert puts where. */
  function Derivation(srcCap: Cap, src: Ref, dest: Ref, newCap: Cap): Splice {
    var revocable := Revocable(newCap, srcCap);
    Splice(src, dest, AsFull(srcCap, newCap), newCap, revocable, revocable)
  }

  lemma DerivedInv(sp: Slots, line: Line, src: Ref, dest: Ref, newCap: Cap) returns (after: Line)
    requires Inv(sp, line) && Occupied(sp, src) && dest in sp && sp[dest].cap.NullCap?
    requires !newCap.NullCap? && MayFollow(sp, src, newCap)
    ensures SlotLinked(sp, src) && src != dest && sp[src].next != src && sp[src].next != dest
    ensures Inv(Spliced(sp, Derivation(sp[src].cap, src, dest, newCap)), after)
  {
    NoSelfLink(sp, line, src);
    assert SlotLinked(sp, src) && SlotLinked(sp, dest);
    after := SplicedInv(sp, line, Derivation(sp[src].cap, src, dest, newCap));
  }

  // ---------------------------------------------------------------- removing

  function Removed(sp: Slots, r: Ref): Slots
    requires r in sp && (sp[r].prev != 0 ==> sp[r].prev in sp) && (sp[r].next != 0 ==> sp[r].next in sp)
  {
    var p := sp[r].prev;
    var n := sp[r].next;
    var bridged := if p == 0 then sp else sp[p := sp[p].(next := n)];
    var joined := if n == 0 then bridged
                  else bridged[n := bridged[n].(prev := p, firstBadged := sp[n].firstBadged || sp[r].firstBadged)];
    joined[r := NullCte]
  }

  lemma RemovedSlotLinked(sp: Slots, r: Ref, s: Ref)
    requires 0 !in sp && r in sp && s in sp && SlotLinked(sp, r) && SlotLinked(sp, s)
    requires sp[r].next != 0 ==> SlotLinked(sp, sp[r].next)
    requires sp[r].prev != 0 ==> SlotLinked(sp, sp[r].prev)
    requires sp[r].next != r && sp[r].prev != r
    ensures SlotLinked(Removed(sp, r), s)
  {
  }

  lemma RemovedLinked(sp: Slots, line: Line, r: Ref)
    requires Inv(sp, line) && r in sp
    ensures SlotLinked(sp, r)
    ensures WellLinked(Removed(sp, r))
  {
    assert SlotLinked(sp, r);
    NoSelfLink(sp, line, r);
    var t := Removed(sp, r);
    forall s | s in t ensures SlotLinked(t, s) {
      assert SlotLinked(sp, s);
      assert sp[r].next != 0 ==> SlotLinked(sp, sp[r].next);
      assert sp[r].prev != 0 ==> SlotLinked(sp, sp[r].prev);
      RemovedSlotLinked(sp, r, s);
    }
  }

  lemma RemovedOccupied(sp: Slots, r: Ref, s: Ref)
    requires r in sp && SlotLinked(sp, r)
    ensures Occupied(Removed(sp, r), s) <==> s != r && Occupied(sp, s)
    ensures s in sp && s != r ==> Removed(sp, r)[s].cap == sp[s].cap
  {
  }

  /** The position of `a` is known, and that of the slot after it. */
  ghost predicate Placed(sp: Slots, line: Line, a: Ref) {
    Occupied(sp, a) && a in line && SlotLinked(sp, a)
  }

  lemma RemovedNotSkipped(sp: Slots, line: Line, r: Ref, a: Ref, c: Ref)
    requires 0 !in sp && Placed(sp, line, r) && Placed(sp, line, a) && Placed(sp, line, c) && a != r && c != r
    requires sp[r].next != r && sp[r].prev != r && line[c] != line[r]
    requires NotSkipped(sp, line, a, c) && NotSkipped(sp, line, r, c)
    ensures Occupied(Removed(sp, r), a)
    ensures NotSkipped(Removed(sp, r), line, a, c)
  {
    RemovedOccupied(sp, r, a);
    assert Removed(sp, r)[a].next == if sp[a].next == r then sp[r].next else sp[a].next;
  }

  lemma RemovedInLine(sp: Slots, line: Line, r: Ref)
    requires Inv(sp, line) && Occupied(sp, r)
    ensures SlotLinked(sp, r)
    ensures InLine(Removed(sp, r), line)
  {
    assert SlotLinked(sp, r);
    var t := Removed(sp, r);
    forall s ensures Occupied(t, s) <==> s != r && Occupied(sp, s) {
      RemovedOccupied(sp, r, s);
    }
    NoSelfLink(sp, line, r);
    forall a, c | Occupied(t, a) && Occupied(t, c) ensures NotSkipped(t, line, a, c) {
      assert SlotLinked(sp, a) && SlotLinked(sp, c);
      RemovedNotSkipped(sp, line, r, a, c);
    }
  }

  lemma RemovedTogether(sp: Slots, line: Line, r: Ref, a: Ref, b: Ref)
    requires 0 !in sp && Placed(sp, line, r) && Placed(sp, line, a) && Placed(sp, line, b) && a != r && b != r
    requires sp[r].next != r && sp[r].prev != r && line[a] != line[r] && line[b] != line[r]
    requires Together(sp, line, a, b) && Together(sp, line, r, b) && Together(sp, line, a, r)
    requires NotSkipped(sp, line, a, b) && NotSkipped(sp, line, r, a)
    requires sp[r].next != 0 ==> SlotLinked(sp, sp[r].next)
    ensures a in Removed(sp, r) && b in Removed(sp, r)
    ensures Together(Removed(sp, r), line, a, b)
  {
    SameObjectEquivalence(sp[a].cap, sp[r].cap, sp[b].cap);
    SameObjectEquivalence(sp[r].cap, sp[a].cap, sp[b].cap);
    SameObjectEquivalence(sp[b].cap, sp[r].cap, sp[a].cap);
    SameObjectEquivalence(sp[a].cap, sp[b].cap, sp[r].cap);
  }

  /** Taking a capability out keeps the lists well linked and contiguous. */
  lemma RemovedInv(sp: Slots, line: Line, r: Ref)
    requires Inv(sp, line) && Occupied(sp, r)
    ensures SlotLinked(sp, r)
    ensures Inv(Removed(sp, r), line)
  {
    RemovedLinked(sp, line, r);
    RemovedInLine(sp, line, r);
    NoSelfLink(sp, line, r);
    var t := Removed(sp, r);
    forall a, b | Occupied(t, a) && Occupied(t, b) ensures Together(t, line, a, b) {
      RemovedOccupied(sp, r, a);
      RemovedOccupied(sp, r, b);
      assert SlotLinked(sp, a) && SlotLinked(sp, b);
      assert sp[r].next != 0 ==> SlotLinked(sp, sp[r].next);
      RemovedTogether(sp, line, r, a, b);
    }
  }

  // ---------------------------------------------------------------- exchanging

  /** The exchange of two addresses. */
  function Other(a: Ref, b: Ref, r: Ref): Ref {
    if r == a then b else if r == b then a else r
  }

  /** The capability may change in rights or data, not in what it refers to. */
  predicate SameTarget(c: Cap, d: Cap) {
    (c.NullCap? <==> d.NullCap?) && (HasObject(c) <==> HasObject(d)) && (HasObject(c) ==> SameObjectAs(c, d))
  }

  lemma TargetObjects(c: Cap, c': Cap, d: Cap, d': Cap)
    requires SameTarget(c, c') && SameTarget(d, d')
    ensures SameObjectAs(c, d) <==> SameObjectAs(c', d')
  {
  }

  /** `t` is the space after slots `a` and `b` exchange their places in the lists and then hold `atA`
      and `atB`: every slot and every link is renamed. */
  ghost predicate Swapped(sp: Slots, t: Slots, a: Ref, b: Ref, atA: Cap, atB: Cap)
    requires a in sp && b in sp
  {
    t.Keys == sp.Keys && forall r {:trigger SwappedAt(sp, t, a, b, atA, atB, r)} :: r in sp ==>
      SwappedAt(sp, t, a, b, atA, atB, r)
  }

  ghost predicate SwappedAt(sp: Slots, t: Slots, a: Ref, b: Ref, atA: Cap, atB: Cap, r: Ref)
    requires a in sp && b in sp && r in sp && r in t
  {
    var was := sp[Other(a, b, r)];
    t[r] == Cte(if r == a then atA else if r == b then atB else was.cap,
                Other(a, b, was.prev), Other(a, b, was.next), was.revocable, was.firstBadged)
  }

  ghost function SwappedLine(line: Line, a: Ref, b: Ref): Line {
    map r | r in line.Keys + {a, b} && Other(a, b, r) in line :: line[Other(a, b, r)]
  }

  predicate CanSwap(sp: Slots, a: Ref, b: Ref, atA: Cap, atB: Cap) {
    0 !in sp && a in sp && b in sp && a != b && SameTarget(sp[a].cap, atB) && SameTarget(sp[b].cap, atA)
  }

  lemma SwappedTarget(sp: Slots, t: Slots, a: Ref, b: Ref, atA: Cap, atB: Cap, r: Ref)
    requires CanSwap(sp, a, b, atA, atB) && Swapped(sp, t, a, b, atA, atB) && r in sp
    ensures SameTarget(sp[Other(a, b, r)].cap, t[r].cap)
  {
    assert SwappedAt(sp, t, a, b, atA, atB, r);
    SameObjectEquivalence(sp[r].cap, sp[r].cap, sp[r].cap);
  }

  /** The links of `r` after the exchange are those of its counterpart before it, renamed. */
  lemma SwappedLinks(sp: Slots, t: Slots, a: Ref, b: Ref, atA: Cap, atB: Cap, r: Ref)
    requires CanSwap(sp, a, b, atA, atB) && Swapped(sp, t, a, b, atA, atB) && r in sp
    ensures var was := sp[Other(a, b, r)];
            && r in t && t[r].next == Other(a, b, was.next) && t[r].prev == Other(a, b, was.prev)
            && (t[r].next == 0 <==> was.next == 0) && (t[r].prev == 0 <==> was.prev == 0)
            && (t[r].cap.NullCap? <==> was.cap.NullCap?)
            && (was == NullCte ==> t[r] == NullCte)
  {
    assert SwappedAt(sp, t, a, b, atA, atB, r);
  }

  lemma SwappedSlot(sp: Slots, t: Slots, a: Ref, b: Ref, atA: Cap, atB: Cap, r: Ref)
    requires CanSwap(sp, a, b, atA, atB) && Swapped(sp, t, a, b, atA, atB) && r in sp
    requires SlotLinked(sp, Other(a, b, r))
    ensures SlotLinked(t, r)
  {
    var was := sp[Other(a, b, r)];
    SwappedLinks(sp, t, a, b, atA, atB, r);
    if was.next != 0 { SwappedLinks(sp, t, a, b, atA, atB, Other(a, b, was.next)); }
    if was.prev != 0 { SwappedLinks(sp, t, a, b, atA, atB, Other(a, b, was.prev)); }
  }

  /** Slot `r` of the new space stands where `q` stood. */
  ghost predicate StandsFor(sp: Slots, line: Line, t: Slots, after: Line, a: Ref, b: Ref, r: Ref, q: Ref) {
    && r == Other(a, b, q) && q in sp && r in t && q in line && r in after && after[r] == line[q]
    && t[r].next == Other(a, b, sp[q].next) && t[r].prev == Other(a, b, sp[q].prev)
    && SameTarget(sp[q].cap, t[r].cap)
  }

  lemma SwappedStands(sp: Slots, t: Slots, line: Line, a: Ref, b: Ref, atA: Cap, atB: Cap, r: Ref)
    requires CanSwap(sp, a, b, atA, atB) && Swapped(sp, t, a, b, atA, atB) && r in sp && Other(a, b, r) in line
    ensures StandsFor(sp, line, t, SwappedLine(line, a, b), a, b, r, Other(a, b, r))
  {
    SwappedTarget(sp, t, a, b, atA, atB, r);
    SwappedLinks(sp, t, a, b, atA, atB, r);
  }

  lemma SwappedOccupied(sp: Slots, t: Slots, line: Line, a: Ref, b: Ref, atA: Cap, atB: Cap, r: Ref)
    requires Inv(sp, line) && CanSwap(sp, a, b, atA, atB) && Swapped(sp, t, a, b, atA, atB) && Occupied(t, r)
    ensures Placed(sp, line, Other(a, b, r))
    ensures StandsFor(sp, line, t, SwappedLine(line, a, b), a, b, r, Other(a, b, r))
  {
    SwappedLinks(sp, t, a, b, atA, atB, r);
    assert SlotLinked(sp, Other(a, b, r));
    SwappedStands(sp, t, line, a, b, atA, atB, r);
  }

  lemma SwappedNotSkipped(sp: Slots, t: Slots, line: Line, a: Ref, b: Ref, atA: Cap, atB: Cap, x: Ref, c: Ref)
    requires Inv(sp, line) && CanSwap(sp, a, b, atA, atB) && Swapped(sp, t, a, b, atA, atB)
    requires Occupied(t, x) && Occupied(t, c)
    ensures x in SwappedLine(line, a, b) && c in SwappedLine(line, a, b)
    ensures NotSkipped(t, SwappedLine(line, a, b), x, c)
  {
    SwappedOccupied(sp, t, line, a, b, atA, atB, x);
    SwappedOccupied(sp, t, line, a, b, atA, atB, c);
    var q := Other(a, b, x);
    assert NotSkipped(sp, line, q, Other(a, b, c));
    var n := sp[q].next;
    if n != 0 {
      SwappedStands(sp, t, line, a, b, atA, atB, Other(a, b, n));
    }
  }

  lemma SwappedTogether(sp: Slots, t: Slots, line: Line, a: Ref, b: Ref, atA: Cap, atB: Cap, x: Ref, y: Ref)
    requires Inv(sp, line) && CanSwap(sp, a, b, atA, atB) && Swapped(sp, t, a, b, atA, atB)
    requires Occupied(t, x) && Occupied(t, y)
    ensures x in SwappedLine(line, a, b) && y in SwappedLine(line, a, b)
    ensures Together(t, SwappedLine(line, a, b), x, y)
  {
    SwappedOccupied(sp, t, line, a, b, atA, atB, x);
    SwappedOccupied(sp, t, line, a, b, atA, atB, y);
    var q, s := Other(a, b, x), Other(a, b, y);
    TargetObjects(sp[q].cap, t[x].cap, sp[s].cap, t[y].cap);
    assert Together(sp, line, q, s);
    if SameObjectAs(t[x].cap, t[y].cap) && SwappedLine(line, a, b)[x] < SwappedLine(line, a, b)[y] {
      var n, p := sp[q].next, sp[s].prev;
      SwappedTarget(sp, t, a, b, atA, atB, Other(a, b, n));
      SwappedTarget(sp, t, a, b, atA, atB, Other(a, b, p));
      TargetObjects(sp[q].cap, t[x].cap, sp[n].cap, t[t[x].next].cap);
      TargetObjects(sp[p].cap, t[t[y].prev].cap, sp[s].cap, t[y].cap);
    }
  }

  lemma SwappedLinked(sp: Slots, t: Slots, a: Ref, b: Ref, atA: Cap, atB: Cap)
    requires WellLinked(sp) && CanSwap(sp, a, b, atA, atB) && Swapped(sp, t, a, b, atA, atB)
    ensures WellLinked(t)
  {
    forall r | r in sp ensures SlotLinked(t, r) {
      assert SlotLinked(sp, Other(a, b, r));
      SwappedSlot(sp, t, a, b, atA, atB, r);
    }
  }

  lemma SwappedApart(sp: Slots, t: Slots, line: Line, a: Ref, b: Ref, atA: Cap, atB: Cap, x: Ref, y: Ref)
    requires Inv(sp, line) && CanSwap(sp, a, b, atA, atB) && Swapped(sp, t, a, b, atA, atB) && x != y
    requires Occupied(t, x) && Occupied(t, y)
    ensures x in SwappedLine(line, a, b) && y in SwappedLine(line, a, b)
    ensures SwappedLine(line, a, b)[x] != SwappedLine(line, a, b)[y]
  {
    SwappedOccupied(sp, t, line, a, b, atA, atB, x);
    SwappedOccupied(sp, t, line, a, b, atA, atB, y);
  }

  lemma SwappedInLine(sp: Slots, t: Slots, line: Line, a: Ref, b: Ref, atA: Cap, atB: Cap)
    requires Inv(sp, line) && CanSwap(sp, a, b, atA, atB) && Swapped(sp, t, a, b, atA, atB)
    ensures InLine(t, SwappedLine(line, a, b))
  {
    var after := SwappedLine(line, a, b);
    forall r | Occupied(t, r) ensures r in after {
      SwappedOccupied(sp, t, line, a, b, atA, atB, r);
    }
    forall x, y | Occupied(t, x) && Occupied(t, y) && x != y ensures after[x] != after[y] {
      SwappedApart(sp, t, line, a, b, atA, atB, x, y);
    }
    forall x, c | Occupied(t, x) && Occupied(t, c) ensures NotSkipped(t, after, x, c) {
      SwappedNotSkipped(sp, t, line, a, b, atA, atB, x, c);
    }
  }

  /** Exchanging two slots keeps the lists well linked and contiguous, neighbours and empty slots
      included. */
  lemma SwappedInv(sp: Slots, t: Slots, line: Line, a: Ref, b: Ref, atA: Cap, atB: Cap)
    requires Inv(sp, line) && CanSwap(sp, a, b, atA, atB) && Swapped(sp, t, a, b, atA, atB)
    ensures Inv(t, SwappedLine(line, a, b))
  {
    SwappedLinked(sp, t, a, b, atA, atB);
    SwappedInLine(sp, t, line, a, b, atA, atB);
    var after := SwappedLine(line, a, b);
    forall x, y | Occupied(t, x) && Occupied(t, y) ensures Together(t, after, x, y) {
      SwappedTogether(sp, t, line, a, b, atA, atB, x, y);
    }
  }

  function WithNext(sp: Slots, r: Ref, to: Ref): Slots
    requires r == 0 || r in sp
  {
    if r == 0 then sp else sp[r := sp[r].(next := to)]
  }

  function WithPrev(sp: Slots, r: Ref, to: Ref): Slots
    requires r == 0 || r in sp
  {
    if r == 0 then sp else sp[r := sp[r].(prev := to)]
  }

  function Transferred(sp: Slots, src: Ref, dest: Ref, newCap: Cap): Slots
    requires src in sp
  {
    sp[dest := sp[src].(cap := newCap)][src := NullCte]
  }

  /** A move is an exchange with a blank slot. */
  lemma MovedAt(sp: Slots, src: Ref, dest: Ref, newCap: Cap, r: Ref)
    requires CanSwap(sp, src, dest, NullCap, newCap) && sp[src].next != src && sp[src].prev != src && r in sp
    requires SlotLinked(sp, src) && SlotLinked(sp, dest) && SlotLinked(sp, r)
    ensures var moved := Transferred(sp, src, dest, newCap);
            SwappedAt(sp, WithPrev(WithNext(moved, sp[src].prev, dest), sp[src].next, dest), src, dest, NullCap, newCap,
                      r)
  {
  }

  lemma MovedIsSwapped(sp: Slots, src: Ref, dest: Ref, newCap: Cap)
    requires WellLinked(sp) && CanSwap(sp, src, dest, NullCap, newCap) && sp[src].next != src && sp[src].prev != src
    requires SlotLinked(sp, src) && SlotLinked(sp, dest)
    ensures var moved := Transferred(sp, src, dest, newCap);
            Swapped(sp, WithPrev(WithNext(moved, sp[src].prev, dest), sp[src].next, dest), src, dest, NullCap, newCap)
  {
    var t := WithPrev(WithNext(Transferred(sp, src, dest, newCap), sp[src].prev, dest), sp[src].next, dest);
    forall r | r in sp ensures SwappedAt(sp, t, src, dest, NullCap, newCap, r) {
      assert SlotLinked(sp, r);
      MovedAt(sp, src, dest, newCap, r);
    }
  }

  /** The first stores of cteSwap: both capabilities, and the neighbours of the first slot. */
  function SetAside(sp: Slots, a: Ref, b: Ref, atA: Cap, atB: Cap): (t: Slots)
    requires a in sp && b in sp && a != b
    requires (sp[a].prev == 0 || sp[a].prev in sp) && (sp[a].next == 0 || sp[a].next in sp)
    ensures t.Keys == sp.Keys
  {
    var s := sp[a := sp[a].(cap := atA)][b := sp[b].(cap := atB)];
    WithPrev(WithNext(s, sp[a].prev, b), sp[a].next, b)
  }

  lemma SetAsideAt(sp: Slots, a: Ref, b: Ref, atA: Cap, atB: Cap, r: Ref)
    requires a in sp && b in sp && a != b && r in sp && 0 !in sp
    requires (sp[a].prev == 0 || sp[a].prev in sp) && (sp[a].next == 0 || sp[a].next in sp)
    ensures SetAside(sp, a, b, atA, atB)[r]
            == Rejoined(sp[r], if r == a then atA else if r == b then atB else sp[r].cap, b, sp[a], r)
  {
  }

  /** The remaining stores: the links of the two slots, where `mdb1` and `mdb2` were read, and the
      neighbours of the second slot. */
  function Rejoin(sp: Slots, a: Ref, b: Ref, mdb1: Cte, mdb2: Cte): (t: Slots)
    requires a in sp && b in sp && a != b
    requires (mdb2.prev == 0 || mdb2.prev in sp) && (mdb2.next == 0 || mdb2.next in sp)
    ensures t.Keys == sp.Keys
  {
    var s := sp[a := mdb2.(cap := sp[a].cap)][b := mdb1.(cap := sp[b].cap)];
    WithPrev(WithNext(s, mdb2.prev, a), mdb2.next, a)
  }

  lemma RejoinAt(sp: Slots, a: Ref, b: Ref, mdb1: Cte, mdb2: Cte, r: Ref)
    requires a in sp && b in sp && a != b && r in sp && 0 !in sp
    requires (mdb2.prev == 0 || mdb2.prev in sp) && (mdb2.next == 0 || mdb2.next in sp)
    ensures Rejoin(sp, a, b, mdb1, mdb2)[r]
            == Rejoined(if r == a then mdb2 else if r == b then mdb1 else sp[r], sp[r].cap, a, mdb2, r)
  {
  }

  function Rejoined(was: Cte, cap: Cap, a: Ref, mdb2: Cte, r: Ref): Cte {
    was.(cap := cap, next := if r == mdb2.prev then a else was.next, prev := if r == mdb2.next then a else was.prev)
  }

  /** The whole of cteSwap; the second slot's links are read after the first one's neighbours, which
      may be the second slot itself, have been changed. */
  function Exchanged(sp: Slots, a: Ref, b: Ref, atA: Cap, atB: Cap): (t: Slots)
    requires a in sp && b in sp && a != b
    requires (sp[a].prev == 0 || sp[a].prev in sp) && (sp[a].next == 0 || sp[a].next in sp)
    requires (sp[b].prev == 0 || sp[b].prev in sp) && (sp[b].next == 0 || sp[b].next in sp)
    ensures t.Keys == sp.Keys
  {
    var aside := SetAside(sp, a, b, atA, atB);
    Rejoin(aside, a, b, sp[a], aside[b])
  }

  lemma ExchangedCase(sp: Slots, t: Slots, a: Ref, b: Ref, atA: Cap, atB: Cap, mdb2: Cte, asideR: Cte, r: Ref)
    requires CanSwap(sp, a, b, atA, atB) && r in sp && r in t
    requires sp[a].next != a && sp[a].prev != a && sp[b].next != b && sp[b].prev != b
    requires SlotLinked(sp, a) && SlotLinked(sp, b) && SlotLinked(sp, r)
    requires mdb2 == Rejoined(sp[b], atB, b, sp[a], b)
    requires asideR == Rejoined(sp[r], if r == a then atA else if r == b then atB else sp[r].cap, b, sp[a], r)
    requires t[r] == Rejoined(if r == a then mdb2 else if r == b then sp[a] else asideR, asideR.cap, a, mdb2, r)
    ensures SwappedAt(sp, t, a, b, atA, atB, r)
  {
  }

  lemma ExchangedAt(sp: Slots, t: Slots, a: Ref, b: Ref, atA: Cap, atB: Cap, r: Ref)
    requires CanSwap(sp, a, b, atA, atB) && r in sp
    requires sp[a].next != a && sp[a].prev != a && sp[b].next != b && sp[b].prev != b
    requires SlotLinked(sp, a) && SlotLinked(sp, b) && SlotLinked(sp, r)
    requires t == Exchanged(sp, a, b, atA, atB)
    ensures SwappedAt(sp, t, a, b, atA, atB, r)
  {
    var aside := SetAside(sp, a, b, atA, atB);
    SetAsideAt(sp, a, b, atA, atB, b);
    SetAsideAt(sp, a, b, atA, atB, r);
    RejoinAt(aside, a, b, sp[a], aside[b], r);
    ExchangedCase(sp, t, a, b, atA, atB, aside[b], aside[r], r);
  }

  lemma ExchangedIsSwapped(sp: Slots, a: Ref, b: Ref, atA: Cap, atB: Cap)
    requires WellLinked(sp) && CanSwap(sp, a, b, atA, atB) && SlotLinked(sp, a) && SlotLinked(sp, b)
    requires sp[a].next != a && sp[a].prev != a && sp[b].next != b && sp[b].prev != b
    ensures Swapped(sp, Exchanged(sp, a, b, atA, atB), a, b, atA, atB)
  {
    var t := Exchanged(sp, a, b, atA, atB);
    forall r | r in sp ensures SwappedAt(sp, t, a, b, atA, atB, r) {
      assert SlotLinked(sp, r);
      ExchangedAt(sp, t, a, b, atA, atB, r);
    }
  }

  // ---------------------------------------------------------------- changing in place

  lemma RecappedTogether(sp: Slots, line: Line, r: Ref, cap: Cap, a: Ref, b: Ref)
    requires Occupied(sp, r) && OnlyCap(sp, r) && !HasObject(cap) && !cap.NullCap?
    requires Placed(sp, line, a) && Placed(sp, line, b) && Together(sp, line, a, b)
    ensures Together(sp[r := sp[r].(cap := cap)], line, a, b)
  {
    SameObjectEquivalence(sp[a].cap, sp[r].cap, sp[b].cap);
    SameObjectEquivalence(sp[b].cap, sp[a].cap, sp[r].cap);
    SameObjectEquivalence(cap, cap, cap);
  }

  /** The last capability to an object may give way to one that has none. */
  lemma RecappedInv(sp: Slots, line: Line, r: Ref, cap: Cap)
    requires Inv(sp, line) && Occupied(sp, r) && OnlyCap(sp, r) && !HasObject(cap) && !cap.NullCap?
    ensures Inv(sp[r := sp[r].(cap := cap)], line)
  {
    var t := sp[r := sp[r].(cap := cap)];
    forall s | s in t ensures SlotLinked(t, s) {
      assert SlotLinked(sp, s);
    }
    forall s ensures Occupied(t, s) <==> Occupied(sp, s) {
    }
    forall a, c | Occupied(t, a) && Occupied(t, c) ensures NotSkipped(t, line, a, c) {
      assert NotSkipped(sp, line, a, c);
    }
    forall a, b | Occupied(t, a) && Occupied(t, b) ensures Together(t, line, a, b) {
      assert SlotLinked(sp, a) && SlotLinked(sp, b);
      RecappedTogether(sp, line, r, cap, a, b);
    }
  }

  /** A list of its own for a capability to an object that no other capability refers to. */
  lemma WrittenInv(sp: Slots, line: Line, r: Ref, cte: Cte) returns (after: Line)
    requires Inv(sp, line) && r in sp && sp[r].cap.NullCap? && !cte.cap.NullCap? && cte.prev == 0 && cte.next == 0
    requires forall s :: s in sp ==> !SameObjectAs(sp[s].cap, cte.cap)
    ensures Inv(sp[r := cte], after)
  {
    var y := Beyond(line);
    after := line[r := y];
    var t := sp[r := cte];
    assert SlotLinked(sp, r);
    forall s | s in t ensures SlotLinked(t, s) {
      assert SlotLinked(sp, s);
    }
    forall s ensures Occupied(t, s) <==> s == r || Occupied(sp, s) {
    }
    forall a, c | Occupied(t, a) && Occupied(t, c) ensures NotSkipped(t, after, a, c) {
      WrittenNotSkipped(sp, line, r, cte, y, a, c);
    }
    forall a, b | Occupied(t, a) && Occupied(t, b) ensures Together(t, after, a, b) {
      WrittenTogether(sp, line, r, cte, y, a, b);
    }
  }

  lemma Beyond(line: Line) returns (y: real)
    ensures forall r :: r in line ==> line[r] < y
    decreases |line|
  {
    if line == map[] {
      y := 0.0;
    } else {
      var r :| r in line;
      var rest := line - {r};
      var z := Beyond(rest);
      y := if z <= line[r] then line[r] + 1.0 else z;
      forall s | s in line ensures line[s] < y {
        if s != r { assert s in rest; }
      }
    }
  }

  lemma WrittenNotSkipped(sp: Slots, line: Line, r: Ref, cte: Cte, y: real, a: Ref, c: Ref)
    requires Inv(sp, line) && r in sp && sp[r].cap.NullCap? && cte.prev == 0 && cte.next == 0
    requires forall s :: s in line ==> line[s] < y
    requires a == r || Occupied(sp, a)
    requires c == r || Occupied(sp, c)
    requires !cte.cap.NullCap?
    ensures Occupied(sp[r := cte], a)
    ensures a in line[r := y] && c in line[r := y] && NotSkipped(sp[r := cte], line[r := y], a, c)
  {
    assert SlotLinked(sp, r);
    if a != r {
      assert SlotLinked(sp, a);
      assert NotSkipped(sp, line, a, a);
      assert c != r ==> NotSkipped(sp, line, a, c);
    }
  }

  lemma WrittenTogether(sp: Slots, line: Line, r: Ref, cte: Cte, y: real, a: Ref, b: Ref)
    requires Inv(sp, line) && r in sp && sp[r].cap.NullCap?
    requires a == r || Occupied(sp, a)
    requires b == r || Occupied(sp, b)
    requires forall s :: s in sp ==> !SameObjectAs(sp[s].cap, cte.cap)
    ensures a in line[r := y] && b in line[r := y] && Together(sp[r := cte], line[r := y], a, b)
  {
    SameObjectEquivalence(cte.cap, sp[b].cap, cte.cap);
    assert SlotLinked(sp, r) && SlotLinked(sp, a) && SlotLinked(sp, b);
    assert a != r && b != r ==> Together(sp, line, a, b);
  }

  // ---------------------------------------------------------------- the operations

  class CapSpace {
    var slots: Slots
    ghost var line: Line

    ghost predicate Valid()
      reads this
    {
      Inv(slots, line)
    }

    /** Blank slots. */
    constructor (refs: set<Ref>)
      requires 0 !in refs
      ensures Valid() && slots.Keys == refs && forall r :: r in refs ==> slots[r] == NullCte
    {
      slots := map r | r in refs :: NullCte;
      line := map[];
      new;
      forall r | r in slots ensures SlotLinked(slots, r) {
      }
    }

    /** write_slot, as used at boot. */
    method WriteSlot(slot: Ref, cap: Cap)
      requires Valid() && slot in slots && slots[slot].cap.NullCap? && !cap.NullCap?
      requires forall s :: s in slots ==> !SameObjectAs(slots[s].cap, cap)
      modifies this
      ensures Valid()
      ensures slots == old(slots)[slot := Cte(cap, 0, 0, true, true)]
    {
      line := WrittenInv(slots, line, slot, Cte(cap, 0, 0, true, true));
      slots := slots[slot := NullCte.(cap := cap)];
      slots := slots[slot := slots[slot].(revocable := true)];
      slots := slots[slot := slots[slot].(firstBadged := true)];
      assert slots == old(slots)[slot := Cte(cap, 0, 0, true, true)];
    }

    /** Sets the forward link of a slot, if there is one. */
    method SetNext(r: Ref, to: Ref)
      requires r == 0 || r in slots
      modifies `slots
      ensures slots == WithNext(old(slots), r, to)
    {
      if r != 0 {
        slots := slots[r := slots[r].(next := to)];
      }
    }

    /** Sets the backward link of a slot, if there is one. */
    method SetPrev(r: Ref, to: Ref)
      requires r == 0 || r in slots
      modifies `slots
      ensures slots == WithPrev(old(slots), r, to)
    {
      if r != 0 {
        slots := slots[r := slots[r].(prev := to)];
      }
    }

    /** cteInsert */
    method CteInsert(newCap: Cap, src: Ref, dest: Ref)
      requires Valid() && Occupied(slots, src) && dest in slots && slots[dest].cap.NullCap?
      requires !newCap.NullCap? && MayFollow(slots, src, newCap)
      modifies this
      ensures Valid() && old(SlotLinked(slots, src))
      ensures slots == Spliced(old(slots), Derivation(old(slots[src].cap), src, dest, newCap))
    {
      line := DerivedInv(slots, line, src, dest, newCap);
      var revocable := Revocable(newCap, slots[src].cap);
      Attach(src, dest, AsFull(slots[src].cap, newCap), newCap, revocable);
    }

    method Attach(src: Ref, dest: Ref, full: Cap, newCap: Cap, revocable: bool)
      requires src in slots && dest in slots && SlotLinked(slots, src) && 0 !in slots
      requires src != dest && slots[src].next != src && slots[src].next != dest
      modifies `slots
      ensures slots == Spliced(old(slots), Splice(src, dest, full, newCap, revocable, revocable))
    {
      var next := slots[src].next;
      slots := slots[src := slots[src].(cap := full)];
      slots := slots[dest := Cte(newCap, src, next, revocable, revocable)];
      SetNext(src, dest);
      ghost var added := old(slots)[dest := Cte(newCap, src, next, revocable, revocable)];
      assert slots == added[src := old(slots)[src].(cap := full, next := dest)];
      SetPrev(next, dest);
    }

    /** insertNewCap */
    method InsertNewCap(parent: Ref, slot: Ref, cap: Cap)
      requires Valid() && Occupied(slots, parent) && slot in slots && slots[slot].cap.NullCap?
      requires !cap.NullCap? && MayFollow(slots, parent, cap)
      modifies this
      ensures Valid() && old(SlotLinked(slots, parent))
      ensures slots == Spliced(old(slots), Splice(parent, slot, old(slots[parent].cap), cap, true, true))
    {
      ghost var e := Splice(parent, slot, slots[parent].cap, cap, true, true);
      NoSelfLink(slots, line, parent);
      line := SplicedInv(slots, line, e);
      ghost var after := Spliced(slots, e);
      var next := slots[parent].next;
      slots := slots[slot := Cte(cap, parent, next, true, true)];
      if next != 0 {
        slots := slots[next := slots[next].(prev := slot)];
      }
      slots := slots[parent := slots[parent].(next := slot)];
      assert slots == after;
    }

    /** The store of invokeUntyped_Retype and resetUntypedCap into an untyped capability. */
    method SetFreeIndex(slot: Ref, index: nat)
      requires Valid() && slot in slots && slots[slot].cap.UntypedCap?
      modifies this
      ensures Valid()
      ensures slots == old(slots)[slot := old(slots)[slot].(cap := old(slots)[slot].cap.(freeIndex := index))]
    {
      RecappedInv(slots, line, slot, slots[slot].cap.(freeIndex := index));
      slots := slots[slot := slots[slot].(cap := slots[slot].cap.(freeIndex := index))];
    }

    /** emptySlot */
    method EmptySlot(slot: Ref)
      requires Valid() && slot in slots
      modifies this
      ensures Valid() && slot in slots && slots[slot].cap.NullCap? && old(SlotLinked(slots, slot))
      ensures slots == if old(slots[slot].cap.NullCap?) then old(slots) else Removed(old(slots), slot)
    {
      assert SlotLinked(slots, slot);
      if !slots[slot].cap.NullCap? {
        RemovedInv(slots, line, slot);
        NoSelfLink(slots, line, slot);
        ghost var after := Removed(slots, slot);
        var cte := slots[slot];
        if cte.prev != 0 {
          slots := slots[cte.prev := slots[cte.prev].(next := cte.next)];
        }
        if cte.next != 0 {
          slots := slots[cte.next := slots[cte.next].(prev := cte.prev)];
          slots := slots[cte.next := slots[cte.next].(firstBadged := slots[cte.next].firstBadged || cte.firstBadged)];
        }
        slots := slots[slot := NullCte];
        assert slots == after;
      }
    }

    /** cteMove */
    method CteMove(newCap: Cap, src: Ref, dest: Ref)
      requires Valid() && Occupied(slots, src) && dest in slots && slots[dest].cap.NullCap?
      requires SameTarget(slots[src].cap, newCap)
      modifies this
      ensures Valid()
      ensures Swapped(old(slots), slots, src, dest, NullCap, newCap)
    {
      ghost var before := slots;
      NoSelfLink(slots, line, src);
      assert SlotLinked(slots, src) && SlotLinked(slots, dest);
      Relocate(newCap, src, dest);
      SwappedInv(before, slots, line, src, dest, NullCap, newCap);
      line := SwappedLine(line, src, dest);
    }

    method Transfer(newCap: Cap, src: Ref, dest: Ref)
      requires src in slots && dest in slots && src != dest
      modifies `slots
      ensures slots == Transferred(old(slots), src, dest, newCap)
    {
      var mdb := slots[src];
      slots := slots[dest := slots[dest].(cap := newCap)];
      slots := slots[src := slots[src].(cap := NullCap)];
      slots := slots[dest := mdb.(cap := slots[dest].cap)];
      slots := slots[src := NullCte.(cap := slots[src].cap)];
    }

    method Relocate(newCap: Cap, src: Ref, dest: Ref)
      requires CanSwap(slots, src, dest, NullCap, newCap) && slots[src].prev != src && slots[src].next != src
      requires WellLinked(slots) && SlotLinked(slots, src) && SlotLinked(slots, dest)
      modifies `slots
      ensures Swapped(old(slots), slots, src, dest, NullCap, newCap)
    {
      ghost var before := slots;
      var mdb := slots[src];
      Transfer(newCap, src, dest);
      SetNext(mdb.prev, dest);
      SetPrev(mdb.next, dest);
      MovedIsSwapped(before, src, dest, newCap);
    }

    /** cteSwap */
    method CteSwap(cap1: Cap, slot1: Ref, cap2: Cap, slot2: Ref)
      requires Valid() && CanSwap(slots, slot1, slot2, cap2, cap1)
      modifies this
      ensures Valid()
      ensures Swapped(old(slots), slots, slot1, slot2, cap2, cap1)
    {
      ghost var before := slots;
      NoSelfLink(slots, line, slot1);
      NoSelfLink(slots, line, slot2);
      assert SlotLinked(slots, slot1) && SlotLinked(slots, slot2);
      Exchange(cap1, slot1, cap2, slot2);
      ExchangedIsSwapped(before, slot1, slot2, cap2, cap1);
      SwappedInv(before, slots, line, slot1, slot2, cap2, cap1);
      line := SwappedLine(line, slot1, slot2);
    }

    method Exchange(cap1: Cap, slot1: Ref, cap2: Cap, slot2: Ref)
      requires CanSwap(slots, slot1, slot2, cap2, cap1) && SlotLinked(slots, slot1) && SlotLinked(slots, slot2)
      modifies `slots
      ensures slots == Exchanged(old(slots), slot1, slot2, cap2, cap1)
    {
      var mdb1 := slots[slot1];
      slots := slots[slot1 := slots[slot1].(cap := cap2)];
      slots := slots[slot2 := slots[slot2].(cap := cap1)];
      SetNext(mdb1.prev, slot2);
      SetPrev(mdb1.next, slot2);
      var mdb2 := slots[slot2];
      slots := slots[slot1 := mdb2.(cap := slots[slot1].cap)];
      slots := slots[slot2 := mdb1.(cap := slots[slot2].cap)];
      SetNext(mdb2.prev, slot1);
      SetPrev(mdb2.next, slot1);
    }

    /** capSwapForDelete */
    method CapSwapForDelete(slot1: Ref, slot2: Ref)
      requires Valid() && slot1 in slots && slot2 in slots
      modifies this
      ensures Valid()
      ensures slot1 == slot2 ==> slots == old(slots)
      ensures slot1 != slot2 ==> Swapped(old(slots), slots, slot1, slot2, old(slots[slot2].cap), old(slots[slot1].cap))
    {
      if slot1 == slot2 {
        return;
      }
      var cap1 := slots[slot1].cap;
      var cap2 := slots[slot2].cap;
      SameObjectEquivalence(cap1, cap1, cap1);
      SameObjectEquivalence(cap2, cap2, cap2);
      CteSwap(cap1, slot1, cap2, slot2);
    }

    /** isFinalCapability */
    method IsFinalCapability(slot: Ref) returns (final: bool)
      requires Valid() && slot in slots
      ensures final <==> OnlyCap(slots, slot)
    {
      FinalIsOnly(slots, line, slot);
      var cte := slots[slot];
      var prevIsSameObject := false;
      if cte.prev != 0 {
        prevIsSameObject := SameObjectAs(slots[cte.prev].cap, cte.cap);
      }
      if prevIsSameObject {
        return false;
      }
      if cte.next == 0 {
        return true;
      }
      return !SameObjectAs(cte.cap, slots[cte.next].cap);
    }
  }

  datatype Op =
    | Write(slot: Ref, cap: Cap)
    | Insert(newCap: Cap, src: Ref, dest: Ref)
    | InsertNew(parent: Ref, slot: Ref, cap: Cap)
    | Move(newCap: Cap, src: Ref, dest: Ref)
    | Swap(cap1: Cap, slot1: Ref, cap2: Cap, slot2: Ref)
    | Empty(slot: Ref)
    | Advance(slot: Ref, index: nat)

  /** What the kernel makes sure of before it calls the operation. */
  predicate Permitted(sp: Slots, op: Op) {
    match op
    case Write(slot, cap) =>
      slot in sp && sp[slot].cap.NullCap? && !cap.NullCap? && forall s :: s in sp ==> !SameObjectAs(sp[s].cap, cap)
    case Insert(cap, src, dest) => Occupied(sp, src) && dest in sp && sp[dest].cap.NullCap? && !cap.NullCap?
                                   && MayFollow(sp, src, cap)
    case InsertNew(src, dest, cap) => Occupied(sp, src) && dest in sp && sp[dest].cap.NullCap? && !cap.NullCap?
                                      && MayFollow(sp, src, cap)
    case Move(cap, src, dest) => Occupied(sp, src) && dest in sp && sp[dest].cap.NullCap?
                                 && SameTarget(sp[src].cap, cap)
    case Swap(cap1, slot1, cap2, slot2) => CanSwap(sp, slot1, slot2, cap2, cap1)
    case Empty(slot) => slot in sp
    case Advance(slot, _) => slot in sp && sp[slot].cap.UntypedCap?
  }

  /** Any run of operations from blank slots leaves the lists well linked, and the neighbour test decides
      at every slot whether its capability is the last one to its object. */
  method Run(refs: set<Ref>, ops: seq<Op>) returns (space: CapSpace)
    requires 0 !in refs
    ensures space.Valid() && WellLinked(space.slots)
    ensures forall r {:trigger OnlyCap(space.slots, r)} :: r in space.slots ==>
              SlotLinked(space.slots, r) && (IsFinal(space.slots, r) <==> OnlyCap(space.slots, r))
  {
    space := new CapSpace(refs);
    for i := 0 to |ops|
      invariant fresh(space) && space.Valid()
    {
      if Permitted(space.slots, ops[i]) {
        match ops[i]
        case Write(slot, cap) => space.WriteSlot(slot, cap);
        case Insert(cap, src, dest) => space.CteInsert(cap, src, dest);
        case InsertNew(parent, slot, cap) => space.InsertNewCap(parent, slot, cap);
        case Move(cap, src, dest) => space.CteMove(cap, src, dest);
        case Swap(cap1, slot1, cap2, slot2) => space.CteSwap(cap1, slot1, cap2, slot2);
        case Empty(slot) => space.EmptySlot(slot);
        case Advance(slot, index) => space.SetFreeIndex(slot, index);
      }
    }
    forall r | r in space.slots
      ensures SlotLinked(space.slots, r) && (IsFinal(space.slots, r) <==> OnlyCap(space.slots, r))
    {
      FinalIsOnly(space.slots, space.line, r);
    }
  }
}
