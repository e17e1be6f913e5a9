/** Deleting capabilities (kernel/src/object/cnode.c, kernel/src/object/objecttype.c): the last
    capability to an object that holds slots turns into a zombie, which is emptied slot by slot. */
module CapDeletion {
  import opened Words
  import opened CapSpaces

  const TCB_CNODE_ENTRIES: nat := 5

  function SlotCount(kind: NodeKind): nat {
    match kind
    case CNodeKind(radix) => Pow2(radix)
    case TcbKind => TCB_CNODE_ENTRIES
  }

  /** The objects that hold slots, by the address of their first slot. */
  type Nodes = map<Ref, NodeKind>

  ghost predicate InNode(nodes: Nodes, base: Ref, x: Ref) {
    base in nodes && base <= x < base + SlotCount(nodes[base])
  }

  /** Nodes consist of slots and do not overlap. */
  ghost predicate Separate(sp: Slots, nodes: Nodes) {
    && (forall b, x {:trigger InNode(nodes, b, x)} :: InNode(nodes, b, x) ==> x in sp)
    && (forall b, c, x {:trigger InNode(nodes, b, x), InNode(nodes, c, x)} ::
          InNode(nodes, b, x) && InNode(nodes, c, x) ==> b == c)
  }

  /** `c` gives access to the node at `base`, or is what is left of such a capability. */
  predicate Holds(c: Cap, base: Ref) {
    match c
    case CNodeCap(p, _) => p == base
    case ThreadCap(p) => p == base
    case ZombieCap(p, _, _) => p == base
    case _ => false
  }

  ghost predicate CapOk(nodes: Nodes, c: Cap) {
    match c
    case CNodeCap(p, radix) => p in nodes && nodes[p] == CNodeKind(radix)
    case ThreadCap(p) => p in nodes && nodes[p] == TcbKind
    case ZombieCap(p, n, kind) => p in nodes && nodes[p] == kind && n <= SlotCount(kind)
    case _ => true
  }

  /** The slots of a zombie's node from its number on are empty. */
  ghost predicate TailEmpty(sp: Slots, c: Cap) {
    c.ZombieCap? ==> forall x :: c.ptr + c.number <= x < c.ptr + SlotCount(c.kind) ==> x in sp && sp[x].cap.NullCap?
  }

  /** A zombie is the only capability to its node. */
  ghost predicate Lone(sp: Slots, r: Ref)
    requires r in sp
  {
    sp[r].cap.ZombieCap? ==> forall s :: s in sp && s != r ==> !Holds(sp[s].cap, sp[r].cap.ptr)
  }

  ghost predicate SlotOk(sp: Slots, nodes: Nodes, r: Ref)
    requires r in sp
  {
    CapOk(nodes, sp[r].cap) && TailEmpty(sp, sp[r].cap) && Lone(sp, r)
  }

  ghost predicate Sound(sp: Slots, nodes: Nodes) {
    Separate(sp, nodes) && forall r {:trigger SlotOk(sp, nodes, r)} :: r in sp ==> SlotOk(sp, nodes, r)
  }

  /** capCyclicZombie */
  predicate Cyclic(c: Cap, slot: Ref) {
    c.ZombieCap? && c.ptr == slot
  }

  /** Slots that still have to be dealt with. */
  ghost function Active(sp: Slots): set<Ref> {
    set r | r in sp && !sp[r].cap.NullCap? && !Cyclic(sp[r].cap, r)
  }

  // ---------------------------------------------------------------- what the steps keep

  ghost predicate OnlyAt(sp: Slots, t: Slots, slot: Ref, cap: Cap) {
    t.Keys == sp.Keys && slot in t && t[slot].cap == cap && forall r :: r in sp && r != slot ==> t[r].cap == sp[r].cap
  }

  lemma SeparateKept(sp: Slots, t: Slots, nodes: Nodes)
    requires Separate(sp, nodes) && t.Keys == sp.Keys
    ensures Separate(t, nodes)
  {
  }

  lemma EmptiedSound(sp: Slots, t: Slots, nodes: Nodes, slot: Ref)
    requires Sound(sp, nodes) && OnlyAt(sp, t, slot, NullCap)
    ensures Sound(t, nodes) && Active(t) <= Active(sp)
  {
    SeparateKept(sp, t, nodes);
    forall r | r in t ensures SlotOk(t, nodes, r) {
      assert SlotOk(sp, nodes, r);
    }
  }

  /** The zombie that takes the place of the last capability to a node. */
  predicate BecomesZombie(c: Cap, z: Cap) {
    match c
    case CNodeCap(p, radix) => z == ZombieCap(p, Pow2(radix), CNodeKind(radix))
    case ThreadCap(p) => z == ZombieCap(p, TCB_CNODE_ENTRIES, TcbKind)
    case _ => false
  }

  /** `cap` is what finalisation leaves in the slot. */
  ghost predicate Remains(sp: Slots, slot: Ref, cap: Cap)
    requires slot in sp
  {
    cap.ZombieCap? && (cap == sp[slot].cap || (OnlyCap(sp, slot) && BecomesZombie(sp[slot].cap, cap)))
  }

  lemma ZombifiedSound(sp: Slots, t: Slots, nodes: Nodes, slot: Ref, z: Cap)
    requires Sound(sp, nodes) && OnlyAt(sp, t, slot, z) && OnlyCap(sp, slot) && BecomesZombie(sp[slot].cap, z)
    ensures Sound(t, nodes) && Active(t) <= Active(sp)
  {
    SeparateKept(sp, t, nodes);
    assert SlotOk(sp, nodes, slot);
    forall s | s in sp && s != slot ensures !Holds(sp[s].cap, z.ptr) {
      assert SlotOk(sp, nodes, s);
    }
    forall r | r in t ensures SlotOk(t, nodes, r) {
      assert SlotOk(sp, nodes, r);
    }
  }

  lemma ShrunkSound(sp: Slots, t: Slots, nodes: Nodes, slot: Ref)
    requires Sound(sp, nodes) && slot in sp && sp[slot].cap.ZombieCap? && sp[slot].cap.number > 0
    requires OnlyAt(sp, t, slot, sp[slot].cap.(number := sp[slot].cap.number - 1))
    requires sp[slot].cap.ptr + sp[slot].cap.number - 1 in sp
    requires sp[sp[slot].cap.ptr + sp[slot].cap.number - 1].cap.NullCap?
    ensures Sound(t, nodes) && Active(t) <= Active(sp)
  {
    SeparateKept(sp, t, nodes);
    forall r | r in t ensures SlotOk(t, nodes, r) {
      assert SlotOk(sp, nodes, slot);
      assert SlotOk(sp, nodes, r);
    }
  }

  /** The capabilities of slots `a` and `b` are exchanged. */
  ghost predicate Traded(sp: Slots, t: Slots, a: Ref, b: Ref) {
    && t.Keys == sp.Keys && a in sp && b in sp && t[a].cap == sp[b].cap && t[b].cap == sp[a].cap
    && forall r :: r in sp && r != a && r != b ==> t[r].cap == sp[r].cap
  }

  lemma TradedSound(sp: Slots, t: Slots, nodes: Nodes, ptr: Ref, slot: Ref)
    requires Sound(sp, nodes) && Traded(sp, t, ptr, slot) && ptr != slot
    requires sp[slot].cap.ZombieCap? && sp[slot].cap.ptr == ptr && sp[slot].cap.number > 0
    ensures Sound(t, nodes) && Active(t) < Active(sp) && !Cyclic(sp[ptr].cap, ptr)
  {
    SeparateKept(sp, t, nodes);
    assert SlotOk(sp, nodes, slot) && SlotOk(sp, nodes, ptr);
    forall r | r in t ensures SlotOk(t, nodes, r) {
      assert SlotOk(sp, nodes, r);
      TradedSlot(sp, t, nodes, ptr, slot, r);
    }
    assert (slot in Active(sp) && slot !in Active(t)) || (ptr in Active(sp) && ptr !in Active(t));
  }

  lemma TradedSlot(sp: Slots, t: Slots, nodes: Nodes, ptr: Ref, slot: Ref, r: Ref)
    requires Separate(sp, nodes) && Traded(sp, t, ptr, slot) && ptr != slot && r in sp
    requires sp[slot].cap.ZombieCap? && sp[slot].cap.ptr == ptr && sp[slot].cap.number > 0
    requires SlotOk(sp, nodes, slot) && SlotOk(sp, nodes, ptr) && SlotOk(sp, nodes, r)
    ensures SlotOk(t, nodes, r)
  {
    var c := t[r].cap;
    if c.ZombieCap? {
      assert InNode(nodes, ptr, ptr);
      forall x | c.ptr + c.number <= x < c.ptr + SlotCount(c.kind) ensures x in t && t[x].cap.NullCap? {
        assert InNode(nodes, c.ptr, x);
      }
    }
  }

  // ---------------------------------------------------------------- nothing is cut off

  ghost predicate Held(sp: Slots, base: Ref) {
    exists r :: r in sp && Holds(sp[r].cap, base)
  }

  /** A node in which a capability is stored can still be reached by a capability. */
  ghost predicate NoneCutOff(sp: Slots, nodes: Nodes) {
    forall b, x {:trigger InNode(nodes, b, x)} :: InNode(nodes, b, x) && x in sp && !sp[x].cap.NullCap? ==> Held(sp, b)
  }

  /** finaliseCap: what remains in the slot. The changes to other kernel objects are not modelled. */
  function FinaliseCap(cap: Cap, final: bool): Cap {
    match cap
    case CNodeCap(p, radix) => if final then ZombieCap(p, Pow2(radix), CNodeKind(radix)) else NullCap
    case ThreadCap(p) => if final then ZombieCap(p, TCB_CNODE_ENTRIES, TcbKind) else NullCap
    case ZombieCap(_, _, _) => cap
    case _ => NullCap
  }

  /** capRemovable */
  predicate CapRemovable(cap: Cap, slot: Ref)
    requires cap.NullCap? || cap.ZombieCap?
  {
    cap.NullCap? || cap.number == 0 || (cap.number == 1 && slot == cap.ptr)
  }

  /** The slot can be emptied: what it holds is not all that is left of a node with contents. */
  ghost predicate Dispensable(sp: Slots, slot: Ref)
    requires slot in sp
  {
    CapRemovable(FinaliseCap(sp[slot].cap, OnlyCap(sp, slot)), slot)
  }

  lemma EmptiedReaches(sp: Slots, t: Slots, nodes: Nodes, slot: Ref)
    requires Sound(sp, nodes) && NoneCutOff(sp, nodes) && slot in sp && Dispensable(sp, slot)
    requires OnlyAt(sp, t, slot, NullCap)
    ensures NoneCutOff(t, nodes)
  {
    assert SlotOk(sp, nodes, slot);
    forall b, x | InNode(nodes, b, x) && x in t && !t[x].cap.NullCap? ensures Held(t, b) {
      var r :| r in sp && Holds(sp[r].cap, b);
      if r != slot {
        assert Holds(t[r].cap, b);
      } else {
        assert !sp[slot].cap.ZombieCap?;
        assert !OnlyCap(sp, slot);
        var s :| s in sp && s != slot && SameObjectAs(sp[s].cap, sp[slot].cap);
        assert Holds(t[s].cap, b);
      }
    }
  }

  /** `t` holds the same nodes as `sp` and occupies no further slot. */
  lemma HoldersKept(sp: Slots, t: Slots, nodes: Nodes, slot: Ref)
    requires NoneCutOff(sp, nodes) && slot in sp && slot in t && OnlyAt(sp, t, slot, t[slot].cap)
    requires !sp[slot].cap.NullCap? && forall b :: Holds(sp[slot].cap, b) ==> Holds(t[slot].cap, b)
    ensures NoneCutOff(t, nodes)
  {
    forall b, x | InNode(nodes, b, x) && x in t && !t[x].cap.NullCap? ensures Held(t, b) {
      var r :| r in sp && Holds(sp[r].cap, b);
      assert Holds(t[r].cap, b);
    }
  }

  lemma TradedReaches(sp: Slots, t: Slots, nodes: Nodes, ptr: Ref, slot: Ref)
    requires Sound(sp, nodes) && NoneCutOff(sp, nodes) && Traded(sp, t, ptr, slot)
    requires sp[slot].cap.ZombieCap? && sp[slot].cap.ptr == ptr && sp[slot].cap.number > 0
    ensures NoneCutOff(t, nodes)
  {
    assert SlotOk(sp, nodes, slot);
    assert InNode(nodes, ptr, ptr);
    forall b, x | InNode(nodes, b, x) && x in t && !t[x].cap.NullCap? ensures Held(t, b) {
      if x == ptr {
        assert Holds(t[ptr].cap, b);
      } else {
        var r :| r in sp && Holds(sp[r].cap, b);
        assert Holds(t[Other(ptr, slot, r)].cap, b);
      }
    }
  }

  // ---------------------------------------------------------------- nothing is copied

  ghost function Places(sp: Slots, c: Cap): set<Ref> {
    set r | r in sp && sp[r].cap == c
  }

  /** No capability but a zombie is in more slots than before. */
  ghost predicate NoneCopied(sp: Slots, t: Slots) {
    forall c: Cap {:trigger Places(t, c)} :: !c.NullCap? && !c.ZombieCap? ==> |Places(t, c)| <= |Places(sp, c)|
  }

  lemma FewerPlaces(s: set<Ref>, t: set<Ref>)
    requires t <= s
    ensures |t| <= |s|
    decreases t
  {
    if t != {} {
      var r :| r in t;
      FewerPlaces(s - {r}, t - {r});
    }
  }

  lemma ReplacedNotCopied(sp: Slots, t: Slots, slot: Ref, cap: Cap)
    requires OnlyAt(sp, t, slot, cap) && (cap.NullCap? || cap.ZombieCap?)
    ensures NoneCopied(sp, t)
  {
    forall c: Cap | !c.NullCap? && !c.ZombieCap? ensures |Places(t, c)| <= |Places(sp, c)| {
      FewerPlaces(Places(sp, c), Places(t, c));
    }
  }

  lemma RenamedPlaces(p: set<Ref>, q: set<Ref>, a: Ref, b: Ref)
    requires forall r :: r in q <==> Other(a, b, r) in p
    ensures |q| == |p|
  {
    if a in p && b !in p {
      OneMoved(p, q, a, b);
    } else if b in p && a !in p {
      OneMoved(p, q, b, a);
    } else {
      assert q == p;
    }
  }

  lemma OneMoved(p: set<Ref>, q: set<Ref>, a: Ref, b: Ref)
    requires a in p && b in q && forall r :: r in q && r != b <==> r in p && r != a
    ensures |q| == |p|
  {
    assert q - {b} == p - {a};
    assert |q| == |q - {b}| + 1 && |p| == |p - {a}| + 1;
  }

  lemma TradedNotCopied(sp: Slots, t: Slots, a: Ref, b: Ref)
    requires Traded(sp, t, a, b)
    ensures NoneCopied(sp, t)
  {
    forall c ensures |Places(t, c)| == |Places(sp, c)| {
      RenamedPlaces(Places(sp, c), Places(t, c), a, b);
    }
  }

  // ---------------------------------------------------------------- whole deletions

  /** What any part of a deletion leaves behind. */
  ghost predicate Reduced(sp: Slots, t: Slots) {
    t.Keys == sp.Keys && Active(t) <= Active(sp) && NoneCopied(sp, t)
  }

  lemma ReducedTransitive(sp: Slots, t: Slots, u: Slots)
    requires Reduced(sp, t) && Reduced(t, u)
    ensures Reduced(sp, u)
  {
    forall c: Cap | !c.NullCap? && !c.ZombieCap? ensures |Places(u, c)| <= |Places(sp, c)| {
      assert |Places(t, c)| <= |Places(sp, c)|;
    }
  }

  /** What a deletion that may not go deeper does to a slot other than its own: nothing, or put a zombie
      of this very slot's node there. */
  ghost predicate Spared(sp: Slots, t: Slots, r: Ref)
    requires r in sp && r in t
  {
    t[r].cap == sp[r].cap || (Cyclic(t[r].cap, r) && !Cyclic(sp[r].cap, r))
  }

  ghost predicate OthersSpared(sp: Slots, t: Slots, slot: Ref) {
    t.Keys == sp.Keys && forall r {:trigger Spared(sp, t, r)} :: r in sp && r != slot ==> Spared(sp, t, r)
  }

  lemma SparedTransitive(sp: Slots, t: Slots, u: Slots, slot: Ref)
    requires OthersSpared(sp, t, slot) && OthersSpared(t, u, slot)
    ensures OthersSpared(sp, u, slot)
  {
    forall r | r in sp && r != slot ensures Spared(sp, u, r) {
      assert Spared(sp, t, r) && Spared(t, u, r);
    }
  }

  /** How far a slot is from being empty. */
  ghost function Rank(cap: Cap): nat {
    match cap
    case CNodeCap(_, radix) => Pow2(radix) + 2
    case ThreadCap(_) => TCB_CNODE_ENTRIES + 2
    case ZombieCap(_, n, _) => n + 1
    case _ => 0
  }

  // ---------------------------------------------------------------- what is out of reach stays

  /** The capability in slot `x` gives access to slot `y`. */
  ghost predicate LeadsTo(sp: Slots, nodes: Nodes, x: Ref, y: Ref) {
    x in sp && exists b :: Holds(sp[x].cap, b) && InNode(nodes, b, y)
  }

  /** From slot to slot, each within the node to which the capability in the one before gives access. */
  ghost predicate Path(sp: Slots, nodes: Nodes, p: seq<Ref>) {
    forall i :: 0 < i < |p| ==> LeadsTo(sp, nodes, p[i - 1], p[i])
  }

  ghost predicate Reachable(sp: Slots, nodes: Nodes, slot: Ref, x: Ref) {
    exists p: seq<Ref> :: p != [] && p[0] == slot && p[|p| - 1] == x && Path(sp, nodes, p)
  }

  /** No capability in these slots gives access to a slot that is not one of them. */
  ghost predicate Closed(sp: Slots, nodes: Nodes, area: set<Ref>) {
    forall x, y {:trigger LeadsTo(sp, nodes, x, y)} :: x in area && LeadsTo(sp, nodes, x, y) ==> y in area
  }

  ghost predicate SameOutside(sp: Slots, t: Slots, area: set<Ref>) {
    t.Keys == sp.Keys && forall r :: r in sp && r !in area ==> t[r].cap == sp[r].cap
  }

  /** Whatever closed area the slot is in, its outside is as before and it is still closed. */
  ghost predicate StaysWithin(sp: Slots, t: Slots, nodes: Nodes, slot: Ref) {
    forall area {:trigger Closed(sp, nodes, area)} ::
      Closed(sp, nodes, area) && slot in area ==> Closed(t, nodes, area) && SameOutside(sp, t, area)
  }

  lemma WithinTransitive(sp: Slots, t: Slots, u: Slots, nodes: Nodes, slot: Ref)
    requires StaysWithin(sp, t, nodes, slot) && StaysWithin(t, u, nodes, slot)
    ensures StaysWithin(sp, u, nodes, slot)
  {
  }

  /** A slot that comes to hold nothing new. */
  lemma RecappedWithin(sp: Slots, t: Slots, nodes: Nodes, slot: Ref, cap: Cap)
    requires OnlyAt(sp, t, slot, cap) && forall b :: Holds(cap, b) ==> Holds(sp[slot].cap, b)
    ensures StaysWithin(sp, t, nodes, slot)
  {
    forall area, x, y | Closed(sp, nodes, area) && slot in area && x in area && LeadsTo(t, nodes, x, y)
      ensures y in area
    {
      assert LeadsTo(sp, nodes, x, y);
    }
  }

  lemma TradedWithin(sp: Slots, t: Slots, nodes: Nodes, ptr: Ref, slot: Ref)
    requires Traded(sp, t, ptr, slot) && LeadsTo(sp, nodes, slot, ptr)
    ensures StaysWithin(sp, t, nodes, slot)
  {
    forall area, x, y | Closed(sp, nodes, area) && slot in area && x in area && LeadsTo(t, nodes, x, y)
      ensures y in area
    {
      assert LeadsTo(sp, nodes, Other(ptr, slot, x), y);
    }
  }

  /** What stays within the areas of a slot stays within those from which there is access to it. */
  lemma InnerWithin(sp: Slots, t: Slots, nodes: Nodes, slot: Ref, inner: Ref)
    requires LeadsTo(sp, nodes, slot, inner) && StaysWithin(sp, t, nodes, inner)
    ensures StaysWithin(sp, t, nodes, slot)
  {
  }

  /** So every slot out of reach keeps its capability. */
  lemma UnreachableKept(sp: Slots, t: Slots, nodes: Nodes, slot: Ref, r: Ref)
    requires Separate(sp, nodes) && StaysWithin(sp, t, nodes, slot) && slot in sp && r in sp
    requires !Reachable(sp, nodes, slot, r)
    ensures r in t && t[r].cap == sp[r].cap
  {
    var area := set x | x in sp && Reachable(sp, nodes, slot, x);
    forall x, y | x in area && LeadsTo(sp, nodes, x, y) ensures y in area {
      var b :| Holds(sp[x].cap, b) && InNode(nodes, b, y);
      var p: seq<Ref> :| p != [] && p[0] == slot && p[|p| - 1] == x && Path(sp, nodes, p);
      assert Path(sp, nodes, p + [y]);
    }
    assert Path(sp, nodes, [slot]);
    assert Closed(sp, nodes, area) && SameOutside(sp, t, area);
  }

  /** Every slot out of reach of `slot` keeps its capability. */
  ghost predicate OutOfReachKept(sp: Slots, t: Slots, nodes: Nodes, slot: Ref) {
    forall r :: r in sp && !Reachable(sp, nodes, slot, r) ==> r in t && t[r].cap == sp[r].cap
  }

  lemma ReachKept(sp: Slots, t: Slots, nodes: Nodes, slot: Ref)
    requires Separate(sp, nodes) && StaysWithin(sp, t, nodes, slot) && slot in sp
    ensures OutOfReachKept(sp, t, nodes, slot)
  {
    forall r | r in sp && !Reachable(sp, nodes, slot, r) ensures r in t && t[r].cap == sp[r].cap {
      UnreachableKept(sp, t, nodes, slot, r);
    }
  }

  /** The capability gives no access to a node, or there is another one to the same object. */
  ghost predicate NotTheLast(sp: Slots, slot: Ref)
    requires slot in sp
  {
    (forall b :: !Holds(sp[slot].cap, b)) || !OnlyCap(sp, slot)
  }

  /** Then it can be deleted at once. */
  lemma NotTheLastDispensable(sp: Slots, slot: Ref)
    requires slot in sp && NotTheLast(sp, slot)
    ensures Dispensable(sp, slot)
  {
    var c := sp[slot].cap;
    if c.CNodeCap? || c.ThreadCap? || c.ZombieCap? { assert Holds(c, c.ptr); }
  }

  /** The slots are reduced, only this one unless the deletion is exposed, and in any case none out of its reach. */
  ghost predicate Confined(sp: Slots, t: Slots, nodes: Nodes, slot: Ref, immediate: bool) {
    Reduced(sp, t) && StaysWithin(sp, t, nodes, slot) && (!immediate ==> OthersSpared(sp, t, slot))
  }

  lemma ConfinedTransitive(sp: Slots, t: Slots, u: Slots, nodes: Nodes, slot: Ref, immediate: bool)
    requires Confined(sp, t, nodes, slot, immediate) && Confined(t, u, nodes, slot, immediate)
    ensures Confined(sp, u, nodes, slot, immediate)
  {
    ReducedTransitive(sp, t, u);
    WithinTransitive(sp, t, u, nodes, slot);
    if !immediate { SparedTransitive(sp, t, u, slot); }
  }

  /** Fewer slots are active, or as many and this one is nearer to being empty. */
  ghost predicate Advances(sp: Slots, t: Slots, slot: Ref)
    requires slot in sp && slot in t
  {
    Active(t) < Active(sp) || (Active(t) == Active(sp) && Rank(t[slot].cap) < Rank(sp[slot].cap))
  }

  /** What reduceZombie achieves: fewer slots are active, or the slot is empty, or the zombie's number is one less. */
  ghost predicate ZombieReduced(sp: Slots, t: Slots, slot: Ref)
    requires slot in sp && slot in t && sp[slot].cap.ZombieCap?
  {
    || Active(t) < Active(sp) || t[slot].cap.NullCap?
    || (sp[slot].cap.number > 0 && t[slot].cap == sp[slot].cap.(number := sp[slot].cap.number - 1))
  }

  /** A round that stores `remainder` and then reduces it. */
  lemma RoundConfined(t: Slots, u: Slots, v: Slots, nodes: Nodes, slot: Ref, immediate: bool, remainder: Cap,
                      reduced: bool)
    requires OnlyAt(t, u, slot, remainder)
    requires Confined(t, u, nodes, slot, immediate) && Confined(u, v, nodes, slot, immediate)
    requires slot in t && remainder.ZombieCap? && Rank(remainder) <= Rank(t[slot].cap)
    requires reduced ==> slot in v && ZombieReduced(u, v, slot)
    ensures slot in v && Confined(t, v, nodes, slot, immediate) && (reduced ==> Advances(t, v, slot))
  {
    ConfinedTransitive(t, u, v, nodes, slot, immediate);
  }

  datatype Status = Done | Preempted

  class Deletion {
    const space: CapSpace
    ghost const nodes: Nodes
    /** The number of preemption points until one sees an interrupt; 0 if none will. */
    var preemptIn: nat

    ghost predicate Valid()
      reads this, space
    {
      space.Valid() && Sound(space.slots, nodes) && NoneCutOff(space.slots, nodes)
    }

    constructor (space: CapSpace, ghost nodes: Nodes, preemptIn: nat)
      requires space.Valid() && Sound(space.slots, nodes) && NoneCutOff(space.slots, nodes)
      ensures Valid() && this.space == space && this.nodes == nodes && this.preemptIn == preemptIn
    {
      this.space := space;
      this.nodes := nodes;
      this.preemptIn := preemptIn;
    }

    /** preemptionPoint: the one that is `preemptIn` points away preempts, none if that is 0. */
    method PreemptionPoint() returns (status: Status)
      modifies `preemptIn
      ensures preemptIn == if old(preemptIn) == 0 then 0 else old(preemptIn) - 1
      ensures status == if old(preemptIn) == 1 then Preempted else Done
    {
      if preemptIn == 0 {
        return Done;
      }
      preemptIn := preemptIn - 1;
      return if preemptIn == 0 then Preempted else Done;
    }

    /** Finalises the capability in a slot; the result is still to be stored. */
    method Finalise(slot: Ref) returns (remainder: Cap)
      requires Valid() && slot in space.slots
      ensures remainder.NullCap? || remainder.ZombieCap?
      ensures CapRemovable(remainder, slot) <==> Dispensable(space.slots, slot)
      ensures !CapRemovable(remainder, slot) ==>
              Rank(remainder) <= Rank(space.slots[slot].cap) && Remains(space.slots, slot, remainder)
    {
      var final := space.IsFinalCapability(slot);
      remainder := FinaliseCap(space.slots[slot].cap, final);
    }

    /** Stores what finaliseCap left. */
    method SetRemainder(slot: Ref, cap: Cap)
      requires Valid() && slot in space.slots
      requires Remains(space.slots, slot, cap)
      modifies space
      ensures Valid() && OnlyAt(old(space.slots), space.slots, slot, cap)
      ensures Confined(old(space.slots), space.slots, nodes, slot, false)
    {
      ghost var sp := space.slots;
      assert OnlyCap(sp, slot);
      space.slots := space.slots[slot := space.slots[slot].(cap := cap)];
      RecappedInv(sp, space.line, slot, cap);
      ReplacedNotCopied(sp, space.slots, slot, cap);
      HoldersKept(sp, space.slots, nodes, slot);
      RecappedWithin(sp, space.slots, nodes, slot, cap);
      OnlyOthersSpared(sp, space.slots, slot, cap);
      if cap != sp[slot].cap {
        ZombifiedSound(sp, space.slots, nodes, slot, cap);
      } else {
        assert space.slots == sp;
      }
    }

    /** Counts a zombie down over an empty last slot. */
    method Shrink(slot: Ref)
      requires Valid() && slot in space.slots && space.slots[slot].cap.ZombieCap? && space.slots[slot].cap.number > 0
      requires space.slots[slot].cap.ptr + space.slots[slot].cap.number - 1 in space.slots
      requires space.slots[space.slots[slot].cap.ptr + space.slots[slot].cap.number - 1].cap.NullCap?
      modifies space
      ensures Valid() && Confined(old(space.slots), space.slots, nodes, slot, true)
      ensures slot in space.slots
      ensures space.slots[slot].cap == old(space.slots[slot].cap).(number := old(space.slots[slot].cap).number - 1)
    {
      ghost var sp := space.slots;
      var cap := space.slots[slot].cap;
      var smaller := cap.(number := cap.number - 1);
      space.slots := space.slots[slot := space.slots[slot].(cap := smaller)];
      RecappedInv(sp, space.line, slot, smaller);
      ReplacedNotCopied(sp, space.slots, slot, smaller);
      HoldersKept(sp, space.slots, nodes, slot);
      ShrunkSound(sp, space.slots, nodes, slot);
      RecappedWithin(sp, space.slots, nodes, slot, smaller);
    }

    /** Moves a zombie to the first slot of its own node. */
    method Trade(ptr: Ref, slot: Ref)
      requires Valid() && slot in space.slots && ptr != slot
      requires space.slots[slot].cap.ZombieCap? && space.slots[slot].cap.ptr == ptr && space.slots[slot].cap.number > 0
      modifies space
      ensures Valid() && Confined(old(space.slots), space.slots, nodes, slot, false)
      ensures Active(space.slots) < Active(old(space.slots))
    {
      ghost var sp := space.slots;
      assert SlotOk(sp, nodes, slot);
      assert InNode(nodes, ptr, ptr);
      space.CapSwapForDelete(ptr, slot);
      SwappedTraded(sp, space.slots, ptr, slot);
      TradedSound(sp, space.slots, nodes, ptr, slot);
      TradedReaches(sp, space.slots, nodes, ptr, slot);
      TradedNotCopied(sp, space.slots, ptr, slot);
      assert LeadsTo(sp, nodes, slot, ptr);
      TradedWithin(sp, space.slots, nodes, ptr, slot);
      forall r | r in sp && r != slot ensures Spared(sp, space.slots, r) {
      }
    }

    method Clear(slot: Ref)
      requires Valid() && slot in space.slots && Dispensable(space.slots, slot)
      modifies space
      ensures Valid() && OnlyAt(old(space.slots), space.slots, slot, NullCap)
      ensures Confined(old(space.slots), space.slots, nodes, slot, false)
    {
      ghost var sp := space.slots;
      space.EmptySlot(slot);
      EmptiedOnly(sp, space.slots, slot);
      EmptiedSound(sp, space.slots, nodes, slot);
      EmptiedReaches(sp, space.slots, nodes, slot);
      ReplacedNotCopied(sp, space.slots, slot, NullCap);
      RecappedWithin(sp, space.slots, nodes, slot, NullCap);
      OnlyOthersSpared(sp, space.slots, slot, NullCap);
    }

    /** cteDelete. Exposed, it empties the slot unless preempted; otherwise it never leaves its own slot
        in between, and what it cannot empty it leaves as a zombie of that slot's own node. In any case slots out of
        reach keep their capabilities, and so do all others if the capability is not the last one to a node. */
    method CteDelete(slot: Ref, exposed: bool) returns (status: Status)
      requires Valid() && slot in space.slots
      modifies this, space
      ensures Valid() && Confined(old(space.slots), space.slots, nodes, slot, exposed) && slot in space.slots
      ensures preemptIn <= old(preemptIn) && (status == Preempted <==> preemptIn == 0 < old(preemptIn))
      ensures status == Done ==> space.slots[slot].cap.NullCap? || (!exposed && Cyclic(space.slots[slot].cap, slot))
      ensures OutOfReachKept(old(space.slots), space.slots, nodes, slot)
      ensures NotTheLast(old(space.slots), slot) ==>
              status == Done && OnlyAt(old(space.slots), space.slots, slot, NullCap)
      decreases exposed, 3
    {
      ghost var sp := space.slots;
      var success;
      status, success := FinaliseSlot(slot, exposed);
      if NotTheLast(sp, slot) { NotTheLastDispensable(sp, slot); }
      if status == Done && (exposed || success) {
        ghost var t := space.slots;
        Clear(slot);
        ConfinedTransitive(sp, t, space.slots, nodes, slot, exposed);
      }
      ReachKept(sp, space.slots, nodes, slot);
    }

    /** finaliseSlot */
    method FinaliseSlot(slot: Ref, immediate: bool) returns (status: Status, success: bool)
      requires Valid() && slot in space.slots
      modifies this, space
      ensures Valid() && Confined(old(space.slots), space.slots, nodes, slot, immediate) && slot in space.slots
      ensures preemptIn <= old(preemptIn) && (status == Preempted <==> preemptIn == 0 < old(preemptIn))
      ensures Dispensable(old(space.slots), slot) ==> status == Done && success && space.slots == old(space.slots)
      ensures status == Done && success ==> Dispensable(space.slots, slot)
      ensures status == Done && !success ==> !immediate && Cyclic(space.slots[slot].cap, slot)
      decreases immediate, 2
    {
      ghost var sp := space.slots;
      while !space.slots[slot].cap.NullCap?
        invariant Valid() && slot in space.slots && Confined(sp, space.slots, nodes, slot, immediate)
        invariant Dispensable(sp, slot) ==> space.slots == sp
        invariant preemptIn <= old(preemptIn) && (preemptIn == 0 <==> old(preemptIn) == 0)
        decreases Active(space.slots), Rank(space.slots[slot].cap)
      {
        ghost var t := space.slots;
        var over;
        status, over, success := FinaliseRound(slot, immediate);
        ConfinedTransitive(sp, t, space.slots, nodes, slot, immediate);
        if over {
          return;
        }
      }
      return Done, true;
    }

    /** One round of finaliseSlot; `over` says that it ends there. */
    method FinaliseRound(slot: Ref, immediate: bool) returns (status: Status, over: bool, success: bool)
      requires Valid() && slot in space.slots && !space.slots[slot].cap.NullCap?
      modifies this, space
      ensures Valid() && slot in space.slots && Confined(old(space.slots), space.slots, nodes, slot, immediate)
      ensures preemptIn <= old(preemptIn) && (status == Preempted <==> preemptIn == 0 < old(preemptIn))
      ensures Dispensable(old(space.slots), slot) ==>
              over && status == Done && success && space.slots == old(space.slots)
      ensures !over ==> status == Done && Advances(old(space.slots), space.slots, slot)
      ensures over && status == Done && success ==> Dispensable(space.slots, slot)
      ensures over && status == Done && !success ==> !immediate && Cyclic(space.slots[slot].cap, slot)
      decreases immediate, 1
    {
      ghost var t := space.slots;
      var remainder := Finalise(slot);
      if CapRemovable(remainder, slot) {
        return Done, true, true;
      }
      SetRemainder(slot, remainder);
      ghost var u := space.slots;
      if !immediate && Cyclic(remainder, slot) {
        return Done, true, false;
      }
      status := ReduceZombie(slot, immediate);
      RoundConfined(t, u, space.slots, nodes, slot, immediate, remainder, status == Done);
      if status == Done {
        status := PreemptionPoint();
      }
      over, success := status != Done, false;
    }

    /** reduceZombie */
    method ReduceZombie(slot: Ref, immediate: bool) returns (status: Status)
      requires Valid() && slot in space.slots && space.slots[slot].cap.ZombieCap?
      requires !CapRemovable(space.slots[slot].cap, slot)
      requires !immediate ==> !Cyclic(space.slots[slot].cap, slot)
      modifies this, space
      ensures Valid() && Confined(old(space.slots), space.slots, nodes, slot, immediate) && slot in space.slots
      ensures preemptIn <= old(preemptIn) && (status == Preempted <==> preemptIn == 0 < old(preemptIn))
      ensures status == Done ==> ZombieReduced(old(space.slots), space.slots, slot)
      decreases immediate, 0
    {
      var ptr := space.slots[slot].cap.ptr;
      if immediate {
        status := ReduceEnd(slot);
      } else {
        assert ptr != slot;
        assert !Cyclic(space.slots[ptr].cap, ptr) by {
          assert SlotOk(space.slots, nodes, slot);
          assert InNode(nodes, ptr, ptr);
        }
        Trade(ptr, slot);
        status := Done;
      }
    }

    /** The branch of reduceZombie for an exposed zombie: the last slot of its node is deleted first. */
    method ReduceEnd(slot: Ref) returns (status: Status)
      requires Valid() && slot in space.slots && space.slots[slot].cap.ZombieCap?
      requires !CapRemovable(space.slots[slot].cap, slot)
      modifies this, space
      ensures Valid() && Confined(old(space.slots), space.slots, nodes, slot, true) && slot in space.slots
      ensures preemptIn <= old(preemptIn) && (status == Preempted <==> preemptIn == 0 < old(preemptIn))
      ensures status == Done ==> ZombieReduced(old(space.slots), space.slots, slot)
      decreases true, 0, 0
    {
      ghost var sp := space.slots;
      var zombie := space.slots[slot].cap;
      var endSlot := zombie.ptr + zombie.number - 1;
      assert SlotOk(sp, nodes, slot);
      assert InNode(nodes, zombie.ptr, endSlot);
      assert LeadsTo(sp, nodes, slot, endSlot);
      status := CteDelete(endSlot, false);
      InnerWithin(sp, space.slots, nodes, slot, endSlot);
      if status != Done {
        return;
      }
      EndDeleted(sp, space.slots, nodes, slot);
      CountDown(slot, zombie, sp);
    }

    /** What reduceZombie does once the last slot was deleted: the zombie counts down, unless it has changed, and then
        the asserts there hold. */
    method CountDown(slot: Ref, zombie: Cap, ghost sp: Slots)
      requires Valid() && slot in space.slots && slot in sp && zombie == sp[slot].cap && zombie.ZombieCap?
      requires zombie.number > 0 && Confined(sp, space.slots, nodes, slot, true)
      requires || space.slots[slot].cap.NullCap?
               || (Cyclic(space.slots[slot].cap, slot) && zombie.ptr != slot && Active(space.slots) < Active(sp))
               || (&& space.slots[slot].cap == zombie && zombie.ptr + zombie.number - 1 in space.slots
                   && space.slots[zombie.ptr + zombie.number - 1].cap.NullCap?)
      modifies space
      ensures Valid() && slot in space.slots && Confined(sp, space.slots, nodes, slot, true)
      ensures ZombieReduced(sp, space.slots, slot)
    {
      ghost var t := space.slots;
      if space.slots[slot].cap.ZombieCap? {
        var now := space.slots[slot].cap;
        var ptr2 := now.ptr;
        if zombie.ptr == ptr2 && now.number == zombie.number && now.kind == zombie.kind {
          assert space.slots[zombie.ptr + zombie.number - 1].cap.NullCap?;
          Shrink(slot);
          ConfinedTransitive(sp, t, space.slots, nodes, slot, true);
        } else {
          assert ptr2 == slot && zombie.ptr != slot;
        }
      } else {
        assert space.slots[slot].cap.NullCap?;
      }
    }
  }

  lemma OnlyOthersSpared(sp: Slots, t: Slots, slot: Ref, cap: Cap)
    requires OnlyAt(sp, t, slot, cap)
    ensures OthersSpared(sp, t, slot)
  {
  }

  /** After the last slot of a zombie's node was dealt with, either it is empty and the zombie is in
      place, or the zombie's slot is empty, or it holds a zombie of its own node. */
  lemma EndDeleted(sp: Slots, t: Slots, nodes: Nodes, slot: Ref)
    requires Sound(sp, nodes) && Sound(t, nodes) && slot in sp && sp[slot].cap.ZombieCap?
    requires !CapRemovable(sp[slot].cap, slot) && Reduced(sp, t)
    requires var end := sp[slot].cap.ptr + sp[slot].cap.number - 1;
             end in sp && OthersSpared(sp, t, end) && (t[end].cap.NullCap? || Cyclic(t[end].cap, end))
    ensures t[slot].cap == sp[slot].cap ==> t[sp[slot].cap.ptr + sp[slot].cap.number - 1].cap.NullCap?
    ensures t[slot].cap == sp[slot].cap || t[slot].cap.NullCap?
            || (Cyclic(t[slot].cap, slot) && sp[slot].cap.ptr != slot && Active(t) < Active(sp))
  {
    var z := sp[slot].cap;
    var end := z.ptr + z.number - 1;
    assert SlotOk(sp, nodes, slot) && SlotOk(t, nodes, slot) && SlotOk(t, nodes, end);
    assert InNode(nodes, z.ptr, end);
    assert slot != end ==> Spared(sp, t, slot);
    if Cyclic(t[end].cap, end) {
      assert CapOk(nodes, t[end].cap);
      assert SlotCount(nodes[end]) > 0;
      assert InNode(nodes, end, end);
    }
    if Cyclic(t[slot].cap, slot) && z.ptr != slot {
      assert slot in Active(sp) && slot !in Active(t);
    }
  }

  lemma SwappedTraded(sp: Slots, t: Slots, a: Ref, b: Ref)
    requires a in sp && b in sp && a != b && Swapped(sp, t, a, b, sp[b].cap, sp[a].cap)
    ensures Traded(sp, t, a, b)
  {
    forall r | r in sp ensures t[r].cap == sp[Other(a, b, r)].cap {
      assert SwappedAt(sp, t, a, b, sp[b].cap, sp[a].cap, r);
    }
  }

  lemma EmptiedOnly(sp: Slots, t: Slots, slot: Ref)
    requires slot in sp && SlotLinked(sp, slot) && t == if sp[slot].cap.NullCap? then sp else Removed(sp, slot)
    ensures OnlyAt(sp, t, slot, NullCap)
  {
    forall r | r in sp && r != slot ensures t[r].cap == sp[r].cap {
      RemovedOccupied(sp, slot, r);
    }
  }

  // ---------------------------------------------------------------- zombies as words

  /** The radix by which the slots of a thread count. */
  const TCB_CNODE_RADIX: nat := 4

  /** cap_zombie_cap_get_capZombieBits */
  function ZombieBits(kind: NodeKind): nat {
    match kind
    case CNodeKind(radix) => radix
    case TcbKind => TCB_CNODE_RADIX
  }

  /** The mask of the number within the word: one bit more than the radix, as all slots may be left. */
  function NumberMask(kind: NodeKind): nat {
    Pow2(ZombieBits(kind) + 1) - 1
  }

  /** Zombie_new: pointer and number share a word. */
  function ZombieId(number: nat, kind: NodeKind, ptr: nat): nat {
    Or(AndNot(ptr, NumberMask(kind)), And(number, NumberMask(kind)))
  }

  /** cap_zombie_cap_get_capZombieNumber */
  function ZombieNumber(id: nat, kind: NodeKind): nat {
    And(id, NumberMask(kind))
  }

  /** cap_zombie_cap_get_capZombiePtr */
  function ZombiePtr(id: nat, kind: NodeKind): nat {
    AndNot(id, NumberMask(kind))
  }

  /** cap_zombie_cap_set_capZombieNumber */
  function SetZombieNumber(id: nat, kind: NodeKind, number: nat): nat {
    Or(AndNot(id, NumberMask(kind)), And(number, NumberMask(kind)))
  }

  /** A word packed under a mask gives each part back, where the parts keep to their side of the mask. */
  lemma PackedBit(ptr: nat, number: nat, mask: nat, i: nat)
    ensures Bit(And(Or(AndNot(ptr, mask), And(number, mask)), mask), i) == (Bit(number, i) && Bit(mask, i))
    ensures Bit(AndNot(Or(AndNot(ptr, mask), And(number, mask)), mask), i) == (Bit(ptr, i) && !Bit(mask, i))
  {
    var id := Or(AndNot(ptr, mask), And(number, mask));
    BitOr(AndNot(ptr, mask), And(number, mask), i);
    BitAndNot(ptr, mask, i);
    BitAnd(number, mask, i);
    BitAnd(id, mask, i);
    BitAndNot(id, mask, i);
  }

  /** The parts keep to their side of the mask. */
  ghost predicate SidesKept(ptr: nat, number: nat, mask: nat, i: nat) {
    (Bit(number, i) ==> Bit(mask, i)) && (Bit(ptr, i) ==> !Bit(mask, i))
  }

  lemma Unpacked(ptr: nat, number: nat, mask: nat)
    requires forall i: nat :: SidesKept(ptr, number, mask, i)
    ensures And(Or(AndNot(ptr, mask), And(number, mask)), mask) == number
    ensures AndNot(Or(AndNot(ptr, mask), And(number, mask)), mask) == ptr
  {
    var id := Or(AndNot(ptr, mask), And(number, mask));
    forall i: nat ensures Bit(And(id, mask), i) == Bit(number, i) && Bit(AndNot(id, mask), i) == Bit(ptr, i) {
      PackedBit(ptr, number, mask, i);
      assert SidesKept(ptr, number, mask, i);
    }
    BitsExtensional(And(id, mask), number);
    BitsExtensional(AndNot(id, mask), ptr);
  }

  lemma Repacked(ptr: nat, number: nat, mask: nat)
    ensures AndNot(Or(AndNot(ptr, mask), And(number, mask)), mask) == AndNot(ptr, mask)
  {
    var id := Or(AndNot(ptr, mask), And(number, mask));
    forall i: nat ensures Bit(AndNot(id, mask), i) == Bit(AndNot(ptr, mask), i) {
      PackedBit(ptr, number, mask, i);
      BitAndNot(ptr, mask, i);
    }
    BitsExtensional(AndNot(id, mask), AndNot(ptr, mask));
  }

  lemma AlignedLowBits(ptr: nat, k: nat, i: nat)
    requires Aligned(ptr, k) && i < k
    ensures !Bit(ptr, i)
  {
    AndMask(ptr, k);
    BitAnd(ptr, Pow2(k) - 1, i);
    BitOnes(k, i);
    SmallHasNoBit(0, i);
  }

  /** Number and pointer of a zombie are read back as they were written, for every count of slots that a node
      of its kind can have. */
  lemma ZombieRoundTrip(number: nat, kind: NodeKind, ptr: nat)
    requires number <= Pow2(ZombieBits(kind)) && Aligned(ptr, ZombieBits(kind) + 1)
    ensures ZombieNumber(ZombieId(number, kind, ptr), kind) == number
    ensures ZombiePtr(ZombieId(number, kind, ptr), kind) == ptr
  {
    forall i: nat ensures SidesKept(ptr, number, NumberMask(kind), i) {
      FieldsApart(number, ZombieBits(kind), ptr, i);
    }
    Unpacked(ptr, number, NumberMask(kind));
  }

  lemma FieldsApart(number: nat, k: nat, ptr: nat, i: nat)
    requires number <= Pow2(k) && Aligned(ptr, k + 1)
    ensures SidesKept(ptr, number, Pow2(k + 1) - 1, i)
  {
    BitOnes(k + 1, i);
    if i > k { NoBitAbove(number, k, i); } else { AlignedLowBits(ptr, k + 1, i); }
  }

  lemma NoBitAbove(number: nat, k: nat, i: nat)
    requires number <= Pow2(k) && i > k
    ensures !Bit(number, i)
  {
    Pow2Mono(k, i);
    SmallHasNoBit(number, i);
  }

  /** Counting a zombie down changes its number only. */
  lemma SetNumberExact(number: nat, smaller: nat, kind: NodeKind, ptr: nat)
    ensures SetZombieNumber(ZombieId(number, kind, ptr), kind, smaller) == ZombieId(smaller, kind, ptr)
  {
    Repacked(ptr, number, NumberMask(kind));
  }
}
