/** The CLH queue lock that guards the kernel on multicore builds (kernel/include/smp/lock.h,
    kernel/src/smp/lock.c), as interleaved atomic steps of any number of cores. */
module ClhLock {

  datatype QState = Granted | Pending

  /** Where a core is: each constructor names the store, exchange or load it has just done. */
  datatype Pc =
    | Outside              // not in the lock
    | Marked               // own node set pending, about to exchange
    | Exchanged(prev: nat) // holds the previous head, about to store it as `next`
    | Spinning             // polling the predecessor's node
    | Inside               // past the acquire loop
    | Releasing            // own node granted, not yet exchanged for the predecessor's

  /** A core's entry of `node_owners`, its progress, and the number of its latest exchange. */
  datatype Core = Core(pc: Pc, node: nat, next: nat, ticket: nat) {
    predicate InQueue() {
      pc.Exchanged? || pc.Spinning? || pc.Inside?
    }

    /** The node a queued core waits on. */
    function Pred(): nat {
      if pc.Exchanged? then pc.prev else next
    }

    /** The node a core will next queue with: past the granting store that is already `next`. */
    function Settled(): nat {
      if pc.Releasing? then next else node
    }
  }

  /** The lock with its history: the order in which cores exchanged and entered, how many have
      granted, and the node granted last, which no core owns. */
  datatype System = System(value: seq<QState>, core: seq<Core>, head: nat,
                           exchanged: seq<nat>, entered: seq<nat>, granted: nat, spare: nat)

  ghost predicate Shape(s: System) {
    && |s.value| == |s.core| + 1 && s.head < |s.value| && s.spare < |s.value|
    && forall c :: 0 <= c < |s.core| ==>
         s.core[c].node < |s.value| && s.core[c].next < |s.value| && s.core[c].Pred() < |s.value|
  }

  /** The next atomic step of core `c`; polling a pending predecessor changes nothing. */
  ghost function Step(s: System, c: nat): System
    requires Shape(s) && c < |s.core|
  {
    var k := s.core[c];
    match k.pc
    case Outside =>
      s.(value := s.value[k.node := Pending], core := s.core[c := k.(pc := Marked)])
    case Marked =>
      s.(head := k.node, core := s.core[c := k.(pc := Exchanged(s.head), ticket := |s.exchanged|)],
         exchanged := s.exchanged + [c])
    case Exchanged(prev) =>
      s.(core := s.core[c := k.(next := prev, pc := Spinning)])
    case Spinning =>
      if s.value[k.next] == Granted then
        s.(core := s.core[c := k.(pc := Inside)], entered := s.entered + [c])
      else s
    case Inside =>
      s.(value := s.value[k.node := Granted], core := s.core[c := k.(pc := Releasing)], granted := s.granted + 1,
         spare := k.node)
    case Releasing =>
      s.(core := s.core[c := k.(node := k.next, pc := Outside)])
  }

  /** The core of the `i`-th exchange is in the queue. */
  predicate Queued(s: System, i: nat)
    requires i < |s.exchanged|
  {
    s.exchanged[i] < |s.core| && s.core[s.exchanged[i]].InQueue() && s.core[s.exchanged[i]].ticket == i
  }

  /** The cores that have exchanged but not yet granted are `exchanged[granted..]`. */
  ghost predicate QueueShape(s: System) {
    && Shape(s)
    && s.granted <= |s.exchanged|
    && (forall i :: s.granted <= i < |s.exchanged| ==> Queued(s, i))
    && (forall c :: 0 <= c < |s.core| && s.core[c].InQueue() ==>
          s.granted <= s.core[c].ticket < |s.exchanged| && s.exchanged[s.core[c].ticket] == c)
  }

  /** Each queued core waits on the node of the core before it, the first on the spare; the head is
      the node of the last. */
  ghost predicate Linked(s: System)
    requires QueueShape(s)
  {
    && (forall c :: 0 <= c < |s.core| && s.core[c].InQueue() && s.core[c].ticket == s.granted ==>
          s.core[c].Pred() == s.spare)
    && (forall c, d :: 0 <= c < |s.core| && 0 <= d < |s.core| && Follows(s.core[c], s.core[d]) ==>
          s.core[d].Pred() == s.core[c].node)
    && (s.granted == |s.exchanged| ==> s.head == s.spare)
    && (forall c :: 0 <= c < |s.core| && s.core[c].InQueue() && s.core[c].ticket == |s.exchanged| - 1 ==>
          s.head == s.core[c].node)
  }

  predicate Follows(c: Core, d: Core) {
    c.InQueue() && d.InQueue() && d.ticket == c.ticket + 1
  }

  /** No two cores own one node, and none owns the spare. */
  ghost predicate NodesDistinct(s: System) {
    && (forall c, d :: 0 <= c < d < |s.core| ==> s.core[c].Settled() != s.core[d].Settled())
    && (forall c :: 0 <= c < |s.core| ==> s.core[c].Settled() != s.spare)
  }

  /** The spare is granted, and a core's own node is pending exactly from its mark to its grant. */
  ghost predicate Values(s: System)
    requires Shape(s)
  {
    && s.value[s.spare] == Granted
    && (forall c :: 0 <= c < |s.core| ==>
          (s.value[s.core[c].Settled()] == Pending <==> s.core[c].pc.Marked? || s.core[c].InQueue()))
  }

  /** Only the first of the queue is inside, and entries follow exchanges. */
  ghost predicate Fifo(s: System)
    requires QueueShape(s)
  {
    && (forall c :: 0 <= c < |s.core| && s.core[c].pc.Inside? ==> s.core[c].ticket == s.granted)
    && s.granted <= |s.entered| <= |s.exchanged| && |s.entered| <= s.granted + 1
    && (forall c :: 0 <= c < |s.core| && s.core[c].InQueue() && s.core[c].ticket == s.granted ==>
          (s.core[c].pc.Inside? <==> |s.entered| == s.granted + 1))
    && (forall i :: 0 <= i < |s.entered| ==> s.entered[i] == s.exchanged[i])
  }

  ghost predicate Inv(s: System) {
    QueueShape(s) && Linked(s) && NodesDistinct(s) && Values(s) && Fifo(s)
  }

  /** `s'` differs from `s` in the entry of core `c` and in node values only. */
  ghost predicate OnlyCore(s: System, s': System, c: nat) {
    && c < |s.core| == |s'.core| && s'.exchanged == s.exchanged && s'.granted == s.granted
    && s'.head == s.head && s'.spare == s.spare
    && forall d :: 0 <= d < |s.core| && d != c ==> s'.core[d] == s.core[d]
  }

  lemma {:induction false} QueueKept(s: System, s': System, c: nat)
    requires QueueShape(s) && Linked(s) && Shape(s') && OnlyCore(s, s', c)
    requires s'.core[c].InQueue() == s.core[c].InQueue() && s'.core[c].ticket == s.core[c].ticket
    requires s.core[c].InQueue() ==> s'.core[c].Pred() == s.core[c].Pred() && s'.core[c].node == s.core[c].node
    ensures QueueShape(s') && Linked(s')
  {
    forall i | s'.granted <= i < |s'.exchanged| ensures Queued(s', i) { assert Queued(s, i); }
  }

  /** The owned nodes stay as they were; at most core `c`'s own node changes value. */
  lemma {:induction false} OwnersKept(s: System, s': System, c: nat)
    requires Shape(s) && Shape(s') && NodesDistinct(s) && Values(s) && OnlyCore(s, s', c)
    requires s'.core[c].Settled() == s.core[c].Settled() && |s'.value| == |s.value|
    requires forall n :: 0 <= n < |s.value| && n != s.core[c].Settled() ==> s'.value[n] == s.value[n]
    requires s'.value[s.core[c].Settled()] == Pending <==> s'.core[c].pc.Marked? || s'.core[c].InQueue()
    ensures NodesDistinct(s') && Values(s')
  {
  }

  lemma {:induction false} MarkInv(s: System, c: nat)
    requires Inv(s) && c < |s.core| && s.core[c].pc.Outside?
    ensures Inv(Step(s, c))
  {
    QueueKept(s, Step(s, c), c);
    OwnersKept(s, Step(s, c), c);
  }

  lemma {:induction false} StoreInv(s: System, c: nat)
    requires Inv(s) && c < |s.core| && s.core[c].pc.Exchanged?
    ensures Inv(Step(s, c))
  {
    QueueKept(s, Step(s, c), c);
    OwnersKept(s, Step(s, c), c);
  }

  lemma {:induction false} PollInv(s: System, c: nat)
    requires Inv(s) && c < |s.core| && s.core[c].pc.Spinning?
    ensures Inv(Step(s, c))
  {
    if s.value[s.core[c].next] == Granted {
      QueueKept(s, Step(s, c), c);
      OwnersKept(s, Step(s, c), c);
      PollFifo(s, c, Step(s, c));
    }
  }

  /** The first of the queue enters. */
  lemma {:induction false} PollFifo(s: System, c: nat, s': System)
    requires Inv(s) && c < |s.core| && s.core[c].pc.Spinning? && s.value[s.core[c].next] == Granted
    requires s' == s.(core := s.core[c := s.core[c].(pc := Inside)], entered := s.entered + [c]) && QueueShape(s')
    ensures Fifo(s')
  {
    GrantedIsFirst(s, c);
    assert Queued(s, s.granted);
  }

  lemma {:induction false} RecycleInv(s: System, c: nat)
    requires Inv(s) && c < |s.core| && s.core[c].pc.Releasing?
    ensures Inv(Step(s, c))
  {
    QueueKept(s, Step(s, c), c);
    OwnersKept(s, Step(s, c), c);
  }

  lemma {:induction false} ExchangeQueue(s: System, c: nat)
    requires Inv(s) && c < |s.core| && s.core[c].pc.Marked?
    ensures QueueShape(Step(s, c))
  {
    var s' := Step(s, c);
    forall i | s'.granted <= i < |s'.exchanged| ensures Queued(s', i) {
      if i < |s.exchanged| { assert Queued(s, i); }
    }
  }

  lemma {:induction false} ExchangeLinked(s: System, c: nat)
    requires Inv(s) && c < |s.core| && s.core[c].pc.Marked? && QueueShape(Step(s, c))
    ensures Linked(Step(s, c))
  {
  }

  lemma {:induction false} ExchangeInv(s: System, c: nat)
    requires Inv(s) && c < |s.core| && s.core[c].pc.Marked?
    ensures Inv(Step(s, c))
  {
    ExchangeQueue(s, c);
    ExchangeLinked(s, c);
  }

  /** A polling core that sees its predecessor granted is the first of the queue. */
  lemma {:induction false} GrantedIsFirst(s: System, c: nat)
    requires Inv(s) && c < |s.core| && s.core[c].pc.Spinning?
    requires s.value[s.core[c].next] == Granted
    ensures s.core[c].ticket == s.granted
  {
    var t := s.core[c].ticket;
    assert t == s.granted || Queued(s, t - 1);
  }

  lemma {:induction false} GrantQueue(s: System, c: nat)
    requires Inv(s) && c < |s.core| && s.core[c].pc.Inside?
    ensures QueueShape(Step(s, c))
  {
    var s' := Step(s, c);
    forall i | s'.granted <= i < |s'.exchanged| ensures Queued(s', i) { assert Queued(s, i); }
  }

  lemma {:induction false} GrantLinked(s: System, c: nat)
    requires Inv(s) && c < |s.core| && s.core[c].pc.Inside? && QueueShape(Step(s, c))
    ensures Linked(Step(s, c))
  {
  }

  lemma {:induction false} GrantOwners(s: System, c: nat)
    requires Inv(s) && c < |s.core| && s.core[c].pc.Inside? && Shape(Step(s, c))
    ensures NodesDistinct(Step(s, c)) && Values(Step(s, c))
  {
  }

  lemma {:induction false} GrantInv(s: System, c: nat)
    requires Inv(s) && c < |s.core| && s.core[c].pc.Inside?
    ensures Inv(Step(s, c))
  {
    GrantQueue(s, c);
    GrantLinked(s, c);
    GrantOwners(s, c);
  }

  /** Every atomic step of every core keeps the invariant. */
  lemma {:induction false} StepInv(s: System, c: nat)
    requires Inv(s) && c < |s.core|
    ensures Inv(Step(s, c)) && |Step(s, c).core| == |s.core|
  {
    match s.core[c].pc
    case Outside => MarkInv(s, c);
    case Marked => ExchangeInv(s, c);
    case Exchanged(_) => StoreInv(s, c);
    case Spinning => PollInv(s, c);
    case Inside => GrantInv(s, c);
    case Releasing => RecycleInv(s, c);
  }

  /** An interleaving: the cores in the order in which they take their steps. */
  ghost function Run(s: System, schedule: seq<nat>): (r: System)
    requires Inv(s) && forall i :: 0 <= i < |schedule| ==> schedule[i] < |s.core|
    ensures Inv(r) && |r.core| == |s.core|
    decreases |schedule|
  {
    if schedule == [] then s
    else
      StepInv(s, schedule[0]);
      Run(Step(s, schedule[0]), schedule[1..])
  }

  /** What `clh_lock_init` leaves; the values are zero, that is granted, in the kernel image. */
  ghost predicate Initial(s: System) {
    && Shape(s)
    && (forall c :: 0 <= c < |s.core| ==> s.core[c].node == c && s.core[c].pc == Outside)
    && (forall n :: 0 <= n < |s.value| ==> s.value[n] == Granted)
    && s.head == |s.core| == s.spare
    && s.exchanged == [] && s.entered == [] && s.granted == 0
  }

  /** At most one core is between the end of the acquire loop and the granting store. */
  ghost predicate MutualExclusion(s: System) {
    forall c, d :: 0 <= c < |s.core| && 0 <= d < |s.core| && s.core[c].pc.Inside? && s.core[d].pc.Inside? ==> c == d
  }

  /** Cores that are not in the middle of a release have different nodes, and the node that a core
      delayed in its release will take over is nobody else's either. */
  ghost predicate NoSharedNode(s: System) {
    forall c, d :: 0 <= c < |s.core| && 0 <= d < |s.core| && c != d ==>
      && (!s.core[c].pc.Releasing? && !s.core[d].pc.Releasing? ==> s.core[c].node != s.core[d].node)
      && (s.core[c].pc.Releasing? && !s.core[d].pc.Releasing? ==> s.core[c].next != s.core[d].node)
      && (s.core[c].pc.Releasing? && s.core[d].pc.Releasing? ==> s.core[c].next != s.core[d].next)
  }

  /** `clh_is_self_in_queue`, asked by a core outside the lock or inside it. */
  ghost predicate SelfInQueue(s: System, c: nat)
    requires Shape(s) && c < |s.core|
  {
    s.value[s.core[c].node] == Pending
  }

  /** Safety of the lock in every state of every interleaving: mutual exclusion, entry in exchange
      order, unshared nodes, and a self test that tells holding the lock from being outside it. */
  lemma {:induction false} LockSafety(s: System, schedule: seq<nat>)
    requires Initial(s) && forall i :: 0 <= i < |schedule| ==> schedule[i] < |s.core|
    ensures Inv(s)
    ensures MutualExclusion(Run(s, schedule)) && NoSharedNode(Run(s, schedule))
    ensures Run(s, schedule).entered <= Run(s, schedule).exchanged
    ensures forall c :: 0 <= c < |s.core| && Run(s, schedule).core[c].pc in {Outside, Inside} ==>
              (SelfInQueue(Run(s, schedule), c) <==> Run(s, schedule).core[c].pc == Inside)
  {
    InvSafety(Run(s, schedule));
  }

  lemma {:induction false} InvSafety(s: System)
    requires Inv(s)
    ensures MutualExclusion(s) && NoSharedNode(s) && s.entered <= s.exchanged
    ensures forall c :: 0 <= c < |s.core| && s.core[c].pc in {Outside, Inside} ==>
              (SelfInQueue(s, c) <==> s.core[c].pc == Inside)
  {
    assert s.entered == s.exchanged[..|s.entered|];
  }

  /** Steps a queued core still has to take until it has granted. */
  function Remaining(pc: Pc): nat {
    match pc
    case Exchanged(_) => 3
    case Spinning => 2
    case Inside => 1
    case _ => 0
  }

  /** Steps left for the exchanges numbered `i` up to and including `t`. */
  ghost function Work(s: System, i: nat, t: nat): nat
    requires QueueShape(s) && s.granted <= i && t < |s.exchanged|
    decreases t + 1 - i
  {
    if i > t then 0
    else
      assert Queued(s, i);
      Remaining(s.core[s.exchanged[i]].pc) + Work(s, i + 1, t)
  }

  lemma {:induction false} RemainingNotIncreased(s: System, d: nat, i: nat)
    requires Inv(s) && d < |s.core| && i < |s.exchanged| && Queued(s, i)
    ensures Step(s, d).exchanged[i] == s.exchanged[i] < |Step(s, d).core|
    ensures Remaining(Step(s, d).core[s.exchanged[i]].pc) <= Remaining(s.core[s.exchanged[i]].pc)
  {
  }

  /** No step of any core adds to the work of exchanges already made. */
  lemma {:induction false} WorkNotIncreased(s: System, d: nat, i: nat, t: nat)
    requires Inv(s) && d < |s.core| && t < |s.exchanged|
    requires Inv(Step(s, d)) && s.granted <= i && Step(s, d).granted <= i
    ensures Work(Step(s, d), i, t) <= Work(s, i, t)
  {
    forall j | i <= j <= t
      ensures Queued(s, j) && Step(s, d).exchanged[j] == s.exchanged[j] < |Step(s, d).core|
      ensures Remaining(Step(s, d).core[s.exchanged[j]].pc) <= Remaining(s.core[s.exchanged[j]].pc)
    {
      assert Queued(s, j);
      RemainingNotIncreased(s, d, j);
    }
    LessWork(s, Step(s, d), i, t);
  }

  /** Less remains of each exchange, so less of all. */
  lemma {:induction false} LessWork(s: System, s': System, i: nat, t: nat)
    requires QueueShape(s) && QueueShape(s') && s.granted <= i && s'.granted <= i
    requires t < |s.exchanged| && t < |s'.exchanged|
    requires forall j :: i <= j <= t ==> Queued(s, j) && s'.exchanged[j] == s.exchanged[j] < |s'.core|
    requires forall j :: i <= j <= t ==> Remaining(s'.core[s.exchanged[j]].pc) <= Remaining(s.core[s.exchanged[j]].pc)
    ensures Work(s', i, t) <= Work(s, i, t)
    decreases t + 1 - i
  {
    if i <= t { LessWork(s, s', i + 1, t); }
  }

  /** Whenever the queue is not empty its first core has an enabled step, which is not a repeated
      poll, and that step brings every queued exchange nearer its grant. */
  lemma {:induction false} FirstProgresses(s: System, t: nat)
    requires Inv(s) && s.granted <= t < |s.exchanged|
    ensures Queued(s, s.granted) && Step(s, s.exchanged[s.granted]) != s
    ensures Inv(Step(s, s.exchanged[s.granted]))
    ensures Work(Step(s, s.exchanged[s.granted]), Step(s, s.exchanged[s.granted]).granted, t) < Work(s, s.granted, t)
  {
    assert Queued(s, s.granted);
    var f := s.exchanged[s.granted];
    var s' := Step(s, f);
    StepInv(s, f);
    assert s'.core[f].pc != s.core[f].pc;
    WorkNotIncreased(s, f, s.granted + 1, t);
    if !s.core[f].pc.Inside? { assert Queued(s', s.granted); }
  }

  /** How many steps of a schedule are taken by the core that is then first in the queue. */
  ghost function FirstSteps(s: System, schedule: seq<nat>): nat
    requires Inv(s) && forall i :: 0 <= i < |schedule| ==> schedule[i] < |s.core|
    decreases |schedule|
  {
    if schedule == [] then 0
    else
      StepInv(s, schedule[0]);
      (if s.granted < |s.exchanged| && s.exchanged[s.granted] == schedule[0] then 1 else 0)
      + FirstSteps(Step(s, schedule[0]), schedule[1..])
  }

  lemma {:induction false} GrantsAccumulate(s: System, schedule: seq<nat>)
    requires Inv(s) && forall i :: 0 <= i < |schedule| ==> schedule[i] < |s.core|
    ensures Run(s, schedule).granted >= s.granted
    decreases |schedule|
  {
    if schedule != [] {
      StepInv(s, schedule[0]);
      GrantsAccumulate(Step(s, schedule[0]), schedule[1..]);
    }
  }

  /** One step of any core, seen from the exchange numbered `t`. */
  lemma {:induction false} WorkAfterStep(s: System, d: nat, t: nat)
    requires Inv(s) && d < |s.core| && s.granted <= t < |s.exchanged|
    ensures Inv(Step(s, d)) && Work(s, s.granted, t) >= 1
    ensures Step(s, d).granted <= t ==>
              Work(Step(s, d), Step(s, d).granted, t) + (if s.exchanged[s.granted] == d then 1 else 0)
              <= Work(s, s.granted, t)
  {
    StepInv(s, d);
    FirstProgresses(s, t);
    if s.exchanged[s.granted] != d {
      WorkNotIncreased(s, d, s.granted, t);
    }
  }

  /** No starvation: whatever the other cores do, the exchange numbered `t` has entered and granted
      once the first of the queue has been scheduled as often as the work ahead of it asks. */
  lemma {:induction false} NoStarvation(s: System, schedule: seq<nat>, t: nat)
    requires Inv(s) && forall i :: 0 <= i < |schedule| ==> schedule[i] < |s.core|
    requires s.granted <= t < |s.exchanged|
    requires FirstSteps(s, schedule) >= Work(s, s.granted, t)
    ensures Run(s, schedule).granted > t
    decreases |schedule|
  {
    assert Queued(s, s.granted);
    if schedule != [] {
      var d := schedule[0];
      StepInv(s, d);
      WorkAfterStep(s, d, t);
      if Step(s, d).granted > t {
        GrantsAccumulate(Step(s, d), schedule[1..]);
      } else {
        NoStarvation(Step(s, d), schedule[1..], t);
      }
    }
  }

  /** How many steps of its own a core is from its next exchange. */
  function ToExchange(pc: Pc): nat {
    match pc
    case Marked => 1
    case Outside => 2
    case Releasing => 3
    case Inside => 4
    case Spinning => 5
    case Exchanged(_) => 6
  }

  /** The next step of core `c` is a poll that sees a pending node. */
  predicate Polls(s: System, c: nat) {
    c < |s.core| && s.core[c].pc.Spinning? && s.core[c].next < |s.value| && s.value[s.core[c].next] == Pending
  }

  /** How many steps of a schedule core `c` takes, other than polls that see a pending node. */
  ghost function OwnSteps(s: System, schedule: seq<nat>, c: nat): nat
    requires Inv(s) && forall i :: 0 <= i < |schedule| ==> schedule[i] < |s.core|
    decreases |schedule|
  {
    if schedule == [] then 0
    else
      StepInv(s, schedule[0]);
      (if schedule[0] == c && !Polls(s, c) then 1 else 0) + OwnSteps(Step(s, schedule[0]), schedule[1..], c)
  }

  /** One step, seen from core `c`. */
  lemma {:induction false} StepTowards(s: System, d: nat, c: nat)
    requires Shape(s) && d < |s.core| && c < |s.core|
    ensures s.exchanged <= Step(s, d).exchanged && |Step(s, d).core| == |s.core|
    ensures d != c ==> Step(s, d).core[c] == s.core[c]
    ensures d == c && !Polls(s, c) && !s.core[c].pc.Marked? ==>
              ToExchange(Step(s, c).core[c].pc) == ToExchange(s.core[c].pc) - 1
    ensures d == c && s.core[c].pc.Marked? ==> Step(s, c).exchanged == s.exchanged + [c]
    ensures d == c && Polls(s, c) ==> Step(s, c) == s
  {
  }

  /** Exchanges are never undone. */
  lemma {:induction false} ExchangesAccumulate(s: System, schedule: seq<nat>)
    requires Inv(s) && forall i :: 0 <= i < |schedule| ==> schedule[i] < |s.core|
    ensures s.exchanged <= Run(s, schedule).exchanged
    decreases |schedule|
  {
    if schedule != [] {
      StepInv(s, schedule[0]);
      StepTowards(s, schedule[0], schedule[0]);
      ExchangesAccumulate(Step(s, schedule[0]), schedule[1..]);
    }
  }

  /** A core that takes so many steps, wherever it is and whatever the others do, joins the queue. */
  lemma {:induction false} JoinsQueue(s: System, schedule: seq<nat>, c: nat) returns (t: nat)
    requires Inv(s) && (forall i :: 0 <= i < |schedule| ==> schedule[i] < |s.core|) && c < |s.core|
    requires OwnSteps(s, schedule, c) >= ToExchange(s.core[c].pc)
    ensures |s.exchanged| <= t < |Run(s, schedule).exchanged| && Run(s, schedule).exchanged[t] == c
    decreases |schedule|
  {
    var d := schedule[0];
    StepInv(s, d);
    StepTowards(s, d, c);
    if d == c && s.core[c].pc.Marked? {
      t := |s.exchanged|;
      ExchangesAccumulate(Step(s, d), schedule[1..]);
    } else {
      t := JoinsQueue(Step(s, d), schedule[1..], c);
    }
  }

  /** The lock itself: `big_kernel_lock`, its fixed arrays and each core's progress. */
  class BigKernelLock {
    const value: array<QState>
    const node: array<nat>
    const next: array<nat>
    const pc: array<Pc>
    var head: nat
    ghost var ticket: seq<nat>
    ghost var exchanged: seq<nat>
    ghost var entered: seq<nat>
    ghost var granted: nat
    ghost var spare: nat

    ghost predicate Sized()
      reads this
    {
      && value.Length == node.Length + 1 && next.Length == node.Length && pc.Length == node.Length
      && |ticket| == node.Length && node != next
    }

    ghost function Snapshot(): System
      requires Sized()
      reads this, value, node, next, pc
    {
      System(value[..], seq(node.Length, c requires Sized() && 0 <= c < node.Length reads this, node, next, pc
                              => Core(pc[c], node[c], next[c], ticket[c])),
             head, exchanged, entered, granted, spare)
    }

    /** `clh_lock_init` on a zeroed image. */
    constructor (cores: nat)
      ensures Sized() && node.Length == cores && Initial(Snapshot())
      ensures fresh(value) && fresh(node) && fresh(next) && fresh(pc)
    {
      value := new QState[cores + 1](_ => Granted);
      node := new nat[cores](_ => 0);
      next := new nat[cores](_ => 0);
      pc := new Pc[cores](_ => Outside);
      ticket := seq(cores, _ => 0);
      exchanged, entered, granted, spare := [], [], 0, cores;
      head := 0;
      new;
      for i := 0 to cores
        invariant Sized() && node.Length == cores && fresh(node)
        invariant forall j :: 0 <= j < i ==> node[j] == j
        invariant forall j :: 0 <= j < cores ==> pc[j] == Outside && next[j] == 0
        invariant forall j :: 0 <= j <= cores ==> value[j] == Granted
        invariant exchanged == [] && entered == [] && granted == 0 && spare == cores
      {
        node[i] := i;
      }
      value[cores] := Granted;
      head := cores;
    }

    /** The next atomic step of core `cpu`, in `clh_lock_acquire` or `clh_lock_release`. */
    method StepCore(cpu: nat)
      requires Sized() && cpu < node.Length && Shape(Snapshot())
      modifies this, value, node, next, pc
      ensures Sized() && Snapshot() == Step(old(Snapshot()), cpu)
    {
      ghost var s := Snapshot();
      assert s.core[cpu] == Core(pc[cpu], node[cpu], next[cpu], ticket[cpu]);
      match pc[cpu]
      case Outside =>
        value[node[cpu]] := Pending;
        pc[cpu] := Marked;
      case Marked =>
        var prev := head;
        head := node[cpu];
        pc[cpu] := Exchanged(prev);
        ticket := ticket[cpu := |exchanged|];
        exchanged := exchanged + [cpu];
      case Exchanged(prev) =>
        next[cpu] := prev;
        pc[cpu] := Spinning;
      case Spinning =>
        if value[next[cpu]] == Granted {
          pc[cpu] := Inside;
          entered := entered + [cpu];
        }
      case Inside =>
        value[node[cpu]] := Granted;
        spare, granted := node[cpu], granted + 1;
        pc[cpu] := Releasing;
      case Releasing =>
        node[cpu] := next[cpu];
        pc[cpu] := Outside;
    }
  }
}
