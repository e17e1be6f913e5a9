/** The fast path of a call over an endpoint against the slow path (kernel/src/fastpath/fastpath.c,
    kernel/src/object/endpoint.c, kernel/src/object/reply.c, kernel/src/object/schedcontext.c,
    kernel/src/kernel/thread.c). The reply objects are those of CallStacks; of the ready queues only the
    contents are kept, which the bitmap and the links of ReadyQueues represent. */
module Fastpath {
  import CS = CallStacks
  import EQ = EndpointQueue
  import RQ = ReadyQueues
  import opened TcbQueues

  /** What does not change during a call: priority and domain of the threads, the number of priorities, the
      scheduling contexts with a refill, the threads in the release queue, and the idle thread. */
  datatype Fixed = Fixed(level: map<Ref, RQ.Level>, prios: nat, active: set<Ref>, released: set<Ref>, idle: Ref,
                         curDomain: nat)

  datatype Kernel = Kernel(st: CS.State, links: LinkMap, eps: map<Ref, EQ.Endpoint>, ready: RQ.Contents, cur: Ref,
                           action: RQ.Action)

  // ---------------------------------------------------------------- the scheduler

  predicate Runnable(t: CS.Tcb) {
    t.run == CS.Running || t.run == CS.Restart
  }

  /** isSchedulable */
  predicate IsSchedulable(f: Fixed, k: Kernel, t: Ref) {
    t in k.st.tcbs && Runnable(k.st.tcbs[t]) && k.st.tcbs[t].sc != 0 && k.st.tcbs[t].sc in f.active && t !in f.released
  }

  predicate Queued(f: Fixed, k: Kernel, t: Ref) {
    t in f.level && f.level[t] in k.ready && t in k.ready[f.level[t]]
  }

  /** tcbSchedEnqueue */
  function Enqueue(f: Fixed, k: Kernel, t: Ref): (r: Kernel)
    requires t in f.level && f.level[t] in k.ready
    ensures r.ready.Keys == k.ready.Keys && r == k.(ready := r.ready) && t in r.ready[f.level[t]]
  {
    if Queued(f, k, t) then k else k.(ready := k.ready[f.level[t] := [t] + k.ready[f.level[t]]])
  }

  /** tcbSchedDequeue */
  function Dequeue(f: Fixed, k: Kernel, t: Ref): Kernel {
    if Queued(f, k, t) then k.(ready := k.ready[f.level[t] := Without(k.ready[f.level[t]], t)]) else k
  }

  /** Every thread has a queue. */
  predicate Placed(f: Fixed, k: Kernel) {
    && (forall t :: t in k.st.tcbs ==> t in f.level && f.level[t] in k.ready)
    && (k.action.SwitchTo? ==> k.action.thread in k.st.tcbs)
  }

  /** rescheduleRequired */
  function RescheduleRequired(f: Fixed, k: Kernel): (r: Kernel)
    requires Placed(f, k)
    ensures Placed(f, r) && r == k.(ready := r.ready, action := RQ.ChooseNew)
  {
    (if k.action.SwitchTo? && IsSchedulable(f, k, k.action.thread) then Enqueue(f, k, k.action.thread)
     else k).(action := RQ.ChooseNew)
  }

  /** scheduleTCB */
  function ScheduleTcb(f: Fixed, k: Kernel, t: Ref): (r: Kernel)
    requires Placed(f, k)
    ensures Placed(f, r) && r == k.(ready := r.ready, action := r.action)
  {
    if t == k.cur && k.action == RQ.Resume && !IsSchedulable(f, k, t) then RescheduleRequired(f, k) else k
  }

  /** setThreadState */
  function SetThreadState(f: Fixed, k: Kernel, t: Ref, run: CS.Run): (r: Kernel)
    requires Placed(f, k) && t in k.st.tcbs
    ensures Placed(f, r) && r.st.tcbs.Keys == k.st.tcbs.Keys && r.cur == k.cur
  {
    ScheduleTcb(f, k.(st := k.st.(tcbs := k.st.tcbs[t := k.st.tcbs[t].(run := run)])), t)
  }

  /** possibleSwitchTo */
  function PossibleSwitchTo(f: Fixed, k: Kernel, t: Ref): (r: Kernel)
    requires Placed(f, k) && t in k.st.tcbs
    ensures Placed(f, r) && r == k.(ready := r.ready, action := r.action)
  {
    if k.st.tcbs[t].sc != 0 && t !in f.released then
      if f.curDomain != f.level[t].dom then Enqueue(f, k, t)
      else if k.action != RQ.Resume then
        Enqueue(f, RescheduleRequired(f, k), t)
      else k.(action := RQ.SwitchTo(t))
    else k
  }

  /** switchToThread */
  function SwitchToThread(f: Fixed, k: Kernel, t: Ref): Kernel {
    Dequeue(f, k, t).(cur := t)
  }

  /** chooseThread */
  function ChooseThread(f: Fixed, k: Kernel): Kernel {
    var p := RQ.Scan(k.ready, f.curDomain, f.prios);
    RQ.ScanIsMax(k.ready, f.curDomain, f.prios);
    if p >= 0 then SwitchToThread(f, k, k.ready[RQ.Level(f.curDomain, p)][0]) else k.(cur := f.idle)
  }

  /** schedule, with time left in the domain and nobody to be released */
  function Schedule(f: Fixed, k: Kernel): Kernel
    requires Placed(f, k) && k.cur in k.st.tcbs
  {
    var after :=
      if k.action == RQ.Resume then k
      else
        var wasRunnable := IsSchedulable(f, k, k.cur);
        var k1 := if wasRunnable then Enqueue(f, k, k.cur) else k;
        if k.action == RQ.ChooseNew then ChooseThread(f, k1) else Candidate(f, k1, k.action.thread, wasRunnable);
    after.(action := RQ.Resume)
  }

  /** The candidate of possibleSwitchTo is switched to, or has to queue. */
  function Candidate(f: Fixed, k: Kernel, t: Ref, wasRunnable: bool): Kernel
    requires t in f.level && f.level[t] in k.ready && k.cur in f.level
  {
    var fastfail := k.cur == f.idle || f.level[t].prio < f.level[k.cur].prio;
    if fastfail && f.level[t].prio < RQ.Scan(k.ready, f.curDomain, f.prios) then ChooseThread(f, Enqueue(f, k, t))
    else if wasRunnable && f.level[t].prio == f.level[k.cur].prio then ChooseThread(f, Append(f, k, t))
    else SwitchToThread(f, k, t)
  }

  /** tcbSchedAppend */
  function Append(f: Fixed, k: Kernel, t: Ref): Kernel
    requires t in f.level && f.level[t] in k.ready
  {
    if Queued(f, k, t) then k else k.(ready := k.ready[f.level[t] := k.ready[f.level[t]] + [t]])
  }

  // ---------------------------------------------------------------- the slow path

  /** reply_unlink */
  function ReplyUnlink(f: Fixed, k: Kernel, r: Ref, t: Ref): (after: Kernel)
    requires Placed(f, k) && r in k.st.replies && t in k.st.tcbs
    ensures Placed(f, after) && after.st == CS.Unlink(k.st, r, t)
    ensures after == k.(st := after.st,
                        action := if t == k.cur && k.action == RQ.Resume then RQ.ChooseNew else k.action)
  {
    ScheduleTcb(f, k.(st := CS.Unlink(k.st, r, t)), t)
  }

  /** The thread that loses its scheduling context is taken off the ready queue. */
  function TakeContext(f: Fixed, k: Kernel, from: Ref): (r: Kernel)
    requires Placed(f, k) && from in k.st.tcbs
    ensures Placed(f, r) && r.cur == k.cur
  {
    var off := Dequeue(f, k, from);
    var bare := off.(st := off.st.(tcbs := off.st.tcbs[from := off.st.tcbs[from].(sc := 0)]));
    if from == k.cur || k.action == RQ.SwitchTo(from) then RescheduleRequired(f, bare) else bare
  }

  /** schedContext_donate */
  function SchedContextDonate(f: Fixed, k: Kernel, s: Ref, to: Ref): (r: Kernel)
    requires Placed(f, k) && s in k.st.scs && to in k.st.tcbs && (k.st.scs[s].tcb == 0 || k.st.scs[s].tcb in k.st.tcbs)
    ensures Placed(f, r) && r.st == CS.Donate(k.st, s, to) && r.cur == k.cur
  {
    var from := k.st.scs[s].tcb;
    (if from == 0 then k else TakeContext(f, k, from)).(st := CS.Donate(k.st, s, to))
  }

  /** The scheduling context of the caller is linked as it should be. */
  predicate ContextLinked(st: CS.State, caller: Ref)
    requires caller in st.tcbs
  {
    var s := st.tcbs[caller].sc;
    s != 0 ==>
      s in st.scs && (st.scs[s].reply == 0 || st.scs[s].reply in st.replies)
        && (st.scs[s].tcb == 0 || st.scs[s].tcb in st.tcbs)
  }

  /** reply_push */
  function ReplyPush(f: Fixed, k: Kernel, caller: Ref, callee: Ref, r: Ref, canDonate: bool): (after: Kernel)
    requires Placed(f, k) && caller in k.st.tcbs && callee in k.st.tcbs && r in k.st.replies
    requires ContextLinked(k.st, caller)
    ensures Placed(f, after) && after.st == CS.Push(k.st, caller, callee, r, canDonate) && after.cur == k.cur
  {
    var s := k.st.tcbs[caller].sc;
    var k1 := ScheduleTcb(f, k.(st := CS.Await(k.st, caller, callee, r)), caller);
    if CS.Donates(k.st, caller, callee, canDonate)
    then SchedContextDonate(f, k1.(st := CS.Stack(k1.st, s, r)), s, callee)
    else k1
  }

  /** The receiver at the head of the queue leaves the endpoint. */
  function TakeReceiver(k: Kernel, e: Ref): Kernel
    requires e in k.eps && k.eps[e].queue.head in k.links
    requires var l := k.links[k.eps[e].queue.head];
             (l.prev == 0 || l.prev in k.links) && (l.next == 0 || l.next in k.links)
  {
    var dest := k.eps[e].queue.head;
    var queue := RemoveEnds(k.eps[e].queue, k.links[dest]);
    k.(links := RemoveLinks(k.links, dest),
       eps := k.eps[e := EQ.Endpoint(if queue.head == 0 then EQ.Idle else k.eps[e].state, queue)])
  }

  /** A thread waits to receive on `e`, and everything is linked as it should be. */
  ghost predicate ReceiverWaits(k: Kernel, e: Ref) {
    && e in k.eps && k.eps[e].state == EQ.Recv
    && (exists s :: s != [] && Holds(k.links, k.eps[e].queue, s))
    && var dest := k.eps[e].queue.head;
       dest in k.st.tcbs && k.st.tcbs[dest].run == CS.BlockedOnReceive
  }

  /** Every queued thread is in the queue of its own level. */
  ghost predicate InPlace(f: Fixed, ready: RQ.Contents) {
    forall l, i :: l in ready && 0 <= i < |ready[l]| ==> ready[l][i] in f.level && f.level[ready[l][i]] == l
  }

  /** The situation at the start of a call: the current thread runs on its own scheduling context, and the
      scheduler has nothing to do. */
  ghost predicate Calling(f: Fixed, k: Kernel) {
    && CS.Linked(k.st) && Placed(f, k) && k.action == RQ.Resume && k.cur in k.st.tcbs
    && (forall t :: Queued(f, k, t) || t in f.released ==> t in k.st.tcbs && k.st.tcbs[t].sc != 0 && t != k.cur)
    && k.st.tcbs[k.cur].run == CS.Running && k.st.tcbs[k.cur].sc != 0 && k.st.tcbs[k.cur].sc in f.active
    && f.level[k.cur].dom == f.curDomain && f.level[k.cur].prio < f.prios && InPlace(f, k.ready)
  }

  /** The head of the queue can be taken. */
  lemma ReceiverReady(k: Kernel, e: Ref)
    requires ReceiverWaits(k, e)
    ensures var dest := k.eps[e].queue.head;
            && dest != 0 && dest in k.links && k.links[dest].prev == 0
            && (k.links[dest].next == 0 || k.links[dest].next in k.links)
            && (k.links[dest].next != 0 ==> k.links[dest].next != dest && k.links[k.links[dest].next].prev == dest)
            && (k.links[dest].next == 0 ==> k.eps[e].queue.end == dest)
  {
    var s :| s != [] && Holds(k.links, k.eps[e].queue, s);
    Neighbours(k.links, k.eps[e].queue, s, 0);
    Neighbours(k.links, k.eps[e].queue, s, 1);
  }

  /** The part of sendIPC after the receiver left the queue. */
  function HandOver(f: Fixed, k: Kernel, dest: Ref, canGrant: bool): (r: Kernel)
    requires Placed(f, k) && dest in k.st.tcbs && k.cur in k.st.tcbs && ContextLinked(k.st, k.cur)
    requires k.st.tcbs[dest].reply == 0 || k.st.tcbs[dest].reply in k.st.replies
    ensures Placed(f, r) && r.cur == k.cur && r.st.tcbs.Keys == k.st.tcbs.Keys
  {
    var reply := k.st.tcbs[dest].reply;
    var k1 := if reply != 0 then ReplyUnlink(f, k, reply, dest) else k;
    if reply != 0 && canGrant then ReplyPush(f, k1, k.cur, dest, reply, true)
    else SetThreadState(f, k1, k.cur, CS.Inactive)
  }

  /** The slow path of a call when a receiver waits: the invocation sets the thread to restart, sendIPC hands
      over, and the scheduler decides. */
  ghost function SlowCall(f: Fixed, k: Kernel, e: Ref, canGrant: bool): Kernel
    requires Calling(f, k) && ReceiverWaits(k, e)
  {
    SlowReady(f, k, e);
    var dest := k.eps[e].queue.head;
    var k1 := TakeReceiver(SetThreadState(f, k, k.cur, CS.Restart), e);
    var k2 := SetThreadState(f, HandOver(f, k1, dest, canGrant), dest, CS.Running);
    Schedule(f, PossibleSwitchTo(f, k2, dest))
  }

  lemma SlowReady(f: Fixed, k: Kernel, e: Ref)
    requires Calling(f, k) && ReceiverWaits(k, e)
    ensures k.eps[e].queue.head in k.links
    ensures var l := k.links[k.eps[e].queue.head];
            (l.prev == 0 || l.prev in k.links) && (l.next == 0 || l.next in k.links)
    ensures SetThreadState(f, k, k.cur, CS.Restart)
            == k.(st := k.st.(tcbs := k.st.tcbs[k.cur := k.st.tcbs[k.cur].(run := CS.Restart)]))
    ensures var dest := k.eps[e].queue.head;
            && dest != k.cur && ContextLinked(k.st, k.cur)
            && (k.st.tcbs[dest].reply == 0 || k.st.tcbs[dest].reply in k.st.replies)
  {
    ReceiverReady(k, e);
    assert CS.TcbOk(k.st, k.eps[e].queue.head) && CS.TcbOk(k.st, k.cur);
    assert CS.ScOk(k.st, k.st.tcbs[k.cur].sc);
  }

  // ---------------------------------------------------------------- the fast path

  /** The checks of fastpath_call before the point of no return. */
  predicate Checks(f: Fixed, k: Kernel, e: Ref, canGrant: bool)
    requires Placed(f, k) && k.cur in k.st.tcbs && e in k.eps
  {
    var dest := k.eps[e].queue.head;
    && k.eps[e].state == EQ.Recv && dest in k.st.tcbs
    && !(f.level[dest].prio < f.level[k.cur].prio && f.level[dest].prio < RQ.Scan(k.ready, f.curDomain, f.prios))
    && canGrant && f.level[dest].dom == f.curDomain && k.st.tcbs[dest].sc == 0 && k.st.tcbs[dest].reply != 0
  }

  /** The reply objects, bindings and thread states after the fast path. */
  function Committed(st: CS.State, cur: Ref, dest: Ref): CS.State
    requires cur in st.tcbs && dest in st.tcbs && st.tcbs[dest].reply in st.replies && st.tcbs[cur].sc in st.scs
    requires st.scs[st.tcbs[cur].sc].reply == 0 || st.scs[st.tcbs[cur].sc].reply in st.replies
  {
    var r, s := st.tcbs[dest].reply, st.tcbs[cur].sc;
    var below := st.scs[s].reply;
    var replies := if below == 0 then st.replies
                   else st.replies[below := st.replies[below].(next := CS.Link(r, false))];
    CS.State(st.tcbs[cur := CS.Tcb(0, CS.BlockedOnReply, r)][dest := CS.Tcb(s, CS.Running, 0)],
             replies[r := CS.Reply(cur, below, CS.Link(s, true))],
             st.scs[s := CS.SchedContext(dest, r)])
  }

  /** The part of a call that concerns reply objects, on both paths. */
  lemma SameObjects(st: CS.State, cur: Ref, dest: Ref)
    requires CS.Linked(st) && cur in st.tcbs && dest in st.tcbs && cur != dest
    requires st.tcbs[dest].run == CS.BlockedOnReceive && st.tcbs[dest].reply != 0 && st.tcbs[dest].sc == 0
    requires st.tcbs[cur].sc != 0
    ensures st.tcbs[dest].reply in st.replies && st.tcbs[cur].sc in st.scs && ContextLinked(st, cur)
    ensures var st1 := st.(tcbs := st.tcbs[cur := st.tcbs[cur].(run := CS.Restart)]);
            var st2 := CS.Unlink(st1, st.tcbs[dest].reply, dest);
            && ContextLinked(st2, cur)
            && var st3 := CS.Push(st2, cur, dest, st.tcbs[dest].reply, true);
               dest in st3.tcbs
                 && st3.(tcbs := st3.tcbs[dest := st3.tcbs[dest].(run := CS.Running)]) == Committed(st, cur, dest)
  {
    var r, s := st.tcbs[dest].reply, st.tcbs[cur].sc;
    assert CS.TcbOk(st, dest) && CS.TcbOk(st, cur);
    assert CS.ReplyOk(st, r) && CS.ScOk(st, s);
    var below := st.scs[s].reply;
    assert below != 0 ==> below != r;
    var st2 := CS.Unlink(st.(tcbs := st.tcbs[cur := st.tcbs[cur].(run := CS.Restart)]), r, dest);
    var st3 := CS.Push(st2, cur, dest, r, true);
    var st4 := st3.(tcbs := st3.tcbs[dest := st3.tcbs[dest].(run := CS.Running)]);
    assert st4.tcbs == Committed(st, cur, dest).tcbs;
    assert st4.replies == Committed(st, cur, dest).replies;
    assert st4.scs == Committed(st, cur, dest).scs;
  }

  /** While the caller hands over, the scheduler only notes that it has to choose. */
  lemma HandOverSchedules(f: Fixed, k: Kernel, k1: Kernel, dest: Ref)
    requires Calling(f, k) && dest in k.st.tcbs && dest != k.cur && k.st.tcbs[dest].sc == 0
    requires k1 == k.(st := k1.st, links := k1.links, eps := k1.eps)
    requires k1.st == k.st.(tcbs := k.st.tcbs[k.cur := k.st.tcbs[k.cur].(run := CS.Restart)])
    requires k.st.tcbs[dest].reply != 0 && k.st.tcbs[dest].reply in k.st.replies && ContextLinked(k.st, k.cur)
    ensures var k2 := HandOver(f, k1, dest, true);
            && k2 == k1.(st := k2.st, action := RQ.ChooseNew)
            && ContextLinked(CS.Unlink(k1.st, k.st.tcbs[dest].reply, dest), k.cur)
            && k2.st == CS.Push(CS.Unlink(k1.st, k.st.tcbs[dest].reply, dest), k.cur, dest, k.st.tcbs[dest].reply, true)
  {
    var r, s := k.st.tcbs[dest].reply, k.st.tcbs[k.cur].sc;
    assert CS.TcbOk(k.st, k.cur);
    var u := ReplyUnlink(f, k1, r, dest);
    assert u == k1.(st := CS.Unlink(k1.st, r, dest));
    assert !Queued(f, u, k.cur);
    var a := ScheduleTcb(f, u.(st := CS.Await(u.st, k.cur, dest, r)), k.cur);
    assert a == u.(st := a.st, action := RQ.ChooseNew);
    var b := a.(st := CS.Stack(a.st, s, r));
    assert b.st.scs[s].tcb == k.cur;
    assert TakeContext(f, b, k.cur) == b.(st := TakeContext(f, b, k.cur).st);
  }

  /** The woken receiver is queued, chosen and taken off again. */
  lemma ChoosesDest(f: Fixed, k: Kernel, dest: Ref)
    requires Placed(f, k) && k.action == RQ.ChooseNew && k.cur in k.st.tcbs && dest in k.st.tcbs
    requires !Runnable(k.st.tcbs[k.cur])
    requires k.st.tcbs[dest].sc != 0 && dest !in f.released && !Queued(f, k, dest)
    requires f.level[dest].dom == f.curDomain && f.level[dest].prio < f.prios
    requires RQ.Scan(k.ready, f.curDomain, f.prios) <= f.level[dest].prio
    ensures Schedule(f, PossibleSwitchTo(f, k, dest)) == k.(cur := dest, action := RQ.Resume)
  {
    var l := f.level[dest];
    var q := PossibleSwitchTo(f, k, dest);
    assert q == k.(ready := k.ready[l := [dest] + k.ready[l]]);
    RQ.ScanMore(k.ready, l, [dest] + k.ready[l], f.curDomain, f.prios);
    assert l == RQ.Level(f.curDomain, l.prio);
    assert Without([dest] + k.ready[l], dest) == k.ready[l];
    assert q.ready[l := k.ready[l]] == k.ready;
  }

  /** If another thread is more urgent, that one is chosen. */
  lemma ChoosesOther(f: Fixed, k: Kernel, dest: Ref)
    requires Placed(f, k) && k.action == RQ.ChooseNew && k.cur in k.st.tcbs && dest in k.st.tcbs
    requires !Runnable(k.st.tcbs[k.cur])
    requires k.st.tcbs[dest].sc != 0 && dest !in f.released && !Queued(f, k, dest) && InPlace(f, k.ready)
    requires f.level[dest].dom == f.curDomain && f.level[dest].prio < f.prios
    requires RQ.Scan(k.ready, f.curDomain, f.prios) > f.level[dest].prio
    ensures Schedule(f, PossibleSwitchTo(f, k, dest)).cur != dest
  {
    var l, p := f.level[dest], RQ.Scan(k.ready, f.curDomain, f.prios);
    var q := PossibleSwitchTo(f, k, dest);
    assert q == k.(ready := k.ready[l := [dest] + k.ready[l]]);
    RQ.ScanMore(k.ready, l, [dest] + k.ready[l], f.curDomain, f.prios);
    RQ.ScanIsMax(k.ready, f.curDomain, f.prios);
    var top := RQ.Level(f.curDomain, p);
    assert top in RQ.Busy(k.ready) && f.level[k.ready[top][0]] == top;
    assert q.ready[top] == k.ready[top];
  }

  /** What the stores of fastpath_call go through is there. */
  ghost predicate Reachable(k: Kernel, e: Ref) {
    && e in k.eps && k.cur in k.st.tcbs
    && var dest := k.eps[e].queue.head;
       && dest in k.links && dest in k.st.tcbs && k.st.tcbs[dest].reply in k.st.replies
       && (k.links[dest].prev == 0 || k.links[dest].prev in k.links)
       && (k.links[dest].next == 0 || k.links[dest].next in k.links)
       && k.st.tcbs[k.cur].sc in k.st.scs
       && var below := k.st.scs[k.st.tcbs[k.cur].sc].reply;
          below == 0 || below in k.st.replies
  }

  /** The state after fastpath_call. */
  ghost function FastCall(k: Kernel, e: Ref): Kernel
    requires Reachable(k, e)
  {
    var dest := k.eps[e].queue.head;
    TakeReceiver(k, e).(st := Committed(k.st, k.cur, dest), cur := dest)
  }

  /** A ready thread of the domain has a higher priority than the receiver at the head of the queue of `e`. */
  ghost predicate ReceiverBeaten(f: Fixed, k: Kernel, e: Ref)
    requires Placed(f, k) && e in k.eps && k.eps[e].queue.head in k.st.tcbs
  {
    f.level[k.eps[e].queue.head].prio < RQ.Scan(k.ready, f.curDomain, f.prios)
  }

  /** Past its checks, the fast path does what the slow path does exactly if no ready thread of the domain has a
      higher priority than the receiver. */
  lemma FastIsSlowIff(f: Fixed, k: Kernel, e: Ref)
    requires Calling(f, k) && ReceiverWaits(k, e) && Checks(f, k, e, true)
    requires f.level[k.eps[e].queue.head].prio < f.prios
    ensures Reachable(k, e) && (SlowCall(f, k, e, true) == FastCall(k, e) <==> !ReceiverBeaten(f, k, e))
  {
    SlowReady(f, k, e);
    FastReady(f, k, e);
    var dest := k.eps[e].queue.head;
    var k1 := TakeReceiver(SetThreadState(f, k, k.cur, CS.Restart), e);
    var k2 := SetThreadState(f, HandOver(f, k1, dest, true), dest, CS.Running);
    WokenState(f, k, k1, k2, dest);
    assert k1 == TakeReceiver(k, e).(st := k1.st);
    FastFinish(f, k, k2, e);
  }

  lemma FastFinish(f: Fixed, k: Kernel, w: Kernel, e: Ref)
    requires Calling(f, k) && ReceiverWaits(k, e) && Checks(f, k, e, true)
    requires f.level[k.eps[e].queue.head].prio < f.prios
    requires Reachable(k, e) && k.eps[e].queue.head != k.cur
    requires w == TakeReceiver(k, e).(st := Committed(k.st, k.cur, k.eps[e].queue.head), action := RQ.ChooseNew)
    requires k.eps[e].queue.head !in f.released && !Queued(f, k, k.eps[e].queue.head) && Placed(f, w)
    ensures Schedule(f, PossibleSwitchTo(f, w, k.eps[e].queue.head)) == FastCall(k, e) <==> !ReceiverBeaten(f, k, e)
  {
    if ReceiverBeaten(f, k, e) {
      ChoosesOther(f, w, k.eps[e].queue.head);
    } else {
      ChoosesDest(f, w, k.eps[e].queue.head);
    }
  }

  /** Thread 1 runs with priority 0 and calls over endpoint 30, where thread 2 of priority 1 waits with reply object 10,
      while thread 3 of priority 2 is ready: the fast path switches to 2, the slow path does not. */
  lemma FastCanDiffer()
    ensures var f, k := DifferFixed(), DifferKernel();
            && Calling(f, k) && ReceiverWaits(k, 30) && Checks(f, k, 30, true) && Reachable(k, 30)
            && ReceiverBeaten(f, k, 30) && SlowCall(f, k, 30, true) != FastCall(k, 30)
  {
    DifferCalling();
    DifferWaits();
    FastIsSlowIff(DifferFixed(), DifferKernel(), 30);
  }

  lemma DifferCalling()
    ensures Calling(DifferFixed(), DifferKernel())
  {
    DifferLinked();
  }

  lemma DifferWaits()
    requires Placed(DifferFixed(), DifferKernel())
    ensures var f, k := DifferFixed(), DifferKernel();
            ReceiverWaits(k, 30) && Checks(f, k, 30, true) && ReceiverBeaten(f, k, 30)
  {
    var k := DifferKernel();
    assert Holds(k.links, k.eps[30].queue, [2]);
    RQ.ScanIsMax(k.ready, 0, 3);
    assert RQ.Level(0, 2) in RQ.Busy(k.ready);
  }

  function DifferFixed(): Fixed {
    Fixed(map[1 := RQ.Level(0, 0), 2 := RQ.Level(0, 1), 3 := RQ.Level(0, 2)], 3, {20, 21}, {}, 4, 0)
  }

  function DifferKernel(): Kernel {
    Kernel(CS.State(map[1 := CS.Tcb(20, CS.Running, 0), 2 := CS.Tcb(0, CS.BlockedOnReceive, 10),
                        3 := CS.Tcb(21, CS.Running, 0)],
                    map[10 := CS.Reply(2, 0, CS.NoLink)],
                    map[20 := CS.SchedContext(1, 0), 21 := CS.SchedContext(3, 0)]),
           map[2 := Links(0, 0)], map[30 := EQ.Endpoint(EQ.Recv, Queue(2, 2))],
           map[RQ.Level(0, 0) := [], RQ.Level(0, 1) := [], RQ.Level(0, 2) := [3]], 1, RQ.Resume)
  }

  lemma DifferLinked()
    ensures CS.Linked(DifferKernel().st)
  {
    var st := DifferKernel().st;
    forall r | r in st.replies ensures CS.ReplyOk(st, r) {}
    forall t | t in st.tcbs ensures CS.TcbOk(st, t) {}
    forall s | s in st.scs ensures CS.ScOk(st, s) {}
  }

  lemma WokenState(f: Fixed, k: Kernel, k1: Kernel, k2: Kernel, dest: Ref)
    requires Calling(f, k) && dest in k.st.tcbs && dest != k.cur && k.st.tcbs[dest].sc == 0
    requires k.st.tcbs[dest].run == CS.BlockedOnReceive
    requires k1 == k.(st := k1.st, links := k1.links, eps := k1.eps)
    requires k1.st == k.st.(tcbs := k.st.tcbs[k.cur := k.st.tcbs[k.cur].(run := CS.Restart)])
    requires k.st.tcbs[dest].reply != 0 && k.st.tcbs[dest].reply in k.st.replies && ContextLinked(k.st, k.cur)
    requires k2 == SetThreadState(f, HandOver(f, k1, dest, true), dest, CS.Running)
    ensures k.st.tcbs[k.cur].sc in k.st.scs
    ensures k2 == k1.(st := Committed(k.st, k.cur, dest), action := RQ.ChooseNew)
    ensures dest !in f.released && !Queued(f, k, dest)
  {
    SameObjects(k.st, k.cur, dest);
    HandOverSchedules(f, k, k1, dest);
  }

  /** The stores of the fast path add up. */
  lemma CommitParts(st: CS.State, st2: CS.State, cur: Ref, dest: Ref)
    requires cur in st.tcbs && dest in st.tcbs && dest != cur && st.tcbs[dest].reply in st.replies
    requires st.tcbs[cur].sc in st.scs
    requires var below := st.scs[st.tcbs[cur].sc].reply;
             below == 0 || (below in st.replies && below != st.tcbs[dest].reply)
    requires var r, s := st.tcbs[dest].reply, st.tcbs[cur].sc;
             var tcbs := st.tcbs[cur := CS.Tcb(0, CS.BlockedOnReply, r)][dest := CS.Tcb(s, st.tcbs[dest].run, 0)];
             var linked := CS.State(tcbs,
                                    st.replies[r := st.replies[r].(tcb := cur)], st.scs[s := st.scs[s].(tcb := dest)]);
             var pushed := CS.Stack(linked, s, r);
             st2 == pushed.(tcbs := pushed.tcbs[dest := pushed.tcbs[dest].(run := CS.Running)])
    ensures st2 == Committed(st, cur, dest)
  {
    assert st2.tcbs == Committed(st, cur, dest).tcbs;
    assert st2.replies == Committed(st, cur, dest).replies;
  }

  /** What the fast path relies on without looking. */
  lemma FastReady(f: Fixed, k: Kernel, e: Ref)
    requires Calling(f, k) && ReceiverWaits(k, e) && Checks(f, k, e, true)
    ensures var dest := k.eps[e].queue.head;
            && dest != k.cur && k.st.tcbs[dest].reply in k.st.replies && k.st.tcbs[k.cur].sc in k.st.scs
            && var below := k.st.scs[k.st.tcbs[k.cur].sc].reply;
               below == 0 || (below in k.st.replies && below != k.st.tcbs[dest].reply)
  {
    var dest := k.eps[e].queue.head;
    assert CS.TcbOk(k.st, dest) && CS.TcbOk(k.st, k.cur);
    assert CS.ReplyOk(k.st, k.st.tcbs[dest].reply) && CS.ScOk(k.st, k.st.tcbs[k.cur].sc);
  }

  class FastKernel {
    const fixed: Fixed
    var tcbs: map<Ref, CS.Tcb>
    var replies: map<Ref, CS.Reply>
    var scs: map<Ref, CS.SchedContext>
    var links: LinkMap
    var eps: map<Ref, EQ.Endpoint>
    var ready: RQ.Contents
    var cur: Ref
    var action: RQ.Action

    constructor (fixed: Fixed, k: Kernel)
      ensures this.fixed == fixed && Snapshot() == k
    {
      this.fixed := fixed;
      tcbs, replies, scs := k.st.tcbs, k.st.replies, k.st.scs;
      links, eps, ready, cur, action := k.links, k.eps, k.ready, k.cur, k.action;
    }

    function Snapshot(): Kernel
      reads this
    {
      Kernel(CS.State(tcbs, replies, scs), links, eps, ready, cur, action)
    }

    /** fastpath_call after the lookup of the endpoint: declines without a change, or does what the slow path does,
        as long as nobody in the queues is more urgent than the current thread. Without that, it is still what
        the slow path does exactly if nobody is more urgent than the receiver. */
    method FastpathCall(e: Ref, canGrant: bool) returns (taken: bool)
      requires Calling(fixed, Snapshot()) && e in eps && (eps[e].state == EQ.Recv ==> ReceiverWaits(Snapshot(), e))
      requires forall t :: t in tcbs ==> fixed.level[t].prio < fixed.prios
      modifies this
      ensures taken == Checks(fixed, old(Snapshot()), e, canGrant)
      ensures !taken ==> Snapshot() == old(Snapshot())
      ensures taken ==>
                && canGrant && ReceiverWaits(old(Snapshot()), e)
                && (Snapshot() == SlowCall(fixed, old(Snapshot()), e, true)
                    <==> !ReceiverBeaten(fixed, old(Snapshot()), e))
                && (RQ.Scan(old(ready), fixed.curDomain, fixed.prios) <= fixed.level[old(cur)].prio ==>
                      Snapshot() == SlowCall(fixed, old(Snapshot()), e, true))
    {
      if !Checks(fixed, Snapshot(), e, canGrant) {
        return false;
      }
      ghost var k := Snapshot();
      ReceiverReady(k, e);
      FastReady(fixed, k, e);
      FastIsSlowIff(fixed, k, e);
      Commit(e);
      return true;
    }

    /** fastpath_call past the point of no return */
    method Commit(e: Ref)
      requires e in eps && eps[e].queue.head != 0 && eps[e].queue.head in links && eps[e].queue.head in tcbs
      requires cur in tcbs && eps[e].queue.head != cur
      requires var l := links[eps[e].queue.head]; l.prev == 0 && (l.next == 0 || l.next in links)
      requires tcbs[eps[e].queue.head].reply in replies && tcbs[cur].sc in scs
      requires scs[tcbs[cur].sc].reply == 0
               || (scs[tcbs[cur].sc].reply in replies && scs[tcbs[cur].sc].reply != tcbs[eps[e].queue.head].reply)
      modifies this
      ensures Snapshot() == FastCall(old(Snapshot()), e)
    {
      ghost var st := CS.State(tcbs, replies, scs);
      var dest := eps[e].queue.head;
      var reply := tcbs[dest].reply;
      DequeueHead(e, dest);
      var sc := tcbs[cur].sc;
      LinkCaller(dest, reply, sc);
      PushReply(sc, reply);
      tcbs := tcbs[dest := tcbs[dest].(run := CS.Running)];
      CommitParts(st, CS.State(tcbs, replies, scs), cur, dest);
      cur := dest;
    }

    /** The caller waits on the reply object, and the receiver gets its scheduling context. */
    method LinkCaller(dest: Ref, reply: Ref, sc: Ref)
      requires cur in tcbs && dest in tcbs && dest != cur && reply in replies && sc in scs
      modifies `tcbs, `replies, `scs
      ensures tcbs == old(tcbs)[cur := CS.Tcb(0, CS.BlockedOnReply, reply)][dest := CS.Tcb(sc, old(tcbs)[dest].run, 0)]
      ensures replies == old(replies)[reply := old(replies)[reply].(tcb := cur)]
      ensures scs == old(scs)[sc := old(scs)[sc].(tcb := dest)]
    {
      tcbs := tcbs[cur := tcbs[cur].(run := CS.BlockedOnReply)];
      tcbs := tcbs[dest := tcbs[dest].(reply := 0)];
      tcbs := tcbs[cur := tcbs[cur].(reply := reply)];
      replies := replies[reply := replies[reply].(tcb := cur)];
      scs := scs[sc := scs[sc].(tcb := dest)];
      tcbs := tcbs[dest := tcbs[dest].(sc := sc)];
      tcbs := tcbs[cur := tcbs[cur].(sc := 0)];
    }

    method DequeueHead(e: Ref, dest: Ref)
      requires e in eps && eps[e].queue.head == dest && dest in links && links[dest].prev == 0
      requires (links[dest].next == 0 || links[dest].next in links)
      modifies `links, `eps
      ensures links == RemoveLinks(old(links), dest)
      ensures eps == old(eps)[e := EQ.Endpoint(if old(links[dest]).next == 0 then EQ.Idle else old(eps[e]).state,
                                               RemoveEnds(old(eps[e]).queue, old(links[dest])))]
    {
      eps := eps[e := eps[e].(queue := eps[e].queue.(head := links[dest].next))];
      if links[dest].next != 0 {
        links := links[links[dest].next := links[links[dest].next].(prev := 0)];
      } else {
        eps := eps[e := EQ.Endpoint(EQ.Idle, eps[e].queue.(end := 0))];
      }
    }

    method PushReply(sc: Ref, reply: Ref)
      requires sc in scs && reply in replies && (scs[sc].reply == 0 || scs[sc].reply in replies)
      modifies `replies, `scs
      ensures CS.State(tcbs, replies, scs) == CS.Stack(CS.State(tcbs, old(replies), old(scs)), sc, reply)
    {
      var oldCaller := scs[sc].reply;
      replies := replies[reply := replies[reply].(prev := oldCaller)];
      if oldCaller != 0 {
        replies := replies[oldCaller := replies[oldCaller].(next := CS.Link(reply, false))];
      }
      replies := replies[reply := replies[reply].(next := CS.Link(sc, true))];
      scs := scs[sc := scs[sc].(reply := reply)];
    }
  }
}
