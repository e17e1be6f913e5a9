/** Endpoints and the queues of threads blocked on them (kernel/src/object/endpoint.c,
    kernel/include/object/tcb.h). Objects are known by their addresses; 0 is the null pointer. */
module EndpointQueue {
  import opened TcbQueues

  datatype EpState = Idle | Send | Recv

  datatype Endpoint = Endpoint(state: EpState, queue: Queue)

  datatype Run =
    | Inactive | Running | Restart | BlockedOnReply | OtherRun
    | BlockedOnSend(ep: Ref, badge: nat, canGrant: bool, isCall: bool)
    | BlockedOnReceive(ep: Ref, hasReply: bool)

  datatype Thread = Thread(prio: nat, run: Run, faulted: bool)

  /** isRunnable, as far as these states go */
  predicate Runs(run: Run) {
    run == Running || run == Restart
  }

  predicate Blocked(run: Run) {
    run.BlockedOnSend? || run.BlockedOnReceive?
  }

  /** The direction in which a thread waits. */
  function Direction(run: Run): EpState {
    match run
    case BlockedOnSend(_, _, _, _) => Send
    case BlockedOnReceive(_, _) => Recv
    case _ => Idle
  }

  datatype State = State(threads: map<Ref, Thread>, links: LinkMap, eps: map<Ref, Endpoint>)

  /** The contents of each queue, and when each thread entered its queue. */
  datatype History = History(contents: map<Ref, seq<Ref>>, arrival: map<Ref, nat>, clock: nat)

  // ---------------------------------------------------------------- the invariant

  /** `a` is served before `b`: it has the higher priority, or the same and it came first. */
  ghost predicate Precedes(threads: map<Ref, Thread>, arrival: map<Ref, nat>, a: Ref, b: Ref)
    requires a in threads && b in threads && a in arrival && b in arrival
  {
    threads[a].prio > threads[b].prio || (threads[a].prio == threads[b].prio && arrival[a] < arrival[b])
  }

  ghost predicate Known(threads: map<Ref, Thread>, h: History, s: seq<Ref>) {
    forall k :: 0 <= k < |s| ==> s[k] in threads && s[k] in h.arrival && h.arrival[s[k]] < h.clock
  }

  ghost predicate Sorted(threads: map<Ref, Thread>, h: History, s: seq<Ref>)
    requires Known(threads, h, s)
  {
    forall i, j :: 0 <= i < j < |s| ==> Precedes(threads, h.arrival, s[i], s[j])
  }

  /** The threads wait on `e` in the direction of its state. */
  ghost predicate AllWait(st: State, s: seq<Ref>, e: Ref, dir: EpState) {
    forall k :: 0 <= k < |s| ==>
      s[k] in st.threads && Blocked(st.threads[s[k]].run) && st.threads[s[k]].run.ep == e
        && Direction(st.threads[s[k]].run) == dir
  }

  ghost predicate EpOk(st: State, h: History, e: Ref)
    requires e in st.eps
  {
    && e in h.contents && Known(st.threads, h, h.contents[e]) && Sorted(st.threads, h, h.contents[e])
    && Holds(st.links, st.eps[e].queue, h.contents[e])
    && AllWait(st, h.contents[e], e, st.eps[e].state)
    && (st.eps[e].state == Idle <==> h.contents[e] == [])
  }

  ghost predicate ThreadOk(st: State, h: History, t: Ref)
    requires t in st.threads
  {
    && t != 0 && t in st.links
    && (Blocked(st.threads[t].run) ==>
          st.threads[t].run.ep in st.eps && st.threads[t].run.ep in h.contents && t in h.contents[st.threads[t].run.ep])
  }

  /** An endpoint is idle exactly if its queue is empty; its queue holds exactly the threads that wait on it,
      all in one direction, by priority and then by arrival. */
  ghost predicate Valid(st: State, h: History) {
    && (forall e {:trigger EpOk(st, h, e)} :: e in st.eps ==> EpOk(st, h, e))
    && (forall t {:trigger ThreadOk(st, h, t)} :: t in st.threads ==> ThreadOk(st, h, t))
  }

  lemma Apart(st: State, h: History, e: Ref, f: Ref)
    requires Valid(st, h) && e in st.eps && f in st.eps && e != f
    ensures e in h.contents && f in h.contents
    ensures forall k :: 0 <= k < |h.contents[f]| ==> h.contents[f][k] !in h.contents[e]
  {
    assert EpOk(st, h, e) && EpOk(st, h, f);
  }

  lemma NotIn(st: State, h: History, e: Ref, t: Ref)
    requires Valid(st, h) && e in st.eps && t in st.threads
    requires (Blocked(st.threads[t].run) ==> st.threads[t].run.ep != e)
    ensures e in h.contents && forall k :: 0 <= k < |h.contents[e]| ==> h.contents[e][k] != t
  {
    assert EpOk(st, h, e);
  }

  /** Nothing about the threads in the queue of `f` has changed. */
  ghost predicate Untouched(st: State, h: History, st2: State, h2: History, f: Ref) {
    && f in st.eps && f in st2.eps && st2.eps[f] == st.eps[f] && f in h.contents && f in h2.contents
    && h2.contents[f] == h.contents[f] && h2.clock >= h.clock
    && forall k :: 0 <= k < |h.contents[f]| ==>
         var x := h.contents[f][k];
         x in st.threads && x in st2.threads && st2.threads[x] == st.threads[x] && x in h.arrival && x in h2.arrival
           && h2.arrival[x] == h.arrival[x]
  }

  lemma UntouchedOk(st: State, h: History, st2: State, h2: History, f: Ref)
    requires Untouched(st, h, st2, h2, f) && EpOk(st, h, f) && Holds(st2.links, st2.eps[f].queue, h2.contents[f])
    ensures EpOk(st2, h2, f)
  {
    var s := h.contents[f];
    forall i, j | 0 <= i < j < |s| ensures Precedes(st2.threads, h2.arrival, s[i], s[j]) {
      assert Precedes(st.threads, h.arrival, s[i], s[j]);
    }
  }

  // ---------------------------------------------------------------- entering a queue

  /** The place of a thread of priority `prio` in a queue: behind all that are at least as high. */
  ghost predicate PlaceOf(threads: map<Ref, Thread>, s: seq<Ref>, prio: nat, i: nat) {
    && i <= |s| && (forall k :: 0 <= k < |s| ==> s[k] in threads)
    && (forall k :: 0 <= k < i ==> threads[s[k]].prio >= prio)
    && (forall k :: i <= k < |s| ==> threads[s[k]].prio < prio)
  }

  predicate Linkable(st: State, t: Ref, e: Ref, before: Ref, after: Ref) {
    t in st.threads && e in st.eps && (before == 0 || before in st.links) && (after == 0 || after in st.links)
  }

  /** `t`, which now waits as `run` says, linked into the queue of `e`. */
  function Attached(st: State, t: Ref, e: Ref, before: Ref, after: Ref, run: Run): State
    requires Linkable(st, t, e, before, after)
  {
    State(st.threads[t := st.threads[t].(run := run)],
          InsertLinks(st.links, t, before, after),
          st.eps[e := Endpoint(Direction(run), InsertEnds(st.eps[e].queue, t, before, after))])
  }

  ghost function Arrived(h: History, e: Ref, i: nat, t: Ref): History
    requires e in h.contents && i <= |h.contents[e]|
  {
    History(h.contents[e := InsertAt(h.contents[e], i, t)], h.arrival[t := h.clock], h.clock + 1)
  }

  ghost predicate CanAttach(st: State, h: History, t: Ref, e: Ref, i: nat, run: Run) {
    && Valid(st, h) && t in st.threads && !Blocked(st.threads[t].run) && e in st.eps && e in h.contents
    && Blocked(run) && run.ep == e && (st.eps[e].state == Idle || st.eps[e].state == Direction(run))
    && PlaceOf(st.threads, h.contents[e], st.threads[t].prio, i)
  }

  lemma AttachReady(st: State, h: History, t: Ref, e: Ref, i: nat, run: Run)
    requires CanAttach(st, h, t, e, i, run)
    ensures Linkable(st, t, e, Before(h.contents[e], i), After(h.contents[e], i)) && EpOk(st, h, e)
    ensures ThreadOk(st, h, t)
    ensures forall k :: 0 <= k < |h.contents[e]| ==> h.contents[e][k] != t
  {
    assert EpOk(st, h, e) && ThreadOk(st, h, t);
    NotIn(st, h, e, t);
    Neighbours(st.links, st.eps[e].queue, h.contents[e], i);
  }

  ghost function AttachedAt(st: State, h: History, t: Ref, e: Ref, i: nat, run: Run): State
    requires CanAttach(st, h, t, e, i, run)
  {
    AttachReady(st, h, t, e, i, run);
    Attached(st, t, e, Before(h.contents[e], i), After(h.contents[e], i), run)
  }

  /** The priorities of the threads in `s` are the same. */
  ghost predicate SamePrios(threads: map<Ref, Thread>, after: map<Ref, Thread>, s: seq<Ref>) {
    forall k :: 0 <= k < |s| ==> s[k] in threads && s[k] in after && after[s[k]].prio == threads[s[k]].prio
  }

  lemma InsertPrecedes(threads: map<Ref, Thread>, after: map<Ref, Thread>, h: History, s: seq<Ref>, i: nat, t: Ref,
                       a: nat, b: nat)
    requires Known(threads, h, s) && Sorted(threads, h, s) && SamePrios(threads, after, s) && t in after
    requires PlaceOf(threads, s, after[t].prio, i) && (forall k :: 0 <= k < |s| ==> s[k] != t) && a < b <= |s|
    ensures InsertAt(s, i, t)[a] in after && InsertAt(s, i, t)[b] in after
    ensures InsertAt(s, i, t)[a] in h.arrival[t := h.clock] && InsertAt(s, i, t)[b] in h.arrival[t := h.clock]
    ensures Precedes(after, h.arrival[t := h.clock], InsertAt(s, i, t)[a], InsertAt(s, i, t)[b])
  {
    var u := InsertAt(s, i, t);
    assert u[a] == if a < i then s[a] else if a == i then t else s[a - 1];
    assert u[b] == if b < i then s[b] else if b == i then t else s[b - 1];
    var x, y := if a < i then a else a - 1, if b < i then b else b - 1;
    assert a != i && b != i ==> Precedes(threads, h.arrival, s[x], s[y]);
  }

  lemma InsertSorted(threads: map<Ref, Thread>, after: map<Ref, Thread>, h: History, g: History, s: seq<Ref>, i: nat,
                     t: Ref)
    requires Known(threads, h, s) && Sorted(threads, h, s) && SamePrios(threads, after, s) && t in after
    requires PlaceOf(threads, s, after[t].prio, i) && (forall k :: 0 <= k < |s| ==> s[k] != t)
    requires g.arrival == h.arrival[t := h.clock] && g.clock == h.clock + 1
    ensures Known(after, g, InsertAt(s, i, t)) && Sorted(after, g, InsertAt(s, i, t))
  {
    var u := InsertAt(s, i, t);
    forall k | 0 <= k < |u| ensures u[k] in after && u[k] in g.arrival && g.arrival[u[k]] < g.clock {
      assert u[k] == if k < i then s[k] else if k == i then t else s[k - 1];
    }
    forall a, b | 0 <= a < b < |u| ensures Precedes(after, g.arrival, u[a], u[b]) {
      InsertPrecedes(threads, after, h, s, i, t, a, b);
    }
  }

  lemma AttachedOwn(st: State, h: History, t: Ref, e: Ref, i: nat, run: Run)
    requires CanAttach(st, h, t, e, i, run)
    ensures e in AttachedAt(st, h, t, e, i, run).eps && EpOk(AttachedAt(st, h, t, e, i, run), Arrived(h, e, i, t), e)
  {
    AttachReady(st, h, t, e, i, run);
    InsertSorted(st.threads, AttachedAt(st, h, t, e, i, run).threads, h, Arrived(h, e, i, t), h.contents[e], i, t);
    InsertHolds(st.links, st.eps[e].queue, h.contents[e], i, t);
  }

  lemma AttachedOther(st: State, h: History, t: Ref, e: Ref, i: nat, run: Run, f: Ref)
    requires CanAttach(st, h, t, e, i, run) && f in st.eps && f != e
    ensures f in AttachedAt(st, h, t, e, i, run).eps && EpOk(AttachedAt(st, h, t, e, i, run), Arrived(h, e, i, t), f)
  {
    AttachReady(st, h, t, e, i, run);
    var s := h.contents[e];
    assert EpOk(st, h, f);
    NotIn(st, h, f, t);
    Apart(st, h, e, f);
    InsertOnlyIn(st.links, st.eps[e].queue, s, i, t);
    OtherHolds(st.links, InsertLinks(st.links, t, Before(s, i), After(s, i)), s + [t], st.eps[f].queue, h.contents[f]);
    UntouchedOk(st, h, AttachedAt(st, h, t, e, i, run), Arrived(h, e, i, t), f);
  }

  lemma AttachedThreadOk(st: State, h: History, t: Ref, e: Ref, i: nat, run: Run, u: Ref)
    requires CanAttach(st, h, t, e, i, run) && u in st.threads
    ensures u in AttachedAt(st, h, t, e, i, run).threads
    ensures ThreadOk(AttachedAt(st, h, t, e, i, run), Arrived(h, e, i, t), u)
  {
    AttachReady(st, h, t, e, i, run);
    assert ThreadOk(st, h, u);
    InsertKeeps(h.contents[e], i, t, u);
  }

  /** A thread placed behind all that are at least as high keeps every queue in order. */
  lemma AttachedValid(st: State, h: History, t: Ref, e: Ref, i: nat, run: Run)
    requires CanAttach(st, h, t, e, i, run)
    ensures Valid(AttachedAt(st, h, t, e, i, run), Arrived(h, e, i, t))
  {
    var after := AttachedAt(st, h, t, e, i, run);
    AttachReady(st, h, t, e, i, run);
    forall f | f in after.eps ensures EpOk(after, Arrived(h, e, i, t), f) {
      if f == e { AttachedOwn(st, h, t, e, i, run); } else { AttachedOther(st, h, t, e, i, run, f); }
    }
    forall u | u in after.threads ensures ThreadOk(after, Arrived(h, e, i, t), u) {
      AttachedThreadOk(st, h, t, e, i, run, u);
    }
  }

  // ---------------------------------------------------------------- leaving a queue

  predicate Unlinkable(st: State, t: Ref, e: Ref) {
    && t in st.threads && t in st.links && e in st.eps
    && (st.links[t].prev == 0 || st.links[t].prev in st.links)
    && (st.links[t].next == 0 || st.links[t].next in st.links)
  }

  /** `t`, which becomes `thread`, taken out of the queue of `e`. */
  function Detached(st: State, t: Ref, e: Ref, thread: Thread): State
    requires Unlinkable(st, t, e)
  {
    var queue := RemoveEnds(st.eps[e].queue, st.links[t]);
    State(st.threads[t := thread], RemoveLinks(st.links, t),
          st.eps[e := Endpoint(if queue.head == 0 then Idle else st.eps[e].state, queue)])
  }

  ghost function Gone(h: History, e: Ref, i: nat): History
    requires e in h.contents && i < |h.contents[e]|
  {
    h.(contents := h.contents[e := RemoveAt(h.contents[e], i)])
  }

  ghost predicate CanDetach(st: State, h: History, t: Ref, e: Ref, i: nat, thread: Thread) {
    && Valid(st, h) && t in st.threads && e in st.eps && e in h.contents && i < |h.contents[e]| && h.contents[e][i] == t
    && !Blocked(thread.run)
  }

  lemma DetachReady(st: State, h: History, t: Ref, e: Ref, i: nat, thread: Thread)
    requires CanDetach(st, h, t, e, i, thread)
    ensures Unlinkable(st, t, e) && EpOk(st, h, e) && ThreadOk(st, h, t)
    ensures Blocked(st.threads[t].run) && st.threads[t].run.ep == e
    ensures forall k :: 0 <= k < |RemoveAt(h.contents[e], i)| ==> RemoveAt(h.contents[e], i)[k] != t
  {
    assert EpOk(st, h, e) && ThreadOk(st, h, t);
    RemoveReady(st.links, st.eps[e].queue, h.contents[e], i);
  }

  lemma DetachedOwn(st: State, h: History, t: Ref, e: Ref, i: nat, thread: Thread)
    requires CanDetach(st, h, t, e, i, thread)
    ensures Unlinkable(st, t, e) && EpOk(Detached(st, t, e, thread), Gone(h, e, i), e)
  {
    DetachReady(st, h, t, e, i, thread);
    var s := h.contents[e];
    var u := RemoveAt(s, i);
    var after := Detached(st, t, e, thread);
    RemoveHolds(st.links, st.eps[e].queue, s, i);
    Neighbours(after.links, after.eps[e].queue, u, 0);
    assert forall k :: 0 <= k < |u| ==> u[k] == if k < i then s[k] else s[k + 1];
    RemovedSorted(st.threads, after.threads, h, s, i);
  }

  lemma RemovedSorted(threads: map<Ref, Thread>, after: map<Ref, Thread>, h: History, s: seq<Ref>, i: nat)
    requires i < |s| && Known(threads, h, s) && Sorted(threads, h, s) && SamePrios(threads, after, RemoveAt(s, i))
    ensures Known(after, h, RemoveAt(s, i)) && Sorted(after, h, RemoveAt(s, i))
  {
    var u := RemoveAt(s, i);
    assert forall k :: 0 <= k < |u| ==> u[k] == if k < i then s[k] else s[k + 1];
    forall a, b | 0 <= a < b < |u| ensures Precedes(after, h.arrival, u[a], u[b]) {
      assert Precedes(threads, h.arrival, s[if a < i then a else a + 1], s[if b < i then b else b + 1]);
    }
  }

  lemma DetachedOther(st: State, h: History, t: Ref, e: Ref, i: nat, thread: Thread, f: Ref)
    requires CanDetach(st, h, t, e, i, thread) && f in st.eps && f != e
    ensures Unlinkable(st, t, e) && EpOk(Detached(st, t, e, thread), Gone(h, e, i), f)
  {
    DetachReady(st, h, t, e, i, thread);
    assert EpOk(st, h, f);
    NotIn(st, h, f, t);
    Apart(st, h, e, f);
    RemoveOnlyIn(st.links, st.eps[e].queue, h.contents[e], i);
    OtherHolds(st.links, RemoveLinks(st.links, t), h.contents[e], st.eps[f].queue, h.contents[f]);
    UntouchedOk(st, h, Detached(st, t, e, thread), Gone(h, e, i), f);
  }

  lemma DetachedThreadOk(st: State, h: History, t: Ref, e: Ref, i: nat, thread: Thread, u: Ref)
    requires CanDetach(st, h, t, e, i, thread) && u in st.threads
    ensures Unlinkable(st, t, e) && ThreadOk(Detached(st, t, e, thread), Gone(h, e, i), u)
  {
    DetachReady(st, h, t, e, i, thread);
    assert ThreadOk(st, h, u);
    if u != t { RemoveKeeps(h.contents[e], i, u); }
  }

  /** A thread that leaves its queue and no longer waits keeps every queue in order. */
  lemma DetachedValid(st: State, h: History, t: Ref, e: Ref, i: nat, thread: Thread)
    requires CanDetach(st, h, t, e, i, thread)
    ensures Unlinkable(st, t, e) && Valid(Detached(st, t, e, thread), Gone(h, e, i))
  {
    DetachReady(st, h, t, e, i, thread);
    var after := Detached(st, t, e, thread);
    forall f | f in after.eps ensures EpOk(after, Gone(h, e, i), f) {
      if f == e { DetachedOwn(st, h, t, e, i, thread); } else { DetachedOther(st, h, t, e, i, thread, f); }
    }
    forall u | u in after.threads ensures ThreadOk(after, Gone(h, e, i), u) {
      DetachedThreadOk(st, h, t, e, i, thread, u);
    }
  }

  /** A thread that does not wait can change in any way that keeps it from waiting. */
  lemma RunChangedValid(st: State, h: History, t: Ref, thread: Thread)
    requires Valid(st, h) && t in st.threads && !Blocked(st.threads[t].run) && !Blocked(thread.run)
    ensures Valid(st.(threads := st.threads[t := thread]), h)
  {
    var after := st.(threads := st.threads[t := thread]);
    forall f | f in after.eps ensures EpOk(after, h, f) {
      assert EpOk(st, h, f);
      NotIn(st, h, f, t);
      UntouchedOk(st, h, after, h, f);
    }
    forall u | u in after.threads ensures ThreadOk(after, h, u) {
      assert ThreadOk(st, h, u);
    }
  }

  // ---------------------------------------------------------------- cancelling

  /** What becomes of a thread whose send or receive is cancelled: it starts again, unless it has a fault
      to deal with. */
  function Cancelled(t: Thread): (r: Thread)
    ensures (Runs(r.run) <==> !t.faulted) && !Blocked(r.run) && r == t.(run := r.run)
  {
    t.(run := if t.faulted then Inactive else Restart)
  }

  predicate Matches(t: Thread, badge: nat) {
    t.run.BlockedOnSend? && t.run.badge == badge
  }

  /** The threads of `s` whose badge is another one, in the same order. */
  function Keep(threads: map<Ref, Thread>, s: seq<Ref>, badge: nat): seq<Ref>
    requires forall k :: 0 <= k < |s| ==> s[k] in threads
  {
    if s == [] then []
    else
      var last := s[|s| - 1];
      var rest := Keep(threads, s[..|s| - 1], badge);
      if Matches(threads[last], badge) then rest else rest + [last]
  }

  /** Keep drops exactly the threads with the badge. */
  lemma {:induction false} KeepExact(threads: map<Ref, Thread>, s: seq<Ref>, badge: nat, t: Ref)
    requires forall k :: 0 <= k < |s| ==> s[k] in threads
    ensures t in Keep(threads, s, badge) <==> t in s && !Matches(threads[t], badge)
    decreases |s|
  {
    if s != [] {
      KeepExact(threads, s[..|s| - 1], badge, t);
      assert s == s[..|s| - 1] + [s[|s| - 1]];
    }
  }

  /** Keep keeps the order. */
  lemma {:induction false} KeepSorted(threads: map<Ref, Thread>, h: History, s: seq<Ref>, badge: nat)
    requires Known(threads, h, s) && Sorted(threads, h, s)
    ensures Known(threads, h, Keep(threads, s, badge)) && Sorted(threads, h, Keep(threads, s, badge))
    decreases |s|
  {
    if s != [] {
      var front, last := s[..|s| - 1], s[|s| - 1];
      KeepSorted(threads, h, front, badge);
      var rest := Keep(threads, front, badge);
      forall i | 0 <= i < |rest| ensures Precedes(threads, h.arrival, rest[i], last) {
        KeepExact(threads, front, badge, rest[i]);
        var k :| 0 <= k < |front| && front[k] == rest[i];
        assert Precedes(threads, h.arrival, s[k], s[|s| - 1]);
      }
    }
  }

  /** `after` differs from `threads` in the threads of `hit` with the badge, which are cancelled. */
  ghost predicate CancelledIn(threads: map<Ref, Thread>, after: map<Ref, Thread>, hit: seq<Ref>, badge: nat) {
    after.Keys == threads.Keys && forall u :: u in threads ==>
      after[u] == if u in hit && Matches(threads[u], badge) then Cancelled(threads[u]) else threads[u]
  }

  /** The queue of `e` is thinned out to `kept`, and the threads that left it no longer wait. */
  ghost predicate Thinned(st: State, h: History, st2: State, e: Ref, kept: seq<Ref>) {
    && e in st.eps && e in h.contents && st2.threads.Keys == st.threads.Keys
    && OnlyIn(st.links, st2.links, h.contents[e])
    && Known(st.threads, h, kept) && Sorted(st.threads, h, kept)
    && st2.eps.Keys == st.eps.Keys && (forall f :: f in st.eps && f != e ==> st2.eps[f] == st.eps[f])
    && st2.eps[e].state == (if kept == [] then Idle else st.eps[e].state) && Holds(st2.links, st2.eps[e].queue, kept)
    && forall u :: u in st.threads ==>
         && (u in kept ==> u in h.contents[e])
         && (u in h.contents[e] && u !in kept ==> !Blocked(st2.threads[u].run))
         && (u in kept || u !in h.contents[e] ==> st2.threads[u] == st.threads[u])
  }

  lemma ThinnedValid(st: State, h: History, st2: State, e: Ref, kept: seq<Ref>)
    requires Valid(st, h) && Thinned(st, h, st2, e, kept)
    ensures Valid(st2, h.(contents := h.contents[e := kept]))
  {
    var g := h.(contents := h.contents[e := kept]);
    assert EpOk(st, h, e);
    forall f | f in st2.eps ensures EpOk(st2, g, f) {
      if f == e {
        ThinnedOwn(st, h, st2, e, kept);
      } else {
        ThinnedOther(st, h, st2, e, kept, f);
      }
    }
    forall u | u in st2.threads ensures ThreadOk(st2, g, u) {
      assert ThreadOk(st, h, u);
    }
  }

  lemma ThinnedOther(st: State, h: History, st2: State, e: Ref, kept: seq<Ref>, f: Ref)
    requires Valid(st, h) && Thinned(st, h, st2, e, kept) && f in st.eps && f != e
    ensures EpOk(st2, h.(contents := h.contents[e := kept]), f)
  {
    assert EpOk(st, h, e) && EpOk(st, h, f);
    Apart(st, h, e, f);
    OtherHolds(st.links, st2.links, h.contents[e], st.eps[f].queue, h.contents[f]);
    UntouchedOk(st, h, st2, h.(contents := h.contents[e := kept]), f);
  }

  lemma ThinnedOwn(st: State, h: History, st2: State, e: Ref, kept: seq<Ref>)
    requires Thinned(st, h, st2, e, kept) && EpOk(st, h, e)
    ensures EpOk(st2, h.(contents := h.contents[e := kept]), e)
  {
    forall k | 0 <= k < |kept|
      ensures kept[k] in kept && st2.threads[kept[k]] == st.threads[kept[k]] && kept[k] in h.contents[e]
    {
    }
    forall i, j | 0 <= i < j < |kept| ensures Precedes(st2.threads, h.arrival, kept[i], kept[j]) {
      assert Precedes(st.threads, h.arrival, kept[i], kept[j]);
    }
  }

  // ---------------------------------------------------------------- the operations

  /** The place of a new thread, found from the back. */
  ghost function Place(threads: map<Ref, Thread>, s: seq<Ref>, prio: nat): (i: nat)
    requires forall k :: 0 <= k < |s| ==> s[k] in threads
    ensures i <= |s|
  {
    if s == [] || threads[s[|s| - 1]].prio >= prio then |s| else Place(threads, s[..|s| - 1], prio)
  }

  ghost predicate Descending(threads: map<Ref, Thread>, s: seq<Ref>) {
    && (forall k :: 0 <= k < |s| ==> s[k] in threads)
    && forall i, j :: 0 <= i < j < |s| ==> threads[s[i]].prio >= threads[s[j]].prio
  }

  /** In a sorted queue this is the place behind all threads that are at least as high. */
  lemma {:induction false} PlaceIsPlace(threads: map<Ref, Thread>, s: seq<Ref>, prio: nat)
    requires Descending(threads, s)
    ensures PlaceOf(threads, s, prio, Place(threads, s, prio))
    decreases |s|
  {
    if s != [] && threads[s[|s| - 1]].prio < prio {
      PlaceIsPlace(threads, s[..|s| - 1], prio);
    }
  }

  lemma {:induction false} PlaceSame(threads: map<Ref, Thread>, after: map<Ref, Thread>, s: seq<Ref>, prio: nat)
    requires SamePrios(threads, after, s)
    ensures Place(threads, s, prio) == Place(after, s, prio)
    decreases |s|
  {
    if s != [] && threads[s[|s| - 1]].prio < prio {
      PlaceSame(threads, after, s[..|s| - 1], prio);
    }
  }

  lemma SortedDescends(st: State, h: History, e: Ref)
    requires e in st.eps && EpOk(st, h, e)
    ensures Descending(st.threads, h.contents[e])
  {
    var s := h.contents[e];
    forall i, j | 0 <= i < j < |s| ensures st.threads[s[i]].prio >= st.threads[s[j]].prio {
      assert Precedes(st.threads, h.arrival, s[i], s[j]);
    }
  }

  /** What becomes of a sender when its message is taken. */
  function Sent(sender: Thread, hasReply: bool): (r: Thread)
    requires sender.run.BlockedOnSend?
    ensures Runs(r.run) <==> !sender.run.isCall && !sender.faulted
    ensures r.run == BlockedOnReply <==> (sender.run.isCall || sender.faulted) && sender.run.canGrant && hasReply
    ensures r == sender.(run := r.run) && !Blocked(r.run)
  {
    sender.(run := if !(sender.run.isCall || sender.faulted) then Running
                   else if sender.run.canGrant && hasReply then BlockedOnReply else Inactive)
  }

  /** The threads after a sender finds a receiver waiting. */
  ghost function Rendezvous(threads: map<Ref, Thread>, t: Ref, dest: Ref, doCall: bool, canGrant: bool)
    : map<Ref, Thread>
    requires t in threads && dest in threads && threads[dest].run.BlockedOnReceive?
  {
    var woken := threads[dest := threads[dest].(run := Running)];
    var linked := canGrant && threads[dest].run.hasReply;
    if doCall || threads[t].faulted then woken[t := threads[t].(run := if linked then BlockedOnReply else Inactive)]
    else woken
  }

  /** The state after the priority of `t` changes and reorderEP puts it in its new place. */
  ghost function Reordered(st: State, t: Ref, e: Ref, prio: nat, rest: seq<Ref>, i: nat): State
    requires Unlinkable(st, t, e) && i <= |rest|
    requires Before(rest, i) == 0 || Before(rest, i) in RemoveLinks(st.links, t)
    requires After(rest, i) == 0 || After(rest, i) in RemoveLinks(st.links, t)
  {
    State(st.threads[t := st.threads[t].(prio := prio)],
          InsertLinks(RemoveLinks(st.links, t), t, Before(rest, i), After(rest, i)),
          st.eps[e := st.eps[e].(queue := InsertEnds(RemoveEnds(st.eps[e].queue, st.links[t]), t, Before(rest, i),
                                                     After(rest, i)))])
  }

  /** Reordering is leaving the queue and entering it again. */
  lemma ReorderedIs(st: State, h: History, t: Ref, e: Ref, i: nat, prio: nat, rest: seq<Ref>, j: nat, idle: Thread)
    requires CanDetach(st, h, t, e, i, idle) && idle.prio == prio && idle.faulted == st.threads[t].faulted
    requires j <= |rest|
    requires Unlinkable(st, t, e) && Linkable(Detached(st, t, e, idle), t, e, Before(rest, j), After(rest, j))
    ensures Reordered(st, t, e, prio, rest, j)
            == Attached(Detached(st, t, e, idle), t, e, Before(rest, j), After(rest, j), st.threads[t].run)
  {
    DetachReady(st, h, t, e, i, idle);
    var mid := Detached(st, t, e, idle);
    var after := Attached(mid, t, e, Before(rest, j), After(rest, j), st.threads[t].run);
    assert Direction(st.threads[t].run) == st.eps[e].state;
    assert after.threads == st.threads[t := st.threads[t].(prio := prio)];
    assert after.eps == Reordered(st, t, e, prio, rest, j).eps;
  }

  lemma ReorderedValid(st: State, h: History, t: Ref, e: Ref, i: nat, prio: nat)
    requires Valid(st, h) && t in st.threads && Blocked(st.threads[t].run) && st.threads[t].run.ep == e
    requires e in st.eps && e in h.contents && i < |h.contents[e]| && h.contents[e][i] == t
    ensures Unlinkable(st, t, e)
    ensures var threads := st.threads[t := st.threads[t].(prio := prio)];
            var rest := RemoveAt(h.contents[e], i);
            && (forall k :: 0 <= k < |rest| ==> rest[k] in threads)
            && Holds(RemoveLinks(st.links, t), RemoveEnds(st.eps[e].queue, st.links[t]), rest)
            && Linkable(st.(links := RemoveLinks(st.links, t)), t, e, Before(rest, Place(threads, rest, prio)),
                        After(rest, Place(threads, rest, prio)))
            && Valid(Reordered(st, t, e, prio, rest, Place(threads, rest, prio)),
                     Arrived(Gone(h, e, i), e, Place(threads, rest, prio), t))
  {
    var idle := Thread(prio, Inactive, st.threads[t].faulted);
    DetachReady(st, h, t, e, i, idle);
    DetachedValid(st, h, t, e, i, idle);
    RemoveHolds(st.links, st.eps[e].queue, h.contents[e], i);
    var mid, g := Detached(st, t, e, idle), Gone(h, e, i);
    ReenterValid(st, h, t, e, i, prio, idle, mid, g);
  }

  lemma ReenterValid(st: State, h: History, t: Ref, e: Ref, i: nat, prio: nat, idle: Thread, mid: State, g: History)
    requires CanDetach(st, h, t, e, i, idle) && idle == Thread(prio, Inactive, st.threads[t].faulted)
    requires Unlinkable(st, t, e) && Blocked(st.threads[t].run) && st.threads[t].run.ep == e && EpOk(st, h, e)
    requires mid == Detached(st, t, e, idle) && g == Gone(h, e, i) && Valid(mid, g)
    ensures var threads := st.threads[t := st.threads[t].(prio := prio)];
            var rest := RemoveAt(h.contents[e], i);
            && (forall k :: 0 <= k < |rest| ==> rest[k] in threads)
            && Linkable(mid, t, e, Before(rest, Place(threads, rest, prio)), After(rest, Place(threads, rest, prio)))
            && Valid(Reordered(st, t, e, prio, rest, Place(threads, rest, prio)),
                     Arrived(g, e, Place(threads, rest, prio), t))
  {
    var rest := RemoveAt(h.contents[e], i);
    assert EpOk(mid, g, e);
    SortedDescends(mid, g, e);
    var j := Place(mid.threads, rest, prio);
    PlaceIsPlace(mid.threads, rest, prio);
    PlaceSame(mid.threads, st.threads[t := st.threads[t].(prio := prio)], rest, prio);
    var run := st.threads[t].run;
    AttachReady(mid, g, t, e, j, run);
    AttachedValid(mid, g, t, e, j, run);
    ReorderedIs(st, h, t, e, i, prio, rest, j, idle);
  }

  /** `after` differs from `threads` in the threads of `hit`, which are cancelled. */
  ghost predicate RestartedIn(threads: map<Ref, Thread>, after: map<Ref, Thread>, hit: seq<Ref>) {
    after.Keys == threads.Keys && forall u :: u in threads ==>
      after[u] == if u in hit then Cancelled(threads[u]) else threads[u]
  }

  /** The queue when its first `k` threads have been looked at. */
  ghost function Thinning(threads: map<Ref, Thread>, s: seq<Ref>, k: nat, badge: nat): seq<Ref>
    requires k <= |s| && forall i :: 0 <= i < |s| ==> s[i] in threads
  {
    Keep(threads, s[..k], badge) + s[k..]
  }

  /** Thread `k` comes next, and its link leads to the one after it. */
  lemma ThinningNext(links: LinkMap, queue: Queue, threads: map<Ref, Thread>, s: seq<Ref>, k: nat, badge: nat)
    requires k <= |s| && (forall i :: 0 <= i < |s| ==> s[i] in threads)
    requires Holds(links, queue, Thinning(threads, s, k, badge))
    ensures After(s, k) == 0 <==> k == |s|
    ensures k < |s| ==> s[k] in links && links[s[k]].next == After(s, k + 1)
  {
    var kept := Keep(threads, s[..k], badge);
    var cur := kept + s[k..];
    Neighbours(links, queue, cur, |kept|);
    if k < |s| {
      assert LinkedAt(links, cur, |kept|);
      assert cur[|kept|] == s[k];
      assert k + 1 < |s| ==> cur[|kept| + 1] == s[k + 1];
    }
  }

  lemma KeepStep(threads: map<Ref, Thread>, s: seq<Ref>, k: nat, badge: nat)
    requires k < |s| && forall i :: 0 <= i < |s| ==> s[i] in threads
    ensures Keep(threads, s[..k + 1], badge)
            == Keep(threads, s[..k], badge) + if Matches(threads[s[k]], badge) then [] else [s[k]]
  {
    assert s[..k + 1][..k] == s[..k];
  }

  /** A thread with another badge stays where it is. */
  lemma ThinningKeeps(threads: map<Ref, Thread>, s: seq<Ref>, k: nat, badge: nat)
    requires k < |s| && (forall i :: 0 <= i < |s| ==> s[i] in threads) && !Matches(threads[s[k]], badge)
    ensures Thinning(threads, s, k + 1, badge) == Thinning(threads, s, k, badge)
  {
    KeepStep(threads, s, k, badge);
    assert s[k..] == [s[k]] + s[k + 1..];
  }

  /** A thread with the badge is unlinked. */
  lemma ThinningDrops(links0: LinkMap, links: LinkMap, queue: Queue, threads: map<Ref, Thread>, s: seq<Ref>, k: nat,
                      badge: nat)
    requires k < |s| && (forall i :: 0 <= i < |s| ==> s[i] in threads) && Matches(threads[s[k]], badge)
    requires Holds(links, queue, Thinning(threads, s, k, badge)) && OnlyIn(links0, links, s)
    ensures s[k] in links && (links[s[k]].prev == 0 || links[s[k]].prev in links)
    ensures (links[s[k]].next == 0 || links[s[k]].next in links)
    ensures Holds(RemoveLinks(links, s[k]), RemoveEnds(queue, links[s[k]]), Thinning(threads, s, k + 1, badge))
    ensures OnlyIn(links0, RemoveLinks(links, s[k]), s)
  {
    var cur := Thinning(threads, s, k, badge);
    var i := |Keep(threads, s[..k], badge)|;
    ThinningRemoved(threads, s, k, badge);
    RemoveHolds(links, queue, cur, i);
    RemoveOnlyIn(links, queue, cur, i);
    KeptWithin(threads, s, k, badge);
    OnlyInWithin(links0, links, RemoveLinks(links, s[k]), s, cur);
  }

  lemma ThinningRemoved(threads: map<Ref, Thread>, s: seq<Ref>, k: nat, badge: nat)
    requires k < |s| && (forall i :: 0 <= i < |s| ==> s[i] in threads) && Matches(threads[s[k]], badge)
    ensures var i := |Keep(threads, s[..k], badge)|;
            && i < |Thinning(threads, s, k, badge)| && Thinning(threads, s, k, badge)[i] == s[k]
            && RemoveAt(Thinning(threads, s, k, badge), i) == Thinning(threads, s, k + 1, badge)
  {
    KeepStep(threads, s, k, badge);
    var kept, tail := Keep(threads, s[..k], badge), s[k..];
    assert (kept + tail)[..|kept|] == kept && (kept + tail)[|kept| + 1..] == tail[1..];
    assert tail[1..] == s[k + 1..];
  }

  lemma OnlyInWithin(links0: LinkMap, links: LinkMap, after: LinkMap, s: seq<Ref>, part: seq<Ref>)
    requires OnlyIn(links0, links, s) && OnlyIn(links, after, part) && forall x :: x in part ==> x in s
    ensures OnlyIn(links0, after, s)
  {
  }

  lemma KeptWithin(threads: map<Ref, Thread>, s: seq<Ref>, k: nat, badge: nat)
    requires k <= |s| && forall i :: 0 <= i < |s| ==> s[i] in threads
    ensures forall x :: x in Thinning(threads, s, k, badge) ==> x in s
  {
    forall x | x in Keep(threads, s[..k], badge) ensures x in s {
      KeepExact(threads, s[..k], badge, x);
    }
  }

  lemma CancelledStep(threads: map<Ref, Thread>, after: map<Ref, Thread>, s: seq<Ref>, k: nat, badge: nat)
    requires k < |s| && Distinct(s) && (forall i :: 0 <= i < |s| ==> s[i] in threads)
    requires CancelledIn(threads, after, s[..k], badge)
    ensures after[s[k]] == threads[s[k]]
    ensures CancelledIn(threads,
                        if Matches(threads[s[k]], badge) then after[s[k] := Cancelled(threads[s[k]])] else after,
                        s[..k + 1], badge)
  {
    assert s[..k + 1] == s[..k] + [s[k]];
    assert s[k] !in s[..k];
  }

  /** The loop of cancelBadgedSends after `k` threads, with `thread` the next one. */
  ghost predicate LookedAt(st: State, now: State, queue: Queue, s: seq<Ref>, k: nat, thread: Ref, badge: nat) {
    && k <= |s| && (forall i :: 0 <= i < |s| ==> s[i] in st.threads) && Distinct(s) && thread == After(s, k)
    && Holds(now.links, queue, Thinning(st.threads, s, k, badge)) && OnlyIn(st.links, now.links, s)
    && CancelledIn(st.threads, now.threads, s[..k], badge)
  }

  lemma LookNext(st: State, now: State, queue: Queue, s: seq<Ref>, k: nat, thread: Ref, badge: nat)
    requires LookedAt(st, now, queue, s, k, thread, badge) && thread != 0
    ensures k < |s| && thread in now.threads && thread in now.links
    ensures (now.links[thread].prev == 0 || now.links[thread].prev in now.links)
    ensures (now.links[thread].next == 0 || now.links[thread].next in now.links)
    ensures Matches(now.threads[thread], badge) ==>
              LookedAt(st,
                       State(now.threads[thread := Cancelled(now.threads[thread])],
                             RemoveLinks(now.links, thread), now.eps),
                       RemoveEnds(queue, now.links[thread]), s, k + 1, now.links[thread].next, badge)
    ensures !Matches(now.threads[thread], badge) ==> LookedAt(st, now, queue, s, k + 1, now.links[thread].next, badge)
  {
    ThinningNext(now.links, queue, st.threads, s, k, badge);
    CancelledStep(st.threads, now.threads, s, k, badge);
    if Matches(now.threads[thread], badge) {
      ThinningDrops(st.links, now.links, queue, st.threads, s, k, badge);
    } else {
      ThinningKeeps(st.threads, s, k, badge);
      var i := |Keep(st.threads, s[..k], badge)|;
      assert Thinning(st.threads, s, k, badge)[i] == s[k];
      RemoveReady(now.links, queue, Thinning(st.threads, s, k, badge), i);
    }
  }

  lemma LookedAtAll(st: State, now: State, queue: Queue, s: seq<Ref>, k: nat, badge: nat)
    requires LookedAt(st, now, queue, s, k, 0, badge)
    ensures Holds(now.links, queue, Keep(st.threads, s, badge)) && OnlyIn(st.links, now.links, s)
    ensures CancelledIn(st.threads, now.threads, s, badge)
  {
    ThinningNext(now.links, queue, st.threads, s, k, badge);
    assert s[..k] == s && Thinning(st.threads, s, k, badge) == Keep(st.threads, s, badge);
  }

  lemma BadgedThinned(st: State, h: History, st2: State, e: Ref, badge: nat)
    requires e in st.eps && EpOk(st, h, e) && st.eps[e].state == Send
    requires OnlyIn(st.links, st2.links, h.contents[e]) && CancelledIn(st.threads, st2.threads, h.contents[e], badge)
    requires st2.eps.Keys == st.eps.Keys && (forall f :: f in st.eps && f != e ==> st2.eps[f] == st.eps[f])
    requires Holds(st2.links, st2.eps[e].queue, Keep(st.threads, h.contents[e], badge))
    requires st2.eps[e].state == if st2.eps[e].queue.head == 0 then Idle else Send
    ensures Thinned(st, h, st2, e, Keep(st.threads, h.contents[e], badge))
  {
    var s := h.contents[e];
    var kept := Keep(st.threads, s, badge);
    KeepSorted(st.threads, h, s, badge);
    Neighbours(st2.links, st2.eps[e].queue, kept, 0);
    forall u | u in st.threads
      ensures (u in kept ==> u in s) && (u in s && u !in kept ==> !Blocked(st2.threads[u].run))
      ensures (u in kept || u !in s ==> st2.threads[u] == st.threads[u])
    {
      KeepExact(st.threads, s, badge, u);
    }
  }

  /** Without `t` the queue of `e` is `rest`, and with `t` back in its place all is well, as `g` records. */
  ghost predicate CanReturn(st: State, h: History, t: Ref, e: Ref, prio: nat, rest: seq<Ref>, g: History)
    requires Unlinkable(st, t, e)
  {
    var threads := st.threads[t := st.threads[t].(prio := prio)];
    && (forall k :: 0 <= k < |rest| ==> rest[k] in threads)
    && Holds(RemoveLinks(st.links, t), RemoveEnds(st.eps[e].queue, st.links[t]), rest)
    && var i := Place(threads, rest, prio);
       && e in h.contents && g.contents == h.contents[e := InsertAt(rest, i, t)]
       && (Before(rest, i) == 0 || Before(rest, i) in RemoveLinks(st.links, t))
       && (After(rest, i) == 0 || After(rest, i) in RemoveLinks(st.links, t))
       && Valid(Reordered(st, t, e, prio, rest, i), g)
  }

  /** The queue without the thread, and the history in which it has come back. */
  lemma PriorityReady(st: State, h: History, t: Ref, prio: nat) returns (rest: seq<Ref>, g: History)
    requires Valid(st, h) && t in st.threads && Blocked(st.threads[t].run)
    ensures Unlinkable(st, t, st.threads[t].run.ep) && st.threads[t].run.ep in h.contents
    ensures rest == Without(h.contents[st.threads[t].run.ep], t)
    ensures CanReturn(st, h, t, st.threads[t].run.ep, prio, rest, g)
  {
    var e := st.threads[t].run.ep;
    assert ThreadOk(st, h, t) && EpOk(st, h, e);
    var i: nat :| i < |h.contents[e]| && h.contents[e][i] == t;
    WithoutAt(h.contents[e], i);
    rest, g := PlaceReady(st, h, t, e, i, prio);
  }

  lemma PlaceReady(st: State, h: History, t: Ref, e: Ref, i: nat, prio: nat) returns (rest: seq<Ref>, g: History)
    requires Valid(st, h) && t in st.threads && Blocked(st.threads[t].run) && st.threads[t].run.ep == e
    requires e in st.eps && e in h.contents && i < |h.contents[e]| && h.contents[e][i] == t
    ensures Unlinkable(st, t, e) && rest == RemoveAt(h.contents[e], i) && CanReturn(st, h, t, e, prio, rest, g)
  {
    ReorderedValid(st, h, t, e, i, prio);
    rest := RemoveAt(h.contents[e], i);
    g := Arrived(Gone(h, e, i), e, Place(st.threads[t := st.threads[t].(prio := prio)], rest, prio), t);
  }

  /** In the queue of `e`, `t` has moved to its place among the others, and no other queue has changed. */
  ghost predicate Moved(h: History, g: History, threads: map<Ref, Thread>, e: Ref, t: Ref) {
    && e in h.contents && t in threads
    && (forall k :: 0 <= k < |Without(h.contents[e], t)| ==> Without(h.contents[e], t)[k] in threads)
    && g.contents == h.contents[e := InsertAt(Without(h.contents[e], t),
                                             Place(threads, Without(h.contents[e], t), threads[t].prio), t)]
  }

  class Endpoints {
    var threads: map<Ref, Thread>
    var links: LinkMap
    var eps: map<Ref, Endpoint>
    ghost var h: History

    ghost function Snapshot(): State
      reads this
    {
      State(threads, links, eps)
    }

    ghost predicate Ready()
      reads this
    {
      Valid(Snapshot(), h)
    }

    /** Threads that do not wait, and idle endpoints. */
    constructor (threads: map<Ref, Thread>, endpoints: set<Ref>)
      requires 0 !in threads && forall t :: t in threads ==> !Blocked(threads[t].run)
      ensures Ready() && this.threads == threads && eps.Keys == endpoints
    {
      this.threads := threads;
      links := map t | t in threads :: Links(0, 0);
      eps := map e | e in endpoints :: Endpoint(Idle, EmptyQueue);
      h := History(map e | e in endpoints :: [], map[], 0);
      new;
      forall e | e in eps ensures EpOk(Snapshot(), h, e) {
      }
      forall t | t in threads ensures ThreadOk(Snapshot(), h, t) {
      }
    }

    /** The search of tcbEPAppend, from the back of the queue. */
    method FindPlace(t: Ref, queue: Queue, ghost s: seq<Ref>) returns (before: Ref, after: Ref)
      requires Holds(links, queue, s) && t in threads && forall k :: 0 <= k < |s| ==> s[k] in threads
      ensures before == Before(s, Place(threads, s, threads[t].prio))
      ensures after == After(s, Place(threads, s, threads[t].prio))
      ensures (before == 0 || before in links) && (after == 0 || after in links)
    {
      before, after := queue.end, 0;
      ghost var i := |s|;
      Neighbours(links, queue, s, i);
      assert s[..i] == s;
      while before != 0 && threads[t].prio > threads[before].prio
        invariant 0 <= i <= |s| && before == Before(s, i) && after == After(s, i)
        invariant before == 0 <==> i == 0
        invariant before == 0 || (before in links && before in threads)
        invariant after == 0 || after in links
        invariant Place(threads, s, threads[t].prio) == Place(threads, s[..i], threads[t].prio)
        decreases i
      {
        assert LinkedAt(links, s, i - 1);
        assert s[..i][..i - 1] == s[..i - 1];
        after := before;
        before := links[after].prev;
        i := i - 1;
        Neighbours(links, queue, s, i);
      }
    }

    /** tcbEPAppend */
    method TcbEPAppend(t: Ref, queue: Queue, ghost s: seq<Ref>) returns (longer: Queue)
      requires Holds(links, queue, s) && t in threads && forall k :: 0 <= k < |s| ==> s[k] in threads
      modifies `links
      ensures var i := Place(threads, s, threads[t].prio);
              && (Before(s, i) == 0 || Before(s, i) in old(links)) && (After(s, i) == 0 || After(s, i) in old(links))
              && longer == InsertEnds(queue, t, Before(s, i), After(s, i))
              && links == InsertLinks(old(links), t, Before(s, i), After(s, i))
    {
      var before, after := FindPlace(t, queue, s);
      longer := queue;
      if before == 0 {
        longer := longer.(head := t);
      } else {
        links := links[before := links[before].(next := t)];
      }
      if after == 0 {
        longer := longer.(end := t);
      } else {
        links := links[after := links[after].(prev := t)];
      }
      links := links[t := Links(before, after)];
    }

    /** tcbEPDequeue */
    method TcbEPDequeue(t: Ref, queue: Queue) returns (shorter: Queue)
      requires t in links && (links[t].prev == 0 || links[t].prev in links)
      requires (links[t].next == 0 || links[t].next in links)
      modifies `links
      ensures shorter == RemoveEnds(queue, old(links[t])) && links == RemoveLinks(old(links), t)
    {
      var prev, next := links[t].prev, links[t].next;
      shorter := queue;
      if prev != 0 {
        links := links[prev := links[prev].(next := next)];
      } else {
        shorter := shorter.(head := next);
      }
      if next != 0 {
        links := links[next := links[next].(prev := prev)];
      } else {
        shorter := shorter.(end := prev);
      }
    }

    /** A thread starts to wait on an endpoint. */
    method Block(t: Ref, e: Ref, run: Run)
      requires Ready() && t in threads && !Blocked(threads[t].run) && e in eps
      requires Blocked(run) && run.ep == e && (eps[e].state == Idle || eps[e].state == Direction(run))
      modifies this
      ensures Ready() && eps.Keys == old(eps).Keys && threads == old(threads)[t := old(threads[t]).(run := run)]
      ensures e in old(h).contents && Descending(old(threads), old(h).contents[e])
      ensures h.contents
              == old(h).contents[e := InsertAt(old(h).contents[e],
                                               Place(old(threads), old(h).contents[e], old(threads[t]).prio), t)]
    {
      ghost var st := Snapshot();
      ghost var s := h.contents[e];
      assert EpOk(st, h, e) && ThreadOk(st, h, t);
      SortedDescends(st, h, e);
      ghost var i := Place(threads, s, threads[t].prio);
      PlaceIsPlace(threads, s, threads[t].prio);
      AttachReady(st, h, t, e, i, run);
      AttachedValid(st, h, t, e, i, run);
      Enter(t, e, run, s);
      h := Arrived(h, e, i, t);
    }

    method Enter(t: Ref, e: Ref, run: Run, ghost s: seq<Ref>)
      requires t in threads && e in eps && Holds(links, eps[e].queue, s) && Descending(threads, s)
      requires (forall k :: 0 <= k < |s| ==> s[k] != t)
      requires Linkable(Snapshot(), t, e, Before(s, Place(threads, s, threads[t].prio)),
                        After(s, Place(threads, s, threads[t].prio)))
      modifies `threads, `links, `eps
      ensures Snapshot() == Attached(old(Snapshot()), t, e, Before(s, Place(old(threads), s, old(threads[t]).prio)),
                                     After(s, Place(old(threads), s, old(threads[t]).prio)), run)
    {
      var queue := TcbEPAppend(t, eps[e].queue, s);
      threads := threads[t := threads[t].(run := run)];
      eps := eps[e := eps[e].(state := Direction(run))];
      eps := eps[e := eps[e].(queue := queue)];
    }

    /** A waiting thread leaves its queue and becomes `thread`. */
    method Unblock(t: Ref, e: Ref, thread: Thread)
      requires Ready() && t in threads && Blocked(threads[t].run) && threads[t].run.ep == e && !Blocked(thread.run)
      modifies this
      ensures Ready() && threads == old(threads)[t := thread] && e in old(h).contents && e in old(eps)
      ensures h == old(h).(contents := old(h).contents[e := Without(old(h).contents[e], t)])
      ensures eps.Keys == old(eps).Keys && eps[e].state == if h.contents[e] == [] then Idle else old(eps)[e].state
    {
      ghost var st := Snapshot();
      assert ThreadOk(st, h, t) && EpOk(st, h, e);
      ghost var i: nat :| i < |h.contents[e]| && h.contents[e][i] == t;
      DetachReady(st, h, t, e, i, thread);
      DetachedValid(st, h, t, e, i, thread);
      WithoutAt(h.contents[e], i);
      Leave(t, e, thread);
      h := Gone(h, e, i);
      assert EpOk(Snapshot(), h, e);
    }

    method Leave(t: Ref, e: Ref, thread: Thread)
      requires Unlinkable(Snapshot(), t, e)
      modifies `threads, `links, `eps
      ensures Snapshot() == Detached(old(Snapshot()), t, e, thread)
    {
      var queue := TcbEPDequeue(t, eps[e].queue);
      eps := eps[e := eps[e].(queue := queue)];
      if queue.head == 0 {
        eps := eps[e := eps[e].(state := Idle)];
      }
      threads := threads[t := thread];
    }

    /** setThreadState for a thread that is not waiting on an endpoint */
    method SetRun(t: Ref, run: Run)
      requires Ready() && t in threads && !Blocked(threads[t].run) && !Blocked(run)
      modifies `threads
      ensures Ready() && threads == old(threads)[t := old(threads[t]).(run := run)]
    {
      RunChangedValid(Snapshot(), h, t, threads[t].(run := run));
      threads := threads[t := threads[t].(run := run)];
    }

    /** sendIPC: `canGrant` is whether either grant right is present. */
    method SendIPC(blocking: bool, doCall: bool, badge: nat, canGrant: bool, t: Ref, e: Ref)
      requires Ready() && t in threads && !Blocked(threads[t].run) && e in eps
      modifies this
      ensures Ready() && eps.Keys == old(eps).Keys && e in old(h).contents
      ensures (forall k :: 0 <= k < |old(h).contents[e]| ==> old(h).contents[e][k] in old(threads))
      ensures old(eps[e].state) != Recv && !blocking ==> h == old(h) && threads == old(threads)
      ensures old(eps[e].state) != Recv && blocking ==>
                && threads == old(threads)[t := old(threads[t]).(run := BlockedOnSend(e, badge, canGrant, doCall))]
                && h.contents
                   == old(h).contents[e := InsertAt(old(h).contents[e],
                                                    Place(old(threads), old(h).contents[e], old(threads[t]).prio), t)]
      ensures old(eps[e].state) == Recv ==>
                && |old(h).contents[e]| > 0 && h.contents == old(h).contents[e := old(h).contents[e][1..]]
                && old(threads)[old(h).contents[e][0]].run.BlockedOnReceive?
                && threads == Rendezvous(old(threads), t, old(h).contents[e][0], doCall, canGrant)
    {
      assert EpOk(Snapshot(), h, e);
      ghost var s := h.contents[e];
      if eps[e].state != Recv {
        if blocking {
          Block(t, e, BlockedOnSend(e, badge, canGrant, doCall));
        }
      } else {
        var dest := eps[e].queue.head;
        assert dest == s[0];
        var hasReply := threads[dest].run.hasReply;
        Unblock(dest, e, threads[dest].(run := Running));
        if doCall || threads[t].faulted {
          SetRun(t, if canGrant && hasReply then BlockedOnReply else Inactive);
        }
      }
    }

    /** receiveIPC, without bound notifications: `hasReply` is whether a reply object was given. */
    method ReceiveIPC(blocking: bool, hasReply: bool, t: Ref, e: Ref)
      requires Ready() && t in threads && !Blocked(threads[t].run) && e in eps
      modifies this
      ensures Ready() && eps.Keys == old(eps).Keys && e in old(h).contents
      ensures (forall k :: 0 <= k < |old(h).contents[e]| ==> old(h).contents[e][k] in old(threads))
      ensures old(eps[e].state) != Send && !blocking ==> h == old(h) && threads == old(threads)
      ensures old(eps[e].state) != Send && blocking ==>
                && threads == old(threads)[t := old(threads[t]).(run := BlockedOnReceive(e, hasReply))]
                && h.contents
                   == old(h).contents[e := InsertAt(old(h).contents[e],
                                                    Place(old(threads), old(h).contents[e], old(threads[t]).prio), t)]
      ensures old(eps[e].state) == Send ==>
                && |old(h).contents[e]| > 0 && h.contents == old(h).contents[e := old(h).contents[e][1..]]
                && old(threads)[old(h).contents[e][0]].run.BlockedOnSend?
                && threads == old(threads)[old(h).contents[e][0] := Sent(old(threads)[old(h).contents[e][0]], hasReply)]
    {
      assert EpOk(Snapshot(), h, e);
      ghost var s := h.contents[e];
      if eps[e].state != Send {
        if blocking {
          Block(t, e, BlockedOnReceive(e, hasReply));
        }
      } else {
        var sender := eps[e].queue.head;
        assert sender == s[0];
        Unblock(sender, e, Sent(threads[sender], hasReply));
      }
    }

    /** cancelIPC, without the notification case */
    method CancelIPC(t: Ref)
      requires Ready() && t in threads
      modifies this
      ensures Ready() && t in threads && threads[t := old(threads[t])] == old(threads)
      ensures threads[t] == old(threads[t]).(run := threads[t].run, faulted := false) && eps.Keys == old(eps).Keys
      ensures threads[t].run == if old(Blocked(threads[t].run)) || old(threads[t].run) == BlockedOnReply then Inactive
                                else old(threads[t].run)
      ensures old(Blocked(threads[t].run)) ==>
                && old(threads[t].run.ep) in old(h).contents
                && h.contents
                   == old(h).contents[old(threads[t].run.ep) := Without(old(h).contents[old(threads[t].run.ep)], t)]
      ensures !old(Blocked(threads[t].run)) ==> h == old(h)
    {
      if Blocked(threads[t].run) {
        Unblock(t, threads[t].run.ep, threads[t].(run := Inactive, faulted := false));
      } else {
        var run := if threads[t].run == BlockedOnReply then Inactive else threads[t].run;
        RunChangedValid(Snapshot(), h, t, threads[t].(run := run, faulted := false));
        threads := threads[t := threads[t].(run := run, faulted := false)];
      }
    }

    /** setPriority: a thread that waits on an endpoint moves, by reorderEP, behind all threads that are at least
        as high; any other only changes its priority. */
    method SetPriority(t: Ref, prio: nat)
      requires Ready() && t in threads
      modifies this
      ensures Ready() && threads == old(threads)[t := old(threads[t]).(prio := prio)]
      ensures !old(Blocked(threads[t].run)) ==> h == old(h) && eps == old(eps) && links == old(links)
      ensures old(Blocked(threads[t].run)) ==> Moved(old(h), h, threads, old(threads[t].run.ep), t)
    {
      if Blocked(threads[t].run) {
        ghost var rest, g := PriorityReady(Snapshot(), h, t, prio);
        Reprioritise(t, threads[t].run.ep, prio, rest);
        h := g;
      } else {
        RunChangedValid(Snapshot(), h, t, threads[t].(prio := prio));
        threads := threads[t := threads[t].(prio := prio)];
      }
    }

    method Reprioritise(t: Ref, e: Ref, prio: nat, ghost rest: seq<Ref>)
      requires Unlinkable(Snapshot(), t, e) && forall k :: 0 <= k < |rest| ==> rest[k] in threads
      requires Holds(RemoveLinks(links, t), RemoveEnds(eps[e].queue, links[t]), rest)
      modifies `threads, `links, `eps
      ensures threads == old(threads)[t := old(threads[t]).(prio := prio)]
      ensures var i := Place(threads, rest, prio);
              && (Before(rest, i) == 0 || Before(rest, i) in RemoveLinks(old(links), t))
              && (After(rest, i) == 0 || After(rest, i) in RemoveLinks(old(links), t))
              && Snapshot() == Reordered(old(Snapshot()), t, e, prio, rest, i)
    {
      threads := threads[t := threads[t].(prio := prio)];
      ReorderEP(e, t, rest);
    }

    /** reorderEP */
    method ReorderEP(e: Ref, t: Ref, ghost rest: seq<Ref>)
      requires t in threads && e in eps && Unlinkable(Snapshot(), t, e)
      requires Holds(RemoveLinks(links, t), RemoveEnds(eps[e].queue, links[t]), rest)
      requires forall k :: 0 <= k < |rest| ==> rest[k] in threads
      modifies `links, `eps
      ensures var i := Place(threads, rest, threads[t].prio);
              var shorter := RemoveLinks(old(links), t);
              && (Before(rest, i) == 0 || Before(rest, i) in shorter)
              && (After(rest, i) == 0 || After(rest, i) in shorter)
              && links == InsertLinks(shorter, t, Before(rest, i), After(rest, i))
              && eps == old(eps)[e := old(eps[e]).(queue := InsertEnds(RemoveEnds(old(eps[e].queue), old(links[t])), t,
                                                                       Before(rest, i), After(rest, i)))]
    {
      var queue := TcbEPDequeue(t, eps[e].queue);
      queue := TcbEPAppend(t, queue, rest);
      eps := eps[e := eps[e].(queue := queue)];
    }

    /** cancelAllIPC, without its effect on the scheduler */
    method CancelAllIPC(e: Ref)
      requires Ready() && e in eps
      modifies this
      ensures Ready() && e in old(h).contents && h == old(h).(contents := old(h).contents[e := []])
      ensures e in eps && eps[e].state == Idle
      ensures RestartedIn(old(threads), threads, old(h).contents[e])
      ensures forall u :: u in old(h).contents[e] && u in threads && u in old(threads) ==>
                (Runs(threads[u].run) <==> !old(threads)[u].faulted)
    {
      ghost var st := Snapshot();
      assert EpOk(st, h, e);
      ghost var s := h.contents[e];
      if eps[e].state != Idle {
        var thread := eps[e].queue.head;
        eps := eps[e := eps[e].(state := Idle)];
        eps := eps[e := eps[e].(queue := EmptyQueue)];
        RestartAll(thread, st.eps[e].queue, s);
        ThinnedValid(st, h, Snapshot(), e, []);
        h := h.(contents := h.contents[e := []]);
      } else {
        assert h.contents[e := []] == h.contents;
      }
    }

    /** The loop of cancelAllIPC along the links of the queue. */
    method RestartAll(head: Ref, ghost queue: Queue, ghost s: seq<Ref>)
      requires Holds(links, queue, s) && head == After(s, 0) && forall k :: 0 <= k < |s| ==> s[k] in threads
      modifies `threads
      ensures RestartedIn(old(threads), threads, s)
    {
      var thread := head;
      ghost var k := 0;
      while thread != 0
        invariant 0 <= k <= |s| && thread == After(s, k)
        invariant RestartedIn(old(threads), threads, s[..k])
        decreases |s| - k
      {
        Neighbours(links, queue, s, k);
        assert s[..k + 1] == s[..k] + [s[k]];
        assert thread !in s[..k];
        threads := threads[thread := Cancelled(threads[thread])];
        thread := links[thread].next;
        k := k + 1;
      }
      Neighbours(links, queue, s, k);
      assert s[..k] == s;
    }

    /** cancelBadgedSends, without its effect on the scheduler: removes exactly the senders with the badge
        and keeps the rest in order. */
    method CancelBadgedSends(e: Ref, badge: nat)
      requires Ready() && e in eps
      modifies this
      ensures Ready() && e in old(h).contents
      ensures (forall k :: 0 <= k < |old(h).contents[e]| ==> old(h).contents[e][k] in old(threads))
      ensures old(eps[e].state) != Send ==> h == old(h) && threads == old(threads) && eps == old(eps)
      ensures old(eps[e].state) == Send ==>
                && h == old(h).(contents := old(h).contents[e := Keep(old(threads), old(h).contents[e], badge)])
                && CancelledIn(old(threads), threads, old(h).contents[e], badge)
    {
      ghost var st := Snapshot();
      assert EpOk(st, h, e);
      ghost var s := h.contents[e];
      if eps[e].state == Send {
        var queue := eps[e].queue;
        eps := eps[e := Endpoint(Idle, EmptyQueue)];
        queue := CancelMatching(queue, badge, s);
        eps := eps[e := eps[e].(queue := queue)];
        if queue.head != 0 {
          eps := eps[e := eps[e].(state := Send)];
        }
        ghost var kept := Keep(st.threads, s, badge);
        BadgedThinned(st, h, Snapshot(), e, badge);
        ThinnedValid(st, h, Snapshot(), e, kept);
        h := h.(contents := h.contents[e := kept]);
      }
    }

    /** One round of that loop. */
    method LookAt(thread: Ref, queue: Queue, badge: nat) returns (rest: Queue)
      requires thread in threads && thread in links
      requires (links[thread].prev == 0 || links[thread].prev in links)
      requires (links[thread].next == 0 || links[thread].next in links)
      modifies `threads, `links
      ensures if old(Matches(threads[thread], badge))
              then Snapshot()
                == State(old(threads)[thread := Cancelled(old(threads[thread]))], RemoveLinks(old(links), thread), eps)
                   && rest == RemoveEnds(queue, old(links[thread]))
              else Snapshot() == old(Snapshot()) && rest == queue
    {
      rest := queue;
      if Matches(threads[thread], badge) {
        threads := threads[thread := Cancelled(threads[thread])];
        rest := TcbEPDequeue(thread, queue);
      }
    }

    /** The loop of cancelBadgedSends over a queue that is no longer the endpoint's. */
    method CancelMatching(whole: Queue, badge: nat, ghost s: seq<Ref>) returns (queue: Queue)
      requires Holds(links, whole, s) && forall k :: 0 <= k < |s| ==> s[k] in threads
      modifies `threads, `links
      ensures Holds(links, queue, Keep(old(threads), s, badge)) && OnlyIn(old(links), links, s)
      ensures CancelledIn(old(threads), threads, s, badge)
    {
      ghost var st := Snapshot();
      queue := whole;
      var thread := queue.head;
      ghost var k := 0;
      assert Thinning(st.threads, s, 0, badge) == s;
      while thread != 0
        invariant LookedAt(st, Snapshot(), queue, s, k, thread, badge)
        decreases |s| - k
      {
        ghost var now := Snapshot();
        LookNext(st, now, queue, s, k, thread, badge);
        var next := links[thread].next;
        queue := LookAt(thread, queue, badge);
        thread := next;
        k := k + 1;
      }
      LookedAtAll(st, Snapshot(), queue, s, k, badge);
    }
  }

  /** What two threads that meet on an endpoint end in: the receiver goes on, and so does the sender unless it called or
      has a fault; then it waits for the reply if there is one to be expected. */
  function Met(threads: map<Ref, Thread>, t: Ref, doCall: bool, canGrant: bool, hasReply: bool): map<Ref, Thread>
    requires t in threads
  {
    var waits := doCall || threads[t].faulted;
    threads[t := threads[t].(run := if !waits then Running
                                    else if canGrant && hasReply then BlockedOnReply
                                    else Inactive)]
  }

  ghost predicate CanMeet(x: Endpoints, t: Ref, u: Ref, e: Ref)
    reads x
  {
    && x.Ready() && t in x.threads && u in x.threads && t != u && e in x.eps && x.eps[e].state == Idle
    && x.threads[t].run == Running && x.threads[u].run == Running
  }

  method SendFirst(x: Endpoints, doCall: bool, badge: nat, canGrant: bool, hasReply: bool, t: Ref, u: Ref, e: Ref)
    requires CanMeet(x, t, u, e)
    modifies x
    ensures x.Ready() && x.threads == Met(old(x.threads), t, doCall, canGrant, hasReply)
    ensures e in x.eps && x.eps[e].state == Idle
  {
    assert EpOk(x.Snapshot(), x.h, e);
    x.SendIPC(true, doCall, badge, canGrant, t, e);
    assert EpOk(x.Snapshot(), x.h, e);
    assert x.h.contents[e] == [t];
    x.ReceiveIPC(true, hasReply, u, e);
    assert EpOk(x.Snapshot(), x.h, e);
  }

  method ReceiveFirst(x: Endpoints, doCall: bool, badge: nat, canGrant: bool, hasReply: bool, t: Ref, u: Ref, e: Ref)
    requires CanMeet(x, t, u, e)
    modifies x
    ensures x.Ready() && x.threads == Met(old(x.threads), t, doCall, canGrant, hasReply)
    ensures e in x.eps && x.eps[e].state == Idle
  {
    assert EpOk(x.Snapshot(), x.h, e);
    x.ReceiveIPC(true, hasReply, u, e);
    assert EpOk(x.Snapshot(), x.h, e);
    assert x.h.contents[e] == [u];
    x.SendIPC(true, doCall, badge, canGrant, t, e);
    assert EpOk(x.Snapshot(), x.h, e);
  }

  /** Whether the sender or the receiver comes first, all threads end in the same state. */
  method MeetEitherWay(x: Endpoints, y: Endpoints, doCall: bool, badge: nat, canGrant: bool, hasReply: bool,
                       t: Ref, u: Ref, e: Ref)
    requires x != y && CanMeet(x, t, u, e) && CanMeet(y, t, u, e) && x.threads == y.threads
    modifies x, y
    ensures x.Ready() && y.Ready() && x.threads == y.threads
    ensures t in x.threads && (Runs(x.threads[t].run) <==> !doCall && !old(x.threads[t].faulted))
  {
    SendFirst(x, doCall, badge, canGrant, hasReply, t, u, e);
    ReceiveFirst(y, doCall, badge, canGrant, hasReply, t, u, e);
  }

  datatype Op =
    | SendOp(blocking: bool, doCall: bool, badge: nat, canGrant: bool, t: Ref, e: Ref)
    | ReceiveOp(blocking: bool, hasReply: bool, t: Ref, e: Ref)
    | CancelOp(t: Ref) | CancelAllOp(e: Ref) | CancelBadgedOp(e: Ref, badge: nat)
    | PriorityOp(t: Ref, prio: nat) | RunOp(t: Ref, run: Run)

  /** Any run of operations from idle endpoints leaves every queue in order. */
  method RunOps(threads: map<Ref, Thread>, endpoints: set<Ref>, ops: seq<Op>) returns (x: Endpoints)
    requires 0 !in threads && forall t :: t in threads ==> !Blocked(threads[t].run)
    ensures x.Ready() && fresh(x)
  {
    x := new Endpoints(threads, endpoints);
    for i := 0 to |ops|
      invariant fresh(x) && x.Ready()
    {
      match ops[i]
      case SendOp(blocking, doCall, badge, canGrant, t, e) =>
        if t in x.threads && !Blocked(x.threads[t].run) && e in x.eps {
          x.SendIPC(blocking, doCall, badge, canGrant, t, e);
        }
      case ReceiveOp(blocking, hasReply, t, e) =>
        if t in x.threads && !Blocked(x.threads[t].run) && e in x.eps { x.ReceiveIPC(blocking, hasReply, t, e); }
      case CancelOp(t) => if t in x.threads { x.CancelIPC(t); }
      case CancelAllOp(e) => if e in x.eps { x.CancelAllIPC(e); }
      case CancelBadgedOp(e, badge) => if e in x.eps { x.CancelBadgedSends(e, badge); }
      case PriorityOp(t, prio) => if t in x.threads { x.SetPriority(t, prio); }
      case RunOp(t, run) => if t in x.threads && !Blocked(x.threads[t].run) && !Blocked(run) { x.SetRun(t, run); }
    }
  }
}
