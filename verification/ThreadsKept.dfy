/** No thread gets lost between the queues: one that is current, queued or the candidate and can run stays one of
    these (kernel/src/kernel/thread.c, kernel/src/object/schedcontext.c). */
module ThreadsKept {
  import opened TcbQueues
  import opened ReadyQueues
  import opened SchedulerLaw

  /** `t` is in the queue of its level. */
  ghost predicate Listed(v: View, t: Ref) {
    t in v.tcbs && LevelOf(v.tcbs[t]) in v.queues && t in v.queues[LevelOf(v.tcbs[t])]
  }

  /** The threads marked as queued are. */
  ghost predicate AllListed(v: View) {
    forall t {:trigger Listed(v, t)} :: t in v.tcbs && v.tcbs[t].queued ==> Listed(v, t)
  }

  ghost predicate Whole(m: Setup, s: Sched) {
    Ok(m, s) && AllListed(s.v)
  }

  /** The scheduler knows of `t`: it is current, the candidate, or in its queue. */
  ghost predicate InHand(s: Sched, t: Ref) {
    t == s.cur || s.action == SwitchTo(t) || Listed(s.v, t)
  }

  ghost predicate CanRun(s: Sched, t: Ref) {
    IsSchedulable(At(s.v, t))
  }

  /** Every thread that was in hand and can run afterwards still is. */
  ghost predicate NoneLost(s: Sched, r: Sched) {
    forall t :: InHand(s, t) && CanRun(r, t) ==> InHand(r, t)
  }

  // ---------------------------------------------------------------- queues

  /** Of the threads in `v`, at most `t` is not in its queue in `w`. */
  ghost predicate Carries(v: View, w: View, t: Ref) {
    AllListed(w) && forall x :: Listed(v, x) && x != t ==> Listed(w, x)
  }

  lemma {:induction false} PutLists(c: Config, v: View, t: Ref)
    requires ViewOk(c, v) && AllListed(v) && t in v.tcbs
    ensures Carries(v, Put(v, t), t) && Listed(Put(v, t), t)
    ensures Carries(v, PutLast(v, t), t) && Listed(PutLast(v, t), t)
  {
    PutListed(c, v, t, Put(v, t));
    PutListed(c, v, t, PutLast(v, t));
  }

  lemma {:induction false} PutListed(c: Config, v: View, t: Ref, w: View)
    requires ViewOk(c, v) && AllListed(v) && t in v.tcbs && (w == Put(v, t) || w == PutLast(v, t))
    ensures Carries(v, w, t) && Listed(w, t)
  {
    assert ThreadFine(c, v.tcbs[t]);
    if v.tcbs[t].queued {
      assert Listed(v, t);
    } else {
      forall x | Listed(v, x) ensures Listed(w, x) {
      }
      forall x | x in w.tcbs && w.tcbs[x].queued ensures Listed(w, x) {
        assert x != t ==> Listed(v, x);
      }
    }
  }

  lemma {:induction false} TakeLists(c: Config, v: View, t: Ref)
    requires ViewOk(c, v) && AllListed(v)
    ensures Carries(v, Take(v, t), t)
  {
    var w := Take(v, t);
    forall x | Listed(v, x) && x != t ensures Listed(w, x) {
      var l := LevelOf(v.tcbs[x]);
      assert QueueFine(v, l);
      WithoutIn(v.queues[l], t);
    }
    forall x | x in w.tcbs && w.tcbs[x].queued ensures Listed(w, x) {
      assert Listed(v, x);
      assert x != t by { if x == t { TakenOut(c, v, t); } }
    }
  }

  lemma {:induction false} SetLists(v: View, t: Ref, tcb: Tcb)
    requires AllListed(v) && (At(v, t).queued ==> LevelOf(tcb) == LevelOf(At(v, t)))
    ensures Carries(v, Set(v, t, tcb), t)
    ensures LevelOf(tcb) == LevelOf(At(v, t)) && Listed(v, t) ==> Listed(Set(v, t, tcb), t)
  {
    var w := Set(v, t, tcb);
    forall x | x in w.tcbs && w.tcbs[x].queued ensures Listed(w, x) {
      assert Listed(v, x);
    }
  }

  // ---------------------------------------------------------------- the steps

  /** The same threads can run. */
  ghost predicate SameAble(s: Sched, r: Sched) {
    forall t {:trigger CanRun(r, t)} :: CanRun(r, t) <==> CanRun(s, t)
  }

  lemma {:induction false} RescheduledKeeps(m: Setup, s: Sched)
    requires Whole(m, s)
    ensures AllListed(Rescheduled(s).v) && NoneLost(s, Rescheduled(s)) && SameAble(s, Rescheduled(s))
  {
    if s.action.SwitchTo? { PutLists(m.c, s.v, s.action.thread); }
  }

  /** A step that goes on with rescheduleRequired. */
  lemma {:induction false} ThenRescheduled(m: Setup, s: Sched, r: Sched)
    requires Whole(m, r) && NoneLost(s, r)
    ensures AllListed(Rescheduled(r).v) && NoneLost(s, Rescheduled(r)) && SameAble(r, Rescheduled(r))
  {
    RescheduledKeeps(m, r);
    forall t | InHand(s, t) && CanRun(Rescheduled(r), t) ensures InHand(Rescheduled(r), t) {
      assert CanRun(r, t);
    }
  }

  lemma {:induction false} WokenKeeps(m: Setup, s: Sched, t: Ref)
    requires Whole(m, s) && t in s.v.tcbs && s.v.tcbs[t].runnable
    ensures AllListed(Woken(s, t).v) && NoneLost(s, Woken(s, t))
    ensures s.v.tcbs[t].hasContext ==> InHand(Woken(s, t), t)
  {
    if s.v.tcbs[t].hasContext {
      if s.v.tcbs[t].domain != s.dom {
        PutLists(m.c, s.v, t);
      } else if s.action != Resume {
        RescheduledKeeps(m, s);
        RescheduledOk(m, s);
        PutLists(m.c, Rescheduled(s).v, t);
      }
    }
  }

  lemma {:induction false} StateSetKeeps(m: Setup, s: Sched, t: Ref, runnable: bool)
    requires Whole(m, s) && t in s.v.tcbs && (s.v.tcbs[t].queued ==> runnable)
    ensures AllListed(StateSet(s, t, runnable).v) && NoneLost(s, StateSet(s, t, runnable))
  {
    assert ThreadFine(m.c, s.v.tcbs[t]);
    var tcb := At(s.v, t).(runnable := runnable);
    var r := s.(v := Set(s.v, t, tcb));
    SetLists(s.v, t, tcb);
    SetOkIn(m, s, t, tcb);
    ThenRescheduled(m, s, r);
  }

  lemma {:induction false} ParkedKeeps(m: Setup, s: Sched, t: Ref)
    requires Whole(m, s) && t in s.v.tcbs
    ensures Whole(m, s.(v := Parked(s.v, t))) && NoneLost(s, s.(v := Parked(s.v, t)))
  {
    ParkedOk(m, s, t);
    TakeLists(m.c, s.v, t);
    TakenOut(m.c, s.v, t);
    SetLists(Take(s.v, t), t, At(s.v, t).(hasContext := false));
  }

  lemma {:induction false} SuspendedKeeps(m: Setup, s: Sched, t: Ref)
    requires Whole(m, s) && t in s.v.tcbs
    ensures AllListed(Suspended(s, t).v) && NoneLost(s, Suspended(s, t))
  {
    SuspendedIs(m, s, t);
    TakeOk(m.c, s.v, t);
    TakenOut(m.c, s.v, t);
    TakeLists(m.c, s.v, t);
    assert ThreadFine(m.c, s.v.tcbs[t]);
    var out := s.(v := Take(s.v, t));
    StateSetKeeps(m, out, t, false);
    forall x | InHand(s, x) && CanRun(Suspended(s, t), x) ensures InHand(Suspended(s, t), x) {
      assert x != t;
      assert InHand(out, x);
    }
  }

  lemma {:induction false} UnboundKeeps(m: Setup, s: Sched, t: Ref)
    requires Whole(m, s) && t in s.v.tcbs
    ensures AllListed(Unbound(s, t).v) && NoneLost(s, Unbound(s, t))
    ensures AllListed(Stripped(s, t).v) && NoneLost(s, Stripped(s, t))
  {
    ParkedKeeps(m, s, t);
    ThenRescheduled(m, s, s.(v := Parked(s.v, t)));
    if t == s.cur {
      RescheduledKeeps(m, s);
      RescheduledOk(m, s);
      var r := Rescheduled(s);
      ParkedKeeps(m, r, t);
      ParkedOk(m, r, t);
      forall x | InHand(s, x) && CanRun(Unbound(s, t), x) ensures InHand(Unbound(s, t), x) {
        assert CanRun(r, x);
      }
    }
  }

  lemma {:induction false} BoundKeeps(m: Setup, s: Sched, t: Ref)
    requires Whole(m, s) && t in s.v.tcbs
    ensures AllListed(Released(s, t).v) && NoneLost(s, Released(s, t))
    ensures AllListed(Bound(s, t).v) && NoneLost(s, Bound(s, t)) && (s.v.tcbs[t].runnable ==> InHand(Bound(s, t), t))
  {
    assert ThreadFine(m.c, s.v.tcbs[t]);
    SetLists(s.v, t, At(s.v, t).(hasContext := true));
    BoundOk(m, s, t);
    if s.v.tcbs[t].runnable {
      var r := Released(s, t);
      PutOkIn(m, r, t);
      PutLists(m.c, r.v, t);
      var q := r.(v := Put(r.v, t));
      ThenRescheduled(m, s, q);
      RescheduledKeeps(m, q);
      assert InHand(q, t) && CanRun(Rescheduled(q), t);
    }
  }

  /** `t` taken out, changed and put back where it now belongs. */
  lemma {:induction false} ReplacedKeeps(m: Setup, s: Sched, t: Ref, tcb: Tcb)
    requires Whole(m, s) && t in s.v.tcbs && Known(m.c, LevelOf(tcb))
    ensures var out := s.(v := Set(Take(s.v, t), t, tcb));
            && Whole(m, out) && (!IsSchedulable(tcb) ==> NoneLost(s, out))
            && (IsSchedulable(tcb) ==>
                  var back := s.(v := Put(out.v, t));
                  Whole(m, back) && NoneLost(s, back) && Listed(back.v, t))
  {
    ReplacedOk(m, s, t, tcb);
    TakeOk(m.c, s.v, t);
    TakenOut(m.c, s.v, t);
    TakeLists(m.c, s.v, t);
    SetLists(Take(s.v, t), t, tcb);
    PutLists(m.c, Set(Take(s.v, t), t, tcb), t);
  }

  lemma {:induction false} PrioritisedKeeps(m: Setup, s: Sched, t: Ref, prio: nat)
    requires Whole(m, s) && Applies(m, s, Prioritise(t, prio))
    ensures AllListed(Prioritised(s, t, prio).v) && NoneLost(s, Prioritised(s, t, prio))
  {
    assert ThreadFine(m.c, s.v.tcbs[t]);
    var tcb := At(s.v, t).(prio := prio);
    if tcb.runnable && (tcb.queued || t == s.cur) {
      ReplacedKeeps(m, s, t, tcb);
      ThenRescheduled(m, s, s.(v := Put(Set(Take(s.v, t), t, tcb), t)));
    } else {
      SetLists(s.v, t, tcb);
      assert Listed(s.v, t) ==> t == s.cur by { NotListed(m.c, s.v, t); }
    }
  }

  lemma {:induction false} NotListed(c: Config, v: View, t: Ref)
    requires ViewOk(c, v) && !At(v, t).queued
    ensures !Listed(v, t)
  {
    assert LevelOf(At(v, t)) in v.queues ==> QueueFine(v, LevelOf(At(v, t)));
  }

  lemma {:induction false} MovedKeeps(m: Setup, s: Sched, t: Ref, dom: nat)
    requires Whole(m, s) && t in s.v.tcbs && dom < m.c.domains
    ensures AllListed(Moved(s, t, dom).v) && NoneLost(s, Moved(s, t, dom))
    ensures CanRun(s, t) ==> InHand(Moved(s, t, dom), t)
  {
    assert ThreadFine(m.c, s.v.tcbs[t]);
    var tcb := At(s.v, t).(domain := dom);
    ReplacedKeeps(m, s, t, tcb);
    var out := Set(Take(s.v, t), t, tcb);
    ThenRescheduled(m, s, s.(v := if IsSchedulable(tcb) then Put(out, t) else out));
  }

  lemma {:induction false} YieldedToKeeps(m: Setup, s: Sched, t: Ref)
    requires Whole(m, s) && t in s.v.tcbs && GoesOn(m, s)
    ensures AllListed(YieldedTo(s, t).v) && NoneLost(s, YieldedTo(s, t))
    ensures CanRun(s, t) ==> InHand(YieldedTo(s, t), t)
  {
    if CanRun(s, t) {
      TakeOk(m.c, s.v, t);
      TakenOut(m.c, s.v, t);
      TakeLists(m.c, s.v, t);
      var out := s.(v := Take(s.v, t));
      PutLists(m.c, out.v, t);
      if PrioOf(s.v, t) >= PrioOf(s.v, s.cur) {
        var both := BothLists(m, out, t, s.cur);
        ThenRescheduled(m, s, both);
        RescheduledKeeps(m, both);
      }
    }
  }

  lemma {:induction false} BothLists(m: Setup, s: Sched, t: Ref, u: Ref) returns (r: Sched)
    requires Whole(m, s) && t in s.v.tcbs && u in s.v.tcbs && CanRun(s, t) && CanRun(s, u)
    ensures r == s.(v := Put(Put(s.v, u), t)) && Whole(m, r) && Listed(r.v, t) && Listed(r.v, u)
    ensures (forall x :: Listed(s.v, x) ==> Listed(r.v, x)) && SameAble(s, r)
  {
    var back := s.(v := Put(s.v, u));
    PutWhole(m, s, u);
    assert CanRun(back, t);
    PutWhole(m, back, t);
    r := s.(v := Put(back.v, t));
  }

  lemma {:induction false} PutWhole(m: Setup, s: Sched, t: Ref)
    requires Whole(m, s) && t in s.v.tcbs && CanRun(s, t)
    ensures var r := s.(v := Put(s.v, t));
            && Whole(m, r) && Listed(r.v, t) && SameAble(s, r) && r.v.tcbs.Keys == s.v.tcbs.Keys
            && forall x :: Listed(s.v, x) ==> Listed(r.v, x)
  {
    PutOkIn(m, s, t);
    PutLists(m.c, s.v, t);
  }

  lemma {:induction false} ExpiredKeeps(m: Setup, s: Sched, ready: bool)
    requires Whole(m, s)
    ensures AllListed(Expired(m, s, ready).v) && NoneLost(s, Expired(m, s, ready))
    ensures ready && GoesOn(m, s) ==> Listed(Expired(m, s, ready).v, s.cur)
  {
    if GoesOn(m, s) {
      PutOkIn(m, s, s.cur);
      PutLists(m.c, s.v, s.cur);
      ParkedKeeps(m, s, s.cur);
      var r := s.(v := if ready then PutLast(s.v, s.cur) else Parked(s.v, s.cur));
      ThenRescheduled(m, s, r);
      RescheduledKeeps(m, r);
    }
  }

  /** No step loses a thread. */
  lemma {:induction false} ActKeeps(m: Setup, s: Sched, a: Act)
    requires Whole(m, s)
    ensures Whole(m, Acted(m, s, a)) && NoneLost(s, Acted(m, s, a))
  {
    ActedOk(m, s, a);
    if Applies(m, s, a) {
      match a
      case Wake(t) => WokenKeeps(m, s, t);
      case SetState(t, runnable) => StateSetKeeps(m, s, t, runnable);
      case Suspend(t) => SuspendedKeeps(m, s, t);
      case Prioritise(t, prio) => PrioritisedKeeps(m, s, t, prio);
      case Move(t, dom) => MovedKeeps(m, s, t, dom);
      case Reschedule => RescheduledKeeps(m, s);
      case _ => ContextKeeps(m, s, a);
    }
  }

  /** The steps that concern scheduling contexts. */
  lemma {:induction false} ContextKeeps(m: Setup, s: Sched, a: Act)
    requires Whole(m, s) && Applies(m, s, a)
    requires a.Strip? || a.Unbind? || a.Bind? || a.Postpone? || a.Release? || a.YieldTo? || a.Expire?
    ensures AllListed(Acted(m, s, a).v) && NoneLost(s, Acted(m, s, a))
  {
    match a
    case Strip(t) => UnboundKeeps(m, s, t);
    case Unbind(t) => UnboundKeeps(m, s, t);
    case Bind(t) => BoundKeeps(m, s, t);
    case Postpone(t) => ParkedKeeps(m, s, t);
    case Release(t) => BoundKeeps(m, s, t);
    case YieldTo(t) => YieldedToKeeps(m, s, t);
    case Expire(ready) => ExpiredKeeps(m, s, ready);
  }

  /** A step that is to bring a thread to the scheduler. */
  predicate Brings(a: Act, t: Ref) {
    a == Wake(t) || a == Bind(t) || a == YieldTo(t) || (a.Move? && a.t == t)
  }

  /** It does, if the thread can run. */
  lemma {:induction false} ActBrings(m: Setup, s: Sched, a: Act, t: Ref)
    requires Whole(m, s) && Applies(m, s, a) && Brings(a, t) && CanRun(Acted(m, s, a), t)
    ensures InHand(Acted(m, s, a), t)
  {
    match a
    case Wake(_) => WokenKeeps(m, s, t);
    case Bind(_) => BoundKeeps(m, s, t);
    case YieldTo(_) => YieldedToKeeps(m, s, t);
    case Move(_, dom) => MovedKeeps(m, s, t, dom);
  }

  // ---------------------------------------------------------------- schedule

  /** What is in a queue of `v` is in hand in `r`, and the same threads can run. */
  ghost predicate TakenOver(v: View, r: Sched) {
    && AllListed(r.v) && (forall t :: Listed(v, t) ==> InHand(r, t))
    && forall t {:trigger At(r.v, t)} :: IsSchedulable(At(r.v, t)) <==> IsSchedulable(At(v, t))
  }

  lemma {:induction false} PickedKeeps(m: Setup, v: View, d: nat)
    requires ViewOk(m.c, v) && AllListed(v)
    ensures TakenOver(v, Picked(m, v, d))
  {
    ScanIsMax(v.queues, d, m.c.prios);
    var p := Top(m, v, d);
    if p >= 0 { TakeLists(m.c, v, v.queues[Level(d, p)][0]); }
  }

  lemma {:induction false} KeptLists(m: Setup, s: Sched)
    requires Whole(m, s)
    ensures AllListed(Kept(m, s))
    ensures forall t :: (Listed(s.v, t) || t == s.cur) && CanRun(s, t) ==> Listed(Kept(m, s), t)
    ensures forall t {:trigger At(Kept(m, s), t)} :: IsSchedulable(At(Kept(m, s), t)) <==> CanRun(s, t)
  {
    if GoesOn(m, s) { PutLists(m.c, s.v, s.cur); }
  }

  lemma {:induction false} QueueingLists(m: Setup, s: Sched, t: Ref)
    requires Whole(m, s) && t in s.v.tcbs
    ensures AllListed(Queueing(m, s, t)) && Listed(Queueing(m, s, t), t)
    ensures forall x :: (Listed(s.v, x) || x == s.cur) && CanRun(s, x) ==> Listed(Queueing(m, s, t), x)
    ensures forall x {:trigger At(Queueing(m, s, t), x)} :: IsSchedulable(At(Queueing(m, s, t), x)) <==> CanRun(s, x)
  {
    KeptOk(m, s);
    KeptLists(m, s);
    PutLists(m.c, Kept(m, s), t);
    QueueingAble(m, s, t, Kept(m, s), Queueing(m, s, t));
  }

  lemma {:induction false} QueueingAble(m: Setup, s: Sched, t: Ref, kept: View, w: View)
    requires kept == Kept(m, s) && (w == Put(kept, t) || w == PutLast(kept, t))
    ensures forall x {:trigger At(w, x)} :: IsSchedulable(At(w, x)) <==> CanRun(s, x)
  {
  }

  lemma {:induction false} SwitchedKeeps(m: Setup, s: Sched, t: Ref)
    requires Whole(m, s) && t in s.v.tcbs
    ensures TakenOver(Kept(m, s), Sched(Take(Kept(m, s), t), Resume, t, s.dom))
  {
    KeptOk(m, s);
    KeptLists(m, s);
    TakeLists(m.c, Kept(m, s), t);
  }

  /** schedule loses none either. */
  lemma {:induction false} ScheduleKeeps(m: Setup, s: Sched, next: nat)
    requires Whole(m, s) && Dispatchable(s) && next < m.c.domains
    ensures Whole(m, Scheduled(m, s, next)) && NoneLost(s, Scheduled(m, s, next))
    ensures SameAble(s, Scheduled(m, s, next))
  {
    ScheduleSettlesIff(m, s, next);
    KeptOk(m, s);
    KeptLists(m, s);
    match s.action
    case Resume =>
    case ChooseNew => PickedKeeps(m, Kept(m, s), next);
    case SwitchTo(t) =>
      if Passed(m, s, t) {
        QueueingOk(m, s, t);
        QueueingLists(m, s, t);
        PickedKeeps(m, Queueing(m, s, t), next);
      } else {
        SwitchedKeeps(m, s, t);
      }
  }

  // ---------------------------------------------------------------- runs

  /** `t` can run after each of these steps. */
  ghost predicate StaysAble(m: Setup, s: Sched, acts: seq<Act>, t: Ref)
    decreases |acts|
  {
    acts != [] ==> CanRun(Acted(m, s, acts[0]), t) && StaysAble(m, Acted(m, s, acts[0]), acts[1..], t)
  }

  lemma {:induction false} ActsKeep(m: Setup, s: Sched, acts: seq<Act>, t: Ref)
    requires Whole(m, s)
    ensures Whole(m, AfterActs(m, s, acts))
    ensures InHand(s, t) && StaysAble(m, s, acts, t) ==> InHand(AfterActs(m, s, acts), t)
    decreases |acts|
  {
    if acts != [] {
      ActKeeps(m, s, acts[0]);
      ActsKeep(m, Acted(m, s, acts[0]), acts[1..], t);
    }
  }

  /** What is in hand when schedule comes to it. */
  lemma {:induction false} EntryEnds(m: Setup, s: Sched, e: Entry, t: Ref)
    requires Asserted(m, s, e) && e.next < m.c.domains && Whole(m, AfterActs(m, s, e.acts))
    requires InHand(AfterActs(m, s, e.acts), t) && CanRun(AfterActs(m, s, e.acts), t)
    ensures var end := AfterEntry(m, s, e);
            Whole(m, end) && end.action == Resume && CanRun(end, t) && (end.cur == t || Listed(end.v, t))
  {
    var r := AfterActs(m, s, e.acts);
    ScheduleSettlesIff(m, r, if e.expired then e.next else r.dom);
    ScheduleKeeps(m, r, if e.expired then e.next else r.dom);
  }

  lemma {:induction false} ActsBring(m: Setup, s: Sched, a: Act, after: seq<Act>, t: Ref)
    requires Whole(m, s) && Applies(m, s, a) && Brings(a, t) && StaysAble(m, s, [a] + after, t)
    ensures var r := AfterActs(m, s, [a] + after);
            Whole(m, r) && InHand(r, t) && CanRun(r, t)
  {
    assert ([a] + after)[1..] == after;
    ActBrings(m, s, a, t);
    ActKeeps(m, s, a);
    ActsKeep(m, Acted(m, s, a), after, t);
    StaysAbleLast(m, s, [a] + after, t);
  }

  /** A thread that a step of the entry brings to the scheduler, and that can run from then on, runs after the entry or
      waits in its queue. */
  lemma {:induction false} EntryBrings(m: Setup, s: Sched, before: seq<Act>, a: Act, after: seq<Act>, t: Ref, e: Entry)
    requires Whole(m, s) && e.acts == before + [a] + after && Asserted(m, s, e) && e.next < m.c.domains
    requires var r := AfterActs(m, s, before);
             Applies(m, r, a) && Brings(a, t) && StaysAble(m, r, [a] + after, t)
    ensures var end := AfterEntry(m, s, e);
            Whole(m, end) && end.action == Resume && (end.cur == t || Listed(end.v, t))
  {
    ActsKeep(m, s, before, t);
    ActsBring(m, AfterActs(m, s, before), a, after, t);
    assert before + [a] + after == before + ([a] + after);
    AfterBoth(m, s, before, [a] + after);
    EntryEnds(m, s, e, t);
  }

  lemma {:induction false} AfterBoth(m: Setup, s: Sched, a: seq<Act>, b: seq<Act>)
    ensures AfterActs(m, s, a + b) == AfterActs(m, AfterActs(m, s, a), b)
    decreases |a|
  {
    if a == [] {
      assert a + b == b;
    } else {
      assert (a + b)[1..] == a[1..] + b;
      AfterBoth(m, Acted(m, s, a[0]), a[1..], b);
    }
  }

  lemma {:induction false} StaysAbleLast(m: Setup, s: Sched, acts: seq<Act>, t: Ref)
    requires StaysAble(m, s, acts, t) && (acts == [] ==> CanRun(s, t))
    ensures CanRun(AfterActs(m, s, acts), t)
    decreases |acts|
  {
    if acts != [] { StaysAbleLast(m, Acted(m, s, acts[0]), acts[1..], t); }
  }

  /** `t` can run after each step of each entry. */
  ghost predicate AlwaysAble(m: Setup, s: Sched, entries: seq<Entry>, t: Ref)
    decreases |entries|
  {
    entries != [] ==>
      StaysAble(m, s, entries[0].acts, t) && AlwaysAble(m, AfterEntry(m, s, entries[0]), entries[1..], t)
  }

  /** Over every run, a thread that the scheduler knows of and that can always run is never lost: in the end it is
      current or in its queue. */
  lemma {:induction false} RunKeeps(m: Setup, s: Sched, entries: seq<Entry>, t: Ref)
    requires Whole(m, s) && AssertsHold(m, s, entries) && Timely(m, entries) && s.action == Resume
    requires InHand(s, t) && CanRun(s, t) && AlwaysAble(m, s, entries, t)
    ensures var end := RunOf(m, s, entries);
            Whole(m, end) && (end.cur == t || Listed(end.v, t))
    decreases |entries|
  {
    if entries != [] {
      var e := entries[0];
      ActsKeep(m, s, e.acts, t);
      StaysAbleLast(m, s, e.acts, t);
      EntryEnds(m, s, e, t);
      RunKeeps(m, AfterEntry(m, s, e), entries[1..], t);
    }
  }
}
