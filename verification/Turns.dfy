/** Whose turn it is: what a step changes about threads, and where single steps leave the threads in their queues
    (kernel/src/kernel/thread.c, kernel/src/object/schedcontext.c). */
module Turns {
  import opened TcbQueues
  import opened ReadyQueues
  import opened SchedulerLaw
  import opened ThreadsKept

  // ---------------------------------------------------------------- threads

  /** The thread that the step is about. */
  function Subject(s: Sched, a: Act): Ref {
    if a.Reschedule? || a.Expire? then s.cur else a.t
  }

  /** What the step is to make of it, apart from queues. */
  ghost function Intended(m: Setup, s: Sched, a: Act): Tcb {
    var tcb := At(s.v, Subject(s, a));
    match a
    case SetState(_, runnable) => tcb.(runnable := runnable)
    case Suspend(_) => tcb.(runnable := false)
    case Strip(_) => tcb.(hasContext := false)
    case Unbind(_) => tcb.(hasContext := false)
    case Postpone(_) => tcb.(hasContext := false)
    case Bind(_) => tcb.(hasContext := true)
    case Release(_) => tcb.(hasContext := true)
    case Prioritise(_, prio) => tcb.(prio := prio)
    case Move(_, dom) => tcb.(domain := dom)
    case Expire(ready) => if GoesOn(m, s) then tcb.(hasContext := ready) else tcb
    case _ => tcb
  }

  /** `w` has the threads of `v`, each as it was except for whether it is queued. */
  ghost predicate Alike(v: View, w: View) {
    w.tcbs.Keys == v.tcbs.Keys
    && forall x {:trigger At(w, x)} :: At(w, x) == At(v, x).(queued := At(w, x).queued)
  }

  lemma {:induction false} PutAlike(v: View, t: Ref)
    ensures Alike(v, Put(v, t)) && Alike(v, PutLast(v, t)) && Alike(v, Take(v, t))
  {
  }

  lemma {:induction false} RescheduledAlike(s: Sched)
    ensures Alike(s.v, Rescheduled(s).v)
  {
    if s.action.SwitchTo? { PutAlike(s.v, s.action.thread); }
  }

  lemma {:induction false} AlikeTransitive(u: View, v: View, w: View)
    requires Alike(u, v) && Alike(v, w)
    ensures Alike(u, w)
  {
    forall x ensures At(w, x) == At(u, x).(queued := At(w, x).queued) {
      assert At(v, x) == At(u, x).(queued := At(v, x).queued);
    }
  }

  /** As `Alike`, but `t` is as `tcb` says. */
  ghost predicate AlikeBut(v: View, w: View, t: Ref, tcb: Tcb) {
    && w.tcbs.Keys == v.tcbs.Keys
    && forall x {:trigger At(w, x)} :: At(w, x) == (if x == t then tcb else At(v, x)).(queued := At(w, x).queued)
  }

  lemma {:induction false} SetAlike(u: View, v: View, t: Ref, tcb: Tcb)
    requires Alike(u, v) && t in u.tcbs
    ensures AlikeBut(u, Set(v, t, tcb), t, tcb)
  {
    var w := Set(v, t, tcb);
    forall x ensures At(w, x) == (if x == t then tcb else At(u, x)).(queued := At(w, x).queued) {
      assert At(v, x) == At(u, x).(queued := At(v, x).queued);
    }
  }

  lemma {:induction false} ThenAlike(u: View, v: View, w: View, t: Ref, tcb: Tcb)
    requires AlikeBut(u, v, t, tcb) && Alike(v, w)
    ensures AlikeBut(u, w, t, tcb)
  {
    forall x ensures At(w, x) == (if x == t then tcb else At(u, x)).(queued := At(w, x).queued) {
      assert At(v, x) == (if x == t then tcb else At(u, x)).(queued := At(v, x).queued);
    }
  }

  lemma {:induction false} ParkedAlike(v: View, t: Ref)
    requires t in v.tcbs
    ensures AlikeBut(v, Parked(v, t), t, At(v, t).(hasContext := false))
  {
    PutAlike(v, t);
    SetAlike(v, Take(v, t), t, At(v, t).(hasContext := false));
  }

  lemma {:induction false} StateAlike(s: Sched, t: Ref, runnable: bool)
    requires t in s.v.tcbs
    ensures AlikeBut(s.v, StateSet(s, t, runnable).v, t, At(s.v, t).(runnable := runnable))
    ensures AlikeBut(s.v, Suspended(s, t).v, t, At(s.v, t).(runnable := false))
  {
    forall b: bool ensures AlikeBut(s.v, StateSet(s, t, b).v, t, At(s.v, t).(runnable := b)) {
      var r := s.(v := Set(s.v, t, At(s.v, t).(runnable := b)));
      SetAlike(s.v, s.v, t, At(s.v, t).(runnable := b));
      RescheduledAlike(r);
      ThenAlike(s.v, r.v, Rescheduled(r).v, t, At(s.v, t).(runnable := b));
    }
    var r := StateSet(s, t, false);
    PutAlike(r.v, t);
    ThenAlike(s.v, r.v, Take(r.v, t), t, At(s.v, t).(runnable := false));
  }

  lemma {:induction false} StrippedAlike(s: Sched, t: Ref)
    requires t in s.v.tcbs
    ensures AlikeBut(s.v, Stripped(s, t).v, t, At(s.v, t).(hasContext := false))
  {
    ParkedAlike(s.v, t);
    var p := s.(v := Parked(s.v, t));
    RescheduledAlike(p);
    ThenAlike(s.v, p.v, Rescheduled(p).v, t, At(s.v, t).(hasContext := false));
  }

  lemma {:induction false} BoundAlike(s: Sched, t: Ref)
    requires t in s.v.tcbs
    ensures AlikeBut(s.v, Released(s, t).v, t, At(s.v, t).(hasContext := true))
    ensures AlikeBut(s.v, Bound(s, t).v, t, At(s.v, t).(hasContext := true))
  {
    SetAlike(s.v, s.v, t, At(s.v, t).(hasContext := true));
    var r := Released(s, t);
    PutAlike(r.v, t);
    RescheduledAlike(r.(v := Put(r.v, t)));
    AlikeTransitive(r.v, Put(r.v, t), Rescheduled(r.(v := Put(r.v, t))).v);
    ThenAlike(s.v, r.v, Rescheduled(r.(v := Put(r.v, t))).v, t, At(s.v, t).(hasContext := true));
  }

  lemma {:induction false} UnboundAlike(s: Sched, t: Ref)
    requires t in s.v.tcbs
    ensures AlikeBut(s.v, Unbound(s, t).v, t, At(s.v, t).(hasContext := false))
  {
    RescheduledAlike(s);
    var r := if t == s.cur then Rescheduled(s) else s;
    assert At(r.v, t) == At(s.v, t).(queued := At(r.v, t).queued);
    PutAlike(r.v, t);
    AlikeTransitive(s.v, r.v, Take(r.v, t));
    SetAlike(s.v, Take(r.v, t), t, At(r.v, t).(hasContext := false));
  }

  lemma {:induction false} WokenAlike(s: Sched, t: Ref)
    ensures Alike(s.v, Woken(s, t).v)
  {
    PutAlike(s.v, t);
    RescheduledAlike(s);
    PutAlike(Rescheduled(s).v, t);
    AlikeTransitive(s.v, Rescheduled(s).v, Put(Rescheduled(s).v, t));
  }

  lemma {:induction false} YieldedToAlike(s: Sched, t: Ref)
    ensures Alike(s.v, YieldedTo(s, t).v)
  {
    var out := Take(s.v, t);
    PutAlike(s.v, t);
    PutAlike(out, t);
    PutAlike(out, s.cur);
    AlikeTransitive(s.v, out, Put(out, t));
    AlikeTransitive(s.v, out, Put(out, s.cur));
    PutAlike(Put(out, s.cur), t);
    var both := s.(v := Put(Put(out, s.cur), t));
    AlikeTransitive(s.v, Put(out, s.cur), both.v);
    RescheduledAlike(both);
    AlikeTransitive(s.v, both.v, Rescheduled(both).v);
  }

  /** `t` taken out, changed, perhaps put back, and perhaps a new choice asked for. */
  lemma {:induction false} ReplacedAlike(s: Sched, t: Ref, tcb: Tcb, back: bool)
    requires t in s.v.tcbs
    ensures var out := Set(Take(s.v, t), t, tcb);
            var r := s.(v := if back then Put(out, t) else out);
            AlikeBut(s.v, r.v, t, tcb) && AlikeBut(s.v, Rescheduled(r).v, t, tcb)
  {
    var out := Set(Take(s.v, t), t, tcb);
    PutAlike(s.v, t);
    SetAlike(s.v, Take(s.v, t), t, tcb);
    PutAlike(out, t);
    ThenAlike(s.v, out, Put(out, t), t, tcb);
    var r := s.(v := if back then Put(out, t) else out);
    RescheduledAlike(r);
    ThenAlike(s.v, r.v, Rescheduled(r).v, t, tcb);
  }

  lemma {:induction false} ExpiredAlike(m: Setup, s: Sched, ready: bool)
    requires GoesOn(m, s)
    ensures AlikeBut(s.v, Expired(m, s, ready).v, s.cur, At(s.v, s.cur).(hasContext := ready))
  {
    PutAlike(s.v, s.cur);
    ParkedAlike(s.v, s.cur);
    var r := s.(v := if ready then PutLast(s.v, s.cur) else Parked(s.v, s.cur));
    RescheduledAlike(r);
    ThenAlike(s.v, r.v, Rescheduled(r).v, s.cur, At(s.v, s.cur).(hasContext := ready));
  }

  /** Each step does what is intended to the thread that it is about, and changes no other. */
  ghost predicate Meant(m: Setup, s: Sched, a: Act) {
    AlikeBut(s.v, Acted(m, s, a).v, Subject(s, a), Intended(m, s, a))
  }

  lemma {:induction false} StateMeant(m: Setup, s: Sched, a: Act)
    requires Applies(m, s, a) && (a.SetState? || a.Suspend? || a.Prioritise? || a.Move?)
    ensures Meant(m, s, a)
  {
    match a
    case SetState(t, runnable) => StateAlike(s, t, runnable);
    case Suspend(t) => StateAlike(s, t, false);
    case Prioritise(t, prio) =>
      ReplacedAlike(s, t, At(s.v, t).(prio := prio), true);
      SetAlike(s.v, s.v, t, At(s.v, t).(prio := prio));
    case Move(t, dom) => ReplacedAlike(s, t, At(s.v, t).(domain := dom), IsSchedulable(At(s.v, t)));
  }

  lemma {:induction false} LossMeant(m: Setup, s: Sched, a: Act)
    requires Applies(m, s, a) && (a.Strip? || a.Unbind? || a.Postpone?)
    ensures Meant(m, s, a)
  {
    match a
    case Strip(t) => StrippedAlike(s, t);
    case Unbind(t) => UnboundAlike(s, t);
    case Postpone(t) => ParkedAlike(s.v, t);
  }

  lemma {:induction false} GainMeant(m: Setup, s: Sched, a: Act)
    requires Applies(m, s, a) && (a.Bind? || a.Release? || a.Expire?)
    ensures Meant(m, s, a)
  {
    match a
    case Bind(t) => BoundAlike(s, t);
    case Release(t) => BoundAlike(s, t);
    case Expire(ready) => if GoesOn(m, s) { ExpiredAlike(m, s, ready); }
  }

  lemma {:induction false} QueueMeant(m: Setup, s: Sched, a: Act)
    requires Ok(m, s) && Applies(m, s, a) && (a.Wake? || a.YieldTo? || a.Reschedule?)
    ensures Meant(m, s, a)
  {
    match a
    case Wake(t) => WokenAlike(s, t);
    case YieldTo(t) => YieldedToAlike(s, t);
    case Reschedule => RescheduledAlike(s);
  }

  /** Also, it leaves the current thread and domain to schedule. */
  lemma {:induction false} ActChanges(m: Setup, s: Sched, a: Act)
    requires Ok(m, s) && Applies(m, s, a)
    ensures Meant(m, s, a) && Acted(m, s, a).cur == s.cur && Acted(m, s, a).dom == s.dom
  {
    if a.SetState? || a.Suspend? || a.Prioritise? || a.Move? {
      StateMeant(m, s, a);
    } else if a.Wake? || a.YieldTo? || a.Reschedule? {
      QueueMeant(m, s, a);
    } else if a.Strip? || a.Unbind? || a.Postpone? {
      LossMeant(m, s, a);
    } else {
      GainMeant(m, s, a);
    }
  }

  lemma {:induction false} PickedAlike(m: Setup, v: View, d: nat)
    ensures Alike(v, Picked(m, v, d).v) && Picked(m, v, d).dom == d
  {
    ScanIsMax(v.queues, d, m.c.prios);
    if Top(m, v, d) >= 0 { PutAlike(v, v.queues[Level(d, Top(m, v, d))][0]); }
  }

  /** schedule changes no thread. It goes on with the next domain if it has to choose, and stays in this one if it
      resumes the current thread or switches to its candidate. */
  lemma {:induction false} ScheduleChanges(m: Setup, s: Sched, next: nat)
    requires Ok(m, s)
    ensures var r := Scheduled(m, s, next);
            && Alike(s.v, r.v)
            && r.dom == match s.action
                        case Resume => s.dom
                        case ChooseNew => next
                        case SwitchTo(t) => if Passed(m, s, t) then next else s.dom
  {
    var kept := Kept(m, s);
    PutAlike(s.v, s.cur);
    PickedAlike(m, kept, next);
    AlikeTransitive(s.v, kept, Picked(m, kept, next).v);
    if s.action.SwitchTo? {
      var t := s.action.thread;
      PutAlike(kept, t);
      AlikeTransitive(s.v, kept, Take(kept, t));
      AlikeTransitive(s.v, kept, Queueing(m, s, t));
      PickedAlike(m, Queueing(m, s, t), next);
      AlikeTransitive(s.v, Queueing(m, s, t), Picked(m, Queueing(m, s, t), next).v);
    }
  }

  // ---------------------------------------------------------------- queues

  ghost function QueueOf(v: View, t: Ref): seq<Ref> {
    if LevelOf(At(v, t)) in v.queues then v.queues[LevelOf(At(v, t))] else []
  }

  /** An entry of this one step, in the time of the domain. */
  function Single(a: Act): Entry {
    Entry([a], false, 0)
  }

  lemma {:induction false} SingleIs(m: Setup, s: Sched, a: Act)
    ensures AfterEntry(m, s, Single(a)) == Scheduled(m, Acted(m, s, a), Acted(m, s, a).dom)
  {
    assert [a][1..] == [];
    assert AfterActs(m, s, [a]) == Acted(m, s, a);
  }

  /** The first of the highest queue is chosen. */
  lemma {:induction false} PickedFirst(m: Setup, v: View, d: nat, x: Ref, rest: seq<Ref>)
    requires ViewOk(m.c, v) && Top(m, v, d) >= 0 && Level(d, Top(m, v, d)) in v.queues
    requires v.queues[Level(d, Top(m, v, d))] == [x] + rest
    ensures Picked(m, v, d).cur == x && Picked(m, v, d).v.queues == v.queues[Level(d, Top(m, v, d)) := rest]
  {
    assert QueueFine(v, Level(d, Top(m, v, d)));
    assert Without([x] + rest, x) == rest;
  }

  /** The current thread is the first of the highest queue once it is put back. */
  lemma {:induction false} KeptTop(m: Setup, s: Sched)
    requires Ok(m, s) && Settled(m, s)
    ensures s.cur != m.idle ==> GoesOn(m, s) && Top(m, Kept(m, s), s.dom) == PrioOf(s.v, s.cur)
    ensures s.cur != m.idle ==>
            Kept(m, s).queues == s.v.queues[LevelOf(At(s.v, s.cur)) := [s.cur] + QueueOf(s.v, s.cur)]
    ensures s.cur == m.idle ==> Kept(m, s) == s.v && Top(m, Kept(m, s), s.dom) == -1
  {
    ScanIsMax(s.v.queues, s.dom, m.c.prios);
    if s.cur != m.idle {
      assert ThreadFine(m.c, s.v.tcbs[s.cur]);
      TopPut(m, s.v, s.cur, s.dom);
    }
  }

  /** A thread that can run is woken. A higher one takes over, and the current thread will be the first of its level to
      go on; one of the same priority queues behind the others, a lower one before them. */
  lemma {:induction false} WakeTurn(m: Setup, s: Sched, t: Ref)
    requires Whole(m, s) && Settled(m, s) && s.action == Resume && CanRun(s, t)
    ensures var r := AfterEntry(m, s, Single(Wake(t)));
            var l := LevelOf(At(s.v, t));
            if At(s.v, t).queued || t == s.cur then r.cur == s.cur && r.v.queues == s.v.queues
            else if l.dom == s.dom && l.prio > PrioOf(s.v, s.cur) then
              && r.cur == t
              && r.v.queues == if s.cur == m.idle then s.v.queues
                               else s.v.queues[LevelOf(At(s.v, s.cur)) := [s.cur] + QueueOf(s.v, s.cur)]
            else
              && r.cur == s.cur
              && r.v.queues
              == s.v.queues[l := if l.dom == s.dom && l.prio == PrioOf(s.v, s.cur) then QueueOf(s.v, t) + [t]
                                 else [t] + QueueOf(s.v, t)]
  {
    SingleIs(m, s, Wake(t));
    assert ThreadFine(m.c, s.v.tcbs[t]);
    if At(s.v, t).domain == s.dom {
      var r := s.(action := SwitchTo(t));
      assert Acted(m, s, Wake(t)) == r;
      KeptTop(m, s);
      assert Kept(m, r) == Kept(m, s);
      KeptOk(m, s);
      if Passed(m, r, t) { PassedTurn(m, s, t, r); } else { SwitchTurn(m, s, t, r); }
    }
  }

  lemma {:induction false} QueuedBelow(m: Setup, s: Sched, t: Ref)
    requires Whole(m, s) && t in s.v.tcbs && s.v.tcbs[t].queued && s.v.tcbs[t].domain == s.dom
    ensures s.v.tcbs[t].prio <= Top(m, s.v, s.dom)
  {
    assert Listed(s.v, t) && ThreadFine(m.c, s.v.tcbs[t]);
    ScanIsMax(s.v.queues, s.dom, m.c.prios);
    assert LevelOf(s.v.tcbs[t]) == Level(s.dom, s.v.tcbs[t].prio);
  }

  lemma {:induction false} SwitchTurn(m: Setup, s: Sched, t: Ref, r: Sched)
    requires Whole(m, s) && Settled(m, s) && t in s.v.tcbs && CanRun(s, t) && s.v.tcbs[t].domain == s.dom
    requires r == s.(action := SwitchTo(t)) && !Passed(m, r, t) && Kept(m, r) == Kept(m, s)
    ensures s.v.tcbs[t].prio > PrioOf(s.v, s.cur) && !s.v.tcbs[t].queued
    ensures Scheduled(m, r, s.dom).v.queues == Kept(m, s).queues && Scheduled(m, r, s.dom).cur == t
  {
    KeptTop(m, s);
    if s.v.tcbs[t].queued { QueuedBelow(m, s, t); }
  }

  /** `t` as it queues: behind the others if it is of the current priority, else before them. */
  ghost function Lined(s: Sched, t: Ref): seq<Ref> {
    if At(s.v, t).queued || t == s.cur then QueueOf(s.v, t)
    else if PrioOf(s.v, t) == PrioOf(s.v, s.cur) then QueueOf(s.v, t) + [t]
    else [t] + QueueOf(s.v, t)
  }

  /** The queues when a candidate that is passed over has queued and the current thread is back. */
  lemma {:induction false} PassedQueues(m: Setup, s: Sched, t: Ref, r: Sched)
    requires Ok(m, s) && Settled(m, s) && t in s.v.tcbs && IsSchedulable(s.v.tcbs[t]) && s.v.tcbs[t].domain == s.dom
    requires r == s.(action := SwitchTo(t)) && Passed(m, r, t) && Kept(m, r) == Kept(m, s)
    ensures s.cur != m.idle && s.v.tcbs[t].prio <= PrioOf(s.v, s.cur)
    ensures var w := Queueing(m, r, t);
            var queues := s.v.queues[LevelOf(s.v.tcbs[t]) := Lined(s, t)];
            var lc := LevelOf(At(s.v, s.cur));
            && ViewOk(m.c, w) && lc in queues && w.queues == queues[lc := [s.cur] + queues[lc]]
            && Top(m, w, s.dom) == PrioOf(s.v, s.cur)
  {
    KeptTop(m, s);
    KeptOk(m, s);
    QueueingOk(m, r, t);
    var kept := Kept(m, s);
    assert ThreadFine(m.c, s.v.tcbs[t]);
    assert ([s.cur] + QueueOf(s.v, t)) + [t] == [s.cur] + (QueueOf(s.v, t) + [t]);
    if !kept.tcbs[t].queued { TopPut(m, kept, t, s.dom); }
  }

  lemma {:induction false} PassedTurn(m: Setup, s: Sched, t: Ref, r: Sched)
    requires Ok(m, s) && Settled(m, s) && t in s.v.tcbs && IsSchedulable(s.v.tcbs[t]) && s.v.tcbs[t].domain == s.dom
    requires r == s.(action := SwitchTo(t)) && Passed(m, r, t) && Kept(m, r) == Kept(m, s)
    ensures s.v.tcbs[t].prio <= PrioOf(s.v, s.cur) && Scheduled(m, r, s.dom).cur == s.cur
    ensures Scheduled(m, r, s.dom).v.queues == s.v.queues[LevelOf(s.v.tcbs[t]) := Lined(s, t)]
  {
    PassedQueues(m, s, t, r);
    var queues := s.v.queues[LevelOf(s.v.tcbs[t]) := Lined(s, t)];
    PickedFirst(m, Queueing(m, r, t), s.dom, s.cur, queues[LevelOf(At(s.v, s.cur))]);
  }

  /** The budget of the current thread is used up and there again: the others of its level are first, then it is its
      turn again. */
  lemma {:induction false} ExpireTurn(m: Setup, s: Sched)
    requires Whole(m, s) && Settled(m, s) && s.action == Resume && s.cur != m.idle
    ensures var r := AfterEntry(m, s, Single(Expire(true)));
            var q := QueueOf(s.v, s.cur) + [s.cur];
            r.cur == q[0] && r.v.queues == s.v.queues[LevelOf(At(s.v, s.cur)) := q[1..]]
  {
    SingleIs(m, s, Expire(true));
    var l := LevelOf(At(s.v, s.cur));
    assert ThreadFine(m.c, s.v.tcbs[s.cur]);
    var w := PutLast(s.v, s.cur);
    var r := s.(v := w, action := ChooseNew);
    assert Acted(m, s, Expire(true)) == r && Kept(m, r) == w;
    PutOk(m.c, s.v, s.cur);
    TopPut(m, s.v, s.cur, s.dom);
    var q := s.v.queues[l] + [s.cur];
    assert q == [q[0]] + q[1..];
    PickedFirst(m, w, s.dom, q[0], q[1..]);
  }

  /** The current thread yields to one of its domain that can run: that one runs if its priority is as high, and the
      current thread comes first on its own level; otherwise that one comes first on its level. */
  lemma {:induction false} YieldTurn(m: Setup, s: Sched, t: Ref)
    requires Whole(m, s) && Settled(m, s) && s.action == Resume && s.cur != m.idle && t != s.cur && CanRun(s, t)
    requires At(s.v, t).domain == s.dom
    ensures var r := AfterEntry(m, s, Single(YieldTo(t)));
            var queues := s.v.queues[LevelOf(At(s.v, t)) := Without(QueueOf(s.v, t), t)];
            var lc := LevelOf(At(s.v, s.cur));
            if PrioOf(s.v, t) < PrioOf(s.v, s.cur) then
              && r.cur == s.cur
              && r.v.queues == s.v.queues[LevelOf(At(s.v, t)) := [t] + Without(QueueOf(s.v, t), t)]
            else r.cur == t && r.v.queues == queues[lc := [s.cur] + queues[lc]]
  {
    SingleIs(m, s, YieldTo(t));
    TakenQueue(m.c, s.v, t);
    TakeOk(m.c, s.v, t);
    TakenOut(m.c, s.v, t);
    if PrioOf(s.v, t) >= PrioOf(s.v, s.cur) {
      TopTake(m, s.v, t, s.dom);
      YieldedTurn(m, s.(v := Take(s.v, t)), t, YieldedTo(s, t));
    }
  }

  lemma {:induction false} TakenQueue(c: Config, v: View, t: Ref)
    requires ViewOk(c, v) && t in v.tcbs
    ensures Take(v, t).queues == v.queues[LevelOf(v.tcbs[t]) := Without(QueueOf(v, t), t)]
  {
    var l := LevelOf(v.tcbs[t]);
    assert ThreadFine(c, v.tcbs[t]) && QueueFine(v, l);
    if !v.tcbs[t].queued { WithoutNone(v.queues[l], t); }
  }

  lemma {:induction false} WithoutNone(q: seq<Ref>, t: Ref)
    requires t !in q
    ensures Without(q, t) == q
  {
    if q != [] { WithoutNone(q[1..], t); }
  }

  /** `t` is in no queue and no lower than the current thread, and both are put in front. */
  lemma {:induction false} YieldedTurn(m: Setup, s: Sched, t: Ref, r: Sched)
    requires Ok(m, s) && Settled(m, s) && s.cur != m.idle && t != s.cur && CanRun(s, t) && !At(s.v, t).queued
    requires At(s.v, t).domain == s.dom && PrioOf(s.v, t) >= PrioOf(s.v, s.cur)
    requires r == s.(v := Put(Put(s.v, s.cur), t), action := ChooseNew)
    ensures var lc := LevelOf(At(s.v, s.cur));
            && Scheduled(m, r, s.dom).cur == t && lc in s.v.queues
            && Scheduled(m, r, s.dom).v.queues == s.v.queues[lc := [s.cur] + s.v.queues[lc]]
  {
    assert ThreadFine(m.c, s.v.tcbs[s.cur]) && ThreadFine(m.c, s.v.tcbs[t]);
    PutOkIn(m, s, s.cur);
    TopPut(m, s.v, s.cur, s.dom);
    var back := s.(v := Put(s.v, s.cur));
    PutOkIn(m, back, t);
    TopPut(m, back.v, t, s.dom);
    assert Kept(m, r) == r.v;
    PickedFirst(m, r.v, s.dom, t, back.v.queues[LevelOf(s.v.tcbs[t])]);
  }

  /** In every queue, the threads other than `t` are as before and in the same order. */
  ghost predicate SameOrder(v: View, w: View, t: Ref) {
    && w.queues.Keys == v.queues.Keys
    && forall l :: l in v.queues ==> Without(w.queues[l], t) == Without(v.queues[l], t)
  }

  lemma {:induction false} PutOrder(c: Config, v: View, t: Ref)
    requires ViewOk(c, v)
    ensures SameOrder(v, Put(v, t), t) && SameOrder(v, PutLast(v, t), t) && SameOrder(v, Take(v, t), t)
  {
    forall l | l in v.queues
      ensures Without(Put(v, t).queues[l], t) == Without(v.queues[l], t)
      ensures Without(PutLast(v, t).queues[l], t) == Without(v.queues[l], t)
      ensures Without(Take(v, t).queues[l], t) == Without(v.queues[l], t)
    {
      var q := v.queues[l];
      assert QueueFine(v, l);
      WithoutIn(q, t);
      WithoutNone(Without(q, t), t);
      if t !in q {
        WithoutNone(q, t);
        WithoutLast(q, t);
        assert Without([t] + q, t) == q;
      }
    }
  }

  lemma {:induction false} WithoutLast(q: seq<Ref>, t: Ref)
    requires t !in q
    ensures Without(q + [t], t) == q
  {
    if q != [] {
      assert (q + [t])[1..] == q[1..] + [t];
      WithoutLast(q[1..], t);
    }
  }

  /** `t` taken out, changed and put back. */
  lemma {:induction false} ReplacedOrder(m: Setup, s: Sched, t: Ref, tcb: Tcb)
    requires Ok(m, s) && t in s.v.tcbs && Known(m.c, LevelOf(tcb))
    ensures var out := Set(Take(s.v, t), t, tcb);
            && SameOrder(s.v, out, t) && SameOrder(s.v, Put(out, t), t) && QueueOf(Put(out, t), t) != []
            && QueueOf(Put(out, t), t)[0] == t
  {
    PutOrder(m.c, s.v, t);
    ReplacedOk(m, s, t, tcb);
    TakenOut(m.c, s.v, t);
    PutOrder(m.c, Set(Take(s.v, t), t, tcb), t);
  }

  ghost predicate First(v: View, t: Ref) {
    Listed(v, t) ==> QueueOf(v, t)[0] == t
  }

  /** Where a step leaves the threads in the queues, as long as there is no candidate: at most its own thread has a new
      place, and it has come to the front; a current thread whose budget was used up, to the end. */
  ghost predicate Places(m: Setup, s: Sched, a: Act) {
    var r := Acted(m, s, a);
    var t := Subject(s, a);
    && SameOrder(s.v, r.v, t)
    && (a.Bind? || a.Prioritise? || a.Move? || (a.Wake? && !At(s.v, t).queued) ==> First(r.v, t))
    && (a.Expire? && Listed(r.v, t) && !At(s.v, t).queued ==> QueueOf(r.v, t)[|QueueOf(r.v, t)| - 1] == t)
  }

  lemma {:induction false} UnqueuedFirst(m: Setup, s: Sched, a: Act, t: Ref)
    requires Ok(m, s) && !At(Acted(m, s, a).v, t).queued
    ensures !Listed(Acted(m, s, a).v, t)
  {
    ActedOk(m, s, a);
    NotListed(m.c, Acted(m, s, a).v, t);
  }

  lemma {:induction false} MovePlaces(m: Setup, s: Sched, t: Ref, dom: nat)
    requires Whole(m, s) && Applies(m, s, Move(t, dom)) && !s.action.SwitchTo?
    ensures Places(m, s, Move(t, dom))
  {
    var a := Move(t, dom);
    assert ThreadFine(m.c, s.v.tcbs[t]);
    ReplacedOrder(m, s, t, At(s.v, t).(domain := dom));
    TakenOut(m.c, s.v, t);
    if !At(Acted(m, s, a).v, t).queued { UnqueuedFirst(m, s, a, t); }
  }

  lemma {:induction false} PrioritisePlaces(m: Setup, s: Sched, t: Ref, prio: nat)
    requires Whole(m, s) && Applies(m, s, Prioritise(t, prio)) && !s.action.SwitchTo?
    ensures Places(m, s, Prioritise(t, prio))
  {
    var a := Prioritise(t, prio);
    assert ThreadFine(m.c, s.v.tcbs[t]);
    ReplacedOrder(m, s, t, At(s.v, t).(prio := prio));
    TakenOut(m.c, s.v, t);
    if !At(Acted(m, s, a).v, t).queued { UnqueuedFirst(m, s, a, t); }
  }

  lemma {:induction false} PutFirst(c: Config, v: View, t: Ref)
    requires ViewOk(c, v) && t in v.tcbs && !v.tcbs[t].queued
    ensures SameOrder(v, Put(v, t), t) && First(Put(v, t), t)
  {
    PutOrder(c, v, t);
    assert ThreadFine(c, v.tcbs[t]);
  }

  lemma {:induction false} WakePlaces(m: Setup, s: Sched, t: Ref)
    requires Whole(m, s) && Applies(m, s, Wake(t)) && !s.action.SwitchTo?
    ensures Places(m, s, Wake(t))
  {
    WokenPut(s, t);
    PutOrder(m.c, s.v, t);
    if !At(s.v, t).queued {
      PutFirst(m.c, s.v, t);
      NotListed(m.c, s.v, t);
    }
  }

  lemma {:induction false} WokenPut(s: Sched, t: Ref)
    requires !s.action.SwitchTo?
    ensures Woken(s, t).v == s.v || Woken(s, t).v == Put(s.v, t)
  {
  }

  lemma {:induction false} BindPlaces(m: Setup, s: Sched, t: Ref)
    requires Whole(m, s) && Applies(m, s, Bind(t)) && !s.action.SwitchTo?
    ensures Places(m, s, Bind(t))
  {
    BoundOk(m, s, t);
    assert ThreadFine(m.c, s.v.tcbs[t]);
    var r := Released(s, t);
    BoundPut(s, t);
    if s.v.tcbs[t].runnable { PutFirst(m.c, r.v, t); } else { NotListed(m.c, r.v, t); }
  }

  lemma {:induction false} BoundPut(s: Sched, t: Ref)
    requires !s.action.SwitchTo?
    ensures Bound(s, t).v == if At(s.v, t).runnable then Put(Released(s, t).v, t) else Released(s, t).v
  {
  }

  lemma {:induction false} ExpirePlaces(m: Setup, s: Sched, ready: bool)
    requires Whole(m, s) && !s.action.SwitchTo?
    ensures Places(m, s, Expire(ready))
  {
    var a := Expire(ready);
    PutOrder(m.c, s.v, s.cur);
    if !At(Acted(m, s, a).v, s.cur).queued { UnqueuedFirst(m, s, a, s.cur); }
  }

  predicate Leaves(a: Act) {
    a.SetState? || a.Suspend? || a.Strip? || a.Unbind? || a.Postpone? || a.Release?
  }

  /** These steps take their thread out of its queue or leave the queues alone. */
  lemma {:induction false} LeftQueues(m: Setup, s: Sched, a: Act)
    requires Ok(m, s) && Applies(m, s, a) && !s.action.SwitchTo? && Leaves(a)
    ensures Acted(m, s, a).v.queues == s.v.queues || Acted(m, s, a).v.queues == Take(s.v, a.t).queues
  {
    if a.Suspend? { SuspendedIs(m, s, a.t); }
  }

  lemma {:induction false} LeavePlaces(m: Setup, s: Sched, a: Act)
    requires Whole(m, s) && Applies(m, s, a) && !s.action.SwitchTo? && Leaves(a)
    ensures Places(m, s, a)
  {
    PutOrder(m.c, s.v, a.t);
    LeftQueues(m, s, a);
  }

  lemma {:induction false} ActPlaces(m: Setup, s: Sched, a: Act)
    requires Whole(m, s) && Applies(m, s, a) && !s.action.SwitchTo? && !a.YieldTo?
    ensures Places(m, s, a)
  {
    match a
    case Wake(t) => WakePlaces(m, s, t);
    case Bind(t) => BindPlaces(m, s, t);
    case Prioritise(t, prio) => PrioritisePlaces(m, s, t, prio);
    case Move(t, dom) => MovePlaces(m, s, t, dom);
    case Expire(ready) => ExpirePlaces(m, s, ready);
    case Reschedule =>
    case _ => LeavePlaces(m, s, a);
  }
}
