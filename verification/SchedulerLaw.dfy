/** What the kernel does to the scheduler between two runs of user code, and the law that the thread that runs is one
    of the highest priority in its domain (kernel/src/kernel/thread.c, kernel/src/object/schedcontext.c). The ready
    queues are sequences here; `Scheduling` shows that the linked queues with their bitmap do the same. */
module SchedulerLaw {
  import opened TcbQueues
  import opened ReadyQueues

  /** The configuration and the idle thread, which is in no queue. */
  datatype Setup = Setup(c: Config, idle: Ref)

  /** The threads and the contents of their queues. */
  datatype View = View(tcbs: map<Ref, Tcb>, queues: Contents)

  /** What the scheduler knows: threads and queues, what to do at the end of the kernel entry, the current thread and
      the current domain. */
  datatype Sched = Sched(v: View, action: Action, cur: Ref, dom: nat)

  function At(v: View, t: Ref): Tcb {
    if t in v.tcbs then v.tcbs[t] else Tcb(0, 0, false, false, false)
  }

  // ---------------------------------------------------------------- threads and queues

  /** `t` at the front of its queue, unless it is in a queue. */
  ghost function Put(v: View, t: Ref): View {
    if t !in v.tcbs || v.tcbs[t].queued || LevelOf(v.tcbs[t]) !in v.queues then v
    else
      var tcb := v.tcbs[t];
      View(v.tcbs[t := tcb.(queued := true)], v.queues[LevelOf(tcb) := [t] + v.queues[LevelOf(tcb)]])
  }

  /** `t` at the back of its queue, unless it is in a queue. */
  ghost function PutLast(v: View, t: Ref): View {
    if t !in v.tcbs || v.tcbs[t].queued || LevelOf(v.tcbs[t]) !in v.queues then v
    else
      var tcb := v.tcbs[t];
      View(v.tcbs[t := tcb.(queued := true)], v.queues[LevelOf(tcb) := v.queues[LevelOf(tcb)] + [t]])
  }

  /** `t` out of its queue. */
  ghost function Take(v: View, t: Ref): View {
    if t !in v.tcbs || !v.tcbs[t].queued || LevelOf(v.tcbs[t]) !in v.queues then v
    else
      var tcb := v.tcbs[t];
      View(v.tcbs[t := tcb.(queued := false)], v.queues[LevelOf(tcb) := Without(v.queues[LevelOf(tcb)], t)])
  }

  /** `t` becomes `tcb`, in the queue it is in. */
  ghost function Set(v: View, t: Ref, tcb: Tcb): View {
    if t in v.tcbs then v.(tcbs := v.tcbs[t := tcb.(queued := v.tcbs[t].queued)]) else v
  }

  ghost predicate QueueFine(v: View, l: Level)
    requires l in v.queues
  {
    && Distinct(v.queues[l])
    && forall k :: 0 <= k < |v.queues[l]| ==>
         var t := v.queues[l][k];
         t in v.tcbs && v.tcbs[t].queued && LevelOf(v.tcbs[t]) == l && IsSchedulable(v.tcbs[t])
  }

  ghost predicate ThreadFine(c: Config, t: Tcb) {
    Known(c, LevelOf(t)) && (t.queued ==> IsSchedulable(t))
  }

  /** There is a queue for every level, and it holds each of its threads once; these are of that level and can run. */
  ghost predicate ViewOk(c: Config, v: View) {
    && (forall l :: l in v.queues <==> Known(c, l))
    && (forall t :: t in v.tcbs ==> ThreadFine(c, v.tcbs[t]))
    && (forall l {:trigger QueueFine(v, l)} :: l in v.queues ==> QueueFine(v, l))
  }

  lemma {:induction false} WithoutIn(s: seq<Ref>, t: Ref)
    requires Distinct(s)
    ensures Distinct(Without(s, t)) && forall x :: x in Without(s, t) <==> x in s && x != t
  {
    if s != [] {
      var rest := s[1..];
      assert Distinct(rest) && s[0] !in rest;
      WithoutIn(rest, t);
      assert forall x :: x in s <==> x == s[0] || x in rest;
      if s[0] != t {
        var w := Without(rest, t);
        assert forall i :: 0 <= i < |[s[0]] + w| ==> ([s[0]] + w)[i] == if i == 0 then s[0] else w[i - 1];
      }
    }
  }

  lemma {:induction false} TakeOk(c: Config, v: View, t: Ref)
    requires ViewOk(c, v)
    ensures ViewOk(c, Take(v, t))
  {
    var w := Take(v, t);
    forall l | l in w.queues ensures QueueFine(w, l) {
      assert QueueFine(v, l);
      WithoutIn(v.queues[l], t);
      var s := w.queues[l];
      forall k | 0 <= k < |s|
        ensures s[k] in w.tcbs && w.tcbs[s[k]].queued && LevelOf(w.tcbs[s[k]]) == l && IsSchedulable(w.tcbs[s[k]])
      {
        assert s[k] in s;
      }
    }
  }

  lemma {:induction false} PutOk(c: Config, v: View, t: Ref)
    requires ViewOk(c, v) && IsSchedulable(At(v, t))
    ensures ViewOk(c, Put(v, t)) && ViewOk(c, PutLast(v, t))
  {
    PutFine(c, v, t, Put(v, t), true);
    PutFine(c, v, t, PutLast(v, t), false);
  }

  lemma {:induction false} PutFine(c: Config, v: View, t: Ref, w: View, front: bool)
    requires ViewOk(c, v) && IsSchedulable(At(v, t)) && w == if front then Put(v, t) else PutLast(v, t)
    ensures ViewOk(c, w)
  {
    forall l | l in w.queues ensures QueueFine(w, l) {
      assert QueueFine(v, l);
      var q := v.queues[l];
      assert forall i :: 0 <= i < |[t] + q| ==> ([t] + q)[i] == if i == 0 then t else q[i - 1];
    }
  }

  /** A thread may change as long as it stays on its level and can run if it is queued. */
  lemma {:induction false} SetOk(c: Config, v: View, t: Ref, tcb: Tcb)
    requires ViewOk(c, v) && Known(c, LevelOf(tcb))
    requires At(v, t).queued ==> LevelOf(tcb) == LevelOf(At(v, t)) && IsSchedulable(tcb)
    ensures ViewOk(c, Set(v, t, tcb))
  {
    var w := Set(v, t, tcb);
    forall l | l in w.queues ensures QueueFine(w, l) {
      assert QueueFine(v, l);
    }
  }

  // ---------------------------------------------------------------- the highest priority

  ghost function Top(m: Setup, v: View, d: nat): int {
    Scan(v.queues, d, m.c.prios)
  }

  /** Emptying queues does not raise what the scan finds. */
  lemma ScanLess(before: Contents, after: Contents, d: nat, n: nat)
    requires Busy(after) <= Busy(before)
    ensures Scan(after, d, n) <= Scan(before, d, n)
  {
    ScanIsMax(before, d, n);
    ScanIsMax(after, d, n);
  }

  lemma TopTake(m: Setup, v: View, t: Ref, d: nat)
    ensures Top(m, Take(v, t), d) <= Top(m, v, d)
  {
    assert Busy(Take(v, t).queues) <= Busy(v.queues) by { assert Without([], t) == []; }
    ScanLess(v.queues, Take(v, t).queues, d, m.c.prios);
  }

  lemma TopPut(m: Setup, v: View, t: Ref, d: nat)
    requires t in v.tcbs && ViewOk(m.c, v) && !v.tcbs[t].queued
    ensures Top(m, Put(v, t), d) == Top(m, PutLast(v, t), d)
    ensures Top(m, Put(v, t), d)
         == if v.tcbs[t].domain == d && v.tcbs[t].prio > Top(m, v, d) then v.tcbs[t].prio else Top(m, v, d)
  {
    var l := LevelOf(v.tcbs[t]);
    ScanMore(v.queues, l, [t] + v.queues[l], d, m.c.prios);
    ScanMore(v.queues, l, v.queues[l] + [t], d, m.c.prios);
  }

  // ---------------------------------------------------------------- schedule

  ghost function PrioOf(v: View, t: Ref): int {
    if t in v.tcbs then v.tcbs[t].prio else -1
  }

  /** The current thread is of the current domain and outside the queues, or the idle thread, and no thread in a queue
      of the domain has a higher priority; there is none if the current thread is the idle thread. */
  ghost predicate Fits(m: Setup, s: Sched) {
    && (s.cur != m.idle ==> s.cur in s.v.tcbs && !At(s.v, s.cur).queued && At(s.v, s.cur).domain == s.dom)
    && Top(m, s.v, s.dom) <= PrioOf(s.v, s.cur)
  }

  /** The law: such a thread runs, and can. */
  ghost predicate Settled(m: Setup, s: Sched) {
    Fits(m, s) && (s.cur != m.idle ==> IsSchedulable(At(s.v, s.cur)))
  }

  ghost predicate Ok(m: Setup, s: Sched) {
    && ViewOk(m.c, s.v) && m.idle !in s.v.tcbs && (s.cur == m.idle || s.cur in s.v.tcbs) && s.dom < m.c.domains
    && (s.action.SwitchTo? ==> s.action.thread in s.v.tcbs)
  }

  /** The first thread of the highest queue of domain `d` is taken, or the idle thread. */
  ghost function Picked(m: Setup, v: View, d: nat): Sched {
    var p := Top(m, v, d);
    ScanIsMax(v.queues, d, m.c.prios);
    if p < 0 then Sched(v, Resume, m.idle, d)
    else
      var first := v.queues[Level(d, p)][0];
      Sched(Take(v, first), Resume, first, d)
  }

  /** The current thread can go on. */
  ghost predicate GoesOn(m: Setup, s: Sched) {
    s.cur != m.idle && s.cur in s.v.tcbs && IsSchedulable(s.v.tcbs[s.cur])
  }

  /** The current thread goes back to the front of its queue, if it can go on. */
  ghost function Kept(m: Setup, s: Sched): View {
    if GoesOn(m, s) then Put(s.v, s.cur) else s.v
  }

  /** `schedule` does not switch to candidate `t`: it is lower than the current thread, or that is the idle thread, and
      the bitmap shows a higher one; or the current thread goes on and is of the same priority. */
  ghost predicate Passed(m: Setup, s: Sched, t: Ref) {
    || ((s.cur == m.idle || PrioOf(s.v, t) < PrioOf(s.v, s.cur)) && PrioOf(s.v, t) < Top(m, Kept(m, s), s.dom))
    || (GoesOn(m, s) && PrioOf(s.v, t) == PrioOf(s.v, s.cur))
  }

  /** A candidate that is passed over has to queue: behind the others if the current thread is of its priority. */
  ghost function Queueing(m: Setup, s: Sched, t: Ref): View {
    if (s.cur == m.idle || PrioOf(s.v, t) < PrioOf(s.v, s.cur)) && PrioOf(s.v, t) < Top(m, Kept(m, s), s.dom)
    then Put(Kept(m, s), t) else PutLast(Kept(m, s), t)
  }

  /** schedule, where `next` is the domain to go on with if a new thread is chosen. */
  ghost function Scheduled(m: Setup, s: Sched, next: nat): Sched {
    match s.action
    case Resume => s
    case ChooseNew => Picked(m, Kept(m, s), next)
    case SwitchTo(t) =>
      if Passed(m, s, t) then Picked(m, Queueing(m, s, t), next)
      else Sched(Take(Kept(m, s), t), Resume, t, s.dom)
  }

  /** The assert of schedule. */
  ghost predicate Dispatchable(s: Sched) {
    s.action.SwitchTo? ==> IsSchedulable(At(s.v, s.action.thread))
  }

  /** schedule switches to `t` without a look at the bitmap. */
  ghost predicate Skips(m: Setup, s: Sched, t: Ref) {
    && s.cur != m.idle && PrioOf(s.v, t) >= PrioOf(s.v, s.cur)
    && !(GoesOn(m, s) && PrioOf(s.v, t) == PrioOf(s.v, s.cur))
  }

  /** `t` is switched to although it is of another domain, or although a higher thread of the domain is ready. */
  ghost predicate Overlooks(m: Setup, s: Sched, t: Ref) {
    || (!Passed(m, s, t) && At(s.v, t).domain != s.dom)
    || (Skips(m, s, t) && PrioOf(s.v, t) < Top(m, Take(s.v, t), s.dom))
  }

  /** What schedule relies on. */
  ghost predicate Prepared(m: Setup, s: Sched) {
    match s.action
    case Resume => Settled(m, s)
    case ChooseNew => true
    case SwitchTo(t) => !Overlooks(m, s, t)
  }

  lemma {:induction false} KeptOk(m: Setup, s: Sched)
    requires Ok(m, s)
    ensures ViewOk(m.c, Kept(m, s)) && Kept(m, s).tcbs.Keys == s.v.tcbs.Keys
    ensures forall t :: t in s.v.tcbs ==> Kept(m, s).tcbs[t] == s.v.tcbs[t].(queued := Kept(m, s).tcbs[t].queued)
  {
    if GoesOn(m, s) { PutOk(m.c, s.v, s.cur); }
  }

  lemma {:induction false} QueueingOk(m: Setup, s: Sched, t: Ref)
    requires Ok(m, s) && t in s.v.tcbs && IsSchedulable(s.v.tcbs[t])
    ensures ViewOk(m.c, Queueing(m, s, t)) && Queueing(m, s, t).tcbs.Keys == s.v.tcbs.Keys
  {
    KeptOk(m, s);
    PutOk(m.c, Kept(m, s), t);
  }

  lemma {:induction false} PickedSettled(m: Setup, v: View, d: nat)
    requires ViewOk(m.c, v) && m.idle !in v.tcbs && d < m.c.domains
    ensures Settled(m, Picked(m, v, d)) && Ok(m, Picked(m, v, d)) && Picked(m, v, d).v.tcbs.Keys == v.tcbs.Keys
  {
    ScanIsMax(v.queues, d, m.c.prios);
    var p := Top(m, v, d);
    if p >= 0 {
      var l := Level(d, p);
      assert QueueFine(v, l);
      TakeOk(m.c, v, v.queues[l][0]);
      TopTake(m, v, v.queues[l][0], d);
    }
  }

  /** Putting the current thread back and taking the candidate out do not get in each other's way. */
  lemma {:induction false} KeptTake(m: Setup, s: Sched, t: Ref)
    requires Ok(m, s) && t in s.v.tcbs && t != s.cur
    ensures Take(Kept(m, s), t).queues
         == if GoesOn(m, s) then Put(Take(s.v, t), s.cur).queues else Take(s.v, t).queues
  {
    if GoesOn(m, s) && !s.v.tcbs[s.cur].queued {
      var l := LevelOf(s.v.tcbs[s.cur]);
      assert Without([s.cur] + s.v.queues[l], t) == [s.cur] + Without(s.v.queues[l], t);
    }
  }

  /** A candidate that is not passed over. */
  lemma {:induction false} SwitchSettlesIff(m: Setup, s: Sched, t: Ref)
    requires Ok(m, s) && t in s.v.tcbs && IsSchedulable(s.v.tcbs[t]) && !Passed(m, s, t)
    ensures Settled(m, Sched(Take(Kept(m, s), t), Resume, t, s.dom)) <==> !Overlooks(m, s, t)
  {
    KeptOk(m, s);
    var kept := Kept(m, s);
    TopTake(m, kept, t, s.dom);
    TakeOk(m.c, s.v, t);
    if Skips(m, s, t) {
      KeptTake(m, s, t);
      if GoesOn(m, s) && !s.v.tcbs[s.cur].queued { TopPut(m, Take(s.v, t), s.cur, s.dom); }
    }
  }

  /** After schedule the law holds exactly if schedule was prepared: it had nothing to do and the law held, or it had to
      choose, or it does not overlook a thread for its candidate. */
  lemma {:induction false} ScheduleSettlesIff(m: Setup, s: Sched, next: nat)
    requires Ok(m, s) && Dispatchable(s) && next < m.c.domains
    ensures Settled(m, Scheduled(m, s, next)) <==> Prepared(m, s)
    ensures Ok(m, Scheduled(m, s, next)) && Scheduled(m, s, next).action == Resume
  {
    KeptOk(m, s);
    match s.action
    case Resume =>
    case ChooseNew => PickedSettled(m, Kept(m, s), next);
    case SwitchTo(t) =>
      if Passed(m, s, t) {
        QueueingOk(m, s, t);
        PickedSettled(m, Queueing(m, s, t), next);
      } else {
        SwitchSettlesIff(m, s, t);
        TakeOk(m.c, Kept(m, s), t);
      }
  }

  // ---------------------------------------------------------------- what a candidate can expect

  /** A queued thread has a higher priority than `t`, or the current thread goes on and is no lower. */
  ghost predicate Beaten(m: Setup, s: Sched, t: Ref) {
    var p := Top(m, Kept(m, s), s.dom);
    if GoesOn(m, s) then PrioOf(s.v, t) <= p else PrioOf(s.v, t) < p
  }

  /** While the current thread fits, whether it can go on or not, the tests of schedule decide whether the candidate is
      beaten. */
  lemma PassedIsBeaten(m: Setup, s: Sched, t: Ref)
    requires Ok(m, s) && Fits(m, s) && t in s.v.tcbs
    ensures Passed(m, s, t) <==> Beaten(m, s, t)
  {
    if GoesOn(m, s) { TopPut(m, s.v, s.cur, s.dom); }
  }

  /** Queueing a beaten candidate does not change who is first. */
  lemma RivalStays(m: Setup, s: Sched, t: Ref)
    requires Ok(m, s) && Fits(m, s) && t in s.v.tcbs && IsSchedulable(s.v.tcbs[t]) && Beaten(m, s, t)
    ensures Picked(m, Queueing(m, s, t), s.dom).cur == Picked(m, Kept(m, s), s.dom).cur != m.idle
  {
    var kept := Kept(m, s);
    KeptOk(m, s);
    if GoesOn(m, s) { TopPut(m, s.v, s.cur, s.dom); }
    ScanIsMax(kept.queues, s.dom, m.c.prios);
    assert QueueFine(kept, Level(s.dom, Top(m, kept, s.dom)));
    if !kept.tcbs[t].queued { TopPut(m, kept, t, s.dom); }
  }

  // ---------------------------------------------------------------- what the kernel does before it schedules

  /** The steps of a kernel entry that concern the scheduler. */
  datatype Act =
    | Wake(t: Ref)                      // possibleSwitchTo
    | SetState(t: Ref, runnable: bool)  // setThreadState
    | Suspend(t: Ref)                   // the end of suspend
    | Strip(t: Ref)                     // schedContext_donate, for the thread that loses the context
    | Unbind(t: Ref)                    // schedContext_unbindTCB
    | Bind(t: Ref)                      // schedContext_bindTCB
    | Postpone(t: Ref)                  // postpone
    | Release(t: Ref)                   // a context is received by donation, or is ready again
    | YieldTo(t: Ref)                   // invokeSchedContext_YieldTo
    | Prioritise(t: Ref, prio: nat)     // setPriority
    | Move(t: Ref, dom: nat)            // setDomain
    | Reschedule                        // rescheduleRequired
    | Expire(ready: bool)               // chargeBudget, with the budget ready again or not

  /** The thread exists, and what the asserts on the way to the queues demand. */
  ghost predicate Applies(m: Setup, s: Sched, a: Act) {
    match a
    case Wake(t) => t in s.v.tcbs && s.v.tcbs[t].runnable
    case SetState(t, runnable) => t in s.v.tcbs && (s.v.tcbs[t].queued ==> runnable)
    case Bind(t) => t in s.v.tcbs && !s.v.tcbs[t].hasContext
    case YieldTo(t) => t in s.v.tcbs && GoesOn(m, s)
    case Prioritise(t, prio) =>
      && t in s.v.tcbs && prio < m.c.prios
      && (s.v.tcbs[t].runnable && (s.v.tcbs[t].queued || t == s.cur) ==> s.v.tcbs[t].hasContext)
    case Move(t, dom) => t in s.v.tcbs && dom < m.c.domains
    case Reschedule => true
    case Expire(_) => true
    case _ => a.t in s.v.tcbs
  }

  /** rescheduleRequired: a candidate that can run has to queue. */
  ghost function Rescheduled(s: Sched): Sched {
    var queue := s.action.SwitchTo? && IsSchedulable(At(s.v, s.action.thread));
    s.(v := if queue then Put(s.v, s.action.thread) else s.v, action := ChooseNew)
  }

  /** possibleSwitchTo */
  ghost function Woken(s: Sched, t: Ref): Sched {
    if !At(s.v, t).hasContext then s
    else if At(s.v, t).domain != s.dom then s.(v := Put(s.v, t))
    else if s.action != Resume then
      var r := Rescheduled(s);
      r.(v := Put(r.v, t))
    else s.(action := SwitchTo(t))
  }

  /** setThreadState: a current thread that cannot go on calls for a new choice, unless there is a candidate. */
  ghost function StateSet(s: Sched, t: Ref, runnable: bool): Sched {
    var r := s.(v := Set(s.v, t, At(s.v, t).(runnable := runnable)));
    if t == s.cur && s.action == Resume && !IsSchedulable(At(r.v, t)) then Rescheduled(r) else r
  }

  /** The end of suspend: the state is set first, then the thread leaves its queue. */
  ghost function Suspended(s: Sched, t: Ref): Sched {
    var r := StateSet(s, t, false);
    r.(v := Take(r.v, t))
  }

  /** `t` leaves its queue and has no context to run on. */
  ghost function Parked(v: View, t: Ref): View {
    Set(Take(v, t), t, At(v, t).(hasContext := false))
  }

  ghost function Stripped(s: Sched, t: Ref): Sched {
    var r := s.(v := Parked(s.v, t));
    if t == s.cur || s.action == SwitchTo(t) then Rescheduled(r) else r
  }

  ghost function Unbound(s: Sched, t: Ref): Sched {
    var r := if t == s.cur then Rescheduled(s) else s;
    r.(v := Parked(r.v, t))
  }

  ghost function Released(s: Sched, t: Ref): Sched {
    s.(v := Set(s.v, t, At(s.v, t).(hasContext := true)))
  }

  ghost function Bound(s: Sched, t: Ref): Sched {
    var r := Released(s, t);
    if At(s.v, t).runnable then Rescheduled(r.(v := Put(r.v, t))) else r
  }

  ghost function YieldedTo(s: Sched, t: Ref): Sched {
    if !IsSchedulable(At(s.v, t)) then s
    else if PrioOf(s.v, t) < PrioOf(s.v, s.cur) then s.(v := Put(Take(s.v, t), t))
    else Rescheduled(s.(v := Put(Put(Take(s.v, t), s.cur), t)))
  }

  ghost function Prioritised(s: Sched, t: Ref, prio: nat): Sched {
    var tcb := At(s.v, t).(prio := prio);
    if tcb.runnable && (tcb.queued || t == s.cur) then
      Rescheduled(s.(v := Put(Set(Take(s.v, t), t, tcb), t)))
    else s.(v := Set(s.v, t, tcb))
  }

  ghost function Moved(s: Sched, t: Ref, dom: nat): Sched {
    var out := Set(Take(s.v, t), t, At(s.v, t).(domain := dom));
    var r := s.(v := if IsSchedulable(At(s.v, t)) then Put(out, t) else out);
    if t == s.cur then Rescheduled(r) else r
  }

  ghost function Expired(m: Setup, s: Sched, ready: bool): Sched {
    if !GoesOn(m, s) then s
    else Rescheduled(s.(v := if ready then PutLast(s.v, s.cur) else Parked(s.v, s.cur)))
  }

  ghost function Acted(m: Setup, s: Sched, a: Act): Sched {
    if !Applies(m, s, a) then s
    else
      match a
      case Wake(t) => Woken(s, t)
      case SetState(t, runnable) => StateSet(s, t, runnable)
      case Suspend(t) => Suspended(s, t)
      case Strip(t) => Stripped(s, t)
      case Unbind(t) => Unbound(s, t)
      case Bind(t) => Bound(s, t)
      case Postpone(t) => s.(v := Parked(s.v, t))
      case Release(t) => Released(s, t)
      case YieldTo(t) => YieldedTo(s, t)
      case Prioritise(t, prio) => Prioritised(s, t, prio)
      case Move(t, dom) => Moved(s, t, dom)
      case Reschedule => Rescheduled(s)
      case Expire(ready) => Expired(m, s, ready)
  }

  // ---------------------------------------------------------------- every step leaves queues in order

  lemma {:induction false} RescheduledOk(m: Setup, s: Sched)
    requires Ok(m, s)
    ensures Ok(m, Rescheduled(s))
  {
    if s.action.SwitchTo? && IsSchedulable(At(s.v, s.action.thread)) { PutOk(m.c, s.v, s.action.thread); }
  }

  lemma {:induction false} SetOkIn(m: Setup, s: Sched, t: Ref, tcb: Tcb)
    requires Ok(m, s) && t in s.v.tcbs && Known(m.c, LevelOf(tcb))
    requires s.v.tcbs[t].queued ==> LevelOf(tcb) == LevelOf(s.v.tcbs[t]) && IsSchedulable(tcb)
    ensures Ok(m, s.(v := Set(s.v, t, tcb)))
  {
    SetOk(m.c, s.v, t, tcb);
  }

  lemma {:induction false} StateSetOk(m: Setup, s: Sched, t: Ref, runnable: bool)
    requires Ok(m, s) && t in s.v.tcbs && (s.v.tcbs[t].queued ==> runnable)
    ensures Ok(m, StateSet(s, t, runnable))
  {
    assert ThreadFine(m.c, s.v.tcbs[t]);
    SetOkIn(m, s, t, At(s.v, t).(runnable := runnable));
    RescheduledOk(m, s.(v := Set(s.v, t, At(s.v, t).(runnable := runnable))));
  }

  /** In which order the state is set and the queue is left makes no difference to the result. */
  lemma {:induction false} SuspendedIs(m: Setup, s: Sched, t: Ref)
    requires Ok(m, s) && t in s.v.tcbs
    ensures Suspended(s, t) == StateSet(s.(v := Take(s.v, t)), t, false)
  {
    var v := Set(s.v, t, At(s.v, t).(runnable := false));
    assert Take(v, t) == Set(Take(s.v, t), t, At(Take(s.v, t), t).(runnable := false));
  }

  lemma {:induction false} SuspendedOk(m: Setup, s: Sched, t: Ref)
    requires Ok(m, s) && t in s.v.tcbs
    ensures Ok(m, Suspended(s, t))
  {
    SuspendedIs(m, s, t);
    TakeOk(m.c, s.v, t);
    assert ThreadFine(m.c, s.v.tcbs[t]);
    TakenOut(m.c, s.v, t);
    StateSetOk(m, s.(v := Take(s.v, t)), t, false);
  }

  lemma {:induction false} TakenOut(c: Config, v: View, t: Ref)
    requires ViewOk(c, v) && t in v.tcbs
    ensures Take(v, t).tcbs == v.tcbs[t := v.tcbs[t].(queued := false)]
  {
    assert ThreadFine(c, v.tcbs[t]);
  }

  lemma {:induction false} ParkedOk(m: Setup, s: Sched, t: Ref)
    requires Ok(m, s) && t in s.v.tcbs
    ensures Ok(m, s.(v := Parked(s.v, t)))
    ensures Parked(s.v, t).tcbs == s.v.tcbs[t := s.v.tcbs[t].(queued := false, hasContext := false)]
  {
    assert ThreadFine(m.c, s.v.tcbs[t]);
    TakeOk(m.c, s.v, t);
    TakenOut(m.c, s.v, t);
    SetOk(m.c, Take(s.v, t), t, At(s.v, t).(hasContext := false));
  }

  /** `t` taken out, changed and put back where it now belongs. */
  lemma {:induction false} ReplacedOk(m: Setup, s: Sched, t: Ref, tcb: Tcb)
    requires Ok(m, s) && t in s.v.tcbs && Known(m.c, LevelOf(tcb))
    ensures Ok(m, s.(v := Set(Take(s.v, t), t, tcb)))
    ensures IsSchedulable(tcb) ==> Ok(m, s.(v := Put(Set(Take(s.v, t), t, tcb), t)))
  {
    TakeOk(m.c, s.v, t);
    TakenOut(m.c, s.v, t);
    SetOk(m.c, Take(s.v, t), t, tcb);
    if IsSchedulable(tcb) { PutOk(m.c, Set(Take(s.v, t), t, tcb), t); }
  }

  lemma {:induction false} PutOkIn(m: Setup, s: Sched, t: Ref)
    requires Ok(m, s) && IsSchedulable(At(s.v, t))
    ensures Ok(m, s.(v := Put(s.v, t))) && Ok(m, s.(v := PutLast(s.v, t)))
  {
    PutOk(m.c, s.v, t);
  }

  lemma {:induction false} WokenOk(m: Setup, s: Sched, t: Ref)
    requires Ok(m, s) && t in s.v.tcbs && s.v.tcbs[t].runnable
    ensures Ok(m, Woken(s, t))
  {
    if !s.v.tcbs[t].hasContext || s.v.tcbs[t].domain != s.dom {
      if s.v.tcbs[t].hasContext { PutOkIn(m, s, t); }
    } else {
      RescheduledOk(m, s);
      var r := Rescheduled(s);
      assert IsSchedulable(At(r.v, t));
      PutOkIn(m, r, t);
    }
  }

  lemma {:induction false} BoundOk(m: Setup, s: Sched, t: Ref)
    requires Ok(m, s) && t in s.v.tcbs
    ensures Ok(m, Released(s, t)) && Ok(m, Bound(s, t))
  {
    assert ThreadFine(m.c, s.v.tcbs[t]);
    SetOkIn(m, s, t, At(s.v, t).(hasContext := true));
    var r := Released(s, t);
    if s.v.tcbs[t].runnable {
      PutOkIn(m, r, t);
      RescheduledOk(m, r.(v := Put(r.v, t)));
    }
  }

  lemma {:induction false} YieldedToOk(m: Setup, s: Sched, t: Ref)
    requires Ok(m, s) && t in s.v.tcbs && GoesOn(m, s)
    ensures Ok(m, YieldedTo(s, t))
  {
    if IsSchedulable(s.v.tcbs[t]) {
      TakeOk(m.c, s.v, t);
      TakenOut(m.c, s.v, t);
      PutTwiceOk(m, s.(v := Take(s.v, t)), t, s.cur);
    }
  }

  lemma {:induction false} PutTwiceOk(m: Setup, s: Sched, t: Ref, u: Ref)
    requires Ok(m, s) && IsSchedulable(At(s.v, t)) && IsSchedulable(At(s.v, u))
    ensures Ok(m, s.(v := Put(s.v, t))) && Ok(m, Rescheduled(s.(v := Put(Put(s.v, u), t))))
  {
    PutOkIn(m, s, t);
    PutOkIn(m, s, u);
    var q := s.(v := Put(s.v, u));
    assert IsSchedulable(At(q.v, t));
    PutOkIn(m, q, t);
    RescheduledOk(m, q.(v := Put(q.v, t)));
  }

  lemma {:induction false} PrioritisedOk(m: Setup, s: Sched, t: Ref, prio: nat)
    requires Ok(m, s) && Applies(m, s, Prioritise(t, prio))
    ensures Ok(m, Prioritised(s, t, prio))
  {
    assert ThreadFine(m.c, s.v.tcbs[t]);
    var tcb := At(s.v, t).(prio := prio);
    if tcb.runnable && (tcb.queued || t == s.cur) {
      ReplacedOk(m, s, t, tcb);
      RescheduledOk(m, s.(v := Put(Set(Take(s.v, t), t, tcb), t)));
    } else {
      SetOkIn(m, s, t, tcb);
    }
  }

  lemma {:induction false} MovedOk(m: Setup, s: Sched, t: Ref, dom: nat)
    requires Ok(m, s) && t in s.v.tcbs && dom < m.c.domains
    ensures Ok(m, Moved(s, t, dom))
  {
    assert ThreadFine(m.c, s.v.tcbs[t]);
    var tcb := At(s.v, t).(domain := dom);
    ReplacedOk(m, s, t, tcb);
    var out := Set(Take(s.v, t), t, tcb);
    RescheduledOk(m, s.(v := if IsSchedulable(tcb) then Put(out, t) else out));
  }

  lemma {:induction false} ExpiredOk(m: Setup, s: Sched, ready: bool)
    requires Ok(m, s)
    ensures Ok(m, Expired(m, s, ready))
  {
    if GoesOn(m, s) {
      PutOkIn(m, s, s.cur);
      ParkedOk(m, s, s.cur);
      RescheduledOk(m, s.(v := if ready then PutLast(s.v, s.cur) else Parked(s.v, s.cur)));
    }
  }

  lemma {:induction false} UnboundOk(m: Setup, s: Sched, t: Ref)
    requires Ok(m, s) && t in s.v.tcbs
    ensures Ok(m, Unbound(s, t)) && Ok(m, Stripped(s, t))
  {
    RescheduledOk(m, s);
    ParkedOk(m, if t == s.cur then Rescheduled(s) else s, t);
    ParkedOk(m, s, t);
    RescheduledOk(m, s.(v := Parked(s.v, t)));
  }

  /** No step disturbs the queues. */
  lemma {:induction false} ActedOk(m: Setup, s: Sched, a: Act)
    requires Ok(m, s)
    ensures Ok(m, Acted(m, s, a))
  {
    if Applies(m, s, a) {
      match a
      case Wake(t) => WokenOk(m, s, t);
      case SetState(t, runnable) => StateSetOk(m, s, t, runnable);
      case Suspend(t) => SuspendedOk(m, s, t);
      case Strip(t) => UnboundOk(m, s, t);
      case Unbind(t) => UnboundOk(m, s, t);
      case Bind(t) => BoundOk(m, s, t);
      case Postpone(t) => ParkedOk(m, s, t);
      case Release(t) => BoundOk(m, s, t);
      case YieldTo(t) => YieldedToOk(m, s, t);
      case Prioritise(t, prio) => PrioritisedOk(m, s, t, prio);
      case Move(t, dom) => MovedOk(m, s, t, dom);
      case Reschedule => RescheduledOk(m, s);
      case Expire(ready) => ExpiredOk(m, s, ready);
    }
  }

  // ---------------------------------------------------------------- the law during a kernel entry

  /** During an entry: as long as the current thread is to be resumed the law holds; while there is a candidate, it can
      run in this domain, and the current thread fits even if it cannot go on. */
  ghost predicate Poised(m: Setup, s: Sched) {
    match s.action
    case Resume => Settled(m, s)
    case ChooseNew => true
    case SwitchTo(t) => Fits(m, s) && IsSchedulable(At(s.v, t)) && At(s.v, t).domain == s.dom
  }

  /** Then schedule has what it relies on, although it may not look at the bitmap. */
  lemma {:induction false} PoisedPrepared(m: Setup, s: Sched)
    requires Ok(m, s) && Poised(m, s)
    ensures Prepared(m, s) && Dispatchable(s)
  {
    if s.action.SwitchTo? { TopTake(m, s.v, s.action.thread, s.dom); }
  }

  /** A thread that can run is moved into the current domain although its priority is above the current one. */
  ghost predicate Intrudes(s: Sched, t: Ref, dom: nat) {
    IsSchedulable(At(s.v, t)) && dom == s.dom && PrioOf(s.v, t) > PrioOf(s.v, s.cur)
  }

  /** The steps that end this, in terms of the state before: the candidate is stopped, postponed, unbound or moved to
      another domain; the current thread is postponed and no new choice is asked for; a current thread that cannot go
      on is given a lower priority while there is a candidate; a thread intrudes. */
  ghost predicate Upsets(m: Setup, s: Sched, a: Act) {
    && s.action != ChooseNew && Applies(m, s, a)
    && match a
       case SetState(t, runnable) => !runnable && s.action == SwitchTo(t)
       case Suspend(t) => s.action == SwitchTo(t)
       case Unbind(t) => t != s.cur && s.action == SwitchTo(t)
       case Postpone(t) => s.action == SwitchTo(t) || (s.action == Resume && t == s.cur)
       case Prioritise(t, prio) =>
         s.action.SwitchTo? && t == s.cur && !At(s.v, t).runnable && prio < Top(m, s.v, s.dom)
       case Move(t, dom) => t != s.cur && (Intrudes(s, t, dom) || (s.action == SwitchTo(t) && dom != s.dom))
       case _ => false
  }

  /** Changing a thread in place keeps the current thread fitting, if its own level stays. */
  lemma {:induction false} SetFits(m: Setup, s: Sched, t: Ref, tcb: Tcb)
    requires Ok(m, s) && Fits(m, s) && t in s.v.tcbs && (t == s.cur ==> LevelOf(tcb) == LevelOf(s.v.tcbs[t]))
    ensures Fits(m, s.(v := Set(s.v, t, tcb)))
  {
  }

  lemma {:induction false} TakeFits(m: Setup, s: Sched, t: Ref)
    requires Ok(m, s) && Fits(m, s)
    ensures Fits(m, s.(v := Take(s.v, t)))
  {
    TopTake(m, s.v, t, s.dom);
  }

  /** Queueing another thread keeps it exactly if that thread is of another domain or no higher. */
  lemma {:induction false} PutFits(m: Setup, s: Sched, t: Ref)
    requires Ok(m, s) && Fits(m, s) && t in s.v.tcbs && t != s.cur && !s.v.tcbs[t].queued
    ensures Fits(m, s.(v := Put(s.v, t))) <==> s.v.tcbs[t].domain != s.dom || s.v.tcbs[t].prio <= PrioOf(s.v, s.cur)
  {
    TopPut(m, s.v, t, s.dom);
  }

  lemma {:induction false} WokenPoised(m: Setup, s: Sched, t: Ref)
    requires Ok(m, s) && Poised(m, s) && t in s.v.tcbs && s.v.tcbs[t].runnable
    ensures Poised(m, Woken(s, t))
  {
    if s.action != ChooseNew && s.v.tcbs[t].domain != s.dom && !s.v.tcbs[t].queued { PutFits(m, s, t); }
  }

  lemma {:induction false} StateSetPoised(m: Setup, s: Sched, t: Ref, runnable: bool)
    requires Ok(m, s) && Poised(m, s) && t in s.v.tcbs
    ensures Poised(m, StateSet(s, t, runnable)) <==> runnable || s.action != SwitchTo(t)
  {
    if s.action != ChooseNew { SetFits(m, s, t, At(s.v, t).(runnable := runnable)); }
  }

  lemma {:induction false} TakePoised(m: Setup, s: Sched, t: Ref)
    requires Ok(m, s) && Poised(m, s)
    ensures Poised(m, s.(v := Take(s.v, t)))
  {
    if s.action != ChooseNew { TakeFits(m, s, t); }
  }

  lemma {:induction false} ParkedPoised(m: Setup, s: Sched, t: Ref)
    requires Ok(m, s) && Poised(m, s) && t in s.v.tcbs
    ensures Poised(m, s.(v := Parked(s.v, t))) <==> s.action != SwitchTo(t) && !(s.action == Resume && t == s.cur)
  {
    if s.action != ChooseNew {
      TakeFits(m, s, t);
      TakeOk(m.c, s.v, t);
      TakenOut(m.c, s.v, t);
      SetFits(m, s.(v := Take(s.v, t)), t, At(s.v, t).(hasContext := false));
    }
  }

  lemma {:induction false} ReleasedPoised(m: Setup, s: Sched, t: Ref)
    requires Ok(m, s) && Poised(m, s) && t in s.v.tcbs
    ensures Poised(m, Released(s, t))
  {
    if s.action != ChooseNew { SetFits(m, s, t, At(s.v, t).(hasContext := true)); }
  }

  lemma {:induction false} YieldedToPoised(m: Setup, s: Sched, t: Ref)
    requires Ok(m, s) && Poised(m, s) && t in s.v.tcbs
    ensures Poised(m, YieldedTo(s, t))
  {
    if s.action != ChooseNew && IsSchedulable(s.v.tcbs[t]) && PrioOf(s.v, t) < PrioOf(s.v, s.cur) {
      TakeFits(m, s, t);
      TakeOk(m.c, s.v, t);
      TakenOut(m.c, s.v, t);
      PutFits(m, s.(v := Take(s.v, t)), t);
    }
  }

  lemma {:induction false} PrioritisedPoised(m: Setup, s: Sched, t: Ref, prio: nat)
    requires Ok(m, s) && Poised(m, s) && Applies(m, s, Prioritise(t, prio))
    ensures Poised(m, Prioritised(s, t, prio)) <==> !Upsets(m, s, Prioritise(t, prio))
  {
    if s.action != ChooseNew && t != s.cur { SetFits(m, s, t, At(s.v, t).(prio := prio)); }
  }

  lemma {:induction false} MovedPoised(m: Setup, s: Sched, t: Ref, dom: nat)
    requires Ok(m, s) && Poised(m, s) && t in s.v.tcbs && dom < m.c.domains
    ensures Poised(m, Moved(s, t, dom)) <==> !Upsets(m, s, Move(t, dom))
  {
    if s.action != ChooseNew && t != s.cur { MovedFits(m, s, t, dom, Moved(s, t, dom)); }
  }

  lemma {:induction false} MovedFits(m: Setup, s: Sched, t: Ref, dom: nat, r: Sched)
    requires Ok(m, s) && Fits(m, s) && t in s.v.tcbs && t != s.cur && dom < m.c.domains && r == Moved(s, t, dom)
    ensures r == s.(v := r.v) && (Fits(m, r) <==> !Intrudes(s, t, dom))
    ensures r.v.tcbs == s.v.tcbs[t := s.v.tcbs[t].(domain := dom, queued := IsSchedulable(s.v.tcbs[t]))]
  {
    assert ThreadFine(m.c, s.v.tcbs[t]);
    var tcb := At(s.v, t).(domain := dom);
    var out := s.(v := Set(Take(s.v, t), t, tcb));
    OutFits(m, s, t, tcb, out);
    if IsSchedulable(tcb) { PutFits(m, out, t); }
  }

  lemma {:induction false} OutFits(m: Setup, s: Sched, t: Ref, tcb: Tcb, out: Sched)
    requires Ok(m, s) && Fits(m, s) && t in s.v.tcbs && t != s.cur && Known(m.c, LevelOf(tcb))
    requires out == s.(v := Set(Take(s.v, t), t, tcb))
    ensures Ok(m, out) && Fits(m, out) && out.v.tcbs == s.v.tcbs[t := tcb.(queued := false)]
  {
    TakeFits(m, s, t);
    TakenOut(m.c, s.v, t);
    TakeOk(m.c, s.v, t);
    ReplacedOk(m, s, t, tcb);
    SetFits(m, s.(v := Take(s.v, t)), t, tcb);
  }

  /** Each step keeps what schedule needs exactly if it is not one of those. */
  lemma {:induction false} ActPoisedIff(m: Setup, s: Sched, a: Act)
    requires Ok(m, s) && Poised(m, s)
    ensures Poised(m, Acted(m, s, a)) <==> !Upsets(m, s, a)
  {
    if Applies(m, s, a) {
      match a
      case Wake(t) => WokenPoised(m, s, t);
      case SetState(t, runnable) => StateSetPoised(m, s, t, runnable);
      case Suspend(t) =>
        SuspendedIs(m, s, t);
        TakePoised(m, s, t);
        TakeOk(m.c, s.v, t);
        StateSetPoised(m, s.(v := Take(s.v, t)), t, false);
      case Strip(t) => ParkedPoised(m, s, t);
      case Unbind(t) => if t != s.cur { ParkedPoised(m, s, t); }
      case Bind(t) => ReleasedPoised(m, s, t);
      case Postpone(t) => ParkedPoised(m, s, t);
      case Release(t) => ReleasedPoised(m, s, t);
      case YieldTo(t) => YieldedToPoised(m, s, t);
      case Prioritise(t, prio) => PrioritisedPoised(m, s, t, prio);
      case Move(t, dom) => MovedPoised(m, s, t, dom);
      case Reschedule =>
      case Expire(ready) =>
    }
  }

  // ---------------------------------------------------------------- whole entries and runs

  ghost function AfterActs(m: Setup, s: Sched, acts: seq<Act>): Sched
    decreases |acts|
  {
    if acts == [] then s else AfterActs(m, Acted(m, s, acts[0]), acts[1..])
  }

  /** A kernel entry: its steps in order, whether the time of the domain is up, and the domain that follows then. The
      threads that awaken releases at the start of schedule come last among the steps. */
  datatype Entry = Entry(acts: seq<Act>, expired: bool, next: nat)

  ghost function AfterEntry(m: Setup, s: Sched, e: Entry): Sched {
    var r := AfterActs(m, s, e.acts);
    Scheduled(m, r, if e.expired then e.next else r.dom)
  }

  /** The assert of schedule holds in this entry. */
  ghost predicate Asserted(m: Setup, s: Sched, e: Entry) {
    Dispatchable(AfterActs(m, s, e.acts))
  }

  lemma {:induction false} ActsOk(m: Setup, s: Sched, acts: seq<Act>)
    requires Ok(m, s)
    ensures Ok(m, AfterActs(m, s, acts))
    decreases |acts|
  {
    if acts != [] {
      ActedOk(m, s, acts[0]);
      ActsOk(m, Acted(m, s, acts[0]), acts[1..]);
    }
  }

  /** Whatever the entry does, the law holds after it exactly if schedule is prepared when it comes to it. */
  lemma {:induction false} EntrySettlesIff(m: Setup, s: Sched, e: Entry)
    requires Ok(m, s) && Asserted(m, s, e) && e.next < m.c.domains
    ensures Settled(m, AfterEntry(m, s, e)) <==> Prepared(m, AfterActs(m, s, e.acts))
    ensures Ok(m, AfterEntry(m, s, e)) && AfterEntry(m, s, e).action == Resume
  {
    ActsOk(m, s, e.acts);
    var r := AfterActs(m, s, e.acts);
    ScheduleSettlesIff(m, r, if e.expired then e.next else r.dom);
  }

  /** None of the steps upsets the scheduler. */
  ghost predicate Calm(m: Setup, s: Sched, acts: seq<Act>)
    decreases |acts|
  {
    acts != [] ==> !Upsets(m, s, acts[0]) && Calm(m, Acted(m, s, acts[0]), acts[1..])
  }

  lemma {:induction false} CalmPoised(m: Setup, s: Sched, acts: seq<Act>)
    requires Ok(m, s) && Poised(m, s) && Calm(m, s, acts)
    ensures Poised(m, AfterActs(m, s, acts))
    decreases |acts|
  {
    if acts != [] {
      ActPoisedIff(m, s, acts[0]);
      ActedOk(m, s, acts[0]);
      CalmPoised(m, Acted(m, s, acts[0]), acts[1..]);
    }
  }

  /** The entry asks for a new choice in the end, or none of its steps upsets the scheduler. */
  ghost predicate EntryCalm(m: Setup, s: Sched, e: Entry) {
    AfterActs(m, s, e.acts).action == ChooseNew || Calm(m, s, e.acts)
  }

  /** After such an entry, of any number of steps, the law holds. */
  lemma {:induction false} CalmSettles(m: Setup, s: Sched, e: Entry)
    requires Ok(m, s) && Poised(m, s) && EntryCalm(m, s, e) && e.next < m.c.domains
    ensures Asserted(m, s, e) && Settled(m, AfterEntry(m, s, e))
  {
    ActsOk(m, s, e.acts);
    var r := AfterActs(m, s, e.acts);
    if r.action != ChooseNew { CalmPoised(m, s, e.acts); }
    PoisedPrepared(m, r);
    EntrySettlesIff(m, s, e);
  }

  ghost predicate Timely(m: Setup, entries: seq<Entry>) {
    forall i :: 0 <= i < |entries| ==> entries[i].next < m.c.domains
  }

  ghost function RunOf(m: Setup, s: Sched, entries: seq<Entry>): Sched
    decreases |entries|
  {
    if entries == [] then s else RunOf(m, AfterEntry(m, s, entries[0]), entries[1..])
  }

  ghost predicate AssertsHold(m: Setup, s: Sched, entries: seq<Entry>)
    decreases |entries|
  {
    entries != [] ==> Asserted(m, s, entries[0]) && AssertsHold(m, AfterEntry(m, s, entries[0]), entries[1..])
  }

  /** The law holds whenever a thread runs. */
  ghost predicate SettledThroughout(m: Setup, s: Sched, entries: seq<Entry>)
    decreases |entries|
  {
    Settled(m, s) && (entries != [] ==> SettledThroughout(m, AfterEntry(m, s, entries[0]), entries[1..]))
  }

  ghost predicate AlwaysPrepared(m: Setup, s: Sched, entries: seq<Entry>)
    decreases |entries|
  {
    entries != [] ==>
      Prepared(m, AfterActs(m, s, entries[0].acts)) && AlwaysPrepared(m, AfterEntry(m, s, entries[0]), entries[1..])
  }

  ghost predicate AllCalm(m: Setup, s: Sched, entries: seq<Entry>)
    decreases |entries|
  {
    entries != [] ==> EntryCalm(m, s, entries[0]) && AllCalm(m, AfterEntry(m, s, entries[0]), entries[1..])
  }

  /** Over every run of kernel entries, the law holds throughout exactly if schedule never overlooks a thread. */
  lemma {:induction false} RunSettledIff(m: Setup, s: Sched, entries: seq<Entry>)
    requires Ok(m, s) && Settled(m, s) && AssertsHold(m, s, entries) && Timely(m, entries)
    ensures SettledThroughout(m, s, entries) <==> AlwaysPrepared(m, s, entries)
    decreases |entries|
  {
    if entries != [] {
      EntrySettlesIff(m, s, entries[0]);
      var r := AfterEntry(m, s, entries[0]);
      if Settled(m, r) { RunSettledIff(m, r, entries[1..]); }
      assert SettledThroughout(m, r, entries[1..]) ==> Settled(m, r);
    }
  }

  /** Over every run of kernel entries none of which upsets the scheduler, the asserts of schedule and the law hold
      throughout. */
  lemma {:induction false} RunCalm(m: Setup, s: Sched, entries: seq<Entry>)
    requires Ok(m, s) && Settled(m, s) && s.action == Resume && AllCalm(m, s, entries) && Timely(m, entries)
    ensures AssertsHold(m, s, entries) && SettledThroughout(m, s, entries)
    decreases |entries|
  {
    if entries != [] {
      CalmSettles(m, s, entries[0]);
      EntrySettlesIff(m, s, entries[0]);
      RunCalm(m, AfterEntry(m, s, entries[0]), entries[1..]);
    }
  }

  lemma {:induction false} EndSettled(m: Setup, s: Sched, entries: seq<Entry>)
    requires SettledThroughout(m, s, entries)
    ensures Settled(m, RunOf(m, s, entries))
    decreases |entries|
  {
    if entries != [] { EndSettled(m, AfterEntry(m, s, entries[0]), entries[1..]); }
  }

  // ---------------------------------------------------------------- entries that are calm by their form

  /** No thread is stopped or unbound after it was woken, none is postponed, and none changes priority or domain. */
  ghost predicate Plain(acts: seq<Act>, woken: set<Ref>)
    decreases |acts|
  {
    acts != [] ==>
      match acts[0]
      case Wake(t) => Plain(acts[1..], woken + {t})
      case SetState(t, runnable) => (runnable || t !in woken) && Plain(acts[1..], woken)
      case Suspend(t) => t !in woken && Plain(acts[1..], woken)
      case Unbind(t) => t !in woken && Plain(acts[1..], woken)
      case Postpone(_) => false
      case Prioritise(_, _) => false
      case Move(_, _) => false
      case _ => Plain(acts[1..], woken)
  }

  /** Such steps upset nothing, in any state. */
  lemma {:induction false} PlainCalm(m: Setup, s: Sched, acts: seq<Act>, woken: set<Ref>)
    requires Plain(acts, woken) && (s.action.SwitchTo? ==> s.action.thread in woken)
    ensures Calm(m, s, acts)
    decreases |acts|
  {
    if acts != [] {
      PlainCalm(m, Acted(m, s, acts[0]), acts[1..], if acts[0].Wake? then woken + {acts[0].t} else woken);
    }
  }

  /** A call with donation to a receiver that waits: restart of the caller, reply_unlink of the receiver, reply_push
      with schedContext_donate, and the receiver made running and a candidate. */
  function CallActs(caller: Ref, receiver: Ref): seq<Act> {
    [SetState(caller, true), SetState(receiver, false), SetState(caller, false), Strip(caller), Release(receiver),
     SetState(receiver, true), Wake(receiver)]
  }

  lemma {:induction false} CallPlain(caller: Ref, receiver: Ref)
    ensures Plain(CallActs(caller, receiver), {})
  {
    var acts := CallActs(caller, receiver);
    assert acts[1..][1..] == acts[2..] && acts[2..][1..] == acts[3..] && acts[3..][1..] == acts[4..];
    assert acts[4..][1..] == acts[5..] && acts[5..][1..] == acts[6..] && acts[6..][1..] == [];
    assert Plain(acts[5..], {});
    assert Plain(acts[3..], {});
    assert Plain(acts[1..], {});
  }

  /** After every call the law holds, if it held before. */
  lemma {:induction false} CallSettles(m: Setup, s: Sched, receiver: Ref, expired: bool, next: nat)
    requires Ok(m, s) && Settled(m, s) && s.action == Resume && next < m.c.domains
    ensures var e := Entry(CallActs(s.cur, receiver), expired, next);
            Asserted(m, s, e) && Settled(m, AfterEntry(m, s, e))
  {
    CallPlain(s.cur, receiver);
    PlainCalm(m, s, CallActs(s.cur, receiver), {});
    CalmSettles(m, s, Entry(CallActs(s.cur, receiver), expired, next));
  }

  /** An entry that ends with rescheduleRequired, as cancelAllIPC does, is calm whatever came before. */
  lemma {:induction false} RescheduleCalm(m: Setup, s: Sched, acts: seq<Act>)
    ensures AfterActs(m, s, acts + [Reschedule]).action == ChooseNew
    decreases |acts|
  {
    if acts == [] {
      assert (acts + [Reschedule])[1..] == [];
    } else {
      assert (acts + [Reschedule])[1..] == acts[1..] + [Reschedule];
      RescheduleCalm(m, Acted(m, s, acts[0]), acts[1..]);
    }
  }

  /** No thread is queued, and the idle thread runs. */
  ghost function Blank(m: Setup, threads: map<Ref, Tcb>, dom: nat): Sched {
    var queues := map d, p | 0 <= d < m.c.domains && 0 <= p < m.c.prios :: Level(d, p) := [];
    Sched(View(threads, queues), Resume, m.idle, dom)
  }

  lemma {:induction false} BlankSettled(m: Setup, threads: map<Ref, Tcb>, dom: nat)
    requires m.idle !in threads && dom < m.c.domains
    requires forall t :: t in threads ==> Known(m.c, LevelOf(threads[t])) && !threads[t].queued
    ensures Ok(m, Blank(m, threads, dom)) && Settled(m, Blank(m, threads, dom))
  {
    var s := Blank(m, threads, dom);
    ScanIsMax(s.v.queues, dom, m.c.prios);
    forall l | l in s.v.queues ensures QueueFine(s.v, l) {
    }
  }

  /** An entry that moves another thread between domains keeps the law exactly if that thread does not intrude. */
  lemma {:induction false} MoveSettlesIff(m: Setup, s: Sched, t: Ref, dom: nat, e: Entry)
    requires Ok(m, s) && Settled(m, s) && s.action == Resume && t in s.v.tcbs && t != s.cur
    requires dom < m.c.domains && e.acts == [Move(t, dom)] && e.next < m.c.domains
    ensures Asserted(m, s, e) && (Settled(m, AfterEntry(m, s, e)) <==> !Intrudes(s, t, dom))
    ensures AfterEntry(m, s, e).cur == s.cur
  {
    var r := Acted(m, s, e.acts[0]);
    assert e.acts[1..] == [];
    assert AfterActs(m, s, e.acts) == r;
    MovedFits(m, s, t, dom, r);
    ActPoisedIff(m, s, e.acts[0]);
    EntrySettlesIff(m, s, e);
  }

  lemma {:induction false} RunTwo(m: Setup, s: Sched, e: Entry, f: Entry)
    ensures RunOf(m, s, [e]) == AfterEntry(m, s, e)
    ensures RunOf(m, s, [e, f]) == AfterEntry(m, AfterEntry(m, s, e), f)
    ensures AssertsHold(m, s, [e, f]) <==> Asserted(m, s, e) && Asserted(m, AfterEntry(m, s, e), f)
  {
    assert [e][1..] == [] && [e, f][1..] == [f] && [f][1..] == [];
    var r := AfterEntry(m, s, e);
    assert RunOf(m, r, [f]) == AfterEntry(m, r, f) && AssertsHold(m, AfterEntry(m, r, f), []);
    assert AssertsHold(m, r, [f]) <==> Asserted(m, r, f);
  }

  /** Two threads: 1 of domain 0 and priority 0, 2 of domain 1 and priority 1. Both are woken, 1 runs, and 2 is then
      moved to domain 0, where it has to wait although it is higher. */
  lemma {:induction false} IntruderWaits()
    ensures var m := Setup(Config(0, 2, 2), 3);
            var s := Blank(m, map[1 := Tcb(0, 0, false, true, true), 2 := Tcb(1, 1, false, true, true)], 0);
            var e, f := Entry([Wake(1), Wake(2)], false, 0), Entry([Move(2, 0)], false, 0);
            && AssertsHold(m, s, [e, f]) && RunOf(m, s, [e]).cur == 1 && Settled(m, RunOf(m, s, [e]))
            && RunOf(m, s, [e, f]).cur == 1 && !Settled(m, RunOf(m, s, [e, f]))
  {
    var m := Setup(Config(0, 2, 2), 3);
    var one, two := Tcb(0, 0, false, true, true), Tcb(1, 1, false, true, true);
    var s := Blank(m, map[1 := one, 2 := two], 0);
    var e, f := Entry([Wake(1), Wake(2)], false, 0), Entry([Move(2, 0)], false, 0);
    var r := FirstEntry(m, s, one, two, e);
    MoveSettlesIff(m, r, 2, 0, f);
    RunTwo(m, s, e, f);
  }

  lemma {:induction false} FirstEntry(m: Setup, s: Sched, one: Tcb, two: Tcb, e: Entry) returns (r: Sched)
    requires m == Setup(Config(0, 2, 2), 3) && s == Blank(m, map[1 := one, 2 := two], 0)
    requires one == Tcb(0, 0, false, true, true) && two == Tcb(1, 1, false, true, true)
    requires e == Entry([Wake(1), Wake(2)], false, 0)
    ensures r == AfterEntry(m, s, e) && Asserted(m, s, e) && Ok(m, r) && Settled(m, r) && r.action == Resume
    ensures r.cur == 1 && r.dom == 0 && 2 in r.v.tcbs && IsSchedulable(r.v.tcbs[2])
    ensures r.v.tcbs[2].prio == 1 && 1 in r.v.tcbs && r.v.tcbs[1].prio == 0
  {
    BlankSettled(m, map[1 := one, 2 := two], 0);
    assert e.acts[1..] == [Wake(2)] && [Wake(2)][1..] == [];
    assert Plain(e.acts, {}) by { assert Plain([Wake(2)], {1}); }
    PlainCalm(m, s, e.acts, {});
    CalmSettles(m, s, e);
    EntrySettlesIff(m, s, e);
    r := AfterEntry(m, s, e);
    var b := s.(v := Put(s.v, 2), action := SwitchTo(1));
    assert AfterActs(m, s, e.acts) == b by {
      assert Acted(m, s, Wake(1)) == s.(action := SwitchTo(1));
      assert Acted(m, s.(action := SwitchTo(1)), Wake(2)) == b;
    }
    assert Fits(m, s) && s.cur == m.idle;
    TopPut(m, s.v, 2, 0);
  }
}
