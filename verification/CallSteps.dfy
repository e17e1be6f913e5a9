/** The scheduler of the slow path of a call is that of `SchedulerLaw`, and the call is the kernel entry that is
    described there (kernel/src/object/endpoint.c, kernel/src/object/reply.c, kernel/src/kernel/thread.c). */
module CallSteps {
  import CS = CallStacks
  import EQ = EndpointQueue
  import SL = SchedulerLaw
  import opened Fastpath
  import RQ = ReadyQueues
  import opened TcbQueues

  /** A thread as the scheduler sees it. */
  function TcbOf(f: Fixed, k: Kernel, t: Ref): RQ.Tcb
    requires t in k.st.tcbs && t in f.level
  {
    var tcb := k.st.tcbs[t];
    RQ.Tcb(f.level[t].dom, f.level[t].prio, Queued(f, k, t), Runnable(tcb),
           tcb.sc != 0 && tcb.sc in f.active && t !in f.released)
  }

  /** What the scheduler sees of the kernel. */
  ghost function Seen(f: Fixed, k: Kernel): SL.Sched
    requires Placed(f, k)
  {
    SL.Sched(SL.View(map t | t in k.st.tcbs :: TcbOf(f, k, t), k.ready), k.action, k.cur, f.curDomain)
  }

  /** The configuration fits. */
  ghost predicate Fitting(m: SL.Setup, f: Fixed, k: Kernel) {
    m.c.prios == f.prios && m.idle == f.idle && Placed(f, k) && SL.Ok(m, Seen(f, k))
  }

  /** The current thread and the action are seen as they are. */
  lemma OuterSeen(f: Fixed, k: Kernel, cur: Ref, action: RQ.Action)
    requires Placed(f, k) && (action.SwitchTo? ==> action.thread in k.st.tcbs)
    ensures Placed(f, k.(cur := cur, action := action))
    ensures Seen(f, k.(cur := cur, action := action)) == Seen(f, k).(cur := cur, action := action)
  {
    assert Seen(f, k.(cur := cur, action := action)).v.tcbs == Seen(f, k).v.tcbs;
  }

  lemma SeenAt(f: Fixed, k: Kernel, t: Ref)
    requires Placed(f, k) && t in k.st.tcbs
    ensures SL.At(Seen(f, k).v, t) == TcbOf(f, k, t) && RQ.LevelOf(TcbOf(f, k, t)) == f.level[t]
  {
  }

  lemma EnqueueSeen(m: SL.Setup, f: Fixed, k: Kernel, t: Ref)
    requires Fitting(m, f, k) && t in k.st.tcbs
    ensures Placed(f, Enqueue(f, k, t)) && Seen(f, Enqueue(f, k, t)) == Seen(f, k).(v := SL.Put(Seen(f, k).v, t))
    ensures Placed(f, Append(f, k, t)) && Seen(f, Append(f, k, t)) == Seen(f, k).(v := SL.PutLast(Seen(f, k).v, t))
  {
    SeenAt(f, k, t);
    QueuedSeen(f, k, Enqueue(f, k, t), SL.Put(Seen(f, k).v, t), t);
    QueuedSeen(f, k, Append(f, k, t), SL.PutLast(Seen(f, k).v, t), t);
  }

  /** A kernel that differs in the place of `t` only, seen through its queues. */
  lemma QueuedSeen(f: Fixed, k: Kernel, r: Kernel, v: SL.View, t: Ref)
    requires Placed(f, k) && t in k.st.tcbs && r == k.(ready := r.ready) && r.ready.Keys == k.ready.Keys
    requires forall x :: x in k.st.tcbs && x != t ==> (Queued(f, r, x) <==> Queued(f, k, x))
    requires v.queues == r.ready
    requires v.tcbs == Seen(f, k).v.tcbs[t := TcbOf(f, k, t).(queued := Queued(f, r, t))]
    ensures Placed(f, r) && Seen(f, r) == Seen(f, k).(v := v)
  {
    assert Seen(f, r).v.tcbs == v.tcbs;
  }

  lemma DequeueSeen(m: SL.Setup, f: Fixed, k: Kernel, t: Ref)
    requires Fitting(m, f, k) && t in k.st.tcbs
    ensures Placed(f, Dequeue(f, k, t)) && Seen(f, Dequeue(f, k, t)) == Seen(f, k).(v := SL.Take(Seen(f, k).v, t))
  {
    SeenAt(f, k, t);
    var l := f.level[t];
    assert SL.QueueFine(Seen(f, k).v, l);
    SL.WithoutIn(k.ready[l], t);
    QueuedSeen(f, k, Dequeue(f, k, t), SL.Take(Seen(f, k).v, t), t);
  }

  lemma AbleSeen(f: Fixed, k: Kernel, t: Ref)
    requires Placed(f, k)
    ensures IsSchedulable(f, k, t) <==> RQ.IsSchedulable(SL.At(Seen(f, k).v, t))
  {
    if t in k.st.tcbs { SeenAt(f, k, t); }
  }

  lemma RescheduleSeen(m: SL.Setup, f: Fixed, k: Kernel)
    requires Fitting(m, f, k)
    ensures Seen(f, RescheduleRequired(f, k)) == SL.Rescheduled(Seen(f, k))
  {
    var r := k;
    if k.action.SwitchTo? {
      AbleSeen(f, k, k.action.thread);
      EnqueueSeen(m, f, k, k.action.thread);
      if IsSchedulable(f, k, k.action.thread) { r := Enqueue(f, k, k.action.thread); }
    }
    OuterSeen(f, r, k.cur, RQ.ChooseNew);
  }

  /** possibleSwitchTo, for a thread whose context is one that can have refills */
  lemma WakeSeen(m: SL.Setup, f: Fixed, k: Kernel, t: Ref)
    requires Fitting(m, f, k) && t in k.st.tcbs && (k.st.tcbs[t].sc != 0 ==> k.st.tcbs[t].sc in f.active)
    ensures Seen(f, PossibleSwitchTo(f, k, t)) == SL.Woken(Seen(f, k), t)
  {
    SeenAt(f, k, t);
    EnqueueSeen(m, f, k, t);
    OuterSeen(f, k, k.cur, RQ.SwitchTo(t));
    if k.action != RQ.Resume {
      RescheduleSeen(m, f, k);
      SL.RescheduledOk(m, Seen(f, k));
      EnqueueSeen(m, f, RescheduleRequired(f, k), t);
    }
  }

  lemma ChooseSeen(m: SL.Setup, f: Fixed, k: Kernel)
    requires Fitting(m, f, k)
    ensures Placed(f, ChooseThread(f, k))
    ensures Seen(f, ChooseThread(f, k)) == SL.Picked(m, Seen(f, k).v, f.curDomain).(action := k.action)
  {
    var p := RQ.Scan(k.ready, f.curDomain, f.prios);
    RQ.ScanIsMax(k.ready, f.curDomain, f.prios);
    if p >= 0 {
      var l := RQ.Level(f.curDomain, p);
      assert SL.QueueFine(Seen(f, k).v, l);
      DequeueSeen(m, f, k, k.ready[l][0]);
      OuterSeen(f, Dequeue(f, k, k.ready[l][0]), k.ready[l][0], k.action);
    } else {
      OuterSeen(f, k, f.idle, k.action);
    }
  }

  /** A thread queues, and then the highest is chosen. */
  lemma QueuesThenChooses(m: SL.Setup, f: Fixed, k: Kernel, t: Ref, front: bool)
    requires Fitting(m, f, k) && t in k.st.tcbs && RQ.IsSchedulable(SL.At(Seen(f, k).v, t))
    ensures var r := ChooseThread(f, if front then Enqueue(f, k, t) else Append(f, k, t));
            var v := if front then SL.Put(Seen(f, k).v, t) else SL.PutLast(Seen(f, k).v, t);
            Placed(f, r) && Seen(f, r) == SL.Picked(m, v, f.curDomain).(action := k.action)
  {
    EnqueueSeen(m, f, k, t);
    SL.PutOkIn(m, Seen(f, k), t);
    ChooseSeen(m, f, if front then Enqueue(f, k, t) else Append(f, k, t));
  }

  /** The tests of schedule are the same. */
  lemma SameTests(m: SL.Setup, f: Fixed, k: Kernel, s: SL.Sched, t: Ref)
    requires Fitting(m, f, k) && t in k.st.tcbs && k.cur in k.st.tcbs
    requires Seen(f, k) == s.(v := SL.Kept(m, s)) && SL.Ok(m, s)
    ensures k.cur != f.idle && s.cur == k.cur && s.dom == f.curDomain
    ensures SL.PrioOf(s.v, t) == f.level[t].prio && SL.PrioOf(s.v, s.cur) == f.level[k.cur].prio
    ensures SL.Top(m, SL.Kept(m, s), s.dom) == RQ.Scan(k.ready, f.curDomain, f.prios)
    ensures RQ.IsSchedulable(SL.At(SL.Kept(m, s), t)) <==> RQ.IsSchedulable(SL.At(s.v, t))
  {
    SeenAt(f, k, t);
    SeenAt(f, k, k.cur);
    SL.KeptOk(m, s);
  }

  lemma CandidateSeen(m: SL.Setup, f: Fixed, k: Kernel, s: SL.Sched, t: Ref, was: bool)
    requires Fitting(m, f, k) && t in k.st.tcbs && k.cur in k.st.tcbs && RQ.IsSchedulable(SL.At(s.v, t))
    requires SL.Ok(m, s) && Seen(f, k) == s.(v := SL.Kept(m, s)) && (was <==> SL.GoesOn(m, s))
    ensures Placed(f, Candidate(f, k, t, was))
    ensures Seen(f, Candidate(f, k, t, was)).(action := RQ.Resume) == SwitchOr(m, s, t)
  {
    SameTests(m, f, k, s, t);
    if SL.Passed(m, s, t) {
      QueuesThenChooses(m, f, k, t, Lower(m, s, t));
    } else {
      DequeueSeen(m, f, k, t);
      OuterSeen(f, Dequeue(f, k, t), t, k.action);
    }
  }

  ghost predicate Lower(m: SL.Setup, s: SL.Sched, t: Ref) {
    && (s.cur == m.idle || SL.PrioOf(s.v, t) < SL.PrioOf(s.v, s.cur))
    && SL.PrioOf(s.v, t) < SL.Top(m, SL.Kept(m, s), s.dom)
  }

  /** What schedule makes of its candidate. */
  ghost function SwitchOr(m: SL.Setup, s: SL.Sched, t: Ref): SL.Sched {
    if SL.Passed(m, s, t) then SL.Picked(m, SL.Queueing(m, s, t), s.dom)
    else SL.Sched(SL.Take(SL.Kept(m, s), t), RQ.Resume, t, s.dom)
  }

  /** The current thread is put back, if it can go on. */
  lemma KeptSeen(m: SL.Setup, f: Fixed, k: Kernel) returns (k1: Kernel)
    requires Fitting(m, f, k) && k.cur in k.st.tcbs
    ensures k1 == if IsSchedulable(f, k, k.cur) then Enqueue(f, k, k.cur) else k
    ensures Fitting(m, f, k1) && Seen(f, k1) == Seen(f, k).(v := SL.Kept(m, Seen(f, k)))
    ensures IsSchedulable(f, k, k.cur) <==> SL.GoesOn(m, Seen(f, k))
  {
    AbleSeen(f, k, k.cur);
    EnqueueSeen(m, f, k, k.cur);
    SL.KeptOk(m, Seen(f, k));
    k1 := if IsSchedulable(f, k, k.cur) then Enqueue(f, k, k.cur) else k;
  }

  /** The scheduler of the slow path is that of the law. */
  lemma ScheduleSeen(m: SL.Setup, f: Fixed, k: Kernel)
    requires Fitting(m, f, k) && k.cur in k.st.tcbs && SL.Dispatchable(Seen(f, k))
    ensures Placed(f, Schedule(f, k)) && Seen(f, Schedule(f, k)) == SL.Scheduled(m, Seen(f, k), f.curDomain)
  {
    var k1 := KeptSeen(m, f, k);
    match k.action
    case Resume => OuterSeen(f, k, k.cur, RQ.Resume);
    case ChooseNew =>
      ChooseSeen(m, f, k1);
      OuterSeen(f, ChooseThread(f, k1), ChooseThread(f, k1).cur, RQ.Resume);
    case SwitchTo(t) =>
      var was := IsSchedulable(f, k, k.cur);
      CandidateSeen(m, f, k1, Seen(f, k), t, was);
      OuterSeen(f, Candidate(f, k1, t, was), Candidate(f, k1, t, was).cur, RQ.Resume);
  }

  // ---------------------------------------------------------------- the call

  /** The threads while a call is under way: the caller waits and has no context, the receiver runs on it. */
  ghost function HandedOver(s: SL.Sched, dest: Ref): SL.Sched
    requires s.cur in s.v.tcbs && dest in s.v.tcbs
  {
    var tcbs := s.v.tcbs[s.cur := s.v.tcbs[s.cur].(runnable := false, hasContext := false)];
    s.(v := s.v.(tcbs := tcbs[dest := tcbs[dest].(runnable := true, hasContext := true)]), action := RQ.ChooseNew)
  }

  /** The current thread can go on and calls a thread that waits without a context. */
  ghost predicate Calls(s: SL.Sched, dest: Ref) {
    && s.action == RQ.Resume && s.cur in s.v.tcbs && dest in s.v.tcbs && s.cur != dest
    && RQ.IsSchedulable(s.v.tcbs[s.cur]) && !s.v.tcbs[s.cur].queued && !s.v.tcbs[dest].queued
    && !s.v.tcbs[dest].runnable && !s.v.tcbs[dest].hasContext
  }

  /** The first half of the steps of a call: the caller comes to wait. */
  lemma CallerSteps(m: SL.Setup, s: SL.Sched, dest: Ref) returns (r: SL.Sched)
    requires Calls(s, dest)
    ensures r == s.(v := s.v.(tcbs := s.v.tcbs[s.cur := s.v.tcbs[s.cur].(runnable := false, hasContext := false)]),
                    action := RQ.ChooseNew)
    ensures SL.AfterActs(m, s, SL.CallActs(s.cur, dest)) == SL.AfterActs(m, r, SL.CallActs(s.cur, dest)[4..])
  {
    var acts := SL.CallActs(s.cur, dest);
    assert SL.Acted(m, s, acts[0]) == s by { assert s.v.tcbs[s.cur := s.v.tcbs[s.cur]] == s.v.tcbs; }
    assert SL.Acted(m, s, acts[1]) == s by { assert s.v.tcbs[dest := s.v.tcbs[dest]] == s.v.tcbs; }
    var waits := SL.Acted(m, s, acts[2]);
    assert waits == s.(v := s.v.(tcbs := s.v.tcbs[s.cur := s.v.tcbs[s.cur].(runnable := false)]),
                       action := RQ.ChooseNew);
    r := SL.Acted(m, waits, acts[3]);
    assert acts[1..][1..] == acts[2..] && acts[2..][1..] == acts[3..] && acts[3..][1..] == acts[4..];
    assert SL.AfterActs(m, s, acts) == SL.AfterActs(m, s, acts[1..]) == SL.AfterActs(m, s, acts[2..]);
    assert SL.AfterActs(m, s, acts[2..]) == SL.AfterActs(m, waits, acts[3..]);
  }

  /** The second half: the receiver gets the context and is woken. */
  lemma ReceiverSteps(m: SL.Setup, s: SL.Sched, dest: Ref, r: SL.Sched)
    requires Calls(s, dest)
    requires r == s.(v := s.v.(tcbs := s.v.tcbs[s.cur := s.v.tcbs[s.cur].(runnable := false, hasContext := false)]),
                     action := RQ.ChooseNew)
    ensures SL.AfterActs(m, r, SL.CallActs(s.cur, dest)[4..]) == SL.Woken(HandedOver(s, dest), dest)
  {
    var acts := SL.CallActs(s.cur, dest)[4..];
    assert acts == [SL.Release(dest), SL.SetState(dest, true), SL.Wake(dest)];
    assert acts[1..][1..] == [SL.Wake(dest)] && acts[1..][1..][1..] == [];
    var given := SL.Acted(m, r, acts[0]);
    var run := SL.Acted(m, given, acts[1]);
    assert run == HandedOver(s, dest) by { assert run.v.tcbs == HandedOver(s, dest).v.tcbs; }
    assert SL.AfterActs(m, r, acts) == SL.AfterActs(m, given, acts[1..]) == SL.AfterActs(m, run, [SL.Wake(dest)]);
    assert SL.AfterActs(m, run, [SL.Wake(dest)]) == SL.Acted(m, run, SL.Wake(dest)) by {
      assert [SL.Wake(dest)][1..] == [];
    }
  }

  lemma HandedOverOk(m: SL.Setup, s: SL.Sched, dest: Ref)
    requires SL.Ok(m, s) && Calls(s, dest)
    ensures SL.Ok(m, HandedOver(s, dest))
  {
    assert SL.ThreadFine(m.c, s.v.tcbs[s.cur]) && SL.ThreadFine(m.c, s.v.tcbs[dest]);
    var caller := s.v.tcbs[s.cur].(runnable := false, hasContext := false);
    var mid := s.(v := SL.Set(s.v, s.cur, caller));
    SL.SetOkIn(m, s, s.cur, caller);
    var callee := s.v.tcbs[dest].(runnable := true, hasContext := true);
    SL.SetOkIn(m, mid, dest, callee);
    assert HandedOver(s, dest).v == SL.Set(mid.v, dest, callee);
  }

  /** The receiver waits without a context and offers a reply object. */
  ghost predicate WaitsBare(k: Kernel, e: Ref) {
    ReceiverWaits(k, e) && k.st.tcbs[k.eps[e].queue.head].sc == 0 && k.st.tcbs[k.eps[e].queue.head].reply != 0
  }

  /** What the scheduler sees after the hand-over. */
  lemma CommittedSeen(f: Fixed, k: Kernel, w: Kernel, dest: Ref)
    requires Calling(f, k) && dest in k.st.tcbs && dest != k.cur && k.st.tcbs[dest].sc == 0
    requires k.st.tcbs[dest].run == CS.BlockedOnReceive && k.st.tcbs[dest].reply in k.st.replies
    requires k.st.tcbs[k.cur].sc in k.st.scs
    requires k.st.scs[k.st.tcbs[k.cur].sc].reply == 0 || k.st.scs[k.st.tcbs[k.cur].sc].reply in k.st.replies
    requires w == k.(st := Committed(k.st, k.cur, dest), links := w.links, eps := w.eps, action := RQ.ChooseNew)
    ensures Calls(Seen(f, k), dest) && Placed(f, w) && Seen(f, w) == HandedOver(Seen(f, k), dest)
  {
    SeenAt(f, k, dest);
    SeenAt(f, k, k.cur);
    assert Seen(f, w).v.tcbs == HandedOver(Seen(f, k), dest).v.tcbs;
  }

  /** The slow path of a call to such a receiver is, to the scheduler, the entry of these steps. */
  lemma SlowIsEntry(m: SL.Setup, f: Fixed, k: Kernel, e: Ref)
    requires Fitting(m, f, k) && Calling(f, k) && WaitsBare(k, e)
    ensures var dest := k.eps[e].queue.head;
            && Placed(f, SlowCall(f, k, e, true))
            && Seen(f, SlowCall(f, k, e, true))
               == SL.AfterEntry(m, Seen(f, k), SL.Entry(SL.CallActs(k.cur, dest), false, 0))
  {
    SlowReady(f, k, e);
    var dest := k.eps[e].queue.head;
    var k1 := TakeReceiver(SetThreadState(f, k, k.cur, CS.Restart), e);
    var k2 := SetThreadState(f, HandOver(f, k1, dest, true), dest, CS.Running);
    WokenState(f, k, k1, k2, dest);
    CommittedSeen(f, k, k2, dest);
    WokenSeen(m, f, k, k2, dest);
  }

  lemma WokenSeen(m: SL.Setup, f: Fixed, k: Kernel, w: Kernel, dest: Ref)
    requires Fitting(m, f, k) && Calls(Seen(f, k), dest) && dest in k.st.tcbs && k.cur in k.st.tcbs
    requires Placed(f, w) && Seen(f, w) == HandedOver(Seen(f, k), dest) && w.st.tcbs.Keys == k.st.tcbs.Keys
    requires dest in w.st.tcbs && w.st.tcbs[dest].sc in f.active
    ensures var r := Schedule(f, PossibleSwitchTo(f, w, dest));
            && Placed(f, r)
            && Seen(f, r) == SL.AfterEntry(m, Seen(f, k), SL.Entry(SL.CallActs(k.cur, dest), false, 0))
  {
    var s := Seen(f, k);
    WokenFits(m, f, w, s, dest);
    ScheduleSeen(m, f, PossibleSwitchTo(f, w, dest));
    CallStepsAre(m, s, dest);
  }

  /** The receiver is woken. */
  lemma WokenFits(m: SL.Setup, f: Fixed, w: Kernel, s: SL.Sched, dest: Ref)
    requires m.c.prios == f.prios && m.idle == f.idle && SL.Ok(m, s) && Calls(s, dest)
    requires Placed(f, w) && Seen(f, w) == HandedOver(s, dest)
    requires dest in w.st.tcbs && w.st.tcbs[dest].sc in f.active
    ensures var p := PossibleSwitchTo(f, w, dest);
            && Fitting(m, f, p) && Seen(f, p) == SL.Woken(HandedOver(s, dest), dest) && !Seen(f, p).action.SwitchTo?
            && p.st == w.st && p.cur == w.cur
  {
    HandedOverOk(m, s, dest);
    WakeSeen(m, f, w, dest);
    SL.WokenOk(m, HandedOver(s, dest), dest);
  }

  /** All the steps of a call. */
  lemma CallStepsAre(m: SL.Setup, s: SL.Sched, dest: Ref)
    requires Calls(s, dest)
    ensures SL.AfterActs(m, s, SL.CallActs(s.cur, dest)) == SL.Woken(HandedOver(s, dest), dest)
  {
    var r := CallerSteps(m, s, dest);
    ReceiverSteps(m, s, dest, r);
  }

  /** So after every such call, over the slow or the fast path, the current thread is one of the highest priority in its
      domain, if it was before. */
  lemma CallKeepsLaw(m: SL.Setup, f: Fixed, k: Kernel, e: Ref)
    requires Fitting(m, f, k) && Calling(f, k) && WaitsBare(k, e) && SL.Settled(m, Seen(f, k))
    ensures Placed(f, SlowCall(f, k, e, true)) && SL.Settled(m, Seen(f, SlowCall(f, k, e, true)))
    ensures Checks(f, k, e, true) ==> Reachable(k, e) && FastCall(k, e) == SlowCall(f, k, e, true)
  {
    var dest := k.eps[e].queue.head;
    SlowIsEntry(m, f, k, e);
    SL.CallSettles(m, Seen(f, k), dest, false, 0);
    SeenAt(f, k, k.cur);
    SeenAt(f, k, dest);
    assert SL.ThreadFine(m.c, Seen(f, k).v.tcbs[dest]);
    if Checks(f, k, e, true) { FastIsSlowIff(f, k, e); }
  }
}
