/** The scheduler on linked ready queues with their two-level bitmap (kernel/src/object/tcb.c,
    kernel/include/kernel/thread.h, kernel/src/kernel/thread.c, kernel/src/object/schedcontext.c): every operation does
    to the queues what `SchedulerLaw` says. */
module Scheduling {
  import opened Words
  import opened TcbQueues
  import opened ReadyQueues
  import opened SchedulerLaw
  import opened ThreadsKept

  class Scheduler {
    const config: Config
    const idle: Ref
    var tcbs: map<Ref, Tcb>
    var links: LinkMap
    var ready: seq<Queue>
    var l1: seq<nat>
    var l2: seq<seq<nat>>
    var cur: Ref
    var curDomain: nat
    var action: Action
    ghost var queues: Contents

    ghost function Snapshot(): State
      reads this
    {
      State(tcbs, links, ready, Bitmap(l1, l2))
    }

    ghost function Now(): View
      reads this
    {
      View(tcbs, queues)
    }

    ghost function Site(): Sched
      reads this
    {
      Sched(Now(), action, cur, curDomain)
    }

    ghost function M(): Setup {
      Setup(config, idle)
    }

    /** Queues, links and bitmap fit together. */
    ghost predicate Sound()
      reads this
    {
      && Valid(config, Snapshot(), queues) && curDomain < config.domains && (action.SwitchTo? ==> action.thread in tcbs)
      && idle !in tcbs && (cur == idle || cur in tcbs)
    }

    /** Also, every queued thread can run. */
    ghost predicate Ready()
      reads this
    {
      Sound() && QueuedRun(tcbs)
    }

    /** No thread is queued. */
    constructor (config: Config, idle: Ref, threads: map<Ref, Tcb>, curDomain: nat)
      requires 0 !in threads && idle !in threads && curDomain < config.domains
      requires forall t :: t in threads ==> Known(config, LevelOf(threads[t])) && !threads[t].queued
      ensures Ready() && this.config == config && this.idle == idle && Site() == Blank(M(), threads, curDomain)
    {
      this.config := config;
      this.idle := idle;
      this.curDomain := curDomain;
      tcbs := threads;
      links := map t | t in threads :: Links(0, 0);
      ready := seq(config.domains * config.prios, _ => EmptyQueue);
      l1 := seq(config.domains, _ => 0);
      l2 := seq(config.domains, _ => Zeros(Groups(config)));
      cur := idle;
      action := Resume;
      queues := map d, p | 0 <= d < config.domains && 0 <= p < config.prios :: Level(d, p) := [];
      new;
      BlankValid(config, Snapshot(), queues);
    }

    method AddBit(l: Level)
      requires Shaped(config, Bitmap(l1, l2)) && Known(config, l) && Group(config, l.prio) < Groups(config)
      modifies `l1, `l2
      ensures Bitmap(l1, l2) == AddToBitmap(config, Bitmap(old(l1), old(l2)), l)
    {
      var l1index := Shr(l.prio, config.wordRadix);
      var inverted: nat := Groups(config) - 1 - l1index;
      AndMask(l.prio, config.wordRadix);
      l1 := l1[l.dom := Or(l1[l.dom], Pow2(l1index))];
      var row: seq<nat> := l2[l.dom][inverted := Or(l2[l.dom][inverted],
                                                    Pow2(And(l.prio, Pow2(config.wordRadix) - 1)))];
      l2 := l2[l.dom := row];
    }

    method RemoveBit(l: Level)
      requires Shaped(config, Bitmap(l1, l2)) && Known(config, l) && Group(config, l.prio) < Groups(config)
      modifies `l1, `l2
      ensures Bitmap(l1, l2) == RemoveFromBitmap(config, Bitmap(old(l1), old(l2)), l)
    {
      var l1index := Shr(l.prio, config.wordRadix);
      var inverted: nat := Groups(config) - 1 - l1index;
      AndMask(l.prio, config.wordRadix);
      var row: seq<nat> := l2[l.dom][inverted := AndNot(l2[l.dom][inverted],
                                                        Pow2(And(l.prio, Pow2(config.wordRadix) - 1)))];
      l2 := l2[l.dom := row];
      if l2[l.dom][inverted] == 0 {
        l1 := l1[l.dom := AndNot(l1[l.dom], Pow2(l1index))];
      }
    }

    /** tcbSchedEnqueue */
    method TcbSchedEnqueue(t: Ref)
      requires Sound() && t in tcbs && IsSchedulable(tcbs[t])
      modifies `tcbs, `links, `ready, `l1, `l2, `queues
      ensures Sound() && tcbs == old(tcbs)[t := old(tcbs[t]).(queued := true)] && Now() == Put(old(Now()), t)
      ensures old(Ready()) ==> Ready()
    {
      ghost var st := Snapshot();
      ghost var l := LevelOf(tcbs[t]);
      assert ThreadOk(config, st, queues, t) && QueueOk(config, st, queues, l);
      if !tcbs[t].queued {
        EnteredValid(config, st, queues, t, 0);
        EnterReady(config, st, queues, t, 0);
        InsertFront(queues[l], t);
        QueueEnds(links, ready[Index(config, l)], queues[l]);
        LinkFront(t);
        queues := EnteredContents(queues, l, 0, t);
      }
    }

    /** The body of tcbSchedEnqueue */
    method LinkFront(t: Ref)
      requires t in tcbs && Index(config, LevelOf(tcbs[t])) < |ready|
      requires Enterable(config, Snapshot(), t, 0, ready[Index(config, LevelOf(tcbs[t]))].head)
      requires Sane(ready[Index(config, LevelOf(tcbs[t]))])
      modifies `tcbs, `links, `ready, `l1, `l2
      ensures Snapshot()
              == Entered(config, old(Snapshot()), t, 0, old(ready)[Index(config, LevelOf(old(tcbs[t])))].head)
    {
      var l := LevelOf(tcbs[t]);
      var queue := ready[Index(config, l)];
      if queue.end == 0 {
        queue := queue.(end := t);
        AddBit(l);
      } else {
        links := links[queue.head := links[queue.head].(prev := t)];
      }
      links := links[t := Links(0, queue.head)];
      queue := queue.(head := t);
      ready := ready[Index(config, l) := queue];
      tcbs := tcbs[t := tcbs[t].(queued := true)];
    }

    /** tcbSchedAppend */
    method TcbSchedAppend(t: Ref)
      requires Sound() && t in tcbs && IsSchedulable(tcbs[t])
      modifies `tcbs, `links, `ready, `l1, `l2, `queues
      ensures Sound() && tcbs == old(tcbs)[t := old(tcbs[t]).(queued := true)] && Now() == PutLast(old(Now()), t)
      ensures old(Ready()) ==> Ready()
    {
      ghost var st := Snapshot();
      ghost var l := LevelOf(tcbs[t]);
      assert ThreadOk(config, st, queues, t) && QueueOk(config, st, queues, l);
      if !tcbs[t].queued {
        ghost var n := |queues[l]|;
        EnteredValid(config, st, queues, t, n);
        EnterReady(config, st, queues, t, n);
        InsertFront(queues[l], t);
        QueueEnds(links, ready[Index(config, l)], queues[l]);
        LinkBack(t);
        queues := EnteredContents(queues, l, n, t);
      }
    }

    /** The body of tcbSchedAppend */
    method LinkBack(t: Ref)
      requires t in tcbs && Index(config, LevelOf(tcbs[t])) < |ready|
      requires Enterable(config, Snapshot(), t, ready[Index(config, LevelOf(tcbs[t]))].end, 0)
      requires Sane(ready[Index(config, LevelOf(tcbs[t]))])
      modifies `tcbs, `links, `ready, `l1, `l2
      ensures Snapshot() == Entered(config, old(Snapshot()), t, old(ready)[Index(config, LevelOf(old(tcbs[t])))].end, 0)
    {
      var l := LevelOf(tcbs[t]);
      var queue := ready[Index(config, l)];
      if queue.head == 0 {
        queue := queue.(head := t);
        AddBit(l);
      } else {
        links := links[queue.end := links[queue.end].(next := t)];
      }
      links := links[t := Links(queue.end, 0)];
      queue := queue.(end := t);
      ready := ready[Index(config, l) := queue];
      tcbs := tcbs[t := tcbs[t].(queued := true)];
    }

    /** tcbSchedDequeue */
    method TcbSchedDequeue(t: Ref)
      requires Sound() && t in tcbs
      modifies `tcbs, `links, `ready, `l1, `l2, `queues
      ensures Sound() && tcbs == old(tcbs)[t := old(tcbs[t]).(queued := false)] && Now() == Take(old(Now()), t)
      ensures old(Ready()) ==> Ready()
    {
      if tcbs[t].queued {
        ghost var after := LeaveQueue(config, Snapshot(), queues, t);
        Unlink(t);
        queues := after;
      }
    }

    /** The body of tcbSchedDequeue */
    method Unlink(t: Ref)
      requires Leavable(config, Snapshot(), t)
      modifies `tcbs, `links, `ready, `l1, `l2
      ensures Snapshot() == Left(config, old(Snapshot()), t)
    {
      var l := LevelOf(tcbs[t]);
      var queue := ready[Index(config, l)];
      var prev, next := links[t].prev, links[t].next;
      if prev != 0 {
        links := links[prev := links[prev].(next := next)];
      } else {
        queue := queue.(head := next);
        if next == 0 {
          RemoveBit(l);
        }
      }
      if next != 0 {
        links := links[next := links[next].(prev := prev)];
      } else {
        queue := queue.(end := prev);
      }
      ready := ready[Index(config, l) := queue];
      tcbs := tcbs[t := tcbs[t].(queued := false)];
    }

    /** getHighestPrio */
    method GetHighestPrio(dom: nat) returns (prio: nat)
      requires Sound() && dom < config.domains && dom < |l1| && l1[dom] != 0
      ensures prio == Scan(queues, dom, config.prios)
    {
      ScanAgrees(config, Snapshot(), queues, dom);
      var l1index := HighBit(l1[dom]);
      var l2index := HighBit(l2[dom][Groups(config) - 1 - l1index]);
      prio := Or(Shl(l1index, config.wordRadix), l2index);
    }

    /** isHighestPrio */
    method IsHighestPrio(dom: nat, prio: nat) returns (highest: bool)
      requires Sound() && dom < config.domains
      ensures highest <==> prio >= Scan(queues, dom, config.prios)
      ensures highest <==> forall l :: l in queues && queues[l] != [] && l.dom == dom ==> l.prio <= prio
    {
      ScanAgrees(config, Snapshot(), queues, dom);
      ScanIsMax(queues, dom, config.prios);
      ghost var busy := Busy(queues);
      assert forall l :: l in queues && queues[l] != [] && l.dom == dom ==> l in busy && l == Level(dom, l.prio);
      if l1[dom] == 0 {
        ZeroIsIdle(config, Bitmap(l1, l2), busy, dom);
        return true;
      }
      HighestIsMax(config, Bitmap(l1, l2), busy, dom);
      var top := GetHighestPrio(dom);
      assert Level(dom, top) in busy;
      return prio >= top;
    }

    /** switchToThread, without the change of address space */
    method SwitchToThread(t: Ref)
      requires Ready() && t in tcbs
      modifies `tcbs, `links, `ready, `l1, `l2, `queues, `cur
      ensures Ready() && cur == t && Now() == Take(old(Now()), t)
    {
      TcbSchedDequeue(t);
      cur := t;
    }

    /** chooseThread: the first thread of the highest queue that the scan finds, which can run, or the idle thread. */
    method ChooseThread()
      requires Ready()
      modifies `tcbs, `links, `ready, `l1, `l2, `queues, `cur
      ensures Ready() && Site().(action := Resume) == Picked(M(), old(Now()), curDomain)
    {
      ScanAgrees(config, Snapshot(), queues, curDomain);
      ScanIsMax(queues, curDomain, config.prios);
      if l1[curDomain] != 0 {
        var prio := GetHighestPrio(curDomain);
        ghost var l := Level(curDomain, prio);
        assert l in Busy(queues);
        assert QueueOk(config, Snapshot(), queues, l);
        QueueEnds(links, ready[Index(config, l)], queues[l]);
        var thread := ready[Index(config, Level(curDomain, prio))].head;
        assert thread == queues[l][0] && IsSchedulable(tcbs[thread]);
        SwitchToThread(thread);
      } else {
        cur := idle;
      }
    }

    /** rescheduleRequired */
    method RescheduleRequired()
      requires Sound()
      modifies `tcbs, `links, `ready, `l1, `l2, `queues, `action
      ensures Sound() && Site() == Rescheduled(old(Site())) && (old(Ready()) ==> Ready())
    {
      if action.SwitchTo? && IsSchedulable(tcbs[action.thread]) {
        TcbSchedEnqueue(action.thread);
      }
      action := ChooseNew;
    }

    /** possibleSwitchTo */
    method PossibleSwitchTo(t: Ref)
      requires Ready() && t in tcbs && tcbs[t].runnable
      modifies `tcbs, `links, `ready, `l1, `l2, `queues, `action
      ensures Ready() && Site() == Woken(old(Site()), t)
    {
      if tcbs[t].hasContext {
        if curDomain != tcbs[t].domain {
          TcbSchedEnqueue(t);
        } else if action != Resume {
          RescheduleRequired();
          TcbSchedEnqueue(t);
        } else {
          action := SwitchTo(t);
        }
      }
    }

    /** Changes a thread on its level, or outside the queues. */
    method Update(t: Ref, tcb: Tcb)
      requires Sound() && t in tcbs && tcb.queued == tcbs[t].queued && Known(config, LevelOf(tcb))
      requires tcb.queued ==> LevelOf(tcb) == LevelOf(tcbs[t])
      modifies `tcbs
      ensures Sound() && tcbs == old(tcbs)[t := tcb] && Now() == Set(old(Now()), t, tcb)
    {
      ChangedValid(config, Snapshot(), queues, t, tcb);
      tcbs := tcbs[t := tcb];
    }

    /** setThreadState, also for a queued thread */
    method SetThreadState(t: Ref, runnable: bool)
      requires Sound() && t in tcbs
      modifies `tcbs, `links, `ready, `l1, `l2, `queues, `action
      ensures Sound() && Site() == StateSet(old(Site()), t, runnable)
      ensures old(Ready()) && (old(tcbs[t]).queued ==> runnable) ==> Ready()
    {
      assert ThreadOk(config, Snapshot(), queues, t);
      Update(t, tcbs[t].(runnable := runnable));
      if t == cur && action == Resume && !IsSchedulable(tcbs[t]) {
        RescheduleRequired();
      }
    }

    /** The end of suspend */
    method SuspendThread(t: Ref)
      requires Ready() && t in tcbs
      modifies `tcbs, `links, `ready, `l1, `l2, `queues, `action
      ensures Ready() && Site() == Suspended(old(Site()), t)
    {
      SetThreadState(t, false);
      TcbSchedDequeue(t);
    }

    /** The thread leaves its queue and has no context to run on. */
    method Park(t: Ref)
      requires Ready() && t in tcbs
      modifies `tcbs, `links, `ready, `l1, `l2, `queues
      ensures Ready() && Now() == Parked(old(Now()), t)
    {
      assert ThreadOk(config, Snapshot(), queues, t);
      TcbSchedDequeue(t);
      Update(t, tcbs[t].(hasContext := false));
    }

    /** The part of schedContext_donate that concerns the thread that loses the context */
    method TakeContext(t: Ref)
      requires Ready() && t in tcbs
      modifies `tcbs, `links, `ready, `l1, `l2, `queues, `action
      ensures Ready() && Site() == Stripped(old(Site()), t)
    {
      Park(t);
      if t == cur || action == SwitchTo(t) {
        RescheduleRequired();
      }
    }

    /** schedContext_unbindTCB */
    method UnbindTcb(t: Ref)
      requires Ready() && t in tcbs
      modifies `tcbs, `links, `ready, `l1, `l2, `queues, `action
      ensures Ready() && Site() == Unbound(old(Site()), t)
    {
      if t == cur {
        RescheduleRequired();
      }
      Park(t);
    }

    /** The thread has a context to run on. */
    method GiveContext(t: Ref)
      requires Ready() && t in tcbs
      modifies `tcbs
      ensures Ready() && Site() == Released(old(Site()), t)
    {
      assert ThreadOk(config, Snapshot(), queues, t);
      Update(t, tcbs[t].(hasContext := true));
    }

    /** schedContext_bindTCB, with a context that is ready */
    method BindTcb(t: Ref)
      requires Ready() && t in tcbs
      modifies `tcbs, `links, `ready, `l1, `l2, `queues, `action
      ensures Ready() && Site() == Bound(old(Site()), t)
    {
      GiveContext(t);
      if IsSchedulable(tcbs[t]) {
        TcbSchedEnqueue(t);
        RescheduleRequired();
      }
    }

    /** The part of invokeSchedContext_YieldTo that concerns the queues */
    method YieldToThread(t: Ref)
      requires Ready() && t in tcbs && cur != idle && IsSchedulable(tcbs[cur])
      modifies `tcbs, `links, `ready, `l1, `l2, `queues, `action
      ensures Ready() && Site() == YieldedTo(old(Site()), t)
    {
      if IsSchedulable(tcbs[t]) {
        if tcbs[t].prio < tcbs[cur].prio {
          TcbSchedDequeue(t);
          TcbSchedEnqueue(t);
        } else {
          GoFirst(t);
        }
      }
    }

    /** The thread goes to the front of its queue, with the current thread behind it. */
    method GoFirst(t: Ref)
      requires Ready() && t in tcbs && IsSchedulable(tcbs[t]) && cur in tcbs && IsSchedulable(tcbs[cur])
      modifies `tcbs, `links, `ready, `l1, `l2, `queues, `action
      ensures Ready() && Site() == Rescheduled(old(Site()).(v := Put(Put(Take(old(Now()), t), cur), t)))
    {
      TcbSchedDequeue(t);
      TcbSchedEnqueue(cur);
      assert Now() == Put(Take(old(Now()), t), cur);
      TcbSchedEnqueue(t);
      assert Site() == old(Site()).(v := Put(Put(Take(old(Now()), t), cur), t));
      RescheduleRequired();
    }

    /** The thread leaves its queue and changes. */
    method Replace(t: Ref, tcb: Tcb)
      requires Ready() && t in tcbs && Known(config, LevelOf(tcb))
      modifies `tcbs, `links, `ready, `l1, `l2, `queues
      ensures Ready() && tcbs == old(tcbs)[t := tcb.(queued := false)] && Now() == Set(Take(old(Now()), t), t, tcb)
    {
      TcbSchedDequeue(t);
      Update(t, tcb.(queued := false));
    }

    /** It also goes to the front of the queue to which it now belongs. */
    method Requeue(t: Ref, tcb: Tcb)
      requires Ready() && t in tcbs && Known(config, LevelOf(tcb)) && IsSchedulable(tcb)
      modifies `tcbs, `links, `ready, `l1, `l2, `queues
      ensures Ready() && tcbs == old(tcbs)[t := tcb.(queued := true)]
      ensures Now() == Put(Set(Take(old(Now()), t), t, tcb), t)
    {
      Replace(t, tcb);
      TcbSchedEnqueue(t);
    }

    /** setPriority; the endpoint and notification queues of a blocked thread are not part of this. */
    method SetPriority(t: Ref, prio: nat)
      requires Ready() && t in tcbs && prio < config.prios
      requires tcbs[t].runnable && (tcbs[t].queued || t == cur) ==> tcbs[t].hasContext
      modifies `tcbs, `links, `ready, `l1, `l2, `queues, `action
      ensures Ready() && Site() == Prioritised(old(Site()), t, prio)
    {
      assert ThreadOk(config, Snapshot(), queues, t);
      if tcbs[t].runnable {
        if tcbs[t].queued || t == cur {
          Requeue(t, tcbs[t].(prio := prio));
          RescheduleRequired();
        } else {
          Update(t, tcbs[t].(prio := prio));
        }
      } else {
        Update(t, tcbs[t].(prio := prio));
      }
    }

    /** setDomain */
    method SetDomain(t: Ref, dom: nat)
      requires Ready() && t in tcbs && dom < config.domains
      modifies `tcbs, `links, `ready, `l1, `l2, `queues, `action
      ensures Ready() && Site() == Moved(old(Site()), t, dom)
    {
      assert ThreadOk(config, Snapshot(), queues, t);
      if IsSchedulable(tcbs[t]) {
        Requeue(t, tcbs[t].(domain := dom));
      } else {
        Replace(t, tcbs[t].(domain := dom));
      }
      if t == cur {
        RescheduleRequired();
      }
    }

    /** The part of chargeBudget that concerns the queues, where `ready` is whether the next refill is */
    method ChargeBudget(ready: bool)
      requires Ready()
      modifies `tcbs, `links, `ready, `l1, `l2, `queues, `action
      ensures Ready() && Site() == Expired(M(), old(Site()), ready)
    {
      if cur != idle && IsSchedulable(tcbs[cur]) {
        if ready {
          TcbSchedAppend(cur);
        } else {
          Park(cur);
        }
        RescheduleRequired();
      }
    }

    /** scheduleChooseNewThread */
    method ChooseNewThread(expired: bool, next: nat)
      requires Ready() && next < config.domains
      modifies `tcbs, `links, `ready, `l1, `l2, `queues, `cur, `curDomain
      ensures Ready()
      ensures Site().(action := Resume) == Picked(M(), old(Now()), if expired then next else old(curDomain))
    {
      if expired {
        curDomain := next;
      }
      ChooseThread();
    }

    /** A current thread that can go on is enqueued. */
    method KeepCurrent() returns (goesOn: bool)
      requires Ready()
      modifies `tcbs, `links, `ready, `l1, `l2, `queues
      ensures Ready() && Now() == Kept(M(), old(Site())) && goesOn == GoesOn(M(), old(Site()))
      ensures tcbs.Keys == old(tcbs).Keys
      ensures forall t :: t in tcbs ==> tcbs[t] == old(tcbs)[t].(queued := tcbs[t].queued)
    {
      goesOn := cur != idle && IsSchedulable(tcbs[cur]);
      if goesOn {
        TcbSchedEnqueue(cur);
      }
    }

    /** The candidate of possibleSwitchTo is switched to, or has to queue; `s` is the state before the current thread
        was enqueued. */
    method Decide(t: Ref, goesOn: bool, expired: bool, next: nat, ghost s: Sched)
      requires Ready() && next < config.domains && t in tcbs && IsSchedulable(tcbs[t])
      requires Now() == Kept(M(), s) && goesOn == GoesOn(M(), s) && s.action == SwitchTo(t)
      requires s.cur == cur && s.dom == curDomain
      requires tcbs.Keys == s.v.tcbs.Keys && forall u :: u in tcbs ==> tcbs[u] == s.v.tcbs[u].(queued := tcbs[u].queued)
      modifies `tcbs, `links, `ready, `l1, `l2, `queues, `cur, `curDomain
      ensures Ready()
      ensures Site().(action := Resume) == Scheduled(M(), s, if expired then next else s.dom)
    {
      var fastfail := cur == idle || tcbs[t].prio < tcbs[cur].prio;
      var highest := true;
      if fastfail {
        highest := IsHighestPrio(curDomain, tcbs[t].prio);
      }
      assert Passed(M(), s, t) <==> (fastfail && !highest) || (goesOn && tcbs[t].prio == tcbs[cur].prio);
      if fastfail && !highest {
        PassOver(t, false, expired, next);
      } else if goesOn && tcbs[t].prio == tcbs[cur].prio {
        PassOver(t, true, expired, next);
      } else {
        SwitchToThread(t);
      }
    }

    /** The candidate has to queue, at the front or at the back, and a new thread is chosen. */
    method PassOver(t: Ref, last: bool, expired: bool, next: nat)
      requires Ready() && next < config.domains && t in tcbs && IsSchedulable(tcbs[t])
      modifies `tcbs, `links, `ready, `l1, `l2, `queues, `cur, `curDomain
      ensures Ready()
      ensures Site().(action := Resume)
              == Picked(M(), if last then PutLast(old(Now()), t) else Put(old(Now()), t),
                        if expired then next else old(curDomain))
    {
      if last {
        TcbSchedAppend(t);
      } else {
        TcbSchedEnqueue(t);
      }
      ChooseNewThread(expired, next);
    }

    /** schedule, after awaken: whether the time of the domain is up and which domain follows are inputs. */
    method Schedule(expired: bool, next: nat)
      requires Ready() && next < config.domains && Dispatchable(Site())
      modifies `tcbs, `links, `ready, `l1, `l2, `queues, `cur, `curDomain, `action
      ensures Ready() && Site() == Scheduled(M(), old(Site()), if expired then next else old(curDomain))
    {
      ghost var s := Site();
      if action != Resume {
        var goesOn := KeepCurrent();
        if action == ChooseNew {
          ChooseNewThread(expired, next);
        } else {
          Decide(action.thread, goesOn, expired, next, s);
        }
      }
      action := Resume;
    }

    /** One step of a kernel entry; one that does not apply is left out. */
    method Perform(a: Act)
      requires Ready()
      modifies `tcbs, `links, `ready, `l1, `l2, `queues, `action
      ensures Ready() && Site() == Acted(M(), old(Site()), a)
    {
      if !Fitting(a) { return; }
      match a
      case Wake(t) => PossibleSwitchTo(t);
      case SetState(t, runnable) => SetThreadState(t, runnable);
      case Suspend(t) => SuspendThread(t);
      case Prioritise(t, prio) => SetPriority(t, prio);
      case Move(t, dom) => SetDomain(t, dom);
      case Reschedule => RescheduleRequired();
      case _ => PerformOnContext(a);
    }

    /** A step that concerns a scheduling context. */
    method PerformOnContext(a: Act)
      requires Ready() && Applies(M(), Site(), a) && OnContext(a)
      modifies `tcbs, `links, `ready, `l1, `l2, `queues, `action
      ensures Ready() && Site() == Acted(M(), old(Site()), a)
    {
      match a
      case Strip(t) => TakeContext(t);
      case Unbind(t) => UnbindTcb(t);
      case Bind(t) => BindTcb(t);
      case Postpone(t) => Park(t);
      case Release(t) => GiveContext(t);
      case YieldTo(t) => YieldToThread(t);
      case Expire(ready) => ChargeBudget(ready);
    }

    /** The step applies. */
    predicate Fitting(a: Act)
      reads this
      ensures Fitting(a) <==> Applies(M(), Site(), a)
    {
      match a
      case Wake(t) => t in tcbs && tcbs[t].runnable
      case SetState(t, runnable) => t in tcbs && (tcbs[t].queued ==> runnable)
      case Bind(t) => t in tcbs && !tcbs[t].hasContext
      case YieldTo(t) => t in tcbs && cur != idle && cur in tcbs && IsSchedulable(tcbs[cur])
      case Prioritise(t, prio) =>
        && t in tcbs && prio < config.prios
        && (tcbs[t].runnable && (tcbs[t].queued || t == cur) ==> tcbs[t].hasContext)
      case Move(t, dom) => t in tcbs && dom < config.domains
      case Reschedule => true
      case Expire(_) => true
      case _ => a.t in tcbs
    }

    /** Whenever the scheduler is in order, every thread marked as queued is in its queue. */
    lemma SiteWhole()
      requires Ready()
      ensures Whole(M(), Site())
    {
      ReadyOk(config, Snapshot(), queues);
      forall t | t in tcbs && tcbs[t].queued ensures Listed(Now(), t) {
        assert ThreadOk(config, Snapshot(), queues, t);
      }
    }

    /** A kernel entry: its steps, then schedule, unless the assert there fails. */
    method Enter(e: Entry) returns (ok: bool)
      requires Ready() && e.next < config.domains
      modifies `tcbs, `links, `ready, `l1, `l2, `queues, `cur, `curDomain, `action
      ensures Ready() && (ok <==> Asserted(M(), old(Site()), e))
      ensures ok ==>
                && Site() == AfterEntry(M(), old(Site()), e)
                && (Settled(M(), Site()) <==> Prepared(M(), AfterActs(M(), old(Site()), e.acts)))
    {
      ReadyOk(config, Snapshot(), queues);
      if Asserted(M(), Site(), e) { EntrySettlesIff(M(), Site(), e); }
      for i := 0 to |e.acts|
        invariant Ready()
        invariant AfterActs(M(), Site(), e.acts[i..]) == AfterActs(M(), old(Site()), e.acts)
      {
        assert e.acts[i..][1..] == e.acts[i + 1..];
        Perform(e.acts[i]);
      }
      if action.SwitchTo? && !IsSchedulable(tcbs[action.thread]) { return false; }
      Schedule(e.expired, e.next);
      ok := true;
    }
  }

  predicate OnContext(a: Act) {
    a.Strip? || a.Unbind? || a.Bind? || a.Postpone? || a.Release? || a.YieldTo? || a.Expire?
  }

  ghost predicate QueuedRun(tcbs: map<Ref, Tcb>) {
    forall t :: t in tcbs && tcbs[t].queued ==> IsSchedulable(tcbs[t])
  }

  lemma ReadyOk(c: Config, st: State, queues: Contents)
    requires Valid(c, st, queues) && QueuedRun(st.tcbs)
    ensures ViewOk(c, View(st.tcbs, queues))
  {
    var v := View(st.tcbs, queues);
    forall l ensures l in queues <==> Known(c, l) {
      assert Known(c, l) ==> QueueOk(c, st, queues, l);
    }
    forall t | t in st.tcbs ensures ThreadFine(c, st.tcbs[t]) {
      assert ThreadOk(c, st, queues, t);
    }
    forall l | l in queues ensures QueueFine(v, l) {
      assert QueueOk(c, st, queues, l);
    }
  }

  datatype Op = EnqueueOp(t: Ref) | AppendOp(t: Ref) | DequeueOp(t: Ref) | ActOp(a: Act) | ChooseOp

  /** After any run of operations, bitmap and scan agree on every domain. */
  method Run(config: Config, idle: Ref, threads: map<Ref, Tcb>, curDomain: nat, ops: seq<Op>) returns (s: Scheduler)
    requires 0 !in threads && idle !in threads && curDomain < config.domains
    requires forall t :: t in threads ==> Known(config, LevelOf(threads[t])) && !threads[t].queued
    ensures s.Ready() && s.config == config && Shaped(config, Bitmap(s.l1, s.l2))
    ensures forall d :: 0 <= d < config.domains ==> Agrees(config, Bitmap(s.l1, s.l2), s.queues, d)
  {
    s := new Scheduler(config, idle, threads, curDomain);
    for i := 0 to |ops|
      invariant fresh(s) && s.Ready() && s.config == config
    {
      match ops[i]
      case EnqueueOp(t) => if t in s.tcbs && IsSchedulable(s.tcbs[t]) { s.TcbSchedEnqueue(t); }
      case AppendOp(t) => if t in s.tcbs && IsSchedulable(s.tcbs[t]) { s.TcbSchedAppend(t); }
      case DequeueOp(t) => if t in s.tcbs { s.TcbSchedDequeue(t); }
      case ActOp(a) => s.Perform(a);
      case ChooseOp => s.ChooseThread();
    }
    assert Shaped(config, s.Snapshot().bm);
    forall d | 0 <= d < config.domains ensures Agrees(config, Bitmap(s.l1, s.l2), s.queues, d) {
      ScanAgrees(config, s.Snapshot(), s.queues, d);
    }
  }

  /** Any run of kernel entries, each of any number of steps, up to one in which the assert of schedule fails. If none
      upsets the scheduler, no assert fails and the current thread after each entry is one of the highest priority
      in its domain. */
  method RunEntries(config: Config, idle: Ref, threads: map<Ref, Tcb>, curDomain: nat, entries: seq<Entry>)
    returns (s: Scheduler, ok: bool)
    requires 0 !in threads && idle !in threads && curDomain < config.domains
    requires forall t :: t in threads ==> Known(config, LevelOf(threads[t])) && !threads[t].queued
    requires Timely(Setup(config, idle), entries)
    ensures s.Ready() && s.config == config && s.idle == idle
    ensures var m, start := Setup(config, idle), Blank(Setup(config, idle), threads, curDomain);
            && (ok <==> AssertsHold(m, start, entries))
            && (ok ==> s.Site() == RunOf(m, start, entries))
            && (AllCalm(m, start, entries) ==> ok && Settled(m, s.Site()))
  {
    s := new Scheduler(config, idle, threads, curDomain);
    ghost var m, start := Setup(config, idle), s.Site();
    BlankSettled(m, threads, curDomain);
    if AllCalm(m, start, entries) {
      RunCalm(m, start, entries);
      EndSettled(m, start, entries);
    }
    for i := 0 to |entries|
      invariant fresh(s) && s.Ready() && s.config == config && s.idle == idle
      invariant RunOf(m, s.Site(), entries[i..]) == RunOf(m, start, entries)
      invariant AssertsHold(m, s.Site(), entries[i..]) <==> AssertsHold(m, start, entries)
    {
      assert entries[i..][1..] == entries[i + 1..];
      ok := s.Enter(entries[i]);
      if !ok { return; }
    }
    ok := true;
  }
}
