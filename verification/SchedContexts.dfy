/** The scheduling context's circular buffer of refills, updated in place
    (kernel/src/kernel/sporadic.c, kernel/include/kernel/sporadic.h). Each operation is proved
    against its counterpart on sequences in `Sporadic`. */
module SchedContexts {
  import opened Sporadic

  /** The delayed head `moved[0]` is merged with the refill it runs into, if any. */
  lemma OverrunSteps(q: Refills, usage: nat, moved: Refills)
    requires moved == q[0 := q[0].(time := q[0].time + usage)]
    ensures usage == 0 ==> Overrun(q, usage) == q
    ensures usage > 0 ==>
              Overrun(q, usage) == if |moved| > 1 && moved[0].time + moved[0].amount >= moved[1].time
                                   then [Refill(moved[0].time, moved[1].amount + moved[0].amount)] + moved[2..]
                                   else moved
  {
    assert moved == [moved[0]] + q[1..];
    assert q == [q[0]] + q[1..];
    if |q| > 1 { assert moved[2..] == q[2..]; }
  }

  /** The queue between the two steps of the merging split. */
  lemma SplitMergeParts(q: Refills, usage: nat, period: nat, min: nat, max: nat) returns (mid: Refills)
    requires usage <= q[0].amount && |q| > 1 && Sum(q) >= min && 2 <= max && |q| <= max
    ensures mid == ScheduleUsed(PopInto(q, q[0].amount - usage), Refill(q[0].time + period, usage), min)
    ensures Sum(mid) >= min && |mid| <= max && EnsureSufficient(mid, min, max) == SplitMerge(q, usage, period, min, max)
  {
    mid := ScheduleUsed(PopInto(q, q[0].amount - usage), Refill(q[0].time + period, usage), min);
  }

  class SchedContext {
    const minBudget: nat    // MIN_BUDGET
    const wcet: nat         // getKernelWcetTicks()
    const refills: array<Refill>
    var scPeriod: nat
    var scRefillMax: nat
    var scRefillHead: nat
    var scRefillTail: nat

    constructor (capacity: nat, minBudget: nat, wcet: nat)
      ensures refills.Length == capacity && this.minBudget == minBudget && this.wcet == wcet && fresh(refills)
      ensures scRefillMax == 0
    {
      this.minBudget, this.wcet := minBudget, wcet;
      refills := new Refill[capacity](_ => Refill(0, 0));
      scPeriod, scRefillMax, scRefillHead, scRefillTail := 0, 0, 0, 0;
      contents := [Refill(0, 0)];
    }

    /** The refills from head to tail. */
    ghost var contents: Refills

    /** The position of refill `i` in the buffer. */
    ghost function Position(i: nat): nat
      reads this
    {
      if scRefillHead + i < scRefillMax then scRefillHead + i else scRefillHead + i - scRefillMax
    }

    ghost predicate Valid()
      reads this, refills
    {
      && 0 < scRefillMax <= refills.Length && scRefillHead < scRefillMax && scRefillTail < scRefillMax
      && |contents| <= scRefillMax && scRefillTail == Position(|contents| - 1)
      && forall i :: 0 <= i < |contents| ==> refills[Position(i)] == contents[i]
    }

    /** `refill_next`. */
    function RefillNext(index: nat): nat
      requires scRefillMax > 0
      reads this
    {
      if index == scRefillMax - 1 then 0 else index + 1
    }

    /** `refill_size`. */
    function RefillSize(): (n: nat)
      requires Valid()
      reads this, refills
      ensures n == |contents|
    {
      if scRefillHead <= scRefillTail then scRefillTail - scRefillHead + 1
      else scRefillTail + 1 + (scRefillMax - scRefillHead)
    }

    /** `refill_full`. */
    predicate RefillFull()
      requires Valid()
      reads this, refills
    {
      RefillSize() == scRefillMax
    }

    /** `refill_single`: comparing head and tail tells a queue of one. */
    predicate RefillSingle()
      requires Valid()
      reads this, refills
      ensures RefillSingle() <==> |contents| == 1
    {
      scRefillHead == scRefillTail
    }

    /** The refill after the head. */
    function Second(): (r: Refill)
      requires Valid() && |contents| > 1
      reads this, refills
      ensures r == contents[1]
    {
      refills[RefillNext(scRefillHead)]
    }

    method SetHead(r: Refill)
      requires Valid()
      modifies this`contents, refills
      ensures Valid() && contents == old(contents)[0 := r]
    {
      refills[scRefillHead] := r;
      contents := contents[0 := r];
    }

    method SetTail(r: Refill)
      requires Valid()
      modifies this`contents, refills
      ensures Valid() && contents == old(contents)[|old(contents)| - 1 := r]
    {
      refills[scRefillTail] := r;
      contents := contents[|contents| - 1 := r];
    }

    /** `refill_pop_head`. */
    method PopHead() returns (refill: Refill)
      requires Valid() && |contents| > 1
      modifies this`scRefillHead, this`contents
      ensures Valid() && refill == old(contents)[0] && contents == old(contents)[1..]
    {
      refill := refills[scRefillHead];
      scRefillHead := RefillNext(scRefillHead);
      contents := contents[1..];
    }

    /** Pops the head and adds `extra` to the refill that follows it. */
    method PopHeadInto(extra: nat)
      requires Valid() && |contents| > 1
      modifies this`scRefillHead, this`contents, refills
      ensures Valid()
      ensures contents == PopInto(old(contents), extra)
    {
      var _ := PopHead();
      SetHead(refills[scRefillHead].(amount := refills[scRefillHead].amount + extra));
    }

    /** `refill_add_tail`. */
    method AddTail(refill: Refill)
      requires Valid() && |contents| < scRefillMax
      modifies this`scRefillTail, this`contents, refills
      ensures Valid() && contents == old(contents) + [refill]
    {
      var newTail := RefillNext(scRefillTail);
      scRefillTail := newTail;
      refills[scRefillTail] := refill;
      contents := contents + [refill];
    }

    /** `maybe_add_empty_tail`. */
    method MaybeAddEmptyTail(now: nat)
      requires Valid() && |contents| < scRefillMax
      modifies this`scRefillTail, this`contents, refills
      ensures Valid() && contents == WithEmptyTail(old(contents), scPeriod, now)
    {
      if scPeriod == 0 {
        AddTail(Refill(now, 0));
      }
    }

    /** `refill_new`: the whole budget is usable from now on. */
    method RefillNew(maxRefills: nat, budget: nat, period: nat, now: nat)
      requires 2 <= maxRefills <= refills.Length
      modifies this, refills
      ensures Valid() && scPeriod == period && scRefillMax == maxRefills
      ensures contents == WithEmptyTail([Refill(now, budget)], period, now) && Sum(contents) == budget
    {
      scPeriod := period;
      scRefillHead := 0;
      scRefillTail := 0;
      scRefillMax := maxRefills;
      contents := [refills[0]];
      SetHead(Refill(now, budget));
      assert Sum(contents) == budget by { assert Sum(contents[1..]) == 0; }
      assert contents == [Refill(now, budget)];
      MaybeAddEmptyTail(now);
    }

    /** `refill_update`. */
    method RefillUpdate(newPeriod: nat, newBudget: nat, newMaxRefills: nat, now: nat)
      requires Valid() && 2 <= newMaxRefills <= refills.Length
      modifies this, refills
      ensures Valid() && scPeriod == newPeriod && scRefillMax == newMaxRefills
      ensures contents == Update(old(contents), newPeriod, newBudget, now, wcet)
    {
      refills[0] := refills[scRefillHead];
      scRefillHead := 0;
      scRefillTail := scRefillHead;
      scRefillMax := newMaxRefills;
      scPeriod := newPeriod;
      contents := [refills[0]];
      if refills[scRefillHead].time <= now + wcet {
        SetHead(refills[scRefillHead].(time := now));
      }
      ghost var head := refills[0];
      assert contents == [head];
      if refills[scRefillHead].amount >= newBudget {
        SetHead(refills[scRefillHead].(amount := newBudget));
        assert contents == [head.(amount := newBudget)];
        MaybeAddEmptyTail(now);
      } else {
        AddTail(Refill(refills[scRefillHead].time + newPeriod, newBudget - refills[scRefillHead].amount));
      }
    }

    /** `schedule_used`. */
    method Schedule(added: Refill)
      requires Valid() && |contents| < scRefillMax
      modifies this`scRefillTail, this`contents, refills
      ensures Valid() && contents == ScheduleUsed(old(contents), added, minBudget)
    {
      var tail := refills[scRefillTail];
      if added.amount < minBudget && !RefillSingle() {
        SetTail(Refill(Max(added.time, tail.time), tail.amount + added.amount));
      } else if added.time <= tail.time {
        SetTail(tail.(amount := tail.amount + added.amount));
      } else {
        AddTail(added);
      }
    }

    /** `ensure_sufficient_head`. */
    method EnsureSufficientHead()
      requires Valid() && scRefillMax >= 2 && Sum(contents) >= minBudget
      modifies this`scRefillHead, this`contents, refills
      ensures Valid() && contents == EnsureSufficient(old(contents), minBudget, scRefillMax)
    {
      while refills[scRefillHead].amount < minBudget || RefillFull()
        invariant Valid() && Sum(contents) >= minBudget
        invariant EnsureSufficient(contents, minBudget, scRefillMax)
                  == EnsureSufficient(old(contents), minBudget, scRefillMax)
        decreases |contents|
      {
        ghost var q := contents;
        assert Sum(q) == q[0].amount + Sum(q[1..]);
        PopHeadInto(refills[scRefillHead].amount);
      }
    }

    /** The branch of `refill_split_check` that merges the remnant into the next refill. */
    method SplitMergeRefills(usage: nat)
      requires Valid() && scRefillMax >= 2 && Sum(contents) >= minBudget
      requires usage <= contents[0].amount && |contents| > 1
      modifies this`scRefillHead, this`scRefillTail, this`contents, refills
      ensures Valid()
      ensures contents == SplitMerge(old(contents), usage, scPeriod, minBudget, scRefillMax)
    {
      ghost var mid := SplitMergeParts(contents, usage, scPeriod, minBudget, scRefillMax);
      var head := refills[scRefillHead];
      MoveHead(head, usage, mid);
      EnsureSufficientHead();
    }

    method MoveHead(head: Refill, usage: nat, ghost moved: Refills)
      requires Valid() && head == contents[0] && usage <= head.amount && |contents| > 1
      requires moved == ScheduleUsed(PopInto(contents, head.amount - usage), Refill(head.time + scPeriod, usage),
                                     minBudget)
      modifies this`scRefillHead, this`scRefillTail, this`contents, refills
      ensures Valid() && contents == moved
    {
      var remnant := head.amount - usage;
      PopHeadInto(remnant);
      Schedule(Refill(head.time + scPeriod, usage));
    }

    /** The branch that leaves the remnant as a reduced replenishment. */
    method SplitKeepRefills(usage: nat)
      requires Valid() && usage <= contents[0].amount && |contents| < scRefillMax
      modifies this`scRefillHead, this`scRefillTail, this`contents, refills
      ensures Valid()
      ensures contents == SplitKeep(old(contents), usage, scPeriod, minBudget)
    {
      ghost var q := contents;
      var head := refills[scRefillHead];
      SetHead(head.(amount := head.amount - usage));
      assert contents == WithHead(q, head.amount - usage);
      Schedule(Refill(head.time + scPeriod, usage));
    }

    /** `refill_split_check`. */
    method RefillSplitCheck(usage: nat)
      requires Valid() && scRefillMax >= 2 && Sum(contents) >= minBudget
      requires usage <= contents[0].amount
      modifies this`scRefillHead, this`scRefillTail, this`contents, refills
      ensures Valid()
      ensures contents == SplitCheck(old(contents), usage, scPeriod, minBudget, scRefillMax)
    {
      var head := refills[scRefillHead];
      var remnant := head.amount - usage;
      if RefillSize() == scRefillMax || remnant < minBudget {
        if RefillSingle() {
          SetHead(Refill(head.time + scPeriod, usage + remnant));
        } else {
          SplitMergeRefills(usage);
        }
      } else {
        SplitKeepRefills(usage);
      }
    }

    /** One round of the exhausting loop. */
    method ExhaustHeadRefill()
      requires Valid()
      modifies this`scRefillHead, this`scRefillTail, this`contents, refills
      ensures Valid() && contents == ExhaustHead(old(contents), scPeriod, minBudget)
    {
      if RefillSingle() {
        SetHead(refills[scRefillHead].(time := refills[scRefillHead].time + scPeriod));
      } else {
        var oldHead := PopHead();
        Schedule(oldHead.(time := oldHead.time + scPeriod));
      }
    }

    /** The exhausting loop of `refill_budget_check`. */
    method ExhaustRefills(used: nat) returns (usage: nat)
      requires Valid() && Sum(contents) > 0
      modifies this`scRefillHead, this`scRefillTail, this`contents, refills
      ensures Valid()
      ensures (contents, usage) == Exhaust(old(contents), used, scPeriod, minBudget)
    {
      usage := used;
      while refills[scRefillHead].amount <= usage
        invariant Valid() && Sum(contents) > 0
        invariant Exhaust(contents, usage, scPeriod, minBudget) == Exhaust(old(contents), used, scPeriod, minBudget)
        decreases usage, ZeroPrefix(contents)
      {
        usage := usage - refills[scRefillHead].amount;
        ExhaustHeadRefill();
      }
    }

    /** The overrun part of `refill_budget_check`. */
    method DelayForOverrun(usage: nat)
      requires Valid()
      modifies this`scRefillHead, this`contents, refills
      ensures Valid() && contents == Overrun(old(contents), usage)
    {
      OverrunSteps(contents, usage, contents[0 := contents[0].(time := contents[0].time + usage)]);
      if usage > 0 {
        SetHead(refills[scRefillHead].(time := refills[scRefillHead].time + usage));
        var head := refills[scRefillHead];
        if !RefillSingle() && head.time + head.amount >= Second().time {
          MergeSecond(head.time);
        }
      }
    }

    /** `refill_budget_check`. */
    method RefillBudgetCheck(used: nat, now: nat)
      requires Valid() && scRefillMax >= 2 && Sum(contents) >= minBudget && Sum(contents) > 0
      modifies this`scRefillHead, this`scRefillTail, this`contents, refills
      ensures Valid()
      ensures contents == BudgetCheck(old(contents), used, scPeriod, minBudget, scRefillMax, now, wcet)
    {
      var usage := used;
      if Capacity(refills[scRefillHead], usage) == 0 {
        usage := ExhaustRefills(usage);
        DelayForOverrun(usage);
      }
      if Capacity(refills[scRefillHead], usage) > 0 && refills[scRefillHead].time <= now + wcet {
        RefillSplitCheck(usage);
      }
      EnsureSufficientHead();
    }

    /** `refill_head_overlapping`. */
    predicate HeadOverlapping()
      requires Valid()
      reads this, refills
    {
      !RefillSingle() && Second().time <= refills[scRefillHead].time + refills[scRefillHead].amount
    }

    /** Merges the second refill into the head, with `now` as its time. */
    method MergeSecond(now: nat)
      requires Valid() && |contents| > 1
      modifies this`scRefillHead, this`contents, refills
      ensures Valid()
      ensures contents == [Refill(now, old(contents)[1].amount + old(contents)[0].amount)] + old(contents)[2..]
    {
      PopHeadInto(refills[scRefillHead].amount);
      SetHead(refills[scRefillHead].(time := now));
    }

    /** `refill_unblock_check`: nothing to do for a round-robin context. */
    method RefillUnblockCheck(now: nat)
      requires Valid()
      modifies this`scRefillHead, this`contents, refills
      ensures Valid()
      ensures contents == if scPeriod == 0 then old(contents) else UnblockCheck(old(contents), now, wcet)
    {
      if scPeriod == 0 { return; }
      if refills[scRefillHead].time <= now + wcet {
        SetHead(refills[scRefillHead].(time := now));
        assert contents == [old(contents)[0].(time := now)] + old(contents)[1..];
        MergeAll(now);
      }
    }

    /** The loop of refill_unblock_check */
    method MergeAll(now: nat)
      requires Valid() && contents[0].time == now
      modifies this`scRefillHead, this`contents, refills
      ensures Valid() && contents == MergeOverlapping(old(contents), now)
    {
      ghost var q := contents;
      while HeadOverlapping()
        invariant Valid() && contents[0].time == now
        invariant MergeOverlapping(contents, now) == MergeOverlapping(q, now)
        decreases |contents|
      {
        MergeSecond(now);
      }
    }
  }
}
