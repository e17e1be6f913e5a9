/** The sporadic-server budget: a queue of refills, each an amount usable from a time on
    (kernel/src/kernel/sporadic.c, after "Defects of the POSIX Sporadic Server and How to Correct
    Them"). This module holds the queue as a sequence; `SchedContext` refines it to the circular
    buffer. `min` is MIN_BUDGET, `max` the capacity scRefillMax. */
module Sporadic {

  datatype Refill = Refill(time: nat, amount: nat)

  type Refills = q: seq<Refill> | |q| > 0 witness [Refill(0, 0)]

  function Sum(q: seq<Refill>): nat {
    if q == [] then 0 else q[0].amount + Sum(q[1..])
  }

  ghost predicate Ordered(q: seq<Refill>) {
    forall i, j :: 0 <= i < j < |q| ==> q[i].time <= q[j].time
  }

  ghost predicate AllFrom(q: seq<Refill>, t: nat) {
    forall i :: 0 <= i < |q| ==> t <= q[i].time
  }

  function Max(a: nat, b: nat): nat {
    if a > b then a else b
  }

  function Last(q: Refills): Refill {
    q[|q| - 1]
  }

  lemma {:induction false} SumAppend(q: seq<Refill>, r: Refill)
    ensures Sum(q + [r]) == Sum(q) + r.amount
  {
    if q != [] {
      SumAppend(q[1..], r);
      assert (q + [r])[1..] == q[1..] + [r];
    }
  }

  lemma {:induction false} SumSplitLast(q: Refills)
    ensures Sum(q) == Sum(q[..|q| - 1]) + Last(q).amount
  {
    SumAppend(q[..|q| - 1], Last(q));
    assert q == q[..|q| - 1] + [Last(q)];
  }

  lemma {:induction false} SumReplaceLast(q: Refills, r: Refill)
    ensures Sum(q[|q| - 1 := r]) == Sum(q) - Last(q).amount + r.amount
  {
    SumSplitLast(q);
    var q' := q[|q| - 1 := r];
    SumSplitLast(q');
    assert q'[..|q| - 1] == q[..|q| - 1];
  }

  /** `schedule_used`: a small amount is merged into the last refill, delaying it; an amount due no
      later than the last refill joins it; anything else becomes the new last refill. */
  function ScheduleUsed(q: Refills, added: Refill, min: nat): (r: Refills)
    ensures Sum(r) == Sum(q) + added.amount
    ensures |q| <= |r| <= |q| + 1
    ensures Last(r).time >= added.time
  {
    var n := |q| - 1;
    if added.amount < min && |q| > 1 then
      SumReplaceLast(q, Refill(Max(added.time, q[n].time), q[n].amount + added.amount));
      q[n := Refill(Max(added.time, q[n].time), q[n].amount + added.amount)]
    else if added.time <= q[n].time then
      SumReplaceLast(q, q[n].(amount := q[n].amount + added.amount));
      q[n := q[n].(amount := q[n].amount + added.amount)]
    else
      SumAppend(q, added);
      q + [added]
  }

  /** Pops the head and adds `extra` to the refill that follows it, whose time is kept. */
  function PopInto(q: Refills, extra: nat): (r: Refills)
    requires |q| > 1
    ensures Sum(r) == Sum(q) - q[0].amount + extra && |r| == |q| - 1
  {
    var r := [q[1].(amount := q[1].amount + extra)] + q[2..];
    assert r[1..] == q[2..] == q[1..][1..];
    r
  }

  /** `ensure_sufficient_head`: merge until the head can carry a kernel entry and there is room. */
  function EnsureSufficient(q: Refills, min: nat, max: nat): (r: Refills)
    requires Sum(q) >= min && 2 <= max && |q| <= max
    ensures Sum(r) == Sum(q)
    ensures r[0].amount >= min && |r| < max && |r| <= |q|
    decreases |q|
  {
    assert Sum(q) == q[0].amount + Sum(q[1..]);
    if q[0].amount < min || |q| == max then EnsureSufficient(PopInto(q, q[0].amount), min, max) else q
  }

  /** The split that leaves the remnant at the head. */
  function SplitKeep(q: Refills, usage: nat, period: nat, min: nat): (r: Refills)
    requires usage <= q[0].amount
    ensures Sum(r) == Sum(q) && |r| <= |q| + 1
    ensures q[0].amount - usage >= min ==> r[0].amount >= min
  {
    ScheduleUsed(WithHead(q, q[0].amount - usage), Refill(q[0].time + period, usage), min)
  }

  /** The split that merges the remnant into the next refill. */
  function SplitMerge(q: Refills, usage: nat, period: nat, min: nat, max: nat): (r: Refills)
    requires usage <= q[0].amount && |q| > 1 && Sum(q) >= min && 2 <= max && |q| <= max
    ensures Sum(r) == Sum(q) && |r| < max && r[0].amount >= min
  {
    EnsureSufficient(ScheduleUsed(PopInto(q, q[0].amount - usage), Refill(q[0].time + period, usage), min), min, max)
  }

  /** `refill_split_check`: charge `usage` to the head and schedule it for one period later. */
  function SplitCheck(q: Refills, usage: nat, period: nat, min: nat, max: nat): (r: Refills)
    requires usage <= q[0].amount && Sum(q) >= min && 2 <= max && |q| <= max
    ensures Sum(r) == Sum(q) && |r| <= max
    ensures q[0].amount - usage >= min ==> r[0].amount >= min
  {
    var remnant := q[0].amount - usage;
    if |q| == max || remnant < min then
      if |q| == 1 then
        assert Sum(q[1..]) == 0;
        [Refill(q[0].time + period, usage + remnant)]
      else
        SplitMerge(q, usage, period, min, max)
    else
      SplitKeep(q, usage, period, min)
  }

  /** The queue with the head's amount replaced. */
  function WithHead(q: Refills, amount: nat): (r: Refills)
    ensures Sum(r) == Sum(q) - q[0].amount + amount && |r| == |q|
  {
    var r := [q[0].(amount := amount)] + q[1..];
    assert r[1..] == q[1..];
    r
  }

  /** `refill_capacity`. */
  function Capacity(head: Refill, usage: nat): nat {
    if usage > head.amount then 0 else head.amount - usage
  }

  /** `refill_ready`: the head may be used at `now`, give or take one kernel entry. */
  predicate Ready(q: Refills, now: nat, wcet: nat) {
    q[0].time <= now + wcet
  }

  /** How many refills at the front are empty. */
  function ZeroPrefix(q: seq<Refill>): nat {
    if q == [] || q[0].amount > 0 then 0 else 1 + ZeroPrefix(q[1..])
  }

  lemma {:induction false} ZeroPrefixFrame(p: seq<Refill>, q: seq<Refill>)
    requires Sum(p) > 0 && |p| <= |q|
    requires forall i :: 0 <= i < |p| ==> q[i].amount == p[i].amount
    ensures ZeroPrefix(q) == ZeroPrefix(p)
  {
    if p[0].amount == 0 { ZeroPrefixFrame(p[1..], q[1..]); }
  }

  /** One round of the exhausting loop: the whole head is scheduled a period later. */
  function ExhaustHead(q: Refills, period: nat, min: nat): (r: Refills)
    ensures Sum(r) == Sum(q) && |r| <= |q|
    ensures q[0].amount == 0 && Sum(q) > 0 ==> ZeroPrefix(r) < ZeroPrefix(q)
  {
    var due := Refill(q[0].time + period, q[0].amount);
    if |q| == 1 then
      assert Sum(q[1..]) == 0;
      [due]
    else
      var r := ScheduleUsed(q[1..], due, min);
      assert q[0].amount == 0 && Sum(q) > 0 ==> ZeroPrefix(r) == ZeroPrefix(q[1..]) by {
        if q[0].amount == 0 && Sum(q) > 0 { ZeroPrefixFrame(q[1..], r); }
      }
      r
  }

  /** The exhausting loop of `refill_budget_check`: returns the queue and the unpaid usage, which is
      below the new head's amount. */
  function Exhaust(q: Refills, usage: nat, period: nat, min: nat): (r: (Refills, nat))
    requires Sum(q) > 0
    ensures Sum(r.0) == Sum(q) && |r.0| <= |q|
    ensures r.1 < r.0[0].amount && r.1 <= usage
    decreases usage, ZeroPrefix(q)
  {
    if q[0].amount <= usage then
      Exhaust(ExhaustHead(q, period, min), usage - q[0].amount, period, min)
    else (q, usage)
  }

  /** The overrun part of `refill_budget_check`: delay the head and merge the next into it when the
      two overlap. */
  function Overrun(q: Refills, usage: nat): (r: Refills)
    ensures Sum(r) == Sum(q) && |r| <= |q| && r[0].amount >= q[0].amount
    ensures r[0].time == q[0].time + usage
  {
    var head := q[0].(time := q[0].time + usage);
    if usage > 0 && |q| > 1 && head.time + head.amount >= q[1].time then
      var r := [head.(amount := q[1].amount + head.amount)] + q[2..];
      assert r[1..] == q[2..] == q[1..][1..];
      r
    else
      var r := [head] + q[1..];
      assert r[1..] == q[1..];
      r
  }

  /** `refill_budget_check`: charge `usage` to a context that is out of budget. It keeps the total
      and ends with a head that suffices and room for another refill. */
  function BudgetCheck(q: Refills, usage: nat, period: nat, min: nat, max: nat, now: nat, wcet: nat): (r: Refills)
    requires Sum(q) >= min && Sum(q) > 0 && 2 <= max && |q| <= max
    ensures Sum(r) == Sum(q)
    ensures r[0].amount >= min && |r| < max
  {
    var (q1, u) := if Capacity(q[0], usage) == 0 then
                     var (e, u) := Exhaust(q, usage, period, min);
                     (Overrun(e, u), u)
                   else (q, usage);
    Charge(q1, u, period, min, max, now, wcet)
  }

  /** The end of `refill_budget_check`: the usage is charged to a head that is ready. */
  function Charge(q: Refills, u: nat, period: nat, min: nat, max: nat, now: nat, wcet: nat): (r: Refills)
    requires Sum(q) >= min && 2 <= max && |q| <= max
    ensures Sum(r) == Sum(q) && r[0].amount >= min && |r| < max
  {
    EnsureSufficient(if Capacity(q[0], u) > 0 && Ready(q, now, wcet) then SplitCheck(q, u, period, min, max) else q,
                     min, max)
  }

  /** The merging loop of `refill_unblock_check`. */
  function MergeOverlapping(q: Refills, now: nat): (r: Refills)
    requires q[0].time == now
    ensures Sum(r) == Sum(q) && |r| <= |q| && r[0].time == now && r[0].amount >= q[0].amount
    ensures |r| > 1 ==> r[1].time > now + r[0].amount
    decreases |q|
  {
    if |q| > 1 && q[1].time <= q[0].time + q[0].amount then
      var m := [Refill(now, q[1].amount + q[0].amount)] + q[2..];
      assert m[1..] == q[2..] == q[1..][1..];
      MergeOverlapping(m, now)
    else q
  }

  /** `refill_unblock_check` of a periodic context. */
  function UnblockCheck(q: Refills, now: nat, wcet: nat): (r: Refills)
    ensures Sum(r) == Sum(q) && |r| <= |q| && r[0].amount >= q[0].amount
    ensures if q[0].time <= now + wcet then r[0].time == now else r == q
  {
    if Ready(q, now, wcet) then
      var q' := [q[0].(time := now)] + q[1..];
      assert q'[1..] == q[1..];
      MergeOverlapping(q', now)
    else q
  }

  /** `maybe_add_empty_tail`: a round-robin context tracks its used time in a second refill. */
  function WithEmptyTail(q: Refills, period: nat, now: nat): (r: Refills)
    ensures Sum(r) == Sum(q) && |q| <= |r| <= |q| + 1
  {
    SumAppend(q, Refill(now, 0));
    if period == 0 then q + [Refill(now, 0)] else q
  }

  /** `refill_update`: the total becomes the new budget, no more of it than before usable at once. */
  function Update(q: Refills, period: nat, budget: nat, now: nat, wcet: nat): (r: Refills)
    ensures Sum(r) == budget && |r| <= 2
    ensures r[0].amount <= q[0].amount && (r[0].amount == q[0].amount || r[0].amount == budget)
    ensures |r| == 2 && r[1].amount > 0 ==> r[1].time == r[0].time + period
    ensures r[0].time + wcet >= q[0].time && r[0].time == if q[0].time <= now + wcet then now else q[0].time
  {
    var head := if Ready(q, now, wcet) then q[0].(time := now) else q[0];
    if head.amount >= budget then
      assert Sum([head.(amount := budget)][1..]) == 0;
      WithEmptyTail([head.(amount := budget)], period, now)
    else
      SumAppend([head], Refill(head.time + period, budget - head.amount));
      [head] + [Refill(head.time + period, budget - head.amount)]
  }

  // ----- time order -----

  lemma {:induction false} ScheduleUsedOrdered(q: Refills, added: Refill, min: nat)
    requires Ordered(q)
    ensures Ordered(ScheduleUsed(q, added, min))
  {
  }

  lemma {:induction false} EnsureSufficientOrdered(q: Refills, min: nat, max: nat)
    requires Sum(q) >= min && 2 <= max && |q| <= max && Ordered(q)
    ensures Ordered(EnsureSufficient(q, min, max))
    ensures EnsureSufficient(q, min, max)[0].time >= q[0].time
    decreases |q|
  {
    if q[0].amount < min || |q| == max {
      assert |q| > 1;
      PopIntoOrdered(q, q[0].amount);
      EnsureSufficientOrdered(PopInto(q, q[0].amount), min, max);
    }
  }

  lemma {:induction false} PopIntoOrdered(q: Refills, extra: nat)
    requires |q| > 1 && Ordered(q)
    ensures Ordered(PopInto(q, extra)) && PopInto(q, extra)[0].time >= q[0].time
  {
    var r := PopInto(q, extra);
    assert forall k :: 0 <= k < |r| ==> r[k].time == q[k + 1].time;
  }

  lemma {:induction false} WithHeadOrdered(q: Refills, amount: nat)
    requires Ordered(q)
    ensures Ordered(WithHead(q, amount))
  {
    assert forall i :: 0 <= i < |q| ==> WithHead(q, amount)[i].time == q[i].time;
  }

  lemma {:induction false} SplitKeepOrdered(q: Refills, usage: nat, period: nat, min: nat)
    requires usage <= q[0].amount && Ordered(q)
    ensures Ordered(SplitKeep(q, usage, period, min)) && SplitKeep(q, usage, period, min)[0].time >= q[0].time
  {
    var rest, added := WithHead(q, q[0].amount - usage), Refill(q[0].time + period, usage);
    WithHeadOrdered(q, q[0].amount - usage);
    ScheduleUsedOrdered(rest, added, min);
    ScheduledHead(rest, added, min);
  }

  lemma {:induction false} SplitMergeOrdered(q: Refills, usage: nat, period: nat, min: nat, max: nat)
    requires usage <= q[0].amount && |q| > 1 && Sum(q) >= min && 2 <= max && |q| <= max && Ordered(q)
    ensures Ordered(SplitMerge(q, usage, period, min, max))
    ensures SplitMerge(q, usage, period, min, max)[0].time >= q[0].time
  {
    var rest, added := PopInto(q, q[0].amount - usage), Refill(q[0].time + period, usage);
    PopIntoOrdered(q, q[0].amount - usage);
    ScheduleUsedOrdered(rest, added, min);
    ScheduledHead(rest, added, min);
    EnsureSufficientOrdered(ScheduleUsed(rest, added, min), min, max);
  }

  /** Splitting keeps the queue in time order, and its head never becomes usable earlier. */
  lemma {:induction false} SplitCheckOrdered(q: Refills, usage: nat, period: nat, min: nat, max: nat)
    requires usage <= q[0].amount && Sum(q) >= min && 2 <= max && |q| <= max && Ordered(q)
    ensures Ordered(SplitCheck(q, usage, period, min, max))
    ensures SplitCheck(q, usage, period, min, max)[0].time >= q[0].time
  {
    if |q| == max || q[0].amount - usage < min {
      if |q| > 1 { SplitMergeOrdered(q, usage, period, min, max); }
    } else {
      SplitKeepOrdered(q, usage, period, min);
    }
  }

  lemma {:induction false} ScheduledHead(q: Refills, added: Refill, min: nat)
    ensures ScheduleUsed(q, added, min)[0].time >= q[0].time
  {
  }

  lemma {:induction false} MergeOverlappingOrdered(q: Refills, now: nat)
    requires q[0].time == now && Ordered(q[1..])
    ensures Ordered(MergeOverlapping(q, now))
    decreases |q|
  {
    if |q| > 1 && q[1].time <= q[0].time + q[0].amount {
      var m := [Refill(now, q[1].amount + q[0].amount)] + q[2..];
      assert m[1..] == q[2..] == q[1..][1..];
      MergeOverlappingOrdered(m, now);
    } else {
      assert forall i :: 0 < i < |q| ==> q[i] == q[1..][i - 1];
    }
  }

  /** Advancing the head to now and merging what overlaps keeps the queue in time order, although
      the head may have been moved to an earlier or a later time. */
  lemma {:induction false} UnblockCheckOrdered(q: Refills, now: nat, wcet: nat)
    requires Ordered(q)
    ensures Ordered(UnblockCheck(q, now, wcet))
  {
    if Ready(q, now, wcet) {
      var q' := [q[0].(time := now)] + q[1..];
      assert q'[1..] == q[1..];
      MergeOverlappingOrdered(q', now);
    }
  }

  lemma {:induction false} UpdateOrdered(q: Refills, period: nat, budget: nat, now: nat, wcet: nat)
    requires period > 0
    ensures Ordered(Update(q, period, budget, now, wcet))
  {
  }

  /** Delaying the head for an overrun keeps the order exactly when the delayed head does not pass
      the refill that follows it after the merge. */
  lemma {:induction false} OverrunOrderedIff(q: Refills, usage: nat)
    requires Ordered(q)
    ensures Ordered(Overrun(q, usage)) <==>
              usage == 0 || |q| <= 2 || q[0].time + usage <= q[2].time
              || q[0].time + usage + q[0].amount < q[1].time
  {
    var r := Overrun(q, usage);
    var merged := usage > 0 && |q| > 1 && q[0].time + usage + q[0].amount >= q[1].time;
    if merged {
      assert |q| > 2 ==> r[1] == q[2];
      assert forall i :: 1 <= i < |r| ==> r[i] == q[i + 1];
    } else {
      assert forall i :: 1 <= i < |r| ==> r[i] == q[i];
    }
  }

  lemma {:induction false} ExhaustOrdered(q: Refills, usage: nat, period: nat, min: nat)
    requires Sum(q) > 0 && Ordered(q)
    ensures Ordered(Exhaust(q, usage, period, min).0)
    decreases usage, ZeroPrefix(q)
  {
    if q[0].amount <= usage {
      if |q| > 1 { ScheduleUsedOrdered(q[1..], Refill(q[0].time + period, q[0].amount), min); }
      ExhaustOrdered(ExhaustHead(q, period, min), usage - q[0].amount, period, min);
    }
  }

  /** The delayed head, merged with the refill after it, passes the one after that. */
  predicate Passes(e: Refills, u: nat) {
    && u > 0 && |e| > 2 && e[0].time + u > e[2].time
    && e[0].time + u + e[0].amount >= e[1].time
  }

  /** The merged head is not ready and stays at the front because it suffices. */
  predicate WaitsInFront(e: Refills, u: nat, min: nat, now: nat, wcet: nat)
    requires |e| > 2
  {
    e[0].time + u > now + wcet && e[0].amount + e[1].amount >= min
  }

  /** The merged head is ready, what is left of it after the charge suffices, the charge is not merged into
      the refill that was passed, and it does not fill the buffer. */
  predicate ChargedInFront(e: Refills, u: nat, period: nat, min: nat, max: nat, now: nat, wcet: nat)
    requires |e| > 2
  {
    && e[0].time + u <= now + wcet && e[0].amount + e[1].amount >= min + u
    && !(u < min && |e| == 3)
    && !(u >= min && |e| == max && e[0].time + u + period > Last(e).time)
  }

  /** What is left of the queue and of the usage when the exhausting loop is done, `e` and `u`, makes
      `refill_budget_check` leave the refills out of order. */
  predicate Unorders(e: Refills, u: nat, period: nat, min: nat, max: nat, now: nat, wcet: nat) {
    && Passes(e, u)
    && (WaitsInFront(e, u, min, now, wcet) || ChargedInFront(e, u, period, min, max, now, wcet))
  }

  /** Out of order at the very front, and only there. */
  ghost predicate HeadLate(q: Refills) {
    |q| > 1 && q[0].time > q[1].time && Ordered(q[1..])
  }

  lemma {:induction false} PassesLate(e: Refills, u: nat)
    requires Ordered(e) && Passes(e, u)
    ensures var o := Overrun(e, u);
            && |o| == |e| - 1 && HeadLate(o) && Last(o) == Last(e)
            && o[0] == Refill(e[0].time + u, e[1].amount + e[0].amount)
  {
    var o := Overrun(e, u);
    assert o[1..] == e[2..];
    assert forall k :: 0 <= k < |e| - 2 ==> e[2..][k] == e[k + 2];
    assert o[1] == e[2];
  }

  /** Merging the late head into the refill behind it puts the queue in order. */
  lemma {:induction false} PopLateOrdered(q: Refills, extra: nat)
    requires HeadLate(q)
    ensures Ordered(PopInto(q, extra))
  {
    var r := PopInto(q, extra);
    assert forall k :: 0 <= k < |r| ==> r[k].time == q[1..][k].time;
  }

  lemma {:induction false} EnsureLate(q: Refills, min: nat, max: nat)
    requires HeadLate(q) && Sum(q) >= min && 2 <= max && |q| <= max
    ensures Ordered(EnsureSufficient(q, min, max)) <==> q[0].amount < min || |q| == max
  {
    if q[0].amount < min || |q| == max {
      PopLateOrdered(q, q[0].amount);
      EnsureSufficientOrdered(PopInto(q, q[0].amount), min, max);
    }
  }

  /** Scheduling a charge behind a late head leaves it late, unless it moves the refill that was passed. */
  lemma {:induction false} ScheduleLate(q: Refills, added: Refill, min: nat)
    requires HeadLate(q) && q[0].time <= added.time
    ensures var r := ScheduleUsed(q, added, min);
            if added.amount < min && |q| == 2 then Ordered(r) && |r| == |q|
            else HeadLate(r) && r[0] == q[0]
                 && |r| == |q| + (if added.amount >= min && added.time > Last(q).time then 1 else 0)
  {
    var r := ScheduleUsed(q, added, min);
    assert Last(q) == q[1..][|q| - 2];
    ScheduleUsedOrdered(q[1..], added, min);
    if |r| == |q| + 1 {
      assert r[1..] == q[1..] + [added];
    } else {
      assert forall k :: 0 <= k < |q| - 2 ==> r[1..][k] == q[1..][k];
    }
  }

  lemma {:induction false} SplitLate(o: Refills, u: nat, period: nat, min: nat, max: nat)
    requires HeadLate(o) && u <= o[0].amount && Sum(o) >= min && 2 <= max && |o| < max
    ensures Ordered(EnsureSufficient(SplitCheck(o, u, period, min, max), min, max)) <==>
              || o[0].amount < min + u || (u < min && |o| == 2)
              || (u >= min && |o| + 1 == max && o[0].time + period > Last(o).time)
  {
    if o[0].amount < min + u {
      SplitLateMerged(o, u, period, min, max);
    } else {
      KeptLate(o, u);
      SplitLateKept(WithHead(o, o[0].amount - u), Refill(o[0].time + period, u), min, max,
                    SplitCheck(o, u, period, min, max));
    }
  }

  lemma {:induction false} KeptLate(o: Refills, u: nat)
    requires HeadLate(o) && u <= o[0].amount
    ensures var kept := WithHead(o, o[0].amount - u);
            HeadLate(kept) && |kept| == |o| && Last(kept) == Last(o) && Sum(kept) == Sum(o) - u
            && kept[0] == Refill(o[0].time, o[0].amount - u)
  {
    var kept := WithHead(o, o[0].amount - u);
    assert kept[1..] == o[1..] && Last(kept) == Last(o);
  }

  lemma {:induction false} SplitLateKept(kept: Refills, added: Refill, min: nat, max: nat, r: Refills)
    requires HeadLate(kept) && kept[0].time <= added.time && kept[0].amount >= min && 2 <= max && |kept| < max
    requires r == ScheduleUsed(kept, added, min) && Sum(r) >= min
    ensures Ordered(EnsureSufficient(r, min, max)) <==>
              || (added.amount < min && |kept| == 2)
              || (added.amount >= min && |kept| + 1 == max && added.time > Last(kept).time)
  {
    ScheduleLate(kept, added, min);
    if added.amount < min && |kept| == 2 {
      EnsureSufficientOrdered(r, min, max);
    } else {
      EnsureLate(r, min, max);
    }
  }

  lemma {:induction false} SplitLateMerged(o: Refills, u: nat, period: nat, min: nat, max: nat)
    requires HeadLate(o) && u <= o[0].amount < min + u && Sum(o) >= min && 2 <= max && |o| < max
    ensures Ordered(EnsureSufficient(SplitCheck(o, u, period, min, max), min, max))
  {
    var rest, added := PopInto(o, o[0].amount - u), Refill(o[0].time + period, u);
    PopLateOrdered(o, o[0].amount - u);
    ScheduleUsedOrdered(rest, added, min);
    EnsureSufficientOrdered(ScheduleUsed(rest, added, min), min, max);
    EnsureSufficientOrdered(SplitMerge(o, u, period, min, max), min, max);
  }

  /** An ordered queue stays ordered through the charge that ends `refill_budget_check`. */
  lemma {:induction false} ChargeOrdered(q: Refills, u: nat, period: nat, min: nat, max: nat, now: nat, wcet: nat)
    requires Sum(q) >= min && 2 <= max && |q| <= max && Ordered(q)
    ensures Ordered(Charge(q, u, period, min, max, now, wcet))
  {
    if Capacity(q[0], u) > 0 && Ready(q, now, wcet) {
      SplitCheckOrdered(q, u, period, min, max);
      EnsureSufficientOrdered(SplitCheck(q, u, period, min, max), min, max);
    } else {
      EnsureSufficientOrdered(q, min, max);
    }
  }

  lemma {:induction false} ChargeLate(o: Refills, u: nat, period: nat, min: nat, max: nat, now: nat, wcet: nat)
    requires HeadLate(o) && u < o[0].amount && Sum(o) >= min && 2 <= max && |o| < max
    ensures Ordered(Charge(o, u, period, min, max, now, wcet)) <==>
              if Ready(o, now, wcet) then
                || o[0].amount < min + u || (u < min && |o| == 2)
                || (u >= min && |o| + 1 == max && o[0].time + period > Last(o).time)
              else o[0].amount < min
  {
    if Ready(o, now, wcet) {
      SplitLate(o, u, period, min, max);
    } else {
      EnsureLate(o, min, max);
    }
  }

  lemma {:induction false} OverrunCharged(e: Refills, u: nat, period: nat, min: nat, max: nat, now: nat, wcet: nat)
    requires Ordered(e) && Passes(e, u) && u < e[0].amount && Sum(e) >= min && 2 <= max && |e| <= max
    ensures Ordered(Charge(Overrun(e, u), u, period, min, max, now, wcet))
            <==> !Unorders(e, u, period, min, max, now, wcet)
  {
    PassesLate(e, u);
    var o := Overrun(e, u);
    ChargeLate(o, u, period, min, max, now, wcet);
  }

  /** `refill_budget_check` leaves an ordered queue in order exactly if it is not the case that the head is
      used up and what the exhausting loop leaves makes the delayed head pass a refill and stay in front. */
  lemma {:induction false} BudgetCheckOrderedIff(q: Refills, usage: nat, period: nat, min: nat, max: nat, now: nat,
                                                 wcet: nat)
    requires Sum(q) >= min && Sum(q) > 0 && 2 <= max && |q| <= max && Ordered(q)
    ensures Ordered(BudgetCheck(q, usage, period, min, max, now, wcet)) <==>
              !(Capacity(q[0], usage) == 0
                && var (e, u) := Exhaust(q, usage, period, min); Unorders(e, u, period, min, max, now, wcet))
  {
    if Capacity(q[0], usage) == 0 {
      var (e, u) := Exhaust(q, usage, period, min);
      ExhaustOrdered(q, usage, period, min);
      if Passes(e, u) {
        OverrunCharged(e, u, period, min, max, now, wcet);
      } else {
        OverrunOrderedIff(e, u);
        ChargeOrdered(Overrun(e, u), u, period, min, max, now, wcet);
      }
    } else {
      ChargeOrdered(q, usage, period, min, max, now, wcet);
    }
  }

  /** `e` begins with the refills of `q` from `k` on, up to but without the last one of `q`. */
  ghost predicate Continues(e: Refills, q: Refills, k: nat) {
    |e| + k >= |q| && forall i :: 0 <= i < |q| - 1 - k ==> e[i] == q[i + k]
  }

  lemma {:induction false} ContinuesOn(e: Refills, r: Refills, q: Refills, k: nat)
    requires 0 < k && Continues(r, q, 1) && Continues(e, r, k - 1)
    ensures Continues(e, q, k)
  {
    forall i | 0 <= i < |q| - 1 - k ensures e[i] == q[i + k] {
      assert e[i] == r[i + (k - 1)] && r[i + (k - 1)] == q[i + (k - 1) + 1];
    }
  }

  /** `k` refills of `q` are used up, and the next one outlasts the usage. */
  ghost predicate UsesUp(q: Refills, usage: nat, k: nat) {
    k < |q| && Sum(q[..k]) <= usage < Sum(q[..k + 1])
  }

  /** Below the total, what the exhausting loop leaves begins as can be read off the queue: it drops the refills that
      the usage covers, and what follows is untouched up to, but without, the last refill. */
  lemma {:induction false} ExhaustReads(q: Refills, usage: nat, period: nat, min: nat, k: nat)
    requires UsesUp(q, usage, k)
    ensures Sum(q) > 0
    ensures var (e, u) := Exhaust(q, usage, period, min);
            u == usage - Sum(q[..k]) && Continues(e, q, k)
  {
    SumPrefix(q, k + 1);
    var (e, u) := Exhaust(q, usage, period, min);
    ExhaustLeaves(q, usage, period, min, k, e, u);
  }

  lemma {:induction false} ExhaustLeaves(q: Refills, usage: nat, period: nat, min: nat, k: nat, e: Refills, u: nat)
    requires UsesUp(q, usage, k) && Sum(q) > 0 && Exhaust(q, usage, period, min) == (e, u)
    ensures u == usage - Sum(q[..k]) && Continues(e, q, k)
    decreases k
  {
    if k == 0 {
      SumSplitFirst(q, 1);
    } else {
      var r := ExhaustRound(q, usage, period, min, k);
      ExhaustLeaves(r, usage - q[0].amount, period, min, k - 1, e, u);
      ContinuesOn(e, r, q, k);
    }
  }

  /** One round of the loop, seen the same way. */
  lemma {:induction false} ExhaustRound(q: Refills, usage: nat, period: nat, min: nat, k: nat) returns (r: Refills)
    requires UsesUp(q, usage, k) && k > 0 && Sum(q) > 0
    ensures q[0].amount <= usage && Sum(r) == Sum(q)
    ensures Exhaust(q, usage, period, min) == Exhaust(r, usage - q[0].amount, period, min)
    ensures UsesUp(r, usage - q[0].amount, k - 1) && Continues(r, q, 1)
    ensures Sum(r[..k - 1]) == Sum(q[..k]) - q[0].amount
  {
    SumSplitFirst(q, k + 1);
    SumSplitFirst(q, k);
    ExhaustHeadReads(q, period, min, k);
    r := ExhaustHead(q, period, min);
  }

  lemma {:induction false} SumSplitFirst(q: Refills, k: nat)
    requires 0 < k <= |q|
    ensures Sum(q[..k]) == q[0].amount + Sum(q[1..k])
  {
    assert q[..k][1..] == q[1..k];
  }

  lemma {:induction false} SumPrefix(q: seq<Refill>, k: nat)
    requires k <= |q|
    ensures Sum(q[..k]) <= Sum(q)
  {
    if k > 0 {
      SumPrefix(q[1..], k - 1);
      assert q[..k][1..] == q[1..][..k - 1];
    }
  }

  lemma {:induction false} ExhaustHeadReads(q: Refills, period: nat, min: nat, k: nat)
    requires 0 < k < |q|
    ensures var r := ExhaustHead(q, period, min);
            && |r| >= |q| - 1 && Continues(r, q, 1)
            && Sum(r[..k - 1]) == Sum(q[1..k]) && Sum(r[..k]) >= Sum(q[1..k + 1])
  {
    var r := ExhaustHead(q, period, min);
    assert forall i :: 0 <= i < |q| - 2 ==> r[i] == q[1..][i];
    assert r[|q| - 2].amount >= q[1..][|q| - 2].amount;
    assert r[..k - 1] == q[1..k];
    SumAppend(r[..k - 1], r[k - 1]);
    SumAppend(q[1..k], q[k]);
    assert r[..k] == r[..k - 1] + [r[k - 1]] && q[1..k + 1] == q[1..k] + [q[k]];
  }

  // ----- whole runs of a thread -----

  /** A scheduling context's parameters, with WCET and MIN_BUDGET. */
  datatype Params = Params(period: nat, min: nat, max: nat, wcet: nat)

  /** The thread is switched to at `start` and runs for `usage` ticks. */
  datatype Burst = Burst(start: nat, usage: nat)

  /** A queue on which the thread can be run. */
  ghost predicate Sound(q: Refills, p: Params) {
    0 < p.min <= Sum(q) && 2 <= p.max && |q| <= p.max
  }

  /** What the kernel does with the queue: refill_unblock_check when it switches to the thread, and for the
      usage a split if enough is left and there is room (commitTime), else the budget check (checkBudget). */
  function Billed(q: Refills, b: Burst, p: Params): (r: Refills)
    requires Sound(q, p)
    ensures Sound(r, p) && Sum(r) == Sum(q)
  {
    var woken := UnblockCheck(q, b.start, p.wcet);
    if Capacity(woken[0], b.usage) >= p.min && |woken| < p.max
    then if b.usage == 0 then woken else SplitCheck(woken, b.usage, p.period, p.min, p.max)
    else BudgetCheck(woken, b.usage, p.period, p.min, p.max, b.start + b.usage, p.wcet)
  }

  /** The bursts come one after the other, each when the head is ready. */
  ghost predicate CanRun(q: Refills, bursts: seq<Burst>, p: Params, now: nat)
    requires Sound(q, p)
    decreases |bursts|
  {
    bursts != [] ==>
      && now <= bursts[0].start && Ready(q, bursts[0].start, p.wcet)
      && CanRun(Billed(q, bursts[0], p), bursts[1..], p, bursts[0].start + bursts[0].usage)
  }

  /** The queue after the bursts. */
  function AfterRun(q: Refills, bursts: seq<Burst>, p: Params): (r: Refills)
    requires Sound(q, p)
    ensures Sound(r, p) && Sum(r) == Sum(q)
    decreases |bursts|
  {
    if bursts == [] then q else AfterRun(Billed(q, bursts[0], p), bursts[1..], p)
  }

  /** The burst makes the budget check leave the refills out of order. */
  predicate BurstUnorders(q: Refills, b: Burst, p: Params)
    requires Sum(q) > 0
  {
    var woken := UnblockCheck(q, b.start, p.wcet);
    && !(Capacity(woken[0], b.usage) >= p.min && |woken| < p.max) && Capacity(woken[0], b.usage) == 0
    && var (e, u) := Exhaust(woken, b.usage, p.period, p.min);
       Unorders(e, u, p.period, p.min, p.max, b.start + b.usage, p.wcet)
  }

  lemma {:induction false} BilledOrderedIff(q: Refills, b: Burst, p: Params)
    requires Sound(q, p) && Ordered(q)
    ensures Ordered(Billed(q, b, p)) <==> !BurstUnorders(q, b, p)
  {
    var woken := UnblockCheck(q, b.start, p.wcet);
    UnblockCheckOrdered(q, b.start, p.wcet);
    if Capacity(woken[0], b.usage) >= p.min && |woken| < p.max {
      SplitBilled(woken, b.usage, p, Billed(q, b, p));
    } else {
      BudgetBilled(woken, b, p, Billed(q, b, p));
    }
  }

  lemma {:induction false} BudgetBilled(woken: Refills, b: Burst, p: Params, r: Refills)
    requires Sound(woken, p) && Ordered(woken)
    requires r == BudgetCheck(woken, b.usage, p.period, p.min, p.max, b.start + b.usage, p.wcet)
    ensures Ordered(r) <==> !(Capacity(woken[0], b.usage) == 0
                              && var (e, u) := Exhaust(woken, b.usage, p.period, p.min);
                                 Unorders(e, u, p.period, p.min, p.max, b.start + b.usage, p.wcet))
  {
    BudgetCheckOrderedIff(woken, b.usage, p.period, p.min, p.max, b.start + b.usage, p.wcet);
  }

  lemma {:induction false} SplitBilled(woken: Refills, usage: nat, p: Params, r: Refills)
    requires Sound(woken, p) && Ordered(woken) && Capacity(woken[0], usage) >= p.min
    requires r == if usage == 0 then woken else SplitCheck(woken, usage, p.period, p.min, p.max)
    ensures Ordered(r)
  {
    SplitCheckOrdered(woken, usage, p.period, p.min, p.max);
  }

  /** Every queue along the run is in order. */
  ghost predicate OrderedThroughout(q: Refills, bursts: seq<Burst>, p: Params)
    requires Sound(q, p)
    decreases |bursts|
  {
    Ordered(q) && (bursts != [] ==> OrderedThroughout(Billed(q, bursts[0], p), bursts[1..], p))
  }

  /** No burst of the run makes the budget check leave the refills out of order. */
  ghost predicate NoneUnorders(q: Refills, bursts: seq<Burst>, p: Params)
    requires Sound(q, p)
    decreases |bursts|
  {
    bursts != [] ==> !BurstUnorders(q, bursts[0], p) && NoneUnorders(Billed(q, bursts[0], p), bursts[1..], p)
  }

  /** Over every run from an ordered queue, the refills stay in order exactly if no burst has the delayed head
      pass a refill and stay in front. */
  lemma {:induction false} RunOrderedIff(q: Refills, bursts: seq<Burst>, p: Params)
    requires Sound(q, p) && Ordered(q)
    ensures OrderedThroughout(q, bursts, p) <==> NoneUnorders(q, bursts, p)
    decreases |bursts|
  {
    if bursts != [] {
      BilledOrderedIff(q, bursts[0], p);
      if Ordered(Billed(q, bursts[0], p)) {
        RunOrderedIff(Billed(q, bursts[0], p), bursts[1..], p);
      }
    }
  }

  // ----- the bandwidth bound -----

  /** The budget that is usable before time `d`. */
  function UsableBefore(q: seq<Refill>, d: nat): (u: nat)
    ensures u <= Sum(q)
  {
    if q == [] then 0 else (if q[0].time < d then q[0].amount else 0) + UsableBefore(q[1..], d)
  }

  lemma {:induction false} UsableAppend(q: seq<Refill>, r: Refill, d: nat)
    ensures UsableBefore(q + [r], d) == UsableBefore(q, d) + (if r.time < d then r.amount else 0)
  {
    if q != [] {
      UsableAppend(q[1..], r, d);
      assert (q + [r])[1..] == q[1..] + [r];
    }
  }

  lemma {:induction false} UsableReplaceLast(q: Refills, r: Refill, d: nat)
    ensures UsableBefore(q[|q| - 1 := r], d) + (if Last(q).time < d then Last(q).amount else 0)
            == UsableBefore(q, d) + (if r.time < d then r.amount else 0)
  {
    var n := |q| - 1;
    UsableAppend(q[..n], q[n], d);
    UsableAppend(q[..n], r, d);
    assert q == q[..n] + [q[n]] && q[n := r] == q[..n] + [r];
  }

  /** Scheduling an amount for `d` or later makes nothing usable before `d`. */
  lemma {:induction false} ScheduleUsedUsable(q: Refills, added: Refill, min: nat, d: nat)
    requires added.time >= d
    ensures UsableBefore(ScheduleUsed(q, added, min), d) <= UsableBefore(q, d)
  {
    var n := |q| - 1;
    if added.amount < min && |q| > 1 {
      UsableReplaceLast(q, Refill(Max(added.time, q[n].time), q[n].amount + added.amount), d);
    } else if added.time <= q[n].time {
      UsableReplaceLast(q, q[n].(amount := q[n].amount + added.amount), d);
    } else {
      UsableAppend(q, added, d);
    }
  }

  /** What the popped head leaves moves to a later refill, so it is usable no earlier. */
  lemma {:induction false} PopIntoUsable(q: Refills, extra: nat, d: nat)
    requires |q| > 1 && Ordered(q) && extra <= q[0].amount
    ensures var waits := if q[0].time < d then q[0].amount - extra else 0;
            UsableBefore(PopInto(q, extra), d) + waits <= UsableBefore(q, d)
  {
    var r := PopInto(q, extra);
    assert r[1..] == q[1..][1..];
    assert UsableBefore(q, d) == (if q[0].time < d then q[0].amount else 0) + UsableBefore(q[1..], d);
  }

  lemma {:induction false} EnsureSufficientUsable(q: Refills, min: nat, max: nat, d: nat)
    requires Sum(q) >= min && 2 <= max && |q| <= max && Ordered(q)
    ensures UsableBefore(EnsureSufficient(q, min, max), d) <= UsableBefore(q, d)
    decreases |q|
  {
    if q[0].amount < min || |q| == max {
      assert |q| > 1;
      PopIntoUsable(q, q[0].amount, d);
      PopIntoOrdered(q, q[0].amount);
      EnsureSufficientUsable(PopInto(q, q[0].amount), min, max, d);
    }
  }

  lemma {:induction false} SplitMergeUsable(q: Refills, usage: nat, period: nat, min: nat, max: nat, d: nat)
    requires usage <= q[0].amount && |q| > 1 && Sum(q) >= min && 2 <= max && |q| <= max && Ordered(q)
    requires d <= q[0].time + period
    ensures UsableBefore(SplitMerge(q, usage, period, min, max), d)
            + (if q[0].time < d then usage else 0) <= UsableBefore(q, d)
  {
    var rest := PoppedUsable(q, usage, period, min, max, d);
    ScheduleThenEnsureUsable(rest, Refill(q[0].time + period, usage), min, max, d,
                             SplitMerge(q, usage, period, min, max), if q[0].time < d then usage else 0,
                             UsableBefore(q, d));
  }

  lemma {:induction false} PoppedUsable(q: Refills, usage: nat, period: nat, min: nat, max: nat, d: nat)
    returns (rest: Refills)
    requires usage <= q[0].amount && |q| > 1 && Sum(q) >= min && 2 <= max && |q| <= max && Ordered(q)
    ensures Sum(rest) == Sum(q) - usage && |rest| == |q| - 1 && Ordered(rest)
    ensures UsableBefore(rest, d) + (if q[0].time < d then usage else 0) <= UsableBefore(q, d)
    ensures SplitMerge(q, usage, period, min, max)
            == EnsureSufficient(ScheduleUsed(rest, Refill(q[0].time + period, usage), min), min, max)
  {
    rest := SplitMergeRest(q, usage, period, min, max);
    PopIntoUsable(q, q[0].amount - usage, d);
    PopIntoOrdered(q, q[0].amount - usage);
  }

  lemma {:induction false} SplitMergeRest(q: Refills, usage: nat, period: nat, min: nat, max: nat)
    returns (rest: Refills)
    requires usage <= q[0].amount && |q| > 1 && Sum(q) >= min && 2 <= max && |q| <= max
    ensures rest == PopInto(q, q[0].amount - usage) && Sum(rest) == Sum(q) - usage && |rest| == |q| - 1
    ensures SplitMerge(q, usage, period, min, max)
            == EnsureSufficient(ScheduleUsed(rest, Refill(q[0].time + period, usage), min), min, max)
  {
    rest := PopInto(q, q[0].amount - usage);
  }

  lemma {:induction false} ScheduleThenEnsureUsable(q: Refills, added: Refill, min: nat, max: nat, d: nat,
                                                    r: Refills, left: nat, bound: nat)
    requires Sum(q) + added.amount >= min && |q| < max && 2 <= max && Ordered(q) && added.time >= d
    requires r == EnsureSufficient(ScheduleUsed(q, added, min), min, max) && UsableBefore(q, d) + left <= bound
    ensures UsableBefore(r, d) + left <= bound
  {
    ScheduleUsedUsable(q, added, min, d);
    ScheduleUsedOrdered(q, added, min);
    EnsureSufficientUsable(ScheduleUsed(q, added, min), min, max, d);
  }

  /** A charge to a head released before `d` removes that much from what is usable before `d`,
      provided the charge comes back at `d` or later. */
  lemma {:induction false} SplitCheckUsable(q: Refills, usage: nat, period: nat, min: nat, max: nat, d: nat)
    requires usage <= q[0].amount && Sum(q) >= min && 2 <= max && |q| <= max && Ordered(q)
    requires d <= q[0].time + period
    ensures UsableBefore(SplitCheck(q, usage, period, min, max), d)
            + (if q[0].time < d then usage else 0) <= UsableBefore(q, d)
  {
    if |q| == max || q[0].amount - usage < min {
      if |q| > 1 { SplitMergeUsable(q, usage, period, min, max, d); }
    } else {
      WithHeadUsable(q, q[0].amount - usage, d);
      ScheduleUsedUsable(WithHead(q, q[0].amount - usage), Refill(q[0].time + period, usage), min, d);
    }
  }

  lemma {:induction false} WithHeadUsable(q: Refills, amount: nat, d: nat)
    requires amount <= q[0].amount
    ensures UsableBefore(WithHead(q, amount), d)
            == UsableBefore(q, d) - (if q[0].time < d then q[0].amount - amount else 0)
  {
    assert WithHead(q, amount)[1..] == q[1..];
  }

  /** A run of charges by `refill_split_check`, each within the head it is charged to. */
  ghost predicate CanCharge(q: Refills, usages: seq<nat>, period: nat, min: nat, max: nat)
    decreases |usages|
  {
    && Sum(q) >= min && 2 <= max && |q| <= max
    && (usages != [] ==>
          usages[0] <= q[0].amount
          && CanCharge(SplitCheck(q, usages[0], period, min, max), usages[1..], period, min, max))
  }

  /** The usage charged to heads released before `d` over such a run. */
  ghost function Charged(q: Refills, usages: seq<nat>, period: nat, min: nat, max: nat, d: nat): nat
    requires CanCharge(q, usages, period, min, max)
    decreases |usages|
  {
    if usages == [] then 0
    else (if q[0].time < d then usages[0] else 0)
         + Charged(SplitCheck(q, usages[0], period, min, max), usages[1..], period, min, max, d)
  }

  lemma {:induction false} ChargedWithinUsable(q: Refills, usages: seq<nat>, period: nat, min: nat, max: nat, d: nat)
    requires CanCharge(q, usages, period, min, max) && Ordered(q) && d <= q[0].time + period
    ensures Charged(q, usages, period, min, max, d) <= UsableBefore(q, d)
    decreases |usages|
  {
    if usages != [] {
      SplitCheckOrdered(q, usages[0], period, min, max);
      SplitCheckUsable(q, usages[0], period, min, max, d);
      ChargedWithinUsable(SplitCheck(q, usages[0], period, min, max), usages[1..], period, min, max, d);
    }
  }

  /** The sliding-window constraint: from a time-ordered queue whose refills are all due at `t` or
      later, any run of charges takes at most the whole budget from heads released within one
      period of `t`. */
  lemma {:induction false} BandwidthBound(q: Refills, usages: seq<nat>, period: nat, min: nat, max: nat, t: nat)
    requires CanCharge(q, usages, period, min, max) && Ordered(q) && AllFrom(q, t)
    ensures Charged(q, usages, period, min, max, t + period) <= Sum(q)
  {
    ChargedWithinUsable(q, usages, period, min, max, t + period);
  }

  /** The order is not kept by every run: a context with budget 9 and period 10 overruns at once, wakes at 16
      for two ticks, and overruns at 18 by four; its delayed head then passes a refill. */
  lemma {:induction false} RunUnorders()
    ensures var p, q := Params(10, 2, 5, 1), WithEmptyTail([Refill(0, 9)], 10, 0);
            var first, second, third := Burst(0, 14), Burst(16, 2), Burst(18, 6);
            && p.min == 2 * p.wcet && Sound(q, p) && CanRun(q, [first, second, third], p, 0)
            && AfterRun(q, [first, second], p) == [Refill(16, 2), Refill(25, 5), Refill(26, 2)]
            && AfterRun(q, [first, second, third], p) == [Refill(29, 7), Refill(28, 2)]
            && !Ordered(AfterRun(q, [first, second, third], p))
  {
    FirstBurst();
    SecondBurst();
    ThirdBurst();
    RunThree([Refill(0, 9)], [Refill(15, 4), Refill(25, 5)], [Refill(16, 2), Refill(25, 5), Refill(26, 2)],
             [Refill(29, 7), Refill(28, 2)], Burst(0, 14), Burst(16, 2), Burst(18, 6), Params(10, 2, 5, 1));
    var late := [Refill(29, 7), Refill(28, 2)];
    assert late[0].time > late[1].time;
  }

  lemma {:induction false} RunThree(q: Refills, q1: Refills, q2: Refills, q3: Refills, b1: Burst, b2: Burst, b3: Burst,
                                    p: Params)
    requires Sound(q, p) && Billed(q, b1, p) == q1 && Ready(q, b1.start, p.wcet)
    requires Sound(q1, p) && Billed(q1, b2, p) == q2 && Ready(q1, b2.start, p.wcet) && b1.start + b1.usage <= b2.start
    requires Sound(q2, p) && Billed(q2, b3, p) == q3 && Ready(q2, b3.start, p.wcet) && b2.start + b2.usage <= b3.start
    ensures Sound(q3, p) && CanRun(q, [b1, b2, b3], p, 0)
    ensures AfterRun(q, [b1, b2], p) == q2 && AfterRun(q, [b1, b2, b3], p) == q3
  {
    RunStep(q2, q3, b3, [b3], [], p, b2.start + b2.usage);
    RunStep(q1, q2, b2, [b2, b3], [b3], p, b1.start + b1.usage);
    RunStep(q, q1, b1, [b1, b2, b3], [b2, b3], p, 0);
    RunStep(q1, q2, b2, [b2], [], p, b1.start + b1.usage);
    RunStep(q, q1, b1, [b1, b2], [b2], p, 0);
  }

  lemma {:induction false} RunStep(q: Refills, r: Refills, b: Burst, bursts: seq<Burst>, rest: seq<Burst>, p: Params,
                                   now: nat)
    requires Sound(q, p) && Sound(r, p) && Billed(q, b, p) == r && bursts == [b] + rest
    requires now <= b.start && Ready(q, b.start, p.wcet)
    ensures AfterRun(q, bursts, p) == AfterRun(r, rest, p)
    ensures CanRun(q, bursts, p, now) <==> CanRun(r, rest, p, b.start + b.usage)
  {
    assert bursts[1..] == rest;
  }

  lemma {:induction false} FirstBurst()
    ensures var p, q := Params(10, 2, 5, 1), [Refill(0, 9)];
            Sound(q, p) && Billed(q, Burst(0, 14), p) == [Refill(15, 4), Refill(25, 5)]
  {
    var q := [Refill(0, 9)];
    assert UnblockCheck(q, 0, 1) == q;
    assert Exhaust([Refill(10, 9)], 5, 10, 2) == ([Refill(10, 9)], 5);
    assert ExhaustHead(q, 10, 2) == [Refill(10, 9)];
    assert Overrun([Refill(10, 9)], 5) == [Refill(15, 9)];
    assert SplitCheck([Refill(15, 9)], 5, 10, 2, 5) == [Refill(15, 4), Refill(25, 5)];
  }

  lemma {:induction false} SecondBurst()
    ensures var p, q := Params(10, 2, 5, 1), [Refill(15, 4), Refill(25, 5)];
            Sound(q, p) && Billed(q, Burst(16, 2), p) == [Refill(16, 2), Refill(25, 5), Refill(26, 2)]
  {
    var q, woken := [Refill(15, 4), Refill(25, 5)], [Refill(16, 4), Refill(25, 5)];
    assert q[1..] == [Refill(25, 5)] && [Refill(16, 4)] + q[1..] == woken;
    assert UnblockCheck(q, 16, 1) == woken;
    assert WithHead(woken, 2) == [Refill(16, 2), Refill(25, 5)];
    assert SplitCheck(woken, 2, 10, 2, 5) == [Refill(16, 2), Refill(25, 5), Refill(26, 2)];
  }

  lemma {:induction false} ThirdBurst()
    ensures var p, q := Params(10, 2, 5, 1), [Refill(16, 2), Refill(25, 5), Refill(26, 2)];
            Sound(q, p) && Billed(q, Burst(18, 6), p) == [Refill(29, 7), Refill(28, 2)]
  {
    var q, woken := [Refill(16, 2), Refill(25, 5), Refill(26, 2)], [Refill(18, 2), Refill(25, 5), Refill(26, 2)];
    var e := [Refill(25, 5), Refill(26, 2), Refill(28, 2)];
    assert q[1..] == [Refill(25, 5), Refill(26, 2)] == woken[1..];
    assert [Refill(18, 2)] + q[1..] == woken;
    assert UnblockCheck(q, 18, 1) == woken;
    assert woken[1..] + [Refill(28, 2)] == e;
    assert ExhaustHead(woken, 10, 2) == e;
    assert Exhaust(e, 4, 10, 2) == (e, 4);
    assert [Refill(29, 7)] + e[2..] == [Refill(29, 7), Refill(28, 2)];
    assert Overrun(e, 4) == [Refill(29, 7), Refill(28, 2)];
  }

  // ----- the budget comes back in time -----

  /** Every refill is due by `d`. */
  ghost predicate AllBy(q: seq<Refill>, d: nat) {
    forall i :: 0 <= i < |q| ==> q[i].time <= d
  }

  lemma {:induction false} ScheduleUsedBy(q: Refills, added: Refill, min: nat, d: nat)
    requires AllBy(q, d) && added.time <= d
    ensures AllBy(ScheduleUsed(q, added, min), d)
  {
  }

  lemma {:induction false} EnsureSufficientBy(q: Refills, min: nat, max: nat, d: nat)
    requires Sum(q) >= min && 2 <= max && |q| <= max && AllBy(q, d)
    ensures AllBy(EnsureSufficient(q, min, max), d)
    decreases |q|
  {
    if q[0].amount < min || |q| == max {
      assert |q| > 1;
      EnsureSufficientBy(PopInto(q, q[0].amount), min, max, d);
    }
  }

  /** Whatever is charged to the head comes back no later than the rest, or a period after the head was due. */
  lemma {:induction false} SplitCheckBy(q: Refills, usage: nat, period: nat, min: nat, max: nat, d: nat)
    requires usage <= q[0].amount && Sum(q) >= min && 2 <= max && |q| <= max && AllBy(q, d) && q[0].time + period <= d
    ensures AllBy(SplitCheck(q, usage, period, min, max), d)
  {
    var added := Refill(q[0].time + period, usage);
    if |q| == max || q[0].amount - usage < min {
      if |q| > 1 {
        var rest := SplitMergeRest(q, usage, period, min, max);
        ScheduleUsedBy(rest, added, min, d);
        EnsureSufficientBy(ScheduleUsed(rest, added, min), min, max, d);
      }
    } else {
      ScheduleUsedBy(WithHead(q, q[0].amount - usage), added, min, d);
    }
  }

  lemma {:induction false} ExhaustHeadBy(q: Refills, period: nat, min: nat, d: nat)
    requires AllBy(q, d) && q[0].time + period <= d
    ensures AllBy(ExhaustHead(q, period, min), d)
  {
    if |q| > 1 { ScheduleUsedBy(q[1..], Refill(q[0].time + period, q[0].amount), min, d); }
  }

  /** Below the total, what the exhausting loop uses up comes back a period after it was due. */
  lemma {:induction false} ExhaustBy(q: Refills, usage: nat, period: nat, min: nat, k: nat, d: nat)
    requires UsesUp(q, usage, k) && Sum(q) > 0 && AllBy(q, d)
    requires forall i :: 0 <= i < k ==> q[i].time + period <= d
    ensures AllBy(Exhaust(q, usage, period, min).0, d)
    decreases k
  {
    SumPrefix(q, k + 1);
    if k == 0 {
      SumSplitFirst(q, 1);
    } else {
      ExhaustHeadBy(q, period, min, d);
      ExhaustHeadReads(q, period, min, k);
      SumSplitFirst(q, k + 1);
      SumSplitFirst(q, k);
      var r := ExhaustHead(q, period, min);
      assert forall i :: 0 <= i < k - 1 ==> r[i] == q[i + 1];
      ExhaustBy(r, usage - q[0].amount, period, min, k - 1, d);
    }
  }

  lemma {:induction false} ExhaustHeadOrdered(q: Refills, period: nat, min: nat)
    requires Ordered(q)
    ensures Ordered(ExhaustHead(q, period, min)) && ExhaustHead(q, period, min)[0].time >= q[0].time
  {
    if |q| > 1 {
      ScheduleUsedOrdered(q[1..], Refill(q[0].time + period, q[0].amount), min);
      ScheduledHead(q[1..], Refill(q[0].time + period, q[0].amount), min);
    }
  }

  /** However much is used, it comes back within a period of the head that the loop leaves. */
  lemma {:induction false} ExhaustWithin(q: Refills, usage: nat, period: nat, min: nat, d: nat)
    requires Sum(q) > 0 && Ordered(q) && AllBy(q, d) && Exhaust(q, usage, period, min).0[0].time + period <= d
    ensures AllBy(Exhaust(q, usage, period, min).0, d) && Exhaust(q, usage, period, min).0[0].time >= q[0].time
    decreases usage, ZeroPrefix(q)
  {
    if q[0].amount <= usage {
      var r := ExhaustHead(q, period, min);
      ExhaustHeadOrdered(q, period, min);
      ExhaustLater(r, usage - q[0].amount, period, min);
      ExhaustHeadBy(q, period, min, d);
      ExhaustWithin(r, usage - q[0].amount, period, min, d);
    }
  }

  lemma {:induction false} ExhaustLater(q: Refills, usage: nat, period: nat, min: nat)
    requires Sum(q) > 0 && Ordered(q)
    ensures Exhaust(q, usage, period, min).0[0].time >= q[0].time
    decreases usage, ZeroPrefix(q)
  {
    if q[0].amount <= usage {
      ExhaustHeadOrdered(q, period, min);
      ExhaustLater(ExhaustHead(q, period, min), usage - q[0].amount, period, min);
    }
  }

  lemma {:induction false} ChargeBy(q: Refills, u: nat, period: nat, min: nat, max: nat, now: nat, wcet: nat, d: nat)
    requires Sum(q) >= min && 2 <= max && |q| <= max && AllBy(q, d) && q[0].time + period <= d
    ensures AllBy(Charge(q, u, period, min, max, now, wcet), d)
  {
    if Capacity(q[0], u) > 0 && Ready(q, now, wcet) {
      SplitCheckBy(q, u, period, min, max, d);
      EnsureSufficientBy(SplitCheck(q, u, period, min, max), min, max, d);
    } else {
      EnsureSufficientBy(q, min, max, d);
    }
  }

  /** When the budget check has everything back: no later than the rest, or a period after the head was due; if that
      is used up, a period after the next head and the overrun. */
  function BackBy(q: Refills, usage: nat, period: nat, min: nat): nat
    requires Sum(q) > 0
  {
    if Capacity(q[0], usage) > 0 then q[0].time + period
    else
      var (e, u) := Exhaust(q, usage, period, min);
      e[0].time + u + period
  }

  lemma {:induction false} BudgetCheckBy(q: Refills, usage: nat, period: nat, min: nat, max: nat, now: nat, wcet: nat,
                                         d: nat)
    requires Sum(q) >= min && Sum(q) > 0 && 2 <= max && |q| <= max && Ordered(q)
    requires AllBy(q, d) && BackBy(q, usage, period, min) <= d
    ensures AllBy(BudgetCheck(q, usage, period, min, max, now, wcet), d)
  {
    if Capacity(q[0], usage) == 0 {
      var (e, u) := Exhaust(q, usage, period, min);
      ExhaustWithin(q, usage, period, min, d);
      ChargeBy(Overrun(e, u), u, period, min, max, now, wcet, d);
    } else {
      ChargeBy(q, usage, period, min, max, now, wcet, d);
    }
  }

  /** The queue after a run of charges. */
  ghost function AfterCharges(q: Refills, usages: seq<nat>, period: nat, min: nat, max: nat): Refills
    requires CanCharge(q, usages, period, min, max)
    decreases |usages|
  {
    if usages == [] then q
    else AfterCharges(SplitCheck(q, usages[0], period, min, max), usages[1..], period, min, max)
  }

  lemma {:induction false} UsableAll(q: seq<Refill>, d: nat)
    requires AllBy(q, d)
    ensures UsableBefore(q, d + 1) == Sum(q)
  {
    if q != [] { UsableAll(q[1..], d); }
  }

  /** All refills are due within a period of the first. */
  ghost predicate Windowed(q: Refills, period: nat) {
    Ordered(q) && AllBy(q, q[0].time + period)
  }

  /** One charge of a run. */
  lemma {:induction false} ChargedOnce(q: Refills, usages: seq<nat>, period: nat, min: nat, max: nat)
    returns (r: Refills)
    requires usages != [] && CanCharge(q, usages, period, min, max) && Windowed(q, period)
    ensures Windowed(r, period) && Sum(r) == Sum(q) && CanCharge(r, usages[1..], period, min, max)
    ensures AfterCharges(q, usages, period, min, max) == AfterCharges(r, usages[1..], period, min, max)
  {
    SplitCheckBy(q, usages[0], period, min, max, q[0].time + period);
    SplitCheckOrdered(q, usages[0], period, min, max);
    r := SplitCheck(q, usages[0], period, min, max);
  }

  lemma {:induction false} ChargesWindow(q: Refills, usages: seq<nat>, period: nat, min: nat, max: nat)
    requires CanCharge(q, usages, period, min, max) && Windowed(q, period)
    ensures var r := AfterCharges(q, usages, period, min, max);
            Windowed(r, period) && Sum(r) == Sum(q)
    decreases |usages|
  {
    if usages != [] {
      var r := ChargedOnce(q, usages, period, min, max);
      ChargesWindow(r, usages[1..], period, min, max);
    }
  }

  /** The other side of the sliding window: after any run of charges, the whole budget is usable again within a period
      of when the head is. */
  lemma {:induction false} BudgetReturns(q: Refills, usages: seq<nat>, period: nat, min: nat, max: nat)
    requires CanCharge(q, usages, period, min, max) && Windowed(q, period)
    ensures var r := AfterCharges(q, usages, period, min, max);
            UsableBefore(r, r[0].time + period + 1) == Sum(q)
  {
    var r := AfterCharges(q, usages, period, min, max);
    ChargesWindow(q, usages, period, min, max);
    UsableAll(r, r[0].time + period);
  }

  lemma {:induction false} UnblockBy(q: Refills, now: nat, wcet: nat, d: nat)
    requires AllBy(q, d) && now <= d
    ensures AllBy(UnblockCheck(q, now, wcet), d)
  {
    if Ready(q, now, wcet) { MergeBy([q[0].(time := now)] + q[1..], now, d); }
  }

  lemma {:induction false} MergeBy(q: Refills, now: nat, d: nat)
    requires q[0].time == now && AllBy(q, d)
    ensures AllBy(MergeOverlapping(q, now), d)
    decreases |q|
  {
    if |q| > 1 && q[1].time <= q[0].time + q[0].amount {
      MergeBy([Refill(now, q[1].amount + q[0].amount)] + q[2..], now, d);
    }
  }

  /** When everything is back after a burst. */
  function BurstBackBy(q: Refills, b: Burst, p: Params): nat
    requires Sum(q) > 0
  {
    BackBy(UnblockCheck(q, b.start, p.wcet), b.usage, p.period, p.min)
  }

  lemma {:induction false} BilledBy(q: Refills, b: Burst, p: Params, d: nat)
    requires Sound(q, p) && Ordered(q) && AllBy(q, d) && b.start <= d && BurstBackBy(q, b, p) <= d
    ensures AllBy(Billed(q, b, p), d)
  {
    var woken := UnblockCheck(q, b.start, p.wcet);
    UnblockBy(q, b.start, p.wcet, d);
    UnblockCheckOrdered(q, b.start, p.wcet);
    if Capacity(woken[0], b.usage) >= p.min && |woken| < p.max {
      SplitCheckBy(woken, b.usage, p.period, p.min, p.max, d);
    } else {
      BudgetCheckBy(woken, b.usage, p.period, p.min, p.max, b.start + b.usage, p.wcet, d);
    }
  }

  /** Each burst starts and has everything back by `d`. */
  ghost predicate AllBackBy(q: Refills, bursts: seq<Burst>, p: Params, d: nat)
    requires Sound(q, p)
    decreases |bursts|
  {
    bursts != [] ==>
      bursts[0].start <= d && BurstBackBy(q, bursts[0], p) <= d && AllBackBy(Billed(q, bursts[0], p), bursts[1..], p, d)
  }

  /** Over every run in which the refills stay in order, the budget is back by the latest of these times. */
  lemma {:induction false} RunReturns(q: Refills, bursts: seq<Burst>, p: Params, d: nat)
    requires Sound(q, p) && OrderedThroughout(q, bursts, p) && AllBy(q, d) && AllBackBy(q, bursts, p, d)
    ensures AllBy(AfterRun(q, bursts, p), d) && UsableBefore(AfterRun(q, bursts, p), d + 1) == Sum(q)
    decreases |bursts|
  {
    if bursts == [] {
      UsableAll(q, d);
    } else {
      BilledBy(q, bursts[0], p, d);
      RunReturns(Billed(q, bursts[0], p), bursts[1..], p, d);
    }
  }

  /** A burst that does not use up the head has everything back a period after its start. */
  lemma {:induction false} WithinHeadBack(q: Refills, b: Burst, p: Params)
    requires Sum(q) > 0 && Ready(q, b.start, p.wcet) && b.usage < q[0].amount
    ensures BurstBackBy(q, b, p) == b.start + p.period
  {
  }

  // ----- what the loops do, read off the queue -----

  /** `ensure_sufficient_head` merges the first refills into the first place where they suffice and leave room. */
  lemma {:induction false} EnsureSufficientReads(q: Refills, min: nat, max: nat) returns (k: nat)
    requires Sum(q) >= min && 2 <= max && |q| <= max
    ensures k < |q| && Sum(q[..k + 1]) >= min && |q| - k < max
    ensures EnsureSufficient(q, min, max) == [Refill(q[k].time, Sum(q[..k + 1]))] + q[k + 1..]
    ensures k > 0 ==> Sum(q[..k]) < min || |q| - k + 1 == max
    decreases |q|
  {
    if q[0].amount < min || |q| == max {
      assert |q| > 1;
      var r := PopInto(q, q[0].amount);
      var j := EnsureSufficientReads(r, min, max);
      k := j + 1;
      PopReads(q, r, j);
      if j > 0 { PopReads(q, r, j - 1); }
    } else {
      k := 0;
      assert q[..1][1..] == [];
      assert q == [q[0]] + q[1..];
    }
    SumSplitFirst(q, 1);
  }

  lemma {:induction false} PopReads(q: Refills, r: Refills, j: nat)
    requires |q| > 1 && r == [q[1].(amount := q[1].amount + q[0].amount)] + q[2..] && j < |r|
    ensures Sum(r[..j + 1]) == Sum(q[..j + 2]) && r[j].time == q[j + 1].time && r[j + 1..] == q[j + 2..]
  {
    assert r[..j + 1][1..] == q[2..j + 2] && q[..j + 2][1..] == q[1..j + 2] && q[1..j + 2][1..] == q[2..j + 2];
  }

  /** The merging loop of `refill_unblock_check` takes up exactly the refills that are due before those in front of them
      are used. */
  lemma {:induction false} UnblockReads(q: Refills, now: nat, wcet: nat) returns (k: nat)
    requires q[0].time <= now + wcet
    ensures 0 < k <= |q| && UnblockCheck(q, now, wcet) == [Refill(now, Sum(q[..k]))] + q[k..]
    ensures forall i :: 0 < i < k ==> q[i].time <= now + Sum(q[..i])
    ensures k < |q| ==> q[k].time > now + Sum(q[..k])
  {
    var r := [q[0].(time := now)] + q[1..];
    k := MergeReads(r, now);
    forall i | 0 < i <= |q| ensures Sum(r[..i]) == Sum(q[..i]) {
      assert r[..i][1..] == q[..i][1..];
    }
    assert r[k..] == q[k..];
  }

  lemma {:induction false} MergeReads(q: Refills, now: nat) returns (k: nat)
    requires q[0].time == now
    ensures 0 < k <= |q| && MergeOverlapping(q, now) == [Refill(now, Sum(q[..k]))] + q[k..]
    ensures forall i :: 0 < i < k ==> q[i].time <= now + Sum(q[..i])
    ensures k < |q| ==> q[k].time > now + Sum(q[..k])
    decreases |q|
  {
    SumSplitFirst(q, 1);
    if |q| > 1 && q[1].time <= q[0].time + q[0].amount {
      var r := [Refill(now, q[1].amount + q[0].amount)] + q[2..];
      var j := MergeReads(r, now);
      k := j + 1;
      forall i | 0 < i <= j ensures Sum(r[..i]) == Sum(q[..i + 1]) { MergedSum(q, r, i); }
      MergedTimes(q, r, now, j);
      assert r[j..] == q[k..];
    } else {
      k := 1;
      assert q == [q[0]] + q[1..];
    }
  }

  lemma {:induction false} MergedSum(q: Refills, r: Refills, i: nat)
    requires |q| > 1 && |r| == |q| - 1 && r[0].amount == q[1].amount + q[0].amount && r[1..] == q[2..] && 0 < i <= |r|
    ensures Sum(r[..i]) == Sum(q[..i + 1])
  {
    assert r[..i][1..] == q[2..i + 1] && q[..i + 1][1..] == q[1..i + 1] && q[1..i + 1][1..] == q[2..i + 1];
  }

  lemma {:induction false} MergedTimes(q: Refills, r: Refills, now: nat, j: nat)
    requires |q| > 1 && |r| == |q| - 1 && r[0].amount == q[1].amount + q[0].amount && r[1..] == q[2..] && 0 < j <= |r|
    requires q[1].time <= now + q[0].amount && forall i :: 0 < i < j ==> r[i].time <= now + Sum(r[..i])
    ensures forall i :: 0 < i <= j ==> q[i].time <= now + Sum(q[..i])
  {
    forall i | 0 < i <= j ensures q[i].time <= now + Sum(q[..i]) {
      if i == 1 {
        SumSplitFirst(q, 1);
      } else {
        MergedSum(q, r, i - 1);
        assert r[i - 1] == r[1..][i - 2] == q[2..][i - 2] == q[i];
      }
    }
  }

  /** An amount that suffices delays nothing else; a smaller one delays the last refill at most. */
  lemma {:induction false} ScheduleUsedExact(q: Refills, added: Refill, min: nat, d: nat)
    ensures var r := ScheduleUsed(q, added, min);
            var back := if Max(added.time, Last(q).time) < d then added.amount else 0;
            && (added.amount >= min || |q| == 1 ==> UsableBefore(r, d) == UsableBefore(q, d) + back)
            && (added.amount < min && |q| > 1 ==> |r| == |q| && r[..|q| - 1] == q[..|q| - 1])
  {
    var n := |q| - 1;
    if added.amount < min && |q| > 1 {
    } else if added.time <= q[n].time {
      UsableReplaceLast(q, q[n].(amount := q[n].amount + added.amount), d);
    } else {
      UsableAppend(q, added, d);
    }
  }

  /** A charge that leaves enough at the head, and is enough by itself, moves just what was used. */
  lemma {:induction false} SplitCheckExact(q: Refills, usage: nat, period: nat, min: nat, max: nat, d: nat)
    requires min <= usage && usage + min <= q[0].amount && Sum(q) >= min && 2 <= max && |q| < max
    ensures var r := SplitCheck(q, usage, period, min, max);
            var back := if Max(q[0].time + period, Last(q).time) < d then usage else 0;
            UsableBefore(r, d) + (if q[0].time < d then usage else 0) == UsableBefore(q, d) + back
  {
    var kept := WithHead(q, q[0].amount - usage);
    WithHeadUsable(q, q[0].amount - usage, d);
    ScheduleUsedExact(kept, Refill(q[0].time + period, usage), min, d);
    assert Last(kept).time == Last(q).time;
  }
}
