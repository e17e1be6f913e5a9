/** Doubly linked queues of threads, as the ready queues and the endpoint queues use them
    (kernel/src/object/tcb.c, kernel/include/object/tcb.h). Threads are known by their addresses; 0 is the
    null pointer. */
module TcbQueues {

  type Ref = nat

  /** The link fields of a thread. */
  datatype Links = Links(prev: Ref, next: Ref)

  datatype Queue = Queue(head: Ref, end: Ref)

  const EmptyQueue := Queue(0, 0)

  type LinkMap = map<Ref, Links>

  /** What stands before and after position `i`. */
  function Before(s: seq<Ref>, i: nat): Ref
    requires i <= |s|
  {
    if i == 0 then 0 else s[i - 1]
  }

  function After(s: seq<Ref>, i: nat): Ref
    requires i <= |s|
  {
    if i == |s| then 0 else s[i]
  }

  ghost predicate LinkedAt(links: LinkMap, s: seq<Ref>, i: nat)
    requires i < |s|
  {
    s[i] != 0 && s[i] in links && links[s[i]] == Links(Before(s, i), After(s, i + 1))
  }

  ghost predicate Distinct(s: seq<Ref>) {
    forall i, j :: 0 <= i < j < |s| ==> s[i] != s[j]
  }

  /** The queue holds the threads `s` in this order. */
  ghost predicate Holds(links: LinkMap, q: Queue, s: seq<Ref>) {
    && q == Queue(After(s, 0), Before(s, |s|)) && Distinct(s)
    && forall i {:trigger LinkedAt(links, s, i)} :: 0 <= i < |s| ==> LinkedAt(links, s, i)
  }

  // ---------------------------------------------------------------- inserting

  /** `t` between `before` and `after`. */
  function InsertLinks(links: LinkMap, t: Ref, before: Ref, after: Ref): LinkMap
    requires (before == 0 || before in links) && (after == 0 || after in links)
  {
    var left := if before == 0 then links else links[before := links[before].(next := t)];
    var right := if after == 0 then left else left[after := left[after].(prev := t)];
    right[t := Links(before, after)]
  }

  function InsertEnds(q: Queue, t: Ref, before: Ref, after: Ref): Queue {
    Queue(if before == 0 then t else q.head, if after == 0 then t else q.end)
  }

  function InsertAt(s: seq<Ref>, i: nat, t: Ref): seq<Ref>
    requires i <= |s|
  {
    s[..i] + [t] + s[i..]
  }

  lemma InsertDistinct(s: seq<Ref>, i: nat, t: Ref)
    requires i <= |s| && Distinct(s) && forall k :: 0 <= k < |s| ==> s[k] != t
    ensures Distinct(InsertAt(s, i, t))
  {
  }

  lemma InsertKeeps(s: seq<Ref>, i: nat, t: Ref, u: Ref)
    requires i <= |s|
    ensures u in InsertAt(s, i, t) <==> u == t || u in s
  {
    assert s == s[..i] + s[i..];
  }

  /** A neighbour's links are those of a thread in the queue. */
  lemma Neighbours(links: LinkMap, q: Queue, s: seq<Ref>, i: nat)
    requires Holds(links, q, s) && i <= |s|
    ensures Before(s, i) == 0 <==> i == 0
    ensures After(s, i) == 0 <==> i == |s|
    ensures i > 0 ==> LinkedAt(links, s, i - 1)
    ensures i < |s| ==> LinkedAt(links, s, i)
  {
    assert i > 0 ==> LinkedAt(links, s, i - 1);
    assert i < |s| ==> LinkedAt(links, s, i);
  }

  lemma InsertLinkedAt(links: LinkMap, q: Queue, s: seq<Ref>, i: nat, t: Ref, k: nat)
    requires Holds(links, q, s) && i <= |s| && t != 0 && k <= |s| && forall j :: 0 <= j < |s| ==> s[j] != t
    requires (Before(s, i) == 0 || Before(s, i) in links) && (After(s, i) == 0 || After(s, i) in links)
    ensures LinkedAt(InsertLinks(links, t, Before(s, i), After(s, i)), InsertAt(s, i, t), k)
  {
    var u := InsertAt(s, i, t);
    Neighbours(links, q, s, i);
    if k < i {
      assert LinkedAt(links, s, k);
      assert u[k] == s[k];
    } else if k > i {
      assert LinkedAt(links, s, k - 1);
      assert u[k] == s[k - 1];
    }
  }

  /** Linking a thread in between two neighbours inserts it there, and touches no other thread. */
  lemma InsertHolds(links: LinkMap, q: Queue, s: seq<Ref>, i: nat, t: Ref)
    requires Holds(links, q, s) && i <= |s| && t != 0 && forall k :: 0 <= k < |s| ==> s[k] != t
    ensures (Before(s, i) == 0 || Before(s, i) in links) && (After(s, i) == 0 || After(s, i) in links)
    ensures Holds(InsertLinks(links, t, Before(s, i), After(s, i)), InsertEnds(q, t, Before(s, i), After(s, i)),
                  InsertAt(s, i, t))
  {
    Neighbours(links, q, s, i);
    InsertDistinct(s, i, t);
    forall k | 0 <= k < |InsertAt(s, i, t)|
      ensures LinkedAt(InsertLinks(links, t, Before(s, i), After(s, i)), InsertAt(s, i, t), k)
    {
      InsertLinkedAt(links, q, s, i, t, k);
    }
  }

  // ---------------------------------------------------------------- removing

  /** tcbEPDequeue and the link part of tcbSchedDequeue */
  function RemoveLinks(links: LinkMap, t: Ref): LinkMap
    requires t in links && (links[t].prev == 0 || links[t].prev in links)
    requires (links[t].next == 0 || links[t].next in links)
  {
    var p, n := links[t].prev, links[t].next;
    var left := if p == 0 then links else links[p := links[p].(next := n)];
    if n == 0 then left else left[n := left[n].(prev := p)]
  }

  function RemoveEnds(q: Queue, l: Links): Queue {
    Queue(if l.prev == 0 then l.next else q.head, if l.next == 0 then l.prev else q.end)
  }

  function RemoveAt(s: seq<Ref>, i: nat): seq<Ref>
    requires i < |s|
  {
    s[..i] + s[i + 1..]
  }

  lemma RemoveKeeps(s: seq<Ref>, i: nat, u: Ref)
    requires i < |s| && u != s[i]
    ensures u in RemoveAt(s, i) <==> u in s
  {
    assert s == s[..i] + [s[i]] + s[i + 1..];
  }

  lemma RemoveReady(links: LinkMap, q: Queue, s: seq<Ref>, i: nat)
    requires Holds(links, q, s) && i < |s|
    ensures s[i] in links && links[s[i]] == Links(Before(s, i), After(s, i + 1))
    ensures (links[s[i]].prev == 0 || links[s[i]].prev in links) && (links[s[i]].next == 0 || links[s[i]].next in links)
  {
    assert LinkedAt(links, s, i);
    Neighbours(links, q, s, i);
    Neighbours(links, q, s, i + 1);
  }

  lemma RemoveLinkedAt(links: LinkMap, q: Queue, s: seq<Ref>, i: nat, k: nat)
    requires Holds(links, q, s) && i < |s| && k < |s| - 1 && s[i] in links
    requires links[s[i]] == Links(Before(s, i), After(s, i + 1))
    requires (links[s[i]].prev == 0 || links[s[i]].prev in links)
    requires (links[s[i]].next == 0 || links[s[i]].next in links)
    ensures LinkedAt(RemoveLinks(links, s[i]), RemoveAt(s, i), k)
  {
    var u := RemoveAt(s, i);
    Neighbours(links, q, s, i);
    Neighbours(links, q, s, i + 1);
    if k < i {
      assert LinkedAt(links, s, k);
      assert u[k] == s[k];
    } else {
      assert LinkedAt(links, s, k + 1);
      assert u[k] == s[k + 1];
    }
  }

  /** Unlinking a thread takes it out of the queue, and touches no other thread. */
  lemma RemoveHolds(links: LinkMap, q: Queue, s: seq<Ref>, i: nat)
    requires Holds(links, q, s) && i < |s|
    ensures s[i] in links && (links[s[i]].prev == 0 || links[s[i]].prev in links)
    ensures (links[s[i]].next == 0 || links[s[i]].next in links)
    ensures Holds(RemoveLinks(links, s[i]), RemoveEnds(q, links[s[i]]), RemoveAt(s, i))
  {
    RemoveReady(links, q, s, i);
    Neighbours(links, q, s, i);
    Neighbours(links, q, s, i + 1);
    forall k | 0 <= k < |RemoveAt(s, i)| ensures LinkedAt(RemoveLinks(links, s[i]), RemoveAt(s, i), k) {
      RemoveLinkedAt(links, q, s, i, k);
    }
  }

  // ---------------------------------------------------------------- other queues

  /** The links of all threads outside `s` are the same. */
  ghost predicate OnlyIn(links: LinkMap, after: LinkMap, s: seq<Ref>) {
    links.Keys <= after.Keys && forall x :: x in links && x !in s ==> after[x] == links[x]
  }

  lemma InsertOnlyIn(links: LinkMap, q: Queue, s: seq<Ref>, i: nat, t: Ref)
    requires Holds(links, q, s) && i <= |s|
    ensures (Before(s, i) == 0 || Before(s, i) in links) && (After(s, i) == 0 || After(s, i) in links)
    ensures OnlyIn(links, InsertLinks(links, t, Before(s, i), After(s, i)), s + [t])
  {
    Neighbours(links, q, s, i);
  }

  lemma RemoveOnlyIn(links: LinkMap, q: Queue, s: seq<Ref>, i: nat)
    requires Holds(links, q, s) && i < |s|
    ensures s[i] in links && (links[s[i]].prev == 0 || links[s[i]].prev in links)
    ensures (links[s[i]].next == 0 || links[s[i]].next in links)
    ensures OnlyIn(links, RemoveLinks(links, s[i]), s)
  {
    RemoveReady(links, q, s, i);
    Neighbours(links, q, s, i);
    Neighbours(links, q, s, i + 1);
  }

  lemma OtherHolds(links: LinkMap, after: LinkMap, changed: seq<Ref>, q: Queue, s: seq<Ref>)
    requires Holds(links, q, s) && OnlyIn(links, after, changed) && forall k :: 0 <= k < |s| ==> s[k] !in changed
    ensures Holds(after, q, s)
  {
    forall i | 0 <= i < |s| ensures LinkedAt(after, s, i) {
      assert LinkedAt(links, s, i);
    }
  }

  /** A sequence without one of its elements. */
  function Without(s: seq<Ref>, t: Ref): seq<Ref> {
    if s == [] then [] else if s[0] == t then s[1..] else [s[0]] + Without(s[1..], t)
  }

  lemma {:induction false} WithoutAt(s: seq<Ref>, i: nat)
    requires i < |s| && Distinct(s)
    ensures Without(s, s[i]) == RemoveAt(s, i)
  {
    if i > 0 {
      WithoutAt(s[1..], i - 1);
      assert [s[0]] + RemoveAt(s[1..], i - 1) == RemoveAt(s, i);
    } else {
      assert RemoveAt(s, 0) == s[1..];
    }
  }

  lemma InsertFront(s: seq<Ref>, t: Ref)
    ensures InsertAt(s, 0, t) == [t] + s && InsertAt(s, |s|, t) == s + [t]
  {
    assert s[..0] == [] && s[0..] == s && s[..|s|] == s && s[|s|..] == [];
  }
}
