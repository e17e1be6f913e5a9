/** Reply objects and the call stacks they form (kernel/src/object/reply.c, kernel/include/object/reply.h,
    kernel/src/object/schedcontext.c). Objects are known by their addresses; 0 is the null pointer. */
module CallStacks {

  type Ref = nat

  datatype Run =
    | Inactive | Running | Restart | IdleState
    | BlockedOnSend | BlockedOnReceive | BlockedOnReply | BlockedOnNotification

  /** A thread: its scheduling context, and its state with the reply object recorded there. */
  datatype Tcb = Tcb(sc: Ref, run: Run, reply: Ref)

  /** A call stack pointer: to a reply object, or at the head of a stack to a scheduling context. */
  datatype Link = Link(ptr: Ref, isHead: bool)

  const NoLink := Link(0, false)

  /** A reply object: the thread waiting on it, the caller below it on the stack, and what is above. */
  datatype Reply = Reply(tcb: Ref, prev: Ref, next: Link)

  /** A scheduling context: the thread bound to it, and the reply object on top of its stack. */
  datatype SchedContext = SchedContext(tcb: Ref, reply: Ref)

  datatype State = State(tcbs: map<Ref, Tcb>, replies: map<Ref, Reply>, scs: map<Ref, SchedContext>)

  // ---------------------------------------------------------------- the invariant

  ghost predicate ReplyOk(st: State, r: Ref)
    requires r in st.replies
  {
    var reply := st.replies[r];
    && (reply.next.ptr == 0 ==> !reply.next.isHead)
    && (reply.next.ptr != 0 && reply.next.isHead ==> reply.next.ptr in st.scs && st.scs[reply.next.ptr].reply == r)
    && (reply.next.ptr != 0 && !reply.next.isHead ==>
        reply.next.ptr in st.replies && st.replies[reply.next.ptr].prev == r)
    && (reply.prev != 0 ==> reply.prev in st.replies && st.replies[reply.prev].next == Link(r, false))
    && (reply.tcb != 0 ==> reply.tcb in st.tcbs && st.tcbs[reply.tcb].reply == r)
    && (reply.tcb == 0 || st.tcbs[reply.tcb].run != BlockedOnReply ==> reply.prev == 0 && reply.next == NoLink)
  }

  ghost predicate TcbOk(st: State, t: Ref)
    requires t in st.tcbs
  {
    var tcb := st.tcbs[t];
    && (tcb.reply != 0 ==> tcb.reply in st.replies && st.replies[tcb.reply].tcb == t)
    && (tcb.reply != 0 ==> tcb.run == BlockedOnReceive || tcb.run == BlockedOnReply)
    && (tcb.run == BlockedOnReply ==> tcb.reply != 0)
    && (tcb.sc != 0 ==> tcb.sc in st.scs && st.scs[tcb.sc].tcb == t)
  }

  ghost predicate ScOk(st: State, s: Ref)
    requires s in st.scs
  {
    var sc := st.scs[s];
    && (sc.reply != 0 ==> sc.reply in st.replies && st.replies[sc.reply].next == Link(s, true))
    && (sc.tcb != 0 ==> sc.tcb in st.tcbs && st.tcbs[sc.tcb].sc == s)
  }

  /** Every link is mutual, and only threads waiting for a reply keep theirs on a stack. */
  ghost predicate Linked(st: State) {
    && 0 !in st.tcbs && 0 !in st.replies && 0 !in st.scs
    && (forall r {:trigger ReplyOk(st, r)} :: r in st.replies ==> ReplyOk(st, r))
    && (forall t {:trigger TcbOk(st, t)} :: t in st.tcbs ==> TcbOk(st, t))
    && (forall s {:trigger ScOk(st, s)} :: s in st.scs ==> ScOk(st, s))
  }

  /** How many callers are below a reply object. */
  type Depth = map<Ref, nat>

  ghost predicate Below(st: State, depth: Depth, r: Ref)
    requires r in st.replies
  {
    r in depth && (st.replies[r].prev != 0 ==> st.replies[r].prev in depth && depth[st.replies[r].prev] < depth[r])
  }

  /** Stacks do not run in circles. */
  ghost predicate Acyclic(st: State, depth: Depth) {
    forall r {:trigger Below(st, depth, r)} :: r in st.replies ==> Below(st, depth, r)
  }

  ghost predicate Inv(st: State, depth: Depth) {
    Linked(st) && Acyclic(st, depth)
  }

  // ---------------------------------------------------------------- the operations on values

  /** reply_unlink */
  function Unlink(st: State, r: Ref, t: Ref): State
    requires r in st.replies && t in st.tcbs
  {
    st.(tcbs := st.tcbs[t := st.tcbs[t].(reply := 0, run := Inactive)],
        replies := st.replies[r := st.replies[r].(tcb := 0)])
  }

  /** schedContext_donate, without its effect on the ready queues */
  function Donate(st: State, s: Ref, to: Ref): State
    requires s in st.scs && to in st.tcbs && (st.scs[s].tcb == 0 || st.scs[s].tcb in st.tcbs)
  {
    var from := st.scs[s].tcb;
    var tcbs := if from == 0 then st.tcbs else st.tcbs[from := st.tcbs[from].(sc := 0)];
    st.(tcbs := tcbs[to := tcbs[to].(sc := s)], scs := st.scs[s := st.scs[s].(tcb := to)])
  }

  /** The caller waits on `r`. */
  function Await(st: State, caller: Ref, callee: Ref, r: Ref): State
    requires caller in st.tcbs && callee in st.tcbs && r in st.replies
  {
    var tcbs := st.tcbs[callee := st.tcbs[callee].(reply := 0)];
    st.(tcbs := tcbs[caller := tcbs[caller].(reply := r, run := BlockedOnReply)],
        replies := st.replies[r := st.replies[r].(tcb := caller)])
  }

  /** `r` on top of the stack of `s`. */
  function Stack(st: State, s: Ref, r: Ref): State
    requires s in st.scs && r in st.replies && (st.scs[s].reply == 0 || st.scs[s].reply in st.replies)
  {
    var below := st.scs[s].reply;
    var replies := st.replies[r := st.replies[r].(prev := below)];
    var linked := if below == 0 then replies else replies[below := replies[below].(next := Link(r, false))];
    st.(replies := linked[r := linked[r].(next := Link(s, true))], scs := st.scs[s := st.scs[s].(reply := r)])
  }

  /** Whether reply_push hands over the caller's scheduling context. */
  predicate Donates(st: State, caller: Ref, callee: Ref, canDonate: bool)
    requires caller in st.tcbs && callee in st.tcbs
  {
    st.tcbs[caller].sc != 0 && st.tcbs[callee].sc == 0 && canDonate
  }

  predicate CanPush(st: State, caller: Ref, callee: Ref, r: Ref) {
    && caller in st.tcbs && callee in st.tcbs && r in st.replies && caller != callee
    && st.replies[r] == Reply(0, 0, NoLink) && st.tcbs[caller].reply == 0 && st.tcbs[callee].reply == 0
  }

  lemma AwaitLinked(st: State, caller: Ref, callee: Ref, r: Ref)
    requires Linked(st) && CanPush(st, caller, callee, r)
    ensures Linked(Await(st, caller, callee, r))
  {
    var u := Await(st, caller, callee, r);
    forall x | x in u.replies ensures ReplyOk(u, x) {
      assert ReplyOk(st, x);
    }
    forall t | t in u.tcbs ensures TcbOk(u, t) {
      assert TcbOk(st, t);
    }
    forall s | s in u.scs ensures ScOk(u, s) {
      assert ScOk(st, s);
    }
  }

  /** A reply object that waits for a thread and is on no stack. */
  ghost predicate Loose(st: State, r: Ref) {
    && r in st.replies && st.replies[r].prev == 0 && st.replies[r].next == NoLink
    && st.replies[r].tcb in st.tcbs && st.tcbs[st.replies[r].tcb].run == BlockedOnReply
  }

  lemma StackLinked(st: State, s: Ref, r: Ref)
    requires Linked(st) && Loose(st, r) && s in st.scs
    ensures ScOk(st, s)
    ensures Linked(Stack(st, s, r))
  {
    assert ScOk(st, s);
    var u := Stack(st, s, r);
    forall x | x in u.replies ensures ReplyOk(u, x) {
      assert ReplyOk(st, x);
    }
    forall t | t in u.tcbs ensures TcbOk(u, t) {
      assert TcbOk(st, t);
    }
    forall x | x in u.scs ensures ScOk(u, x) {
      assert ScOk(st, x);
    }
  }

  lemma DonateLinked(st: State, s: Ref, to: Ref)
    requires Linked(st) && s in st.scs && to in st.tcbs && st.tcbs[to].sc == 0
    ensures ScOk(st, s)
    ensures Linked(Donate(st, s, to))
  {
    assert ScOk(st, s);
    var u := Donate(st, s, to);
    forall x | x in u.replies ensures ReplyOk(u, x) {
      assert ReplyOk(st, x);
    }
    forall t | t in u.tcbs ensures TcbOk(u, t) {
      assert TcbOk(st, t);
    }
    forall x | x in u.scs ensures ScOk(u, x) {
      assert ScOk(st, x);
    }
  }

  /** reply_push */
  function Push(st: State, caller: Ref, callee: Ref, r: Ref, canDonate: bool): State
    requires caller in st.tcbs && callee in st.tcbs && r in st.replies
    requires var s := st.tcbs[caller].sc;
             s != 0 ==>
               s in st.scs && (st.scs[s].reply == 0 || st.scs[s].reply in st.replies)
                 && (st.scs[s].tcb == 0 || st.scs[s].tcb in st.tcbs)
  {
    var u := Await(st, caller, callee, r);
    var s := st.tcbs[caller].sc;
    if Donates(st, caller, callee, canDonate) then Donate(Stack(u, s, r), s, callee) else u
  }

  lemma PushInv(st: State, depth: Depth, caller: Ref, callee: Ref, r: Ref, canDonate: bool) returns (after: Depth)
    requires Inv(st, depth) && CanPush(st, caller, callee, r)
    ensures st.tcbs[caller].sc != 0 ==> TcbOk(st, caller) && ScOk(st, st.tcbs[caller].sc)
    ensures Inv(Push(st, caller, callee, r, canDonate), after)
  {
    assert TcbOk(st, caller);
    AwaitLinked(st, caller, callee, r);
    var u := Await(st, caller, callee, r);
    after := depth;
    forall x | x in u.replies ensures Below(u, depth, x) {
      assert Below(st, depth, x);
    }
    var s := st.tcbs[caller].sc;
    if s != 0 {
      assert ScOk(st, s);
      if Donates(st, caller, callee, canDonate) {
        StackLinked(u, s, r);
        after := StackAcyclic(u, depth, s, r);
        DonateLinked(Stack(u, s, r), s, callee);
        var v := Donate(Stack(u, s, r), s, callee);
        forall x | x in v.replies ensures Below(v, after, x) {
          assert Below(Stack(u, s, r), after, x);
        }
      }
    }
  }

  lemma StackAcyclic(st: State, depth: Depth, s: Ref, r: Ref) returns (after: Depth)
    requires Inv(st, depth) && Loose(st, r) && s in st.scs
    ensures ScOk(st, s)
    ensures Acyclic(Stack(st, s, r), after)
  {
    assert ScOk(st, s);
    var below := st.scs[s].reply;
    assert below != 0 ==> Below(st, depth, below);
    after := depth[r := if below == 0 then 0 else depth[below] + 1];
    var u := Stack(st, s, r);
    forall x | x in u.replies ensures Below(u, after, x) {
      assert ReplyOk(st, x) && ReplyOk(st, r) && Below(st, depth, x);
    }
  }

  /** Takes `r` off the top of its stack. */
  function Unstack(st: State, r: Ref): State
    requires r in st.replies && st.replies[r].next.ptr in st.scs
    requires (st.replies[r].prev == 0 || st.replies[r].prev in st.replies)
  {
    var next, prev := st.replies[r].next, st.replies[r].prev;
    var replies := if prev == 0 then st.replies else st.replies[prev := st.replies[prev].(next := next)];
    st.(scs := st.scs[next.ptr := st.scs[next.ptr].(reply := prev)],
        replies := replies[r := replies[r].(prev := 0, next := NoLink)])
  }

  /** reply_pop */
  function Pop(st: State, r: Ref, t: Ref): State
    requires Linked(st) && r in st.replies && t in st.tcbs
    requires (st.replies[r].next.ptr != 0 ==> st.replies[r].next.isHead)
  {
    assert ReplyOk(st, r);
    var u := Unlink(st, r, t);
    var s := st.replies[r].next.ptr;
    if s == 0 then u
    else
      assert ScOk(st, s);
      Unstack(if u.tcbs[t].sc == 0 then Donate(u, s, t) else u, r)
  }

  /** A thread waits for a reply on `r`. */
  predicate Waits(st: State, r: Ref, t: Ref) {
    r in st.replies && t in st.tcbs && st.replies[r].tcb == t && st.tcbs[t].run == BlockedOnReply
      && st.tcbs[t].reply == r
  }

  /** What the asserts of reply_pop demand. */
  predicate Poppable(st: State, r: Ref, t: Ref) {
    Waits(st, r, t) && (st.replies[r].next.ptr != 0 ==> st.replies[r].next.isHead)
  }

  /** The reply object is on top of a stack. */
  ghost predicate CanPop(st: State, r: Ref, t: Ref) {
    Linked(st) && Poppable(st, r, t) && st.replies[r].next.ptr != 0
  }

  lemma PopReplyOk(st: State, r: Ref, t: Ref, x: Ref)
    requires CanPop(st, r, t) && x in st.replies
    ensures x in Pop(st, r, t).replies && ReplyOk(Pop(st, r, t), x)
  {
    assert ReplyOk(st, r) && ScOk(st, st.replies[r].next.ptr) && TcbOk(st, t) && ReplyOk(st, x);
  }

  lemma PopTcbOk(st: State, r: Ref, t: Ref, x: Ref)
    requires CanPop(st, r, t) && x in st.tcbs
    ensures x in Pop(st, r, t).tcbs && TcbOk(Pop(st, r, t), x)
  {
    assert ReplyOk(st, r) && ScOk(st, st.replies[r].next.ptr) && TcbOk(st, t) && TcbOk(st, x);
  }

  lemma PopScOk(st: State, r: Ref, t: Ref, x: Ref)
    requires CanPop(st, r, t) && x in st.scs
    ensures x in Pop(st, r, t).scs && ScOk(Pop(st, r, t), x)
  {
    assert ReplyOk(st, r) && ScOk(st, st.replies[r].next.ptr) && TcbOk(st, t) && ScOk(st, x);
  }

  lemma PopInv(st: State, depth: Depth, r: Ref, t: Ref)
    requires Inv(st, depth) && CanPop(st, r, t)
    ensures Inv(Pop(st, r, t), depth)
  {
    var u := Pop(st, r, t);
    PopKeys(st, r, t);
    forall x | x in st.replies ensures ReplyOk(u, x) && Below(u, depth, x) {
      PopReplyOk(st, r, t, x);
      assert Below(st, depth, x);
    }
    forall x | x in st.tcbs ensures TcbOk(u, x) {
      PopTcbOk(st, r, t, x);
    }
    forall x | x in st.scs ensures ScOk(u, x) {
      PopScOk(st, r, t, x);
    }
  }

  /** reply_pop on a reply object that nothing is above keeps the links mutual exactly if nothing is below it
      either. */
  lemma PopInvIff(st: State, depth: Depth, r: Ref, t: Ref)
    requires Inv(st, depth) && Poppable(st, r, t)
    ensures Inv(Pop(st, r, t), depth) <==> st.replies[r].next.ptr != 0 || st.replies[r].prev == 0
  {
    assert ReplyOk(st, r);
    if st.replies[r].next.ptr != 0 {
      PopInv(st, depth, r, t);
    } else if st.replies[r].prev == 0 {
      UnlinkInv(st, depth, r, t);
    } else {
      assert !ReplyOk(Pop(st, r, t), r);
    }
  }

  /** Threads 1 and 2 wait on reply objects 10 and 11, with 10 below 11 and nothing above: pop on 11 satisfies the
      asserts, and leaves 11 without its thread and still on the stack. */
  lemma PopLosesThread()
    ensures var st := State(map[1 := Tcb(0, BlockedOnReply, 10), 2 := Tcb(0, BlockedOnReply, 11)],
                            map[10 := Reply(1, 0, Link(11, false)), 11 := Reply(2, 10, NoLink)], map[]);
            Inv(st, map[10 := 0, 11 := 1]) && Poppable(st, 11, 2) && !Linked(Pop(st, 11, 2))
  {
    var st := State(map[1 := Tcb(0, BlockedOnReply, 10), 2 := Tcb(0, BlockedOnReply, 11)],
                    map[10 := Reply(1, 0, Link(11, false)), 11 := Reply(2, 10, NoLink)], map[]);
    assert !ReplyOk(Pop(st, 11, 2), 11);
  }

  lemma PopKeys(st: State, r: Ref, t: Ref)
    requires CanPop(st, r, t)
    ensures Pop(st, r, t).tcbs.Keys == st.tcbs.Keys && Pop(st, r, t).replies.Keys == st.replies.Keys
    ensures Pop(st, r, t).scs.Keys == st.scs.Keys
  {
    assert ReplyOk(st, r) && ScOk(st, st.replies[r].next.ptr);
  }

  /** A donating push followed by pop gives everything back; the caller is left inactive. */
  lemma PushPop(st: State, depth: Depth, caller: Ref, callee: Ref, r: Ref)
    requires Inv(st, depth) && CanPush(st, caller, callee, r) && Donates(st, caller, callee, true)
    ensures TcbOk(st, caller) && ScOk(st, st.tcbs[caller].sc)
    ensures CanPop(Push(st, caller, callee, r, true), r, caller)
    ensures Pop(Push(st, caller, callee, r, true), r, caller)
            == st.(tcbs := st.tcbs[caller := st.tcbs[caller].(run := Inactive)])
  {
    assert TcbOk(st, caller);
    var s := st.tcbs[caller].sc;
    assert ScOk(st, s);
    var after := PushInv(st, depth, caller, callee, r, true);
    var u := Push(st, caller, callee, r, true);
    var v := Pop(u, r, caller);
    var below := st.scs[s].reply;
    assert below != 0 ==> ReplyOk(st, below);
    assert v.replies == st.replies;
    assert v.scs == st.scs;
    assert v.tcbs == st.tcbs[caller := st.tcbs[caller].(run := Inactive)];
  }

  /** Cuts the chain above and below `r`, which is not on top. */
  function Cut(st: State, r: Ref): State
    requires r in st.replies && !st.replies[r].next.isHead
    requires (st.replies[r].next.ptr == 0 || st.replies[r].next.ptr in st.replies)
    requires (st.replies[r].prev == 0 || st.replies[r].prev in st.replies)
  {
    var above, below := st.replies[r].next.ptr, st.replies[r].prev;
    var upper := if above == 0 then st.replies else st.replies[above := st.replies[above].(prev := 0)];
    var lower := if below == 0 then upper else upper[below := upper[below].(next := NoLink)];
    st.(replies := lower[r := lower[r].(prev := 0, next := NoLink)])
  }

  /** reply_remove */
  function Remove(st: State, r: Ref, t: Ref): State
    requires Linked(st) && Waits(st, r, t)
  {
    assert ReplyOk(st, r);
    if st.replies[r].next.ptr != 0 && st.replies[r].next.isHead then Pop(st, r, t)
    else Cut(Unlink(st, r, t), r)
  }

  /** The three parts of the invariant for a state with the same objects. */
  ghost predicate SameObjects(st: State, u: State) {
    u.tcbs.Keys == st.tcbs.Keys && u.replies.Keys == st.replies.Keys && u.scs.Keys == st.scs.Keys
  }

  /** Clears the links of `r` and both neighbours' links to it. */
  function Isolate(st: State, r: Ref): State
    requires Linked(st) && r in st.replies
  {
    assert ReplyOk(st, r);
    var next, below := st.replies[r].next, st.replies[r].prev;
    var scs := if next.ptr != 0 && next.isHead then st.scs[next.ptr := st.scs[next.ptr].(reply := 0)] else st.scs;
    var upper := if next.ptr != 0 && !next.isHead then st.replies[next.ptr := st.replies[next.ptr].(prev := 0)]
                 else st.replies;
    var lower := if below == 0 then upper else upper[below := upper[below].(next := NoLink)];
    st.(scs := scs, replies := lower[r := lower[r].(prev := 0, next := NoLink)])
  }

  lemma IsolateReplyOk(st: State, r: Ref, x: Ref)
    requires Linked(st) && r in st.replies && x in st.replies
    ensures x in Isolate(st, r).replies && ReplyOk(Isolate(st, r), x)
    ensures Isolate(st, r).replies[x].prev == st.replies[x].prev || Isolate(st, r).replies[x].prev == 0
  {
    assert ReplyOk(st, r) && ReplyOk(st, x);
  }

  lemma IsolateShape(st: State, r: Ref)
    requires Linked(st) && r in st.replies
    ensures SameObjects(st, Isolate(st, r)) && Isolate(st, r).tcbs == st.tcbs
    ensures Isolate(st, r).replies[r] == Reply(st.replies[r].tcb, 0, NoLink)
  {
    assert ReplyOk(st, r);
  }

  lemma IsolateTcbOk(st: State, r: Ref, x: Ref)
    requires Linked(st) && r in st.replies && x in st.tcbs
    ensures x in Isolate(st, r).tcbs && TcbOk(Isolate(st, r), x)
  {
    assert ReplyOk(st, r) && TcbOk(st, x);
  }

  lemma IsolateScOk(st: State, r: Ref, x: Ref)
    requires Linked(st) && r in st.replies && x in st.scs
    ensures x in Isolate(st, r).scs && ScOk(Isolate(st, r), x)
  {
    assert ReplyOk(st, r) && ScOk(st, x);
  }

  lemma IsolateInv(st: State, depth: Depth, r: Ref)
    requires Inv(st, depth) && r in st.replies
    ensures Inv(Isolate(st, r), depth)
  {
    var u := Isolate(st, r);
    IsolateShape(st, r);
    forall x | x in st.replies ensures ReplyOk(u, x) && Below(u, depth, x) {
      IsolateReplyOk(st, r, x);
      assert Below(st, depth, x);
    }
    forall x | x in st.tcbs ensures TcbOk(u, x) {
      IsolateTcbOk(st, r, x);
    }
    forall x | x in st.scs ensures ScOk(u, x) {
      IsolateScOk(st, r, x);
    }
  }

  lemma UnlinkInv(st: State, depth: Depth, r: Ref, t: Ref)
    requires Inv(st, depth) && r in st.replies && t in st.tcbs && st.replies[r] == Reply(t, 0, NoLink)
    ensures Inv(Unlink(st, r, t), depth)
  {
    assert ReplyOk(st, r);
    var u := Unlink(st, r, t);
    forall x | x in st.replies ensures ReplyOk(u, x) && Below(u, depth, x) {
      assert ReplyOk(st, x) && Below(st, depth, x);
    }
    forall x | x in st.tcbs ensures TcbOk(u, x) {
      assert TcbOk(st, x);
    }
    forall x | x in st.scs ensures ScOk(u, x) {
      assert ScOk(st, x);
    }
  }

  /** reply_remove_tcb */
  function RemoveTcb(st: State, t: Ref): State
    requires Linked(st) && t in st.tcbs && st.tcbs[t].run == BlockedOnReply
  {
    assert TcbOk(st, t);
    assert ReplyOk(st, st.tcbs[t].reply);
    Unlink(Isolate(st, st.tcbs[t].reply), st.tcbs[t].reply, t)
  }

  lemma RemoveTcbInv(st: State, depth: Depth, t: Ref)
    requires Inv(st, depth) && t in st.tcbs && st.tcbs[t].run == BlockedOnReply
    ensures Inv(RemoveTcb(st, t), depth)
  {
    assert TcbOk(st, t);
    IsolateInv(st, depth, st.tcbs[t].reply);
    IsolateShape(st, st.tcbs[t].reply);
    UnlinkInv(Isolate(st, st.tcbs[t].reply), depth, st.tcbs[t].reply, t);
  }

  /** Below the top of a stack, removing a reply and removing its thread are the same. */
  lemma RemoveAgrees(st: State, r: Ref, t: Ref)
    requires Linked(st) && Waits(st, r, t) && !st.replies[r].next.isHead
    ensures Remove(st, r, t) == RemoveTcb(st, t)
  {
    assert ReplyOk(st, r);
    assert Remove(st, r, t).replies == RemoveTcb(st, t).replies;
  }

  lemma RemoveInv(st: State, depth: Depth, r: Ref, t: Ref)
    requires Inv(st, depth) && Waits(st, r, t)
    ensures Inv(Remove(st, r, t), depth)
  {
    assert ReplyOk(st, r);
    if st.replies[r].next.isHead {
      PopInv(st, depth, r, t);
    } else {
      RemoveAgrees(st, r, t);
      RemoveTcbInv(st, depth, t);
    }
  }

  /** The thread of `s` loses it. */
  function UnbindTcb(st: State, s: Ref): State
    requires Linked(st) && s in st.scs
  {
    assert ScOk(st, s);
    var t := st.scs[s].tcb;
    if t == 0 then st
    else st.(tcbs := st.tcbs[t := st.tcbs[t].(sc := 0)], scs := st.scs[s := st.scs[s].(tcb := 0)])
  }

  lemma UnbindTcbInv(st: State, depth: Depth, s: Ref)
    requires Inv(st, depth) && s in st.scs
    ensures Inv(UnbindTcb(st, s), depth) && SameObjects(st, UnbindTcb(st, s))
  {
    assert ScOk(st, s);
    var u := UnbindTcb(st, s);
    forall x | x in st.replies ensures ReplyOk(u, x) && Below(u, depth, x) {
      assert ReplyOk(st, x) && Below(st, depth, x);
    }
    forall x | x in st.tcbs ensures TcbOk(u, x) {
      assert TcbOk(st, x);
    }
    forall x | x in st.scs ensures ScOk(u, x) {
      assert ScOk(st, x);
    }
  }

  /** The stack of `s` loses its head. */
  function Behead(st: State, s: Ref): State
    requires Linked(st) && s in st.scs
  {
    assert ScOk(st, s);
    var r := st.scs[s].reply;
    if r == 0 then st
    else st.(replies := st.replies[r := st.replies[r].(next := NoLink)], scs := st.scs[s := st.scs[s].(reply := 0)])
  }

  lemma BeheadInv(st: State, depth: Depth, s: Ref)
    requires Inv(st, depth) && s in st.scs
    ensures Inv(Behead(st, s), depth)
  {
    assert ScOk(st, s);
    var u := Behead(st, s);
    forall x | x in st.replies ensures ReplyOk(u, x) && Below(u, depth, x) {
      assert ReplyOk(st, x) && Below(st, depth, x);
    }
    forall x | x in st.tcbs ensures TcbOk(u, x) {
      assert TcbOk(st, x);
    }
    forall x | x in st.scs ensures ScOk(u, x) {
      assert ScOk(st, x);
    }
  }

  /** schedContext_bindTCB, without its effect on the ready queues */
  function Bind(st: State, s: Ref, t: Ref): State
    requires s in st.scs && t in st.tcbs
  {
    st.(tcbs := st.tcbs[t := st.tcbs[t].(sc := s)], scs := st.scs[s := st.scs[s].(tcb := t)])
  }

  /** A thread blocks to receive and offers `r`, if it has one, to the caller. */
  function Offer(st: State, t: Ref, r: Ref): State
    requires t in st.tcbs && (r == 0 || r in st.replies)
  {
    st.(tcbs := st.tcbs[t := st.tcbs[t].(run := BlockedOnReceive, reply := r)],
        replies := if r == 0 then st.replies else st.replies[r := st.replies[r].(tcb := t)])
  }

  lemma BindInv(st: State, depth: Depth, s: Ref, t: Ref)
    requires Inv(st, depth) && s in st.scs && t in st.tcbs && st.scs[s].tcb == 0 && st.tcbs[t].sc == 0
    ensures Inv(Bind(st, s, t), depth)
  {
    var u := Bind(st, s, t);
    forall x | x in st.replies ensures ReplyOk(u, x) && Below(u, depth, x) {
      assert ReplyOk(st, x) && Below(st, depth, x);
    }
    forall x | x in st.tcbs ensures TcbOk(u, x) {
      assert TcbOk(st, x);
    }
    forall x | x in st.scs ensures ScOk(u, x) {
      assert ScOk(st, x);
    }
  }

  lemma OfferInv(st: State, depth: Depth, t: Ref, r: Ref)
    requires Inv(st, depth) && t in st.tcbs && st.tcbs[t].reply == 0
    requires (r == 0 || (r in st.replies && st.replies[r].tcb == 0))
    ensures Inv(Offer(st, t, r), depth)
  {
    assert r != 0 ==> ReplyOk(st, r);
    var u := Offer(st, t, r);
    forall x | x in st.replies ensures ReplyOk(u, x) && Below(u, depth, x) {
      assert ReplyOk(st, x) && Below(st, depth, x);
    }
    forall x | x in st.tcbs ensures TcbOk(u, x) {
      assert TcbOk(st, x);
    }
    forall x | x in st.scs ensures ScOk(u, x) {
      assert ScOk(st, x);
    }
  }

  // ---------------------------------------------------------------- who has what afterwards

  /** All threads but these are as before. */
  ghost predicate OthersSame(st: State, u: State, but: set<Ref>) {
    u.tcbs.Keys == st.tcbs.Keys && forall x :: x in st.tcbs && x !in but ==> u.tcbs[x] == st.tcbs[x]
  }

  /** After a push the caller waits on the reply object. If the context was handed over, the callee has it, and the
      reply object is on top of its stack; otherwise all contexts are as before. */
  lemma PushHandsOver(st: State, depth: Depth, caller: Ref, callee: Ref, r: Ref, canDonate: bool)
    requires Inv(st, depth) && CanPush(st, caller, callee, r)
    ensures st.tcbs[caller].sc != 0 ==> TcbOk(st, caller) && ScOk(st, st.tcbs[caller].sc)
    ensures var u := Push(st, caller, callee, r, canDonate);
            var s := st.tcbs[caller].sc;
            && Waits(u, r, caller) && OthersSame(st, u, {caller, callee}) && u.tcbs[callee].run == st.tcbs[callee].run
            && if s != 0 && st.tcbs[callee].sc == 0 && canDonate
               then && u.tcbs[caller].sc == 0 && u.tcbs[callee].sc == s && u.scs == st.scs[s := SchedContext(callee, r)]
                    && u.replies[r] == Reply(caller, st.scs[s].reply, Link(s, true))
               else && u.tcbs[caller].sc == s && u.tcbs[callee].sc == st.tcbs[callee].sc && u.scs == st.scs
                    && u.replies[r] == Reply(caller, 0, NoLink)
  {
    assert TcbOk(st, caller);
    if st.tcbs[caller].sc != 0 { assert ScOk(st, st.tcbs[caller].sc); }
  }

  /** After a pop the thread is inactive and the reply object free, what was below it is on top, and the context has
      gone to the thread, unless that has one of its own. */
  lemma PopReturns(st: State, r: Ref, t: Ref)
    requires CanPop(st, r, t)
    ensures var u := Pop(st, r, t);
            var s := st.replies[r].next.ptr;
            var holder := if s in st.scs then st.scs[s].tcb else 0;
            && r in u.replies && u.replies[r] == Reply(0, 0, NoLink)
            && s in u.scs && u.scs[s].reply == st.replies[r].prev
            && OthersSame(st, u, {t, holder}) && u.tcbs[t].run == Inactive && u.tcbs[t].reply == 0
            && if st.tcbs[t].sc == 0
               then && u.tcbs[t].sc == s && u.scs[s].tcb == t
                    && (holder != 0 ==> holder in u.tcbs && u.tcbs[holder].sc == 0)
               else u.tcbs[t].sc == st.tcbs[t].sc && u.scs[s].tcb == holder && OthersSame(st, u, {t})
  {
    assert ReplyOk(st, r) && TcbOk(st, t);
    assert ScOk(st, st.replies[r].next.ptr);
  }

  /** The reply object is free and its thread inactive; threads keep their contexts. */
  ghost predicate Withdrawn(st: State, u: State, r: Ref, t: Ref) {
    && r in u.replies && u.replies[r] == Reply(0, 0, NoLink) && t in st.tcbs && OthersSame(st, u, {t})
    && u.tcbs[t] == Tcb(st.tcbs[t].sc, Inactive, 0)
    && u.scs.Keys == st.scs.Keys && forall s :: s in st.scs ==> u.scs[s].tcb == st.scs[s].tcb
  }

  /** Removing a thread's reply, or a reply that is not on top, hands no context over. */
  lemma RemoveWithdraws(st: State, r: Ref, t: Ref)
    requires Linked(st) && Waits(st, r, t)
    ensures Withdrawn(st, RemoveTcb(st, t), r, t)
    ensures !st.replies[r].next.isHead ==> Withdrawn(st, Remove(st, r, t), r, t)
  {
    assert ReplyOk(st, r) && TcbOk(st, t);
    IsolateShape(st, r);
    if !st.replies[r].next.isHead { RemoveAgrees(st, r, t); }
  }

  // ---------------------------------------------------------------- stacks as sequences

  /** `chain` lists the reply objects from `r` down to the first caller. */
  ghost predicate IsChain(st: State, r: Ref, chain: seq<Ref>)
    decreases |chain|
  {
    if r == 0 then chain == []
    else r in st.replies && |chain| > 0 && chain[0] == r && IsChain(st, st.replies[r].prev, chain[1..])
  }

  /** Following a stack down comes to an end. */
  lemma {:induction false} ChainExists(st: State, depth: Depth, r: Ref) returns (chain: seq<Ref>)
    requires Inv(st, depth) && (r == 0 || r in st.replies)
    ensures IsChain(st, r, chain)
    decreases if r != 0 && r in depth then depth[r] + 1 else 0
  {
    if r == 0 {
      chain := [];
    } else {
      assert Below(st, depth, r) && ReplyOk(st, r);
      var rest := ChainExists(st, depth, st.replies[r].prev);
      chain := [r] + rest;
      assert chain[1..] == rest;
    }
  }

  /** No reply object occurs twice on a stack. */
  lemma {:induction false} ChainDescends(st: State, depth: Depth, r: Ref, chain: seq<Ref>, i: nat, j: nat)
    requires Inv(st, depth) && IsChain(st, r, chain) && i < j < |chain|
    ensures chain[i] in depth && chain[j] in depth && depth[chain[j]] < depth[chain[i]]
    decreases |chain|
  {
    assert Below(st, depth, r) && ReplyOk(st, r);
    var rest := chain[1..];
    if i > 0 {
      ChainDescends(st, depth, st.replies[r].prev, rest, i - 1, j - 1);
    } else if j > 1 {
      ChainDescends(st, depth, st.replies[r].prev, rest, 0, j - 1);
    } else {
      assert rest[0] == st.replies[r].prev;
    }
  }

  /** Nothing below a caller refers to `r`, and the rest of the stack is as before. */
  ghost predicate OnlyPrevOf(st: State, u: State, r: Ref) {
    u.replies.Keys == st.replies.Keys && forall y :: y in st.replies && y != r ==>
      u.replies[y].prev == st.replies[y].prev != r
  }

  lemma {:induction false} ChainFrame(st: State, u: State, r: Ref, x: Ref, chain: seq<Ref>)
    requires OnlyPrevOf(st, u, r) && x != r && IsChain(st, x, chain)
    ensures IsChain(u, x, chain)
    decreases |chain|
  {
    if x != 0 {
      ChainFrame(st, u, r, st.replies[x].prev, chain[1..]);
    }
  }

  /** A donating push puts the reply object on top of the stack of the scheduling context. */
  lemma PushChain(st: State, depth: Depth, caller: Ref, callee: Ref, r: Ref, chain: seq<Ref>)
    requires Inv(st, depth) && CanPush(st, caller, callee, r) && Donates(st, caller, callee, true)
    requires TcbOk(st, caller) && ScOk(st, st.tcbs[caller].sc)
    requires IsChain(st, st.scs[st.tcbs[caller].sc].reply, chain)
    ensures var u := Push(st, caller, callee, r, true);
            u.scs[st.tcbs[caller].sc].reply == r && IsChain(u, r, [r] + chain)
  {
    var s := st.tcbs[caller].sc;
    var u := Push(st, caller, callee, r, true);
    var below := st.scs[s].reply;
    forall y | y in st.replies && y != r ensures u.replies[y].prev == st.replies[y].prev != r {
      assert ReplyOk(st, y) && ReplyOk(st, r);
    }
    ChainFrame(st, u, r, below, chain);
    assert ([r] + chain)[1..] == chain;
  }

  /** Pop takes the top reply object off. */
  lemma PopChain(st: State, depth: Depth, r: Ref, t: Ref, chain: seq<Ref>)
    requires Inv(st, depth) && CanPop(st, r, t) && IsChain(st, r, chain)
    ensures var s := st.replies[r].next.ptr;
            var u := Pop(st, r, t);
            s in u.scs && IsChain(u, u.scs[s].reply, chain[1..])
  {
    var u := Pop(st, r, t);
    PopKeys(st, r, t);
    assert ReplyOk(st, r);
    forall y | y in st.replies && y != r ensures u.replies[y].prev == st.replies[y].prev != r {
      assert ReplyOk(st, y);
    }
    assert st.replies[r].prev != r by {
      assert Below(st, depth, r);
    }
    ChainFrame(st, u, r, st.replies[r].prev, chain[1..]);
  }

  /** Removing a reply object leaves the part of a stack above it, and stacks without it. */
  lemma {:induction false} IsolateChain(st: State, r: Ref, x: Ref, chain: seq<Ref>, k: nat)
    requires Linked(st) && r in st.replies && IsChain(st, x, chain) && k <= |chain| && x != r
    requires k < |chain| ==> chain[k] == r
    requires forall i :: 0 <= i < k ==> chain[i] != r
    ensures IsChain(Isolate(st, r), x, chain[..k])
    decreases |chain|
  {
    var u := Isolate(st, r);
    IsolateShape(st, r);
    if x != 0 {
      assert ReplyOk(st, x) && ReplyOk(st, r);
      var rest := chain[1..];
      assert k > 0;
      assert chain[..k][1..] == rest[..k - 1];
      if st.replies[x].prev == r {
        assert rest[0] == r;
        assert u.replies[x].prev == 0;
      } else {
        assert u.replies[x].prev == st.replies[x].prev;
        IsolateChain(st, r, st.replies[x].prev, rest, k - 1);
      }
    }
  }

  // ---------------------------------------------------------------- the objects

  class Objects {
    var tcbs: map<Ref, Tcb>
    var replies: map<Ref, Reply>
    var scs: map<Ref, SchedContext>
    ghost var depth: Depth

    ghost function Snapshot(): State
      reads this
    {
      State(tcbs, replies, scs)
    }

    ghost predicate Valid()
      reads this
    {
      Inv(Snapshot(), depth)
    }

    /** Threads, reply objects and scheduling contexts that are not connected. */
    constructor (threads: set<Ref>, replyObjects: set<Ref>, contexts: set<Ref>)
      requires 0 !in threads && 0 !in replyObjects && 0 !in contexts
      ensures Valid() && tcbs.Keys == threads && replies.Keys == replyObjects && scs.Keys == contexts
    {
      tcbs := map t | t in threads :: Tcb(0, Inactive, 0);
      replies := map r | r in replyObjects :: Reply(0, 0, NoLink);
      scs := map s | s in contexts :: SchedContext(0, 0);
      depth := map r | r in replyObjects :: 0;
      new;
      forall r | r in replies ensures ReplyOk(Snapshot(), r) && Below(Snapshot(), depth, r) {
      }
      forall t | t in tcbs ensures TcbOk(Snapshot(), t) {
      }
      forall s | s in scs ensures ScOk(Snapshot(), s) {
      }
    }

    /** reply_unlink */
    method ReplyUnlink(reply: Ref, tcb: Ref)
      requires reply in replies && tcb in tcbs
      modifies `tcbs, `replies
      ensures Snapshot() == Unlink(old(Snapshot()), reply, tcb)
    {
      tcbs := tcbs[tcb := tcbs[tcb].(reply := 0)];
      replies := replies[reply := replies[reply].(tcb := 0)];
      tcbs := tcbs[tcb := tcbs[tcb].(run := Inactive)];
    }

    /** schedContext_donate */
    method SchedContextDonate(sc: Ref, to: Ref)
      requires sc in scs && to in tcbs && (scs[sc].tcb == 0 || scs[sc].tcb in tcbs)
      modifies `tcbs, `scs
      ensures Snapshot() == Donate(old(Snapshot()), sc, to)
    {
      var from := scs[sc].tcb;
      if from != 0 {
        tcbs := tcbs[from := tcbs[from].(sc := 0)];
      }
      scs := scs[sc := scs[sc].(tcb := to)];
      tcbs := tcbs[to := tcbs[to].(sc := sc)];
    }

    /** reply_push */
    method ReplyPush(caller: Ref, callee: Ref, reply: Ref, canDonate: bool)
      requires Valid() && CanPush(Snapshot(), caller, callee, reply)
      modifies this
      ensures Valid() && old(tcbs[caller].sc != 0 ==> TcbOk(Snapshot(), caller) && ScOk(Snapshot(), tcbs[caller].sc))
      ensures Snapshot() == Push(old(Snapshot()), caller, callee, reply, canDonate)
    {
      ghost var st := Snapshot();
      depth := PushInv(st, depth, caller, callee, reply, canDonate);
      var donated := tcbs[caller].sc;
      tcbs := tcbs[callee := tcbs[callee].(reply := 0)];
      replies := replies[reply := replies[reply].(tcb := caller)];
      tcbs := tcbs[caller := tcbs[caller].(reply := reply)];
      tcbs := tcbs[caller := tcbs[caller].(run := BlockedOnReply)];
      assert Snapshot() == Await(st, caller, callee, reply);
      if donated != 0 && tcbs[callee].sc == 0 && canDonate {
        PutOnTop(donated, reply);
        SchedContextDonate(donated, callee);
      }
    }

    method PutOnTop(sc: Ref, reply: Ref)
      requires sc in scs && reply in replies && (scs[sc].reply == 0 || scs[sc].reply in replies)
      modifies `replies, `scs
      ensures Snapshot() == Stack(old(Snapshot()), sc, reply)
    {
      var oldCaller := scs[sc].reply;
      replies := replies[reply := replies[reply].(prev := oldCaller)];
      if oldCaller != 0 {
        replies := replies[oldCaller := replies[oldCaller].(next := Link(reply, false))];
      }
      replies := replies[reply := replies[reply].(next := Link(sc, true))];
      scs := scs[sc := scs[sc].(reply := reply)];
    }

    /** reply_pop */
    method ReplyPop(reply: Ref, tcb: Ref)
      requires Valid() && Poppable(Snapshot(), reply, tcb)
      modifies `tcbs, `replies, `scs
      ensures Snapshot() == Pop(old(Snapshot()), reply, tcb)
      ensures Valid() <==> old(replies)[reply].next.ptr != 0 || old(replies)[reply].prev == 0
    {
      ghost var st := Snapshot();
      PopInvIff(st, depth, reply, tcb);
      assert ReplyOk(st, reply);
      assert replies[reply].next.ptr != 0 ==> ScOk(st, replies[reply].next.ptr);
      ReplyUnlink(reply, tcb);
      var next, prev := replies[reply].next.ptr, replies[reply].prev;
      if next != 0 {
        assert replies[reply].next.isHead;
        if tcbs[tcb].sc == 0 {
          SchedContextDonate(next, tcb);
        }
        TakeOffTop(reply);
      }
    }

    method TakeOffTop(reply: Ref)
      requires reply in replies && replies[reply].next.ptr in scs
      requires (replies[reply].prev == 0 || replies[reply].prev in replies)
      modifies `replies, `scs
      ensures Snapshot() == Unstack(old(Snapshot()), reply)
    {
      var next, prev := replies[reply].next.ptr, replies[reply].prev;
      scs := scs[next := scs[next].(reply := prev)];
      if prev != 0 {
        replies := replies[prev := replies[prev].(next := replies[reply].next)];
      }
      replies := replies[reply := replies[reply].(prev := 0)];
      replies := replies[reply := replies[reply].(next := NoLink)];
    }

    /** reply_remove */
    method ReplyRemove(reply: Ref, tcb: Ref)
      requires Valid() && Waits(Snapshot(), reply, tcb)
      modifies this
      ensures Valid() && Snapshot() == Remove(old(Snapshot()), reply, tcb)
    {
      ghost var st := Snapshot();
      RemoveInv(st, depth, reply, tcb);
      assert ReplyOk(st, reply);
      var next, prev := replies[reply].next, replies[reply].prev;
      if next.ptr != 0 {
        if next.isHead {
          ReplyPop(reply, tcb);
          return;
        }
        replies := replies[next.ptr := replies[next.ptr].(prev := 0)];
        ReplyUnlink(reply, tcb);
      } else {
        ReplyUnlink(reply, tcb);
      }
      ghost var u := Unlink(st, reply, tcb);
      assert replies == if next.ptr == 0 then u.replies
                        else u.replies[next.ptr := u.replies[next.ptr].(prev := 0)];
      DropLinks(reply, prev);
      assert replies == Cut(u, reply).replies;
    }

    method DropLinks(reply: Ref, prev: Ref)
      requires reply in replies && (prev == 0 || prev in replies)
      modifies `replies
      ensures var lower := if prev == 0 then old(replies)
                           else old(replies)[prev := old(replies)[prev].(next := NoLink)];
              replies == lower[reply := lower[reply].(prev := 0, next := NoLink)]
    {
      if prev != 0 {
        replies := replies[prev := replies[prev].(next := NoLink)];
      }
      replies := replies[reply := replies[reply].(prev := 0)];
      replies := replies[reply := replies[reply].(next := NoLink)];
    }

    /** reply_remove_tcb */
    method ReplyRemoveTcb(tcb: Ref)
      requires Valid() && tcb in tcbs && tcbs[tcb].run == BlockedOnReply
      modifies this
      ensures Valid() && Snapshot() == RemoveTcb(old(Snapshot()), tcb)
    {
      ghost var st := Snapshot();
      RemoveTcbInv(st, depth, tcb);
      var reply := tcbs[tcb].reply;
      assert TcbOk(st, tcb) && ReplyOk(st, reply);
      var next, prev := replies[reply].next, replies[reply].prev;
      if next.ptr != 0 {
        if next.isHead {
          scs := scs[next.ptr := scs[next.ptr].(reply := 0)];
        } else {
          replies := replies[next.ptr := replies[next.ptr].(prev := 0)];
        }
      }
      DropLinks(reply, prev);
      assert Snapshot() == Isolate(st, reply);
      ReplyUnlink(reply, tcb);
    }

    /** invokeSchedContext_Unbind, without its effect on notifications and ready queues */
    method UnbindSchedContext(sc: Ref)
      requires Valid() && sc in scs
      modifies this
      ensures Valid() && Linked(UnbindTcb(old(Snapshot()), sc)) && sc in UnbindTcb(old(Snapshot()), sc).scs
      ensures Snapshot() == Behead(UnbindTcb(old(Snapshot()), sc), sc)
      ensures scs == old(scs)[sc := SchedContext(0, 0)] && OthersSame(old(Snapshot()), Snapshot(), {old(scs[sc].tcb)})
      ensures old(scs[sc].tcb) != 0 ==>
              old(scs[sc].tcb) in tcbs && tcbs[old(scs[sc].tcb)] == old(tcbs)[old(scs[sc].tcb)].(sc := 0)
      ensures old(scs[sc].reply) != 0 ==> old(scs[sc].reply) in replies && replies[old(scs[sc].reply)].next == NoLink
    {
      ghost var st := Snapshot();
      UnbindTcbInv(st, depth, sc);
      BeheadInv(UnbindTcb(st, sc), depth, sc);
      assert ScOk(st, sc);
      if scs[sc].tcb != 0 {
        tcbs := tcbs[scs[sc].tcb := tcbs[scs[sc].tcb].(sc := 0)];
        scs := scs[sc := scs[sc].(tcb := 0)];
      }
      assert Snapshot() == UnbindTcb(st, sc);
      if scs[sc].reply != 0 {
        replies := replies[scs[sc].reply := replies[scs[sc].reply].(next := NoLink)];
        scs := scs[sc := scs[sc].(reply := 0)];
      }
    }

    /** schedContext_bindTCB */
    method BindTcb(sc: Ref, tcb: Ref)
      requires Valid() && sc in scs && tcb in tcbs && scs[sc].tcb == 0 && tcbs[tcb].sc == 0
      modifies this
      ensures Valid() && Snapshot() == Bind(old(Snapshot()), sc, tcb)
      ensures tcb in tcbs && sc in scs && tcbs[tcb] == old(tcbs[tcb]).(sc := sc) && scs[sc] == old(scs[sc]).(tcb := tcb)
      ensures OthersSame(old(Snapshot()), Snapshot(), {tcb}) && replies == old(replies)
    {
      BindInv(Snapshot(), depth, sc, tcb);
      tcbs := tcbs[tcb := tcbs[tcb].(sc := sc)];
      scs := scs[sc := scs[sc].(tcb := tcb)];
    }

    /** The part of receiveIPC that blocks a receiver. */
    method BlockReceiver(tcb: Ref, reply: Ref)
      requires Valid() && tcb in tcbs && tcbs[tcb].reply == 0
      requires (reply == 0 || (reply in replies && replies[reply].tcb == 0))
      modifies this
      ensures Valid() && Snapshot() == Offer(old(Snapshot()), tcb, reply)
    {
      ghost var st := Snapshot();
      OfferInv(st, depth, tcb, reply);
      tcbs := tcbs[tcb := tcbs[tcb].(run := BlockedOnReceive)];
      tcbs := tcbs[tcb := tcbs[tcb].(reply := reply)];
      if reply != 0 {
        replies := replies[reply := replies[reply].(tcb := tcb)];
      }
      assert Snapshot() == Offer(st, tcb, reply);
    }

    /** The part of sendIPC and cancelIPC that frees a receiver's reply object. */
    method ReleaseReceiver(tcb: Ref)
      requires Valid() && tcb in tcbs && tcbs[tcb].run == BlockedOnReceive && tcbs[tcb].reply != 0
      modifies this
      ensures Valid() && old(tcbs[tcb].reply) in old(replies)
      ensures Snapshot() == Unlink(old(Snapshot()), old(tcbs[tcb].reply), tcb)
    {
      assert TcbOk(Snapshot(), tcb);
      assert ReplyOk(Snapshot(), tcbs[tcb].reply);
      UnlinkInv(Snapshot(), depth, tcbs[tcb].reply, tcb);
      ReplyUnlink(tcbs[tcb].reply, tcb);
    }
  }

  datatype Op =
    | PushOp(caller: Ref, callee: Ref, reply: Ref, canDonate: bool)
    | PopOp(reply: Ref, tcb: Ref)
    | RemoveOp(reply: Ref, tcb: Ref)
    | RemoveTcbOp(tcb: Ref)
    | UnbindOp(sc: Ref)
    | BindOp(sc: Ref, tcb: Ref)
    | BlockOp(tcb: Ref, reply: Ref)
    | ReleaseOp(tcb: Ref)

  /** What the asserts of the operation and its callers make sure of. */
  predicate Permitted(st: State, op: Op) {
    match op
    case PushOp(caller, callee, r, _) => CanPush(st, caller, callee, r)
    case PopOp(r, t) => Poppable(st, r, t) && (st.replies[r].next.ptr != 0 || st.replies[r].prev == 0)
    case RemoveOp(r, t) => Waits(st, r, t)
    case RemoveTcbOp(t) => t in st.tcbs && st.tcbs[t].run == BlockedOnReply
    case UnbindOp(s) => s in st.scs
    case BindOp(s, t) => s in st.scs && t in st.tcbs && st.scs[s].tcb == 0 && st.tcbs[t].sc == 0
    case BlockOp(t, r) => t in st.tcbs && st.tcbs[t].reply == 0
                          && (r == 0 || (r in st.replies && st.replies[r].tcb == 0))
    case ReleaseOp(t) => t in st.tcbs && st.tcbs[t].run == BlockedOnReceive && st.tcbs[t].reply != 0
  }

  /** Any run of operations from unconnected objects keeps all links mutual, every stack finite, and the
      binding of threads and scheduling contexts one to one. */
  method RunOps(threads: set<Ref>, replyObjects: set<Ref>, contexts: set<Ref>, ops: seq<Op>) returns (objects: Objects)
    requires 0 !in threads && 0 !in replyObjects && 0 !in contexts
    ensures objects.Valid() && fresh(objects)
  {
    objects := new Objects(threads, replyObjects, contexts);
    for i := 0 to |ops|
      invariant fresh(objects) && objects.Valid()
    {
      if Permitted(State(objects.tcbs, objects.replies, objects.scs), ops[i]) {
        match ops[i]
        case PushOp(caller, callee, r, canDonate) => objects.ReplyPush(caller, callee, r, canDonate);
        case PopOp(r, t) => objects.ReplyPop(r, t);
        case RemoveOp(r, t) => objects.ReplyRemove(r, t);
        case RemoveTcbOp(t) => objects.ReplyRemoveTcb(t);
        case UnbindOp(s) => objects.UnbindSchedContext(s);
        case BindOp(s, t) => objects.BindTcb(s, t);
        case BlockOp(t, r) => objects.BlockReceiver(t, r);
        case ReleaseOp(t) => objects.ReleaseReceiver(t);
      }
    }
  }
}
