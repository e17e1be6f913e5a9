/** The ready queues and the two-level bitmap over them (kernel/src/object/tcb.c,
    kernel/include/kernel/thread.h, kernel/src/kernel/thread.c). */
module ReadyQueues {
  import opened Words
  import opened TcbQueues

  /** The configuration: words of 2^wordRadix bits, `prios` priorities, `domains` domains. */
  datatype Config = Config(wordRadix: nat, prios: nat, domains: nat)

  function WordBits(c: Config): (r: nat)
    ensures r >= 1
  {
    Pow2(c.wordRadix)
  }

  /** L2_BITMAP_SIZE */
  function Groups(c: Config): nat {
    DivModSplit(c.prios + WordBits(c) - 1, WordBits(c));
    (c.prios + WordBits(c) - 1) / WordBits(c)
  }

  /** prio_to_l1index */
  function Group(c: Config, prio: nat): nat {
    Shr(prio, c.wordRadix)
  }

  /** The bit of a priority in the word of its group. */
  function Lane(c: Config, prio: nat): (r: nat)
    ensures r < WordBits(c)
  {
    LowBits(prio, c.wordRadix)
  }

  function Join(c: Config, group: nat, lane: nat): nat {
    group * WordBits(c) + lane
  }

  lemma JoinSplit(c: Config, prio: nat)
    ensures Join(c, Group(c, prio), Lane(c, prio)) == prio
  {
    DivModSplit(prio, WordBits(c));
  }

  lemma SplitJoin(c: Config, group: nat, lane: nat)
    requires lane < WordBits(c)
    ensures Group(c, Join(c, group, lane)) == group && Lane(c, Join(c, group, lane)) == lane
  {
    DivModUnique(Join(c, group, lane), WordBits(c), group, lane);
  }

  lemma GroupInRange(c: Config, prio: nat)
    requires prio < c.prios
    ensures Group(c, prio) < Groups(c)
  {
    GroupBound(prio, c.prios, WordBits(c));
  }

  lemma GroupBound(prio: nat, prios: nat, w: nat)
    requires prio < prios && w > 0
    ensures prio / w < (prios + w - 1) / w
  {
    DivModSplit(prio, w);
    DivModSplit(prios + w - 1, w);
    var q, n := prio / w, (prios + w - 1) / w;
    if n <= q {
      MulMono(n, q, w);
    }
  }

  /** A higher group, or the same group and a higher lane, is a higher priority. */
  lemma JoinOrder(c: Config, g: nat, a: nat, h: nat, b: nat)
    requires a < WordBits(c) && b < WordBits(c) && Join(c, g, a) < Join(c, h, b)
    ensures g < h || (g == h && a < b)
  {
    if h < g { MulMono(h + 1, g, WordBits(c)); }
  }

  /** One ready queue. */
  datatype Level = Level(dom: nat, prio: nat)

  predicate Known(c: Config, l: Level) {
    l.dom < c.domains && l.prio < c.prios
  }

  // ---------------------------------------------------------------- the bitmap

  datatype Bitmap = Bitmap(l1: seq<nat>, l2: seq<seq<nat>>)

  predicate Shaped(c: Config, bm: Bitmap) {
    |bm.l1| == c.domains && |bm.l2| == c.domains && forall d :: 0 <= d < c.domains ==> |bm.l2[d]| == Groups(c)
  }

  /** invert_l1index */
  function Inverted(c: Config, group: nat): (r: nat)
    requires group < Groups(c)
    ensures r < Groups(c)
  {
    Groups(c) - 1 - group
  }

  function WordOf(c: Config, bm: Bitmap, d: nat, group: nat): nat
    requires Shaped(c, bm) && d < c.domains && group < Groups(c)
  {
    bm.l2[d][Inverted(c, group)]
  }

  ghost predicate WordMarks(c: Config, bm: Bitmap, busy: set<Level>, d: nat, g: nat, b: nat)
    requires Shaped(c, bm) && d < c.domains && g < Groups(c)
  {
    Bit(WordOf(c, bm, d, g), b) <==> b < WordBits(c) && Level(d, Join(c, g, b)) in busy
  }

  ghost predicate TopMarks(c: Config, bm: Bitmap, d: nat, g: nat)
    requires Shaped(c, bm) && d < c.domains
  {
    Bit(bm.l1[d], g) <==> g < Groups(c) && WordOf(c, bm, d, g) != 0
  }

  /** The lower level marks exactly the levels in `busy`, the upper one the words that are not zero. */
  ghost predicate Marks(c: Config, bm: Bitmap, busy: set<Level>) {
    && Shaped(c, bm) && (forall l :: l in busy ==> Known(c, l))
    && (forall d, g, b {:trigger WordMarks(c, bm, busy, d, g, b)} ::
          0 <= d < c.domains && 0 <= g < Groups(c) && 0 <= b ==> WordMarks(c, bm, busy, d, g, b))
    && (forall d, g {:trigger TopMarks(c, bm, d, g)} :: 0 <= d < c.domains && 0 <= g ==> TopMarks(c, bm, d, g))
  }

  function WithWord(c: Config, bm: Bitmap, d: nat, group: nat, w: nat): Bitmap
    requires Shaped(c, bm) && d < c.domains && group < Groups(c)
  {
    var row: seq<nat> := bm.l2[d][Inverted(c, group) := w];
    bm.(l2 := bm.l2[d := row])
  }

  function WithTop(bm: Bitmap, d: nat, w: nat): Bitmap
    requires d < |bm.l1|
  {
    bm.(l1 := bm.l1[d := w])
  }

  /** addToBitmap */
  function AddToBitmap(c: Config, bm: Bitmap, l: Level): Bitmap
    requires Shaped(c, bm) && Known(c, l) && Group(c, l.prio) < Groups(c)
  {
    var g := Group(c, l.prio);
    var top := WithTop(bm, l.dom, Or(bm.l1[l.dom], Pow2(g)));
    WithWord(c, top, l.dom, g, Or(WordOf(c, top, l.dom, g), Pow2(Lane(c, l.prio))))
  }

  /** removeFromBitmap */
  function RemoveFromBitmap(c: Config, bm: Bitmap, l: Level): Bitmap
    requires Shaped(c, bm) && Known(c, l) && Group(c, l.prio) < Groups(c)
  {
    var g := Group(c, l.prio);
    var w := AndNot(WordOf(c, bm, l.dom, g), Pow2(Lane(c, l.prio)));
    var cleared := WithWord(c, bm, l.dom, g, w);
    if w == 0 then WithTop(cleared, l.dom, AndNot(bm.l1[l.dom], Pow2(g))) else cleared
  }

  lemma WithWordShape(c: Config, bm: Bitmap, d: nat, group: nat, w: nat)
    requires Shaped(c, bm) && d < c.domains && group < Groups(c)
    ensures Shaped(c, WithWord(c, bm, d, group, w))
    ensures forall e, g :: 0 <= e < c.domains && 0 <= g < Groups(c) ==>
              WordOf(c, WithWord(c, bm, d, group, w), e, g) == if e == d && g == group then w else WordOf(c, bm, e, g)
  {
  }

  lemma AddWordMarks(c: Config, bm: Bitmap, busy: set<Level>, l: Level, d: nat, g: nat, b: nat)
    requires Shaped(c, bm) && Known(c, l) && Group(c, l.prio) < Groups(c) && d < c.domains && g < Groups(c)
    requires WordMarks(c, bm, busy, d, g, b)
    ensures Shaped(c, AddToBitmap(c, bm, l))
    ensures WordMarks(c, AddToBitmap(c, bm, l), busy + {l}, d, g, b)
  {
    var h := Group(c, l.prio);
    var top := WithTop(bm, l.dom, Or(bm.l1[l.dom], Pow2(h)));
    WithWordShape(c, top, l.dom, h, Or(WordOf(c, top, l.dom, h), Pow2(Lane(c, l.prio))));
    BitSetClear(WordOf(c, bm, l.dom, h), Lane(c, l.prio), b);
    JoinSplit(c, l.prio);
    if b < WordBits(c) { SplitJoin(c, g, b); }
  }

  lemma AddTopMarks(c: Config, bm: Bitmap, l: Level, d: nat, g: nat)
    requires Shaped(c, bm) && Known(c, l) && Group(c, l.prio) < Groups(c) && d < c.domains
    requires TopMarks(c, bm, d, g)
    ensures Shaped(c, AddToBitmap(c, bm, l))
    ensures TopMarks(c, AddToBitmap(c, bm, l), d, g)
  {
    var h := Group(c, l.prio);
    var top := WithTop(bm, l.dom, Or(bm.l1[l.dom], Pow2(h)));
    var w := Or(WordOf(c, top, l.dom, h), Pow2(Lane(c, l.prio)));
    WithWordShape(c, top, l.dom, h, w);
    BitSetClear(bm.l1[l.dom], h, g);
    BitSetClear(WordOf(c, bm, l.dom, h), Lane(c, l.prio), Lane(c, l.prio));
    SmallHasNoBit(0, Lane(c, l.prio));
    assert w != 0;
  }

  /** A queue that was empty is marked when a thread enters it. */
  lemma AddMarks(c: Config, bm: Bitmap, busy: set<Level>, l: Level)
    requires Marks(c, bm, busy) && Known(c, l)
    ensures Group(c, l.prio) < Groups(c)
    ensures Marks(c, AddToBitmap(c, bm, l), busy + {l})
  {
    GroupInRange(c, l.prio);
    var after := AddToBitmap(c, bm, l);
    WithWordShape(c, WithTop(bm, l.dom, Or(bm.l1[l.dom], Pow2(Group(c, l.prio)))), l.dom, Group(c, l.prio), 0);
    assert Shaped(c, after);
    forall d, g, b | 0 <= d < c.domains && 0 <= g < Groups(c) && 0 <= b
      ensures WordMarks(c, after, busy + {l}, d, g, b)
    {
      assert WordMarks(c, bm, busy, d, g, b);
      AddWordMarks(c, bm, busy, l, d, g, b);
    }
    forall d, g | 0 <= d < c.domains && 0 <= g ensures TopMarks(c, after, d, g) {
      assert TopMarks(c, bm, d, g);
      AddTopMarks(c, bm, l, d, g);
    }
  }

  lemma RemoveWordMarks(c: Config, bm: Bitmap, busy: set<Level>, l: Level, d: nat, g: nat, b: nat)
    requires Shaped(c, bm) && Known(c, l) && Group(c, l.prio) < Groups(c) && d < c.domains && g < Groups(c)
    requires WordMarks(c, bm, busy, d, g, b)
    ensures Shaped(c, RemoveFromBitmap(c, bm, l))
    ensures WordMarks(c, RemoveFromBitmap(c, bm, l), busy - {l}, d, g, b)
  {
    var h := Group(c, l.prio);
    WithWordShape(c, bm, l.dom, h, AndNot(WordOf(c, bm, l.dom, h), Pow2(Lane(c, l.prio))));
    BitSetClear(WordOf(c, bm, l.dom, h), Lane(c, l.prio), b);
    JoinSplit(c, l.prio);
    if b < WordBits(c) { SplitJoin(c, g, b); }
  }

  lemma RemoveTopMarks(c: Config, bm: Bitmap, l: Level, d: nat, g: nat)
    requires Shaped(c, bm) && Known(c, l) && Group(c, l.prio) < Groups(c) && d < c.domains
    requires TopMarks(c, bm, d, g)
    ensures Shaped(c, RemoveFromBitmap(c, bm, l))
    ensures TopMarks(c, RemoveFromBitmap(c, bm, l), d, g)
  {
    var h := Group(c, l.prio);
    WithWordShape(c, bm, l.dom, h, AndNot(WordOf(c, bm, l.dom, h), Pow2(Lane(c, l.prio))));
    BitSetClear(bm.l1[l.dom], h, g);
  }

  /** A queue that becomes empty is no longer marked. */
  lemma RemoveMarks(c: Config, bm: Bitmap, busy: set<Level>, l: Level)
    requires Marks(c, bm, busy) && Known(c, l)
    ensures Group(c, l.prio) < Groups(c)
    ensures Marks(c, RemoveFromBitmap(c, bm, l), busy - {l})
  {
    GroupInRange(c, l.prio);
    var after := RemoveFromBitmap(c, bm, l);
    WithWordShape(c, bm, l.dom, Group(c, l.prio),
                  AndNot(WordOf(c, bm, l.dom, Group(c, l.prio)), Pow2(Lane(c, l.prio))));
    assert Shaped(c, after);
    forall d, g, b | 0 <= d < c.domains && 0 <= g < Groups(c) && 0 <= b
      ensures WordMarks(c, after, busy - {l}, d, g, b)
    {
      assert WordMarks(c, bm, busy, d, g, b);
      RemoveWordMarks(c, bm, busy, l, d, g, b);
    }
    forall d, g | 0 <= d < c.domains && 0 <= g ensures TopMarks(c, after, d, g) {
      assert TopMarks(c, bm, d, g);
      RemoveTopMarks(c, bm, l, d, g);
    }
  }

  /** getHighestPrio */
  function HighestPrio(c: Config, bm: Bitmap, d: nat): nat
    requires Shaped(c, bm) && d < c.domains && bm.l1[d] != 0
    requires HighBit(bm.l1[d]) < Groups(c) && WordOf(c, bm, d, HighBit(bm.l1[d])) != 0
  {
    var group := HighBit(bm.l1[d]);
    Or(Shl(group, c.wordRadix), HighBit(WordOf(c, bm, d, group)))
  }

  /** The asserts of getHighestPrio hold. */
  lemma HighestDefined(c: Config, bm: Bitmap, busy: set<Level>, d: nat)
    requires Marks(c, bm, busy) && d < c.domains && bm.l1[d] != 0
    ensures HighBit(bm.l1[d]) < Groups(c) && WordOf(c, bm, d, HighBit(bm.l1[d])) != 0
  {
    HighBitSet(bm.l1[d]);
    assert TopMarks(c, bm, d, HighBit(bm.l1[d]));
  }

  /** A level that is busy is marked on both levels of the bitmap. */
  lemma BusyMarked(c: Config, bm: Bitmap, busy: set<Level>, l: Level)
    requires Marks(c, bm, busy) && l in busy
    ensures Group(c, l.prio) < Groups(c) && Bit(WordOf(c, bm, l.dom, Group(c, l.prio)), Lane(c, l.prio))
    ensures Bit(bm.l1[l.dom], Group(c, l.prio)) && bm.l1[l.dom] != 0
  {
    var g, b := Group(c, l.prio), Lane(c, l.prio);
    GroupInRange(c, l.prio);
    JoinSplit(c, l.prio);
    assert WordMarks(c, bm, busy, l.dom, g, b) && TopMarks(c, bm, l.dom, g);
    SmallHasNoBit(0, b);
    SmallHasNoBit(0, g);
  }

  /** getHighestPrio finds what a scan of all queues of the domain would. */
  lemma HighestIsMax(c: Config, bm: Bitmap, busy: set<Level>, d: nat)
    requires Marks(c, bm, busy) && d < c.domains && bm.l1[d] != 0
    ensures HighBit(bm.l1[d]) < Groups(c) && WordOf(c, bm, d, HighBit(bm.l1[d])) != 0
    ensures Level(d, HighestPrio(c, bm, d)) in busy
    ensures forall l :: l in busy && l.dom == d ==> l.prio <= HighestPrio(c, bm, d)
  {
    HighestDefined(c, bm, busy, d);
    var g := HighBit(bm.l1[d]);
    var w := WordOf(c, bm, d, g);
    var b := HighBit(w);
    HighBitSet(w);
    assert WordMarks(c, bm, busy, d, g, b);
    OrDisjoint(g, c.wordRadix, b);
    assert HighestPrio(c, bm, d) == Join(c, g, b);
    forall l | l in busy && l.dom == d ensures l.prio <= HighestPrio(c, bm, d) {
      BusyMarked(c, bm, busy, l);
      JoinSplit(c, l.prio);
      if Join(c, g, b) < l.prio {
        JoinOrder(c, g, b, Group(c, l.prio), Lane(c, l.prio));
        if g < Group(c, l.prio) {
          HighBitHighest(bm.l1[d], Group(c, l.prio));
        } else {
          HighBitHighest(w, Lane(c, l.prio));
        }
      }
    }
  }

  /** The upper word of a domain is zero exactly if all its queues are empty. */
  lemma ZeroIsIdle(c: Config, bm: Bitmap, busy: set<Level>, d: nat)
    requires Marks(c, bm, busy) && d < c.domains
    ensures bm.l1[d] == 0 <==> forall l :: l in busy ==> l.dom != d
  {
    if bm.l1[d] == 0 {
      forall l | l in busy ensures l.dom != d {
        BusyMarked(c, bm, busy, l);
      }
    } else {
      HighestIsMax(c, bm, busy, d);
    }
  }

  // ---------------------------------------------------------------- the queues

  datatype Tcb = Tcb(domain: nat, prio: nat, queued: bool, runnable: bool, hasContext: bool)

  function LevelOf(t: Tcb): Level {
    Level(t.domain, t.prio)
  }

  /** isSchedulable, where `hasContext` stands for an active scheduling context outside the release queue. */
  predicate IsSchedulable(t: Tcb) {
    t.runnable && t.hasContext
  }

  /** ready_queues_index */
  function Index(c: Config, l: Level): nat {
    l.dom * c.prios + l.prio
  }

  lemma IndexInRange(c: Config, l: Level)
    requires Known(c, l)
    ensures Index(c, l) < c.domains * c.prios
  {
    MulMono(l.dom + 1, c.domains, c.prios);
  }

  lemma IndexUnique(c: Config, l: Level, m: Level)
    requires Known(c, l) && Known(c, m) && Index(c, l) == Index(c, m)
    ensures l == m
  {
    DivModUnique(Index(c, l), c.prios, l.dom, l.prio);
    DivModUnique(Index(c, m), c.prios, m.dom, m.prio);
  }

  datatype State = State(tcbs: map<Ref, Tcb>, links: LinkMap, ready: seq<Queue>, bm: Bitmap)

  /** The contents of the queues, first thread first. */
  type Contents = map<Level, seq<Ref>>

  ghost predicate AllAt(tcbs: map<Ref, Tcb>, s: seq<Ref>, l: Level) {
    forall k :: 0 <= k < |s| ==> s[k] in tcbs && tcbs[s[k]].queued && LevelOf(tcbs[s[k]]) == l
  }

  ghost predicate QueueOk(c: Config, st: State, queues: Contents, l: Level) {
    && l in queues && Index(c, l) < |st.ready| && AllAt(st.tcbs, queues[l], l)
    && Holds(st.links, st.ready[Index(c, l)], queues[l])
  }

  ghost predicate ThreadOk(c: Config, st: State, queues: Contents, t: Ref)
    requires t in st.tcbs
  {
    && t != 0 && t in st.links && Known(c, LevelOf(st.tcbs[t]))
    && (st.tcbs[t].queued ==> LevelOf(st.tcbs[t]) in queues && t in queues[LevelOf(st.tcbs[t])])
  }

  ghost function Busy(queues: Contents): set<Level> {
    set l | l in queues && queues[l] != []
  }

  /** The queues hold exactly the queued threads, each at its level, and the bitmap marks exactly the
      queues that are not empty. */
  ghost predicate Valid(c: Config, st: State, queues: Contents) {
    && (forall l :: l in queues ==> Known(c, l)) && |st.ready| == c.domains * c.prios
    && (forall l {:trigger QueueOk(c, st, queues, l)} :: Known(c, l) ==> QueueOk(c, st, queues, l))
    && (forall t {:trigger ThreadOk(c, st, queues, t)} :: t in st.tcbs ==> ThreadOk(c, st, queues, t))
    && Marks(c, st.bm, Busy(queues))
  }

  /** `t` can be linked into its queue between `before` and `after`. */
  predicate Enterable(c: Config, st: State, t: Ref, before: Ref, after: Ref) {
    && t in st.tcbs && Index(c, LevelOf(st.tcbs[t])) < |st.ready|
    && (before == 0 || before in st.links) && (after == 0 || after in st.links)
    && Shaped(c, st.bm) && Known(c, LevelOf(st.tcbs[t])) && Group(c, st.tcbs[t].prio) < Groups(c)
  }

  /** The link, queue and bitmap changes of tcbSchedEnqueue and tcbSchedAppend. */
  function Entered(c: Config, st: State, t: Ref, before: Ref, after: Ref): State
    requires Enterable(c, st, t, before, after)
  {
    var l := LevelOf(st.tcbs[t]);
    var q := st.ready[Index(c, l)];
    State(st.tcbs[t := st.tcbs[t].(queued := true)],
          InsertLinks(st.links, t, before, after),
          st.ready[Index(c, l) := InsertEnds(q, t, before, after)],
          if q == EmptyQueue then AddToBitmap(c, st.bm, l) else st.bm)
  }

  lemma NotQueuedElsewhere(c: Config, st: State, queues: Contents, t: Ref, l: Level)
    requires Valid(c, st, queues) && Known(c, l) && t in st.tcbs && (!st.tcbs[t].queued || LevelOf(st.tcbs[t]) != l)
    ensures l in queues && forall k :: 0 <= k < |queues[l]| ==> queues[l][k] != t
  {
    assert QueueOk(c, st, queues, l);
  }

  lemma LevelsApart(c: Config, st: State, queues: Contents, l: Level, m: Level)
    requires Valid(c, st, queues) && Known(c, l) && Known(c, m) && l != m
    ensures l in queues && m in queues && forall k :: 0 <= k < |queues[m]| ==> queues[m][k] !in queues[l]
  {
    assert QueueOk(c, st, queues, l) && QueueOk(c, st, queues, m);
  }

  ghost predicate CanEnter(c: Config, st: State, queues: Contents, t: Ref, i: nat) {
    && Valid(c, st, queues) && t in st.tcbs && !st.tcbs[t].queued
    && LevelOf(st.tcbs[t]) in queues && i <= |queues[LevelOf(st.tcbs[t])]|
  }

  lemma EnterReady(c: Config, st: State, queues: Contents, t: Ref, i: nat)
    requires CanEnter(c, st, queues, t, i)
    ensures var l := LevelOf(st.tcbs[t]);
            && Enterable(c, st, t, Before(queues[l], i), After(queues[l], i)) && QueueOk(c, st, queues, l)
            && (st.ready[Index(c, l)] == EmptyQueue <==> queues[l] == [])
            && t != 0 && forall k :: 0 <= k < |queues[l]| ==> queues[l][k] != t
  {
    var l := LevelOf(st.tcbs[t]);
    assert ThreadOk(c, st, queues, t) && QueueOk(c, st, queues, l);
    GroupInRange(c, l.prio);
    NotQueuedElsewhere(c, st, queues, t, l);
    Neighbours(st.links, st.ready[Index(c, l)], queues[l], i);
    Neighbours(st.links, st.ready[Index(c, l)], queues[l], 0);
  }

  ghost function EnteredContents(queues: Contents, l: Level, i: nat, t: Ref): Contents
    requires l in queues && i <= |queues[l]|
  {
    queues[l := InsertAt(queues[l], i, t)]
  }

  /** The state after `t` enters its queue at position `i`. */
  ghost function EnteredAt(c: Config, st: State, queues: Contents, t: Ref, i: nat): State
    requires CanEnter(c, st, queues, t, i)
  {
    EnterReady(c, st, queues, t, i);
    Entered(c, st, t, Before(queues[LevelOf(st.tcbs[t])], i), After(queues[LevelOf(st.tcbs[t])], i))
  }

  lemma EnteredOwn(c: Config, st: State, queues: Contents, t: Ref, i: nat)
    requires CanEnter(c, st, queues, t, i)
    ensures QueueOk(c, EnteredAt(c, st, queues, t, i), EnteredContents(queues, LevelOf(st.tcbs[t]), i, t),
                    LevelOf(st.tcbs[t]))
  {
    EnterReady(c, st, queues, t, i);
    var l := LevelOf(st.tcbs[t]);
    InsertHolds(st.links, st.ready[Index(c, l)], queues[l], i, t);
  }

  lemma EnteredOther(c: Config, st: State, queues: Contents, t: Ref, i: nat, m: Level)
    requires CanEnter(c, st, queues, t, i) && Known(c, m) && m != LevelOf(st.tcbs[t])
    ensures QueueOk(c, EnteredAt(c, st, queues, t, i), EnteredContents(queues, LevelOf(st.tcbs[t]), i, t), m)
  {
    EnterReady(c, st, queues, t, i);
    var l := LevelOf(st.tcbs[t]);
    var s := queues[l];
    assert QueueOk(c, st, queues, m);
    NotQueuedElsewhere(c, st, queues, t, m);
    if Index(c, m) == Index(c, l) { IndexUnique(c, m, l); }
    LevelsApart(c, st, queues, l, m);
    InsertOnlyIn(st.links, st.ready[Index(c, l)], s, i, t);
    OtherHolds(st.links, InsertLinks(st.links, t, Before(s, i), After(s, i)), s + [t], st.ready[Index(c, m)],
               queues[m]);
  }

  lemma EnteredThreadOk(c: Config, st: State, queues: Contents, t: Ref, i: nat, u: Ref)
    requires CanEnter(c, st, queues, t, i) && u in st.tcbs
    ensures u in EnteredAt(c, st, queues, t, i).tcbs
    ensures ThreadOk(c, EnteredAt(c, st, queues, t, i), EnteredContents(queues, LevelOf(st.tcbs[t]), i, t), u)
  {
    EnterReady(c, st, queues, t, i);
    assert ThreadOk(c, st, queues, u);
    InsertKeeps(queues[LevelOf(st.tcbs[t])], i, t, u);
  }

  lemma EnteredMarks(c: Config, st: State, queues: Contents, t: Ref, i: nat)
    requires CanEnter(c, st, queues, t, i)
    ensures Marks(c, EnteredAt(c, st, queues, t, i).bm, Busy(EnteredContents(queues, LevelOf(st.tcbs[t]), i, t)))
  {
    EnterReady(c, st, queues, t, i);
    var l := LevelOf(st.tcbs[t]);
    var contents := EnteredContents(queues, l, i, t);
    AddMarks(c, st.bm, Busy(queues), l);
    assert Busy(contents) == Busy(queues) + {l};
    assert queues[l] != [] ==> Busy(contents) == Busy(queues);
  }

  /** A thread that enters its queue at position `i` keeps queues and bitmap in order. */
  lemma EnteredValid(c: Config, st: State, queues: Contents, t: Ref, i: nat)
    requires CanEnter(c, st, queues, t, i)
    ensures Valid(c, EnteredAt(c, st, queues, t, i), EnteredContents(queues, LevelOf(st.tcbs[t]), i, t))
  {
    EnterReady(c, st, queues, t, i);
    var l := LevelOf(st.tcbs[t]);
    var after := EnteredAt(c, st, queues, t, i);
    var contents := EnteredContents(queues, l, i, t);
    forall m | Known(c, m) ensures QueueOk(c, after, contents, m) {
      if m == l { EnteredOwn(c, st, queues, t, i); } else { EnteredOther(c, st, queues, t, i, m); }
    }
    forall u | u in after.tcbs ensures ThreadOk(c, after, contents, u) {
      EnteredThreadOk(c, st, queues, t, i, u);
    }
    EnteredMarks(c, st, queues, t, i);
  }

  // ---------------------------------------------------------------- leaving

  /** What taking a thread out of its queue relies on. */
  predicate Leavable(c: Config, st: State, t: Ref) {
    && t in st.tcbs && t in st.links && Index(c, LevelOf(st.tcbs[t])) < |st.ready|
    && (st.links[t].prev == 0 || st.links[t].prev in st.links)
    && (st.links[t].next == 0 || st.links[t].next in st.links)
    && Shaped(c, st.bm) && Known(c, LevelOf(st.tcbs[t])) && Group(c, st.tcbs[t].prio) < Groups(c)
  }

  /** A queued thread taken out of its queue. */
  function Left(c: Config, st: State, t: Ref): State
    requires Leavable(c, st, t)
  {
    var l := LevelOf(st.tcbs[t]);
    State(st.tcbs[t := st.tcbs[t].(queued := false)],
          RemoveLinks(st.links, t),
          st.ready[Index(c, l) := RemoveEnds(st.ready[Index(c, l)], st.links[t])],
          if st.links[t] == Links(0, 0) then RemoveFromBitmap(c, st.bm, l) else st.bm)
  }

  ghost predicate CanLeave(c: Config, st: State, queues: Contents, t: Ref, i: nat) {
    && Valid(c, st, queues) && t in st.tcbs && st.tcbs[t].queued
    && LevelOf(st.tcbs[t]) in queues && i < |queues[LevelOf(st.tcbs[t])]| && queues[LevelOf(st.tcbs[t])][i] == t
  }

  ghost function LeftContents(queues: Contents, l: Level, i: nat): Contents
    requires l in queues && i < |queues[l]|
  {
    queues[l := RemoveAt(queues[l], i)]
  }

  lemma LeaveReady(c: Config, st: State, queues: Contents, t: Ref, i: nat)
    requires CanLeave(c, st, queues, t, i)
    ensures Leavable(c, st, t) && QueueOk(c, st, queues, LevelOf(st.tcbs[t]))
    ensures st.links[t] == Links(0, 0) <==> RemoveAt(queues[LevelOf(st.tcbs[t])], i) == []
  {
    var l := LevelOf(st.tcbs[t]);
    assert ThreadOk(c, st, queues, t) && QueueOk(c, st, queues, l);
    GroupInRange(c, l.prio);
    RemoveReady(st.links, st.ready[Index(c, l)], queues[l], i);
    Neighbours(st.links, st.ready[Index(c, l)], queues[l], i);
    Neighbours(st.links, st.ready[Index(c, l)], queues[l], i + 1);
    assert |RemoveAt(queues[l], i)| == |queues[l]| - 1;
  }

  lemma LeftQueueOk(c: Config, st: State, queues: Contents, t: Ref, i: nat, m: Level)
    requires CanLeave(c, st, queues, t, i) && Known(c, m)
    ensures Leavable(c, st, t) && QueueOk(c, Left(c, st, t), LeftContents(queues, LevelOf(st.tcbs[t]), i), m)
  {
    LeaveReady(c, st, queues, t, i);
    var l := LevelOf(st.tcbs[t]);
    var s := queues[l];
    var q := st.ready[Index(c, l)];
    assert QueueOk(c, st, queues, m);
    if m == l {
      RemoveHolds(st.links, q, s, i);
    } else {
      NotQueuedElsewhere(c, st, queues, t, m);
      if Index(c, m) == Index(c, l) { IndexUnique(c, m, l); }
      LevelsApart(c, st, queues, l, m);
      RemoveOnlyIn(st.links, q, s, i);
      OtherHolds(st.links, RemoveLinks(st.links, t), s, st.ready[Index(c, m)], queues[m]);
    }
  }

  lemma LeftThreadOk(c: Config, st: State, queues: Contents, t: Ref, i: nat, u: Ref)
    requires CanLeave(c, st, queues, t, i) && u in st.tcbs
    ensures Leavable(c, st, t) && ThreadOk(c, Left(c, st, t), LeftContents(queues, LevelOf(st.tcbs[t]), i), u)
  {
    LeaveReady(c, st, queues, t, i);
    var s := queues[LevelOf(st.tcbs[t])];
    assert ThreadOk(c, st, queues, u);
    assert u != t && u in s ==> u in RemoveAt(s, i) by { assert s == s[..i] + [s[i]] + s[i + 1..]; }
  }

  /** A thread that leaves its queue keeps queues and bitmap in order. */
  lemma LeftValid(c: Config, st: State, queues: Contents, t: Ref, i: nat)
    requires CanLeave(c, st, queues, t, i)
    ensures Leavable(c, st, t) && Valid(c, Left(c, st, t), LeftContents(queues, LevelOf(st.tcbs[t]), i))
  {
    LeaveReady(c, st, queues, t, i);
    var l := LevelOf(st.tcbs[t]);
    var after := Left(c, st, t);
    var contents := LeftContents(queues, l, i);
    forall m | Known(c, m) ensures QueueOk(c, after, contents, m) {
      LeftQueueOk(c, st, queues, t, i, m);
    }
    forall u | u in after.tcbs ensures ThreadOk(c, after, contents, u) {
      LeftThreadOk(c, st, queues, t, i, u);
    }
    RemoveMarks(c, st.bm, Busy(queues), l);
    if contents[l] == [] {
      assert Busy(contents) == Busy(queues) - {l};
    } else {
      assert Busy(contents) == Busy(queues);
    }
  }

  /** What tcbSchedDequeue needs and leaves behind. */
  lemma LeaveQueue(c: Config, st: State, queues: Contents, t: Ref) returns (after: Contents)
    requires Valid(c, st, queues) && t in st.tcbs && st.tcbs[t].queued
    ensures Leavable(c, st, t) && Valid(c, Left(c, st, t), after) && LevelOf(st.tcbs[t]) in queues
    ensures after == queues[LevelOf(st.tcbs[t]) := Without(queues[LevelOf(st.tcbs[t])], t)]
  {
    var l := LevelOf(st.tcbs[t]);
    assert ThreadOk(c, st, queues, t) && QueueOk(c, st, queues, l);
    var i: nat :| i < |queues[l]| && queues[l][i] == t;
    LeftValid(c, st, queues, t, i);
    WithoutAt(queues[l], i);
    after := LeftContents(queues, l, i);
  }

  // ---------------------------------------------------------------- the scheduler

  /** The highest priority below `n` with a thread in its queue, found by looking at one queue after the
      other; -1 if there is none. */
  function Scan(queues: Contents, d: nat, n: nat): int {
    if n == 0 then -1
    else if Level(d, n - 1) in queues && queues[Level(d, n - 1)] != [] then n - 1
    else Scan(queues, d, n - 1)
  }

  lemma {:induction false} ScanIsMax(queues: Contents, d: nat, n: nat)
    ensures -1 <= Scan(queues, d, n) < n
    ensures Scan(queues, d, n) >= 0 ==> Level(d, Scan(queues, d, n)) in Busy(queues)
    ensures forall p: nat {:trigger Level(d, p)} :: Scan(queues, d, n) < p < n ==> Level(d, p) !in Busy(queues)
  {
    if n > 0 && !(Level(d, n - 1) in queues && queues[Level(d, n - 1)] != []) {
      ScanIsMax(queues, d, n - 1);
    }
  }

  /** The bitmap and the scan agree. */
  lemma ScanAgrees(c: Config, st: State, queues: Contents, d: nat)
    requires Valid(c, st, queues) && d < c.domains
    ensures Shaped(c, st.bm)
    ensures st.bm.l1[d] == 0 <==> Scan(queues, d, c.prios) == -1
    ensures st.bm.l1[d] != 0 ==> HighBit(st.bm.l1[d]) < Groups(c) && WordOf(c, st.bm, d, HighBit(st.bm.l1[d])) != 0
    ensures st.bm.l1[d] != 0 ==> HighestPrio(c, st.bm, d) == Scan(queues, d, c.prios)
  {
    ScanIsMax(queues, d, c.prios);
    ZeroIsIdle(c, st.bm, Busy(queues), d);
    if st.bm.l1[d] != 0 {
      HighestIsMax(c, st.bm, Busy(queues), d);
      assert Known(c, Level(d, HighestPrio(c, st.bm, d)));
    }
  }

  /** A queue has a head if and only if it has an end. */
  predicate Sane(q: Queue) {
    q.head == 0 <==> q.end == 0
  }

  lemma QueueEnds(links: LinkMap, q: Queue, s: seq<Ref>)
    requires TcbQueues.Holds(links, q, s)
    ensures q.head == After(s, 0) && q.end == Before(s, |s|) && Sane(q)
  {
    Neighbours(links, q, s, 0);
    Neighbours(links, q, s, |s|);
  }

  /** A thread outside the queues can change in any way that keeps it outside, one in a queue if it stays on its
      level. */
  lemma ChangedValid(c: Config, st: State, queues: Contents, t: Ref, tcb: Tcb)
    requires Valid(c, st, queues) && t in st.tcbs && tcb.queued == st.tcbs[t].queued && Known(c, LevelOf(tcb))
    requires tcb.queued ==> LevelOf(tcb) == LevelOf(st.tcbs[t])
    ensures Valid(c, st.(tcbs := st.tcbs[t := tcb]), queues)
  {
    var after := st.(tcbs := st.tcbs[t := tcb]);
    forall l | Known(c, l) ensures QueueOk(c, after, queues, l) {
      assert QueueOk(c, st, queues, l);
    }
    forall u | u in after.tcbs ensures ThreadOk(c, after, queues, u) {
      assert ThreadOk(c, st, queues, u) && ThreadOk(c, st, queues, t);
    }
  }

  function Zeros(n: nat): (s: seq<nat>)
    ensures |s| == n && forall i :: 0 <= i < n ==> s[i] == 0
  {
    seq(n, _ => 0)
  }

  lemma BlankMarks(c: Config, bm: Bitmap)
    requires Shaped(c, bm) && (forall d :: 0 <= d < c.domains ==> bm.l1[d] == 0)
    requires forall d, i :: 0 <= d < c.domains && 0 <= i < Groups(c) ==> bm.l2[d][i] == 0
    ensures Marks(c, bm, {})
  {
    forall d, g, b | 0 <= d < c.domains && 0 <= g < Groups(c) && 0 <= b ensures WordMarks(c, bm, {}, d, g, b) {
      SmallHasNoBit(0, b);
    }
    forall d, g | 0 <= d < c.domains && 0 <= g ensures TopMarks(c, bm, d, g) {
      SmallHasNoBit(0, g);
    }
  }

  lemma BlankValid(c: Config, st: State, queues: Contents)
    requires forall l :: l in queues <==> Known(c, l)
    requires forall l :: l in queues ==> queues[l] == []
    requires |st.ready| == c.domains * c.prios && (forall i :: 0 <= i < |st.ready| ==> st.ready[i] == EmptyQueue)
    requires forall t :: t in st.tcbs ==> t != 0 && t in st.links && Known(c, LevelOf(st.tcbs[t])) && !st.tcbs[t].queued
    requires Shaped(c, st.bm) && (forall d :: 0 <= d < c.domains ==> st.bm.l1[d] == 0)
    requires forall d, i :: 0 <= d < c.domains && 0 <= i < Groups(c) ==> st.bm.l2[d][i] == 0
    ensures Valid(c, st, queues)
  {
    forall l | Known(c, l) ensures QueueOk(c, st, queues, l) {
      IndexInRange(c, l);
    }
    assert Busy(queues) == {};
    BlankMarks(c, st.bm);
  }

  datatype Action = Resume | ChooseNew | SwitchTo(thread: Ref)

  /** Adding a thread to a queue raises it to that queue's priority, at most. */
  lemma ScanMore(before: Contents, l: Level, s: seq<Ref>, d: nat, n: nat)
    requires s != [] && l.prio < n
    ensures Scan(before[l := s], d, n)
         == if l.dom == d && l.prio > Scan(before, d, n) then l.prio else Scan(before, d, n)
  {
    var after := before[l := s];
    ScanIsMax(before, d, n);
    ScanIsMax(after, d, n);
    assert Busy(after) == Busy(before) + {l};
    var p := Scan(after, d, n);
    assert p >= 0 ==> Level(d, p) in Busy(after);
    assert l.dom == d ==> Level(d, l.prio) in Busy(after);
  }

  /** The bitmap of the domain is zero exactly if the scan finds no thread, and otherwise they find the same. */
  ghost predicate Agrees(c: Config, bm: Bitmap, queues: Contents, d: nat)
    requires Shaped(c, bm) && d < c.domains
  {
    && (bm.l1[d] == 0 <==> Scan(queues, d, c.prios) == -1)
    && (bm.l1[d] != 0 ==>
          && HighBit(bm.l1[d]) < Groups(c) && WordOf(c, bm, d, HighBit(bm.l1[d])) != 0
          && HighestPrio(c, bm, d) == Scan(queues, d, c.prios))
  }
}
