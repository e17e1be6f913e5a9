/** Boot-time memory regions: the ordered list of reserved regions and the sweep that subtracts it
    from the available memory (kernel/src/kernel/boot.c). A region is a half-open address range. */
module BootRegions {

  datatype Region = Region(start: nat, end: nat) {
    predicate Empty() {
      start == end
    }

    predicate Has(x: int) {
      start <= x < end
    }
  }

  /** `x` lies in some region of the list. */
  predicate Covered(s: seq<Region>, x: int) {
    s != [] && (s[0].Has(x) || Covered(s[1..], x))
  }

  /** Non-empty regions in address order, neighbours at most touching. */
  predicate Sorted(s: seq<Region>) {
    s != [] ==>
      && s[0].start < s[0].end
      && (|s| > 1 ==> s[0].end <= s[1].start)
      && Sorted(s[1..])
  }

  /** Non-empty regions in address order with a gap between neighbours. */
  predicate Gapped(s: seq<Region>) {
    s != [] ==>
      && s[0].start < s[0].end
      && (|s| > 1 ==> s[0].end < s[1].start)
      && Gapped(s[1..])
  }

  predicate NonEmpty(s: seq<Region>) {
    s != [] ==> s[0].start < s[0].end && NonEmpty(s[1..])
  }

  predicate Disjoint(s: seq<Region>, r: Region) {
    s != [] ==> (s[0].end <= r.start || r.end <= s[0].start) && Disjoint(s[1..], r)
  }

  lemma {:induction false} CoveredAppend(s: seq<Region>, t: seq<Region>, x: int)
    ensures Covered(s + t, x) <==> Covered(s, x) || Covered(t, x)
  {
    if s == [] {
      assert s + t == t;
    } else {
      assert (s + t)[1..] == s[1..] + t;
      CoveredAppend(s[1..], t, x);
    }
  }

  // ----- merge_regions -----

  /** Neighbours that touch become one region. */
  function Merge(s: seq<Region>): (m: seq<Region>)
    ensures |m| <= |s| && (s != [] ==> m != [] && m[0].start == s[0].start)
    decreases |s|
  {
    if |s| < 2 then s
    else if s[0].end == s[1].start then
      assert ([Region(s[0].start, s[1].end)] + s[2..])[0] == Region(s[0].start, s[1].end);
      Merge([Region(s[0].start, s[1].end)] + s[2..])
    else [s[0]] + Merge(s[1..])
  }

  /** Merging leaves gaps everywhere exactly when the list was in order. */
  lemma {:induction false} MergeGapped(s: seq<Region>)
    requires NonEmpty(s)
    ensures Gapped(Merge(s)) <==> Sorted(s)
    decreases |s|
  {
    if |s| >= 2 {
      if s[0].end == s[1].start {
        var t := [Region(s[0].start, s[1].end)] + s[2..];
        assert t[1..] == s[2..] == s[1..][1..];
        assert |t| > 1 ==> t[1] == s[1..][1];
        MergeGapped(t);
      } else {
        MergeGapped(s[1..]);
        assert Merge(s)[1..] == Merge(s[1..]);
      }
    }
  }

  /** Merging changes no address. */
  lemma {:induction false} MergeCovers(s: seq<Region>, x: int)
    requires NonEmpty(s)
    ensures Covered(Merge(s), x) <==> Covered(s, x)
    decreases |s|
  {
    if |s| >= 2 {
      if s[0].end == s[1].start {
        var t := [Region(s[0].start, s[1].end)] + s[2..];
        assert t[1..] == s[2..] == s[1..][1..];
        MergeCovers(t, x);
      } else {
        MergeCovers(s[1..], x);
        assert Merge(s)[1..] == Merge(s[1..]);
      }
    }
  }

  // ----- reserve_region -----

  /** The list after reserving a non-empty region: the loop of reserve_region over the first entries
      of `s`, without regard to capacity. */
  function Place(s: seq<Region>, reg: Region): seq<Region>
    decreases |s|
  {
    if s == [] then [reg]
    else if s[0].start == reg.end then [s[0].(start := reg.start)] + s[1..]
    else if s[0].end == reg.start then [s[0].(end := reg.end)] + s[1..]
    else if s[0].start > reg.end then [reg] + s
    else [s[0]] + Place(s[1..], reg)
  }

  /** Whether the region joins an existing one, so that no new entry is needed. */
  predicate Joins(s: seq<Region>, reg: Region) {
    s != [] && (s[0].start == reg.end || s[0].end == reg.start || (s[0].start <= reg.end && Joins(s[1..], reg)))
  }

  /** What reserve_region leaves when it succeeds: touching regions are merged after a join. */
  function Reserved(s: seq<Region>, reg: Region): seq<Region> {
    if reg.Empty() then s
    else if Joins(s, reg) then Merge(Place(s, reg))
    else Place(s, reg)
  }

  /** Placing adds exactly the region's addresses. */
  lemma {:induction false} PlaceCovers(s: seq<Region>, reg: Region, x: int)
    requires NonEmpty(s) && reg.start < reg.end
    ensures NonEmpty(Place(s, reg)) && |Place(s, reg)| == |s| + (if Joins(s, reg) then 0 else 1)
    ensures Covered(Place(s, reg), x) <==> Covered(s, x) || reg.Has(x)
  {
    if s != [] {
      var p := Place(s, reg);
      if s[0].start == reg.end || s[0].end == reg.start {
        assert p[1..] == s[1..];
      } else if s[0].start > reg.end {
        assert p[1..] == s;
      } else {
        assert p[1..] == Place(s[1..], reg);
        PlaceCovers(s[1..], reg, x);
      }
    }
  }

  /** Everything after the first region of a sorted list lies beyond it. */
  lemma {:induction false} DisjointBeyond(s: seq<Region>, reg: Region)
    requires Gapped(s) && (s != [] ==> reg.end <= s[0].start)
    ensures Disjoint(s, reg)
  {
    if s != [] { DisjointBeyond(s[1..], reg); }
  }

  /** Where the region goes in relation to the first entry, for a list with gaps. */
  lemma {:induction false} PlaceSorted(s: seq<Region>, reg: Region)
    requires Gapped(s) && reg.start < reg.end
    ensures Sorted(Place(s, reg)) <==> Disjoint(s, reg)
    ensures !Joins(s, reg) ==> (Gapped(Place(s, reg)) <==> Disjoint(s, reg))
    ensures s != [] ==> Place(s, reg)[0].start == (if reg.end <= s[0].start then reg.start else s[0].start)
  {
    if s != [] {
      var p := Place(s, reg);
      GappedIsSorted(s);
      if s[0].start == reg.end {
        assert p[1..] == s[1..];
        DisjointBeyond(s, reg);
      } else if s[0].end == reg.start {
        assert p[1..] == s[1..];
        if |s| > 1 && reg.end <= s[1].start { DisjointBeyond(s[1..], reg); }
      } else if s[0].start > reg.end {
        assert p[1..] == s;
        DisjointBeyond(s, reg);
      } else {
        assert p[1..] == Place(s[1..], reg);
        PlaceSorted(s[1..], reg);
      }
    }
  }

  lemma {:induction false} GappedIsSorted(s: seq<Region>)
    requires Gapped(s)
    ensures Sorted(s) && NonEmpty(s)
  {
    if s != [] { GappedIsSorted(s[1..]); }
  }

  /** reserve_region keeps the list sorted with gaps exactly when the region is disjoint from those
      already reserved; in any case it covers what was covered and the new region. */
  lemma ReservedExact(s: seq<Region>, reg: Region)
    requires Gapped(s) && reg.start <= reg.end
    ensures Gapped(Reserved(s, reg)) <==> reg.Empty() || Disjoint(s, reg)
    ensures forall x: int :: Covered(Reserved(s, reg), x) <==> Covered(s, x) || reg.Has(x)
  {
    if !reg.Empty() {
      GappedIsSorted(s);
      PlaceSorted(s, reg);
      PlaceCovers(s, reg, 0);
      MergeGapped(Place(s, reg));
      forall x: int ensures Covered(Reserved(s, reg), x) <==> Covered(s, x) || reg.Has(x) {
        PlaceCovers(s, reg, x);
        MergeCovers(Place(s, reg), x);
      }
    }
  }

  // ----- the sweep of init_freemem -----

  /** Regions in address order, possibly empty. */
  predicate Ordered(s: seq<Region>) {
    s != [] ==>
      && s[0].start <= s[0].end
      && (|s| > 1 ==> s[0].end <= s[1].start)
      && Ordered(s[1..])
  }

  function Min(a: nat, b: nat): nat {
    if a < b then a else b
  }

  /** One round of the sweep: the regions it inserts, and what is left of the two lists, the first
      available region having been trimmed. */
  datatype Round = Round(out: seq<Region>, avail: seq<Region>, resv: seq<Region>)

  function SweepOnce(avail: seq<Region>, resv: seq<Region>): (once: Round)
    requires avail != [] && resv != []
    ensures |once.avail| + |once.resv| == |avail| + |resv| - 1 && |once.out| <= 1
    ensures once.resv == resv || once.resv == resv[1..]
  {
    var a, r := avail[0], resv[0];
    if r.Empty() then Round([], avail, resv[1..])
    else if a.start >= a.end then Round([], avail[1..], resv)
    else if r.end <= a.start then Round([], avail, resv[1..])
    else if r.start >= a.end then Round([a], avail[1..], resv)
    else if r.start <= a.start then Round([], [a.(start := Min(a.end, r.end))] + avail[1..], resv[1..])
    else if a.end > r.end then Round([a.(end := r.start)], [a.(start := r.end)] + avail[1..], resv[1..])
    else Round([a.(end := r.start)], avail[1..], resv)
  }

  /** The free regions the sweep inserts, in order. */
  function Sweep(avail: seq<Region>, resv: seq<Region>): seq<Region>
    decreases |avail| + |resv|
  {
    if avail == [] then []
    else if resv == [] then (if avail[0].start < avail[0].end then [avail[0]] else []) + Sweep(avail[1..], [])
    else
      var once := SweepOnce(avail, resv);
      once.out + Sweep(once.avail, once.resv)
  }

  /** Some region of the list, not empty, begins before `x`. */
  predicate BeginsBefore(s: seq<Region>, x: int) {
    s != [] && ((s[0].start < s[0].end && s[0].start < x) || BeginsBefore(s[1..], x))
  }

  /** This round trims the start of the available region and drops the reserved one. */
  predicate Trims(avail: seq<Region>, resv: seq<Region>) {
    avail != [] && resv != [] && avail[0].start < avail[0].end
    && !resv[0].Empty() && resv[0].start <= avail[0].start < resv[0].end
  }

  /** In some round the sweep drops a reserved region that still reaches into a later available one. */
  predicate Spills(avail: seq<Region>, resv: seq<Region>)
    decreases |avail| + |resv|
  {
    avail != [] && resv != [] &&
    ((Trims(avail, resv) && BeginsBefore(avail[1..], resv[0].end))
     || Spills(SweepOnce(avail, resv).avail, SweepOnce(avail, resv).resv))
  }

  lemma {:induction false} OrderedBeyond(s: seq<Region>, x: int)
    requires Ordered(s) && s != [] && x < s[0].start
    ensures !Covered(s, x)
  {
    if |s| > 1 { OrderedBeyond(s[1..], x); }
  }

  /** An address below the end of a list's first region is not in the rest. */
  lemma OrderedRest(s: seq<Region>, x: int)
    requires Ordered(s) && s != [] && x < s[0].end
    ensures !Covered(s[1..], x)
  {
    if |s| > 1 { OrderedBeyond(s[1..], x); }
  }

  lemma {:induction false} SweepNoReserved(avail: seq<Region>, x: int)
    requires Ordered(avail)
    ensures Covered(Sweep(avail, []), x) <==> Covered(avail, x)
  {
    if avail != [] {
      SweepNoReserved(avail[1..], x);
      var first := if avail[0].start < avail[0].end then [avail[0]] else [];
      CoveredAppend(first, Sweep(avail[1..], []), x);
      assert Covered(first, x) <==> avail[0].Has(x);
    }
  }

  lemma {:induction false} BeginsAfter(s: seq<Region>, d: int, x: int)
    requires Ordered(s) && !BeginsBefore(s, d) && Covered(s, x)
    ensures d <= x
  {
    if !s[0].Has(x) { BeginsAfter(s[1..], d, x); }
  }

  lemma CoveredCons(r: Region, s: seq<Region>, x: int)
    ensures Covered([r] + s, x) <==> r.Has(x) || Covered(s, x)
  {
    assert ([r] + s)[1..] == s;
  }

  /** What the lists of a later state of the sweep have to satisfy for a step to be right about `x`. */
  ghost predicate Right(avail: seq<Region>, resv: seq<Region>, x: int) {
    && (Covered(avail, x) && !Covered(resv, x) ==> Covered(Sweep(avail, resv), x))
    && (Covered(Sweep(avail, resv), x) ==> Covered(avail, x))
    && (!Spills(avail, resv) && Covered(Sweep(avail, resv), x) ==> !Covered(resv, x))
  }

  lemma OnceOrdered(avail: seq<Region>, resv: seq<Region>)
    requires avail != [] && resv != [] && Ordered(avail) && Ordered(resv)
    ensures Ordered(SweepOnce(avail, resv).avail) && Ordered(SweepOnce(avail, resv).resv)
  {
    var a, r := avail[0], resv[0];
    assert ([a.(start := Min(a.end, r.end))] + avail[1..])[1..] == avail[1..];
    assert ([a.(start := r.end)] + avail[1..])[1..] == avail[1..];
  }

  /** Where an address stands before and after one round. */
  lemma OnceCovers(avail: seq<Region>, resv: seq<Region>, x: int)
    requires avail != [] && resv != [] && Ordered(avail) && Ordered(resv)
    ensures var once := SweepOnce(avail, resv);
            && (Covered(once.avail, x) || Covered(once.out, x) ==> Covered(avail, x))
            && (Covered(once.resv, x) ==> Covered(resv, x))
            && (Covered(once.out, x) ==> !Covered(resv, x))
            && (Covered(avail, x) && !Covered(resv, x) ==> Covered(once.avail, x) || Covered(once.out, x))
  {
    var a, r := avail[0], resv[0];
    CoveredCons(a.(start := Min(a.end, r.end)), avail[1..], x);
    CoveredCons(a.(start := r.end), avail[1..], x);
    assert Covered([a], x) <==> a.Has(x) by { assert [a][1..] == []; }
    var m := a.(end := r.start);
    assert Covered([m], x) <==> m.Has(x) by { assert [m][1..] == []; }
    if x < r.start { OrderedBeyond(resv, x); }
  }

  /** Unless this round spills, it drops a reserved region only once no available address is in it. */
  lemma OnceDrops(avail: seq<Region>, resv: seq<Region>, x: int)
    requires avail != [] && resv != [] && Ordered(avail) && Ordered(resv)
    requires Trims(avail, resv) ==> !BeginsBefore(avail[1..], resv[0].end)
    ensures var once := SweepOnce(avail, resv);
            Covered(once.avail, x) && !Covered(once.resv, x) ==> !Covered(resv, x)
  {
    var a, r := avail[0], resv[0];
    CoveredCons(a.(start := Min(a.end, r.end)), avail[1..], x);
    CoveredCons(a.(start := r.end), avail[1..], x);
    if x < a.start { OrderedBeyond(avail, x); }
    if x < a.end { OrderedRest(avail, x); }
    if Trims(avail, resv) && Covered(avail[1..], x) { BeginsAfter(avail[1..], r.end, x); }
  }

  /** The sweep keeps all available memory that is not reserved, adds none that is not available,
      and keeps reserved memory only after a spill. */
  lemma {:induction false} SweepRight(avail: seq<Region>, resv: seq<Region>, x: int)
    requires Ordered(avail) && Ordered(resv)
    ensures Right(avail, resv, x)
    decreases |avail| + |resv|
  {
    if avail == [] {
    } else if resv == [] {
      SweepNoReserved(avail, x);
    } else {
      var once := SweepOnce(avail, resv);
      OnceOrdered(avail, resv);
      SweepRight(once.avail, once.resv, x);
      OnceCovers(avail, resv, x);
      CoveredAppend(once.out, Sweep(once.avail, once.resv), x);
      if !Spills(avail, resv) { OnceDrops(avail, resv, x); }
    }
  }

  /** After a spill some reserved address is given out as free. */
  lemma {:induction false} SpillLeaks(avail: seq<Region>, resv: seq<Region>) returns (x: int)
    requires Ordered(avail) && Ordered(resv) && Spills(avail, resv)
    ensures Covered(resv, x) && Covered(Sweep(avail, resv), x)
    decreases |avail| + |resv|
  {
    var once := SweepOnce(avail, resv);
    OnceOrdered(avail, resv);
    if Trims(avail, resv) && BeginsBefore(avail[1..], resv[0].end) {
      x := FirstBefore(avail[1..], resv[0].end);
      CoveredCons(once.avail[0], avail[1..], x);
      OrderedRest(resv, x);
      SweepRight(once.avail, once.resv, x);
    } else {
      x := SpillLeaks(once.avail, once.resv);
    }
    OnceCovers(avail, resv, x);
    CoveredAppend(once.out, Sweep(once.avail, once.resv), x);
  }

  lemma {:induction false} FirstBefore(s: seq<Region>, d: int) returns (x: int)
    requires Ordered(s) && BeginsBefore(s, d)
    ensures Covered(s, x) && s[0].start <= x < d
  {
    if s[0].start < s[0].end && s[0].start < d { x := s[0].start; }
    else { x := FirstBefore(s[1..], d); }
  }

  /** The sweep is exact about address `x`: it is free if and only if available and not reserved. */
  predicate FreeAt(avail: seq<Region>, resv: seq<Region>, x: int) {
    Covered(Sweep(avail, resv), x) <==> Covered(avail, x) && !Covered(resv, x)
  }

  // ----- when the sweep is exact, read off the two lists -----

  predicate Overlap(a: Region, r: Region) {
    a.start < a.end && r.start < r.end && a.start < r.end && r.start < a.end
  }

  /** The available region `a` begins below `r`, and right below `r` it is not reserved: there is a free piece
      between the two, after which the sweep goes on to the next available region with `r` still at hand. */
  predicate PieceBefore(a: Region, r: Region, resv: seq<Region>) {
    a.start < r.start && !Covered(resv, r.start - 1)
  }

  /** `r` overlaps an available region, reaches past the start of a later one, and leaves no free piece right
      below it in the first. */
  predicate Crosses(avail: seq<Region>, r: Region, resv: seq<Region>) {
    && avail != []
    && (|| (Overlap(avail[0], r) && BeginsBefore(avail[1..], r.end) && !PieceBefore(avail[0], r, resv))
        || Crosses(avail[1..], r, resv))
  }

  predicate AnyCrosses(avail: seq<Region>, rs: seq<Region>, resv: seq<Region>) {
    rs != [] && (Crosses(avail, rs[0], resv) || AnyCrosses(avail, rs[1..], resv))
  }

  predicate AllFrom(s: seq<Region>, x: int) {
    s != [] ==> x <= s[0].start && AllFrom(s[1..], x)
  }

  lemma {:induction false} OrderedFrom(s: seq<Region>, x: int)
    requires Ordered(s) && (s != [] ==> x <= s[0].start)
    ensures AllFrom(s, x)
  {
    if s != [] { OrderedFrom(s[1..], x); }
  }

  lemma {:induction false} FromNotBefore(s: seq<Region>, x: int, y: int)
    requires AllFrom(s, x) && y <= x
    ensures !BeginsBefore(s, y)
  {
    if s != [] { FromNotBefore(s[1..], x, y); }
  }

  lemma {:induction false} CrossesBegins(s: seq<Region>, r: Region, resv: seq<Region>)
    requires Crosses(s, r, resv)
    ensures BeginsBefore(s, r.end)
  {
    if Crosses(s[1..], r, resv) { CrossesBegins(s[1..], r, resv); }
  }

  /** A reserved region below all available ones makes no difference to the others. */
  lemma {:induction false} CrossesWithout(s: seq<Region>, r: Region, r0: Region, rest: seq<Region>)
    requires r0.end <= r.start && (r0.Empty() || !BeginsBefore(s, r0.end))
    ensures Crosses(s, r, [r0] + rest) <==> Crosses(s, r, rest)
  {
    if s != [] {
      CoveredCons(r0, rest, r.start - 1);
      CrossesWithout(s[1..], r, r0, rest);
    }
  }

  lemma {:induction false} AnyWithout(s: seq<Region>, rs: seq<Region>, r0: Region, rest: seq<Region>)
    requires AllFrom(rs, r0.end) && (r0.Empty() || !BeginsBefore(s, r0.end))
    ensures AnyCrosses(s, rs, [r0] + rest) <==> AnyCrosses(s, rs, rest)
  {
    if rs != [] {
      CrossesWithout(s, rs[0], r0, rest);
      AnyWithout(s, rs[1..], r0, rest);
    }
  }

  /** The first available region trimmed to what lies above `r0`, which overlaps it and nothing later. */
  lemma {:induction false} CrossesTrimmed(a: Region, tail: seq<Region>, r: Region, r0: Region, rest: seq<Region>)
    requires Overlap(a, r0) && r0.end <= r.start && !BeginsBefore(tail, r0.end)
    ensures Crosses([a] + tail, r, [r0] + rest) <==> Crosses([a.(start := Min(a.end, r0.end))] + tail, r, rest)
  {
    assert ([a] + tail)[1..] == tail && ([a.(start := Min(a.end, r0.end))] + tail)[1..] == tail;
    CoveredCons(r0, rest, r.start - 1);
    CrossesWithout(tail, r, r0, rest);
  }

  lemma {:induction false} AnyTrimmed(a: Region, tail: seq<Region>, rs: seq<Region>, r0: Region, rest: seq<Region>)
    requires Overlap(a, r0) && AllFrom(rs, r0.end) && !BeginsBefore(tail, r0.end)
    ensures AnyCrosses([a] + tail, rs, [r0] + rest)
       <==> AnyCrosses([a.(start := Min(a.end, r0.end))] + tail, rs, rest)
  {
    if rs != [] {
      CrossesTrimmed(a, tail, rs[0], r0, rest);
      AnyTrimmed(a, tail, rs[1..], r0, rest);
    }
  }

  /** An available region that is empty or below all reserved ones makes no difference. */
  lemma {:induction false} AnyBelow(a: Region, tail: seq<Region>, rs: seq<Region>, resv: seq<Region>)
    requires a.start >= a.end || AllFrom(rs, a.end)
    ensures AnyCrosses([a] + tail, rs, resv) <==> AnyCrosses(tail, rs, resv)
  {
    if rs != [] {
      assert ([a] + tail)[1..] == tail;
      AnyBelow(a, tail, rs[1..], resv);
    }
  }

  /** A round that drops its reserved region: the condition held of that one, or holds of what is left. */
  lemma {:induction false} OnceDropsReserved(avail: seq<Region>, resv: seq<Region>)
    requires avail != [] && resv != [] && Ordered(avail) && Ordered(resv)
    requires SweepOnce(avail, resv).resv == resv[1..]
    ensures AnyCrosses(avail, resv, resv)
       <==> || (Trims(avail, resv) && BeginsBefore(avail[1..], resv[0].end))
            || AnyCrosses(SweepOnce(avail, resv).avail, resv[1..], resv[1..])
  {
    var a, tail, r, rest := avail[0], avail[1..], resv[0], resv[1..];
    assert avail == [a] + tail && resv == [r] + rest;
    OrderedFrom(rest, r.end);
    if Crosses(tail, r, resv) { CrossesBegins(tail, r, resv); }
    if r.Empty() {
      if Crosses(avail, r, resv) { EmptyCrossesNot(avail, r, resv); }
      AnyWithout(avail, rest, r, rest);
    } else if r.end <= a.start {
      OrderedFrom(avail, r.end);
      FromNotBefore(avail, r.end, r.end);
      if Crosses(avail, r, resv) { CrossesBegins(avail, r, resv); }
      AnyWithout(avail, rest, r, rest);
    } else {
      OrderedFrom(tail, a.end);
      if r.end < a.end { FromNotBefore(tail, a.end, r.end); }
      if !BeginsBefore(tail, r.end) { AnyTrimmed(a, tail, rest, r, rest); }
    }
  }

  lemma {:induction false} EmptyCrossesNot(s: seq<Region>, r: Region, resv: seq<Region>)
    requires r.start >= r.end
    ensures !Crosses(s, r, resv)
  {
    if s != [] { EmptyCrossesNot(s[1..], r, resv); }
  }

  /** A round that keeps its reserved region drops an available one that has no part in the condition. */
  lemma {:induction false} OnceKeepsReserved(avail: seq<Region>, resv: seq<Region>)
    requires avail != [] && resv != [] && Ordered(avail) && Ordered(resv)
    requires !resv[0].Empty() && SweepOnce(avail, resv).resv == resv && SweepOnce(avail, resv).avail == avail[1..]
    ensures AnyCrosses(avail, resv, resv) <==> AnyCrosses(avail[1..], resv, resv)
    ensures !Trims(avail, resv)
  {
    var a, tail, r, rest := avail[0], avail[1..], resv[0], resv[1..];
    assert avail == [a] + tail;
    if a.start >= a.end || r.start >= a.end {
      if a.start < a.end { OrderedFrom(resv, a.end); }
      AnyBelow(a, tail, resv, resv);
    } else {
      OrderedBeyond(resv, r.start - 1);
      OrderedFrom(rest, a.end);
      AnyBelow(a, tail, rest, resv);
    }
  }

  /** The sweep drops a reserved region too early in some round exactly if the lists say so. */
  lemma {:induction false} SpillsIffCrosses(avail: seq<Region>, resv: seq<Region>)
    requires Ordered(avail) && Ordered(resv)
    ensures Spills(avail, resv) <==> AnyCrosses(avail, resv, resv)
    decreases |avail| + |resv|
  {
    if avail == [] {
      NothingCrosses(resv, resv);
    } else if resv != [] {
      var once := SweepOnce(avail, resv);
      OnceOrdered(avail, resv);
      SpillsIffCrosses(once.avail, once.resv);
      if once.resv == resv[1..] {
        OnceDropsReserved(avail, resv);
      } else {
        OnceKeepsReserved(avail, resv);
      }
    }
  }

  lemma {:induction false} NothingCrosses(rs: seq<Region>, resv: seq<Region>)
    ensures !AnyCrosses([], rs, resv)
  {
    if rs != [] { NothingCrosses(rs[1..], resv); }
  }

  /** Free memory is exactly the available memory that is not reserved if and only if no reserved region that
      overlaps an available one reaches past the start of a later one, unless the memory right below it in the
      first is free. */
  lemma FreeMemoryExact(avail: seq<Region>, resv: seq<Region>)
    requires Ordered(avail) && Ordered(resv)
    ensures (forall x: int :: FreeAt(avail, resv, x)) <==> !AnyCrosses(avail, resv, resv)
  {
    SpillsIffCrosses(avail, resv);
    if Spills(avail, resv) {
      var x := SpillLeaks(avail, resv);
      assert !FreeAt(avail, resv, x);
    } else {
      forall x: int ensures FreeAt(avail, resv, x) { SweepRight(avail, resv, x); }
    }
  }

  /** No reserved region overlaps two available ones. */
  predicate Straddles(avail: seq<Region>, r: Region) {
    avail != [] && ((avail[0].start < r.end && r.start < avail[0].end && avail[0].start < avail[0].end
                     && BeginsBefore(avail[1..], r.end))
                    || Straddles(avail[1..], r))
  }

  predicate AnyStraddles(avail: seq<Region>, resv: seq<Region>) {
    resv != [] && (Straddles(avail, resv[0]) || AnyStraddles(avail, resv[1..]))
  }

  /** Trimming the first available region or dropping it makes no region straddle. */
  lemma {:induction false} NoStraddleTrim(a: Region, a': Region, rest: seq<Region>, resv: seq<Region>)
    requires !AnyStraddles([a] + rest, resv) && a.start <= a'.start && a'.end == a.end
    ensures !AnyStraddles([a'] + rest, resv) && !AnyStraddles(rest, resv)
  {
    assert ([a] + rest)[1..] == rest && ([a'] + rest)[1..] == rest;
    if resv != [] {
      NoStraddleTrim(a, a', rest, resv[1..]);
    }
  }

  lemma NoStraddleOnce(avail: seq<Region>, resv: seq<Region>)
    requires avail != [] && resv != [] && Ordered(avail) && !AnyStraddles(avail, resv)
    ensures !(Trims(avail, resv) && BeginsBefore(avail[1..], resv[0].end))
    ensures !AnyStraddles(SweepOnce(avail, resv).avail, SweepOnce(avail, resv).resv)
  {
    var a, r, rest := avail[0], resv[0], avail[1..];
    assert avail == [a] + rest;
    NoStraddleTrim(a, a, rest, resv);
    NoStraddleTrim(a, a.(start := if a.start <= Min(a.end, r.end) then Min(a.end, r.end) else a.start), rest,
                   resv[1..]);
  }

  /** The simple sufficient condition: with no reserved region across two available ones the sweep
      never spills. */
  lemma {:induction false} NoStraddleNoSpill(avail: seq<Region>, resv: seq<Region>)
    requires Ordered(avail) && Ordered(resv) && !AnyStraddles(avail, resv)
    ensures !Spills(avail, resv)
    decreases |avail| + |resv|
  {
    if avail != [] && resv != [] {
      OnceOrdered(avail, resv);
      NoStraddleOnce(avail, resv);
      NoStraddleNoSpill(SweepOnce(avail, resv).avail, SweepOnce(avail, resv).resv);
    }
  }

  /** A reserved region across two available ones: the second is given out whole. */
  lemma SpillWitness()
    ensures var avail, resv := [Region(0, 10), Region(20, 30)], [Region(0, 25)];
            Ordered(avail) && Ordered(resv)
            && Sweep(avail, resv) == [Region(20, 30)] && Covered(resv, 20)
  {
    var avail, resv := [Region(0, 10), Region(20, 30)], [Region(0, 25)];
    assert [avail[0].(start := 10)] + avail[1..] == [Region(10, 10), Region(20, 30)];
    assert Sweep([Region(10, 10), Region(20, 30)], []) == [Region(20, 30)];
  }

  // ----- the reserved array after the sweep -----

  /** As many of `s` as there is room for. */
  function Fitting<T>(s: seq<T>, room: nat): (f: seq<T>)
    ensures |f| <= room && |f| <= |s|
  {
    if |s| <= room then s else s[..room]
  }

  /** reserve_region on an array of `cap` entries: nothing changes when a new entry is needed and none is left. */
  function Marked(s: seq<Region>, reg: Region, cap: nat): seq<Region> {
    if reg.Empty() || Joins(s, reg) || |s| + 1 < cap then Reserved(s, reg) else s
  }

  function MarkAll(s: seq<Region>, regs: seq<Region>, cap: nat): seq<Region>
    decreases |regs|
  {
    if regs == [] then s else MarkAll(Marked(s, regs[0], cap), regs[1..], cap)
  }

  lemma {:induction false} MarkOne(s: seq<Region>, r: Region, cap: nat)
    ensures MarkAll(s, [r], cap) == Marked(s, r, cap) && MarkAll(s, [], cap) == s
  {
    assert [r][1..] == [];
  }

  lemma {:induction false} MarkAllAppend(s: seq<Region>, x: seq<Region>, y: seq<Region>, cap: nat)
    ensures MarkAll(s, x + y, cap) == MarkAll(MarkAll(s, x, cap), y, cap)
    decreases |x|
  {
    if x == [] {
      assert x + y == y;
    } else {
      assert (x + y)[1..] == x[1..] + y;
      MarkAllAppend(Marked(s, x[0], cap), x[1..], y, cap);
    }
  }

  /** The region, unless it is empty. */
  function Solid(r: Region): seq<Region> {
    if r.start < r.end then [r] else []
  }

  /** What one round of the sweep marks as reserved: the piece it hands out, if the free list has room for it,
      and the reserved region it drops, if that is not empty. */
  function OnceMarks(avail: seq<Region>, resv: seq<Region>, room: nat): seq<Region>
    requires avail != [] && resv != []
  {
    var once := SweepOnce(avail, resv);
    Fitting(once.out, room) + Dropped(resv, once.resv)
  }

  /** The first reserved region, if it is not empty and not among those left. */
  function Dropped(resv: seq<Region>, left: seq<Region>): seq<Region>
    requires resv != []
  {
    if |left| < |resv| && !resv[0].Empty() then [resv[0]] else []
  }

  /** All that the sweep and the two loops after it mark, in order. */
  function SweepMarks(avail: seq<Region>, resv: seq<Region>, room: nat): seq<Region>
    decreases |avail| + |resv|
  {
    if avail == [] then (if resv == [] then [] else Solid(resv[0]) + SweepMarks([], resv[1..], room))
    else if resv == [] then
      var out := Fitting(Solid(avail[0]), room);
      out + SweepMarks(avail[1..], [], room - |out|)
    else
      var once := SweepOnce(avail, resv);
      OnceMarks(avail, resv, room) + SweepMarks(once.avail, once.resv, room - |Fitting(once.out, room)|)
  }

  lemma {:induction false} MarksCount(avail: seq<Region>, resv: seq<Region>, room: nat)
    ensures |SweepMarks(avail, resv, room)| <= |avail| + 2 * |resv|
    decreases |avail| + |resv|
  {
    if avail == [] {
      if resv != [] { MarksCount([], resv[1..], room); }
    } else if resv == [] {
      MarksCount(avail[1..], [], room - |Fitting(Solid(avail[0]), room)|);
    } else {
      var once := SweepOnce(avail, resv);
      var left := room - |Fitting(once.out, room)|;
      MarksCount(once.avail, once.resv, left);
      RoundCount(avail, resv, room, |SweepMarks(once.avail, once.resv, left)|);
    }
  }

  lemma {:induction false} RoundCount(avail: seq<Region>, resv: seq<Region>, room: nat, n: nat)
    requires avail != [] && resv != [] && n <= |SweepOnce(avail, resv).avail| + 2 * |SweepOnce(avail, resv).resv|
    ensures |OnceMarks(avail, resv, room)| + n <= |avail| + 2 * |resv|
  {
  }

  /** The marks cover `x` exactly if it is reserved or free memory. */
  ghost predicate MarksCoverAt(avail: seq<Region>, resv: seq<Region>, room: nat, x: int) {
    Covered(SweepMarks(avail, resv, room), x) <==> Covered(resv, x) || Covered(Sweep(avail, resv), x)
  }

  /** With room for every piece, the marks cover the reserved and the free memory. */
  lemma {:induction false} MarksCover(avail: seq<Region>, resv: seq<Region>, room: nat, x: int)
    requires |Sweep(avail, resv)| <= room && Ordered(avail) && Ordered(resv)
    ensures MarksCoverAt(avail, resv, room, x)
    decreases |avail| + |resv|
  {
    if avail == [] || resv == [] {
      RestCovers(avail, resv, room, x);
    } else {
      var once := RoundCovers(avail, resv, room, x);
      MarksCover(once.avail, once.resv, room - |once.out|, x);
    }
  }

  lemma {:induction false} SweepRounds(avail: seq<Region>, resv: seq<Region>, room: nat) returns (once: Round)
    requires avail != [] && resv != [] && Ordered(avail) && Ordered(resv) && |Sweep(avail, resv)| <= room
    ensures Ordered(once.avail) && Ordered(once.resv) && |once.out| <= room
    ensures |Sweep(once.avail, once.resv)| <= room - |once.out|
    ensures |once.avail| + |once.resv| < |avail| + |resv| && (once.resv == resv || once.resv == resv[1..])
    ensures Sweep(avail, resv) == once.out + Sweep(once.avail, once.resv)
    ensures SweepMarks(avail, resv, room)
         == (once.out + Dropped(resv, once.resv)) + SweepMarks(once.avail, once.resv, room - |once.out|)
  {
    once := SweepOnce(avail, resv);
    OnceOrdered(avail, resv);
    SweepUnfolds(avail, resv, once);
    MarksUnfold(avail, resv, room, once);
  }

  lemma {:induction false} SweepUnfolds(avail: seq<Region>, resv: seq<Region>, once: Round)
    requires avail != [] && resv != [] && once == SweepOnce(avail, resv)
    ensures Sweep(avail, resv) == once.out + Sweep(once.avail, once.resv)
  {
  }

  lemma {:induction false} MarksUnfold(avail: seq<Region>, resv: seq<Region>, room: nat, once: Round)
    requires avail != [] && resv != [] && once == SweepOnce(avail, resv) && |once.out| <= room
    ensures SweepMarks(avail, resv, room)
         == (once.out + Dropped(resv, once.resv)) + SweepMarks(once.avail, once.resv, room - |once.out|)
  {
    var marks := OnceMarks(avail, resv, room);
    assert SweepMarks(avail, resv, room) == marks + SweepMarks(once.avail, once.resv, room - |once.out|);
    FittingOnce(avail, resv, room, once, marks);
  }

  lemma {:induction false} FittingOnce(avail: seq<Region>, resv: seq<Region>, room: nat, once: Round,
                                       marks: seq<Region>)
    requires avail != [] && resv != [] && once == SweepOnce(avail, resv) && |once.out| <= room
    requires marks == OnceMarks(avail, resv, room)
    ensures marks == once.out + Dropped(resv, once.resv)
  {
  }

  lemma {:induction false} RestCovers(avail: seq<Region>, resv: seq<Region>, room: nat, x: int)
    requires |Sweep(avail, resv)| <= room && Ordered(avail) && Ordered(resv) && (avail == [] || resv == [])
    ensures MarksCoverAt(avail, resv, room, x)
    decreases |avail| + |resv|
  {
    if avail == [] {
      if resv != [] {
        RestCovers([], resv[1..], room, x);
        SolidCovers(resv[0], SweepMarks([], resv[1..], room), x);
      }
    } else {
      var left := room - |Solid(avail[0])|;
      RestCovers(avail[1..], [], left, x);
      SolidCovers(avail[0], SweepMarks(avail[1..], [], left), x);
      SolidCovers(avail[0], Sweep(avail[1..], []), x);
    }
  }

  lemma {:induction false} RoundCovers(avail: seq<Region>, resv: seq<Region>, room: nat, x: int)
    returns (once: Round)
    requires avail != [] && resv != [] && Ordered(avail) && Ordered(resv) && |Sweep(avail, resv)| <= room
    ensures Ordered(once.avail) && Ordered(once.resv) && |once.avail| + |once.resv| < |avail| + |resv|
    ensures |once.out| <= room && |Sweep(once.avail, once.resv)| <= room - |once.out|
    ensures MarksCoverAt(once.avail, once.resv, room - |once.out|, x) ==> MarksCoverAt(avail, resv, room, x)
  {
    once := SweepRounds(avail, resv, room);
    var marks, free := SweepMarks(once.avail, once.resv, room - |once.out|), Sweep(once.avail, once.resv);
    if MarksCoverAt(once.avail, once.resv, room - |once.out|, x) {
      PartsCover(resv, once.resv, once.out, marks, free, x);
    }
  }

  lemma {:induction false} PartsCover(resv: seq<Region>, left: seq<Region>, out: seq<Region>, marks: seq<Region>,
                                      free: seq<Region>, x: int)
    requires resv != [] && resv[0].start <= resv[0].end && (left == resv || left == resv[1..])
    requires Covered(marks, x) <==> Covered(left, x) || Covered(free, x)
    ensures Covered((out + Dropped(resv, left)) + marks, x) <==> Covered(resv, x) || Covered(out + free, x)
  {
    var dropped := Dropped(resv, left);
    assert (out + dropped) + marks == out + (dropped + marks);
    CoveredAppend(out, dropped + marks, x);
    CoveredAppend(out, free, x);
    DroppedCovers(resv, left, marks, x);
  }

  lemma {:induction false} DroppedCovers(resv: seq<Region>, left: seq<Region>, marks: seq<Region>, x: int)
    requires resv != [] && resv[0].start <= resv[0].end && (left == resv || left == resv[1..])
    requires Covered(left, x) ==> Covered(marks, x)
    ensures Covered(Dropped(resv, left) + marks, x) <==> Covered(marks, x) || Covered(resv, x)
  {
    if Dropped(resv, left) == [] { assert [] + marks == marks; } else { CoveredCons(resv[0], marks, x); }
  }

  lemma {:induction false} SolidCovers(r: Region, s: seq<Region>, x: int)
    requires r.start <= r.end
    ensures Covered(Solid(r) + s, x) <==> r.Has(x) || Covered(s, x)
  {
    if r.start < r.end { CoveredCons(r, s, x); } else { assert Solid(r) + s == s; }
  }

  /** Sorted, and from `x` on. */
  predicate SortedFrom(s: seq<Region>, x: int) {
    Sorted(s) && (s != [] ==> x <= s[0].start)
  }

  lemma {:induction false} SolidSorted(r: Region, s: seq<Region>, x: int)
    requires SortedFrom(s, if r.start < r.end then r.end else x) && (r.start < r.end ==> x <= r.start)
    ensures SortedFrom(Solid(r) + s, x)
  {
    if r.start < r.end { assert ([r] + s)[1..] == s; } else { assert Solid(r) + s == s; }
  }

  /** What is left after one round lies above what it marked. */
  lemma {:induction false} OnceAbove(avail: seq<Region>, resv: seq<Region>, room: nat, x: int,
                                     marks: seq<Region>) returns (y: int)
    requires avail != [] && resv != [] && Ordered(avail) && Ordered(resv)
    requires !(Trims(avail, resv) && BeginsBefore(avail[1..], resv[0].end))
    requires !BeginsBefore(avail, x) && !BeginsBefore(resv, x)
    ensures !BeginsBefore(SweepOnce(avail, resv).avail, y) && !BeginsBefore(SweepOnce(avail, resv).resv, y)
    ensures SortedFrom(marks, y) ==> SortedFrom(OnceMarks(avail, resv, room) + marks, x)
  {
    var a, tail, r, rest := avail[0], avail[1..], resv[0], resv[1..];
    OrderedFrom(rest, r.end);
    OrderedFrom(tail, a.end);
    FromNotBefore(rest, r.end, r.end);
    FromNotBefore(tail, a.end, a.end);
    y := x;
    if r.Empty() || a.start >= a.end {
      assert OnceMarks(avail, resv, room) + marks == marks;
    } else if r.end <= a.start {
      y := r.end;
      OrderedFrom(avail, r.end);
      FromNotBefore(avail, r.end, r.end);
      assert OnceMarks(avail, resv, room) == Solid(r);
      if SortedFrom(marks, y) { SolidSorted(r, marks, x); }
    } else if r.start >= a.end {
      y := if room > 0 then a.end else x;
      OrderedFrom(resv, a.end);
      FromNotBefore(resv, a.end, a.end);
      assert OnceMarks(avail, resv, room) == Fitting([a], room);
      if room == 0 { assert Fitting([a], room) + marks == marks; }
      else if SortedFrom(marks, y) { SolidSorted(a, marks, x); }
    } else if r.start <= a.start {
      y := r.end;
      assert SweepOnce(avail, resv).avail[1..] == tail;
      assert OnceMarks(avail, resv, room) == Solid(r);
      if SortedFrom(marks, y) { SolidSorted(r, marks, x); }
    } else {
      y := PieceAbove(avail, resv, room, x, marks);
    }
  }

  lemma {:induction false} PieceAbove(avail: seq<Region>, resv: seq<Region>, room: nat, x: int,
                                      marks: seq<Region>) returns (y: int)
    requires avail != [] && resv != [] && Ordered(avail) && Ordered(resv)
    requires !BeginsBefore(avail, x) && !BeginsBefore(resv, x)
    requires avail[0].start < resv[0].start < avail[0].end && resv[0].start < resv[0].end
    ensures !BeginsBefore(SweepOnce(avail, resv).avail, y) && !BeginsBefore(SweepOnce(avail, resv).resv, y)
    ensures SortedFrom(marks, y) ==> SortedFrom(OnceMarks(avail, resv, room) + marks, x)
  {
    var a, tail, r, rest := avail[0], avail[1..], resv[0], resv[1..];
    var piece := Region(a.start, r.start);
    OrderedFrom(tail, a.end);
    OrderedFrom(rest, r.end);
    var once := SweepOnce(avail, resv);
    PieceSorted(piece, r, room, x, marks);
    if a.end > r.end {
      y := r.end;
      FromNotBefore(tail, a.end, r.end);
      FromNotBefore(rest, r.end, r.end);
      assert once == Round([piece], [a.(start := r.end)] + tail, rest) && once.avail[1..] == tail;
      assert OnceMarks(avail, resv, room) == Fitting([piece], room) + [r];
    } else {
      y := r.start;
      FromNotBefore(tail, a.end, r.start);
      OrderedFrom(resv, r.start);
      FromNotBefore(resv, r.start, r.start);
      assert once == Round([piece], tail, resv);
      assert OnceMarks(avail, resv, room) == Fitting([piece], room);
    }
  }

  lemma {:induction false} PieceSorted(piece: Region, r: Region, room: nat, x: int, marks: seq<Region>)
    requires x <= piece.start < piece.end == r.start < r.end
    ensures SortedFrom(marks, r.start) ==> SortedFrom(Fitting([piece], room) + marks, x)
    ensures SortedFrom(marks, r.end) ==> SortedFrom((Fitting([piece], room) + [r]) + marks, x)
  {
    if SortedFrom(marks, r.start) { FittingSorted(piece, marks, room, x); }
    if SortedFrom(marks, r.end) {
      SolidSorted(r, marks, r.start);
      FittingSorted(piece, [r] + marks, room, x);
      assert (Fitting([piece], room) + [r]) + marks == Fitting([piece], room) + ([r] + marks);
    }
  }

  lemma {:induction false} FittingSorted(piece: Region, marks: seq<Region>, room: nat, x: int)
    requires x <= piece.start < piece.end && SortedFrom(marks, piece.end)
    ensures SortedFrom(Fitting([piece], room) + marks, x)
  {
    if room == 0 { assert Fitting([piece], room) + marks == marks; } else { SolidSorted(piece, marks, x); }
  }

  /** Unless the sweep spills, it marks regions in address order, none of them over another. */
  lemma {:induction false} MarksSorted(avail: seq<Region>, resv: seq<Region>, room: nat, x: int)
    requires Ordered(avail) && Ordered(resv) && !Spills(avail, resv)
    requires !BeginsBefore(avail, x) && !BeginsBefore(resv, x)
    ensures SortedFrom(SweepMarks(avail, resv, room), x)
    decreases |avail| + |resv|
  {
    if avail == [] {
      if resv != [] { SolidRest(resv, [], room, x); }
    } else if resv == [] {
      SolidRest(avail, avail, room, x);
    } else {
      var once := SweepOnce(avail, resv);
      var left := room - |Fitting(once.out, room)|;
      OnceOrdered(avail, resv);
      var y := OnceAbove(avail, resv, room, x, SweepMarks(once.avail, once.resv, left));
      MarksSorted(once.avail, once.resv, left, y);
    }
  }

  /** The loops after the sweep, over the list `s` of regions that is left. */
  lemma {:induction false} SolidRest(s: seq<Region>, avail: seq<Region>, room: nat, x: int)
    requires s != [] && Ordered(s) && !BeginsBefore(s, x) && (avail == s || avail == [])
    ensures SortedFrom(SweepMarks(avail, if avail == [] then s else [], room), x)
    decreases |s|
  {
    var y := if s[0].start < s[0].end then s[0].end else x;
    OrderedFrom(s[1..], s[0].end);
    if s[0].start < s[0].end { FromNotBefore(s[1..], y, y); }
    var out := Fitting(Solid(s[0]), room);
    if avail == [] {
      if |s| > 1 { SolidRest(s[1..], [], room, y); }
      SolidSorted(s[0], SweepMarks([], s[1..], room), x);
    } else {
      var rest := SweepMarks(s[1..], [], room - |out|);
      if |s| > 1 { SolidRest(s[1..], s[1..], room - |out|, y); }
      if out == [] { assert out + rest == rest; } else { SolidSorted(s[0], rest, x); }
    }
  }

  /** No address is in a region of `s` and in `r`. */
  ghost predicate NoShare(s: seq<Region>, r: Region) {
    forall x: int :: Covered(s, x) ==> !r.Has(x)
  }

  lemma {:induction false} NoShareDisjoint(s: seq<Region>, r: Region)
    requires NonEmpty(s) && r.start < r.end && NoShare(s, r)
    ensures Disjoint(s, r)
  {
    if s != [] {
      assert NoShare(s[1..], r) by {
        forall x: int | Covered(s[1..], x) ensures !r.Has(x) { assert Covered(s, x); }
      }
      NoShareDisjoint(s[1..], r);
      assert Covered(s, s[0].start) && Covered(s, if s[0].start < r.start < s[0].end then r.start else s[0].start);
    }
  }

  ghost predicate AllApart(s: seq<Region>, regs: seq<Region>) {
    forall k :: 0 <= k < |regs| ==> NoShare(s, regs[k])
  }

  /** Regions in order and apart from `s`, marked one after the other, leave gaps between neighbours and cover
      exactly what was covered and themselves. */
  lemma {:induction false} MarkAllExact(s: seq<Region>, regs: seq<Region>, cap: nat)
    requires Gapped(s) && Sorted(regs) && AllApart(s, regs) && |s| + |regs| < cap
    ensures Gapped(MarkAll(s, regs, cap))
    ensures forall x: int :: Covered(MarkAll(s, regs, cap), x) <==> Covered(s, x) || Covered(regs, x)
    decreases |regs|
  {
    if regs != [] {
      var r, rest := regs[0], regs[1..];
      var t := Marked(s, r, cap);
      MarkedExact(s, r, cap);
      forall k | 0 <= k < |rest| ensures NoShare(t, rest[k]) {
        assert rest[k] == regs[k + 1] && NoShare(s, regs[k + 1]);
        SortedAbove(regs, k + 1);
      }
      MarkAllExact(t, rest, cap);
    }
  }

  lemma {:induction false} MarkedExact(s: seq<Region>, r: Region, cap: nat)
    requires Gapped(s) && r.start < r.end && NoShare(s, r) && |s| + 1 < cap
    ensures Gapped(Marked(s, r, cap)) && |Marked(s, r, cap)| <= |s| + 1
    ensures forall x: int :: Covered(Marked(s, r, cap), x) <==> Covered(s, x) || r.Has(x)
  {
    GappedIsSorted(s);
    NoShareDisjoint(s, r);
    ReservedExact(s, r);
    PlaceCovers(s, r, 0);
  }

  lemma {:induction false} SortedAbove(s: seq<Region>, k: nat)
    requires Sorted(s) && 0 < k < |s|
    ensures s[0].end <= s[k].start && s[k].start < s[k].end
  {
    if k > 1 { SortedAbove(s[1..], k - 1); }
  }

  /** `s` shares no address with the two lists. */
  ghost predicate Untouched(s: seq<Region>, avail: seq<Region>, resv: seq<Region>) {
    forall x: int :: Covered(s, x) ==> !Covered(avail, x) && !Covered(resv, x)
  }

  /** If the array has gaps, shares nothing with the lists and has entries enough, and the sweep is exact, then
      afterwards the array has gaps and covers exactly what it covered, the reserved and the available memory. */
  lemma {:induction false} ReservedAfterSweep(s: seq<Region>, avail: seq<Region>, resv: seq<Region>, room: nat,
                                              cap: nat)
    requires Gapped(s) && Ordered(avail) && Ordered(resv) && Untouched(s, avail, resv)
    requires !AnyCrosses(avail, resv, resv) && |Sweep(avail, resv)| <= room && |s| + |avail| + 2 * |resv| < cap
    ensures Gapped(MarkAll(s, SweepMarks(avail, resv, room), cap))
    ensures forall x: int :: Covered(MarkAll(s, SweepMarks(avail, resv, room), cap), x)
                        <==> Covered(s, x) || Covered(avail, x) || Covered(resv, x)
  {
    var marks := SweepMarks(avail, resv, room);
    SpillsIffCrosses(avail, resv);
    FreeMemoryExact(avail, resv);
    forall x: int ensures Covered(marks, x) <==> Covered(avail, x) || Covered(resv, x) {
      MarksCover(avail, resv, room, x);
      assert FreeAt(avail, resv, x);
    }
    FromZero(avail);
    FromZero(resv);
    MarksSorted(avail, resv, room, 0);
    MarksCount(avail, resv, room);
    forall k | 0 <= k < |marks| ensures NoShare(s, marks[k]) {
      forall x: int | Covered(s, x) ensures !marks[k].Has(x) {
        if marks[k].Has(x) { CoveredAt(marks, k, x); }
      }
    }
    MarkAllExact(s, marks, cap);
  }

  lemma {:induction false} FromZero(s: seq<Region>)
    ensures !BeginsBefore(s, 0)
  {
    if s != [] { FromZero(s[1..]); }
  }

  lemma {:induction false} CoveredAt(s: seq<Region>, k: nat, x: int)
    requires k < |s| && s[k].Has(x)
    ensures Covered(s, x)
  {
    if k > 0 { CoveredAt(s[1..], k - 1, x); }
  }

  /** None of the first `n` regions touches its successor. */
  ghost predicate Apart(s: seq<Region>, n: nat) {
    forall k :: 0 <= k < n && k + 1 < |s| ==> s[k].end != s[k + 1].start
  }

  lemma {:induction false} MergeSettled(done: seq<Region>, s: seq<Region>)
    requires s != [] && Apart(done + s, |done|)
    ensures Merge(done + s) == done + Merge(s)
  {
    if done == [] {
      assert done + s == s;
    } else {
      assert (done + s)[1..] == done[1..] + s;
      assert (done + s)[0].end != (done + s)[1].start;
      assert forall k :: 0 <= k < |done| - 1 ==> (done[1..] + s)[k] == (done + s)[k + 1];
      MergeSettled(done[1..], s);
      assert [done[0]] + (done[1..] + Merge(s)) == done + Merge(s);
    }
  }

  /** What Place does, given the first entry that touches the region or lies above it. */
  lemma {:induction false} PlaceAt(s: seq<Region>, reg: Region, i: nat)
    requires i <= |s| && forall k :: 0 <= k < i ==> s[k].start < reg.end && s[k].end != reg.start
    requires i < |s| ==> s[i].start >= reg.end || s[i].end == reg.start
    ensures Joins(s, reg) <==> i < |s| && (s[i].start == reg.end || s[i].end == reg.start)
    ensures Place(s, reg) == PlacedAt(s, reg, i)
    decreases i
  {
    if i > 0 {
      PlaceAt(s[1..], reg, i - 1);
      PlacedTail(s, reg, i);
    }
  }

  function PlacedAt(s: seq<Region>, reg: Region, i: nat): seq<Region>
    requires i <= |s|
  {
    if i < |s| && s[i].start == reg.end then s[i := s[i].(start := reg.start)]
    else if i < |s| && s[i].end == reg.start then s[i := s[i].(end := reg.end)]
    else s[..i] + [reg] + s[i..]
  }

  lemma PlacedTail(s: seq<Region>, reg: Region, i: nat)
    requires 0 < i <= |s|
    ensures PlacedAt(s, reg, i) == [s[0]] + PlacedAt(s[1..], reg, i - 1)
  {
    assert s[..i] == [s[0]] + s[1..][..i - 1] && s[1..][i - 1..] == s[i..];
  }

  function MergedAt(s: seq<Region>, i: nat): seq<Region>
    requires 1 <= i < |s|
  {
    s[..i - 1] + ([Region(s[i - 1].start, s[i].end)] + s[i + 1..])
  }

  /** A moment of init_freemem: the reserved array, what is left of the two lists, the free slots left, and all
      regions handed out so far. */
  datatype Moment = Moment(list: seq<Region>, avail: seq<Region>, resv: seq<Region>, room: nat, offered: seq<Region>)

  /** One more round, of the sweep or of one of the two loops after it. */
  ghost function Next(m: Moment, cap: nat): Moment
    requires m.avail != [] || m.resv != []
  {
    if m.avail == [] then Moment(MarkAll(m.list, Solid(m.resv[0]), cap), [], m.resv[1..], m.room, m.offered)
    else if m.resv == [] then
      var fit := Fitting(Solid(m.avail[0]), m.room);
      Moment(MarkAll(m.list, fit, cap), m.avail[1..], [], m.room - |fit|, m.offered + Solid(m.avail[0]))
    else
      var once := SweepOnce(m.avail, m.resv);
      Moment(MarkAll(m.list, OnceMarks(m.avail, m.resv, m.room), cap), once.avail, once.resv,
             m.room - |Fitting(once.out, m.room)|, m.offered + once.out)
  }

  ghost predicate Follows(run: seq<Moment>, k: nat, cap: nat)
    requires k + 1 < |run|
  {
    (run[k].avail != [] || run[k].resv != []) && run[k + 1] == Next(run[k], cap)
  }

  ghost predicate IsRun(run: seq<Moment>, cap: nat) {
    |run| > 0 && forall k :: 0 <= k < |run| - 1 ==> Follows(run, k, cap)
  }

  /** The outcome of the run from a moment. */
  ghost function Outcome(m: Moment, cap: nat): Moment {
    Moment(MarkAll(m.list, SweepMarks(m.avail, m.resv, m.room), cap), [], [], 0, m.offered + Sweep(m.avail, m.resv))
  }

  /** The rounds from any moment run until both lists are empty, and end in its outcome. */
  lemma {:induction false} RunFrom(m: Moment, cap: nat) returns (run: seq<Moment>)
    ensures IsRun(run, cap) && run[0] == m && run[|run| - 1].(room := 0) == Outcome(m, cap)
    decreases |m.avail| + |m.resv|
  {
    if m.avail == [] && m.resv == [] {
      run := [m];
    } else {
      var next := Next(m, cap);
      NextOutcome(m, next, cap);
      run := RunFrom(next, cap);
      RunLonger(m, run, cap);
      run := [m] + run;
    }
  }

  lemma {:induction false} RunLonger(m: Moment, run: seq<Moment>, cap: nat)
    requires IsRun(run, cap) && (m.avail != [] || m.resv != []) && run[0] == Next(m, cap)
    ensures IsRun([m] + run, cap)
  {
    var all := [m] + run;
    forall k | 0 <= k < |all| - 1 ensures Follows(all, k, cap) {
      if k > 0 { assert Follows(run, k - 1, cap); }
    }
  }

  /** A round does not change the outcome. */
  lemma {:induction false} NextOutcome(m: Moment, next: Moment, cap: nat)
    requires (m.avail != [] || m.resv != []) && next == Next(m, cap)
    ensures |next.avail| + |next.resv| < |m.avail| + |m.resv| && Outcome(next, cap) == Outcome(m, cap)
  {
    if m.avail != [] && m.resv != [] {
      RoundOutcome(m, next, cap);
    } else {
      RestOutcome(m, next, cap);
    }
  }

  lemma {:induction false} RoundOutcome(m: Moment, next: Moment, cap: nat)
    requires m.avail != [] && m.resv != [] && next == Next(m, cap)
    ensures |next.avail| + |next.resv| < |m.avail| + |m.resv| && Outcome(next, cap) == Outcome(m, cap)
  {
    var once, marks := SweepOnce(m.avail, m.resv), OnceMarks(m.avail, m.resv, m.room);
    var rest, free := SweepMarks(next.avail, next.resv, next.room), Sweep(next.avail, next.resv);
    assert SweepMarks(m.avail, m.resv, m.room) == marks + rest && Sweep(m.avail, m.resv) == once.out + free;
    RoundSplits(m.list, once.out, marks, rest, free, cap, m.offered);
  }

  lemma {:induction false} RestOutcome(m: Moment, next: Moment, cap: nat)
    requires (m.avail == []) != (m.resv == []) && next == Next(m, cap)
    ensures |next.avail| + |next.resv| < |m.avail| + |m.resv| && Outcome(next, cap) == Outcome(m, cap)
  {
    var rest, free := SweepMarks(next.avail, next.resv, next.room), Sweep(next.avail, next.resv);
    if m.avail == [] {
      RoundSplits(m.list, [], Solid(m.resv[0]), rest, [], cap, m.offered);
    } else {
      RoundSplits(m.list, Solid(m.avail[0]), Fitting(Solid(m.avail[0]), m.room), rest, free, cap, m.offered);
    }
  }

  lemma {:induction false} RoundSplits(list: seq<Region>, out: seq<Region>, marks: seq<Region>, rest: seq<Region>,
                                       free: seq<Region>, cap: nat, offered: seq<Region>)
    ensures MarkAll(list, marks + rest, cap) == MarkAll(MarkAll(list, marks, cap), rest, cap)
    ensures offered + (out + free) == (offered + out) + free
  {
    MarkAllAppend(list, marks, rest, cap);
  }

  /** A round of the sweep and what it marks, by cases on the two first regions. */
  ghost predicate RoundAt(a: Region, tail: seq<Region>, r: Region, rest: seq<Region>, room: nat, once: Round,
                          marks: seq<Region>) {
    if r.Empty() then once == Round([], [a] + tail, rest) && marks == []
    else if a.start >= a.end then once == Round([], tail, [r] + rest) && marks == []
    else if r.end <= a.start then once == Round([], [a] + tail, rest) && marks == [r]
    else if r.start >= a.end then once == Round([a], tail, [r] + rest) && marks == Fitting([a], room)
    else if r.start <= a.start then
      once == Round([], [a.(start := Min(a.end, r.end))] + tail, rest) && marks == [r]
    else
      var piece := a.(end := r.start);
      if a.end > r.end then
        once == Round([piece], [a.(start := r.end)] + tail, rest) && marks == Fitting([piece], room) + [r]
      else once == Round([piece], tail, [r] + rest) && marks == Fitting([piece], room)
  }

  lemma {:induction false} OnceCases(avail: seq<Region>, resv: seq<Region>, room: nat)
    requires avail != [] && resv != [] && resv[0].start <= resv[0].end
    ensures RoundAt(avail[0], avail[1..], resv[0], resv[1..], room, SweepOnce(avail, resv),
                    OnceMarks(avail, resv, room))
  {
    assert avail == [avail[0]] + avail[1..] && resv == [resv[0]] + resv[1..];
  }

  lemma {:induction false} RoundOfRun(run: seq<Moment>, k: nat, cap: nat) returns (once: Round, marks: seq<Region>)
    requires IsRun(run, cap) && k + 1 < |run| && run[k].avail != [] && run[k].resv != []
    requires Ordered(run[k].avail) && Ordered(run[k].resv)
    ensures var m := run[k]; RoundAt(m.avail[0], m.avail[1..], m.resv[0], m.resv[1..], m.room, once, marks)
    ensures run[k + 1] == Moment(MarkAll(run[k].list, marks, cap), once.avail, once.resv,
                                 run[k].room - |Fitting(once.out, run[k].room)|, run[k].offered + once.out)
    ensures Ordered(once.avail) && Ordered(once.resv)
  {
    var m := run[k];
    assert Follows(run, k, cap);
    once, marks := SweepOnce(m.avail, m.resv), OnceMarks(m.avail, m.resv, m.room);
    OnceOrdered(m.avail, m.resv);
    OnceCases(m.avail, m.resv, m.room);
  }

  lemma {:induction false} RestOfRun(run: seq<Moment>, k: nat, cap: nat)
    requires IsRun(run, cap) && k + 1 < |run| && run[k].resv == []
    ensures run[k].avail != []
    ensures var m, fit := run[k], Fitting(Solid(run[k].avail[0]), run[k].room);
            run[k + 1] == Moment(MarkAll(m.list, fit, cap), m.avail[1..], [], m.room - |fit|,
                                 m.offered + Solid(m.avail[0]))
  {
    assert Follows(run, k, cap);
  }

  /** The boot-time state: the reserved list and the free-memory slots. */
  class NdksBoot {
    const reserved: array<Region>
    const freemem: array<Region>
    var resvCount: nat

    constructor (maxReserved: nat, maxFree: nat)
      requires maxReserved > 0
      ensures Valid() && ReservedList() == [] && FreeCount(0)
      ensures reserved.Length == maxReserved && freemem.Length == maxFree
      ensures fresh(reserved) && fresh(freemem)
    {
      reserved := new Region[maxReserved](_ => Region(0, 0));
      freemem := new Region[maxFree](_ => Region(0, 0));
      resvCount := 0;
    }

    ghost predicate Valid()
      reads this
    {
      resvCount < reserved.Length && reserved != freemem
    }

    ghost function ReservedList(): seq<Region>
      requires Valid()
      reads this, reserved
    {
      reserved[..resvCount]
    }

    /** The first `n` free-memory slots are in use and the others are empty. */
    ghost predicate FreeCount(n: nat)
      reads this, freemem
    {
      && n <= freemem.Length
      && (forall i :: 0 <= i < n ==> !freemem[i].Empty())
      && (forall i :: n <= i < freemem.Length ==> freemem[i].Empty())
    }

    /** Moves everything above entry `i` down by one. */
    method RemoveEntry(i: nat)
      requires Valid() && i < resvCount
      modifies this`resvCount, reserved
      ensures Valid() && ReservedList() == old(ReservedList())[..i] + old(ReservedList())[i + 1..]
    {
      ghost var s := ReservedList();
      CloseGap(i);
      resvCount := resvCount - 1;
      ghost var t := s[..i] + s[i + 1..];
      assert forall k :: i <= k < |t| ==> t[k] == s[k + 1];
    }

    method CloseGap(i: nat)
      requires Valid() && i < resvCount
      modifies reserved
      ensures forall k :: 0 <= k < i ==> reserved[k] == old(reserved[k])
      ensures forall k :: i <= k < resvCount - 1 ==> reserved[k] == old(reserved[k + 1])
    {
      for j := i + 1 to resvCount
        invariant forall k :: 0 <= k < i ==> reserved[k] == old(reserved[k])
        invariant forall k :: i <= k < j - 1 ==> reserved[k] == old(reserved[k + 1])
        invariant forall k :: j <= k < resvCount ==> reserved[k] == old(reserved[k])
      {
        reserved[j - 1] := reserved[j];
      }
    }

    /** Moves everything from entry `i` on up by one and puts `reg` there. */
    method InsertEntry(i: nat, reg: Region)
      requires Valid() && i <= resvCount && resvCount + 1 < reserved.Length
      modifies this`resvCount, reserved
      ensures Valid() && ReservedList() == old(ReservedList())[..i] + [reg] + old(ReservedList())[i..]
    {
      ghost var s := ReservedList();
      OpenGap(i);
      reserved[i] := reg;
      resvCount := resvCount + 1;
      ghost var t := s[..i] + [reg] + s[i..];
      assert forall k :: i < k < |t| ==> t[k] == s[k - 1];
    }

    method OpenGap(i: nat)
      requires Valid() && i <= resvCount && resvCount + 1 < reserved.Length
      modifies reserved
      ensures forall k :: 0 <= k < i ==> reserved[k] == old(reserved[k])
      ensures forall k :: i < k <= resvCount ==> reserved[k] == old(reserved[k - 1])
    {
      var j := resvCount;
      while j > i
        invariant i <= j <= resvCount
        invariant forall k :: 0 <= k < j ==> reserved[k] == old(reserved[k])
        invariant forall k :: j < k <= resvCount ==> reserved[k] == old(reserved[k - 1])
      {
        reserved[j] := reserved[j - 1];
        j := j - 1;
      }
    }

    /** Extends entry `i - 1` over entry `i` and removes the latter. */
    method MergeEntry(i: nat)
      requires Valid() && 1 <= i < resvCount
      modifies this`resvCount, reserved
      ensures Valid() && ReservedList() == MergedAt(old(ReservedList()), i)
    {
      reserved[i - 1] := Region(reserved[i - 1].start, reserved[i].end);
      RemoveEntry(i);
    }

    /** merge_regions. */
    method MergeRegions()
      requires Valid()
      modifies this`resvCount, reserved
      ensures Valid() && ReservedList() == Merge(old(ReservedList()))
    {
      if resvCount == 0 { return; }
      var i := 1;
      while i < resvCount
        invariant Valid() && 1 <= i <= resvCount
        invariant Apart(ReservedList(), i - 1)
        invariant Merge(ReservedList()) == Merge(old(ReservedList()))
        decreases resvCount - i
      {
        ghost var s := ReservedList();
        if reserved[i - 1].end == reserved[i].start {
          MergeEntry(i);
          MergeTouching(s, i);
        } else {
          i := i + 1;
        }
      }
      ghost var s := ReservedList();
      MergeSettled(s[..resvCount - 1], s[resvCount - 1..]);
      assert s == s[..resvCount - 1] + s[resvCount - 1..];
    }

    /** reserve_region: false, changing nothing, when a new entry is needed and the array is full. */
    method ReserveRegion(reg: Region) returns (ok: bool)
      requires Valid() && reg.start <= reg.end
      modifies this`resvCount, reserved
      ensures Valid()
      ensures ok <==> reg.Empty() || Joins(old(ReservedList()), reg) || old(resvCount) + 1 < reserved.Length
      ensures ReservedList() == Marked(old(ReservedList()), reg, reserved.Length)
    {
      if reg.start == reg.end { return true; }
      ghost var s := ReservedList();
      var i := FirstRelated(reg);
      PlaceAt(s, reg, i);
      if i < resvCount {
        if reserved[i].start == reg.end {
          reserved[i] := reserved[i].(start := reg.start);
          MergeRegions();
          return true;
        }
        if reserved[i].end == reg.start {
          reserved[i] := reserved[i].(end := reg.end);
          MergeRegions();
          return true;
        }
        if resvCount + 1 >= reserved.Length { return false; }
        InsertEntry(i, reg);
        return true;
      }
      if i + 1 == reserved.Length { return false; }
      reserved[i] := reg;
      resvCount := resvCount + 1;
      return true;
    }

    /** The first entry that touches the region or lies above it. */
    method FirstRelated(reg: Region) returns (i: nat)
      requires Valid()
      ensures i <= resvCount
      ensures forall k :: 0 <= k < i ==> reserved[k].start < reg.end && reserved[k].end != reg.start
      ensures i < resvCount ==> reserved[i].start >= reg.end || reserved[i].end == reg.start
    {
      i := 0;
      while i < resvCount && reserved[i].start < reg.end && reserved[i].end != reg.start
        invariant i <= resvCount
        invariant forall k :: 0 <= k < i ==> reserved[k].start < reg.end && reserved[k].end != reg.start
      {
        i := i + 1;
      }
    }

    /** insert_region: takes the first empty slot and marks the region as reserved, or drops the region and
        marks nothing; whether the array had an entry for the mark is ignored. */
    method InsertRegion(reg: Region, ghost n: nat) returns (ok: bool)
      requires Valid() && reg.start <= reg.end && FreeCount(n)
      modifies this`resvCount, reserved, freemem
      ensures Valid() && (ok <==> reg.Empty() || n < freemem.Length)
      ensures if ok && !reg.Empty() then FreeCount(n + 1) && freemem[..n + 1] == old(freemem[..n]) + [reg]
              else FreeCount(n) && freemem[..n] == old(freemem[..n])
      ensures ReservedList() == if ok then Marked(old(ReservedList()), reg, reserved.Length) else old(ReservedList())
    {
      if reg.Empty() { return true; }
      var i := 0;
      while i < freemem.Length
        invariant 0 <= i <= n && Valid() && FreeCount(n) && freemem[..n] == old(freemem[..n])
        invariant ReservedList() == old(ReservedList())
      {
        if freemem[i].Empty() {
          var _ := ReserveRegion(reg);
          freemem[i] := reg;
          return true;
        }
        i := i + 1;
      }
      ok := false;
    }

    /** Empties all free-memory slots. */
    method ClearFree()
      requires Valid()
      modifies freemem
      ensures FreeCount(0) && ReservedList() == old(ReservedList())
    {
      for i := 0 to freemem.Length
        invariant forall k :: 0 <= k < i ==> freemem[k].Empty()
      {
        freemem[i] := Region(0, 0);
      }
    }

    /** The free-memory slots hold the regions offered, as far as they go. */
    ghost predicate Holds(offered: seq<Region>)
      reads this, freemem
    {
      var f := Fitting(offered, freemem.Length);
      FreeCount(|f|) && freemem[..|f|] == f
    }

    /** How many slots are left for more. */
    ghost function Room(offered: seq<Region>): nat {
      freemem.Length - |Fitting(offered, freemem.Length)|
    }

    /** The sweep is at this moment. */
    ghost predicate Here(m: Moment)
      requires Valid()
      reads this, reserved, freemem
    {
      ReservedList() == m.list && Holds(m.offered) && m.room == Room(m.offered)
    }

    /** insert_region, seen on the list of all regions offered so far. */
    method Offer(reg: Region, ghost offered: seq<Region>)
      requires Valid() && reg.start < reg.end && Holds(offered)
      modifies this`resvCount, reserved, freemem
      ensures Valid() && Holds(offered + [reg])
      ensures ReservedList() == MarkAll(old(ReservedList()), Fitting([reg], Room(offered)), reserved.Length)
    {
      var _ := InsertRegion(reg, |Fitting(offered, freemem.Length)|);
      assert [reg][1..] == [];
    }

    /** One round of the sweep's loop, at available region `a` and reserved region `r`. */
    method SweepRound(avail: seq<Region>, a: nat, resv: seq<Region>, r: nat, ghost offered: seq<Region>,
                      ghost once: Round, ghost marks: seq<Region>)
      returns (avail': seq<Region>, a': nat, r': nat)
      requires Valid() && Holds(offered) && a < |avail| && r < |resv| && resv[r].start <= resv[r].end
      requires RoundAt(avail[a], avail[a + 1..], resv[r], resv[r + 1..], Room(offered), once, marks)
      modifies this`resvCount, reserved, freemem
      ensures |avail'| == |avail| && a <= a' <= |avail| && r <= r' <= |resv| && a' + r' == a + r + 1
      ensures avail'[a'..] == once.avail && resv[r'..] == once.resv && Valid() && Holds(offered + once.out)
      ensures ReservedList() == MarkAll(old(ReservedList()), marks, reserved.Length)
    {
      avail', a', r' := avail, a, r;
      assert offered + [] == offered;
      MarkOne(ReservedList(), resv[r], reserved.Length);
      if resv[r].start == resv[r].end {
        r' := r + 1;
      } else if avail[a].start >= avail[a].end {
        a' := a + 1;
      } else if resv[r].end <= avail[a].start {
        var _ := ReserveRegion(resv[r]);
        r' := r + 1;
      } else if resv[r].start >= avail[a].end {
        Offer(avail[a], offered);
        a' := a + 1;
      } else if resv[r].start <= avail[a].start {
        avail', r' := TrimRound(avail, a, resv, r, once, marks, Room(offered));
      } else {
        avail', a', r' := SplitRound(avail, a, resv, r, offered, once, marks);
      }
    }

    /** The round in which the reserved region takes the start of the available one. */
    method TrimRound(avail: seq<Region>, a: nat, resv: seq<Region>, r: nat,
                     ghost once: Round, ghost marks: seq<Region>, ghost room: nat)
      returns (avail': seq<Region>, r': nat)
      requires Valid() && a < |avail| && r < |resv|
      requires resv[r].start <= avail[a].start < avail[a].end && avail[a].start < resv[r].end
      requires RoundAt(avail[a], avail[a + 1..], resv[r], resv[r + 1..], room, once, marks)
      modifies this`resvCount, reserved
      ensures |avail'| == |avail| && r' == r + 1
      ensures avail'[a..] == once.avail && resv[r'..] == once.resv && once.out == [] && Valid()
      ensures ReservedList() == MarkAll(old(ReservedList()), marks, reserved.Length)
    {
      MarkOne(ReservedList(), resv[r], reserved.Length);
      avail' := avail[a := Region(Min(avail[a].end, resv[r].end), avail[a].end)];
      var _ := ReserveRegion(resv[r]);
      r' := r + 1;
    }

    /** The round in which the available region begins below the reserved one. */
    method SplitRound(avail: seq<Region>, a: nat, resv: seq<Region>, r: nat, ghost offered: seq<Region>,
                      ghost once: Round, ghost marks: seq<Region>)
      returns (avail': seq<Region>, a': nat, r': nat)
      requires Valid() && Holds(offered) && a < |avail| && r < |resv|
      requires avail[a].start < resv[r].start < avail[a].end && resv[r].start < resv[r].end
      requires RoundAt(avail[a], avail[a + 1..], resv[r], resv[r + 1..], Room(offered), once, marks)
      modifies this`resvCount, reserved, freemem
      ensures |avail'| == |avail| && a <= a' <= |avail| && r <= r' <= |resv| && a' + r' == a + r + 1
      ensures avail'[a'..] == once.avail && resv[r'..] == once.resv && Valid() && Holds(offered + once.out)
      ensures ReservedList() == MarkAll(old(ReservedList()), marks, reserved.Length)
    {
      avail', a', r' := avail, a, r;
      var piece := Region(avail[a].start, resv[r].start);
      ghost var list, cap, fit := ReservedList(), reserved.Length, Fitting([piece], Room(offered));
      Offer(piece, offered);
      if avail[a].end > resv[r].end {
        MarkOne(MarkAll(list, fit, cap), resv[r], cap);
        MarkAllAppend(list, fit, [resv[r]], cap);
        avail' := avail[a := Region(resv[r].end, avail[a].end)];
        var _ := ReserveRegion(resv[r]);
        r' := r + 1;
      } else {
        a' := a + 1;
      }
    }

    /** The same round, as the next moment of the run. */
    method Advance(avail: seq<Region>, a: nat, resv: seq<Region>, r: nat, ghost run: seq<Moment>, ghost k: nat)
      returns (avail': seq<Region>, a': nat, r': nat)
      requires Valid() && IsRun(run, reserved.Length) && k + 1 < |run| && Here(run[k]) && a < |avail| && r < |resv|
      requires run[k].avail == avail[a..] && run[k].resv == resv[r..] && Ordered(run[k].avail) && Ordered(run[k].resv)
      modifies this`resvCount, reserved, freemem
      ensures |avail'| == |avail| && a <= a' <= |avail| && r <= r' <= |resv| && a' + r' == a + r + 1
      ensures Valid() && Here(run[k + 1]) && Ordered(run[k + 1].avail) && Ordered(run[k + 1].resv)
      ensures run[k + 1].avail == avail'[a'..] && run[k + 1].resv == resv[r'..]
    {
      ghost var once, marks := RoundOfRun(run, k, reserved.Length);
      assert avail[a..][1..] == avail[a + 1..] && resv[r..][1..] == resv[r + 1..];
      avail', a', r' := SweepRound(avail, a, resv, r, run[k].offered, once, marks);
    }

    /** The sweep of init_freemem over available regions that have been clipped to the kernel window: the slots
        end up holding the free regions, and all of them when there are enough slots. The reserved array has
        the sweep's marks; if the sweep is exact and there is room, it has gaps between neighbours and covers
        exactly what it covered, the reserved and the available memory. */
    method InitFreemem(available: seq<Region>, resv: seq<Region>)
      requires Valid() && Ordered(available) && Ordered(resv)
      modifies this`resvCount, reserved, freemem
      ensures Valid() && Holds(Sweep(available, resv))
      ensures ReservedList()
              == MarkAll(old(ReservedList()), SweepMarks(available, resv, freemem.Length), reserved.Length)
      ensures Gapped(old(ReservedList())) && Untouched(old(ReservedList()), available, resv)
              && !AnyCrosses(available, resv, resv) && |Sweep(available, resv)| <= freemem.Length
              && old(resvCount) + |available| + 2 * |resv| < reserved.Length ==>
                && Gapped(ReservedList())
                && forall x: int :: Covered(ReservedList(), x)
                               <==> Covered(old(ReservedList()), x) || Covered(available, x) || Covered(resv, x)
    {
      ghost var list := ReservedList();
      SweepAll(available, resv);
      if Gapped(list) && Untouched(list, available, resv) && !AnyCrosses(available, resv, resv)
         && |Sweep(available, resv)| <= freemem.Length && |list| + |available| + 2 * |resv| < reserved.Length {
        ReservedAfterSweep(list, available, resv, freemem.Length, reserved.Length);
      }
    }

    method SweepAll(available: seq<Region>, resv: seq<Region>)
      requires Valid() && Ordered(available) && Ordered(resv)
      modifies this`resvCount, reserved, freemem
      ensures Valid() && Holds(Sweep(available, resv))
      ensures ReservedList()
              == MarkAll(old(ReservedList()), SweepMarks(available, resv, freemem.Length), reserved.Length)
    {
      ClearFree();
      ghost var start := Moment(ReservedList(), available, resv, freemem.Length, []);
      ghost var run := RunFrom(start, reserved.Length);
      assert [] + Sweep(available, resv) == Sweep(available, resv);
      RunLoops(available, resv, run);
    }

    /** The three loops. */
    method RunLoops(available: seq<Region>, resv: seq<Region>, ghost run: seq<Moment>)
      requires Valid() && Ordered(available) && Ordered(resv) && IsRun(run, reserved.Length) && Here(run[0])
      requires run[0].avail == available && run[0].resv == resv
      requires run[|run| - 1].avail == [] && run[|run| - 1].resv == []
      modifies this`resvCount, reserved, freemem
      ensures Valid() && Here(run[|run| - 1])
    {
      var avail := available;
      var a, r := 0, 0;
      ghost var k := 0;
      while a < |avail| && r < |resv|
        invariant 0 <= a <= |avail| && 0 <= r <= |resv| && Valid() && 0 <= k < |run| && Here(run[k])
        invariant run[k].avail == avail[a..] && run[k].resv == resv[r..]
        invariant Ordered(run[k].avail) && Ordered(run[k].resv)
        decreases |avail| - a + |resv| - r
      {
        avail, a, r := Advance(avail, a, resv, r, run, k);
        k := k + 1;
      }
      k := FinishReserved(resv[r..], run, k);
      FinishAvailable(avail[a..], run, k);
    }

    /** The loop over the rest of the reserved regions; none is left if available ones are. */
    method FinishReserved(resv: seq<Region>, ghost run: seq<Moment>, ghost k: nat) returns (ghost k': nat)
      requires Valid() && IsRun(run, reserved.Length) && k < |run| && Here(run[k])
      requires run[k].resv == resv && Ordered(resv) && (run[k].avail == [] || resv == [])
      requires run[|run| - 1].resv == []
      modifies this`resvCount, reserved
      ensures Valid() && k' < |run| && Here(run[k']) && run[k'].avail == run[k].avail && run[k'].resv == []
    {
      k' := k;
      for r := 0 to |resv|
        invariant Valid() && k' < |run| && Here(run[k']) && run[k'].avail == run[k].avail
        invariant run[k'].resv == resv[r..] && Ordered(resv[r..])
      {
        assert Follows(run, k', reserved.Length);
        assert resv[r..][1..] == resv[r + 1..];
        MarkOne(ReservedList(), resv[r], reserved.Length);
        if resv[r].start < resv[r].end {
          var _ := ReserveRegion(resv[r]);
        }
        k' := k' + 1;
      }
    }

    /** The loop over the rest of the available regions. */
    method FinishAvailable(avail: seq<Region>, ghost run: seq<Moment>, ghost k: nat)
      requires Valid() && IsRun(run, reserved.Length) && k < |run| && Here(run[k])
      requires run[k].avail == avail && run[k].resv == [] && Ordered(avail)
      requires run[|run| - 1].avail == []
      modifies this`resvCount, reserved, freemem
      ensures Valid() && Here(run[|run| - 1])
    {
      ghost var k': nat := k;
      for a := 0 to |avail|
        invariant Valid() && k' < |run| && Here(run[k']) && run[k'].resv == []
        invariant run[k'].avail == avail[a..] && Ordered(avail[a..])
      {
        RestOfRun(run, k', reserved.Length);
        assert avail[a..][1..] == avail[a + 1..];
        OfferSolid(avail[a], run[k'].offered);
        k' := k' + 1;
      }
      if k' + 1 < |run| { RestOfRun(run, k', reserved.Length); }
    }

    /** insert_region of a region that may be empty. */
    method OfferSolid(reg: Region, ghost offered: seq<Region>)
      requires Valid() && Holds(offered)
      modifies this`resvCount, reserved, freemem
      ensures Valid() && Holds(offered + Solid(reg))
      ensures Room(offered + Solid(reg)) == Room(offered) - |Fitting(Solid(reg), Room(offered))|
      ensures ReservedList() == MarkAll(old(ReservedList()), Fitting(Solid(reg), Room(offered)), reserved.Length)
    {
      if reg.start < reg.end {
        Offer(reg, offered);
      } else {
        assert offered + Solid(reg) == offered;
      }
    }
  }

  /** Merging two touching neighbours in place is the first thing Merge would do there. */
  lemma {:induction false} MergeTouching(s: seq<Region>, i: nat)
    requires 1 <= i < |s| && s[i - 1].end == s[i].start && Apart(s, i - 1)
    ensures Merge(s) == Merge(MergedAt(s, i)) && Apart(MergedAt(s, i), i - 1)
    decreases i
  {
    var m := MergedAt(s, i);
    if i == 1 {
      assert m == [Region(s[0].start, s[1].end)] + s[2..];
    } else {
      assert s[0].end != s[1].start;
      var t := s[1..];
      assert forall k :: 0 <= k < |t| ==> t[k] == s[k + 1];
      MergeTouching(t, i - 1);
      MergedAtTail(s, i);
    }
  }

  lemma MergedAtTail(s: seq<Region>, i: nat)
    requires 2 <= i < |s| && s[0].end != s[1].start && Apart(MergedAt(s[1..], i - 1), i - 2)
    ensures MergedAt(s, i) == [s[0]] + MergedAt(s[1..], i - 1)
    ensures Apart(MergedAt(s, i), i - 1) && MergedAt(s, i)[1].start == s[1].start
  {
    var m, t := MergedAt(s, i), MergedAt(s[1..], i - 1);
    assert s[1..][..i - 2] == s[..i - 1][1..] && s[1..][i..] == s[i + 1..];
    assert forall k :: 0 <= k < |t| ==> m[k + 1] == t[k];
    forall k | 0 <= k < i - 1 && k + 1 < |m| ensures m[k].end != m[k + 1].start {
      if k > 0 { assert t[k - 1].end != t[k].start; }
    }
  }
}
