/** When the aggregator and the browser report the same: exactly when the time the lazy clock has
    lost, carried over to the query, amounts to as many buckets as it did at each record. */
module WindowAgreement {
  import opened Arithmetic
  import opened History
  import opened Comparison

  /** The lazy rotation clock after `calls`. */
  function Clock(last: int, calls: seq<Call>, d: int): int
    requires d > 0
    decreases |calls|
  {
    if calls == [] then last
    else Clock(if calls[0].now - last < d then last else calls[0].now, calls[1..], d)
  }

  /** Whole buckets in what was lost up to a call at `now`, what has gone by since the last
      rotation, and the distance between the two starts. */
  function Carry(goStart: int, brStart: int, calls: seq<Call>, now: int, d: int): int
    requires d > 0
  {
    var all := calls + [Query(now)];
    (Lost(goStart, all, d) + now - Clock(goStart, all, d) + goStart - brStart) / d
  }

  /** The carry at each record, in order. */
  function Carries(goStart: int, brStart: int, calls: seq<Call>, d: int): seq<int>
    requires d > 0
  {
    if calls == [] then []
    else
      var init, c := calls[..|calls| - 1], calls[|calls| - 1];
      Carries(goStart, brStart, init, d) + (if c.Record? then [Carry(goStart, brStart, init, c.now, d)] else [])
  }

  /** The time of each record, in order. */
  function Stamps(calls: seq<Call>): seq<int> {
    if calls == [] then []
    else Stamps(calls[..|calls| - 1]) + (if calls[|calls| - 1].Record? then [calls[|calls| - 1].now] else [])
  }

  function Records(calls: seq<Call>): nat {
    if calls == [] then 0 else Records(calls[..|calls| - 1]) + (if calls[|calls| - 1].Record? then 1 else 0)
  }

  lemma {:induction false} SameLength(goStart: int, brStart: int, calls: seq<Call>, d: int)
    requires d > 0
    ensures |Carries(goStart, brStart, calls, d)| == |Stamps(calls)| == Records(calls)
  {
    if calls != [] {
      SameLength(goStart, brStart, calls[..|calls| - 1], d);
    }
  }

  /** The boundaries between record `i` and the query: its age in the browser. */
  function Age(brStart: int, calls: seq<Call>, now: int, i: int, d: int): int
    requires d > 0 && 0 <= i < |Stamps(calls)|
  {
    Epoch(brStart, now, d) - Epoch(brStart, Stamps(calls)[i], d)
  }

  /** How many rotations older record `i` is in the browser than in the aggregator. */
  function Excess(goStart: int, brStart: int, calls: seq<Call>, now: int, i: int, d: int): int
    requires d > 0 && 0 <= i < |Stamps(calls)|
  {
    SameLength(goStart, brStart, calls, d);
    Carry(goStart, brStart, calls, now, d) - Carries(goStart, brStart, calls, d)[i]
  }

  /** Each record is young enough for both windows of `b` buckets or for neither. */
  ghost predicate SameReach(goStart: int, brStart: int, calls: seq<Call>, now: int, b: int, d: int)
    requires d > 0
  {
    forall i :: 0 <= i < |Stamps(calls)| ==> ReachesAlike(goStart, brStart, calls, now, i, b, d)
  }

  ghost predicate ReachesAlike(goStart: int, brStart: int, calls: seq<Call>, now: int, i: int, b: int, d: int)
    requires d > 0 && 0 <= i < |Stamps(calls)|
  {
    Age(brStart, calls, now, i, d) < b
    <==> Age(brStart, calls, now, i, d) - Excess(goStart, brStart, calls, now, i, d) < b
  }

  /** The query finds the carry that each record met. */
  predicate SameCarry(goStart: int, brStart: int, calls: seq<Call>, now: int, d: int)
    requires d > 0
  {
    forall c <- Carries(goStart, brStart, calls, d) :: c == Carry(goStart, brStart, calls, now, d)
  }

  // ---------------------------------------------------------------- the carry is the difference in rotations

  lemma {:induction false} ClockIs(w: Log, calls: seq<Call>, d: int)
    requires d > 0 && NoReset(calls)
    ensures Run(Lazy, w, calls, d).last == Clock(w.last, calls, d)
    decreases |calls|
  {
    if calls != [] {
      assert !calls[0].Reset?;
      StepConserved(Lazy, w, calls[0], d);
      hide Step;
      ClockIs(Step(Lazy, w, calls[0], d), calls[1..], d);
    }
  }

  lemma RunSnoc(m: Clocking, w: Log, calls: seq<Call>, c: Call, d: int)
    requires d > 0
    ensures Run(m, w, calls + [c], d) == Step(m, Run(m, w, calls, d), c, d)
  {
    RunAppend(m, w, calls, [c], d);
    var v := Run(m, w, calls, d);
    assert [c][1..] == [];
    assert Run(m, Step(m, v, c, d), [], d) == Step(m, v, c, d);
  }

  lemma NoResetSnoc(calls: seq<Call>, c: Call)
    requires NoReset(calls) && !c.Reset?
    ensures NoReset(calls + [c])
  {
  }

  lemma Shift(x: int, n: int, d: int)
    requires d > 0
    ensures (x + d * n) / d == x / d + n
  {
    QuotientIs(x + d * n, d, x / d + n, x % d);
  }

  lemma CarryIs(goStart: int, brStart: int, lo: int, calls: seq<Call>, now: int, d: int)
    requires d > 0 && NoReset(calls) && goStart <= lo && brStart <= lo && Monotone(calls, lo, now)
    ensures Carry(goStart, brStart, calls, now, d)
            == AlignedAt(brStart, calls, now, d).rotations - LazyAt(goStart, calls, now, d).rotations
  {
    var all, go := calls + [Query(now)], LazyAt(goStart, calls, now, d);
    hide Run, Step, Lost, Clock;
    NoResetSnoc(calls, Query(now));
    RunSnoc(Lazy, Fresh(goStart), calls, Query(now), d);
    ClockIs(Fresh(goStart), all, d);
    ClockConserved(Lazy, Fresh(goStart), all, d);
    AlignedRotations(brStart, lo, calls, now, d);
    var x := Lost(goStart, all, d) + now - Clock(goStart, all, d) + goStart - brStart;
    assert now - brStart == x + d * go.rotations;
    Shift(x, go.rotations, d);
  }

  lemma AlignedRotations(start: int, lo: int, calls: seq<Call>, now: int, d: int)
    requires d > 0 && start <= lo && Monotone(calls, lo, now)
    ensures AlignedAt(start, calls, now, d).rotations == Epoch(start, now, d)
  {
    RunOnGrid(Fresh(start), calls, start, d, lo, now);
    RotatedOnGrid(Run(Aligned, Fresh(start), calls, d), now, start, d);
  }

  /** Nothing is carried while every call comes before the next boundary or on one. */
  lemma OnBoundaryCarriesNothing(start: int, calls: seq<Call>, now: int, d: int)
    requires d > 0 && NoReset(calls) && Monotone(calls, start, now) && OnBoundary(start, calls + [Query(now)], d)
    ensures Carry(start, start, calls, now, d) == 0
  {
    var all := calls + [Query(now)];
    NoResetSnoc(calls, Query(now));
    LostIffOffBoundary(start, all, d);
    ClockIs(Fresh(start), all, d);
    RunSnoc(Lazy, Fresh(start), calls, Query(now), d);
    RunBracketed(Lazy, Fresh(start), calls, d, start, now);
    RotatedBracketed(Lazy, Run(Lazy, Fresh(start), calls, d), now, d);
    hide Run, Clock, Lost, OnBoundary;
    QuotientIs(now - Clock(start, all, d), d, 0, now - Clock(start, all, d));
  }

  // ---------------------------------------------------------------- events

  lemma {:induction false} MonotoneInit(calls: seq<Call>, lo: int, hi: int)
    requires calls != [] && Monotone(calls, lo, hi)
    ensures Monotone(calls[..|calls| - 1], lo, calls[|calls| - 1].now) && calls[|calls| - 1].now <= hi
    decreases |calls|
  {
    if |calls| > 1 {
      MonotoneInit(calls[1..], calls[0].now, hi);
      assert calls[..|calls| - 1][1..] == calls[1..][..|calls| - 2];
    } else {
      MonotoneLow(calls[1..], calls[0].now, hi);
    }
  }

  lemma {:induction false} MonotoneLow(calls: seq<Call>, lo: int, hi: int)
    requires Monotone(calls, lo, hi)
    ensures lo <= hi
    decreases |calls|
  {
    if calls != [] {
      MonotoneLow(calls[1..], calls[0].now, hi);
    }
  }

  /** Event `i` was recorded `carries[i]` more rotations into the browser's run than into the
      aggregator's. */
  ghost predicate Apart(go: seq<Entry>, br: seq<Entry>, carries: seq<int>) {
    && |go| == |br| == |carries|
    && forall i :: 0 <= i < |go| ==> go[i].delta == br[i].delta && br[i].tag - go[i].tag == carries[i]
  }

  lemma ApartSnoc(go: seq<Entry>, br: seq<Entry>, carries: seq<int>, e: Entry, f: Entry, c: int)
    requires Apart(go, br, carries) && e.delta == f.delta && f.tag - e.tag == c
    ensures Apart(go + [e], br + [f], carries + [c])
  {
  }

  lemma {:induction false} RunApart(goStart: int, brStart: int, lo: int, calls: seq<Call>, hi: int, d: int)
    requires d > 0 && NoReset(calls) && goStart <= lo && brStart <= lo && Monotone(calls, lo, hi)
    ensures Apart(Run(Lazy, Fresh(goStart), calls, d).entries, Run(Aligned, Fresh(brStart), calls, d).entries,
                  Carries(goStart, brStart, calls, d))
  {
    if calls != [] {
      var init, c := calls[..|calls| - 1], calls[|calls| - 1];
      assert calls == init + [c] && !c.Reset?;
      MonotoneInit(calls, lo, hi);
      assert NoReset(init) by {
        assert forall i :: 0 <= i < |init| ==> init[i] == calls[i];
      }
      RunApart(goStart, brStart, lo, init, c.now, d);
      RunSnoc(Lazy, Fresh(goStart), init, c, d);
      RunSnoc(Aligned, Fresh(brStart), init, c, d);
      CarryIs(goStart, brStart, lo, init, c.now, d);
      StepApart(Run(Lazy, Fresh(goStart), init, d), Run(Aligned, Fresh(brStart), init, d), c,
                Carries(goStart, brStart, init, d), Carry(goStart, brStart, init, c.now, d), d);
    }
  }

  lemma StepApart(go: Log, br: Log, c: Call, carries: seq<int>, carry: int, d: int)
    requires d > 0 && !c.Reset? && Apart(go.entries, br.entries, carries)
    requires carry == Step(Aligned, br, Query(c.now), d).rotations - Step(Lazy, go, Query(c.now), d).rotations
    ensures Apart(Step(Lazy, go, c, d).entries, Step(Aligned, br, c, d).entries,
                  carries + (if c.Record? then [carry] else []))
  {
    hide Due;
    if c.Record? {
      var v, w := Rotated(Lazy, go, c.now, d), Rotated(Aligned, br, c.now, d);
      ApartSnoc(go.entries, br.entries, carries, Entry(c.now, v.last, v.rotations, c.delta),
                Entry(c.now, w.last, w.rotations, c.delta), carry);
    } else {
      assert carries + [] == carries;
    }
  }

  lemma QueryApart(goStart: int, brStart: int, lo: int, calls: seq<Call>, now: int, d: int)
    requires d > 0 && NoReset(calls) && goStart <= lo && brStart <= lo && Monotone(calls, lo, now)
    ensures Apart(LazyAt(goStart, calls, now, d).entries, AlignedAt(brStart, calls, now, d).entries,
                  Carries(goStart, brStart, calls, d))
  {
    hide Due, Run, Carries;
    RunApart(goStart, brStart, lo, calls, now, d);
  }

  lemma {:induction false} RunStamps(start: int, lo: int, calls: seq<Call>, hi: int, d: int)
    requires d > 0 && NoReset(calls) && start <= lo && Monotone(calls, lo, hi)
    ensures var w := Run(Aligned, Fresh(start), calls, d);
            && OnGrid(w, start, d) && |w.entries| == |Stamps(calls)|
            && forall i :: 0 <= i < |w.entries| ==> w.entries[i].at == Stamps(calls)[i]
  {
    RunOnGrid(Fresh(start), calls, start, d, lo, hi);
    if calls != [] {
      var init, c := calls[..|calls| - 1], calls[|calls| - 1];
      assert calls == init + [c] && !c.Reset?;
      MonotoneInit(calls, lo, hi);
      assert NoReset(init) by {
        assert forall i :: 0 <= i < |init| ==> init[i] == calls[i];
      }
      RunStamps(start, lo, init, c.now, d);
      RunSnoc(Aligned, Fresh(start), init, c, d);
    }
  }

  /** What the query finds of each event: its age in either window, and that both had it recorded. */
  ghost predicate Aged(go: Log, br: Log, goStart: int, brStart: int, calls: seq<Call>, now: int, d: int)
    requires d > 0
  {
    && |go.entries| == |br.entries| == |Stamps(calls)|
    && forall i :: 0 <= i < |go.entries| ==>
         && go.entries[i].delta == br.entries[i].delta
         && 0 <= br.rotations - br.entries[i].tag == Age(brStart, calls, now, i, d)
         && 0 <= go.rotations - go.entries[i].tag
            == Age(brStart, calls, now, i, d) - Excess(goStart, brStart, calls, now, i, d)
  }

  lemma QueryAged(goStart: int, brStart: int, lo: int, calls: seq<Call>, now: int, d: int)
    requires d > 0 && NoReset(calls) && goStart <= lo && brStart <= lo && Monotone(calls, lo, now)
    ensures Aged(LazyAt(goStart, calls, now, d), AlignedAt(brStart, calls, now, d), goStart, brStart, calls, now, d)
  {
    QueryApart(goStart, brStart, lo, calls, now, d);
    CarryIs(goStart, brStart, lo, calls, now, d);
    SameLength(goStart, brStart, calls, d);
    RunStamps(brStart, lo, calls, now, d);
    AlignedRotations(brStart, lo, calls, now, d);
    TagsAt(Lazy, goStart, lo, calls, now, d);
    TagsAt(Aligned, brStart, lo, calls, now, d);
    var go, br := LazyAt(goStart, calls, now, d), AlignedAt(brStart, calls, now, d);
    assert br.entries == Run(Aligned, Fresh(brStart), calls, d).entries;
    hide LazyAt, AlignedAt, Carry, Carries, Epoch, Run, Monotone, Stamps, NoReset;
    forall i | 0 <= i < |go.entries|
      ensures go.entries[i] in go.entries && br.entries[i] in br.entries
      ensures br.rotations - br.entries[i].tag == Age(brStart, calls, now, i, d)
      ensures go.rotations - go.entries[i].tag
              == Age(brStart, calls, now, i, d) - Excess(goStart, brStart, calls, now, i, d)
    {
      assert br.entries[i].tag == Epoch(brStart, br.entries[i].at, d);
    }
  }

  /** The query counts the same events in two windows of b buckets exactly when each record is young
      enough for both or for neither. */
  lemma SameEventsIff(goStart: int, brStart: int, lo: int, calls: seq<Call>, now: int, b: int, d: int)
    requires d > 0 && NoReset(calls) && goStart <= lo && brStart <= lo && Monotone(calls, lo, now)
    ensures var go, br := LazyAt(goStart, calls, now, d), AlignedAt(brStart, calls, now, d);
            && |go.entries| == |br.entries|
            && ((forall i :: 0 <= i < |go.entries| ==> (Live(go, go.entries[i], b) <==> Live(br, br.entries[i], b)))
                <==> SameReach(goStart, brStart, calls, now, b, d))
  {
    var go, br := LazyAt(goStart, calls, now, d), AlignedAt(brStart, calls, now, d);
    QueryAged(goStart, brStart, lo, calls, now, d);
    hide LazyAt, AlignedAt, Age, Excess, Stamps, Monotone, NoReset;
    forall i | 0 <= i < |go.entries|
      ensures ReachesAlike(goStart, brStart, calls, now, i, b, d)
              <==> (Live(go, go.entries[i], b) <==> Live(br, br.entries[i], b))
    {
    }
  }

  // ---------------------------------------------------------------- totals

  /** The same calls at the same times, whatever is recorded. */
  ghost predicate SameShape(a: seq<Call>, b: seq<Call>) {
    && |a| == |b|
    && forall i :: 0 <= i < |a| ==> a[i].now == b[i].now && !b[i].Reset? && (a[i].Record? <==> b[i].Record?)
  }

  lemma {:induction false} ShapeLost(a: seq<Call>, b: seq<Call>, last: int, d: int)
    requires d > 0 && |a| == |b| && forall i :: 0 <= i < |a| ==> a[i].now == b[i].now
    ensures Lost(last, a, d) == Lost(last, b, d) && Clock(last, a, d) == Clock(last, b, d)
    decreases |a|
  {
    if a != [] {
      ShapeLost(a[1..], b[1..], if a[0].now - last < d then last else a[0].now, d);
    }
  }

  lemma ShapeCarry(a: seq<Call>, b: seq<Call>, goStart: int, brStart: int, now: int, d: int)
    requires d > 0 && SameShape(a, b)
    ensures Carry(goStart, brStart, a, now, d) == Carry(goStart, brStart, b, now, d)
  {
    ShapeLost(a + [Query(now)], b + [Query(now)], goStart, d);
  }

  lemma {:induction false} ShapeCarries(a: seq<Call>, b: seq<Call>, goStart: int, brStart: int, d: int)
    requires d > 0 && SameShape(a, b)
    ensures Carries(goStart, brStart, a, d) == Carries(goStart, brStart, b, d)
  {
    if a != [] {
      var n := |a| - 1;
      hide Carry;
      ShapeCarries(a[..n], b[..n], goStart, brStart, d);
      ShapeCarry(a[..n], b[..n], goStart, brStart, a[n].now, d);
    }
  }

  lemma {:induction false} ShapeStamps(a: seq<Call>, b: seq<Call>)
    requires SameShape(a, b)
    ensures Stamps(a) == Stamps(b)
  {
    if a != [] {
      ShapeStamps(a[..|a| - 1], b[..|b| - 1]);
    }
  }

  lemma ShapeReach(x: seq<Call>, y: seq<Call>, goStart: int, brStart: int, now: int, b: int, d: int)
    requires d > 0 && SameShape(x, y)
    ensures Stamps(x) == Stamps(y)
    ensures forall i :: 0 <= i < |Stamps(x)| ==>
              (ReachesAlike(goStart, brStart, x, now, i, b, d) <==> ReachesAlike(goStart, brStart, y, now, i, b, d))
  {
    ShapeStamps(x, y);
    ShapeCarry(x, y, goStart, brStart, now, d);
    ShapeCarries(x, y, goStart, brStart, d);
  }

  lemma {:induction false} ShapeMonotone(a: seq<Call>, b: seq<Call>, lo: int, hi: int)
    requires SameShape(a, b) && Monotone(a, lo, hi)
    ensures Monotone(b, lo, hi) && NoReset(b)
    decreases |a|
  {
    if a != [] {
      ShapeMonotone(a[1..], b[1..], a[0].now, hi);
    }
  }

  /** Windows that hold the same events have the same totals. */
  lemma {:induction false} SameShares(go: Log, br: Log, b: int, n: int)
    requires |go.entries| == |br.entries| && 0 <= n <= |go.entries|
    requires forall i :: 0 <= i < |go.entries| ==>
               && go.entries[i].delta == br.entries[i].delta
               && go.entries[i].tag <= go.rotations && br.entries[i].tag <= br.rotations
               && (Live(go, go.entries[i], b) <==> Live(br, br.entries[i], b))
    ensures TallyTo(go.entries, n, go.rotations - b + 1, go.rotations + 1)
            == TallyTo(br.entries, n, br.rotations - b + 1, br.rotations + 1)
  {
    if n > 0 {
      SameShares(go, br, b, n - 1);
    }
  }

  lemma SameTotals(goStart: int, brStart: int, lo: int, calls: seq<Call>, now: int, b: int, d: int)
    requires d > 0 && NoReset(calls) && goStart <= lo && brStart <= lo && Monotone(calls, lo, now)
    requires SameReach(goStart, brStart, calls, now, b, d)
    ensures WindowTotals(LazyAt(goStart, calls, now, d), b) == WindowTotals(AlignedAt(brStart, calls, now, d), b)
  {
    var go, br := LazyAt(goStart, calls, now, d), AlignedAt(brStart, calls, now, d);
    QueryAged(goStart, brStart, lo, calls, now, d);
    SameEventsIff(goStart, brStart, lo, calls, now, b, d);
    hide LazyAt, AlignedAt, Age, Excess, Monotone, NoReset, TallyTo;
    SameShares(go, br, b, |go.entries|);
  }

  /** One sample. */
  function Mark(): Counts {
    Counts(1, 0, 0, 0, 0)
  }

  /** The same calls with a sample in record `i` and nothing in the others. */
  function Marked(calls: seq<Call>, i: int): seq<Call> {
    if calls == [] then []
    else
      var init, c := calls[..|calls| - 1], calls[|calls| - 1];
      Marked(init, i) + [if c.Record? then c.(delta := if Records(init) == i then Mark() else Zero()) else c]
  }

  ghost predicate OnlyMarked(es: seq<Entry>, i: int) {
    forall j :: 0 <= j < |es| ==> es[j].delta == if j == i then Mark() else Zero()
  }

  lemma {:induction false} MarkedShape(calls: seq<Call>, i: int)
    requires NoReset(calls)
    ensures SameShape(calls, Marked(calls, i))
  {
    if calls != [] {
      var n := |calls| - 1;
      assert forall j :: 0 <= j < n ==> calls[..n][j] == calls[j];
      assert !calls[n].Reset?;
      MarkedShape(calls[..n], i);
    }
  }

  lemma {:induction false} MarkedEntries(start: int, calls: seq<Call>, i: int, d: int)
    requires d > 0 && NoReset(calls)
    ensures var es := Run(Lazy, Fresh(start), Marked(calls, i), d).entries;
            |es| == Records(calls) && OnlyMarked(es, i)
  {
    if calls != [] {
      var n := |calls| - 1;
      assert forall j :: 0 <= j < n ==> calls[..n][j] == calls[j];
      assert !calls[n].Reset?;
      MarkedEntries(start, calls[..n], i, d);
      var marked := Marked(calls, i);
      RunSnoc(Lazy, Fresh(start), Marked(calls[..n], i), marked[|marked| - 1], d);
    }
  }

  lemma {:induction false} MarkedTally(es: seq<Entry>, i: int, n: int, lo: int, hi: int)
    requires OnlyMarked(es, i) && 0 <= n <= |es| && 0 <= i < |es|
    ensures TallyTo(es, n, lo, hi) == if i < n then Share(es[i], lo, hi) else Zero()
  {
    if n > 0 {
      MarkedTally(es, i, n - 1, lo, hi);
    }
  }

  /** A record young enough for one window only shows when nothing else was recorded. */
  lemma Distinguished(goStart: int, brStart: int, lo: int, calls: seq<Call>, now: int, i: int, b: int, d: int)
    returns (marked: seq<Call>)
    requires d > 0 && NoReset(calls) && goStart <= lo && brStart <= lo && Monotone(calls, lo, now)
    requires 0 <= i < |Stamps(calls)| && !ReachesAlike(goStart, brStart, calls, now, i, b, d)
    ensures SameShape(calls, marked)
    ensures WindowTotals(LazyAt(goStart, marked, now, d), b) != WindowTotals(AlignedAt(brStart, marked, now, d), b)
  {
    marked := Marked(calls, i);
    MarkedShape(calls, i);
    ShapeMonotone(calls, marked, lo, now);
    ShapeReach(calls, marked, goStart, brStart, now, b, d);
    MarkedEntries(goStart, calls, i, d);
    QueryAged(goStart, brStart, lo, marked, now, d);
    var go, br := LazyAt(goStart, marked, now, d), AlignedAt(brStart, marked, now, d);
    assert go.entries == Run(Lazy, Fresh(goStart), marked, d).entries;
    hide LazyAt, AlignedAt, Age, Excess, Stamps, Run, Marked, Monotone, WindowTotals;
    MarkedTotals(go, i, b);
    MarkedTotals(br, i, b);
  }

  lemma MarkedTotals(w: Log, i: int, b: int)
    requires 0 <= i < |w.entries| && OnlyMarked(w.entries, i) && w.entries[i].tag <= w.rotations
    ensures WindowTotals(w, b) == if Live(w, w.entries[i], b) then Mark() else Zero()
  {
    hide TallyTo;
    MarkedTally(w.entries, i, |w.entries|, w.rotations - b + 1, w.rotations + 1);
  }

  /** A query reports the same from two windows of b buckets, whatever was recorded, exactly when
      each record is young enough for both or for neither: a condition on the call times alone. */
  lemma ReportsAgreeIff(goStart: int, brStart: int, lo: int, calls: seq<Call>, now: int, b: int, d: int)
    requires d > 0 && NoReset(calls) && goStart <= lo && brStart <= lo && Monotone(calls, lo, now)
    ensures (forall recorded: seq<Call> | SameShape(calls, recorded) ::
               WindowTotals(LazyAt(goStart, recorded, now, d), b) == WindowTotals(AlignedAt(brStart, recorded, now, d), b))
            <==> SameReach(goStart, brStart, calls, now, b, d)
  {
    hide WindowTotals, LazyAt, AlignedAt, ReachesAlike, Monotone, NoReset, Stamps;
    if SameReach(goStart, brStart, calls, now, b, d) {
      forall recorded: seq<Call> | SameShape(calls, recorded)
        ensures WindowTotals(LazyAt(goStart, recorded, now, d), b) == WindowTotals(AlignedAt(brStart, recorded, now, d), b)
      {
        ShapeMonotone(calls, recorded, lo, now);
        ShapeReach(calls, recorded, goStart, brStart, now, b, d);
        SameTotals(goStart, brStart, lo, recorded, now, b, d);
      }
    } else {
      var i :| 0 <= i < |Stamps(calls)| && !ReachesAlike(goStart, brStart, calls, now, i, b, d);
      var marked := Distinguished(goStart, brStart, lo, calls, now, i, b, d);
    }
  }

  /** For windows of every size that is when the query finds the carry that each record met. */
  lemma EverySizeIff(goStart: int, brStart: int, lo: int, calls: seq<Call>, now: int, d: int)
    requires d > 0 && NoReset(calls) && goStart <= lo && brStart <= lo && Monotone(calls, lo, now)
    ensures (forall b | b > 0 :: SameReach(goStart, brStart, calls, now, b, d))
            <==> SameCarry(goStart, brStart, calls, now, d)
  {
    var carries, carry := Carries(goStart, brStart, calls, d), Carry(goStart, brStart, calls, now, d);
    QueryAged(goStart, brStart, lo, calls, now, d);
    SameLength(goStart, brStart, calls, d);
    hide Carry, Carries, Stamps, LazyAt, AlignedAt, Age, Monotone, NoReset;
    if SameCarry(goStart, brStart, calls, now, d) {
      forall b, i | b > 0 && 0 <= i < |Stamps(calls)| ensures ReachesAlike(goStart, brStart, calls, now, i, b, d) {
        assert carries[i] in carries;
      }
    } else {
      var i :| 0 <= i < |carries| && carries[i] != carry;
      var age, excess := Age(brStart, calls, now, i, d), Excess(goStart, brStart, calls, now, i, d);
      var b := (if excess < 0 then age else age - excess) + 1;
      assert !ReachesAlike(goStart, brStart, calls, now, i, b, d);
      assert b > 0 && !SameReach(goStart, brStart, calls, now, b, d);
    }
  }

  /** For one size the carries may differ where it does not show: here the event has left both. */
  lemma DifferentCarrySameReports()
    ensures var calls := [Record(1, Zero()), Query(16)];
            !SameCarry(1, 1, calls, 105, 10) && SameReach(1, 1, calls, 105, 2, 10)
  {
    var calls := [Record(1, Zero()), Query(16)];
    var one := [calls[0]];
    assert calls[..1] == one && one[..0] == [] && calls[1] == Query(16);
    assert Carries(1, 1, [], 10) == [] && Stamps([]) == [];
    assert Carries(1, 1, one, 10) == [Carry(1, 1, [], 1, 10)] && Carries(1, 1, calls, 10) == Carries(1, 1, one, 10);
    assert Stamps(one) == [1] && Stamps(calls) == [1];
    NoCarryYet();
    CarryThen();
    hide Carry, Carries, Stamps;
    assert 0 in Carries(1, 1, calls, 10);
    SameLength(1, 1, calls, 10);
    assert Age(1, calls, 105, 0, 10) == 10 && Excess(1, 1, calls, 105, 0, 10) == 1;
  }

  lemma NoCarryYet()
    ensures Carry(1, 1, [], 1, 10) == 0
  {
    var all := [] + [Query(1)];
    assert all[1..] == [] && Lost(1, [], 10) == 0 && Clock(1, [], 10) == 1;
  }

  lemma CarryThen()
    ensures Carry(1, 1, [Record(1, Zero()), Query(16)], 105, 10) == 1
  {
    var all := [Record(1, Zero()), Query(16)] + [Query(105)];
    assert all[1..] == [Query(16), Query(105)] && all[1..][1..] == [Query(105)] && all[1..][1..][1..] == [];
    assert Lost(105, [], 10) == 0 && Clock(105, [], 10) == 105;
    assert Lost(16, [Query(105)], 10) == 9 && Clock(16, [Query(105)], 10) == 105;
    assert Lost(1, [Query(16), Query(105)], 10) == 14 && Clock(1, [Query(16), Query(105)], 10) == 105;
  }
}
