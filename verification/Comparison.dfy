/** The aggregator's lazily rotated window against the browser's aligned one. */
module Comparison {
  import opened Arithmetic
  import opened History

  function Epoch(start: int, t: int, d: int): int
    requires d > 0
  {
    (t - start) / d
  }

  function Fresh(start: int): Log {
    Log([], 0, start)
  }

  // ---------------------------------------------------------------- aligned windows, in closed form

  /** The rotation count of an aligned window is the number of bucket boundaries passed, and so
      is every tag. */
  ghost predicate OnGrid(w: Log, start: int, d: int)
    requires d > 0
  {
    && w.last == start + d * w.rotations
    && (forall e <- w.entries :: e.tag == Epoch(start, e.at, d))
  }

  lemma EpochIs(start: int, t: int, d: int, n: int)
    requires d > 0 && start + d * n <= t < start + d * n + d
    ensures Epoch(start, t, d) == n
  {
    QuotientIs(t - start, d, n, t - start - d * n);
  }

  lemma RotatedOnGrid(w: Log, now: int, start: int, d: int)
    requires d > 0 && OnGrid(w, start, d) && w.last <= now
    ensures var v := Rotated(Aligned, w, now, d);
            OnGrid(v, start, d) && v.last <= now && v.rotations == Epoch(start, now, d)
  {
    var v := Rotated(Aligned, w, now, d);
    DueSpan(w.last, now, d);
    var r := Due(w.last, now, d);
    assert d * (w.rotations + r) == d * w.rotations + d * r;
    EpochIs(start, now, d, v.rotations);
  }

  lemma StepOnGrid(w: Log, c: Call, start: int, d: int)
    requires d > 0 && OnGrid(w, start, d) && w.last <= c.now
    ensures OnGrid(Step(Aligned, w, c, d), start, d) && Step(Aligned, w, c, d).last <= c.now
  {
    RotatedOnGrid(w, c.now, start, d);
  }

  lemma {:induction false} RunOnGrid(w: Log, calls: seq<Call>, start: int, d: int, lo: int, hi: int)
    requires d > 0 && OnGrid(w, start, d) && w.last <= lo && Monotone(calls, lo, hi)
    ensures OnGrid(Run(Aligned, w, calls, d), start, d) && Run(Aligned, w, calls, d).last <= hi
    decreases |calls|
  {
    if calls != [] {
      StepOnGrid(w, calls[0], start, d);
      RunOnGrid(Step(Aligned, w, calls[0], d), calls[1..], start, d, calls[0].now, hi);
    }
  }

  /** The browser counts an event exactly when fewer than b bucket boundaries lie between it and
      the query, whatever was called in between. */
  lemma AlignedClosedForm(start: int, calls: seq<Call>, now: int, b: int, d: int)
    requires d > 0 && Monotone(calls, start, now)
    ensures var w := Step(Aligned, Run(Aligned, Fresh(start), calls, d), Query(now), d);
            forall e <- w.entries ::
              Live(w, e, b) <==> Epoch(start, now, d) - Epoch(start, e.at, d) < b
  {
    RunOnGrid(Fresh(start), calls, start, d, start, now);
    RotatedOnGrid(Run(Aligned, Fresh(start), calls, d), now, start, d);
  }

  /** The boundaries between an event and a query `g` later. */
  function Crossed(start: int, t: int, g: int, d: int): int
    requires d > 0
  {
    Epoch(start, t + g, d) - Epoch(start, t, d)
  }

  lemma CrossedBounds(start: int, t: int, g: int, b: int, d: int)
    requires d > 0
    ensures Crossed(start, t, g, d) < b ==> g < b * d
    ensures g <= (b - 1) * d ==> Crossed(start, t, g, d) < b
  {
    var p, q := Epoch(start, t, d), Epoch(start, t + g, d);
    QuotientBounds(t - start, d);
    QuotientBounds(t + g - start, d);
    assert d * (q - p) == d * q - d * p && d * b == (b - 1) * d + d && (b - 1) * d == b * d - d;
    if q - p < b {
      Scale(d, q - p + 1, b);
    } else {
      Scale(d, b, q - p);
    }
  }

  /** From a boundary as few are crossed as can be, from just before one as many. */
  lemma CrossedExtremes(start: int, g: nat, b: int, d: int)
    requires b > 0 && d > 0
    ensures g < b * d ==> Crossed(start, start, g, d) < b
    ensures g > (b - 1) * d ==> Crossed(start, start + d - 1, g, d) >= b
  {
    EpochIs(start, start, d, 0);
    EpochIs(start, start + d - 1, d, 0);
    QuotientBounds(g, d);
    QuotientBounds(d - 1 + g, d);
    var p, q := g / d, (d - 1 + g) / d;
    assert p == Epoch(start, start + g, d) && q == Epoch(start, start + d - 1 + g, d);
    assert b * d == d * b && (b - 1) * d == d * (b - 1) && d * q + d == d * (q + 1);
    if b <= p {
      Scale(d, b, p);
    }
    if q < b {
      Scale(d, q, b - 1);
    }
  }

  /** So the browser is sure to count an event up to the same age as the aggregator, but never
      keeps one for the full window or longer. */
  lemma AlignedRetentionIff(start: int, b: int, d: int, g: nat)
    requires b > 0 && d > 0
    ensures (forall t | start <= t :: Crossed(start, t, g, d) < b) <==> g <= (b - 1) * d
    ensures (exists t :: start <= t && Crossed(start, t, g, d) < b) <==> g < b * d
  {
    hide Crossed;
    forall t ensures Crossed(start, t, g, d) < b ==> g < b * d
      ensures g <= (b - 1) * d ==> Crossed(start, t, g, d) < b
    {
      CrossedBounds(start, t, g, b, d);
    }
    CrossedExtremes(start, g, b, d);
  }

  // ---------------------------------------------------------------- one window inside the other

  /** The same events in the same order; tags and clocks may differ. */
  ghost predicate SameEvents(a: seq<Entry>, b: seq<Entry>) {
    && |a| == |b|
    && forall i :: 0 <= i < |a| ==> a[i].at == b[i].at && a[i].delta == b[i].delta
  }

  lemma {:induction false} SameCallsSameEvents(v: Log, w: Log, calls: seq<Call>, d: int)
    requires d > 0 && SameEvents(v.entries, w.entries)
    ensures SameEvents(Run(Lazy, v, calls, d).entries, Run(Aligned, w, calls, d).entries)
    decreases |calls|
  {
    if calls != [] {
      SameCallsSameEvents(Step(Lazy, v, calls[0], d), Step(Aligned, w, calls[0], d), calls[1..], d);
    }
  }

  lemma EpochSpan(start: int, t: int, now: int, d: int, k: int)
    requires d > 0
    ensures Epoch(start, now, d) - Epoch(start, t, d) < k ==> now - t < k * d
    ensures now - t < k * d ==> Epoch(start, now, d) - Epoch(start, t, d) <= k
  {
    var p, q := Epoch(start, t, d), Epoch(start, now, d);
    QuotientBounds(t - start, d);
    QuotientBounds(now - start, d);
    assert d * (q - p) == d * q - d * p;
    if q - p < k {
      Scale(d, q - p + 1, k);
    } else if q - p > k {
      Scale(d, k + 1, q - p);
    }
  }

  function LazyAt(start: int, calls: seq<Call>, now: int, d: int): Log
    requires d > 0
  {
    Step(Lazy, Run(Lazy, Fresh(start), calls, d), Query(now), d)
  }

  function AlignedAt(start: int, calls: seq<Call>, now: int, d: int): Log
    requires d > 0
  {
    Step(Aligned, Run(Aligned, Fresh(start), calls, d), Query(now), d)
  }

  lemma MonotoneEarlier(calls: seq<Call>, lo: int, earlier: int, hi: int)
    requires Monotone(calls, lo, hi) && earlier <= lo
    ensures Monotone(calls, earlier, hi)
  {
  }

  /** On the same calls, and whenever the two clocks were started before them, the aggregator's b
      buckets hold all that b-1 browser buckets hold, and nothing that 2b browser buckets do not. */
  lemma Sandwich(goStart: int, brStart: int, lo: int, calls: seq<Call>, now: int, b: int, d: int)
    requires b > 0 && d > 0 && goStart <= lo && brStart <= lo && Monotone(calls, lo, now)
    ensures var go, br := LazyAt(goStart, calls, now, d), AlignedAt(brStart, calls, now, d);
            && SameEvents(go.entries, br.entries)
            && forall i :: 0 <= i < |go.entries| ==>
                 && (Live(br, br.entries[i], b - 1) ==> Live(go, go.entries[i], b))
                 && (Live(go, go.entries[i], b) ==> Live(br, br.entries[i], 2 * b))
  {
    var go, br := LazyAt(goStart, calls, now, d), AlignedAt(brStart, calls, now, d);
    SameCallsSameEvents(Fresh(goStart), Fresh(brStart), calls, d);
    RunBracketed(Lazy, Fresh(goStart), calls, d, lo, now);
    RotatedBracketed(Lazy, Run(Lazy, Fresh(goStart), calls, d), now, d);
    MonotoneEarlier(calls, lo, brStart, now);
    AlignedClosedForm(brStart, calls, now, b - 1, d);
    AlignedClosedForm(brStart, calls, now, 2 * b, d);
    forall i | 0 <= i < |go.entries|
      ensures Live(br, br.entries[i], b - 1) ==> Live(go, go.entries[i], b)
      ensures Live(go, go.entries[i], b) ==> Live(br, br.entries[i], 2 * b)
    {
      var e := go.entries[i];
      assert e in go.entries && br.entries[i] in br.entries;
      SandwichedEvent(go, e, brStart, now, b, d);
    }
  }

  lemma SandwichedEvent(go: Log, e: Entry, start: int, now: int, b: int, d: int)
    requires b > 0 && d > 0 && EntryBracketed(go, e, d) && e.base <= e.at
    requires go.last <= now < go.last + d
    ensures Epoch(start, now, d) - Epoch(start, e.at, d) < b - 1 ==> Live(go, e, b)
    ensures Live(go, e, b) ==> Epoch(start, now, d) - Epoch(start, e.at, d) < 2 * b
  {
    EpochSpan(start, e.at, now, d, b - 1);
    EpochSpan(start, e.at, now, d, 2 * b - 1);
    if now - e.at < (b - 1) * d {
      YoungIsLive(go, e, now, b, d);
    }
    if now - e.at >= (2 * b - 1) * d {
      TooOldIsDead(go, e, now, b, d);
    }
  }

  /** A query that sets the aggregator's clock b ticks behind the browser's, a record, and then as many
      queries as can be without losing the event. */
  function Drifting(b: int, d: int, now: int, delta: Counts): seq<Call>
    requires 0 < b && 0 < d
  {
    var t := 1 + d + b;
    [Query(t), Record(t, delta)] + Dawdle(t, now, b - 1, d)
  }

  lemma DriftingLazy(b: int, d: int, delta: Counts)
    requires 0 < b < d
    ensures var t := 1 + d + b;
            var now := t + (2 * b - 1) * d - b;
            && Monotone(Drifting(b, d, now, delta), 1, now)
            && LazyAt(1, Drifting(b, d, now, delta), now, d).entries == [Entry(t, t, 1, delta)]
            && LazyAt(1, Drifting(b, d, now, delta), now, d).rotations <= b
  {
    var t := 1 + d + b;
    var now := t + (2 * b - 1) * d - b;
    var first, rest := [Query(t), Record(t, delta)], Dawdle(t, now, b - 1, d);
    var w := Log([Entry(t, t, 1, delta)], 1, t);
    LongestStay(b, d);
    RunTwo(Lazy, Fresh(1), Query(t), Record(t, delta), d);
    DueBelowTwo(1, t, d);
    assert Run(Lazy, Fresh(1), first, d) == w;
    hide Run, Due;
    RunAppend(Lazy, Fresh(1), first, rest, d);
    Scale(2 * d - 1, 0, b - 1);
    DawdleIsCheap(w, now, b - 1, d);
    QueriesKeepEntries(w, rest, d);
    var calls := first + rest;
    assert calls[1..] == [Record(t, delta)] + rest && calls[1..][1..] == rest;
  }

  lemma DriftingEpochs(b: int, d: int)
    requires 0 < b < d
    ensures Epoch(1, 1 + d + b, d) == 1 && Epoch(1, 1 + d + b + (2 * b - 1) * d - b, d) == 2 * b
  {
    assert 1 + d + b + (2 * b - 1) * d - b == 1 + d * (2 * b);
    EpochIs(1, 1 + d + b, d, 1);
    EpochIs(1, 1 + d * (2 * b), d, 2 * b);
  }

  /** A run with a common start in which the aggregator's b buckets keep an event across 2b-1
      boundaries. */
  lemma AcrossMost(b: int, d: int, delta: Counts) returns (calls: seq<Call>, now: int)
    requires 0 < b < d
    ensures Monotone(calls, 1, now)
    ensures var go, br := LazyAt(1, calls, now, d), AlignedAt(1, calls, now, d);
            && |go.entries| == |br.entries| == 1
            && Live(go, go.entries[0], b) && !Live(br, br.entries[0], 2 * b - 1)
  {
    var t := 1 + d + b;
    now := t + (2 * b - 1) * d - b;
    calls := Drifting(b, d, now, delta);
    DriftingLazy(b, d, delta);
    DriftingEpochs(b, d);
    hide Drifting, Due, Run, Epoch;
    SameCallsSameEvents(Fresh(1), Fresh(1), calls, d);
    AlignedClosedForm(1, calls, now, 2 * b - 1, d);
    var br := AlignedAt(1, calls, now, d);
    assert br.entries[0] in br.entries;
  }

  lemma {:induction false} QueriesKeepEntries(w: Log, calls: seq<Call>, d: int)
    requires d > 0 && forall c <- calls :: c.Query?
    ensures Run(Lazy, w, calls, d).entries == w.entries
    decreases |calls|
  {
    if calls != [] {
      assert calls[0] in calls;
      QueriesKeepEntries(Step(Lazy, w, calls[0], d), calls[1..], d);
    }
  }

  /** Every event of b aggregator buckets is in one browser bucket fewer than 2b. */
  ghost predicate OneFewerHolds(goStart: int, brStart: int, calls: seq<Call>, now: int, b: int, d: int)
    requires d > 0
  {
    var go, br := LazyAt(goStart, calls, now, d), AlignedAt(brStart, calls, now, d);
    forall i :: 0 <= i < |go.entries| && i < |br.entries| && Live(go, go.entries[i], b) ==> Live(br, br.entries[i], 2 * b - 1)
  }

  /** The calls run forward and come after both clocks were started. */
  predicate InTime(goStart: int, brStart: int, lo: int, calls: seq<Call>, now: int) {
    goStart <= lo && brStart <= lo && Monotone(calls, lo, now)
  }

  /** One browser bucket fewer than 2b would do exactly when a bucket is no longer than b ticks. */
  lemma TwiceIsNeededIff(b: int, d: int)
    requires b > 0 && d > 0
    ensures (forall goStart, brStart, lo, calls, now | InTime(goStart, brStart, lo, calls, now) ::
               OneFewerHolds(goStart, brStart, calls, now, b, d))
            <==> d <= b
  {
    if d <= b {
      forall goStart, brStart, lo, calls, now | InTime(goStart, brStart, lo, calls, now)
        ensures OneFewerHolds(goStart, brStart, calls, now, b, d)
      {
        ShortBuckets(goStart, brStart, lo, calls, now, b, d);
      }
    } else {
      var calls, now := AcrossMost(b, d, Zero());
      assert InTime(1, 1, 1, calls, now) && !OneFewerHolds(1, 1, calls, now, b, d);
    }
  }

  lemma ShortBuckets(goStart: int, brStart: int, lo: int, calls: seq<Call>, now: int, b: int, d: int)
    requires 0 < d <= b && goStart <= lo && brStart <= lo && Monotone(calls, lo, now)
    ensures OneFewerHolds(goStart, brStart, calls, now, b, d)
  {
    var go, br := LazyAt(goStart, calls, now, d), AlignedAt(brStart, calls, now, d);
    SameCallsSameEvents(Fresh(goStart), Fresh(brStart), calls, d);
    RunBracketed(Lazy, Fresh(goStart), calls, d, lo, now);
    RotatedBracketed(Lazy, Run(Lazy, Fresh(goStart), calls, d), now, d);
    MonotoneEarlier(calls, lo, brStart, now);
    AlignedClosedForm(brStart, calls, now, 2 * b - 1, d);
    hide Run, Due, Monotone, Crossed;
    forall i | 0 <= i < |go.entries| && Live(go, go.entries[i], b) ensures Live(br, br.entries[i], 2 * b - 1) {
      var e := go.entries[i];
      assert e in go.entries && br.entries[i] in br.entries;
      ShortStay(go, e, brStart, now, b, d);
    }
  }

  lemma ShortStay(go: Log, e: Entry, start: int, now: int, b: int, d: int)
    requires 0 < d <= b && EntryBracketed(go, e, d) && e.base <= e.at && now < go.last + d && Live(go, e, b)
    ensures Epoch(start, now, d) - Epoch(start, e.at, d) < 2 * b - 1
  {
    if now - e.at > (2 * b - 1) * d - b {
      TooOldIsDead(go, e, now, b, d);
    }
    assert (2 * b - 1) * d - b <= (2 * b - 1) * d - d == (2 * b - 1 - 1) * d;
    CrossedBounds(start, e.at, now - e.at, 2 * b - 1, d);
  }

  lemma {:induction false} TallyMonotone(a: seq<Entry>, lo: int, hi: int, b: seq<Entry>, lo': int, hi': int, n: int)
    requires 0 <= n <= |a| && SameEvents(a, b)
    requires forall e <- a :: Honest(e.delta)
    requires forall i :: 0 <= i < |a| ==> (lo <= a[i].tag < hi ==> lo' <= b[i].tag < hi')
    ensures NoMore(TallyTo(a, n, lo, hi), TallyTo(b, n, lo', hi'))
  {
    if n > 0 {
      TallyMonotone(a, lo, hi, b, lo', hi', n - 1);
      assert Honest(a[n - 1].delta);
    }
  }

  lemma TagsAt(m: Clocking, start: int, lo: int, calls: seq<Call>, now: int, d: int)
    requires d > 0 && start <= lo && Monotone(calls, lo, now)
    ensures var w := Step(m, Run(m, Fresh(start), calls, d), Query(now), d);
            forall e <- w.entries :: e.tag <= w.rotations
  {
    RunBracketed(m, Fresh(start), calls, d, lo, now);
    RotatedBracketed(m, Run(m, Fresh(start), calls, d), now, d);
    var w := Step(m, Run(m, Fresh(start), calls, d), Query(now), d);
    forall e | e in w.entries ensures e.tag <= w.rotations {
      assert EntryBracketed(w, e, d);
    }
  }

  lemma SameHonesty(v: Log, w: Log)
    requires SameEvents(v.entries, w.entries) && HonestLog(v)
    ensures HonestLog(w)
  {
    forall e | e in w.entries ensures Honest(e.delta) {
      var i :| 0 <= i < |w.entries| && w.entries[i] == e;
      assert v.entries[i] in v.entries;
    }
  }

  lemma TotalsNoMore(v: Log, a: int, w: Log, b: int)
    requires SameEvents(v.entries, w.entries) && HonestLog(v)
    requires forall e <- w.entries :: e.tag <= w.rotations
    requires forall i :: 0 <= i < |v.entries| ==> Live(v, v.entries[i], a) ==> Live(w, w.entries[i], b)
    ensures NoMore(WindowTotals(v, a), WindowTotals(w, b))
  {
    assert forall i :: 0 <= i < |w.entries| ==> w.entries[i] in w.entries;
    TallyMonotone(v.entries, v.rotations - a + 1, v.rotations + 1,
                  w.entries, w.rotations - b + 1, w.rotations + 1, |v.entries|);
  }

  lemma TotalsBetween(go: Log, br: Log, b: int)
    requires SameEvents(go.entries, br.entries) && HonestLog(go)
    requires forall e <- go.entries :: e.tag <= go.rotations
    requires forall e <- br.entries :: e.tag <= br.rotations
    requires forall i :: 0 <= i < |go.entries| ==>
               && (Live(br, br.entries[i], b - 1) ==> Live(go, go.entries[i], b))
               && (Live(go, go.entries[i], b) ==> Live(br, br.entries[i], 2 * b))
    ensures NoMore(WindowTotals(br, b - 1), WindowTotals(go, b))
    ensures NoMore(WindowTotals(go, b), WindowTotals(br, 2 * b))
  {
    SameHonesty(go, br);
    TotalsNoMore(br, b - 1, go, b);
    TotalsNoMore(go, b, br, 2 * b);
  }

  /** So every signal the aggregator reports lies between what the browser reports with one
      bucket fewer and with twice as many. */
  lemma SandwichedTotals(goStart: int, brStart: int, lo: int, calls: seq<Call>, now: int, b: int, d: int)
    requires b > 0 && d > 0 && goStart <= lo && brStart <= lo && Monotone(calls, lo, now) && HonestCalls(calls)
    ensures var go, br := LazyAt(goStart, calls, now, d), AlignedAt(brStart, calls, now, d);
            && NoMore(WindowTotals(br, b - 1), WindowTotals(go, b))
            && NoMore(WindowTotals(go, b), WindowTotals(br, 2 * b))
  {
    var go, br := LazyAt(goStart, calls, now, d), AlignedAt(brStart, calls, now, d);
    Sandwich(goStart, brStart, lo, calls, now, b, d);
    RunHonest(Lazy, Fresh(goStart), calls, d);
    TagsAt(Lazy, goStart, lo, calls, now, d);
    TagsAt(Aligned, brStart, lo, calls, now, d);
    TotalsBetween(go, br, b);
  }

  // ---------------------------------------------------------------- when the two are the same

  /** Time the lazy window throws away: what is left of a bucket at each rotation. */
  function Lost(last: int, calls: seq<Call>, d: int): int
    requires d > 0
    decreases |calls|
  {
    if calls == [] then 0
    else
      var now := calls[0].now;
      if now - last < d then Lost(last, calls[1..], d)
      else (now - last) % d + Lost(now, calls[1..], d)
  }

  /** Every call comes either before the next boundary or on one. */
  predicate OnBoundary(last: int, calls: seq<Call>, d: int)
    requires d > 0
    decreases |calls|
  {
    calls != [] ==>
      var now := calls[0].now;
      if now - last < d then OnBoundary(last, calls[1..], d)
      else (now - last) % d == 0 && OnBoundary(now, calls[1..], d)
  }

  lemma {:induction false} LostIffOffBoundary(last: int, calls: seq<Call>, d: int)
    requires d > 0
    ensures 0 <= Lost(last, calls, d)
    ensures Lost(last, calls, d) == 0 <==> OnBoundary(last, calls, d)
    decreases |calls|
  {
    if calls != [] {
      var now := calls[0].now;
      LostIffOffBoundary(if now - last < d then last else now, calls[1..], d);
    }
  }

  lemma StepConserved(m: Clocking, w: Log, c: Call, d: int)
    requires d > 0 && !c.Reset?
    ensures var v := Step(m, w, c, d);
            && v.last - w.last == d * (v.rotations - w.rotations)
                                  + (if m.Lazy? && c.now - w.last >= d then (c.now - w.last) % d else 0)
            && (m.Lazy? ==> v.last == if c.now - w.last < d then w.last else c.now)
  {
    if c.now - w.last >= d {
      QuotientBounds(c.now - w.last, d);
      assert c.now - w.last == d * Due(w.last, c.now, d) + (c.now - w.last) % d;
    }
  }

  /** The rotation clock is conserved: it advances by a bucket per rotation plus what is lost. */
  lemma {:induction false} ClockConserved(m: Clocking, w: Log, calls: seq<Call>, d: int)
    requires d > 0 && NoReset(calls)
    ensures var v := Run(m, w, calls, d);
            v.last - w.last == d * (v.rotations - w.rotations) + if m.Lazy? then Lost(w.last, calls, d) else 0
    decreases |calls|
  {
    if calls != [] {
      assert !calls[0].Reset?;
      var u := Step(m, w, calls[0], d);
      var v := Run(m, w, calls, d);
      var now := calls[0].now;
      StepConserved(m, w, calls[0], d);
      ClockConserved(m, u, calls[1..], d);
      hide Step;
      assert d * (v.rotations - w.rotations) == d * (v.rotations - u.rotations) + d * (u.rotations - w.rotations);
    }
  }

  lemma {:induction false} OnBoundarySameRun(w: Log, calls: seq<Call>, d: int)
    requires d > 0 && NoReset(calls) && OnBoundary(w.last, calls, d)
    ensures Run(Lazy, w, calls, d) == Run(Aligned, w, calls, d)
    decreases |calls|
  {
    if calls != [] {
      assert !calls[0].Reset?;
      var now := calls[0].now;
      var r := Due(w.last, now, d);
      if now - w.last >= d {
        assert now - w.last == d * r + (now - w.last) % d;
        assert w.last + r * d == now;
      }
      var u := Step(Lazy, w, calls[0], d);
      assert u == Step(Aligned, w, calls[0], d);
      OnBoundarySameRun(u, calls[1..], d);
    }
  }

  /** The two windows are the same to the code: the rotation clock and every total. */
  ghost predicate Alike(v: Log, w: Log) {
    v.last == w.last && forall b :: WindowTotals(v, b) == WindowTotals(w, b)
  }

  lemma AlikeClocksOnBoundary(w: Log, c: Call, d: int)
    requires d > 0 && !c.Reset?
    ensures Step(Lazy, w, c, d).last == Step(Aligned, w, c, d).last <==> OnBoundary(w.last, [c], d)
    ensures OnBoundary(w.last, [c], d) ==> Step(Lazy, w, c, d) == Step(Aligned, w, c, d)
  {
    var r := Due(w.last, c.now, d);
    assert [c][1..] == [];
    if c.now - w.last >= d {
      QuotientBounds(c.now - w.last, d);
      assert c.now - w.last == d * r + (c.now - w.last) % d;
      assert r > 0 by {
        if r <= 0 {
          Scale(d, r, 0);
        }
      }
    }
  }

  lemma RunFirst(m: Clocking, w: Log, calls: seq<Call>, n: int, d: int)
    requires d > 0 && 0 <= n < |calls|
    ensures Run(m, w, calls[..n + 1], d) == Run(m, Step(m, w, calls[0], d), calls[1..][..n], d)
  {
    assert calls[..n + 1][1..] == calls[1..][..n];
  }

  /** The clocks of the two windows agree after every call. */
  ghost predicate ClocksAgree(w: Log, calls: seq<Call>, d: int)
    requires d > 0
  {
    forall n :: 0 <= n <= |calls| ==> Run(Lazy, w, calls[..n], d).last == Run(Aligned, w, calls[..n], d).last
  }

  lemma {:induction false} AgreeingClocksOnBoundary(w: Log, calls: seq<Call>, d: int)
    requires d > 0 && NoReset(calls) && ClocksAgree(w, calls, d)
    ensures OnBoundary(w.last, calls, d)
    decreases |calls|
  {
    if calls != [] {
      var c, rest := calls[0], calls[1..];
      assert !c.Reset?;
      var u := Step(Lazy, w, c, d);
      RunFirst(Lazy, w, calls, 0, d);
      RunFirst(Aligned, w, calls, 0, d);
      assert Run(Lazy, w, calls[..1], d).last == Run(Aligned, w, calls[..1], d).last;
      AlikeClocksOnBoundary(w, c, d);
      forall n | 0 <= n <= |rest|
        ensures Run(Lazy, u, rest[..n], d).last == Run(Aligned, u, rest[..n], d).last
      {
        RunFirst(Lazy, w, calls, n, d);
        RunFirst(Aligned, w, calls, n, d);
        assert Run(Lazy, w, calls[..n + 1], d).last == Run(Aligned, w, calls[..n + 1], d).last;
      }
      AgreeingClocksOnBoundary(u, rest, d);
    }
  }

  lemma {:induction false} OnBoundaryPrefix(last: int, calls: seq<Call>, n: int, d: int)
    requires d > 0 && OnBoundary(last, calls, d) && 0 <= n <= |calls|
    ensures OnBoundary(last, calls[..n], d)
    decreases |calls|
  {
    if n > 0 {
      var now := calls[0].now;
      assert calls[..n][1..] == calls[1..][..n - 1];
      OnBoundaryPrefix(if now - last < d then last else now, calls[1..], n - 1, d);
    }
  }

  /** From any common state, the two windows are the same after every call exactly when each call
      comes before the next boundary or on one.  The first call that does not sets the clocks apart. */
  lemma SameWindowIff(w: Log, calls: seq<Call>, d: int)
    requires d > 0 && NoReset(calls)
    ensures (forall n :: 0 <= n <= |calls| ==> Alike(Run(Lazy, w, calls[..n], d), Run(Aligned, w, calls[..n], d)))
            <==> OnBoundary(w.last, calls, d)
  {
    hide Run, OnBoundary, WindowTotals;
    if OnBoundary(w.last, calls, d) {
      forall n | 0 <= n <= |calls| ensures Alike(Run(Lazy, w, calls[..n], d), Run(Aligned, w, calls[..n], d)) {
        OnBoundaryPrefix(w.last, calls, n, d);
        OnBoundarySameRun(w, calls[..n], d);
      }
    }
    if forall n :: 0 <= n <= |calls| ==> Alike(Run(Lazy, w, calls[..n], d), Run(Aligned, w, calls[..n], d)) {
      forall n | 0 <= n <= |calls| ensures Run(Lazy, w, calls[..n], d).last == Run(Aligned, w, calls[..n], d).last {
        assert Alike(Run(Lazy, w, calls[..n], d), Run(Aligned, w, calls[..n], d));
      }
      AgreeingClocksOnBoundary(w, calls, d);
    }
  }

  /** Windows that have come apart can meet again once they are empty: the state at the end alone
      does not tell. */
  lemma ClocksCanMeetAgain()
    ensures var calls := [Query(16), Query(31)];
            && !OnBoundary(1, calls, 10)
            && Alike(Run(Lazy, Fresh(1), calls, 10), Run(Aligned, Fresh(1), calls, 10))
  {
    RunTwo(Lazy, Fresh(1), Query(16), Query(31), 10);
    RunTwo(Aligned, Fresh(1), Query(16), Query(31), 10);
  }

  /** With equally many buckets neither window contains the other: here two of ten ticks. */
  lemma NeitherContainsTheOther(event: Counts)
    ensures var calls := [Query(20), Record(29, event)];
            && WindowTotals(AlignedAt(1, calls, 40, 10), 2) == event
            && WindowTotals(LazyAt(1, calls, 40, 10), 2) == Zero()
    ensures var calls := [Record(1, event), Query(20)];
            && WindowTotals(LazyAt(1, calls, 29, 10), 2) == event
            && WindowTotals(AlignedAt(1, calls, 29, 10), 2) == Zero()
  {
    RunTwo(Lazy, Fresh(1), Query(20), Record(29, event), 10);
    assert LazyAt(1, [Query(20), Record(29, event)], 40, 10) == Log([Entry(29, 20, 1, event)], 3, 40);
    OneEventTotals(Entry(29, 20, 1, event), 3, 40, 2);
    RunTwo(Aligned, Fresh(1), Query(20), Record(29, event), 10);
    assert AlignedAt(1, [Query(20), Record(29, event)], 40, 10) == Log([Entry(29, 21, 2, event)], 3, 31);
    OneEventTotals(Entry(29, 21, 2, event), 3, 31, 2);
    RunTwo(Lazy, Fresh(1), Record(1, event), Query(20), 10);
    assert LazyAt(1, [Record(1, event), Query(20)], 29, 10) == Log([Entry(1, 1, 0, event)], 1, 20);
    OneEventTotals(Entry(1, 1, 0, event), 1, 20, 2);
    RunTwo(Aligned, Fresh(1), Record(1, event), Query(20), 10);
    assert AlignedAt(1, [Record(1, event), Query(20)], 29, 10) == Log([Entry(1, 1, 0, event)], 2, 21);
    OneEventTotals(Entry(1, 1, 0, event), 2, 21, 2);
  }

  lemma OneEventTotals(e: Entry, rot: int, last: int, b: int)
    ensures WindowTotals(Log([e], rot, last), b) == Share(e, rot - b + 1, rot + 1)
  {
    var lo, hi := rot - b + 1, rot + 1;
    assert TallyTo([e], 0, lo, hi) == Zero();
    PlusZero(Share(e, lo, hi));
  }

  lemma RunTwo(m: Clocking, w: Log, a: Call, b: Call, d: int)
    requires d > 0
    ensures Run(m, w, [a, b], d) == Step(m, Step(m, w, a, d), b, d)
  {
    assert [a, b][1..] == [b];
    assert [b][1..] == [];
    var v := Step(m, w, a, d);
    assert Run(m, v, [b], d) == Run(m, Step(m, v, b, d), [], d);
  }
}
