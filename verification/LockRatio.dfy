/** The lock-contention ratio of pkg/profile/window.go, documented as a fraction of time: which
    recorded waits keep it one. */
module LockRatio {
  import opened Arithmetic
  import opened History
  import opened SlidingWindow
  import opened Comparison

  /** Lock time recorded at `from` or later and not reset since; `sum` is what came before. */
  function WaitedAfter(sum: int, calls: seq<Call>, from: int): int
    decreases |calls|
  {
    if calls == [] then sum
    else
      match calls[0]
      case Record(now, delta) => WaitedAfter(if from <= now then sum + delta.lockNs else sum, calls[1..], from)
      case Query(_) => WaitedAfter(sum, calls[1..], from)
      case Reset(_) => WaitedAfter(0, calls[1..], from)
  }

  function Waited(calls: seq<Call>, from: int): int {
    WaitedAfter(0, calls, from)
  }

  /** The ratio a query at `now` reports after `calls` to a profile created at `start`. */
  function RatioAt(start: int, calls: seq<Call>, now: int, b: int, d: int): real
    requires b > 0 && d > 0
  {
    ProfileOf("", WindowTotals(LazyAt(start, calls, now, d), b), b, d, ZERO_TIME, ZERO_TIME).lockRatio
  }

  predicate Proper(start: int, calls: seq<Call>, now: int) {
    Monotone(calls, start, now) && HonestCalls(calls)
  }

  // ---------------------------------------------------------------- waits in the history

  /** Lock time of the first `n` events, as far as recorded at `from` or later. */
  function LockTo(es: seq<Entry>, n: int, from: int): int
    requires 0 <= n <= |es|
  {
    if n == 0 then 0 else LockTo(es, n - 1, from) + (if from <= es[n - 1].at then es[n - 1].delta.lockNs else 0)
  }

  lemma {:induction false} LockToPrefix(es: seq<Entry>, more: seq<Entry>, n: int, from: int)
    requires 0 <= n <= |es|
    ensures LockTo(es + more, n, from) == LockTo(es, n, from)
  {
    if n > 0 {
      LockToPrefix(es, more, n - 1, from);
    }
  }

  lemma StepLock(w: Log, c: Call, from: int, d: int)
    requires d > 0
    ensures var es := Step(Lazy, w, c, d).entries;
            LockTo(es, |es|, from)
            == match c
               case Record(now, delta) => LockTo(w.entries, |w.entries|, from) + (if from <= now then delta.lockNs else 0)
               case Query(_) => LockTo(w.entries, |w.entries|, from)
               case Reset(_) => 0
  {
    hide Due;
    if c.Record? {
      var v := Rotated(Lazy, w, c.now, d);
      LockToPrefix(w.entries, [Entry(c.now, v.last, v.rotations, c.delta)], |w.entries|, from);
    }
  }

  lemma {:induction false} RunLock(w: Log, calls: seq<Call>, from: int, d: int)
    requires d > 0
    ensures var es := Run(Lazy, w, calls, d).entries;
            LockTo(es, |es|, from) == WaitedAfter(LockTo(w.entries, |w.entries|, from), calls, from)
    decreases |calls|
  {
    if calls != [] {
      StepLock(w, calls[0], from, d);
      hide Step, LockTo;
      RunLock(Step(Lazy, w, calls[0], d), calls[1..], from, d);
    }
  }

  lemma WaitedIs(start: int, calls: seq<Call>, now: int, from: int, d: int)
    requires d > 0
    ensures var es := LazyAt(start, calls, now, d).entries; LockTo(es, |es|, from) == Waited(calls, from)
  {
    hide Run, Step;
    RunLock(Fresh(start), calls, from, d);
    StepLock(Run(Lazy, Fresh(start), calls, d), Query(now), from, d);
  }

  /** What is counted was recorded at `from` or later. */
  lemma {:induction false} CountedAtMost(es: seq<Entry>, n: int, lo: int, hi: int, from: int)
    requires 0 <= n <= |es| && (forall e <- es :: Honest(e.delta) && (lo <= e.tag < hi ==> from <= e.at))
    ensures TallyTo(es, n, lo, hi).lockNs <= LockTo(es, n, from)
  {
    if n > 0 {
      CountedAtMost(es, n - 1, lo, hi, from);
      assert es[n - 1] in es;
    }
  }

  /** What was recorded at `from` or later is counted. */
  lemma {:induction false} CountedAtLeast(es: seq<Entry>, n: int, lo: int, hi: int, from: int)
    requires 0 <= n <= |es| && (forall e <- es :: Honest(e.delta) && (from <= e.at ==> lo <= e.tag < hi))
    ensures LockTo(es, n, from) <= TallyTo(es, n, lo, hi).lockNs
  {
    if n > 0 {
      CountedAtLeast(es, n - 1, lo, hi, from);
      assert es[n - 1] in es;
    }
  }

  // ---------------------------------------------------------------- the bound

  /** The longest an event can stay, and the longest it is sure to. */
  function Longest(b: int, d: int): int {
    (2 * b - 1) * d - b
  }

  function Surest(b: int, d: int): int {
    (b - 1) * d
  }

  lemma LockBetween(start: int, calls: seq<Call>, now: int, b: int, d: int)
    requires b > 0 && d > 0 && Proper(start, calls, now)
    ensures Waited(calls, now - Surest(b, d)) <= WindowTotals(LazyAt(start, calls, now, d), b).lockNs
            <= Waited(calls, now - Longest(b, d))
    ensures Honest(WindowTotals(LazyAt(start, calls, now, d), b))
  {
    var w := LazyAt(start, calls, now, d);
    var v := Run(Lazy, Fresh(start), calls, d);
    RunBracketed(Lazy, Fresh(start), calls, d, start, now);
    RotatedBracketed(Lazy, v, now, d);
    RunHonest(Lazy, Fresh(start), calls, d);
    WindowHonest(w, b);
    WaitedIs(start, calls, now, now - Surest(b, d), d);
    WaitedIs(start, calls, now, now - Longest(b, d), d);
    hide Run, Due, Monotone;
    assert w.entries == v.entries;
    forall e | e in w.entries
      ensures Honest(e.delta) && e.tag <= w.rotations
      ensures Live(w, e, b) ==> now - Longest(b, d) <= e.at
      ensures now - Surest(b, d) <= e.at ==> Live(w, e, b)
    {
      EventBounds(w, e, now, b, d);
    }
    CountedAtMost(w.entries, |w.entries|, w.rotations - b + 1, w.rotations + 1, now - Longest(b, d));
    CountedAtLeast(w.entries, |w.entries|, w.rotations - b + 1, w.rotations + 1, now - Surest(b, d));
  }

  lemma EventBounds(w: Log, e: Entry, now: int, b: int, d: int)
    requires b > 0 && d > 0 && EntryBracketed(w, e, d) && e.base <= e.at && w.last <= now < w.last + d
    ensures e.tag <= w.rotations
    ensures Live(w, e, b) ==> now - Longest(b, d) <= e.at
    ensures now - Surest(b, d) <= e.at ==> Live(w, e, b)
  {
    if now - e.at > Longest(b, d) {
      TooOldIsDead(w, e, now, b, d);
    }
    if now - e.at <= Surest(b, d) {
      YoungIsLive(w, e, now, b, d);
    }
  }

  lemma RatioIs(start: int, calls: seq<Call>, now: int, b: int, d: int)
    requires b > 0 && d > 0
    ensures var lockNs := WindowTotals(LazyAt(start, calls, now, d), b).lockNs;
            0 <= lockNs ==> (RatioAt(start, calls, now, b, d) <= 1.0 <==> lockNs <= b * d)
  {
    var c := WindowTotals(LazyAt(start, calls, now, d), b);
    hide WindowTotals, LazyAt;
    if 0 <= c.lockNs {
      LockRatioIsFractionIff("", c, b, d);
      NonNegativeRatio(c, b, d);
    }
  }

  lemma NonNegativeRatio(c: Counts, b: int, d: int)
    requires b > 0 && d > 0 && 0 <= c.lockNs
    ensures 0.0 <= ProfileOf("", c, b, d, ZERO_TIME, ZERO_TIME).lockRatio
  {
    var seconds := b as real * (d as real / 1e9);
    assert seconds * 1e9 > 0.0;
    NonNegativeQuotient(c.lockNs as real, seconds * 1e9);
  }

  lemma NonNegativeQuotient(x: real, y: real)
    requires 0.0 <= x && y > 0.0
    ensures 0.0 <= x / y
  {
  }

  /** On every run of non-negative records the ratio is at most one while the waits of the longest
      an event can stay are no longer than the window, and above one as soon as those of the
      longest it is sure to stay are longer. */
  lemma RatioBounds(start: int, calls: seq<Call>, now: int, b: int, d: int)
    requires b > 0 && d > 0 && Proper(start, calls, now)
    ensures Waited(calls, now - Longest(b, d)) <= b * d ==> RatioAt(start, calls, now, b, d) <= 1.0
    ensures Waited(calls, now - Surest(b, d)) > b * d ==> RatioAt(start, calls, now, b, d) > 1.0
  {
    hide RatioAt, WindowTotals, LazyAt, Proper, Longest, Surest, Waited;
    LockBetween(start, calls, now, b, d);
    RatioIs(start, calls, now, b, d);
  }

  // ---------------------------------------------------------------- both horizons are needed

  function Wait(ns: int): Counts {
    Counts(1, 0, 0, ns, 0)
  }

  lemma {:induction false} QueriesKeep(w: Log, calls: seq<Call>, sum: int, from: int, d: int)
    requires d > 0 && forall c <- calls :: c.Query?
    ensures Run(Lazy, w, calls, d).entries == w.entries && WaitedAfter(sum, calls, from) == sum
    decreases |calls|
  {
    if calls != [] {
      assert calls[0] in calls;
      QueriesKeep(Step(Lazy, w, calls[0], d), calls[1..], sum, from, d);
    }
  }

  /** A scenario with one wait, as a run. */
  lemma OneWait(s: Scenario, ns: nat, b: int, d: int) returns (calls: seq<Call>)
    requires b > 0 && d > 0 && Admissible(s, d) && s.start == Fresh(1) && s.delta == Wait(ns)
    requires forall c <- s.between :: c.Query?
    ensures Proper(1, calls, s.end)
    ensures forall from :: Waited(calls, from) == if from <= s.t then ns else 0
    ensures WindowTotals(LazyAt(1, calls, s.end, d), b).lockNs == if Counted(Lazy, s, b, d) then ns else 0
  {
    calls := [Record(s.t, s.delta)] + s.between;
    assert calls[1..] == s.between;
    var w := AfterRecord(Lazy, s, d);
    forall from ensures Waited(calls, from) == if from <= s.t then ns else 0 {
      QueriesKeep(w, s.between, if from <= s.t then ns else 0, from, d);
    }
    QueriesKeep(w, s.between, 0, 0, d);
    var e := EventAtQuery(Lazy, s, d);
    hide Step, Run, Waited;
    OneLock(AtQuery(Lazy, s, d), e, b);
  }

  lemma OneLock(w: Log, e: Entry, b: int)
    requires w.entries == [e] && e.tag <= w.rotations
    ensures WindowTotals(w, b).lockNs == if Live(w, e, b) then e.delta.lockNs else 0
  {
    assert TallyTo([e], 0, w.rotations - b + 1, w.rotations + 1) == Zero();
  }

  /** Looking back less far than the longest an event can stay does not bound the ratio. */
  lemma BoundingHorizonIff(b: int, d: int, h: int)
    requires b > 0 && d > 0
    ensures (forall start, calls: seq<Call>, now | Proper(start, calls, now) ::
               Waited(calls, now - h) <= b * d ==> RatioAt(start, calls, now, b, d) <= 1.0)
            <==> Longest(b, d) <= h
  {
    hide RatioAt, WindowTotals, LazyAt, Monotone, HonestCalls, Waited;
    if Longest(b, d) <= h {
      forall start, calls: seq<Call>, now | Proper(start, calls, now) && Waited(calls, now - h) <= b * d
        ensures RatioAt(start, calls, now, b, d) <= 1.0
      {
        LessFromLater(calls, now - h, now - Longest(b, d));
        RatioBounds(start, calls, now, b, d);
      }
    } else {
      LongestPositive(b, d);
      var s := DawdlingKeepsEvent(b, d, if h < 0 then 0 else h + 1, Wait(b * d + 1));
      hide Longest, Surest, Counted, Admissible, Proper;
      var calls := OneWait(s, b * d + 1, b, d);
      RatioIs(1, calls, s.end, b, d);
    }
  }

  lemma LongestPositive(b: int, d: int)
    requires b > 0 && d > 0
    ensures 0 <= Longest(b, d) && 0 <= Surest(b, d) && 0 < b * d
  {
    Scale(2 * b - 1, 1, d);
    Scale(b - 1, 0, d);
    Scale(b, 1, d);
  }

  lemma {:induction false} LessFromLaterAfter(sum: int, less: int, calls: seq<Call>, from: int, later: int)
    requires from <= later && less <= sum && HonestCalls(calls)
    ensures WaitedAfter(less, calls, later) <= WaitedAfter(sum, calls, from)
    decreases |calls|
  {
    if calls != [] {
      var c, rest := calls[0], calls[1..];
      assert c in calls;
      match c
      case Record(now, delta) =>
        LessFromLaterAfter(if from <= now then sum + delta.lockNs else sum,
                           if later <= now then less + delta.lockNs else less, rest, from, later);
      case Query(_) => LessFromLaterAfter(sum, less, rest, from, later);
      case Reset(_) => LessFromLaterAfter(0, 0, rest, from, later);
    }
  }

  lemma LessFromLater(calls: seq<Call>, from: int, later: int)
    requires from <= later && HonestCalls(calls)
    ensures Waited(calls, later) <= Waited(calls, from)
  {
    LessFromLaterAfter(0, 0, calls, from, later);
  }

  /** Looking back further than an event is sure to stay does not show that the ratio is above one. */
  lemma ExceedingHorizonIff(b: int, d: int, h: int)
    requires b > 0 && d > 0
    ensures (forall start, calls: seq<Call>, now | Proper(start, calls, now) ::
               Waited(calls, now - h) > b * d ==> RatioAt(start, calls, now, b, d) > 1.0)
            <==> h <= Surest(b, d)
  {
    hide RatioAt, WindowTotals, LazyAt, Monotone, HonestCalls, Waited;
    if h <= Surest(b, d) {
      forall start, calls: seq<Call>, now | Proper(start, calls, now) && Waited(calls, now - h) > b * d
        ensures RatioAt(start, calls, now, b, d) > 1.0
      {
        LessFromLater(calls, now - Surest(b, d), now - h);
        RatioBounds(start, calls, now, b, d);
      }
    } else {
      LongestPositive(b, d);
      var s := LateRecordIsLost(b, d, h, Wait(b * d + 1));
      hide Longest, Surest, Counted, Admissible, Proper;
      var calls := OneWait(s, b * d + 1, b, d);
      RatioIs(1, calls, s.end, b, d);
    }
  }

  /** A default profile that records one wait of two minutes reports a ratio of two. */
  lemma OneLongWait(t: Instant)
    ensures RatioAt(t, [Record(t, Wait(120_000_000_000))], t, DEFAULT_BUCKET_COUNT, DEFAULT_BUCKET_DURATION) == 2.0
  {
    var calls, e := [Record(t, Wait(120_000_000_000))], Entry(t, t, 0, Wait(120_000_000_000));
    assert calls[1..] == [];
    assert Step(Lazy, Fresh(t), calls[0], DEFAULT_BUCKET_DURATION) == Log([e], 0, t);
    assert Run(Lazy, Log([e], 0, t), [], DEFAULT_BUCKET_DURATION) == Log([e], 0, t);
    OneEventTotals(e, 0, t, DEFAULT_BUCKET_COUNT);
    LockRatioCanExceedOne();
  }
}
