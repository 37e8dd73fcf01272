/** From telemetry to replicas: what must have been recorded before a tick of
    cmd/aggregator/autoscaler.go for the count to climb, to stay, or to fall. */
module Heat {
  import opened Arithmetic
  import opened History
  import opened SlidingWindow
  import opened ProfileStore
  import opened Autoscaling

  /** The three signals a tick looks at. */
  datatype Signal = Switches | Faults | Misses

  function Amount(x: Signal, c: Counts): int {
    match x
    case Switches => c.switches
    case Faults => c.faults
    case Misses => c.misses
  }

  /** The rate above which a workload is hot, per second. */
  function Limit(x: Signal): int {
    match x
    case Switches => 100
    case Faults => 5000
    case Misses => 1000
  }

  /** More than the threshold allows in a window of `b` buckets of `d` nanoseconds. */
  predicate Exceeds(x: Signal, amount: int, b: int, d: int) {
    amount * 1_000_000_000 > Limit(x) * (b * d)
  }

  /** The rate below which a workload is nominal, per second. */
  function NominalLimit(x: Signal): int {
    match x
    case Switches => 50
    case Faults => 2000
    case Misses => 500
  }

  /** Less than a nominal rate makes of a window. */
  predicate Modest(x: Signal, amount: int, b: int, d: int) {
    amount * 1_000_000_000 < NominalLimit(x) * (b * d)
  }

  lemma RateCompares(amount: int, limit: int, b: int, d: int)
    requires b > 0 && d > 0
    ensures var rate := amount as real / (b as real * (d as real / 1e9));
            && (rate > limit as real <==> amount * 1_000_000_000 > limit * (b * d))
            && (rate < limit as real <==> amount * 1_000_000_000 < limit * (b * d))
  {
    Scale(b, 1, d);
    var seconds := b as real * (d as real / 1e9);
    assert seconds * 1e9 == (b * d) as real && seconds > 0.0;
    var rate, most := amount as real / seconds, limit as real;
    assert rate * seconds == amount as real;
    Products(rate, most, seconds);
    Products(most, rate, seconds);
    assert (limit * (b * d)) as real == most * (seconds * 1e9) == (most * seconds) * 1e9;
    assert (amount * 1_000_000_000) as real == amount as real * 1e9;
  }

  lemma Products(x: real, y: real, z: real)
    requires z > 0.0
    ensures x < y <==> x * z < y * z
  {
    if x < y {
      assert (y - x) * z > 0.0;
    } else {
      assert (x - y) * z >= 0.0;
    }
  }

  lemma ViewRates(c: Counts, b: int, d: int)
    requires b > 0 && d > 0
    ensures var p, seconds := View(c, b, d), b as real * (d as real / 1e9);
            && p.ctxSwitchRate == c.switches as real / seconds
            && p.pageFaultRate == c.faults as real / seconds
            && p.cacheMissRate == c.misses as real / seconds
  {
  }

  predicate Over(x: Signal, c: Counts, b: int, d: int) {
    Exceeds(x, Amount(x, c), b, d)
  }

  predicate Under(x: Signal, c: Counts, b: int, d: int) {
    Modest(x, Amount(x, c), b, d)
  }

  /** The thresholds in terms of what a window holds. */
  lemma VerdictInCounts(c: Counts, b: int, d: int)
    requires b > 0 && d > 0
    ensures Hot(View(c, b, d)) <==> exists x :: Over(x, c, b, d)
    ensures Nominal(View(c, b, d)) <==> forall x :: Under(x, c, b, d)
  {
    ViewRates(c, b, d);
    RateCompares(c.switches, 100, b, d);
    RateCompares(c.faults, 5000, b, d);
    RateCompares(c.misses, 1000, b, d);
    RateCompares(c.switches, 50, b, d);
    RateCompares(c.faults, 2000, b, d);
    RateCompares(c.misses, 500, b, d);
    EachSignal(c, b, d);
    hide View, Over, Under;
  }

  lemma EachSignal(c: Counts, b: int, d: int)
    ensures Over(Switches, c, b, d) <==> c.switches * 1_000_000_000 > 100 * (b * d)
    ensures Over(Faults, c, b, d) <==> c.faults * 1_000_000_000 > 5000 * (b * d)
    ensures Over(Misses, c, b, d) <==> c.misses * 1_000_000_000 > 1000 * (b * d)
    ensures Under(Switches, c, b, d) <==> c.switches * 1_000_000_000 < 50 * (b * d)
    ensures Under(Faults, c, b, d) <==> c.faults * 1_000_000_000 < 2000 * (b * d)
    ensures Under(Misses, c, b, d) <==> c.misses * 1_000_000_000 < 500 * (b * d)
  {
  }

  // ---------------------------------------------------------------- what was recorded

  /** What was recorded of a workload at `from` or later and not reset since; `sum` is what came before. */
  function RecordedAfter(x: Signal, sum: int, acts: seq<Act>, k: string, from: int): int
    decreases |acts|
  {
    if acts == [] then sum
    else
      var next := match acts[0]
        case Feed(l, _, now, delta) => if l == k && from <= now then sum + Amount(x, delta) else sum
        case Clear(l, _, _) => if l == k then 0 else sum
        case _ => sum;
      RecordedAfter(x, next, acts[1..], k, from)
  }

  function Recorded(x: Signal, acts: seq<Act>, k: string, from: int): int {
    RecordedAfter(x, 0, acts, k, from)
  }

  predicate HonestActs(acts: seq<Act>) {
    forall a <- acts :: a.Feed? ==> Honest(a.delta)
  }

  /** The same, of the first `n` events of a history. */
  function AmountTo(x: Signal, es: seq<Entry>, n: int, from: int): int
    requires 0 <= n <= |es|
  {
    if n == 0 then 0 else AmountTo(x, es, n - 1, from) + (if from <= es[n - 1].at then Amount(x, es[n - 1].delta) else 0)
  }

  function AmountOf(x: Signal, logs: Logs, k: string, from: int): int {
    if k in logs then AmountTo(x, logs[k].entries, |logs[k].entries|, from) else 0
  }

  lemma {:induction false} AmountToPrefix(x: Signal, es: seq<Entry>, more: seq<Entry>, n: int, from: int)
    requires 0 <= n <= |es|
    ensures AmountTo(x, es + more, n, from) == AmountTo(x, es, n, from)
  {
    if n > 0 {
      AmountToPrefix(x, es, more, n - 1, from);
    }
  }

  lemma RecordedAmount(x: Signal, w: Log, now: int, delta: Counts, from: int, d: int)
    requires d > 0
    ensures var es := Step(Lazy, w, Record(now, delta), d).entries;
            AmountTo(x, es, |es|, from)
            == AmountTo(x, w.entries, |w.entries|, from) + (if from <= now then Amount(x, delta) else 0)
  {
    hide Due;
    var v := Rotated(Lazy, w, now, d);
    AmountToPrefix(x, w.entries, [Entry(now, v.last, v.rotations, delta)], |w.entries|, from);
  }

  /** Queries leave every workload's events alone. */
  ghost predicate SameHistories(v: Logs, w: Logs) {
    v.Keys == w.Keys && forall k <- v :: v[k].entries == w[k].entries
  }

  lemma {:induction false} AfterKeepsHistories(logs: Logs, keys: seq<string>, nows: seq<int>, m: int, d: int)
    requires d > 0 && 0 <= m <= |keys| == |nows|
    ensures SameHistories(logs, After(logs, keys, nows, m, d))
  {
    if m > 0 {
      AfterKeepsHistories(logs, keys, nows, m - 1, d);
      hide Due;
    }
  }

  lemma ActAmount(x: Signal, s: Sys, a: Act, k: string, from: int, b: int, d: int)
    requires b > 0 && d > 0 && WellFormed(a)
    ensures AmountOf(x, Acted(s, a, b, d).logs, k, from)
            == match a
               case Feed(l, _, now, delta) =>
                 AmountOf(x, s.logs, k, from) + (if l == k && from <= now then Amount(x, delta) else 0)
               case Clear(l, _, _) => if l == k then 0 else AmountOf(x, s.logs, k, from)
               case _ => AmountOf(x, s.logs, k, from)
  {
    hide Decision, Asked, Due, After;
    match a
    case Tick(keys, nows) =>
      AfterKeepsHistories(s.logs, keys, nows, Asked(s.logs, keys, nows, 0, b, d), d);
    case Look(l, now) =>
    case Clear(l, made, now) =>
    case Feed(l, made, now, delta) =>
      if l == k {
        RecordedAmount(x, Created(s.logs, k, made)[k], now, delta, from, d);
      }
  }

  lemma {:induction false} RunAmount(x: Signal, s: Sys, acts: seq<Act>, k: string, from: int, b: int, d: int)
    requires b > 0 && d > 0 && forall a <- acts :: WellFormed(a)
    ensures AmountOf(x, Replayed(s, acts, b, d).logs, k, from)
            == RecordedAfter(x, AmountOf(x, s.logs, k, from), acts, k, from)
    decreases |acts|
  {
    if acts != [] {
      hide Acted, AmountOf;
      ActAmount(x, s, acts[0], k, from, b, d);
      RunAmount(x, Acted(s, acts[0], b, d), acts[1..], k, from, b, d);
    }
  }

  /** Records of non-negative amounts leave honest histories. */
  ghost predicate HonestStore(logs: Logs) {
    forall k <- logs :: HonestLog(logs[k])
  }

  lemma ActHonest(s: Sys, a: Act, b: int, d: int)
    requires b > 0 && d > 0 && WellFormed(a) && HonestStore(s.logs) && (a.Feed? ==> Honest(a.delta))
    ensures HonestStore(Acted(s, a, b, d).logs)
  {
    hide Decision, Asked, Due, After, Honest;
    match a
    case Tick(keys, nows) =>
      AfterKeepsHistories(s.logs, keys, nows, Asked(s.logs, keys, nows, 0, b, d), d);
    case _ =>
  }

  lemma {:induction false} RunHonestStore(s: Sys, acts: seq<Act>, b: int, d: int)
    requires b > 0 && d > 0 && (forall a <- acts :: WellFormed(a)) && HonestStore(s.logs) && HonestActs(acts)
    ensures HonestStore(Replayed(s, acts, b, d).logs)
    decreases |acts|
  {
    if acts != [] {
      hide Acted, HonestStore, Honest;
      assert acts[0] in acts;
      ActHonest(s, acts[0], b, d);
      RunHonestStore(Acted(s, acts[0], b, d), acts[1..], b, d);
    }
  }

  // ---------------------------------------------------------------- one query

  /** What was recorded at `from` or later is counted. */
  lemma {:induction false} CountedAtLeast(x: Signal, es: seq<Entry>, n: int, lo: int, hi: int, from: int)
    requires 0 <= n <= |es| && (forall e <- es :: Honest(e.delta) && (from <= e.at ==> lo <= e.tag < hi))
    ensures AmountTo(x, es, n, from) <= Amount(x, TallyTo(es, n, lo, hi))
  {
    if n > 0 {
      CountedAtLeast(x, es, n - 1, lo, hi, from);
      assert es[n - 1] in es;
    }
  }

  /** What is counted was recorded at `from` or later. */
  lemma {:induction false} CountedAtMost(x: Signal, es: seq<Entry>, n: int, lo: int, hi: int, from: int)
    requires 0 <= n <= |es| && (forall e <- es :: Honest(e.delta) && (lo <= e.tag < hi ==> from <= e.at))
    ensures Amount(x, TallyTo(es, n, lo, hi)) <= AmountTo(x, es, n, from)
  {
    if n > 0 {
      CountedAtMost(x, es, n - 1, lo, hi, from);
      assert es[n - 1] in es;
    }
  }

  /** The age up to which an event is sure to be counted, and the age beyond which it cannot be. */
  function Sure(b: int, d: int): int {
    (b - 1) * d
  }

  function Longest(b: int, d: int): int {
    (2 * b - 1) * d - b
  }

  lemma QueryAmount(x: Signal, w: Log, t: int, now: int, b: int, d: int)
    requires b > 0 && d > 0 && CurrentLog(w, t, d) && t <= now && HonestLog(w)
    ensures AmountTo(x, w.entries, |w.entries|, now - Sure(b, d)) <= Amount(x, WindowTotals(Rotated(Lazy, w, now, d), b))
            <= AmountTo(x, w.entries, |w.entries|, now - Longest(b, d))
  {
    RotatedBracketed(Lazy, w, now, d);
    var v := Rotated(Lazy, w, now, d);
    assert v.entries == w.entries;
    hide Rotated;
    forall e | e in v.entries
      ensures Honest(e.delta)
      ensures now - Sure(b, d) <= e.at ==> v.rotations - b + 1 <= e.tag < v.rotations + 1
      ensures v.rotations - b + 1 <= e.tag < v.rotations + 1 ==> now - Longest(b, d) <= e.at
    {
      assert EntryBracketed(v, e, d);
      if now - Sure(b, d) <= e.at {
        YoungIsLive(v, e, now, b, d);
      }
      if now - e.at > Longest(b, d) {
        TooOldIsDead(v, e, now, b, d);
      }
    }
    CountedAtLeast(x, v.entries, |v.entries|, v.rotations - b + 1, v.rotations + 1, now - Sure(b, d));
    CountedAtMost(x, v.entries, |v.entries|, v.rotations - b + 1, v.rotations + 1, now - Longest(b, d));
  }

  /** What the query for key `i` finds lies between what was recorded within the two ages. */
  lemma SeenBetween(s: Sys, keys: seq<string>, nows: seq<int>, x: Signal, i: int, t: int, b: int, d: int)
    requires b > 0 && d > 0 && 0 <= i < |keys| == |nows| && Rising(nows, t)
    requires Current(s.logs, t, d) && HonestStore(s.logs)
    ensures var c := TotalsOf(After(s.logs, keys, nows, i + 1, d), keys[i], b);
            AmountOf(x, s.logs, keys[i], nows[i] - Sure(b, d)) <= Amount(x, c)
            <= AmountOf(x, s.logs, keys[i], nows[i] - Longest(b, d))
  {
    var k, now, w := keys[i], nows[i], After(s.logs, keys, nows, i, d);
    AfterCurrent(s.logs, keys, nows, i, t, d);
    AfterKeepsHistories(s.logs, keys, nows, i, d);
    var earlier := if i == 0 then t else nows[i - 1];
    KeptHistory(x, s.logs, w, k, now - Sure(b, d));
    KeptHistory(x, s.logs, w, k, now - Longest(b, d));
    FoundTotals(x, w, k, now, b, d);
    AfterNext(s.logs, keys, nows, i, d);
    hide Current, CurrentLog, WindowTotals, Rotated, Queried, TotalsOf, Sure, Longest, HonestStore, SameHistories, AmountOf, AmountTo, After, Rising, HonestLog;
    if k in w {
      FoundCurrent(w, k, earlier, d);
      QueryAmount(x, w[k], earlier, now, b, d);
    }
  }

  lemma KeptHistory(x: Signal, logs: Logs, w: Logs, k: string, from: int)
    requires SameHistories(logs, w) && HonestStore(logs)
    ensures k in w ==> HonestLog(w[k]) && AmountOf(x, logs, k, from) == AmountTo(x, w[k].entries, |w[k].entries|, from)
    ensures k !in w ==> AmountOf(x, logs, k, from) == 0
  {
  }

  lemma FoundTotals(x: Signal, w: Logs, k: string, now: int, b: int, d: int)
    requires d > 0
    ensures TotalsOf(Queried(w, k, now, d), k, b) == if k in w then WindowTotals(Rotated(Lazy, w[k], now, d), b) else Zero()
    ensures Amount(x, Zero()) == 0
  {
  }

  // ---------------------------------------------------------------- one tick

  /** Enough of a signal recorded in the last (b-1)d before the query of key `i`. */
  predicate Heated(before: seq<Act>, a: Act, x: Signal, i: int, b: int, d: int) {
    && a.Tick? && 0 <= i < |a.keys| == |a.nows|
    && Exceeds(x, Recorded(x, before, a.keys[i], a.nows[i] - Sure(b, d)), b, d)
  }

  /** As much of a signal in that time as makes key `i` more than nominal. */
  predicate Warm(before: seq<Act>, a: Act, x: Signal, i: int, b: int, d: int) {
    && a.Tick? && 0 <= i < |a.keys| == |a.nows|
    && !Modest(x, Recorded(x, before, a.keys[i], a.nows[i] - Sure(b, d)), b, d)
  }

  /** No more of any signal of any key, in the last (2b-1)d-b before its query, than would make it hot. */
  ghost predicate Bounded(before: seq<Act>, a: Act, b: int, d: int) {
    && a.Tick? && |a.keys| == |a.nows|
    && forall x, i :: 0 <= i < |a.keys| ==> !MayHeat(before, a, x, i, b, d)
  }

  predicate MayHeat(before: seq<Act>, a: Act, x: Signal, i: int, b: int, d: int)
    requires a.Tick? && 0 <= i < |a.keys| == |a.nows|
  {
    Exceeds(x, Recorded(x, before, a.keys[i], a.nows[i] - Longest(b, d)), b, d)
  }

  /** So little in that time that every key is nominal. */
  ghost predicate Cool(before: seq<Act>, a: Act, b: int, d: int) {
    && a.Tick? && |a.keys| == |a.nows|
    && forall x, i :: 0 <= i < |a.keys| ==> StaysModest(before, a, x, i, b, d)
  }

  predicate StaysModest(before: seq<Act>, a: Act, x: Signal, i: int, b: int, d: int)
    requires a.Tick? && 0 <= i < |a.keys| == |a.nows|
  {
    Modest(x, Recorded(x, before, a.keys[i], a.nows[i] - Longest(b, d)), b, d)
  }

  /** The same of the histories, for key `i`. */
  predicate OverAt(s: Sys, keys: seq<string>, nows: seq<int>, x: Signal, i: int, b: int, d: int)
    requires 0 <= i < |keys| == |nows|
  {
    Exceeds(x, AmountOf(x, s.logs, keys[i], nows[i] - Longest(b, d)), b, d)
  }

  predicate UnderAt(s: Sys, keys: seq<string>, nows: seq<int>, x: Signal, i: int, b: int, d: int)
    requires 0 <= i < |keys| == |nows|
  {
    Modest(x, AmountOf(x, s.logs, keys[i], nows[i] - Longest(b, d)), b, d)
  }

  lemma Ordered(x: Signal, amount: int, more: int, b: int, d: int)
    requires amount <= more
    ensures Exceeds(x, amount, b, d) ==> Exceeds(x, more, b, d)
    ensures Modest(x, more, b, d) ==> Modest(x, amount, b, d)
  {
  }

  lemma ModestIsNotExceeding(x: Signal, amount: int, b: int, d: int)
    requires b > 0 && d > 0 && Modest(x, amount, b, d)
    ensures !Exceeds(x, amount, b, d)
  {
    Scale(b, 1, d);
  }

  /** What the histories say of a key decides what its query shows. */
  lemma SeenVerdict(s: Sys, keys: seq<string>, nows: seq<int>, x: Signal, i: int, t: int, b: int, d: int)
    requires b > 0 && d > 0 && 0 <= i < |keys| == |nows| && Rising(nows, t)
    requires Current(s.logs, t, d) && HonestStore(s.logs)
    ensures var c := TotalsOf(After(s.logs, keys, nows, i + 1, d), keys[i], b);
            && (Exceeds(x, AmountOf(x, s.logs, keys[i], nows[i] - Sure(b, d)), b, d) ==> Over(x, c, b, d))
            && (!Modest(x, AmountOf(x, s.logs, keys[i], nows[i] - Sure(b, d)), b, d) ==> !Under(x, c, b, d))
            && (!OverAt(s, keys, nows, x, i, b, d) ==> !Over(x, c, b, d))
            && (UnderAt(s, keys, nows, x, i, b, d) ==> Under(x, c, b, d))
  {
    SeenBetween(s, keys, nows, x, i, t, b, d);
    var c := TotalsOf(After(s.logs, keys, nows, i + 1, d), keys[i], b);
    hide AmountOf, TotalsOf, After, Current, HonestStore, Exceeds, Modest;
    Ordered(x, AmountOf(x, s.logs, keys[i], nows[i] - Sure(b, d)), Amount(x, c), b, d);
    Ordered(x, Amount(x, c), AmountOf(x, s.logs, keys[i], nows[i] - Longest(b, d)), b, d);
  }

  lemma HotTick(s: Sys, keys: seq<string>, nows: seq<int>, x: Signal, i: int, t: int, b: int, d: int)
    requires b > 0 && d > 0 && 0 <= i < |keys| == |nows| && Rising(nows, t)
    requires Current(s.logs, t, d) && HonestStore(s.logs)
    requires Exceeds(x, AmountOf(x, s.logs, keys[i], nows[i] - Sure(b, d)), b, d)
    ensures AnyHot(s.logs, keys, nows, b, d)
  {
    SeenVerdict(s, keys, nows, x, i, t, b, d);
    var c := TotalsOf(After(s.logs, keys, nows, i + 1, d), keys[i], b);
    VerdictInCounts(c, b, d);
    hide View, Hot, AmountOf, TotalsOf, After, Exceeds, Over, Current, HonestStore;
    assert Hot(Seen(s.logs, keys, nows, i, b, d));
  }

  lemma NotNominalTick(s: Sys, keys: seq<string>, nows: seq<int>, x: Signal, i: int, t: int, b: int, d: int)
    requires b > 0 && d > 0 && 0 <= i < |keys| == |nows| && Rising(nows, t)
    requires Current(s.logs, t, d) && HonestStore(s.logs)
    requires !Modest(x, AmountOf(x, s.logs, keys[i], nows[i] - Sure(b, d)), b, d)
    ensures !AllSeenNominal(s.logs, keys, nows, b, d)
  {
    SeenVerdict(s, keys, nows, x, i, t, b, d);
    var c := TotalsOf(After(s.logs, keys, nows, i + 1, d), keys[i], b);
    VerdictInCounts(c, b, d);
    hide View, Nominal, AmountOf, TotalsOf, After, Modest, Under, Current, HonestStore;
    assert !Nominal(Seen(s.logs, keys, nows, i, b, d));
  }

  lemma NotHotTick(s: Sys, keys: seq<string>, nows: seq<int>, t: int, b: int, d: int)
    requires b > 0 && d > 0 && |keys| == |nows| && Rising(nows, t)
    requires Current(s.logs, t, d) && HonestStore(s.logs)
    requires forall x, i :: 0 <= i < |keys| ==> !OverAt(s, keys, nows, x, i, b, d)
    ensures !AnyHot(s.logs, keys, nows, b, d)
  {
    hide View, Hot, AmountOf, TotalsOf, After, Exceeds, Over, OverAt, Current, HonestStore;
    forall i | 0 <= i < |keys| ensures !Hot(Seen(s.logs, keys, nows, i, b, d)) {
      var c := TotalsOf(After(s.logs, keys, nows, i + 1, d), keys[i], b);
      forall x ensures !Over(x, c, b, d) {
        SeenVerdict(s, keys, nows, x, i, t, b, d);
      }
      VerdictInCounts(c, b, d);
    }
  }

  lemma NominalTick(s: Sys, keys: seq<string>, nows: seq<int>, t: int, b: int, d: int)
    requires b > 0 && d > 0 && |keys| == |nows| && Rising(nows, t)
    requires Current(s.logs, t, d) && HonestStore(s.logs)
    requires forall x, i :: 0 <= i < |keys| ==> UnderAt(s, keys, nows, x, i, b, d)
    ensures AllSeenNominal(s.logs, keys, nows, b, d)
  {
    hide View, Nominal, AmountOf, TotalsOf, After, Modest, Under, UnderAt, Current, HonestStore;
    forall i | 0 <= i < |keys| ensures Nominal(Seen(s.logs, keys, nows, i, b, d)) {
      var c := TotalsOf(After(s.logs, keys, nows, i + 1, d), keys[i], b);
      forall x ensures Under(x, c, b, d) {
        SeenVerdict(s, keys, nows, x, i, t, b, d);
      }
      VerdictInCounts(c, b, d);
    }
  }

  // ---------------------------------------------------------------- persistent heat

  /** Every tick of `acts`, which follow `before`, is heated by something recorded until then. */
  ghost predicate KeptHot(before: seq<Act>, acts: seq<Act>, b: int, d: int)
    decreases |acts|
  {
    acts != [] ==>
      && (acts[0].Tick? ==> exists x, i :: Heated(before, acts[0], x, i, b, d))
      && KeptHot(before + [acts[0]], acts[1..], b, d)
  }

  lemma {:induction false} ReplayedSnoc(s: Sys, acts: seq<Act>, a: Act, b: int, d: int)
    requires b > 0 && d > 0 && (forall c <- acts :: WellFormed(c)) && WellFormed(a)
    ensures forall c <- acts + [a] :: WellFormed(c)
    ensures Replayed(s, acts + [a], b, d) == Acted(Replayed(s, acts, b, d), a, b, d)
    decreases |acts|
  {
    hide Acted;
    if acts == [] {
      assert (acts + [a])[1..] == [];
      assert Replayed(Acted(s, a, b, d), [], b, d) == Acted(s, a, b, d);
    } else {
      ReplayedSnoc(Acted(s, acts[0], b, d), acts[1..], a, b, d);
      assert (acts + [a])[1..] == acts[1..] + [a];
    }
  }

  /** What a run that led to `before` makes of a tick that follows it. */
  lemma RecordedIsAmount(n: int, before: seq<Act>, x: Signal, k: string, from: int, b: int, d: int)
    requires b > 0 && d > 0 && forall c <- before :: WellFormed(c)
    ensures AmountOf(x, Replayed(Sys(map[], n), before, b, d).logs, k, from) == Recorded(x, before, k, from)
  {
    RunAmount(x, Sys(map[], n), before, k, from, b, d);
  }

  lemma HeatedTick(n: int, before: seq<Act>, a: Act, x: Signal, i: int, t: int, b: int, d: int)
    requires b > 0 && d > 0 && (forall c <- before :: WellFormed(c)) && HonestActs(before)
    requires Heated(before, a, x, i, b, d) && Rising(Times(a), t)
    requires Current(Replayed(Sys(map[], n), before, b, d).logs, t, d)
    ensures AnyHot(Replayed(Sys(map[], n), before, b, d).logs, a.keys, a.nows, b, d)
  {
    hide Acted, Current, Exceeds, Rising, AnyHot, Honest, Replayed, RecordedAfter;
    RunHonestStore(Sys(map[], n), before, b, d);
    RecordedIsAmount(n, before, x, a.keys[i], a.nows[i] - Sure(b, d), b, d);
    HotTick(Replayed(Sys(map[], n), before, b, d), a.keys, a.nows, x, i, t, b, d);
  }

  lemma {:induction false} KeptHotIsHot(n: int, before: seq<Act>, acts: seq<Act>, t: int, hi: int, b: int, d: int)
    requires b > 0 && d > 0 && (forall a <- before :: WellFormed(a)) && (forall a <- acts :: WellFormed(a))
    requires HonestActs(before) && HonestActs(acts) && InOrder(acts, t, hi) && KeptHot(before, acts, b, d)
    requires Current(Replayed(Sys(map[], n), before, b, d).logs, t, d)
    ensures AlwaysHot(Replayed(Sys(map[], n), before, b, d), acts, b, d)
    decreases |acts|
  {
    if acts != [] {
      var s, a := Replayed(Sys(map[], n), before, b, d), acts[0];
      assert a in acts;
      ReplayedSnoc(Sys(map[], n), before, a, b, d);
      ActCurrent(s, a, t, b, d);
      hide Acted, Current, Heated, Rising, AnyHot, Honest, HonestStore, Replayed, LastTime, Times;
      if a.Tick? {
        var x, i :| Heated(before, a, x, i, b, d);
        HeatedTick(n, before, a, x, i, t, b, d);
      }
      KeptHotIsHot(n, before + [a], acts[1..], LastTime(Times(a), t), hi, b, d);
    }
  }

  /** From an empty store and after any run forward in time: while before each tick some workload has
      recorded more of a signal in the last (b-1)d than the threshold allows in a window, k > 0 ticks
      lead to min(6, n + k). */
  lemma TelemetryHeats(n: int, before: seq<Act>, acts: seq<Act>, lo: int, t: int, hi: int, b: int, d: int)
    requires b > 0 && d > 0 && (forall a <- before :: WellFormed(a)) && (forall a <- acts :: WellFormed(a))
    requires HonestActs(before) && HonestActs(acts)
    requires InOrder(before, lo, t) && InOrder(acts, t, hi) && KeptHot(before, acts, b, d) && Ticks(acts) > 0
    ensures var s := Replayed(Sys(map[], n), before, b, d);
            Replayed(s, acts, b, d).replicas
            == if s.replicas + Ticks(acts) < MAX_REPLICAS then s.replicas + Ticks(acts) else MAX_REPLICAS
  {
    RunCurrent(Sys(map[], n), before, lo, t, b, d);
    KeptHotIsHot(n, before, acts, t, hi, b, d);
    HeatReachesMaximum(Replayed(Sys(map[], n), before, b, d), acts, b, d);
  }

  // ---------------------------------------------------------------- neither hot nor nominal

  /** Before every tick of `acts` some key is more than nominal and none may be hot. */
  ghost predicate KeptSteady(before: seq<Act>, acts: seq<Act>, b: int, d: int)
    decreases |acts|
  {
    acts != [] ==>
      && (acts[0].Tick? ==> Bounded(before, acts[0], b, d) && exists x, i :: Warm(before, acts[0], x, i, b, d))
      && KeptSteady(before + [acts[0]], acts[1..], b, d)
  }

  lemma SteadyTick(n: int, before: seq<Act>, a: Act, x: Signal, i: int, t: int, b: int, d: int)
    requires b > 0 && d > 0 && (forall c <- before :: WellFormed(c)) && HonestActs(before)
    requires Bounded(before, a, b, d) && Warm(before, a, x, i, b, d) && Rising(Times(a), t)
    requires Current(Replayed(Sys(map[], n), before, b, d).logs, t, d)
    ensures var s := Replayed(Sys(map[], n), before, b, d); Acted(s, a, b, d).replicas == s.replicas
  {
    hide Current, Exceeds, Modest, Rising, AnyHot, AllSeenNominal, Honest, Replayed, RecordedAfter, AmountOf;
    var s := Replayed(Sys(map[], n), before, b, d);
    RunHonestStore(Sys(map[], n), before, b, d);
    RecordedIsAmount(n, before, x, a.keys[i], a.nows[i] - Sure(b, d), b, d);
    forall y, j | 0 <= j < |a.keys| ensures !OverAt(s, a.keys, a.nows, y, j, b, d) {
      assert !MayHeat(before, a, y, j, b, d);
      RecordedIsAmount(n, before, y, a.keys[j], a.nows[j] - Longest(b, d), b, d);
    }
    NotHotTick(s, a.keys, a.nows, t, b, d);
    NotNominalTick(s, a.keys, a.nows, x, i, t, b, d);
  }

  lemma {:induction false} KeptSteadyStays(n: int, before: seq<Act>, acts: seq<Act>, t: int, hi: int, b: int, d: int)
    requires b > 0 && d > 0 && (forall a <- before :: WellFormed(a)) && (forall a <- acts :: WellFormed(a))
    requires HonestActs(before) && HonestActs(acts) && InOrder(acts, t, hi) && KeptSteady(before, acts, b, d)
    requires Current(Replayed(Sys(map[], n), before, b, d).logs, t, d)
    ensures var s := Replayed(Sys(map[], n), before, b, d); Replayed(s, acts, b, d).replicas == s.replicas
    decreases |acts|
  {
    if acts != [] {
      var s, a := Replayed(Sys(map[], n), before, b, d), acts[0];
      assert a in acts;
      ReplayedSnoc(Sys(map[], n), before, a, b, d);
      ActCurrent(s, a, t, b, d);
      if a.Tick? {
        var x, i :| Warm(before, a, x, i, b, d);
        SteadyTick(n, before, a, x, i, t, b, d);
      }
      assert Acted(s, a, b, d).replicas == s.replicas;
      hide Acted, Current, Warm, Bounded, Rising, Honest, LastTime, Times;
      KeptSteadyStays(n, before + [a], acts[1..], LastTime(Times(a), t), hi, b, d);
    }
  }

  /** From an empty store and after any run forward in time: while before each tick some workload has
      recorded at least a nominal limit's worth of the window in the last (b-1)d, and none more than a
      hot limit's worth in the last (2b-1)d-b, the count stays. */
  lemma TelemetrySteadies(n: int, before: seq<Act>, acts: seq<Act>, lo: int, t: int, hi: int, b: int, d: int)
    requires b > 0 && d > 0 && (forall a <- before :: WellFormed(a)) && (forall a <- acts :: WellFormed(a))
    requires HonestActs(before) && HonestActs(acts)
    requires InOrder(before, lo, t) && InOrder(acts, t, hi) && KeptSteady(before, acts, b, d)
    ensures var s := Replayed(Sys(map[], n), before, b, d); Replayed(s, acts, b, d).replicas == s.replicas
  {
    RunCurrent(Sys(map[], n), before, lo, t, b, d);
    KeptSteadyStays(n, before, acts, t, hi, b, d);
  }

  // ---------------------------------------------------------------- all nominal

  /** Before every tick of `acts`, which has a key to look at, all is nominal. */
  ghost predicate KeptCool(before: seq<Act>, acts: seq<Act>, b: int, d: int)
    decreases |acts|
  {
    acts != [] ==>
      && (acts[0].Tick? ==> acts[0].keys != [] && Cool(before, acts[0], b, d))
      && KeptCool(before + [acts[0]], acts[1..], b, d)
  }

  lemma CoolTick(n: int, before: seq<Act>, a: Act, t: int, b: int, d: int)
    requires b > 0 && d > 0 && (forall c <- before :: WellFormed(c)) && HonestActs(before)
    requires Cool(before, a, b, d) && a.keys != [] && Rising(Times(a), t)
    requires Current(Replayed(Sys(map[], n), before, b, d).logs, t, d)
    ensures var s := Replayed(Sys(map[], n), before, b, d);
            Acted(s, a, b, d).replicas == if s.replicas > 1 then s.replicas - 1 else s.replicas
  {
    hide Current, Exceeds, Modest, Rising, AnyHot, AllSeenNominal, Honest, Replayed, RecordedAfter, AmountOf;
    var s := Replayed(Sys(map[], n), before, b, d);
    RunHonestStore(Sys(map[], n), before, b, d);
    forall y, j | 0 <= j < |a.keys|
      ensures UnderAt(s, a.keys, a.nows, y, j, b, d) && !OverAt(s, a.keys, a.nows, y, j, b, d)
    {
      assert StaysModest(before, a, y, j, b, d);
      RecordedIsAmount(n, before, y, a.keys[j], a.nows[j] - Longest(b, d), b, d);
      ModestIsNotExceeding(y, AmountOf(y, s.logs, a.keys[j], a.nows[j] - Longest(b, d)), b, d);
    }
    NotHotTick(s, a.keys, a.nows, t, b, d);
    NominalTick(s, a.keys, a.nows, t, b, d);
  }

  lemma {:induction false} KeptCoolFalls(n: int, before: seq<Act>, acts: seq<Act>, t: int, hi: int, b: int, d: int)
    requires b > 0 && d > 0 && (forall a <- before :: WellFormed(a)) && (forall a <- acts :: WellFormed(a))
    requires HonestActs(before) && HonestActs(acts) && InOrder(acts, t, hi) && KeptCool(before, acts, b, d)
    requires Current(Replayed(Sys(map[], n), before, b, d).logs, t, d)
    requires Replayed(Sys(map[], n), before, b, d).replicas >= 1
    ensures var s := Replayed(Sys(map[], n), before, b, d);
            Replayed(s, acts, b, d).replicas == if s.replicas - Ticks(acts) > 1 then s.replicas - Ticks(acts) else 1
    decreases |acts|
  {
    if acts != [] {
      var s, a := Replayed(Sys(map[], n), before, b, d), acts[0];
      assert a in acts;
      ReplayedSnoc(Sys(map[], n), before, a, b, d);
      ActCurrent(s, a, t, b, d);
      if a.Tick? {
        CoolTick(n, before, a, t, b, d);
      }
      assert Acted(s, a, b, d).replicas == if a.Tick? && s.replicas > 1 then s.replicas - 1 else s.replicas;
      hide Acted, Current, Cool, Rising, Honest, LastTime, Times;
      KeptCoolFalls(n, before + [a], acts[1..], LastTime(Times(a), t), hi, b, d);
    }
  }

  /** While all that was recorded in the last (2b-1)d-b stays below the nominal limits, k ticks with a
      key to look at leave max(1, n - k). */
  lemma TelemetryCools(n: int, before: seq<Act>, acts: seq<Act>, lo: int, t: int, hi: int, b: int, d: int)
    requires b > 0 && d > 0 && (forall a <- before :: WellFormed(a)) && (forall a <- acts :: WellFormed(a))
    requires HonestActs(before) && HonestActs(acts) && 1 <= n <= 10
    requires InOrder(before, lo, t) && InOrder(acts, t, hi) && KeptCool(before, acts, b, d)
    ensures var s := Replayed(Sys(map[], n), before, b, d);
            Replayed(s, acts, b, d).replicas == if s.replicas - Ticks(acts) > 1 then s.replicas - Ticks(acts) else 1
  {
    RunRange(Sys(map[], n), before, b, d);
    RunCurrent(Sys(map[], n), before, lo, t, b, d);
    KeptCoolFalls(n, before, acts, t, hi, b, d);
  }
}
