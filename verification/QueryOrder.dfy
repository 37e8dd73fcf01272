/** Whether the order in which a tick of cmd/aggregator/autoscaler.go looks at the workloads matters.
    Each query reads the clock anew, so it does when a bucket boundary falls between two of them. */
module QueryOrder {
  import opened Arithmetic
  import opened History
  import opened SlidingWindow
  import opened ProfileStore
  import opened Autoscaling

  /** The rotations due at `now`, as far as a window of `b` buckets can tell. */
  function Passed(last: int, now: int, b: int, d: int): int
    requires d > 0
  {
    var r := Due(last, now, d);
    if r < b then r else b
  }

  /** No boundary that a window could notice falls between `lo` and `hi`. */
  predicate Still(last: int, lo: int, hi: int, b: int, d: int)
    requires d > 0
  {
    Passed(last, lo, b, d) == Passed(last, hi, b, d)
  }

  lemma DueMonotone(last: int, now: int, later: int, d: int)
    requires d > 0 && now <= later
    ensures Due(last, now, d) <= Due(last, later, d)
    ensures Due(last, now, d) == Due(last, later, d) && Due(last, now, d) > 0 ==> later - now < d
  {
    var p, q := Due(last, now, d), Due(last, later, d);
    if now - last >= d {
      QuotientBounds(now - last, d);
      QuotientBounds(later - last, d);
      if q < p {
        Scale(d, q + 1, p);
      }
    }
  }

  // ---------------------------------------------------------------- one workload

  /** What every query between `lo` and `hi` finds, if nothing else intervenes. */
  function Expected(w: Log, lo: int, b: int, d: int): Counts
    requires d > 0
  {
    var rot := w.rotations + Due(w.last, lo, d);
    Tally(w.entries, rot - b + 1, rot + 1)
  }

  ghost predicate Tagged(w: Log) {
    forall e <- w.entries :: e.tag <= w.rotations
  }

  /** `v` is what queries not after `hi` have made of `w`: nothing yet, or rotated once and not due
      again, or empty as far as a window can tell. */
  ghost predicate Touched(w: Log, v: Log, lo: int, hi: int, b: int, d: int)
    requires d > 0
  {
    && v.entries == w.entries
    && (v == w
        || (if Due(w.last, lo, d) < b then v.rotations == w.rotations + Due(w.last, lo, d) && hi - v.last < d
            else v.rotations >= w.rotations + b))
  }

  lemma TouchedAgain(w: Log, v: Log, lo: int, now: int, hi: int, b: int, d: int)
    requires b > 0 && d > 0 && lo <= now <= hi && Still(w.last, lo, hi, b, d)
    requires Touched(w, v, lo, hi, b, d)
    ensures Touched(w, Rotated(Lazy, v, now, d), lo, hi, b, d)
    ensures var u := Rotated(Lazy, v, now, d);
            if Due(w.last, lo, d) < b then u.rotations == w.rotations + Due(w.last, lo, d)
            else u.rotations >= w.rotations + b
  {
    DueMonotone(w.last, lo, now, d);
    DueMonotone(w.last, now, hi, d);
    hide Due;
    if v != w && Due(w.last, lo, d) < b {
      NotDue(v.last, now, d);
    } else if v == w && Due(w.last, now, d) == 0 {
      DueSpan(w.last, hi, d);
    }
  }

  lemma NotDue(last: int, now: int, d: int)
    requires d > 0 && now - last < d
    ensures Due(last, now, d) == 0
  {
  }

  lemma TouchedTotals(w: Log, u: Log, lo: int, b: int, d: int)
    requires b > 0 && d > 0 && Tagged(w) && u.entries == w.entries
    requires if Due(w.last, lo, d) < b then u.rotations == w.rotations + Due(w.last, lo, d)
             else u.rotations >= w.rotations + b
    ensures WindowTotals(u, b) == Expected(w, lo, b, d)
  {
    var r := Due(w.last, lo, d);
    hide Due;
    if r >= b {
      TallyNone(w.entries, u.rotations - b + 1, u.rotations + 1);
      TallyNone(w.entries, w.rotations + r - b + 1, w.rotations + r + 1);
    }
  }

  // ---------------------------------------------------------------- many workloads

  predicate Within(nows: seq<int>, lo: int, hi: int) {
    forall i :: 0 <= i < |nows| ==> lo <= nows[i] <= hi
  }

  ghost predicate StillLog(w: Log, lo: int, hi: int, b: int, d: int)
    requires d > 0
  {
    Tagged(w) && Still(w.last, lo, hi, b, d)
  }

  /** No known workload has a noticeable boundary between `lo` and `hi`. */
  ghost predicate AllStill(logs: Logs, lo: int, hi: int, b: int, d: int)
    requires d > 0
  {
    forall k <- logs :: StillLog(logs[k], lo, hi, b, d)
  }

  lemma {:induction false} AfterTouched(logs: Logs, keys: seq<string>, nows: seq<int>, m: int, k: string,
                                        lo: int, hi: int, b: int, d: int)
    requires b > 0 && d > 0 && 0 <= m <= |keys| == |nows| && Within(nows, lo, hi)
    requires k in logs && Still(logs[k].last, lo, hi, b, d)
    ensures var w := After(logs, keys, nows, m, d); k in w && Touched(logs[k], w[k], lo, hi, b, d)
  {
    if m > 0 {
      hide Touched, Still;
      AfterTouched(logs, keys, nows, m - 1, k, lo, hi, b, d);
      TouchedAgain(logs[k], After(logs, keys, nows, m - 1, d)[k], lo, nows[m - 1], hi, b, d);
    } else {
      assert Touched(logs[k], logs[k], lo, hi, b, d);
    }
  }

  lemma {:induction false} AfterKeys(logs: Logs, keys: seq<string>, nows: seq<int>, m: int, d: int)
    requires d > 0 && 0 <= m <= |keys| == |nows|
    ensures After(logs, keys, nows, m, d).Keys == logs.Keys
  {
    if m > 0 {
      AfterKeys(logs, keys, nows, m - 1, d);
    }
  }

  /** What a workload shows to every query of the tick. */
  function Sight(logs: Logs, k: string, lo: int, b: int, d: int): RuntimeProfile
    requires b > 0 && d > 0
  {
    View(if k in logs then Expected(logs[k], lo, b, d) else Zero(), b, d)
  }

  lemma SeenIsSight(logs: Logs, keys: seq<string>, nows: seq<int>, i: int, lo: int, hi: int, b: int, d: int)
    requires b > 0 && d > 0 && 0 <= i < |keys| == |nows| && Within(nows, lo, hi) && AllStill(logs, lo, hi, b, d)
    ensures Seen(logs, keys, nows, i, b, d) == Sight(logs, keys[i], lo, b, d)
  {
    hide Touched, Still, View, WindowTotals, Expected, Rotated;
    var k, v := keys[i], After(logs, keys, nows, i, d);
    AfterKeys(logs, keys, nows, i + 1, d);
    AfterKeys(logs, keys, nows, i, d);
    if k in logs {
      assert StillLog(logs[k], lo, hi, b, d);
      AfterTouched(logs, keys, nows, i, k, lo, hi, b, d);
      TouchedAgain(logs[k], v[k], lo, nows[i], hi, b, d);
      TouchedEntries(logs[k], Rotated(Lazy, v[k], nows[i], d), lo, hi, b, d);
      TouchedTotals(logs[k], Rotated(Lazy, v[k], nows[i], d), lo, b, d);
    }
  }

  lemma TouchedEntries(w: Log, v: Log, lo: int, hi: int, b: int, d: int)
    requires d > 0 && Touched(w, v, lo, hi, b, d)
    ensures v.entries == w.entries
  {
  }

  lemma SameSights(logs: Logs, keys: seq<string>, keys': seq<string>, nows: seq<int>, nows': seq<int>,
                   lo: int, hi: int, b: int, d: int)
    requires b > 0 && d > 0 && (forall k :: k in keys ==> k in keys') && |keys| == |nows| && |keys'| == |nows'|
    requires Within(nows, lo, hi) && Within(nows', lo, hi) && AllStill(logs, lo, hi, b, d)
    ensures AnyHot(logs, keys, nows, b, d) ==> AnyHot(logs, keys', nows', b, d)
    ensures AllSeenNominal(logs, keys', nows', b, d) ==> AllSeenNominal(logs, keys, nows, b, d)
  {
    hide Seen, Sight, AllStill, Hot, Nominal;
    forall i | 0 <= i < |keys|
      ensures exists j :: 0 <= j < |keys'| && Seen(logs, keys, nows, i, b, d) == Seen(logs, keys', nows', j, b, d)
    {
      assert keys[i] in keys';
      var j :| 0 <= j < |keys'| && keys'[j] == keys[i];
      SeenIsSight(logs, keys, nows, i, lo, hi, b, d);
      SeenIsSight(logs, keys', nows', j, lo, hi, b, d);
    }
  }

  /** Two listings of the same keys, in any order and with any repetition, queried at any times of a
      span in which no boundary falls, lead to the same count. */
  lemma OrderDoesNotMatter(logs: Logs, keys: seq<string>, keys': seq<string>, nows: seq<int>, nows': seq<int>,
                           lo: int, hi: int, current: int, b: int, d: int)
    requires b > 0 && d > 0 && (forall k :: k in keys <==> k in keys') && |keys| == |nows| && |keys'| == |nows'|
    requires Within(nows, lo, hi) && Within(nows', lo, hi) && AllStill(logs, lo, hi, b, d)
    ensures Decision(logs, keys, nows, current, b, d) == Decision(logs, keys', nows', current, b, d)
  {
    hide AnyHot, AllSeenNominal, AllStill;
    SameSights(logs, keys, keys', nows, nows', lo, hi, b, d);
    SameSights(logs, keys', keys, nows', nows, lo, hi, b, d);
    assert |keys| > 0 ==> keys[0] in keys';
    assert |keys'| > 0 ==> keys'[0] in keys;
  }

  /** In particular when all queries run at one instant. */
  lemma OneInstant(logs: Logs, keys: seq<string>, keys': seq<string>, now: int, current: int, b: int, d: int)
    requires b > 0 && d > 0 && (forall k :: k in keys <==> k in keys') && forall k <- logs :: Tagged(logs[k])
    ensures Decision(logs, keys, seq(|keys|, _ => now), current, b, d)
            == Decision(logs, keys', seq(|keys'|, _ => now), current, b, d)
  {
    OrderDoesNotMatter(logs, keys, keys', seq(|keys|, _ => now), seq(|keys'|, _ => now), now, now, current, b, d);
  }

  // ---------------------------------------------------------------- when it matters

  /** A history that runs forward in time can leave, of records a recorder can make after the zero
      time. */
  ghost predicate Plausible(w: Log, d: int)
    requires d > 0
  {
    Bracketed(w, d) && Timely(w) && HonestLog(w) && forall e <- w.entries :: ZERO_TIME < e.base
  }

  lemma PlausibleTagged(w: Log, d: int)
    requires d > 0 && Plausible(w, d)
    ensures Tagged(w)
  {
    forall e | e in w.entries ensures e.tag <= w.rotations {
      assert EntryBracketed(w, e, d);
    }
  }

  /** Contents for a store whose rotation clocks are given. */
  ghost predicate Fits(logs: Logs, clocks: map<string, int>, d: int)
    requires d > 0
  {
    && logs.Keys == clocks.Keys
    && forall k <- clocks :: logs[k].last == clocks[k] && Plausible(logs[k], d)
  }

  /** What the store may list its keys as. */
  ghost predicate Lists(keys: seq<string>, all: set<string>) {
    && (forall i, j :: 0 <= i < j < |keys| ==> keys[i] != keys[j])
    && (forall k :: k in keys <==> k in all)
  }

  /** Two listings of the store, queried at the same times. */
  ghost predicate Reordered(keys: seq<string>, keys': seq<string>, all: set<string>, nows: seq<int>, lo: int, hi: int) {
    && |keys| == |keys'| == |nows|
    && Lists(keys, all) && Lists(keys', all)
    && Rising(nows, lo) && Within(nows, lo, hi)
  }

  lemma {:induction false} AListing(all: set<string>) returns (keys: seq<string>)
    ensures Lists(keys, all) && |keys| == |all|
    decreases |all|
  {
    if all == {} {
      keys := [];
    } else {
      var k :| k in all;
      var rest := AListing(all - {k});
      keys := [k] + rest;
    }
  }

  lemma {:induction false} ListingSize(keys: seq<string>, all: set<string>)
    requires Lists(keys, all)
    ensures |keys| == |all|
    decreases |keys|
  {
    if keys != [] {
      var rest := keys[1..];
      assert keys == [keys[0]] + rest;
      assert forall i :: 0 <= i < |rest| ==> rest[i] == keys[i + 1] != keys[0];
      assert Lists(rest, all - {keys[0]});
      ListingSize(rest, all - {keys[0]});
    } else {
      assert forall k :: k in all ==> k in keys;
    }
  }

  /** A store with one workload has one listing. */
  lemma OneListing(keys: seq<string>, keys': seq<string>, all: set<string>)
    requires Lists(keys, all) && Lists(keys', all) && |all| <= 1
    ensures keys == keys'
  {
    ListingSize(keys, all);
    ListingSize(keys', all);
    if |keys| == 1 {
      assert keys[0] in keys && keys'[0] in keys';
      assert keys[0] in all && keys[0] in keys';
    }
  }

  /** The context switches of `b` buckets at far more than the threshold. */
  function Burst(b: int, d: int): Counts {
    Counts(b * d, 0, 0, 0, b * d)
  }

  lemma BurstIsHot(b: int, d: int)
    requires b > 0 && d > 0
    ensures Honest(Burst(b, d)) && Hot(View(Burst(b, d), b, d))
  {
    Scale(b, 1, d);
    var seconds := b as real * (d as real / 1e9);
    assert seconds * 1e9 == (b * d) as real > 0.0;
    RateIs((b * d) as real, seconds);
  }

  lemma RateIs(x: real, seconds: real)
    requires seconds > 0.0 && x == seconds * 1e9
    ensures x / seconds == 1e9
  {
  }

  /** An event that `n` rotations in a row have followed. */
  function Aged(last: int, n: int, b: int, d: int): Log {
    Log([Entry(last - d * n, last - d * n, -n, Burst(b, d))], 0, last)
  }

  lemma AgedPlausible(last: int, n: int, b: int, d: int)
    requires b > 0 && d > 0 && 0 <= n < b && b * d < last
    ensures Plausible(Aged(last, n, b, d), d)
  {
    BurstIsHot(b, d);
    hide Burst;
    var e := Aged(last, n, b, d).entries[0];
    Scale(n, d, 2 * d - 1);
    Scale(d, n, b);
    assert EntryBracketed(Aged(last, n, b, d), e, d);
  }

  lemma AgedTotals(last: int, n: int, now: int, b: int, d: int)
    requires b > 0 && d > 0 && n >= 0
    ensures WindowTotals(Rotated(Lazy, Aged(last, n, b, d), now, d), b)
            == if n + Due(last, now, d) < b then Burst(b, d) else Zero()
  {
    hide Due, Burst, Tally;
    OneEntry(Aged(last, n, b, d).entries[0], Due(last, now, d), b);
  }

  lemma OneEntry(e: Entry, rot: int, b: int)
    ensures Tally([e], rot - b + 1, rot + 1) == Share(e, rot - b + 1, rot + 1)
  {
    assert TallyTo([e], 0, rot - b + 1, rot + 1) == Zero();
    PlusZero(Share(e, rot - b + 1, rot + 1));
  }

  lemma {:induction false} AfterUntouched(logs: Logs, keys: seq<string>, nows: seq<int>, m: int, k: string, d: int)
    requires d > 0 && 0 <= m <= |keys| == |nows| && k !in keys[..m]
    ensures var w := After(logs, keys, nows, m, d); (k in w <==> k in logs) && (k in w ==> w[k] == logs[k])
  {
    if m > 0 {
      assert keys[..m] == keys[..m - 1] + [keys[m - 1]];
      AfterUntouched(logs, keys, nows, m - 1, k, d);
    }
  }

  /** A key that is listed once shows what it shows when asked alone. */
  lemma SeenAlone(logs: Logs, keys: seq<string>, nows: seq<int>, i: int, b: int, d: int)
    requires b > 0 && d > 0 && 0 <= i < |keys| == |nows| && keys[i] !in keys[..i]
    ensures Seen(logs, keys, nows, i, b, d) == View(TotalsOf(Queried(logs, keys[i], nows[i], d), keys[i], b), b, d)
  {
    AfterUntouched(logs, keys, nows, i, keys[i], d);
    hide View, Rotated, WindowTotals;
  }

  /** The times of a tick whose first query reads `lo` and whose others read `hi`. */
  function FirstEarly(n: nat, lo: int, hi: int): seq<int>
    requires n > 0
  {
    [lo] + seq(n - 1, _ => hi)
  }

  lemma TwoListings(all: set<string>, k: string, lo: int, hi: int) returns (rest: seq<string>)
    requires k in all && |all| > 1 && lo <= hi
    ensures Lists(rest, all - {k}) && rest != []
    ensures Reordered([k] + rest, rest + [k], all, FirstEarly(|rest| + 1, lo, hi), lo, hi)
  {
    rest := AListing(all - {k});
  }

  /** If a noticeable boundary of one of several workloads falls between two queries, then there are
      contents of the store for which the workload is hot when asked first and gone when asked last. */
  lemma BoundaryMatters(clocks: map<string, int>, k: string, lo: int, hi: int, b: int, d: int)
    returns (logs: Logs, first: seq<string>, last: seq<string>, nows: seq<int>)
    requires b > 0 && d > 0 && lo <= hi && k in clocks && !Still(clocks[k], lo, hi, b, d)
    requires |clocks| > 1 && forall j <- clocks :: b * d < clocks[j]
    ensures Fits(logs, clocks, d) && Reordered(first, last, clocks.Keys, nows, lo, hi)
    ensures Decision(logs, first, nows, 3, b, d) == 4 && Decision(logs, last, nows, 3, b, d) == 2
  {
    var n := b - 1 - Due(clocks[k], lo, d);
    DueMonotone(clocks[k], lo, hi, d);
    hide Due, Aged, Fits, View, Hot, Decision, Rotated, WindowTotals, Burst;
    logs := Stale(clocks, k, n, b, d);
    StaleFits(clocks, k, n, b, d);
    AgedTotals(clocks[k], n, lo, b, d);
    AgedTotals(clocks[k], n, hi, b, d);
    BurstIsHot(b, d);
    assert |clocks| == |clocks.Keys|;
    var rest := TwoListings(clocks.Keys, k, lo, hi);
    first, last, nows := [k] + rest, rest + [k], FirstEarly(|rest| + 1, lo, hi);
    assert forall l <- rest :: l in logs ==> logs[l].entries == [];
    hide Reordered, Lists, Still, FirstEarly, Stale;
    TwoDecisions(logs, k, rest, lo, hi, b, d);
  }

  /** A store that holds one aged event and nothing else. */
  function Stale(clocks: map<string, int>, k: string, n: int, b: int, d: int): Logs {
    map j | j in clocks :: if j == k then Aged(clocks[k], n, b, d) else Log([], 0, clocks[j])
  }

  lemma StaleFits(clocks: map<string, int>, k: string, n: int, b: int, d: int)
    requires b > 0 && d > 0 && 0 <= n < b && k in clocks && b * d < clocks[k]
    ensures Fits(Stale(clocks, k, n, b, d), clocks, d)
  {
    AgedPlausible(clocks[k], n, b, d);
  }

  lemma TwoDecisions(logs: Logs, k: string, rest: seq<string>, lo: int, hi: int, b: int, d: int)
    requires b > 0 && d > 0 && k in logs && k !in rest && rest != []
    requires forall i, j :: 0 <= i < j < |rest| ==> rest[i] != rest[j]
    requires forall l <- rest :: l in logs ==> logs[l].entries == []
    requires Hot(View(WindowTotals(Rotated(Lazy, logs[k], lo, d), b), b, d))
    requires WindowTotals(Rotated(Lazy, logs[k], hi, d), b) == Zero()
    ensures var nows := FirstEarly(|rest| + 1, lo, hi);
            && Decision(logs, [k] + rest, nows, 3, b, d) == 4
            && Decision(logs, rest + [k], nows, 3, b, d) == 2
  {
    hide View, Hot, Nominal, Seen, Rotated, WindowTotals, After;
    var first, last, nows := [k] + rest, rest + [k], FirstEarly(|rest| + 1, lo, hi);
    ZeroIsNominal(b, d);
    SeenAlone(logs, first, nows, 0, b, d);
    assert Hot(Seen(logs, first, nows, 0, b, d));
    forall i | 0 <= i < |last| ensures Seen(logs, last, nows, i, b, d) == View(Zero(), b, d) {
      SeenAlone(logs, last, nows, i, b, d);
      if i < |rest| {
        assert rest[i] in rest;
        EmptyTotals(logs, rest[i], nows[i], b, d);
      }
    }
  }

  lemma EmptyTotals(logs: Logs, l: string, now: int, b: int, d: int)
    requires b > 0 && d > 0 && (l in logs ==> logs[l].entries == [])
    ensures TotalsOf(Queried(logs, l, now, d), l, b) == Zero()
  {
  }

  /** For given rotation clocks, the count a tick within [lo, hi] decides is independent of the order
      in which the store lists its keys, whatever it contains, exactly when it has at most one or no
      noticeable boundary falls in the span. */
  lemma OrderDoesNotMatterIff(clocks: map<string, int>, lo: int, hi: int, b: int, d: int)
    requires b > 0 && d > 0 && lo <= hi && forall k <- clocks :: b * d < clocks[k]
    ensures (forall logs: Logs, keys, keys', nows, current |
               Fits(logs, clocks, d) && Reordered(keys, keys', clocks.Keys, nows, lo, hi) ::
               Decision(logs, keys, nows, current, b, d) == Decision(logs, keys', nows, current, b, d))
            <==> |clocks| <= 1 || forall k <- clocks :: Still(clocks[k], lo, hi, b, d)
  {
    assert |clocks| == |clocks.Keys|;
    if |clocks| <= 1 || forall k <- clocks :: Still(clocks[k], lo, hi, b, d) {
      forall logs: Logs, keys, keys', nows, current |
        Fits(logs, clocks, d) && Reordered(keys, keys', clocks.Keys, nows, lo, hi)
        ensures Decision(logs, keys, nows, current, b, d) == Decision(logs, keys', nows, current, b, d)
      {
        if |clocks| <= 1 {
          OneListing(keys, keys', clocks.Keys);
        } else {
          forall k | k in logs ensures StillLog(logs[k], lo, hi, b, d) {
            PlausibleTagged(logs[k], d);
          }
          OrderDoesNotMatter(logs, keys, keys', nows, nows, lo, hi, current, b, d);
        }
      }
    } else {
      var k :| k in clocks && !Still(clocks[k], lo, hi, b, d);
      var logs, first, last, nows := BoundaryMatters(clocks, k, lo, hi, b, d);
    }
  }

  const SECOND := 1_000_000_000

  /** Two workloads, one of which has had a burst. */
  function Start(burst: Counts): seq<Act> {
    [Feed("a", 1, 1, burst), Clear("c", 1, 1)]
  }

  /** One bucket of a second. */
  lemma Started(burst: Counts)
    ensures Replayed(Sys(map[], 3), Start(burst), 1, SECOND)
            == Sys(map["a" := Log([Entry(1, 1, 0, burst)], 0, 1), "c" := Log([], 0, 1)], 3)
  {
    var acts := Start(burst);
    assert Step(Lazy, Log([], 0, 1), Record(1, burst), SECOND) == Log([Entry(1, 1, 0, burst)], 0, 1);
    assert acts[1..] == [acts[1]] && acts[1..][1..] == [];
    var s := Acted(Sys(map[], 3), acts[0], 1, SECOND);
    assert s.logs == map["a" := Log([Entry(1, 1, 0, burst)], 0, 1)];
    assert Replayed(s, [acts[1]], 1, SECOND) == Acted(s, acts[1], 1, SECOND);
  }

  /** A run of the aggregator that shows it: one burst, and a tick over the two workloads in which a
      boundary falls between the first query and the second. */
  lemma TwoOrdersTwoCounts()
    ensures var s := Replayed(Sys(map[], 3), Start(Counts(2000, 0, 0, 0, 2000)), 1, SECOND);
            && Lists(["a", "c"], s.logs.Keys) && Lists(["c", "a"], s.logs.Keys)
            && Acted(s, Tick(["a", "c"], [SECOND, SECOND + 1]), 1, SECOND).replicas == 4
            && Acted(s, Tick(["c", "a"], [SECOND, SECOND + 1]), 1, SECOND).replicas == 2
  {
    var burst := Counts(2000, 0, 0, 0, 2000);
    var logs := map["a" := Log([Entry(1, 1, 0, burst)], 0, 1), "c" := Log([], 0, 1)];
    Started(burst);
    BurstTotals(burst);
    BurstView();
    hide Tally, View, Hot, Rotated, Decision, After, Asked, Replayed;
    TwoDecisions(logs, "a", ["c"], SECOND, SECOND + 1, 1, SECOND);
    assert ["a"] + ["c"] == ["a", "c"] && ["c"] + ["a"] == ["c", "a"];
    assert FirstEarly(2, SECOND, SECOND + 1) == [SECOND, SECOND + 1];
    TickDecides(Sys(logs, 3), ["a", "c"], [SECOND, SECOND + 1], 1, SECOND);
    TickDecides(Sys(logs, 3), ["c", "a"], [SECOND, SECOND + 1], 1, SECOND);
    hide Acted;
  }

  lemma TickDecides(s: Sys, keys: seq<string>, nows: seq<int>, b: int, d: int)
    requires b > 0 && d > 0 && |keys| == |nows|
    ensures Acted(s, Tick(keys, nows), b, d).replicas == Decision(s.logs, keys, nows, s.replicas, b, d)
  {
  }

  lemma BurstTotals(burst: Counts)
    ensures var w := Log([Entry(1, 1, 0, burst)], 0, 1);
            && WindowTotals(Rotated(Lazy, w, SECOND, SECOND), 1) == burst
            && WindowTotals(Rotated(Lazy, w, SECOND + 1, SECOND), 1) == Zero()
  {
    hide Tally;
    OneEntry(Entry(1, 1, 0, burst), 0, 1);
    OneEntry(Entry(1, 1, 0, burst), 1, 1);
  }

  lemma BurstView()
    ensures Hot(View(Counts(2000, 0, 0, 0, 2000), 1, SECOND))
  {
  }
}
