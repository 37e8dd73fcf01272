/** cmd/aggregator/autoscaler.go: the threshold rule that drives the replica count, reading (and so
    rotating) the profiles of a store. */
module Autoscaling {
  import opened History
  import opened SlidingWindow
  import opened ProfileStore

  const MAX_REPLICAS := 6
  const LOG_CAPACITY := 50

  predicate Hot(p: RuntimeProfile) {
    p.ctxSwitchRate > 100.0 || p.pageFaultRate > 5000.0 || p.cacheMissRate > 1000.0
  }

  predicate Nominal(p: RuntimeProfile) {
    p.ctxSwitchRate < 50.0 && p.pageFaultRate < 2000.0 && p.cacheMissRate < 500.0
  }

  /** The thresholds leave a dead band: nothing is both. */
  lemma HotIsNotNominal(p: RuntimeProfile)
    ensures !(Hot(p) && Nominal(p))
  {
  }

  datatype Reason =
    | None
    | HighSwitches(key: string)
    | HighFaults(key: string)
    | HighMisses(key: string)
    | AllNominal

  // ---------------------------------------------------------------- what a decision reads

  function View(c: Counts, b: int, d: int): RuntimeProfile
    requires b > 0 && d > 0
  {
    ProfileOf("", c, b, d, ZERO_TIME, ZERO_TIME)
  }

  /** What the query for key `i` returns. */
  function Seen(logs: Logs, keys: seq<string>, nows: seq<int>, i: int, b: int, d: int): RuntimeProfile
    requires b > 0 && d > 0 && 0 <= i < |keys| == |nows|
  {
    View(TotalsOf(After(logs, keys, nows, i + 1, d), keys[i], b), b, d)
  }

  ghost predicate AnyHot(logs: Logs, keys: seq<string>, nows: seq<int>, b: int, d: int)
    requires b > 0 && d > 0 && |keys| == |nows|
  {
    exists i :: 0 <= i < |keys| && Hot(Seen(logs, keys, nows, i, b, d))
  }

  ghost predicate AllSeenNominal(logs: Logs, keys: seq<string>, nows: seq<int>, b: int, d: int)
    requires b > 0 && d > 0 && |keys| == |nows|
  {
    forall i :: 0 <= i < |keys| ==> Nominal(Seen(logs, keys, nows, i, b, d))
  }

  /** How many keys are queried: up to and including the first hot one. */
  function Asked(logs: Logs, keys: seq<string>, nows: seq<int>, i: int, b: int, d: int): (m: int)
    requires b > 0 && d > 0 && 0 <= i <= |keys| == |nows|
    ensures i <= m <= |keys|
    ensures forall j :: i <= j < m - 1 ==> !Hot(Seen(logs, keys, nows, j, b, d))
    ensures i < m < |keys| ==> Hot(Seen(logs, keys, nows, m - 1, b, d))
    ensures i < |keys| ==> i < m
    decreases |keys| - i
  {
    hide Seen, Hot;
    if i == |keys| then i
    else if Hot(Seen(logs, keys, nows, i, b, d)) then i + 1
    else Asked(logs, keys, nows, i + 1, b, d)
  }

  /** The replica count asked for: one more while anything is hot, one fewer once all is nominal. */
  function Decided(current: int, known: bool, hot: bool, nominal: bool): int {
    if !known then current
    else if hot then (if current + 1 < MAX_REPLICAS then current + 1 else MAX_REPLICAS)
    else if nominal && current > 1 then current - 1
    else current
  }

  ghost function Decision(logs: Logs, keys: seq<string>, nows: seq<int>, current: int, b: int, d: int): int
    requires b > 0 && d > 0 && |keys| == |nows|
  {
    Decided(current, |keys| > 0, AnyHot(logs, keys, nows, b, d), AllSeenNominal(logs, keys, nows, b, d))
  }

  lemma SeenAs(p: RuntimeProfile, logs: Logs, keys: seq<string>, nows: seq<int>, i: int, b: int, d: int)
    requires b > 0 && d > 0 && 0 <= i < |keys| == |nows|
    requires p == ProfileOf(keys[i], TotalsOf(After(logs, keys, nows, i + 1, d), keys[i], b), b, d, p.windowStart, p.windowEnd)
    ensures Hot(p) == Hot(Seen(logs, keys, nows, i, b, d))
    ensures Nominal(p) == Nominal(Seen(logs, keys, nows, i, b, d))
    ensures forall r :: NamesHot(r, p) == NamesHot(r, Seen(logs, keys, nows, i, b, d))
  {
  }

  /** Nothing hot among the first `i`, and whether all of them are nominal. */
  ghost predicate Scanned(logs: Logs, keys: seq<string>, nows: seq<int>, i: int, b: int, d: int, allNominal: bool)
    requires b > 0 && d > 0 && |keys| == |nows|
  {
    && 0 <= i <= |keys|
    && (forall j :: 0 <= j < i ==> !Hot(Seen(logs, keys, nows, j, b, d)))
    && Asked(logs, keys, nows, 0, b, d) == Asked(logs, keys, nows, i, b, d)
    && (allNominal <==> forall j :: 0 <= j < i ==> Nominal(Seen(logs, keys, nows, j, b, d)))
  }

  lemma ScanNone(logs: Logs, keys: seq<string>, nows: seq<int>, b: int, d: int)
    requires b > 0 && d > 0 && |keys| == |nows|
    ensures After(logs, keys, nows, 0, d) == logs && Scanned(logs, keys, nows, 0, b, d, true)
  {
  }

  lemma ScanNext(logs: Logs, keys: seq<string>, nows: seq<int>, i: int, b: int, d: int, allNominal: bool)
    requires b > 0 && d > 0 && |keys| == |nows| && i < |keys|
    requires Scanned(logs, keys, nows, i, b, d, allNominal)
    ensures var p := Seen(logs, keys, nows, i, b, d);
            if Hot(p) then AnyHot(logs, keys, nows, b, d) && Asked(logs, keys, nows, 0, b, d) == i + 1
            else Scanned(logs, keys, nows, i + 1, b, d, allNominal && Nominal(p))
  {
    hide Seen, Hot, Nominal;
  }

  lemma ScanDone(logs: Logs, keys: seq<string>, nows: seq<int>, b: int, d: int, allNominal: bool)
    requires b > 0 && d > 0 && |keys| == |nows|
    requires Scanned(logs, keys, nows, |keys|, b, d, allNominal)
    ensures !AnyHot(logs, keys, nows, b, d) && Asked(logs, keys, nows, 0, b, d) == |keys|
    ensures allNominal <==> AllSeenNominal(logs, keys, nows, b, d)
  {
    hide Seen, Hot, Nominal;
  }

  /** The first signal over its threshold. */
  method Judged(k: string, p: RuntimeProfile) returns (hot: Reason)
    ensures hot.None? <==> !Hot(p)
    ensures Hot(p) ==> NamesHot(hot, p) && hot.key == k
  {
    if p.ctxSwitchRate > 100.0 {
      return HighSwitches(k);
    } else if p.pageFaultRate > 5000.0 {
      return HighFaults(k);
    } else if p.cacheMissRate > 1000.0 {
      return HighMisses(k);
    }
    return None;
  }

  /** The signal named is over its threshold and those checked before it are not. */
  predicate NamesHot(r: Reason, p: RuntimeProfile) {
    match r
    case HighSwitches(_) => p.ctxSwitchRate > 100.0
    case HighFaults(_) => p.pageFaultRate > 5000.0 && p.ctxSwitchRate <= 100.0
    case HighMisses(_) => p.cacheMissRate > 1000.0 && p.ctxSwitchRate <= 100.0 && p.pageFaultRate <= 5000.0
    case _ => false
  }

  /** The count is the decision's and the reason says why: the last workload asked and a signal of
      it over its threshold, exactly when anything is hot. */
  ghost predicate Explained(n: int, reason: Reason, logs: Logs, keys: seq<string>, nows: seq<int>, current: int, b: int, d: int)
    requires b > 0 && d > 0 && |keys| == |nows|
  {
    var m := Asked(logs, keys, nows, 0, b, d);
    && n == Decision(logs, keys, nows, current, b, d)
    && (reason.None? ==> n == current)
    && (reason.AllNominal? ==> n == current - 1)
    && (if AnyHot(logs, keys, nows, b, d)
        then m > 0 && NamesHot(reason, Seen(logs, keys, nows, m - 1, b, d)) && reason.key == keys[m - 1]
        else reason.None? || reason.AllNominal?)
  }

  /** What the scan finds: the first hot workload, or that there is none and whether all are nominal. */
  ghost predicate Found(hot: Reason, allNominal: bool, logs: Logs, keys: seq<string>, nows: seq<int>, b: int, d: int)
    requires b > 0 && d > 0 && |keys| == |nows|
  {
    var m := Asked(logs, keys, nows, 0, b, d);
    if AnyHot(logs, keys, nows, b, d)
    then m > 0 && NamesHot(hot, Seen(logs, keys, nows, m - 1, b, d)) && hot.key == keys[m - 1]
    else hot.None? && allNominal == AllSeenNominal(logs, keys, nows, b, d)
  }

  lemma FoundHot(hot: Reason, logs: Logs, keys: seq<string>, nows: seq<int>, i: int, b: int, d: int, allNominal: bool)
    requires b > 0 && d > 0 && 0 <= i < |keys| == |nows|
    requires Scanned(logs, keys, nows, i, b, d, allNominal) && Hot(Seen(logs, keys, nows, i, b, d))
    requires NamesHot(hot, Seen(logs, keys, nows, i, b, d)) && hot.key == keys[i]
    ensures Found(hot, allNominal, logs, keys, nows, b, d) && Asked(logs, keys, nows, 0, b, d) == i + 1
  {
    ScanNext(logs, keys, nows, i, b, d, allNominal);
    hide AnyHot, Asked, Seen, AllSeenNominal, Hot, Scanned;
  }

  lemma FoundNone(logs: Logs, keys: seq<string>, nows: seq<int>, b: int, d: int, allNominal: bool)
    requires b > 0 && d > 0 && |keys| == |nows| && Scanned(logs, keys, nows, |keys|, b, d, allNominal)
    ensures Found(Reason.None, allNominal, logs, keys, nows, b, d) && Asked(logs, keys, nows, 0, b, d) == |keys|
  {
    ScanDone(logs, keys, nows, b, d, allNominal);
    hide AnyHot, Asked, Seen, AllSeenNominal, Scanned;
  }

  lemma FoundExplains(hot: Reason, allNominal: bool, logs: Logs, keys: seq<string>, nows: seq<int>, current: int, b: int, d: int)
    requires b > 0 && d > 0 && 0 < |keys| == |nows| && Found(hot, allNominal, logs, keys, nows, b, d)
    ensures if !hot.None? then
              Explained(if current + 1 < MAX_REPLICAS then current + 1 else MAX_REPLICAS, hot, logs, keys, nows, current, b, d)
            else if allNominal && current > 1 then Explained(current - 1, AllNominal, logs, keys, nows, current, b, d)
            else Explained(current, Reason.None, logs, keys, nows, current, b, d)
  {
    hide AnyHot, Asked, Seen, AllSeenNominal;
  }

  lemma NoneExplained(logs: Logs, keys: seq<string>, nows: seq<int>, current: int, b: int, d: int)
    requires b > 0 && d > 0 && 0 == |keys| == |nows|
    ensures Explained(current, Reason.None, logs, keys, nows, current, b, d)
    ensures After(logs, keys, nows, Asked(logs, keys, nows, 0, b, d), d) == logs
  {
  }

  /** Queries one key and judges what comes back. */
  method Look(store: Store, keys: seq<string>, nows: seq<Instant>, i: int, ghost logs: Logs) returns (hot: Reason, nominal: bool)
    requires store.Valid() && 0 <= i < |keys| == |nows|
    requires store.Logs() == After(logs, keys, nows, i, store.bucketDuration)
    modifies store.profiles.Values, store.Arrays()
    ensures store.Valid() && store.profiles == old(store.profiles)
    ensures store.Logs() == After(logs, keys, nows, i + 1, store.bucketDuration)
    ensures var p := Seen(logs, keys, nows, i, store.bucketCount, store.bucketDuration);
            && nominal == Nominal(p) && (hot.None? <==> !Hot(p))
            && (Hot(p) ==> NamesHot(hot, p) && hot.key == keys[i])
  {
    hide NamesHot, Hot, Nominal, After, Seen, TotalsOf, ProfileOf, Queried, Store.Valid, Store.Logs;
    ghost var b, d := store.bucketCount, store.bucketDuration;
    var p := store.QueryProfile(keys[i], nows[i]);
    AfterNext(logs, keys, nows, i, d);
    SeenAs(p, logs, keys, nows, i, b, d);
    hot := Judged(keys[i], p);
    nominal := Nominal(p);
  }

  /** The loop: it stops at the first hot workload. */
  method Scan(store: Store, keys: seq<string>, nows: seq<Instant>) returns (hot: Reason, allNominal: bool)
    requires store.Valid() && |keys| == |nows|
    modifies store.profiles.Values, store.Arrays()
    ensures store.Valid() && store.profiles == old(store.profiles)
    ensures Found(hot, allNominal, old(store.Logs()), keys, nows, store.bucketCount, store.bucketDuration)
    ensures var b, d := store.bucketCount, store.bucketDuration;
            store.Logs() == After(old(store.Logs()), keys, nows, Asked(old(store.Logs()), keys, nows, 0, b, d), d)
  {
    hide Found, NamesHot, Hot, Nominal, Scanned, After, Seen, Asked, TotalsOf, ProfileOf, Queried, Store.Valid, Store.Logs;
    ghost var b, d, logs := store.bucketCount, store.bucketDuration, store.Logs();
    store.Positive();
    ScanNone(logs, keys, nows, b, d);
    allNominal := true;
    var i := 0;
    while i < |keys|
      invariant 0 <= i <= |keys|
      invariant store.Valid() && store.profiles == old(store.profiles)
      invariant store.Logs() == After(logs, keys, nows, i, d)
      invariant Scanned(logs, keys, nows, i, b, d, allNominal)
    {
      var nominal;
      hot, nominal := Look(store, keys, nows, i, logs);
      if !hot.None? {
        FoundHot(hot, logs, keys, nows, i, b, d, allNominal);
        return;
      }
      ScanNext(logs, keys, nows, i, b, d, allNominal);
      allNominal := allNominal && nominal;
      i := i + 1;
    }
    hot := Reason.None;
    FoundNone(logs, keys, nows, b, d, allNominal);
  }

  /** One more replica for a hot workload, which is named; one fewer once all are nominal. */
  method Decide(store: Store, keys: seq<string>, nows: seq<Instant>, current: int) returns (n: int, reason: Reason)
    requires store.Valid() && |keys| == |nows|
    modifies store.profiles.Values, store.Arrays()
    ensures store.Valid() && store.profiles == old(store.profiles)
    ensures Explained(n, reason, old(store.Logs()), keys, nows, current, store.bucketCount, store.bucketDuration)
    ensures var b, d := store.bucketCount, store.bucketDuration;
            store.Logs() == After(old(store.Logs()), keys, nows, Asked(old(store.Logs()), keys, nows, 0, b, d), d)
  {
    hide Explained, Found, After, Asked, Store.Valid, Store.Logs;
    ghost var b, d, logs := store.bucketCount, store.bucketDuration, store.Logs();
    store.Positive();
    if |keys| == 0 {
      NoneExplained(logs, keys, nows, current, b, d);
      return current, None;
    }
    var hot, allNominal := Scan(store, keys, nows);
    FoundExplains(hot, allNominal, logs, keys, nows, current, b, d);
    if !hot.None? {
      return if current + 1 < MAX_REPLICAS then current + 1 else MAX_REPLICAS, hot;
    }
    if allNominal && current > 1 {
      return current - 1, AllNominal;
    }
    return current, None;
  }

  // ---------------------------------------------------------------- the loop

  datatype Action = Info | ScaleUp | ScaleDown
  datatype ScalingLog = ScalingLog(action: Action, reason: Reason, replicas: int)

  /** Appending drops the oldest line of a log that has grown past its capacity. */
  function Logged(lines: seq<ScalingLog>, line: ScalingLog): seq<ScalingLog> {
    var all := lines + [line];
    if |all| > LOG_CAPACITY then all[1..] else all
  }

  /** A change of the replica count leaves one line with its reason. */
  ghost predicate Noted(was: int, before: seq<ScalingLog>, now: int, after: seq<ScalingLog>, reason: Reason) {
    after == if now == was then before
             else Logged(before, ScalingLog(if now > was then ScaleUp else ScaleDown, reason, now))
  }

  /** A tick of the run model led from `s` to `t`, for the reason given. */
  ghost predicate Ticked(s: Sys, keys: seq<string>, nows: seq<int>, b: int, d: int, t: Sys, reason: Reason) {
    && b > 0 && d > 0 && |keys| == |nows|
    && t == Acted(s, Act.Tick(keys, nows), b, d)
    && Explained(t.replicas, reason, s.logs, keys, nows, s.replicas, b, d)
  }

  lemma TickActs(s: Sys, keys: seq<string>, nows: seq<int>, b: int, d: int, n: int, reason: Reason)
    requires b > 0 && d > 0 && |keys| == |nows|
    requires Explained(n, reason, s.logs, keys, nows, s.replicas, b, d)
    ensures Ticked(s, keys, nows, b, d, Sys(After(s.logs, keys, nows, Asked(s.logs, keys, nows, 0, b, d), d), n), reason)
  {
    hide Decision, AnyHot, After, Asked;
  }

  class Autoscaler {
    var replicas: int
    var lines: seq<ScalingLog>
    var enabled: bool

    constructor (enabled: bool)
      ensures replicas == 2 && lines == [] && this.enabled == enabled
    {
      replicas, lines, this.enabled := 2, [], enabled;
    }

    method SetReplicas(n: int)
      modifies this`replicas
      ensures replicas == n
    {
      replicas := n;
    }

    method LogScaling(was: int, n: int, reason: Reason)
      requires n != was
      modifies this`lines
      ensures var kept := if |old(lines)| < 50 then old(lines) else old(lines)[1..];
              lines == kept + [ScalingLog(if n > was then ScaleUp else ScaleDown, reason, n)]
      ensures Noted(was, old(lines), n, lines, reason)
    {
      lines := lines + [ScalingLog(if n > was then ScaleUp else ScaleDown, reason, n)];
      if |lines| > LOG_CAPACITY {
        lines := lines[1..];
      }
    }

    /** A tick of the loop without a cluster; `nows` are the times of its queries. */
    method Tick(store: Store, nows: seq<Instant>) returns (ghost keys: seq<string>, ghost reason: Reason)
      requires store.Valid() && |nows| == |store.profiles|
      modifies this`replicas, this`lines, store.profiles.Values, store.Arrays()
      ensures store.Valid() && store.profiles == old(store.profiles) && |keys| == |nows|
      ensures forall k :: k in keys <==> k in store.profiles
      ensures enabled ==>
                Ticked(old(Sys(store.Logs(), replicas)), keys, nows, store.bucketCount, store.bucketDuration,
                       Sys(store.Logs(), replicas), reason)
      ensures !enabled ==> Sys(store.Logs(), replicas) == old(Sys(store.Logs(), replicas))
      ensures Noted(old(replicas), old(lines), replicas, lines, reason)
    {
      reason := Reason.None;
      hide Store.Valid, Store.Logs, After, Asked, Explained, Ticked;
      store.Positive();
      var ks := store.Keys();
      keys := ks;
      if !enabled {
        return;
      }
      var current := replicas;
      var n, why := Decide(store, ks, nows, current);
      reason := why;
      TickActs(Sys(old(store.Logs()), current), keys, nows, store.bucketCount, store.bucketDuration, n, why);
      Change(current, n, why);
    }

    method Change(current: int, n: int, why: Reason)
      requires replicas == current
      modifies this`replicas, this`lines
      ensures replicas == n && Noted(current, old(lines), n, lines, why)
    {
      if n != current {
        SetReplicas(n);
        LogScaling(current, n, why);
      }
    }
  }

  // ---------------------------------------------------------------- runs

  /** The store and the replica count, as the aggregator without a cluster drives them. */
  datatype Sys = Sys(logs: Logs, replicas: int)

  datatype Act =
    | Tick(keys: seq<string>, nows: seq<int>)
    | Look(key: string, now: int)
    | Clear(key: string, made: int, now: int)
    | Feed(key: string, made: int, now: int, delta: Counts)

  predicate WellFormed(a: Act) {
    a.Tick? ==> |a.keys| == |a.nows|
  }

  ghost function Acted(s: Sys, a: Act, b: int, d: int): Sys
    requires b > 0 && d > 0 && WellFormed(a)
  {
    match a
    case Tick(keys, nows) =>
      Sys(After(s.logs, keys, nows, Asked(s.logs, keys, nows, 0, b, d), d),
          Decision(s.logs, keys, nows, s.replicas, b, d))
    case Look(k, now) => s.(logs := Queried(s.logs, k, now, d))
    case Clear(k, made, now) => s.(logs := Applied(s.logs, k, made, Reset(now), d))
    case Feed(k, made, now, delta) => s.(logs := Applied(s.logs, k, made, Record(now, delta), d))
  }

  ghost function Replayed(s: Sys, acts: seq<Act>, b: int, d: int): Sys
    requires b > 0 && d > 0 && forall a <- acts :: WellFormed(a)
    decreases |acts|
  {
    if acts == [] then s else Replayed(Acted(s, acts[0], b, d), acts[1..], b, d)
  }

  function Ticks(acts: seq<Act>): nat {
    if acts == [] then 0 else (if acts[0].Tick? then 1 else 0) + Ticks(acts[1..])
  }

  // ---------------------------------------------------------------- range

  /** From 1..6 a tick moves by at most one and stays in 1..6; from the wider range of manual
      scaling it stays in 1..10. */
  lemma TickRange(current: int, known: bool, hot: bool, nominal: bool)
    ensures var n := Decided(current, known, hot, nominal);
            && (1 <= current <= MAX_REPLICAS ==> 1 <= n <= MAX_REPLICAS && -1 <= n - current <= 1)
            && (1 <= current <= 10 ==> 1 <= n <= 10)
            && (current > MAX_REPLICAS && known && hot ==> n == MAX_REPLICAS)
  {
  }

  /** Every action keeps the replica count in range, whatever the telemetry. */
  lemma {:induction false} RunRange(s: Sys, acts: seq<Act>, b: int, d: int)
    requires b > 0 && d > 0 && forall a <- acts :: WellFormed(a)
    ensures 1 <= s.replicas <= MAX_REPLICAS ==> 1 <= Replayed(s, acts, b, d).replicas <= MAX_REPLICAS
    ensures 1 <= s.replicas <= 10 ==> 1 <= Replayed(s, acts, b, d).replicas <= 10
    decreases |acts|
  {
    if acts != [] {
      RunRange(Acted(s, acts[0], b, d), acts[1..], b, d);
    }
  }

  // ---------------------------------------------------------------- heat

  /** Every tick of the run meets a hot workload. */
  ghost predicate AlwaysHot(s: Sys, acts: seq<Act>, b: int, d: int)
    requires b > 0 && d > 0 && forall a <- acts :: WellFormed(a)
    decreases |acts|
  {
    acts != [] ==>
      assert WellFormed(acts[0]);
      && (acts[0].Tick? ==> AnyHot(s.logs, acts[0].keys, acts[0].nows, b, d))
      && AlwaysHot(Acted(s, acts[0], b, d), acts[1..], b, d)
  }

  /** Under persistent heat k > 0 ticks lead to min(6, n+k): to 6 within five ticks from any
      start the scale endpoint accepts. */
  lemma {:induction false} HeatReachesMaximum(s: Sys, acts: seq<Act>, b: int, d: int)
    requires b > 0 && d > 0 && (forall a <- acts :: WellFormed(a)) && AlwaysHot(s, acts, b, d)
    ensures Ticks(acts) == 0 ==> Replayed(s, acts, b, d).replicas == s.replicas
    ensures Ticks(acts) > 0 ==>
              Replayed(s, acts, b, d).replicas
              == if s.replicas + Ticks(acts) < MAX_REPLICAS then s.replicas + Ticks(acts) else MAX_REPLICAS
    ensures 1 <= s.replicas <= 10 && Ticks(acts) >= 5 ==> Replayed(s, acts, b, d).replicas == 6
    decreases |acts|
  {
    if acts != [] {
      HeatReachesMaximum(Acted(s, acts[0], b, d), acts[1..], b, d);
    }
  }

  // ---------------------------------------------------------------- drain

  /** No event of the store is later than `t`. */
  ghost predicate Settled(logs: Logs, t: int, d: int)
    requires d > 0
  {
    forall k <- logs :: SettledLog(logs[k], t, d)
  }

  ghost predicate SettledLog(w: Log, t: int, d: int)
    requires d > 0
  {
    Bracketed(w, d) && Timely(w) && forall e <- w.entries :: e.at <= t
  }

  /** After `t` plus the longest an event can stay. */
  predicate Late(now: int, t: int, b: int, d: int) {
    now - t > (2 * b - 1) * d - b
  }

  /** Nothing is recorded, and every tick has a workload to look at and only late queries. */
  predicate Idle(a: Act, t: int, b: int, d: int) {
    && WellFormed(a) && !a.Feed?
    && (a.Tick? ==> |a.keys| > 0 && forall i :: 0 <= i < |a.nows| ==> Late(a.nows[i], t, b, d))
  }

  lemma QueriedSettled(logs: Logs, k: string, now: int, t: int, d: int)
    requires d > 0 && Settled(logs, t, d)
    ensures Settled(Queried(logs, k, now, d), t, d)
  {
    if k in logs {
      assert SettledLog(logs[k], t, d);
      RotatedBracketed(Lazy, logs[k], now, d);
    }
  }

  lemma {:induction false} AfterSettled(logs: Logs, keys: seq<string>, nows: seq<int>, m: int, t: int, d: int)
    requires d > 0 && 0 <= m <= |keys| == |nows| && Settled(logs, t, d)
    ensures Settled(After(logs, keys, nows, m, d), t, d)
  {
    if m > 0 {
      AfterSettled(logs, keys, nows, m - 1, t, d);
      QueriedSettled(After(logs, keys, nows, m - 1, d), keys[m - 1], nows[m - 1], t, d);
    }
  }

  lemma ZeroIsNominal(b: int, d: int)
    requires b > 0 && d > 0
    ensures Nominal(View(Zero(), b, d)) && !Hot(View(Zero(), b, d))
  {
    assert b as real * (d as real / 1e9) != 0.0;
  }

  lemma LateQueryIsNominal(logs: Logs, keys: seq<string>, nows: seq<int>, i: int, t: int, b: int, d: int)
    requires b > 0 && d > 0 && 0 <= i < |keys| == |nows| && Settled(logs, t, d) && Late(nows[i], t, b, d)
    ensures Nominal(Seen(logs, keys, nows, i, b, d)) && !Hot(Seen(logs, keys, nows, i, b, d))
  {
    AfterSettled(logs, keys, nows, i, t, d);
    var w := After(logs, keys, nows, i, d);
    if keys[i] in w {
      assert SettledLog(w[keys[i]], t, d);
      DrainedWindow(Lazy, w[keys[i]], t, nows[i], b, d);
    }
    ZeroIsNominal(b, d);
  }

  lemma IdleStep(s: Sys, a: Act, t: int, b: int, d: int)
    requires b > 0 && d > 0 && Settled(s.logs, t, d) && Idle(a, t, b, d)
    ensures Settled(Acted(s, a, b, d).logs, t, d)
    ensures Acted(s, a, b, d).replicas == if a.Tick? && s.replicas > 1 then s.replicas - 1 else s.replicas
  {
    match a
    case Tick(keys, nows) =>
      AfterSettled(s.logs, keys, nows, Asked(s.logs, keys, nows, 0, b, d), t, d);
      forall i | 0 <= i < |keys|
        ensures Nominal(Seen(s.logs, keys, nows, i, b, d)) && !Hot(Seen(s.logs, keys, nows, i, b, d))
      {
        LateQueryIsNominal(s.logs, keys, nows, i, t, b, d);
      }
    case Look(k, now) =>
      QueriedSettled(s.logs, k, now, t, d);
    case Clear(k, made, now) =>
      assert forall l <- s.logs :: SettledLog(s.logs[l], t, d);
      assert SettledLog(Step(Lazy, Created(s.logs, k, made)[k], Reset(now), d), t, d);
  }

  /** With no event after `t`, k ticks that run late enough leave max(1, n - k) replicas, whatever
      else queries, resets or creates profiles in between. */
  lemma {:induction false} DrainToOne(s: Sys, acts: seq<Act>, t: int, b: int, d: int)
    requires b > 0 && d > 0 && Settled(s.logs, t, d) && s.replicas >= 1
    requires forall a <- acts :: WellFormed(a) && Idle(a, t, b, d)
    ensures Replayed(s, acts, b, d).replicas == if s.replicas - Ticks(acts) > 1 then s.replicas - Ticks(acts) else 1
    decreases |acts|
  {
    if acts != [] {
      IdleStep(s, acts[0], t, b, d);
      DrainToOne(Acted(s, acts[0], b, d), acts[1..], t, b, d);
    }
  }

  /** A log as runs forward in time leave it by `t`. */
  ghost predicate CurrentLog(w: Log, t: int, d: int)
    requires d > 0
  {
    SettledLog(w, t, d) && w.last <= t
  }

  ghost predicate Current(logs: Logs, t: int, d: int)
    requires d > 0
  {
    forall k <- logs :: CurrentLog(logs[k], t, d)
  }

  predicate Rising(ts: seq<int>, lo: int) {
    && (forall i :: 0 <= i < |ts| ==> lo <= ts[i])
    && (forall i, j :: 0 <= i < j < |ts| ==> ts[i] <= ts[j])
  }

  /** The clock readings of an action, in order. */
  function Times(a: Act): seq<int> {
    match a
    case Tick(_, nows) => nows
    case Look(_, now) => [now]
    case Clear(_, made, now) => [made, now]
    case Feed(_, made, now, _) => [made, now]
  }

  function LastTime(ts: seq<int>, lo: int): int {
    if ts == [] then lo else ts[|ts| - 1]
  }

  /** The clock runs forward from `lo` to `hi` over all actions and all queries within a tick. */
  predicate InOrder(acts: seq<Act>, lo: int, hi: int) {
    if acts == [] then lo <= hi
    else Rising(Times(acts[0]), lo) && InOrder(acts[1..], LastTime(Times(acts[0]), lo), hi)
  }

  lemma StepCurrent(w: Log, c: Call, t: int, d: int)
    requires d > 0 && CurrentLog(w, t, d) && t <= c.now
    ensures CurrentLog(Step(Lazy, w, c, d), c.now, d)
  {
    StepBracketed(Lazy, w, c, d);
  }

  lemma CurrentLater(logs: Logs, t: int, later: int, d: int)
    requires d > 0 && Current(logs, t, d) && t <= later
    ensures Current(logs, later, d)
  {
    forall k | k in logs ensures CurrentLog(logs[k], later, d) {
      assert CurrentLog(logs[k], t, d);
    }
  }

  lemma PutCurrent(logs: Logs, k: string, w: Log, t: int, now: int, d: int)
    requires d > 0 && Current(logs, t, d) && t <= now && CurrentLog(w, now, d)
    ensures Current(logs[k := w], now, d)
  {
    hide CurrentLog;
    CurrentLater(logs, t, now, d);
  }

  lemma QueriedIs(logs: Logs, k: string, now: int, d: int)
    requires d > 0
    ensures Queried(logs, k, now, d) == if k in logs then logs[k := Step(Lazy, logs[k], Query(now), d)] else logs
  {
  }

  lemma CreatedCurrent(logs: Logs, k: string, t: int, now: int, d: int)
    requires d > 0 && Current(logs, t, d) && t <= now
    ensures Current(Created(logs, k, now), now, d) && CurrentLog(Created(logs, k, now)[k], now, d)
  {
    CurrentLater(logs, t, now, d);
    assert CurrentLog(Log([], 0, now), now, d);
    PutCurrent(logs, k, Log([], 0, now), t, now, d);
  }

  lemma {:induction false} AfterCurrent(logs: Logs, keys: seq<string>, nows: seq<int>, m: int, t: int, d: int)
    requires d > 0 && 0 <= m <= |keys| == |nows| && Current(logs, t, d) && Rising(nows, t)
    ensures Current(After(logs, keys, nows, m, d), if m == 0 then t else nows[m - 1], d)
  {
    if m > 0 {
      hide Step, CurrentLog;
      var k, now := keys[m - 1], nows[m - 1];
      var w := After(logs, keys, nows, m - 1, d);
      AfterCurrent(logs, keys, nows, m - 1, t, d);
      var earlier := if m == 1 then t else nows[m - 2];
      if k in w {
        StepCurrent(w[k], Query(now), earlier, d);
        PutCurrent(w, k, Step(Lazy, w[k], Query(now), d), earlier, now, d);
        QueriedIs(w, k, now, d);
      } else {
        CurrentLater(w, earlier, now, d);
      }
    }
  }

  lemma ActCurrent(s: Sys, a: Act, t: int, b: int, d: int)
    requires b > 0 && d > 0 && WellFormed(a) && Current(s.logs, t, d) && Rising(Times(a), t)
    ensures Current(Acted(s, a, b, d).logs, LastTime(Times(a), t), d) && t <= LastTime(Times(a), t)
  {
    hide Current, CurrentLog, Step, After, Asked, Decision, Applied, Queried;
    assert a.Look? ==> Times(a)[0] == a.now;
    assert a.Clear? || a.Feed? ==> Times(a)[0] == a.made && Times(a)[1] == a.now;
    match a
    case Tick(keys, nows) =>
      var m := Asked(s.logs, keys, nows, 0, b, d);
      AfterCurrent(s.logs, keys, nows, m, t, d);
      CurrentLater(After(s.logs, keys, nows, m, d), if m == 0 then t else nows[m - 1], LastTime(nows, t), d);
    case Look(k, now) =>
      QueriedIs(s.logs, k, now, d);
      if k in s.logs {
        FoundCurrent(s.logs, k, t, d);
        StepCurrent(s.logs[k], Query(now), t, d);
        PutCurrent(s.logs, k, Step(Lazy, s.logs[k], Query(now), d), t, now, d);
      } else {
        CurrentLater(s.logs, t, now, d);
      }
    case Clear(k, made, now) => AppliedCurrent(s.logs, k, made, Reset(now), t, d);
    case Feed(k, made, now, delta) => AppliedCurrent(s.logs, k, made, Record(now, delta), t, d);
  }

  lemma FoundCurrent(logs: Logs, k: string, t: int, d: int)
    requires d > 0 && Current(logs, t, d) && k in logs
    ensures CurrentLog(logs[k], t, d)
  {
  }

  lemma AppliedCurrent(logs: Logs, k: string, made: int, c: Call, t: int, d: int)
    requires d > 0 && Current(logs, t, d) && t <= made <= c.now
    ensures Current(Applied(logs, k, made, c, d), c.now, d)
  {
    hide Current, CurrentLog, Step;
    var w := Created(logs, k, made);
    CreatedCurrent(logs, k, t, made, d);
    StepCurrent(w[k], c, made, d);
    PutCurrent(w, k, Step(Lazy, w[k], c, d), made, c.now, d);
  }

  lemma {:induction false} RunCurrent(s: Sys, acts: seq<Act>, lo: int, hi: int, b: int, d: int)
    requires b > 0 && d > 0 && (forall a <- acts :: WellFormed(a)) && Current(s.logs, lo, d) && InOrder(acts, lo, hi)
    ensures Current(Replayed(s, acts, b, d).logs, hi, d)
    decreases |acts|
  {
    hide Current, Rising, LastTime, Times, Acted;
    if acts == [] {
      CurrentLater(s.logs, lo, hi, d);
    } else {
      ActCurrent(s, acts[0], lo, b, d);
      RunCurrent(Acted(s, acts[0], b, d), acts[1..], LastTime(Times(acts[0]), lo), hi, b, d);
    }
  }

  lemma CurrentIsSettled(logs: Logs, t: int, d: int)
    requires d > 0 && Current(logs, t, d)
    ensures Settled(logs, t, d)
  {
    hide SettledLog;
    forall k | k in logs ensures SettledLog(logs[k], t, d) {
      assert CurrentLog(logs[k], t, d);
    }
  }

  /** So from an empty store, whatever was recorded, queried, reset and decided up to `t`, silence
      drains the replicas to one. */
  lemma SilenceDrains(n: int, before: seq<Act>, after: seq<Act>, lo: int, t: int, b: int, d: int)
    requires b > 0 && d > 0 && 1 <= n <= 10
    requires (forall a <- before :: WellFormed(a)) && InOrder(before, lo, t)
    requires forall a <- after :: WellFormed(a) && Idle(a, t, b, d)
    ensures var s := Replayed(Sys(map[], n), before, b, d);
            && 1 <= s.replicas <= 10
            && Replayed(s, after, b, d).replicas == if s.replicas - Ticks(after) > 1 then s.replicas - Ticks(after) else 1
  {
    var s := Replayed(Sys(map[], n), before, b, d);
    RunRange(Sys(map[], n), before, b, d);
    RunCurrent(Sys(map[], n), before, lo, t, b, d);
    CurrentIsSettled(s.logs, t, d);
    DrainToOne(s, after, t, b, d);
  }

  // ---------------------------------------------------------------- the browser's rule

  /** The browser clamps to 1..6 whatever it decides. */
  function BrowserDecided(current: int, hot: bool, nominal: bool): int {
    var n := current + (if hot then 1 else 0) - (if nominal && current > 1 then 1 else 0);
    if n < 1 then 1 else if n > MAX_REPLICAS then MAX_REPLICAS else n
  }

  /** From a count of at least one, the two rules agree exactly when it is at most six, something
      is hot, or the clamp happens to be the step down. */
  lemma BrowserAgreesIff(current: int, known: bool, hot: bool, nominal: bool)
    requires current >= 1 && !(hot && nominal) && (hot || nominal ==> known)
    ensures BrowserDecided(current, hot, nominal) == Decided(current, known, hot, nominal)
            <==> current <= MAX_REPLICAS || hot || (nominal && current == MAX_REPLICAS + 1)
  {
  }
}
