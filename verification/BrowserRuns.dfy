/** Whole runs of the in-browser backend: its replica count, and how silence drains it. */
module BrowserRuns {
  import opened Arithmetic
  import opened History
  import opened Comparison
  import opened BrowserWindow
  import opened ProfileStore
  import opened Autoscaling

  /** The length of the window, in milliseconds. */
  const WINDOW := 12_000

  function New(start: int): Backend {
    Backend(map[], 0, start, 2)
  }

  ghost function CalledAll(s: Backend, calls: seq<BackendCall>): Backend
    decreases |calls|
  {
    if calls == [] then s else CalledAll(Called(s, calls[0]), calls[1..])
  }

  function TicksIn(calls: seq<BackendCall>): nat {
    if calls == [] then 0 else (if calls[0].TickAt? then 1 else 0) + TicksIn(calls[1..])
  }

  // ---------------------------------------------------------------- time and events

  ghost predicate KeyGridded(s: Backend, k: string, start: int, t: int)
    requires k in s.histories
  {
    && OnGrid(Log(s.histories[k], s.rotations, s.last), start, BUCKET_LENGTH)
    && forall e <- s.histories[k] :: e.at <= t
  }

  /** The clock is on a bucket boundary, every tag is the epoch of its event, and no event is later
      than `t`. */
  ghost predicate Gridded(s: Backend, start: int, t: int) {
    && s.last == start + BUCKET_LENGTH * s.rotations
    && forall k <- s.histories :: KeyGridded(s, k, start, t)
  }

  /** Recording needs a clock that runs forward. */
  predicate Forward(calls: seq<BackendCall>, lo: int, hi: int) {
    if calls == [] then lo <= hi
    else if calls[0].ResetOf? then Forward(calls[1..], lo, hi)
    else lo <= calls[0].now && Forward(calls[1..], calls[0].now, hi)
  }

  lemma TurnedGridded(s: Backend, now: int, start: int, t: int)
    requires Gridded(s, start, t)
    ensures Gridded(Turned(s, now), start, t)
    ensures Epoch(start, now, BUCKET_LENGTH) <= Turned(s, now).rotations
    ensures s.last <= now ==> Turned(s, now).last <= now && Turned(s, now).rotations == Epoch(start, now, BUCKET_LENGTH)
  {
    var w, u := Log([], s.rotations, s.last), Turned(s, now);
    if s.last <= now {
      RotatedOnGrid(w, now, start, BUCKET_LENGTH);
    } else {
      assert u == s;
      EpochIs(start, s.last, BUCKET_LENGTH, s.rotations);
    }
    forall k | k in u.histories ensures KeyGridded(u, k, start, t) {
      assert KeyGridded(s, k, start, t);
    }
  }

  lemma CalledGridded(s: Backend, c: BackendCall, start: int, t: int)
    requires Gridded(s, start, t) && s.last <= t && (!c.ResetOf? ==> t <= c.now)
    ensures var later := if c.ResetOf? then t else c.now;
            Gridded(Called(s, c), start, later) && Called(s, c).last <= later
  {
    if c.ResetOf? {
      var u := Called(s, c);
      forall k | k in u.histories ensures KeyGridded(u, k, start, t) {
        assert KeyGridded(s, k, start, t);
      }
    } else {
      TurnedGridded(s, c.now, start, t);
      var v, u := Turned(s, c.now), Called(s, c);
      hide Turned, OnGrid, SomeHot, AllCalm;
      forall k | k in u.histories ensures KeyGridded(u, k, start, c.now) {
        if k in v.histories {
          assert KeyGridded(v, k, start, t);
        }
        StepKey(v, u, c, k, start, t);
      }
    }
  }

  lemma StepKey(v: Backend, u: Backend, c: BackendCall, k: string, start: int, t: int)
    requires !c.ResetOf? && t <= c.now && v.last == start + BUCKET_LENGTH * v.rotations
    requires v.rotations == Epoch(start, c.now, BUCKET_LENGTH)
    requires u.rotations == v.rotations && u.last == v.last && k in u.histories
    requires k in v.histories ==> KeyGridded(v, k, start, t)
    requires u.histories[k]
             == (if k in v.histories then v.histories[k] else [])
                + (if c.RecordAt? && c.key == k then [Entry(c.now, v.last, v.rotations, c.delta)] else [])
    ensures KeyGridded(u, k, start, c.now)
  {
  }

  /** The window in milliseconds: an event is sure to be counted for eleven seconds, and may be for just
      less than twelve. */
  lemma BrowserRetention(start: int, g: nat)
    ensures (forall t | start <= t :: Crossed(start, t, g, BUCKET_LENGTH) < BUCKETS) <==> g <= 11_000
    ensures (exists t :: start <= t && Crossed(start, t, g, BUCKET_LENGTH) < BUCKETS) <==> g < 12_000
  {
    AlignedRetentionIff(start, BUCKETS, BUCKET_LENGTH, g);
  }

  // ---------------------------------------------------------------- range

  lemma CalledRange(s: Backend, c: BackendCall)
    requires 1 <= s.replicas <= MAX_REPLICAS
    ensures 1 <= Called(s, c).replicas <= MAX_REPLICAS
  {
  }

  /** Over every run forward in time the invariant holds and the count stays in 1..6. */
  lemma {:induction false} RunGridded(s: Backend, calls: seq<BackendCall>, start: int, lo: int, hi: int)
    requires Gridded(s, start, lo) && s.last <= lo && Forward(calls, lo, hi) && 1 <= s.replicas <= MAX_REPLICAS
    ensures Gridded(CalledAll(s, calls), start, hi) && 1 <= CalledAll(s, calls).replicas <= MAX_REPLICAS
    decreases |calls|
  {
    if calls == [] {
      forall k | k in s.histories ensures KeyGridded(s, k, start, hi) {
        assert KeyGridded(s, k, start, lo);
      }
    } else {
      hide Called, Gridded;
      CalledGridded(s, calls[0], start, lo);
      CalledRange(s, calls[0]);
      RunGridded(Called(s, calls[0]), calls[1..], start, if calls[0].ResetOf? then lo else calls[0].now, hi);
    }
  }

  // ---------------------------------------------------------------- drain

  /** Nothing is recorded, and every tick comes a full window after `t` and has a workload to
      look at. */
  ghost predicate Silent(s: Backend, calls: seq<BackendCall>, t: int)
    decreases |calls|
  {
    calls != [] ==>
      && !calls[0].RecordAt?
      && (calls[0].TickAt? ==> s.histories != map[] && calls[0].now - t >= WINDOW)
      && Silent(Called(s, calls[0]), calls[1..], t)
  }

  lemma SilentTick(s: Backend, now: int, start: int, t: int)
    requires Gridded(s, start, t) && now - t >= WINDOW && s.histories != map[]
    ensures var u := Turned(s, now); !SomeHot(u.histories, u.rotations) && AllCalm(u.histories, u.rotations)
  {
    TurnedGridded(s, now, start, t);
    var u := Turned(s, now);
    hide Turned;
    forall k | k in u.histories
      ensures Tally(u.histories[k], u.rotations - BUCKETS + 1, u.rotations + 1) == Zero()
    {
      assert KeyGridded(u, k, start, t);
      forall e | e in u.histories[k] ensures !(u.rotations - BUCKETS + 1 <= e.tag < u.rotations + 1) {
        EpochSpan(start, e.at, now, BUCKET_LENGTH, BUCKETS);
      }
      TallyNone(u.histories[k], u.rotations - BUCKETS + 1, u.rotations + 1);
    }
    forall k ensures BrowserNominal(BrowserProfile(k, Zero())) && !BrowserHot(BrowserProfile(k, Zero())) {
      BrowserVerdictInCounts(k, Zero());
    }
    hide BrowserProfile, BrowserHot, BrowserNominal;
  }

  lemma SilentCall(s: Backend, c: BackendCall, start: int, t: int)
    requires Gridded(s, start, t) && 1 <= s.replicas <= MAX_REPLICAS && !c.RecordAt?
    requires c.TickAt? ==> s.histories != map[] && c.now - t >= WINDOW
    ensures Gridded(Called(s, c), start, t)
    ensures Called(s, c).replicas == if c.TickAt? && s.replicas > 1 then s.replicas - 1 else s.replicas
  {
    var u := Called(s, c);
    if !c.ResetOf? {
      TurnedGridded(s, c.now, start, t);
    }
    if c.TickAt? {
      SilentTick(s, c.now, start, t);
    }
    hide SomeHot, AllCalm, OnGrid;
    forall k | k in u.histories ensures KeyGridded(u, k, start, t) {
      assert KeyGridded(if c.ResetOf? then s else Turned(s, c.now), k, start, t);
    }
  }

  /** With no event after `t`, k ticks at least a window later leave max(1, n - k) replicas, whatever
      is shown or reset in between and whatever the clock does. */
  lemma {:induction false} BrowserDrains(s: Backend, calls: seq<BackendCall>, start: int, t: int)
    requires Gridded(s, start, t) && 1 <= s.replicas <= MAX_REPLICAS && Silent(s, calls, t)
    ensures CalledAll(s, calls).replicas == if s.replicas - TicksIn(calls) > 1 then s.replicas - TicksIn(calls) else 1
    decreases |calls|
  {
    if calls != [] {
      hide Gridded, Called;
      SilentCall(s, calls[0], start, t);
      BrowserDrains(Called(s, calls[0]), calls[1..], start, t);
    }
  }

  /** So from a new backend, whatever was recorded, shown, reset and decided up to `t`. */
  lemma BrowserSilenceDrains(start: int, before: seq<BackendCall>, after: seq<BackendCall>, t: int)
    requires Forward(before, start, t) && Silent(CalledAll(New(start), before), after, t)
    ensures var s := CalledAll(New(start), before);
            && 1 <= s.replicas <= MAX_REPLICAS
            && CalledAll(s, after).replicas == if s.replicas - TicksIn(after) > 1 then s.replicas - TicksIn(after) else 1
  {
    RunGridded(New(start), before, start, start, t);
    BrowserDrains(CalledAll(New(start), before), after, start, t);
  }

  // ---------------------------------------------------------------- the two rules

  /** What a tick can find. */
  datatype Verdict = Verdict(known: bool, hot: bool, nominal: bool)

  predicate Possible(v: Verdict) {
    !(v.hot && v.nominal) && (v.hot || v.nominal ==> v.known)
  }

  predicate AllPossible(vs: seq<Verdict>) {
    forall v <- vs :: Possible(v)
  }

  function DecidedAll(n: int, vs: seq<Verdict>): int
    decreases |vs|
  {
    if vs == [] then n else DecidedAll(Decided(n, vs[0].known, vs[0].hot, vs[0].nominal), vs[1..])
  }

  function BrowserDecidedAll(n: int, vs: seq<Verdict>): int
    decreases |vs|
  {
    if vs == [] then n else BrowserDecidedAll(BrowserDecided(n, vs[0].hot, vs[0].nominal), vs[1..])
  }

  lemma {:induction false} SameCounts(n: int, vs: seq<Verdict>)
    requires 1 <= n <= MAX_REPLICAS && AllPossible(vs)
    ensures DecidedAll(n, vs) == BrowserDecidedAll(n, vs) && 1 <= DecidedAll(n, vs) <= MAX_REPLICAS
    decreases |vs|
  {
    if vs != [] {
      var v := vs[0];
      assert v in vs;
      BrowserAgreesIff(n, v.known, v.hot, v.nominal);
      TickRange(n, v.known, v.hot, v.nominal);
      SameCounts(Decided(n, v.known, v.hot, v.nominal), vs[1..]);
    }
  }

  /** What a tick of the aggregator finds. */
  ghost function Finding(logs: Logs, keys: seq<string>, nows: seq<int>, b: int, d: int): Verdict
    requires b > 0 && d > 0 && |keys| == |nows|
  {
    Verdict(|keys| > 0, AnyHot(logs, keys, nows, b, d), |keys| > 0 && AllSeenNominal(logs, keys, nows, b, d))
  }

  lemma FindingPossible(logs: Logs, keys: seq<string>, nows: seq<int>, current: int, b: int, d: int)
    requires b > 0 && d > 0 && |keys| == |nows|
    ensures var v := Finding(logs, keys, nows, b, d);
            Possible(v) && Decision(logs, keys, nows, current, b, d) == Decided(current, v.known, v.hot, v.nominal)
  {
    hide Seen, Hot, Nominal;
    forall i | 0 <= i < |keys|
      ensures !(Hot(Seen(logs, keys, nows, i, b, d)) && Nominal(Seen(logs, keys, nows, i, b, d)))
    {
      HotIsNotNominal(Seen(logs, keys, nows, i, b, d));
    }
  }

  /** What the ticks of a run of the aggregator find. */
  ghost function Findings(s: Sys, acts: seq<Act>, b: int, d: int): seq<Verdict>
    requires b > 0 && d > 0 && forall a <- acts :: WellFormed(a)
    decreases |acts|
  {
    if acts == [] then []
    else
      assert WellFormed(acts[0]);
      (if acts[0].Tick? then [Finding(s.logs, acts[0].keys, acts[0].nows, b, d)] else [])
      + Findings(Acted(s, acts[0], b, d), acts[1..], b, d)
  }

  lemma {:induction false} RunFollowsFindings(s: Sys, acts: seq<Act>, b: int, d: int)
    requires b > 0 && d > 0 && forall a <- acts :: WellFormed(a)
    ensures AllPossible(Findings(s, acts, b, d))
    ensures Replayed(s, acts, b, d).replicas == DecidedAll(s.replicas, Findings(s, acts, b, d))
    decreases |acts|
  {
    if acts != [] {
      var a, t := acts[0], Acted(s, acts[0], b, d);
      RunFollowsFindings(t, acts[1..], b, d);
      if a.Tick? {
        FindingPossible(s.logs, a.keys, a.nows, s.replicas, b, d);
        var later := Findings(t, acts[1..], b, d);
        assert ([Finding(s.logs, a.keys, a.nows, b, d)] + later)[1..] == later;
      } else {
        assert [] + Findings(t, acts[1..], b, d) == Findings(t, acts[1..], b, d);
      }
    }
  }

  /** What a tick of the browser finds. */
  ghost function BrowserFinding(s: Backend, now: int): Verdict {
    var t := Turned(s, now);
    Verdict(t.histories != map[], SomeHot(t.histories, t.rotations), AllCalm(t.histories, t.rotations))
  }

  ghost function BrowserFindings(s: Backend, calls: seq<BackendCall>): seq<Verdict>
    decreases |calls|
  {
    if calls == [] then []
    else
      (if calls[0].TickAt? then [BrowserFinding(s, calls[0].now)] else []) + BrowserFindings(Called(s, calls[0]), calls[1..])
  }

  lemma {:induction false} BrowserFollowsFindings(s: Backend, calls: seq<BackendCall>)
    ensures CalledAll(s, calls).replicas == BrowserDecidedAll(s.replicas, BrowserFindings(s, calls))
    decreases |calls|
  {
    if calls != [] {
      var t := Called(s, calls[0]);
      BrowserFollowsFindings(t, calls[1..]);
      hide SomeHot, AllCalm;
      if calls[0].TickAt? {
        assert ([BrowserFinding(s, calls[0].now)] + BrowserFindings(t, calls[1..]))[1..] == BrowserFindings(t, calls[1..]);
      } else {
        assert [] + BrowserFindings(t, calls[1..]) == BrowserFindings(t, calls[1..]);
      }
    }
  }

  /** A run of the aggregator and one of the browser that start with one count in 1..6 and whose ticks
      find the same end with one count. */
  lemma SameFindingsSameCount(s: Sys, acts: seq<Act>, b: int, d: int, t: Backend, calls: seq<BackendCall>)
    requires b > 0 && d > 0 && (forall a <- acts :: WellFormed(a)) && 1 <= s.replicas == t.replicas <= MAX_REPLICAS
    requires Findings(s, acts, b, d) == BrowserFindings(t, calls)
    ensures Replayed(s, acts, b, d).replicas == CalledAll(t, calls).replicas
  {
    RunFollowsFindings(s, acts, b, d);
    BrowserFollowsFindings(t, calls);
    SameCounts(s.replicas, Findings(s, acts, b, d));
  }

  /** From a positive count the two rules lead to the same count on every sequence of verdicts
      exactly when it is at most six. */
  lemma RulesAgreeIff(n: int)
    requires n >= 1
    ensures (forall vs | AllPossible(vs) :: DecidedAll(n, vs) == BrowserDecidedAll(n, vs))
            <==> n <= MAX_REPLICAS
  {
    if n <= MAX_REPLICAS {
      forall vs | AllPossible(vs) ensures DecidedAll(n, vs) == BrowserDecidedAll(n, vs) {
        SameCounts(n, vs);
      }
    } else {
      var vs := [Verdict(true, false, false)];
      assert vs[1..] == [];
      assert AllPossible(vs);
      assert DecidedAll(n, []) == n && BrowserDecidedAll(MAX_REPLICAS, []) == MAX_REPLICAS;
      assert DecidedAll(n, vs) == DecidedAll(n, []) && BrowserDecidedAll(n, vs) == BrowserDecidedAll(MAX_REPLICAS, []);
    }
  }
}
