/** class LocalBackend of frontend/src/lib/cluster.ts: the in-browser stand-in for the profile
    store and the autoscaler.  One rotation clock serves all workloads and stays on bucket
    boundaries. */
module BrowserWindow {
  import opened History
  import opened SlidingWindow
  import opened Autoscaling

  const BUCKETS := 12

  /** Milliseconds. */
  const BUCKET_LENGTH := 1000

  const WINDOW_SECONDS := 12.0

  datatype WorkloadSpec = WorkloadSpec(
    key: string,
    cacheMisses: int,
    lockRatio: real,
    pageFaults: int,
    ctxSwitches: int)

  datatype Profile = Profile(
    key: string,
    cacheMissRate: real,
    lockRatio: real,
    pageFaultRate: real,
    ctxSwitchRate: real,
    samples: int,
    confidence: Confidence)

  /** JavaScript's Math.round: halves go up. */
  function RoundHalfUp(x: real): int {
    (x + 0.5).Floor
  }

  function RecordDelta(w: WorkloadSpec): Counts {
    var lockNs := RoundHalfUp(w.lockRatio * 1e9);
    Counts(w.cacheMisses + w.pageFaults + w.ctxSwitches + (if lockNs > 0 then 1 else 0),
           w.pageFaults, w.cacheMisses, lockNs, w.ctxSwitches)
  }

  /** The later history has one event more: the workload's counts of a second. */
  predicate Sampled(before: seq<Entry>, after: seq<Entry>, now: int, w: WorkloadSpec) {
    |after| == |before| + 1 &&
    var lockNs := after[|before|].delta.lockNs;
    && EndsWith(before, after, now, w.pageFaults, w.cacheMisses, w.ctxSwitches, lockNs)
    && -0.5 < lockNs as real - w.lockRatio * 1e9 <= 0.5
  }

  predicate IsSample(c: Counts, w: WorkloadSpec) {
    && c.faults == w.pageFaults && c.misses == w.cacheMisses && c.switches == w.ctxSwitches
    && -0.5 < c.lockNs as real - w.lockRatio * 1e9 <= 0.5
    && c.events == w.pageFaults + w.cacheMisses + w.ctxSwitches + if c.lockNs > 0 then 1 else 0
  }

  lemma DeltaIsSample(w: WorkloadSpec)
    ensures IsSample(RecordDelta(w), w)
  {
  }

  lemma SampleAdded(es: seq<Entry>, e: Entry, w: WorkloadSpec)
    requires IsSample(e.delta, w)
    ensures Sampled(es, es + [e], e.at, w)
  {
  }

  function BrowserProfile(key: string, c: Counts): Profile {
    Profile(key, c.misses as real / WINDOW_SECONDS, c.lockNs as real / (WINDOW_SECONDS * 1e9),
            c.faults as real / WINDOW_SECONDS, c.switches as real / WINDOW_SECONDS,
            c.events, ConfidenceOf(c.events))
  }

  predicate BrowserHot(p: Profile) {
    p.ctxSwitchRate > 100.0 || p.pageFaultRate > 5000.0 || p.cacheMissRate > 1000.0
  }

  predicate BrowserNominal(p: Profile) {
    p.ctxSwitchRate < 50.0 && p.pageFaultRate < 2000.0 && p.cacheMissRate < 500.0
  }

  /** What a profile says of the counters of its twelve seconds. */
  lemma BrowserProfileInCounts(key: string, c: Counts)
    ensures var p := BrowserProfile(key, c);
            && p.key == key && p.samples == c.events
            && p.cacheMissRate * 12.0 == c.misses as real && p.pageFaultRate * 12.0 == c.faults as real
            && p.ctxSwitchRate * 12.0 == c.switches as real && p.lockRatio * 12e9 == c.lockNs as real
            && (p.confidence == High <==> c.events > 1000)
            && (p.confidence == Medium <==> 100 <= c.events <= 1000)
            && (p.confidence == Low <==> 0 < c.events < 100)
            && (p.confidence == Unknown <==> c.events <= 0)
  {
  }

  /** The thresholds in terms of those counters. */
  lemma BrowserVerdictInCounts(key: string, c: Counts)
    ensures BrowserHot(BrowserProfile(key, c)) <==> c.switches > 1200 || c.faults > 60_000 || c.misses > 12_000
    ensures BrowserNominal(BrowserProfile(key, c)) <==> c.switches < 600 && c.faults < 24_000 && c.misses < 6000
  {
  }

  /** Lock time is the ratio's share of a second, to the nearest nanosecond, halves up. */
  lemma RoundedUp(x: real)
    ensures -0.5 < RoundHalfUp(x) as real - x <= 0.5
  {
  }

  /** The first signal of `p` over its threshold, by name. */
  predicate NamesSignal(why: Reason, p: Profile) {
    match why
    case HighSwitches(k) => k == p.key && p.ctxSwitchRate > 100.0
    case HighFaults(k) => k == p.key && p.pageFaultRate > 5000.0 && p.ctxSwitchRate <= 100.0
    case HighMisses(k) =>
      k == p.key && p.cacheMissRate > 1000.0 && p.ctxSwitchRate <= 100.0 && p.pageFaultRate <= 5000.0
    case _ => false
  }

  /** Element `j` of a workload's list holds the events of one rotation count. */
  ghost predicate ListHolds(bs: seq<Counts>, es: seq<Entry>, rot: int) {
    && |bs| == BUCKETS
    && TagsUpTo(es, rot)
    && forall j :: 0 <= j < BUCKETS ==> PlaceHolds(bs, es, rot, j)
  }

  ghost predicate PlaceHolds(bs: seq<Counts>, es: seq<Entry>, rot: int, j: int)
    requires 0 <= j < |bs|
  {
    bs[j] == Tally(es, rot - BUCKETS + 1 + j, rot - BUCKETS + 2 + j)
  }

  function Shifted(bs: seq<Counts>): seq<Counts>
    requires |bs| > 0
  {
    bs[1..] + [Zero()]
  }

  lemma ShiftHolds(bs: seq<Counts>, es: seq<Entry>, rot: int)
    requires ListHolds(bs, es, rot)
    ensures ListHolds(Shifted(bs), es, rot + 1)
  {
    var cs, later := Shifted(bs), rot + 1;
    forall j | 0 <= j < BUCKETS ensures PlaceHolds(cs, es, later, j) {
      if j + 1 < BUCKETS {
        assert PlaceHolds(bs, es, rot, j + 1) && cs[j] == bs[j + 1];
      } else {
        TallyNone(es, rot + 1, rot + 2);
      }
    }
  }

  lemma CapHolds(bs: seq<Counts>, es: seq<Entry>, rot: int, more: int)
    requires ListHolds(bs, es, rot + BUCKETS) && more >= BUCKETS && TagsUpTo(es, rot)
    ensures ListHolds(bs, es, rot + more)
  {
    var full, over := rot + BUCKETS, rot + more;
    hide Tally;
    forall j | 0 <= j < BUCKETS ensures PlaceHolds(bs, es, over, j) {
      assert PlaceHolds(bs, es, full, j);
      OldBand(es, rot, over - BUCKETS + 1 + j);
      OldBand(es, rot, full - BUCKETS + 1 + j);
    }
  }

  lemma OldBand(es: seq<Entry>, rot: int, lo: int)
    requires TagsUpTo(es, rot) && rot < lo
    ensures Tally(es, lo, lo + 1) == Zero()
  {
    TallyNone(es, lo, lo + 1);
  }

  lemma TagsAdded(es: seq<Entry>, e: Entry, rot: int)
    requires TagsUpTo(es, rot) && e.tag <= rot
    ensures TagsUpTo(es + [e], rot)
  {
  }

  function NewList(): seq<Counts> {
    seq(BUCKETS, _ => Zero())
  }

  lemma NewListHolds(rot: int)
    ensures ListHolds(NewList(), [], rot)
  {
  }

  lemma AddedHolds(bs: seq<Counts>, es: seq<Entry>, rot: int, e: Entry)
    requires ListHolds(bs, es, rot) && e.tag == rot
    ensures ListHolds(bs[BUCKETS - 1 := Plus(bs[BUCKETS - 1], e.delta)], es + [e], rot)
  {
    var cs := bs[BUCKETS - 1 := Plus(bs[BUCKETS - 1], e.delta)];
    hide Tally, Plus, Zero, TagsUpTo;
    TagsAdded(es, e, rot);
    forall j | 0 <= j < BUCKETS ensures PlaceHolds(cs, es + [e], rot, j) {
      assert PlaceHolds(bs, es, rot, j);
      TallySnoc(es, e, rot - BUCKETS + 1 + j, rot - BUCKETS + 2 + j);
      PlusZero(bs[j]);
    }
  }

  /** `s` is the sum of the first `j` elements. */
  ghost predicate Summed(s: Counts, es: seq<Entry>, rot: int, j: int) {
    s == Tally(es, rot - BUCKETS + 1, rot - BUCKETS + 1 + j)
  }

  lemma SumNone(es: seq<Entry>, rot: int)
    ensures Summed(Zero(), es, rot, 0)
  {
    EmptyRange(es, rot - BUCKETS + 1);
  }

  lemma SumNext(s: Counts, bs: seq<Counts>, es: seq<Entry>, rot: int, j: int)
    requires ListHolds(bs, es, rot) && 0 <= j < BUCKETS && Summed(s, es, rot, j)
    ensures Summed(Plus(s, bs[j]), es, rot, j + 1)
  {
    assert PlaceHolds(bs, es, rot, j);
    TallySplit(es, rot - BUCKETS + 1, rot - BUCKETS + 1 + j, rot - BUCKETS + 2 + j);
  }

  type Windows = map<string, seq<Counts>>
  type Histories = map<string, seq<Entry>>

  ghost predicate KeyHolds(ws: Windows, hs: Histories, k: string, rot: int) {
    k in ws && k in hs && ListHolds(ws[k], hs[k], rot)
  }

  /** The workloads of `todo` stand at `rot`, the others at `next`. */
  ghost predicate AllHold(ws: Windows, hs: Histories, todo: set<string>, rot: int, next: int) {
    && ws.Keys == hs.Keys
    && forall k :: k in ws ==> KeyHolds(ws, hs, k, if k in todo then rot else next)
  }

  lemma Held(ws: Windows, hs: Histories, todo: set<string>, rot: int, next: int, k: string)
    requires AllHold(ws, hs, todo, rot, next)
    ensures ws.Keys == hs.Keys
    ensures k in ws ==> ListHolds(ws[k], hs[k], if k in todo then rot else next) && |ws[k]| == BUCKETS
  {
    if k in ws {
      assert KeyHolds(ws, hs, k, if k in todo then rot else next);
    }
  }

  lemma SetHolds(ws: Windows, hs: Histories, todo: set<string>, rot: int, next: int, k: string, w: seq<Counts>, h: seq<Entry>)
    requires AllHold(ws, hs, todo, rot, next) && ListHolds(w, h, next)
    ensures AllHold(ws[k := w], hs[k := h], todo - {k}, rot, next)
  {
    var ws', hs', todo' := ws[k := w], hs[k := h], todo - {k};
    forall l | l in ws' ensures KeyHolds(ws', hs', l, if l in todo' then rot else next) {
      if l != k {
        assert KeyHolds(ws, hs, l, if l in todo then rot else next);
      }
    }
  }

  lemma PutHolds(ws: Windows, hs: Histories, rot: int, k: string, w: seq<Counts>, h: seq<Entry>)
    requires AllHold(ws, hs, {}, rot, rot) && ListHolds(w, h, rot)
    ensures AllHold(ws[k := w], hs[k := h], {}, rot, rot)
  {
    SetHolds(ws, hs, {}, rot, rot, k, w, h);
    assert {} - {k} == {};
  }

  lemma DropHolds(ws: Windows, hs: Histories, rot: int, k: string)
    requires AllHold(ws, hs, {}, rot, rot)
    ensures AllHold(ws - {k}, hs - {k}, {}, rot, rot)
  {
    forall l | l in ws - {k} ensures KeyHolds(ws - {k}, hs - {k}, l, rot) {
      assert KeyHolds(ws, hs, l, rot);
    }
  }

  lemma AllPending(ws: Windows, hs: Histories, rot: int, next: int)
    requires AllHold(ws, hs, {}, rot, rot)
    ensures AllHold(ws, hs, ws.Keys, rot, next)
  {
    forall k | k in ws ensures KeyHolds(ws, hs, k, if k in ws.Keys then rot else next) {
      assert KeyHolds(ws, hs, k, rot);
    }
  }

  lemma NonePending(ws: Windows, hs: Histories, rot: int, next: int)
    requires AllHold(ws, hs, {}, rot, next)
    ensures AllHold(ws, hs, {}, next, next)
  {
    forall k | k in ws ensures KeyHolds(ws, hs, k, next) {
      assert KeyHolds(ws, hs, k, if k in {} then rot else next);
    }
  }

  /** The profile of its workload, over the events fewer than BUCKETS rotations old. */
  ghost predicate Reports(p: Profile, hs: Histories, rot: int) {
    p.key in hs && p == BrowserProfile(p.key, Tally(hs[p.key], rot - BUCKETS + 1, rot + 1))
  }

  ghost predicate Mentions(ps: seq<Profile>, k: string) {
    exists i :: 0 <= i < |ps| && ps[i].key == k
  }

  /** One profile for each workload that is not in `todo`. */
  ghost predicate Reported(ps: seq<Profile>, hs: Histories, rot: int, todo: set<string>) {
    && todo <= hs.Keys && |ps| + |todo| == |hs|
    && (forall i :: 0 <= i < |ps| ==> Reports(ps[i], hs, rot))
    && (forall k :: k in hs ==> k in todo || Mentions(ps, k))
  }

  lemma ReportedNext(ps: seq<Profile>, hs: Histories, rot: int, todo: set<string>, k: string, s: Counts)
    requires Reported(ps, hs, rot, todo) && k in todo && Summed(s, hs[k], rot, BUCKETS)
    ensures Reported(ps + [BrowserProfile(k, s)], hs, rot, todo - {k})
  {
    var qs := ps + [BrowserProfile(k, s)];
    assert |todo - {k}| == |todo| - 1;
    assert qs[|ps|].key == k;
    forall l | l in hs ensures l in todo - {k} || Mentions(qs, l) {
      if Mentions(ps, l) {
        var i :| 0 <= i < |ps| && ps[i].key == l;
        assert qs[i].key == l;
      }
    }
  }

  ghost predicate SomeHot(hs: Histories, rot: int) {
    exists k :: k in hs && BrowserHot(BrowserProfile(k, Tally(hs[k], rot - BUCKETS + 1, rot + 1)))
  }

  ghost predicate AllCalm(hs: Histories, rot: int) {
    hs != map[] && forall k <- hs :: BrowserNominal(BrowserProfile(k, Tally(hs[k], rot - BUCKETS + 1, rot + 1)))
  }

  lemma Verdicts(ps: seq<Profile>, hs: Histories, rot: int)
    requires Reported(ps, hs, rot, {})
    ensures SomeHot(hs, rot) <==> exists i :: 0 <= i < |ps| && BrowserHot(ps[i])
    ensures AllCalm(hs, rot) <==> |ps| > 0 && forall i :: 0 <= i < |ps| ==> BrowserNominal(ps[i])
  {
    assert forall i :: 0 <= i < |ps| ==> Reports(ps[i], hs, rot);
    if SomeHot(hs, rot) {
      var k :| k in hs && BrowserHot(BrowserProfile(k, Tally(hs[k], rot - BUCKETS + 1, rot + 1)));
      assert Mentions(ps, k);
    }
    if forall i :: 0 <= i < |ps| ==> BrowserNominal(ps[i]) {
      forall k | k in hs ensures BrowserNominal(BrowserProfile(k, Tally(hs[k], rot - BUCKETS + 1, rot + 1))) {
        assert Mentions(ps, k);
      }
    }
  }

  lemma StepsAreDue(last: int, now: int)
    ensures var steps := (now - last) / BUCKET_LENGTH;
            Due(last, now, BUCKET_LENGTH) == if steps <= 0 then 0 else steps
  {
  }

  /** slice(-50) */
  function Newest(lines: seq<ScalingLog>): seq<ScalingLog> {
    if |lines| > LOG_CAPACITY then lines[|lines| - LOG_CAPACITY..] else lines
  }

  /** The reason of a tick that starts with `was` replicas: a hot workload and its signal, or that all
      are nominal and there is a replica to remove. */
  ghost predicate Blamed(why: Reason, hs: Histories, rot: int, was: int) {
    if SomeHot(hs, rot) then exists k :: k in hs && NamesSignal(why, BrowserProfile(k, Tally(hs[k], rot - BUCKETS + 1, rot + 1)))
    else if AllCalm(hs, rot) && was > 1 then why.AllNominal?
    else why.None?
  }

  lemma TickBlames(found: Reason, allNominal: bool, first: int, ps: seq<Profile>, hs: Histories, rot: int, was: int)
    requires Reported(ps, hs, rot, {})
    requires (!found.None? <==> SomeHot(hs, rot)) && (allNominal <==> AllCalm(hs, rot))
    requires !found.None? ==> !allNominal && 0 <= first < |ps| && NamesSignal(found, ps[first])
    ensures Blamed(if allNominal && was > 1 then AllNominal else found, hs, rot, was)
  {
    hide SomeHot, AllCalm;
    if !found.None? {
      assert Reports(ps[first], hs, rot);
    }
  }

  /** One line for a change, none without; the newest fifty stay. */
  ghost predicate LineAdded(was: int, before: seq<ScalingLog>, now: int, after: seq<ScalingLog>, why: Reason) {
    var all := before + [ScalingLog(if now > was then ScaleUp else ScaleDown, why, now)];
    after == if was == now then before else if |all| > 50 then all[|all| - 50..] else all
  }

  // ---------------------------------------------------------------- runs

  /** The backend as its histories show it. */
  datatype Backend = Backend(histories: Histories, rotations: int, last: int, replicas: int)

  datatype BackendCall =
    | TickAt(now: int)
    | ProfilesAt(now: int)
    | RecordAt(key: string, now: int, delta: Counts)
    | ResetOf(key: string)

  /** One clock for all workloads, kept on bucket boundaries. */
  function Turned(s: Backend, now: int): Backend {
    var v := Rotated(Aligned, Log([], s.rotations, s.last), now, BUCKET_LENGTH);
    s.(rotations := v.rotations, last := v.last)
  }

  ghost function Called(s: Backend, c: BackendCall): Backend {
    match c
    case TickAt(now) =>
      var t := Turned(s, now);
      t.(replicas := BrowserDecided(t.replicas, SomeHot(t.histories, t.rotations), AllCalm(t.histories, t.rotations)))
    case ProfilesAt(now) => Turned(s, now)
    case RecordAt(k, now, delta) =>
      var t := Turned(s, now);
      var es := if k in t.histories then t.histories[k] else [];
      t.(histories := t.histories[k := es + [Entry(now, t.last, t.rotations, delta)]])
    case ResetOf(k) => s.(histories := s.histories - {k})
  }

  class LocalBackend {
    var windows: map<string, seq<Counts>>
    var replicas: int
    var autoscale: bool
    var lines: seq<ScalingLog>
    var lastRotate: int

    /** Rotations so far, and every event of each workload since it was last removed. */
    ghost var rotations: int
    ghost var histories: map<string, seq<Entry>>

    ghost predicate Valid()
      reads this
    {
      AllHold(windows, histories, {}, rotations, rotations)
    }

    ghost function State(): Backend
      reads this
    {
      Backend(histories, rotations, lastRotate, replicas)
    }

    ghost function History(k: string): Log
      requires k in histories
      reads this
    {
      Log(histories[k], rotations, lastRotate)
    }

    constructor (now: int)
      ensures Valid() && windows == map[] && replicas == 2 && autoscale && lines == []
      ensures State() == Backend(map[], 0, now, 2)
    {
      windows, replicas, autoscale, lines, lastRotate := map[], 2, true, [], now;
      rotations, histories := 0, map[];
    }

    ghost predicate Moved(was: int, last: int, now: int)
      reads this
    {
      forall es: seq<Entry> ::
        Log(es, rotations, lastRotate) == Rotated(Aligned, Log(es, was, last), now, BUCKET_LENGTH)
    }

    /** Every workload's history rotates, on bucket boundaries. */
    method Rotate(now: int)
      requires Valid()
      modifies this`windows, this`lastRotate, this`rotations
      ensures Valid() && windows.Keys == old(windows).Keys
      ensures Moved(old(rotations), old(lastRotate), now) && State() == Turned(old(State()), now)
    {
      hide AllHold, ListHolds, Due;
      StepsAreDue(lastRotate, now);
      var steps := (now - lastRotate) / BUCKET_LENGTH;
      if steps <= 0 {
        return;
      }
      lastRotate := lastRotate + steps * BUCKET_LENGTH;
      var todo := windows.Keys;
      ghost var was, next := rotations, rotations + steps;
      AllPending(windows, histories, was, next);
      while todo != {}
        modifies this`windows
        invariant todo <= windows.Keys && windows.Keys == old(windows).Keys
        invariant AllHold(windows, histories, todo, was, next)
        decreases todo
      {
        var k :| k in todo;
        Held(windows, histories, todo, was, next, k);
        var w := ShiftedBy(windows[k], steps, histories[k], was);
        SetHolds(windows, histories, todo, was, next, k, w, histories[k]);
        assert histories[k := histories[k]] == histories;
        windows := windows[k := w];
        todo := todo - {k};
      }
      NonePending(windows, histories, was, next);
      rotations := next;
    }

    /** Shifts out one bucket a step, and no more steps than there are buckets. */
    method ShiftedBy(bs: seq<Counts>, steps: int, ghost es: seq<Entry>, ghost rot: int) returns (w: seq<Counts>)
      requires steps > 0 && ListHolds(bs, es, rot)
      ensures ListHolds(w, es, rot + steps)
    {
      w := bs;
      var i := 0;
      while i < (if steps < BUCKETS then steps else BUCKETS)
        invariant 0 <= i <= steps && i <= BUCKETS
        invariant ListHolds(w, es, rot + i)
      {
        ShiftHolds(w, es, rot + i);
        w := w[1..] + [Zero()];
        i := i + 1;
      }
      if steps > BUCKETS {
        CapHolds(w, es, rot, steps);
      }
    }

    method Record(w: WorkloadSpec, now: int)
      requires Valid()
      modifies this`windows, this`lastRotate, this`rotations, this`histories
      ensures Valid() && windows.Keys == old(windows).Keys + {w.key}
      ensures History(w.key)
              == Step(Aligned,
                      old(if w.key in histories then History(w.key) else Log([], rotations, lastRotate)),
                      Call.Record(now, RecordDelta(w)), BUCKET_LENGTH)
      ensures forall k <- old(windows) :: k != w.key ==>
                History(k) == Rotated(Aligned, old(History(k)), now, BUCKET_LENGTH)
      ensures State() == Called(old(State()), RecordAt(w.key, now, RecordDelta(w)))
      ensures Sampled(old(if w.key in histories then histories[w.key] else []), histories[w.key], now, w)
    {
      hide AllHold, ListHolds, Plus, Due, RecordDelta, SomeHot, AllCalm, Sampled;
      DeltaIsSample(w);
      Rotate(now);
      Open(w.key);
      Held(windows, histories, {}, rotations, rotations, w.key);
      var bs := windows[w.key];
      var b := Bumped(bs[BUCKETS - 1], w);
      ghost var e := Entry(now, lastRotate, rotations, RecordDelta(w));
      AddedHolds(bs, histories[w.key], rotations, e);
      ghost var es := histories[w.key] + [e];
      SampleAdded(histories[w.key], e, w);
      PutHolds(windows, histories, rotations, w.key, bs[BUCKETS - 1 := b], es);
      windows := windows[w.key := bs[BUCKETS - 1 := b]];
      histories := histories[w.key := es];
    }

    /** A workload seen for the first time starts with empty buckets. */
    method Open(k: string)
      requires Valid()
      modifies this`windows, this`histories
      ensures Valid() && windows.Keys == old(windows).Keys + {k}
      ensures histories == if k in old(histories) then old(histories) else old(histories)[k := []]
    {
      hide AllHold, ListHolds, NewList;
      Held(windows, histories, {}, rotations, rotations, k);
      if k !in windows {
        NewListHolds(rotations);
        PutHolds(windows, histories, rotations, k, NewList(), []);
        windows := windows[k := NewList()];
        histories := histories[k := []];
      }
    }

    method Bumped(c: Counts, w: WorkloadSpec) returns (b: Counts)
      ensures b == Plus(c, RecordDelta(w))
    {
      var lockNs := RoundHalfUp(w.lockRatio * 1e9);
      b := c.(misses := c.misses + w.cacheMisses, faults := c.faults + w.pageFaults,
              switches := c.switches + w.ctxSwitches, lockNs := c.lockNs + lockNs);
      b := b.(events := b.events + (w.cacheMisses + w.pageFaults + w.ctxSwitches + (if lockNs > 0 then 1 else 0)));
    }

    /** Removes the workload; the clock runs on. */
    method Reset(key: string)
      requires Valid()
      modifies this`windows, this`histories
      ensures Valid() && windows.Keys == old(windows).Keys - {key}
      ensures forall k <- windows :: History(k) == old(History(k))
      ensures State() == Called(old(State()), ResetOf(key))
    {
      DropHolds(windows, histories, rotations, key);
      windows := windows - {key};
      histories := histories - {key};
    }

    /** One profile a workload, of the events fewer than BUCKETS rotations old. */
    method Profiles(now: int) returns (ps: seq<Profile>)
      requires Valid()
      modifies this`windows, this`lastRotate, this`rotations
      ensures Valid() && windows.Keys == old(windows).Keys
      ensures forall k <- windows :: History(k) == Rotated(Aligned, old(History(k)), now, BUCKET_LENGTH)
      ensures State() == Called(old(State()), ProfilesAt(now)) && Reported(ps, histories, rotations, {})
    {
      hide AllHold, ListHolds, Reports, Due, BrowserProfile, Summed, SomeHot, AllCalm;
      Rotate(now);
      ps := [];
      var todo := windows.Keys;
      Held(windows, histories, {}, rotations, rotations, "");
      assert |todo| == |windows| == |histories| by { assert |histories.Keys| == |histories|; }
      ghost var hs, rot := histories, rotations;
      while todo != {}
        modifies {}
        invariant Reported(ps, hs, rot, todo)
        decreases todo
      {
        var k :| k in todo;
        Held(windows, hs, {}, rot, rot, k);
        var s := Total(windows[k], hs[k], rot);
        ReportedNext(ps, hs, rot, todo, k, s);
        ps := ps + [BrowserProfile(k, s)];
        todo := todo - {k};
      }
    }

    method Total(bs: seq<Counts>, ghost es: seq<Entry>, ghost rot: int) returns (s: Counts)
      requires ListHolds(bs, es, rot)
      ensures Summed(s, es, rot, BUCKETS)
    {
      s := Zero();
      var i := 0;
      SumNone(es, rot);
      while i < |bs|
        invariant 0 <= i <= |bs| == BUCKETS
        invariant Summed(s, es, rot, i)
      {
        SumNext(s, bs, es, rot, i);
        s := Plus(s, bs[i]);
        i := i + 1;
      }
    }

    method AutoscaleTick(now: int) returns (ghost why: Reason)
      requires Valid()
      modifies this`windows, this`lastRotate, this`rotations, this`replicas, this`lines
      ensures Valid() && windows.Keys == old(windows).Keys
      ensures !autoscale ==> replicas == old(replicas) && lines == old(lines)
                             && windows == old(windows) && State() == old(State())
      ensures autoscale ==>
                && (forall k <- windows :: History(k) == Rotated(Aligned, old(History(k)), now, BUCKET_LENGTH))
                && State() == Called(old(State()), TickAt(now))
      ensures autoscale ==> 1 <= replicas <= 6 && Blamed(why, histories, rotations, old(replicas))
      ensures LineAdded(old(replicas), old(lines), replicas, lines, why)
    {
      hide Reported, AllHold, SomeHot, AllCalm, BrowserDecided, BrowserHot, BrowserNominal, NamesSignal, Blamed, Due;
      why := Reason.None;
      if !autoscale {
        return;
      }
      hide LineAdded;
      var ps := Profiles(now);
      Verdicts(ps, histories, rotations);
      var reason, allNominal, first := Judged(ps);
      assert !reason.None? <==> SomeHot(histories, rotations);
      assert allNominal <==> AllCalm(histories, rotations);
      TickBlames(reason, allNominal, first, ps, histories, rotations, replicas);
      why := Apply(reason, allNominal);
    }

    /** Moves, clamps and logs. */
    method Apply(found: Reason, allNominal: bool) returns (ghost why: Reason)
      modifies this`replicas, this`lines
      ensures replicas == BrowserDecided(old(replicas), !found.None?, allNominal)
      ensures 1 <= replicas <= 6
      ensures why == if allNominal && old(replicas) > 1 then AllNominal else found
      ensures LineAdded(old(replicas), old(lines), replicas, lines, why)
    {
      var reason := found;
      var next := replicas + (if !reason.None? then 1 else 0);
      if allNominal && replicas > 1 {
        next := next - 1;
        reason := AllNominal;
      }
      why := reason;
      next := if next < MAX_REPLICAS then next else MAX_REPLICAS;
      next := if next > 1 then next else 1;
      if next != replicas {
        lines := Newest(lines + [ScalingLog(if next > replicas then ScaleUp else ScaleDown, reason, next)]);
        replicas := next;
      }
    }

    /** The scan of a tick: it stops at the first hot profile. */
    method Judged(ps: seq<Profile>) returns (reason: Reason, allNominal: bool, ghost first: int)
      ensures !reason.None? <==> exists i :: 0 <= i < |ps| && BrowserHot(ps[i])
      ensures allNominal <==> |ps| > 0 && forall i :: 0 <= i < |ps| ==> BrowserNominal(ps[i])
      ensures !reason.None? ==> !allNominal && 0 <= first < |ps| && NamesSignal(reason, ps[first])
    {
      reason := Reason.None;
      first := 0;
      allNominal := |ps| > 0;
      var i := 0;
      while i < |ps|
        invariant 0 <= i <= |ps|
        invariant reason.None?
        invariant forall j :: 0 <= j < i ==> !BrowserHot(ps[j])
        invariant allNominal <==> |ps| > 0 && forall j :: 0 <= j < i ==> BrowserNominal(ps[j])
      {
        var p := ps[i];
        if p.ctxSwitchRate > 100.0 {
          reason := HighSwitches(p.key);
        } else if p.pageFaultRate > 5000.0 {
          reason := HighFaults(p.key);
        } else if p.cacheMissRate > 1000.0 {
          reason := HighMisses(p.key);
        }
        if !reason.None? {
          allNominal := false;
          first := i;
          break;
        }
        if !(p.ctxSwitchRate < 50.0 && p.pageFaultRate < 2000.0 && p.cacheMissRate < 500.0) {
          allNominal := false;
        }
        i := i + 1;
      }
    }
  }
}
