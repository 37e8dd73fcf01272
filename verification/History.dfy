/** The history behind a sliding window: every event ever recorded since the last reset,
    tagged with the number of bucket rotations that had happened when it was recorded.
    A window of `b` buckets is the part of the history that is fewer than `b` rotations old.
    The aggregator and the browser differ only in where a rotation leaves the clock. */
module History {
  import opened Arithmetic

  datatype Counts = Counts(events: int, faults: int, misses: int, lockNs: int, switches: int)

  function Zero(): Counts {
    Counts(0, 0, 0, 0, 0)
  }

  function Plus(a: Counts, b: Counts): Counts {
    Counts(a.events + b.events, a.faults + b.faults, a.misses + b.misses, a.lockNs + b.lockNs,
           a.switches + b.switches)
  }

  /** `base` is where the rotation clock stood when the event was recorded. */
  datatype Entry = Entry(at: int, base: int, tag: int, delta: Counts)

  datatype Log = Log(entries: seq<Entry>, rotations: int, last: int)

  /** Lazy: a rotation leaves the clock at the time of the call, so the fraction of a bucket
      that had elapsed is lost.  Aligned: it leaves the clock on a bucket boundary. */
  datatype Clocking = Lazy | Aligned

  datatype Call =
    | Record(now: int, delta: Counts)
    | Query(now: int)
    | Reset(now: int)

  /** How many whole buckets have gone by. */
  function Due(last: int, now: int, d: int): nat
    requires d > 0
  {
    if now - last < d then 0 else (now - last) / d
  }

  function Rotated(m: Clocking, w: Log, now: int, d: int): Log
    requires d > 0
  {
    var r := Due(w.last, now, d);
    if r == 0 then w
    else Log(w.entries, w.rotations + r, if m.Lazy? then now else w.last + r * d)
  }

  function Step(m: Clocking, w: Log, c: Call, d: int): Log
    requires d > 0
  {
    match c
    case Record(now, delta) =>
      var v := Rotated(m, w, now, d);
      v.(entries := v.entries + [Entry(now, v.last, v.rotations, delta)])
    case Query(now) => Rotated(m, w, now, d)
    case Reset(now) => if m.Lazy? then Log([], w.rotations, now) else w.(entries := [])
  }

  function Run(m: Clocking, w: Log, calls: seq<Call>, d: int): Log
    requires d > 0
    decreases |calls|
  {
    if calls == [] then w else Run(m, Step(m, w, calls[0], d), calls[1..], d)
  }

  /** Sum of the first `n` events as far as tagged `lo` or later and before `hi`. */
  function TallyTo(es: seq<Entry>, n: int, lo: int, hi: int): Counts
    requires 0 <= n <= |es|
  {
    if n == 0 then Zero() else Plus(TallyTo(es, n - 1, lo, hi), Share(es[n - 1], lo, hi))
  }

  function Tally(es: seq<Entry>, lo: int, hi: int): Counts {
    TallyTo(es, |es|, lo, hi)
  }

  function Share(e: Entry, lo: int, hi: int): Counts {
    if lo <= e.tag < hi then e.delta else Zero()
  }

  predicate Live(w: Log, e: Entry, b: int) {
    w.rotations - e.tag < b
  }

  /** What a window of `b` buckets holds. */
  function WindowTotals(w: Log, b: int): Counts {
    Tally(w.entries, w.rotations - b + 1, w.rotations + 1)
  }

  lemma PlusSwap(a: Counts, b: Counts, x: Counts, y: Counts)
    ensures Plus(Plus(a, b), Plus(x, y)) == Plus(Plus(a, x), Plus(b, y))
  {
  }

  lemma PlusAssoc(a: Counts, b: Counts, c: Counts)
    ensures Plus(a, Plus(b, c)) == Plus(Plus(a, b), c)
  {
  }

  lemma PlusComm(a: Counts, b: Counts)
    ensures Plus(a, b) == Plus(b, a)
  {
  }

  lemma PlusZero(a: Counts)
    ensures Plus(Zero(), a) == a && Plus(a, Zero()) == a
  {
  }

  lemma {:induction false} TallyToSplit(es: seq<Entry>, n: int, lo: int, mid: int, hi: int)
    requires 0 <= n <= |es| && lo <= mid <= hi
    ensures TallyTo(es, n, lo, hi) == Plus(TallyTo(es, n, lo, mid), TallyTo(es, n, mid, hi))
  {
    if n > 0 {
      TallyToSplit(es, n - 1, lo, mid, hi);
      var e := es[n - 1];
      PlusZero(e.delta);
      assert Share(e, lo, hi) == Plus(Share(e, lo, mid), Share(e, mid, hi));
      PlusSwap(TallyTo(es, n - 1, lo, mid), TallyTo(es, n - 1, mid, hi), Share(e, lo, mid), Share(e, mid, hi));
    }
  }

  lemma TallySplit(es: seq<Entry>, lo: int, mid: int, hi: int)
    requires lo <= mid <= hi
    ensures Tally(es, lo, hi) == Plus(Tally(es, lo, mid), Tally(es, mid, hi))
  {
    TallyToSplit(es, |es|, lo, mid, hi);
  }

  lemma {:induction false} TallyToNone(es: seq<Entry>, n: int, lo: int, hi: int)
    requires 0 <= n <= |es|
    requires forall e <- es :: !(lo <= e.tag < hi)
    ensures TallyTo(es, n, lo, hi) == Zero()
  {
    if n > 0 {
      TallyToNone(es, n - 1, lo, hi);
    }
  }

  lemma TallyNone(es: seq<Entry>, lo: int, hi: int)
    requires forall e <- es :: !(lo <= e.tag < hi)
    ensures Tally(es, lo, hi) == Zero()
  {
    TallyToNone(es, |es|, lo, hi);
  }

  lemma {:induction false} TallyToPrefix(es: seq<Entry>, fs: seq<Entry>, n: int, lo: int, hi: int)
    requires 0 <= n <= |es|
    ensures TallyTo(es + fs, n, lo, hi) == TallyTo(es, n, lo, hi)
  {
    if n > 0 {
      TallyToPrefix(es, fs, n - 1, lo, hi);
    }
  }

  lemma TallySnoc(es: seq<Entry>, e: Entry, lo: int, hi: int)
    ensures Tally(es + [e], lo, hi) == Plus(Tally(es, lo, hi), Share(e, lo, hi))
  {
    TallyToPrefix(es, [e], |es|, lo, hi);
  }

  // ---------------------------------------------------------------- empty means quiet

  /** Counters a recorder can add: every signal is non-negative, faults and switches are
      samples, and a change without a sample changes nothing. */
  predicate Honest(c: Counts) {
    && 0 <= c.events && 0 <= c.faults && 0 <= c.misses && 0 <= c.lockNs && 0 <= c.switches
    && c.faults + c.switches <= c.events
    && (c.events == 0 ==> c == Zero())
  }

  ghost predicate HonestLog(w: Log) {
    forall e <- w.entries :: Honest(e.delta)
  }

  lemma HonestPlus(a: Counts, b: Counts)
    requires Honest(a) && Honest(b)
    ensures Honest(Plus(a, b))
  {
  }

  lemma {:induction false} TallyToHonest(es: seq<Entry>, n: int, lo: int, hi: int)
    requires 0 <= n <= |es|
    requires forall e <- es :: Honest(e.delta)
    ensures Honest(TallyTo(es, n, lo, hi))
  {
    if n > 0 {
      TallyToHonest(es, n - 1, lo, hi);
      HonestPlus(TallyTo(es, n - 1, lo, hi), Share(es[n - 1], lo, hi));
    }
  }

  /** Whatever an honest history leaves in a window is honest: a window without samples is quiet. */
  lemma WindowHonest(w: Log, b: int)
    requires HonestLog(w)
    ensures Honest(WindowTotals(w, b))
  {
    TallyToHonest(w.entries, |w.entries|, w.rotations - b + 1, w.rotations + 1);
  }

  predicate HonestCalls(calls: seq<Call>) {
    forall c <- calls :: c.Record? ==> Honest(c.delta)
  }

  lemma {:induction false} RunHonest(m: Clocking, w: Log, calls: seq<Call>, d: int)
    requires d > 0 && HonestLog(w) && HonestCalls(calls)
    ensures HonestLog(Run(m, w, calls, d))
    decreases |calls|
  {
    if calls != [] {
      assert calls[0] in calls;
      RunHonest(m, Step(m, w, calls[0], d), calls[1..], d);
    }
  }

  predicate NoMore(a: Counts, b: Counts) {
    && a.events <= b.events && a.faults <= b.faults && a.misses <= b.misses
    && a.lockNs <= b.lockNs && a.switches <= b.switches
  }

  lemma {:induction false} TallyToHasEach(es: seq<Entry>, n: int, lo: int, hi: int, i: int)
    requires 0 <= i < n <= |es|
    requires forall e <- es :: Honest(e.delta)
    ensures NoMore(Share(es[i], lo, hi), TallyTo(es, n, lo, hi))
  {
    TallyToHonest(es, n - 1, lo, hi);
    assert es[n - 1] in es;
    if i < n - 1 {
      TallyToHasEach(es, n - 1, lo, hi, i);
    }
  }

  /** A live event shows in what the window reports. */
  lemma LiveShows(w: Log, b: int, i: int)
    requires HonestLog(w) && 0 <= i < |w.entries|
    requires w.entries[i].tag <= w.rotations && Live(w, w.entries[i], b)
    ensures NoMore(w.entries[i].delta, WindowTotals(w, b))
  {
    TallyToHasEach(w.entries, |w.entries|, w.rotations - b + 1, w.rotations + 1, i);
  }

  // ---------------------------------------------------------------- time and rotations

  /** Every entry's age in rotations brackets its age on the rotation clock. */
  ghost predicate Bracketed(w: Log, d: int) {
    forall e <- w.entries :: EntryBracketed(w, e, d)
  }

  ghost predicate EntryBracketed(w: Log, e: Entry, d: int) {
    var n := w.rotations - e.tag;
    && 0 <= n
    && d * n <= w.last - e.base <= (2 * d - 1) * n
    && e.at < e.base + d
  }

  /** No entry was recorded before the rotation clock it saw: true while time goes forward. */
  ghost predicate Timely(w: Log) {
    forall e <- w.entries :: e.base <= e.at
  }

  /** Call times run forward from `lo` to `hi`. */
  predicate Monotone(calls: seq<Call>, lo: int, hi: int) {
    if calls == [] then lo <= hi
    else lo <= calls[0].now && Monotone(calls[1..], calls[0].now, hi)
  }

  predicate NoReset(calls: seq<Call>) {
    forall i :: 0 <= i < |calls| ==> !calls[i].Reset?
  }

  lemma StretchIsBelowTwice(r: int, d: int)
    requires r > 0 && d > 0
    ensures d * r + d - 1 <= (2 * d - 1) * r
  {
    Scale(d - 1, 1, r);
    assert (2 * d - 1) * r == d * r + (d - 1) * r;
  }

  /** b-1 rotations of at most 2d-1 ticks, then less than a bucket. */
  lemma LongestStay(b: int, d: int)
    ensures (2 * d - 1) * (b - 1) + d - 1 == (2 * b - 1) * d - b
    ensures (b - 1) * d == d * b - d
  {
  }

  lemma DueSpan(last: int, now: int, d: int)
    requires d > 0
    ensures var r := Due(last, now, d);
            && (r > 0 ==> d * r <= now - last <= (2 * d - 1) * r)
            && (r == 0 ==> now - last < d)
            && now - last < d * r + d
  {
    var r := Due(last, now, d);
    if now - last >= d {
      QuotientBounds(now - last, d);
      if r < 1 {
        Scale(d, r, 0);
      }
      StretchIsBelowTwice(r, d);
    }
  }

  lemma Stretch(n: int, r: int, d: int)
    requires r > 0 && d > 0
    ensures d * (n + r) == d * n + d * r
    ensures (2 * d - 1) * (n + r) == (2 * d - 1) * n + (2 * d - 1) * r
    ensures d * r <= (2 * d - 1) * r
  {
    assert (2 * d - 1) * r == d * r + (d - 1) * r;
    Scale(r, 0, d - 1);
  }

  lemma RotatedBracketed(m: Clocking, w: Log, now: int, d: int)
    requires d > 0 && Bracketed(w, d)
    ensures Bracketed(Rotated(m, w, now, d), d)
    ensures now < Rotated(m, w, now, d).last + d
    ensures w.last <= now ==> w.last <= Rotated(m, w, now, d).last <= now
  {
    DueSpan(w.last, now, d);
    var v := Rotated(m, w, now, d);
    var r := Due(w.last, now, d);
    hide Due;
    if r > 0 {
      forall e | e in v.entries ensures EntryBracketed(v, e, d) {
        assert EntryBracketed(w, e, d);
        Stretch(w.rotations - e.tag, r, d);
      }
    }
  }

  lemma StepBracketed(m: Clocking, w: Log, c: Call, d: int)
    requires d > 0 && Bracketed(w, d)
    ensures Bracketed(Step(m, w, c, d), d)
    ensures Timely(w) && w.last <= c.now ==> Timely(Step(m, w, c, d)) && Step(m, w, c, d).last <= c.now
  {
    if !c.Reset? {
      RotatedBracketed(m, w, c.now, d);
      var v := Rotated(m, w, c.now, d);
      if c.Record? {
        var x := Step(m, w, c, d);
        forall e | e in x.entries ensures EntryBracketed(x, e, d) {
          assert e in v.entries ==> EntryBracketed(v, e, d);
        }
      }
    }
  }

  lemma {:induction false} RunBracketed(m: Clocking, w: Log, calls: seq<Call>, d: int, lo: int, hi: int)
    requires d > 0 && Bracketed(w, d) && Timely(w) && w.last <= lo && Monotone(calls, lo, hi)
    ensures Bracketed(Run(m, w, calls, d), d) && Timely(Run(m, w, calls, d))
    ensures lo <= hi && Run(m, w, calls, d).last <= hi
    decreases |calls|
  {
    if calls != [] {
      StepBracketed(m, w, calls[0], d);
      RunBracketed(m, Step(m, w, calls[0], d), calls[1..], d, calls[0].now, hi);
    }
  }

  lemma {:induction false} RunKeepsEntries(m: Clocking, w: Log, calls: seq<Call>, d: int)
    requires d > 0 && NoReset(calls)
    ensures w.entries <= Run(m, w, calls, d).entries
    decreases |calls|
  {
    if calls != [] {
      assert !calls[0].Reset?;
      RunKeepsEntries(m, Step(m, w, calls[0], d), calls[1..], d);
    }
  }

  lemma {:induction false} RunAppend(m: Clocking, w: Log, a: seq<Call>, b: seq<Call>, d: int)
    requires d > 0
    ensures Run(m, w, a + b, d) == Run(m, Run(m, w, a, d), b, d)
    decreases |a|
  {
    if a == [] {
      assert a + b == b;
    } else {
      assert (a + b)[0] == a[0] && (a + b)[1..] == a[1..] + b;
      RunAppend(m, Step(m, w, a[0], d), a[1..], b, d);
    }
  }

  // ---------------------------------------------------------------- retention, exactly

  /** An event recorded at `t` on top of any history, any calls but a reset, a query at `end`. */
  datatype Scenario = Scenario(start: Log, t: int, delta: Counts, between: seq<Call>, end: int)

  ghost predicate Admissible(s: Scenario, d: int)
    requires d > 0
  {
    && Bracketed(s.start, d) && Timely(s.start) && s.start.last <= s.t
    && NoReset(s.between) && Monotone(s.between, s.t, s.end)
  }

  function AfterRecord(m: Clocking, s: Scenario, d: int): Log
    requires d > 0
  {
    Step(m, s.start, Record(s.t, s.delta), d)
  }

  function AtQuery(m: Clocking, s: Scenario, d: int): Log
    requires d > 0
  {
    Step(m, Run(m, AfterRecord(m, s, d), s.between, d), Query(s.end), d)
  }

  /** The query counts the event. */
  predicate Counted(m: Clocking, s: Scenario, b: int, d: int)
    requires d > 0
  {
    var w := AfterRecord(m, s, d);
    Live(AtQuery(m, s, d), w.entries[|w.entries| - 1], b)
  }

  function Age(s: Scenario): int {
    s.end - s.t
  }

  /** The event is still in the history when the query runs, with what the brackets say of it. */
  lemma EventAtQuery(m: Clocking, s: Scenario, d: int) returns (e: Entry)
    requires d > 0 && Admissible(s, d)
    ensures var w := AfterRecord(m, s, d); e == w.entries[|w.entries| - 1]
    ensures |AfterRecord(m, s, d).entries| == |s.start.entries| + 1
    ensures |s.start.entries| < |AtQuery(m, s, d).entries|
    ensures AtQuery(m, s, d).entries[|s.start.entries|] == e
    ensures e.at == s.t && e.base <= e.at && e.delta == s.delta
    ensures EntryBracketed(AtQuery(m, s, d), e, d)
    ensures Bracketed(AtQuery(m, s, d), d) && Timely(AtQuery(m, s, d))
    ensures AtQuery(m, s, d).last <= s.end < AtQuery(m, s, d).last + d
    ensures s.t <= s.end
  {
    var w := AfterRecord(m, s, d);
    e := w.entries[|w.entries| - 1];
    StepBracketed(m, s.start, Record(s.t, s.delta), d);
    RunBracketed(m, w, s.between, d, s.t, s.end);
    RunKeepsEntries(m, w, s.between, d);
    var v := Run(m, w, s.between, d);
    RotatedBracketed(m, v, s.end, d);
    assert AtQuery(m, s, d).entries[|s.start.entries|] == e;
  }

  /** A lazily rotated window of `b` buckets of length `d` holds an event through its first
      (b-1)*d ticks whatever the calls, and never past (2b-1)*d - b. */
  lemma RetentionBounds(m: Clocking, s: Scenario, b: int, d: int)
    requires b > 0 && d > 0 && Admissible(s, d)
    ensures Age(s) <= (b - 1) * d ==> Counted(m, s, b, d)
    ensures Counted(m, s, b, d) ==> Age(s) <= (2 * b - 1) * d - b
  {
    var e := EventAtQuery(m, s, d);
    var w := AtQuery(m, s, d);
    if Age(s) <= (b - 1) * d {
      YoungIsLive(w, e, s.end, b, d);
    }
    if Age(s) > (2 * b - 1) * d - b {
      TooOldIsDead(w, e, s.end, b, d);
    }
  }

  /** So for at least (b-1)*d ticks every query reports at least the event. */
  lemma YoungEventReported(m: Clocking, s: Scenario, b: int, d: int)
    requires b > 0 && d > 0 && Admissible(s, d) && Age(s) <= (b - 1) * d
    requires HonestLog(s.start) && Honest(s.delta) && HonestCalls(s.between)
    ensures NoMore(s.delta, WindowTotals(AtQuery(m, s, d), b))
  {
    var e := EventAtQuery(m, s, d);
    RetentionBounds(m, s, b, d);
    RunHonest(m, AfterRecord(m, s, d), s.between, d);
    LiveShows(AtQuery(m, s, d), b, |s.start.entries|);
  }

  /** A run that loses an event of any age above (b-1)*d: record just before the bucket ends,
      then leave the window alone. */
  lemma LateRecordIsLost(b: int, d: int, g: int, delta: Counts) returns (s: Scenario)
    requires b > 0 && d > 0 && g > (b - 1) * d
    ensures Admissible(s, d) && Age(s) == g && !Counted(Lazy, s, b, d)
    ensures s.start == Log([], 0, 1) && s.delta == delta && forall c <- s.between :: c.Query?
  {
    s := Scenario(Log([], 0, 1), d, delta, [], d + g);
    LongestStay(b, d);
    Scale(d, 0, b - 1);
    var q := (d - 1 + g) / d;
    QuotientBounds(d - 1 + g, d);
    if q < b {
      Scale(d, q, b - 1);
    }
  }

  /** Queries at every 2d-1 ticks, at most `n` of them: each costs one rotation and loses d-1 ticks. */
  function Dawdle(from: int, end: int, n: nat, d: int): (calls: seq<Call>)
    requires d > 0
    ensures forall c <- calls :: c.Query?
    decreases n
  {
    if n == 0 || end - from < 2 * d - 1 then []
    else [Query(from + 2 * d - 1)] + Dawdle(from + 2 * d - 1, end, n - 1, d)
  }

  lemma DueBelowTwo(last: int, now: int, d: int)
    requires d > 0 && now - last < 2 * d
    ensures Due(last, now, d) == if now - last < d then 0 else 1
  {
    var r := Due(last, now, d);
    DueSpan(last, now, d);
    if r >= 2 {
      Scale(d, 2, r);
    }
  }

  lemma {:induction false} DawdleIsCheap(w: Log, end: int, n: nat, d: int)
    requires d > 0 && w.last <= end && end - w.last <= n * (2 * d - 1) + d - 1
    ensures Monotone(Dawdle(w.last, end, n, d), w.last, end) && NoReset(Dawdle(w.last, end, n, d))
    ensures Rotated(Lazy, Run(Lazy, w, Dawdle(w.last, end, n, d), d), end, d).rotations <= w.rotations + n
    decreases n
  {
    var calls := Dawdle(w.last, end, n, d);
    if n == 0 {
      assert calls == [];
    } else if end - w.last < 2 * d - 1 {
      DueBelowTwo(w.last, end, d);
    } else {
      var t := w.last + 2 * d - 1;
      var v := Step(Lazy, w, Query(t), d);
      DueBelowTwo(w.last, t, d);
      assert n * (2 * d - 1) == (n - 1) * (2 * d - 1) + (2 * d - 1);
      DawdleIsCheap(v, end, n - 1, d);
      assert calls[0] == Query(t) && calls[1..] == Dawdle(t, end, n - 1, d);
    }
  }

  /** A run that still counts an event of any age up to (2b-1)*d - b. */
  lemma DawdlingKeepsEvent(b: int, d: int, g: int, delta: Counts) returns (s: Scenario)
    requires b > 0 && d > 0 && 0 <= g <= (2 * b - 1) * d - b
    ensures Admissible(s, d) && Age(s) == g && Counted(Lazy, s, b, d)
    ensures s.start == Log([], 0, 1) && s.delta == delta && forall c <- s.between :: c.Query?
  {
    s := Scenario(Log([], 0, 1), 1, delta, Dawdle(1, 1 + g, b - 1, d), 1 + g);
    LongestStay(b, d);
    var w := AfterRecord(Lazy, s, d);
    assert w.last == 1 && w.rotations == 0;
    DawdleIsCheap(w, 1 + g, b - 1, d);
  }

  /** An event of age `g` is counted by every query on every run exactly when g <= (b-1)*d. */
  lemma AlwaysCountedIff(b: int, d: int, g: nat)
    requires b > 0 && d > 0
    ensures (forall s: Scenario | Admissible(s, d) && Age(s) == g :: Counted(Lazy, s, b, d))
            <==> g <= (b - 1) * d
  {
    if g <= (b - 1) * d {
      forall s: Scenario | Admissible(s, d) && Age(s) == g
        ensures Counted(Lazy, s, b, d)
      {
        RetentionBounds(Lazy, s, b, d);
      }
    } else {
      var s := LateRecordIsLost(b, d, g, Zero());
    }
  }

  /** An event of age `g` can still be counted by some query exactly when g <= (2b-1)*d - b. */
  lemma EverCountedIff(b: int, d: int, g: nat)
    requires b > 0 && d > 0
    ensures (exists s: Scenario :: Admissible(s, d) && Age(s) == g && Counted(Lazy, s, b, d))
            <==> g <= (2 * b - 1) * d - b
  {
    if g <= (2 * b - 1) * d - b {
      var s := DawdlingKeepsEvent(b, d, g, Zero());
    } else {
      forall s: Scenario | Admissible(s, d) && Age(s) == g
        ensures !Counted(Lazy, s, b, d)
      {
        RetentionBounds(Lazy, s, b, d);
      }
    }
  }

  lemma TooOldIsDead(w: Log, e: Entry, now: int, b: int, d: int)
    requires b > 0 && d > 0 && EntryBracketed(w, e, d) && e.base <= e.at && now < w.last + d
    requires now - e.at > (2 * b - 1) * d - b
    ensures !Live(w, e, b)
  {
    var n := w.rotations - e.tag;
    if n < b {
      Scale(2 * d - 1, n, b - 1);
      LongestStay(b, d);
    }
  }

  lemma AllTooOld(w: Log, t: int, now: int, b: int, d: int)
    requires b > 0 && d > 0 && Bracketed(w, d) && Timely(w) && now < w.last + d
    requires forall e <- w.entries :: e.at <= t
    requires now - t > (2 * b - 1) * d - b
    ensures forall e <- w.entries :: !Live(w, e, b)
  {
    forall e | e in w.entries ensures !Live(w, e, b) {
      TooOldIsDead(w, e, now, b, d);
    }
  }

  lemma DeadTotals(w: Log, b: int)
    requires forall e <- w.entries :: !Live(w, e, b)
    ensures WindowTotals(w, b) == Zero()
  {
    TallyNone(w.entries, w.rotations - b + 1, w.rotations + 1);
  }

  lemma YoungIsLive(w: Log, e: Entry, now: int, b: int, d: int)
    requires b > 0 && d > 0 && EntryBracketed(w, e, d) && w.last <= now
    requires now - e.at <= (b - 1) * d
    ensures Live(w, e, b)
  {
    var n := w.rotations - e.tag;
    if n >= b {
      Scale(d, b, n);
      LongestStay(b, d);
    }
  }

  /** Every event of the history is at least (2b-1)*d - b + 1 old: the window is empty. */
  lemma DrainedWindow(m: Clocking, w: Log, t: int, now: int, b: int, d: int)
    requires b > 0 && d > 0 && Bracketed(w, d) && Timely(w)
    requires forall e <- w.entries :: e.at <= t
    requires now - t > (2 * b - 1) * d - b
    ensures WindowTotals(Rotated(m, w, now, d), b) == Zero()
  {
    RotatedBracketed(m, w, now, d);
    AllTooOld(Rotated(m, w, now, d), t, now, b, d);
    DeadTotals(Rotated(m, w, now, d), b);
  }
}
