/** pkg/profile/window.go: the ring of buckets behind a workload's runtime profile, proved to
    hold exactly the part of the event history that is fewer than `count` rotations old. */
module SlidingWindow {
  import opened Arithmetic
  import opened History

  const DEFAULT_BUCKET_COUNT := 12
  const DEFAULT_BUCKET_DURATION := 5_000_000_000

  /** The zero time, before every clock reading. */
  const ZERO_TIME := 0

  /** A clock reading, in nanoseconds. */
  type Instant = t: int | ZERO_TIME < t witness 1

  datatype Confidence = Unknown | Low | Medium | High

  datatype RuntimeProfile = RuntimeProfile(
    key: string,
    pageFaultRate: real,
    cacheMissRate: real,
    lockRatio: real,
    ctxSwitchRate: real,
    samples: int,
    windowStart: int,
    windowEnd: int,
    confidence: Confidence)

  datatype Bucket = Bucket(counts: Counts, start: int)

  /** Go's integer division: the quotient is truncated towards zero. */
  function TruncDiv(a: int, b: int): int
    requires b > 0
  {
    if a >= 0 then a / b else -((-a) / b)
  }

  function ConfidenceOf(samples: int): Confidence {
    if samples > 1000 then High
    else if samples >= 100 then Medium
    else if samples > 0 then Low
    else Unknown
  }

  /** The profile of a window of `b` buckets of `d` nanoseconds that holds `c`. */
  function ProfileOf(key: string, c: Counts, b: int, d: int, windowStart: int, windowEnd: int): RuntimeProfile
    requires b > 0 && d > 0
  {
    var seconds := b as real * (d as real / 1e9);
    RuntimeProfile(key, c.faults as real / seconds, c.misses as real / seconds,
                   c.lockNs as real / (seconds * 1e9), c.switches as real / seconds,
                   c.events, windowStart, windowEnd, ConfidenceOf(c.events))
  }

  /** What a profile says of the counters, in whole numbers: each rate times the length of the window is
      its counter, and the confidence is that of more than 1000 samples, of 100 or more, of any. */
  lemma ProfileInCounts(key: string, c: Counts, b: int, d: int, windowStart: int, windowEnd: int)
    requires b > 0 && d > 0
    ensures var p := ProfileOf(key, c, b, d, windowStart, windowEnd);
            && p.key == key && p.samples == c.events && p.windowStart == windowStart && p.windowEnd == windowEnd
            && p.pageFaultRate * (b * d) as real == c.faults as real * 1e9
            && p.cacheMissRate * (b * d) as real == c.misses as real * 1e9
            && p.ctxSwitchRate * (b * d) as real == c.switches as real * 1e9
            && p.lockRatio * (b * d) as real == c.lockNs as real
            && (p.confidence == High <==> c.events > 1000)
            && (p.confidence == Medium <==> 100 <= c.events <= 1000)
            && (p.confidence == Low <==> 0 < c.events < 100)
            && (p.confidence == Unknown <==> c.events <= 0)
  {
    var seconds := b as real * (d as real / 1e9);
    assert seconds * 1e9 == (b * d) as real && seconds > 0.0;
    RateTimesLength(c.faults as real, seconds, (b * d) as real);
    RateTimesLength(c.misses as real, seconds, (b * d) as real);
    RateTimesLength(c.switches as real, seconds, (b * d) as real);
    Quotient(c.lockNs as real, seconds * 1e9);
  }

  lemma RateTimesLength(x: real, seconds: real, length: real)
    requires seconds > 0.0 && length == seconds * 1e9
    ensures x / seconds * length == x * 1e9
  {
    Quotient(x, seconds);
  }

  lemma Quotient(x: real, y: real)
    requires y > 0.0
    ensures x / y * y == x
  {
  }

  /** The lock ratio is a fraction of the time exactly when the lock time in the window is not more
      than the window's nominal length. */
  lemma LockRatioIsFractionIff(key: string, c: Counts, b: int, d: int)
    requires b > 0 && d > 0
    ensures var p := ProfileOf(key, c, b, d, ZERO_TIME, ZERO_TIME);
            0.0 <= p.lockRatio <= 1.0 <==> 0 <= c.lockNs <= b * d
  {
    var length := b as real * (d as real / 1e9) * 1e9;
    assert length == (b * d) as real;
    FractionIff(c.lockNs as real, length);
  }

  lemma FractionIff(x: real, y: real)
    requires y > 0.0
    ensures 0.0 <= x / y <= 1.0 <==> 0.0 <= x <= y
  {
    var q := x / y;
    assert q * y == x;
    SignOfProduct(q, y);
    SignOfProduct(1.0 - q, y);
    assert (1.0 - q) * y == y - x;
  }

  lemma SignOfProduct(x: real, y: real)
    requires y > 0.0
    ensures x >= 0.0 <==> x * y >= 0.0
  {
    if x < 0.0 {
      assert (-x) * y > 0.0;
    }
  }

  /** One long wait is enough for a ratio above one. */
  lemma LockRatioCanExceedOne()
    ensures var p := ProfileOf("", Counts(1, 0, 0, 120_000_000_000, 0), DEFAULT_BUCKET_COUNT, DEFAULT_BUCKET_DURATION,
                               ZERO_TIME, ZERO_TIME);
            p.lockRatio == 2.0
  {
  }

  // ---------------------------------------------------------------- the ring

  /** Rotation count at which slot `i` became current, when slot `cur` became so at `rot`. */
  function TagAt(cur: int, rot: int, n: int, i: int): int {
    if i <= cur then rot - cur + i else rot - cur - n + i
  }

  /** Slot `i` holds the events of one rotation count. */
  ghost predicate SlotHolds(bs: seq<Bucket>, cur: int, es: seq<Entry>, rot: int, i: int)
    requires 0 <= i < |bs|
  {
    bs[i].counts == Tally(es, TagAt(cur, rot, |bs|, i), TagAt(cur, rot, |bs|, i) + 1)
  }

  ghost predicate TagsUpTo(es: seq<Entry>, rot: int) {
    forall e <- es :: e.tag <= rot
  }

  /** Together the slots hold the last |bs| rotation counts. */
  ghost predicate RingHolds(bs: seq<Bucket>, cur: int, es: seq<Entry>, rot: int) {
    && 0 <= cur < |bs|
    && TagsUpTo(es, rot)
    && forall i :: 0 <= i < |bs| ==> SlotHolds(bs, cur, es, rot, i)
  }

  /** Of two slots the one that became current first started at least a bucket earlier, or at
      the same time. */
  ghost predicate PairSpaced(bs: seq<Bucket>, cur: int, d: int, i: int, j: int)
    requires 0 <= i < |bs| && 0 <= j < |bs|
  {
    TagAt(cur, 0, |bs|, i) < TagAt(cur, 0, |bs|, j) ==>
      bs[i].start == bs[j].start || bs[i].start + d <= bs[j].start
  }

  /** Start times grow along the ring, by at least a bucket or not at all. */
  ghost predicate Spaced(bs: seq<Bucket>, cur: int, newest: int, d: int) {
    && 0 <= cur < |bs|
    && bs[cur].start == newest
    && ZERO_TIME < newest
    && (forall i :: 0 <= i < |bs| ==> Started(bs, i))
    && (forall i, j :: 0 <= i < |bs| && 0 <= j < |bs| ==> PairSpaced(bs, cur, d, i, j))
  }

  ghost predicate Started(bs: seq<Bucket>, i: int)
    requires 0 <= i < |bs|
  {
    ZERO_TIME < bs[i].start
  }

  function Advanced(bs: seq<Bucket>, cur: int, now: int): seq<Bucket>
    requires 0 <= cur < |bs|
  {
    bs[(cur + 1) % |bs| := Bucket(Zero(), now)]
  }

  lemma NextSlot(cur: int, n: int)
    requires 0 <= cur < n
    ensures (cur + 1) % n == if cur + 1 == n then 0 else cur + 1
  {
  }

  lemma AdvanceHolds(bs: seq<Bucket>, cur: int, es: seq<Entry>, rot: int, now: int)
    requires RingHolds(bs, cur, es, rot)
    ensures RingHolds(Advanced(bs, cur, now), (cur + 1) % |bs|, es, rot + 1)
  {
    var n, next := |bs|, (cur + 1) % |bs|;
    NextSlot(cur, n);
    var cs, later := Advanced(bs, cur, now), rot + 1;
    forall i | 0 <= i < n ensures SlotHolds(cs, next, es, later, i) {
      if i == next {
        TallyNone(es, rot + 1, rot + 2);
      } else {
        assert SlotHolds(bs, cur, es, rot, i) && TagAt(next, rot + 1, n, i) == TagAt(cur, rot, n, i);
      }
    }
  }

  lemma AdvanceSpaced(bs: seq<Bucket>, cur: int, newest: int, d: int, now: Instant)
    requires d > 0 && Spaced(bs, cur, newest, d) && (now == newest || newest + d <= now)
    ensures Spaced(Advanced(bs, cur, now), (cur + 1) % |bs|, now, d)
  {
    var n, next := |bs|, (cur + 1) % |bs|;
    var cs := Advanced(bs, cur, now);
    NextSlot(cur, n);
    forall i | 0 <= i < n ensures Started(cs, i) {
      assert Started(bs, i);
    }
    forall i, j | 0 <= i < n && 0 <= j < n ensures PairSpaced(cs, next, d, i, j) {
      assert PairSpaced(bs, cur, d, i, cur) && PairSpaced(bs, cur, d, i, j);
    }
  }

  /** Once every slot has been cleared, further rotations change nothing but their count: this
      is why capping them at the number of buckets cannot be seen. */
  lemma CapIsInvisible(bs: seq<Bucket>, cur: int, es: seq<Entry>, rot: int, more: int)
    requires RingHolds(bs, cur, es, rot + |bs|) && more >= |bs| && TagsUpTo(es, rot)
    ensures RingHolds(bs, cur, es, rot + more)
  {
    var n, full, over := |bs|, rot + |bs|, rot + more;
    forall i | 0 <= i < n ensures SlotHolds(bs, cur, es, over, i) {
      assert SlotHolds(bs, cur, es, full, i);
      TallyNone(es, TagAt(cur, over, n, i), TagAt(cur, over, n, i) + 1);
      TallyNone(es, TagAt(cur, full, n, i), TagAt(cur, full, n, i) + 1);
    }
  }

  /** An event recorded now goes into the current slot and no other. */
  lemma AddHolds(bs: seq<Bucket>, cur: int, es: seq<Entry>, rot: int, e: Entry)
    requires RingHolds(bs, cur, es, rot) && e.tag == rot
    ensures RingHolds(bs[cur := Bucket(Plus(bs[cur].counts, e.delta), bs[cur].start)], cur, es + [e], rot)
  {
    var n := |bs|;
    var cs := bs[cur := Bucket(Plus(bs[cur].counts, e.delta), bs[cur].start)];
    forall i | 0 <= i < n ensures SlotHolds(cs, cur, es + [e], rot, i) {
      assert SlotHolds(bs, cur, es, rot, i);
      TallySnoc(es, e, TagAt(cur, rot, n, i), TagAt(cur, rot, n, i) + 1);
      PlusZero(bs[i].counts);
      assert TagAt(cur, rot, n, i) == rot <==> i == cur;
    }
  }

  /** Counters do not matter to the spacing of the starts. */
  lemma SameStartsSpaced(bs: seq<Bucket>, cs: seq<Bucket>, cur: int, newest: int, d: int)
    requires Spaced(bs, cur, newest, d) && |bs| == |cs|
    requires forall i :: 0 <= i < |bs| ==> cs[i].start == bs[i].start
    ensures Spaced(cs, cur, newest, d)
  {
    forall i | 0 <= i < |bs| ensures Started(cs, i) {
      assert Started(bs, i);
    }
    forall i, j | 0 <= i < |bs| && 0 <= j < |bs| ensures PairSpaced(cs, cur, d, i, j) {
      assert PairSpaced(bs, cur, d, i, j);
    }
  }

  lemma ClearedRing(bs: seq<Bucket>, cur: int, rot: int, now: Instant, d: int)
    requires 0 <= cur < |bs|
    requires forall i :: 0 <= i < |bs| ==> bs[i] == Bucket(Zero(), now)
    ensures RingHolds(bs, cur, [], rot) && Spaced(bs, cur, now, d)
  {
  }

  /** What the first `i` slots of the array hold, in terms of the history. */
  ghost function SlotsTo(es: seq<Entry>, cur: int, rot: int, n: int, i: int): Counts {
    if i <= cur + 1 then Tally(es, rot - cur, rot - cur + i)
    else Plus(Tally(es, rot - cur, rot + 1), Tally(es, rot - n + 1, rot - cur - n + i))
  }

  lemma SlotsNext(bs: seq<Bucket>, cur: int, es: seq<Entry>, rot: int, i: int)
    requires RingHolds(bs, cur, es, rot) && 0 <= i < |bs|
    ensures SlotsTo(es, cur, rot, |bs|, i + 1) == Plus(SlotsTo(es, cur, rot, |bs|, i), bs[i].counts)
  {
    hide Plus;
    var n, c := |bs|, bs[i].counts;
    assert SlotHolds(bs, cur, es, rot, i);
    if i <= cur {
      TallySplit(es, rot - cur, rot - cur + i, rot - cur + i + 1);
    } else {
      var older := Tally(es, rot - n + 1, rot - cur - n + i);
      TallySplit(es, rot - n + 1, rot - cur - n + i, rot - cur - n + i + 1);
      PlusAssoc(Tally(es, rot - cur, rot + 1), older, c);
      if i == cur + 1 {
        EmptyRange(es, rot - n + 1);
        PlusZero(Tally(es, rot - cur, rot + 1));
      }
    }
  }

  lemma EmptyRange(es: seq<Entry>, lo: int)
    ensures Tally(es, lo, lo) == Zero()
  {
    TallyNone(es, lo, lo);
  }

  lemma SlotsNone(es: seq<Entry>, cur: int, rot: int, n: int)
    requires 0 <= cur
    ensures SlotsTo(es, cur, rot, n, 0) == Zero()
  {
    hide Tally;
    EmptyRange(es, rot - cur);
  }

  lemma SlotsAll(es: seq<Entry>, cur: int, rot: int, n: int)
    requires 0 <= cur < n
    ensures SlotsTo(es, cur, rot, n, n) == Tally(es, rot - n + 1, rot + 1)
  {
    hide Plus;
    var newer, older := Tally(es, rot - cur, rot + 1), Tally(es, rot - n + 1, rot - cur);
    TallySplit(es, rot - n + 1, rot - cur, rot + 1);
    PlusComm(older, newer);
    if cur + 1 == n {
      EmptyRange(es, rot - n + 1);
      PlusZero(newer);
    }
  }

  /** How many steps of exactly a bucket lead up to slot `i`, back to the last longer step; equal
      starts are no step. */
  function ExactSteps(bs: seq<Bucket>, i: int, d: int): nat
    requires 0 <= i < |bs|
    decreases i
  {
    if i == 0 then 0
    else if bs[i].start == bs[i - 1].start then ExactSteps(bs, i - 1, d)
    else if bs[i].start == bs[i - 1].start + d then ExactSteps(bs, i - 1, d) + 1
    else 0
  }

  /** The end of slot `i`, or its start after an odd number of such steps. */
  function EndAt(bs: seq<Bucket>, i: int, d: int): int
    requires 0 <= i < |bs|
  {
    bs[i].start + if ExactSteps(bs, i, d) % 2 == 0 then d else 0
  }

  lemma EndNext(bs: seq<Bucket>, cur: int, newest: int, d: int, i: int, end: int)
    requires Spaced(bs, cur, newest, d) && d > 0 && 0 <= i < |bs|
    requires if i == 0 then end == ZERO_TIME else end == EndAt(bs, if i <= cur + 1 then i - 1 else cur, d)
    ensures (if bs[i].start > end then bs[i].start + d else end) == EndAt(bs, if i <= cur then i else cur, d)
  {
    StartsOrdered(bs, cur, newest, d);
    hide Spaced;
  }

  // ---------------------------------------------------------------- the profile

  /** The later history has one event more, with these signals. */
  predicate EndsWith(before: seq<Entry>, after: seq<Entry>, now: int, faults: int, misses: int, switches: int, lockNs: int) {
    && |after| == |before| + 1 && after[..|before|] == before
    && var e := after[|before|];
       && e.at == now && e.delta.faults == faults && e.delta.misses == misses
       && e.delta.switches == switches && e.delta.lockNs == lockNs
       && e.delta.events == faults + misses + switches + if lockNs > 0 then 1 else 0
  }

  class WorkloadProfile {
    const key: string
    const buckets: array<Bucket>
    const count: int
    const duration: int
    var currentIdx: int
    var lastRotation: int
    var nodeLocations: set<string>

    /** Every event since the last reset. */
    ghost var log: Log

    ghost predicate Valid()
      reads this, buckets
    {
      && count > 0 && duration > 0
      && buckets.Length == count
      && log.last == lastRotation
      && RingHolds(buckets[..], currentIdx, log.entries, log.rotations)
      && Spaced(buckets[..], currentIdx, lastRotation, duration)
    }

    constructor (key: string, bucketCount: int, bucketDuration: int, now: Instant)
      ensures Valid() && fresh(buckets)
      ensures this.key == key && nodeLocations == {} && log == Log([], 0, now)
      ensures count == if bucketCount <= 0 then 12 else bucketCount
      ensures duration == if bucketDuration <= 0 then 5_000_000_000 else bucketDuration
    {
      var n := if bucketCount <= 0 then DEFAULT_BUCKET_COUNT else bucketCount;
      this.key := key;
      count := n;
      duration := if bucketDuration <= 0 then DEFAULT_BUCKET_DURATION else bucketDuration;
      buckets := new Bucket[n](_ => Bucket(Zero(), now));
      currentIdx := 0;
      lastRotation := now;
      nodeLocations := {};
      log := Log([], 0, now);
      new;
      ClearedRing(buckets[..], currentIdx, 0, now, duration);
    }

    method MaybeRotate(now: Instant)
      requires Valid()
      modifies this`currentIdx, this`lastRotation, this`log, buckets
      ensures Valid() && log == Rotated(Lazy, old(log), now, duration)
    {
      hide Tally, SlotHolds, PairSpaced, Started, TagsUpTo, Due, TruncDiv;
      var elapsed := now - lastRotation;
      var rotations := TruncDiv(elapsed, duration);
      DueIsTruncated(lastRotation, now, duration);
      if rotations <= 0 {
        return;
      }
      ghost var due, w := rotations, log;
      if rotations > count {
        rotations := count;
      }
      var i := 0;
      while i < rotations
        invariant 0 <= i <= rotations
        invariant log == w && lastRotation == w.last
        invariant RingHolds(buckets[..], currentIdx, w.entries, w.rotations + i)
        invariant Spaced(buckets[..], currentIdx, if i == 0 then lastRotation else now, duration)
      {
        AdvanceHolds(buckets[..], currentIdx, w.entries, w.rotations + i, now);
        AdvanceSpaced(buckets[..], currentIdx, if i == 0 then lastRotation else now, duration, now);
        ghost var next := Advanced(buckets[..], currentIdx, now);
        currentIdx := (currentIdx + 1) % count;
        buckets[currentIdx] := Bucket(Zero(), now);
        assert buckets[..] == next;
        i := i + 1;
      }
      if due > count {
        CapIsInvisible(buckets[..], currentIdx, w.entries, w.rotations, due);
      }
      lastRotation := now;
      log := Rotated(Lazy, log, now, duration);
    }

    /** Adds `delta` to the current bucket: the part the recorders share. */
    method Add(now: Instant, delta: Counts, node: string)
      requires Valid()
      modifies this`currentIdx, this`lastRotation, this`log, this`nodeLocations, buckets
      ensures Valid() && log == Step(Lazy, old(log), Record(now, delta), duration)
      ensures nodeLocations == old(nodeLocations) + {node}
    {
      MaybeRotate(now);
      ghost var e := Entry(now, lastRotation, log.rotations, delta);
      ghost var before := buckets[..];
      AddHolds(before, currentIdx, log.entries, log.rotations, e);
      var b := buckets[currentIdx];
      buckets[currentIdx] := b.(counts := Plus(b.counts, delta));
      assert buckets[..] == before[currentIdx := Bucket(Plus(b.counts, delta), b.start)];
      SameStartsSpaced(before, buckets[..], currentIdx, lastRotation, duration);
      nodeLocations := nodeLocations + {node};
      log := log.(entries := log.entries + [e]);
    }

    method RecordPageFault(now: Instant, node: string)
      requires Valid()
      modifies this`currentIdx, this`lastRotation, this`log, this`nodeLocations, buckets
      ensures Valid() && log == Step(Lazy, old(log), Record(now, Counts(1, 1, 0, 0, 0)), duration)
      ensures nodeLocations == old(nodeLocations) + {node}
    {
      Add(now, Counts(1, 1, 0, 0, 0), node);
    }

    method RecordCacheMiss(now: Instant, delta: int, node: string)
      requires Valid()
      modifies this`currentIdx, this`lastRotation, this`log, this`nodeLocations, buckets
      ensures Valid() && log == Step(Lazy, old(log), Record(now, Counts(1, 0, delta, 0, 0)), duration)
      ensures nodeLocations == old(nodeLocations) + {node}
    {
      Add(now, Counts(1, 0, delta, 0, 0), node);
    }

    method RecordLockContention(now: Instant, durationNs: int, node: string)
      requires Valid()
      modifies this`currentIdx, this`lastRotation, this`log, this`nodeLocations, buckets
      ensures Valid() && log == Step(Lazy, old(log), Record(now, Counts(1, 0, 0, durationNs, 0)), duration)
      ensures nodeLocations == old(nodeLocations) + {node}
    {
      Add(now, Counts(1, 0, 0, durationNs, 0), node);
    }

    method RecordCtxSwitch(now: Instant, node: string)
      requires Valid()
      modifies this`currentIdx, this`lastRotation, this`log, this`nodeLocations, buckets
      ensures Valid() && log == Step(Lazy, old(log), Record(now, Counts(1, 0, 0, 0, 1)), duration)
      ensures nodeLocations == old(nodeLocations) + {node}
    {
      Add(now, Counts(1, 0, 0, 0, 1), node);
    }

    method RecordBulk(now: Instant, faults: int, misses: int, switches: int, lockNs: int, node: string)
      requires Valid()
      modifies this`currentIdx, this`lastRotation, this`log, this`nodeLocations, buckets
      ensures Valid()
      ensures log == Step(Lazy, old(log), Record(now, BulkDelta(faults, misses, switches, lockNs)), duration)
      ensures EndsWith(old(log).entries, log.entries, now, faults, misses, switches, lockNs)
      ensures nodeLocations == old(nodeLocations) + {node}
    {
      var events := faults + misses + switches;
      if lockNs > 0 {
        events := events + 1;
      }
      Add(now, Counts(events, faults, misses, lockNs, switches), node);
    }

    method ResetData(now: Instant)
      requires Valid()
      modifies this`lastRotation, this`log, buckets
      ensures Valid() && log == Step(Lazy, old(log), Reset(now), duration)
      ensures lastRotation == now && forall i :: 0 <= i < buckets.Length ==> buckets[i] == Bucket(Zero(), now)
    {
      var i := 0;
      while i < buckets.Length
        invariant 0 <= i <= buckets.Length
        invariant forall j :: 0 <= j < i ==> buckets[j] == Bucket(Zero(), now)
        invariant currentIdx == old(currentIdx) && log == old(log)
      {
        buckets[i] := Bucket(Zero(), now);
        i := i + 1;
      }
      lastRotation := now;
      log := Log([], log.rotations, now);
      ClearedRing(buckets[..], currentIdx, log.rotations, now, duration);
    }

    /** The profile reports the events fewer than `count` rotations old, over the nominal length
        of the window.  WindowStart is the start of the oldest bucket.  WindowEnd is the end of
        the newest, unless an odd number of steps of exactly a bucket lead up to it in the array:
        then it is its start. */
    method ComputeProfile(now: Instant) returns (p: RuntimeProfile)
      requires Valid()
      modifies this`currentIdx, this`lastRotation, this`log, buckets
      ensures Valid() && log == Step(Lazy, old(log), Query(now), duration)
      ensures p == ProfileOf(key, WindowTotals(log, count), count, duration, p.windowStart, p.windowEnd)
      ensures p.windowStart == buckets[(currentIdx + 1) % count].start
      ensures forall i :: 0 <= i < count ==> p.windowStart <= buckets[i].start <= lastRotation
      ensures p.windowEnd == EndAt(buckets[..], currentIdx, duration)
    {
      hide Tally, SlotsTo, SlotHolds, PairSpaced, Started, TagsUpTo, ProfileOf, Rotated, EndAt;
      MaybeRotate(now);
      var faults, misses, lockNs, switches, events := 0, 0, 0, 0, 0;
      var windowStart, windowEnd := ZERO_TIME, ZERO_TIME;
      ghost var bs := buckets[..];
      StartsOrdered(bs, currentIdx, lastRotation, duration);
      ghost var cur, last, w := currentIdx, lastRotation, log;
      SlotsNone(w.entries, cur, w.rotations, count);
      var i := 0;
      while i < buckets.Length
        invariant 0 <= i <= buckets.Length
        invariant buckets[..] == bs && currentIdx == cur && lastRotation == last && log == w
        invariant Counts(events, faults, misses, lockNs, switches)
                  == SlotsTo(w.entries, cur, w.rotations, count, i)
        invariant 0 < i <= cur + 1 ==> windowStart == bs[0].start
        invariant cur + 1 < i ==> cur + 1 < |bs| && windowStart == bs[cur + 1].start
        invariant if i == 0 then windowEnd == ZERO_TIME
                  else windowEnd == EndAt(bs, if i <= cur + 1 then i - 1 else cur, duration)
      {
        var b := buckets[i];
        SlotsNext(bs, cur, w.entries, w.rotations, i);
        EndNext(bs, cur, last, duration, i, windowEnd);
        assert b == bs[i];
        faults := faults + b.counts.faults;
        misses := misses + b.counts.misses;
        lockNs := lockNs + b.counts.lockNs;
        switches := switches + b.counts.switches;
        events := events + b.counts.events;
        if i == 0 || b.start < windowStart {
          windowStart := b.start;
        }
        if b.start > windowEnd {
          windowEnd := b.start + duration;
        }
        i := i + 1;
      }
      SlotsAll(w.entries, currentIdx, w.rotations, count);
      NextSlot(currentIdx, count);
      p := Report(Counts(events, faults, misses, lockNs, switches), windowStart, windowEnd);
    }

    method Report(c: Counts, windowStart: int, windowEnd: int) returns (p: RuntimeProfile)
      requires count > 0 && duration > 0
      ensures p == ProfileOf(key, c, count, duration, windowStart, windowEnd)
      ensures p.windowStart == windowStart && p.windowEnd == windowEnd
    {
      var seconds := count as real * (duration as real / 1e9);
      if seconds <= 0.0 {
        seconds := 1.0;
      }
      var confidence := Unknown;
      if c.events > 1000 {
        confidence := High;
      } else if c.events >= 100 {
        confidence := Medium;
      } else if c.events > 0 {
        confidence := Low;
      }
      p := RuntimeProfile(key, c.faults as real / seconds, c.misses as real / seconds,
                          c.lockNs as real / (seconds * 1e9), c.switches as real / seconds,
                          c.events, windowStart, windowEnd, confidence);
    }
  }

  /** A bulk record counts one sample per fault, miss and switch, and one for any lock time: enough
      to be honest when its arguments are not negative. */
  function BulkDelta(faults: int, misses: int, switches: int, lockNs: int): (c: Counts)
    ensures faults >= 0 && misses >= 0 && switches >= 0 && lockNs >= 0 ==> Honest(c)
  {
    Counts(faults + misses + switches + (if lockNs > 0 then 1 else 0), faults, misses, lockNs, switches)
  }

  lemma DueIsTruncated(last: int, now: int, d: int)
    requires d > 0
    ensures TruncDiv(now - last, d) <= 0 <==> Due(last, now, d) == 0
    ensures Due(last, now, d) > 0 ==> Due(last, now, d) == TruncDiv(now - last, d) && last + d <= now
  {
    if now - last >= d {
      QuotientBounds(now - last, d);
      if (now - last) / d <= 0 {
        Scale(d, (now - last) / d, 0);
      }
    } else if now - last >= 0 {
      assert (now - last) / d == 0;
    } else {
      assert (last - now) / d >= 0;
    }
  }

  lemma StartsOrdered(bs: seq<Bucket>, cur: int, newest: int, d: int)
    requires Spaced(bs, cur, newest, d) && d > 0
    ensures forall i :: 0 <= i < cur ==> bs[i].start == bs[i + 1].start || bs[i].start + d <= bs[i + 1].start
    ensures forall i, j :: 0 <= i <= j <= cur || cur < i <= j < |bs| ==> bs[i].start <= bs[j].start
    ensures forall i, j :: 0 <= i <= cur < j < |bs| ==> bs[j].start <= bs[i].start
    ensures forall i :: 0 <= i < |bs| ==> ZERO_TIME < bs[i].start <= newest
  {
    forall i, j | 0 <= i < |bs| && 0 <= j < |bs| && TagAt(cur, 0, |bs|, i) < TagAt(cur, 0, |bs|, j)
      ensures bs[i].start == bs[j].start || bs[i].start + d <= bs[j].start
    {
      assert PairSpaced(bs, cur, d, i, j);
    }
    forall i | 0 <= i < cur
      ensures bs[i].start == bs[i + 1].start || bs[i].start + d <= bs[i + 1].start
    {
      assert TagAt(cur, 0, |bs|, i) < TagAt(cur, 0, |bs|, i + 1);
    }
    forall i | 0 <= i < |bs| ensures ZERO_TIME < bs[i].start <= newest {
      assert Started(bs, i);
      assert i != cur ==> TagAt(cur, 0, |bs|, i) < TagAt(cur, 0, |bs|, cur);
    }
  }
}
