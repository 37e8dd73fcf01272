/** The lock-contention probe of pkg/ebpf/akil.c: two tracepoint handlers over a bounded hash map from
    threads to the start of their wait.  Inserting into the map and reserving an event may each fail
    at any call. */
module LockProbe {

  const U64 := 0x1_0000_0000_0000_0000
  const MAX_ENTRIES := 65536

  type U64Int = x: int | 0 <= x < U64

  /** What one handler call sees: the thread, the clock, and whether the kernel obliges. */
  datatype Call =
    | Begin(id: U64Int, now: U64Int, insertOk: bool)
    | End(id: U64Int, now: U64Int, reserveOk: bool)

  /** A submitted event, with the interval it stands for. */
  datatype Emitted = Emitted(id: U64Int, start: U64Int, end: U64Int, durationNs: U64Int)

  datatype State = State(starts: map<U64Int, U64Int>, out: seq<Emitted>)

  /** A new key needs room; the kernel may refuse even so. */
  predicate Inserted(s: State, c: Call)
    requires c.Begin?
  {
    c.insertOk && (c.id in s.starts || |s.starts| < MAX_ENTRIES)
  }

  function Wrapped(x: int): U64Int {
    x % U64
  }

  function Step(s: State, c: Call): State {
    match c
    case Begin(id, now, _) => if Inserted(s, c) then s.(starts := s.starts[id := now]) else s
    case End(id, now, reserveOk) =>
      if id !in s.starts then s
      else
        var start := s.starts[id];
        State(s.starts - {id},
              if reserveOk then s.out + [Emitted(id, start, now, Wrapped(now - start))] else s.out)
  }

  class Probe {
    var starts: map<U64Int, U64Int>
    var durations: seq<(U64Int, U64Int, U64Int)>
    ghost var out: seq<Emitted>

    /** The submitted events: thread, timestamp and duration of each. */
    ghost predicate Valid()
      reads this
    {
      && |durations| == |out|
      && forall i :: 0 <= i < |out| ==> durations[i] == (out[i].id, out[i].end, out[i].durationNs)
    }

    constructor ()
      ensures Valid() && starts == map[] && out == []
    {
      starts, durations, out := map[], [], [];
    }

    method HandleContentionBegin(id: U64Int, ts: U64Int, insertOk: bool)
      requires Valid()
      modifies this`starts
      ensures starts == if insertOk && (id in old(starts) || |old(starts)| < MAX_ENTRIES) then old(starts)[id := ts]
                        else old(starts)
      ensures Valid() && State(starts, out) == Step(old(State(starts, out)), Begin(id, ts, insertOk))
    {
      if insertOk && (id in starts || |starts| < MAX_ENTRIES) {
        starts := starts[id := ts];
      }
    }

    method HandleContentionEnd(id: U64Int, now: U64Int, reserveOk: bool)
      requires Valid()
      modifies this
      ensures starts == old(starts) - {id}
      ensures durations == if id in old(starts) && reserveOk
                           then old(durations) + [(id, now, (now - old(starts)[id]) % U64)] else old(durations)
      ensures Valid() && State(starts, out) == Step(old(State(starts, out)), End(id, now, reserveOk))
    {
      if id !in starts {
        return;
      }
      var start := starts[id];
      var duration := Wrapped(now - start);
      starts := starts - {id};
      if !reserveOk {
        return;
      }
      durations := durations + [(id, now, duration)];
      out := out + [Emitted(id, start, now, duration)];
    }
  }

  // ---------------------------------------------------------------- traces

  function Run(calls: seq<Call>): State {
    if calls == [] then State(map[], []) else Step(Run(calls[..|calls| - 1]), calls[|calls| - 1])
  }

  /** The clock does not run backwards. */
  ghost predicate Monotone(calls: seq<Call>) {
    forall i, j :: 0 <= i <= j < |calls| ==> calls[i].now <= calls[j].now
  }

  /** The call that set what the map holds for `id`: the latest accepted begin, if no end of the
      thread came after it. */
  ghost predicate Pending(calls: seq<Call>, id: U64Int, i: int)
    requires 0 <= i < |calls|
  {
    && calls[i].Begin? && calls[i].id == id && Inserted(Run(calls[..i]), calls[i])
    && forall j :: i < j < |calls| && calls[j].id == id ==>
         calls[j].Begin? && !Inserted(Run(calls[..j]), calls[j])
  }

  lemma PendingNext(calls: seq<Call>, c: Call, id: U64Int, i: int)
    requires 0 <= i < |calls|
    ensures Pending(calls + [c], id, i) <==>
            Pending(calls, id, i) && (c.id == id ==> c.Begin? && !Inserted(Run(calls), c))
  {
    var next := calls + [c];
    assert next[..|calls|] == calls;
    forall j | 0 <= j < |calls| ensures next[j] == calls[j] && next[..j] == calls[..j] {
    }
    assert next[|calls|] == c;
  }

  /** The map holds, for each thread, exactly the time of its pending begin. */
  ghost predicate Tracks(calls: seq<Call>, s: State) {
    forall id: U64Int ::
      && (id in s.starts ==> exists i :: 0 <= i < |calls| && Pending(calls, id, i) && calls[i].now == s.starts[id])
      && (id !in s.starts ==> forall i :: 0 <= i < |calls| ==> !Pending(calls, id, i))
  }

  lemma {:induction false} MapTracksPending(calls: seq<Call>)
    ensures Tracks(calls, Run(calls))
  {
    if calls != [] {
      var init, c := calls[..|calls| - 1], calls[|calls| - 1];
      MapTracksPending(init);
      assert calls == init + [c];
      forall id: U64Int
        ensures id in Run(calls).starts ==>
                  exists i :: 0 <= i < |calls| && Pending(calls, id, i) && calls[i].now == Run(calls).starts[id]
        ensures id !in Run(calls).starts ==> forall i :: 0 <= i < |calls| ==> !Pending(calls, id, i)
      {
        TracksOne(init, c, id);
      }
    }
  }

  lemma TracksOne(init: seq<Call>, c: Call, id: U64Int)
    requires Tracks(init, Run(init))
    ensures var calls := init + [c];
            && (id in Run(calls).starts ==>
                  exists i :: 0 <= i < |calls| && Pending(calls, id, i) && calls[i].now == Run(calls).starts[id])
            && (id !in Run(calls).starts ==> forall i :: 0 <= i < |calls| ==> !Pending(calls, id, i))
  {
    var calls := init + [c];
    var s := Run(init);
    assert calls[..|init|] == init;
    assert Run(calls) == Step(s, c);
    forall i | 0 <= i < |init|
      ensures Pending(calls, id, i) <==>
              Pending(init, id, i) && (c.id == id ==> c.Begin? && !Inserted(s, c))
    {
      PendingNext(init, c, id, i);
    }
    if c.Begin? && c.id == id && Inserted(s, c) {
      assert Pending(calls, id, |init|);
    } else {
      assert !Pending(calls, id, |init|);
      if id in Run(calls).starts {
        var i :| 0 <= i < |init| && Pending(init, id, i) && init[i].now == s.starts[id];
        assert Pending(calls, id, i) && calls[i].now == init[i].now;
      }
    }
  }

  ghost predicate HasPending(calls: seq<Call>, id: U64Int) {
    exists i :: 0 <= i < |calls| && Pending(calls, id, i)
  }

  ghost predicate PendingAt(calls: seq<Call>, id: U64Int, time: int) {
    exists i :: 0 <= i < |calls| && Pending(calls, id, i) && calls[i].now == time
  }

  lemma StartIsPending(calls: seq<Call>, id: U64Int)
    ensures id in Run(calls).starts <==> HasPending(calls, id)
    ensures id in Run(calls).starts ==> PendingAt(calls, id, Run(calls).starts[id])
  {
    MapTracksPending(calls);
  }

  lemma NoWrap(from: U64Int, to: U64Int)
    requires from <= to
    ensures Wrapped(to - from) == to - from
  {
  }

  /** The events after `c`, if it emits an interval from `start`. */
  ghost predicate Emits(s: State, c: Call, t: State, start: U64Int) {
    start <= c.now && t.out == s.out + [Emitted(c.id, start, c.now, c.now - start)]
  }

  lemma StartBeforeNow(calls: seq<Call>, c: Call)
    requires Monotone(calls + [c]) && c.id in Run(calls).starts
    ensures Run(calls).starts[c.id] <= c.now
  {
    StartIsPending(calls, c.id);
    var start := Run(calls).starts[c.id];
    var i :| 0 <= i < |calls| && Pending(calls, c.id, i) && calls[i].now == start;
    assert (calls + [c])[i].now <= (calls + [c])[|calls|].now;
  }

  /** An end emits exactly when an accepted begin is pending and the reservation succeeds; the event
      runs from that begin to now, and its duration does not wrap. */
  lemma EmittedFromLatestBegin(calls: seq<Call>, c: Call)
    requires Monotone(calls + [c]) && c.End?
    ensures var s, t := Run(calls), Run(calls + [c]);
            if c.reserveOk && HasPending(calls, c.id)
            then exists start: U64Int :: PendingAt(calls, c.id, start) && Emits(s, c, t, start)
            else t.out == s.out
  {
    StartIsPending(calls, c.id);
    assert (calls + [c])[..|calls|] == calls;
    var s := Run(calls);
    if c.id in s.starts {
      StartBeforeNow(calls, c);
      NoWrap(s.starts[c.id], c.now);
    }
  }

  // ---------------------------------------------------------------- one thread's intervals

  /** The events of thread `id`, in order. */
  function Of(out: seq<Emitted>, id: U64Int): seq<Emitted> {
    if out == [] then []
    else Of(out[..|out| - 1], id) + (if out[|out| - 1].id == id then [out[|out| - 1]] else [])
  }

  function TotalNs(es: seq<Emitted>): int {
    if es == [] then 0 else TotalNs(es[..|es| - 1]) + es[|es| - 1].durationNs
  }

  lemma OfSnoc(out: seq<Emitted>, e: Emitted, id: U64Int)
    ensures Of(out + [e], id) == if e.id == id then Of(out, id) + [e] else Of(out, id)
  {
    assert (out + [e])[..|out|] == out;
  }

  lemma TotalSnoc(es: seq<Emitted>, e: Emitted)
    ensures TotalNs(es + [e]) == TotalNs(es) + e.durationNs
  {
    assert (es + [e])[..|es|] == es;
  }

  /** Intervals follow each other without overlapping, from `lo` to `hi`, and none wraps. */
  ghost predicate Chained(es: seq<Emitted>, lo: int, hi: int) {
    && (forall i :: 0 <= i < |es| ==> lo <= es[i].start <= es[i].end <= hi && es[i].durationNs == es[i].end - es[i].start)
    && (forall i, j :: 0 <= i < j < |es| ==> es[i].end <= es[j].start)
  }

  lemma ChainedSnoc(es: seq<Emitted>, lo: int, mid: int, e: Emitted)
    requires Chained(es, lo, mid) && lo <= mid <= e.start <= e.end && e.durationNs == e.end - e.start
    ensures Chained(es + [e], lo, e.end)
  {
  }

  lemma {:induction false} ChainedTotal(es: seq<Emitted>, lo: int, hi: int)
    requires Chained(es, lo, hi) && lo <= hi
    ensures 0 <= TotalNs(es) <= hi - lo
  {
    if es != [] {
      var init, e := es[..|es| - 1], es[|es| - 1];
      assert es == init + [e];
      TotalSnoc(init, e);
      forall i | 0 <= i < |init| ensures init[i].end <= e.start {
      }
      ChainedTotal(init, lo, e.start);
    }
  }

  ghost predicate FirstBegin(calls: seq<Call>, id: U64Int, first: int) {
    && (forall i :: 0 <= i < |calls| && calls[i].Begin? && calls[i].id == id ==> first <= calls[i].now)
  }

  function Clock(calls: seq<Call>, first: int): int {
    if calls == [] then first else calls[|calls| - 1].now
  }

  ghost predicate Disjoint(calls: seq<Call>, s: State, id: U64Int, first: int) {
    var es, now := Of(s.out, id), Clock(calls, first);
    if id in s.starts then first <= s.starts[id] <= now && Chained(es, first, s.starts[id])
    else es == [] || (first <= now && Chained(es, first, now))
  }

  lemma ChainedLater(es: seq<Emitted>, lo: int, hi: int, hi': int)
    requires Chained(es, lo, hi) && hi <= hi'
    ensures Chained(es, lo, hi')
  {
  }

  lemma NoneOf(id: U64Int)
    ensures Of([], id) == []
  {
  }

  lemma ChainedNone(lo: int, hi: int)
    ensures Chained([], lo, hi)
  {
  }

  lemma StepDisjoint(init: seq<Call>, s: State, c: Call, id: U64Int, first: int)
    requires Disjoint(init, s, id, first) && (init == [] ==> s.starts == map[] && s.out == [])
    requires init != [] ==> init[|init| - 1].now <= c.now
    requires c.Begin? && c.id == id ==> first <= c.now
    ensures Disjoint(init + [c], Step(s, c), id, first)
  {
    hide Chained, Of, Inserted, Wrapped;
    var t, es := Step(s, c), Of(s.out, id);
    assert Clock(init + [c], first) == c.now;
    NoneOf(id);
    if c.End? && c.id in s.starts {
      var e := Emitted(c.id, s.starts[c.id], c.now, Wrapped(c.now - s.starts[c.id]));
      OfSnoc(s.out, e, id);
      if c.id == id {
        NoWrap(s.starts[id], c.now);
        ChainedSnoc(es, first, s.starts[id], e);
        ChainedLater(es, first, s.starts[id], c.now);
      }
    }
    if id in s.starts {
      ChainedLater(es, first, s.starts[id], c.now);
    } else if es == [] {
      ChainedNone(first, c.now);
    } else {
      ChainedLater(es, first, Clock(init, first), c.now);
    }
  }

  /** What is emitted for a thread lies before the begin that is pending, or else before now. */
  lemma {:induction false} IntervalsDisjoint(calls: seq<Call>, id: U64Int, first: int)
    requires Monotone(calls) && FirstBegin(calls, id, first)
    ensures Disjoint(calls, Run(calls), id, first)
  {
    if calls != [] {
      var init, c := calls[..|calls| - 1], calls[|calls| - 1];
      assert forall i :: 0 <= i < |init| ==> init[i] == calls[i];
      assert calls == init + [c];
      IntervalsDisjoint(init, id, first);
      StepDisjoint(init, Run(init), c, id, first);
    }
  }

  /** For every trace, whatever fails: a thread's emitted intervals never overlap, each duration is
      the true difference, and together they are no longer than the time since its first begin. */
  lemma WaitsFitInTime(calls: seq<Call>, id: U64Int, first: int)
    requires Monotone(calls) && FirstBegin(calls, id, first) && Of(Run(calls).out, id) != []
    ensures var es, now := Of(Run(calls).out, id), Clock(calls, first);
            Chained(es, first, now) && TotalNs(es) <= now - first
  {
    IntervalsDisjoint(calls, id, first);
    if id in Run(calls).starts {
      ChainedLater(Of(Run(calls).out, id), first, Run(calls).starts[id], Clock(calls, first));
    }
    ChainedTotal(Of(Run(calls).out, id), first, Clock(calls, first));
  }
}
