/** The lock-contention probe of pkg/ebpf/akil.c seen from its calls alone: which begin an end is
    measured from, when every insert is obliged and the map is large enough. */
module LockTraces {
  import opened LockProbe

  datatype Option<T> = None | Some(value: T)

  /** The last call of thread `id`. */
  function Latest(calls: seq<Call>, id: U64Int): Option<Call> {
    if calls == [] then None
    else if calls[|calls| - 1].id == id then Some(calls[|calls| - 1])
    else Latest(calls[..|calls| - 1], id)
  }

  lemma LatestSnoc(calls: seq<Call>, c: Call, id: U64Int)
    ensures Latest(calls + [c], id) == if c.id == id then Some(c) else Latest(calls, id)
  {
    assert (calls + [c])[..|calls|] == calls;
  }

  /** The threads that ever begin to wait. */
  function Waiters(calls: seq<Call>): set<U64Int> {
    set c | c in calls && c.Begin? :: c.id
  }

  predicate Obliged(calls: seq<Call>) {
    forall c <- calls :: c.Begin? ==> c.insertOk
  }

  /** The kernel takes every insert, and there is room for all threads. */
  predicate Roomy(calls: seq<Call>) {
    Obliged(calls) && |Waiters(calls)| <= 65536
  }

  lemma Subset(a: set<U64Int>, b: set<U64Int>)
    requires a <= b
    ensures |a| <= |b|
  {
    assert b == a + (b - a);
  }

  // ---------------------------------------------------------------- one begin

  /** A nested begin overwrites, even in a full map; a first one needs room; a refused one changes
      nothing. */
  lemma BeginOutcome(s: State, id: U64Int, now: U64Int, insertOk: bool)
    ensures Step(s, Begin(id, now, insertOk)).out == s.out
    ensures Step(s, Begin(id, now, insertOk)).starts
            == if insertOk && (id in s.starts || |s.starts| < 65536) then s.starts[id := now] else s.starts
  {
  }

  /** Whatever came before and however full the map is, an end of a waiting thread is measured from a
      begin nested in that wait. */
  lemma NestedBeginIsTheOne(calls: seq<Call>, id: U64Int, begin: U64Int, end: U64Int)
    requires id in Run(calls).starts && begin <= end
    ensures var all := calls + [Begin(id, begin, true), End(id, end, true)];
            Run(all).out == Run(calls).out + [Emitted(id, begin, end, end - begin)] && id !in Run(all).starts
  {
    var one, all := calls + [Begin(id, begin, true)], calls + [Begin(id, begin, true), End(id, end, true)];
    assert one[..|calls|] == calls && all[..|one|] == one;
    BeginOutcome(Run(calls), id, begin, true);
    NoWrap(begin, end);
  }

  // ---------------------------------------------------------------- roomy traces

  /** The map holds the threads whose last call is a begin, with the time of that begin. */
  ghost predicate HoldsLatest(calls: seq<Call>, starts: map<U64Int, U64Int>) {
    && starts.Keys <= Waiters(calls)
    && forall id: U64Int {:trigger Latest(calls, id)} ::
         && (id in starts <==> Latest(calls, id).Some? && Latest(calls, id).value.Begin?)
         && (id in starts ==> starts[id] == Latest(calls, id).value.now)
  }

  lemma {:induction false} RoomyHoldsLatest(calls: seq<Call>)
    requires Roomy(calls)
    ensures HoldsLatest(calls, Run(calls).starts)
  {
    if calls != [] {
      var init, c := calls[..|calls| - 1], calls[|calls| - 1];
      assert calls == init + [c];
      Subset(Waiters(init), Waiters(calls));
      RoomyHoldsLatest(init);
      RoomyStep(init, Run(init), c);
    }
  }

  lemma RoomyStep(init: seq<Call>, s: State, c: Call)
    requires HoldsLatest(init, s.starts) && Roomy(init + [c])
    ensures HoldsLatest(init + [c], Step(s, c).starts)
  {
    var calls := init + [c];
    assert c in calls;
    assert Waiters(calls) == Waiters(init) + (if c.Begin? then {c.id} else {});
    if c.Begin? && c.id !in s.starts {
      Subset(s.starts.Keys, Waiters(calls) - {c.id});
      assert |s.starts.Keys| == |s.starts|;
    }
    if c.Begin? {
      BeginOutcome(s, c.id, c.now, c.insertOk);
    }
    forall id: U64Int
      ensures Latest(calls, id) == if c.id == id then Some(c) else Latest(init, id)
    {
      LatestSnoc(init, c, id);
    }
  }

  /** If the kernel takes every insert and no more than 65536 threads ever wait, then an end emits
      exactly when its thread's last call was a begin and the reservation succeeds, and what it emits
      runs from that begin. */
  lemma EndIsMeasuredFromLastBegin(calls: seq<Call>, c: Call)
    requires Roomy(calls) && c.End? && Monotone(calls + [c])
    ensures var last, s, t := Latest(calls, c.id), Run(calls), Run(calls + [c]);
            if c.reserveOk && last.Some? && last.value.Begin? then Emits(s, c, t, last.value.now) else t.out == s.out
  {
    hide Roomy, Latest, Waiters, Monotone;
    RoomyHoldsLatest(calls);
    assert (calls + [c])[..|calls|] == calls;
    var s := Run(calls);
    if c.id in s.starts {
      StartBeforeNow(calls, c);
      NoWrap(s.starts[c.id], c.now);
    }
    assert c.id in s.starts <==> Latest(calls, c.id).Some? && Latest(calls, c.id).value.Begin?;
  }

  // ---------------------------------------------------------------- a full map

  /** While the map is full, a begin of a thread that is not in it is lost: its end emits nothing. */
  lemma FullMapLosesFirstBegin(calls: seq<Call>, id: U64Int, begin: U64Int, end: U64Int, insertOk: bool)
    requires |Run(calls).starts| >= 65536 && id !in Run(calls).starts
    ensures Run(calls + [Begin(id, begin, insertOk), End(id, end, true)]) == Run(calls)
  {
    var one, all := calls + [Begin(id, begin, insertOk)], calls + [Begin(id, begin, insertOk), End(id, end, true)];
    assert one[..|calls|] == calls && all[..|one|] == one;
    BeginOutcome(Run(calls), id, begin, insertOk);
  }
}
