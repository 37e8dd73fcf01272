/** pkg/telemetry/batch.go: any number of goroutines add events, one ticker goroutine flushes and
    finally closes the output channel, one consumer receives.  A move is what a goroutine does
    between two points where another may run: a section under the mutex, or a channel operation. */
module Batching {

  datatype Event = Event(workload: string, timestampNs: int)

  /** maxEvents and the channel capacity are positive: zero is replaced by a default. */
  datatype Config = Config(maxEvents: nat, capacity: nat, adders: nat)

  predicate Proper(c: Config) {
    c.maxEvents > 0 && c.capacity > 0
  }

  /** Where an adder is: not in Add, past its append and owing a flush, or past the swap with a
      batch to send. */
  datatype Adder = Ready | Owing | Sending(batch: nat)

  datatype Ticker =
    | Waiting
    | Flushing(final: bool)
    | Posting(batch: nat, final: bool)
    | Closing
    | Stopped

  /** Batches are named by the order in which they were swapped out. */
  datatype State = State(
    current: seq<Event>,
    history: seq<Event>,
    swapped: seq<seq<Event>>,
    adders: seq<Adder>,
    ticker: Ticker,
    queue: seq<nat>,
    consumed: seq<nat>,
    dropped: seq<nat>,
    stopping: bool,
    closed: bool,
    panicked: bool)

  datatype Move =
    | Add(i: nat, e: Event)
    | SwapAdder(i: nat)
    | SendAdder(i: nat)
    | Tick
    | NoticeStop
    | SwapTicker
    | SendTicker
    | Close
    | Stop
    | Consume

  function Init(c: Config): State {
    State([], [], [], seq(c.adders, _ => Ready), Waiting, [], [], [], false, false, false)
  }

  predicate Enabled(s: State, m: Move) {
    !s.panicked &&
    match m
    case Add(i, _) => i < |s.adders| && s.adders[i].Ready?
    case SwapAdder(i) => i < |s.adders| && s.adders[i].Owing?
    case SendAdder(i) => i < |s.adders| && s.adders[i].Sending?
    case Tick => s.ticker.Waiting?
    case NoticeStop => s.ticker.Waiting? && s.stopping
    case SwapTicker => s.ticker.Flushing?
    case SendTicker => s.ticker.Posting?
    case Close => s.ticker.Closing?
    case Stop => !s.stopping
    case Consume => s.queue != []
  }

  /** The section of flush under the mutex, when there is something to flush. */
  function Swap(s: State): State {
    s.(swapped := s.swapped + [s.current], current := [])
  }

  /** The non-blocking send: a full channel drops the batch, a closed one panics. */
  function Send(c: Config, s: State, batch: nat): State {
    if s.closed then s.(panicked := true)
    else if |s.queue| < c.capacity then s.(queue := s.queue + [batch])
    else s.(dropped := s.dropped + [batch])
  }

  function SetAdder(s: State, i: nat, a: Adder): State
    requires i < |s.adders|
  {
    s.(adders := s.adders[i := a])
  }

  function AfterFlush(final: bool): Ticker {
    if final then Closing else Waiting
  }

  function Next(c: Config, s: State, m: Move): State
    requires Enabled(s, m)
  {
    match m
    case Add(i, e) =>
      var t := s.(current := s.current + [e], history := s.history + [e]);
      SetAdder(t, i, if |t.current| >= c.maxEvents then Owing else Ready)
    case SwapAdder(i) =>
      if s.current == [] then SetAdder(s, i, Ready) else SetAdder(Swap(s), i, Sending(|s.swapped|))
    case SendAdder(i) =>
      if s.closed then s.(panicked := true) else SetAdder(Send(c, s, s.adders[i].batch), i, Ready)
    case Tick => s.(ticker := Flushing(false))
    case NoticeStop => s.(ticker := Flushing(true))
    case SwapTicker =>
      if s.current == [] then s.(ticker := AfterFlush(s.ticker.final))
      else Swap(s).(ticker := Posting(|s.swapped|, s.ticker.final))
    case SendTicker =>
      if s.closed then s.(panicked := true)
      else Send(c, s, s.ticker.batch).(ticker := AfterFlush(s.ticker.final))
    case Close => s.(ticker := Stopped, closed := true)
    case Stop => s.(stopping := true)
    case Consume => s.(queue := s.queue[1..], consumed := s.consumed + [s.queue[0]])
  }

  predicate Runs(c: Config, s: State, ms: seq<Move>)
    decreases |ms|
  {
    ms == [] || (Enabled(s, ms[0]) && Runs(c, Next(c, s, ms[0]), ms[1..]))
  }

  function After(c: Config, s: State, ms: seq<Move>): State
    requires Runs(c, s, ms)
    decreases |ms|
  {
    if ms == [] then s else After(c, Next(c, s, ms[0]), ms[1..])
  }

  lemma {:induction false} RunsAppend(c: Config, s: State, a: seq<Move>, b: seq<Move>)
    requires Runs(c, s, a) && Runs(c, After(c, s, a), b)
    ensures Runs(c, s, a + b) && After(c, s, a + b) == After(c, After(c, s, a), b)
    decreases |a|
  {
    if a == [] {
      assert a + b == b;
    } else {
      RunsAppend(c, Next(c, s, a[0]), a[1..], b);
      assert (a + b)[1..] == a[1..] + b;
    }
  }

  lemma RunsOne(c: Config, s: State, m: Move)
    requires Enabled(s, m)
    ensures Runs(c, s, [m]) && After(c, s, [m]) == Next(c, s, m)
  {
    assert [m][1..] == [];
    assert Runs(c, Next(c, s, m), []);
  }

  // ---------------------------------------------------------------- batch size

  function Owed(adders: seq<Adder>): nat {
    if adders == [] then 0
    else Owed(adders[..|adders| - 1]) + (if adders[|adders| - 1].Owing? then 1 else 0)
  }

  lemma {:induction false} OwedUpdate(adders: seq<Adder>, i: nat, a: Adder)
    requires i < |adders|
    ensures Owed(adders[i := a])
            == Owed(adders) - (if adders[i].Owing? then 1 else 0) + (if a.Owing? then 1 else 0)
  {
    var n := |adders| - 1;
    var after := adders[i := a];
    if i < n {
      OwedUpdate(adders[..n], i, a);
      assert after[..n] == adders[..n][i := a];
    } else {
      assert after[..n] == adders[..n];
    }
  }

  lemma {:induction false} OwedBound(adders: seq<Adder>)
    ensures Owed(adders) <= |adders|
  {
    if adders != [] {
      OwedBound(adders[..|adders| - 1]);
    }
  }

  /** The event that fills a batch, and each one beyond, has its adder still owing a flush. */
  ghost predicate Sized(c: Config, s: State) {
    && |s.adders| == c.adders
    && |s.current| + 1 <= c.maxEvents + Owed(s.adders)
    && forall b <- s.swapped :: 0 < |b| && |b| + 1 <= c.maxEvents + c.adders
  }

  lemma StepSized(c: Config, s: State, m: Move)
    requires Proper(c) && Sized(c, s) && Enabled(s, m)
    ensures Sized(c, Next(c, s, m))
  {
    OwedBound(s.adders);
    match m
    case Add(i, e) => OwedUpdate(s.adders, i, if |s.current| + 1 >= c.maxEvents then Owing else Ready);
    case SwapAdder(i) => OwedUpdate(s.adders, i, if s.current == [] then Ready else Sending(|s.swapped|));
    case SendAdder(i) => OwedUpdate(s.adders, i, Ready);
    case _ =>
  }

  lemma {:induction false} InitOwesNothing(n: nat)
    ensures Owed(seq(n, _ => Ready)) == 0
  {
    if n > 0 {
      InitOwesNothing(n - 1);
      assert seq(n, _ => Ready)[..n - 1] == seq(n - 1, _ => Ready);
    }
  }

  lemma {:induction false} RunSized(c: Config, s: State, ms: seq<Move>)
    requires Proper(c) && Sized(c, s) && Runs(c, s, ms)
    ensures Sized(c, After(c, s, ms))
    decreases |ms|
  {
    if ms != [] {
      StepSized(c, s, ms[0]);
      RunSized(c, Next(c, s, ms[0]), ms[1..]);
    }
  }

  /** In every reachable state `current` and every batch hold at most maxEvents - 1 + N events. */
  lemma BatchSizeBound(c: Config, ms: seq<Move>)
    requires Proper(c) && Runs(c, Init(c), ms)
    ensures var s := After(c, Init(c), ms);
            && |s.current| <= c.maxEvents - 1 + c.adders
            && forall b <- s.swapped :: 0 < |b| <= c.maxEvents - 1 + c.adders
  {
    InitOwesNothing(c.adders);
    RunSized(c, Init(c), ms);
    OwedBound(After(c, Init(c), ms).adders);
  }

  // ---------------------------------------------------------------- the bound is met

  function Repeat(m: Move, k: nat): seq<Move> {
    seq(k, _ => m)
  }

  /** One adder fills the batch up to one short of its maximum. */
  lemma {:induction false} AddUpTo(c: Config, s: State, e: Event, k: nat)
    requires Proper(c) && !s.panicked && |s.adders| > 0 && s.adders[0].Ready? && |s.current| + k < c.maxEvents
    ensures Runs(c, s, Repeat(Add(0, e), k))
    ensures var t := After(c, s, Repeat(Add(0, e), k));
            t.adders == s.adders && |t.current| == |s.current| + k && !t.panicked && t.swapped == s.swapped
    decreases k
  {
    if k > 0 {
      var ms := Repeat(Add(0, e), k);
      var t := Next(c, s, ms[0]);
      assert ms[1..] == Repeat(Add(0, e), k - 1);
      assert t.adders == s.adders;
      AddUpTo(c, t, e, k - 1);
    }
  }

  function EachAdds(from: nat, n: nat, e: Event): seq<Move>
    decreases n - from
  {
    if from >= n then [] else [Add(from, e)] + EachAdds(from + 1, n, e)
  }

  /** Then every adder appends once before any of them flushes. */
  lemma {:induction false} AllAddOnce(c: Config, s: State, from: nat, e: Event)
    requires Proper(c) && !s.panicked && |s.adders| == c.adders && from <= c.adders
    requires |s.current| + 1 >= c.maxEvents
    requires forall i :: 0 <= i < from ==> s.adders[i].Owing?
    requires forall i :: from <= i < c.adders ==> s.adders[i].Ready?
    ensures Runs(c, s, EachAdds(from, c.adders, e))
    ensures var t := After(c, s, EachAdds(from, c.adders, e));
            && |t.current| == |s.current| + c.adders - from && !t.panicked && t.swapped == s.swapped
            && |t.adders| == c.adders && forall i :: 0 <= i < c.adders ==> t.adders[i].Owing?
    decreases c.adders - from
  {
    if from < c.adders {
      var ms := EachAdds(from, c.adders, e);
      AllAddOnce(c, Next(c, s, ms[0]), from + 1, e);
      assert ms[1..] == EachAdds(from + 1, c.adders, e);
    }
  }

  /** A run whose first batch holds maxEvents - 1 + N events. */
  lemma BatchSizeMet(c: Config, e: Event) returns (ms: seq<Move>)
    requires Proper(c) && c.adders > 0
    ensures Runs(c, Init(c), ms)
    ensures var s := After(c, Init(c), ms); |s.swapped| == 1 && |s.swapped[0]| == c.maxEvents - 1 + c.adders
  {
    var s := Init(c);
    var fill := Repeat(Add(0, e), c.maxEvents - 1);
    AddUpTo(c, s, e, c.maxEvents - 1);
    var t := After(c, s, fill);
    var each := EachAdds(0, c.adders, e);
    AllAddOnce(c, t, 0, e);
    var u := After(c, t, each);
    RunsAppend(c, s, fill, each);
    RunsOne(c, u, SwapAdder(0));
    RunsAppend(c, s, fill + each, [SwapAdder(0)]);
    ms := fill + each + [SwapAdder(0)];
  }

  /** "The maximum number of events per batch" is one exactly when events are added by at most one
      goroutine. */
  lemma MaxEventsHoldsIff(c: Config)
    requires Proper(c)
    ensures (forall ms | Runs(c, Init(c), ms) :: forall b <- After(c, Init(c), ms).swapped :: |b| <= c.maxEvents)
            <==> c.adders <= 1
  {
    if c.adders <= 1 {
      forall ms | Runs(c, Init(c), ms)
        ensures forall b <- After(c, Init(c), ms).swapped :: |b| <= c.maxEvents
      {
        BatchSizeBound(c, ms);
      }
    } else {
      var ms := BatchSizeMet(c, Event("", 0));
      var s := After(c, Init(c), ms);
      assert s.swapped[0] in s.swapped;
    }
  }

  // ---------------------------------------------------------------- conservation

  function Flat(bs: seq<seq<Event>>): seq<Event> {
    if bs == [] then [] else Flat(bs[..|bs| - 1]) + bs[|bs| - 1]
  }

  function Load(a: Adder, b: nat): nat {
    if a == Sending(b) then 1 else 0
  }

  /** How many adders hold batch `b`. */
  function Carried(adders: seq<Adder>, b: nat): nat {
    if adders == [] then 0 else Carried(adders[..|adders| - 1], b) + Load(adders[|adders| - 1], b)
  }

  lemma {:induction false} CarriedUpdate(adders: seq<Adder>, i: nat, a: Adder, b: nat)
    requires i < |adders|
    ensures Carried(adders[i := a], b) == Carried(adders, b) - Load(adders[i], b) + Load(a, b)
  {
    var n := |adders| - 1;
    var after := adders[i := a];
    if i < n {
      CarriedUpdate(adders[..n], i, a, b);
      assert after[..n] == adders[..n][i := a];
    } else {
      assert after[..n] == adders[..n];
    }
  }

  /** How often batch `b` is in flight, queued, consumed or dropped. */
  function Copies(s: State, b: nat): nat {
    Carried(s.adders, b) + (if s.ticker.Posting? && s.ticker.batch == b then 1 else 0)
    + Times(s.queue, b) + Times(s.consumed, b) + Times(s.dropped, b)
  }

  function Times(xs: seq<nat>, b: nat): nat {
    multiset(xs)[b]
  }

  /** No event is lost, doubled or reordered on its way into a batch, and every batch is in exactly
      one place. */
  ghost predicate Conserved(s: State) {
    && Flat(s.swapped) + s.current == s.history
    && forall b: nat :: Copies(s, b) == if b < |s.swapped| then 1 else 0
  }

  lemma SwapFlat(bs: seq<seq<Event>>, b: seq<Event>)
    ensures Flat(bs + [b]) == Flat(bs) + b
  {
    assert (bs + [b])[..|bs|] == bs;
  }

  lemma FlatKept(c: Config, s: State, m: Move)
    requires Enabled(s, m) && Flat(s.swapped) + s.current == s.history
    ensures var t := Next(c, s, m); Flat(t.swapped) + t.current == t.history
  {
    hide Flat;
    SwapFlat(s.swapped, s.current);
  }

  lemma StepConserved(c: Config, s: State, m: Move)
    requires Conserved(s) && Enabled(s, m)
    ensures Conserved(Next(c, s, m))
  {
    hide Copies, Flat, Enabled;
    FlatKept(c, s, m);
    var t := Next(c, s, m);
    SwappedGrows(c, s, m);
    hide Next;
    forall b: nat ensures Copies(t, b) == if b < |t.swapped| then 1 else 0 {
      StepCopies(c, s, m, b);
    }
  }

  lemma SwappedGrows(c: Config, s: State, m: Move)
    requires Enabled(s, m)
    ensures |s.swapped| <= |Next(c, s, m).swapped| <= |s.swapped| + 1
  {
  }

  lemma TimesSnoc(xs: seq<nat>, x: nat, b: nat)
    ensures Times(xs + [x], b) == Times(xs, b) + if x == b then 1 else 0
  {
  }

  lemma TimesTail(xs: seq<nat>, b: nat)
    requires xs != []
    ensures Times(xs, b) == Times(xs[1..], b) + if xs[0] == b then 1 else 0
  {
    assert xs == [xs[0]] + xs[1..];
  }

  lemma SendCopies(c: Config, s: State, batch: nat, b: nat)
    requires !s.closed
    ensures var t := Send(c, s, batch);
            && t.adders == s.adders && t.ticker == s.ticker && t.consumed == s.consumed && t.swapped == s.swapped
            && Times(t.queue, b) + Times(t.dropped, b)
               == Times(s.queue, b) + Times(s.dropped, b) + if batch == b then 1 else 0
  {
    hide Times;
    TimesSnoc(s.queue, batch, b);
    TimesSnoc(s.dropped, batch, b);
  }

  /** A swap makes one copy of the next batch; every other move keeps the copies there are. */
  lemma StepCopies(c: Config, s: State, m: Move, b: nat)
    requires Enabled(s, m)
    ensures Copies(Next(c, s, m), b)
            == Copies(s, b) + if |Next(c, s, m).swapped| > |s.swapped| && b == |s.swapped| then 1 else 0
  {
    hide Times, Carried, Send;
    if m.Add? || m.SwapAdder? || m.SendAdder? {
      AdderCopies(c, s, m, b);
    } else if m.SendTicker? && !s.closed {
      SendCopies(c, s, s.ticker.batch, b);
    } else if m.Consume? {
      TimesSnoc(s.consumed, s.queue[0], b);
      TimesTail(s.queue, b);
    }
  }

  lemma AdderCopies(c: Config, s: State, m: Move, b: nat)
    requires Enabled(s, m) && (m.Add? || m.SwapAdder? || m.SendAdder?)
    ensures Copies(Next(c, s, m), b)
            == Copies(s, b) + if |Next(c, s, m).swapped| > |s.swapped| && b == |s.swapped| then 1 else 0
  {
    hide Times, Carried, Send;
    match m
    case Add(i, e) => CarriedUpdate(s.adders, i, if |s.current| + 1 >= c.maxEvents then Owing else Ready, b);
    case SwapAdder(i) => CarriedUpdate(s.adders, i, if s.current == [] then Ready else Sending(|s.swapped|), b);
    case SendAdder(i) =>
      CarriedUpdate(s.adders, i, Ready, b);
      if !s.closed {
        SendCopies(c, s, s.adders[i].batch, b);
      }
  }

  lemma {:induction false} InitCarriesNothing(n: nat, b: nat)
    ensures Carried(seq(n, _ => Ready), b) == 0
  {
    if n > 0 {
      InitCarriesNothing(n - 1, b);
      assert seq(n, _ => Ready)[..n - 1] == seq(n - 1, _ => Ready);
    }
  }

  lemma {:induction false} RunConserved(c: Config, s: State, ms: seq<Move>)
    requires Conserved(s) && Runs(c, s, ms)
    ensures Conserved(After(c, s, ms))
    decreases |ms|
  {
    if ms != [] {
      StepConserved(c, s, ms[0]);
      RunConserved(c, Next(c, s, ms[0]), ms[1..]);
    }
  }

  /** In every reachable state. */
  lemma NothingLost(c: Config, ms: seq<Move>)
    requires Runs(c, Init(c), ms)
    ensures Conserved(After(c, Init(c), ms))
  {
    forall b: nat ensures Copies(Init(c), b) == 0 {
      InitCarriesNothing(c.adders, b);
    }
    RunConserved(c, Init(c), ms);
  }

  // ---------------------------------------------------------------- shutdown

  predicate NoAdd(ms: seq<Move>) {
    forall m <- ms :: !m.Add?
  }

  /** No adder has a batch to send, and those owing a flush would find nothing to swap. */
  predicate Quiescent(s: State) {
    && (forall i :: 0 <= i < |s.adders| ==> !s.adders[i].Sending?)
    && (s.current == [] || forall i :: 0 <= i < |s.adders| ==> s.adders[i].Ready?)
  }

  predicate Final(t: Ticker) {
    match t
    case Waiting => false
    case Flushing(final) => final
    case Posting(_, final) => final
    case Closing => true
    case Stopped => true
  }

  /** The channel is closed exactly once, by a ticker that was told to stop and then flushed. */
  ghost predicate ClosedLast(s: State) {
    && (s.closed <==> s.ticker.Stopped?)
    && (Final(s.ticker) ==> s.stopping)
  }

  lemma {:induction false} RunClosedLast(c: Config, s: State, ms: seq<Move>)
    requires ClosedLast(s) && Runs(c, s, ms)
    ensures ClosedLast(After(c, s, ms))
    decreases |ms|
  {
    if ms != [] {
      RunClosedLast(c, Next(c, s, ms[0]), ms[1..]);
    }
  }

  /** While stopping, nothing is added and nothing is left behind once the final flush has swapped. */
  ghost predicate Winding(s: State) {
    && !s.panicked && s.stopping && ClosedLast(s) && Quiescent(s)
    && (Final(s.ticker) && !s.ticker.Flushing? ==> s.current == [])
  }

  lemma StepWinding(c: Config, s: State, m: Move)
    requires Winding(s) && Enabled(s, m) && !m.Add?
    ensures Winding(Next(c, s, m))
  {
  }

  lemma {:induction false} RunWinding(c: Config, s: State, ms: seq<Move>)
    requires Winding(s) && Runs(c, s, ms) && NoAdd(ms)
    ensures Winding(After(c, s, ms))
    decreases |ms|
  {
    if ms != [] {
      assert ms[0] in ms;
      StepWinding(c, s, ms[0]);
      RunWinding(c, Next(c, s, ms[0]), ms[1..]);
    }
  }

  /** One move of the ticker on its way to Close. */
  function Onward(s: State): Move
    requires !s.ticker.Stopped?
  {
    match s.ticker
    case Waiting => NoticeStop
    case Flushing(_) => SwapTicker
    case Posting(_, _) => SendTicker
    case Closing => Close
  }

  function Distance(t: Ticker): nat {
    match t
    case Stopped => 0
    case Closing => 1
    case Posting(_, final) => if final then 2 else 5
    case Flushing(final) => if final then 3 else 6
    case Waiting => 4
  }

  /** From any state that is stopping the ticker alone can close the channel; no adder moves. */
  lemma {:induction false} TickerCloses(c: Config, s: State) returns (ms: seq<Move>)
    requires s.stopping && !s.panicked && ClosedLast(s)
    ensures Runs(c, s, ms) && NoAdd(ms)
    ensures var t := After(c, s, ms); t.closed && !t.panicked && t.adders == s.adders
    decreases Distance(s.ticker)
  {
    if s.ticker.Stopped? {
      ms := [];
    } else {
      var m := Onward(s);
      var t := Next(c, s, m);
      var rest := TickerCloses(c, t);
      RunsOne(c, s, m);
      RunsAppend(c, s, [m], rest);
      ms := [m] + rest;
    }
  }

  /** An adder that holds a batch when Stop is called can be left to send on a closed channel. */
  lemma StrandedSender(c: Config, s: State, i: nat) returns (ms: seq<Move>)
    requires s.stopping && !s.panicked && ClosedLast(s) && i < |s.adders| && s.adders[i].Sending?
    ensures Runs(c, s, ms) && NoAdd(ms) && After(c, s, ms).panicked
  {
    var closing := TickerCloses(c, s);
    var t := After(c, s, closing);
    RunsOne(c, t, SendAdder(i));
    RunsAppend(c, s, closing, [SendAdder(i)]);
    ms := closing + [SendAdder(i)];
  }

  lemma UnsafeStop(c: Config, s: State) returns (ms: seq<Move>)
    requires s.stopping && !s.panicked && ClosedLast(s) && !s.closed && !Quiescent(s)
    ensures Runs(c, s, ms) && NoAdd(ms) && After(c, s, ms).panicked
  {
    if i: nat :| i < |s.adders| && s.adders[i].Sending? {
      ms := StrandedSender(c, s, i);
    } else {
      var i: nat :| i < |s.adders| && !s.adders[i].Ready?;
      var m := SwapAdder(i);
      var t := Next(c, s, m);
      assert t.adders[i].Sending?;
      var rest := StrandedSender(c, t, i);
      RunsOne(c, s, m);
      RunsAppend(c, s, [m], rest);
      ms := [m] + rest;
    }
  }

  /** Stop is safe in a reachable state exactly when it is quiescent: if no Add begins afterwards,
      then no interleaving sends on the closed channel. */
  lemma StopIsSafeIff(c: Config, before: seq<Move>)
    requires Runs(c, Init(c), before)
    requires var s := After(c, Init(c), before); !s.panicked && !s.stopping
    ensures var s := After(c, Init(c), before);
            (forall ms | Runs(c, Next(c, s, Stop), ms) && NoAdd(ms) :: !After(c, Next(c, s, Stop), ms).panicked)
            <==> Quiescent(s)
  {
    var s := After(c, Init(c), before);
    RunClosedLast(c, Init(c), before);
    var t := Next(c, s, Stop);
    if Quiescent(s) {
      forall ms | Runs(c, t, ms) && NoAdd(ms) ensures !After(c, t, ms).panicked {
        RunWinding(c, t, ms);
      }
    } else {
      var ms := UnsafeStop(c, t);
    }
  }

  /** If every Add has returned before Stop and none begins after, then once the ticker has stopped
      nothing is left: every event ever added is in a batch that was queued, consumed or dropped. */
  lemma CleanShutdown(c: Config, before: seq<Move>, ms: seq<Move>)
    requires Runs(c, Init(c), before)
    requires var s := After(c, Init(c), before);
             && !s.panicked && !s.stopping && (forall i :: 0 <= i < |s.adders| ==> s.adders[i].Ready?)
             && Runs(c, Next(c, s, Stop), ms)
    requires NoAdd(ms)
    ensures var t := After(c, Next(c, After(c, Init(c), before), Stop), ms);
            && !t.panicked
            && t.history == After(c, Init(c), before).history
            && (t.ticker.Stopped? ==>
                  && t.current == [] && Flat(t.swapped) == t.history
                  && forall b :: 0 <= b < |t.swapped| ==>
                       multiset(t.queue)[b] + multiset(t.consumed)[b] + multiset(t.dropped)[b] == 1)
  {
    var s := After(c, Init(c), before);
    var u := Next(c, s, Stop);
    RunClosedLast(c, Init(c), before);
    RunWinding(c, u, ms);
    RunAddsNothing(c, u, ms);
    NothingLost(c, before);
    StepConserved(c, s, Stop);
    RunConserved(c, u, ms);
    AllReadyStay(c, u, ms);
    var t := After(c, u, ms);
    if t.ticker.Stopped? {
      assert Flat(t.swapped) + [] == Flat(t.swapped);
      forall b: nat | b < |t.swapped|
        ensures multiset(t.queue)[b] + multiset(t.consumed)[b] + multiset(t.dropped)[b] == 1
      {
        ReadyCarryNothing(t.adders, b);
        assert Copies(t, b) == 1;
      }
    }
  }

  lemma {:induction false} RunAddsNothing(c: Config, s: State, ms: seq<Move>)
    requires Runs(c, s, ms) && NoAdd(ms)
    ensures After(c, s, ms).history == s.history
    decreases |ms|
  {
    if ms != [] {
      assert ms[0] in ms;
      RunAddsNothing(c, Next(c, s, ms[0]), ms[1..]);
    }
  }

  lemma {:induction false} AllReadyStay(c: Config, s: State, ms: seq<Move>)
    requires Runs(c, s, ms) && NoAdd(ms) && forall i :: 0 <= i < |s.adders| ==> s.adders[i].Ready?
    ensures forall i :: 0 <= i < |After(c, s, ms).adders| ==> After(c, s, ms).adders[i].Ready?
    decreases |ms|
  {
    if ms != [] {
      assert ms[0] in ms;
      AllReadyStay(c, Next(c, s, ms[0]), ms[1..]);
    }
  }

  lemma {:induction false} ReadyCarryNothing(adders: seq<Adder>, b: nat)
    requires forall i :: 0 <= i < |adders| ==> adders[i].Ready?
    ensures Carried(adders, b) == 0
  {
    if adders != [] {
      ReadyCarryNothing(adders[..|adders| - 1], b);
    }
  }
}
