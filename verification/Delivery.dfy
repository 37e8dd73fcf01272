/** What becomes of a batch of pkg/telemetry/batch.go once it is swapped out: when it is queued, when
    it is dropped, and in which order the consumer gets it. */
module Delivery {
  import opened Batching

  // ---------------------------------------------------------------- one move

  /** The batch a move offers to the channel. */
  function Offered(s: State, m: Move): nat
    requires Enabled(s, m) && (m.SendAdder? || m.SendTicker?)
  {
    if m.SendAdder? then s.adders[m.i].batch else s.ticker.batch
  }

  /** An open channel with room takes the batch at its end, a full one drops it, a closed one panics. */
  lemma SendOutcome(c: Config, s: State, m: Move)
    requires Enabled(s, m) && (m.SendAdder? || m.SendTicker?)
    ensures var t, b := Next(c, s, m), Offered(s, m);
            && t.consumed == s.consumed && t.swapped == s.swapped && t.current == s.current
            && (t.panicked <==> s.closed)
            && (!s.closed && |s.queue| < c.capacity ==> t.queue == s.queue + [b] && t.dropped == s.dropped)
            && (!s.closed && |s.queue| >= c.capacity ==> t.queue == s.queue && t.dropped == s.dropped + [b])
            && (s.closed ==> t.queue == s.queue && t.dropped == s.dropped)
  {
  }

  /** No other move queues or drops, and only a receive takes the oldest batch away. */
  lemma OtherMoves(c: Config, s: State, m: Move)
    requires Enabled(s, m) && !m.SendAdder? && !m.SendTicker?
    ensures var t := Next(c, s, m);
            && t.dropped == s.dropped && !t.panicked
            && (if m.Consume? then s.queue == [s.queue[0]] + t.queue && t.consumed == s.consumed + [s.queue[0]]
                else t.queue == s.queue && t.consumed == s.consumed)
  {
  }

  // ---------------------------------------------------------------- the queue

  lemma {:induction false} RunQueueBound(c: Config, s: State, ms: seq<Move>)
    requires |s.queue| <= c.capacity && Runs(c, s, ms)
    ensures |After(c, s, ms).queue| <= c.capacity
    decreases |ms|
  {
    if ms != [] {
      var m := ms[0];
      if m.SendAdder? || m.SendTicker? {
        SendOutcome(c, s, m);
      } else {
        OtherMoves(c, s, m);
      }
      hide Next, Enabled;
      RunQueueBound(c, Next(c, s, m), ms[1..]);
    }
  }

  /** In every reachable state the channel holds at most its capacity, and a batch is dropped only when
      it holds exactly that. */
  lemma DropsOnlyWhenFull(c: Config, ms: seq<Move>, m: Move)
    requires Runs(c, Init(c), ms) && Enabled(After(c, Init(c), ms), m)
    ensures var s := After(c, Init(c), ms);
            && |s.queue| <= c.capacity
            && (Next(c, s, m).dropped != s.dropped ==> |s.queue| == c.capacity && !s.closed)
  {
    var s := After(c, Init(c), ms);
    RunQueueBound(c, Init(c), ms);
    if m.SendAdder? || m.SendTicker? {
      SendOutcome(c, s, m);
    } else {
      OtherMoves(c, s, m);
    }
  }

  /** The batch the channel accepts in a move, if any. */
  function Taken(c: Config, s: State, m: Move): seq<nat>
    requires Enabled(s, m)
  {
    if (m.SendAdder? || m.SendTicker?) && !s.closed && |s.queue| < c.capacity then [Offered(s, m)] else []
  }

  /** The batches the channel accepts along a run, in the order of their sends. */
  function Accepted(c: Config, s: State, ms: seq<Move>): seq<nat>
    requires Runs(c, s, ms)
    decreases |ms|
  {
    if ms == [] then [] else Taken(c, s, ms[0]) + Accepted(c, Next(c, s, ms[0]), ms[1..])
  }

  lemma StepInOrder(c: Config, s: State, m: Move)
    requires Enabled(s, m)
    ensures var t := Next(c, s, m);
            s.consumed <= t.consumed && t.consumed + t.queue == s.consumed + s.queue + Taken(c, s, m)
  {
    if m.SendAdder? || m.SendTicker? {
      SendOutcome(c, s, m);
    } else {
      OtherMoves(c, s, m);
    }
    hide Next, Enabled;
  }

  lemma AppendBoth(a: seq<nat>, b: seq<nat>, x: seq<nat>, y: seq<nat>, z: seq<nat>)
    requires b == a + x && z == b + y
    ensures z == a + (x + y)
  {
  }

  /** The consumer gets the accepted batches in the order in which they were sent. */
  lemma {:induction false} FirstInFirstOut(c: Config, s: State, ms: seq<Move>)
    requires Runs(c, s, ms)
    ensures var t := After(c, s, ms);
            s.consumed <= t.consumed && t.consumed + t.queue == s.consumed + s.queue + Accepted(c, s, ms)
    decreases |ms|
  {
    if ms != [] {
      hide Next, Enabled, Taken;
      var t := Next(c, s, ms[0]);
      StepInOrder(c, s, ms[0]);
      FirstInFirstOut(c, t, ms[1..]);
      var u := After(c, t, ms[1..]);
      AppendBoth(s.consumed + s.queue, t.consumed + t.queue, Taken(c, s, ms[0]), Accepted(c, t, ms[1..]), u.consumed + u.queue);
    }
  }

  /** From the start: what was consumed and what is queued are the accepted sends. */
  lemma InOrderOfSends(c: Config, ms: seq<Move>)
    requires Runs(c, Init(c), ms)
    ensures var s := After(c, Init(c), ms); s.consumed + s.queue == Accepted(c, Init(c), ms)
  {
    FirstInFirstOut(c, Init(c), ms);
  }

  // ---------------------------------------------------------------- no drops

  function Sends(adders: seq<Adder>): nat {
    if adders == [] then 0
    else Sends(adders[..|adders| - 1]) + (if adders[|adders| - 1].Sending? then 1 else 0)
  }

  lemma {:induction false} SendsUpdate(adders: seq<Adder>, i: nat, a: Adder)
    requires i < |adders|
    ensures Sends(adders[i := a])
            == Sends(adders) - (if adders[i].Sending? then 1 else 0) + (if a.Sending? then 1 else 0)
  {
    var n := |adders| - 1;
    var after := adders[i := a];
    if i < n {
      SendsUpdate(adders[..n], i, a);
      assert after[..n] == adders[..n][i := a];
    } else {
      assert after[..n] == adders[..n];
    }
  }

  lemma {:induction false} InitSendsNothing(n: nat)
    ensures Sends(seq(n, _ => Ready)) == 0
  {
    if n > 0 {
      InitSendsNothing(n - 1);
      assert seq(n, _ => Ready)[..n - 1] == seq(n - 1, _ => Ready);
    }
  }

  function InFlight(s: State): nat {
    Sends(s.adders) + if s.ticker.Posting? then 1 else 0
  }

  /** Every batch swapped out is counted in one place. */
  ghost predicate Accounted(s: State) {
    InFlight(s) + |s.queue| + |s.consumed| + |s.dropped| == |s.swapped|
  }

  lemma StepAccounted(c: Config, s: State, m: Move)
    requires Accounted(s) && Enabled(s, m) && !Next(c, s, m).panicked
    ensures Accounted(Next(c, s, m))
    ensures m.SendAdder? || m.SendTicker? ==> InFlight(s) > 0
  {
    hide Sends;
    match m
    case Add(i, e) => SendsUpdate(s.adders, i, if |s.current| + 1 >= c.maxEvents then Owing else Ready);
    case SwapAdder(i) => SendsUpdate(s.adders, i, if s.current == [] then Ready else Sending(|s.swapped|));
    case SendAdder(i) => SendsUpdate(s.adders, i, Ready);
    case _ =>
  }

  /** The consumer is never more than the capacity behind the batches swapped out. */
  ghost predicate KeptUp(c: Config, s: State, ms: seq<Move>)
    requires Runs(c, s, ms)
    decreases |ms|
  {
    && |s.swapped| <= |s.consumed| + c.capacity
    && (ms != [] ==> KeptUp(c, Next(c, s, ms[0]), ms[1..]))
  }

  lemma {:induction false} KeptUpDropsNothing(c: Config, s: State, ms: seq<Move>)
    requires Runs(c, s, ms) && KeptUp(c, s, ms) && Accounted(s) && s.dropped == [] && !s.panicked
    ensures After(c, s, ms).dropped == []
    decreases |ms|
  {
    if ms != [] {
      var m, t := ms[0], Next(c, s, ms[0]);
      if t.panicked {
        SendsAreTheOnlyPanics(c, s, m);
        SendOutcome(c, s, m);
        PanickedEnds(c, t, ms[1..]);
      } else {
        StepAccounted(c, s, m);
        if m.SendAdder? || m.SendTicker? {
          SendOutcome(c, s, m);
        } else {
          OtherMoves(c, s, m);
        }
        hide Next, Enabled, InFlight;
        KeptUpDropsNothing(c, t, ms[1..]);
      }
    }
  }

  lemma SendsAreTheOnlyPanics(c: Config, s: State, m: Move)
    requires Enabled(s, m) && Next(c, s, m).panicked
    ensures m.SendAdder? || m.SendTicker?
  {
  }

  lemma PanickedEnds(c: Config, s: State, ms: seq<Move>)
    requires Runs(c, s, ms) && s.panicked
    ensures After(c, s, ms) == s
  {
  }

  /** In every run in which the batches swapped out never outnumber those consumed by more than the
      capacity, nothing is dropped. */
  lemma NothingDropped(c: Config, ms: seq<Move>)
    requires Runs(c, Init(c), ms) && KeptUp(c, Init(c), ms)
    ensures After(c, Init(c), ms).dropped == []
  {
    InitSendsNothing(c.adders);
    KeptUpDropsNothing(c, Init(c), ms);
  }

  /** A tick of an idle ticker, if nothing interrupts it, empties `current`; the batch goes to the end of
      the channel if there is room and is dropped otherwise. */
  lemma TickDelivers(c: Config, s: State)
    requires !s.panicked && s.ticker.Waiting? && !s.closed && s.current != []
    ensures var ms := [Tick, SwapTicker, SendTicker];
            && Runs(c, s, ms)
            && var t := After(c, s, ms);
               && t.current == [] && t.swapped == s.swapped + [s.current] && t.ticker.Waiting? && t.adders == s.adders
               && (if |s.queue| < c.capacity then t.queue == s.queue + [|s.swapped|] && t.dropped == s.dropped
                   else t.queue == s.queue && t.dropped == s.dropped + [|s.swapped|])
  {
    var u := Next(c, s, Tick);
    var v := Next(c, u, SwapTicker);
    RunsOne(c, s, Tick);
    RunsOne(c, u, SwapTicker);
    RunsOne(c, v, SendTicker);
    RunsAppend(c, u, [SwapTicker], [SendTicker]);
    RunsAppend(c, s, [Tick], [SwapTicker] + [SendTicker]);
    assert [Tick] + ([SwapTicker] + [SendTicker]) == [Tick, SwapTicker, SendTicker];
  }

  // ---------------------------------------------------------------- what was added

  /** The events of the appends of a run, in order. */
  function Added(ms: seq<Move>): seq<Event> {
    if ms == [] then [] else (if ms[0].Add? then [ms[0].e] else []) + Added(ms[1..])
  }

  /** The history is what the appends appended. */
  lemma {:induction false} HistoryIsAdded(c: Config, s: State, ms: seq<Move>)
    requires Runs(c, s, ms)
    ensures After(c, s, ms).history == s.history + Added(ms)
    decreases |ms|
  {
    if ms != [] {
      HistoryIsAdded(c, Next(c, s, ms[0]), ms[1..]);
    }
  }

  /** So in every interleaving the batches in swap order, and then `current`, are the events in the
      order of their appends. */
  lemma BatchesHoldWhatWasAdded(c: Config, ms: seq<Move>)
    requires Runs(c, Init(c), ms)
    ensures var s := After(c, Init(c), ms); Flat(s.swapped) + s.current == Added(ms)
  {
    NothingLost(c, ms);
    HistoryIsAdded(c, Init(c), ms);
  }
}
