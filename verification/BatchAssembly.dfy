/** pkg/telemetry/batch.go in its own form: the assembler's fields and the sections of code between
    which other goroutines may run, each proved to be the move of Batching.dfy it stands for. */
module BatchAssembly {
  import opened Batching

  const DEFAULT_MAX_EVENTS := 1000
  const DEFAULT_OUTPUT_BUFFER := 16

  class BatchAssembler {
    const maxEvents: nat
    const capacity: nat
    var current: seq<Event>

    /** What is buffered in the output channel, and whether the channel is closed. */
    var output: seq<seq<Event>>
    var closed: bool

    ghost predicate Configured(c: Config) {
      c.maxEvents == maxEvents && c.capacity == capacity
    }

    /** The fields are those of state `s`; the model names batches where the channel holds them. */
    ghost predicate Represents(s: State)
      reads this
    {
      && current == s.current && closed == s.closed && |output| == |s.queue|
      && forall k :: 0 <= k < |output| ==> s.queue[k] < |s.swapped| && output[k] == s.swapped[s.queue[k]]
    }

    constructor (maxEvents: nat, outputBufferSize: nat)
      ensures this.maxEvents == if maxEvents == 0 then 1000 else maxEvents
      ensures capacity == if outputBufferSize == 0 then 16 else outputBufferSize
      ensures current == [] && output == [] && !closed
      ensures forall c | Configured(c) :: Proper(c) && Represents(Init(c))
    {
      this.maxEvents := if maxEvents == 0 then DEFAULT_MAX_EVENTS else maxEvents;
      capacity := if outputBufferSize == 0 then DEFAULT_OUTPUT_BUFFER else outputBufferSize;
      current, output, closed := [], [], false;
    }

    /** The section of Add under the mutex. */
    method Append(e: Event, ghost c: Config, ghost s: State, ghost i: nat) returns (shouldFlush: bool)
      requires Configured(c) && Represents(s) && Enabled(s, Move.Add(i, e))
      modifies this`current
      ensures current == old(current) + [e] && (shouldFlush <==> |current| >= maxEvents)
      ensures var t := Next(c, s, Move.Add(i, e));
              Represents(t) && t.adders[i] == if shouldFlush then Owing else Ready
    {
      current := current + [e];
      shouldFlush := |current| >= maxEvents;
    }

    /** The section of flush under the mutex. */
    method TakeAll(ghost s: State) returns (events: seq<Event>)
      requires Represents(s)
      modifies this`current
      ensures events == old(current) && current == []
      ensures events == s.current && Represents(if s.current == [] then s else Swap(s))
    {
      events := current;
      if |current| == 0 {
        return;
      }
      current := [];
    }

    /** The non-blocking send. */
    method Offer(batch: seq<Event>, ghost c: Config, ghost s: State, ghost b: nat) returns (panicked: bool)
      requires Configured(c) && Represents(s) && !s.panicked && b < |s.swapped| && batch == s.swapped[b]
      modifies this`output
      ensures panicked == closed
      ensures output == if !closed && |old(output)| < capacity then old(output) + [batch] else old(output)
      ensures Represents(Send(c, s, b)) && panicked == Send(c, s, b).panicked
    {
      if closed {
        return true;
      }
      if |output| < capacity {
        output := output + [batch];
      }
      return false;
    }

    /** A receive from the channel Batches returns. */
    method Receive(ghost c: Config, ghost s: State) returns (batch: seq<Event>)
      requires Configured(c) && Represents(s) && Enabled(s, Consume)
      modifies this`output
      ensures [batch] + output == old(output)
      ensures batch == s.swapped[s.queue[0]] && Represents(Next(c, s, Consume))
    {
      batch := output[0];
      output := output[1..];
    }

    /** A flush that nothing interrupts. */
    method Flush(ghost c: Config, ghost s: State) returns (panicked: bool)
      requires Configured(c) && Represents(s) && !s.panicked
      modifies this`current, this`output
      ensures current == [] && panicked == (closed && old(current) != [])
      ensures output == if old(current) != [] && !closed && |old(output)| < capacity then old(output) + [old(current)]
                        else old(output)
      ensures Represents(Flushed(c, s)) && panicked == Flushed(c, s).panicked
    {
      var events := TakeAll(s);
      if |events| == 0 {
        return false;
      }
      panicked := Offer(events, c, Swap(s), |s.swapped|);
    }

    /** Add, uninterrupted, is a run of the step relation. */
    method Add(e: Event, ghost c: Config, ghost s: State, ghost i: nat) returns (panicked: bool)
      requires Configured(c) && Represents(s) && Enabled(s, Move.Add(i, e))
      modifies this`current, this`output
      ensures var all := old(current) + [e];
              if |all| < maxEvents then current == all && output == old(output) && !panicked
              else
                && current == [] && panicked == closed
                && output == if !closed && |old(output)| < capacity then old(output) + [all] else old(output)
      ensures var ms := AddMoves(c, s, i, e);
              && Runs(c, s, ms)
              && Represents(After(c, s, ms)) && panicked == After(c, s, ms).panicked
              && (!panicked ==> After(c, s, ms).adders == s.adders)
    {
      AddRuns(c, s, i, e);
      var shouldFlush := Append(e, c, s, i);
      if shouldFlush {
        panicked := Flush(c, Next(c, s, Move.Add(i, e)));
      } else {
        panicked := false;
      }
    }

    /** The ticker's last turn: the final flush, then the channel is closed. */
    method Finish(ghost c: Config, ghost s: State)
      requires Configured(c) && Represents(s) && !s.panicked && s.stopping && s.ticker.Waiting? && !s.closed
      modifies this
      ensures closed && current == []
      ensures output == if old(current) != [] && |old(output)| < capacity then old(output) + [old(current)] else old(output)
      ensures var ms := FinishMoves(s);
              && Runs(c, s, ms)
              && Represents(After(c, s, ms)) && After(c, s, ms).closed && !After(c, s, ms).panicked
              && After(c, s, ms).current == []
    {
      FinishRuns(c, s);
      var panicked := Flush(c, s);
      closed := true;
    }
  }

  /** The state after a flush that nothing interrupts, but for who ran it. */
  function Flushed(c: Config, s: State): State {
    if s.current == [] then s else Send(c, Swap(s), |s.swapped|)
  }

  /** What the fields of an assembler can show of a state. */
  predicate Alike(s: State, t: State) {
    && s.current == t.current && s.history == t.history && s.swapped == t.swapped && s.queue == t.queue
    && s.dropped == t.dropped && s.closed == t.closed && s.panicked == t.panicked
  }

  function AddMoves(c: Config, s: State, i: nat, e: Event): seq<Move> {
    if |s.current| + 1 >= c.maxEvents then [Move.Add(i, e), SwapAdder(i), SendAdder(i)] else [Move.Add(i, e)]
  }

  lemma RunsThree(c: Config, s: State, m: Move, n: Move, o: Move)
    requires Enabled(s, m) && Enabled(Next(c, s, m), n) && Enabled(Next(c, Next(c, s, m), n), o)
    ensures Runs(c, s, [m, n, o]) && After(c, s, [m, n, o]) == Next(c, Next(c, Next(c, s, m), n), o)
  {
    hide Next, Enabled;
    RunsOne(c, s, m);
    RunsOne(c, Next(c, s, m), n);
    RunsOne(c, Next(c, Next(c, s, m), n), o);
    RunsAppend(c, Next(c, s, m), [n], [o]);
    RunsAppend(c, s, [m], [n] + [o]);
    assert [m] + ([n] + [o]) == [m, n, o];
  }

  lemma AddRuns(c: Config, s: State, i: nat, e: Event)
    requires Enabled(s, Move.Add(i, e))
    ensures var ms, t := AddMoves(c, s, i, e), Next(c, s, Move.Add(i, e));
            && Runs(c, s, ms)
            && (if |ms| == 1 then After(c, s, ms) == t else Alike(After(c, s, ms), Flushed(c, t)))
            && (!After(c, s, ms).panicked ==> After(c, s, ms).adders == s.adders)
  {
    var t := Next(c, s, Move.Add(i, e));
    if |s.current| + 1 >= c.maxEvents {
      RunsThree(c, s, Move.Add(i, e), SwapAdder(i), SendAdder(i));
    } else {
      RunsOne(c, s, Move.Add(i, e));
    }
  }

  function FinishMoves(s: State): seq<Move> {
    [NoticeStop, SwapTicker] + (if s.current == [] then [] else [SendTicker]) + [Close]
  }

  lemma FinishRuns(c: Config, s: State)
    requires !s.panicked && s.stopping && s.ticker.Waiting? && !s.closed
    ensures var ms, t := FinishMoves(s), Flushed(c, s);
            Runs(c, s, ms) && Alike(After(c, s, ms), t.(closed := true)) && !t.panicked && t.current == []
  {
    if s.current == [] {
      RunsThree(c, s, NoticeStop, SwapTicker, Close);
      assert FinishMoves(s) == [NoticeStop, SwapTicker, Close];
    } else {
      RunsThree(c, s, NoticeStop, SwapTicker, SendTicker);
      var u := After(c, s, [NoticeStop, SwapTicker, SendTicker]);
      RunsOne(c, u, Close);
      RunsAppend(c, s, [NoticeStop, SwapTicker, SendTicker], [Close]);
      assert FinishMoves(s) == [NoticeStop, SwapTicker, SendTicker] + [Close];
    }
  }
}
