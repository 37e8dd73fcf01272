/** GetOrCreate of pkg/profile/store.go under concurrency: any number of goroutines, each between a
    Load that may miss, a LoadOrStore that may lose, and the records it makes on what it got.
    Each step is atomic: the first two in sync.Map, a record under the profile's mutex. */
module StoreRace {
  import opened History

  /** A goroutine: outside, holding a profile of its own after a miss, or holding the one it got. */
  datatype Thread =
    | Idle
    | Missed(key: string, mine: nat)
    | Got(key: string, profile: nat)

  /** Profiles are named by the order of their creation; `records` is what each has been told. */
  datatype State = State(
    stored: map<string, nat>,
    records: seq<seq<Call>>,
    threads: seq<Thread>,
    history: map<string, seq<Call>>)

  datatype Move =
    | Load(t: nat, key: string)
    | LoadOrStore(t: nat)
    | Tell(t: nat, call: Call)
    | Return(t: nat)

  function Init(threads: nat): State {
    State(map[], [], seq(threads, _ => Idle), map[])
  }

  /** All that was ever recorded through a profile obtained for `k`, in order. */
  function Told(s: State, k: string): seq<Call> {
    if k in s.history then s.history[k] else []
  }

  predicate Enabled(s: State, m: Move) {
    m.t < |s.threads| &&
    match m
    case Load(t, _) => s.threads[t].Idle?
    case LoadOrStore(t) => s.threads[t].Missed?
    case Tell(t, _) => s.threads[t].Got? && s.threads[t].profile < |s.records|
    case Return(t) => s.threads[t].Got?
  }

  function Next(s: State, m: Move): State
    requires Enabled(s, m)
  {
    match m
    case Load(t, k) =>
      if k in s.stored then s.(threads := s.threads[t := Got(k, s.stored[k])])
      else s.(threads := s.threads[t := Missed(k, |s.records|)], records := s.records + [[]])
    case LoadOrStore(t) =>
      var Missed(k, mine) := s.threads[t];
      if k in s.stored then s.(threads := s.threads[t := Got(k, s.stored[k])])
      else s.(stored := s.stored[k := mine], threads := s.threads[t := Got(k, mine)])
    case Tell(t, call) =>
      var Got(k, p) := s.threads[t];
      s.(records := s.records[p := s.records[p] + [call]], history := s.history[k := Told(s, k) + [call]])
    case Return(t) => s.(threads := s.threads[t := Idle])
  }

  predicate Runs(s: State, ms: seq<Move>)
    decreases |ms|
  {
    ms == [] || (Enabled(s, ms[0]) && Runs(Next(s, ms[0]), ms[1..]))
  }

  function After(s: State, ms: seq<Move>): State
    requires Runs(s, ms)
    decreases |ms|
  {
    if ms == [] then s else After(Next(s, ms[0]), ms[1..])
  }

  /** The profile is the one stored under some key. */
  ghost predicate Public(s: State, p: nat) {
    exists k :: k in s.stored && s.stored[k] == p
  }

  /** A stored profile has been told exactly what was recorded under its key, and nothing else has
      been told anything. */
  ghost predicate KeyFaithful(s: State, k: string) {
    if k in s.stored then s.stored[k] < |s.records| && s.records[s.stored[k]] == Told(s, k) else Told(s, k) == []
  }

  ghost predicate ThreadFaithful(s: State, t: nat)
    requires t < |s.threads|
  {
    match s.threads[t]
    case Idle => true
    case Missed(_, mine) => mine < |s.records| && !Public(s, mine)
    case Got(k, p) => k in s.stored && s.stored[k] == p
  }

  ghost predicate Faithful(s: State) {
    && (forall k: string :: KeyFaithful(s, k))
    && (forall t: nat :: t < |s.threads| ==> ThreadFaithful(s, t))
    && (forall p: nat :: p < |s.records| && !Public(s, p) ==> s.records[p] == [])
    && (forall k, l :: k in s.stored && l in s.stored && k != l ==> s.stored[k] != s.stored[l])
    && (forall t: nat, u: nat :: t < u < |s.threads| ==> Separate(s.threads[t], s.threads[u]))
  }

  predicate Separate(a: Thread, b: Thread) {
    a.Missed? && b.Missed? ==> a.mine != b.mine
  }

  lemma LoadFaithful(s: State, t: nat, k: string)
    requires Faithful(s) && Enabled(s, Load(t, k))
    ensures Faithful(Next(s, Load(t, k)))
  {
    var s' := Next(s, Load(t, k));
    assert KeyFaithful(s, k);
    forall l | l in s.stored ensures s.stored[l] < |s.records| {
      assert KeyFaithful(s, l);
    }
    forall p: nat ensures Public(s', p) <==> Public(s, p) {
    }
    forall l: string ensures KeyFaithful(s', l) {
      assert KeyFaithful(s, l) && Told(s', l) == Told(s, l);
    }
    forall u: nat | u < |s.threads| ensures ThreadFaithful(s', u) {
      assert ThreadFaithful(s, u);
    }
    forall u: nat, v: nat | u < v < |s.threads| ensures Separate(s'.threads[u], s'.threads[v]) {
      assert Separate(s.threads[u], s.threads[v]) && ThreadFaithful(s, u) && ThreadFaithful(s, v);
    }
  }

  lemma LoadOrStoreFaithful(s: State, t: nat)
    requires Faithful(s) && Enabled(s, LoadOrStore(t))
    ensures Faithful(Next(s, LoadOrStore(t)))
  {
    var s' := Next(s, LoadOrStore(t));
    var Missed(k, mine) := s.threads[t];
    assert ThreadFaithful(s, t) && KeyFaithful(s, k);
    forall p: nat ensures Public(s', p) <==> Public(s, p) || (k !in s.stored && p == mine) {
      if k !in s.stored && p == mine {
        assert k in s'.stored && s'.stored[k] == p;
      }
      if Public(s, p) {
        var l :| l in s.stored && s.stored[l] == p;
        assert l in s'.stored && s'.stored[l] == p;
      }
    }
    forall l: string ensures KeyFaithful(s', l) {
      assert KeyFaithful(s, l) && Told(s', l) == Told(s, l);
    }
    forall u: nat | u < |s.threads| ensures ThreadFaithful(s', u) {
      assert ThreadFaithful(s, u);
      if u != t {
        assert Separate(s.threads[if u < t then u else t], s.threads[if u < t then t else u]);
      }
    }
    forall u: nat, v: nat | u < v < |s.threads| ensures Separate(s'.threads[u], s'.threads[v]) {
      assert Separate(s.threads[u], s.threads[v]);
    }
    forall a, b | a in s'.stored && b in s'.stored && a != b ensures s'.stored[a] != s'.stored[b] {
      if k !in s.stored && (a == k || b == k) {
        assert !Public(s, mine);
      }
    }
  }

  lemma TellFaithful(s: State, t: nat, call: Call)
    requires Faithful(s) && Enabled(s, Tell(t, call))
    ensures Faithful(Next(s, Tell(t, call)))
  {
    var s' := Next(s, Tell(t, call));
    var Got(k, p) := s.threads[t];
    assert ThreadFaithful(s, t) && KeyFaithful(s, k);
    assert forall q: nat :: Public(s', q) <==> Public(s, q);
    forall l: string ensures KeyFaithful(s', l) {
      assert KeyFaithful(s, l);
    }
    forall u: nat | u < |s.threads| ensures ThreadFaithful(s', u) {
      assert ThreadFaithful(s, u);
    }
    assert Public(s, p);
  }

  lemma ReturnFaithful(s: State, t: nat)
    requires Faithful(s) && Enabled(s, Return(t))
    ensures Faithful(Next(s, Return(t)))
  {
    var s' := Next(s, Return(t));
    assert forall q: nat :: Public(s', q) <==> Public(s, q);
    forall l: string ensures KeyFaithful(s', l) {
      assert KeyFaithful(s, l) && Told(s', l) == Told(s, l);
    }
    forall u: nat | u < |s.threads| ensures ThreadFaithful(s', u) {
      assert ThreadFaithful(s, u);
    }
    forall u: nat, v: nat | u < v < |s.threads| ensures Separate(s'.threads[u], s'.threads[v]) {
      assert Separate(s.threads[u], s.threads[v]);
    }
  }

  lemma {:induction false} RunFaithful(s: State, ms: seq<Move>)
    requires Faithful(s) && Runs(s, ms)
    ensures Faithful(After(s, ms))
    ensures forall k <- s.stored :: k in After(s, ms).stored && After(s, ms).stored[k] == s.stored[k]
    decreases |ms|
  {
    if ms != [] {
      match ms[0] {
        case Load(t, k) => LoadFaithful(s, t, k);
        case LoadOrStore(t) => LoadOrStoreFaithful(s, t);
        case Tell(t, call) => TellFaithful(s, t, call);
        case Return(t) => ReturnFaithful(s, t);
      }
      RunFaithful(Next(s, ms[0]), ms[1..]);
    }
  }

  lemma InitFaithful(n: nat)
    ensures Faithful(Init(n))
  {
    forall k: string ensures KeyFaithful(Init(n), k) {
    }
  }

  /** In every interleaving a query for a key sees every record made through any GetOrCreate of it,
      in order, and a profile that lost the race has been told nothing. */
  lemma NoRecordLost(n: nat, ms: seq<Move>, k: string)
    requires Runs(Init(n), ms)
    ensures var s := After(Init(n), ms);
            && (if k in s.stored then s.stored[k] < |s.records| && s.records[s.stored[k]] == Told(s, k) else Told(s, k) == [])
            && forall p: nat :: p < |s.records| && !Public(s, p) ==> s.records[p] == []
    ensures var s := After(Init(n), ms);
            forall t: nat, call: Call :: t < |s.threads| && s.threads[t].Got? ==> Enabled(s, Tell(t, call))
  {
    InitFaithful(n);
    RunFaithful(Init(n), ms);
    var s := After(Init(n), ms);
    assert KeyFaithful(s, k);
    forall t: nat, call: Call | t < |s.threads| && s.threads[t].Got? ensures Enabled(s, Tell(t, call)) {
      assert ThreadFaithful(s, t) && KeyFaithful(s, s.threads[t].key);
    }
  }

  /** Whatever runs in between, two calls for a key get the same profile, and calls for different
      keys different ones. */
  lemma OneProfilePerKey(n: nat, ms: seq<Move>, more: seq<Move>, t: nat, u: nat)
    requires Runs(Init(n), ms) && Runs(After(Init(n), ms), more)
    requires t < |After(Init(n), ms).threads| && u < |After(After(Init(n), ms), more).threads|
    requires After(Init(n), ms).threads[t].Got? && After(After(Init(n), ms), more).threads[u].Got?
    ensures var a, b := After(Init(n), ms).threads[t], After(After(Init(n), ms), more).threads[u];
            a.key == b.key <==> a.profile == b.profile
  {
    InitFaithful(n);
    var s := After(Init(n), ms);
    RunFaithful(Init(n), ms);
    RunFaithful(s, more);
    assert ThreadFaithful(s, t) && ThreadFaithful(After(s, more), u);
  }

  // ---------------------------------------------------------------- what was recorded, from the moves alone

  /** The key goroutine `t` last asked for. */
  function Asked(ms: seq<Move>, t: nat): string {
    if ms == [] then ""
    else
      var m := ms[|ms| - 1];
      if m.Load? && m.t == t then m.key else Asked(ms[..|ms| - 1], t)
  }

  /** The records made on what was asked for `k`, in order. */
  function RecordedFor(ms: seq<Move>, k: string): seq<Call> {
    if ms == [] then []
    else
      var init, m := ms[..|ms| - 1], ms[|ms| - 1];
      RecordedFor(init, k) + (if m.Tell? && Asked(init, m.t) == k then [m.call] else [])
  }

  lemma {:induction false} RunsSnoc(s: State, ms: seq<Move>, m: Move)
    ensures Runs(s, ms + [m]) <==> Runs(s, ms) && Enabled(After(s, ms), m)
    ensures Runs(s, ms + [m]) ==> After(s, ms + [m]) == Next(After(s, ms), m)
    decreases |ms|
  {
    if ms == [] {
      assert (ms + [m])[1..] == [];
      if Enabled(s, m) {
        assert Runs(Next(s, m), []) && After(Next(s, m), []) == Next(s, m);
      }
    } else {
      assert (ms + [m])[1..] == ms[1..] + [m];
      if Enabled(s, ms[0]) {
        RunsSnoc(Next(s, ms[0]), ms[1..], m);
      }
    }
  }

  ghost predicate KnowsAsked(s: State, ms: seq<Move>) {
    && (forall t: nat :: t < |s.threads| && !s.threads[t].Idle? ==> s.threads[t].key == Asked(ms, t))
    && (forall k: string :: Told(s, k) == RecordedFor(ms, k))
  }

  lemma StepKnows(s: State, ms: seq<Move>, m: Move)
    requires KnowsAsked(s, ms) && Enabled(s, m)
    ensures KnowsAsked(Next(s, m), ms + [m])
  {
    var all, u := ms + [m], Next(s, m);
    assert all[..|ms|] == ms;
    forall t: nat | t < |u.threads| && !u.threads[t].Idle? ensures u.threads[t].key == Asked(all, t) {
      if t != m.t {
        assert u.threads[t] == s.threads[t];
      }
    }
    forall k: string ensures Told(u, k) == RecordedFor(all, k) {
      assert Told(s, k) == RecordedFor(ms, k);
    }
  }

  lemma {:induction false} RunKnows(n: nat, ms: seq<Move>)
    requires Runs(Init(n), ms)
    ensures KnowsAsked(After(Init(n), ms), ms)
  {
    if ms != [] {
      var init, m := ms[..|ms| - 1], ms[|ms| - 1];
      assert ms == init + [m];
      RunsSnoc(Init(n), init, m);
      RunKnows(n, init);
      StepKnows(After(Init(n), init), init, m);
    }
  }

  /** In every interleaving the stored profile of a key has been told exactly the records made by
      goroutines that had last asked for that key, in the order in which they were made. */
  lemma StoredHasEveryRecord(n: nat, ms: seq<Move>, k: string)
    requires Runs(Init(n), ms)
    ensures var s := After(Init(n), ms);
            if k in s.stored then s.stored[k] < |s.records| && s.records[s.stored[k]] == RecordedFor(ms, k)
            else RecordedFor(ms, k) == []
  {
    NoRecordLost(n, ms, k);
    RunKnows(n, ms);
    assert Told(After(Init(n), ms), k) == RecordedFor(ms, k);
  }
}
