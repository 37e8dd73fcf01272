/** The recorders of pkg/profile/window.go against each other: recording one by one and in bulk adds
    the same to every window. */
module Recorders {
  import opened History
  import opened SlidingWindow

  function SumOf(ds: seq<Counts>): Counts {
    if ds == [] then Zero() else Plus(SumOf(ds[..|ds| - 1]), ds[|ds| - 1])
  }

  /** One record call for each change, all at one time. */
  function AllAt(ds: seq<Counts>, now: int): seq<Call> {
    seq(|ds|, i requires 0 <= i < |ds| => Record(now, ds[i]))
  }

  function Copies(c: Counts, n: nat): seq<Counts> {
    seq(n, _ => c)
  }

  lemma {:induction false} SumOfAppend(a: seq<Counts>, b: seq<Counts>)
    ensures SumOf(a + b) == Plus(SumOf(a), SumOf(b))
  {
    if b == [] {
      assert a + b == a;
    } else {
      var n := |b| - 1;
      SumOfAppend(a, b[..n]);
      assert (a + b)[..|a| + n] == a + b[..n];
      PlusAssoc(SumOf(a), SumOf(b[..n]), b[n]);
    }
  }

  lemma SumOfSnoc(ds: seq<Counts>, c: Counts)
    ensures SumOf(ds + [c]) == Plus(SumOf(ds), c)
    ensures SumOf([c]) == c
  {
    assert (ds + [c])[..|ds|] == ds && [c][..0] == [];
    PlusZero(c);
  }

  lemma {:induction false} SumOfCopies(c: Counts, n: nat)
    ensures SumOf(Copies(c, n)) == Counts(n * c.events, n * c.faults, n * c.misses, n * c.lockNs, n * c.switches)
  {
    if n > 0 {
      assert Copies(c, n)[..n - 1] == Copies(c, n - 1);
      SumOfCopies(c, n - 1);
    }
  }

  lemma NotDueAgain(w: Log, now: int, d: int)
    requires d > 0
    ensures Rotated(Lazy, Rotated(Lazy, w, now, d), now, d) == Rotated(Lazy, w, now, d)
  {
    DueSpan(w.last, now, d);
  }

  lemma RecordTotals(w: Log, now: int, delta: Counts, b: int, d: int)
    requires b > 0 && d > 0
    ensures var v := Step(Lazy, w, Record(now, delta), d);
            && Rotated(Lazy, v, now, d) == v
            && WindowTotals(v, b) == Plus(WindowTotals(Rotated(Lazy, w, now, d), b), delta)
  {
    var v := Rotated(Lazy, w, now, d);
    NotDueAgain(w, now, d);
    TallySnoc(v.entries, Entry(now, v.last, v.rotations, delta), v.rotations - b + 1, v.rotations + 1);
  }

  lemma RunInit(w: Log, calls: seq<Call>, c: Call, d: int)
    requires d > 0
    ensures Run(Lazy, w, calls + [c], d) == Step(Lazy, Run(Lazy, w, calls, d), c, d)
  {
    RunAppend(Lazy, w, calls, [c], d);
    var v := Run(Lazy, w, calls, d);
    assert [c][1..] == [] && Run(Lazy, Step(Lazy, v, c, d), [], d) == Step(Lazy, v, c, d);
  }

  /** Changes recorded at one time add their sum to what a query at that time finds. */
  lemma {:induction false} SameTimeTotals(w: Log, ds: seq<Counts>, now: int, b: int, d: int)
    requires b > 0 && d > 0
    ensures WindowTotals(Rotated(Lazy, Run(Lazy, w, AllAt(ds, now), d), now, d), b)
            == Plus(WindowTotals(Rotated(Lazy, w, now, d), b), SumOf(ds))
  {
    hide WindowTotals, Rotated, Step, Plus;
    if ds == [] {
      PlusZero(WindowTotals(Rotated(Lazy, w, now, d), b));
    } else {
      var n := |ds| - 1;
      SameTimeTotals(w, ds[..n], now, b, d);
      assert AllAt(ds, now) == AllAt(ds[..n], now) + [Record(now, ds[n])];
      RunInit(w, AllAt(ds[..n], now), Record(now, ds[n]), d);
      RecordTotals(Run(Lazy, w, AllAt(ds[..n], now), d), now, ds[n], b, d);
      PlusAssoc(WindowTotals(Rotated(Lazy, w, now, d), b), SumOf(ds[..n]), ds[n]);
    }
  }

  lemma JustOne(c: Counts, now: int)
    ensures SumOf([c]) == c && AllAt([c], now) == [Record(now, c)]
  {
    SumOfSnoc([], c);
  }

  /** f page faults and s context switches one by one add what one bulk record of them adds; so do m
      single misses and a lock wait, each counted as a sample. */
  lemma OneByOneOrInBulk(w: Log, f: nat, m: nat, s: nat, lockNs: nat, now: int, b: int, d: int)
    requires b > 0 && d > 0 && lockNs > 0
    ensures var single := Copies(Counts(1, 1, 0, 0, 0), f) + Copies(Counts(1, 0, 1, 0, 0), m)
                          + Copies(Counts(1, 0, 0, 0, 1), s) + [Counts(1, 0, 0, lockNs, 0)];
            WindowTotals(Rotated(Lazy, Run(Lazy, w, AllAt(single, now), d), now, d), b)
            == WindowTotals(Rotated(Lazy, Run(Lazy, w, [Record(now, BulkDelta(f, m, s, lockNs))], d), now, d), b)
  {
    var single := Copies(Counts(1, 1, 0, 0, 0), f) + Copies(Counts(1, 0, 1, 0, 0), m)
                  + Copies(Counts(1, 0, 0, 0, 1), s) + [Counts(1, 0, 0, lockNs, 0)];
    SinglesSum(f, m, s, Counts(1, 0, 0, lockNs, 0));
    hide Copies, SumOf, Run, Rotated, WindowTotals, AllAt;
    var bulk := [BulkDelta(f, m, s, lockNs)];
    JustOne(bulk[0], now);
    SameTimeTotals(w, single, now, b, d);
    SameTimeTotals(w, bulk, now, b, d);
  }

  lemma SinglesSum(f: nat, m: nat, s: nat, last: Counts)
    ensures SumOf(Copies(Counts(1, 1, 0, 0, 0), f) + Copies(Counts(1, 0, 1, 0, 0), m) + Copies(Counts(1, 0, 0, 0, 1), s) + [last])
            == Plus(Counts(f + m + s, f, m, 0, s), last)
  {
    var x, y, z := Copies(Counts(1, 1, 0, 0, 0), f), Copies(Counts(1, 0, 1, 0, 0), m), Copies(Counts(1, 0, 0, 0, 1), s);
    SumOfCopies(Counts(1, 1, 0, 0, 0), f);
    SumOfCopies(Counts(1, 0, 1, 0, 0), m);
    SumOfCopies(Counts(1, 0, 0, 0, 1), s);
    hide Copies, SumOf;
    SumOfAppend(x, y);
    SumOfAppend(x + y, z);
    SumOfSnoc(x + y + z, last);
  }

  /** Without lock time there is no sample for it. */
  lemma FaultsAndSwitches(w: Log, f: nat, s: nat, now: int, b: int, d: int)
    requires b > 0 && d > 0
    ensures var single := Copies(Counts(1, 1, 0, 0, 0), f) + Copies(Counts(1, 0, 0, 0, 1), s);
            WindowTotals(Rotated(Lazy, Run(Lazy, w, AllAt(single, now), d), now, d), b)
            == WindowTotals(Rotated(Lazy, Run(Lazy, w, [Record(now, BulkDelta(f, 0, s, 0))], d), now, d), b)
  {
    var single := Copies(Counts(1, 1, 0, 0, 0), f) + Copies(Counts(1, 0, 0, 0, 1), s);
    TwoSum(f, s);
    hide Copies, SumOf, Run, Rotated, WindowTotals, AllAt;
    var bulk := [BulkDelta(f, 0, s, 0)];
    JustOne(bulk[0], now);
    SameTimeTotals(w, single, now, b, d);
    SameTimeTotals(w, bulk, now, b, d);
  }

  lemma TwoSum(f: nat, s: nat)
    ensures SumOf(Copies(Counts(1, 1, 0, 0, 0), f) + Copies(Counts(1, 0, 0, 0, 1), s)) == Counts(f + s, f, 0, 0, s)
  {
    SumOfCopies(Counts(1, 1, 0, 0, 0), f);
    SumOfCopies(Counts(1, 0, 0, 0, 1), s);
    SumOfAppend(Copies(Counts(1, 1, 0, 0, 0), f), Copies(Counts(1, 0, 0, 0, 1), s));
    hide SumOf, Copies;
  }
}
