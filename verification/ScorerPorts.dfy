/** The two ports of the scorer, frontend/src/lib/scorer.ts and akil_score in
    scripts/run_evidence_simulations.py, against the Go score. */
module ScorerPorts {
  import opened SlidingWindow
  import opened Scoring
  import BrowserWindow

  type Profile = BrowserWindow.Profile

  // ---------------------------------------------------------------- TypeScript

  datatype TsResult = TsResult(score: int, cache: real, lock: real, pageFault: real, ctxSwitch: real)

  /** The fields of a Go profile that cross to the browser. */
  function ToProfile(p: RuntimeProfile): Profile {
    BrowserWindow.Profile(p.key, p.cacheMissRate, p.lockRatio, p.pageFaultRate, p.ctxSwitchRate, p.samples, p.confidence)
  }

  function AsGo(p: Profile): RuntimeProfile {
    RuntimeProfile(p.key, p.pageFaultRate, p.cacheMissRate, p.lockRatio, p.ctxSwitchRate, p.samples,
                   ZERO_TIME, ZERO_TIME, p.confidence)
  }

  function AllAsGo(ps: seq<Profile>): seq<RuntimeProfile> {
    seq(|ps|, i requires 0 <= i < |ps| => AsGo(ps[i]))
  }

  function DefaultScorer(): Scorer {
    NewScorer(DEFAULT_CONFIG)
  }

  /** The neighbours that have a profile, in order. */
  function Known(ps: seq<Profile>): seq<Profile> {
    if ps == [] then []
    else
      var p := ps[|ps| - 1];
      Known(ps[..|ps| - 1]) + (if p.confidence.Unknown? then [] else [p])
  }

  lemma KnownSnoc(ps: seq<Profile>, p: Profile)
    ensures Known(ps + [p]) == Known(ps) + (if p.confidence.Unknown? then [] else [p])
  {
    assert (ps + [p])[..|ps|] == ps;
  }

  lemma AllAsGoSnoc(ps: seq<Profile>, p: Profile)
    ensures AllAsGo(ps + [p]) == AllAsGo(ps) + [AsGo(p)]
  {
  }

  /** Filtering first adds up to the same as skipping inside the loop. */
  lemma {:induction false} FilterFirst(s: Scorer, c: RuntimeProfile, ps: seq<Profile>)
    ensures Pressure(s, c, AllAsGo(Known(ps))) == Pressure(s, c, AllAsGo(ps))
    ensures forall p <- Known(ps) :: !p.confidence.Unknown?
  {
    if ps != [] {
      var init, p := ps[..|ps| - 1], ps[|ps| - 1];
      FilterFirst(s, c, init);
      assert ps == init + [p];
      AllAsGoSnoc(init, p);
      AllAsGoSnoc(Known(init), p);
      PressureSnoc(s, c, AllAsGo(init), AsGo(p));
      PressureSnoc(s, c, AllAsGo(Known(init)), AsGo(p));
      if p.confidence.Unknown? {
        assert Known(ps) == Known(init);
      }
    }
  }

  /** The running totals of the port are the pressure of the first `i` known neighbours. */
  ghost predicate Running(t: Penalty, c: Profile, known: seq<Profile>, i: int) {
    0 <= i <= |known| && t == Pressure(DefaultScorer(), AsGo(c), AllAsGo(known[..i]))
  }

  lemma RunningNext(t: Penalty, c: Profile, known: seq<Profile>, i: int)
    requires 0 <= i < |known| && Running(t, c, known, i) && !known[i].confidence.Unknown?
    ensures Running(Added(t, PairPenalty(DefaultScorer(), AsGo(c), AsGo(known[i]))), c, known, i + 1)
  {
    assert known[..i + 1] == known[..i] + [known[i]];
    AllAsGoSnoc(known[..i], known[i]);
    PressureSnoc(DefaultScorer(), AsGo(c), AllAsGo(known[..i]), AsGo(known[i]));
  }

  lemma PairInPort(c: Profile, p: Profile)
    ensures PairPenalty(DefaultScorer(), AsGo(c), AsGo(p))
            == Penalty((p.cacheMissRate / 1e6) * 35.0, (c.lockRatio + p.lockRatio) * 30.0,
                       ((c.pageFaultRate + p.pageFaultRate) / 1e4) * 20.0,
                       ((c.ctxSwitchRate + p.ctxSwitchRate) / 1e4) * 15.0)
  {
  }

  lemma QuietInPort(c: Profile)
    ensures AsGo(if c.confidence.Unknown?
                 then c.(cacheMissRate := 0.0, lockRatio := 0.0, pageFaultRate := 0.0, ctxSwitchRate := 0.0, confidence := High)
                 else c)
            == Effective(AsGo(c)).(samples := c.samples)
  {
  }

  lemma {:induction false} PressureIgnoresSamples(s: Scorer, c: RuntimeProfile, ns: seq<RuntimeProfile>, n: int)
    ensures Pressure(s, c.(samples := n), ns) == Pressure(s, c, ns)
  {
    if ns != [] {
      PressureIgnoresSamples(s, c, ns[..|ns| - 1], n);
      PairIgnoresSamples(s, c, ns[|ns| - 1], n);
    }
  }

  lemma PairIgnoresSamples(s: Scorer, c: RuntimeProfile, p: RuntimeProfile, n: int)
    ensures PairPenalty(s, c.(samples := n), p) == PairPenalty(s, c, p)
  {
  }

  predicate Dampened(r: TsResult, t: Penalty, d: real) {
    r.cache == t.cache * d && r.lock == t.lock * d && r.pageFault == t.pageFault * d && r.ctxSwitch == t.ctxSwitch * d
  }

  /** The port returns the score Go returns, on every input; its breakdown is Go's, dampened. */
  method TsScore(candidate: Profile, colocated: seq<Profile>) returns (r: TsResult)
    ensures r.score == ScoreOf(DefaultScorer(), AsGo(candidate), AllAsGo(colocated))
    ensures var c := Effective(AsGo(candidate));
            Dampened(r, Pressure(DefaultScorer(), c, AllAsGo(colocated)), Dampening(c.confidence))
  {
    hide Pressure, Total, ScoreOf, Outcome, Damped, Dampening, AllAsGo, DefaultScorer, Known;
    var c := if candidate.confidence.Unknown?
             then candidate.(cacheMissRate := 0.0, lockRatio := 0.0, pageFaultRate := 0.0, ctxSwitchRate := 0.0, confidence := High)
             else candidate;
    QuietInPort(candidate);
    assert AsGo(c) == Effective(AsGo(candidate)).(samples := candidate.samples);
    var known := Filter(colocated);
    if |colocated| == 0 {
      assert colocated == [];
      EmptyNode(candidate);
      return TsResult(100, 0.0, 0.0, 0.0, 0.0);
    }
    FilterFirst(DefaultScorer(), AsGo(c), colocated);
    var t := Accumulated(c, known);
    PortTotals(candidate, c, colocated);
    assert t == Pressure(DefaultScorer(), Effective(AsGo(candidate)), AllAsGo(colocated));
    r := TsFinished(t, c.confidence);
    TotalIs(DefaultScorer(), AsGo(candidate), AllAsGo(colocated));
  }

  lemma EmptyNode(candidate: Profile)
    ensures Pressure(DefaultScorer(), Effective(AsGo(candidate)), AllAsGo([])) == NoPenalty()
    ensures ScoreOf(DefaultScorer(), AsGo(candidate), AllAsGo([])) == 100
  {
    assert AllAsGo([]) == [];
    NothingPressed(DefaultScorer(), AsGo(candidate));
  }

  method Accumulated(c: Profile, known: seq<Profile>) returns (t: Penalty)
    requires forall p <- known :: !p.confidence.Unknown?
    ensures t == Pressure(DefaultScorer(), AsGo(c), AllAsGo(known))
  {
    t := NoPenalty();
    var i := 0;
    assert known[..0] == [];
    while i < |known|
      invariant 0 <= i <= |known|
      invariant Running(t, c, known, i)
    {
      var p := known[i];
      PairInPort(c, p);
      RunningNext(t, c, known, i);
      t := Added(t, Penalty((p.cacheMissRate / 1e6) * 35.0, (c.lockRatio + p.lockRatio) * 30.0,
                            ((c.pageFaultRate + p.pageFaultRate) / 1e4) * 20.0,
                            ((c.ctxSwitchRate + p.ctxSwitchRate) / 1e4) * 15.0));
      i := i + 1;
    }
    assert known[..i] == known;
  }

  lemma PortTotals(candidate: Profile, c: Profile, ps: seq<Profile>)
    requires AsGo(c) == Effective(AsGo(candidate)).(samples := candidate.samples)
    ensures Pressure(DefaultScorer(), AsGo(c), AllAsGo(Known(ps)))
            == Pressure(DefaultScorer(), Effective(AsGo(candidate)), AllAsGo(ps))
    ensures c.confidence == Effective(AsGo(candidate)).confidence
  {
    FilterFirst(DefaultScorer(), AsGo(c), ps);
    PressureIgnoresSamples(DefaultScorer(), Effective(AsGo(candidate)), AllAsGo(ps), candidate.samples);
    assert AsGo(c).confidence == c.confidence;
  }

  method Filter(ps: seq<Profile>) returns (known: seq<Profile>)
    ensures known == Known(ps)
  {
    known := [];
    var i := 0;
    while i < |ps|
      invariant 0 <= i <= |ps| && known == Known(ps[..i])
    {
      assert ps[..i + 1] == ps[..i] + [ps[i]];
      KnownSnoc(ps[..i], ps[i]);
      if !ps[i].confidence.Unknown? {
        known := known + [ps[i]];
      }
      i := i + 1;
    }
    assert ps[..i] == ps;
  }

  /** The table of the port. */
  function PortDampening(c: Confidence): real {
    match c
    case Unknown => 0.0
    case Low => 0.25
    case Medium => 0.75
    case High => 1.0
  }

  method TsFinished(t: Penalty, confidence: Confidence) returns (r: TsResult)
    ensures r.score == Outcome(Damped(t, confidence))
    ensures Dampened(r, t, Dampening(confidence))
  {
    var d := PortDampening(confidence);
    assert d == Dampening(confidence);
    hide Dampening, PortDampening;
    var sum := t.cache + t.lock + t.pageFault + t.ctxSwitch;
    assert sum == Sum(t);
    var total := sum * d;
    assert total == Damped(t, confidence);
    var s := 100.0 - total;
    s := if s < 100.0 then s else 100.0;
    s := if s > 0.0 then s else 0.0;
    r := TsResult(BrowserWindow.RoundHalfUp(s), t.cache * d, t.lock * d, t.pageFault * d, t.ctxSwitch * d);
  }

  lemma PressureSeesOnlyRates(s: Scorer, c: RuntimeProfile, ns: seq<RuntimeProfile>)
    ensures Pressure(s, Effective(AsGo(ToProfile(c))), AllAsGo(seq(|ns|, i requires 0 <= i < |ns| => ToProfile(ns[i]))))
            == Pressure(s, Effective(c), ns)
  {
    PressureOfCopies(s, Effective(AsGo(ToProfile(c))), AllAsGo(seq(|ns|, i requires 0 <= i < |ns| => ToProfile(ns[i]))),
                     Effective(c), ns);
  }

  predicate SameRates(p: RuntimeProfile, q: RuntimeProfile) {
    && p.cacheMissRate == q.cacheMissRate && p.lockRatio == q.lockRatio && p.pageFaultRate == q.pageFaultRate
    && p.ctxSwitchRate == q.ctxSwitchRate && p.confidence == q.confidence
  }

  lemma {:induction false} PressureOfCopies(s: Scorer, c: RuntimeProfile, ns: seq<RuntimeProfile>,
                                            c': RuntimeProfile, ns': seq<RuntimeProfile>)
    requires SameRates(c, c') && |ns| == |ns'| && forall i :: 0 <= i < |ns| ==> SameRates(ns[i], ns'[i])
    ensures Pressure(s, c, ns) == Pressure(s, c', ns')
  {
    if ns != [] {
      var n := |ns| - 1;
      PressureOfCopies(s, c, ns[..n], c', ns'[..n]);
      PairOfCopies(s, c, ns[n], c', ns'[n]);
    }
  }

  lemma PairOfCopies(s: Scorer, c: RuntimeProfile, p: RuntimeProfile, c': RuntimeProfile, p': RuntimeProfile)
    requires SameRates(c, c') && SameRates(p, p')
    ensures PairPenalty(s, c, p) == PairPenalty(s, c', p')
  {
  }

  /** Sending profiles to the browser and scoring them there gives the score the scheduler gives. */
  lemma BrowserScoresAlike(c: RuntimeProfile, ns: seq<RuntimeProfile>)
    ensures var ps := seq(|ns|, i requires 0 <= i < |ns| => ToProfile(ns[i]));
            ScoreOf(DefaultScorer(), AsGo(ToProfile(c)), AllAsGo(ps)) == ScoreOf(DefaultScorer(), c, ns)
  {
    hide Pressure, AllAsGo, DefaultScorer, RoundHalfAway, Clamp, Sum;
    PressureSeesOnlyRates(DefaultScorer(), c, ns);
  }

  // ---------------------------------------------------------------- Python

  datatype Workload = BaselineWeb | CacheStress | LockStress | BatchWorker

  /** The kernel profile of the table, as a profile of high confidence. */
  function KernelProfile(w: Workload): RuntimeProfile {
    match w
    case BaselineWeb => Rates(120_000.0, 0.04, 350.0, 2500.0)
    case CacheStress => Rates(900_000.0, 0.08, 1200.0, 4000.0)
    case LockStress => Rates(200_000.0, 0.65, 500.0, 9500.0)
    case BatchWorker => Rates(150_000.0, 0.05, 7500.0, 1800.0)
  }

  function Rates(cache: real, lock: real, pf: real, cs: real): RuntimeProfile {
    RuntimeProfile("", pf, cache, lock, cs, 0, ZERO_TIME, ZERO_TIME, High)
  }

  function KernelProfiles(ws: seq<Workload>): seq<RuntimeProfile> {
    seq(|ws|, i requires 0 <= i < |ws| => KernelProfile(ws[i]))
  }

  /** One accumulator for all four signals. */
  function PyPenalty(s: Scorer, candidate: Workload, residents: seq<Workload>): real {
    if residents == [] then 0.0
    else
      var n := |residents| - 1;
      PyPenalty(s, candidate, residents[..n])
      + Sum(PairPenalty(s, KernelProfile(candidate), KernelProfile(residents[n])))
  }

  /** Python's round: halves go to the even neighbour. */
  function RoundHalfEven(x: real): int {
    var f := x.Floor;
    var rest := x - f as real;
    if rest < 0.5 || (rest == 0.5 && f % 2 == 0) then f else f + 1
  }

  /** Round, then clamp. */
  function AkilScore(s: Scorer, candidate: Workload, residents: seq<Workload>): (r: int)
    ensures 0 <= r <= 100
  {
    if residents == [] then 100
    else
      var r := RoundHalfEven(100.0 - PyPenalty(s, candidate, residents));
      if r < 0 then 0 else if r > 100 then 100 else r
  }

  method AkilScoreLoop(candidate: Workload, residents: seq<Workload>, s: Scorer) returns (r: int)
    ensures r == AkilScore(s, candidate, residents)
  {
    if |residents| == 0 {
      return 100;
    }
    var c := KernelProfile(candidate);
    var penalty := 0.0;
    var i := 0;
    while i < |residents|
      invariant 0 <= i <= |residents|
      invariant penalty == PyPenalty(s, candidate, residents[..i])
    {
      var p := KernelProfile(residents[i]);
      assert residents[..i + 1][..i] == residents[..i];
      var pair := PairPenalty(s, c, p);
      penalty := penalty + (pair.cache + pair.lock + pair.pageFault + pair.ctxSwitch);
      i := i + 1;
    }
    assert residents[..i] == residents;
    r := RoundHalfEven(100.0 - penalty);
    if r > 100 {
      r := 100;
    }
    if r < 0 {
      r := 0;
    }
  }

  lemma KernelProfilesSnoc(ws: seq<Workload>, w: Workload)
    ensures KernelProfiles(ws + [w]) == KernelProfiles(ws) + [KernelProfile(w)]
  {
    hide KernelProfile;
  }

  lemma PressureOfNone(s: Scorer, c: RuntimeProfile)
    ensures Pressure(s, c, []) == NoPenalty() && Sum(NoPenalty()) == 0.0
  {
  }

  /** One accumulator or four, the penalty is the same. */
  lemma {:induction false} PyPenaltyIsPressure(s: Scorer, c: Workload, rs: seq<Workload>)
    ensures PyPenalty(s, c, rs) == Sum(Pressure(s, KernelProfile(c), KernelProfiles(rs)))
  {
    if rs == [] {
      PressureOfNone(s, KernelProfile(c));
    } else {
      hide Pressure, PairPenalty, KernelProfile, KernelProfiles, Sum, Added;
      var init, r := rs[..|rs| - 1], rs[|rs| - 1];
      PyPenaltyIsPressure(s, c, init);
      KernelProfilesSnoc(init, r);
      assert rs == init + [r];
      PressureSnoc(s, KernelProfile(c), KernelProfiles(init), KernelProfile(r));
      SumAdded(Pressure(s, KernelProfile(c), KernelProfiles(init)), PairPenalty(s, KernelProfile(c), KernelProfile(r)));
    }
  }

  lemma SumAdded(a: Penalty, b: Penalty)
    ensures Sum(Added(a, b)) == Sum(a) + Sum(b)
  {
  }

  /** A half-integer the two languages round differently. */
  predicate Contested(x: real) {
    x >= 0.0 && x - x.Floor as real == 0.5 && x.Floor % 2 == 0
  }

  lemma RoundingDiffers(x: real)
    requires x <= 100.0
    ensures var go := RoundHalfAway(Clamp(x));
            var r := RoundHalfEven(x);
            var py := if r < 0 then 0 else if r > 100 then 100 else r;
            go == if Contested(x) then py + 1 else py
  {
    var f := x.Floor;
    var rest := x - f as real;
    if x >= 0.0 {
      assert (x + 0.5).Floor == if rest < 0.5 then f else f + 1;
    }
  }

  lemma TableRates(w: Workload)
    ensures NonNegative(KernelProfile(w)) && Effective(KernelProfile(w)) == KernelProfile(w)
    ensures KernelProfile(w).confidence == High
  {
  }

  lemma TableTotal(s: Scorer, c: Workload, rs: seq<Workload>)
    requires Weighing(s)
    ensures Total(s, KernelProfile(c), KernelProfiles(rs)) == PyPenalty(s, c, rs) >= 0.0
  {
    hide Pressure, PyPenalty, KernelProfile, Sum, PairPenalty, Weighing, NonNegative, Total;
    PyPenaltyIsPressure(s, c, rs);
    TableRates(c);
    forall i | 0 <= i < |rs| ensures NonNegative(KernelProfiles(rs)[i]) {
      TableRates(rs[i]);
    }
    PressureNonNegative(s, KernelProfile(c), KernelProfiles(rs));
    SumNonNegative(Pressure(s, KernelProfile(c), KernelProfiles(rs)));
    TotalIs(s, KernelProfile(c), KernelProfiles(rs));
  }

  lemma SumNonNegative(p: Penalty)
    requires NoMoreThan(NoPenalty(), p)
    ensures Sum(p) >= 0.0
  {
  }

  /** The simulation scores as Go does, except one point lower exactly where 100 less the penalty is
      a non-negative half-integer with an even floor: it is not a faithful port there. */
  lemma PythonAgreesIff(s: Scorer, c: Workload, rs: seq<Workload>)
    requires Weighing(s)
    ensures var go := ScoreOf(s, KernelProfile(c), KernelProfiles(rs));
            && AkilScore(s, c, rs) <= go <= AkilScore(s, c, rs) + 1
            && (go != AkilScore(s, c, rs) <==> rs != [] && Contested(100.0 - PyPenalty(s, c, rs)))
  {
    hide Total, PyPenalty, KernelProfile, Weighing, Clamp, RoundHalfAway, RoundHalfEven, Contested;
    TableTotal(s, c, rs);
    TotalIs(s, KernelProfile(c), KernelProfiles(rs));
    if rs == [] {
      assert KernelProfiles(rs) == [];
      NothingPressed(s, KernelProfile(c));
    } else {
      RoundingDiffers(100.0 - PyPenalty(s, c, rs));
    }
  }

  /** It happens on the table itself: a web pod next to a web pod. */
  lemma PythonDiffersFromGo()
    ensures AkilScore(DefaultScorer(), BaselineWeb, [BaselineWeb]) == 84
    ensures ScoreOf(DefaultScorer(), KernelProfile(BaselineWeb), KernelProfiles([BaselineWeb])) == 85
  {
    var s, c, rs := DefaultScorer(), BaselineWeb, [BaselineWeb];
    assert rs[..0] == [];
    assert Sum(PairPenalty(s, KernelProfile(c), KernelProfile(c))) == 15.5;
    assert PyPenalty(s, c, rs) == PyPenalty(s, c, []) + 15.5;
    PythonAgreesIff(s, c, rs);
  }

  /** Twenty times what one resident costs a candidate, by the table of workloads: a whole number. */
  function TwentyFold(c: Workload, r: Workload): int {
    match c
    case BaselineWeb => (match r case BaselineWeb => 310 case CacheStress => 959 case LockStress => 948 case BatchWorker => 602)
    case CacheStress => (match r case BaselineWeb => 413 case CacheStress => 1062 case LockStress => 1051 case BatchWorker => 705)
    case LockStress => (match r case BaselineWeb => 892 case CacheStress => 1541 case LockStress => 1530 case BatchWorker => 1184)
    case BatchWorker => (match r case BaselineWeb => 581 case CacheStress => 1230 case LockStress => 1219 case BatchWorker => 873)
  }

  lemma TableInTwentieths(c: Workload, r: Workload)
    ensures 20.0 * Sum(PairPenalty(DefaultScorer(), KernelProfile(c), KernelProfile(r))) == TwentyFold(c, r) as real
  {
    PairInTable(KernelProfile(c), KernelProfile(r));
  }

  lemma PairInTable(c: RuntimeProfile, p: RuntimeProfile)
    ensures 20.0 * Sum(PairPenalty(DefaultScorer(), c, p))
            == p.cacheMissRate * 0.0007 + (c.lockRatio + p.lockRatio) * 600.0
               + (c.pageFaultRate + p.pageFaultRate) * 0.04 + (c.ctxSwitchRate + p.ctxSwitchRate) * 0.03
  {
  }

  function TwentyFoldSum(c: Workload, rs: seq<Workload>): int {
    if rs == [] then 0 else TwentyFoldSum(c, rs[..|rs| - 1]) + TwentyFold(c, rs[|rs| - 1])
  }

  lemma {:induction false} PenaltyInTwentieths(c: Workload, rs: seq<Workload>)
    ensures 20.0 * PyPenalty(DefaultScorer(), c, rs) == TwentyFoldSum(c, rs) as real
  {
    if rs != [] {
      hide PairPenalty, Sum, KernelProfile, TwentyFold, DefaultScorer;
      PenaltyInTwentieths(c, rs[..|rs| - 1]);
      TableInTwentieths(c, rs[|rs| - 1]);
    }
  }

  /** On the table and with the default scorer the simulation differs from Go exactly where 2000 less
      the twentieths is not negative and leaves 10 when divided by 40. */
  lemma PythonAgreesOnTableIff(c: Workload, rs: seq<Workload>)
    requires rs != []
    ensures var x := 2000 - TwentyFoldSum(c, rs);
            ScoreOf(DefaultScorer(), KernelProfile(c), KernelProfiles(rs)) != AkilScore(DefaultScorer(), c, rs)
            <==> x >= 0 && x % 40 == 10
  {
    assert Weighing(DefaultScorer());
    hide PyPenalty, ScoreOf, AkilScore, TwentyFoldSum, Contested, Weighing, DefaultScorer, KernelProfile;
    PenaltyInTwentieths(c, rs);
    PythonAgreesIff(DefaultScorer(), c, rs);
    ContestedInTwentieths(100.0 - PyPenalty(DefaultScorer(), c, rs), 2000 - TwentyFoldSum(c, rs));
  }

  lemma ContestedInTwentieths(x: real, n: int)
    requires 20.0 * x == n as real
    ensures Contested(x) <==> n >= 0 && n % 40 == 10
  {
    var f, rest := n / 20, n % 20;
    assert n as real == 20.0 * (f as real) + rest as real;
    assert x - f as real == rest as real / 20.0;
    assert x.Floor == f;
  }
}
