/** pkg/scoring/scorer.go over exact reals: the co-location score of a candidate against the
    workloads already on a node. */
module Scoring {
  import opened History
  import opened SlidingWindow

  datatype Weights = Weights(cache: real, lock: real, pageFault: real, ctxSwitch: real)

  const DEFAULT_WEIGHTS := Weights(35.0, 30.0, 20.0, 15.0)

  datatype ScorerConfig = ScorerConfig(weights: Weights, maxCacheMissRate: real, maxPageFaultRate: real,
                                       maxCtxSwitchRate: real)

  const DEFAULT_CONFIG := ScorerConfig(DEFAULT_WEIGHTS, 1e6, 1e4, 1e4)

  datatype RawScorer = RawScorer(weights: Weights, maxCache: real, maxFault: real, maxSwitch: real)

  /** A scorer divides by its maxima. */
  type Scorer = s: RawScorer | s.maxCache > 0.0 && s.maxFault > 0.0 && s.maxSwitch > 0.0
    witness RawScorer(DEFAULT_WEIGHTS, 1e6, 1e4, 1e4)

  function NewScorer(cfg: ScorerConfig): (s: Scorer)
    ensures s.weights == cfg.weights
    ensures s.maxCache == if cfg.maxCacheMissRate > 0.0 then cfg.maxCacheMissRate else DEFAULT_CONFIG.maxCacheMissRate
    ensures s.maxFault == if cfg.maxPageFaultRate > 0.0 then cfg.maxPageFaultRate else DEFAULT_CONFIG.maxPageFaultRate
    ensures s.maxSwitch == if cfg.maxCtxSwitchRate > 0.0 then cfg.maxCtxSwitchRate else DEFAULT_CONFIG.maxCtxSwitchRate
  {
    RawScorer(cfg.weights,
              if cfg.maxCacheMissRate <= 0.0 then 1e6 else cfg.maxCacheMissRate,
              if cfg.maxPageFaultRate <= 0.0 then 1e4 else cfg.maxPageFaultRate,
              if cfg.maxCtxSwitchRate <= 0.0 then 1e4 else cfg.maxCtxSwitchRate)
  }

  /** The four signals of a penalty. */
  datatype Penalty = Penalty(cache: real, lock: real, pageFault: real, ctxSwitch: real)

  datatype ScoreResult = ScoreResult(score: int, penalty: Penalty, total: real)

  function NoPenalty(): Penalty {
    Penalty(0.0, 0.0, 0.0, 0.0)
  }

  function Added(a: Penalty, b: Penalty): Penalty {
    Penalty(a.cache + b.cache, a.lock + b.lock, a.pageFault + b.pageFault, a.ctxSwitch + b.ctxSwitch)
  }

  function Sum(p: Penalty): real {
    p.cache + p.lock + p.pageFault + p.ctxSwitch
  }

  /** What one neighbour costs the candidate; the cache signal is the neighbour's alone. */
  function PairPenalty(s: Scorer, c: RuntimeProfile, p: RuntimeProfile): Penalty {
    Penalty(p.cacheMissRate / s.maxCache * s.weights.cache,
            (c.lockRatio + p.lockRatio) * s.weights.lock,
            (c.pageFaultRate + p.pageFaultRate) / s.maxFault * s.weights.pageFault,
            (c.ctxSwitchRate + p.ctxSwitchRate) / s.maxSwitch * s.weights.ctxSwitch)
  }

  /** The sum over the neighbours that have a profile. */
  function Pressure(s: Scorer, c: RuntimeProfile, ns: seq<RuntimeProfile>): Penalty {
    if ns == [] then NoPenalty()
    else
      var p := ns[|ns| - 1];
      var rest := Pressure(s, c, ns[..|ns| - 1]);
      if p.confidence.Unknown? then rest else Added(rest, PairPenalty(s, c, p))
  }

  function Dampening(c: Confidence): real {
    match c
    case Low => 0.25
    case Medium => 0.75
    case High => 1.0
    case Unknown => 0.0
  }

  /** A candidate without a profile is scored as a quiet one. */
  function Effective(c: RuntimeProfile): RuntimeProfile {
    if c.confidence.Unknown? then RuntimeProfile(c.key, 0.0, 0.0, 0.0, 0.0, 0, ZERO_TIME, ZERO_TIME, High) else c
  }

  function Damped(p: Penalty, confidence: Confidence): real {
    Sum(p) * Dampening(confidence)
  }

  /** The dampened penalty. */
  function Total(s: Scorer, candidate: RuntimeProfile, ns: seq<RuntimeProfile>): real {
    var c := Effective(candidate);
    Damped(Pressure(s, c, ns), c.confidence)
  }

  function Clamp(x: real): real {
    if x < 0.0 then 0.0 else if x > 100.0 then 100.0 else x
  }

  /** Go's math.Round: halves go away from zero. */
  function RoundHalfAway(x: real): int {
    if x >= 0.0 then (x + 0.5).Floor else -((-x + 0.5).Floor)
  }

  /** What is left of 100 after a penalty. */
  function Outcome(total: real): int {
    RoundHalfAway(Clamp(100.0 - total))
  }

  function ScoreOf(s: Scorer, candidate: RuntimeProfile, ns: seq<RuntimeProfile>): int {
    Outcome(Total(s, candidate, ns))
  }

  lemma PressureSnoc(s: Scorer, c: RuntimeProfile, ns: seq<RuntimeProfile>, p: RuntimeProfile)
    ensures Pressure(s, c, ns + [p])
            == if p.confidence.Unknown? then Pressure(s, c, ns) else Added(Pressure(s, c, ns), PairPenalty(s, c, p))
  {
    assert (ns + [p])[..|ns|] == ns;
  }

  /** `t` is the pressure of the first `i` neighbours. */
  ghost predicate Accumulated(t: Penalty, s: Scorer, c: RuntimeProfile, ns: seq<RuntimeProfile>, i: int) {
    0 <= i <= |ns| && t == Pressure(s, c, ns[..i])
  }

  lemma AccumulatedNext(t: Penalty, s: Scorer, c: RuntimeProfile, ns: seq<RuntimeProfile>, i: int)
    requires 0 <= i < |ns| && Accumulated(t, s, c, ns, i)
    ensures Accumulated(if ns[i].confidence.Unknown? then t else Added(t, PairPenalty(s, c, ns[i])), s, c, ns, i + 1)
  {
    assert ns[..i + 1] == ns[..i] + [ns[i]];
    PressureSnoc(s, c, ns[..i], ns[i]);
  }

  lemma AccumulatedNone(s: Scorer, c: RuntimeProfile, ns: seq<RuntimeProfile>)
    ensures Accumulated(NoPenalty(), s, c, ns, 0)
    ensures ns == [] ==> Pressure(s, c, ns) == NoPenalty()
  {
    assert ns[..0] == [];
  }

  lemma AccumulatedAll(t: Penalty, s: Scorer, c: RuntimeProfile, ns: seq<RuntimeProfile>)
    requires Accumulated(t, s, c, ns, |ns|)
    ensures t == Pressure(s, c, ns)
  {
    assert ns[..|ns|] == ns;
  }

  lemma NothingPressed(s: Scorer, candidate: RuntimeProfile)
    ensures Pressure(s, Effective(candidate), []) == NoPenalty()
    ensures Total(s, candidate, []) == 0.0 && ScoreOf(s, candidate, []) == 100
  {
    assert Total(s, candidate, []) == 0.0 * Dampening(Effective(candidate).confidence);
  }

  lemma TotalIs(s: Scorer, candidate: RuntimeProfile, ns: seq<RuntimeProfile>)
    ensures Total(s, candidate, ns) == Damped(Pressure(s, Effective(candidate), ns), Effective(candidate).confidence)
    ensures ScoreOf(s, candidate, ns) == Outcome(Total(s, candidate, ns))
  {
  }

  /** Skips neighbours without a profile, dampens by the candidate's confidence, clamps and rounds. */
  method Score(s: Scorer, candidate: RuntimeProfile, colocated: seq<RuntimeProfile>) returns (r: ScoreResult)
    ensures r.score == ScoreOf(s, candidate, colocated)
    ensures r.penalty == Pressure(s, Effective(candidate), colocated)
    ensures r.total == Total(s, candidate, colocated)
    ensures 0 <= r.score <= 100
    ensures 4.0 * r.total == Quarters(candidate.confidence) * (r.penalty.cache + r.penalty.lock + r.penalty.pageFault + r.penalty.ctxSwitch)
    ensures 0.0 <= r.total <= 100.0 ==> -0.5 < r.score as real - (100.0 - r.total) <= 0.5
    ensures r.total > 100.0 ==> r.score == 0
    ensures r.total < 0.0 ==> r.score == 100
  {
    ScoreInRange(s, candidate, colocated);
    QuarterTotals(s, candidate, colocated);
    OutcomeNearest(Total(s, candidate, colocated));
    hide Pressure, Total, ScoreOf, Outcome, Damped;
    var c := candidate;
    if c.confidence.Unknown? {
      c := RuntimeProfile(c.key, 0.0, 0.0, 0.0, 0.0, 0, ZERO_TIME, ZERO_TIME, High);
    }
    if |colocated| == 0 {
      assert colocated == [];
      NothingPressed(s, candidate);
      return ScoreResult(100, NoPenalty(), 0.0);
    }
    var p := Accumulate(s, c, colocated);
    r := Finished(p, c.confidence);
    assert c == Effective(candidate);
    TotalIs(s, candidate, colocated);
  }

  /** How many quarters of the penalty count; a candidate without a profile counts in full. */
  function Quarters(c: Confidence): real {
    if c.Low? then 1.0 else if c.Medium? then 3.0 else 4.0
  }

  lemma QuarterTotals(s: Scorer, candidate: RuntimeProfile, ns: seq<RuntimeProfile>)
    ensures var p := Pressure(s, Effective(candidate), ns);
            4.0 * Total(s, candidate, ns) == Quarters(candidate.confidence) * (p.cache + p.lock + p.pageFault + p.ctxSwitch)
  {
    hide Pressure;
    var d := Dampening(Effective(candidate).confidence);
    assert 4.0 * d == Quarters(candidate.confidence);
    FourTimes(Sum(Pressure(s, Effective(candidate), ns)), d);
  }

  lemma FourTimes(x: real, d: real)
    ensures 4.0 * (x * d) == (4.0 * d) * x
  {
  }

  /** The score is what is left of 100, to the nearest integer, halves up. */
  lemma OutcomeNearest(total: real)
    ensures 0.0 <= total <= 100.0 ==> -0.5 < Outcome(total) as real - (100.0 - total) <= 0.5
    ensures total > 100.0 ==> Outcome(total) == 0
    ensures total < 0.0 ==> Outcome(total) == 100
  {
    assert 100.5.Floor == 100;
  }

  // ---------------------------------------------------------------- the sum in closed form

  /** The neighbours that have a profile. */
  function KnownCount(ns: seq<RuntimeProfile>): nat {
    if ns == [] then 0 else KnownCount(ns[..|ns| - 1]) + (if ns[|ns| - 1].confidence.Unknown? then 0 else 1)
  }

  /** The sums of their rates. */
  function RateSums(ns: seq<RuntimeProfile>): Penalty {
    if ns == [] then NoPenalty()
    else
      var p, rest := ns[|ns| - 1], RateSums(ns[..|ns| - 1]);
      if p.confidence.Unknown? then rest
      else Added(rest, Penalty(p.cacheMissRate, p.lockRatio, p.pageFaultRate, p.ctxSwitchRate))
  }

  lemma ScaledTerm(acc: real, sum: real, x: real, m: real, w: real)
    requires m > 0.0 && acc * m == sum * w
    ensures (acc + x / m * w) * m == (sum + x) * w
  {
    var q := x / m;
    assert q * m == x;
    assert (acc + q * w) * m == acc * m + (q * m) * w;
  }

  lemma OneMore(n: nat, c: real, x: real, sum: real)
    ensures (n + 1) as real * c + (sum + x) == (n as real * c + sum) + (c + x)
  {
    assert (n + 1) as real == n as real + 1.0;
  }

  /** Each signal is its weight times the summed rates over the maximum: the candidate's once for each
      of the `n` neighbours, but not for cache misses. */
  predicate ClosedForm(s: Scorer, c: RuntimeProfile, p: Penalty, n: nat, t: Penalty) {
    && p.cache * s.maxCache == t.cache * s.weights.cache
    && p.lock == (n as real * c.lockRatio + t.lock) * s.weights.lock
    && p.pageFault * s.maxFault == (n as real * c.pageFaultRate + t.pageFault) * s.weights.pageFault
    && p.ctxSwitch * s.maxSwitch == (n as real * c.ctxSwitchRate + t.ctxSwitch) * s.weights.ctxSwitch
  }

  lemma {:induction false} PressureClosedForm(s: Scorer, c: RuntimeProfile, ns: seq<RuntimeProfile>)
    ensures ClosedForm(s, c, Pressure(s, c, ns), KnownCount(ns), RateSums(ns))
  {
    if ns != [] {
      hide ClosedForm, PairPenalty, Added;
      var init, p := ns[..|ns| - 1], ns[|ns| - 1];
      PressureClosedForm(s, c, init);
      ClosedStep(s, c, p, Pressure(s, c, init), KnownCount(init), RateSums(init));
    }
  }

  lemma ClosedStep(s: Scorer, c: RuntimeProfile, p: RuntimeProfile, q: Penalty, n: nat, t: Penalty)
    requires ClosedForm(s, c, q, n, t)
    ensures ClosedForm(s, c, Added(q, PairPenalty(s, c, p)), n + 1,
                       Added(t, Penalty(p.cacheMissRate, p.lockRatio, p.pageFaultRate, p.ctxSwitchRate)))
  {
    ScaledTerm(q.cache, t.cache, p.cacheMissRate, s.maxCache, s.weights.cache);
    SharedTerm(q.lock, n, c.lockRatio, t.lock, p.lockRatio, 1.0, s.weights.lock);
    SharedTerm(q.pageFault, n, c.pageFaultRate, t.pageFault, p.pageFaultRate, s.maxFault, s.weights.pageFault);
    SharedTerm(q.ctxSwitch, n, c.ctxSwitchRate, t.ctxSwitch, p.ctxSwitchRate, s.maxSwitch, s.weights.ctxSwitch);
  }

  lemma SharedTerm(acc: real, n: nat, c: real, sum: real, x: real, m: real, w: real)
    requires m > 0.0 && acc * m == (n as real * c + sum) * w
    ensures (acc + (c + x) / m * w) * m == ((n + 1) as real * c + (sum + x)) * w
  {
    ScaledTerm(acc, n as real * c + sum, c + x, m, w);
    OneMore(n, c, x, sum);
  }

  // ---------------------------------------------------------------- the loop

  /** The loop as coded, with its four accumulators. */
  method Accumulate(s: Scorer, c: RuntimeProfile, colocated: seq<RuntimeProfile>) returns (t: Penalty)
    ensures t == Pressure(s, c, colocated)
  {
    hide Accumulated, Pressure, PairPenalty;
    var cache, lock, pf, cs := 0.0, 0.0, 0.0, 0.0;
    var i := 0;
    AccumulatedNone(s, c, colocated);
    while i < |colocated|
      invariant 0 <= i <= |colocated|
      invariant Accumulated(Penalty(cache, lock, pf, cs), s, c, colocated, i)
    {
      var p := colocated[i];
      AccumulatedNext(Penalty(cache, lock, pf, cs), s, c, colocated, i);
      i := i + 1;
      if p.confidence.Unknown? {
        continue;
      }
      var pair := Costs(s, c, p);
      cache := cache + pair.cache;
      lock := lock + pair.lock;
      pf := pf + pair.pageFault;
      cs := cs + pair.ctxSwitch;
    }
    t := Penalty(cache, lock, pf, cs);
    AccumulatedAll(t, s, c, colocated);
  }

  method Costs(s: Scorer, c: RuntimeProfile, p: RuntimeProfile) returns (t: Penalty)
    ensures t == PairPenalty(s, c, p)
  {
    var cachePenalty := p.cacheMissRate / s.maxCache * s.weights.cache;
    var lockPenalty := (c.lockRatio + p.lockRatio) * s.weights.lock;
    var pfPenalty := (c.pageFaultRate + p.pageFaultRate) / s.maxFault * s.weights.pageFault;
    var csPenalty := (c.ctxSwitchRate + p.ctxSwitchRate) / s.maxSwitch * s.weights.ctxSwitch;
    t := Penalty(cachePenalty, lockPenalty, pfPenalty, csPenalty);
  }

  /** Dampen, subtract, clamp, round. */
  method Finished(p: Penalty, confidence: Confidence) returns (r: ScoreResult)
    ensures r.penalty == p && r.total == Damped(p, confidence)
    ensures r.score == Outcome(r.total)
  {
    var total := p.cache + p.lock + p.pageFault + p.ctxSwitch;
    total := total * Dampening(confidence);
    var score := 100.0 - total;
    if score < 0.0 {
      score := 0.0;
    }
    if score > 100.0 {
      score := 100.0;
    }
    r := ScoreResult(RoundHalfAway(score), p, total);
  }

  // ---------------------------------------------------------------- range and rounding

  lemma ScoreInRange(s: Scorer, c: RuntimeProfile, ns: seq<RuntimeProfile>)
    ensures 0 <= ScoreOf(s, c, ns) <= 100
  {
    var x := Clamp(100.0 - Total(s, c, ns));
    assert 0.0 <= x <= 100.0;
  }

  lemma RoundMonotone(x: real, y: real)
    requires 0.0 <= x <= y
    ensures RoundHalfAway(x) <= RoundHalfAway(y)
    ensures (RoundHalfAway(y) - RoundHalfAway(x)) as real < y - x + 1.0
  {
  }

  /** A larger penalty never raises the score, and moves it by less than itself plus one. */
  lemma ScoreFollowsPenalty(s: Scorer, c: RuntimeProfile, ns: seq<RuntimeProfile>, c': RuntimeProfile, ns': seq<RuntimeProfile>)
    requires Total(s, c, ns) <= Total(s, c', ns')
    ensures ScoreOf(s, c', ns') <= ScoreOf(s, c, ns)
    ensures (ScoreOf(s, c, ns) - ScoreOf(s, c', ns')) as real < Total(s, c', ns') - Total(s, c, ns) + 1.0
  {
    RoundMonotone(Clamp(100.0 - Total(s, c', ns')), Clamp(100.0 - Total(s, c, ns)));
  }

  // ---------------------------------------------------------------- neighbours

  predicate NonNegative(p: RuntimeProfile) {
    p.cacheMissRate >= 0.0 && p.lockRatio >= 0.0 && p.pageFaultRate >= 0.0 && p.ctxSwitchRate >= 0.0
  }

  predicate Weighing(s: Scorer) {
    s.weights.cache >= 0.0 && s.weights.lock >= 0.0 && s.weights.pageFault >= 0.0 && s.weights.ctxSwitch >= 0.0
  }

  predicate NoMoreThan(p: Penalty, q: Penalty) {
    p.cache <= q.cache && p.lock <= q.lock && p.pageFault <= q.pageFault && p.ctxSwitch <= q.ctxSwitch
  }

  lemma Scaled(x: real, y: real, m: real, w: real)
    requires x <= y && m > 0.0 && w >= 0.0
    ensures x / m * w <= y / m * w
  {
    var a, b := x / m, y / m;
    assert a <= b;
    Weighted(a, b, w);
  }

  lemma Weighted(x: real, y: real, w: real)
    requires x <= y && w >= 0.0
    ensures x * w <= y * w
  {
    assert (y - x) * w >= 0.0;
  }

  /** Every rate of `q` is at least that of `p`. */
  predicate NoCalmer(p: RuntimeProfile, q: RuntimeProfile) {
    && p.cacheMissRate <= q.cacheMissRate && p.lockRatio <= q.lockRatio
    && p.pageFaultRate <= q.pageFaultRate && p.ctxSwitchRate <= q.ctxSwitchRate
    && (p.confidence.Unknown? <==> q.confidence.Unknown?)
  }

  lemma PairMonotone(s: Scorer, c: RuntimeProfile, p: RuntimeProfile, c': RuntimeProfile, p': RuntimeProfile)
    requires Weighing(s) && NoCalmer(c, c') && NoCalmer(p, p')
    ensures NoMoreThan(PairPenalty(s, c, p), PairPenalty(s, c', p'))
  {
    Scaled(p.cacheMissRate, p'.cacheMissRate, s.maxCache, s.weights.cache);
    Weighted(c.lockRatio + p.lockRatio, c'.lockRatio + p'.lockRatio, s.weights.lock);
    Scaled(c.pageFaultRate + p.pageFaultRate, c'.pageFaultRate + p'.pageFaultRate, s.maxFault, s.weights.pageFault);
    Scaled(c.ctxSwitchRate + p.ctxSwitchRate, c'.ctxSwitchRate + p'.ctxSwitchRate, s.maxSwitch, s.weights.ctxSwitch);
  }

  lemma PairNonNegative(s: Scorer, c: RuntimeProfile, p: RuntimeProfile)
    requires Weighing(s) && NonNegative(c) && NonNegative(p)
    ensures NoMoreThan(NoPenalty(), PairPenalty(s, c, p))
  {
    Scaled(0.0, p.cacheMissRate, s.maxCache, s.weights.cache);
    Weighted(0.0, c.lockRatio + p.lockRatio, s.weights.lock);
    Scaled(0.0, c.pageFaultRate + p.pageFaultRate, s.maxFault, s.weights.pageFault);
    Scaled(0.0, c.ctxSwitchRate + p.ctxSwitchRate, s.maxSwitch, s.weights.ctxSwitch);
  }

  lemma {:induction false} PressureMonotone(s: Scorer, c: RuntimeProfile, ns: seq<RuntimeProfile>,
                                            c': RuntimeProfile, ns': seq<RuntimeProfile>)
    requires Weighing(s) && NoCalmer(c, c') && |ns| == |ns'|
    requires forall i :: 0 <= i < |ns| ==> NoCalmer(ns[i], ns'[i])
    ensures NoMoreThan(Pressure(s, c, ns), Pressure(s, c', ns'))
  {
    if ns != [] {
      var n := |ns| - 1;
      PressureMonotone(s, c, ns[..n], c', ns'[..n]);
      PairMonotone(s, c, ns[n], c', ns'[n]);
    }
  }

  lemma {:induction false} PressureNonNegative(s: Scorer, c: RuntimeProfile, ns: seq<RuntimeProfile>)
    requires Weighing(s) && NonNegative(c)
    requires forall i :: 0 <= i < |ns| ==> NonNegative(ns[i])
    ensures NoMoreThan(NoPenalty(), Pressure(s, c, ns))
  {
    if ns != [] {
      var n := |ns| - 1;
      PressureNonNegative(s, c, ns[..n]);
      PairNonNegative(s, c, ns[n]);
    }
  }

  /** Higher rates, of the candidate or of any neighbour, never raise the score.  Confidences stay
      as they are. */
  lemma RatesNeverHelp(s: Scorer, c: RuntimeProfile, ns: seq<RuntimeProfile>, c': RuntimeProfile, ns': seq<RuntimeProfile>)
    requires Weighing(s) && NoCalmer(c, c') && c.confidence == c'.confidence && |ns| == |ns'|
    requires forall i :: 0 <= i < |ns| ==> NoCalmer(ns[i], ns'[i])
    ensures ScoreOf(s, c', ns') <= ScoreOf(s, c, ns)
  {
    var e, e' := Effective(c), Effective(c');
    PressureMonotone(s, e, ns, e', ns');
    Weighted(Sum(Pressure(s, e, ns)), Sum(Pressure(s, e', ns')), Dampening(e.confidence));
    ScoreFollowsPenalty(s, c, ns, c', ns');
  }

  /** Another neighbour with a profile never raises the score; one without changes nothing. */
  lemma NeighboursNeverHelp(s: Scorer, c: RuntimeProfile, ns: seq<RuntimeProfile>, p: RuntimeProfile)
    requires Weighing(s) && NonNegative(c) && NonNegative(p)
    ensures ScoreOf(s, c, ns + [p]) <= ScoreOf(s, c, ns)
    ensures p.confidence.Unknown? ==> ScoreOf(s, c, ns + [p]) == ScoreOf(s, c, ns)
  {
    hide Pressure, PairPenalty;
    var e := Effective(c);
    PressureSnoc(s, e, ns, p);
    PairNonNegative(s, e, p);
    Weighted(Sum(Pressure(s, e, ns)), Sum(Pressure(s, e, ns + [p])), Dampening(e.confidence));
    ScoreFollowsPenalty(s, c, ns, c, ns + [p]);
  }

  /** The surer the candidate's profile, the lower its score. */
  lemma ConfidenceNeverHelps(s: Scorer, c: RuntimeProfile, ns: seq<RuntimeProfile>)
    requires Weighing(s) && NonNegative(c)
    requires forall i :: 0 <= i < |ns| ==> NonNegative(ns[i])
    ensures ScoreOf(s, c.(confidence := High), ns) <= ScoreOf(s, c.(confidence := Medium), ns)
            <= ScoreOf(s, c.(confidence := Low), ns)
  {
    var low, medium, high := c.(confidence := Low), c.(confidence := Medium), c.(confidence := High);
    PressureNonNegative(s, low, ns);
    PressureIgnoresConfidence(s, c, ns, Low);
    PressureIgnoresConfidence(s, c, ns, Medium);
    PressureIgnoresConfidence(s, c, ns, High);
    ScoreFollowsPenalty(s, low, ns, medium, ns);
    ScoreFollowsPenalty(s, medium, ns, high, ns);
  }

  lemma PairIgnoresConfidence(s: Scorer, c: RuntimeProfile, p: RuntimeProfile, k: Confidence)
    ensures PairPenalty(s, c.(confidence := k), p) == PairPenalty(s, c, p)
  {
  }

  lemma {:induction false} PressureIgnoresConfidence(s: Scorer, c: RuntimeProfile, ns: seq<RuntimeProfile>, k: Confidence)
    ensures Pressure(s, c.(confidence := k), ns) == Pressure(s, c, ns)
  {
    if ns != [] {
      PressureIgnoresConfidence(s, c, ns[..|ns| - 1], k);
      PairIgnoresConfidence(s, c, ns[|ns| - 1], k);
    }
  }

  lemma AddedSwap(a: Penalty, x: Penalty, y: Penalty)
    ensures Added(Added(a, x), y) == Added(Added(a, y), x)
  {
  }

  lemma {:induction false} PressureWithout(s: Scorer, c: RuntimeProfile, ns: seq<RuntimeProfile>, i: int)
    requires 0 <= i < |ns|
    ensures Pressure(s, c, ns) == Pressure(s, c, ns[..i] + ns[i + 1..] + [ns[i]])
  {
    hide Pressure, PairPenalty;
    var n := |ns| - 1;
    if i == n {
      assert ns[..i] + ns[i + 1..] + [ns[i]] == ns;
    } else {
      var init, last := ns[..n], ns[n];
      PressureWithout(s, c, init, i);
      var rest := init[..i] + init[i + 1..];
      assert ns[..i] + ns[i + 1..] == rest + [last];
      assert ns == init + [last];
      PressureSnoc(s, c, init, last);
      AddedSwap(Pressure(s, c, rest), PairPenalty(s, c, last), PairPenalty(s, c, ns[i]));
      hide Added;
      PressureSnoc(s, c, rest, init[i]);
      PressureSnoc(s, c, rest, last);
      PressureSnoc(s, c, rest + [last], ns[i]);
    }
  }

  lemma {:induction false} PressureIgnoresOrder(s: Scorer, c: RuntimeProfile, ns: seq<RuntimeProfile>, ms: seq<RuntimeProfile>)
    requires multiset(ns) == multiset(ms)
    ensures Pressure(s, c, ns) == Pressure(s, c, ms)
    decreases |ns|
  {
    hide PairPenalty, Added;
    if ns == [] {
      assert |multiset(ms)| == 0;
    } else {
      var n := |ns| - 1;
      var p := ns[n];
      assert ns == ns[..n] + [p];
      assert p in multiset(ms);
      var i :| 0 <= i < |ms| && ms[i] == p;
      var rest := ms[..i] + ms[i + 1..];
      assert ms == ms[..i] + [ms[i]] + ms[i + 1..];
      assert multiset(rest) == multiset(ms) - multiset{p};
      PressureIgnoresOrder(s, c, ns[..n], rest);
      PressureWithout(s, c, ms, i);
      PressureSnoc(s, c, rest, p);
    }
  }

  /** The order of the neighbours does not matter. */
  lemma ScoreIgnoresOrder(s: Scorer, c: RuntimeProfile, ns: seq<RuntimeProfile>, ms: seq<RuntimeProfile>)
    requires multiset(ns) == multiset(ms)
    ensures ScoreOf(s, c, ns) == ScoreOf(s, c, ms)
  {
    PressureIgnoresOrder(s, Effective(c), ns, ms);
  }

  // ---------------------------------------------------------------- empty means quiet

  /** Of an honest history the confidence is Unknown exactly when every rate is zero, so scoring an
      unknown candidate as a quiet one replaces no rate the store could have reported. */
  lemma UnknownIsQuiet(key: string, w: Log, b: int, d: int, start: int, end: int)
    requires b > 0 && d > 0 && HonestLog(w)
    ensures var p := ProfileOf(key, WindowTotals(w, b), b, d, start, end);
            && NonNegative(p)
            && (p.confidence.Unknown? <==> p.samples == 0)
            && (p.samples == 0 <==> WindowTotals(w, b) == Zero())
            && (p.confidence.Unknown? ==>
                  Effective(p) == p.(windowStart := ZERO_TIME, windowEnd := ZERO_TIME, confidence := High))
  {
    WindowHonest(w, b);
    RatesOfHonest(key, WindowTotals(w, b), b, d, start, end);
  }

  lemma RatesOfHonest(key: string, c: Counts, b: int, d: int, start: int, end: int)
    requires b > 0 && d > 0 && Honest(c)
    ensures var p := ProfileOf(key, c, b, d, start, end);
            NonNegative(p) && (c == Zero() ==> p == RuntimeProfile(key, 0.0, 0.0, 0.0, 0.0, 0, start, end, Unknown))
  {
    var seconds := b as real * (d as real / 1e9);
    assert seconds > 0.0;
    Scaled(0.0, c.faults as real, seconds, 1.0);
    Scaled(0.0, c.misses as real, seconds, 1.0);
    Scaled(0.0, c.lockNs as real, seconds * 1e9, 1.0);
    Scaled(0.0, c.switches as real, seconds, 1.0);
  }
}
