/** benchmarks/webbench/server/main.go: an array of next-indices built from a permutation, and the
    loop of dependent reads over it. */
module PointerChase {
  import opened Arithmetic

  /** What rand.Perm promises: each index below the length once. */
  ghost predicate IsPermutation(perm: seq<nat>) {
    && (forall i :: 0 <= i < |perm| ==> perm[i] < |perm|)
    && (forall i, j :: 0 <= i < j < |perm| ==> perm[i] != perm[j])
  }

  ghost predicate Closed(next: seq<nat>) {
    forall i :: 0 <= i < |next| ==> next[i] < |next|
  }

  /** Each element of the permutation points to the one after it, the last to the first. */
  ghost predicate Links(perm: seq<nat>, next: seq<nat>) {
    && |next| == |perm|
    && forall i :: 0 <= i < |perm| ==> perm[i] < |next| && next[perm[i]] == perm[(i + 1) % |perm|]
  }

  method BuildNext(perm: seq<nat>) returns (next: array<nat>)
    requires IsPermutation(perm)
    ensures fresh(next) && Links(perm, next[..])
  {
    var n := |perm|;
    next := new nat[n](_ => 0);
    var i := 0;
    while i < n
      invariant 0 <= i <= n
      invariant forall j :: 0 <= j < i ==> next[perm[j]] == perm[(j + 1) % n]
    {
      next[perm[i]] := perm[(i + 1) % n];
      i := i + 1;
    }
  }

  /** Where `k` reads lead from `idx`. */
  function Walk(next: seq<nat>, idx: nat, k: nat): (r: nat)
    requires Closed(next) && idx < |next|
    ensures r < |next|
  {
    if k == 0 then idx else next[Walk(next, idx, k - 1)]
  }

  /** Every read is in bounds. */
  method Chase(next: array<nat>, start: nat, count: nat) returns (idx: nat)
    requires Closed(next[..]) && start < next.Length
    ensures idx == Walk(next[..], start, count)
  {
    idx := start;
    var i := 0;
    while i < count
      invariant 0 <= i <= count && idx == Walk(next[..], start, i)
    {
      idx := next[idx];
      i := i + 1;
    }
  }

  // ---------------------------------------------------------------- permutations reach everything

  function Below(n: nat): (s: set<nat>)
    ensures |s| == n
    ensures forall v: nat {:trigger v in s} :: v in s <==> v < n
  {
    if n == 0 then {} else Below(n - 1) + {n - 1}
  }

  function Values(perm: seq<nat>): set<nat> {
    set v | v in perm
  }

  lemma {:induction false} DistinctSize(perm: seq<nat>)
    requires forall i, j :: 0 <= i < j < |perm| ==> perm[i] != perm[j]
    ensures |Values(perm)| == |perm|
  {
    if perm != [] {
      var init, v := perm[..|perm| - 1], perm[|perm| - 1];
      DistinctSize(init);
      assert perm == init + [v];
      assert Values(perm) == Values(init) + {v};
    }
  }

  lemma SubsetOfSameSize(a: set<nat>, b: set<nat>)
    requires a <= b && |a| == |b|
    ensures a == b
  {
    assert |b - a| == |b| - |a|;
  }

  /** Every index below the length is somewhere in the permutation. */
  lemma Position(perm: seq<nat>, v: nat) returns (i: nat)
    requires IsPermutation(perm) && v < |perm|
    ensures i < |perm| && perm[i] == v
  {
    DistinctSize(perm);
    assert Values(perm) <= Below(|perm|);
    SubsetOfSameSize(Values(perm), Below(|perm|));
    assert v in Below(|perm|);
    i :| 0 <= i < |perm| && perm[i] == v;
  }

  /** The loop writes each slot of the array exactly once. */
  lemma EachSlotOnce(perm: seq<nat>, v: nat)
    requires IsPermutation(perm) && v < |perm|
    ensures exists i :: 0 <= i < |perm| && perm[i] == v && forall j :: 0 <= j < |perm| && perm[j] == v ==> j == i
  {
    var i := Position(perm, v);
    forall j | 0 <= j < |perm| && perm[j] == v ensures j == i {
      assert perm[if i < j then i else j] == perm[if i < j then j else i];
    }
  }

  lemma LinksClosed(perm: seq<nat>, next: seq<nat>)
    requires IsPermutation(perm) && Links(perm, next)
    ensures Closed(next)
  {
    forall v | 0 <= v < |next| ensures next[v] < |next| {
      var i := Position(perm, v);
    }
  }

  // ---------------------------------------------------------------- one cycle

  lemma ModNext(a: nat, n: nat)
    requires n > 0
    ensures (a % n + 1) % n == (a + 1) % n
  {
    var q, r := a / n, a % n;
    if r + 1 == n {
      QuotientIs(a + 1, n, q + 1, 0);
    } else {
      QuotientIs(a + 1, n, q, r + 1);
      QuotientIs(r + 1, n, 0, r + 1);
    }
  }

  /** `k` places on from `i`, cyclically. */
  function Slot(i: nat, k: nat, n: nat): (j: nat)
    requires n > 0
    ensures j < n
  {
    (i + k) % n
  }

  lemma SlotNext(i: nat, k: nat, n: nat)
    requires n > 0
    ensures Slot(Slot(i, k, n), 1, n) == Slot(i, k + 1, n)
  {
    ModNext(i + k, n);
  }

  lemma Turn(i: nat, k: nat, n: nat)
    requires i < n && k <= n
    ensures Slot(i, k, n) == if i + k < n then i + k else i + k - n
  {
    QuotientIs(i + k, n, if i + k < n then 0 else 1, if i + k < n then i + k else i + k - n);
  }

  lemma LinkAt(perm: seq<nat>, next: seq<nat>, j: nat)
    requires Links(perm, next) && j < |perm|
    ensures |next| == |perm| && perm[j] < |next| && next[perm[j]] == perm[Slot(j, 1, |perm|)]
  {
  }

  /** k reads from perm[i] lead to perm[(i + k) mod n]. */
  lemma {:induction false} WalkIs(perm: seq<nat>, next: seq<nat>, i: nat, k: nat)
    requires IsPermutation(perm) && Links(perm, next) && Closed(next) && i < |perm|
    ensures Walk(next, perm[i], k) == perm[Slot(i, k, |perm|)]
    decreases k
  {
    var n := |perm|;
    if k == 0 {
      Turn(i, 0, n);
    } else {
      hide IsPermutation, Links, Slot;
      WalkIs(perm, next, i, k - 1);
      LinkAt(perm, next, Slot(i, k - 1, n));
      SlotNext(i, k - 1, n);
    }
  }

  ghost predicate Visits(next: seq<nat>, start: nat, v: nat)
    requires Closed(next) && start < |next|
  {
    exists k: nat :: k < |next| && Walk(next, start, k) == v
  }

  /** From any start the walk meets every index exactly once in n reads, and the n-th read is the
      first to return: the whole working set is one cycle. */
  lemma SingleCycle(perm: seq<nat>, next: seq<nat>, start: nat)
    requires IsPermutation(perm) && Links(perm, next) && Closed(next) && start < |perm|
    ensures Walk(next, start, |perm|) == start
    ensures forall v: nat :: v < |perm| ==> Visits(next, start, v)
    ensures forall j: nat, k: nat :: j < k < |perm| ==> Walk(next, start, j) != Walk(next, start, k)
  {
    var n := |perm|;
    var i := Position(perm, start);
    WalkIs(perm, next, i, n);
    Turn(i, n, n);
    forall v: nat | v < n ensures Visits(next, start, v) {
      AllVisited(perm, next, i, v);
    }
    forall j: nat, k: nat | j < k < n ensures Walk(next, start, j) != Walk(next, start, k) {
      WalkIs(perm, next, i, j);
      WalkIs(perm, next, i, k);
      Turn(i, j, n);
      Turn(i, k, n);
    }
  }

  lemma AllVisited(perm: seq<nat>, next: seq<nat>, i: nat, v: nat)
    requires IsPermutation(perm) && Links(perm, next) && Closed(next) && i < |perm| && v < |perm|
    ensures Visits(next, perm[i], v)
  {
    var n := |perm|;
    var j := Position(perm, v);
    var k: nat := if j >= i then j - i else j - i + n;
    WalkIs(perm, next, i, k);
    Turn(i, k, n);
  }
}
