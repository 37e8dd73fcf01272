/** pkg/profile/store.go, one call at a time: workload keys to profiles, seen as a map from keys
    to event histories.  StoreRace.dfy has the interleavings of GetOrCreate. */
module ProfileStore {
  import opened History
  import opened SlidingWindow

  type Logs = map<string, Log>

  /** What a query for `k` reads and leaves behind. */
  function Queried(logs: Logs, k: string, now: int, d: int): Logs
    requires d > 0
  {
    if k in logs then logs[k := Rotated(Lazy, logs[k], now, d)] else logs
  }

  function TotalsOf(logs: Logs, k: string, b: int): Counts {
    if k in logs then WindowTotals(logs[k], b) else Zero()
  }

  /** A key that is not known gets an empty profile. */
  function Created(logs: Logs, k: string, now: int): Logs {
    if k in logs then logs else logs[k := Log([], 0, now)]
  }

  /** What a call on the profile of `k`, created if need be at `made`, leaves behind. */
  function Applied(logs: Logs, k: string, made: int, c: Call, d: int): Logs
    requires d > 0
  {
    var w := Created(logs, k, made);
    w[k := Step(Lazy, w[k], c, d)]
  }

  /** The store after the first `m` queries. */
  function After(logs: Logs, keys: seq<string>, nows: seq<int>, m: int, d: int): Logs
    requires d > 0 && 0 <= m <= |keys| && m <= |nows|
  {
    if m == 0 then logs else Queried(After(logs, keys, nows, m - 1, d), keys[m - 1], nows[m - 1], d)
  }

  lemma {:induction false} AfterPrefix(logs: Logs, keys: seq<string>, more: seq<string>, nows: seq<int>, m: int, d: int)
    requires d > 0 && 0 <= m <= |keys| && m <= |nows|
    ensures After(logs, keys + more, nows, m, d) == After(logs, keys, nows, m, d)
  {
    if m > 0 {
      AfterPrefix(logs, keys, more, nows, m - 1, d);
    }
  }

  /** Profile `i` is what the query for key `i` returns. */
  ghost predicate Answers(ps: seq<RuntimeProfile>, logs: Logs, keys: seq<string>, nows: seq<int>, b: int, d: int) {
    && b > 0 && d > 0 && |ps| == |keys| <= |nows|
    && forall i :: 0 <= i < |ps| ==> AnswersAt(ps[i], logs, keys, nows, i, b, d)
  }

  ghost predicate AnswersAt(p: RuntimeProfile, logs: Logs, keys: seq<string>, nows: seq<int>, i: int, b: int, d: int)
    requires b > 0 && d > 0 && 0 <= i < |keys| <= |nows|
  {
    p == ProfileOf(keys[i], TotalsOf(After(logs, keys, nows, i + 1, d), keys[i], b), b, d, p.windowStart, p.windowEnd)
  }

  lemma AnswersNone(logs: Logs, nows: seq<int>, b: int, d: int)
    requires b > 0 && d > 0
    ensures Answers([], logs, [], nows, b, d) && After(logs, [], nows, 0, d) == logs
  {
  }

  lemma AnswersNext(ps: seq<RuntimeProfile>, p: RuntimeProfile, logs: Logs, keys: seq<string>, k: string,
                    nows: seq<int>, b: int, d: int)
    requires Answers(ps, logs, keys, nows, b, d) && |keys| < |nows|
    requires var w := Queried(After(logs, keys, nows, |keys|, d), k, nows[|keys|], d);
             p == ProfileOf(k, TotalsOf(w, k, b), b, d, p.windowStart, p.windowEnd)
    ensures After(logs, keys + [k], nows, |keys| + 1, d) == Queried(After(logs, keys, nows, |keys|, d), k, nows[|keys|], d)
    ensures Answers(ps + [p], logs, keys + [k], nows, b, d)
  {
    hide After, Queried, TotalsOf, ProfileOf;
    var n, ks := |keys|, keys + [k];
    AfterPrefix(logs, keys, [k], nows, n, d);
    AfterNext(logs, ks, nows, n, d);
    forall i | 0 <= i < n ensures AnswersAt((ps + [p])[i], logs, ks, nows, i, b, d) {
      assert AnswersAt(ps[i], logs, keys, nows, i, b, d);
      AfterPrefix(logs, keys, [k], nows, i + 1, d);
    }
    assert AnswersAt((ps + [p])[n], logs, ks, nows, n, b, d);
  }

  lemma AfterNext(logs: Logs, keys: seq<string>, nows: seq<int>, i: int, d: int)
    requires d > 0 && 0 <= i < |keys| && i < |nows|
    ensures After(logs, keys, nows, i + 1, d) == Queried(After(logs, keys, nows, i, d), keys[i], nows[i], d)
  {
  }

  class Store {
    const bucketCount: int
    const bucketDuration: int
    var profiles: map<string, WorkloadProfile>

    ghost function Arrays(): set<object>
      reads this
    {
      set k | k in profiles :: profiles[k].buckets
    }

    /** Profiles do not share state. */
    ghost predicate Apart(k: string, l: string)
      requires k in profiles && l in profiles
      reads this
    {
      k != l ==> profiles[k] != profiles[l] && profiles[k].buckets != profiles[l].buckets
    }

    ghost predicate Holds(k: string)
      requires k in profiles
      reads this, profiles.Values, Arrays()
    {
      && profiles[k].buckets in Arrays()
      && profiles[k].Valid() && profiles[k].key == k
      && profiles[k].count == bucketCount && profiles[k].duration == bucketDuration
    }

    ghost predicate Valid()
      reads this, profiles.Values, Arrays()
    {
      && bucketCount > 0 && bucketDuration > 0
      && (forall k {:trigger Holds(k)} :: k in profiles ==> Holds(k))
      && (forall k, l {:trigger Apart(k, l)} :: k in profiles && l in profiles ==> Apart(k, l))
    }

    lemma Positive()
      requires Valid()
      ensures bucketCount > 0 && bucketDuration > 0
    {
    }

    ghost function Logs(): Logs
      reads this, profiles.Values
    {
      map k | k in profiles :: profiles[k].log
    }

    constructor (bucketCount: int, bucketDuration: int)
      ensures Valid() && profiles == map[]
      ensures this.bucketCount == if bucketCount <= 0 then 12 else bucketCount
      ensures this.bucketDuration == if bucketDuration <= 0 then 5_000_000_000 else bucketDuration
    {
      this.bucketCount := if bucketCount <= 0 then DEFAULT_BUCKET_COUNT else bucketCount;
      this.bucketDuration := if bucketDuration <= 0 then DEFAULT_BUCKET_DURATION else bucketDuration;
      profiles := map[];
    }

    method GetOrCreate(k: string, now: Instant) returns (wp: WorkloadProfile)
      requires Valid()
      modifies this`profiles
      ensures Valid() && k in profiles && wp == profiles[k]
      ensures k in old(profiles) ==> profiles == old(profiles)
      ensures k !in old(profiles) ==> fresh(wp) && fresh(wp.buckets) && profiles == old(profiles)[k := wp]
      ensures Logs() == if k in old(profiles) then old(Logs()) else old(Logs())[k := Log([], 0, now)]
    {
      if k in profiles {
        return profiles[k];
      }
      label before:
      wp := new WorkloadProfile(k, bucketCount, bucketDuration, now);
      profiles := profiles[k := wp];
      OneAdded@before(k);
    }

    /** Every entry but `k`'s is as it was and shares nothing with it. */
    twostate predicate AllButOneKept(k: string)
      requires k in profiles
      reads this, profiles.Values, Arrays()
    {
      forall l | l in profiles && l != k ::
        && l in old(profiles) && profiles[l] == old(profiles[l])
        && unchanged(profiles[l]) && profiles[l].buckets in Arrays() && unchanged(profiles[l].buckets)
        && profiles[l] != profiles[k] && profiles[l].buckets != profiles[k].buckets
    }

    twostate lemma OneAdded(k: string)
      requires old(Valid()) && k in profiles && Holds(k)
      requires k !in old(profiles) && profiles.Keys == old(profiles.Keys) + {k} && AllButOneKept(k)
      ensures Valid() && Logs() == old(Logs())[k := profiles[k].log]
    {
      KeptHold(k);
      KeptApart(k);
      KeptLogs(k);
    }

    twostate lemma KeptLogs(k: string)
      requires k in profiles && profiles.Keys == old(profiles.Keys) + {k} && AllButOneKept(k)
      ensures Logs() == old(Logs())[k := profiles[k].log]
    {
    }

    twostate lemma KeptHold(k: string)
      requires old(Valid()) && k in profiles && Holds(k) && AllButOneKept(k)
      ensures forall l <- profiles :: Holds(l)
    {
      forall l | l in profiles ensures Holds(l) {
        if l != k {
          StillHolds(l);
        }
      }
    }

    twostate lemma KeptApart(k: string)
      requires old(Valid()) && k in profiles && AllButOneKept(k)
      ensures forall l, m | l in profiles && m in profiles :: Apart(l, m)
    {
      forall l, m | l in profiles && m in profiles ensures Apart(l, m) {
        if l != k && m != k {
          assert old(Apart(l, m));
        }
      }
    }

    twostate lemma StillHolds(l: string)
      requires old(l in profiles && Holds(l)) && l in profiles && profiles[l] == old(profiles[l])
      requires unchanged(profiles[l]) && unchanged(profiles[l].buckets)
      ensures Holds(l)
    {
    }

    /** Records into the profile of a key, as the handler of simulated events does. */
    method Feed(k: string, faults: int, misses: int, switches: int, lockNs: int, node: string,
                made: Instant, now: Instant)
      requires Valid()
      modifies this`profiles, profiles.Values, Arrays()
      ensures Valid() && profiles.Keys == old(profiles).Keys + {k}
      ensures Logs() == Applied(old(Logs()), k, made, Record(now, BulkDelta(faults, misses, switches, lockNs)), bucketDuration)
      ensures k in Logs()
              && EndsWith(if k in old(Logs()) then old(Logs())[k].entries else [], Logs()[k].entries,
                          now, faults, misses, switches, lockNs)
    {
      hide Rotated, Step, EndsWith;
      var wp := GetOrCreate(k, made);
      label got:
      OnlyOne(k);
      wp.RecordBulk(now, faults, misses, switches, lockNs, node);
      OneChanged@got(k);
    }

    /** Clears the profile of a key, creating it if need be. */
    method Clear(k: string, made: Instant, now: Instant)
      requires Valid()
      modifies this`profiles, profiles.Values, Arrays()
      ensures Valid() && profiles.Keys == old(profiles).Keys + {k}
      ensures Logs() == Applied(old(Logs()), k, made, Reset(now), bucketDuration)
    {
      hide Rotated, Step;
      var wp := GetOrCreate(k, made);
      label got:
      OnlyOne(k);
      wp.ResetData(now);
      OneChanged@got(k);
    }

    lemma OnlyOne(k: string)
      requires Valid() && k in profiles
      ensures Holds(k)
      ensures forall l <- profiles :: l != k ==>
                profiles[l] != profiles[k] && profiles[l].buckets != profiles[k].buckets && profiles[l].buckets in Arrays()
    {
      forall l | l in profiles && l != k
        ensures profiles[l] != profiles[k] && profiles[l].buckets != profiles[k].buckets && profiles[l].buckets in Arrays()
      {
        assert Apart(l, k);
      }
    }

    /** Reads, and thereby rotates, one profile; a missing key reads as a zero profile. */
    method QueryProfile(k: string, now: Instant) returns (p: RuntimeProfile)
      requires Valid()
      modifies profiles.Values, Arrays()
      ensures Valid() && profiles == old(profiles)
      ensures forall l <- profiles :: profiles[l].nodeLocations == old(profiles[l].nodeLocations)
      ensures Logs() == Queried(old(Logs()), k, now, bucketDuration)
      ensures p == ProfileOf(k, TotalsOf(Logs(), k, bucketCount), bucketCount, bucketDuration, p.windowStart, p.windowEnd)
    {
      if k !in profiles {
        p := RuntimeProfile(k, 0.0, 0.0, 0.0, 0.0, 0, ZERO_TIME, ZERO_TIME, Unknown);
        return;
      }
      label before:
      OnlyOne(k);
      p := profiles[k].ComputeProfile(now);
      OneChanged@before(k);
    }

    twostate lemma OneChanged(k: string)
      requires old(Valid()) && profiles == old(profiles) && k in profiles && profiles[k].Valid()
      requires AllButOneKept(k)
      ensures Valid() && Logs() == old(Logs())[k := profiles[k].log]
    {
      assert old(Holds(k));
      KeptHold(k);
      KeptApart(k);
      KeptLogs(k);
    }

    /** The workload has pods on the node. */
    ghost predicate Runs(k: string, node: string)
      requires k in profiles
      reads this, profiles.Values
    {
      node in profiles[k].nodeLocations
    }

    /** One profile for each workload of the node, queried one after the other at the times `nows`. */
    method QueryNodeProfiles(node: string, nows: seq<Instant>) returns (ps: seq<RuntimeProfile>, ghost keys: seq<string>)
      requires Valid() && |nows| == |profiles|
      modifies profiles.Values, Arrays()
      ensures Valid() && profiles == old(profiles)
      ensures forall k :: k in keys <==> k in profiles && Runs(k, node)
      ensures forall i, j :: 0 <= i < j < |keys| ==> keys[i] != keys[j]
      ensures Answers(ps, old(Logs()), keys, nows, bucketCount, bucketDuration)
      ensures Logs() == After(old(Logs()), keys, nows, |keys|, bucketDuration)
    {
      ghost var b, d, logs := bucketCount, bucketDuration, Logs();
      ps, keys := [], [];
      var todo := profiles.Keys;
      hide Valid, Logs, After, Queried, TotalsOf, ProfileOf, Answers;
      Positive();
      AnswersNone(logs, nows, b, d);
      while todo != {}
        invariant todo <= profiles.Keys && |ps| == |keys| && |keys| + |todo| <= |profiles|
        invariant Valid() && profiles == old(profiles)
        invariant forall l <- profiles :: profiles[l].nodeLocations == old(profiles[l].nodeLocations)
        invariant forall k :: k in keys <==> k in profiles && k !in todo && Runs(k, node)
        invariant forall i, j :: 0 <= i < j < |keys| ==> keys[i] != keys[j]
        invariant Answers(ps, logs, keys, nows, b, d)
        invariant Logs() == After(logs, keys, nows, |keys|, d)
        decreases todo
      {
        var k :| k in todo;
        todo := todo - {k};
        if node in profiles[k].nodeLocations {
          var p := QueryProfile(k, nows[|ps|]);
          AnswersNext(ps, p, logs, keys, k, nows, b, d);
          ps, keys := ps + [p], keys + [k];
        }
      }
    }

    /** The keys, each once, in no particular order. */
    method Keys() returns (keys: seq<string>)
      requires Valid()
      ensures forall k :: k in keys <==> k in profiles
      ensures forall i, j :: 0 <= i < j < |keys| ==> keys[i] != keys[j]
      ensures |keys| == |profiles|
    {
      keys := [];
      var todo := profiles.Keys;
      while todo != {}
        invariant todo <= profiles.Keys && |keys| + |todo| == |profiles|
        invariant forall k :: k in keys <==> k in profiles && k !in todo
        invariant forall i, j :: 0 <= i < j < |keys| ==> keys[i] != keys[j]
        decreases todo
      {
        var k :| k in todo;
        todo := todo - {k};
        keys := keys + [k];
      }
    }
  }
}
