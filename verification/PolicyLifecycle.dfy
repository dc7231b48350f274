/** One replica's lifecycle object and its serial calls (apps/control-api/app/policy_lifecycle.py).
    Module PolicyReplicas interleaves the sessions of many replicas. */
module PolicyLifecycles {
  import opened Wrappers
  import opened Verdicts
  import opened PolicyBundles

  /** A bundle in memory. */
  datatype Loaded = Loaded(bundleId: string, digest: string, valid: bool)

  datatype LifecycleError = NoSuchBundle | NoLastKnownGood | LoadFailed | StoreRefused

  /** Rematerialising a record: its source yields what was recorded, or is out of reach. */
  function LoadFromRecord(row: Bundle, reachable: set<string>): Option<Loaded> {
    if row.source in reachable then Some(Loaded(row.bundleId, row.digest, row.valid)) else None
  }

  class PolicyLifecycle {
    const store: BundleStore
    var bundle: Loaded                       // the process-wide bundle
    var candidates: map<string, Loaded>
    var previous: Option<Loaded>
    var observedGeneration: nat
    var activeGeneration: nat
    var bootstrapError: bool
    var fallbackActive: bool

    /** This replica uses what the store says is active, and knows its generation. */
    ghost predicate InStep()
      reads this, store
    {
      exists a :: IsActive(store.bundles, a) && bundle.digest == store.bundles[a].digest
               && observedGeneration == Gen(store.bundles[a])
    }

    constructor (store: BundleStore, bundle: Loaded)
      ensures this.store == store && this.bundle == bundle && candidates == map[]
      ensures previous == None && observedGeneration == activeGeneration == 0
    {
      this.store, this.bundle := store, bundle;
      candidates, previous := map[], None;
      observedGeneration, activeGeneration := 0, 0;
      bootstrapError, fallbackActive := false, false;
    }

    method ActiveRecord() returns (a: Option<string>)
      ensures match a
        case Some(r) => IsActive(store.bundles, r)
        case None => forall r :: !IsActive(store.bundles, r)
    {
      var hits := set r | r in store.bundles && store.bundles[r].status.Active?;
      if hits == {} {
        assert forall r :: IsActive(store.bundles, r) ==> r in hits;
        return None;
      }
      var r :| r in hits;
      a := Some(r);
    }

    /** `sync_active_from_store`: on success the replica is in step with the store; on failure it
        keeps its bundle and generation. The store is never changed. */
    method Sync(force: bool, reachable: set<string>) returns (r: Option<Loaded>)
      requires Invariant(store.bundles)
      modifies this
      ensures r.Some? ==> InStep() && r.value == bundle && activeGeneration == observedGeneration
      ensures r.Some? ==>
        previous == if old(bundle).valid && old(bundle).digest != bundle.digest then Some(old(bundle)) else old(previous)
      ensures r.Some? && force ==> !bootstrapError && !fallbackActive
      ensures r.None? ==> bundle == old(bundle) && observedGeneration == old(observedGeneration)
                          && previous == old(previous)
      ensures candidates == old(candidates)
      ensures (exists a :: IsActive(store.bundles, a)
                      && store.bundles[a].source in reachable && store.bundles[a].valid) ==> r.Some?
    {
      var a := ActiveRecord();
      if a.None? { return None; }
      var row := store.bundles[a.value];
      var generation := Gen(row);
      if !force && generation > 0 && generation == observedGeneration && bundle.digest == row.digest {
        activeGeneration := generation;
        return Some(bundle);
      }
      var loaded := LoadFromRecord(row, reachable);
      if loaded.None? || !loaded.value.valid || loaded.value.digest != row.digest {
        bootstrapError := true;
        return None;
      }
      if bundle.valid && bundle.digest != loaded.value.digest {
        previous := Some(bundle);
      }
      bundle := loaded.value;
      observedGeneration, activeGeneration := generation, generation;
      bootstrapError, fallbackActive := false, false;
      assert IsActive(store.bundles, a.value);
      r := Some(bundle);
    }

    /** Records a candidate, activates it and installs it here. */
    method ActivateCandidate(candidate: Loaded, source: string, newId: string, now: int)
      requires Invariant(store.bundles) && newId !in store.bundles && candidate.valid
      modifies this, store
      ensures Invariant(store.bundles) && bundle == candidate && InStep() && candidates == old(candidates)
      ensures MaxGeneration(store.bundles) == old(MaxGeneration(store.bundles)) + 1
      ensures previous == if old(bundle).valid then Some(old(bundle)) else old(previous)
      ensures !bootstrapError && !fallbackActive
    {
      hide Invariant, MaxGeneration, Activated, Upsert, Finds;
      store.UpsertCandidate(newId, candidate.bundleId, candidate.digest, source, true, now);
      var activated := store.ActivateBundle(candidate.bundleId, candidate.digest, now);
      if bundle.valid { previous := Some(bundle); }
      bundle := candidate;
      observedGeneration := Gen(store.bundles[activated.value]);
      activeGeneration := observedGeneration;
      bootstrapError, fallbackActive := false, false;
      assert IsActive(store.bundles, activated.value);
    }

    /** `ensure_bootstrapped`: prefer the store's active bundle, else seed the store from the
        environment's source. When that fails the call either raises, or keeps serving the bundle
        it has and says so. */
    method EnsureBootstrapped(seed: Option<Loaded>, source: string, reachable: set<string>,
                              lastKnownGood: bool, newId: string, now: int)
      returns (r: Result<Loaded, LifecycleError>)
      requires Invariant(store.bundles) && newId !in store.bundles
      modifies this, store
      ensures Invariant(store.bundles)
      ensures r.Ok? && !fallbackActive ==> InStep() && !bootstrapError
      ensures r.Ok? && fallbackActive ==> lastKnownGood && bootstrapError && bundle.valid
      ensures r.Err? || fallbackActive ==>
        bootstrapError && bundle == old(bundle) && observedGeneration == old(observedGeneration)
      ensures (exists a :: IsActive(old(store.bundles), a)) ==> store.bundles == old(store.bundles)
      ensures (exists a :: IsActive(old(store.bundles), a) && old(store.bundles)[a].source in reachable
                           && old(store.bundles)[a].valid) ==> r.Ok? && !fallbackActive
      ensures (forall a :: !IsActive(old(store.bundles), a)) && seed.Some? && seed.value.valid ==>
        r.Ok? && !fallbackActive && bundle == seed.value
      ensures r.Err? ==> !lastKnownGood || !bundle.valid
      ensures r.Ok? ==> r.value == bundle
    {
      hide Invariant, MaxGeneration;
      var durable := ActiveRecord();
      if durable.Some? {
        var synced := Sync(true, reachable);
        if synced.Some? { return Ok(synced.value); }
      } else if seed.Some? && seed.value.valid {
        var current, before := bundle, previous;
        ActivateCandidate(seed.value, source, newId, now);
        if current.digest == seed.value.digest { previous := before; }
        return Ok(bundle);
      }
      bootstrapError := true;
      fallbackActive := lastKnownGood && bundle.valid;
      r := if fallbackActive then Ok(bundle) else Err(LoadFailed);
    }

    /** What this process holds under an id: a candidate before the bundle in use, and that before the
        previous one. */
    function Held(bundleId: string): (c: Option<Loaded>)
      reads this
      ensures c.None? <==> bundleId !in candidates && bundle.bundleId != bundleId
                           && (previous.None? || previous.value.bundleId != bundleId)
    {
      if bundleId in candidates then Some(candidates[bundleId])
      else if bundle.bundleId == bundleId then Some(bundle)
      else if previous.Some? && previous.value.bundleId == bundleId then previous
      else None
    }

    /** `get_candidate`: what this process holds wins; only when it holds nothing is the store's record
        loaded, and kept as a candidate when it is valid. */
    method GetCandidate(bundleId: string, record: Option<string>, reachable: set<string>)
      returns (c: Option<Loaded>)
      requires record.Some? ==> record.value in store.bundles && store.bundles[record.value].bundleId == bundleId
      modifies this`candidates
      ensures old(Held(bundleId)).Some? ==> c == old(Held(bundleId)) && candidates == old(candidates)
      ensures old(Held(bundleId)).None? ==>
        && (c.Some? <==> record.Some? && store.bundles[record.value].source in reachable)
        && (c.Some? ==> c == LoadFromRecord(store.bundles[record.value], reachable) && c.value.bundleId == bundleId)
        && candidates == if c.Some? && c.value.valid then old(candidates)[bundleId := c.value] else old(candidates)
    {
      if bundleId in candidates { return Some(candidates[bundleId]); }
      if bundle.bundleId == bundleId { return Some(bundle); }
      if previous.Some? && previous.value.bundleId == bundleId { return previous; }
      if record.None? { return None; }
      c := LoadFromRecord(store.bundles[record.value], reachable);
      if c.Some? && c.value.valid { candidates := candidates[c.value.bundleId := c.value]; }
    }

    /** `activate`: succeeds exactly on a valid bundle, the one this process holds under the id, or else the
        one of the record. */
    method Activate(bundleId: string, record: Option<string>, reachable: set<string>, source: string,
                    newId: string, now: int)
      returns (r: Result<Loaded, LifecycleError>)
      requires Invariant(store.bundles) && newId !in store.bundles
      requires record.Some? ==> record.value in store.bundles && store.bundles[record.value].bundleId == bundleId
      modifies this, store
      ensures Invariant(store.bundles)
      ensures r.Ok? ==> InStep() && r.value == bundle && bundle.valid
                        && MaxGeneration(store.bundles) == old(MaxGeneration(store.bundles)) + 1
      ensures r.Ok? <==> match old(Held(bundleId))
        case Some(c) => c.valid
        case None => record.Some? && old(store.bundles)[record.value].source in reachable
                     && old(store.bundles)[record.value].valid
      ensures r.Ok? && old(Held(bundleId)).Some? ==> Some(r.value) == old(Held(bundleId))
      ensures r.Err? ==> bundle == old(bundle) && observedGeneration == old(observedGeneration)
                         && store.bundles == old(store.bundles)
    {
      var candidate := GetCandidate(bundleId, record, reachable);
      if candidate.None? || !candidate.value.valid { return Err(NoSuchBundle); }
      ActivateCandidate(candidate.value, source, newId, now);
      r := Ok(bundle);
    }

    /** `rollback`: through the store when it has a previous bundle, else to the bundle this
        process used before. A load that fails while syncing is tried once more. Where the call
        succeeds the replica is in step with the store. */
    method Rollback(reachable: set<string>, retry: set<string>, newId: string, now: int) returns (r: Result<Loaded,
                    LifecycleError>)
      requires Invariant(store.bundles) && newId !in store.bundles
      modifies this, store
      ensures Invariant(store.bundles)
      ensures r.Ok? ==> InStep() && r.value == bundle
                        && MaxGeneration(store.bundles) == old(MaxGeneration(store.bundles)) + 1
      ensures r.Ok? && (exists p :: IsLatestPrevious(old(store.bundles), p)) ==>
        exists p :: RollsBackTo(old(store.bundles), p, now, store.bundles) && bundle.digest == store.bundles[p].digest
      ensures r.Ok? && (forall p :: !IsLatestPrevious(old(store.bundles), p)) ==>
        old(previous).Some? && Some(bundle) == old(Held(previous.value.bundleId))
      ensures r.Err? ==> bundle == old(bundle) && observedGeneration == old(observedGeneration)
    {
      hide Invariant, MaxGeneration;
      var localPrevious := previous;
      var durable := store.LatestPrevious();
      if durable.Some? {
        var rolled := store.RollbackBundle(now);
        if rolled.Err? { return Err(StoreRefused); }
        assert RollsBackTo(old(store.bundles), rolled.value, now, store.bundles);
        var synced := Sync(true, reachable);
        if synced.Some? { return Ok(synced.value); }
        var loaded := LoadFromRecord(store.bundles[rolled.value], retry);
        if loaded.None? || !loaded.value.valid { return Err(LoadFailed); }
        if bundle.valid { previous := Some(bundle); }
        bundle := loaded.value;
        observedGeneration := Gen(store.bundles[rolled.value]);
        activeGeneration := observedGeneration;
        assert IsActive(store.bundles, rolled.value);
        return Ok(bundle);
      }
      if localPrevious.None? || !localPrevious.value.valid { return Err(NoLastKnownGood); }
      r := Activate(localPrevious.value.bundleId, None, reachable, "", newId, now);
    }
  }

  /* Simulation of a candidate over recorded decisions */

  /** How one recorded decision fares: it has no request, its evaluation fails, or it goes from one
      verdict to another. */
  datatype Replay = NoRequest | EvaluationFails | Replayed(before: Verdict, after: Verdict)

  datatype Impact = Impact(evaluated: int, same: nat, allowToBlock: nat, allowToApproval: nat,
                           blockToAllow: nat, approvalToAllow: nat, approvalToBlock: nat, other: nat)

  /** Where `simulate` counts a recorded decision. */
  datatype Bucket =
    | Skipped | Failed | Same | AllowToBlock | AllowToApproval | BlockToAllow | ApprovalToAllow
    | ApprovalToBlock | OtherChange

  function BucketOf(r: Replay): Bucket {
    match r
    case NoRequest => Skipped
    case EvaluationFails => Failed
    case Replayed(Allow, Block) => AllowToBlock
    case Replayed(Allow, ApprovalRequired) => AllowToApproval
    case Replayed(Block, Allow) => BlockToAllow
    case Replayed(ApprovalRequired, Allow) => ApprovalToAllow
    case Replayed(ApprovalRequired, Block) => ApprovalToBlock
    case Replayed(Block, ApprovalRequired) => OtherChange
    case Replayed(_, _) => Same
  }

  function Count(replays: seq<Replay>, b: Bucket): nat {
    if replays == [] then 0
    else Count(replays[..|replays| - 1], b) + if BucketOf(replays[|replays| - 1]) == b then 1 else 0
  }

  function ImpactOf(replays: seq<Replay>): Impact {
    Impact(
      |replays| - Count(replays, Skipped) - Count(replays, Failed), Count(replays, Same),
      Count(replays, AllowToBlock), Count(replays, AllowToApproval), Count(replays, BlockToAllow),
      Count(replays, ApprovalToAllow), Count(replays, ApprovalToBlock),
      Count(replays, Failed) + Count(replays, OtherChange))
  }

  /** Every recorded decision falls into exactly one bucket. */
  lemma {:induction false} BucketsPartition(replays: seq<Replay>)
    ensures Count(replays, Skipped) + Count(replays, Failed) + Count(replays, Same)
      + Count(replays, AllowToBlock) + Count(replays, AllowToApproval) + Count(replays, BlockToAllow)
      + Count(replays, ApprovalToAllow) + Count(replays, ApprovalToBlock) + Count(replays, OtherChange)
      == |replays|
  {
    if replays != [] {
      BucketsPartition(replays[..|replays| - 1]);
    }
  }

  /** The recorded decisions that go from one verdict to another. */
  function Going(replays: seq<Replay>, before: Verdict, after: Verdict): set<int> {
    set i | 0 <= i < |replays| && replays[i] == Replayed(before, after)
  }

  function InBucket(replays: seq<Replay>, b: Bucket): set<int> {
    set i | 0 <= i < |replays| && BucketOf(replays[i]) == b
  }

  lemma {:induction false} CountIsSize(replays: seq<Replay>, b: Bucket)
    ensures Count(replays, b) == |InBucket(replays, b)|
  {
    hide BucketOf;
    if replays != [] {
      var m := |replays| - 1;
      CountIsSize(replays[..m], b);
      OneMoreInBucket(replays, b, m);
      hide InBucket;
    }
  }

  lemma OneMoreInBucket(replays: seq<Replay>, b: Bucket, m: int)
    requires 0 <= m == |replays| - 1
    ensures |InBucket(replays, b)| == |InBucket(replays[..m], b)| + if BucketOf(replays[m]) == b then 1 else 0
  {
    hide BucketOf;
    assert InBucket(replays, b) == InBucket(replays[..m], b) + (if BucketOf(replays[m]) == b then {m} else {});
  }

  /** Each counter is the number of recorded decisions it is named after. Those that cannot be evaluated
      are counted among the other changes, with those that go from a block to an approval. */
  ghost predicate Counts(replays: seq<Replay>, impact: Impact) {
    && impact.evaluated == |Evaluations(replays)|
    && impact.same == |set i | 0 <= i < |replays| && replays[i].Replayed? && replays[i].before == replays[i].after|
    && impact.allowToBlock == |Going(replays, Allow, Block)|
    && impact.allowToApproval == |Going(replays, Allow, ApprovalRequired)|
    && impact.blockToAllow == |Going(replays, Block, Allow)|
    && impact.approvalToAllow == |Going(replays, ApprovalRequired, Allow)|
    && impact.approvalToBlock == |Going(replays, ApprovalRequired, Block)|
    && impact.other == |Going(replays, Block, ApprovalRequired)|
                       + |set i | 0 <= i < |replays| && replays[i].EvaluationFails?|
  }

  lemma ImpactCounts(replays: seq<Replay>)
    ensures Counts(replays, ImpactOf(replays))
  {
    hide Count;
    forall b: Bucket ensures Count(replays, b) == |InBucket(replays, b)| { CountIsSize(replays, b); }
    assert InBucket(replays, Same) ==
           set i | 0 <= i < |replays| && replays[i].Replayed? && replays[i].before == replays[i].after;
    assert InBucket(replays, AllowToBlock) == Going(replays, Allow, Block);
    assert InBucket(replays, AllowToApproval) == Going(replays, Allow, ApprovalRequired);
    assert InBucket(replays, BlockToAllow) == Going(replays, Block, Allow);
    assert InBucket(replays, ApprovalToAllow) == Going(replays, ApprovalRequired, Allow);
    assert InBucket(replays, ApprovalToBlock) == Going(replays, ApprovalRequired, Block);
    assert InBucket(replays, OtherChange) == Going(replays, Block, ApprovalRequired);
    assert InBucket(replays, Failed) == set i | 0 <= i < |replays| && replays[i].EvaluationFails?;
    EvaluatedCount(replays);
  }

  lemma {:induction false} EvaluatedCount(replays: seq<Replay>)
    ensures |Evaluations(replays)| == |replays| - Count(replays, Skipped) - Count(replays, Failed)
  {
    if replays != [] {
      var m := |replays| - 1;
      EvaluatedCount(replays[..m]);
      OneMoreEvaluation(replays, m);
      hide Evaluations;
    }
  }

  function Evaluations(replays: seq<Replay>): set<int> {
    set i | 0 <= i < |replays| && replays[i].Replayed?
  }

  lemma OneMoreEvaluation(replays: seq<Replay>, m: int)
    requires 0 <= m == |replays| - 1
    ensures |Evaluations(replays)| == |Evaluations(replays[..m])| + if replays[m].Replayed? then 1 else 0
  {
    assert Evaluations(replays) == Evaluations(replays[..m]) + (if replays[m].Replayed? then {m} else {});
  }

  /** The counting loop of `simulate`. */
  method Simulate(replays: seq<Replay>) returns (impact: Impact)
    ensures impact == ImpactOf(replays)
    ensures Counts(replays, impact)
  {
    ImpactCounts(replays);
    hide Counts;
    impact := Impact(0, 0, 0, 0, 0, 0, 0, 0);
    for i := 0 to |replays|
      invariant impact == ImpactOf(replays[..i])
    {
      assert replays[..i + 1][..i] == replays[..i];
      match replays[i] {
        case NoRequest =>
        case EvaluationFails => impact := impact.(other := impact.other + 1);
        case Replayed(before, after) =>
          impact := impact.(evaluated := impact.evaluated + 1);
          if before == after {
            impact := impact.(same := impact.same + 1);
          } else if before == Allow && after == Block {
            impact := impact.(allowToBlock := impact.allowToBlock + 1);
          } else if before == Allow && after == ApprovalRequired {
            impact := impact.(allowToApproval := impact.allowToApproval + 1);
          } else if before == Block && after == Allow {
            impact := impact.(blockToAllow := impact.blockToAllow + 1);
          } else if before == ApprovalRequired && after == Allow {
            impact := impact.(approvalToAllow := impact.approvalToAllow + 1);
          } else if before == ApprovalRequired && after == Block {
            impact := impact.(approvalToBlock := impact.approvalToBlock + 1);
          } else {
            impact := impact.(other := impact.other + 1);
          }
      }
    }
    assert replays[..|replays|] == replays;
  }

  /** The published counters account for every decision that carries a request, each once: those
      evaluated and those whose evaluation failed. */
  lemma ImpactConserves(replays: seq<Replay>)
    ensures var i := ImpactOf(replays);
      i.same + i.allowToBlock + i.allowToApproval + i.blockToAllow + i.approvalToAllow + i.approvalToBlock
        + i.other == i.evaluated + Count(replays, Failed) == |replays| - Count(replays, Skipped)
  {
    BucketsPartition(replays);
  }
}
