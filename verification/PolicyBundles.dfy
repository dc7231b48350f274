/** The table of policy bundles: candidates, one active bundle, its predecessors, and the
    generation that every activation raises (apps/control-api/app/decision_store.py:1527-1894). */
module PolicyBundles {
  import opened Wrappers

  datatype BundleStatus = Candidate | Active | Previous

  datatype Bundle = Bundle(
    bundleId: string, digest: string, source: string, valid: bool,
    status: BundleStatus, generation: Option<nat>, updatedAt: int)

  /** Rows by record id. */
  type Table = map<string, Bundle>

  datatype BundleError = UnknownBundle | InvalidBundle | NoPrevious

  predicate Matches(b: Bundle, bundleId: string, digest: string) {
    b.bundleId == bundleId && b.digest == digest
  }

  /** `get_policy_bundle_by_digest`. */
  ghost predicate Finds(t: Table, bundleId: string, digest: string, found: Option<string>) {
    match found
    case Some(r) => r in t && Matches(t[r], bundleId, digest)
    case None => forall r :: r in t ==> !Matches(t[r], bundleId, digest)
  }

  /** `CASE WHEN generation IS NULL THEN 0 ELSE generation END`. */
  function Gen(b: Bundle): nat {
    if b.generation.Some? then b.generation.value else 0
  }

  /** `COALESCE(MAX(generation), 0)`. */
  ghost predicate IsMaxGeneration(t: Table, g: nat) {
    && (forall r :: r in t ==> Gen(t[r]) <= g)
    && (g == 0 || exists r :: r in t && Gen(t[r]) == g)
  }

  lemma {:induction false} MaxExists(t: Table) returns (g: nat)
    ensures IsMaxGeneration(t, g)
    decreases |t|
  {
    if t == map[] {
      g := 0;
    } else {
      var r :| r in t;
      var rest := t - {r};
      assert rest.Keys == t.Keys - {r};
      assert |rest| == |rest.Keys| && |t| == |t.Keys|;
      g := MaxExists(rest);
      assert forall s :: s in t ==> s == r || s in rest;
      if g <= Gen(t[r]) {
        g := Gen(t[r]);
      } else {
        var s :| s in rest && Gen(rest[s]) == g;
        assert Gen(t[s]) == g;
      }
    }
  }

  ghost function MaxGeneration(t: Table): (g: nat)
    ensures IsMaxGeneration(t, g)
  {
    assert exists g :: IsMaxGeneration(t, g) by { var g := MaxExists(t); }
    var g :| IsMaxGeneration(t, g);
    g
  }

  /** `get_active_policy_bundle`. */
  ghost predicate IsActive(t: Table, r: string) {
    r in t && t[r].status.Active?
  }

  /** `get_previous_policy_bundle`: the previous bundle activated last. */
  ghost predicate IsLatestPrevious(t: Table, r: string) {
    && r in t && t[r].status.Previous?
    && forall s :: s in t && t[s].status.Previous? ==> Gen(t[s]) <= Gen(t[r])
  }

  /** `upsert_policy_bundle_candidate`: refreshes the row of this content or adds a candidate. */
  function Upsert(t: Table, found: Option<string>, newId: string, bundleId: string, digest: string,
                  source: string, valid: bool, now: int): Table
    requires found.Some? ==> found.value in t
  {
    match found
    case Some(r) => t[r := t[r].(source := source, valid := valid, updatedAt := now)]
    case None => t[newId := Bundle(bundleId, digest, source, valid, Candidate, None, now)]
  }

  /** The two updates of `activate_policy_bundle`. */
  function ActivateRow(t: Table, target: string, generation: nat, now: int): Table
    requires target in t
  {
    map r | r in t ::
      if r == target then t[r].(status := Active, generation := Some(generation), updatedAt := now)
      else if t[r].status.Active? then t[r].(status := Previous, updatedAt := now)
      else t[r]
  }

  ghost function Activated(t: Table, target: string, now: int): Table
    requires target in t
  {
    ActivateRow(t, target, MaxGeneration(t) + 1, now)
  }

  /* What holds of every reachable table */

  ghost predicate OneActive(t: Table) {
    forall r, s :: IsActive(t, r) && IsActive(t, s) ==> r == s
  }

  /** Exactly the candidates have no generation. */
  ghost predicate CandidatesUnnumbered(t: Table) {
    forall r :: r in t ==> if t[r].status.Candidate? then t[r].generation.None? else Gen(t[r]) != 0
  }

  ghost predicate DistinctGenerations(t: Table) {
    forall r, s :: r in t && s in t && r != s && Gen(t[r]) != 0 ==> Gen(t[r]) != Gen(t[s])
  }

  ghost predicate ActiveNewest(t: Table) {
    forall r, s :: IsActive(t, r) && s in t ==> Gen(t[s]) <= Gen(t[r])
  }

  /** Once anything was activated something is active. */
  ghost predicate ActiveIfAny(t: Table) {
    (exists r :: r in t && !t[r].status.Candidate?) ==> exists r :: IsActive(t, r)
  }

  /** The unique index on bundle id and digest. */
  ghost predicate OneRowPerContent(t: Table) {
    forall r, s :: r in t && s in t && Matches(t[r], t[s].bundleId, t[s].digest) ==> r == s
  }

  ghost predicate Invariant(t: Table) {
    && OneActive(t) && CandidatesUnnumbered(t) && DistinctGenerations(t)
    && ActiveNewest(t) && ActiveIfAny(t) && OneRowPerContent(t)
  }

  lemma MaxUnique(t: Table, g: nat, h: nat)
    requires IsMaxGeneration(t, g) && IsMaxGeneration(t, h)
    ensures g == h
  {
  }

  /** Two tables whose rows have the same generations have the same highest one. */
  lemma SameMax(t: Table, t': Table)
    requires forall r :: r in t ==> r in t' && Gen(t'[r]) == Gen(t[r])
    requires forall r :: r in t' && r !in t ==> Gen(t'[r]) == 0
    ensures MaxGeneration(t') == MaxGeneration(t)
  {
    var g := MaxGeneration(t);
    if g != 0 {
      var r :| r in t && Gen(t[r]) == g;
      assert Gen(t'[r]) == g;
    }
    assert IsMaxGeneration(t', g);
    MaxUnique(t', g, MaxGeneration(t'));
  }

  /** What a candidate upsert leaves alone: who is active, every generation and every digest. */
  ghost predicate Undisturbed(t: Table, t': Table) {
    && (forall r :: IsActive(t', r) <==> IsActive(t, r))
    && (forall r :: r in t ==>
          r in t' && t'[r].digest == t[r].digest && t'[r].generation == t[r].generation
          && t'[r].status == t[r].status)
    && (forall r :: r in t' && r !in t ==> t'[r].generation.None? && t'[r].status.Candidate?)
  }

  lemma UndisturbedKeeps(t: Table, t': Table)
    requires Undisturbed(t, t')
    requires OneActive(t) && CandidatesUnnumbered(t) && DistinctGenerations(t) && ActiveNewest(t) && ActiveIfAny(t)
    ensures OneActive(t') && CandidatesUnnumbered(t') && DistinctGenerations(t') && ActiveNewest(t') && ActiveIfAny(t')
  {
    if r :| r in t' && !t'[r].status.Candidate? {
      assert r in t && !t[r].status.Candidate?;
      var s :| IsActive(t, s);
      assert IsActive(t', s);
    }
  }

  lemma UpsertKeepsContents(t: Table, found: Option<string>, newId: string, bundleId: string, digest: string,
                            source: string, valid: bool, now: int)
    requires OneRowPerContent(t) && newId !in t && Finds(t, bundleId, digest, found)
    ensures var t' := Upsert(t, found, newId, bundleId, digest, source, valid, now);
      OneRowPerContent(t') && Undisturbed(t, t')
  {
  }

  lemma {:induction false} UpsertKeeps(t: Table, found: Option<string>, newId: string, bundleId: string, digest: string,
                    source: string, valid: bool, now: int)
    requires Invariant(t) && newId !in t && Finds(t, bundleId, digest, found)
    ensures var t' := Upsert(t, found, newId, bundleId, digest, source, valid, now);
      Invariant(t') && Undisturbed(t, t') && MaxGeneration(t') == MaxGeneration(t)
  {
    hide MaxGeneration;
    var t' := Upsert(t, found, newId, bundleId, digest, source, valid, now);
    UpsertKeepsContents(t, found, newId, bundleId, digest, source, valid, now);
    UndisturbedKeeps(t, t');
    SameMax(t, t');
  }

  /** The rows after an activation. */
  lemma ActivateRowRows(t: Table, target: string, g: nat, now: int)
    requires target in t
    ensures var t' := ActivateRow(t, target, g + 1, now);
      && t'.Keys == t.Keys && Gen(t'[target]) == g + 1
      && (forall r :: IsActive(t', r) <==> r == target)
      && (forall r :: r in t && r != target ==>
            && t'[r].generation == t[r].generation
            && t'[r].status == if t[r].status.Active? then Previous else t[r].status)
      && (forall r :: r in t ==> t'[r].bundleId == t[r].bundleId && t'[r].digest == t[r].digest)
      && (forall r :: r in t ==> t'[r].source == t[r].source && t'[r].valid == t[r].valid)
      && (forall r :: r in t ==>
            t'[r].updatedAt == if r == target || t[r].status.Active? then now else t[r].updatedAt)
  {
  }

  lemma ActivateRowKeepsContents(t: Table, target: string, g: nat, now: int)
    requires target in t && OneRowPerContent(t)
    ensures OneRowPerContent(ActivateRow(t, target, g + 1, now))
  {
    hide ActivateRow;
    ActivateRowRows(t, target, g, now);
  }

  lemma ActivateRowKeepsNumbers(t: Table, target: string, g: nat, now: int)
    requires target in t && IsMaxGeneration(t, g) && CandidatesUnnumbered(t) && DistinctGenerations(t)
    ensures var t' := ActivateRow(t, target, g + 1, now);
      CandidatesUnnumbered(t') && DistinctGenerations(t') && IsMaxGeneration(t', g + 1)
  {
    hide ActivateRow;
    var t' := ActivateRow(t, target, g + 1, now);
    ActivateRowRows(t, target, g, now);
    assert forall r :: r in t' && r != target ==> Gen(t'[r]) == Gen(t[r]) <= g;
    forall r | r in t' ensures if t'[r].status.Candidate? then t'[r].generation.None? else Gen(t'[r]) != 0 {
      if r == target { assert IsActive(t', r); }
    }
  }

  lemma ActivateRowKeepsActive(t: Table, target: string, g: nat, now: int)
    requires target in t && IsMaxGeneration(t, g) && OneActive(t) && ActiveNewest(t)
    ensures var t' := ActivateRow(t, target, g + 1, now);
      && OneActive(t') && ActiveNewest(t') && ActiveIfAny(t') && IsActive(t', target)
      && (forall r :: IsActive(t, r) && r != target ==> IsLatestPrevious(t', r))
  {
    hide ActivateRow;
    var t' := ActivateRow(t, target, g + 1, now);
    ActivateRowRows(t, target, g, now);
    assert forall r :: r in t' && r != target ==> Gen(t'[r]) == Gen(t[r]) <= g;
    assert IsActive(t', target);
    forall r | IsActive(t, r) && r != target ensures IsLatestPrevious(t', r) {
      assert forall s :: s in t' && t'[s].status.Previous? ==> s != target;
    }
  }

  lemma ActivateRowKeeps(t: Table, target: string, g: nat, now: int)
    requires Invariant(t) && target in t && IsMaxGeneration(t, g)
    ensures var t' := ActivateRow(t, target, g + 1, now);
      && Invariant(t') && IsMaxGeneration(t', g + 1) && IsActive(t', target)
      && (forall r :: IsActive(t, r) && r != target ==> IsLatestPrevious(t', r))
  {
    hide ActivateRow, OneActive, ActiveNewest, DistinctGenerations, CandidatesUnnumbered, OneRowPerContent;
    ActivateRowKeepsContents(t, target, g, now);
    ActivateRowKeepsNumbers(t, target, g, now);
    ActivateRowKeepsActive(t, target, g, now);
  }

  /** An activation makes its target the one active bundle and raises the highest generation by
      exactly one, which it gives to the target. */
  lemma ActivateKeeps(t: Table, target: string, now: int)
    requires Invariant(t) && target in t
    ensures var t' := Activated(t, target, now);
      && Invariant(t')
      && MaxGeneration(t') == MaxGeneration(t) + 1 && t'[target].generation == Some(MaxGeneration(t'))
      && IsActive(t', target)
      && (forall r :: IsActive(t, r) && r != target ==> IsLatestPrevious(t', r))
  {
    hide Invariant;
    var g := MaxGeneration(t);
    ActivateRowKeeps(t, target, g, now);
    var t' := Activated(t, target, now);
    MaxUnique(t', g + 1, MaxGeneration(t'));
  }

  /** The active bundle carries the highest generation. */
  lemma ActiveIsNewest(t: Table, r: string)
    requires Invariant(t) && IsActive(t, r)
    ensures t[r].generation == Some(MaxGeneration(t)) && 1 <= MaxGeneration(t)
  {
    MaxUnique(t, Gen(t[r]), MaxGeneration(t));
  }

  /** `rollback_policy_bundle`, where it succeeds, reactivating bundle p. */
  ghost predicate RollsBackTo(t: Table, p: string, now: int, t': Table) {
    IsLatestPrevious(t, p) && t[p].valid && t' == Activated(t, p, now)
  }

  lemma LatestPreviousUnique(t: Table, p: string, q: string)
    requires Invariant(t) && IsLatestPrevious(t, p) && IsLatestPrevious(t, q)
    ensures p == q
  {
  }

  /** Rolling back after b replaced a restores a exactly when b was another bundle and a is still
      valid: after a reactivation of a itself a rollback goes further back, or fails. */
  lemma RollbackRestoresExactlyWhen(t: Table, a: string, b: string, now: int, later: int)
    requires Invariant(t) && IsActive(t, a) && b in t
    ensures var t1 := Activated(t, b, now);
      (exists p, t2 :: RollsBackTo(t1, p, later, t2) && IsActive(t2, a)) <==> a != b && t[a].valid
  {
    var t1 := Activated(t, b, now);
    ActivateKeeps(t, b, now);
    if a != b && t[a].valid {
      assert RollsBackTo(t1, a, later, Activated(t1, a, later));
      ActivateKeeps(t1, a, later);
    }
    if p, t2 :| RollsBackTo(t1, p, later, t2) && IsActive(t2, a) {
      ActivateKeeps(t1, p, later);
      assert p == a && t1[a].status.Previous?;
    }
  }

  /** One bundle, and it is active. */
  function OneBundle(): Table {
    map["r" := Bundle("b", "d", "", true, Active, Some(1), 0)]
  }

  lemma OneBundleIsFine()
    ensures Invariant(OneBundle()) && IsActive(OneBundle(), "r")
  {
    assert IsActive(OneBundle(), "r");
  }

  /** Activated a second time, it has nothing to roll back to. */
  lemma ReactivationCannotBeRolledBack(now: int, later: int)
    ensures Invariant(OneBundle()) && IsActive(OneBundle(), "r")
    ensures !exists p, t2 :: RollsBackTo(Activated(OneBundle(), "r", now), p, later, t2)
  {
    hide MaxGeneration, Invariant;
    OneBundleIsFine();
    assert forall p :: p in Activated(OneBundle(), "r", now) ==> p == "r";
  }

  /** Two rollbacks cancel: the first restores a, the second restores b, each as the one possible
      outcome, and every success raises the generation by exactly one. */
  lemma SecondRollbackUndoesTheFirst(t: Table, a: string, b: string, times: (int, int, int))
    requires Invariant(t) && IsActive(t, a) && b in t && a != b && t[a].valid && t[b].valid
    ensures var t1 := Activated(t, b, times.0);
      var t2 := Activated(t1, a, times.1);
      var t3 := Activated(t2, b, times.2);
      && (forall p, t' :: RollsBackTo(t1, p, times.1, t') <==> p == a && t' == t2)
      && (forall p, t' :: RollsBackTo(t2, p, times.2, t') <==> p == b && t' == t3)
      && IsActive(t2, a) && IsActive(t3, b)
      && MaxGeneration(t3) == MaxGeneration(t2) + 1 == MaxGeneration(t1) + 2 == MaxGeneration(t) + 3
  {
    var t1 := Activated(t, b, times.0);
    ActivateKeeps(t, b, times.0);
    var t2 := Activated(t1, a, times.1);
    ActivateKeeps(t1, a, times.1);
    var t3 := Activated(t2, b, times.2);
    ActivateKeeps(t2, b, times.2);
    forall p, t' ensures RollsBackTo(t1, p, times.1, t') <==> p == a && t' == t2 {
      if IsLatestPrevious(t1, p) { LatestPreviousUnique(t1, p, a); }
    }
    forall p, t' ensures RollsBackTo(t2, p, times.2, t') <==> p == b && t' == t3 {
      if IsLatestPrevious(t2, p) { LatestPreviousUnique(t2, p, b); }
    }
  }

  lemma OnlyRowOfContent(t: Table, row: string, bundleId: string, digest: string)
    requires OneRowPerContent(t) && row in t && Matches(t[row], bundleId, digest)
    ensures forall s :: s in t && Matches(t[s], bundleId, digest) ==> s == row
  {
    forall s | s in t && Matches(t[s], bundleId, digest) ensures s == row {
      assert Matches(t[s], t[row].bundleId, t[row].digest);
    }
  }

  /** Row `row` is the one of this content, with the source and validity given. */
  ghost predicate Recorded(t: Table, t': Table, row: string, newId: string, bundleId: string, digest: string,
                           source: string, valid: bool, now: int)
  {
    && row in t' && t'.Keys == t.Keys + {row} && (forall r :: r in t && r != row ==> t'[r] == t[r])
    && t'[row].bundleId == bundleId && t'[row].digest == digest
    && t'[row].source == source && t'[row].valid == valid && t'[row].updatedAt == now
    && (row in t ==> t'[row].status == t[row].status && t'[row].generation == t[row].generation)
    && (row !in t ==>
          && row == newId && t'[row].status.Candidate? && t'[row].generation.None?
          && forall r :: r in t ==> t[r].bundleId != bundleId || t[r].digest != digest)
  }

  /** The bundle table of the store, updated in place. */
  class BundleStore {
    var bundles: Table

    constructor ()
      ensures bundles == map[]
    {
      bundles := map[];
    }

    method FindByDigest(bundleId: string, digest: string) returns (found: Option<string>)
      ensures Finds(bundles, bundleId, digest, found)
    {
      var hits := set r | r in bundles && Matches(bundles[r], bundleId, digest);
      if hits == {} {
        assert forall r :: r in bundles && Matches(bundles[r], bundleId, digest) ==> r in hits;
        return None;
      }
      var r :| r in hits;
      found := Some(r);
    }

    /** Either the row of this content was there, and has a new source and validity, or there was none, and
        a candidate without a generation is added; no other row changes. */
    method UpsertCandidate(newId: string, bundleId: string, digest: string, source: string, valid: bool, now: int)
      requires Invariant(bundles) && newId !in bundles
      modifies this
      ensures Invariant(bundles)
      ensures exists found :: Finds(old(bundles), bundleId, digest, found)
                && bundles == Upsert(old(bundles), found, newId, bundleId, digest, source, valid, now)
      ensures MaxGeneration(bundles) == MaxGeneration(old(bundles))
      ensures exists row :: Recorded(old(bundles), bundles, row, newId, bundleId, digest, source, valid, now)
    {
      hide OneActive, ActiveNewest, DistinctGenerations, CandidatesUnnumbered, OneRowPerContent, ActiveIfAny;
      var found := FindByDigest(bundleId, digest);
      UpsertKeeps(bundles, found, newId, bundleId, digest, source, valid, now);
      if found.Some? {
        var row := bundles[found.value];
        bundles := bundles[found.value := row.(source := source, valid := valid, updatedAt := now)];
      } else {
        bundles := bundles[newId := Bundle(bundleId, digest, source, valid, Candidate, None, now)];
      }
      ghost var row := if found.Some? then found.value else newId;
      assert Recorded(old(bundles), bundles, row, newId, bundleId, digest, source, valid, now);
    }

    method HighestGeneration() returns (g: nat)
      ensures g == MaxGeneration(bundles)
    {
      g := 0;
      var rest := bundles.Keys;
      while rest != {}
        invariant rest <= bundles.Keys
        invariant forall r :: r in bundles && r !in rest ==> Gen(bundles[r]) <= g
        invariant g == 0 || exists r :: r in bundles && Gen(bundles[r]) == g
        decreases |rest|
      {
        var r :| r in rest;
        rest := rest - {r};
        if g < Gen(bundles[r]) { g := Gen(bundles[r]); }
      }
      MaxUnique(bundles, g, MaxGeneration(bundles));
    }

    method ActivateBundle(bundleId: string, digest: string, now: int) returns (r: Result<string, BundleError>)
      requires Invariant(bundles)
      modifies this
      ensures Invariant(bundles)
      ensures match r
        case Ok(target) =>
          && target in old(bundles) && Matches(old(bundles)[target], bundleId, digest)
          && old(bundles)[target].valid && bundles == Activated(old(bundles), target, now)
          && IsActive(bundles, target) && bundles[target].digest == digest
          && Gen(bundles[target]) == MaxGeneration(bundles) == MaxGeneration(old(bundles)) + 1
        case Err(_) => bundles == old(bundles)
      ensures r.Err? ==>
        forall s :: s in old(bundles) && Matches(old(bundles)[s], bundleId, digest) ==> !old(bundles)[s].valid
    {
      hide OneActive, ActiveNewest, DistinctGenerations, CandidatesUnnumbered, ActiveIfAny;
      var found := FindByDigest(bundleId, digest);
      if found.None? { return Err(UnknownBundle); }
      var target := found.value;
      if !bundles[target].valid {
        OnlyRowOfContent(bundles, target, bundleId, digest);
        return Err(InvalidBundle);
      }
      ActivateKeeps(bundles, target, now);
      SetActive(target, now);
      r := Ok(target);
    }

    /** The two updates: what was active becomes previous, and the target becomes active with the
        next generation. */
    method SetActive(target: string, now: int)
      requires target in bundles
      modifies this
      ensures bundles == Activated(old(bundles), target, now)
    {
      var g := HighestGeneration();
      bundles := map s | s in bundles ::
        if s != target && bundles[s].status.Active? then bundles[s].(status := Previous, updatedAt := now)
        else bundles[s];
      bundles := bundles[target := bundles[target].(status := Active, generation := Some(g + 1), updatedAt := now)];
    }

    method LatestPrevious() returns (p: Option<string>)
      ensures match p
        case Some(r) => IsLatestPrevious(bundles, r)
        case None => forall r :: r in bundles ==> !bundles[r].status.Previous?
    {
      p := None;
      var rest := bundles.Keys;
      while rest != {}
        invariant rest <= bundles.Keys
        invariant match p
          case Some(r) =>
            && r in bundles && bundles[r].status.Previous?
            && forall s :: s in bundles && s !in rest && bundles[s].status.Previous? ==>
                 Gen(bundles[s]) <= Gen(bundles[r])
          case None => forall r :: r in bundles && r !in rest ==> !bundles[r].status.Previous?
        decreases |rest|
      {
        var r :| r in rest;
        rest := rest - {r};
        if bundles[r].status.Previous? && (p.None? || Gen(bundles[p.value]) < Gen(bundles[r])) {
          p := Some(r);
        }
      }
    }

    /** `rollback_policy_bundle`. */
    method RollbackBundle(now: int) returns (r: Result<string, BundleError>)
      requires Invariant(bundles)
      modifies this
      ensures Invariant(bundles)
      ensures match r
        case Ok(p) =>
          && RollsBackTo(old(bundles), p, now, bundles)
          && IsActive(bundles, p) && Gen(bundles[p]) == MaxGeneration(bundles) == MaxGeneration(old(bundles)) + 1
        case Err(_) => bundles == old(bundles) && forall p, t' :: !RollsBackTo(old(bundles), p, now, t')
    {
      var p := LatestPrevious();
      if p.None? { return Err(NoPrevious); }
      ghost var t := bundles;
      OnlyRowOfContent(t, p.value, t[p.value].bundleId, t[p.value].digest);
      r := ActivateBundle(bundles[p.value].bundleId, bundles[p.value].digest, now);
      forall q | IsLatestPrevious(t, q) ensures q == p.value { LatestPreviousUnique(t, q, p.value); }
    }
  }
}
