/** Retention: `purge_retained` deletes the oldest decisions below a cutoff, with everything that
    refers to them, or predicts that deletion (apps/control-api/app/decision_store.py:926-1037). */
module Retention {
  import opened Wrappers
  import opened Text
  import opened IsoTime
  import opened StoreTables
  import opened Verdicts

  const MAX_LIMIT := 50_000

  datatype PurgeResult = PurgeResult(
    expiredApprovals: nat, deletedAudit: nat, deletedApprovals: nat, deletedDecisions: nat)

  /** The decisions older than a cutoff. */
  function Deletable(t: Tables, cutoff: Instant): set<string> {
    set id | id in t.decisions && t.decisions[id].createdAt < cutoff
  }

  /** The same, as the query tests it: `created_at < cutoff`, on text. */
  function TextDeletable(t: Tables, cutoff: Instant): set<string> {
    set id | id in t.decisions && Less(Iso(t.decisions[id].createdAt), Iso(cutoff))
  }

  lemma {:induction false} TextDeletableIsDeletable(t: Tables, cutoff: Instant)
    ensures TextDeletable(t, cutoff) == Deletable(t, cutoff)
  {
    forall id | id in t.decisions ensures id in TextDeletable(t, cutoff) <==> id in Deletable(t, cutoff) {
      TextOrderIsTimeOrder(t.decisions[id].createdAt, cutoff);
    }
  }

  function Created(t: Tables, id: string): Instant
    requires id in t.decisions
  {
    t.decisions[id].createdAt
  }

  ghost predicate Distinct(ids: seq<string>) {
    forall i, j :: 0 <= i < j < |ids| ==> ids[i] != ids[j]
  }

  function Min(a: nat, b: nat): nat {
    if a < b then a else b
  }

  /** A result of `SELECT ... WHERE created_at < cutoff ORDER BY created_at ASC LIMIT limit`.
      SQL leaves the order among equal timestamps open. */
  ghost predicate Selection(t: Tables, cutoff: Instant, limit: nat, ids: seq<string>) {
    && Distinct(ids)
    && |ids| == Min(limit, |Deletable(t, cutoff)|)
    && (forall i :: 0 <= i < |ids| ==> ids[i] in Deletable(t, cutoff))
    && (forall i, j :: 0 <= i < j < |ids| ==> Created(t, ids[i]) <= Created(t, ids[j]))
    && (forall i, y :: 0 <= i < |ids| && y in Deletable(t, cutoff) && y !in ids ==>
          Created(t, ids[i]) <= Created(t, y))
  }

  function AuditOf(t: Tables, ids: seq<string>): set<string> {
    set e | e in t.audit && t.audit[e].decisionId in ids
  }

  function ApprovalsOf(t: Tables, ids: seq<string>): set<string> {
    set a | a in t.approvals && t.approvals[a].decisionId in ids
  }

  function IdSet(ids: seq<string>): set<string> {
    set id | id in ids
  }

  /** The three deletes. */
  function Remove(t: Tables, ids: seq<string>): Tables {
    Tables(t.decisions - IdSet(ids), t.approvals - ApprovalsOf(t, ids), t.audit - AuditOf(t, ids))
  }

  function CutoffOf(now: Instant, retentionDays: int): int {
    now - (if retentionDays > 0 then retentionDays else 0) * MICROS_PER_DAY
  }

  /** `purge_retained`, where the selecting query yields `ids`. */
  function Purge(t: Tables, retentionDays: int, dryRun: bool, limit: int, ids: seq<string>, now: Instant)
    : (Tables, Result<PurgeResult, StoreError>)
  {
    if limit < 1 || limit > MAX_LIMIT then (t, Err(BadLimit))
    else if CutoffOf(now, retentionDays) < 0 then (t, Err(Overflow))
    else
      var t1 := ExpireStale(t, now);
      var expired := |StaleIds(t, now)|;
      if retentionDays <= 0 || ids == [] then (t1, Ok(PurgeResult(expired, 0, 0, 0)))
      else
        (if dryRun then t1 else Remove(t1, ids),
         Ok(PurgeResult(expired, |AuditOf(t1, ids)|, |ApprovalsOf(t1, ids)|, |ids|)))
  }

  /** The selection a purge at this time works with. */
  ghost predicate Selects(t: Tables, retentionDays: int, limit: int, ids: seq<string>, now: Instant) {
    retentionDays > 0 && CutoffOf(now, retentionDays) >= 0 && 1 <= limit <= MAX_LIMIT ==>
      Selection(t, CutoffOf(now, retentionDays), limit, ids)
  }

  lemma ExpiryKeepsSelection(t: Tables, now: Instant, cutoff: Instant, limit: nat, ids: seq<string>)
    ensures Selection(ExpireStale(t, now), cutoff, limit, ids) <==> Selection(t, cutoff, limit, ids)
  {
    hide Less, Iso;
    assert Deletable(ExpireStale(t, now), cutoff) == Deletable(t, cutoff);
  }

  /* What a purge does, row by row */

  /** The decisions chosen are older than the cutoff, as many as the limit allows, and none is younger than
      an old one that is left. */
  ghost predicate Chosen(t: Tables, cutoff: Instant, limit: nat, chosen: set<string>) {
    var due := set id | id in t.decisions && t.decisions[id].createdAt < cutoff;
    && chosen <= due && |chosen| == (if |due| <= limit then |due| else limit)
    && forall x, y :: x in chosen && y in due && y !in chosen ==> t.decisions[x].createdAt <= t.decisions[y].createdAt
  }

  /** The chosen decisions are gone with all that refers to them; due approvals have expired; and the
      rest is as it was. */
  ghost predicate Gone(t: Tables, t': Tables, chosen: set<string>, now: Instant) {
    && (forall id :: id in t'.decisions <==> id in t.decisions && id !in chosen)
    && (forall id :: id in t'.decisions ==> t'.decisions[id] == t.decisions[id])
    && (forall a :: a in t'.approvals <==> a in t.approvals && t.approvals[a].decisionId !in chosen)
    && (forall a :: a in t'.approvals ==> ExpiredAt(t.approvals[a], t'.approvals[a], now))
    && (forall e :: e in t'.audit <==> e in t.audit && t.audit[e].decisionId !in chosen)
    && (forall e :: e in t'.audit ==> t'.audit[e] == t.audit[e])
  }

  ghost predicate CountsChosen(t: Tables, r: PurgeResult, chosen: set<string>, now: Instant) {
    && r.deletedDecisions == |chosen|
    && r.deletedApprovals == |set a | a in t.approvals && t.approvals[a].decisionId in chosen|
    && r.deletedAudit == |set e | e in t.audit && t.audit[e].decisionId in chosen|
    && r.expiredApprovals ==
         |set a | a in t.approvals && t.approvals[a].status.Pending? && t.approvals[a].expiresAt <= now|
  }

  /** A limit out of range and a cutoff before all time are refused. Otherwise due approvals expire and the
      chosen decisions are counted, with what refers to them, and but for a dry run removed. None is
      chosen where retention is off. */
  ghost predicate Purges(t: Tables, t': Tables, r: Result<PurgeResult, StoreError>, retentionDays: int, dryRun: bool,
                         limit: int, chosen: set<string>, now: Instant) {
    var age := (if retentionDays > 0 then retentionDays else 0) * 86_400 * 1_000_000;
    if limit < 1 || limit > 50_000 then t' == t && r == Err(BadLimit)
    else if now < age then t' == t && r == Err(Overflow)
    else
      && (if retentionDays > 0 then Chosen(t, now - age, limit, chosen) else chosen == {})
      && r.Ok? && CountsChosen(t, r.value, chosen, now)
      && Gone(t, t', if dryRun then {} else chosen, now)
  }

  lemma SelectionChooses(t: Tables, cutoff: Instant, limit: nat, ids: seq<string>)
    requires Selection(t, cutoff, limit, ids)
    ensures Chosen(t, cutoff, limit, IdSet(ids)) && |IdSet(ids)| == |ids|
  {
    DistinctCount(ids);
    assert Deletable(t, cutoff) == set id | id in t.decisions && t.decisions[id].createdAt < cutoff;
    forall x, y | x in IdSet(ids) && y in Deletable(t, cutoff) && y !in IdSet(ids)
      ensures t.decisions[x].createdAt <= t.decisions[y].createdAt
    {
      var i :| 0 <= i < |ids| && ids[i] == x;
      assert Created(t, ids[i]) <= Created(t, y);
    }
  }

  /** After expiry, the rows counted and the rows left by the deletes. */
  lemma RemoveGone(t: Tables, t1: Tables, ids: seq<string>, now: Instant)
    requires Expires(t, t1, t.approvals.Keys, now)
    ensures Gone(t, Remove(t1, ids), IdSet(ids), now) && Gone(t, t1, {}, now)
    ensures ApprovalsOf(t1, ids) == set a | a in t.approvals && t.approvals[a].decisionId in IdSet(ids)
    ensures AuditOf(t1, ids) == set e | e in t.audit && t.audit[e].decisionId in IdSet(ids)
  {
  }

  lemma PurgeMeaning(t: Tables, retentionDays: int, dryRun: bool, limit: int, ids: seq<string>, now: Instant)
    requires Selects(t, retentionDays, limit, ids, now)
    ensures var (t', r) := Purge(t, retentionDays, dryRun, limit, ids, now);
      Purges(t, t', r, retentionDays, dryRun, limit, if retentionDays > 0 then IdSet(ids) else {}, now)
  {
    hide Selection, Chosen, Gone, ExpireStale, StaleIds, Remove, ApprovalsOf, AuditOf, Expires;
    var t1 := ExpireStale(t, now);
    ExpireStaleExpires(t, now);
    RemoveGone(t, t1, ids, now);
    RemoveGone(t, t1, [], now);
    assert IdSet([]) == {};
    if retentionDays > 0 && 1 <= limit <= MAX_LIMIT && CutoffOf(now, retentionDays) >= 0 {
      SelectionChooses(t, CutoffOf(now, retentionDays), limit, ids);
    }
    CountNothing(t, {});
  }

  lemma CountNothing(t: Tables, chosen: set<string>)
    requires chosen == {}
    ensures |set a | a in t.approvals && t.approvals[a].decisionId in chosen| == 0
    ensures |set e | e in t.audit && t.audit[e].decisionId in chosen| == 0
  {
    assert (set a | a in t.approvals && t.approvals[a].decisionId in chosen) == {};
    assert (set e | e in t.audit && t.audit[e].decisionId in chosen) == {};
  }

  /* Integrity */

  lemma RemoveKeeps(t: Tables, ids: seq<string>)
    requires Invariant(t)
    ensures Invariant(Remove(t, ids)) && Evolves(t, Remove(t, ids), {})
  {
  }

  /** A purge leaves no approval and no audit row without its decision. */
  lemma {:induction false} PurgeKeeps(t: Tables, retentionDays: int, dryRun: bool, limit: int, ids: seq<string>,
                                      now: Instant)
    requires Invariant(t)
    ensures var t' := Purge(t, retentionDays, dryRun, limit, ids, now).0;
      Invariant(t') && Evolves(t, t', {})
  {
    hide Remove, Invariant, Evolves, ExpireStale, StaleIds, AuditOf, ApprovalsOf, CutoffOf;
    EvolvesReflexive(t);
    ExpireStaleKeeps(t, now);
    var t1 := ExpireStale(t, now);
    RemoveKeeps(t1, ids);
    EvolvesTransitive(t, t1, Remove(t1, ids));
  }

  /* Prediction */

  lemma {:induction false} DistinctCount(ids: seq<string>)
    requires Distinct(ids)
    ensures |IdSet(ids)| == |ids|
  {
    if ids != [] {
      var rest := ids[..|ids| - 1];
      DistinctCount(rest);
      assert IdSet(ids) == IdSet(rest) + {ids[|ids| - 1]};
    } else {
      assert IdSet(ids) == {};
    }
  }

  lemma MinusCount<V>(m: map<string, V>, s: set<string>)
    requires s <= m.Keys
    ensures |m - s| == |m| - |s|
  {
    assert (m - s).Keys == m.Keys - s;
    assert |m| == |m.Keys| && |m - s| == |(m - s).Keys|;
  }

  /** Removing distinct decisions removes them and the rows counted for them. */
  lemma RemoveCounts(t: Tables, ids: seq<string>)
    requires Distinct(ids) && forall i :: 0 <= i < |ids| ==> ids[i] in t.decisions
    ensures |Remove(t, ids).decisions| == |t.decisions| - |ids|
    ensures |Remove(t, ids).approvals| == |t.approvals| - |ApprovalsOf(t, ids)|
    ensures |Remove(t, ids).audit| == |t.audit| - |AuditOf(t, ids)|
  {
    DistinctCount(ids);
    assert IdSet(ids) <= t.decisions.Keys;
    MinusCount(t.decisions, IdSet(ids));
    MinusCount(t.approvals, ApprovalsOf(t, ids));
    MinusCount(t.audit, AuditOf(t, ids));
  }

  /** On one state and one selection, a dry run reports exactly the rows a real run deletes,
      and itself deletes none. */
  lemma {:induction false} DryRunPredicts(t: Tables, retentionDays: int, limit: int, ids: seq<string>, now: Instant)
    requires Selects(t, retentionDays, limit, ids, now)
    ensures var (dry, predicted) := Purge(t, retentionDays, true, limit, ids, now);
      var (after, done) := Purge(t, retentionDays, false, limit, ids, now);
      && predicted == done
      && dry.decisions == t.decisions && dry.audit == t.audit && dry.approvals.Keys == t.approvals.Keys
      && (done.Ok? ==>
            && |after.decisions| == |t.decisions| - predicted.value.deletedDecisions
            && |after.approvals| == |t.approvals| - predicted.value.deletedApprovals
            && |after.audit| == |t.audit| - predicted.value.deletedAudit)
  {
    hide ExpireStale, Remove, StaleIds, AuditOf, ApprovalsOf;
    var t1 := ExpireStale(t, now);
    ExpireStaleFrame(t, now);
    assert |t1.approvals| == |t1.approvals.Keys| == |t.approvals.Keys| == |t.approvals|;
    var done := Purge(t, retentionDays, false, limit, ids, now).1;
    if done.Ok? && retentionDays > 0 && ids != [] {
      RemoveCounts(t1, ids);
    }
  }

  /** Two equally old rows, one chosen and one not. */
  ghost predicate BoundaryTie(t: Tables, cutoff: Instant, ids: seq<string>, i: int, y: string)
    requires forall i :: 0 <= i < |ids| ==> ids[i] in Deletable(t, cutoff)
  {
    0 <= i < |ids| && y in Deletable(t, cutoff) && y !in ids && Created(t, y) == Created(t, ids[i])
  }

  lemma SameSet(t: Tables, cutoff: Instant, limit: nat, ids: seq<string>, other: seq<string>)
    requires Selection(t, cutoff, limit, ids) && Selection(t, cutoff, limit, other)
    requires IdSet(ids) <= IdSet(other)
    ensures IdSet(ids) == IdSet(other)
  {
    DistinctCount(ids);
    DistinctCount(other);
    assert |IdSet(other) - IdSet(ids)| == |IdSet(other)| - |IdSet(ids)| == 0;
  }

  /** Selections that differ do so across a tie. */
  lemma DifferenceIsTie(t: Tables, cutoff: Instant, limit: nat, ids: seq<string>, other: seq<string>)
    returns (i: int, y: string)
    requires Selection(t, cutoff, limit, ids) && Selection(t, cutoff, limit, other)
    requires IdSet(ids) != IdSet(other)
    ensures BoundaryTie(t, cutoff, ids, i, y) && ids[i] !in other && y in other
  {
    if IdSet(ids) <= IdSet(other) {
      SameSet(t, cutoff, limit, ids, other);
    }
    if IdSet(other) <= IdSet(ids) {
      SameSet(t, cutoff, limit, other, ids);
    }
    var x :| x in IdSet(ids) && x !in IdSet(other);
    i :| 0 <= i < |ids| && ids[i] == x;
    y :| y in IdSet(other) && y !in IdSet(ids);
    var j :| 0 <= j < |other| && other[j] == y;
  }

  /** Exchanging two equally old rows gives another selection. */
  lemma ExchangeTie(t: Tables, cutoff: Instant, limit: nat, ids: seq<string>, i: int, y: string)
    requires Selection(t, cutoff, limit, ids) && BoundaryTie(t, cutoff, ids, i, y)
    ensures Selection(t, cutoff, limit, ids[i := y]) && IdSet(ids[i := y]) != IdSet(ids)
  {
    var other := ids[i := y];
    assert other[i] == y && y in IdSet(other) && y !in IdSet(ids);
    assert forall m :: 0 <= m < |ids| && m != i ==> ids[m] == other[m] && other[m] in other;
    assert Distinct(other);
    hide Distinct, IdSet;
    forall z, k | 0 <= k < |other| && z in Deletable(t, cutoff) && z !in other
      ensures Created(t, other[k]) <= Created(t, z)
    {
      if z in ids {
        var m :| 0 <= m < |ids| && ids[m] == z;
        assert Created(t, ids[k]) <= Created(t, y);
      }
    }
  }

  /** The set of decisions a purge selects is determined exactly when no tie crosses the limit. */
  lemma SelectionIsDetermined(t: Tables, cutoff: Instant, limit: nat, ids: seq<string>)
    requires Selection(t, cutoff, limit, ids)
    ensures (forall other :: Selection(t, cutoff, limit, other) ==> IdSet(other) == IdSet(ids))
            <==> !exists i, y :: BoundaryTie(t, cutoff, ids, i, y)
  {
    if i, y :| BoundaryTie(t, cutoff, ids, i, y) {
      ExchangeTie(t, cutoff, limit, ids, i, y);
    } else {
      forall other | Selection(t, cutoff, limit, other) ensures IdSet(other) == IdSet(ids) {
        if IdSet(other) != IdSet(ids) {
          var i, y := DifferenceIsTie(t, cutoff, limit, ids, other);
          assert false;
        }
      }
    }
  }

  /* When the predicted counts bind a later run */

  /** The approvals and audit rows that a purge counts for one decision. */
  function RowCounts(t: Tables, id: string): (nat, nat) {
    (|ApprovalsOf(t, [id])|, |AuditOf(t, [id])|)
  }

  /** Tied rows, one chosen and one left out, count alike. */
  ghost predicate TiesCountAlike(t: Tables, cutoff: Instant, ids: seq<string>)
    requires forall i :: 0 <= i < |ids| ==> ids[i] in Deletable(t, cutoff)
  {
    forall i, y :: BoundaryTie(t, cutoff, ids, i, y) ==> RowCounts(t, ids[i]) == RowCounts(t, y)
  }

  lemma ExchangeMembers(ids: seq<string>, i: int, y: string, z: string)
    requires Distinct(ids) && 0 <= i < |ids| && y !in ids
    ensures z in ids[i := y] <==> z == y || (z in ids && z != ids[i])
  {
    var other := ids[i := y];
    if z in ids && z != ids[i] {
      var k :| 0 <= k < |ids| && ids[k] == z;
      assert other[k] == z;
    }
    assert other[i] == y;
  }

  lemma SwapCount(all: set<string>, gone: set<string>, added: set<string>)
    requires gone <= all && all !! added
    ensures |(all - gone) + added| == |all| - |gone| + |added|
  {
    assert (all - gone) !! added;
  }

  /** What exchanging one chosen row for another does to the counts. */
  lemma ExchangeApprovals(t: Tables, ids: seq<string>, i: int, y: string)
    requires Distinct(ids) && 0 <= i < |ids| && y !in ids
    ensures |ApprovalsOf(t, ids[i := y])| == |ApprovalsOf(t, ids)| - |ApprovalsOf(t, [ids[i]])| + |ApprovalsOf(t, [y])|
  {
    hide Distinct;
    var other, x := ids[i := y], ids[i];
    forall z ensures z in other <==> z == y || (z in ids && z != x) { ExchangeMembers(ids, i, y, z); }
    assert ApprovalsOf(t, other) == (ApprovalsOf(t, ids) - ApprovalsOf(t, [x])) + ApprovalsOf(t, [y]);
    SwapCount(ApprovalsOf(t, ids), ApprovalsOf(t, [x]), ApprovalsOf(t, [y]));
  }

  lemma ExchangeAudit(t: Tables, ids: seq<string>, i: int, y: string)
    requires Distinct(ids) && 0 <= i < |ids| && y !in ids
    ensures |AuditOf(t, ids[i := y])| == |AuditOf(t, ids)| - |AuditOf(t, [ids[i]])| + |AuditOf(t, [y])|
  {
    hide Distinct;
    var other, x := ids[i := y], ids[i];
    forall z ensures z in other <==> z == y || (z in ids && z != x) { ExchangeMembers(ids, i, y, z); }
    assert AuditOf(t, other) == (AuditOf(t, ids) - AuditOf(t, [x])) + AuditOf(t, [y]);
    SwapCount(AuditOf(t, ids), AuditOf(t, [x]), AuditOf(t, [y]));
  }

  lemma ExchangeCounts(t: Tables, ids: seq<string>, i: int, y: string)
    requires Distinct(ids) && 0 <= i < |ids| && y !in ids
    ensures |ApprovalsOf(t, ids[i := y])| == |ApprovalsOf(t, ids)| - RowCounts(t, ids[i]).0 + RowCounts(t, y).0
    ensures |AuditOf(t, ids[i := y])| == |AuditOf(t, ids)| - RowCounts(t, ids[i]).1 + RowCounts(t, y).1
  {
    hide ApprovalsOf, AuditOf, Distinct;
    ExchangeApprovals(t, ids, i, y);
    ExchangeAudit(t, ids, i, y);
  }

  /** All ties are at one timestamp, so ties that count alike still do after an exchange. */
  lemma ExchangeKeepsTies(t: Tables, cutoff: Instant, limit: nat, ids: seq<string>, i: int, y: string)
    requires Selection(t, cutoff, limit, ids) && BoundaryTie(t, cutoff, ids, i, y) && TiesCountAlike(t, cutoff, ids)
    requires Selection(t, cutoff, limit, ids[i := y])
    ensures TiesCountAlike(t, cutoff, ids[i := y])
  {
    hide RowCounts;
    var other := ids[i := y];
    forall k, z | BoundaryTie(t, cutoff, other, k, z) ensures RowCounts(t, other[k]) == RowCounts(t, z) {
      ExchangeMembers(ids, i, y, z);
      assert Created(t, other[k]) <= Created(t, y) && Created(t, ids[i]) <= Created(t, z);
      assert RowCounts(t, other[k]) == RowCounts(t, y) by {
        if k != i { assert BoundaryTie(t, cutoff, ids, k, y); }
      }
      assert RowCounts(t, ids[i]) == RowCounts(t, z) by {
        if z != ids[i] { assert BoundaryTie(t, cutoff, ids, i, z); }
      }
    }
  }

  /** When ties count alike every selection counts the same. */
  lemma {:induction false} SelectionsCountAlike(t: Tables, cutoff: Instant, limit: nat, ids: seq<string>,
                                                other: seq<string>)
    requires Selection(t, cutoff, limit, ids) && Selection(t, cutoff, limit, other) && TiesCountAlike(t, cutoff, ids)
    ensures |ids| == |other|
    ensures |ApprovalsOf(t, ids)| == |ApprovalsOf(t, other)| && |AuditOf(t, ids)| == |AuditOf(t, other)|
    decreases |IdSet(ids) - IdSet(other)|
  {
    hide Selection, TiesCountAlike, RowCounts;
    if IdSet(ids) == IdSet(other) {
      assert forall z :: z in ids <==> z in IdSet(ids);
      assert forall z :: z in other <==> z in IdSet(other);
      assert ApprovalsOf(t, ids) == ApprovalsOf(t, other) && AuditOf(t, ids) == AuditOf(t, other);
      SelectionLength(t, cutoff, limit, ids, other);
    } else {
      var i, y := DifferenceIsTie(t, cutoff, limit, ids, other);
      var ids' := ids[i := y];
      SelectionLength(t, cutoff, limit, ids, other);
      ExchangeTie(t, cutoff, limit, ids, i, y);
      ExchangeKeepsTies(t, cutoff, limit, ids, i, y);
      TieCounts(t, cutoff, ids, i, y);
      ExchangeCounts(t, ids, i, y);
      forall z ensures z in ids' <==> z == y || (z in ids && z != ids[i]) { ExchangeMembers(ids, i, y, z); }
      assert IdSet(ids') - IdSet(other) == (IdSet(ids) - IdSet(other)) - {ids[i]};
      assert ids[i] in IdSet(ids) - IdSet(other);
      SelectionsCountAlike(t, cutoff, limit, ids', other);
    }
  }

  lemma SelectionLength(t: Tables, cutoff: Instant, limit: nat, ids: seq<string>, other: seq<string>)
    requires Selection(t, cutoff, limit, ids) && Selection(t, cutoff, limit, other)
    ensures |ids| == |other| && Distinct(ids)
    ensures forall i :: 0 <= i < |ids| ==> ids[i] in Deletable(t, cutoff)
  {
  }

  lemma TieCounts(t: Tables, cutoff: Instant, ids: seq<string>, i: int, y: string)
    requires forall i :: 0 <= i < |ids| ==> ids[i] in Deletable(t, cutoff)
    requires TiesCountAlike(t, cutoff, ids) && BoundaryTie(t, cutoff, ids, i, y)
    ensures RowCounts(t, ids[i]) == RowCounts(t, y)
  {
  }

  lemma ExpiryKeepsCounts(t: Tables, now: Instant, ids: seq<string>)
    ensures ApprovalsOf(ExpireStale(t, now), ids) == ApprovalsOf(t, ids)
    ensures AuditOf(ExpireStale(t, now), ids) == AuditOf(t, ids)
  {
    hide TextStale;
  }

  /** The counts a dry run predicts bind every purge of the same state, whatever its query selects, if
      and only if tied rows across the limit have as many approvals and as many audit rows. */
  lemma PredictionBindsExactlyWhen(t: Tables, retentionDays: int, dryRun: bool, limit: int, ids: seq<string>,
                                   now: Instant)
    requires retentionDays > 0 && CutoffOf(now, retentionDays) >= 0 && 1 <= limit <= MAX_LIMIT
    requires Selection(t, CutoffOf(now, retentionDays), limit, ids)
    ensures (forall other :: Selection(t, CutoffOf(now, retentionDays), limit, other) ==>
               Purge(t, retentionDays, dryRun, limit, other, now).1 == Purge(t, retentionDays, true, limit, ids, now).1)
            <==> TiesCountAlike(t, CutoffOf(now, retentionDays), ids)
  {
    hide Selection, RowCounts, ExpireStale, StaleIds, Remove, ApprovalsOf, AuditOf, Deletable;
    var cutoff: Instant := CutoffOf(now, retentionDays);
    SelectionLength(t, cutoff, limit, ids, ids);
    ExpiryKeepsCounts(t, now, ids);
    if TiesCountAlike(t, cutoff, ids) {
      forall other | Selection(t, cutoff, limit, other)
        ensures Purge(t, retentionDays, dryRun, limit, other, now).1 == Purge(t, retentionDays, true, limit, ids, now).1
      {
        SelectionsCountAlike(t, cutoff, limit, ids, other);
        ExpiryKeepsCounts(t, now, other);
      }
    } else {
      var i, y :| BoundaryTie(t, cutoff, ids, i, y) && RowCounts(t, ids[i]) != RowCounts(t, y);
      ExchangeTie(t, cutoff, limit, ids, i, y);
      ExchangeCounts(t, ids, i, y);
      ExpiryKeepsCounts(t, now, ids[i := y]);
      assert Selection(t, cutoff, limit, ids[i := y]);
    }
  }

  function SomeDecision(): Decision {
    Decision(Allow, "", "", "", "", map[], "", "", "", 0)
  }

  /** Two decisions of one instant, of which only the first has an audit row. */
  function TiedTables(): Tables {
    Tables(map["a" := SomeDecision(), "b" := SomeDecision()], map[],
           map["e" := AuditEvent("a", DecisionRecorded, "", "", "", 0)])
  }

  /** There a dry run may predict one deleted audit row and the real run delete none. */
  lemma PredictionCanFail()
    ensures var t, now := TiedTables(), 2 * MICROS_PER_DAY;
      && Selects(t, 1, 1, ["a"], now) && Selects(t, 1, 1, ["b"], now)
      && Purge(t, 1, true, 1, ["a"], now).1 == Ok(PurgeResult(0, 1, 0, 1))
      && Purge(t, 1, false, 1, ["b"], now).1 == Ok(PurgeResult(0, 0, 0, 1))
  {
    var now := 2 * MICROS_PER_DAY;
    TiedCounts(now);
    TiedSelects("a");
    TiedSelects("b");
    hide Selects, ExpireStale, StaleIds, AuditOf, ApprovalsOf, Remove, TiedTables;
  }

  lemma TiedCounts(now: Instant)
    ensures var t := TiedTables();
      && StaleIds(t, now) == {}
      && AuditOf(ExpireStale(t, now), ["a"]) == {"e"} && AuditOf(ExpireStale(t, now), ["b"]) == {}
      && ApprovalsOf(ExpireStale(t, now), ["a"]) == {} && ApprovalsOf(ExpireStale(t, now), ["b"]) == {}
  {
    hide TextStale;
  }

  lemma TiedSelects(id: string)
    requires id == "a" || id == "b"
    ensures Selects(TiedTables(), 1, 1, [id], 2 * MICROS_PER_DAY)
  {
    assert Deletable(TiedTables(), MICROS_PER_DAY) == {"a", "b"};
  }

  /* Oldest first, until nothing old is left */

  lemma RealRunRemovesOldest(t: Tables, retentionDays: int, limit: int, ids: seq<string>, now: Instant)
    requires Selects(t, retentionDays, limit, ids, now)
    requires Purge(t, retentionDays, false, limit, ids, now).1.Ok?
    ensures var t' := Purge(t, retentionDays, false, limit, ids, now).0;
      && (forall id :: id in t.decisions && id !in t'.decisions ==>
            t.decisions[id].createdAt < CutoffOf(now, retentionDays))
      && (forall x, y :: x in t.decisions && x !in t'.decisions && y in t'.decisions ==>
            t.decisions[x].createdAt <= t.decisions[y].createdAt)
  {
    var t' := Purge(t, retentionDays, false, limit, ids, now).0;
    forall x, y | x in t.decisions && x !in t'.decisions && y in t'.decisions
      ensures t.decisions[x].createdAt <= t.decisions[y].createdAt
    {
      var i :| 0 <= i < |ids| && ids[i] == x;
      if y in Deletable(t, CutoffOf(now, retentionDays)) {
        assert Created(t, ids[i]) <= Created(t, y);
      }
    }
  }

  /** One real run at a cutoff no earlier than c0 removes `limit` of the decisions older than c0,
      or all of them. */
  lemma RealRunMakesProgress(t: Tables, retentionDays: int, limit: int, ids: seq<string>, now: Instant,
                             c0: Instant)
    requires retentionDays > 0 && 1 <= limit <= MAX_LIMIT && c0 <= CutoffOf(now, retentionDays)
    requires Selects(t, retentionDays, limit, ids, now)
    ensures var t' := Purge(t, retentionDays, false, limit, ids, now).0;
      && t'.decisions.Keys <= t.decisions.Keys
      && |Deletable(t', c0)| <= if |Deletable(t, c0)| <= limit then 0 else |Deletable(t, c0)| - limit
  {
    var cutoff: Instant := CutoffOf(now, retentionDays);
    var t' := Purge(t, retentionDays, false, limit, ids, now).0;
    var s0, s := Deletable(t, c0), Deletable(t, cutoff);
    assert s0 <= s;
    assert Deletable(t', c0) == s0 - IdSet(ids);
    if y :| y in s0 && y !in ids {
      forall id | id in ids ensures id in s0 {
        var i :| 0 <= i < |ids| && ids[i] == id;
        assert Created(t, ids[i]) <= Created(t, y);
      }
      assert IdSet(ids) <= s0;
      DistinctCount(ids);
      assert |s0 - IdSet(ids)| == |s0| - |ids|;
      assert |ids| == limit by {
        assert IdSet(ids) <= s - {y};
        assert |IdSet(ids)| <= |s - {y}| by { SubsetCount(IdSet(ids), s - {y}); }
      }
      SubsetCount(IdSet(ids), s0);
    } else {
      assert s0 - IdSet(ids) == {};
    }
  }

  lemma SubsetCount<T>(a: set<T>, b: set<T>)
    requires a <= b
    ensures |a| <= |b|
  {
    assert |b - a| == |b| - |a|;
  }

  /** One real run: when it happens, and what its query selects. */
  datatype Run = Run(now: Instant, ids: seq<string>)

  function AfterRuns(t: Tables, retentionDays: int, limit: int, runs: seq<Run>): Tables
    decreases |runs|
  {
    if runs == [] then t
    else
      var t' := Purge(t, retentionDays, false, limit, runs[0].ids, runs[0].now).0;
      AfterRuns(t', retentionDays, limit, runs[1..])
  }

  ghost predicate RunsFrom(t: Tables, retentionDays: int, limit: int, c0: Instant, runs: seq<Run>)
    decreases |runs|
  {
    runs == [] ||
      (&& c0 <= CutoffOf(runs[0].now, retentionDays)
       && Selects(t, retentionDays, limit, runs[0].ids, runs[0].now)
       && RunsFrom(Purge(t, retentionDays, false, limit, runs[0].ids, runs[0].now).0,
                   retentionDays, limit, c0, runs[1..]))
  }

  /** Repeated real runs, at any limit and with a clock that does not go back, are done after
      as many runs as the limit needs to cover the old decisions: none is left. */
  lemma {:induction false} PurgeTerminates(t: Tables, retentionDays: int, limit: int, c0: Instant, runs: seq<Run>)
    requires retentionDays > 0 && 1 <= limit <= MAX_LIMIT
    requires RunsFrom(t, retentionDays, limit, c0, runs)
    requires |Deletable(t, c0)| <= |runs| * limit
    ensures Deletable(AfterRuns(t, retentionDays, limit, runs), c0) == {}
    decreases |runs|
  {
    hide Purge, Less, Iso, ExpireStale, Remove, Selection;
    if runs == [] {
    } else {
      RealRunMakesProgress(t, retentionDays, limit, runs[0].ids, runs[0].now, c0);
      assert |runs| * limit == |runs[1..]| * limit + limit;
      var t' := Purge(t, retentionDays, false, limit, runs[0].ids, runs[0].now).0;
      PurgeTerminates(t', retentionDays, limit, c0, runs[1..]);
    }
  }

  /* A selection always exists */

  lemma {:induction false} OldestExists(t: Tables, s: set<string>) returns (x: string)
    requires s != {} && s <= t.decisions.Keys
    ensures x in s && forall y :: y in s ==> Created(t, x) <= Created(t, y)
    decreases |s|
  {
    x :| x in s;
    if s != {x} {
      var z := OldestExists(t, s - {x});
      if Created(t, z) < Created(t, x) { x := z; }
    }
  }

  method QueryDeletable(t: Tables, cutoff: Instant) returns (s: set<string>)
    ensures s == Deletable(t, cutoff)
  {
    TextDeletableIsDeletable(t, cutoff);
    s := TextDeletable(t, cutoff);
  }

  method SelectOldest(t: Tables, cutoff: Instant, limit: nat) returns (ids: seq<string>)
    ensures Selection(t, cutoff, limit, ids)
  {
    ids := [];
    ghost var all := Deletable(t, cutoff);
    var rest := QueryDeletable(t, cutoff);
    while |ids| < limit && rest != {}
      invariant rest <= all && all <= t.decisions.Keys
      invariant forall id :: id in all ==> (id in ids <==> id !in rest)
      invariant forall id :: id in ids ==> id in all
      invariant Distinct(ids) && |ids| + |rest| == |all| && |ids| <= limit
      invariant forall i, j :: 0 <= i < j < |ids| ==> Created(t, ids[i]) <= Created(t, ids[j])
      invariant forall i, y :: 0 <= i < |ids| && y in rest ==> Created(t, ids[i]) <= Created(t, y)
      decreases |rest|
    {
      ghost var oldest := OldestExists(t, rest);
      var x :| x in rest && forall y :: y in rest ==> Created(t, x) <= Created(t, y);
      ids, rest := ids + [x], rest - {x};
    }
  }
}
