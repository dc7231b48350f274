/** An interleaved remediation call that nothing interrupts does what the serial call does
    (apps/control-api/app/remediation_service.py:188-379). */
module RemediationCalls {
  import opened Wrappers
  import opened IsoTime
  import opened Verdicts
  import opened Remediation
  import opened RemediationRuns
  import R = ApprovalRuns
  import Drift
  import StoreTables

  /** The steps of one call, all at one time; a call that ends early passes the rest. */
  function Alone(k: nat, id: string, tenant: Option<string>, op: Op, now: Instant, eventId: string): seq<Step> {
    var go := Advance(k, now, eventId);
    [Begin(k, id, tenant, op), go, go, go, go]
  }

  /** When the call succeeds. */
  predicate Succeeds(w: World, id: string, tenant: Option<string>, op: Op, now: Instant, eventId: string) {
    match op
    case Resolve(approved, reviewer, comment) =>
      && At(w.proposals, id, tenant, PolicyEvaluated)
      && Reviewed(w.store.t, w.proposals[id], approved, reviewer, comment, eventId, now)
    case Prepare(_) => At(w.proposals, id, tenant, Approved)
    case Apply(_) => At(w.proposals, id, tenant, PrCreated)
    case Verify(_, _) => At(w.proposals, id, tenant, Applied) || At(w.proposals, id, tenant, Verifying)
  }

  /** What it makes of its proposal. */
  predicate Moves(p: Proposal, p': Proposal, op: Op, now: Instant) {
    match op
    case Resolve(approved, _, _) => p' == p.(status := if approved then Approved else Rejected)
    case Prepare(url) => p' == p.(status := PrCreated, prUrl := url)
    case Apply(prUrl) =>
      p' == p.(status := Applied, appliedAt := Some(now), prUrl := if prUrl.Some? then prUrl.value else p.prUrl)
    case Verify(drift, probed) =>
      && p' == p.(status := if Drift.Verifies(drift, Some(p.snapshot)) then Verified else Failed,
                  verification := p'.verification)
      && p'.verification == Some(Drift.SnapshotOf(drift, Some(p.snapshot), probed))
  }

  /** The call is over, and has moved its proposal or not. */
  ghost predicate Ends(w: World, w': World, k: nat, id: string, op: Op, now: Instant, done: bool) {
    && k in w'.calls && w'.calls[k].phase == Ended(done)
    && (!done ==> w'.proposals == w.proposals)
    && (done ==> id in w.proposals && id in w'.proposals && w'.proposals == w.proposals[id := w'.proposals[id]]
                 && Moves(w.proposals[id], w'.proposals[id], op, now))
  }

  lemma AfterAlone(sha: R.Hash, run: seq<Step>, s0: Step, s: Step)
    ensures After(sha, run + [s0, s, s, s, s]) ==
      Next(sha, Next(sha, Next(sha, Next(sha, Next(sha, After(sha, run), s0), s), s), s), s)
  {
    hide Next, After;
    RemediationRuns.AfterStep(sha, run, s0);
    RemediationRuns.AfterStep(sha, run + [s0], s);
    RemediationRuns.AfterStep(sha, run + [s0] + [s], s);
    RemediationRuns.AfterStep(sha, run + [s0] + [s] + [s], s);
    RemediationRuns.AfterStep(sha, run + [s0] + [s] + [s] + [s], s);
    assert run + [s0, s, s, s, s] == run + [s0] + [s] + [s] + [s] + [s];
  }

  function Session(sha: R.Hash, w: World, k: nat, now: Instant, eventId: string): World {
    if k in w.calls then Continue(sha, w, k, now, eventId) else w
  }

  function FourSessions(sha: R.Hash, w: World, k: nat, now: Instant, eventId: string): World {
    var w2 := Session(sha, w, k, now, eventId);
    var w3 := Session(sha, w2, k, now, eventId);
    Session(sha, Session(sha, w3, k, now, eventId), k, now, eventId)
  }

  lemma EndedStays(sha: R.Hash, w: World, k: nat, now: Instant, eventId: string)
    requires k in w.calls && w.calls[k].phase.Ended?
    ensures Session(sha, w, k, now, eventId) == w
  {
  }

  /** The call reads its proposal. */
  lemma Reads(sha: R.Hash, w: World, k: nat, now: Instant, eventId: string)
    requires k in w.calls && w.calls[k].phase.Start?
    ensures var c := w.calls[k];
      Session(sha, w, k, now, eventId) == SetPhase(w, k,
        if c.id in w.proposals && (c.tenant.Some? ==> w.proposals[c.id].tenantId == c.tenant.value)
        then AfterRead(c, w.proposals[c.id]) else Ended(false))
  {
    hide AfterRead;
  }

  /** A call that has only to write. */
  lemma Writes(sha: R.Hash, w: World, k: nat, p: Proposal, now: Instant, eventId: string)
    requires k in w.calls && w.calls[k].phase.Writing? && w.calls[k].id in w.proposals
    requires w.proposals[w.calls[k].id] == p && w.calls[k].phase.record.snapshot == p.snapshot
    ensures var c := w.calls[k];
      var w' := Session(sha, w, k, now, eventId);
      && w'.calls == w.calls[k := c.(phase := Ended(true))] && w'.store == w.store
      && c.id in w'.proposals && w'.proposals == w.proposals[c.id := w'.proposals[c.id]]
      && Moves(p, w'.proposals[c.id], c.op, now)
  {
    hide Drift.Verifies, Drift.SnapshotOf;
  }

  lemma Marks(sha: R.Hash, w: World, k: nat, now: Instant, eventId: string)
    requires k in w.calls && w.calls[k].phase.Marking? && w.calls[k].id in w.proposals
    ensures var c := w.calls[k];
      Session(sha, w, k, now, eventId) ==
        World(w.store, w.proposals[c.id := w.proposals[c.id].(status := Verifying)],
              w.calls[k := c.(phase := Writing(c.phase.record.(status := Verifying)))])
  {
  }

  /** The two sessions of a review before it writes. */
  lemma ResolvesAndAudits(sha: R.Hash, w: World, k: nat, p: Proposal, now: Instant, eventId: string)
    requires k in w.calls && w.calls[k].phase == Resolving(p) && w.calls[k].op.Resolve?
    requires p.approvalId != "" && p.decisionId != "" && w.store.clock <= now && eventId !in w.store.used
    ensures var c := w.calls[k];
      var w' := Session(sha, Session(sha, w, k, now, eventId), k, now, eventId);
      && w'.proposals == w.proposals && w'.calls.Keys == w.calls.Keys
      && w'.calls[k] == c.(phase :=
           if Reviewed(w.store.t, p, c.op.approved, c.op.reviewer, c.op.comment, eventId, now)
           then Writing(p) else Ended(false))
  {
    hide StoreTables.Resolve, StoreTables.AuditFits, StoreTables.AppendAudit, R.Advance;
  }

  /** Opening the call. */
  lemma Begins(sha: R.Hash, w: World, k: nat, id: string, tenant: Option<string>, op: Op)
    requires k !in w.calls
    ensures Next(sha, w, Begin(k, id, tenant, op)) == w.(calls := w.calls[k := Call(id, tenant, op, Start)])
  {
  }

  /** The four sessions of a call that does not resolve an approval. */
  lemma MoverEnds(sha: R.Hash, w: World, k: nat, now: Instant, eventId: string)
    requires k in w.calls && w.calls[k].phase.Start? && !w.calls[k].op.Resolve?
    ensures var c := w.calls[k];
      Ends(w, FourSessions(sha, w, k, now, eventId), k, c.id, c.op, now,
           Succeeds(w, c.id, c.tenant, c.op, now, eventId))
  {
    hide Session, Drift.Verifies, Drift.SnapshotOf;
    var c := w.calls[k];
    Reads(sha, w, k, now, eventId);
    var w2 := Session(sha, w, k, now, eventId);
    if w2.calls[k].phase.Ended? {
      EndedStays(sha, w2, k, now, eventId);
    } else if w2.calls[k].phase.Writing? {
      Writes(sha, w2, k, w.proposals[c.id], now, eventId);
      EndedStays(sha, Session(sha, w2, k, now, eventId), k, now, eventId);
    } else {
      Marks(sha, w2, k, now, eventId);
      var w3 := Session(sha, w2, k, now, eventId);
      Writes(sha, w3, k, w3.proposals[c.id], now, eventId);
      EndedStays(sha, Session(sha, w3, k, now, eventId), k, now, eventId);
    }
  }

  /** Those of a review. */
  lemma ReviewEnds(sha: R.Hash, w: World, k: nat, now: Instant, eventId: string)
    requires k in w.calls && w.calls[k].phase.Start? && w.calls[k].op.Resolve?
    requires w.store.clock <= now && eventId !in w.store.used
    requires forall id :: id in w.proposals ==> Agrees(w.store, w.proposals[id])
    ensures var c := w.calls[k];
      Ends(w, FourSessions(sha, w, k, now, eventId), k, c.id, c.op, now,
           Succeeds(w, c.id, c.tenant, c.op, now, eventId))
  {
    hide Session, Reviewed, Cleared, Refused;
    var c := w.calls[k];
    Reads(sha, w, k, now, eventId);
    var w2 := Session(sha, w, k, now, eventId);
    if w2.calls[k].phase.Ended? {
      EndedStays(sha, w2, k, now, eventId);
    } else {
      var p := w.proposals[c.id];
      assert Agrees(w.store, p) && p.status.PolicyEvaluated?;
      ResolvesAndAudits(sha, w2, k, p, now, eventId);
      var w4 := Session(sha, Session(sha, w2, k, now, eventId), k, now, eventId);
      if w4.calls[k].phase.Ended? {
        EndedStays(sha, w4, k, now, eventId);
      } else {
        Writes(sha, w4, k, p, now, eventId);
      }
    }
  }

  /** From every reachable world: a call whose sessions nothing interrupts ends, succeeds exactly when the
      serial call would, and then moves its proposal just as that does; else it moves none. */
  lemma {:induction false} UninterruptedCallIsSerial(sha: R.Hash, run: seq<Step>, k: nat, id: string,
                                                     tenant: Option<string>, op: Op, now: Instant, eventId: string)
    requires var w := After(sha, run); k !in w.calls && w.store.clock <= now && eventId !in w.store.used
    ensures var w, w' := After(sha, run), After(sha, run + Alone(k, id, tenant, op, now, eventId));
      Ends(w, w', k, id, op, now, Succeeds(w, id, tenant, op, now, eventId))
  {
    hide After, Next, FourSessions, Ends, Succeeds, Agrees;
    var w := After(sha, run);
    var s0, s := Begin(k, id, tenant, op), Advance(k, now, eventId);
    AfterAlone(sha, run, s0, s);
    Begins(sha, w, k, id, tenant, op);
    var w1 := w.(calls := w.calls[k := Call(id, tenant, op, Start)]);
    ProposalsAgree(sha, run);
    if op.Resolve? { ReviewEnds(sha, w1, k, now, eventId); } else { MoverEnds(sha, w1, k, now, eventId); }
    FourSteps(sha, w1, k, now, eventId);
    SameOutcome(w, w1, After(sha, run + [s0, s, s, s, s]), k, id, tenant, op, now, eventId);
  }

  lemma ProposalsAgree(sha: R.Hash, run: seq<Step>)
    ensures var w := After(sha, run); forall i :: i in w.proposals ==> Agrees(w.store, w.proposals[i])
  {
    hide After, Agrees;
    forall i | i in After(sha, run).proposals ensures Agrees(After(sha, run).store, After(sha, run).proposals[i]) {
      ProposalsAgreeWithApprovals(sha, run, i);
    }
  }

  lemma FourSteps(sha: R.Hash, w: World, k: nat, now: Instant, eventId: string)
    ensures var s := Advance(k, now, eventId);
      Next(sha, Next(sha, Next(sha, Next(sha, w, s), s), s), s) == FourSessions(sha, w, k, now, eventId)
  {
    hide Continue;
  }

  /** The new call itself does not matter to what it finds. */
  lemma SameOutcome(w: World, w1: World, w': World, k: nat, id: string, tenant: Option<string>, op: Op, now: Instant,
                    eventId: string)
    requires w1.store == w.store && w1.proposals == w.proposals
    ensures Succeeds(w1, id, tenant, op, now, eventId) == Succeeds(w, id, tenant, op, now, eventId)
    ensures Ends(w1, w', k, id, op, now, Succeeds(w, id, tenant, op, now, eventId)) ==>
            Ends(w, w', k, id, op, now, Succeeds(w, id, tenant, op, now, eventId))
  {
    hide Moves, Reviewed;
  }
}
