/** Where a grant comes from. In every interleaved run a call that is granted
    (apps/control-api/app/durable_governance.py:99-173) goes back to two earlier steps: the recording
    of an evaluation that asked for approval, and a resolution by someone else, in time. */
module GrantProvenance {
  import opened Wrappers
  import opened Text
  import opened IsoTime
  import opened Binding
  import opened StoreTables
  import opened ApprovalRuns
  import Retention

  /** Approved once, whether used since or not. */
  predicate WasApproved(a: Approval) {
    a.status.Approved? || a.status.Consumed?
  }

  predicate SameOrigin(a: Approval, a': Approval) {
    a'.decisionId == a.decisionId && a'.createdAt == a.createdAt && a'.expiresAt == a.expiresAt
  }

  /** The same resolution stands. */
  predicate SameResolution(a: Approval, a': Approval) {
    WasApproved(a) && a'.reviewer == a.reviewer && a'.resolvedAt == a.resolvedAt
  }

  /** Step s resolves approval id so that row a' comes of it. */
  predicate Approves(s: Step, id: string, a': Approval) {
    && s.ResolveStep? && s.id == id && s.status.Approved?
    && a'.reviewer == Some(s.reviewer) && a'.resolvedAt == Some(s.now)
  }

  /** Step s records the evaluation behind approval id of decision d. */
  ghost predicate Opens(sha: Hash, s: Step, id: string, a: Approval, d: Decision) {
    && s.PersistStep? && AsksApproval(s.result) && s.ids.approval == id && s.ids.decision == a.decisionId
    && a.createdAt == s.now && a.expiresAt == s.now + (if s.ttl > 0 then s.ttl else 0) * MICROS_PER_SECOND
    && Stores(d, s.result, s.request, ComputeDigest(sha, s.request), s.now)
  }

  /** What one step does to the rows: decisions stay, an approval keeps its origin, and one that comes to
      be approved does so by a resolution. */
  ghost predicate Traced(sha: Hash, t: Tables, t': Tables, s: Step) {
    && (forall id :: id in t.decisions && id in t'.decisions ==> t'.decisions[id] == t.decisions[id])
    && (forall id :: id in t.approvals && id in t'.approvals ==>
          && SameOrigin(t.approvals[id], t'.approvals[id])
          && (WasApproved(t'.approvals[id]) ==>
                SameResolution(t.approvals[id], t'.approvals[id]) || Approves(s, id, t'.approvals[id])))
    && (forall id :: id in t'.approvals && id !in t.approvals ==>
          && t'.approvals[id].status.Pending? && t'.approvals[id].decisionId in t'.decisions
          && Opens(sha, s, id, t'.approvals[id], t'.decisions[t'.approvals[id].decisionId]))
  }

  lemma ExpiresTraced(sha: Hash, t: Tables, t': Tables, ids: set<string>, now: Instant, s: Step)
    requires Expires(t, t', ids, now)
    ensures Traced(sha, t, t', s)
  {
  }

  lemma PersistTraced(sha: Hash, t: Tables, s: Step)
    requires s.PersistStep? && Persist(t, s.result, s.request, ComputeDigest(sha, s.request), s.ids, s.ttl, s.now).Ok?
    ensures Traced(sha, t, Persist(t, s.result, s.request, ComputeDigest(sha, s.request), s.ids, s.ttl, s.now).value, s)
  {
    hide Persist, Stores, RecordsEvent;
    PersistRecords(t, s.result, s.request, ComputeDigest(sha, s.request), s.ids, s.ttl, s.now);
  }

  lemma ResolveTraced(sha: Hash, t: Tables, s: Step)
    requires s.ResolveStep?
    ensures Traced(sha, t, Resolve(t, s.id, s.status, s.reviewer, s.comment, s.tenant, true, s.now).0, s)
  {
    hide Resolve, OwnedBy, SelfReview;
    var (t', r) := Resolve(t, s.id, s.status, s.reviewer, s.comment, s.tenant, true, s.now);
    ResolveMeaning(t, s.id, s.status, s.reviewer, s.comment, s.tenant, true, s.now);
    if !s.status.Approved? && !s.status.Rejected? {
      SameTraced(sha, t, t', s);
    } else if r.Err? {
      ExpiresTraced(sha, t, t', {s.id}, s.now, s);
    }
  }

  lemma PurgeTraced(sha: Hash, t: Tables, s: Step)
    requires s.PurgeStep?
    ensures Traced(sha, t, Retention.Purge(t, s.retentionDays, s.dryRun, s.limit, s.selected, s.now).0, s)
  {
    hide ExpireStale;
    ExpireStaleExpires(t, s.now);
  }

  lemma OutcomeTraced(sha: Hash, t: Tables, s: Step)
    ensures Traced(sha, t, Outcome(sha, t, s), s)
  {
    hide Traced, Persist, Resolve, ExpireIfNeeded, ExpireStale, Retention.Purge;
    SameTraced(sha, t, t, s);
    match s
    case PersistStep(now, result, request, ids, ttl) =>
      if Persist(t, result, request, ComputeDigest(sha, request), ids, ttl, now).Ok? { PersistTraced(sha, t, s); }
    case ResolveStep(_, _, _, _, _, _) => ResolveTraced(sha, t, s);
    case ReadStep(now, id) =>
      ExpireIfNeededExpires(t, id, now);
      ExpiresTraced(sha, t, ExpireIfNeeded(t, id, now), {id}, now, s);
    case ExpireStep(now) =>
      ExpireStaleExpires(t, now);
      ExpiresTraced(sha, t, ExpireStale(t, now), t.approvals.Keys, now, s);
    case PurgeStep(_, _, _, _, _) => PurgeTraced(sha, t, s);
    case AuditStep(now, eventId, decisionId, actor) => SameTraced(sha, t, Outcome(sha, t, s), s);
    case _ =>
  }

  lemma SameTraced(sha: Hash, t: Tables, t': Tables, s: Step)
    requires t'.decisions == t.decisions && t'.approvals == t.approvals
    ensures Traced(sha, t, t', s)
  {
  }

  lemma ConsumeTraced(sha: Hash, t: Tables, id: string, eventId: string, e: AuditEvent, now: Instant, s: Step)
    ensures Traced(sha, t, ConsumeTransaction(t, id, eventId, e, now).0, s)
  {
  }

  lemma StepTraced(sha: Hash, w: World, s: Step)
    ensures Traced(sha, w.t, Apply(sha, w, s).t, s)
  {
    hide Traced, Outcome, ExpireIfNeeded, ConsumeTransaction, Matches, PinsMatch, Lookup;
    SameTraced(sha, w.t, w.t, s);
    OutcomeTraced(sha, w.t, s);
    if s.CallStep? && w.clock <= s.now && s.k in w.calls && s.eventId !in w.used {
      var c := w.calls[s.k];
      match c.phase
      case ReadingApproval =>
        ExpireIfNeededExpires(w.t, c.approvalId, s.now);
        ExpiresTraced(sha, w.t, ExpireIfNeeded(w.t, c.approvalId, s.now), {c.approvalId}, s.now, s);
      case Consuming(id, _, _, _) =>
        ConsumeTraced(sha, w.t, c.approvalId, s.eventId, ConsumedEvent(sha, id, c.approvalId, c.request, s.now), s.now, s);
      case _ =>
    }
  }

  /** Approval id was opened by step i of the run. */
  ghost predicate OpenedAt(sha: Hash, run: seq<Step>, i: nat, t: Tables, id: string) {
    && i < |run| && id in t.approvals && t.approvals[id].decisionId in t.decisions
    && Opens(sha, run[i], id, t.approvals[id], t.decisions[t.approvals[id].decisionId])
  }

  predicate ApprovedAt(run: seq<Step>, j: nat, t: Tables, id: string) {
    j < |run| && id in t.approvals && Approves(run[j], id, t.approvals[id])
  }

  /** Every approval was opened by some step, and approved by a later one if it is approved or used. */
  ghost predicate HasOrigin(sha: Hash, run: seq<Step>, t: Tables, id: string) {
    exists i: nat :: OpenedAt(sha, run, i, t, id)
      && (id in t.approvals && WasApproved(t.approvals[id]) ==> exists j: nat :: i < j && ApprovedAt(run, j, t, id))
  }

  /** One more step keeps the origin of an approval that was there. */
  lemma OldOriginStays(sha: Hash, run: seq<Step>, s: Step, t: Tables, t': Tables, id: string)
    requires HasOrigin(sha, run, t, id) && Traced(sha, t, t', s) && id in t.approvals && id in t'.approvals
    requires t.approvals[id].decisionId in t'.decisions
    ensures HasOrigin(sha, run + [s], t', id)
  {
    hide Stores;
    var more := run + [s];
    var i: nat :| OpenedAt(sha, run, i, t, id)
      && (WasApproved(t.approvals[id]) ==> exists j: nat :: i < j && ApprovedAt(run, j, t, id));
    assert OpenedAt(sha, more, i, t', id);
    if WasApproved(t'.approvals[id]) {
      if SameResolution(t.approvals[id], t'.approvals[id]) {
        var j: nat :| i < j && ApprovedAt(run, j, t, id);
        assert ApprovedAt(more, j, t', id);
      } else {
        assert ApprovedAt(more, |run|, t', id);
      }
    }
  }

  lemma {:induction false} OriginsReach(sha: Hash, run: seq<Step>)
    ensures forall id :: id in After(sha, run).t.approvals ==> HasOrigin(sha, run, After(sha, run).t, id)
    decreases |run|
  {
    hide Apply, HasOrigin, Traced;
    if run != [] {
      var front, s := run[..|run| - 1], run[|run| - 1];
      var w := After(sha, front);
      OriginsReach(sha, front);
      StepTraced(sha, w, s);
      ApprovalsStayConsistent(sha, front);
      ApprovalsStayConsistent(sha, run);
      assert run == front + [s];
      forall id | id in After(sha, run).t.approvals ensures HasOrigin(sha, run, After(sha, run).t, id) {
        OriginStep(sha, front, s, w.t, After(sha, run).t, id);
      }
    }
  }

  lemma OriginStep(sha: Hash, front: seq<Step>, s: Step, t: Tables, t': Tables, id: string)
    requires Invariant(t) && Invariant(t') && Traced(sha, t, t', s) && id in t'.approvals
    requires forall i :: i in t.approvals ==> HasOrigin(sha, front, t, i)
    ensures HasOrigin(sha, front + [s], t', id)
  {
    hide RowOk, HasOrigin, Opens;
    if id in t.approvals {
      assert t'.approvals[id].decisionId == t.approvals[id].decisionId;
      OldOriginStays(sha, front, s, t, t', id);
    } else {
      NewOrigin(sha, front, s, t', id);
    }
  }

  lemma NewOrigin(sha: Hash, front: seq<Step>, s: Step, t: Tables, id: string)
    requires id in t.approvals && t.approvals[id].status.Pending? && t.approvals[id].decisionId in t.decisions
    requires Opens(sha, s, id, t.approvals[id], t.decisions[t.approvals[id].decisionId])
    ensures HasOrigin(sha, front + [s], t, id)
  {
    hide Opens;
    assert OpenedAt(sha, front + [s], |front|, t, id);
  }

  /** Who asks for an evaluation of this request: its subject, else its owner. */
  function Asker(request: Request): string {
    var subject := TextOf(Get(request, Subject));
    Strip(if subject != "" then subject else TextOf(Get(request, Owner)))
  }

  /** Step e recorded the evaluation, and step r, later, approved it, on which the call is granted with
      these pins: in time, by someone other than who asked, for a request of the same digest, and under
      policy and pins that are the same wherever both are known. */
  ghost predicate Licenses(sha: Hash, e: Step, r: Step, c: Call, agentDigest: string, toolsDigest: string) {
    && e.PersistStep? && e.result.verdict.ApprovalRequired? && e.ids.approval == c.approvalId
    && r.ResolveStep? && r.id == c.approvalId && r.status.Approved?
    && r.now < e.now + (if e.ttl > 0 then e.ttl else 0) * MICROS_PER_SECOND
    && (Asker(e.request) == "" || Lower(Strip(r.reviewer)) != Lower(Asker(e.request)))
    && sha(Payload(c.request)) == sha(Payload(e.request)) != ""
    && (c.policyDigest == "" || e.result.policyDigest == "" || c.policyDigest == e.result.policyDigest)
    && (agentDigest == "" || e.result.agentDigest == "" || agentDigest == e.result.agentDigest)
    && (toolsDigest == "" || e.result.toolsDigest == "" || toolsDigest == e.result.toolsDigest)
  }

  lemma RequesterIsAsker(d: Decision, e: Step, digest: string)
    requires e.PersistStep? && Stores(d, e.result, e.request, digest, e.now)
    ensures Requester(d) == Asker(e.request)
  {
    hide Strip;
  }

  lemma LicensedBy(sha: Hash, w: World, c: Call, e: Step, r: Step)
    requires Justified(sha, w, c)
    requires Opens(sha, e, c.approvalId, w.t.approvals[c.approvalId], w.t.decisions[w.t.approvals[c.approvalId].decisionId])
    requires Approves(r, c.approvalId, w.t.approvals[c.approvalId])
    ensures Licenses(sha, e, r, c, c.phase.agentDigest, c.phase.toolsDigest)
  {
    hide Requester, Asker, Strip, Lower, Payload;
    var d := w.t.decisions[w.t.approvals[c.approvalId].decisionId];
    RequesterIsAsker(d, e, ComputeDigest(sha, e.request));
  }

  /** In every run, whatever is interleaved with it, a call is granted only on an evaluation recorded
      earlier in the run and approved later than that, which license it. */
  lemma {:induction false} GrantsHaveProvenance(sha: Hash, run: seq<Step>, s: Step, k: nat)
    requires k !in Granted(After(sha, run)) && k in Granted(After(sha, run + [s]))
    ensures var c := After(sha, run).calls[k];
      exists i: nat, j: nat :: i < j < |run| && c.phase.Consuming?
        && Licenses(sha, run[i], run[j], c, c.phase.agentDigest, c.phase.toolsDigest)
  {
    hide After, Granted, Matches, PinsMatch, Opens, Approves, Licenses, ProperlyResolved;
    var w := After(sha, run);
    GrantsAreJustified(sha, run, s, k);
    OriginsReach(sha, run);
    var c := w.calls[k];
    var id := c.approvalId;
    assert WasApproved(w.t.approvals[id]) && HasOrigin(sha, run, w.t, id);
    var i: nat :| OpenedAt(sha, run, i, w.t, id) && exists j: nat :: i < j && ApprovedAt(run, j, w.t, id);
    var j: nat :| i < j && ApprovedAt(run, j, w.t, id);
    LicensedBy(sha, w, c, run[i], run[j]);
  }
}
