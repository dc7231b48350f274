/** The decision store as an object whose tables are updated in place, and the service calls that
    work on it: `persist_evaluation` and `approval_grants_allow`
    (apps/control-api/app/decision_store.py, apps/control-api/app/durable_governance.py).
    Each method is one serial call; module ApprovalRuns interleaves their sessions. */
module DecisionStores {
  import opened Wrappers
  import opened Text
  import opened IsoTime
  import opened Binding
  import opened StoreTables
  import opened ApprovalRuns
  import Retention

  /** The five checks `approval_grants_allow` promises, on the tables it finds. */
  ghost predicate GrantsAllow(sha: Hash, t: Tables, approvalId: string, request: Request,
                              policyDigest: string, agentDigest: string, toolsDigest: string)
  {
    && Consumable(t, approvalId)
    && var decisionId := t.approvals[approvalId].decisionId;
      && decisionId in t.decisions
      && Matches(sha, t.decisions[decisionId], request, policyDigest)
      && PinsMatch(t.decisions[decisionId], agentDigest, toolsDigest)
  }

  /** An approval that is approved, was never used, and whose decision authorises the call. */
  predicate Grantable(sha: Hash, t: Tables, approvalId: string, request: Request, policyDigest: string,
                      agentDigest: string, toolsDigest: string)
  {
    && approvalId in t.approvals
    && var a := t.approvals[approvalId];
      && a.status.Approved? && a.usedAt.None? && a.decisionId in t.decisions
      && Authorises(sha, t.decisions[a.decisionId], request, policyDigest, agentDigest, toolsDigest)
  }

  /** What a granting call answers and leaves behind. A grant consumes the approval and appends one audit
      row that says so. */
  ghost predicate Grants(sha: Hash, t: Tables, t': Tables, granted: Result<bool, StoreError>, approvalId: string,
                         request: Request, policyDigest: string, agentDigest: string, toolsDigest: string,
                         now: Instant, eventId: string)
  {
    if !Grantable(sha, t, approvalId, request, policyDigest, agentDigest, toolsDigest) then
      granted == Ok(false) && Expires(t, t', {approvalId}, now)
    else if eventId in t.audit then granted == Err(Unavailable) && Expires(t, t', {approvalId}, now)
    else
      && granted == Ok(true) && t'.decisions == t.decisions
      && t'.approvals == t.approvals[approvalId := t.approvals[approvalId].(status := Consumed, usedAt := Some(now))]
      && eventId in t'.audit && t'.audit == t.audit[eventId := t'.audit[eventId]]
      && var e := t'.audit[eventId];
        && e.decisionId == t.approvals[approvalId].decisionId && e.kind.ApprovalConsumed? && ActsAs(request, e.actor)
        && e.approvalId == approvalId && e.requestDigest == sha(Payload(request)) && e.createdAt == now
  }

  /** Expiry does not bear on whether an approval can be granted on. */
  lemma GrantableStays(sha: Hash, t: Tables, approvalId: string, request: Request, policyDigest: string,
                       agentDigest: string, toolsDigest: string, now: Instant)
    ensures GrantsAllow(sha, ExpireIfNeeded(t, approvalId, now), approvalId, request, policyDigest, agentDigest,
                        toolsDigest)
            <==> Grantable(sha, t, approvalId, request, policyDigest, agentDigest, toolsDigest)
    ensures Grantable(sha, t, approvalId, request, policyDigest, agentDigest, toolsDigest) ==>
              ExpireIfNeeded(t, approvalId, now) == t
  {
    hide ExpireIfNeeded, Authorises, Matches, PinsMatch;
    var t1 := ExpireIfNeeded(t, approvalId, now);
    ExpireIfNeededExpires(t, approvalId, now);
    if approvalId in t.approvals && t.approvals[approvalId].decisionId in t.decisions {
      AuthorisesMeaning(sha, t.decisions[t.approvals[approvalId].decisionId], request, policyDigest, agentDigest,
                        toolsDigest);
    }
    if Grantable(sha, t, approvalId, request, policyDigest, agentDigest, toolsDigest) {
      assert t1.approvals == t.approvals;
    }
  }

  /** The three endings of a granting call. */
  lemma GrantMeaning(sha: Hash, t: Tables, approvalId: string, request: Request, policyDigest: string,
                     agentDigest: string, toolsDigest: string, now: Instant, eventId: string)
    ensures var t1 := ExpireIfNeeded(t, approvalId, now);
      if !GrantsAllow(sha, t1, approvalId, request, policyDigest, agentDigest, toolsDigest) then
        Grants(sha, t, t1, Ok(false), approvalId, request, policyDigest, agentDigest, toolsDigest, now, eventId)
      else if eventId in t1.audit then
        Grants(sha, t, t1, Err(Unavailable), approvalId, request, policyDigest, agentDigest, toolsDigest, now, eventId)
      else
        var e := ConsumedEvent(sha, t1.approvals[approvalId].decisionId, approvalId, request, now);
        Grants(sha, t, AppendAudit(ConsumeRow(t1, approvalId, now), eventId, e), Ok(true), approvalId, request,
               policyDigest, agentDigest, toolsDigest, now, eventId)
  {
    GrantableStays(sha, t, approvalId, request, policyDigest, agentDigest, toolsDigest, now);
    ExpireIfNeededExpires(t, approvalId, now);
    ActorActs(request);
    hide ExpireIfNeeded, Authorises, ActsAs, Actor;
  }

  /* An interleaved call left alone */

  /** The steps of one granting call, all at one time. */
  function Calling(k: nat, approvalId: string, request: Request, policyDigest: string, now: Instant,
                   agentDigest: string, toolsDigest: string, eventId: string): seq<Step>
  {
    var step := CallStep(k, now, agentDigest, toolsDigest, eventId);
    [BeginStep(k, approvalId, request, policyDigest), step, step, step, step]
  }

  lemma AfterCalling(sha: Hash, run: seq<Step>, s0: Step, s: Step)
    ensures After(sha, run + [s0, s, s, s, s]) ==
      Apply(sha, Apply(sha, Apply(sha, Apply(sha, Apply(sha, After(sha, run), s0), s), s), s), s)
  {
    hide Apply, After;
    ApprovalRuns.AfterStep(sha, run, s0);
    ApprovalRuns.AfterStep(sha, run + [s0], s);
    ApprovalRuns.AfterStep(sha, run + [s0] + [s], s);
    ApprovalRuns.AfterStep(sha, run + [s0] + [s] + [s], s);
    ApprovalRuns.AfterStep(sha, run + [s0] + [s] + [s] + [s], s);
    assert run + [s0, s, s, s, s] == run + [s0] + [s] + [s] + [s] + [s];
  }

  /** A call that has returned stays as it is. */
  lemma ReturnedStays(sha: Hash, w: World, s: Step)
    requires s.CallStep? && s.k in w.calls && w.calls[s.k].phase.Returned?
    ensures Apply(sha, w, s) == w
  {
  }

  /** The first session, in a world where the approval's decision is there. */
  lemma ReadsApproval(sha: Hash, w: World, c: Call, s: Step)
    requires s.CallStep? && s.k in w.calls && w.calls[s.k] == c && c.phase.ReadingApproval?
    requires w.clock <= s.now && s.eventId !in w.used
    ensures var w' := Apply(sha, w, s); var t1 := ExpireIfNeeded(w.t, c.approvalId, s.now);
      && w'.t == t1 && w'.clock == s.now && w'.used == w.used
      && w'.calls.Keys == w.calls.Keys
      && w'.calls[s.k] == c.(phase :=
           if c.approvalId in t1.approvals && t1.approvals[c.approvalId].status.Approved?
              && t1.approvals[c.approvalId].usedAt.None?
           then ReadingDecision(t1.approvals[c.approvalId].decisionId) else Returned(false))
  {
    hide ExpireIfNeeded;
  }

  /** The two sessions that only read. */
  lemma ReadsDecisionAndPins(sha: Hash, w: World, c: Call, id: string, s: Step)
    requires s.CallStep? && s.k in w.calls && w.calls[s.k] == c && c.phase == ReadingDecision(id)
    requires w.clock <= s.now && s.eventId !in w.used
    ensures var w' := Apply(sha, Apply(sha, w, s), s);
      && w'.t == w.t && w'.clock == w.clock && w'.used == w.used && w'.calls.Keys == w.calls.Keys
      && w'.calls[s.k] == c.(phase :=
           if id in w.t.decisions
              && Authorises(sha, w.t.decisions[id], c.request, c.policyDigest, s.agentDigest, s.toolsDigest)
           then Consuming(id, w.t.decisions[id], s.agentDigest, s.toolsDigest) else Returned(false))
  {
    hide Matches, PinsMatch, Authorises;
    if id in w.t.decisions {
      AuthorisesMeaning(sha, w.t.decisions[id], c.request, c.policyDigest, s.agentDigest, s.toolsDigest);
    }
  }

  /** The transaction, on an approval that can be consumed. */
  lemma ConsumesAndReturns(sha: Hash, w: World, c: Call, s: Step)
    requires s.CallStep? && s.k in w.calls && w.calls[s.k] == c && c.phase.Consuming?
    requires w.clock <= s.now && s.eventId !in w.used && s.eventId !in w.t.audit
    requires Consumable(w.t, c.approvalId) && c.phase.decisionId in w.t.decisions
    ensures var w' := Apply(sha, w, s);
      && w'.t == AppendAudit(ConsumeRow(w.t, c.approvalId, s.now), s.eventId,
                             ConsumedEvent(sha, c.phase.decisionId, c.approvalId, c.request, s.now))
      && s.k in w'.calls && w'.calls[s.k].phase == Returned(true)
  {
    hide ComputeDigest, Actor;
  }

  /** A call whose sessions nothing interrupts does what the serial call does: it is granted exactly when
      the approval can be granted on, consumes it then, and leaves everything but expiry alone otherwise. */
  lemma {:induction false} UninterruptedCallIsSerial(
      sha: Hash, run: seq<Step>, k: nat, approvalId: string, request: Request, policyDigest: string, now: Instant,
      agentDigest: string, toolsDigest: string, eventId: string)
    requires var w := After(sha, run); k !in w.calls && w.clock <= now && eventId !in w.used
    ensures
      var w := After(sha, run);
      var steps := Calling(k, approvalId, request, policyDigest, now, agentDigest, toolsDigest, eventId);
      var w' := After(sha, run + steps);
      var ok := Grantable(sha, w.t, approvalId, request, policyDigest, agentDigest, toolsDigest);
      && k in w'.calls && w'.calls[k].phase == Returned(ok)
      && Grants(sha, w.t, w'.t, Ok(ok), approvalId, request, policyDigest, agentDigest, toolsDigest, now, eventId)
  {
    hide After, Apply, Grants, Authorises, ExpireIfNeeded, GrantsAllow, AppendAudit, ConsumeRow, ConsumedEvent;
    var w := After(sha, run);
    var s0, s := BeginStep(k, approvalId, request, policyDigest), CallStep(k, now, agentDigest, toolsDigest, eventId);
    AfterCalling(sha, run, s0, s);
    Reachable(sha, run);
    UnusedIsNotAudited(sha, w, eventId);
    GrantMeaning(sha, w.t, approvalId, request, policyDigest, agentDigest, toolsDigest, now, eventId);
    GrantableStays(sha, w.t, approvalId, request, policyDigest, agentDigest, toolsDigest, now);
    ExpireIfNeededExpires(w.t, approvalId, now);
    var c := Call(approvalId, request, policyDigest, ReadingApproval);
    var w1 := Apply(sha, w, s0);
    BeginsCall(sha, w, s0);
    ReadsApproval(sha, w1, c, s);
    var w2 := Apply(sha, w1, s);
    if w2.calls[k].phase.Returned? {
      ReturnedStays(sha, w2, s);
    } else {
      var id := w2.calls[k].phase.decisionId;
      ReadsDecisionAndPins(sha, w2, w2.calls[k], id, s);
      var w4 := Apply(sha, Apply(sha, w2, s), s);
      if w4.calls[k].phase.Returned? {
        ReturnedStays(sha, w4, s);
      } else {
        ConsumesAndReturns(sha, w4, w4.calls[k], s);
      }
    }
  }

  lemma BeginsCall(sha: Hash, w: World, s: Step)
    requires s.BeginStep? && s.k !in w.calls
    ensures Apply(sha, w, s) == w.(calls := w.calls[s.k := Call(s.approvalId, s.request, s.policyDigest, ReadingApproval)])
  {
  }

  lemma UnusedIsNotAudited(sha: Hash, w: World, eventId: string)
    requires Inv(sha, w) && eventId !in w.used
    ensures eventId !in w.t.audit
  {
  }

  /** From the evaluation to the grant: an evaluation recorded under one policy and some pins, and approved
      in time, grants a later call exactly when that call's request has the digest of the one evaluated
      and its policy and each of its pins are those recorded, or unknown on one side. */
  lemma RecordedApprovalGrantsExactlyWhen(
      sha: Hash, t0: Tables, result: Evaluation, request: Request, ids: NewIds, ttlSeconds: int, recorded: Instant,
      t1: Tables, reviewer: string, comment: string, tenant: Option<string>, forbidSelf: bool, resolved: Instant,
      t2: Tables, later: Request, policyDigest: string, agentDigest: string, toolsDigest: string, now: Instant)
    requires Persist(t0, result, request, ComputeDigest(sha, request), ids, ttlSeconds, recorded) == Ok(t1)
    requires AsksApproval(result)
    requires Resolve(t1, ids.approval, Approved, reviewer, comment, tenant, forbidSelf, resolved).0 == t2
    requires Resolve(t1, ids.approval, Approved, reviewer, comment, tenant, forbidSelf, resolved).1.Ok?
    ensures
      GrantsAllow(sha, ExpireIfNeeded(t2, ids.approval, now), ids.approval, later, policyDigest, agentDigest, toolsDigest)
      <==>
        && sha(Payload(later)) == sha(Payload(request)) != ""
        && (policyDigest == "" || result.policyDigest == "" || policyDigest == result.policyDigest)
        && (agentDigest == "" || result.agentDigest == "" || agentDigest == result.agentDigest)
        && (toolsDigest == "" || result.toolsDigest == "" || toolsDigest == result.toolsDigest)
  {
    hide Persist, Resolve, ExpireIfNeeded, SelfReview, IdsFit, RecordsEvent, ActsAs, Strip;
    PersistRecords(t0, result, request, ComputeDigest(sha, request), ids, ttlSeconds, recorded);
    ResolveMeaning(t1, ids.approval, Approved, reviewer, comment, tenant, forbidSelf, resolved);
    GrantableStays(sha, t2, ids.approval, later, policyDigest, agentDigest, toolsDigest, now);
  }

  class DecisionStore {
    const sha: Hash
    var decisions: map<string, Decision>
    var approvals: map<string, Approval>
    var audit: map<string, AuditEvent>

    function Tables(): Tables
      reads this
    {
      StoreTables.Tables.Tables(decisions, approvals, audit)
    }

    constructor (sha: Hash)
      ensures Tables() == EMPTY_TABLES && this.sha == sha
    {
      this.sha := sha;
      decisions, approvals, audit := map[], map[], map[];
    }

    /** `_expire_stale`: one set-wise update, and the number of rows it hit. */
    method ExpireStaleApprovals(now: Instant) returns (expired: nat)
      modifies this`approvals
      ensures Tables() == ExpireStale(old(Tables()), now) && expired == |StaleIds(old(Tables()), now)|
      ensures Expires(old(Tables()), Tables(), old(approvals.Keys), now)
      ensures expired ==
        |set id | id in old(approvals) && old(approvals)[id].status.Pending? && old(approvals)[id].expiresAt <= now|
    {
      hide TextStale;
      ExpireStaleExpires(Tables(), now);
      var stale := set id | id in approvals && TextStale(approvals[id], now);
      expired := |stale|;
      assert stale == StaleIds(Tables(), now);
      approvals := map id | id in approvals ::
        if id in stale then ExpireRow(approvals[id], now) else approvals[id];
    }

    method ExpireApprovalIfNeeded(id: string, now: Instant)
      modifies this`approvals
      ensures Tables() == ExpireIfNeeded(old(Tables()), id, now)
      ensures Expires(old(Tables()), Tables(), {id}, now)
    {
      ExpireIfNeededExpires(Tables(), id, now);
      if id !in approvals { return; }
      var row := approvals[id];
      if !row.status.Pending? { return; }
      var due := Parse(Iso(row.expiresAt));
      if due.None? || due.value > now { return; }
      approvals := approvals[id := row.(status := Expired, resolvedAt := Some(now))];
    }

    /** The row as it is after expiry: there is one exactly when the approval exists and, for a caller
        confined to a tenant, its decision exists and belongs to that tenant. */
    method GetApproval(id: string, tenant: Option<string>, now: Instant) returns (a: Option<Approval>)
      modifies this`approvals
      ensures Tables() == ExpireIfNeeded(old(Tables()), id, now) && a == Lookup(Tables(), id, tenant)
      ensures Expires(old(Tables()), Tables(), {id}, now)
      ensures a.Some? <==> Accessible(old(Tables()), id, tenant)
      ensures a.Some? ==> ExpiredAt(old(approvals)[id], a.value, now)
    {
      hide ExpireIfNeeded;
      ghost var before := Tables();
      ExpireApprovalIfNeeded(id, now);
      LookupFindsAccessible(Tables(), id, tenant);
      assert Accessible(Tables(), id, tenant) <==> Accessible(before, id, tenant);
      if id !in approvals { return None; }
      var row := approvals[id];
      if tenant.None? { return Some(row); }
      if row.decisionId !in decisions { return None; }
      if OwnerTenant(decisions[row.decisionId]) != tenant.value { return None; }
      a := Some(row);
    }

    method GetDecision(id: string) returns (d: Option<Decision>)
      ensures d == if id in decisions then Some(decisions[id]) else None
    {
      d := if id in decisions then Some(decisions[id]) else None;
    }

    method ResolveApproval(id: string, status: ApprovalStatus, reviewer: string, comment: string,
                           tenant: Option<string>, forbidSelf: bool, now: Instant)
      returns (r: Result<Approval, StoreError>)
      modifies this`approvals
      ensures (Tables(), r) == Resolve(old(Tables()), id, status, reviewer, comment, tenant, forbidSelf, now)
      ensures Resolves(old(Tables()), Tables(), r, id, status, reviewer, comment, tenant, forbidSelf, now)
    {
      hide Resolves;
      ResolveMeaning(Tables(), id, status, reviewer, comment, tenant, forbidSelf, now);
      if status != Approved && status != Rejected { return Err(BadStatus); }
      ExpireApprovalIfNeeded(id, now);
      if id !in approvals { return Err(NotFound); }
      var row := approvals[id];
      if tenant.Some? {
        if row.decisionId !in decisions { return Err(NotFound); }
        if OwnerTenant(decisions[row.decisionId]) != tenant.value { return Err(NotFound); }
      }
      if row.status == Expired { return Err(ApprovalExpired); }
      if row.status != Pending { return Err(NotPending); }
      var requester := if row.decisionId in decisions then Requester(decisions[row.decisionId]) else "";
      if forbidSelf && requester != "" && Lower(Strip(reviewer)) == Lower(requester) {
        return Err(SelfApproval);
      }
      row := row.(status := status, reviewer := Some(reviewer), comment := Some(comment),
                  resolvedAt := Some(now));
      approvals := approvals[id := row];
      r := Ok(row);
    }

    /** The guarded update, and whether it hit its row. */
    method ConsumeApproval(id: string, now: Instant) returns (consumed: bool)
      modifies this`approvals
      ensures consumed == Consumable(old(Tables()), id)
      ensures Tables() == if consumed then ConsumeRow(old(Tables()), id, now) else old(Tables())
    {
      consumed := id in approvals && approvals[id].status == Approved && approvals[id].usedAt.None?;
      if consumed {
        approvals := approvals[id := approvals[id].(status := Consumed, usedAt := Some(now))];
      }
    }

    /** An insert that fits its keys, or none. */
    method AppendAuditMeta(eventId: string, e: AuditEvent) returns (inserted: bool)
      modifies this`audit
      ensures inserted == AuditFits(old(Tables()), eventId, e)
      ensures Tables() == if inserted then AppendAudit(old(Tables()), eventId, e) else old(Tables())
    {
      inserted := eventId !in audit && e.decisionId in decisions;
      if inserted { audit := audit[eventId := e]; }
    }

    /** One transaction: everything is written, or nothing. */
    method PersistEvaluation(result: Evaluation, request: Request, ids: NewIds, ttlSeconds: int, now: Instant)
      returns (r: Result<string, StoreError>)
      modifies this
      ensures var p := Persist(old(Tables()), result, request, ComputeDigest(sha, request), ids, ttlSeconds, now);
        match p
        case Ok(t') => Tables() == t' && r == Ok(ids.decision)
        case Err(e) => Tables() == old(Tables()) && r == Err(e)
      ensures r.Ok? <==> IdsFit(old(Tables()), ids) && (AsksApproval(result) ==> ExpiryOf(now, ttlSeconds) < END_OF_TIME)
      ensures r.Ok? ==> Records(old(Tables()), Tables(), result, request, sha(Payload(request)), ids, ttlSeconds, now)
    {
      hide Records;
      if Persist(Tables(), result, request, ComputeDigest(sha, request), ids, ttlSeconds, now).Ok? {
        PersistRecords(Tables(), result, request, ComputeDigest(sha, request), ids, ttlSeconds, now);
      }
      var digest := ComputeDigest(sha, request);
      if !IdsFit(Tables(), ids) { return Err(Unavailable); }
      var before := Tables();
      decisions := decisions[ids.decision := NewDecision(result, request, digest, now)];
      var approvalId := if result.approvalId.Some? then result.approvalId.value else "";
      if result.verdict.ApprovalRequired? && approvalId == "" {
        approvalId := ids.approval;
        var expiresAt := ExpiryOf(now, ttlSeconds);
        if expiresAt >= END_OF_TIME {
          decisions := before.decisions;
          return Err(Overflow);
        }
        approvals := approvals[approvalId := NewApproval(ids.decision, now, expiresAt)];
        var created := AppendAuditMeta(
          ids.created, AuditEvent(ids.decision, ApprovalCreated, Actor(request), approvalId, digest, now));
      }
      var recorded := AppendAuditMeta(
        ids.recorded, AuditEvent(ids.decision, DecisionRecorded, Actor(request), approvalId, digest, now));
      r := Ok(ids.decision);
    }

    /** One transaction: the guarded update and its audit row, or neither. */
    method ConsumeAndAudit(approvalId: string, eventId: string, e: AuditEvent, now: Instant)
      returns (r: Result<bool, StoreError>)
      modifies this`approvals, this`audit
      ensures (Tables(), r) == ConsumeTransaction(old(Tables()), approvalId, eventId, e, now)
    {
      var before := approvals;
      var consumed := ConsumeApproval(approvalId, now);
      if !consumed { return Ok(false); }
      var inserted := AppendAuditMeta(eventId, e);
      if !inserted {
        approvals := before;
        return Err(Unavailable);
      }
      r := Ok(true);
    }

    /** The checks of a grant on the decision: it exists and was made for this request, policy and pins. */
    method DecisionAllows(decisionId: string, request: Request, policyDigest: string,
                          agentDigest: string, toolsDigest: string)
      returns (ok: bool)
      ensures ok <==>
        && decisionId in decisions && Matches(sha, decisions[decisionId], request, policyDigest)
        && PinsMatch(decisions[decisionId], agentDigest, toolsDigest)
      ensures ok <==> decisionId in decisions
                      && Authorises(sha, decisions[decisionId], request, policyDigest, agentDigest, toolsDigest)
    {
      if decisionId in decisions {
        AuthorisesMeaning(sha, decisions[decisionId], request, policyDigest, agentDigest, toolsDigest);
      }
      hide ComputeDigest, Authorises;
      var decision := GetDecision(decisionId);
      if decision.None? { return false; }
      var currentDigest := ComputeDigest(sha, request);
      var approvedDigest := decision.value.requestDigest;
      if approvedDigest == "" { approvedDigest := ComputeDigest(sha, decision.value.request); }
      if approvedDigest == "" || currentDigest != approvedDigest { return false; }
      if policyDigest != "" && decision.value.policyDigest != "" && policyDigest != decision.value.policyDigest {
        return false;
      }
      if agentDigest != "" && decision.value.agentDigest != "" && agentDigest != decision.value.agentDigest {
        return false;
      }
      if toolsDigest != "" && decision.value.toolsDigest != "" && toolsDigest != decision.value.toolsDigest {
        return false;
      }
      ok := true;
    }

    /** The grant, given the capability pins in force: granted exactly when the approval is
        approved and unused once expiry is applied, its decision exists, and request, policy and
        pins match it; then the approval is consumed and audited, and otherwise nothing more
        than the expiry happens. */
    method ApprovalGrantsAllow(approvalId: string, request: Request, policyDigest: string,
                               agentDigest: string, toolsDigest: string, now: Instant, eventId: string)
      returns (granted: Result<bool, StoreError>)
      modifies this
      ensures var t1 := ExpireIfNeeded(old(Tables()), approvalId, now);
        if !GrantsAllow(sha, t1, approvalId, request, policyDigest, agentDigest, toolsDigest) then
          granted == Ok(false) && Tables() == t1
        else
          var e := ConsumedEvent(sha, t1.approvals[approvalId].decisionId, approvalId, request, now);
          if eventId in t1.audit then granted == Err(Unavailable) && Tables() == t1
          else granted == Ok(true) && Tables() == AppendAudit(ConsumeRow(t1, approvalId, now), eventId, e)
      ensures Grants(sha, old(Tables()), Tables(), granted, approvalId, request, policyDigest, agentDigest, toolsDigest,
                     now, eventId)
    {
      GrantMeaning(sha, Tables(), approvalId, request, policyDigest, agentDigest, toolsDigest, now, eventId);
      hide Grants, Authorises;
      hide ExpireIfNeeded, ComputeDigest, Actor, Matches, PinsMatch;
      var approval := GetApproval(approvalId, None, now);
      if approval.None? || approval.value.status != Approved { return Ok(false); }
      if approval.value.usedAt.Some? { return Ok(false); }
      var decisionId := approval.value.decisionId;
      var allowed := DecisionAllows(decisionId, request, policyDigest, agentDigest, toolsDigest);
      if !allowed { return Ok(false); }
      var e := ConsumedEvent(sha, decisionId, approvalId, request, now);
      granted := ConsumeAndAudit(approvalId, eventId, e, now);
    }

    /** `purge_retained`: the rows come from some result of its selecting query. */
    method PurgeRetained(retentionDays: int, dryRun: bool, limit: int, now: Instant)
      returns (r: Result<Retention.PurgeResult, StoreError>, ghost ids: seq<string>)
      modifies this
      ensures Retention.Selects(old(Tables()), retentionDays, limit, ids, now)
      ensures (Tables(), r) == Retention.Purge(old(Tables()), retentionDays, dryRun, limit, ids, now)
      ensures Retention.Purges(old(Tables()), Tables(), r, retentionDays, dryRun, limit,
                               if retentionDays > 0 then Retention.IdSet(ids) else {}, now)
    {
      forall chosen | Retention.Selects(Tables(), retentionDays, limit, chosen, now)
        ensures var (t', r) := Retention.Purge(Tables(), retentionDays, dryRun, limit, chosen, now);
          Retention.Purges(Tables(), t', r, retentionDays, dryRun, limit,
                           if retentionDays > 0 then Retention.IdSet(chosen) else {}, now)
      {
        Retention.PurgeMeaning(Tables(), retentionDays, dryRun, limit, chosen, now);
      }
      hide Retention.Purges;
      hide Less, Iso, Parse;
      ids := [];
      if limit < 1 || limit > Retention.MAX_LIMIT { return Err(BadLimit), []; }
      var cutoff := Retention.CutoffOf(now, retentionDays);
      if cutoff < 0 { return Err(Overflow), []; }
      ghost var t0 := Tables();
      var expired := ExpireStaleApprovals(now);
      if retentionDays <= 0 { return Ok(Retention.PurgeResult(expired, 0, 0, 0)), []; }
      var selected := Retention.SelectOldest(Tables(), cutoff, limit);
      ids := selected;
      Retention.ExpiryKeepsSelection(t0, now, cutoff, limit, selected);
      if selected == [] { return Ok(Retention.PurgeResult(expired, 0, 0, 0)), []; }
      var counts := DeleteOrCount(selected, dryRun);
      r := Ok(counts.(expiredApprovals := expired));
    }

    /** Counts the rows that belong to the selected decisions, and deletes them unless told not to. */
    method DeleteOrCount(selected: seq<string>, dryRun: bool) returns (counts: Retention.PurgeResult)
      modifies this
      ensures counts == Retention.PurgeResult(0, |Retention.AuditOf(old(Tables()), selected)|,
                                              |Retention.ApprovalsOf(old(Tables()), selected)|, |selected|)
      ensures Tables() == if dryRun then old(Tables()) else Retention.Remove(old(Tables()), selected)
    {
      var auditRows := set e | e in audit && audit[e].decisionId in selected;
      var approvalRows := set a | a in approvals && approvals[a].decisionId in selected;
      assert auditRows == Retention.AuditOf(Tables(), selected);
      assert approvalRows == Retention.ApprovalsOf(Tables(), selected);
      counts := Retention.PurgeResult(0, |auditRows|, |approvalRows|, |selected|);
      if !dryRun {
        audit := audit - auditRows;
        approvals := approvals - approvalRows;
        decisions := decisions - (set id | id in selected);
      }
    }
  }
}
