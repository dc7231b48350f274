/** The decision, approval and audit tables of the decision store, and what each guarded
    statement does to them (apps/control-api/app/decision_store.py). */
module StoreTables {
  import opened Wrappers
  import opened Text
  import opened IsoTime
  import opened Binding
  import opened Verdicts

  datatype ApprovalStatus = Pending | Approved | Rejected | Expired | Consumed

  datatype Decision = Decision(
    verdict: Verdict, policyDigest: string, team: string, tenantId: string, subject: string,
    request: Request, requestDigest: string, agentDigest: string, toolsDigest: string,
    createdAt: Instant)

  datatype Approval = Approval(
    decisionId: string, status: ApprovalStatus, reviewer: Option<string>, comment: Option<string>,
    createdAt: Instant, expiresAt: Instant, resolvedAt: Option<Instant>, usedAt: Option<Instant>)

  datatype AuditKind = ApprovalCreated | DecisionRecorded | ApprovalConsumed | RemediationResolved

  datatype AuditEvent = AuditEvent(
    decisionId: string, kind: AuditKind, actor: string, approvalId: string, requestDigest: string,
    createdAt: Instant)

  datatype Tables = Tables(
    decisions: map<string, Decision>, approvals: map<string, Approval>, audit: map<string, AuditEvent>)

  datatype StoreError =
    | BadStatus | NotFound | ApprovalExpired | NotPending | SelfApproval
    | Unavailable | Overflow | BadLimit

  const EMPTY_TABLES := Tables(map[], map[], map[])

  /* Expiry */

  /** The SQL test of `_expire_stale`: `expires_at <= now`, on text. */
  predicate TextStale(a: Approval, now: Instant) {
    a.status.Pending? && !Less(Iso(now), Iso(a.expiresAt))
  }

  /** The test of `_expire_if_needed`, on the parsed timestamp. */
  predicate ParsedStale(a: Approval, now: Instant) {
    a.status.Pending? && match Parse(Iso(a.expiresAt)) { case Some(t) => t <= now case None => false }
  }

  /** Both tests expire exactly the rows whose time has come. */
  lemma {:induction false} StaleTestsAgree(a: Approval, now: Instant)
    ensures TextStale(a, now) <==> ParsedStale(a, now)
    ensures TextStale(a, now) <==> a.status.Pending? && a.expiresAt <= now
  {
    TextOrderIsTimeOrder(now, a.expiresAt);
    ParseInvertsIso(a.expiresAt);
  }

  function ExpireRow(a: Approval, now: Instant): Approval {
    a.(status := Expired, resolvedAt := Some(now))
  }

  function StaleIds(t: Tables, now: Instant): set<string> {
    set id | id in t.approvals && TextStale(t.approvals[id], now)
  }

  /** `_expire_stale`. */
  function ExpireStale(t: Tables, now: Instant): Tables {
    t.(approvals := map id | id in t.approvals ::
      if TextStale(t.approvals[id], now) then ExpireRow(t.approvals[id], now) else t.approvals[id])
  }

  /** `_expire_if_needed`. */
  function ExpireIfNeeded(t: Tables, id: string, now: Instant): Tables {
    if id in t.approvals && ParsedStale(t.approvals[id], now) then
      t.(approvals := t.approvals[id := ExpireRow(t.approvals[id], now)])
    else t
  }

  /** A row and what an expiry at this time leaves of it: only a pending row whose time has come changes. */
  predicate ExpiredAt(a: Approval, a': Approval, now: Instant) {
    if a.status.Pending? && a.expiresAt <= now then a' == a.(status := Expired, resolvedAt := Some(now)) else a' == a
  }

  /** The rows named have been looked at for expiry, and nothing else has happened. */
  ghost predicate Expires(t: Tables, t': Tables, ids: set<string>, now: Instant) {
    && t'.decisions == t.decisions && t'.audit == t.audit && t'.approvals.Keys == t.approvals.Keys
    && (forall id :: id in t.approvals && id in ids ==> ExpiredAt(t.approvals[id], t'.approvals[id], now))
    && (forall id :: id in t.approvals && id !in ids ==> t'.approvals[id] == t.approvals[id])
  }

  lemma ExpireStaleExpires(t: Tables, now: Instant)
    ensures Expires(t, ExpireStale(t, now), t.approvals.Keys, now)
    ensures StaleIds(t, now) ==
            set id | id in t.approvals && t.approvals[id].status.Pending? && t.approvals[id].expiresAt <= now
  {
    hide TextStale;
    forall id | id in t.approvals
      ensures TextStale(t.approvals[id], now) <==> t.approvals[id].status.Pending? && t.approvals[id].expiresAt <= now
    {
      StaleTestsAgree(t.approvals[id], now);
    }
  }

  lemma ExpireIfNeededExpires(t: Tables, id: string, now: Instant)
    ensures Expires(t, ExpireIfNeeded(t, id, now), {id}, now)
  {
    hide ParsedStale;
    if id in t.approvals { StaleTestsAgree(t.approvals[id], now); }
  }

  /* Reading and resolving */

  function OwnerTenant(d: Decision): string {
    Or(d.tenantId, d.team)
  }

  /** Whether a caller confined to a tenant may see this approval. */
  predicate Visible(t: Tables, a: Approval, tenant: Option<string>) {
    tenant.Some? ==> a.decisionId in t.decisions && OwnerTenant(t.decisions[a.decisionId]) == tenant.value
  }

  /** `get_approval`, after the expiry it performs. */
  function Lookup(t: Tables, id: string, tenant: Option<string>): Option<Approval> {
    if id in t.approvals && Visible(t, t.approvals[id], tenant) then Some(t.approvals[id]) else None
  }

  /** Who asked: the decision's subject, else the subject or owner of its stored request. */
  function Requester(d: Decision): string {
    if Strip(d.subject) != "" then Strip(d.subject)
    else Strip(Or(TextOf(Get(d.request, Subject)), TextOf(Get(d.request, Owner))))
  }

  /** Whether the reviewer is the requester, ignoring case and outer blanks. */
  predicate IsSelf(d: Decision, reviewer: string) {
    Requester(d) != "" && Lower(Strip(reviewer)) == Lower(Requester(d))
  }

  /** `resolve_approval`. The expiry it performs first stays even when it then fails. */
  function Resolve(t: Tables, id: string, status: ApprovalStatus, reviewer: string, comment: string,
                   tenant: Option<string>, forbidSelf: bool, now: Instant)
    : (Tables, Result<Approval, StoreError>)
  {
    if !status.Approved? && !status.Rejected? then (t, Err(BadStatus))
    else
      var t1 := ExpireIfNeeded(t, id, now);
      if id !in t1.approvals || !Visible(t1, t1.approvals[id], tenant) then (t1, Err(NotFound))
      else
        var a := t1.approvals[id];
        if a.status.Expired? then (t1, Err(ApprovalExpired))
        else if !a.status.Pending? then (t1, Err(NotPending))
        else if forbidSelf && a.decisionId in t1.decisions && IsSelf(t1.decisions[a.decisionId], reviewer) then
          (t1, Err(SelfApproval))
        else
          var b := a.(status := status, reviewer := Some(reviewer), comment := Some(comment),
                      resolvedAt := Some(now));
          (t1.(approvals := t1.approvals[id := b]), Ok(b))
  }

  /** The approval's decision is there and belongs to tenant x: to that of its tenant field, or to its
      team where that field is empty. */
  predicate OwnedBy(t: Tables, a: Approval, x: string) {
    && a.decisionId in t.decisions
    && var d := t.decisions[a.decisionId];
      (d.tenantId != "" ==> x == d.tenantId) && (d.tenantId == "" ==> x == d.team)
  }

  /** The approval exists, and a caller confined to a tenant owns it. */
  predicate Accessible(t: Tables, id: string, tenant: Option<string>) {
    id in t.approvals && (tenant.Some? ==> OwnedBy(t, t.approvals[id], tenant.value))
  }

  lemma LookupFindsAccessible(t: Tables, id: string, tenant: Option<string>)
    ensures Lookup(t, id, tenant).Some? <==> Accessible(t, id, tenant)
    ensures Accessible(t, id, tenant) ==> Lookup(t, id, tenant) == Some(t.approvals[id])
  {
  }

  /** The first of these that is not blank is who asked: the decision's subject, the subject and the
      owner of its request. Of the last two the first that is not empty is taken, blank or not. */
  predicate AskedBy(d: Decision, who: string) {
    var subject, owner := TextOf(Get(d.request, Subject)), TextOf(Get(d.request, Owner));
    && (Strip(d.subject) != "" ==> who == Strip(d.subject))
    && (Strip(d.subject) == "" && subject != "" ==> who == Strip(subject))
    && (Strip(d.subject) == "" && subject == "" ==> who == Strip(owner))
  }

  /** The reviewer is who asked, ignoring case and outer blanks. */
  ghost predicate SelfReview(t: Tables, a: Approval, reviewer: string) {
    && a.decisionId in t.decisions
    && exists who :: AskedBy(t.decisions[a.decisionId], who) && who != "" && Lower(Strip(reviewer)) == Lower(who)
  }

  lemma IsSelfMeaning(t: Tables, a: Approval, reviewer: string)
    ensures SelfReview(t, a, reviewer) <==> a.decisionId in t.decisions && IsSelf(t.decisions[a.decisionId], reviewer)
  {
    hide Strip, Lower;
    if a.decisionId in t.decisions {
      var d := t.decisions[a.decisionId];
      assert AskedBy(d, Requester(d));
    }
  }

  predicate PendingInTime(a: Approval, now: Instant) {
    a.status.Pending? && now < a.expiresAt
  }

  /** When a resolution succeeds, which refusal comes when it does not, and what either leaves behind. */
  ghost predicate Resolves(t: Tables, t': Tables, r: Result<Approval, StoreError>, id: string, status: ApprovalStatus,
                           reviewer: string, comment: string, tenant: Option<string>, forbidSelf: bool, now: Instant) {
    if !status.Approved? && !status.Rejected? then t' == t && r == Err(BadStatus)
    else if !Accessible(t, id, tenant) then Expires(t, t', {id}, now) && r == Err(NotFound)
    else
      var a := t.approvals[id];
      var self := forbidSelf && SelfReview(t, a, reviewer);
      && (r.Ok? <==> PendingInTime(a, now) && !self)
      && (r == Err(SelfApproval) <==> PendingInTime(a, now) && self)
      && (r == Err(ApprovalExpired) <==> a.status.Expired? || (a.status.Pending? && a.expiresAt <= now))
      && (r == Err(NotPending) <==> a.status.Approved? || a.status.Rejected? || a.status.Consumed?)
      && (r.Ok? ==>
            && r.value == a.(status := status, reviewer := Some(reviewer), comment := Some(comment),
                             resolvedAt := Some(now))
            && t' == t.(approvals := t.approvals[id := r.value]))
      && (r.Err? ==> Expires(t, t', {id}, now))
  }

  /** `resolve_approval` succeeds exactly on an approval of the caller's tenant that is pending and in
      time, for anyone but the one who asked. */
  lemma ResolveMeaning(t: Tables, id: string, status: ApprovalStatus, reviewer: string, comment: string,
                       tenant: Option<string>, forbidSelf: bool, now: Instant)
    ensures var (t', r) := Resolve(t, id, status, reviewer, comment, tenant, forbidSelf, now);
      Resolves(t, t', r, id, status, reviewer, comment, tenant, forbidSelf, now)
  {
    hide ExpireIfNeeded, IsSelf, SelfReview;
    var t1 := ExpireIfNeeded(t, id, now);
    ExpireIfNeededExpires(t, id, now);
    LookupFindsAccessible(t1, id, tenant);
    if id in t.approvals {
      IsSelfMeaning(t, t.approvals[id], reviewer);
      if PendingInTime(t.approvals[id], now) { assert t1.approvals == t.approvals; }
    }
  }

  /* Consuming */

  predicate Consumable(t: Tables, id: string) {
    id in t.approvals && t.approvals[id].status.Approved? && t.approvals[id].usedAt.None?
  }

  /** `consume_approval`, where its guard matches. */
  function ConsumeRow(t: Tables, id: string, now: Instant): Tables
    requires id in t.approvals
  {
    t.(approvals := t.approvals[id := t.approvals[id].(status := Consumed, usedAt := Some(now))])
  }

  /** Primary key and foreign key of the audit table. */
  predicate AuditFits(t: Tables, eventId: string, e: AuditEvent) {
    eventId !in t.audit && e.decisionId in t.decisions
  }

  function AppendAudit(t: Tables, eventId: string, e: AuditEvent): Tables {
    t.(audit := t.audit[eventId := e])
  }

  /** The consuming transaction of `approval_grants_allow`: the guarded update and its audit
      row commit together, or the audit row does not fit and nothing happens. */
  function ConsumeTransaction(t: Tables, id: string, eventId: string, e: AuditEvent, now: Instant)
    : (Tables, Result<bool, StoreError>)
  {
    if !Consumable(t, id) then (t, Ok(false))
    else if !AuditFits(t, eventId, e) then (t, Err(Unavailable))
    else (AppendAudit(ConsumeRow(t, id, now), eventId, e), Ok(true))
  }

  /* Recording an evaluation */

  /** What `persist_evaluation` is given besides the request: the verdict, the policy digest,
      an approval already granted, and the capability pins in force. */
  datatype Evaluation = Evaluation(
    verdict: Verdict, policyDigest: string, approvalId: Option<string>,
    agentDigest: string, toolsDigest: string)

  /** The random identifiers one call draws. */
  datatype NewIds = NewIds(decision: string, approval: string, created: string, recorded: string)

  predicate OpensApproval(result: Evaluation) {
    result.verdict.ApprovalRequired? && (result.approvalId.None? || result.approvalId.value == "")
  }

  function ExpiryOf(now: Instant, ttlSeconds: int): int {
    now + (if ttlSeconds > 0 then ttlSeconds else 0) * MICROS_PER_SECOND
  }

  function NewDecision(result: Evaluation, request: Request, digest: string, now: Instant): Decision {
    var team := TextOf(Get(request, Team));
    Decision(result.verdict, result.policyDigest, team,
             Strip(Or(Or(TextOf(Get(request, TenantId)), team), team)),
             Or(TextOf(Get(request, Subject)), TextOf(Get(request, Owner))),
             request, digest, result.agentDigest, result.toolsDigest, now)
  }

  function Actor(request: Request): string {
    Or(TextOf(Get(request, Owner)), Or(TextOf(Get(request, Subject)), "system"))
  }

  predicate IdsFit(t: Tables, ids: NewIds) {
    && ids.decision !in t.decisions && ids.approval !in t.approvals
    && ids.created !in t.audit && ids.recorded !in t.audit && ids.created != ids.recorded
  }

  function AddDecision(t: Tables, id: string, d: Decision): Tables {
    t.(decisions := t.decisions[id := d])
  }

  function NewApproval(decisionId: string, now: Instant, expiresAt: Instant): Approval {
    Approval(decisionId, Pending, None, None, now, expiresAt, None, None)
  }

  function AddApproval(t: Tables, id: string, a: Approval): Tables {
    t.(approvals := t.approvals[id := a])
  }

  /** The approval a decision opens, with its audit row. */
  function OpenApproval(t: Tables, request: Request, digest: string, ids: NewIds,
                        expiresAt: Instant, now: Instant): Tables
  {
    AppendAudit(
      AddApproval(t, ids.approval, NewApproval(ids.decision, now, expiresAt)), ids.created,
      AuditEvent(ids.decision, ApprovalCreated, Actor(request), ids.approval, digest, now))
  }

  function PersistedApprovalId(result: Evaluation, ids: NewIds): string {
    if OpensApproval(result) then ids.approval
    else if result.approvalId.Some? then result.approvalId.value else ""
  }

  /** `persist_evaluation`: the decision, the approval it needs and the audit rows, together. */
  function Persist(t: Tables, result: Evaluation, request: Request, digest: string, ids: NewIds,
                   ttlSeconds: int, now: Instant)
    : Result<Tables, StoreError>
  {
    if !IdsFit(t, ids) then Err(Unavailable)
    else if OpensApproval(result) && ExpiryOf(now, ttlSeconds) >= END_OF_TIME then Err(Overflow)
    else
      var t1 := AddDecision(t, ids.decision, NewDecision(result, request, digest, now));
      var t2 := if OpensApproval(result)
                then OpenApproval(t1, request, digest, ids, ExpiryOf(now, ttlSeconds), now) else t1;
      Ok(AppendAudit(t2, ids.recorded, AuditEvent(ids.decision, DecisionRecorded, Actor(request),
                                                  PersistedApprovalId(result, ids), digest, now)))
  }

  /** What a call is about, as its audit rows name it: the owner, else the subject, else the system. */
  predicate ActsAs(request: Request, actor: string) {
    var owner, subject := TextOf(Get(request, Owner)), TextOf(Get(request, Subject));
    && (owner != "" ==> actor == owner)
    && (owner == "" && subject != "" ==> actor == subject)
    && (owner == "" && subject == "" ==> actor == "system")
  }

  /** A decision that stores what was evaluated, for which request and when. */
  ghost predicate Stores(d: Decision, result: Evaluation, request: Request, digest: string, now: Instant) {
    var team, tenant := TextOf(Get(request, Team)), TextOf(Get(request, TenantId));
    var subject, owner := TextOf(Get(request, Subject)), TextOf(Get(request, Owner));
    && d.verdict == result.verdict && d.policyDigest == result.policyDigest
    && d.agentDigest == result.agentDigest && d.toolsDigest == result.toolsDigest
    && d.request == request && d.requestDigest == digest && d.createdAt == now
    && d.team == team && d.tenantId == Strip(if tenant != "" then tenant else team)
    && d.subject == (if subject != "" then subject else owner)
  }

  /** An evaluation that asks for approval and brings none with it. */
  predicate AsksApproval(result: Evaluation) {
    result.verdict.ApprovalRequired? && result.approvalId in {None, Some("")}
  }

  /** One decision more, that stores what was evaluated; one audit row that records it; and, where the
      evaluation asks for approval, one pending approval that expires ttl seconds later and one audit row
      of it. All rows that were there are as they were. */
  ghost predicate Records(t: Tables, t': Tables, result: Evaluation, request: Request, digest: string, ids: NewIds,
                          ttlSeconds: int, now: Instant) {
    var asks := AsksApproval(result);
    && IdsFit(t, ids) && t'.decisions.Keys == t.decisions.Keys + {ids.decision}
    && t'.approvals.Keys == t.approvals.Keys + (if asks then {ids.approval} else {})
    && t'.audit.Keys == t.audit.Keys + {ids.recorded} + (if asks then {ids.created} else {})
    && (forall id :: id in t.decisions ==> t'.decisions[id] == t.decisions[id])
    && (forall id :: id in t.approvals ==> t'.approvals[id] == t.approvals[id])
    && (forall e :: e in t.audit ==> t'.audit[e] == t.audit[e])
    && Stores(t'.decisions[ids.decision], result, request, digest, now)
    && RecordsEvent(t'.audit[ids.recorded], ids, DecisionRecorded, request, digest, now)
    && t'.audit[ids.recorded].approvalId ==
         (if asks then ids.approval else if result.approvalId.Some? then result.approvalId.value else "")
    && (asks ==>
          && RecordsEvent(t'.audit[ids.created], ids, ApprovalCreated, request, digest, now)
          && t'.audit[ids.created].approvalId == ids.approval
          && OpenedBy(t'.approvals[ids.approval], ids.decision, ttlSeconds, now))
  }

  ghost predicate RecordsEvent(e: AuditEvent, ids: NewIds, kind: AuditKind, request: Request, digest: string,
                               now: Instant) {
    e.decisionId == ids.decision && e.kind == kind && ActsAs(request, e.actor) && e.requestDigest == digest
    && e.createdAt == now
  }

  /** A new approval; a negative time to live counts as none. */
  ghost predicate OpenedBy(a: Approval, decisionId: string, ttlSeconds: int, now: Instant) {
    && a.decisionId == decisionId && a.status.Pending? && a.createdAt == now
    && (ttlSeconds >= 0 ==> a.expiresAt == now + ttlSeconds * 1_000_000)
    && (ttlSeconds < 0 ==> a.expiresAt == now)
    && a.reviewer.None? && a.comment.None? && a.resolvedAt.None? && a.usedAt.None?
  }

  lemma NewDecisionStores(result: Evaluation, request: Request, digest: string, now: Instant)
    ensures Stores(NewDecision(result, request, digest, now), result, request, digest, now)
  {
    hide Strip, WellTyped;
  }

  lemma ActorActs(request: Request)
    ensures ActsAs(request, Actor(request))
  {
  }

  lemma EventRecords(ids: NewIds, kind: AuditKind, request: Request, approvalId: string, digest: string, now: Instant)
    ensures RecordsEvent(AuditEvent(ids.decision, kind, Actor(request), approvalId, digest, now), ids, kind, request,
                         digest, now)
  {
    ActorActs(request);
  }

  lemma NewApprovalOpens(decisionId: string, ttlSeconds: int, now: Instant)
    requires ExpiryOf(now, ttlSeconds) < END_OF_TIME
    ensures OpenedBy(NewApproval(decisionId, now, ExpiryOf(now, ttlSeconds)), decisionId, ttlSeconds, now)
  {
  }

  lemma PersistRecords(t: Tables, result: Evaluation, request: Request, digest: string, ids: NewIds,
                       ttlSeconds: int, now: Instant)
    requires Persist(t, result, request, digest, ids, ttlSeconds, now).Ok?
    ensures Records(t, Persist(t, result, request, digest, ids, ttlSeconds, now).value, result, request, digest, ids,
                    ttlSeconds, now)
  {
    hide NewDecision, Actor, Stores, NewApproval, RecordsEvent, OpenedBy;
    NewDecisionStores(result, request, digest, now);
    EventRecords(ids, DecisionRecorded, request, PersistedApprovalId(result, ids), digest, now);
    if AsksApproval(result) {
      EventRecords(ids, ApprovalCreated, request, ids.approval, digest, now);
      NewApprovalOpens(ids.decision, ttlSeconds, now);
    }
  }

  /* What holds of the tables in every run */

  /** A human resolved this row before it expired, and was not the one who asked. */
  ghost predicate ProperlyResolved(a: Approval, d: Decision) {
    && a.resolvedAt.Some? && a.resolvedAt.value < a.expiresAt
    && a.reviewer.Some? && !IsSelf(d, a.reviewer.value)
  }

  /** A row beside the decision it is about. */
  ghost predicate RowOk(a: Approval, d: Decision) {
    && d.verdict.ApprovalRequired?
    && (a.status.Consumed? <==> a.usedAt.Some?)
    && (a.status.Pending? <==> a.resolvedAt.None?)
    && (a.status.Expired? ==> a.expiresAt <= a.resolvedAt.value)
    && (a.status.Approved? || a.status.Rejected? || a.status.Consumed? ==> ProperlyResolved(a, d))
  }

  ghost predicate Invariant(t: Tables) {
    && (forall id :: id in t.approvals ==>
          var a := t.approvals[id]; a.decisionId in t.decisions && RowOk(a, t.decisions[a.decisionId]))
    && (forall i, j :: i in t.approvals && j in t.approvals && i != j ==>
          t.approvals[i].decisionId != t.approvals[j].decisionId)
    && (forall e :: e in t.audit ==> t.audit[e].decisionId in t.decisions)
  }

  /** The transitions of an approval's status; the reflexive and transitive closure is itself. */
  predicate MayBecome(s: ApprovalStatus, s': ApprovalStatus) {
    s == s' || s.Pending? || (s.Approved? && s'.Consumed?)
  }

  /** What any step does to rows: decisions and audit rows never change, approvals keep their identity and
      move forward only, new approvals are pending, and new rows have new identifiers. */
  ghost predicate Evolves(t: Tables, t': Tables, drawn: set<string>) {
    && t'.decisions.Keys <= t.decisions.Keys + drawn
    && t'.approvals.Keys <= t.approvals.Keys + drawn
    && t'.audit.Keys <= t.audit.Keys + drawn
    && (forall id :: id in t.decisions && id in t'.decisions ==> t'.decisions[id] == t.decisions[id])
    && (forall id :: id in t.approvals && id in t'.approvals ==>
          && t'.approvals[id].decisionId == t.approvals[id].decisionId
          && MayBecome(t.approvals[id].status, t'.approvals[id].status))
    && (forall id :: id in t'.approvals && id !in t.approvals ==> t'.approvals[id].status.Pending?)
    && (forall e :: e in t.audit && e in t'.audit ==> t'.audit[e] == t.audit[e])
  }

  lemma EvolvesReflexive(t: Tables)
    ensures Evolves(t, t, {})
  {
  }

  lemma EvolvesTransitive(t0: Tables, t1: Tables, t2: Tables)
    requires Evolves(t0, t1, {}) && Evolves(t1, t2, {})
    ensures Evolves(t0, t2, {})
  {
  }

  /* Each operation keeps the invariant and only evolves the rows */

  lemma ExpireStaleFrame(t: Tables, now: Instant)
    ensures var t' := ExpireStale(t, now);
      t'.decisions == t.decisions && t'.audit == t.audit && t'.approvals.Keys == t.approvals.Keys
  {
  }

  lemma {:induction false} ExpireStaleKeeps(t: Tables, now: Instant)
    requires Invariant(t)
    ensures Invariant(ExpireStale(t, now)) && Evolves(t, ExpireStale(t, now), {})
  {
    var t' := ExpireStale(t, now);
    forall id | id in t.approvals
      ensures RowOk(t'.approvals[id], t.decisions[t.approvals[id].decisionId])
      ensures t'.approvals[id].decisionId == t.approvals[id].decisionId
      ensures MayBecome(t.approvals[id].status, t'.approvals[id].status)
    {
      StaleTestsAgree(t.approvals[id], now);
    }
  }

  /** Replacing one row by a later version of itself. */
  lemma ReplaceKeeps(t: Tables, id: string, b: Approval)
    requires Invariant(t) && id in t.approvals
    requires b.decisionId == t.approvals[id].decisionId && MayBecome(t.approvals[id].status, b.status)
    requires RowOk(b, t.decisions[b.decisionId])
    ensures var t' := t.(approvals := t.approvals[id := b]); Invariant(t') && Evolves(t, t', {})
  {
  }

  lemma {:induction false} ExpireIfNeededKeeps(t: Tables, id: string, now: Instant)
    requires Invariant(t)
    ensures var t' := ExpireIfNeeded(t, id, now);
      && Invariant(t') && Evolves(t, t', {})
      && (id in t'.approvals && t'.approvals[id].status.Pending? ==> now < t'.approvals[id].expiresAt)
  {
    if id in t.approvals {
      StaleTestsAgree(t.approvals[id], now);
      if ParsedStale(t.approvals[id], now) {
        ReplaceKeeps(t, id, ExpireRow(t.approvals[id], now));
      }
    }
  }

  /** A row resolved in time by someone else is as it should be. */
  lemma ResolvedRowOk(t: Tables, id: string, b: Approval)
    requires Invariant(t) && id in t.approvals && t.approvals[id].status.Pending?
    requires b.status.Approved? || b.status.Rejected?
    requires b.resolvedAt.Some? && b.reviewer.Some?
    requires b == t.approvals[id].(status := b.status, reviewer := b.reviewer, comment := b.comment, resolvedAt := b.resolvedAt)
    requires b.resolvedAt.value < b.expiresAt
    requires b.decisionId in t.decisions ==> !IsSelf(t.decisions[b.decisionId], b.reviewer.value)
    ensures b.decisionId in t.decisions && RowOk(b, t.decisions[b.decisionId])
  {
    hide IsSelf;
    assert RowOk(t.approvals[id], t.decisions[t.approvals[id].decisionId]);
  }

  lemma {:induction false} ResolveKeeps(t: Tables, id: string, status: ApprovalStatus, reviewer: string,
                                        comment: string,
                     tenant: Option<string>, now: Instant)
    requires Invariant(t)
    ensures var t' := Resolve(t, id, status, reviewer, comment, tenant, true, now).0;
      Invariant(t') && Evolves(t, t', {})
  {
    hide Invariant, Evolves, RowOk, IsSelf, ExpireIfNeeded, Visible;
    EvolvesReflexive(t);
    ExpireIfNeededKeeps(t, id, now);
    var t1 := ExpireIfNeeded(t, id, now);
    var (t', r) := Resolve(t, id, status, reviewer, comment, tenant, true, now);
    if r.Ok? {
      ResolvedRowOk(t1, id, r.value);
      ReplaceKeeps(t1, id, r.value);
      EvolvesTransitive(t, t1, t');
    }
  }

  lemma ConsumeRowKeeps(t: Tables, id: string, now: Instant)
    requires Invariant(t) && Consumable(t, id)
    ensures Invariant(ConsumeRow(t, id, now)) && Evolves(t, ConsumeRow(t, id, now), {})
  {
    hide Evolves;
    ReplaceKeeps(t, id, t.approvals[id].(status := Consumed, usedAt := Some(now)));
  }

  lemma {:induction false} ConsumeKeeps(t: Tables, id: string, eventId: string, e: AuditEvent, now: Instant)
    requires Invariant(t)
    ensures var t' := ConsumeTransaction(t, id, eventId, e, now).0;
      Invariant(t') && Evolves(t, t', {eventId})
  {
    hide Invariant, MayBecome;
    EvolvesReflexive(t);
    if Consumable(t, id) && AuditFits(t, eventId, e) {
      ConsumeRowKeeps(t, id, now);
      AppendAuditKeeps(ConsumeRow(t, id, now), eventId, e);
    }
  }

  lemma AddDecisionKeeps(t: Tables, id: string, d: Decision)
    requires Invariant(t) && id !in t.decisions
    ensures Invariant(AddDecision(t, id, d))
    ensures forall i :: i in t.approvals ==> t.approvals[i].decisionId != id
  {
  }

  lemma AddApprovalKeeps(t: Tables, id: string, a: Approval)
    requires Invariant(t) && id !in t.approvals && a.decisionId in t.decisions
    requires RowOk(a, t.decisions[a.decisionId])
    requires forall i :: i in t.approvals ==> t.approvals[i].decisionId != a.decisionId
    ensures Invariant(AddApproval(t, id, a))
  {
  }

  lemma AppendAuditKeeps(t: Tables, eventId: string, e: AuditEvent)
    requires Invariant(t) && AuditFits(t, eventId, e)
    ensures Invariant(AppendAudit(t, eventId, e)) && Evolves(t, AppendAudit(t, eventId, e), {eventId})
  {
  }

  lemma OpenApprovalKeeps(t: Tables, request: Request, digest: string, ids: NewIds,
                          expiresAt: Instant, now: Instant)
    requires Invariant(t) && ids.approval !in t.approvals && ids.created !in t.audit
    requires ids.decision in t.decisions && t.decisions[ids.decision].verdict.ApprovalRequired?
    requires forall i :: i in t.approvals ==> t.approvals[i].decisionId != ids.decision
    ensures Invariant(OpenApproval(t, request, digest, ids, expiresAt, now))
  {
    var a := NewApproval(ids.decision, now, expiresAt);
    AddApprovalKeeps(t, ids.approval, a);
    var e := AuditEvent(ids.decision, ApprovalCreated, Actor(request), ids.approval, digest, now);
    AppendAuditKeeps(AddApproval(t, ids.approval, a), ids.created, e);
  }

  lemma PersistKeeps(t: Tables, result: Evaluation, request: Request, digest: string, ids: NewIds,
                     ttlSeconds: int, now: Instant)
    requires Invariant(t) && Persist(t, result, request, digest, ids, ttlSeconds, now).Ok?
    ensures Invariant(Persist(t, result, request, digest, ids, ttlSeconds, now).value)
  {
    var d := NewDecision(result, request, digest, now);
    var t1 := AddDecision(t, ids.decision, d);
    AddDecisionKeeps(t, ids.decision, d);
    var t2 := t1;
    if OpensApproval(result) {
      t2 := OpenApproval(t1, request, digest, ids, ExpiryOf(now, ttlSeconds), now);
      OpenApprovalKeeps(t1, request, digest, ids, ExpiryOf(now, ttlSeconds), now);
    }
    AppendAuditKeeps(t2, ids.recorded, AuditEvent(ids.decision, DecisionRecorded, Actor(request),
                                                  PersistedApprovalId(result, ids), digest, now));
  }

  lemma PersistEvolves(t: Tables, result: Evaluation, request: Request, digest: string, ids: NewIds,
                       ttlSeconds: int, now: Instant)
    requires Persist(t, result, request, digest, ids, ttlSeconds, now).Ok?
    ensures var t' := Persist(t, result, request, digest, ids, ttlSeconds, now).value;
      && Evolves(t, t', {ids.decision, ids.approval, ids.created, ids.recorded})
      && (forall e :: e in t'.audit && e !in t.audit ==> !t'.audit[e].kind.ApprovalConsumed?)
  {
  }
}
