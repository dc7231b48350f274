/** Every interleaving of approval grants with the rest of the service.

    A call of `approval_grants_allow` (apps/control-api/app/durable_governance.py:99-173) reads the
    approval, the decision and the capability pins in sessions of their own and only then consumes
    the approval in one transaction. Between these steps other calls may resolve, expire, purge,
    record or consume. One step here is one session or transaction; it reads the clock once, and
    the clock does not go back. Identifiers are drawn at random and so never repeat. */
module ApprovalRuns {
  import opened Wrappers
  import opened Text
  import opened IsoTime
  import opened Binding
  import opened StoreTables
  import Retention

  /** SHA-256 of the canonical JSON of a payload; nothing is assumed of it. */
  type Hash = Request -> string

  function ComputeDigest(sha: Hash, r: Request): string {
    sha(Payload(r))
  }

  /** The digest a decision was approved for. */
  function ApprovedDigest(sha: Hash, d: Decision): string {
    if d.requestDigest != "" then d.requestDigest else ComputeDigest(sha, d.request)
  }

  /** Two pins agree unless both are set and differ. */
  predicate Compatible(now: string, approved: string) {
    now == "" || approved == "" || now == approved
  }

  /** The digest checks on the decision read. */
  predicate Matches(sha: Hash, d: Decision, request: Request, policyDigest: string) {
    && ApprovedDigest(sha, d) != ""
    && ComputeDigest(sha, request) == ApprovedDigest(sha, d)
    && Compatible(policyDigest, d.policyDigest)
  }

  predicate PinsMatch(d: Decision, agentDigest: string, toolsDigest: string) {
    Compatible(agentDigest, d.agentDigest) && Compatible(toolsDigest, d.toolsDigest)
  }

  /** A decision authorises a call for a request of the digest it was made for, under a policy, an agent
      contract and a set of tools that are each the decision's own, or unknown on one side. */
  predicate Authorises(sha: Hash, d: Decision, request: Request, policyDigest: string, agentDigest: string,
                       toolsDigest: string)
  {
    var approved := if d.requestDigest != "" then d.requestDigest else sha(Payload(d.request));
    && approved != "" && sha(Payload(request)) == approved
    && (policyDigest == "" || d.policyDigest == "" || policyDigest == d.policyDigest)
    && (agentDigest == "" || d.agentDigest == "" || agentDigest == d.agentDigest)
    && (toolsDigest == "" || d.toolsDigest == "" || toolsDigest == d.toolsDigest)
  }

  lemma AuthorisesMeaning(sha: Hash, d: Decision, request: Request, policyDigest: string, agentDigest: string,
                          toolsDigest: string)
    ensures Authorises(sha, d, request, policyDigest, agentDigest, toolsDigest) <==>
            Matches(sha, d, request, policyDigest) && PinsMatch(d, agentDigest, toolsDigest)
  {
  }

  function ConsumedEvent(sha: Hash, decisionId: string, approvalId: string, request: Request, now: Instant)
    : AuditEvent
  {
    AuditEvent(decisionId, ApprovalConsumed, Actor(request), approvalId, ComputeDigest(sha, request), now)
  }

  /** Where a call is, and what it has read. */
  datatype Phase =
    | ReadingApproval
    | ReadingDecision(decisionId: string)
    | ReadingPins(decisionId: string, decision: Decision)
    | Consuming(decisionId: string, decision: Decision, agentDigest: string, toolsDigest: string)
    | Returned(granted: bool)
    | Raised

  datatype Call = Call(approvalId: string, request: Request, policyDigest: string, phase: Phase)

  /** The tables, the clock, the identifiers drawn so far, every audit row ever written, and the
      grant calls begun so far. */
  datatype World = World(
    t: Tables, clock: Instant, used: set<string>, log: map<string, AuditEvent>, calls: map<nat, Call>)

  const INITIAL := World(EMPTY_TABLES, 0, {}, map[], map[])

  /** What can happen next. The digests of `CallStep` are those of whatever capability contracts
      are active when the call reads its pins; activations may change them at any time. */
  datatype Step =
    | PersistStep(now: Instant, result: Evaluation, request: Request, ids: NewIds, ttl: int)
    | ResolveStep(now: Instant, id: string, status: ApprovalStatus, reviewer: string, comment: string,
                  tenant: Option<string>)
    | ReadStep(now: Instant, id: string)
    | ExpireStep(now: Instant)
    | PurgeStep(now: Instant, retentionDays: int, dryRun: bool, limit: int, selected: seq<string>)
    | AuditStep(now: Instant, eventId: string, decisionId: string, actor: string)
    | BeginStep(k: nat, approvalId: string, request: Request, policyDigest: string)
    | CallStep(k: nat, now: Instant, agentDigest: string, toolsDigest: string, eventId: string)

  /** The world after tables become t' at time now, having drawn new identifiers. */
  function Put(w: World, t': Tables, now: Instant, drawn: set<string>): World {
    w.(t := t', clock := now, used := w.used + drawn, log := w.log + t'.audit)
  }

  function SetPhase(w: World, k: nat, phase: Phase): World
    requires k in w.calls
  {
    w.(calls := w.calls[k := w.calls[k].(phase := phase)])
  }

  /** One step of call k. */
  function Advance(sha: Hash, w: World, k: nat, now: Instant, agentDigest: string, toolsDigest: string,
                   eventId: string): World
    requires k in w.calls
  {
    var c := w.calls[k];
    match c.phase
    case ReadingApproval =>
      var t1 := ExpireIfNeeded(w.t, c.approvalId, now);
      var phase := match Lookup(t1, c.approvalId, None) {
        case Some(a) =>
          if a.status.Approved? && a.usedAt.None? then ReadingDecision(a.decisionId) else Returned(false)
        case None => Returned(false)
      };
      SetPhase(Put(w, t1, now, {}), k, phase)
    case ReadingDecision(id) =>
      if id !in w.t.decisions then SetPhase(w, k, Returned(false))
      else if !Matches(sha, w.t.decisions[id], c.request, c.policyDigest) then SetPhase(w, k, Returned(false))
      else SetPhase(w, k, ReadingPins(id, w.t.decisions[id]))
    case ReadingPins(id, d) =>
      SetPhase(w, k, if PinsMatch(d, agentDigest, toolsDigest) then Consuming(id, d, agentDigest, toolsDigest)
                     else Returned(false))
    case Consuming(id, d, _, _) =>
      var e := ConsumedEvent(sha, id, c.approvalId, c.request, now);
      var (t', r) := ConsumeTransaction(w.t, c.approvalId, eventId, e, now);
      SetPhase(Put(w, t', now, {eventId}), k,
               match r { case Ok(granted) => Returned(granted) case Err(_) => Raised })
    case Returned(_) => w
    case Raised => w
  }

  /** The identifiers a step of the environment draws. */
  function Drawn(s: Step): set<string> {
    match s
    case PersistStep(_, _, _, ids, _) => {ids.decision, ids.approval, ids.created, ids.recorded}
    case AuditStep(_, eventId, _, _) => {eventId}
    case _ => {}
  }

  /** What a step of the environment makes of the tables. */
  function Outcome(sha: Hash, t: Tables, s: Step): Tables {
    match s
    case PersistStep(now, result, request, ids, ttl) =>
      (match Persist(t, result, request, ComputeDigest(sha, request), ids, ttl, now)
       case Ok(t') => t'
       case Err(_) => t)
    case ResolveStep(now, id, status, reviewer, comment, tenant) =>
      Resolve(t, id, status, reviewer, comment, tenant, true, now).0
    case ReadStep(now, id) => ExpireIfNeeded(t, id, now)
    case ExpireStep(now) => ExpireStale(t, now)
    case PurgeStep(now, days, dryRun, limit, selected) =>
      Retention.Purge(t, days, dryRun, limit, selected, now).0
    case AuditStep(now, eventId, decisionId, actor) =>
      var e := AuditEvent(decisionId, RemediationResolved, actor, "", "", now);
      if AuditFits(t, eventId, e) then AppendAudit(t, eventId, e) else t
    case _ => t
  }

  /** A step the environment cannot take changes nothing. */
  function Apply(sha: Hash, w: World, s: Step): World {
    match s
    case BeginStep(k, approvalId, request, policyDigest) =>
      if k in w.calls then w
      else w.(calls := w.calls[k := Call(approvalId, request, policyDigest, ReadingApproval)])
    case CallStep(k, now, agentDigest, toolsDigest, eventId) =>
      if now < w.clock || k !in w.calls || eventId in w.used then w
      else Advance(sha, w, k, now, agentDigest, toolsDigest, eventId)
    case _ =>
      if s.now < w.clock || !(Drawn(s) !! w.used) then w
      else Put(w, Outcome(sha, w.t, s), s.now, Drawn(s))
  }

  /** The world after any run. */
  function After(sha: Hash, run: seq<Step>): World
    decreases |run|
  {
    if run == [] then INITIAL else Apply(sha, After(sha, run[..|run| - 1]), run[|run| - 1])
  }

  /* The invariant */

  function Granted(w: World): set<nat> {
    set k | k in w.calls && w.calls[k].phase == Returned(true)
  }

  function ConsumedEvents(log: map<string, AuditEvent>): set<string> {
    set e | e in log && log[e].kind.ApprovalConsumed?
  }

  /** The approval a call is about is about the decision it has read. */
  ghost predicate Linked(w: World, approvalId: string, decisionId: string) {
    && approvalId in w.used && decisionId in w.used
    && (approvalId in w.t.approvals ==> w.t.approvals[approvalId].decisionId == decisionId)
  }

  ghost predicate CallOk(sha: Hash, w: World, c: Call) {
    match c.phase
    case ReadingDecision(id) => Linked(w, c.approvalId, id)
    case ReadingPins(id, d) =>
      && Linked(w, c.approvalId, id) && Matches(sha, d, c.request, c.policyDigest)
      && (id in w.t.decisions ==> w.t.decisions[id] == d)
    case Consuming(id, d, agentDigest, toolsDigest) =>
      && Linked(w, c.approvalId, id) && Matches(sha, d, c.request, c.policyDigest)
      && PinsMatch(d, agentDigest, toolsDigest)
      && (id in w.t.decisions ==> w.t.decisions[id] == d)
    case Returned(granted) =>
      granted ==>
        && c.approvalId in w.used
        && (c.approvalId in w.t.approvals ==> w.t.approvals[c.approvalId].status.Consumed?)
    case _ => true
  }

  ghost predicate Inv(sha: Hash, w: World) {
    && Invariant(w.t)
    && w.t.decisions.Keys <= w.used && w.t.approvals.Keys <= w.used && w.log.Keys <= w.used
    && (forall e :: e in w.t.audit ==> e in w.log && w.log[e] == w.t.audit[e])
    && (forall k :: k in w.calls ==> CallOk(sha, w, w.calls[k]))
    && (forall i, j :: i in Granted(w) && j in Granted(w) && i != j ==>
          w.calls[i].approvalId != w.calls[j].approvalId)
    && |Granted(w)| == |ConsumedEvents(w.log)|
  }

  /** Steps that evolve the tables without consuming anything keep the invariant. */
  lemma PutKeeps(sha: Hash, w: World, t': Tables, now: Instant, drawn: set<string>)
    requires Inv(sha, w) && Invariant(t') && Evolves(w.t, t', drawn) && drawn !! w.used
    requires forall e :: e in t'.audit && e !in w.t.audit ==> !t'.audit[e].kind.ApprovalConsumed?
    ensures Inv(sha, Put(w, t', now, drawn))
    ensures Granted(Put(w, t', now, drawn)) == Granted(w)
  {
    var w' := Put(w, t', now, drawn);
    assert ConsumedEvents(w'.log) == ConsumedEvents(w.log);
    assert Granted(w') == Granted(w);
    hide CallOk, Invariant, Granted, ConsumedEvents;
    forall k | k in w'.calls ensures CallOk(sha, w', w'.calls[k]) {
      CallSurvives(sha, w, w', drawn, w.calls[k]);
    }
  }

  lemma SetPhaseKeeps(sha: Hash, w: World, k: nat, phase: Phase)
    requires Inv(sha, w) && k in w.calls && k !in Granted(w) && phase != Returned(true)
    requires CallOk(sha, w, w.calls[k].(phase := phase))
    ensures Inv(sha, SetPhase(w, k, phase)) && Granted(SetPhase(w, k, phase)) == Granted(w)
  {
    var w' := SetPhase(w, k, phase);
    assert Granted(w') == Granted(w);
    forall i | i in w'.calls ensures CallOk(sha, w', w'.calls[i]) {
      if i != k { assert CallOk(sha, w, w.calls[i]); }
    }
  }

  /** What holds when a call is granted: the approval was granted by someone other than the
      requester before it expired and was never used, its decision still exists, and that
      decision was approved for this very request and policy, and for the pins the call has read. */
  ghost predicate Justified(sha: Hash, w: World, c: Call) {
    && c.phase.Consuming? && c.approvalId in w.t.approvals
    && var a := w.t.approvals[c.approvalId];
      && a.status.Approved? && a.usedAt.None? && a.decisionId in w.t.decisions
      && ProperlyResolved(a, w.t.decisions[a.decisionId])
      && Matches(sha, w.t.decisions[a.decisionId], c.request, c.policyDigest)
      && PinsMatch(w.t.decisions[a.decisionId], c.phase.agentDigest, c.phase.toolsDigest)
  }

  /** What other calls have read survives any evolution of the tables. */
  lemma CallSurvives(sha: Hash, w: World, w': World, drawn: set<string>, c: Call)
    requires Inv(sha, w) && CallOk(sha, w, c)
    requires Evolves(w.t, w'.t, drawn) && drawn !! w.used && w'.used == w.used + drawn
    ensures CallOk(sha, w', c)
  {
  }

  lemma GrantIsJustified(sha: Hash, w: World, k: nat, eventId: string)
    requires Inv(sha, w) && k in w.calls && w.calls[k].phase.Consuming? && eventId !in w.used
    requires Consumable(w.t, w.calls[k].approvalId)
    ensures Justified(sha, w, w.calls[k])
    ensures w.calls[k].phase.decisionId in w.t.decisions && eventId !in w.t.audit
  {
    assert CallOk(sha, w, w.calls[k]);
  }

  /** The world after the consuming transaction of call k. */
  function Grant(sha: Hash, w: World, k: nat, decisionId: string, now: Instant, eventId: string): World
    requires k in w.calls && w.calls[k].approvalId in w.t.approvals
  {
    var c := w.calls[k];
    var e := ConsumedEvent(sha, decisionId, c.approvalId, c.request, now);
    SetPhase(Put(w, AppendAudit(ConsumeRow(w.t, c.approvalId, now), eventId, e), now, {eventId}),
             k, Returned(true))
  }

  lemma LogGrows(log: map<string, AuditEvent>, eventId: string, e: AuditEvent)
    requires eventId !in log && e.kind.ApprovalConsumed?
    ensures |ConsumedEvents(log[eventId := e])| == |ConsumedEvents(log)| + 1
  {
    assert ConsumedEvents(log[eventId := e]) == ConsumedEvents(log) + {eventId};
  }

  lemma LogIsUpdated(log: map<string, AuditEvent>, audit: map<string, AuditEvent>, eventId: string, e: AuditEvent)
    requires forall x :: x in audit ==> x in log && log[x] == audit[x]
    ensures log + audit[eventId := e] == log[eventId := e]
  {
  }

  lemma GrantedGrows(w: World, w': World, k: nat)
    requires k in w.calls && w'.calls == w.calls[k := w.calls[k].(phase := Returned(true))]
    ensures Granted(w') == Granted(w) + {k}
  {
  }

  lemma GrantCounts(sha: Hash, w: World, k: nat, decisionId: string, now: Instant, eventId: string)
    requires k in w.calls && k !in Granted(w) && eventId !in w.log && w.calls[k].approvalId in w.t.approvals
    requires forall e :: e in w.t.audit ==> e in w.log && w.log[e] == w.t.audit[e]
    requires |Granted(w)| == |ConsumedEvents(w.log)|
    ensures var w' := Grant(sha, w, k, decisionId, now, eventId);
      Granted(w') == Granted(w) + {k} && |Granted(w')| == |ConsumedEvents(w'.log)|
  {
    hide ConsumedEvents, ComputeDigest, Actor;
    var c := w.calls[k];
    var e := ConsumedEvent(sha, decisionId, c.approvalId, c.request, now);
    var w' := Grant(sha, w, k, decisionId, now, eventId);
    LogIsUpdated(w.log, w.t.audit, eventId, e);
    LogGrows(w.log, eventId, e);
    GrantedGrows(w, w', k);
  }

  lemma {:induction false} GrantCallsOk(sha: Hash, w: World, k: nat, decisionId: string, now: Instant, eventId: string)
    requires Inv(sha, w) && k in w.calls && eventId !in w.used && Consumable(w.t, w.calls[k].approvalId)
    requires AuditFits(w.t, eventId, ConsumedEvent(sha, decisionId, w.calls[k].approvalId, w.calls[k].request, now))
    ensures var w' := Grant(sha, w, k, decisionId, now, eventId);
      Invariant(w'.t) && forall i :: i in w'.calls ==> CallOk(sha, w', w'.calls[i])
  {
    hide RowOk, Invariant, Matches, ConsumedEvents, Granted, ComputeDigest, Actor;
    var c := w.calls[k];
    var e := ConsumedEvent(sha, decisionId, c.approvalId, c.request, now);
    ConsumeKeeps(w.t, c.approvalId, eventId, e, now);
    var w' := Grant(sha, w, k, decisionId, now, eventId);
    forall i | i in w'.calls ensures CallOk(sha, w', w'.calls[i]) {
      if i != k { CallSurvives(sha, w, w', {eventId}, w.calls[i]); }
    }
  }

  /** An approval that can still be consumed has granted no call. */
  lemma ConsumableNotGranted(sha: Hash, w: World, approvalId: string)
    requires Inv(sha, w) && Consumable(w.t, approvalId)
    ensures forall i :: i in Granted(w) ==> w.calls[i].approvalId != approvalId
  {
    forall i | i in Granted(w) ensures w.calls[i].approvalId != approvalId {
      assert CallOk(sha, w, w.calls[i]);
    }
  }

  lemma GrantFrame(sha: Hash, w: World, k: nat, decisionId: string, now: Instant, eventId: string)
    requires k in w.calls && w.calls[k].approvalId in w.t.approvals
    requires forall e :: e in w.t.audit ==> e in w.log && w.log[e] == w.t.audit[e]
    ensures var w' := Grant(sha, w, k, decisionId, now, eventId);
      && w'.t.decisions == w.t.decisions && w'.t.approvals.Keys == w.t.approvals.Keys
      && w'.used == w.used + {eventId} && w'.log.Keys == w.log.Keys + {eventId}
      && (forall e :: e in w'.t.audit ==> e in w'.log && w'.log[e] == w'.t.audit[e])
      && w'.calls == w.calls[k := w.calls[k].(phase := Returned(true))]
  {
    hide ComputeDigest, Actor;
  }

  /** The consuming step, when the guarded update matches. */
  lemma {:induction false} GrantKeeps(sha: Hash, w: World, k: nat, now: Instant, eventId: string)
    requires Inv(sha, w) && k in w.calls && w.calls[k].phase.Consuming? && eventId !in w.used
    requires Consumable(w.t, w.calls[k].approvalId)
    ensures var w' := Grant(sha, w, k, w.calls[k].phase.decisionId, now, eventId);
      Inv(sha, w') && Granted(w') == Granted(w) + {k}
  {
    hide CallOk, Invariant, Grant, ConsumedEvents, Justified;
    var decisionId := w.calls[k].phase.decisionId;
    GrantIsJustified(sha, w, k, eventId);
    GrantCallsOk(sha, w, k, decisionId, now, eventId);
    GrantFrame(sha, w, k, decisionId, now, eventId);
    GrantCounts(sha, w, k, decisionId, now, eventId);
    ConsumableNotGranted(sha, w, w.calls[k].approvalId);
  }

  lemma ConsumingAdvances(sha: Hash, w: World, k: nat, now: Instant, eventId: string)
    requires k in w.calls && w.calls[k].phase.Consuming? && Consumable(w.t, w.calls[k].approvalId)
    requires w.calls[k].phase.decisionId in w.t.decisions && eventId !in w.t.audit
    ensures Advance(sha, w, k, now, "", "", eventId) ==
            Grant(sha, w, k, w.calls[k].phase.decisionId, now, eventId)
  {
  }

  lemma NotConsumingAdvances(sha: Hash, w: World, k: nat, now: Instant, eventId: string)
    requires k in w.calls && w.calls[k].phase.Consuming? && !Consumable(w.t, w.calls[k].approvalId)
    ensures Advance(sha, w, k, now, "", "", eventId) == SetPhase(Put(w, w.t, now, {eventId}), k, Returned(false))
  {
  }

  /** The tables and a call's phase, changed in one step that consumes nothing. */
  lemma {:induction false} PutPhaseKeeps(sha: Hash, w: World, t': Tables, now: Instant, drawn: set<string>, k: nat,
                                         phase: Phase)
    requires Inv(sha, w) && Invariant(t') && Evolves(w.t, t', drawn) && drawn !! w.used
    requires t'.audit == w.t.audit && k in w.calls && k !in Granted(w) && phase != Returned(true)
    requires CallOk(sha, Put(w, t', now, drawn), w.calls[k].(phase := phase))
    ensures var w' := SetPhase(Put(w, t', now, drawn), k, phase); Inv(sha, w') && Granted(w') == Granted(w)
  {
    PutKeeps(sha, w, t', now, drawn);
    SetPhaseKeeps(sha, Put(w, t', now, drawn), k, phase);
  }

  lemma {:induction false} ReadApprovalKeeps(sha: Hash, w: World, k: nat, now: Instant)
    requires Inv(sha, w) && k in w.calls && w.calls[k].phase.ReadingApproval?
    ensures var w' := Advance(sha, w, k, now, "", "", ""); Inv(sha, w') && Granted(w') == Granted(w)
  {
    hide ExpireIfNeeded, Invariant, Evolves, Granted, ConsumedEvents, Matches;
    var c := w.calls[k];
    var t1 := ExpireIfNeeded(w.t, c.approvalId, now);
    ExpireIfNeededKeeps(w.t, c.approvalId, now);
    ExpireIfNeededFrame(w.t, c.approvalId, now);
    var w' := Advance(sha, w, k, now, "", "", "");
    var phase := w'.calls[k].phase;
    if phase.ReadingDecision? { ApprovalHasDecision(t1, c.approvalId); }
    NotGranted(w, k);
    PutPhaseKeeps(sha, w, t1, now, {}, k, phase);
  }

  lemma NotGranted(w: World, k: nat)
    requires k in w.calls && !w.calls[k].phase.Returned?
    ensures k !in Granted(w)
  {
  }

  lemma ExpireIfNeededFrame(t: Tables, id: string, now: Instant)
    ensures var t' := ExpireIfNeeded(t, id, now);
      t'.decisions == t.decisions && t'.audit == t.audit && t'.approvals.Keys == t.approvals.Keys
  {
    hide ParsedStale;
  }

  lemma ApprovalHasDecision(t: Tables, id: string)
    requires Invariant(t) && id in t.approvals
    ensures t.approvals[id].decisionId in t.decisions
  {
  }

  lemma {:induction false} AdvanceKeeps(sha: Hash, w: World, k: nat, now: Instant, agentDigest: string,
                                        toolsDigest: string,
                     eventId: string)
    requires Inv(sha, w) && k in w.calls && eventId !in w.used
    ensures var w' := Advance(sha, w, k, now, agentDigest, toolsDigest, eventId);
      && Inv(sha, w')
      && (Granted(w') == Granted(w) || (Granted(w') == Granted(w) + {k} && Justified(sha, w, w.calls[k])))
  {
    hide Invariant, Matches, PinsMatch, Linked, ExpireIfNeeded, Lookup, ConsumeTransaction, ConsumedEvents, Justified;
    var c := w.calls[k];
    var w' := Advance(sha, w, k, now, agentDigest, toolsDigest, eventId);
    match c.phase
    case ReadingApproval =>
      ReadApprovalKeeps(sha, w, k, now);
    case ReadingDecision(_) =>
      assert CallOk(sha, w, c);
      SetPhaseKeeps(sha, w, k, w'.calls[k].phase);
    case ReadingPins(_, _) =>
      assert CallOk(sha, w, c);
      SetPhaseKeeps(sha, w, k, w'.calls[k].phase);
    case Consuming(_, _, _, _) =>
      if Consumable(w.t, c.approvalId) {
        GrantIsJustified(sha, w, k, eventId);
        GrantKeeps(sha, w, k, now, eventId);
        ConsumingAdvances(sha, w, k, now, eventId);
      } else {
        NotConsumingAdvances(sha, w, k, now, eventId);
        PutPhaseKeeps(sha, w, w.t, now, {eventId}, k, Returned(false));
      }
    case Returned(_) =>
    case Raised =>
  }

  /** No step of the environment consumes an approval. */
  lemma {:induction false} OutcomeKeeps(sha: Hash, t: Tables, s: Step)
    requires Invariant(t)
    ensures var t' := Outcome(sha, t, s);
      && Invariant(t') && Evolves(t, t', Drawn(s))
      && (forall e :: e in t'.audit && e !in t.audit ==> !t'.audit[e].kind.ApprovalConsumed?)
  {
    match s
    case PersistStep(now, result, request, ids, ttl) =>
      var digest := ComputeDigest(sha, request);
      if Persist(t, result, request, digest, ids, ttl, now).Ok? {
        PersistKeeps(t, result, request, digest, ids, ttl, now);
        PersistEvolves(t, result, request, digest, ids, ttl, now);
      }
    case ResolveStep(now, id, status, reviewer, comment, tenant) =>
      ResolveKeeps(t, id, status, reviewer, comment, tenant, now);
    case ReadStep(now, id) => ExpireIfNeededKeeps(t, id, now);
    case ExpireStep(now) => ExpireStaleKeeps(t, now);
    case PurgeStep(now, days, dryRun, limit, selected) =>
      Retention.PurgeKeeps(t, days, dryRun, limit, selected, now);
    case AuditStep(now, eventId, decisionId, actor) =>
      var e := AuditEvent(decisionId, RemediationResolved, actor, "", "", now);
      if AuditFits(t, eventId, e) { AppendAuditKeeps(t, eventId, e); }
    case BeginStep(k, approvalId, request, policyDigest) =>
    case CallStep(k, now, agentDigest, toolsDigest, eventId) =>
  }

  /** What a step of the environment comes to. */
  lemma EnvironmentApplies(sha: Hash, w: World, s: Step)
    requires !s.CallStep?
    ensures s.BeginStep? ==>
      var w' := Apply(sha, w, s);
      && w'.t == w.t && w'.used == w.used && w'.log == w.log && w.calls.Keys <= w'.calls.Keys
      && (forall k :: k in w.calls ==> w'.calls[k] == w.calls[k])
      && (forall k :: k in w'.calls && k !in w.calls ==> w'.calls[k].phase.ReadingApproval?)
    ensures !s.BeginStep? ==>
      Apply(sha, w, s) ==
        if s.now < w.clock || !(Drawn(s) !! w.used) then w else Put(w, Outcome(sha, w.t, s), s.now, Drawn(s))
  {
    hide Outcome, Put, Advance;
  }

  lemma {:induction false} EnvironmentKeeps(sha: Hash, w: World, s: Step)
    requires Inv(sha, w) && !s.CallStep?
    ensures Inv(sha, Apply(sha, w, s)) && Granted(Apply(sha, w, s)) == Granted(w)
  {
    assert Invariant(w.t);
    hide Inv, Outcome, Invariant, Evolves, Granted, Apply, Put;
    EnvironmentApplies(sha, w, s);
    if s.BeginStep? {
      TickKeeps(sha, w, Apply(sha, w, s));
    } else if w.clock <= s.now && Drawn(s) !! w.used {
      OutcomeKeeps(sha, w.t, s);
      PutKeeps(sha, w, Outcome(sha, w.t, s), s.now, Drawn(s));
    }
  }

  /** Steps that leave the tables and the calls in progress alone. */
  lemma TickKeeps(sha: Hash, w: World, w': World)
    requires Inv(sha, w)
    requires w'.t == w.t && w'.used == w.used && w'.log == w.log && w.calls.Keys <= w'.calls.Keys
    requires forall k :: k in w.calls ==> w'.calls[k] == w.calls[k]
    requires forall k :: k in w'.calls && k !in w.calls ==> w'.calls[k].phase.ReadingApproval?
    ensures Inv(sha, w') && Granted(w') == Granted(w)
  {
    assert Granted(w') == Granted(w);
    forall k | k in w'.calls ensures CallOk(sha, w', w'.calls[k]) {
      if k in w.calls { assert CallOk(sha, w, w.calls[k]); }
    }
  }

  /** Every step keeps the invariant, and grants at most the call that takes it, justifiably. */
  lemma {:induction false} ApplyKeeps(sha: Hash, w: World, s: Step)
    requires Inv(sha, w)
    ensures var w' := Apply(sha, w, s);
      && Inv(sha, w')
      && (Granted(w') == Granted(w) ||
          (s.CallStep? && s.k in w.calls && Granted(w') == Granted(w) + {s.k}
           && Justified(sha, w, w.calls[s.k])))
  {
    if s.CallStep? {
      if w.clock <= s.now && s.k in w.calls && s.eventId !in w.used {
        AdvanceKeeps(sha, w, s.k, s.now, s.agentDigest, s.toolsDigest, s.eventId);
      }
    } else {
      EnvironmentKeeps(sha, w, s);
    }
  }

  lemma {:induction false} Reachable(sha: Hash, run: seq<Step>)
    ensures Inv(sha, After(sha, run))
    decreases |run|
  {
    if run == [] {
      assert Granted(INITIAL) == {} && ConsumedEvents(INITIAL.log) == {};
    } else {
      Reachable(sha, run[..|run| - 1]);
      ApplyKeeps(sha, After(sha, run[..|run| - 1]), run[|run| - 1]);
    }
  }

  /* The results */

  /** In every run, no approval grants two calls, and as many calls were granted as
      `approval_consumed` events were written. */
  lemma {:induction false} NoApprovalGrantsTwice(sha: Hash, run: seq<Step>)
    ensures var w := After(sha, run);
      && (forall i, j :: i in Granted(w) && j in Granted(w) && w.calls[i].approvalId == w.calls[j].approvalId ==>
            i == j)
      && |Granted(w)| == |ConsumedEvents(w.log)|
  {
    Reachable(sha, run);
  }

  /** A call becomes granted only by a step before which its grant is justified. */
  lemma {:induction false} GrantsAreJustified(sha: Hash, run: seq<Step>, s: Step, k: nat)
    ensures var w := After(sha, run);
      k !in Granted(w) && k in Granted(After(sha, run + [s])) ==> k in w.calls && Justified(sha, w, w.calls[k])
  {
    Reachable(sha, run);
    ApplyKeeps(sha, After(sha, run), s);
    AfterStep(sha, run, s);
  }

  /** The approval rows of every run: consumed exactly when used, pending exactly when unresolved,
      approved or rejected in time by someone other than the requester, and each the only one of
      an existing decision that required it. */
  lemma {:induction false} ApprovalsStayConsistent(sha: Hash, run: seq<Step>)
    ensures Invariant(After(sha, run).t)
  {
    Reachable(sha, run);
  }

  ghost predicate Ran(w: World, w': World) {
    && w.used <= w'.used
    && (forall id :: id in w.t.approvals && id in w'.t.approvals ==>
          MayBecome(w.t.approvals[id].status, w'.t.approvals[id].status))
    && (forall id :: id in w.used && id !in w.t.approvals ==> id !in w'.t.approvals)
  }

  lemma PutRan(w: World, t': Tables, now: Instant, drawn: set<string>)
    requires Evolves(w.t, t', drawn) && drawn !! w.used
    ensures Ran(w, Put(w, t', now, drawn))
  {
  }

  lemma {:induction false} AdvanceRan(sha: Hash, w: World, k: nat, now: Instant, agentDigest: string,
                                      toolsDigest: string,
                   eventId: string)
    requires Inv(sha, w) && k in w.calls && eventId !in w.used
    ensures Ran(w, Advance(sha, w, k, now, agentDigest, toolsDigest, eventId))
  {
    var c := w.calls[k];
    match c.phase
    case ReadingApproval =>
      ExpireIfNeededKeeps(w.t, c.approvalId, now);
      PutRan(w, ExpireIfNeeded(w.t, c.approvalId, now), now, {});
    case Consuming(id, _, _, _) =>
      var e := ConsumedEvent(sha, id, c.approvalId, c.request, now);
      ConsumeKeeps(w.t, c.approvalId, eventId, e, now);
      PutRan(w, ConsumeTransaction(w.t, c.approvalId, eventId, e, now).0, now, {eventId});
    case _ =>
  }

  lemma {:induction false} ApplyRan(sha: Hash, w: World, s: Step)
    requires Inv(sha, w)
    ensures Ran(w, Apply(sha, w, s))
  {
    hide Outcome, Invariant, Evolves, Advance, CallOk, Granted, ConsumedEvents;
    if s.CallStep? {
      if w.clock <= s.now && s.k in w.calls && s.eventId !in w.used {
        AdvanceRan(sha, w, s.k, s.now, s.agentDigest, s.toolsDigest, s.eventId);
      }
    } else if !s.BeginStep? && w.clock <= s.now && Drawn(s) !! w.used {
      OutcomeKeeps(sha, w.t, s);
      PutRan(w, Outcome(sha, w.t, s), s.now, Drawn(s));
    }
  }

  lemma AfterStep(sha: Hash, run: seq<Step>, s: Step)
    ensures After(sha, run + [s]) == Apply(sha, After(sha, run), s)
  {
    assert (run + [s])[..|run|] == run;
  }

  lemma RanTransitive(w0: World, w1: World, w2: World)
    requires Ran(w0, w1) && Ran(w1, w2) && w0.t.approvals.Keys <= w0.used
    ensures Ran(w0, w2)
  {
  }

  lemma {:induction false} RanOneMore(sha: Hash, w: World, run: seq<Step>, s: Step)
    requires w.t.approvals.Keys <= w.used && Ran(w, After(sha, run))
    ensures Ran(w, After(sha, run + [s]))
  {
    var w1 := After(sha, run);
    Reachable(sha, run);
    ApplyRan(sha, w1, s);
    AfterStep(sha, run, s);
    RanTransitive(w, w1, Apply(sha, w1, s));
  }

  /** Over any continuation of any run an approval's status only moves forward, from pending to
      approved, rejected or expired and from approved to consumed; and an approval that has been
      purged never comes back. */
  lemma {:induction false} StatusOnlyMovesForward(sha: Hash, run: seq<Step>, more: seq<Step>)
    ensures Ran(After(sha, run), After(sha, run + more))
    decreases |more|
  {
    hide Invariant, CallOk, Granted, ConsumedEvents, Apply;
    if more == [] {
      assert run + more == run;
    } else {
      var m := |more| - 1;
      StatusOnlyMovesForward(sha, run, more[..m]);
      Reachable(sha, run);
      RanOneMore(sha, After(sha, run), run + more[..m], more[m]);
      assert run + more == run + more[..m] + [more[m]];
    }
  }
}
