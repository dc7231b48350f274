/** Every interleaving of the remediation calls with each other and with the rest of the service.

    A call of apps/control-api/app/remediation_service.py reads its proposal in one session and
    writes it in a later one, by an update that is not guarded by the status it read; between them
    it may resolve the approval (guarded) and append an audit row. An evaluation is one step here. A
    call may also stop between steps and never continue. The store underneath is that of module
    ApprovalRuns, with all the steps it can take. */
module RemediationRuns {
  import opened Wrappers
  import opened IsoTime
  import opened Binding
  import opened Remediation
  import R = ApprovalRuns
  import StoreTables
  import Drift
  import Text
  import opened Verdicts

  datatype Op =
    | Resolve(approved: bool, reviewer: string, comment: string)
    | Prepare(url: string)
    | Apply(prUrl: Option<string>)
    | Verify(drift: Drift.DriftStatus, probed: bool)

  /** Where a call is; record is the proposal as the call last saw it. */
  datatype Phase =
    | Start
    | Resolving(record: Proposal)
    | Auditing(record: Proposal)
    | Marking(record: Proposal)
    | Writing(record: Proposal)
    | Ended(done: bool)

  datatype Call = Call(id: string, tenant: Option<string>, op: Op, phase: Phase)

  datatype World = World(store: R.World, proposals: map<string, Proposal>, calls: map<nat, Call>)

  const INITIAL := World(R.INITIAL, map[], map[])

  datatype Step =
    | Store(step: R.Step)
    | Create(id: string, tenantId: string, status: Drift.DriftStatus, index: Option<int>, kind: Option<Drift.Kind>)
    | Evaluate(id: string, tenant: Option<string>, now: Instant, result: StoreTables.Evaluation, request: Request,
               ids: StoreTables.NewIds, ttl: int)
    | Begin(k: nat, id: string, tenant: Option<string>, op: Op)
    | Advance(k: nat, now: Instant, eventId: string)

  /** The stage a writing call moves its proposal to. */
  function Target(c: Call): Stage
    requires c.phase.Marking? || c.phase.Writing?
  {
    if c.phase.Marking? then Verifying
    else
      match c.op
      case Resolve(approved, _, _) => Resolution(approved)
      case Prepare(_) => PrCreated
      case Apply(_) => Applied
      case Verify(drift, _) => VerifiedStage(c.phase.record, drift)
  }

  /** The update itself; it sets its own columns whatever they are now. */
  function Written(c: Call, p: Proposal, now: Instant): (p': Proposal)
    requires c.phase.Marking? || c.phase.Writing?
    ensures p'.status == Target(c)
    ensures p'.verdict == p.verdict && p'.approvalId == p.approvalId && p'.decisionId == p.decisionId
    ensures p'.snapshot == p.snapshot
  {
    if c.phase.Marking? then p.(status := Verifying)
    else
      match c.op
      case Resolve(approved, _, _) => p.(status := Resolution(approved))
      case Prepare(url) => WithPr(p, url)
      case Apply(prUrl) => MarkedApplied(p, prUrl, now)
      case Verify(drift, probed) => WithVerification(p, c.phase.record, drift, probed)
  }

  /** What a call does once it has read its proposal: refuse, or go on. */
  function AfterRead(c: Call, p: Proposal): Phase {
    match c.op
    case Resolve(approved, _, _) =>
      if !Allowed(p.status, Resolution(approved)) then Ended(false)
      else if p.approvalId != "" then Resolving(p) else Writing(p)
    case Prepare(_) => if Allowed(p.status, PrCreated) then Writing(p) else Ended(false)
    case Apply(_) => if Allowed(p.status, Applied) then Writing(p) else Ended(false)
    case Verify(_, _) =>
      if p.status.Applied? then Marking(p)
      else if p.status.Verifying? then Writing(p)
      else if Allowed(p.status, Verified) then Writing(p) else Ended(false)
  }

  function SetPhase(w: World, k: nat, phase: Phase): World
    requires k in w.calls
  {
    w.(calls := w.calls[k := w.calls[k].(phase := phase)])
  }

  function ResolveStep(c: Call, record: Proposal, now: Instant): R.Step
    requires c.op.Resolve?
  {
    R.ResolveStep(now, record.approvalId, ReviewStatus(c.op.approved), c.op.reviewer, c.op.comment, None)
  }

  /** Whether `resolve_approval` would succeed now. */
  predicate Resolvable(w: World, c: Call, record: Proposal, now: Instant)
    requires c.op.Resolve?
  {
    StoreTables.Resolve(w.store.t, record.approvalId, ReviewStatus(c.op.approved), c.op.reviewer, c.op.comment,
                        None, true, now).1.Ok?
  }

  /** One session of call k. */
  function Continue(sha: R.Hash, w: World, k: nat, now: Instant, eventId: string): World
    requires k in w.calls
  {
    var c := w.calls[k];
    match c.phase
    case Start =>
      (match Lookup(w.proposals, c.id, c.tenant)
       case None => SetPhase(w, k, Ended(false))
       case Some(p) => SetPhase(w, k, AfterRead(c, p)))
    case Resolving(record) =>
      if !c.op.Resolve? || now < w.store.clock then w
      else
        var w' := w.(store := R.Apply(sha, w.store, ResolveStep(c, record, now)));
        if !Resolvable(w, c, record, now) then SetPhase(w', k, Ended(false))
        else SetPhase(w', k, if record.decisionId != "" then Auditing(record) else Writing(record))
    case Auditing(record) =>
      if !c.op.Resolve? || now < w.store.clock || eventId in w.store.used then w
      else
        var w' := w.(store := R.Apply(sha, w.store, R.AuditStep(now, eventId, record.decisionId, c.op.reviewer)));
        SetPhase(w', k, if StoreTables.AuditFits(w.store.t, eventId, ResolvedEvent(record, c.op.reviewer, now))
                        then Writing(record) else Ended(false))
    case Marking(record) =>
      if c.id !in w.proposals then w
      else SetPhase(Update(w, c, now), k, Writing(record.(status := Verifying)))
    case Writing(record) =>
      if c.id !in w.proposals then w else SetPhase(Update(w, c, now), k, Ended(true))
    case Ended(_) => w
  }

  function Update(w: World, c: Call, now: Instant): World
    requires c.id in w.proposals && (c.phase.Marking? || c.phase.Writing?)
  {
    w.(proposals := w.proposals[c.id := Written(c, w.proposals[c.id], now)])
  }

  /** Whether an evaluation can take place: the proposal is there and only proposed, the identifiers
      drawn are new and not empty, and the transaction commits. The pipeline's result never names an
      approval of its own. */
  predicate CanEvaluate(sha: R.Hash, w: World, s: Step)
    requires s.Evaluate?
  {
    && Lookup(w.proposals, s.id, s.tenant).Some? && Allowed(w.proposals[s.id].status, PolicyEvaluated)
    && w.store.clock <= s.now && R.Drawn(PersistStep(s)) !! w.store.used
    && s.ids.approval != "" && s.ids.decision != "" && s.result.approvalId.None?
    && StoreTables.Persist(w.store.t, s.result, s.request, R.ComputeDigest(sha, s.request), s.ids, s.ttl, s.now).Ok?
  }

  function PersistStep(s: Step): R.Step
    requires s.Evaluate?
  {
    R.PersistStep(s.now, s.result, s.request, s.ids, s.ttl)
  }

  /** A step that cannot be taken changes nothing. */
  function Next(sha: R.Hash, w: World, s: Step): World {
    match s
    case Store(step) => w.(store := R.Apply(sha, w.store, step))
    case Create(id, tenantId, status, index, kind) =>
      var action := Select(Drift.ActionsOf(status), index, kind);
      if id in w.proposals || status.inSync || action.Err? then w
      else w.(proposals := w.proposals[id := NewProposal(tenantId, status, action.value)])
    case Evaluate(id, _, _, result, _, ids, _) =>
      if !CanEvaluate(sha, w, s) then w
      else w.(store := R.Apply(sha, w.store, PersistStep(s)),
              proposals := w.proposals[id := Evaluated(w.proposals[id], result, ids)])
    case Begin(k, id, tenant, op) =>
      if k in w.calls then w else w.(calls := w.calls[k := Call(id, tenant, op, Start)])
    case Advance(k, now, eventId) =>
      if k in w.calls then Continue(sha, w, k, now, eventId) else w
  }

  function After(sha: R.Hash, run: seq<Step>): World
    decreases |run|
  {
    if run == [] then INITIAL else Next(sha, After(sha, run[..|run| - 1]), run[|run| - 1])
  }

  /* Agreement of proposals and approvals */

  /** The approval was resolved this way, as far as its row is still there to tell. */
  predicate Settled(store: R.World, approvalId: string, approved: bool) {
    && approvalId in store.used
    && (approvalId in store.t.approvals ==>
          var s := store.t.approvals[approvalId].status;
          if approved then s.Approved? || s.Consumed? else s.Rejected?)
  }

  predicate Cleared(store: R.World, p: Proposal) {
    p.verdict == Some(Allow) || (p.verdict == Some(ApprovalRequired) && Settled(store, p.approvalId, true))
  }

  predicate Refused(store: R.World, p: Proposal) {
    p.verdict == Some(Block) || (p.verdict == Some(ApprovalRequired) && Settled(store, p.approvalId, false))
  }

  /** The proposal has a decision and an approval to review. */
  predicate Reviewable(store: R.World, p: Proposal) {
    p.decisionId != "" && p.approvalId != "" && p.approvalId in store.used
  }

  /** The stage of a proposal agrees with its verdict and its approval. */
  predicate Agrees(store: R.World, p: Proposal) {
    match p.status
    case Detected => false
    case Proposed => p.verdict.None?
    case PolicyEvaluated => p.verdict == Some(ApprovalRequired) && Reviewable(store, p)
    case Rejected => Refused(store, p)
    case _ => Cleared(store, p)
  }

  /** The call's view of its proposal differs from the proposal at most in what updates change. */
  predicate Sees(w: World, c: Call, record: Proposal) {
    && c.id in w.proposals
    && var p := w.proposals[c.id];
      && !p.status.Proposed?
      && record.verdict == p.verdict && record.approvalId == p.approvalId
      && record.decisionId == p.decisionId && record.snapshot == p.snapshot
  }

  predicate CallOk(w: World, c: Call) {
    match c.phase
    case Start => true
    case Resolving(r) =>
      && c.op.Resolve? && Sees(w, c, r) && r.status.PolicyEvaluated? && r.verdict == Some(ApprovalRequired)
      && Reviewable(w.store, r)
    case Auditing(r) =>
      && c.op.Resolve? && Sees(w, c, r) && r.status.PolicyEvaluated? && r.verdict == Some(ApprovalRequired)
      && Settled(w.store, r.approvalId, c.op.approved)
    case Marking(r) => c.op.Verify? && Sees(w, c, r) && r.status.Applied? && Cleared(w.store, r)
    case Writing(r) =>
      && Sees(w, c, r) && Allowed(r.status, Target(c)) && (c.op.Verify? ==> r.status.Verifying?)
      && if c.op.Resolve? then r.verdict == Some(ApprovalRequired) && Settled(w.store, r.approvalId, c.op.approved)
         else Cleared(w.store, r)
    case Ended(done) =>
      done && c.op.Resolve? ==>
        && c.id in w.proposals && !w.proposals[c.id].status.Proposed?
        && Settled(w.store, w.proposals[c.id].approvalId, c.op.approved)
  }

  /** A call that has resolved the approval of its proposal. */
  predicate HasResolved(c: Call) {
    c.op.Resolve? && (c.phase.Auditing? || c.phase.Writing? || c.phase == Ended(true))
  }

  predicate OneResolution(calls: map<nat, Call>) {
    forall i, j :: i in calls && j in calls && i != j && HasResolved(calls[i]) && HasResolved(calls[j]) ==>
      calls[i].id != calls[j].id
  }

  ghost predicate Inv(sha: R.Hash, w: World) {
    && R.Inv(sha, w.store)
    && (forall id :: id in w.proposals ==> Agrees(w.store, w.proposals[id]))
    && (forall k :: k in w.calls ==> CallOk(w, w.calls[k]))
    && OneResolution(w.calls)
  }

  /** Identifiers stay drawn. */
  lemma ReviewableStays(store: R.World, store': R.World, p: Proposal)
    requires R.Ran(store, store') && Reviewable(store, p)
    ensures Reviewable(store', p)
  {
  }

  /** Whatever the store does, what was settled stays settled. */
  lemma SettledStays(store: R.World, store': R.World, approvalId: string, approved: bool)
    requires R.Ran(store, store') && Settled(store, approvalId, approved)
    ensures Settled(store', approvalId, approved)
  {
  }

  lemma StoreKeeps(sha: R.Hash, w: World, store': R.World)
    requires Inv(sha, w) && R.Ran(w.store, store') && R.Inv(sha, store')
    ensures Inv(sha, w.(store := store'))
  {
    hide R.Inv, R.Ran, Settled, Allowed, Reviewable;
    var w' := w.(store := store');
    forall p | Reviewable(w.store, p) ensures Reviewable(store', p) { ReviewableStays(w.store, store', p); }
    forall approvalId, approved | Settled(w.store, approvalId, approved)
      ensures Settled(store', approvalId, approved)
    {
      SettledStays(w.store, store', approvalId, approved);
    }
    forall k | k in w.calls ensures CallOk(w', w.calls[k]) {
      assert CallOk(w, w.calls[k]);
    }
    forall id | id in w.proposals ensures Agrees(store', w.proposals[id]) {
      assert Agrees(w.store, w.proposals[id]);
    }
  }

  lemma {:induction false} StoreStepKeeps(sha: R.Hash, w: World, s: R.Step)
    requires Inv(sha, w)
    ensures Inv(sha, w.(store := R.Apply(sha, w.store, s)))
  {
    hide Agrees, CallOk, OneResolution, R.Inv, R.Ran, R.Apply;
    R.ApplyKeeps(sha, w.store, s);
    R.ApplyRan(sha, w.store, s);
    StoreKeeps(sha, w, R.Apply(sha, w.store, s));
  }

  lemma SetPhaseKeeps(sha: R.Hash, w: World, k: nat, phase: Phase)
    requires Inv(sha, w) && k in w.calls
    requires CallOk(w, w.calls[k].(phase := phase))
    requires HasResolved(w.calls[k].(phase := phase)) && !HasResolved(w.calls[k]) ==>
      forall j :: j in w.calls && HasResolved(w.calls[j]) ==> w.calls[j].id != w.calls[k].id
    ensures Inv(sha, SetPhase(w, k, phase))
  {
    hide R.Inv, Agrees, HasResolved;
    var w' := SetPhase(w, k, phase);
    forall j | j in w'.calls ensures CallOk(w', w'.calls[j]) {
      assert CallOk(w, w'.calls[j]);
    }
  }

  /** A proposal that agreed with its approval still does after an update. */
  lemma UpdateKeeps(sha: R.Hash, w: World, k: nat, now: Instant)
    requires Inv(sha, w) && k in w.calls && w.calls[k].id in w.proposals
    requires w.calls[k].phase.Marking? || w.calls[k].phase.Writing?
    ensures Inv(sha, Update(w, w.calls[k], now))
  {
    hide R.Inv, Settled, HasResolved, Written, Agrees, OneResolution, Cleared, Refused;
    var c := w.calls[k];
    var w' := Update(w, c, now);
    assert CallOk(w, c);
    WrittenAgrees(w, c, now);
    forall j | j in w'.calls ensures CallOk(w', w'.calls[j]) {
      SeesStill(w, w.calls[j], c, now);
    }
  }

  lemma WrittenAgrees(w: World, c: Call, now: Instant)
    requires (c.phase.Marking? || c.phase.Writing?) && CallOk(w, c)
    ensures Agrees(w.store, Written(c, w.proposals[c.id], now)) && !Target(c).Proposed?
  {
    hide Settled, Drift.Verifies, Written;
  }

  lemma SeesStill(w: World, other: Call, c: Call, now: Instant)
    requires CallOk(w, other) && c.id in w.proposals && (c.phase.Marking? || c.phase.Writing?) && !Target(c).Proposed?
    ensures CallOk(Update(w, c, now), other)
  {
    hide Settled, Written, Target, Allowed;
  }

  lemma PersistDraws(sha: R.Hash, store: R.World, s: Step)
    requires s.Evaluate? && store.clock <= s.now && R.Drawn(PersistStep(s)) !! store.used
    ensures s.ids.approval in R.Apply(sha, store, PersistStep(s)).used
  {
    hide R.Outcome;
  }

  lemma {:induction false} EvaluateKeeps(sha: R.Hash, w: World, s: Step)
    requires Inv(sha, w) && s.Evaluate? && CanEvaluate(sha, w, s)
    ensures Inv(sha, Next(sha, w, s))
  {
    hide R.Inv, R.Apply, Settled, OneResolution, StoreTables.Persist, R.ComputeDigest;
    PersistDraws(sha, w.store, s);
    StoreStepKeeps(sha, w, PersistStep(s));
    var w1 := w.(store := R.Apply(sha, w.store, PersistStep(s)));
    var w' := Next(sha, w, s);
    forall k | k in w'.calls ensures CallOk(w', w'.calls[k]) {
      assert CallOk(w1, w1.calls[k]);
    }
    assert Agrees(w1.store, w'.proposals[s.id]);
  }

  /** Resolving the approval settles it, and shows that no other call has. */
  lemma {:induction false} ResolvingSettles(sha: R.Hash, w: World, k: nat, record: Proposal, now: Instant)
    requires Inv(sha, w) && k in w.calls && w.calls[k].phase == Resolving(record)
    requires w.store.clock <= now && w.calls[k].op.Resolve? && Resolvable(w, w.calls[k], record, now)
    ensures Settled(R.Apply(sha, w.store, ResolveStep(w.calls[k], record, now)), record.approvalId, w.calls[k].op.approved)
    ensures forall j :: j in w.calls && HasResolved(w.calls[j]) ==> w.calls[j].id != w.calls[k].id
  {
    hide Text.Less, Iso, Parse, StoreTables.IsSelf, StoreTables.Visible, Agrees, OneResolution;
    var c := w.calls[k];
    assert CallOk(w, c);
    var a := w.store.t.approvals;
    assert record.approvalId in a && a[record.approvalId].status.Pending?;
    forall j | j in w.calls && HasResolved(w.calls[j]) ensures w.calls[j].id != c.id {
      assert CallOk(w, w.calls[j]);
    }
  }

  lemma {:induction false} ContinueKeeps(sha: R.Hash, w: World, k: nat, now: Instant, eventId: string)
    requires Inv(sha, w) && k in w.calls
    ensures Inv(sha, Continue(sha, w, k, now, eventId))
  {
    hide R.Inv, R.Apply, Settled, Resolvable, OneResolution, StoreTables.AuditFits;
    var c := w.calls[k];
    assert CallOk(w, c);
    match c.phase
    case Start =>
      match Lookup(w.proposals, c.id, c.tenant) {
        case None => SetPhaseKeeps(sha, w, k, Ended(false));
        case Some(p) =>
          assert Agrees(w.store, p);
          SetPhaseKeeps(sha, w, k, AfterRead(c, p));
      }
    case Resolving(record) =>
      if now >= w.store.clock {
        var s := ResolveStep(c, record, now);
        StoreStepKeeps(sha, w, s);
        var w' := w.(store := R.Apply(sha, w.store, s));
        if !Resolvable(w, c, record, now) {
          SetPhaseKeeps(sha, w', k, Ended(false));
        } else {
          ResolvingSettles(sha, w, k, record, now);
          SetPhaseKeeps(sha, w', k, if record.decisionId != "" then Auditing(record) else Writing(record));
        }
      }
    case Auditing(record) =>
      if now >= w.store.clock && eventId !in w.store.used {
        var s := R.AuditStep(now, eventId, record.decisionId, c.op.reviewer);
        StoreStepKeeps(sha, w, s);
        var w' := w.(store := R.Apply(sha, w.store, s));
        assert CallOk(w', c);
        SetPhaseKeeps(sha, w', k, if StoreTables.AuditFits(w.store.t, eventId, ResolvedEvent(record, c.op.reviewer, now))
                                  then Writing(record) else Ended(false));
      }
    case Marking(record) =>
      UpdateKeeps(sha, w, k, now);
      var w' := Update(w, c, now);
      assert CallOk(w', c);
      SetPhaseKeeps(sha, w', k, Writing(record.(status := Verifying)));
    case Writing(record) =>
      UpdateKeeps(sha, w, k, now);
      var w' := Update(w, c, now);
      assert CallOk(w', c);
      SetPhaseKeeps(sha, w', k, Ended(true));
    case Ended(_) =>
  }

  lemma {:induction false} NextKeeps(sha: R.Hash, w: World, s: Step)
    requires Inv(sha, w)
    ensures Inv(sha, Next(sha, w, s))
  {
    hide R.Inv, R.Apply, Select, Settled;
    match s
    case Store(step) => StoreStepKeeps(sha, w, step);
    case Create(id, _, _, _, _) =>
      var w' := Next(sha, w, s);
      forall k | k in w'.calls ensures CallOk(w', w'.calls[k]) { assert CallOk(w, w.calls[k]); }
    case Evaluate(_, _, _, _, _, _, _) => if CanEvaluate(sha, w, s) { EvaluateKeeps(sha, w, s); }
    case Begin(_, _, _, _) =>
      var w' := Next(sha, w, s);
      forall k | k in w'.calls ensures CallOk(w', w'.calls[k]) {
        if k in w.calls { assert CallOk(w, w.calls[k]); }
      }
    case Advance(k, now, eventId) => if k in w.calls { ContinueKeeps(sha, w, k, now, eventId); }
  }

  lemma {:induction false} Reachable(sha: R.Hash, run: seq<Step>)
    ensures Inv(sha, After(sha, run))
    decreases |run|
  {
    if run == [] {
      R.Reachable(sha, []);
    } else {
      Reachable(sha, run[..|run| - 1]);
      NextKeeps(sha, After(sha, run[..|run| - 1]), run[|run| - 1]);
    }
  }

  /** In every run, whatever overlaps: a proposal at approved or later was allowed outright or has an
      approval that is approved or consumed, a rejected one was blocked outright or has an approval
      that is rejected, and one waiting for review has an approval to wait for; an approval row that
      has been purged is no evidence either way. */
  lemma {:induction false} ProposalsAgreeWithApprovals(sha: R.Hash, run: seq<Step>, id: string)
    requires id in After(sha, run).proposals
    ensures Agrees(After(sha, run).store, After(sha, run).proposals[id])
  {
    Reachable(sha, run);
  }

  /** Of all calls that approve or reject one proposal, at most one gets past the approval. */
  lemma {:induction false} AtMostOneResolutionWins(sha: R.Hash, run: seq<Step>, i: nat, j: nat)
    requires var calls := After(sha, run).calls;
      && i in calls && j in calls && calls[i].id == calls[j].id
      && HasResolved(calls[i]) && HasResolved(calls[j])
    ensures i == j
  {
    Reachable(sha, run);
  }

  /** A call gets past the approval when its row is still pending and in time, and the reviewer is not
      the requester; module RemediationReviews says when it also wins. */
  lemma {:induction false} ApprovalYieldsExactlyWhen(w: World, c: Call, record: Proposal, now: Instant)
    requires c.op.Resolve?
    ensures Resolvable(w, c, record, now) <==>
      && record.approvalId in w.store.t.approvals
      && var a := w.store.t.approvals[record.approvalId];
        && a.status.Pending? && now < a.expiresAt
        && !(a.decisionId in w.store.t.decisions && StoreTables.IsSelf(w.store.t.decisions[a.decisionId], c.op.reviewer))
  {
    hide Text.Less, Iso, Parse, StoreTables.IsSelf;
    if record.approvalId in w.store.t.approvals {
      StoreTables.StaleTestsAgree(w.store.t.approvals[record.approvalId], now);
    }
  }

  /* Progress of the stages */

  /** A write to a proposal: the stage its call last saw, the stage it replaces, the stage it sets. */
  datatype Write = Write(seen: Stage, before: Stage, after: Stage)

  function WriteOf(sha: R.Hash, w: World, s: Step): Option<Write> {
    match s
    case Evaluate(id, _, _, result, _, _, _) =>
      if CanEvaluate(sha, w, s) then Some(Write(Proposed, w.proposals[id].status, StageFor(result.verdict))) else None
    case Advance(k, _, _) =>
      if k in w.calls && (w.calls[k].phase.Marking? || w.calls[k].phase.Writing?) && w.calls[k].id in w.proposals then
        var c := w.calls[k];
        Some(Write(c.phase.record.status, w.proposals[c.id].status, Target(c)))
      else None
    case _ => None
  }

  predicate Rises(write: Option<Write>) {
    write.Some? ==> Rank(write.value.before) < Rank(write.value.after)
  }

  /** The stage has not changed since the call last saw it: what a guarded update would check. */
  predicate Undisturbed(write: Option<Write>) {
    write.Some? ==> write.value.before == write.value.seen
  }

  predicate AllRise(sha: R.Hash, run: seq<Step>)
    decreases |run|
  {
    run != [] ==>
      var m := |run| - 1;
      AllRise(sha, run[..m]) && Rises(WriteOf(sha, After(sha, run[..m]), run[m]))
  }

  predicate AllUndisturbed(sha: R.Hash, run: seq<Step>)
    decreases |run|
  {
    run != [] ==>
      var m := |run| - 1;
      AllUndisturbed(sha, run[..m]) && Undisturbed(WriteOf(sha, After(sha, run[..m]), run[m]))
  }

  predicate HasRecord(phase: Phase) {
    phase.Resolving? || phase.Auditing? || phase.Marking? || phase.Writing?
  }

  /** No proposal has fallen behind what a call in progress saw of it. */
  predicate NotBehind(w: World, c: Call) {
    HasRecord(c.phase) && c.id in w.proposals ==>
      var now := w.proposals[c.id].status;
      c.phase.record.status == now || Rank(c.phase.record.status) < Rank(now)
  }

  predicate Progress(w: World) {
    forall k :: k in w.calls ==> NotBehind(w, w.calls[k])
  }

  lemma {:induction false} WriteRisesExactlyWhenUndisturbed(sha: R.Hash, w: World, s: Step)
    requires Inv(sha, w) && Progress(w)
    ensures Rises(WriteOf(sha, w, s)) <==> Undisturbed(WriteOf(sha, w, s))
  {
    hide R.Inv, Agrees, OneResolution, CanEvaluate, Settled;
    if s.Evaluate? {
      assert CanEvaluate(sha, w, s) ==> w.proposals[s.id].status.Proposed? by { CanEvaluateProposed(sha, w, s); }
    } else if s.Advance? && s.k in w.calls {
      assert CallOk(w, w.calls[s.k]) && NotBehind(w, w.calls[s.k]);
    }
  }

  lemma CanEvaluateProposed(sha: R.Hash, w: World, s: Step)
    requires s.Evaluate?
    ensures CanEvaluate(sha, w, s) ==> s.id in w.proposals && w.proposals[s.id].status.Proposed?
  {
    hide StoreTables.Persist, R.Drawn;
  }

  /** Stages that stand still or climb fall behind nothing any call saw. */
  lemma ClimbingKeepsProgress(w: World, w': World)
    requires Progress(w)
    requires forall j :: j in w'.calls ==> (j in w.calls && w'.calls[j] == w.calls[j]) || NotBehind(w', w'.calls[j])
    requires forall id :: id in w'.proposals && id in w.proposals ==>
      w'.proposals[id].status == w.proposals[id].status || Rank(w.proposals[id].status) < Rank(w'.proposals[id].status)
    requires forall j :: j in w.calls && HasRecord(w.calls[j].phase) ==> w.calls[j].id in w.proposals
    ensures Progress(w')
  {
    forall j | j in w'.calls ensures NotBehind(w', w'.calls[j]) {
      if j in w.calls { assert NotBehind(w, w.calls[j]); }
    }
  }

  lemma ContinueOwnProgress(sha: R.Hash, w: World, k: nat, now: Instant, eventId: string)
    requires k in w.calls && NotBehind(w, w.calls[k])
    ensures var w' := Continue(sha, w, k, now, eventId);
      && w'.calls.Keys == w.calls.Keys && (forall j :: j in w.calls && j != k ==> w'.calls[j] == w.calls[j])
      && NotBehind(w', w'.calls[k])
  {
    hide Continue, NotBehind;
    ContinueFrame(sha, w, k, now, eventId);
    ContinueStaysLevel(sha, w, k, now, eventId);
  }

  lemma ContinueFrame(sha: R.Hash, w: World, k: nat, now: Instant, eventId: string)
    requires k in w.calls
    ensures var w' := Continue(sha, w, k, now, eventId);
      w'.calls.Keys == w.calls.Keys && (forall j :: j in w.calls && j != k ==> w'.calls[j] == w.calls[j])
  {
    hide R.Apply, Resolvable, StoreTables.AuditFits, AfterRead, Written;
  }

  lemma ContinueStaysLevel(sha: R.Hash, w: World, k: nat, now: Instant, eventId: string)
    requires k in w.calls && NotBehind(w, w.calls[k])
    ensures var w' := Continue(sha, w, k, now, eventId); k in w'.calls && NotBehind(w', w'.calls[k])
  {
    hide R.Apply, Resolvable, StoreTables.AuditFits, Drift.Verifies, Drift.SnapshotOf, Allowed;
    match w.calls[k].phase
    case Start =>
    case Resolving(_) =>
    case Auditing(_) =>
    case Marking(_) =>
    case Writing(_) =>
    case Ended(_) =>
  }

  lemma ContinueWrites(sha: R.Hash, w: World, k: nat, now: Instant, eventId: string)
    requires k in w.calls
    ensures var c, w' := w.calls[k], Continue(sha, w, k, now, eventId);
      w'.proposals == if (c.phase.Marking? || c.phase.Writing?) && c.id in w.proposals
                      then w.proposals[c.id := Written(c, w.proposals[c.id], now)] else w.proposals
  {
    hide Written, AfterRead, R.Apply, Resolvable, StoreTables.AuditFits;
  }

  lemma AdvanceProgress(sha: R.Hash, w: World, k: nat, now: Instant, eventId: string)
    requires Progress(w) && k in w.calls && Rises(WriteOf(sha, w, Advance(k, now, eventId)))
    requires forall j :: j in w.calls && HasRecord(w.calls[j].phase) ==> w.calls[j].id in w.proposals
    ensures Progress(Continue(sha, w, k, now, eventId))
  {
    hide Continue, Written, Target, NotBehind;
    ContinueOwnProgress(sha, w, k, now, eventId);
    ContinueWrites(sha, w, k, now, eventId);
    ClimbingKeepsProgress(w, Continue(sha, w, k, now, eventId));
  }

  lemma {:induction false} ProgressKeeps(sha: R.Hash, w: World, s: Step)
    requires Inv(sha, w) && Progress(w) && Rises(WriteOf(sha, w, s))
    ensures Progress(Next(sha, w, s))
  {
    hide R.Inv, Agrees, OneResolution, CanEvaluate, Settled, Continue, R.Apply, Select, Allowed, Target;
    forall j | j in w.calls && HasRecord(w.calls[j].phase) ensures w.calls[j].id in w.proposals {
      assert CallOk(w, w.calls[j]);
    }
    if s.Advance? {
      if s.k in w.calls { AdvanceProgress(sha, w, s.k, s.now, s.eventId); }
    } else {
      if s.Evaluate? { CanEvaluateProposed(sha, w, s); }
      ClimbingKeepsProgress(w, Next(sha, w, s));
    }
  }

  lemma {:induction false} RisingRunsProgress(sha: R.Hash, run: seq<Step>)
    requires AllRise(sha, run)
    ensures Progress(After(sha, run))
    decreases |run|
  {
    hide R.Inv, Next, Rises, WriteOf;
    if run != [] {
      var m := |run| - 1;
      RisingRunsProgress(sha, run[..m]);
      Reachable(sha, run[..m]);
      ProgressKeeps(sha, After(sha, run[..m]), run[m]);
    }
  }

  /** The updates are not guarded, so a stage can fall back; but in a run every write raises the rank
      of its proposal exactly when every write finds the stage its call last saw. */
  lemma {:induction false} RankRisesExactlyWhenUndisturbed(sha: R.Hash, run: seq<Step>)
    ensures AllRise(sha, run) <==> AllUndisturbed(sha, run)
    decreases |run|
  {
    hide R.Inv, Next, Rises, Undisturbed, WriteOf;
    if run != [] {
      var m := |run| - 1;
      RankRisesExactlyWhenUndisturbed(sha, run[..m]);
      if AllRise(sha, run[..m]) {
        RisingRunsProgress(sha, run[..m]);
        Reachable(sha, run[..m]);
        WriteRisesExactlyWhenUndisturbed(sha, After(sha, run[..m]), run[m]);
      }
    }
  }

  lemma {:induction false} NextClimbs(sha: R.Hash, w: World, s: Step, id: string)
    requires Inv(sha, w) && Undisturbed(WriteOf(sha, w, s)) && id in w.proposals
    ensures id in Next(sha, w, s).proposals
    ensures var p, p' := w.proposals[id], Next(sha, w, s).proposals[id];
      p' == p || (Rank(p.status) < Rank(p'.status) && !Terminal(p.status))
  {
    hide R.Inv, Agrees, OneResolution, CanEvaluate, Settled, R.Apply, Select, Continue, Written, Target;
    if s.Evaluate? { CanEvaluateProposed(sha, w, s); }
    if s.Advance? && s.k in w.calls {
      var c := w.calls[s.k];
      assert CallOk(w, c);
      ContinueWrites(sha, w, s.k, s.now, s.eventId);
      if c.phase.Marking? || c.phase.Writing? {
        assert Allowed(c.phase.record.status, Target(c)) by { WritesAreAllowed(w, c); }
        TransitionsClimb(c.phase.record.status, Target(c));
      }
    }
  }

  lemma WritesAreAllowed(w: World, c: Call)
    requires CallOk(w, c) && (c.phase.Marking? || c.phase.Writing?)
    ensures Allowed(c.phase.record.status, Target(c))
  {
    hide Settled;
  }

  /** In such a run stages only climb, so no proposal moves for ever, and a terminal one never moves. */
  lemma {:induction false} UndisturbedRunsClimb(sha: R.Hash, run: seq<Step>, more: seq<Step>, id: string)
    requires AllUndisturbed(sha, run + more) && id in After(sha, run).proposals
    ensures id in After(sha, run + more).proposals
    ensures var p, p' := After(sha, run).proposals[id], After(sha, run + more).proposals[id];
      p' == p || (Rank(p.status) < Rank(p'.status) && !Terminal(p.status))
    decreases |more|
  {
    hide R.Inv, Inv, Next, Undisturbed, WriteOf;
    if more == [] {
      assert run + more == run;
    } else {
      var m := |more| - 1;
      var all := run + more;
      assert all[..|all| - 1] == run + more[..m] && all[|all| - 1] == more[m];
      UndisturbedRunsClimb(sha, run, more[..m], id);
      Reachable(sha, run + more[..m]);
      NextClimbs(sha, After(sha, run + more[..m]), more[m], id);
    }
  }

  /* The rank can fall */

  lemma AfterStep(sha: R.Hash, run: seq<Step>, s: Step)
    ensures After(sha, run + [s]) == Next(sha, After(sha, run), s)
  {
    assert (run + [s])[..|run|] == run;
  }

  /** Two verifications of one proposal that overlap: the second to finish overwrites the first. */
  function Overlap(id: string, i: nat, j: nat, first: Drift.DriftStatus, second: Drift.DriftStatus): seq<Step> {
    [Begin(i, id, None, Verify(first, true)), Begin(j, id, None, Verify(second, true)),
     Advance(i, 0, ""), Advance(j, 0, ""), Advance(i, 0, ""), Advance(j, 0, "")]
  }

  /** From any reachable proposal under verification: verified becomes failed, though verified is
      terminal. */
  lemma {:induction false} VerifiedCanBeOverwritten(sha: R.Hash, run: seq<Step>, id: string, i: nat, j: nat,
                                 first: Drift.DriftStatus, second: Drift.DriftStatus)
    requires id in After(sha, run).proposals && After(sha, run).proposals[id].status.Verifying?
    requires i != j && i !in After(sha, run).calls && j !in After(sha, run).calls
    requires Drift.Verifies(first, Some(After(sha, run).proposals[id].snapshot))
    requires !Drift.Verifies(second, Some(After(sha, run).proposals[id].snapshot))
    ensures var more := Overlap(id, i, j, first, second);
      && id in After(sha, run + more[..5]).proposals && After(sha, run + more[..5]).proposals[id].status.Verified?
      && id in After(sha, run + more).proposals && After(sha, run + more).proposals[id].status.Failed?
  {
    hide After, Drift.Verifies, Drift.SnapshotOf, Overlap;
    var more := Overlap(id, i, j, first, second);
    BothRead(sha, run, id, i, j, first, second);
    var w4 := After(sha, run + more[..4]);
    var w5 := Next(sha, w4, more[4]);
    OneMore(sha, run, more, 4);
    assert w5.proposals[id].status.Verified? && w5.calls[j] == w4.calls[j];
    OneMore(sha, run, more, 5);
    assert more[..6] == more;
  }

  /** Both calls have read the proposal before either writes it. */
  lemma BothRead(sha: R.Hash, run: seq<Step>, id: string, i: nat, j: nat,
                 first: Drift.DriftStatus, second: Drift.DriftStatus)
    requires id in After(sha, run).proposals && After(sha, run).proposals[id].status.Verifying?
    requires i != j && i !in After(sha, run).calls && j !in After(sha, run).calls
    ensures var more := Overlap(id, i, j, first, second);
      && |more| == 6 && more[4] == Advance(i, 0, "") && more[5] == Advance(j, 0, "")
      && var w, w4 := After(sha, run), After(sha, run + more[..4]);
        && w4.proposals == w.proposals && i in w4.calls && j in w4.calls
        && w4.calls[i] == Call(id, None, Verify(first, true), Writing(w.proposals[id]))
        && w4.calls[j] == Call(id, None, Verify(second, true), Writing(w.proposals[id]))
  {
    hide After, Continue;
    var more := Overlap(id, i, j, first, second);
    var w0 := After(sha, run);
    assert run + more[..0] == run;
    var w1 := Next(sha, w0, more[0]);
    OneMore(sha, run, more, 0);
    var w2 := Next(sha, w1, more[1]);
    OneMore(sha, run, more, 1);
    var w3 := Next(sha, w2, more[2]);
    StartReads(sha, w2, i);
    OneMore(sha, run, more, 2);
    StartReads(sha, w3, j);
    OneMore(sha, run, more, 3);
  }

  lemma StartReads(sha: R.Hash, w: World, k: nat)
    requires k in w.calls && w.calls[k].phase.Start? && w.calls[k].tenant.None? && w.calls[k].id in w.proposals
    ensures Continue(sha, w, k, 0, "") == SetPhase(w, k, AfterRead(w.calls[k], w.proposals[w.calls[k].id]))
  {
    hide AfterRead;
  }

  lemma OneMore(sha: R.Hash, run: seq<Step>, more: seq<Step>, n: nat)
    requires n < |more|
    ensures After(sha, run + more[..n + 1]) == Next(sha, After(sha, run + more[..n]), more[n])
  {
    hide After, Next;
    AfterStep(sha, run + more[..n], more[n]);
    assert run + more[..n + 1] == run + more[..n] + [more[n]];
  }

  const DRIFTING := Drift.DriftStatus(false, Drift.Differs, [])

  const IN_SYNC := Drift.DriftStatus(true, Drift.MatchesProbes, [])

  /** One call, read and written without interruption. */
  function Calling(k: nat, id: string, op: Op): seq<Step> {
    [Begin(k, id, None, op), Advance(k, 0, ""), Advance(k, 0, "")]
  }

  lemma {:induction false} CallWrites(sha: R.Hash, run: seq<Step>, k: nat, id: string, op: Op)
    requires var w := After(sha, run);
      && k !in w.calls && id in w.proposals
      && var phase := AfterRead(Call(id, None, op, Start), w.proposals[id]); phase.Writing? || phase.Marking?
    ensures var w, w' := After(sha, run), After(sha, run + Calling(k, id, op));
      && w'.calls.Keys == w.calls.Keys + {k} && w'.proposals.Keys == w.proposals.Keys
      && var c := Call(id, None, op, AfterRead(Call(id, None, op, Start), w.proposals[id]));
        w'.proposals[id] == Written(c, w.proposals[id], 0)
  {
    hide After, AfterRead, Written, Continue;
    var more := Calling(k, id, op);
    var w0 := After(sha, run);
    assert run + more[..0] == run && more[..3] == more;
    var w1 := Next(sha, w0, more[0]);
    OneMore(sha, run, more, 0);
    StartReads(sha, w1, k);
    var w2 := Next(sha, w1, more[1]);
    OneMore(sha, run, more, 1);
    ContinueWrites(sha, w2, k, 0, "");
    ContinueOwnCall(sha, w2, k);
    OneMore(sha, run, more, 2);
  }

  lemma ContinueOwnCall(sha: R.Hash, w: World, k: nat)
    requires k in w.calls
    ensures Continue(sha, w, k, 0, "").calls.Keys == w.calls.Keys
  {
    hide AfterRead, Written, R.Apply, Resolvable, StoreTables.AuditFits;
  }

  /** A proposal created and allowed outright. */
  const OPENING: seq<Step> := [
    Create("p", "", DRIFTING, None, None),
    Evaluate("p", None, 0, StoreTables.Evaluation(Allow, "", None, "", ""), map[],
             StoreTables.NewIds("d", "a", "c", "r"), 0)]

  /** Then drafted, applied, and being verified by call 2. */
  const ONWARD :=
    OPENING + Calling(0, "p", Prepare("")) + Calling(1, "p", Apply(None)) + Calling(2, "p", Verify(IN_SYNC, true))

  lemma FirstEvaluationSucceeds(digest: string)
    ensures StoreTables.Persist(StoreTables.EMPTY_TABLES, OPENING[1].result, map[], digest, OPENING[1].ids, 0, 0).Ok?
  {
    hide StoreTables.AppendAudit, StoreTables.AddDecision, StoreTables.NewDecision, StoreTables.OpenApproval,
      StoreTables.Actor;
  }

  lemma CanOpen(sha: R.Hash, w: World)
    requires w.store == R.INITIAL && "p" in w.proposals && w.proposals["p"].status.Proposed?
    ensures CanEvaluate(sha, w, OPENING[1])
  {
    hide StoreTables.Persist, R.ComputeDigest;
    FirstEvaluationSucceeds(R.ComputeDigest(sha, map[]));
  }

  lemma ProposedThenApproved(sha: R.Hash)
    ensures var w := After(sha, OPENING);
      && w.calls == map[] && w.proposals.Keys == {"p"}
      && w.proposals["p"].status.Approved? && w.proposals["p"].snapshot == DRIFTING
  {
    hide After, Select, CanEvaluate, R.Apply, R.ComputeDigest, StoreTables.Persist;
    DriftIsActionable(DRIFTING);
    AfterNothing(sha);
    assert [] + OPENING[..0] == [] && [] + OPENING[..1] == OPENING[..1] && [] + OPENING[..2] == OPENING;
    OneMore(sha, [], OPENING, 0);
    CanOpen(sha, After(sha, OPENING[..1]));
    OneMore(sha, [], OPENING, 1);
  }

  lemma AfterNothing(sha: R.Hash)
    ensures After(sha, []) == INITIAL
  {
  }

  lemma ApprovedThenVerifying(sha: R.Hash)
    ensures var w := After(sha, ONWARD);
      && 3 !in w.calls && 4 !in w.calls && "p" in w.proposals
      && w.proposals["p"].status.Verifying? && w.proposals["p"].snapshot == DRIFTING
  {
    hide After, Drift.Verifies, Drift.SnapshotOf;
    ProposedThenApproved(sha);
    CallWrites(sha, OPENING, 0, "p", Prepare(""));
    var run1 := OPENING + Calling(0, "p", Prepare(""));
    CallWrites(sha, run1, 1, "p", Apply(None));
    var run2 := run1 + Calling(1, "p", Apply(None));
    CallWrites(sha, run2, 2, "p", Verify(IN_SYNC, true));
  }

  /** So there is a run of the service in which a verified proposal becomes failed. */
  lemma RankCanFall(sha: R.Hash)
    ensures exists run, more, id ::
      && id in After(sha, run).proposals && id in After(sha, run + more).proposals
      && After(sha, run).proposals[id].status.Verified? && After(sha, run + more).proposals[id].status.Failed?
  {
    hide After;
    ApprovedThenVerifying(sha);
    var overlap := Overlap("p", 3, 4, IN_SYNC, DRIFTING);
    VerifiedCanBeOverwritten(sha, ONWARD, "p", 3, 4, IN_SYNC, DRIFTING);
    assert ONWARD + overlap == ONWARD + overlap[..5] + overlap[5..];
  }
}
