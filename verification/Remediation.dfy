/** Remediation proposals and the serial lifecycle calls that move them
    (apps/control-api/app/remediation_service.py). Module RemediationRuns interleaves the calls. */
module Remediation {
  import opened Wrappers
  import opened IsoTime
  import opened Binding
  import opened Verdicts
  import Drift
  import Text
  import StoreTables
  import ApprovalRuns
  import DecisionStores

  datatype Stage =
    | Detected | Proposed | PolicyEvaluated | Approved | Rejected
    | PrCreated | Applied | Verifying | Verified | Failed

  datatype Proposal = Proposal(
    tenantId: string, status: Stage, snapshot: Drift.DriftStatus, action: Drift.Action,
    decisionId: string, approvalId: string, verdict: Option<Verdict>,
    prUrl: string, appliedAt: Option<Instant>, verification: Option<Drift.Snapshot>)

  datatype RemediationError =
    | BadTransition | NotFound | InventoryInSync | NothingActionable | IndexOutOfRange | NoSuchKind
    | StoreFailed(error: StoreTables.StoreError)

  /** `_TERMINAL`. */
  predicate Terminal(s: Stage) {
    s.Rejected? || s.Verified? || s.Failed?
  }

  /** `_ALLOWED`. */
  predicate Allowed(from: Stage, to: Stage) {
    match from
    case Detected => to.Proposed?
    case Proposed => to.PolicyEvaluated?
    case PolicyEvaluated => to.Approved? || to.Rejected?
    case Approved => to.PrCreated?
    case PrCreated => to.Applied?
    case Applied => to.Verifying? || to.Verified? || to.Failed?
    case Verifying => to.Verified? || to.Failed?
    case _ => false
  }

  /** How far a proposal has come. */
  function Rank(s: Stage): nat {
    match s
    case Detected => 0
    case Proposed => 1
    case PolicyEvaluated => 2
    case Approved => 3
    case Rejected => 3
    case PrCreated => 4
    case Applied => 5
    case Verifying => 6
    case Verified => 7
    case Failed => 7
  }

  /** The table only leads upwards, and nowhere from a terminal stage. */
  lemma TransitionsClimb(from: Stage, to: Stage)
    requires Allowed(from, to)
    ensures Rank(from) < Rank(to) && !Terminal(from)
  {
  }

  /* Choosing an action */

  predicate Actionable(a: Drift.Action) {
    a.kind.PullModel? || a.kind.UpdateInventory? || a.kind.OpenPullRequest? || a.kind.Reprobe?
  }

  function ActionableOf(actions: seq<Drift.Action>): (r: seq<Drift.Action>)
    ensures forall a :: a in r <==> a in actions && Actionable(a)
  {
    if actions == [] then []
    else
      var r := ActionableOf(actions[..|actions| - 1]);
      assert actions == actions[..|actions| - 1] + [actions[|actions| - 1]];
      if Actionable(actions[|actions| - 1]) then r + [actions[|actions| - 1]] else r
  }

  const PREFERRED := [Drift.PullModel, Drift.UpdateInventory, Drift.Reprobe, Drift.OpenPullRequest]

  predicate HasKind(actions: seq<Drift.Action>, kind: Drift.Kind) {
    exists i :: 0 <= i < |actions| && actions[i].kind == kind
  }

  /** The first action of a kind. */
  function FirstOf(actions: seq<Drift.Action>, kind: Drift.Kind): (a: Option<Drift.Action>)
    ensures a.Some? <==> HasKind(actions, kind)
    ensures a.Some? ==> a.value in actions && a.value.kind == kind
  {
    if actions == [] then None
    else if actions[0].kind == kind then
      assert actions[0].kind == kind;
      Some(actions[0])
    else
      var r := FirstOf(actions[1..], kind);
      assert HasKind(actions, kind) ==> HasKind(actions[1..], kind) by {
        if i :| 0 <= i < |actions| && actions[i].kind == kind { assert actions[1..][i - 1].kind == kind; }
      }
      assert HasKind(actions[1..], kind) ==> HasKind(actions, kind) by {
        if i :| 0 <= i < |actions[1..]| && actions[1..][i].kind == kind { assert actions[i + 1].kind == kind; }
      }
      r
  }

  function FirstPreferred(actions: seq<Drift.Action>, kinds: seq<Drift.Kind>): Option<Drift.Action> {
    if kinds == [] then None
    else if FirstOf(actions, kinds[0]).Some? then FirstOf(actions, kinds[0])
    else FirstPreferred(actions, kinds[1..])
  }

  /** `_select_action`. */
  function Select(actions: seq<Drift.Action>, index: Option<int>, kind: Option<Drift.Kind>)
    : Result<Drift.Action, RemediationError>
  {
    var actionable := ActionableOf(actions);
    if actionable == [] then Err(NothingActionable)
    else if index.Some? then
      if index.value < 0 || index.value >= |actionable| then Err(IndexOutOfRange) else Ok(actionable[index.value])
    else if kind.Some? then
      match FirstOf(actionable, kind.value) { case Some(a) => Ok(a) case None => Err(NoSuchKind) }
    else
      match FirstPreferred(actionable, PREFERRED) { case Some(a) => Ok(a) case None => Ok(actionable[0]) }
  }

  method FindFirst(actions: seq<Drift.Action>, kind: Drift.Kind) returns (a: Option<Drift.Action>)
    ensures a == FirstOf(actions, kind)
  {
    for i := 0 to |actions|
      invariant FirstOf(actions, kind) == FirstOf(actions[i..], kind)
    {
      if actions[i].kind == kind { return Some(actions[i]); }
      assert actions[i..][1..] == actions[i + 1..];
    }
    a := None;
  }

  method SelectAction(status: Drift.DriftStatus, index: Option<int>, kind: Option<Drift.Kind>)
    returns (r: Result<Drift.Action, RemediationError>)
    ensures r == Select(Drift.ActionsOf(status), index, kind)
    ensures Selected(Drift.ActionsOf(status), index, kind, r)
  {
    SelectMeaning(Drift.ActionsOf(status), index, kind);
    hide Selected;
    var actions := Drift.BuildDriftActions(status);
    var actionable := ActionableOf(actions);
    if actionable == [] { return Err(NothingActionable); }
    if index.Some? {
      if index.value < 0 || index.value >= |actionable| { return Err(IndexOutOfRange); }
      return Ok(actionable[index.value]);
    }
    if kind.Some? {
      var found := FindFirst(actionable, kind.value);
      return if found.Some? then Ok(found.value) else Err(NoSuchKind);
    }
    for i := 0 to |PREFERRED|
      invariant FirstPreferred(actionable, PREFERRED) == FirstPreferred(actionable, PREFERRED[i..])
    {
      var found := FindFirst(actionable, PREFERRED[i]);
      if found.Some? { return Ok(found.value); }
      assert PREFERRED[i..][1..] == PREFERRED[i + 1..];
    }
    r := Ok(actionable[0]);
  }

  /* What a selection is, among the suggestions as they stand */

  function ActionableBefore(actions: seq<Drift.Action>, k: nat): set<int> {
    set j | 0 <= j < k && j < |actions| && !actions[j].kind.OpenIssue?
  }

  /** Suggestion k is actionable, and n before it are. Anything but opening an issue is actionable. */
  ghost predicate Nth(actions: seq<Drift.Action>, k: int, n: int) {
    0 <= k < |actions| && !actions[k].kind.OpenIssue? && |ActionableBefore(actions, k)| == n
  }

  /** The first suggestion of a kind. */
  ghost predicate FirstSuch(actions: seq<Drift.Action>, kind: Drift.Kind, a: Drift.Action) {
    exists k :: 0 <= k < |actions| && actions[k] == a && a.kind == kind
                && forall j :: 0 <= j < k ==> actions[j].kind != kind
  }

  /** Concrete repairs of a model come first, and a pull request comes last. */
  function Preference(kind: Drift.Kind): nat {
    match kind
    case PullModel => 0
    case UpdateInventory => 1
    case Reprobe => 2
    case OpenPullRequest => 3
    case OpenIssue => 4
  }

  /** With an index, the actionable suggestion of that number; else, with a kind, the first one of that kind;
      else the first one of the kind preferred among those there are. */
  ghost predicate Selected(actions: seq<Drift.Action>, index: Option<int>, kind: Option<Drift.Kind>,
                           r: Result<Drift.Action, RemediationError>)
  {
    if forall a :: a in actions ==> a.kind.OpenIssue? then r == Err(NothingActionable)
    else if index.Some? then
      && (r.Ok? ==> exists k :: Nth(actions, k, index.value) && actions[k] == r.value)
      && (r.Err? ==> r.error.IndexOutOfRange? && forall k :: !Nth(actions, k, index.value))
    else if kind.Some? then
      && (r.Ok? ==> !kind.value.OpenIssue? && FirstSuch(actions, kind.value, r.value))
      && (r.Err? ==> r.error.NoSuchKind? && (kind.value.OpenIssue? || forall a :: a in actions ==> a.kind != kind.value))
    else
      && r.Ok? && !r.value.kind.OpenIssue? && FirstSuch(actions, r.value.kind, r.value)
      && forall a :: a in actions ==> Preference(r.value.kind) <= Preference(a.kind)
  }

  lemma {:induction false} FirstOfAppend(xs: seq<Drift.Action>, x: Drift.Action, kind: Drift.Kind)
    ensures FirstOf(xs + [x], kind) ==
      if FirstOf(xs, kind).Some? then FirstOf(xs, kind) else if x.kind == kind then Some(x) else None
  {
    if xs != [] {
      FirstOfAppend(xs[1..], x, kind);
      assert (xs + [x])[1..] == xs[1..] + [x];
    }
  }

  lemma {:induction false} FirstOfActionable(actions: seq<Drift.Action>, kind: Drift.Kind)
    ensures FirstOf(ActionableOf(actions), kind) == if kind.OpenIssue? then None else FirstOf(actions, kind)
  {
    hide FirstOf;
    if actions == [] {
      assert ActionableOf(actions) == [];
    } else {
      var m := |actions| - 1;
      FirstOfActionable(actions[..m], kind);
      FirstOfAppend(actions[..m], actions[m], kind);
      FirstOfAppend(ActionableOf(actions[..m]), actions[m], kind);
      assert actions == actions[..m] + [actions[m]];
    }
  }

  lemma {:induction false} FirstOfIsFirst(actions: seq<Drift.Action>, kind: Drift.Kind)
    ensures FirstOf(actions, kind).Some? ==> FirstSuch(actions, kind, FirstOf(actions, kind).value)
    ensures FirstOf(actions, kind).None? ==> forall a :: a in actions ==> a.kind != kind
  {
    if actions != [] && actions[0].kind != kind {
      FirstOfIsFirst(actions[1..], kind);
      if FirstOf(actions, kind).Some? {
        var a := FirstOf(actions, kind).value;
        var k :| 0 <= k < |actions[1..]| && actions[1..][k] == a && a.kind == kind
                 && forall j :: 0 <= j < k ==> actions[1..][j].kind != kind;
        assert actions[k + 1] == a;
        assert forall j :: 0 < j < k + 1 ==> actions[j] == actions[1..][j - 1];
      }
    } else if actions != [] {
      assert actions[0].kind == kind;
    }
  }

  lemma {:induction false} ActionableCount(actions: seq<Drift.Action>, k: nat)
    requires k <= |actions|
    ensures |ActionableOf(actions[..k])| == |ActionableBefore(actions, k)|
  {
    if k > 0 {
      ActionableCount(actions, k - 1);
      assert actions[..k][..k - 1] == actions[..k - 1];
      assert ActionableBefore(actions, k) ==
             ActionableBefore(actions, k - 1) + (if actions[k - 1].kind.OpenIssue? then {} else {k - 1});
    } else {
      assert ActionableBefore(actions, 0) == {};
    }
  }

  /** Where a suggestion stands among the actionable ones. */
  lemma {:induction false} ActionableAt(actions: seq<Drift.Action>, k: nat)
    requires k < |actions| && Actionable(actions[k])
    ensures var n := |ActionableOf(actions[..k])|; n < |ActionableOf(actions)| && ActionableOf(actions)[n] == actions[k]
  {
    var m := |actions| - 1;
    if k < m {
      ActionableAt(actions[..m], k);
      assert actions[..m][..k] == actions[..k];
    }
  }

  lemma {:induction false} ActionableFrom(actions: seq<Drift.Action>, n: nat) returns (k: nat)
    requires n < |ActionableOf(actions)|
    ensures k < |actions| && Actionable(actions[k]) && |ActionableOf(actions[..k])| == n
    ensures ActionableOf(actions)[n] == actions[k]
  {
    var m := |actions| - 1;
    if n < |ActionableOf(actions[..m])| {
      k := ActionableFrom(actions[..m], n);
      assert actions[..m][..k] == actions[..k];
    } else {
      k := m;
    }
  }

  lemma SelectByIndex(actions: seq<Drift.Action>, n: int)
    ensures 0 <= n < |ActionableOf(actions)| ==> exists k :: Nth(actions, k, n) && actions[k] == ActionableOf(actions)[n]
    ensures !(0 <= n < |ActionableOf(actions)|) ==> forall k :: !Nth(actions, k, n)
  {
    hide ActionableOf, ActionableBefore;
    if 0 <= n < |ActionableOf(actions)| {
      var k := ActionableFrom(actions, n);
      ActionableCount(actions, k);
      assert Nth(actions, k, n);
    }
    forall k | Nth(actions, k, n) ensures 0 <= n < |ActionableOf(actions)| {
      ActionableCount(actions, k);
      ActionableAt(actions, k);
    }
  }

  lemma SelectByPreference(actions: seq<Drift.Action>)
    requires ActionableOf(actions) != []
    ensures Selected(actions, None, None, Select(actions, None, None))
  {
    hide FirstOf, ActionableOf, FirstSuch;
    forall kind: Drift.Kind
      ensures FirstOf(ActionableOf(actions), kind) == if kind.OpenIssue? then None else FirstOf(actions, kind)
      ensures FirstOf(actions, kind).Some? ==> FirstSuch(actions, kind, FirstOf(actions, kind).value)
      ensures FirstOf(actions, kind).None? ==> forall a :: a in actions ==> a.kind != kind
    {
      FirstOfActionable(actions, kind);
      FirstOfIsFirst(actions, kind);
    }
    TryInOrder(ActionableOf(actions));
    var x := ActionableOf(actions)[0];
    assert x in ActionableOf(actions);
  }

  lemma TryInOrder(actions: seq<Drift.Action>)
    ensures FirstPreferred(actions, PREFERRED) ==
      if FirstOf(actions, Drift.PullModel).Some? then FirstOf(actions, Drift.PullModel)
      else if FirstOf(actions, Drift.UpdateInventory).Some? then FirstOf(actions, Drift.UpdateInventory)
      else if FirstOf(actions, Drift.Reprobe).Some? then FirstOf(actions, Drift.Reprobe)
      else FirstOf(actions, Drift.OpenPullRequest)
  {
    hide FirstOf;
    var second := PREFERRED[1..];
    var third := second[1..];
    var last := third[1..];
    assert last[0] == Drift.OpenPullRequest && last[1..] == [];
    assert FirstPreferred(actions, last) == FirstOf(actions, Drift.OpenPullRequest);
    assert third[0] == Drift.Reprobe;
    assert FirstPreferred(actions, third) ==
      if FirstOf(actions, Drift.Reprobe).Some? then FirstOf(actions, Drift.Reprobe) else FirstPreferred(actions, last);
    assert second[0] == Drift.UpdateInventory && PREFERRED[0] == Drift.PullModel;
  }

  lemma SelectMeaning(actions: seq<Drift.Action>, index: Option<int>, kind: Option<Drift.Kind>)
    ensures Selected(actions, index, kind, Select(actions, index, kind))
  {
    hide FirstOf, ActionableOf, FirstSuch, Nth, FirstPreferred;
    var actionable := ActionableOf(actions);
    assert actionable == [] <==> forall a :: a in actions ==> a.kind.OpenIssue? by {
      if actionable != [] { assert actionable[0] in actionable; }
    }
    if index.Some? {
      SelectByIndex(actions, index.value);
    } else if kind.Some? {
      FirstOfActionable(actions, kind.value);
      FirstOfIsFirst(actions, kind.value);
    } else if actionable != [] {
      SelectByPreference(actions);
    }
  }

  /** The preference list is tried in order. */
  lemma {:induction false} FirstPreferredMeaning(actions: seq<Drift.Action>, kinds: seq<Drift.Kind>)
    ensures var r := FirstPreferred(actions, kinds);
      && (r.None? ==> forall i :: 0 <= i < |kinds| ==> !HasKind(actions, kinds[i]))
      && (r.Some? ==> r.value in actions && IsFirstOffered(actions, kinds, r.value.kind))
  {
    if kinds != [] && !HasKind(actions, kinds[0]) {
      FirstPreferredMeaning(actions, kinds[1..]);
      var r := FirstPreferred(actions, kinds[1..]);
      if r.Some? {
        var j :| 0 <= j < |kinds[1..]| && kinds[1..][j] == r.value.kind &&
                 forall i :: 0 <= i < j ==> !HasKind(actions, kinds[1..][i]);
        assert kinds[j + 1] == r.value.kind;
        assert forall i :: 0 < i < j + 1 ==> kinds[i] == kinds[1..][i - 1];
      } else {
        assert forall i :: 0 < i < |kinds| ==> kinds[i] == kinds[1..][i - 1];
      }
    }
  }

  /** A kind of the list that is offered when none before it is. */
  predicate IsFirstOffered(actions: seq<Drift.Action>, kinds: seq<Drift.Kind>, kind: Drift.Kind) {
    exists j :: 0 <= j < |kinds| && kinds[j] == kind && forall i :: 0 <= i < j ==> !HasKind(actions, kinds[i])
  }

  /** A drifting status always offers an action; without further instructions the one chosen is an
      actionable suggestion, of the first preferred kind that is offered at all. */
  lemma DriftIsActionable(status: Drift.DriftStatus)
    requires !status.inSync
    ensures var actions := Drift.ActionsOf(status); var r := Select(actions, None, None);
      && r.Ok? && r.value in actions && Actionable(r.value)
      && IsFirstOffered(ActionableOf(actions), PREFERRED, r.value.kind)
  {
    hide FirstOf, HasKind, FirstPreferred, IsFirstOffered, ActionableOf;
    var actions := Drift.ActionsOf(status);
    var actionable := ActionableOf(actions);
    var pr := Drift.Action(Drift.OpenPullRequest, None, None);
    assert actions[|actions| - 1] == pr;
    assert pr in actionable;
    HasKindOf(actionable, pr);
    assert PREFERRED[3] == Drift.OpenPullRequest;
    FirstPreferredMeaning(actionable, PREFERRED);
  }

  lemma HasKindOf(actions: seq<Drift.Action>, a: Drift.Action)
    requires a in actions
    ensures HasKind(actions, a.kind)
  {
    var i :| 0 <= i < |actions| && actions[i] == a;
  }

  /* What each call writes */

  /** `get_remediation_proposal`. */
  function Lookup(ps: map<string, Proposal>, id: string, tenant: Option<string>): Option<Proposal> {
    if id in ps && (tenant.None? || ps[id].tenantId == tenant.value) then Some(ps[id]) else None
  }

  /** The proposal is at a stage, and a caller confined to a tenant is of its tenant. */
  predicate At(ps: map<string, Proposal>, id: string, tenant: Option<string>, stage: Stage) {
    id in ps && ps[id].status == stage && (tenant.Some? ==> ps[id].tenantId == tenant.value)
  }

  function NewProposal(tenantId: string, status: Drift.DriftStatus, action: Drift.Action): Proposal {
    Proposal(Or(tenantId, "platform"), Proposed, status, action, "", "", None, "", None, None)
  }

  /** Where a verdict takes a proposal. */
  function StageFor(v: Verdict): Stage {
    match v
    case Allow => Approved
    case ApprovalRequired => PolicyEvaluated
    case Block => Rejected
  }

  function Evaluated(p: Proposal, result: StoreTables.Evaluation, ids: StoreTables.NewIds): Proposal {
    p.(status := StageFor(result.verdict), decisionId := ids.decision,
       approvalId := StoreTables.PersistedApprovalId(result, ids), verdict := Some(result.verdict))
  }

  function Resolution(approved: bool): Stage {
    if approved then Approved else Rejected
  }

  function ReviewStatus(approved: bool): StoreTables.ApprovalStatus {
    if approved then StoreTables.Approved else StoreTables.Rejected
  }

  function ResolvedEvent(p: Proposal, reviewer: string, now: Instant): StoreTables.AuditEvent {
    StoreTables.AuditEvent(p.decisionId, StoreTables.RemediationResolved, reviewer, "", "", now)
  }

  /** Whether a review gets through: the approval, where there is one, is resolved, and then the audit
      row fits. */
  predicate Reviewed(t: StoreTables.Tables, p: Proposal, approved: bool, reviewer: string, comment: string,
                     eventId: string, now: Instant)
  {
    p.approvalId != "" ==>
      var (t', r) := StoreTables.Resolve(t, p.approvalId, ReviewStatus(approved), reviewer, comment, None, true, now);
      r.Ok? && (p.decisionId != "" ==> StoreTables.AuditFits(t', eventId, ResolvedEvent(p, reviewer, now)))
  }

  function WithPr(p: Proposal, prUrl: string): Proposal {
    p.(status := PrCreated, prUrl := prUrl)
  }

  function MarkedApplied(p: Proposal, prUrl: Option<string>, now: Instant): Proposal {
    p.(status := Applied, appliedAt := Some(now), prUrl := if prUrl.Some? then prUrl.value else p.prUrl)
  }

  function VerifiedStage(record: Proposal, drift: Drift.DriftStatus): Stage {
    if Drift.Verifies(drift, Some(record.snapshot)) then Verified else Failed
  }

  function WithVerification(p: Proposal, record: Proposal, drift: Drift.DriftStatus, probed: bool): Proposal {
    p.(status := VerifiedStage(record, drift),
       verification := Some(Drift.SnapshotOf(drift, Some(record.snapshot), probed)))
  }

  /* The service */

  class RemediationService {
    const store: DecisionStores.DecisionStore
    var proposals: map<string, Proposal>

    constructor (store: DecisionStores.DecisionStore)
      ensures this.store == store && proposals == map[]
    {
      this.store := store;
      proposals := map[];
    }

    /** Opens a proposal for a drifting inventory, at stage proposed. The identifier is new. */
    method CreateFromDrift(id: string, tenantId: string, status: Drift.DriftStatus,
                           index: Option<int>, kind: Option<Drift.Kind>)
      returns (r: Result<Proposal, RemediationError>)
      requires id !in proposals
      modifies this
      ensures r.Ok? <==> !status.inSync && Select(Drift.ActionsOf(status), index, kind).Ok?
      ensures r.Ok? ==> r.value == NewProposal(tenantId, status, Select(Drift.ActionsOf(status), index, kind).value)
      ensures r.Ok? ==>
        && r.value.status.Proposed? && r.value.tenantId == (if tenantId != "" then tenantId else "platform")
        && r.value.snapshot == status && Selected(Drift.ActionsOf(status), index, kind, Ok(r.value.action))
        && r.value.decisionId == r.value.approvalId == "" && r.value.verdict.None? && r.value.appliedAt.None?
        && r.value.verification.None?
      ensures proposals == if r.Ok? then old(proposals)[id := r.value] else old(proposals)
    {
      hide Selected;
      if status.inSync { return Err(InventoryInSync); }
      var action := SelectAction(status, index, kind);
      if action.Err? { return Err(action.error); }
      var p := NewProposal(tenantId, status, action.value);
      proposals := proposals[id := p];
      r := Ok(p);
    }

    /** Records an evaluation of the remediation and moves on by its verdict. */
    method EvaluatePolicy(id: string, tenant: Option<string>, result: StoreTables.Evaluation, request: Request,
                          ids: StoreTables.NewIds, ttlSeconds: int, now: Instant)
      returns (r: Result<Proposal, RemediationError>)
      modifies this, store
      ensures r.Ok? ==>
        && id in old(proposals) && old(proposals)[id].status.Proposed?
        && proposals == old(proposals)[id := r.value] && r.value == Evaluated(old(proposals)[id], result, ids)
        && Rank(old(proposals)[id].status) < Rank(r.value.status)
      ensures r.Ok? ==>
        && (result.verdict.Allow? ==> r.value.status.Approved?)
        && (result.verdict.ApprovalRequired? ==> r.value.status.PolicyEvaluated?)
        && (result.verdict.Block? ==> r.value.status.Rejected?)
        && r.value.verdict == Some(result.verdict) && r.value.decisionId == ids.decision
        && (StoreTables.AsksApproval(result) ==> r.value.approvalId == ids.approval)
        && StoreTables.Records(old(store.Tables()), store.Tables(), result, request, store.sha(Payload(request)), ids,
                               ttlSeconds, now)
      ensures r.Err? ==> proposals == old(proposals) && store.Tables() == old(store.Tables())
      ensures var p := StoreTables.Persist(old(store.Tables()), result, request,
                                           ApprovalRuns.ComputeDigest(store.sha, request), ids, ttlSeconds, now);
        && (r.Ok? <==> At(old(proposals), id, tenant, Proposed) && p.Ok?)
        && (r.Ok? ==> store.Tables() == p.value)
    {
      hide StoreTables.Persist, StoreTables.Records, StoreTables.IdsFit, ApprovalRuns.ComputeDigest;
      var record := Lookup(proposals, id, tenant);
      if record.None? { return Err(NotFound); }
      if !Allowed(record.value.status, PolicyEvaluated) { return Err(BadTransition); }
      var persisted := store.PersistEvaluation(result, request, ids, ttlSeconds, now);
      if persisted.Err? { return Err(StoreFailed(persisted.error)); }
      proposals := proposals[id := Evaluated(proposals[id], result, ids)];
      r := Ok(proposals[id]);
    }

    /** Resolves the approval and then the proposal. It succeeds exactly for a proposal waiting for
        review whose approval can be resolved now and whose decision can take the audit row; else the
        proposal stays where it is. */
    method ResolveProposal(id: string, approved: bool, reviewer: string, comment: string,
                           tenant: Option<string>, eventId: string, now: Instant)
      returns (r: Result<Proposal, RemediationError>)
      modifies this, store
      ensures r.Ok? <==>
        && At(old(proposals), id, tenant, PolicyEvaluated)
        && Reviewed(old(store.Tables()), old(proposals)[id], approved, reviewer, comment, eventId, now)
      ensures r.Ok? ==>
        && id in old(proposals) && old(proposals)[id].status.PolicyEvaluated?
        && proposals == old(proposals)[id := r.value]
        && r.value == old(proposals)[id].(status := if approved then Approved else Rejected)
        && (r.value.approvalId != "" ==>
              && r.value.approvalId in old(store.approvals)
              && old(store.approvals)[r.value.approvalId].status.Pending?
              && now < old(store.approvals)[r.value.approvalId].expiresAt
              && r.value.approvalId in store.approvals
              && store.approvals[r.value.approvalId].status ==
                   (if approved then StoreTables.Approved else StoreTables.Rejected)
              && store.approvals[r.value.approvalId].reviewer == Some(reviewer)
              && (r.value.decisionId != "" ==>
                    && eventId in store.audit && store.audit == old(store.audit)[eventId := store.audit[eventId]]
                    && store.audit[eventId].decisionId == r.value.decisionId
                    && store.audit[eventId].kind.RemediationResolved?
                    && store.audit[eventId].actor == reviewer && store.audit[eventId].createdAt == now))
      ensures r.Ok? ==> Rank(old(proposals)[id].status) < Rank(r.value.status)
      ensures r.Err? ==> proposals == old(proposals)
    {
      hide StoreTables.Resolve, StoreTables.SelfReview, StoreTables.OwnedBy, StoreTables.Expires;
      var record := Lookup(proposals, id, tenant);
      if record.None? { return Err(NotFound); }
      var p := record.value;
      if !Allowed(p.status, Resolution(approved)) { return Err(BadTransition); }
      if p.approvalId != "" {
        var resolved := store.ResolveApproval(p.approvalId, ReviewStatus(approved), reviewer, comment, None, true, now);
        if resolved.Err? { return Err(StoreFailed(resolved.error)); }
        if p.decisionId != "" {
          var logged := store.AppendAuditMeta(eventId, ResolvedEvent(p, reviewer, now));
          if !logged { return Err(StoreFailed(StoreTables.Unavailable)); }
        }
      }
      proposals := proposals[id := proposals[id].(status := Resolution(approved))];
      r := Ok(proposals[id]);
    }

    method PreparePrDraft(id: string, tenant: Option<string>, prUrl: string)
      returns (r: Result<Proposal, RemediationError>)
      modifies this
      ensures r.Ok? <==> At(old(proposals), id, tenant, Approved)
      ensures r.Ok? ==>
        && r.value == old(proposals)[id].(status := PrCreated, prUrl := prUrl)
        && proposals == old(proposals)[id := r.value]
      ensures r.Ok? ==> Rank(old(proposals)[id].status) < Rank(r.value.status)
      ensures r.Err? ==> proposals == old(proposals)
    {
      var record := Lookup(proposals, id, tenant);
      if record.None? { return Err(NotFound); }
      if !Allowed(record.value.status, PrCreated) { return Err(BadTransition); }
      proposals := proposals[id := WithPr(proposals[id], prUrl)];
      r := Ok(proposals[id]);
    }

    method MarkApplied(id: string, tenant: Option<string>, prUrl: Option<string>, now: Instant)
      returns (r: Result<Proposal, RemediationError>)
      modifies this
      ensures r.Ok? <==> At(old(proposals), id, tenant, PrCreated)
      ensures r.Ok? ==>
        && r.value.status.Applied? && r.value.appliedAt == Some(now)
        && r.value.prUrl == (if prUrl.Some? then prUrl.value else old(proposals)[id].prUrl)
        && r.value == old(proposals)[id].(status := r.value.status, appliedAt := r.value.appliedAt, prUrl := r.value.prUrl)
        && proposals == old(proposals)[id := r.value]
      ensures r.Ok? ==> Rank(old(proposals)[id].status) < Rank(r.value.status)
      ensures r.Err? ==> proposals == old(proposals)
    {
      var record := Lookup(proposals, id, tenant);
      if record.None? { return Err(NotFound); }
      if !Allowed(record.value.status, Applied) { return Err(BadTransition); }
      proposals := proposals[id := MarkedApplied(proposals[id], prUrl, now)];
      r := Ok(proposals[id]);
    }

    /** Marks the proposal as being verified, compares the drift found with the stored snapshot, and
        ends the proposal: verified exactly when the drift verifies against the snapshot. */
    method VerifyRuntime(id: string, tenant: Option<string>, drift: Drift.DriftStatus, probed: bool)
      returns (r: Result<Proposal, RemediationError>)
      modifies this
      ensures r.Ok? <==> At(old(proposals), id, tenant, Applied) || At(old(proposals), id, tenant, Verifying)
      ensures r.Ok? ==>
        var p := old(proposals)[id];
        && r.value == WithVerification(p, p, drift, probed) && proposals == old(proposals)[id := r.value]
        && (r.value.status.Verified? <==> Drift.Verifies(drift, Some(p.snapshot)))
        && Terminal(r.value.status)
      ensures r.Ok? ==> Rank(old(proposals)[id].status) < Rank(r.value.status)
      ensures r.Err? ==> proposals == old(proposals)
    {
      hide Drift.SnapshotOf, Drift.Verifies;
      var record := Lookup(proposals, id, tenant);
      if record.None? { return Err(NotFound); }
      if record.value.status.Applied? {
        proposals := proposals[id := proposals[id].(status := Verifying)];
      } else if !record.value.status.Verifying? {
        if !Allowed(record.value.status, Verified) { return Err(BadTransition); }
      }
      var s := Drift.BuildVerificationSnapshot(drift, Some(record.value.snapshot), probed);
      var stage := if s.outcome.Verified? then Verified else Failed;
      proposals := proposals[id := proposals[id].(status := stage, verification := Some(s))];
      r := Ok(proposals[id]);
    }
  }
}
