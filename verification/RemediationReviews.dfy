/** Which of the interleaved calls that approve or reject one proposal wins
    (apps/control-api/app/remediation_service.py:188-228).

    A review resolves the approval in one session, appends an audit row in a second, and moves the
    proposal in a third. It wins when it gets through all three. */
module RemediationReviews {
  import opened Wrappers
  import opened IsoTime
  import opened Binding
  import opened Verdicts
  import opened Remediation
  import opened RemediationRuns
  import R = ApprovalRuns
  import Drift
  import Retention
  import StoreTables
  import Text

  /** The world before step i of a run. */
  function Before(sha: R.Hash, run: seq<Step>, i: nat): World
    requires i <= |run|
  {
    After(sha, run[..i])
  }

  lemma Stepwise(sha: R.Hash, run: seq<Step>, i: nat)
    requires i < |run|
    ensures Before(sha, run, i + 1) == Next(sha, Before(sha, run, i), run[i])
  {
    hide Next, After;
    RemediationRuns.AfterStep(sha, run[..i], run[i]);
    assert run[..i + 1] == run[..i] + [run[i]];
  }

  predicate Reviews(c: Call, id: string) {
    c.op.Resolve? && c.id == id
  }

  /** At step i, call k holds its approval session on this proposal. */
  predicate ApprovalSession(sha: R.Hash, run: seq<Step>, i: nat, k: nat, id: string) {
    && i < |run| && run[i].Advance? && run[i].k == k
    && var w := Before(sha, run, i);
      && k in w.calls && Reviews(w.calls[k], id) && w.calls[k].phase.Resolving? && w.store.clock <= run[i].now
  }

  function ApprovalOf(sha: R.Hash, run: seq<Step>, i: nat, k: nat): string
    requires i < |run| && k in Before(sha, run, i).calls && Before(sha, run, i).calls[k].phase.Resolving?
  {
    Before(sha, run, i).calls[k].phase.record.approvalId
  }

  /** There the approval is still pending and in time. */
  predicate FindsOpen(sha: R.Hash, run: seq<Step>, i: nat, k: nat, id: string)
    requires ApprovalSession(sha, run, i, k, id)
  {
    var t, a := Before(sha, run, i).store.t, ApprovalOf(sha, run, i, k);
    a in t.approvals && t.approvals[a].status.Pending? && run[i].now < t.approvals[a].expiresAt
  }

  /** The reviewer is the one who asked, whom the session refuses and who leaves the approval open. */
  predicate ByRequester(sha: R.Hash, run: seq<Step>, i: nat, k: nat, id: string)
    requires ApprovalSession(sha, run, i, k, id)
  {
    var w, a := Before(sha, run, i), ApprovalOf(sha, run, i, k);
    && a in w.store.t.approvals && w.store.t.approvals[a].decisionId in w.store.t.decisions
    && StoreTables.IsSelf(w.store.t.decisions[w.store.t.approvals[a].decisionId], w.calls[k].op.reviewer)
  }

  /** The first approval session on the proposal that is not held for the requester. */
  ghost predicate FirstByAnother(sha: R.Hash, run: seq<Step>, i: nat, k: nat, id: string) {
    && ApprovalSession(sha, run, i, k, id) && !ByRequester(sha, run, i, k, id)
    && forall j: nat, m: nat | j < i && ApprovalSession(sha, run, j, m, id) :: ByRequester(sha, run, j, m, id)
  }

  /** At step j, call k holds its audit session. */
  predicate AuditSession(sha: R.Hash, run: seq<Step>, j: nat, k: nat, id: string) {
    && j < |run| && run[j].Advance? && run[j].k == k
    && var w := Before(sha, run, j);
      && k in w.calls && Reviews(w.calls[k], id) && w.calls[k].phase.Auditing?
      && w.store.clock <= run[j].now && run[j].eventId !in w.store.used
  }

  /** There the decision that the audit row refers to has not been purged. */
  predicate DecisionThere(sha: R.Hash, run: seq<Step>, j: nat, k: nat, id: string)
    requires AuditSession(sha, run, j, k, id)
  {
    Before(sha, run, j).calls[k].phase.record.decisionId in Before(sha, run, j).store.t.decisions
  }

  predicate Wins(w: World, k: nat, id: string) {
    k in w.calls && Reviews(w.calls[k], id) && w.calls[k].phase == Ended(true)
  }

  predicate AllEnded(w: World, id: string) {
    forall k :: k in w.calls && Reviews(w.calls[k], id) ==> w.calls[k].phase.Ended?
  }

  /* What one world leads to */

  /** The call has its audit row, and only the update is left, or not even that. */
  predicate Through(phase: Phase) {
    phase.Writing? || phase == Ended(true)
  }

  predicate SameCall(c: Call, c': Call) {
    && c'.id == c.id && c'.tenant == c.tenant && c'.op == c.op
    && (Through(c.phase) ==> Through(c'.phase))
  }

  /** Once evaluated, a proposal keeps its approval. */
  predicate SameSubject(p: Proposal, p': Proposal) {
    !p.status.Proposed? ==> !p'.status.Proposed? && p'.approvalId == p.approvalId
  }

  ghost predicate Follows(w: World, w': World) {
    && R.Ran(w.store, w'.store)
    && (forall k :: k in w.calls ==> k in w'.calls && SameCall(w.calls[k], w'.calls[k]))
    && (forall id :: id in w.proposals ==> id in w'.proposals && SameSubject(w.proposals[id], w'.proposals[id]))
  }

  lemma ContinueFollows(sha: R.Hash, w: World, k: nat, now: Instant, eventId: string)
    requires k in w.calls && CallOk(w, w.calls[k])
    ensures var w' := Continue(sha, w, k, now, eventId);
      && (forall j :: j in w.calls ==> j in w'.calls && SameCall(w.calls[j], w'.calls[j]))
      && (forall id :: id in w.proposals ==> id in w'.proposals && SameSubject(w.proposals[id], w'.proposals[id]))
  {
    hide Continue, Written, Target, Allowed, Settled, Cleared, Reviewable;
    ContinueWrites(sha, w, k, now, eventId);
    ContinueCalls(sha, w, k, now, eventId);
    if w.calls[k].phase.Marking? || w.calls[k].phase.Writing? { WrittenAgrees(w, w.calls[k], now); }
  }

  lemma ContinueCalls(sha: R.Hash, w: World, k: nat, now: Instant, eventId: string)
    requires k in w.calls
    ensures var w' := Continue(sha, w, k, now, eventId);
      && w'.calls.Keys == w.calls.Keys
      && (forall j :: j in w.calls && j != k ==> w'.calls[j] == w.calls[j])
      && SameCall(w.calls[k], w'.calls[k])
  {
    hide Written, AfterRead, R.Apply, Resolvable, StoreTables.AuditFits;
  }

  lemma StoreFollows(sha: R.Hash, w: World, s: Step)
    requires Inv(sha, w)
    ensures R.Ran(w.store, Next(sha, w, s).store)
  {
    hide R.Apply, R.Ran, R.Inv, CanEvaluate, AfterRead, Written, Resolvable, StoreTables.AuditFits, Select;
    RanReflexive(w.store);
    match s
    case Store(step) => R.ApplyRan(sha, w.store, step);
    case Evaluate(_, _, _, _, _, _, _) => R.ApplyRan(sha, w.store, PersistStep(s));
    case Advance(k, now, eventId) =>
      if k in w.calls && w.calls[k].op.Resolve? {
        var c := w.calls[k];
        if c.phase.Resolving? { R.ApplyRan(sha, w.store, ResolveStep(c, c.phase.record, now)); }
        if c.phase.Auditing? {
          R.ApplyRan(sha, w.store, R.AuditStep(now, eventId, c.phase.record.decisionId, c.op.reviewer));
        }
      }
    case _ =>
  }

  lemma RanReflexive(store: R.World)
    ensures R.Ran(store, store)
  {
  }

  lemma NextFollows(sha: R.Hash, w: World, s: Step)
    requires Inv(sha, w)
    ensures Follows(w, Next(sha, w, s))
  {
    hide R.Ran, R.Inv, R.Apply, Agrees, OneResolution, CanEvaluate, Continue, Select, CallOk;
    StoreFollows(sha, w, s);
    if s.Evaluate? { CanEvaluateProposed(sha, w, s); }
    if s.Advance? && s.k in w.calls { ContinueFollows(sha, w, s.k, s.now, s.eventId); }
  }

  lemma FollowsTransitive(w0: World, w1: World, w2: World)
    requires Follows(w0, w1) && Follows(w1, w2) && w0.store.t.approvals.Keys <= w0.store.used
    ensures Follows(w0, w2)
  {
    hide R.Ran;
    R.RanTransitive(w0.store, w1.store, w2.store);
  }

  lemma RowsAreDrawn(sha: R.Hash, w: World)
    requires Inv(sha, w)
    ensures w.store.t.approvals.Keys <= w.store.used && w.store.t.audit.Keys <= w.store.used
  {
  }

  lemma {:induction false} RunFollows(sha: R.Hash, run: seq<Step>, m: nat, n: nat)
    requires m <= n <= |run|
    ensures Follows(Before(sha, run, m), Before(sha, run, n))
    decreases n - m
  {
    hide Next, Inv, After, SameCall, SameSubject, R.Ran;
    if m == n {
      FollowsReflexive(Before(sha, run, m));
    } else {
      RunFollows(sha, run, m, n - 1);
      Reachable(sha, run[..m]);
      Reachable(sha, run[..n - 1]);
      RowsAreDrawn(sha, Before(sha, run, m));
      NextFollows(sha, Before(sha, run, n - 1), run[n - 1]);
      Stepwise(sha, run, n - 1);
      FollowsTransitive(Before(sha, run, m), Before(sha, run, n - 1), Before(sha, run, n));
    }
  }

  lemma FollowsReflexive(w: World)
    ensures Follows(w, w)
  {
  }

  /* What a session leaves behind */

  /** The approval can be resolved no more. */
  predicate Closed(store: R.World, a: string) {
    a in store.used && (a in store.t.approvals ==> !store.t.approvals[a].status.Pending?)
  }

  lemma ClosedStays(store: R.World, store': R.World, a: string)
    requires R.Ran(store, store') && Closed(store, a)
    ensures Closed(store', a)
  {
  }

  /** A resolution by anyone but the requester leaves no pending row. */
  lemma ResolveCloses(t: StoreTables.Tables, a: string, approved: bool, reviewer: string, comment: string, now: Instant)
    requires a in t.approvals && t.approvals[a].decisionId in t.decisions ==>
      !StoreTables.IsSelf(t.decisions[t.approvals[a].decisionId], reviewer)
    ensures var t' := StoreTables.Resolve(t, a, ReviewStatus(approved), reviewer, comment, None, true, now).0;
      a in t'.approvals ==> !t'.approvals[a].status.Pending?
  {
    hide StoreTables.IsSelf, StoreTables.ParsedStale;
  }

  lemma SessionCloses(sha: R.Hash, run: seq<Step>, i: nat, k: nat, id: string)
    requires ApprovalSession(sha, run, i, k, id) && !ByRequester(sha, run, i, k, id)
    ensures Closed(Before(sha, run, i + 1).store, ApprovalOf(sha, run, i, k))
  {
    hide After, StoreTables.Resolve, StoreTables.IsSelf, Inv, CallOk;
    var w, now := Before(sha, run, i), run[i].now;
    var c, a := w.calls[k], ApprovalOf(sha, run, i, k);
    Reachable(sha, run[..i]);
    ApprovalIsDrawn(sha, w, k);
    ResolveCloses(w.store.t, a, c.op.approved, c.op.reviewer, c.op.comment, now);
    Stepwise(sha, run, i);
    ResolvingApplies(sha, w, k, now, run[i].eventId);
  }

  lemma ApprovalIsDrawn(sha: R.Hash, w: World, k: nat)
    requires Inv(sha, w) && k in w.calls && w.calls[k].phase.Resolving?
    ensures w.calls[k].op.Resolve? && w.calls[k].phase.record.approvalId in w.store.used
    ensures w.calls[k].phase.record.decisionId != ""
    ensures w.calls[k].id in w.proposals && !w.proposals[w.calls[k].id].status.Proposed?
    ensures w.proposals[w.calls[k].id].approvalId == w.calls[k].phase.record.approvalId
  {
    hide R.Inv, Agrees, OneResolution;
    assert CallOk(w, w.calls[k]);
  }

  lemma ResolvingApplies(sha: R.Hash, w: World, k: nat, now: Instant, eventId: string)
    requires k in w.calls && w.calls[k].op.Resolve? && w.calls[k].phase.Resolving? && w.store.clock <= now
    ensures var c, w' := w.calls[k], Continue(sha, w, k, now, eventId);
      && w'.store.used == w.store.used && w'.store.clock == now
      && w'.store.t == StoreTables.Resolve(w.store.t, c.phase.record.approvalId, ReviewStatus(c.op.approved),
                                           c.op.reviewer, c.op.comment, None, true, now).0
      && w'.calls[k].phase == (if !Resolvable(w, c, c.phase.record, now) then Ended(false)
                               else if c.phase.record.decisionId != "" then Auditing(c.phase.record)
                               else Writing(c.phase.record))
  {
    hide StoreTables.Resolve;
  }

  /** An audit session gets through exactly when the decision is there. */
  lemma AuditApplies(sha: R.Hash, w: World, k: nat, now: Instant, eventId: string)
    requires Inv(sha, w) && k in w.calls && w.calls[k].op.Resolve? && w.calls[k].phase.Auditing?
    requires w.store.clock <= now && eventId !in w.store.used
    ensures Continue(sha, w, k, now, eventId).calls[k].phase ==
      if w.calls[k].phase.record.decisionId in w.store.t.decisions then Writing(w.calls[k].phase.record) else Ended(false)
  {
    hide R.Apply, Inv;
    RowsAreDrawn(sha, w);
  }

  /* Where a call that is through has been */

  /** The approval session of call k got past the approval. */
  predicate Passes(sha: R.Hash, run: seq<Step>, i: nat, k: nat, id: string) {
    && ApprovalSession(sha, run, i, k, id)
    && FindsOpen(sha, run, i, k, id) && !ByRequester(sha, run, i, k, id)
  }

  predicate PassesAudit(sha: R.Hash, run: seq<Step>, j: nat, k: nat, id: string) {
    AuditSession(sha, run, j, k, id) && DecisionThere(sha, run, j, k, id)
  }

  ghost predicate HasPassed(sha: R.Hash, run: seq<Step>, n: nat, k: nat, id: string) {
    exists i: nat :: i < n && Passes(sha, run, i, k, id)
  }

  ghost predicate HasAudited(sha: R.Hash, run: seq<Step>, n: nat, k: nat, id: string) {
    exists j: nat :: j < n && PassesAudit(sha, run, j, k, id)
  }

  lemma ResolvablePasses(sha: R.Hash, run: seq<Step>, i: nat, k: nat, id: string)
    requires ApprovalSession(sha, run, i, k, id)
    ensures var w := Before(sha, run, i);
      Resolvable(w, w.calls[k], w.calls[k].phase.record, run[i].now) <==> Passes(sha, run, i, k, id)
  {
    hide After, Resolvable, StoreTables.IsSelf;
    var w := Before(sha, run, i);
    ApprovalYieldsExactlyWhen(w, w.calls[k], w.calls[k].phase.record, run[i].now);
  }

  /** One step of the history of a call. */
  lemma HistoryStep(sha: R.Hash, run: seq<Step>, n: nat, k: nat, id: string)
    requires n < |run| && k in Before(sha, run, n + 1).calls && Reviews(Before(sha, run, n + 1).calls[k], id)
    ensures var w, phase := Before(sha, run, n), Before(sha, run, n + 1).calls[k].phase;
      && (k !in w.calls ==> phase.Start?)
      && (k in w.calls ==> Reviews(w.calls[k], id))
      && (k in w.calls && phase.Auditing? ==> w.calls[k].phase == phase || Passes(sha, run, n, k, id))
      && (k in w.calls && Through(phase) ==>
            Through(w.calls[k].phase) || (w.calls[k].phase.Auditing? && PassesAudit(sha, run, n, k, id)))
  {
    hide After, Inv, Passes, PassesAudit, Continue, Select, CanEvaluate, R.Apply;
    var w, s := Before(sha, run, n), run[n];
    Stepwise(sha, run, n);
    Reachable(sha, run[..n]);
    if s.Advance? {
      if s.k in w.calls { ContinueCalls(sha, w, s.k, s.now, s.eventId); }
      if s.k == k && k in w.calls { OwnStep(sha, run, n, k, id); }
    }
  }

  lemma OwnStep(sha: R.Hash, run: seq<Step>, n: nat, k: nat, id: string)
    requires n < |run| && run[n].Advance? && run[n].k == k
    requires k in Before(sha, run, n).calls && Reviews(Before(sha, run, n).calls[k], id)
    ensures var c, phase := Before(sha, run, n).calls[k],
                            Continue(sha, Before(sha, run, n), k, run[n].now, run[n].eventId).calls[k].phase;
      && (phase.Auditing? ==> c.phase == phase || Passes(sha, run, n, k, id))
      && (Through(phase) ==> Through(c.phase) || (c.phase.Auditing? && PassesAudit(sha, run, n, k, id)))
  {
    hide After, Inv, Resolvable, R.Apply, Passes, StoreTables.AuditFits, Written, AfterRead, CallOk;
    var w, now, eventId := Before(sha, run, n), run[n].now, run[n].eventId;
    var c := w.calls[k];
    Reachable(sha, run[..n]);
    match c.phase
    case Start =>
      if Lookup(w.proposals, c.id, c.tenant).Some? { ReadStartsReview(sha, w, c, w.proposals[c.id]); }
    case Resolving(_) =>
      ApprovalIsDrawn(sha, w, k);
      if w.store.clock <= now {
        ResolvingApplies(sha, w, k, now, eventId);
        ResolvablePasses(sha, run, n, k, id);
      }
    case Auditing(_) =>
      if w.store.clock <= now && eventId !in w.store.used { AuditApplies(sha, w, k, now, eventId); }
    case Marking(_) => MarkingVerifies(sha, w, k);
    case _ =>
  }

  lemma ReadStartsReview(sha: R.Hash, w: World, c: Call, p: Proposal)
    requires Inv(sha, w) && c.op.Resolve? && c.id in w.proposals && p == w.proposals[c.id]
    ensures AfterRead(c, p) == Ended(false) || AfterRead(c, p).Resolving?
  {
    hide R.Inv, CallOk, OneResolution;
    assert Agrees(w.store, p);
  }

  lemma MarkingVerifies(sha: R.Hash, w: World, k: nat)
    requires Inv(sha, w) && k in w.calls && w.calls[k].phase.Marking?
    ensures w.calls[k].op.Verify?
  {
    hide R.Inv, Agrees, OneResolution, Cleared;
    assert CallOk(w, w.calls[k]);
  }

  lemma {:induction false} History(sha: R.Hash, run: seq<Step>, n: nat, k: nat, id: string)
    requires n <= |run| && k in Before(sha, run, n).calls && Reviews(Before(sha, run, n).calls[k], id)
    ensures var phase := Before(sha, run, n).calls[k].phase;
      && (phase.Auditing? ==> HasPassed(sha, run, n, k, id))
      && (Through(phase) ==> HasPassed(sha, run, n, k, id) && HasAudited(sha, run, n, k, id))
    decreases n
  {
    hide Passes, PassesAudit, Next, After;
    if n == 0 {
      NothingBefore(sha, run);
    } else {
      HistoryStep(sha, run, n - 1, k, id);
      if k in Before(sha, run, n - 1).calls { History(sha, run, n - 1, k, id); }
    }
  }

  lemma NothingBefore(sha: R.Hash, run: seq<Step>)
    ensures Before(sha, run, 0) == RemediationRuns.INITIAL
  {
    AfterNothing(sha);
    assert run[..0] == [];
  }

  /* The result */

  /** The call that passed is the first by another than the requester to reach the approval. */
  lemma PasserIsFirst(sha: R.Hash, run: seq<Step>, i: nat, k: nat, id: string)
    requires Passes(sha, run, i, k, id)
    ensures FirstByAnother(sha, run, i, k, id)
  {
    hide After, FindsOpen, ByRequester;
    forall j: nat, m: nat | j < i && ApprovalSession(sha, run, j, m, id) ensures ByRequester(sha, run, j, m, id) {
      if !ByRequester(sha, run, j, m, id) {
        SessionCloses(sha, run, j, m, id);
        LaterFindsClosed(sha, run, j, m, i, k, id);
      }
    }
  }

  lemma LaterFindsClosed(sha: R.Hash, run: seq<Step>, j: nat, m: nat, i: nat, k: nat, id: string)
    requires j < i && ApprovalSession(sha, run, j, m, id) && ApprovalSession(sha, run, i, k, id)
    requires Closed(Before(sha, run, j + 1).store, ApprovalOf(sha, run, j, m))
    ensures !FindsOpen(sha, run, i, k, id)
  {
    hide After, Inv, SameCall, R.Ran;
    Reachable(sha, run[..j]);
    Reachable(sha, run[..i]);
    ApprovalIsDrawn(sha, Before(sha, run, j), m);
    ApprovalIsDrawn(sha, Before(sha, run, i), k);
    RunFollows(sha, run, j, i);
    assert ApprovalOf(sha, run, i, k) == ApprovalOf(sha, run, j, m);
    RunFollows(sha, run, j + 1, i);
    ClosedStays(Before(sha, run, j + 1).store, Before(sha, run, i).store, ApprovalOf(sha, run, j, m));
  }

  /** A call that passes its audit session and runs to its end wins. */
  lemma AuditedWins(sha: R.Hash, run: seq<Step>, j: nat, k: nat, id: string)
    requires PassesAudit(sha, run, j, k, id) && AllEnded(After(sha, run), id)
    ensures Wins(After(sha, run), k, id)
  {
    hide After, Inv, R.Ran, SameSubject;
    Reachable(sha, run[..j]);
    AuditApplies(sha, Before(sha, run, j), k, run[j].now, run[j].eventId);
    Stepwise(sha, run, j);
    RunFollows(sha, run, j, j + 1);
    RunFollows(sha, run, j + 1, |run|);
    assert run[..|run|] == run;
  }

  /** The winner's way through: first to reach the approval but for the requester, finding it open, and
      with the decision still there for its audit row. */
  ghost predicate GetsThrough(sha: R.Hash, run: seq<Step>, i: nat, j: nat, k: nat, id: string) {
    && FirstByAnother(sha, run, i, k, id) && FindsOpen(sha, run, i, k, id)
    && AuditSession(sha, run, j, k, id) && DecisionThere(sha, run, j, k, id)
  }

  ghost predicate ExactlyOneWins(w: World, id: string) {
    exists k :: Wins(w, k, id) && forall m :: Wins(w, m, id) ==> m == k
  }

  /** In every run in which all reviews of a proposal have run to their end, exactly one of them wins if
      and only if the first of them to reach the approval, the requester's own apart, finds it pending
      and in time, and finds the decision still there when it appends its audit row. Otherwise none
      does. */
  lemma ExactlyOneWinsExactlyWhen(sha: R.Hash, run: seq<Step>, id: string)
    requires AllEnded(After(sha, run), id)
    ensures ExactlyOneWins(After(sha, run), id) <==> exists i: nat, j: nat, k: nat :: GetsThrough(sha, run, i, j, k, id)
    ensures !ExactlyOneWins(After(sha, run), id) ==> forall k :: !Wins(After(sha, run), k, id)
  {
    hide After, ApprovalSession, AuditSession, FirstByAnother, FindsOpen, ByRequester, DecisionThere;
    var w := After(sha, run);
    assert run[..|run|] == run;
    forall k | Wins(w, k, id) ensures exists i: nat, j: nat :: GetsThrough(sha, run, i, j, k, id) {
      History(sha, run, |run|, k, id);
      var i: nat :| i < |run| && Passes(sha, run, i, k, id);
      var j: nat :| j < |run| && PassesAudit(sha, run, j, k, id);
      PasserIsFirst(sha, run, i, k, id);
      assert GetsThrough(sha, run, i, j, k, id);
    }
    forall i: nat, j: nat, k: nat | GetsThrough(sha, run, i, j, k, id) ensures Wins(w, k, id) {
      AuditedWins(sha, run, j, k, id);
    }
    forall k, m | Wins(w, k, id) && Wins(w, m, id) ensures m == k {
      AtMostOneResolutionWins(sha, run, k, m);
    }
  }

  /** No review of the proposal has got past the approval and gone on. */
  predicate NoneThrough(w: World, id: string) {
    forall k :: k in w.calls && Reviews(w.calls[k], id) ==> !w.calls[k].phase.Auditing? && !Through(w.calls[k].phase)
  }

  /** An approval that is closed while no review is through is spent: no later review gets anywhere. */
  lemma {:induction false} SpentApprovalsNeverWin(sha: R.Hash, run: seq<Step>, n: nat, m: nat, id: string)
    requires n <= m <= |run| && id in Before(sha, run, n).proposals
    requires var w := Before(sha, run, n);
      && !w.proposals[id].status.Proposed? && Closed(w.store, w.proposals[id].approvalId) && NoneThrough(w, id)
    ensures NoneThrough(Before(sha, run, m), id)
    decreases m - n
  {
    hide After, Next, Passes, PassesAudit, SameCall;
    if n < m {
      SpentApprovalsNeverWin(sha, run, n, m - 1, id);
      var w' := Before(sha, run, m);
      forall k | k in w'.calls && Reviews(w'.calls[k], id) ensures !w'.calls[k].phase.Auditing? && !Through(w'.calls[k].phase) {
        HistoryStep(sha, run, m - 1, k, id);
        ClosedIsNotPassed(sha, run, n, m - 1, k, id);
      }
    }
  }

  lemma ClosedIsNotPassed(sha: R.Hash, run: seq<Step>, n: nat, i: nat, k: nat, id: string)
    requires n <= i < |run| && id in Before(sha, run, n).proposals
    requires var w := Before(sha, run, n);
      !w.proposals[id].status.Proposed? && Closed(w.store, w.proposals[id].approvalId)
    ensures !Passes(sha, run, i, k, id)
  {
    hide After, Inv, SameCall, R.Ran, ByRequester;
    RunFollows(sha, run, n, i);
    ClosedStays(Before(sha, run, n).store, Before(sha, run, i).store, Before(sha, run, n).proposals[id].approvalId);
    if ApprovalSession(sha, run, i, k, id) {
      Reachable(sha, run[..i]);
      ApprovalIsDrawn(sha, Before(sha, run, i), k);
    }
  }

  /* Runs in which nobody wins */

  /** A proposal created and evaluated, waiting for review for three days. */
  const WAITING: seq<Step> := [
    Create("p", "", DRIFTING, None, None),
    Evaluate("p", None, 0, StoreTables.Evaluation(ApprovalRequired, "", None, "", ""), map[],
             StoreTables.NewIds("d", "a", "c", "r"), 3 * 86_400)]

  const TWO_DAYS: Instant := 2 * MICROS_PER_DAY
  const THREE_DAYS: Instant := 3 * MICROS_PER_DAY

  /** The tables of a proposal that waits for review. */
  predicate WaitingTables(t: StoreTables.Tables) {
    && t.decisions.Keys == {"d"} && t.decisions["d"].createdAt == 0 && StoreTables.Requester(t.decisions["d"]) == ""
    && t.approvals == map["a" := StoreTables.NewApproval("d", 0, THREE_DAYS)]
    && t.audit.Keys == {"c", "r"}
  }

  predicate WaitingWorld(w: World) {
    && w.calls == map[] && WaitingTables(w.store.t) && w.store.used == {"d", "a", "c", "r"} && w.store.clock == 0
    && w.proposals.Keys == {"p"} && w.proposals["p"].status.PolicyEvaluated?
    && w.proposals["p"].approvalId == "a" && w.proposals["p"].decisionId == "d"
  }

  lemma EvaluationIsStored(digest: string)
    ensures var r := StoreTables.Persist(StoreTables.EMPTY_TABLES, WAITING[1].result, map[], digest, WAITING[1].ids,
                                         3 * 86_400, 0);
      r.Ok? && WaitingTables(r.value)
  {
    hide StoreTables.Actor;
  }

  lemma ProposalWaits(sha: R.Hash)
    ensures WaitingWorld(After(sha, WAITING))
  {
    hide After, Select, StoreTables.Persist, R.ComputeDigest, WaitingTables;
    DriftIsActionable(DRIFTING);
    NothingBefore(sha, WAITING);
    EvaluationIsStored(R.ComputeDigest(sha, map[]));
    Stepwise(sha, WAITING, 0);
    Stepwise(sha, WAITING, 1);
    assert WAITING[..2] == WAITING;
  }

  /** Call k has read the proposal p and is about to resolve its approval. */
  predicate Reading(w: World, k: nat, approved: bool) {
    k in w.calls && "p" in w.proposals && w.calls[k] == Call("p", None, Resolve(approved, "x", ""), Resolving(w.proposals["p"]))
  }

  lemma BeginsAndReads(sha: R.Hash, w: World, k: nat, approved: bool, now: Instant)
    requires k !in w.calls && "p" in w.proposals && w.proposals["p"].status.PolicyEvaluated?
    requires w.proposals["p"].approvalId != ""
    ensures var w' := Next(sha, Next(sha, w, Begin(k, "p", None, Resolve(approved, "x", ""))), Advance(k, now, ""));
      && w'.store == w.store && w'.proposals == w.proposals && Reading(w', k, approved)
      && w'.calls == w.calls[k := w'.calls[k]]
  {
  }

  /** What a resolution by x makes of the one row. */
  function ResolvedRow(a: StoreTables.Approval, approved: bool, now: Instant): StoreTables.Approval {
    if !a.status.Pending? then a
    else if a.expiresAt <= now then StoreTables.ExpireRow(a, now)
    else a.(status := ReviewStatus(approved), reviewer := Some("x"), comment := Some(""), resolvedAt := Some(now))
  }

  predicate OneRow(t: StoreTables.Tables, a: StoreTables.Approval) {
    && t.approvals == map["a" := a] && a.decisionId == "d"
    && "d" in t.decisions && StoreTables.Requester(t.decisions["d"]) == ""
  }

  lemma ResolveOneRow(t: StoreTables.Tables, a: StoreTables.Approval, approved: bool, now: Instant)
    requires OneRow(t, a)
    ensures var (t', r) := StoreTables.Resolve(t, "a", ReviewStatus(approved), "x", "", None, true, now);
      && t' == t.(approvals := map["a" := ResolvedRow(a, approved, now)])
      && (r.Ok? <==> a.status.Pending? && now < a.expiresAt)
  {
    hide Text.Less, Iso, Parse, StoreTables.Requester, Text.Lower, Text.Strip;
    StoreTables.StaleTestsAgree(a, now);
    assert map["a" := a]["a" := ResolvedRow(a, approved, now)] == map["a" := ResolvedRow(a, approved, now)];
    assert StoreTables.ParsedStale(a, now) <==> a.status.Pending? && a.expiresAt <= now;
    assert !StoreTables.IsSelf(t.decisions["d"], "x");
  }

  /** The approval session of such a call. */
  lemma SessionEnds(sha: R.Hash, w: World, k: nat, approved: bool, now: Instant, a: StoreTables.Approval)
    requires Reading(w, k, approved) && w.store.clock <= now && OneRow(w.store.t, a)
    requires w.proposals["p"].approvalId == "a" && w.proposals["p"].decisionId == "d"
    ensures var w' := Next(sha, w, Advance(k, now, ""));
      && w'.proposals == w.proposals && w'.store.used == w.store.used && w'.store.clock == now
      && w'.store.t == w.store.t.(approvals := map["a" := ResolvedRow(a, approved, now)])
      && w'.calls == w.calls[k := w.calls[k].(phase :=
           if a.status.Pending? && now < a.expiresAt then Auditing(w.proposals["p"]) else Ended(false))]
  {
    hide StoreTables.Resolve, Continue, ResolvedRow, OneRow;
    ResolveOneRow(w.store.t, a, approved, now);
    ResolvingApplies(sha, w, k, now, "");
    ContinueCalls(sha, w, k, now, "");
    ContinueWrites(sha, w, k, now, "");
  }

  /** Two reviewers, one for and one against, both too late. */
  const TOO_LATE: seq<Step> := [
    Begin(0, "p", None, Resolve(true, "x", "")), Advance(0, 0, ""),
    Begin(1, "p", None, Resolve(false, "x", "")), Advance(1, 0, ""),
    Advance(0, THREE_DAYS, ""), Advance(1, THREE_DAYS, "")]

  /** The proposal waits on, its approval is as given, and every review has ended without winning. */
  predicate NobodyWon(w: World, a: StoreTables.ApprovalStatus) {
    && "p" in w.proposals && w.proposals["p"].status.PolicyEvaluated? && w.proposals["p"].approvalId == "a"
    && "a" in w.store.t.approvals && w.store.t.approvals["a"].status == a
    && w.calls != map[] && (forall k :: k in w.calls ==> Reviews(w.calls[k], "p") && w.calls[k].phase == Ended(false))
  }

  lemma WaitingRow(w: World)
    requires WaitingWorld(w)
    ensures OneRow(w.store.t, StoreTables.NewApproval("d", 0, THREE_DAYS))
  {
    hide StoreTables.Requester;
  }

  lemma ExpiryLetsNobodyWin(sha: R.Hash)
    ensures NobodyWon(After(sha, WAITING + TOO_LATE), StoreTables.Expired)
  {
    hide After, Next, WaitingTables, OneRow;
    ProposalWaits(sha);
    var w0, row := After(sha, WAITING), StoreTables.NewApproval("d", 0, THREE_DAYS);
    WaitingRow(w0);
    assert WAITING + TOO_LATE[..0] == WAITING && TOO_LATE[..6] == TOO_LATE;
    OneMore(sha, WAITING, TOO_LATE, 0);
    OneMore(sha, WAITING, TOO_LATE, 1);
    BeginsAndReads(sha, w0, 0, true, 0);
    var w2 := After(sha, WAITING + TOO_LATE[..2]);
    OneMore(sha, WAITING, TOO_LATE, 2);
    OneMore(sha, WAITING, TOO_LATE, 3);
    BeginsAndReads(sha, w2, 1, false, 0);
    var w4 := After(sha, WAITING + TOO_LATE[..4]);
    OneMore(sha, WAITING, TOO_LATE, 4);
    SessionEnds(sha, w4, 0, true, THREE_DAYS, row);
    var w5 := After(sha, WAITING + TOO_LATE[..5]);
    RowReplaced(w4.store.t, row, ResolvedRow(row, true, THREE_DAYS));
    OneMore(sha, WAITING, TOO_LATE, 5);
    SessionEnds(sha, w5, 1, false, THREE_DAYS, ResolvedRow(row, true, THREE_DAYS));
  }

  /** An approval resolved by a call that is then outrun by a purge. */
  const PURGED: seq<Step> := [
    Begin(0, "p", None, Resolve(true, "x", "")), Advance(0, 0, ""), Advance(0, TWO_DAYS, ""),
    Store(R.PurgeStep(TWO_DAYS, 1, false, 1, ["d"])), Advance(0, TWO_DAYS, "v")]

  lemma PurgeOfOne(t: StoreTables.Tables)
    requires t.decisions.Keys == {"d"} && t.decisions["d"].createdAt == 0
    ensures Retention.Selects(t, 1, 1, ["d"], TWO_DAYS)
    ensures "d" !in Retention.Purge(t, 1, false, 1, ["d"], TWO_DAYS).0.decisions
  {
    hide StoreTables.TextStale;
    assert Retention.Deletable(t, Retention.CutoffOf(TWO_DAYS, 1)) == {"d"};
  }

  /** Before the purge the review has resolved the approval and is about to append its audit row. */
  predicate AboutToAudit(w: World) {
    && w.calls.Keys == {0} && Reviews(w.calls[0], "p") && w.calls[0].op.approved && w.calls[0].phase.Auditing?
    && w.calls[0].phase.record.decisionId == "d" && "p" in w.proposals && w.proposals["p"].status.PolicyEvaluated?
    && w.proposals["p"].approvalId == "a"
    && "a" in w.store.t.approvals && w.store.t.approvals["a"].status == StoreTables.Approved
    && w.store.t.decisions.Keys == {"d"} && w.store.t.decisions["d"].createdAt == 0
    && w.store.used == {"d", "a", "c", "r"} && w.store.clock == TWO_DAYS
  }

  lemma ReviewIsApproved(sha: R.Hash)
    ensures AboutToAudit(After(sha, WAITING + PURGED[..3]))
  {
    hide After, Continue, WaitingTables, OneRow;
    ProposalWaits(sha);
    var w0, row := After(sha, WAITING), StoreTables.NewApproval("d", 0, THREE_DAYS);
    WaitingRow(w0);
    WaitingDecision(w0.store.t);
    assert WAITING + PURGED[..0] == WAITING;
    OneMore(sha, WAITING, PURGED, 0);
    OneMore(sha, WAITING, PURGED, 1);
    BeginsAndReads(sha, w0, 0, true, 0);
    OneMore(sha, WAITING, PURGED, 2);
    SessionEnds(sha, After(sha, WAITING + PURGED[..2]), 0, true, TWO_DAYS, row);
  }

  /** The review has resolved the approval, a purge of a retention of one day removes the decision, as
      its query selects it, and the review ends without having moved the proposal. */
  lemma PurgeLetsNobodyWin(sha: R.Hash)
    ensures var w3, w5 := After(sha, WAITING + PURGED[..3]), After(sha, WAITING + PURGED);
      && AboutToAudit(w3) && Retention.Selects(w3.store.t, 1, 1, ["d"], TWO_DAYS)
      && w5.calls.Keys == {0} && Reviews(w5.calls[0], "p") && w5.calls[0].phase == Ended(false)
      && "p" in w5.proposals && w5.proposals["p"].status.PolicyEvaluated?
  {
    hide After, Inv, Continue, Retention.Purge, Retention.Selects, R.Apply;
    ReviewIsApproved(sha);
    var w3 := After(sha, WAITING + PURGED[..3]);
    PurgeOfOne(w3.store.t);
    OneMore(sha, WAITING, PURGED, 3);
    PurgeSteps(sha, w3.store);
    var w4 := After(sha, WAITING + PURGED[..4]);
    OneMore(sha, WAITING, PURGED, 4);
    assert PURGED[..5] == PURGED;
    Reachable(sha, WAITING + PURGED[..4]);
    AuditApplies(sha, w4, 0, TWO_DAYS, "v");
    ContinueCalls(sha, w4, 0, TWO_DAYS, "v");
    ContinueWrites(sha, w4, 0, TWO_DAYS, "v");
  }

  /** And after that no review ever wins, whatever else happens. */
  lemma PurgedApprovalIsSpent(sha: R.Hash, more: seq<Step>)
    ensures NoneThrough(After(sha, WAITING + PURGED + more), "p")
  {
    hide After, Inv, R.Ran, SameCall, Retention.Selects;
    PurgeLetsNobodyWin(sha);
    var run, n, m := WAITING + PURGED + more, |WAITING + PURGED|, |WAITING| + 3;
    assert run[..n] == WAITING + PURGED && run[..|run|] == run && run[..m] == WAITING + PURGED[..3];
    PurgedIsClosed(sha);
    SpentApprovalsNeverWin(sha, run, n, |run|, "p");
  }

  /** The approval was drawn, so that it does not come back. */
  lemma PurgedIsClosed(sha: R.Hash)
    ensures var w := After(sha, WAITING + PURGED);
      "p" in w.proposals && Closed(w.store, w.proposals["p"].approvalId)
  {
    hide After, Inv, SameCall, R.Ran, Retention.Selects;
    PurgeLetsNobodyWin(sha);
    var run := WAITING + PURGED;
    assert run[..7] == run && run[..5] == WAITING + PURGED[..3];
    RunFollows(sha, run, 5, 7);
    ClosedStays(Before(sha, run, 5).store, Before(sha, run, 7).store, "a");
  }

  lemma WaitingDecision(t: StoreTables.Tables)
    requires WaitingTables(t)
    ensures t.decisions.Keys == {"d"} && t.decisions["d"].createdAt == 0
  {
  }

  lemma PurgeSteps(sha: R.Hash, store: R.World)
    requires store.clock <= TWO_DAYS
    ensures var store' := R.Apply(sha, store, R.PurgeStep(TWO_DAYS, 1, false, 1, ["d"]));
      && store'.t == Retention.Purge(store.t, 1, false, 1, ["d"], TWO_DAYS).0
      && store'.used == store.used && store'.clock == TWO_DAYS
  {
    hide Retention.Purge;
  }

  /** Without the purge the same review wins, and alone. */
  const UNDISTURBED: seq<Step> := PURGED[..3] + [Advance(0, TWO_DAYS, "v"), Advance(0, TWO_DAYS, "")]

  lemma UndisturbedReviewWins(sha: R.Hash)
    ensures var w := After(sha, WAITING + UNDISTURBED);
      AllEnded(w, "p") && ExactlyOneWins(w, "p") && "p" in w.proposals && w.proposals["p"].status.Approved?
  {
    hide After, Inv, Continue, R.Apply;
    ReviewIsApproved(sha);
    assert UNDISTURBED[..3] == PURGED[..3] && UNDISTURBED[..5] == UNDISTURBED;
    var w3 := After(sha, WAITING + UNDISTURBED[..3]);
    Reachable(sha, WAITING + UNDISTURBED[..3]);
    OneMore(sha, WAITING, UNDISTURBED, 3);
    AuditApplies(sha, w3, 0, TWO_DAYS, "v");
    ContinueCalls(sha, w3, 0, TWO_DAYS, "v");
    ContinueWrites(sha, w3, 0, TWO_DAYS, "v");
    var w4 := After(sha, WAITING + UNDISTURBED[..4]);
    OneMore(sha, WAITING, UNDISTURBED, 4);
    ContinueCalls(sha, w4, 0, TWO_DAYS, "");
    ContinueWrites(sha, w4, 0, TWO_DAYS, "");
    WritingEnds(sha, w4, 0, TWO_DAYS);
    assert Wins(After(sha, WAITING + UNDISTURBED), 0, "p");
  }

  lemma WritingEnds(sha: R.Hash, w: World, k: nat, now: Instant)
    requires k in w.calls && w.calls[k].phase.Writing? && w.calls[k].id in w.proposals
    ensures Continue(sha, w, k, now, "").calls[k].phase == Ended(true)
  {
    hide Written;
  }

  /** A review that comes after the approval was resolved directly. */
  const OVERTAKEN: seq<Step> := [
    Store(R.ResolveStep(0, "a", StoreTables.Approved, "x", "", None)),
    Begin(0, "p", None, Resolve(true, "x", "")), Advance(0, 0, ""), Advance(0, 0, "")]

  lemma DirectResolutionLetsNobodyWin(sha: R.Hash)
    ensures NobodyWon(After(sha, WAITING + OVERTAKEN), StoreTables.Approved)
  {
    hide After, Continue, WaitingTables, OneRow, StoreTables.Resolve, StoreTables.Requester;
    ProposalWaits(sha);
    var w0, row := After(sha, WAITING), StoreTables.NewApproval("d", 0, THREE_DAYS);
    var resolved := ResolvedRow(row, true, 0);
    WaitingRow(w0);
    assert WAITING + OVERTAKEN[..0] == WAITING && OVERTAKEN[..4] == OVERTAKEN;
    OneMore(sha, WAITING, OVERTAKEN, 0);
    ResolveOneRow(w0.store.t, row, true, 0);
    var w1 := After(sha, WAITING + OVERTAKEN[..1]);
    assert w1.store.t == w0.store.t.(approvals := map["a" := resolved]);
    assert OneRow(w1.store.t, resolved) by { RowReplaced(w0.store.t, row, resolved); }
    OneMore(sha, WAITING, OVERTAKEN, 1);
    OneMore(sha, WAITING, OVERTAKEN, 2);
    BeginsAndReads(sha, w1, 0, true, 0);
    var w3 := After(sha, WAITING + OVERTAKEN[..3]);
    OneMore(sha, WAITING, OVERTAKEN, 3);
    SessionEnds(sha, w3, 0, true, 0, resolved);
  }

  lemma RowReplaced(t: StoreTables.Tables, row: StoreTables.Approval, row': StoreTables.Approval)
    requires OneRow(t, row) && row'.decisionId == row.decisionId
    ensures OneRow(t.(approvals := map["a" := row']), row')
  {
    hide StoreTables.Requester;
  }
}
