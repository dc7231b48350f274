/** One request through the whole pipeline (apps/control-api/app/governance_service.py), and the
    stage that the audit trail blames (apps/control-api/app/audit_service.py). */
module Governance {
  import opened Wrappers
  import opened Verdicts
  import opened Engines

  /** What the agent and residency engines say, from the parts of the row they read. */
  type AgentPolicy = (string, string, string, string) -> Screening
  type ResidencyPolicy = (string, string, string, Option<Model>) -> Screening

  /** A policy bundle. */
  datatype Policies = Policies(
    packs: PackConfig, tenants: map<string, Tenant>, registry: map<string, Model>, cost: CostPolicy,
    rules: RiskRules, agents: AgentPolicy, residency: ResidencyPolicy, verifySignatures: bool)

  datatype OnUnavailable = FailClosed | FailToApproval | FailOpenAllowed

  /** Live signals: whether the quota backend was unreachable and what to do then, and reasons the
      telemetry itself has to block. */
  datatype Telemetry = Telemetry(quotaUnavailable: bool, onUnavailable: OnUnavailable, blockReasons: seq<Reason>)

  datatype Stages = Stages(
    packPre: PackResult, packPost: PackResult, prompt: Stage, agent: Screening, quota: Stage,
    registry: Screening, sovereign: Screening, cost: Stage, risk: RiskResult, approval: Stage)

  /** `final_verdict`. */
  function FinalVerdict(s: Stages): (Verdict, seq<Reason>) {
    if s.packPre.decision.Blocked? then (Block, s.packPre.reasons)
    else if s.prompt.decision.Blocked? then (Block, s.prompt.reasons)
    else if s.agent.forbidden then (Block, s.agent.reasons)
    else if s.quota.decision.Blocked? then (Block, s.quota.reasons)
    else if s.registry.forbidden then (Block, s.registry.reasons)
    else if s.sovereign.forbidden then (Block, s.sovereign.reasons)
    else if s.cost.decision.Blocked? then (Block, [CostStageBlocked])
    else if s.approval.decision.Blocked? then (Block, [ApprovalStageBlocked])
    else if s.quota.decision.NeedsApproval? then (ApprovalRequired, s.quota.reasons)
    else if s.packPost.decision.NeedsApproval? then (ApprovalRequired, s.packPost.reasons)
    else if s.risk.level.Critical? then (ApprovalRequired, [CriticalRisk])
    else if s.approval.decision.NeedsApproval? then (ApprovalRequired, [HumanReview])
    else if s.cost.decision.Warned? then (ApprovalRequired, [CostReview])
    else (Allow, [AllAllow])
  }

  /** What an unreachable quota backend makes of the quota stage. */
  function QuotaUnder(quota: Stage, telemetry: Option<Telemetry>): Stage {
    if telemetry.None? || !telemetry.value.quotaUnavailable then quota
    else
      match telemetry.value.onUnavailable
      case FailToApproval => Stage(NeedsApproval, [QuotaUnavailable])
      case FailClosed => Stage(Blocked, [QuotaUnavailable])
      case FailOpenAllowed => Stage(Allowed, AppendIf(quota.reasons, FailOpen !in quota.reasons, FailOpen))
  }

  /** Every stage, run. */
  function RunAll(row: Row, b: Policies, telemetry: Option<Telemetry>): Stages {
    var known := b.registry.Keys;
    var entry := if row.model in b.registry then Some(b.registry[row.model]) else None;
    var pre := PackOf(row, b.packs, known, None);
    var cost := CostOf(row, b.cost);
    var risk := RiskOf(row, b.rules, b.registry);
    Stages(pre,
           PackOf(row, b.packs, known, Some(risk.level)),
           PromptOf(row),
           b.agents(row.agent, row.team, row.nspace, row.model),
           QuotaUnder(QuotaOf(row, b.tenants, pre.multiplier), telemetry),
           RegistryOf(row, b.registry, b.verifySignatures),
           b.residency(row.region, row.provider, row.model, entry),
           cost, risk,
           ApprovalOf(row, b.registry, cost.decision, risk.level))
  }

  /** The stages as they stand when the pack blocks before any of them runs. */
  function SkipAll(pre: PackResult): Stages {
    Stages(pre, pre, Stage(Allowed, [Skipped]), Screening(false, []), Stage(Allowed, [Skipped]),
           Screening(false, []), Screening(false, []), Stage(Allowed, []), RiskResult(0, Low, []),
           Stage(Allowed, []))
  }

  function RunStages(row: Row, b: Policies, telemetry: Option<Telemetry>): Stages {
    var pre := PackOf(row, b.packs, b.registry.Keys, None);
    if pre.decision.Blocked? then SkipAll(pre) else RunAll(row, b, telemetry)
  }

  datatype Outcome = Outcome(verdict: Verdict, reasons: seq<Reason>, stages: Stages)

  /** The verdict on some stages, with the fail-open marker and the telemetry's own blocks. */
  function Conclude(s: Stages, telemetry: Option<Telemetry>): Outcome {
    var (v, r) := FinalVerdict(s);
    var r1 := if v.Allow? && FailOpen in s.quota.reasons && FailOpen !in r then [FailOpen] + r else r;
    if telemetry.Some? && telemetry.value.blockReasons != [] then
      Outcome(Block, telemetry.value.blockReasons + r1, s)
    else Outcome(v, r1, s)
  }

  function Evaluate(row: Row, b: Policies, telemetry: Option<Telemetry>): Outcome {
    Conclude(RunStages(row, b, telemetry), telemetry)
  }

  /* What feeds which stage */

  predicate QuotaDown(telemetry: Option<Telemetry>) {
    telemetry.Some? && telemetry.value.quotaUnavailable
  }

  /** The quota stage is the quota engine's under the pack's multiplier; with its backend out of reach
      it is what was decided for that case, and failing open adds a marker to the engine's reasons. */
  ghost predicate QuotaStageMeaning(row: Row, b: Policies, multiplier: real, telemetry: Option<Telemetry>, r: Stage) {
    if !QuotaDown(telemetry) then QuotaMeaning(row, b.tenants, multiplier, r)
    else
      && (telemetry.value.onUnavailable.FailClosed? ==> r == Stage(Blocked, [QuotaUnavailable]))
      && (telemetry.value.onUnavailable.FailToApproval? ==> r == Stage(NeedsApproval, [QuotaUnavailable]))
      && (telemetry.value.onUnavailable.FailOpenAllowed? ==>
            && r.decision.Allowed?
            && exists q :: QuotaMeaning(row, b.tenants, multiplier, q) && r.reasons == q.reasons + [FailOpen])
  }

  lemma QuotaUnderDecides(row: Row, b: Policies, multiplier: real, telemetry: Option<Telemetry>)
    ensures QuotaStageMeaning(row, b, multiplier, telemetry, QuotaUnder(QuotaOf(row, b.tenants, multiplier), telemetry))
  {
    hide QuotaOf, RpmOver, TokensOver, BudgetOver, SensitiveDenied;
    QuotaDecides(row, b.tenants, multiplier);
    var q := QuotaOf(row, b.tenants, multiplier);
    assert FailOpen !in q.reasons;
    assert QuotaMeaning(row, b.tenants, multiplier, q) && AppendIf(q.reasons, true, FailOpen) == q.reasons + [FailOpen];
  }

  function EntryOf(row: Row, b: Policies): Option<Model> {
    if row.model in b.registry then Some(b.registry[row.model]) else None
  }

  /** The stages after the first pack pass: which part of the row, of the policies and of the other
      stages each is decided on. The risk level feeds the approval stage and the second pack pass, the
      cost decision feeds the approval stage, and the pack's multiplier feeds the quota stage. */
  ghost predicate LaterStagesMeaning(row: Row, b: Policies, telemetry: Option<Telemetry>, s: Stages) {
    && PromptMeaning(row, s.prompt)
    && s.agent == b.agents(row.agent, row.team, row.nspace, row.model)
    && QuotaStageMeaning(row, b, s.packPre.multiplier, telemetry, s.quota)
    && RegistryMeaning(row, b.registry, b.verifySignatures, s.registry)
    && s.sovereign == b.residency(row.region, row.provider, row.model, EntryOf(row, b))
    && CostMeaning(row, b.cost, s.cost)
    && RiskMeaning(row, b.rules, b.registry, s.risk)
    && ApprovalMeaning(row, b.registry, s.cost.decision, s.risk.level, s.approval)
    && PackMeaning(row, b.packs, b.registry.Keys, Some(s.risk.level), s.packPost)
  }

  /** Nothing but the pack has been asked. */
  predicate OnlyPackAsked(s: Stages) {
    && s.packPost == s.packPre
    && s.prompt == s.quota == Stage(Allowed, [Skipped]) && s.cost == s.approval == Stage(Allowed, [])
    && s.agent == s.registry == s.sovereign == Screening(false, []) && s.risk == RiskResult(0, Low, [])
  }

  ghost predicate StagesMeaning(row: Row, b: Policies, telemetry: Option<Telemetry>, s: Stages) {
    && PackMeaning(row, b.packs, b.registry.Keys, None, s.packPre)
    && if s.packPre.decision.Blocked? then OnlyPackAsked(s) else LaterStagesMeaning(row, b, telemetry, s)
  }

  lemma RunAllDecides(row: Row, b: Policies, telemetry: Option<Telemetry>)
    ensures var s := RunAll(row, b, telemetry);
      PackMeaning(row, b.packs, b.registry.Keys, None, s.packPre) && LaterStagesMeaning(row, b, telemetry, s)
  {
    hide PackOf, QuotaOf, RegistryOf, CostOf, RiskOf, ApprovalOf, PromptOf, QuotaUnder, PackMeaning, QuotaStageMeaning,
      RegistryMeaning, CostMeaning, RiskMeaning, ApprovalMeaning, PromptMeaning;
    var s := RunAll(row, b, telemetry);
    PackDecides(row, b.packs, b.registry.Keys, None);
    PackDecides(row, b.packs, b.registry.Keys, Some(s.risk.level));
    PromptDecides(row);
    QuotaUnderDecides(row, b, s.packPre.multiplier, telemetry);
    RegistryDecides(row, b.registry, b.verifySignatures);
    CostDecides(row, b.cost);
    RiskDecides(row, b.rules, b.registry);
    ApprovalDecides(row, b.registry, s.cost.decision, s.risk.level);
  }

  lemma StagesDecide(row: Row, b: Policies, telemetry: Option<Telemetry>)
    ensures StagesMeaning(row, b, telemetry, Evaluate(row, b, telemetry).stages)
  {
    hide PackOf, RunAll, PackMeaning, LaterStagesMeaning;
    RunAllDecides(row, b, telemetry);
    RunAllPack(row, b, telemetry);
  }

  lemma RunAllPack(row: Row, b: Policies, telemetry: Option<Telemetry>)
    ensures RunAll(row, b, telemetry).packPre == PackOf(row, b.packs, b.registry.Keys, None)
  {
    hide PackOf, QuotaOf, RegistryOf, CostOf, RiskOf, ApprovalOf, PromptOf, QuotaUnder;
  }

  /* What the verdict depends on */

  ghost predicate QuotaForbids(row: Row, b: Policies, telemetry: Option<Telemetry>, pack: string) {
    if QuotaDown(telemetry) then telemetry.value.onUnavailable.FailClosed?
    else
      || row.team !in b.tenants
      || (pack in b.packs.packs
          && exists x :: BreaksQuota(row, b.tenants[row.team], b.packs.packs[pack].quotaMultiplier, x))
  }

  ghost predicate ModelForbids(row: Row, b: Policies) {
    row.model in b.registry && exists x :: BreaksModel(row, b.registry[row.model], b.verifySignatures, x)
  }

  /** What of a request, of the policies and of the telemetry calls for a block. The approval workflow
      adds what it blocks apart from a cost that is blocked already. */
  ghost predicate CallsForBlock(row: Row, b: Policies, telemetry: Option<Telemetry>, pack: string) {
    || (telemetry.Some? && telemetry.value.blockReasons != [])
    || PackForbids(row, b.packs, b.registry.Keys, pack)
    || PromptForbids(row)
    || b.agents(row.agent, row.team, row.nspace, row.model).forbidden
    || QuotaForbids(row, b, telemetry, pack)
    || ModelForbids(row, b)
    || b.residency(row.region, row.provider, row.model, EntryOf(row, b)).forbidden
    || (exists x :: BreaksCost(row, b.cost, x))
    || (exists x :: BlocksApproval(row, b.registry, Allowed, x))
  }

  /** What calls for review. */
  ghost predicate CallsForReview(row: Row, b: Policies, telemetry: Option<Telemetry>, pack: string, level: Level) {
    || (QuotaDown(telemetry) && telemetry.value.onUnavailable.FailToApproval?)
    || (pack in b.packs.packs && Reaches(level, b.packs.packs[pack].minRisk))
    || level.Critical?
    || (exists x :: NeedsReview(row, Allowed, level, x))
    || (exists x :: NearsCost(row, b.cost, x))
  }

  /** A verdict blocks exactly when something calls for a block, and else asks for approval exactly when
      something calls for review. */
  ghost predicate Decided(row: Row, b: Policies, telemetry: Option<Telemetry>, v: Verdict, pack: string, level: Level) {
    && (v.Block? <==> CallsForBlock(row, b, telemetry, pack))
    && (v.ApprovalRequired? <==>
          !CallsForBlock(row, b, telemetry, pack) && CallsForReview(row, b, telemetry, pack, level))
  }

  /** The verdict, from the request, the policies and the telemetry alone. */
  ghost predicate VerdictMeaning(row: Row, b: Policies, telemetry: Option<Telemetry>, v: Verdict) {
    forall pack, level ::
      && NamesPack(row, b.packs, pack)
      && LevelFits(RequestPoints(row, b.rules) + ModelPoints(row, b.rules, b.registry), b.rules, level)
      ==> Decided(row, b, telemetry, v, pack, level)
  }

  /** With the cost stage beside it, the approval stage blocks and asks just as it would if that stage had
      allowed. */
  lemma ApprovalBesideCost(row: Row, b: Policies, cost: Stage, level: Level, approval: Stage)
    requires CostMeaning(row, b.cost, cost) && ApprovalMeaning(row, b.registry, cost.decision, level, approval)
    ensures cost.decision.Blocked? || approval.decision.Blocked? <==>
      (exists x :: BreaksCost(row, b.cost, x)) || (exists x :: BlocksApproval(row, b.registry, Allowed, x))
    ensures !cost.decision.Blocked? && !approval.decision.Blocked? ==>
      (cost.decision.Warned? || approval.decision.NeedsApproval? <==>
        (exists x :: NearsCost(row, b.cost, x)) || (exists x :: NeedsReview(row, Allowed, level, x)))
  {
    hide BreaksCost, NearsCost, Unowned, Onboarded, ForbiddenModel, NamespaceDenied, ProductionFacing, IsExternal,
      ChangesPosture, HighRisk, HighHourlyCost, HighForecast;
    forall x ensures BlocksApproval(row, b.registry, cost.decision, x) <==>
      BlocksApproval(row, b.registry, Allowed, x) || (x == CostBlocked && cost.decision.Blocked?) {}
    forall x ensures NeedsReview(row, cost.decision, level, x) <==>
      NeedsReview(row, Allowed, level, x) || (x == CostWarned && cost.decision.Warned?) {}
  }

  lemma PackIsDetermined(row: Row, c: PackConfig, name: string, name': string)
    requires NamesPack(row, c, name) && NamesPack(row, c, name')
    ensures name == name'
  {
  }

  lemma LevelIsDetermined(due: int, rules: RiskRules, level: Level, level': Level)
    requires LevelFits(due, rules, level) && LevelFits(due, rules, level')
    ensures level == level'
  {
  }

  /** The verdict of all stages, run. */
  lemma FullVerdictDecides(row: Row, b: Policies, telemetry: Option<Telemetry>, s: Stages, pack: string, level: Level)
    requires PackMeaning(row, b.packs, b.registry.Keys, None, s.packPre) && LaterStagesMeaning(row, b, telemetry, s)
    requires NamesPack(row, b.packs, pack)
    requires LevelFits(RequestPoints(row, b.rules) + ModelPoints(row, b.rules, b.registry), b.rules, level)
    ensures Decided(row, b, telemetry, Conclude(s, telemetry).verdict, pack, level)
  {
    hide NamesPack, LevelFits, Reaches, PackForbids, CostMeaning, ApprovalMeaning, BreaksQuota, BreaksModel, RequestPoints,
      ModelPoints, BreaksCost, NearsCost, BlocksApproval, NeedsReview;
    PackIsDetermined(row, b.packs, pack, s.packPre.pack);
    PackIsDetermined(row, b.packs, pack, s.packPost.pack);
    LevelIsDetermined(RequestPoints(row, b.rules) + ModelPoints(row, b.rules, b.registry), b.rules, level, s.risk.level);
    ApprovalBesideCost(row, b, s.cost, s.risk.level, s.approval);
  }

  lemma VerdictDecides(row: Row, b: Policies, telemetry: Option<Telemetry>)
    ensures VerdictMeaning(row, b, telemetry, Evaluate(row, b, telemetry).verdict)
  {
    hide RunAll, RunStages, FinalVerdict, Conclude, NamesPack, LevelFits, RequestPoints, ModelPoints, Decided,
      LaterStagesMeaning, PackMeaning;
    ShortCircuitIsSound(row, b, telemetry);
    RunAllDecides(row, b, telemetry);
    forall pack, level | NamesPack(row, b.packs, pack)
        && LevelFits(RequestPoints(row, b.rules) + ModelPoints(row, b.rules, b.registry), b.rules, level)
      ensures Decided(row, b, telemetry, Evaluate(row, b, telemetry).verdict, pack, level)
    {
      FullVerdictDecides(row, b, telemetry, RunAll(row, b, telemetry), pack, level);
    }
  }

  /** `evaluate_governance_request`. */
  method EvaluateGovernanceRequest(row: Row, b: Policies, telemetry: Option<Telemetry>) returns (o: Outcome)
    ensures o == Evaluate(row, b, telemetry)
    ensures StagesMeaning(row, b, telemetry, o.stages)
    ensures VerdictMeaning(row, b, telemetry, o.verdict)
    ensures Explained(telemetry, o)
  {
    hide StagesMeaning, VerdictMeaning, Explained;
    StagesDecide(row, b, telemetry);
    VerdictDecides(row, b, telemetry);
    ReasonsDecide(RunStages(row, b, telemetry), telemetry);
    hide PackOf, QuotaOf, RegistryOf, CostOf, RiskOf, ApprovalOf, PromptOf, PackMeaning, QuotaMeaning, RegistryMeaning,
      CostMeaning, RiskMeaning, ApprovalMeaning;
    var known := b.registry.Keys;
    var pre := EvaluatePack(row, b.packs, known, None);
    var s := SkipAll(pre);
    if !pre.decision.Blocked? {
      var prompt := PromptOf(row);
      var agent := b.agents(row.agent, row.team, row.nspace, row.model);
      var quota := EvaluateQuota(row, b.tenants, pre.multiplier);
      if telemetry.Some? && telemetry.value.quotaUnavailable {
        match telemetry.value.onUnavailable {
          case FailToApproval => quota := Stage(NeedsApproval, [QuotaUnavailable]);
          case FailClosed => quota := Stage(Blocked, [QuotaUnavailable]);
          case FailOpenAllowed =>
            var prior := quota.reasons;
            if FailOpen !in prior { prior := prior + [FailOpen]; }
            quota := Stage(Allowed, prior);
        }
      }
      var registry := EvaluateModelPolicy(row, b.registry, b.verifySignatures);
      var entry := if row.model in b.registry then Some(b.registry[row.model]) else None;
      var sovereign := b.residency(row.region, row.provider, row.model, entry);
      var cost := EvaluateCost(row, b.cost);
      var risk := EvaluateRisk(row, b.rules, b.registry);
      var approval := EvaluateApproval(row, b.registry, cost.decision, risk.level);
      var post := EvaluatePack(row, b.packs, known, Some(risk.level));
      s := Stages(pre, post, prompt, agent, quota, registry, sovereign, cost, risk, approval);
    }
    o := Conclude(s, telemetry);
  }

  /* The verdict is the maximum severity */

  function Sev(d: Decision): nat {
    match d
    case Blocked => 2
    case NeedsApproval => 1
    case _ => 0
  }

  function ScreenSev(s: Screening): nat {
    if s.forbidden then 2 else 0
  }

  /** A cost warning asks for review; a prompt warning does not. */
  function CostSev(d: Decision): nat {
    match d
    case Blocked => 2
    case Warned => 1
    case _ => 0
  }

  function PromptSev(d: Decision): nat {
    if d.Blocked? then 2 else 0
  }

  function RiskSev(level: Level): nat {
    if level.Critical? then 1 else 0
  }

  function Max(a: nat, b: nat): nat {
    if a < b then b else a
  }

  function MaxSeverity(s: Stages): nat {
    Max(Sev(s.packPre.decision), Max(Sev(s.packPost.decision), Max(PromptSev(s.prompt.decision),
      Max(ScreenSev(s.agent), Max(Sev(s.quota.decision), Max(ScreenSev(s.registry), Max(ScreenSev(s.sovereign),
        Max(CostSev(s.cost.decision), Max(RiskSev(s.risk.level), Sev(s.approval.decision))))))))))
  }

  /** A stage that the verdict consults for a block has blocked. */
  predicate ConsultedBlocks(s: Stages) {
    || s.packPre.decision.Blocked? || s.prompt.decision.Blocked? || s.agent.forbidden || s.quota.decision.Blocked?
    || s.registry.forbidden || s.sovereign.forbidden || s.cost.decision.Blocked? || s.approval.decision.Blocked?
  }

  /** A stage that the verdict consults has asked for a block or for review. */
  predicate ConsultedAsks(s: Stages) {
    || ConsultedBlocks(s) || s.quota.decision.NeedsApproval? || s.packPost.decision.NeedsApproval?
    || s.risk.level.Critical? || s.approval.decision.NeedsApproval? || s.cost.decision.Warned?
  }

  /** On any ten stage results at all, the verdict is their maximum severity if and only if a block of
      the second pack pass comes with a block elsewhere, and approval asked by the first pass comes
      with a block or a review elsewhere: those two results it does not consult. */
  lemma VerdictIsMaximumExactlyWhen(s: Stages)
    ensures FinalVerdict(s).0.Severity() == MaxSeverity(s) <==>
            && (s.packPost.decision.Blocked? ==> ConsultedBlocks(s))
            && (s.packPre.decision.NeedsApproval? ==> ConsultedAsks(s))
  {
  }

  /** Stages that allow, but for the two pack passes. */
  function OnlyPacks(pre: Decision, post: Decision): Stages {
    var fine, screened := Stage(Allowed, []), Screening(false, []);
    Stages(PackResult("", pre, [], 1.0), PackResult("", post, [], 1.0), fine, screened, fine, screened, screened,
           fine, RiskResult(0, Low, []), fine)
  }

  /** Each of the two results, alone, is lost. */
  lemma VerdictCanMissThePack()
    ensures var s := OnlyPacks(Allowed, Blocked); FinalVerdict(s).0.Allow? && MaxSeverity(s) == 2
    ensures var s := OnlyPacks(NeedsApproval, Allowed); FinalVerdict(s).0.Allow? && MaxSeverity(s) == 1
  {
  }

  /** The second pack pass differs from the first only in asking for approval. */
  lemma PackPassesAgree(row: Row, c: PackConfig, known: set<string>, level: Level)
    ensures var pre, post := PackOf(row, c, known, None), PackOf(row, c, known, Some(level));
      && (pre.decision.Blocked? <==> post.decision.Blocked?)
      && !pre.decision.NeedsApproval? && pre.multiplier == post.multiplier
  {
  }

  /** In the pipeline the verdict always is the maximum severity over the stages, short circuit
      or not. */
  lemma {:induction false} PipelineVerdictIsMaximum(row: Row, b: Policies, telemetry: Option<Telemetry>)
    ensures var s := RunStages(row, b, telemetry); FinalVerdict(s).0.Severity() == MaxSeverity(s)
    ensures var s := RunAll(row, b, telemetry); FinalVerdict(s).0.Severity() == MaxSeverity(s)
  {
    hide PackOf, QuotaOf, RegistryOf, CostOf, RiskOf, ApprovalOf, PromptOf;
    PackPassesAgree(row, b.packs, b.registry.Keys, RiskOf(row, b.rules, b.registry).level);
    VerdictIsMaximumExactlyWhen(RunStages(row, b, telemetry));
    VerdictIsMaximumExactlyWhen(RunAll(row, b, telemetry));
  }

  /** Skipping the stages after a pack block changes neither the verdict nor the reasons. */
  lemma ShortCircuitIsSound(row: Row, b: Policies, telemetry: Option<Telemetry>)
    ensures var quick, full := Evaluate(row, b, telemetry), Conclude(RunAll(row, b, telemetry), telemetry);
      quick.verdict == full.verdict && quick.reasons == full.reasons
  {
    hide PackOf, QuotaOf, RegistryOf, CostOf, RiskOf, ApprovalOf, PromptOf;
  }

  /* The audited stage */

  datatype StageName =
    | PolicyPack | PromptSecurity | Agent | Quota | Registry | Sovereign | Cost | Approval | Risk

  /** The pack stage as the response reports it. */
  function ReportedPack(s: Stages): Decision {
    if !s.packPre.decision.Blocked? && s.packPost.decision.NeedsApproval? then NeedsApproval
    else s.packPre.decision
  }

  /** `blocking_stage_from_response`. */
  function BlockingStage(o: Outcome): Option<StageName> {
    var s := o.stages;
    if o.verdict.Allow? then None
    else if ReportedPack(s).Blocked? then Some(PolicyPack)
    else if s.prompt.decision.Blocked? then Some(PromptSecurity)
    else if s.agent.forbidden then Some(Agent)
    else if s.quota.decision.Blocked? then Some(Quota)
    else if s.registry.forbidden then Some(Registry)
    else if s.sovereign.forbidden then Some(Sovereign)
    else if s.cost.decision.Blocked? then Some(Cost)
    else if s.approval.decision.Blocked? then Some(Approval)
    else if s.risk.level.Critical? then Some(Risk)
    else if o.verdict.ApprovalRequired? then
      if s.approval.decision.NeedsApproval? then Some(Approval)
      else if s.cost.decision.Warned? then Some(Cost)
      else Some(Approval)
    else None
  }

  /** The verdict's own order of precedence. */
  const PRECEDENCE: seq<(StageName, Verdict)> := [
    (PolicyPack, Block), (PromptSecurity, Block), (Agent, Block), (Quota, Block), (Registry, Block),
    (Sovereign, Block), (Cost, Block), (Approval, Block), (Quota, ApprovalRequired),
    (PolicyPack, ApprovalRequired), (Risk, ApprovalRequired), (Approval, ApprovalRequired),
    (Cost, ApprovalRequired)
  ]

  /** Whether a stage gives cause for a verdict. */
  predicate Causes(s: Stages, name: StageName, v: Verdict) {
    match name
    case PolicyPack => if v.Block? then s.packPre.decision.Blocked? else s.packPost.decision.NeedsApproval?
    case PromptSecurity => v.Block? && s.prompt.decision.Blocked?
    case Agent => v.Block? && s.agent.forbidden
    case Quota => if v.Block? then s.quota.decision.Blocked? else s.quota.decision.NeedsApproval?
    case Registry => v.Block? && s.registry.forbidden
    case Sovereign => v.Block? && s.sovereign.forbidden
    case Cost => if v.Block? then s.cost.decision.Blocked? else s.cost.decision.Warned?
    case Approval => if v.Block? then s.approval.decision.Blocked? else s.approval.decision.NeedsApproval?
    case Risk => v.ApprovalRequired? && s.risk.level.Critical?
  }

  /** The i-th entry of the precedence gives cause. */
  predicate CauseAt(s: Stages, i: nat)
    requires i < |PRECEDENCE|
  {
    Causes(s, PRECEDENCE[i].0, PRECEDENCE[i].1)
  }

  /** It is the first that does. */
  ghost predicate FirstCause(s: Stages, i: nat) {
    i < |PRECEDENCE| && CauseAt(s, i) && forall j :: 0 <= j < i ==> !CauseAt(s, j)
  }

  /** What each entry of the precedence looks at. */
  lemma {:induction false} PrecedenceCauses(s: Stages)
    ensures |PRECEDENCE| == 13
    ensures CauseAt(s, 0) == s.packPre.decision.Blocked? && CauseAt(s, 1) == s.prompt.decision.Blocked?
    ensures CauseAt(s, 2) == s.agent.forbidden && CauseAt(s, 3) == s.quota.decision.Blocked?
    ensures CauseAt(s, 4) == s.registry.forbidden && CauseAt(s, 5) == s.sovereign.forbidden
    ensures CauseAt(s, 6) == s.cost.decision.Blocked? && CauseAt(s, 7) == s.approval.decision.Blocked?
    ensures CauseAt(s, 8) == s.quota.decision.NeedsApproval? && CauseAt(s, 9) == s.packPost.decision.NeedsApproval?
    ensures CauseAt(s, 10) == s.risk.level.Critical? && CauseAt(s, 11) == s.approval.decision.NeedsApproval?
    ensures CauseAt(s, 12) == s.cost.decision.Warned?
  {
    PrecedenceEntries();
    hide PRECEDENCE;
  }

  lemma PrecedenceEntries()
    ensures |PRECEDENCE| == 13
    ensures PRECEDENCE[0] == (PolicyPack, Block) && PRECEDENCE[1] == (PromptSecurity, Block)
    ensures PRECEDENCE[2] == (Agent, Block) && PRECEDENCE[3] == (Quota, Block) && PRECEDENCE[4] == (Registry, Block)
    ensures PRECEDENCE[5] == (Sovereign, Block) && PRECEDENCE[6] == (Cost, Block) && PRECEDENCE[7] == (Approval, Block)
    ensures PRECEDENCE[8] == (Quota, ApprovalRequired) && PRECEDENCE[9] == (PolicyPack, ApprovalRequired)
    ensures PRECEDENCE[10] == (Risk, ApprovalRequired) && PRECEDENCE[11] == (Approval, ApprovalRequired)
    ensures PRECEDENCE[12] == (Cost, ApprovalRequired)
  {
  }

  lemma FirstCauseUnique(s: Stages, i: nat, j: nat)
    requires FirstCause(s, i) && FirstCause(s, j)
    ensures i == j
  {
  }

  /** The first cause, found in order, and the verdict it calls for; there is none exactly when
      the verdict is to allow. */
  lemma FindFirstCause(s: Stages) returns (i: nat)
    ensures i <= |PRECEDENCE| && (FinalVerdict(s).0.Allow? <==> i == |PRECEDENCE|)
    ensures i < |PRECEDENCE| ==> FirstCause(s, i) && FinalVerdict(s).0 == PRECEDENCE[i].1
    ensures forall j: nat :: FirstCause(s, j) ==> j == i
  {
    hide CauseAt;
    PrecedenceCauses(s);
    i := 0;
    while i < |PRECEDENCE| && !CauseAt(s, i)
      invariant i <= |PRECEDENCE|
      invariant forall j :: 0 <= j < i ==> !CauseAt(s, j)
    {
      i := i + 1;
    }
    forall j: nat | FirstCause(s, j) ensures j == i {
      if i < |PRECEDENCE| { FirstCauseUnique(s, i, j); }
    }
    CauseDecides(s, i);
  }

  lemma CauseDecides(s: Stages, i: nat)
    requires i <= |PRECEDENCE| && (i < |PRECEDENCE| ==> FirstCause(s, i))
    requires i == |PRECEDENCE| ==> forall j :: 0 <= j < i ==> !CauseAt(s, j)
    ensures FinalVerdict(s).0.Allow? <==> i == |PRECEDENCE|
    ensures i < |PRECEDENCE| ==> FinalVerdict(s).0 == PRECEDENCE[i].1
  {
    hide CauseAt;
    PrecedenceCauses(s);
  }

  /** The verdict is the one its first cause calls for, and to allow when there is no cause. */
  lemma VerdictHasFirstCause(s: Stages)
    ensures FinalVerdict(s).0.Allow? <==> forall i: nat :: !FirstCause(s, i)
    ensures forall i: nat :: FirstCause(s, i) ==> FinalVerdict(s).0 == PRECEDENCE[i].1
  {
    var i := FindFirstCause(s);
    hide CauseAt, FinalVerdict;
    if i < |PRECEDENCE| {
      assert FirstCause(s, i);
    } else {
      forall j: nat ensures !FirstCause(s, j) {}
    }
  }

  /** The reasons each entry of the precedence gives. */
  function CauseReasons(s: Stages, i: nat): seq<Reason>
    requires i < |PRECEDENCE|
  {
    match PRECEDENCE[i]
    case (PolicyPack, Block) => s.packPre.reasons
    case (PolicyPack, _) => s.packPost.reasons
    case (PromptSecurity, _) => s.prompt.reasons
    case (Agent, _) => s.agent.reasons
    case (Quota, _) => s.quota.reasons
    case (Registry, _) => s.registry.reasons
    case (Sovereign, _) => s.sovereign.reasons
    case (Cost, Block) => [CostStageBlocked]
    case (Cost, _) => [CostReview]
    case (Approval, Block) => [ApprovalStageBlocked]
    case (Approval, _) => [HumanReview]
    case (Risk, _) => [CriticalRisk]
  }

  lemma CauseGivesReasons(s: Stages, i: nat)
    requires FirstCause(s, i)
    ensures FinalVerdict(s).1 == CauseReasons(s, i)
  {
    hide CauseAt;
    PrecedenceCauses(s);
  }

  /** The reasons of an outcome: those of the telemetry, if it blocks, and then those of the first cause.
      With no cause there is only the note that all stages allow, after the marker of a quota backend
      that was passed by. */
  ghost predicate Explained(telemetry: Option<Telemetry>, o: Outcome) {
    var first := if telemetry.Some? then telemetry.value.blockReasons else [];
    && (forall i: nat :: FirstCause(o.stages, i) ==> o.reasons == first + CauseReasons(o.stages, i))
    && ((forall i: nat :: !FirstCause(o.stages, i)) ==>
          o.reasons == first + if FailOpen in o.stages.quota.reasons then [FailOpen, AllAllow] else [AllAllow])
  }

  lemma ReasonsDecide(s: Stages, telemetry: Option<Telemetry>)
    ensures Explained(telemetry, Conclude(s, telemetry))
  {
    VerdictHasFirstCause(s);
    forall i: nat | FirstCause(s, i) ensures FinalVerdict(s).1 == CauseReasons(s, i) && !FinalVerdict(s).0.Allow? {
      CauseGivesReasons(s, i);
      PrecedenceNeverAllows(i);
    }
    hide FirstCause, CauseReasons;
    AllowReasons(s);
    hide FinalVerdict;
  }

  lemma PrecedenceNeverAllows(i: nat)
    requires i < |PRECEDENCE|
    ensures !PRECEDENCE[i].1.Allow?
  {
  }

  lemma AllowReasons(s: Stages)
    ensures FinalVerdict(s).0.Allow? ==> FinalVerdict(s).1 == [AllAllow]
  {
  }

  /** For a block not caused by telemetry the audited stage is exactly the first stage in verdict
      precedence that blocked. */
  lemma BlockIsBlamedOnFirstBlocker(s: Stages, i: nat)
    requires FirstCause(s, i) && FinalVerdict(s).0.Block?
    ensures BlockingStage(Conclude(s, None)) == Some(PRECEDENCE[i].0)
  {
    hide CauseAt;
    PrecedenceCauses(s);
    VerdictHasFirstCause(s);
  }

  /** For an approval the audited stage is the first cause exactly when neither the quota stage nor
      the pack asked for it: those two the audit never names. */
  lemma ApprovalIsBlamedExactlyWhen(s: Stages, i: nat)
    requires FirstCause(s, i) && FinalVerdict(s).0.ApprovalRequired?
    ensures BlockingStage(Conclude(s, None)) == Some(PRECEDENCE[i].0) <==>
            !s.quota.decision.NeedsApproval? && !s.packPost.decision.NeedsApproval?
  {
    hide CauseAt;
    PrecedenceCauses(s);
    VerdictHasFirstCause(s);
  }

  /** A quota that asks for approval, alone, is audited as the approval stage. */
  lemma QuotaApprovalIsBlamedElsewhere()
    ensures var s := OnlyPacks(Allowed, Allowed).(quota := Stage(NeedsApproval, [QuotaUnavailable]));
      && FinalVerdict(s).0.ApprovalRequired? && FirstCause(s, 8) && PRECEDENCE[8].0 == Quota
      && BlockingStage(Conclude(s, None)) == Some(Approval)
  {
  }

  /** When telemetry alone blocks, the audit names a stage only if one blocked or the risk is critical. */
  lemma TelemetryBlockIsUnexplained(s: Stages, t: Telemetry)
    requires t.blockReasons != [] && !FinalVerdict(s).0.Block?
    ensures var o := Conclude(s, Some(t));
      && o.verdict.Block?
      && BlockingStage(o) == if s.risk.level.Critical? then Some(Risk) else None
  {
  }

  /* Monotonicity */

  /** Row q asks for at least as much as row p: some token counts, request counters or costs are
      raised, or some of the three flags turned on, and nothing else differs. */
  ghost predicate Raises(p: Row, q: Row) {
    && q == p.(inputTokens := q.inputTokens, outputTokens := q.outputTokens, costPerRequest := q.costPerRequest,
               costPerHour := q.costPerHour, monthToDate := q.monthToDate, forecast := q.forecast,
               sensitiveData := q.sensitiveData, toolAccess := q.toolAccess, writePermission := q.writePermission,
               requestsLastMinute := q.requestsLastMinute, tokensToday := q.tokensToday)
    && p.inputTokens <= q.inputTokens && p.outputTokens <= q.outputTokens
    && p.costPerRequest <= q.costPerRequest && p.costPerHour <= q.costPerHour
    && p.monthToDate <= q.monthToDate && p.forecast <= q.forecast
    && p.requestsLastMinute <= q.requestsLastMinute && p.tokensToday <= q.tokensToday
    && (p.sensitiveData ==> q.sensitiveData) && (p.toolAccess ==> q.toolAccess)
    && (p.writePermission ==> q.writePermission)
  }

  /** The weights of the factors that raising a row can add are not negative. */
  predicate RaisableWeightsOk(w: Weights) {
    w.highTokenVolume >= 0 && w.highCostForecast >= 0 && w.sensitiveData >= 0 && w.toolAccess >= 0
    && w.writePermission >= 0
  }

  lemma PackRises(p: Row, q: Row, c: PackConfig, known: set<string>, low: Option<Level>, high: Option<Level>)
    requires Raises(p, q) && low.Some? == high.Some?
    requires low.Some? ==> low.value.Rank() <= high.value.Rank()
    ensures var a, b := PackOf(p, c, known, low), PackOf(q, c, known, high);
      Sev(a.decision) <= Sev(b.decision) && a.multiplier == b.multiplier
  {
  }

  lemma PromptRises(p: Row, q: Row)
    requires Raises(p, q)
    ensures PromptSev(PromptOf(p).decision) <= PromptSev(PromptOf(q).decision)
  {
  }

  lemma QuotaRises(p: Row, q: Row, tenants: map<string, Tenant>, multiplier: real)
    requires Raises(p, q)
    ensures Sev(QuotaOf(p, tenants, multiplier).decision) <= Sev(QuotaOf(q, tenants, multiplier).decision)
  {
    hide Scaled;
  }

  lemma RegistryRises(p: Row, q: Row, registry: map<string, Model>, verify: bool)
    requires Raises(p, q)
    ensures ScreenSev(RegistryOf(p, registry, verify)) <= ScreenSev(RegistryOf(q, registry, verify))
  {
    hide Signed, Pinned;
  }

  lemma CostRises(p: Row, q: Row, c: CostPolicy)
    requires Raises(p, q)
    ensures CostSev(CostOf(p, c).decision) <= CostSev(CostOf(q, c).decision)
    ensures !CostOf(p, c).decision.NeedsApproval?
  {
  }

  lemma {:induction false} RiskRises(p: Row, q: Row, rules: RiskRules, registry: map<string, Model>)
    requires Raises(p, q) && RaisableWeightsOk(rules.weights)
    ensures RiskOf(p, rules, registry).score <= RiskOf(q, rules, registry).score
    ensures RiskOf(p, rules, registry).level.Rank() <= RiskOf(q, rules, registry).level.Rank()
  {
    hide Points, AllFactors, RequestPoints, ModelPoints, Factors, Raises, RiskLevel, Capped;
    PointsRise(p, q, rules, registry);
    FactorPoints(p, rules);
    FactorPoints(q, rules);
    RegistryPoints(p, rules, registry);
    RegistryPoints(q, rules, registry);
    ScoreRises(Points(AllFactors(p, rules, registry)), Points(AllFactors(q, rules, registry)), rules);
  }

  lemma ScoreRises(low: int, high: int, rules: RiskRules)
    requires low <= high
    ensures Capped(low) <= Capped(high)
    ensures RiskLevel(Capped(low), rules).Rank() <= RiskLevel(Capped(high), rules).Rank()
  {
  }

  lemma PointsRise(p: Row, q: Row, rules: RiskRules, registry: map<string, Model>)
    requires Raises(p, q) && RaisableWeightsOk(rules.weights)
    ensures RequestPoints(p, rules) <= RequestPoints(q, rules)
    ensures ModelPoints(p, rules, registry) <= ModelPoints(q, rules, registry)
  {
    hide FacesProduction;
    assert FacesProduction(p) == FacesProduction(q) by { SamePlace(p, q); }
  }

  lemma SamePlace(p: Row, q: Row)
    requires q.environment == p.environment && q.nspace == p.nspace
    ensures FacesProduction(p) == FacesProduction(q)
  {
  }

  /** The condition on the weights is needed: below the cap, turning tool access on keeps the score
      from falling exactly when its weight is not negative. */
  lemma ToolAccessNeedsItsWeight(p: Row, rules: RiskRules, registry: map<string, Model>)
    requires !p.toolAccess && Points(AllFactors(p, rules, registry)) <= 100
    ensures RiskOf(p, rules, registry).score <= RiskOf(p.(toolAccess := true), rules, registry).score
            <==> rules.weights.toolAccess >= 0
  {
    hide Points, AppendIf, Factors, AllFactors, ChangesPosture;
    var q := p.(toolAccess := true);
    FactorPoints(p, rules);
    FactorPoints(q, rules);
    RegistryPoints(p, rules, registry);
    RegistryPoints(q, rules, registry);
  }

  lemma ApprovalRises(p: Row, q: Row, registry: map<string, Model>, low: Decision, high: Decision, l: Level, h: Level)
    requires Raises(p, q) && CostSev(low) <= CostSev(high) && l.Rank() <= h.Rank()
    ensures Sev(ApprovalOf(p, registry, low, l).decision) <= Sev(ApprovalOf(q, registry, high, h).decision)
  {
    hide Onboarded, ForbiddenModel, IsExternal, ChangesPosture, EndsWith;
  }

  /** Every stage rises with the row, the ones that feed on others too. */
  lemma {:induction false} StagesRise(p: Row, q: Row, b: Policies, telemetry: Option<Telemetry>)
    requires Raises(p, q) && RaisableWeightsOk(b.rules.weights)
    ensures MaxSeverity(RunAll(p, b, telemetry)) <= MaxSeverity(RunAll(q, b, telemetry))
  {
    hide PackOf, QuotaOf, RegistryOf, CostOf, RiskOf, ApprovalOf, PromptOf, Raises;
    var known := b.registry.Keys;
    var costP, costQ := CostOf(p, b.cost), CostOf(q, b.cost);
    var riskP, riskQ := RiskOf(p, b.rules, b.registry), RiskOf(q, b.rules, b.registry);
    SameScreens(p, q, b);
    PackRises(p, q, b.packs, known, None, None);
    RiskRises(p, q, b.rules, b.registry);
    PackRises(p, q, b.packs, known, Some(riskP.level), Some(riskQ.level));
    PromptRises(p, q);
    QuotaRises(p, q, b.tenants, PackOf(p, b.packs, known, None).multiplier);
    RegistryRises(p, q, b.registry, b.verifySignatures);
    CostRises(p, q, b.cost);
    ApprovalRises(p, q, b.registry, costP.decision, costQ.decision, riskP.level, riskQ.level);
    hide Max, Sev, ScreenSev, CostSev, PromptSev, MaxSeverity;
    MaxRises(RunAll(p, b, telemetry), RunAll(q, b, telemetry));
  }

  /** The maximum rises with each stage. */
  lemma MaxRises(s: Stages, t: Stages)
    requires Sev(s.packPre.decision) <= Sev(t.packPre.decision) && Sev(s.packPost.decision) <= Sev(t.packPost.decision)
    requires PromptSev(s.prompt.decision) <= PromptSev(t.prompt.decision) && ScreenSev(s.agent) <= ScreenSev(t.agent)
    requires Sev(s.quota.decision) <= Sev(t.quota.decision) && ScreenSev(s.registry) <= ScreenSev(t.registry)
    requires ScreenSev(s.sovereign) <= ScreenSev(t.sovereign) && CostSev(s.cost.decision) <= CostSev(t.cost.decision)
    requires s.risk.level.Rank() <= t.risk.level.Rank() && Sev(s.approval.decision) <= Sev(t.approval.decision)
    ensures MaxSeverity(s) <= MaxSeverity(t)
  {
  }

  lemma SameScreens(p: Row, q: Row, b: Policies)
    requires Raises(p, q)
    ensures var s, t := RunAll(p, b, None), RunAll(q, b, None); s.agent == t.agent && s.sovereign == t.sovereign
  {
    hide PackOf, QuotaOf, RegistryOf, CostOf, RiskOf, ApprovalOf, PromptOf;
  }

  /** The whole evaluation is monotone: asking for more never lowers the verdict, through cost into
      approval, through risk into approval and the second pack pass, and across the short circuit. */
  lemma {:induction false} EvaluationIsMonotone(p: Row, q: Row, b: Policies, telemetry: Option<Telemetry>)
    requires Raises(p, q) && RaisableWeightsOk(b.rules.weights)
    ensures Evaluate(p, b, telemetry).verdict.Severity() <= Evaluate(q, b, telemetry).verdict.Severity()
  {
    hide RunAll, RunStages, MaxSeverity, FinalVerdict, Raises;
    ShortCircuitIsSound(p, b, telemetry);
    ShortCircuitIsSound(q, b, telemetry);
    PipelineVerdictIsMaximum(p, b, telemetry);
    PipelineVerdictIsMaximum(q, b, telemetry);
    StagesRise(p, q, b, telemetry);
  }
}
