/** The stage engines of the governance pipeline (governance/<stage>/evaluate.py). Each has a
    function that says what it decides and why, and the method that decides it, appending reasons
    one by one. */
module Engines {
  import opened Wrappers
  import opened Text

  /** What the prompt scan's patterns found; the patterns themselves are not modelled. */
  datatype PromptHits = PromptHits(blank: bool, pii: bool, secret: bool, injection: bool)

  /** The pipeline row of one request. */
  datatype Row = Row(
    team: string, owner: string, policyPack: string, environment: string, nspace: string, action: string,
    model: string, provider: string, artifactDigest: string, agent: string, region: string,
    prompt: PromptHits, inputTokens: nat, outputTokens: nat, costPerRequest: real, costPerHour: real,
    monthToDate: real, forecast: real, sensitiveData: bool, toolAccess: bool, writePermission: bool,
    requestsLastMinute: nat, tokensToday: nat)

  datatype Decision = Allowed | Warned | NeedsApproval | Blocked

  /** The messages of all stages. */
  datatype Reason =
    | UnknownPack | WrongEnvironment | ExternalProvider | UnregisteredModel | SensitiveWorkload | WrongRegion
    | PackPassed | PackRiskApproval
    | NothingToScan | PromptPassed | PromptDetected | PromptWarning
    | TeamNotOnboarded | RpmExceeded | TokensExceeded | BudgetExceeded | SensitiveNotAllowed | QuotaPassed
    | ModelUnknown | ModelForbidden | NamespaceNotAllowed | PiiNotAllowed | TeamNotAllowed | DigestMismatch
    | AttestationMissing | AttestationInvalid | ModelBudgetExceeded
    | NoCostPolicy | ModelNotApproved | MonthlyBudgetExceeded | NearMonthlyBudget | HourlyCostOverLimit
    | NearHourlyLimit | ForecastOverLimit | NearForecastLimit | WithinLimits
    | NoOwner | CostBlocked | CostWarned | ProductionApproval | ExternalApproval | PostureApproval
    | RiskApproval | HourlyCostApproval | ForecastApproval | LowRisk
    | QuotaUnavailable | FailOpen | Skipped
    | CostStageBlocked | ApprovalStageBlocked | CriticalRisk | HumanReview | CostReview | AllAllow
    | Screened(note: string)

  datatype Stage = Stage(decision: Decision, reasons: seq<Reason>)

  /** A list, and one more entry where a condition holds. */
  function AppendIf<T>(xs: seq<T>, c: bool, x: T): (r: seq<T>)
    ensures r == [] <==> xs == [] && !c
  {
    if c then xs + [x] else xs
  }

  lemma InAppendIf<T>(xs: seq<T>, c: bool, x: T, y: T)
    ensures y in AppendIf(xs, c, x) <==> y in xs || (c && y == x)
  {
  }

  lemma InFour<T>(xs: seq<T>, c1: bool, x1: T, c2: bool, x2: T, c3: bool, x3: T, c4: bool, x4: T, y: T)
    ensures y in AppendIf(AppendIf(AppendIf(AppendIf(xs, c1, x1), c2, x2), c3, x3), c4, x4) <==>
      y in xs || (y == x1 && c1) || (y == x2 && c2) || (y == x3 && c3) || (y == x4 && c4)
  {
    hide AppendIf;
    var r1 := AppendIf(xs, c1, x1);
    var r2 := AppendIf(r1, c2, x2);
    InAppendIf(xs, c1, x1, y);
    InAppendIf(r1, c2, x2, y);
    InAppendIf(r2, c3, x3, y);
    InAppendIf(AppendIf(r2, c3, x3), c4, x4, y);
  }

  lemma InThree<T>(xs: seq<T>, c1: bool, x1: T, c2: bool, x2: T, c3: bool, x3: T, y: T)
    ensures y in AppendIf(AppendIf(AppendIf(xs, c1, x1), c2, x2), c3, x3) <==>
      y in xs || (y == x1 && c1) || (y == x2 && c2) || (y == x3 && c3)
  {
    hide AppendIf;
    var r1 := AppendIf(xs, c1, x1);
    InAppendIf(xs, c1, x1, y);
    InAppendIf(r1, c2, x2, y);
    InAppendIf(AppendIf(r1, c2, x2), c3, x3, y);
  }

  /** Appends to a list of reasons, where a condition holds. */
  method Note(reasons: seq<Reason>, c: bool, r: Reason) returns (reasons': seq<Reason>)
    ensures reasons' == AppendIf(reasons, c, r)
  {
    reasons' := reasons;
    if c { reasons' := reasons' + [r]; }
  }

  const EXTERNAL_PROVIDERS := ["anthropic", "openai", "external"]
  const POSTURE_ACTIONS := ["deploy_model", "enable_external_model", "scale_replicas"]
  const SUPPORTED_TEAMS := ["platform", "search", "mlops", "finance"]
  const FORBIDDEN_MODELS := ["unknown-frontier-model"]

  predicate IsExternal(provider: string) {
    provider in EXTERNAL_PROVIDERS
  }

  /** Actions that change what is served. */
  predicate ChangesPosture(action: string) {
    action in POSTURE_ACTIONS
  }

  predicate EndsWith(s: string, suffix: string) {
    |suffix| <= |s| && s[|s| - |suffix|..] == suffix
  }

  /* Risk levels */

  datatype Level = Low | Medium | High | Critical {
    function Rank(): nat {
      match this
      case Low => 0
      case Medium => 1
      case High => 2
      case Critical => 3
    }
  }

  /** The rank of a level's name, if it is one. */
  function NamedRank(name: string): Option<nat> {
    if name == "low" then Some(0)
    else if name == "medium" then Some(1)
    else if name == "high" then Some(2)
    else if name == "critical" then Some(3)
    else None
  }

  /* Policy packs */

  datatype Pack = Pack(requireEnvironment: string, blockExternal: bool, blockUnknown: bool, blockSensitive: bool,
                       requireRegion: string, minRisk: string, quotaMultiplier: real)

  datatype PackConfig = PackConfig(defaultPack: string, environmentMap: map<string, string>, packs: map<string, Pack>)

  function ResolvePackName(row: Row, c: PackConfig): string {
    var env := Lower(Strip(row.environment));
    if Strip(row.policyPack) != "" then Strip(row.policyPack)
    else if env in c.environmentMap && c.environmentMap[env] != "" then c.environmentMap[env]
    else c.defaultPack
  }

  /** `_risk_at_least`: false for a minimum that names no level. */
  predicate RiskAtLeast(level: Level, minimum: string) {
    NamedRank(minimum).Some? && level.Rank() >= NamedRank(minimum).value
  }

  datatype PackResult = PackResult(pack: string, decision: Decision, reasons: seq<Reason>, multiplier: real)

  predicate WrongEnvironmentFor(row: Row, p: Pack) {
    p.requireEnvironment != "" && row.environment != p.requireEnvironment
  }

  predicate WrongRegionFor(row: Row, p: Pack) {
    p.requireRegion != "" && Strip(row.region) != p.requireRegion
  }

  function PackReasons(row: Row, p: Pack, known: set<string>): seq<Reason> {
    var r := AppendIf([], WrongEnvironmentFor(row, p), WrongEnvironment);
    var r := AppendIf(r, p.blockExternal && IsExternal(row.provider), ExternalProvider);
    var r := AppendIf(r, p.blockUnknown && row.model !in known, UnregisteredModel);
    var r := AppendIf(r, p.blockSensitive && row.sensitiveData, SensitiveWorkload);
    AppendIf(r, WrongRegionFor(row, p), WrongRegion)
  }

  function PackOf(row: Row, c: PackConfig, known: set<string>, level: Option<Level>): PackResult {
    var name := ResolvePackName(row, c);
    if name !in c.packs then PackResult(name, Blocked, [UnknownPack], 1.0)
    else
      var p := c.packs[name];
      var approval := level.Some? && RiskAtLeast(level.value, p.minRisk);
      if PackReasons(row, p, known) != [] then
        PackResult(name, Blocked, PackReasons(row, p, known), p.quotaMultiplier)
      else
        PackResult(name, if approval then NeedsApproval else Allowed,
                   AppendIf([PackPassed], approval, PackRiskApproval), p.quotaMultiplier)
  }

  /** The rules of a pack that a row breaks, by the message each gives. */
  predicate BreaksPack(row: Row, p: Pack, known: set<string>, x: Reason) {
    || (x == WrongEnvironment && p.requireEnvironment != "" && row.environment != p.requireEnvironment)
    || (x == ExternalProvider && p.blockExternal && row.provider in {"anthropic", "openai", "external"})
    || (x == UnregisteredModel && p.blockUnknown && row.model !in known)
    || (x == SensitiveWorkload && p.blockSensitive && row.sensitiveData)
    || (x == WrongRegion && p.requireRegion != "" && Strip(row.region) != p.requireRegion)
  }

  /** A known pack's reasons are the messages of exactly the rules the row breaks. */
  lemma PackReasonsMean(row: Row, p: Pack, known: set<string>, x: Reason)
    ensures x in PackReasons(row, p, known) <==> BreaksPack(row, p, known, x)
  {
    hide AppendIf, Strip;
    var r := AppendIf([], WrongEnvironmentFor(row, p), WrongEnvironment);
    InAppendIf([], WrongEnvironmentFor(row, p), WrongEnvironment, x);
    InFour(r, p.blockExternal && IsExternal(row.provider), ExternalProvider,
           p.blockUnknown && row.model !in known, UnregisteredModel,
           p.blockSensitive && row.sensitiveData, SensitiveWorkload, WrongRegionFor(row, p), WrongRegion, x);
  }

  /** The pack a row is judged by: the one it names, else that of its environment, else the default. */
  predicate NamesPack(row: Row, c: PackConfig, name: string) {
    var named, env := Strip(row.policyPack), Lower(Strip(row.environment));
    var mapped := env in c.environmentMap && c.environmentMap[env] != "";
    && (named != "" ==> name == named)
    && (named == "" && mapped ==> name == c.environmentMap[env])
    && (named == "" && !mapped ==> name == c.defaultPack)
  }

  /** The levels that reach a minimum, given by its name. */
  predicate Reaches(level: Level, minimum: string) {
    || minimum == "low"
    || (minimum == "medium" && !level.Low?)
    || (minimum == "high" && (level.High? || level.Critical?))
    || (minimum == "critical" && level.Critical?)
  }

  /** The pack of a row is unknown, or the row breaks one of its rules. */
  ghost predicate PackForbids(row: Row, c: PackConfig, known: set<string>, name: string) {
    name !in c.packs || exists x :: BreaksPack(row, c.packs[name], known, x)
  }

  /** The pack stage blocks exactly when its pack is unknown or the row breaks one of its rules, and
      then says which; otherwise it asks for approval exactly when the given risk reaches the pack's
      minimum. */
  ghost predicate PackMeaning(row: Row, c: PackConfig, known: set<string>, level: Option<Level>, r: PackResult) {
    var name := r.pack;
    && NamesPack(row, c, name) && r.multiplier == (if name in c.packs then c.packs[name].quotaMultiplier else 1.0)
    && !r.decision.Warned?
    && (r.decision.Blocked? <==> PackForbids(row, c, known, name))
    && (r.decision.NeedsApproval? <==>
          !r.decision.Blocked? && level.Some? && Reaches(level.value, c.packs[name].minRisk))
    && (name !in c.packs ==> r.reasons == [UnknownPack])
    && (r.decision.Blocked? && name in c.packs ==>
          forall x :: x in r.reasons <==> BreaksPack(row, c.packs[name], known, x))
    && (r.decision.Allowed? ==> r.reasons == [PackPassed])
    && (r.decision.NeedsApproval? ==> r.reasons == [PackPassed, PackRiskApproval])
  }

  lemma PackDecides(row: Row, c: PackConfig, known: set<string>, level: Option<Level>)
    ensures PackMeaning(row, c, known, level, PackOf(row, c, known, level))
  {
    hide PackReasons, BreaksPack;
    var name := ResolvePackName(row, c);
    assert NamesPack(row, c, name);
    hide NamesPack, ResolvePackName;
    if name in c.packs {
      forall x ensures x in PackReasons(row, c.packs[name], known) <==> BreaksPack(row, c.packs[name], known, x) {
        PackReasonsMean(row, c.packs[name], known, x);
      }
      var reasons := PackReasons(row, c.packs[name], known);
      if reasons != [] { assert reasons[0] in reasons; }
    }
  }

  method EvaluatePack(row: Row, c: PackConfig, known: set<string>, level: Option<Level>) returns (r: PackResult)
    ensures r == PackOf(row, c, known, level)
    ensures PackMeaning(row, c, known, level, r)
  {
    hide PackMeaning;
    PackDecides(row, c, known, level);
    hide ResolvePackName, RiskAtLeast, IsExternal, WrongEnvironmentFor, WrongRegionFor, AppendIf;
    var name := ResolvePackName(row, c);
    if name !in c.packs { return PackResult(name, Blocked, [UnknownPack], 1.0); }
    var p := c.packs[name];
    var reasons := Note([], WrongEnvironmentFor(row, p), WrongEnvironment);
    reasons := Note(reasons, p.blockExternal && IsExternal(row.provider), ExternalProvider);
    reasons := Note(reasons, p.blockUnknown && row.model !in known, UnregisteredModel);
    reasons := Note(reasons, p.blockSensitive && row.sensitiveData, SensitiveWorkload);
    reasons := Note(reasons, WrongRegionFor(row, p), WrongRegion);
    var approval := level.Some? && RiskAtLeast(level.value, p.minRisk);
    if reasons != [] { return PackResult(name, Blocked, reasons, p.quotaMultiplier); }
    var allowReasons := Note([PackPassed], approval, PackRiskApproval);
    r := PackResult(name, if approval then NeedsApproval else Allowed, allowReasons, p.quotaMultiplier);
  }

  /* Prompt security */

  function PromptOf(row: Row): Stage {
    var h := row.prompt;
    if h.blank then Stage(Allowed, [NothingToScan])
    else if !h.pii && !h.secret && !h.injection then Stage(Allowed, [PromptPassed])
    else if h.injection || h.secret || (h.pii && row.sensitiveData) then Stage(Blocked, [PromptDetected])
    else Stage(Warned, [PromptWarning])
  }

  predicate PromptForbids(row: Row) {
    var h := row.prompt;
    !h.blank && (h.injection || h.secret || (h.pii && row.sensitiveData))
  }

  /** The prompt stage blocks an injection or a secret, and personal data where the workload is
      sensitive; other personal data it warns of. Nothing is found in a blank prompt. */
  ghost predicate PromptMeaning(row: Row, r: Stage) {
    var h := row.prompt;
    && (r.decision.Blocked? <==> PromptForbids(row))
    && (r.decision.Warned? <==> !h.blank && h.pii && !h.injection && !h.secret && !row.sensitiveData)
    && !r.decision.NeedsApproval?
    && (r.decision.Blocked? ==> r.reasons == [PromptDetected])
    && (r.decision.Warned? ==> r.reasons == [PromptWarning])
    && (r.decision.Allowed? ==> r.reasons == [if h.blank then NothingToScan else PromptPassed])
  }

  lemma PromptDecides(row: Row)
    ensures PromptMeaning(row, PromptOf(row))
  {
  }

  /* Tenant quotas */

  datatype Tenant = Tenant(requestsPerMinute: int, tokensPerDay: int, maxMonthlyBudget: Option<real>,
                           sensitiveAllowed: bool)

  /** Python's `int` of a float: towards zero. */
  function Truncate(x: real): int {
    if x >= 0.0 then x.Floor else -(-x).Floor
  }

  /** A limit scaled by the pack; zero means no limit, before and after scaling. */
  function Scaled(limit: int, multiplier: real): int {
    if limit != 0 then Truncate(limit as real * multiplier) else 0
  }

  /** Scaling drops the fraction, whatever the signs; no limit stays none. */
  lemma ScaledDropsFraction(limit: int, multiplier: real)
    ensures var exact, n := limit as real * multiplier, Scaled(limit, multiplier);
      && (exact >= 0.0 ==> n as real <= exact < n as real + 1.0)
      && (exact <= 0.0 ==> n as real - 1.0 < exact <= n as real)
  {
  }

  predicate RpmOver(row: Row, t: Tenant, multiplier: real) {
    var limit := Scaled(t.requestsPerMinute, multiplier);
    limit != 0 && row.requestsLastMinute >= limit
  }

  /** The tokens of today with those of this request. */
  predicate TokensOver(row: Row, t: Tenant, multiplier: real) {
    var limit := Scaled(t.tokensPerDay, multiplier);
    limit != 0 && row.tokensToday + (row.inputTokens + row.outputTokens) > limit
  }

  predicate BudgetOver(row: Row, t: Tenant) {
    t.maxMonthlyBudget.Some? && row.monthToDate + row.costPerRequest > t.maxMonthlyBudget.value
  }

  predicate SensitiveDenied(row: Row, t: Tenant) {
    row.sensitiveData && !t.sensitiveAllowed
  }

  function QuotaReasons(row: Row, t: Tenant, multiplier: real): seq<Reason> {
    var r := AppendIf([], RpmOver(row, t, multiplier), RpmExceeded);
    var r := AppendIf(r, TokensOver(row, t, multiplier), TokensExceeded);
    var r := AppendIf(r, BudgetOver(row, t), BudgetExceeded);
    AppendIf(r, SensitiveDenied(row, t), SensitiveNotAllowed)
  }

  function QuotaOf(row: Row, tenants: map<string, Tenant>, multiplier: real): Stage {
    if row.team !in tenants then Stage(Blocked, [TeamNotOnboarded])
    else
      var reasons := QuotaReasons(row, tenants[row.team], multiplier);
      if reasons != [] then Stage(Blocked, reasons) else Stage(Allowed, [QuotaPassed])
  }

  /** The limits of a tenant that a request would break, by the message each gives. */
  predicate BreaksQuota(row: Row, t: Tenant, multiplier: real, x: Reason) {
    var rpm, tokens := Scaled(t.requestsPerMinute, multiplier), Scaled(t.tokensPerDay, multiplier);
    || (x == RpmExceeded && rpm != 0 && row.requestsLastMinute + 1 > rpm)
    || (x == TokensExceeded && tokens != 0 && row.tokensToday + row.inputTokens + row.outputTokens > tokens)
    || (x == BudgetExceeded && t.maxMonthlyBudget.Some?
        && row.monthToDate + row.costPerRequest > t.maxMonthlyBudget.value)
    || (x == SensitiveNotAllowed && row.sensitiveData && !t.sensitiveAllowed)
  }

  lemma QuotaReasonsMean(row: Row, t: Tenant, multiplier: real, x: Reason)
    ensures x in QuotaReasons(row, t, multiplier) <==> BreaksQuota(row, t, multiplier, x)
  {
    hide AppendIf, Scaled;
    InFour([], RpmOver(row, t, multiplier), RpmExceeded, TokensOver(row, t, multiplier), TokensExceeded,
           BudgetOver(row, t), BudgetExceeded, SensitiveDenied(row, t), SensitiveNotAllowed, x);
  }

  /** The quota stage allows or blocks; it blocks exactly a team that is not onboarded or a request
      that would break one of the team's limits, and then says which. */
  ghost predicate QuotaMeaning(row: Row, tenants: map<string, Tenant>, multiplier: real, r: Stage) {
    && (r.decision.Blocked? || r.decision.Allowed?)
    && (r.decision.Blocked? <==>
          row.team !in tenants || exists x :: BreaksQuota(row, tenants[row.team], multiplier, x))
    && (row.team !in tenants ==> r.reasons == [TeamNotOnboarded])
    && (r.decision.Blocked? && row.team in tenants ==>
          forall x :: x in r.reasons <==> BreaksQuota(row, tenants[row.team], multiplier, x))
    && (r.decision.Allowed? ==> r.reasons == [QuotaPassed])
  }

  lemma QuotaDecides(row: Row, tenants: map<string, Tenant>, multiplier: real)
    ensures QuotaMeaning(row, tenants, multiplier, QuotaOf(row, tenants, multiplier))
  {
    hide QuotaReasons, BreaksQuota;
    if row.team in tenants {
      var t := tenants[row.team];
      forall x ensures x in QuotaReasons(row, t, multiplier) <==> BreaksQuota(row, t, multiplier, x) {
        QuotaReasonsMean(row, t, multiplier, x);
      }
      var reasons := QuotaReasons(row, t, multiplier);
      if reasons != [] { assert reasons[0] in reasons; }
    }
  }

  method EvaluateQuota(row: Row, tenants: map<string, Tenant>, multiplier: real) returns (r: Stage)
    ensures r == QuotaOf(row, tenants, multiplier)
    ensures QuotaMeaning(row, tenants, multiplier, r)
  {
    hide QuotaMeaning;
    QuotaDecides(row, tenants, multiplier);
    if row.team !in tenants { return Stage(Blocked, [TeamNotOnboarded]); }
    hide AppendIf, Scaled;
    var t := tenants[row.team];
    var requestTokens := row.inputTokens + row.outputTokens;
    var rpmLimit := Scaled(t.requestsPerMinute, multiplier);
    var reasons := Note([], rpmLimit != 0 && row.requestsLastMinute >= rpmLimit, RpmExceeded);
    var tokenLimit := Scaled(t.tokensPerDay, multiplier);
    var projected := row.tokensToday + requestTokens;
    reasons := Note(reasons, tokenLimit != 0 && projected > tokenLimit, TokensExceeded);
    reasons := Note(reasons, t.maxMonthlyBudget.Some?
                             && row.monthToDate + row.costPerRequest > t.maxMonthlyBudget.value, BudgetExceeded);
    reasons := Note(reasons, row.sensitiveData && !t.sensitiveAllowed, SensitiveNotAllowed);
    r := if reasons != [] then Stage(Blocked, reasons) else Stage(Allowed, [QuotaPassed]);
  }

  /* Model registry */

  datatype Model = Model(
    forbidden: bool, allowedNamespaces: Option<seq<string>>, piiAllowed: bool, allowedTeams: Option<seq<string>>,
    artifactDigest: string, attestationSignature: string, attestationVerified: bool, riskTier: string,
    maxMonthlyBudget: Option<real>)

  /** The result of a stage that either forbids or does not. */
  datatype Screening = Screening(forbidden: bool, reasons: seq<Reason>)

  predicate NamespaceDenied(row: Row, m: Model) {
    m.allowedNamespaces.Some? && row.nspace !in m.allowedNamespaces.value
  }

  predicate TeamDenied(row: Row, m: Model) {
    m.allowedTeams.Some? && m.allowedTeams.value != [] && row.team !in m.allowedTeams.value
  }

  /** Both digests are given, and they differ. */
  predicate DigestConflict(row: Row, m: Model) {
    var expected, provided := Strip(m.artifactDigest), Strip(row.artifactDigest);
    expected != "" && provided != "" && provided != expected
  }

  predicate Signed(m: Model) {
    Strip(m.attestationSignature) != ""
  }

  predicate Pinned(m: Model) {
    Strip(m.artifactDigest) != ""
  }

  predicate PiiDenied(row: Row, m: Model) {
    row.sensitiveData && !m.piiAllowed
  }

  predicate Unattested(m: Model, verify: bool) {
    verify && Pinned(m) && !Signed(m)
  }

  predicate BadlyAttested(m: Model, verify: bool) {
    verify && Signed(m) && !m.attestationVerified
  }

  predicate OverModelBudget(row: Row, m: Model) {
    m.maxMonthlyBudget.Some? && row.forecast > m.maxMonthlyBudget.value
  }

  /** What the registry holds against the request's use of a model. */
  function UseReasons(row: Row, m: Model): seq<Reason> {
    var r := AppendIf([], m.forbidden, ModelForbidden);
    var r := AppendIf(r, NamespaceDenied(row, m), NamespaceNotAllowed);
    var r := AppendIf(r, PiiDenied(row, m), PiiNotAllowed);
    AppendIf(r, TeamDenied(row, m), TeamNotAllowed)
  }

  function ModelReasons(row: Row, m: Model, verify: bool): seq<Reason> {
    var r := UseReasons(row, m);
    var r := AppendIf(r, DigestConflict(row, m), DigestMismatch);
    var r := AppendIf(r, Unattested(m, verify), AttestationMissing);
    var r := AppendIf(r, BadlyAttested(m, verify), AttestationInvalid);
    AppendIf(r, OverModelBudget(row, m), ModelBudgetExceeded)
  }

  function RegistryOf(row: Row, registry: map<string, Model>, verify: bool): Screening {
    if row.model !in registry then Screening(false, [ModelUnknown])
    else
      var reasons := ModelReasons(row, registry[row.model], verify);
      Screening(reasons != [], reasons)
  }

  /** The rules of a registered model that a request breaks, by the message each gives. */
  predicate BreaksModel(row: Row, m: Model, verify: bool, x: Reason) {
    || (x == ModelForbidden && m.forbidden)
    || (x == NamespaceNotAllowed && m.allowedNamespaces.Some? && row.nspace !in m.allowedNamespaces.value)
    || (x == PiiNotAllowed && row.sensitiveData && !m.piiAllowed)
    || (x == TeamNotAllowed && m.allowedTeams.Some? && m.allowedTeams.value != [] && row.team !in m.allowedTeams.value)
    || (x == DigestMismatch && Strip(m.artifactDigest) != "" && Strip(row.artifactDigest) != ""
        && Strip(row.artifactDigest) != Strip(m.artifactDigest))
    || (x == AttestationMissing && verify && Strip(m.artifactDigest) != "" && Strip(m.attestationSignature) == "")
    || (x == AttestationInvalid && verify && Strip(m.attestationSignature) != "" && !m.attestationVerified)
    || (x == ModelBudgetExceeded && m.maxMonthlyBudget.Some? && row.forecast > m.maxMonthlyBudget.value)
  }

  lemma UseReasonsMean(row: Row, m: Model, x: Reason)
    ensures x in UseReasons(row, m) <==>
      || (x == ModelForbidden && m.forbidden)
      || (x == NamespaceNotAllowed && NamespaceDenied(row, m))
      || (x == PiiNotAllowed && PiiDenied(row, m))
      || (x == TeamNotAllowed && TeamDenied(row, m))
  {
    hide AppendIf, NamespaceDenied, TeamDenied, PiiDenied;
    InFour([], m.forbidden, ModelForbidden, NamespaceDenied(row, m), NamespaceNotAllowed,
           PiiDenied(row, m), PiiNotAllowed, TeamDenied(row, m), TeamNotAllowed, x);
  }

  lemma ModelReasonsMean(row: Row, m: Model, verify: bool, x: Reason)
    ensures x in ModelReasons(row, m, verify) <==> BreaksModel(row, m, verify, x)
  {
    hide AppendIf, UseReasons, Strip;
    UseReasonsMean(row, m, x);
    InFour(UseReasons(row, m), DigestConflict(row, m), DigestMismatch, Unattested(m, verify), AttestationMissing,
           BadlyAttested(m, verify), AttestationInvalid, OverModelBudget(row, m), ModelBudgetExceeded, x);
  }

  /** The registry stage forbids exactly a registered model of which the request breaks some rule, and
      then says which; a model that is not registered it lets pass, with a note. */
  ghost predicate RegistryMeaning(row: Row, registry: map<string, Model>, verify: bool, r: Screening) {
    && (r.forbidden <==> row.model in registry && exists x :: BreaksModel(row, registry[row.model], verify, x))
    && (row.model in registry ==> forall x :: x in r.reasons <==> BreaksModel(row, registry[row.model], verify, x))
    && (row.model !in registry ==> r.reasons == [ModelUnknown])
  }

  lemma RegistryDecides(row: Row, registry: map<string, Model>, verify: bool)
    ensures RegistryMeaning(row, registry, verify, RegistryOf(row, registry, verify))
  {
    hide ModelReasons, BreaksModel;
    if row.model in registry {
      var m := registry[row.model];
      forall x ensures x in ModelReasons(row, m, verify) <==> BreaksModel(row, m, verify, x) {
        ModelReasonsMean(row, m, verify, x);
      }
      var reasons := ModelReasons(row, m, verify);
      if reasons != [] { assert reasons[0] in reasons; }
    }
  }

  method EvaluateModelPolicy(row: Row, registry: map<string, Model>, verify: bool) returns (r: Screening)
    ensures r == RegistryOf(row, registry, verify)
    ensures RegistryMeaning(row, registry, verify, r)
  {
    hide RegistryMeaning;
    RegistryDecides(row, registry, verify);
    if row.model !in registry { return Screening(false, [ModelUnknown]); }
    var m := registry[row.model];
    hide AppendIf, NamespaceDenied, TeamDenied, DigestConflict, PiiDenied, Unattested, BadlyAttested, OverModelBudget;
    var reasons := Note([], m.forbidden, ModelForbidden);
    reasons := Note(reasons, NamespaceDenied(row, m), NamespaceNotAllowed);
    reasons := Note(reasons, PiiDenied(row, m), PiiNotAllowed);
    reasons := Note(reasons, TeamDenied(row, m), TeamNotAllowed);
    reasons := Note(reasons, DigestConflict(row, m), DigestMismatch);
    reasons := Note(reasons, Unattested(m, verify), AttestationMissing);
    reasons := Note(reasons, BadlyAttested(m, verify), AttestationInvalid);
    reasons := Note(reasons, OverModelBudget(row, m), ModelBudgetExceeded);
    r := Screening(reasons != [], reasons);
  }

  /* Cost */

  datatype TeamBudget = TeamBudget(allowedModels: seq<string>, monthlyBudget: real, warnAtPercent: real)

  datatype CostPolicy = CostPolicy(
    maxHourly: real, warnHourly: real, maxForecast: real, warnForecast: real, teams: map<string, TeamBudget>)

  function CostReasons(row: Row, p: CostPolicy): seq<Reason> {
    var r := if row.team !in p.teams then [NoCostPolicy]
             else
               var b := p.teams[row.team];
               AppendIf(AppendIf([], row.model !in b.allowedModels, ModelNotApproved),
                        row.monthToDate > b.monthlyBudget, MonthlyBudgetExceeded);
    AppendIf(AppendIf(r, row.costPerHour > p.maxHourly, HourlyCostOverLimit),
             row.forecast > p.maxForecast, ForecastOverLimit)
  }

  function CostWarnings(row: Row, p: CostPolicy): seq<Reason> {
    var r := if row.team !in p.teams then []
             else
               var b := p.teams[row.team];
               AppendIf([], row.monthToDate <= b.monthlyBudget
                            && row.monthToDate >= b.monthlyBudget * (b.warnAtPercent / 100.0), NearMonthlyBudget);
    AppendIf(AppendIf(r, row.costPerHour <= p.maxHourly && row.costPerHour >= p.warnHourly, NearHourlyLimit),
             row.forecast <= p.maxForecast && row.forecast >= p.warnForecast, NearForecastLimit)
  }

  function CostOf(row: Row, p: CostPolicy): Stage {
    if CostReasons(row, p) != [] then Stage(Blocked, CostReasons(row, p))
    else if CostWarnings(row, p) != [] then Stage(Warned, CostWarnings(row, p))
    else Stage(Allowed, [WithinLimits])
  }

  /** The hard limits of cost that a row breaks, by the message each gives. */
  predicate BreaksCost(row: Row, p: CostPolicy, x: Reason) {
    || (x == NoCostPolicy && row.team !in p.teams)
    || (x == ModelNotApproved && row.team in p.teams && row.model !in p.teams[row.team].allowedModels)
    || (x == MonthlyBudgetExceeded && row.team in p.teams && row.monthToDate > p.teams[row.team].monthlyBudget)
    || (x == HourlyCostOverLimit && row.costPerHour > p.maxHourly)
    || (x == ForecastOverLimit && row.forecast > p.maxForecast)
  }

  /** The warning thresholds a row reaches, by the message each gives. */
  predicate NearsCost(row: Row, p: CostPolicy, x: Reason) {
    || (x == NearMonthlyBudget && row.team in p.teams
        && row.monthToDate >= p.teams[row.team].monthlyBudget * (p.teams[row.team].warnAtPercent / 100.0))
    || (x == NearHourlyLimit && row.costPerHour >= p.warnHourly)
    || (x == NearForecastLimit && row.forecast >= p.warnForecast)
  }

  lemma CostReasonsMean(row: Row, p: CostPolicy, x: Reason)
    ensures x in CostReasons(row, p) <==> BreaksCost(row, p, x)
  {
  }

  lemma CostWarningsMean(row: Row, p: CostPolicy, x: Reason)
    requires CostReasons(row, p) == []
    ensures x in CostWarnings(row, p) <==> NearsCost(row, p, x)
  {
  }

  /** The cost stage blocks exactly a row over some hard limit, else warns of exactly the thresholds the
      row reaches. */
  ghost predicate CostMeaning(row: Row, p: CostPolicy, r: Stage) {
    && !r.decision.NeedsApproval?
    && (r.decision.Blocked? <==> exists x :: BreaksCost(row, p, x))
    && (r.decision.Warned? <==> !r.decision.Blocked? && exists x :: NearsCost(row, p, x))
    && (r.decision.Blocked? ==> forall x :: x in r.reasons <==> BreaksCost(row, p, x))
    && (r.decision.Warned? ==> forall x :: x in r.reasons <==> NearsCost(row, p, x))
    && (r.decision.Allowed? ==> r.reasons == [WithinLimits])
  }

  lemma CostDecides(row: Row, p: CostPolicy)
    ensures CostMeaning(row, p, CostOf(row, p))
  {
    hide CostReasons, CostWarnings, BreaksCost, NearsCost;
    var reasons, warnings := CostReasons(row, p), CostWarnings(row, p);
    forall x ensures x in reasons <==> BreaksCost(row, p, x) { CostReasonsMean(row, p, x); }
    if reasons != [] {
      assert reasons[0] in reasons;
    } else {
      forall x ensures x in warnings <==> NearsCost(row, p, x) { CostWarningsMean(row, p, x); }
      if warnings != [] { assert warnings[0] in warnings; }
    }
  }

  method EvaluateCost(row: Row, p: CostPolicy) returns (r: Stage)
    ensures r == CostOf(row, p)
    ensures CostMeaning(row, p, r)
  {
    hide CostMeaning;
    CostDecides(row, p);
    var reasons: seq<Reason>, warnings: seq<Reason> := [], [];
    if row.team !in p.teams {
      reasons := reasons + [NoCostPolicy];
    } else {
      var b := p.teams[row.team];
      if row.model !in b.allowedModels { reasons := reasons + [ModelNotApproved]; }
      var warnThreshold := b.monthlyBudget * (b.warnAtPercent / 100.0);
      if row.monthToDate > b.monthlyBudget {
        reasons := reasons + [MonthlyBudgetExceeded];
      } else if row.monthToDate >= warnThreshold {
        warnings := warnings + [NearMonthlyBudget];
      }
    }
    if row.costPerHour > p.maxHourly {
      reasons := reasons + [HourlyCostOverLimit];
    } else if row.costPerHour >= p.warnHourly {
      warnings := warnings + [NearHourlyLimit];
    }
    if row.forecast > p.maxForecast {
      reasons := reasons + [ForecastOverLimit];
    } else if row.forecast >= p.warnForecast {
      warnings := warnings + [NearForecastLimit];
    }
    if reasons != [] {
      r := Stage(Blocked, reasons);
    } else if warnings != [] {
      r := Stage(Warned, warnings);
    } else {
      r := Stage(Allowed, [WithinLimits]);
    }
  }

  /* Risk */

  datatype Weights = Weights(
    missingOwner: int, externalProvider: int, productionNamespace: int, highTokenVolume: int, highCostForecast: int,
    sensitiveData: int, toolAccess: int, writePermission: int, deployPermission: int)

  datatype RiskRules = RiskRules(
    weights: Weights, highTokenVolume: int, highCostForecast: real, mediumMin: int, highMin: int, criticalMin: int,
    externalProviders: seq<string>, productionNamespaces: seq<string>)

  datatype FactorName =
    | MissingOwner | FromExternalProvider | InProduction | HighTokenVolume | HighCostForecast | Sensitive
    | UsesTools | Writes | Deploys | NotRegistered | CriticalTier | HighTier | DeniedPii

  datatype Factor = Factor(name: FactorName, points: int)

  datatype RiskResult = RiskResult(score: int, level: Level, factors: seq<Factor>)

  function Points(factors: seq<Factor>): int {
    if factors == [] then 0 else Points(factors[..|factors| - 1]) + factors[|factors| - 1].points
  }

  function RiskLevel(score: int, rules: RiskRules): Level {
    if score >= rules.criticalMin then Critical
    else if score >= rules.highMin then High
    else if score >= rules.mediumMin then Medium
    else Low
  }

  /** The factors, in the order they are added. */
  function Factors(row: Row, rules: RiskRules): seq<Factor> {
    var w := rules.weights;
    var f := AppendIf([], row.owner == "", Factor(MissingOwner, w.missingOwner));
    var f := AppendIf(f, row.provider in rules.externalProviders, Factor(FromExternalProvider, w.externalProvider));
    var f := AppendIf(f, InProductionNamespace(row, rules), Factor(InProduction, w.productionNamespace));
    var f := AppendIf(f, HighVolume(row, rules),
                      Factor(HighTokenVolume, w.highTokenVolume));
    var f := AppendIf(f, row.forecast >= rules.highCostForecast, Factor(HighCostForecast, w.highCostForecast));
    var f := AppendIf(f, row.sensitiveData, Factor(Sensitive, w.sensitiveData));
    var f := AppendIf(f, row.toolAccess, Factor(UsesTools, w.toolAccess));
    var f := AppendIf(f, row.writePermission, Factor(Writes, w.writePermission));
    AppendIf(f, ChangesPosture(row.action), Factor(Deploys, w.deployPermission))
  }

  /** The factors that come from the registry, after those of the request. */
  function AllFactors(row: Row, rules: RiskRules, registry: map<string, Model>): seq<Factor> {
    var w, f := rules.weights, Factors(row, rules);
    if row.model !in registry then AppendIf(f, true, Factor(NotRegistered, w.missingOwner))
    else
      var m := registry[row.model];
      var f := AppendIf(f, m.riskTier == "critical", Factor(CriticalTier, w.highCostForecast));
      var f := AppendIf(f, m.riskTier == "high", Factor(HighTier, w.externalProvider));
      AppendIf(f, PiiDenied(row, m), Factor(DeniedPii, w.sensitiveData))
  }

  predicate HighVolume(row: Row, rules: RiskRules) {
    row.inputTokens + row.outputTokens >= rules.highTokenVolume
  }

  predicate InProductionNamespace(row: Row, rules: RiskRules) {
    ProductionFacing(row) || row.nspace in rules.productionNamespaces
  }

  function Capped(score: int): int {
    if score < 100 then score else 100
  }

  function RiskOf(row: Row, rules: RiskRules, registry: map<string, Model>): RiskResult {
    var factors := AllFactors(row, rules, registry);
    var score := Capped(Points(factors));
    RiskResult(score, RiskLevel(score, rules), factors)
  }

  method AddFactor(score: int, factors: seq<Factor>, c: bool, name: FactorName, points: int)
    returns (score': int, factors': seq<Factor>)
    requires score == Points(factors)
    ensures factors' == AppendIf(factors, c, Factor(name, points)) && score' == Points(factors')
  {
    score', factors' := score, factors;
    if c {
      score' := score + points;
      factors' := factors + [Factor(name, points)];
      assert factors'[..|factors|] == factors;
    }
  }

  method RequestFactors(row: Row, rules: RiskRules) returns (score: int, factors: seq<Factor>)
    ensures factors == Factors(row, rules) && score == Points(factors)
  {
    hide AppendIf, InProductionNamespace, ChangesPosture, HighVolume, Points;
    var w := rules.weights;
    assert Points([]) == 0 by { EmptyPoints(); }
    score, factors := AddFactor(0, [], row.owner == "", MissingOwner, w.missingOwner);
    score, factors := AddFactor(score, factors, row.provider in rules.externalProviders,
                                FromExternalProvider, w.externalProvider);
    score, factors := AddFactor(score, factors, InProductionNamespace(row, rules),
                                InProduction, w.productionNamespace);
    score, factors := AddFactor(score, factors, HighVolume(row, rules), HighTokenVolume, w.highTokenVolume);
    score, factors := AddFactor(score, factors, row.forecast >= rules.highCostForecast,
                                HighCostForecast, w.highCostForecast);
    score, factors := AddFactor(score, factors, row.sensitiveData, Sensitive, w.sensitiveData);
    score, factors := AddFactor(score, factors, row.toolAccess, UsesTools, w.toolAccess);
    score, factors := AddFactor(score, factors, row.writePermission, Writes, w.writePermission);
    score, factors := AddFactor(score, factors, ChangesPosture(row.action), Deploys, w.deployPermission);
  }

  lemma EmptyPoints()
    ensures Points([]) == 0
  {
  }

  lemma AppendPoints(f: seq<Factor>, c: bool, x: Factor)
    ensures Points(AppendIf(f, c, x)) == Points(f) + if c then x.points else 0
  {
    if c {
      assert (f + [x])[..|f|] == f;
    }
  }

  /** The points the request itself deserves: one term for each factor that applies. */
  ghost function RequestPoints(row: Row, rules: RiskRules): int {
    var w := rules.weights;
    (if row.owner == "" then w.missingOwner else 0)
    + (if row.provider in rules.externalProviders then w.externalProvider else 0)
    + (if FacesProduction(row) || row.nspace in rules.productionNamespaces then w.productionNamespace else 0)
    + (if row.inputTokens + row.outputTokens >= rules.highTokenVolume then w.highTokenVolume else 0)
    + (if row.forecast >= rules.highCostForecast then w.highCostForecast else 0)
    + (if row.sensitiveData then w.sensitiveData else 0)
    + (if row.toolAccess then w.toolAccess else 0)
    + (if row.writePermission then w.writePermission else 0)
    + (if row.action in {"deploy_model", "enable_external_model", "scale_replicas"} then w.deployPermission else 0)
  }

  /** The points its model adds. */
  function ModelPoints(row: Row, rules: RiskRules, registry: map<string, Model>): int {
    var w := rules.weights;
    if row.model !in registry then w.missingOwner
    else
      var m := registry[row.model];
      (if m.riskTier == "critical" then w.highCostForecast else 0)
      + (if m.riskTier == "high" then w.externalProvider else 0)
      + (if row.sensitiveData && !m.piiAllowed then w.sensitiveData else 0)
  }

  /** The score as a sum of independent terms. */
  lemma FactorPoints(row: Row, rules: RiskRules)
    ensures Points(Factors(row, rules)) == RequestPoints(row, rules)
  {
    FacingMeaning(row);
    hide Points, AppendIf, ProductionFacing, FacesProduction;
    var w := rules.weights;
    EmptyPoints();
    var f0 := AppendIf([], row.owner == "", Factor(MissingOwner, w.missingOwner));
    AppendPoints([], row.owner == "", Factor(MissingOwner, w.missingOwner));
    var f1 := AppendIf(f0, row.provider in rules.externalProviders, Factor(FromExternalProvider, w.externalProvider));
    AppendPoints(f0, row.provider in rules.externalProviders, Factor(FromExternalProvider, w.externalProvider));
    var f2 := AppendIf(f1, InProductionNamespace(row, rules), Factor(InProduction, w.productionNamespace));
    AppendPoints(f1, InProductionNamespace(row, rules), Factor(InProduction, w.productionNamespace));
    var f3 := AppendIf(f2, HighVolume(row, rules), Factor(HighTokenVolume, w.highTokenVolume));
    AppendPoints(f2, HighVolume(row, rules), Factor(HighTokenVolume, w.highTokenVolume));
    var f4 := AppendIf(f3, row.forecast >= rules.highCostForecast, Factor(HighCostForecast, w.highCostForecast));
    AppendPoints(f3, row.forecast >= rules.highCostForecast, Factor(HighCostForecast, w.highCostForecast));
    var f5 := AppendIf(f4, row.sensitiveData, Factor(Sensitive, w.sensitiveData));
    AppendPoints(f4, row.sensitiveData, Factor(Sensitive, w.sensitiveData));
    var f6 := AppendIf(f5, row.toolAccess, Factor(UsesTools, w.toolAccess));
    AppendPoints(f5, row.toolAccess, Factor(UsesTools, w.toolAccess));
    var f7 := AppendIf(f6, row.writePermission, Factor(Writes, w.writePermission));
    AppendPoints(f6, row.writePermission, Factor(Writes, w.writePermission));
    AppendPoints(f7, ChangesPosture(row.action), Factor(Deploys, w.deployPermission));
  }

  lemma RegistryPoints(row: Row, rules: RiskRules, registry: map<string, Model>)
    ensures Points(AllFactors(row, rules, registry)) == Points(Factors(row, rules)) + ModelPoints(row, rules, registry)
  {
    hide Points, AppendIf, Factors;
    var w, f := rules.weights, Factors(row, rules);
    if row.model !in registry {
      AppendPoints(f, true, Factor(NotRegistered, w.missingOwner));
    } else {
      var m := registry[row.model];
      var f1 := AppendIf(f, m.riskTier == "critical", Factor(CriticalTier, w.highCostForecast));
      AppendPoints(f, m.riskTier == "critical", Factor(CriticalTier, w.highCostForecast));
      var f2 := AppendIf(f1, m.riskTier == "high", Factor(HighTier, w.externalProvider));
      AppendPoints(f1, m.riskTier == "high", Factor(HighTier, w.externalProvider));
      AppendPoints(f2, PiiDenied(row, m), Factor(DeniedPii, w.sensitiveData));
    }
  }

  /** The factors that apply, with the points of each. */
  ghost predicate Applies(row: Row, rules: RiskRules, f: Factor) {
    var w := rules.weights;
    || (f == Factor(MissingOwner, w.missingOwner) && row.owner == "")
    || (f == Factor(FromExternalProvider, w.externalProvider) && row.provider in rules.externalProviders)
    || (f == Factor(InProduction, w.productionNamespace)
        && (FacesProduction(row) || row.nspace in rules.productionNamespaces))
    || (f == Factor(HighTokenVolume, w.highTokenVolume) && row.inputTokens + row.outputTokens >= rules.highTokenVolume)
    || (f == Factor(HighCostForecast, w.highCostForecast) && row.forecast >= rules.highCostForecast)
    || (f == Factor(Sensitive, w.sensitiveData) && row.sensitiveData)
    || (f == Factor(UsesTools, w.toolAccess) && row.toolAccess)
    || (f == Factor(Writes, w.writePermission) && row.writePermission)
    || (f == Factor(Deploys, w.deployPermission)
        && row.action in {"deploy_model", "enable_external_model", "scale_replicas"})
  }

  lemma FactorsMean(row: Row, rules: RiskRules, f: Factor)
    ensures f in Factors(row, rules) <==> Applies(row, rules, f)
  {
    FacingMeaning(row);
    hide AppendIf, ProductionFacing, FacesProduction;
    var w := rules.weights;
    var f4 := AppendIf(AppendIf(AppendIf(AppendIf(
                [], row.owner == "", Factor(MissingOwner, w.missingOwner)),
                row.provider in rules.externalProviders, Factor(FromExternalProvider, w.externalProvider)),
                InProductionNamespace(row, rules), Factor(InProduction, w.productionNamespace)),
                HighVolume(row, rules), Factor(HighTokenVolume, w.highTokenVolume));
    InFour([], row.owner == "", Factor(MissingOwner, w.missingOwner),
           row.provider in rules.externalProviders, Factor(FromExternalProvider, w.externalProvider),
           InProductionNamespace(row, rules), Factor(InProduction, w.productionNamespace),
           HighVolume(row, rules), Factor(HighTokenVolume, w.highTokenVolume), f);
    var f8 := AppendIf(AppendIf(AppendIf(AppendIf(
                f4, row.forecast >= rules.highCostForecast, Factor(HighCostForecast, w.highCostForecast)),
                row.sensitiveData, Factor(Sensitive, w.sensitiveData)),
                row.toolAccess, Factor(UsesTools, w.toolAccess)),
                row.writePermission, Factor(Writes, w.writePermission));
    InFour(f4, row.forecast >= rules.highCostForecast, Factor(HighCostForecast, w.highCostForecast),
           row.sensitiveData, Factor(Sensitive, w.sensitiveData), row.toolAccess, Factor(UsesTools, w.toolAccess),
           row.writePermission, Factor(Writes, w.writePermission), f);
    InAppendIf(f8, ChangesPosture(row.action), Factor(Deploys, w.deployPermission), f);
  }

  /** The factors that apply because of the model. */
  predicate ModelApplies(row: Row, rules: RiskRules, registry: map<string, Model>, f: Factor) {
    var w := rules.weights;
    if row.model !in registry then f == Factor(NotRegistered, w.missingOwner)
    else
      var m := registry[row.model];
      || (f == Factor(CriticalTier, w.highCostForecast) && m.riskTier == "critical")
      || (f == Factor(HighTier, w.externalProvider) && m.riskTier == "high")
      || (f == Factor(DeniedPii, w.sensitiveData) && row.sensitiveData && !m.piiAllowed)
  }

  lemma AllFactorsMean(row: Row, rules: RiskRules, registry: map<string, Model>, f: Factor)
    ensures f in AllFactors(row, rules, registry) <==> Applies(row, rules, f) || ModelApplies(row, rules, registry, f)
  {
    hide AppendIf, Factors, Applies;
    FactorsMean(row, rules, f);
    var w, f0 := rules.weights, Factors(row, rules);
    if row.model !in registry {
      InAppendIf(f0, true, Factor(NotRegistered, w.missingOwner), f);
    } else {
      var m := registry[row.model];
      var f1 := AppendIf(f0, m.riskTier == "critical", Factor(CriticalTier, w.highCostForecast));
      InAppendIf(f0, m.riskTier == "critical", Factor(CriticalTier, w.highCostForecast), f);
      InAppendIf(f1, m.riskTier == "high", Factor(HighTier, w.externalProvider), f);
      InAppendIf(AppendIf(f1, m.riskTier == "high", Factor(HighTier, w.externalProvider)), PiiDenied(row, m),
                 Factor(DeniedPii, w.sensitiveData), f);
    }
  }

  /** The level of a row with so many points due, which count up to 100: the highest whose threshold
      they reach. */
  predicate LevelFits(due: int, rules: RiskRules, level: Level) {
    var critical := rules.criticalMin <= due && rules.criticalMin <= 100;
    var high := rules.highMin <= due && rules.highMin <= 100;
    var medium := rules.mediumMin <= due && rules.mediumMin <= 100;
    && (level.Critical? <==> critical)
    && (level.High? <==> high && !critical)
    && (level.Medium? <==> medium && !high && !critical)
  }

  /** The score is the number of points due, capped at 100, the level the one it reaches, and the
      factors are those that apply. */
  ghost predicate RiskMeaning(row: Row, rules: RiskRules, registry: map<string, Model>, r: RiskResult) {
    var due := RequestPoints(row, rules) + ModelPoints(row, rules, registry);
    && r.score <= due && r.score <= 100 && (r.score == due || r.score == 100)
    && LevelFits(due, rules, r.level)
    && Points(r.factors) == due
    && (forall f :: f in r.factors <==> Applies(row, rules, f) || ModelApplies(row, rules, registry, f))
  }

  lemma RiskDecides(row: Row, rules: RiskRules, registry: map<string, Model>)
    ensures RiskMeaning(row, rules, registry, RiskOf(row, rules, registry))
  {
    hide Points, Factors, AllFactors, Applies, ModelApplies, RequestPoints, ModelPoints;
    FactorPoints(row, rules);
    RegistryPoints(row, rules, registry);
    forall f ensures f in AllFactors(row, rules, registry) <==>
                     Applies(row, rules, f) || ModelApplies(row, rules, registry, f)
    {
      AllFactorsMean(row, rules, registry, f);
    }
  }

  method EvaluateRisk(row: Row, rules: RiskRules, registry: map<string, Model>) returns (r: RiskResult)
    ensures r == RiskOf(row, rules, registry)
    ensures RiskMeaning(row, rules, registry, r)
  {
    hide AppendIf, Factors, Points, PiiDenied, RiskMeaning;
    RiskDecides(row, rules, registry);
    var w := rules.weights;
    var score, factors := RequestFactors(row, rules);
    if row.model !in registry {
      score, factors := AddFactor(score, factors, true, NotRegistered, w.missingOwner);
    } else {
      var m := registry[row.model];
      score, factors := AddFactor(score, factors, m.riskTier == "critical", CriticalTier, w.highCostForecast);
      score, factors := AddFactor(score, factors, m.riskTier == "high", HighTier, w.externalProvider);
      score, factors := AddFactor(score, factors, PiiDenied(row, m), DeniedPii, w.sensitiveData);
    }
    var bounded := if score < 100 then score else 100;
    r := RiskResult(bounded, RiskLevel(bounded, rules), factors);
  }

  /* Approval workflow */

  predicate Unowned(row: Row) {
    row.owner == "" || row.owner == "none"
  }

  predicate Onboarded(team: string) {
    team in SUPPORTED_TEAMS
  }

  predicate ForbiddenModel(model: string) {
    model in FORBIDDEN_MODELS
  }

  predicate HighRisk(level: Level) {
    level.High? || level.Critical?
  }

  predicate HighHourlyCost(row: Row) {
    row.costPerHour >= 0.75
  }

  predicate HighForecast(row: Row) {
    row.forecast >= 1500.0
  }

  predicate ProductionFacing(row: Row) {
    row.environment == "production" || EndsWith(row.nspace, "-prod")
  }

  function ApprovalBlocks(row: Row, registry: map<string, Model>, cost: Decision): seq<Reason> {
    var r := AppendIf([], Unowned(row), NoOwner);
    var r := AppendIf(r, !Onboarded(row.team), TeamNotOnboarded);
    var r := if row.model in registry then
               var m := registry[row.model];
               AppendIf(AppendIf(r, m.forbidden, ModelForbidden),
                        NamespaceDenied(row, m), NamespaceNotAllowed)
             else AppendIf(r, ForbiddenModel(row.model), ModelForbidden);
    AppendIf(r, cost.Blocked?, CostBlocked)
  }

  function ApprovalNeeds(row: Row, cost: Decision, level: Level): seq<Reason> {
    var r := AppendIf([], cost.Warned?, CostWarned);
    var r := AppendIf(r, ProductionFacing(row), ProductionApproval);
    var r := AppendIf(r, IsExternal(row.provider), ExternalApproval);
    var r := AppendIf(r, ChangesPosture(row.action), PostureApproval);
    var r := AppendIf(r, HighRisk(level), RiskApproval);
    var r := AppendIf(r, HighHourlyCost(row), HourlyCostApproval);
    AppendIf(r, HighForecast(row), ForecastApproval)
  }

  function ApprovalOf(row: Row, registry: map<string, Model>, cost: Decision, level: Level): Stage {
    if ApprovalBlocks(row, registry, cost) != [] then Stage(Blocked, ApprovalBlocks(row, registry, cost))
    else if ApprovalNeeds(row, cost, level) != [] then Stage(NeedsApproval, ApprovalNeeds(row, cost, level))
    else Stage(Allowed, [LowRisk])
  }

  /** What blocks a request in the approval workflow, by the message each gives. */
  predicate BlocksApproval(row: Row, registry: map<string, Model>, cost: Decision, x: Reason) {
    || (x == NoOwner && (row.owner == "" || row.owner == "none"))
    || (x == TeamNotOnboarded && row.team !in {"platform", "search", "mlops", "finance"})
    || (x == ModelForbidden
        && if row.model in registry then registry[row.model].forbidden else row.model == "unknown-frontier-model")
    || (x == NamespaceNotAllowed && row.model in registry && registry[row.model].allowedNamespaces.Some?
        && row.nspace !in registry[row.model].allowedNamespaces.value)
    || (x == CostBlocked && cost.Blocked?)
  }

  /** The environment is production, or the namespace is some name with the suffix of production. */
  ghost predicate FacesProduction(row: Row) {
    row.environment == "production" || exists name :: row.nspace == name + "-prod"
  }

  lemma FacingMeaning(row: Row)
    ensures ProductionFacing(row) <==> FacesProduction(row)
  {
    if EndsWith(row.nspace, "-prod") {
      assert row.nspace == row.nspace[..|row.nspace| - 5] + "-prod";
    }
  }

  /** What asks for review, by the message each gives. */
  ghost predicate NeedsReview(row: Row, cost: Decision, level: Level, x: Reason) {
    || (x == CostWarned && cost.Warned?)
    || (x == ProductionApproval && FacesProduction(row))
    || (x == ExternalApproval && row.provider in {"anthropic", "openai", "external"})
    || (x == PostureApproval && row.action in {"deploy_model", "enable_external_model", "scale_replicas"})
    || (x == RiskApproval && (level.High? || level.Critical?))
    || (x == HourlyCostApproval && row.costPerHour >= 0.75)
    || (x == ForecastApproval && row.forecast >= 1500.0)
  }

  lemma ApprovalBlocksMean(row: Row, registry: map<string, Model>, cost: Decision, x: Reason)
    ensures x in ApprovalBlocks(row, registry, cost) <==> BlocksApproval(row, registry, cost, x)
  {
    hide AppendIf;
    var r1 := AppendIf([], Unowned(row), NoOwner);
    var r2 := AppendIf(r1, !Onboarded(row.team), TeamNotOnboarded);
    InAppendIf([], Unowned(row), NoOwner, x);
    InAppendIf(r1, !Onboarded(row.team), TeamNotOnboarded, x);
    if row.model in registry {
      var m := registry[row.model];
      var r3 := AppendIf(r2, m.forbidden, ModelForbidden);
      InAppendIf(r2, m.forbidden, ModelForbidden, x);
      InAppendIf(r3, NamespaceDenied(row, m), NamespaceNotAllowed, x);
      InAppendIf(AppendIf(r3, NamespaceDenied(row, m), NamespaceNotAllowed), cost.Blocked?, CostBlocked, x);
    } else {
      InAppendIf(r2, ForbiddenModel(row.model), ModelForbidden, x);
      InAppendIf(AppendIf(r2, ForbiddenModel(row.model), ModelForbidden), cost.Blocked?, CostBlocked, x);
    }
  }

  lemma ApprovalNeedsMean(row: Row, cost: Decision, level: Level, x: Reason)
    ensures x in ApprovalNeeds(row, cost, level) <==> NeedsReview(row, cost, level, x)
  {
    hide ApprovalNeeds, ProductionFacing, FacesProduction, IsExternal, ChangesPosture;
    ApprovalNeedsNamed(row, cost, level, x);
    FacingMeaning(row);
    ExternalMeaning(row.provider);
    PostureMeaning(row.action);
  }

  lemma ExternalMeaning(provider: string)
    ensures IsExternal(provider) <==> provider in {"anthropic", "openai", "external"}
  {
  }

  lemma PostureMeaning(action: string)
    ensures ChangesPosture(action) <==> action in {"deploy_model", "enable_external_model", "scale_replicas"}
  {
  }

  lemma ApprovalNeedsNamed(row: Row, cost: Decision, level: Level, x: Reason)
    ensures x in ApprovalNeeds(row, cost, level) <==>
      || (x == CostWarned && cost.Warned?) || (x == ProductionApproval && ProductionFacing(row))
      || (x == ExternalApproval && IsExternal(row.provider)) || (x == PostureApproval && ChangesPosture(row.action))
      || (x == RiskApproval && HighRisk(level)) || (x == HourlyCostApproval && HighHourlyCost(row))
      || (x == ForecastApproval && HighForecast(row))
  {
    hide AppendIf, ProductionFacing, IsExternal, ChangesPosture, HighRisk, HighHourlyCost, HighForecast;
    var r3 := AppendIf(AppendIf(AppendIf([], cost.Warned?, CostWarned), ProductionFacing(row), ProductionApproval),
                       IsExternal(row.provider), ExternalApproval);
    InThree([], cost.Warned?, CostWarned, ProductionFacing(row), ProductionApproval,
            IsExternal(row.provider), ExternalApproval, x);
    InFour(r3, ChangesPosture(row.action), PostureApproval, HighRisk(level), RiskApproval,
           HighHourlyCost(row), HourlyCostApproval, HighForecast(row), ForecastApproval, x);
  }

  /** The approval stage blocks exactly when something blocks, whatever else asks for review; else it
      asks for approval exactly when something asks for review; and it says which. */
  ghost predicate ApprovalMeaning(row: Row, registry: map<string, Model>, cost: Decision, level: Level, r: Stage) {
    && !r.decision.Warned?
    && (r.decision.Blocked? <==> exists x :: BlocksApproval(row, registry, cost, x))
    && (r.decision.NeedsApproval? <==> !r.decision.Blocked? && exists x :: NeedsReview(row, cost, level, x))
    && (r.decision.Blocked? ==> forall x :: x in r.reasons <==> BlocksApproval(row, registry, cost, x))
    && (r.decision.NeedsApproval? ==> forall x :: x in r.reasons <==> NeedsReview(row, cost, level, x))
    && (r.decision.Allowed? ==> r.reasons == [LowRisk])
  }

  lemma ApprovalDecides(row: Row, registry: map<string, Model>, cost: Decision, level: Level)
    ensures ApprovalMeaning(row, registry, cost, level, ApprovalOf(row, registry, cost, level))
  {
    hide ApprovalBlocks, ApprovalNeeds, BlocksApproval, NeedsReview;
    forall x ensures x in ApprovalBlocks(row, registry, cost) <==> BlocksApproval(row, registry, cost, x) {
      ApprovalBlocksMean(row, registry, cost, x);
    }
    forall x ensures x in ApprovalNeeds(row, cost, level) <==> NeedsReview(row, cost, level, x) {
      ApprovalNeedsMean(row, cost, level, x);
    }
    var blocks, needs := ApprovalBlocks(row, registry, cost), ApprovalNeeds(row, cost, level);
    if blocks != [] { assert blocks[0] in blocks; }
    if needs != [] { assert needs[0] in needs; }
  }

  method EvaluateApproval(row: Row, registry: map<string, Model>, cost: Decision, level: Level) returns (r: Stage)
    ensures r == ApprovalOf(row, registry, cost, level)
    ensures ApprovalMeaning(row, registry, cost, level, r)
  {
    hide ApprovalMeaning;
    ApprovalDecides(row, registry, cost, level);
    hide AppendIf, Unowned, Onboarded, ForbiddenModel, ProductionFacing, IsExternal, ChangesPosture, NamespaceDenied;
    var blocks := Note([], Unowned(row), NoOwner);
    blocks := Note(blocks, !Onboarded(row.team), TeamNotOnboarded);
    if row.model in registry {
      var m := registry[row.model];
      blocks := Note(blocks, m.forbidden, ModelForbidden);
      blocks := Note(blocks, NamespaceDenied(row, m), NamespaceNotAllowed);
    } else {
      blocks := Note(blocks, ForbiddenModel(row.model), ModelForbidden);
    }
    blocks := Note(blocks, cost.Blocked?, CostBlocked);
    var needs := Note([], cost.Warned?, CostWarned);
    needs := Note(needs, ProductionFacing(row), ProductionApproval);
    needs := Note(needs, IsExternal(row.provider), ExternalApproval);
    needs := Note(needs, ChangesPosture(row.action), PostureApproval);
    needs := Note(needs, HighRisk(level), RiskApproval);
    needs := Note(needs, row.costPerHour >= 0.75, HourlyCostApproval);
    needs := Note(needs, row.forecast >= 1500.0, ForecastApproval);
    if blocks != [] {
      r := Stage(Blocked, blocks);
    } else if needs != [] {
      r := Stage(NeedsApproval, needs);
    } else {
      r := Stage(Allowed, [LowRisk]);
    }
  }
}
