/** Request binding: the normalised subset of a request that an approval authorises
    (apps/control-api/app/approval_binding.py). */
module Binding {
  import opened Text

  /** A JSON value, as far as requests use them. */
  datatype Value = Null | Bool(b: bool) | Num(n: real) | Str(s: string) | List(items: seq<string>)

  /** The fields of `GovernanceEvaluateRequest`. */
  datatype Field =
    | Subject | GroupList | PolicyPack | Team | TenantId | Owner | Environment | Namespace | Action
    | Model | Provider | InputTokens | OutputTokens | CostPerRequestUsd | CostPerHourUsd
    | MonthToDateCostUsd | ForecastMonthlyCostUsd | SensitiveData | ToolAccess | WritePermission
    | ModelRevision | ModelArtifactDigest | Agent | Region | RequestsLastMinute | TokensToday
    | PromptText

  const BINDING_FIELDS: seq<Field> := [
    Subject, GroupList, PolicyPack, Team, TenantId, Owner, Environment, Namespace, Action, Model,
    Provider, InputTokens, OutputTokens, CostPerRequestUsd, CostPerHourUsd, MonthToDateCostUsd,
    ForecastMonthlyCostUsd, SensitiveData, ToolAccess, WritePermission, ModelRevision,
    ModelArtifactDigest, Agent, Region
  ]

  /** Everything but the live counters and the prompt is bound. */
  predicate IsBound(f: Field) {
    !f.RequestsLastMinute? && !f.TokensToday? && !f.PromptText?
  }

  lemma BindingFields(f: Field)
    ensures f in BINDING_FIELDS <==> IsBound(f)
  {
    if IsBound(f) { assert BINDING_FIELDS[Position(f)] == f; }
  }

  /** Where a bound field stands in the list. */
  function Position(f: Field): nat
    requires IsBound(f)
  {
    match f
    case Subject => 0
    case GroupList => 1
    case PolicyPack => 2
    case Team => 3
    case TenantId => 4
    case Owner => 5
    case Environment => 6
    case Namespace => 7
    case Action => 8
    case Model => 9
    case Provider => 10
    case InputTokens => 11
    case OutputTokens => 12
    case CostPerRequestUsd => 13
    case CostPerHourUsd => 14
    case MonthToDateCostUsd => 15
    case ForecastMonthlyCostUsd => 16
    case SensitiveData => 17
    case ToolAccess => 18
    case WritePermission => 19
    case ModelRevision => 20
    case ModelArtifactDigest => 21
    case Agent => 22
    case Region => 23
  }

  /** A request as JSON: each field has its declared type, or is null or absent. */
  type Request = r: map<Field, Value> | WellTyped(r) witness map[]

  predicate WellTyped(r: map<Field, Value>) {
    && (GroupList in r ==> r[GroupList].List? || r[GroupList].Null?)
    && (forall f :: f in r && (f.Team? || f.TenantId? || f.Subject? || f.Owner?) ==> r[f].Str? || r[f].Null?)
  }

  function Get(r: map<Field, Value>, f: Field): Value {
    if f in r then r[f] else Null
  }

  function TextOf(v: Value): string {
    if v.Str? then v.s else ""
  }

  /** Python's `a or b` on strings. */
  function Or(a: string, b: string): string {
    if a != "" then a else b
  }

  function Groups(r: Request): seq<string> {
    if Get(r, GroupList).List? then Get(r, GroupList).items else []
  }

  function Tenant(r: Request): string {
    Or(TextOf(Get(r, TenantId)), TextOf(Get(r, Team)))
  }

  function NullToEmpty(v: Value): Value {
    if v.Null? then Str("") else v
  }

  /** One entry of the payload. */
  function Entry(r: Request, f: Field): Value {
    if f.GroupList? then List(Sort(Groups(r)))
    else if f.TenantId? then Str(Tenant(r))
    else NullToEmpty(Get(r, f))
  }

  function Payload(r: Request): (p: Request) {
    map f | IsBound(f) :: Entry(r, f)
  }

  /* What the payload says of the raw fields */

  /** Field f, read as JSON: null stands for a field that is absent. */
  predicate Reads(r: Request, f: Field, v: Value) {
    v == if f in r then r[f] else Null
  }

  /** The tenant a request is bound to: its tenant where that is a text and not empty, else its team, and
      the empty text where neither is given. */
  predicate BoundTenant(r: Request, x: string) {
    if TenantId in r && r[TenantId].Str? && r[TenantId].s != "" then x == r[TenantId].s
    else if Team in r && r[Team].Str? then x == r[Team].s
    else x == ""
  }

  /** The groups a request is bound to, in any order. */
  predicate BoundGroups(r: Request, groups: seq<string>) {
    if GroupList in r && r[GroupList].List? then multiset(groups) == multiset(r[GroupList].items) else groups == []
  }

  /** Any other bound field is as given, with null and absence read as the empty text. */
  predicate BoundAs(r: Request, f: Field, v: Value) {
    if Reads(r, f, Null) then v == Str("") else Reads(r, f, v)
  }

  /** A payload has exactly the bound fields: the sorted groups, the tenant or team, and the others. */
  ghost predicate Binds(r: Request, p: map<Field, Value>) {
    && (forall f :: f in p <==> IsBound(f))
    && p[GroupList].List? && Sorted(p[GroupList].items) && BoundGroups(r, p[GroupList].items)
    && p[TenantId].Str? && BoundTenant(r, p[TenantId].s)
    && (forall f :: IsBound(f) && !f.GroupList? && !f.TenantId? ==> BoundAs(r, f, p[f]))
  }

  lemma PayloadBinds(r: Request)
    ensures Binds(r, Payload(r))
  {
    hide Sort;
    SortSorted(Groups(r));
  }

  method BindingPayload(raw: Request) returns (payload: map<Field, Value>)
    ensures payload == Payload(raw)
    ensures Binds(raw, payload)
  {
    hide Sort, BINDING_FIELDS, Binds;
    PayloadBinds(raw);
    payload := map[];
    for i := 0 to |BINDING_FIELDS|
      invariant payload.Keys == set f | f in BINDING_FIELDS[..i]
      invariant forall f :: f in payload ==> payload[f] == Entry(raw, f)
    {
      var f := BINDING_FIELDS[i];
      var value := Get(raw, f);
      var entry;
      if f.GroupList? {
        entry := List(Sort(Groups(raw)));
      } else if f.TenantId? {
        entry := Str(Or(TextOf(value), TextOf(Get(raw, Team))));
      } else if value.Null? {
        entry := Str("");
      } else {
        entry := value;
      }
      payload := payload[f := entry];
    }
    forall f ensures f in payload <==> IsBound(f) {
      BindingFields(f);
    }
  }

  /** Agreement on everything an approval binds: the same groups in some order, the same tenant, and
      every other bound field the same. */
  ghost predicate SameBinding(a: Request, b: Request) {
    && (forall groups :: BoundGroups(a, groups) <==> BoundGroups(b, groups))
    && (forall x :: BoundTenant(a, x) <==> BoundTenant(b, x))
    && (forall f, v :: IsBound(f) && !f.GroupList? && !f.TenantId? ==> (BoundAs(a, f, v) <==> BoundAs(b, f, v)))
  }

  lemma SameGroups(a: Request, b: Request)
    ensures (forall groups :: BoundGroups(a, groups) <==> BoundGroups(b, groups)) <==>
            multiset(Groups(a)) == multiset(Groups(b))
  {
    assert BoundGroups(a, Groups(a)) && BoundGroups(b, Groups(b));
    if multiset(Groups(a)) == multiset(Groups(b)) {
      forall groups ensures BoundGroups(a, groups) <==> multiset(groups) == multiset(Groups(a))
        ensures BoundGroups(b, groups) <==> multiset(groups) == multiset(Groups(b))
      {
        if multiset(groups) == multiset([]) { NoneLeft(groups); }
      }
    } else {
      assert BoundGroups(b, Groups(a)) ==> multiset(Groups(a)) == multiset(Groups(b));
    }
  }

  lemma NoneLeft(xs: seq<string>)
    requires multiset(xs) == multiset([])
    ensures xs == []
  {
    assert |multiset(xs)| == |xs|;
  }

  lemma SameTenant(a: Request, b: Request)
    ensures (forall x :: BoundTenant(a, x) <==> BoundTenant(b, x)) <==> Tenant(a) == Tenant(b)
  {
    assert BoundTenant(a, Tenant(a)) && BoundTenant(b, Tenant(b));
  }

  lemma SameField(a: Request, b: Request, f: Field)
    ensures (forall v :: BoundAs(a, f, v) <==> BoundAs(b, f, v)) <==> NullToEmpty(Get(a, f)) == NullToEmpty(Get(b, f))
  {
    assert BoundAs(a, f, NullToEmpty(Get(a, f))) && BoundAs(b, f, NullToEmpty(Get(b, f)));
  }

  /** In terms of the functions that build the payload. */
  lemma SameBindingMeaning(a: Request, b: Request)
    ensures SameBinding(a, b) <==>
      && multiset(Groups(a)) == multiset(Groups(b))
      && Tenant(a) == Tenant(b)
      && forall f :: IsBound(f) && !f.GroupList? && !f.TenantId? ==> NullToEmpty(Get(a, f)) == NullToEmpty(Get(b, f))
  {
    SameGroups(a, b);
    SameTenant(a, b);
    hide BoundGroups, BoundTenant, BoundAs, Tenant, Groups, NullToEmpty, Get;
    forall f ensures (forall v :: BoundAs(a, f, v) <==> BoundAs(b, f, v)) <==>
                     NullToEmpty(Get(a, f)) == NullToEmpty(Get(b, f))
    {
      SameField(a, b, f);
    }
  }

  lemma PayloadEntries(a: Request, b: Request)
    ensures Payload(a) == Payload(b) <==> forall f :: IsBound(f) ==> Entry(a, f) == Entry(b, f)
  {
    var p, q := Payload(a), Payload(b);
    if p == q {
      forall f | IsBound(f) ensures Entry(a, f) == Entry(b, f) {
        assert p[f] == q[f];
      }
    }
  }

  lemma EntriesDecideBinding(a: Request, b: Request)
    ensures (forall f :: IsBound(f) ==> Entry(a, f) == Entry(b, f)) <==> SameBinding(a, b)
  {
    SameBindingMeaning(a, b);
    hide Sort, Groups, Tenant, NullToEmpty, Get, SameBinding;
    SortCanonical(Groups(a), Groups(b));
    var ga, gb := Sort(Groups(a)), Sort(Groups(b));
    assert Entry(a, GroupList) == Entry(b, GroupList) <==> ga == gb;
    assert Entry(a, TenantId) == Entry(b, TenantId) <==> Tenant(a) == Tenant(b);
    if SameBinding(a, b) {
      forall f | IsBound(f) ensures Entry(a, f) == Entry(b, f) {}
    }
    if forall f :: IsBound(f) ==> Entry(a, f) == Entry(b, f) {
      forall f | IsBound(f) && !f.GroupList? && !f.TenantId?
        ensures NullToEmpty(Get(a, f)) == NullToEmpty(Get(b, f))
      {
        assert Entry(a, f) == Entry(b, f);
      }
    }
  }

  /** Two requests have one payload exactly when they agree on every bound field. */
  lemma PayloadIsCanonical(a: Request, b: Request)
    ensures Payload(a) == Payload(b) <==> SameBinding(a, b)
  {
    PayloadEntries(a, b);
    EntriesDecideBinding(a, b);
  }

  lemma PayloadEntry(r: Request, f: Field)
    requires IsBound(f)
    ensures Get(Payload(r), f) == Entry(r, f)
  {
    hide Sort, Tenant, Groups;
  }

  lemma PayloadTenant(r: Request)
    ensures Tenant(Payload(r)) == Tenant(r)
  {
    hide Payload, Sort;
    PayloadEntry(r, TenantId);
    PayloadEntry(r, Team);
  }

  /** Payloads are fixed points, so a digest recomputed from a stored payload is the stored digest. */
  lemma {:induction false} PayloadIsFixedPoint(r: Request)
    ensures Payload(Payload(r)) == Payload(r)
  {
    hide Payload, Sort, Tenant;
    SortIdempotent(Groups(r));
    var p := Payload(r);
    PayloadEntries(p, r);
    PayloadEntry(r, GroupList);
    PayloadTenant(r);
    forall f | IsBound(f) ensures Entry(p, f) == Entry(r, f) {
      PayloadEntry(r, f);
    }
  }

  /** An overlay of fields other than the groups and the tenant, as `enrich_governance_request`
      applies one, keeps the payload exactly when it changes no bound field. The live counters
      are not bound; the cost fields are. */
  lemma OverlayKeepsPayload(r: Request, updates: Request)
    requires updates.Keys !! {GroupList, Team, TenantId}
    ensures WellTyped(r + updates)
    ensures Payload(r + updates) == Payload(r) <==>
            forall f :: f in updates && IsBound(f) ==> NullToEmpty(updates[f]) == NullToEmpty(Get(r, f))
  {
    var e: Request := r + updates;
    assert Groups(e) == Groups(r) && Tenant(e) == Tenant(r);
    PayloadIsCanonical(e, r);
    SameBindingMeaning(e, r);
    hide SameBinding;
    assert forall f :: Get(e, f) == if f in updates then updates[f] else Get(r, f);
  }

  /** The comment beside `_BINDING_FIELDS` says that enrichment cannot invalidate a bound
      approval. It can: a live month-to-date cost changes the payload. */
  lemma EnrichmentCanChangePayload(r: Request, before: real, live: real)
    requires Get(r, MonthToDateCostUsd) == Num(before) && live != before
    ensures var updates := map[RequestsLastMinute := Num(1.0), MonthToDateCostUsd := Num(live)];
      WellTyped(r + updates) && Payload(r + updates) != Payload(r)
  {
    var updates := map[RequestsLastMinute := Num(1.0), MonthToDateCostUsd := Num(live)];
    assert updates[MonthToDateCostUsd] == Num(live);
    OverlayKeepsPayload(r, updates);
  }
}
