/** The closed repair loop over the model inventory: comparing it with live probes, suggesting
    repairs, and verifying the result (apps/control-api/app/drift_service.py,
    apps/control-api/app/drift_actions.py, apps/control-api/app/verification_contract.py). */
module Drift {
  import opened Wrappers
  import opened Text

  datatype Backend = Ollama | Vllm

  datatype InventoryModel = InventoryModel(name: string, backend: Backend)

  /** What a probe returns. */
  datatype Probe = Probe(models: seq<string>, healthy: bool)

  datatype BackendDrift = BackendDrift(
    backend: Backend, healthy: bool, desired: seq<string>, actual: seq<string>,
    missing: seq<string>, unexpected: seq<string>, inSync: bool)

  datatype Summary = MatchesProbes | UnreachableProbes | Differs

  datatype DriftStatus = DriftStatus(inSync: bool, summary: Summary, backends: seq<BackendDrift>)

  /* Fuzzy matching */

  predicate IsAlphanumeric(c: char) {
    'a' <= c <= 'z' || '0' <= c <= '9'
  }

  /** `normalize_model_name`: lower-case letters and digits only. */
  function Normalize(name: string): string {
    if name == "" then ""
    else
      var c := LowerChar(name[0]);
      if IsAlphanumeric(c) then [c] + Normalize(name[1..]) else Normalize(name[1..])
  }

  /** Python's `a in b` on strings. */
  predicate Within(a: string, b: string) {
    a <= b || (b != "" && Within(a, b[1..]))
  }

  predicate MatchNames(desired: string, actual: string) {
    var left, right := Normalize(desired), Normalize(actual);
    left == right || Within(left, right) || Within(right, left)
  }

  /** The text a stands somewhere in b. */
  ghost predicate Contains(b: string, a: string) {
    exists before, after :: b == before + a + after
  }

  lemma {:induction false} WithinMeaning(a: string, b: string)
    ensures Within(a, b) <==> Contains(b, a)
  {
    if a <= b {
      assert b == "" + a + b[|a|..];
    } else {
      if Contains(b, a) { ContainedBelow(a, b); }
      if b != "" {
        WithinMeaning(a, b[1..]);
        if Contains(b[1..], a) { ContainedAbove(a, b); }
      }
      hide Contains;
    }
  }

  lemma ContainedBelow(a: string, b: string)
    requires Contains(b, a) && !(a <= b)
    ensures b != "" && Contains(b[1..], a)
  {
    var before, after :| b == before + a + after;
    assert before + a <= b && (before == "" ==> before + a == a);
    assert b[1..] == before[1..] + a + after;
  }

  lemma ContainedAbove(a: string, b: string)
    requires b != "" && Contains(b[1..], a)
    ensures Contains(b, a)
  {
    var before, after :| b[1..] == before + a + after;
    assert b == (b[..1] + before) + a + after;
  }

  /** Two names match exactly when what is left of one, in lower case and without anything but letters and
      digits, stands somewhere in what is left of the other. */
  lemma MatchMeaning(x: string, y: string)
    ensures MatchNames(x, y) <==> Contains(Normalize(y), Normalize(x)) || Contains(Normalize(x), Normalize(y))
  {
    WithinMeaning(Normalize(x), Normalize(y));
    WithinMeaning(Normalize(y), Normalize(x));
  }

  /** Normalising goes letter by letter: one that is a letter or digit in lower case is kept so, any other
      is dropped. */
  lemma {:induction false} NormalizeLetters(a: string, c: char, b: string)
    ensures Normalize(a + [c] + b) ==
            Normalize(a) + (if IsAlphanumeric(LowerChar(c)) then [LowerChar(c)] else "") + Normalize(b)
  {
    if a == "" {
      assert a + [c] + b == [c] + b;
    } else {
      NormalizeLetters(a[1..], c, b);
      assert (a + [c] + b)[1..] == a[1..] + [c] + b;
    }
  }

  /** A tag after a model's name does not keep it from matching. */
  lemma TaggedNameMatches(name: string, tag: string)
    ensures MatchNames(name, name + ":" + tag)
  {
    NormalizeLetters(name, ':', tag);
    var left, right := Normalize(name), Normalize(name + ":" + tag);
    assert right == "" + left + Normalize(tag);
    MatchMeaning(name, name + ":" + tag);
  }

  /** Some name of ys matches x. */
  predicate HasMatch(x: string, ys: seq<string>) {
    exists i :: 0 <= i < |ys| && MatchNames(x, ys[i])
  }

  /** The names of xs without a match in ys, in order. */
  function Unmatched(xs: seq<string>, ys: seq<string>): (r: seq<string>)
    ensures forall x :: x in r <==> x in xs && !HasMatch(x, ys)
  {
    if xs == [] then []
    else
      var r := Unmatched(xs[..|xs| - 1], ys);
      assert xs == xs[..|xs| - 1] + [xs[|xs| - 1]];
      if HasMatch(xs[|xs| - 1], ys) then r else r + [xs[|xs| - 1]]
  }

  /** `diff_models`. */
  method DiffModels(desired: seq<string>, actual: seq<string>)
    returns (missing: seq<string>, unexpected: seq<string>)
    ensures missing == Unmatched(desired, actual) && unexpected == Unmatched(actual, desired)
  {
    missing := CollectUnmatched(desired, actual);
    unexpected := CollectUnmatched(actual, desired);
  }

  method CollectUnmatched(xs: seq<string>, ys: seq<string>) returns (r: seq<string>)
    ensures r == Unmatched(xs, ys)
  {
    r := [];
    for i := 0 to |xs|
      invariant r == Unmatched(xs[..i], ys)
    {
      assert xs[..i + 1][..i] == xs[..i];
      if !HasMatch(xs[i], ys) { r := r + [xs[i]]; }
    }
    assert xs[..|xs|] == xs;
  }

  /* Status */

  function NamesFor(inventory: seq<InventoryModel>, backend: Backend): (r: seq<string>)
    ensures forall x :: x in r <==> InventoryModel(x, backend) in inventory
  {
    if inventory == [] then []
    else
      var last := inventory[|inventory| - 1];
      var r := NamesFor(inventory[..|inventory| - 1], backend);
      assert inventory == inventory[..|inventory| - 1] + [last];
      if last.backend == backend then r + [last.name] else r
  }

  /** `build_backend_drift`. */
  function BackendDriftOf(backend: Backend, inventory: seq<InventoryModel>, probe: Probe): BackendDrift {
    var desired, actual := SortedSet(NamesFor(inventory, backend)), SortedSet(probe.models);
    var missing := if probe.healthy then Unmatched(desired, actual) else desired;
    var unexpected := if probe.healthy then Unmatched(actual, desired) else [];
    BackendDrift(backend, probe.healthy, desired, actual, missing, unexpected,
                 probe.healthy && missing == [] && unexpected == [])
  }

  /** `build_drift_status`. */
  function StatusOf(inventory: seq<InventoryModel>, ollama: Probe, vllm: Probe): DriftStatus {
    var a, b := BackendDriftOf(Ollama, inventory, ollama), BackendDriftOf(Vllm, inventory, vllm);
    var inSync := a.inSync && b.inSync;
    DriftStatus(inSync,
                if inSync then MatchesProbes else if !a.healthy || !b.healthy then UnreachableProbes else Differs,
                [a, b])
  }

  /** What a backend's drift lists: the configured and the live names, sorted; under a
      healthy probe those without a match on the other side, and without one every configured name. */
  ghost predicate DriftMeans(backend: Backend, inventory: seq<InventoryModel>, probe: Probe, d: BackendDrift) {
    && d.backend == backend && d.healthy == probe.healthy
    && Sorted(d.desired) && Sorted(d.actual)
    && (forall x :: x in d.desired <==> InventoryModel(x, backend) in inventory)
    && (forall y :: y in d.actual <==> y in probe.models)
    && (forall x :: x in d.missing <==>
          && InventoryModel(x, backend) in inventory
          && (probe.healthy ==> forall y :: y in probe.models ==> !MatchNames(x, y)))
    && (forall y :: y in d.unexpected <==>
          && y in probe.models && probe.healthy
          && forall x :: InventoryModel(x, backend) in inventory ==> !MatchNames(y, x))
    && (d.inSync <==> d.healthy && d.missing == [] && d.unexpected == [])
  }

  lemma DriftMeaning(backend: Backend, inventory: seq<InventoryModel>, probe: Probe)
    ensures DriftMeans(backend, inventory, probe, BackendDriftOf(backend, inventory, probe))
  {
    hide MatchNames, NamesFor, Sort, Distinct, Unmatched;
    var names := NamesFor(inventory, backend);
    SortSorted(Distinct(names));
    SortSorted(Distinct(probe.models));
    assert Sorted(SortedSet(names)) && Sorted(SortedSet(probe.models));
    hide SortedSet;
    MatchesIn(SortedSet(probe.models), probe.models);
    MatchesIn(SortedSet(names), names);
  }

  /** The status is in sync when both backends are, and its summary says which of the ways it is not. */
  lemma StatusMeaning(inventory: seq<InventoryModel>, ollama: Probe, vllm: Probe)
    ensures var s := StatusOf(inventory, ollama, vllm);
      && |s.backends| == 2 && DriftMeans(Ollama, inventory, ollama, s.backends[0])
      && DriftMeans(Vllm, inventory, vllm, s.backends[1])
      && (s.inSync <==> s.backends[0].inSync && s.backends[1].inSync)
      && (s.summary.MatchesProbes? <==> s.inSync)
      && (s.summary.UnreachableProbes? <==> !ollama.healthy || !vllm.healthy)
  {
    hide BackendDriftOf;
    DriftMeaning(Ollama, inventory, ollama);
    DriftMeaning(Vllm, inventory, vllm);
  }

  /** A backend is in sync exactly when its probe is healthy and every configured model has a live
      match and the other way round. */
  lemma {:induction false} InSyncMeaning(backend: Backend, inventory: seq<InventoryModel>, probe: Probe)
    ensures BackendDriftOf(backend, inventory, probe).inSync <==>
      && probe.healthy
      && (forall x :: InventoryModel(x, backend) in inventory ==> exists y :: y in probe.models && MatchNames(x, y))
      && (forall y :: y in probe.models ==> exists x :: InventoryModel(x, backend) in inventory && MatchNames(x, y))
  {
    hide MatchNames, NamesFor, SortedSet, Unmatched;
    var names := NamesFor(inventory, backend);
    var desired, actual := SortedSet(names), SortedSet(probe.models);
    EmptyExactlyWhen(desired, actual);
    EmptyExactlyWhen(actual, desired);
    MatchesIn(actual, probe.models);
    MatchesIn(desired, names);
    forall x, y ensures MatchNames(x, y) <==> MatchNames(y, x) { MatchSymmetric(x, y); }
    assert forall x :: x in desired <==> InventoryModel(x, backend) in inventory;
    assert forall x :: x in actual <==> x in probe.models;
  }

  lemma MatchSymmetric(x: string, y: string)
    ensures MatchNames(x, y) <==> MatchNames(y, x)
  {
  }

  lemma EmptyExactlyWhen(xs: seq<string>, ys: seq<string>)
    ensures Unmatched(xs, ys) == [] <==> forall x :: x in xs ==> HasMatch(x, ys)
  {
    var r := Unmatched(xs, ys);
    if r != [] { assert r[0] in r; }
  }

  lemma MatchesIn(ys: seq<string>, zs: seq<string>)
    requires forall y :: y in ys <==> y in zs
    ensures forall x :: HasMatch(x, ys) <==> exists y :: y in zs && MatchNames(x, y)
  {
    hide MatchNames;
    forall x ensures HasMatch(x, ys) <==> exists y :: y in zs && MatchNames(x, y) {
      if HasMatch(x, ys) {
        var i :| 0 <= i < |ys| && MatchNames(x, ys[i]);
        assert ys[i] in zs;
      }
      if y :| y in zs && MatchNames(x, y) {
        assert y in ys;
        var i :| 0 <= i < |ys| && ys[i] == y;
      }
    }
  }

  /* Suggested repairs */

  datatype Kind = PullModel | UpdateInventory | OpenIssue | OpenPullRequest | Reprobe

  datatype Action = Action(kind: Kind, backend: Option<Backend>, model: Option<string>)

  function ActionsFor(kind: Kind, backend: Backend, models: seq<string>): (r: seq<Action>)
    ensures |r| == |models|
    ensures forall i :: 0 <= i < |r| ==> r[i] == Action(kind, Some(backend), Some(models[i]))
  {
    seq(|models|, i requires 0 <= i < |models| => Action(kind, Some(backend), Some(models[i])))
  }

  function BackendActions(b: BackendDrift): seq<Action> {
    if !b.healthy then [Action(Reprobe, Some(b.backend), None)]
    else ActionsFor(PullModel, b.backend, b.missing) + ActionsFor(UpdateInventory, b.backend, b.unexpected)
  }

  function AllBackendActions(bs: seq<BackendDrift>): seq<Action> {
    if bs == [] then [] else AllBackendActions(bs[..|bs| - 1]) + BackendActions(bs[|bs| - 1])
  }

  /** `build_drift_actions`. */
  function ActionsOf(status: DriftStatus): seq<Action> {
    if status.inSync then []
    else AllBackendActions(status.backends) + [Action(OpenIssue, None, None), Action(OpenPullRequest, None, None)]
  }

  method BuildDriftActions(status: DriftStatus) returns (actions: seq<Action>)
    ensures actions == ActionsOf(status)
    ensures Suggests(status, actions)
  {
    ActionsMeaning(status);
    hide Suggests;
    actions := [];
    if status.inSync { return; }
    for i := 0 to |status.backends|
      invariant actions == AllBackendActions(status.backends[..i])
    {
      assert status.backends[..i + 1][..i] == status.backends[..i];
      actions := AppendBackendActions(actions, status.backends[i]);
    }
    assert status.backends[..|status.backends|] == status.backends;
    actions := actions + [Action(OpenIssue, None, None)];
    actions := actions + [Action(OpenPullRequest, None, None)];
  }

  /** The body of its outer loop. */
  method AppendBackendActions(before: seq<Action>, b: BackendDrift) returns (actions: seq<Action>)
    ensures actions == before + BackendActions(b)
  {
    actions := before;
    if !b.healthy {
      actions := actions + [Action(Reprobe, Some(b.backend), None)];
    } else {
      actions := AppendActionsFor(actions, PullModel, b.backend, b.missing);
      actions := AppendActionsFor(actions, UpdateInventory, b.backend, b.unexpected);
    }
  }

  /** One of its two inner loops. */
  method AppendActionsFor(before: seq<Action>, kind: Kind, backend: Backend, models: seq<string>)
    returns (actions: seq<Action>)
    ensures actions == before + ActionsFor(kind, backend, models)
  {
    actions := before;
    for j := 0 to |models|
      invariant |actions| == |before| + j && before <= actions
      invariant forall i :: 0 <= i < j ==> actions[|before| + i] == Action(kind, Some(backend), Some(models[i]))
    {
      actions := actions + [Action(kind, Some(backend), Some(models[j]))];
    }
  }

  /** A repair that a drifting backend calls for: another probe where the last one failed, and otherwise
      pulling what is missing and configuring what is unexpected. */
  predicate Repairs(a: Action, b: BackendDrift) {
    if !b.healthy then a == Action(Reprobe, Some(b.backend), None)
    else
      && a.backend == Some(b.backend) && a.model.Some?
      && ((a.kind.PullModel? && a.model.value in b.missing) || (a.kind.UpdateInventory? && a.model.value in b.unexpected))
  }

  lemma BackendActionsMean(b: BackendDrift, a: Action)
    ensures a in BackendActions(b) <==> Repairs(a, b)
  {
    if b.healthy {
      var pulls := ActionsFor(PullModel, b.backend, b.missing);
      var updates := ActionsFor(UpdateInventory, b.backend, b.unexpected);
      if a in pulls { var i :| 0 <= i < |pulls| && pulls[i] == a; }
      if a in updates { var i :| 0 <= i < |updates| && updates[i] == a; }
      if Repairs(a, b) {
        InActionsFor(PullModel, b.backend, b.missing, a.kind, b.backend, a.model.value);
        InActionsFor(UpdateInventory, b.backend, b.unexpected, a.kind, b.backend, a.model.value);
      }
    }
  }

  lemma {:induction false} AllBackendActionsMean(bs: seq<BackendDrift>, a: Action)
    ensures a in AllBackendActions(bs) <==> exists i :: 0 <= i < |bs| && Repairs(a, bs[i])
  {
    hide Repairs, BackendActions;
    if bs != [] {
      var m := |bs| - 1;
      AllBackendActionsMean(bs[..m], a);
      BackendActionsMean(bs[m], a);
    }
  }

  /** A status that is not in sync suggests every repair its backends call for, an issue and a pull request,
      and nothing else; one that is in sync suggests nothing. */
  ghost predicate Suggests(status: DriftStatus, actions: seq<Action>) {
    forall a :: a in actions <==>
      && !status.inSync
      && (|| a == Action(OpenIssue, None, None) || a == Action(OpenPullRequest, None, None)
          || exists i :: 0 <= i < |status.backends| && Repairs(a, status.backends[i]))
  }

  lemma ActionsMeaning(status: DriftStatus)
    ensures Suggests(status, ActionsOf(status))
  {
    hide Repairs, AllBackendActions;
    forall a ensures a in AllBackendActions(status.backends) <==>
                     exists i :: 0 <= i < |status.backends| && Repairs(a, status.backends[i])
    {
      AllBackendActionsMean(status.backends, a);
    }
  }

  /* Carrying out the suggestions */

  /** The models the actions of one kind name for a backend. */
  function Named(actions: seq<Action>, kind: Kind, backend: Backend): (r: seq<string>)
    ensures forall x :: x in r <==> Action(kind, Some(backend), Some(x)) in actions
  {
    if actions == [] then []
    else
      var last := actions[|actions| - 1];
      var r := Named(actions[..|actions| - 1], kind, backend);
      assert actions == actions[..|actions| - 1] + [last];
      if last.kind == kind && last.backend == Some(backend) && last.model.Some? then r + [last.model.value] else r
  }

  /** The probe after pulling every suggested model. */
  function Pulled(probe: Probe, actions: seq<Action>, backend: Backend): Probe {
    probe.(models := probe.models + Named(actions, PullModel, backend))
  }

  function Entries(names: seq<string>, backend: Backend): (r: seq<InventoryModel>)
    ensures |r| == |names| && forall i :: 0 <= i < |r| ==> r[i] == InventoryModel(names[i], backend)
  {
    seq(|names|, i requires 0 <= i < |names| => InventoryModel(names[i], backend))
  }

  /** The inventory after adding every suggested model. */
  function Updated(inventory: seq<InventoryModel>, actions: seq<Action>): seq<InventoryModel> {
    inventory + Entries(Named(actions, UpdateInventory, Ollama), Ollama)
              + Entries(Named(actions, UpdateInventory, Vllm), Vllm)
  }

  lemma UpdatedMembers(inventory: seq<InventoryModel>, actions: seq<Action>, x: string, backend: Backend)
    ensures InventoryModel(x, backend) in Updated(inventory, actions) <==>
            InventoryModel(x, backend) in inventory || x in Named(actions, UpdateInventory, backend)
  {
    hide Named;
    var names := Named(actions, UpdateInventory, backend);
    var e := Entries(names, backend);
    if x in names {
      var i :| 0 <= i < |names| && names[i] == x;
      assert e[i] == InventoryModel(x, backend);
    }
  }

  /** Every missing model is suggested for pulling and every unexpected one for the inventory, and
      nothing else is. */
  lemma SuggestionsAreComplete(status: DriftStatus, a: BackendDrift, b: BackendDrift)
    requires status.backends == [a, b] && a.backend == Ollama && b.backend == Vllm
    requires a.healthy && b.healthy && !status.inSync
    ensures forall x :: x in Named(ActionsOf(status), PullModel, Ollama) <==> x in a.missing
    ensures forall x :: x in Named(ActionsOf(status), PullModel, Vllm) <==> x in b.missing
    ensures forall x :: x in Named(ActionsOf(status), UpdateInventory, Ollama) <==> x in a.unexpected
    ensures forall x :: x in Named(ActionsOf(status), UpdateInventory, Vllm) <==> x in b.unexpected
  {
    assert status.backends[..1] == [a] && [a][..0] == [];
    assert AllBackendActions(status.backends) == BackendActions(a) + BackendActions(b) by {
      assert AllBackendActions([a]) == AllBackendActions([]) + BackendActions(a);
      assert AllBackendActions([]) + BackendActions(a) == BackendActions(a);
    }
    forall x, kind, backend
      ensures Action(kind, Some(backend), Some(x)) in ActionsOf(status) <==>
        || (kind == PullModel && backend == Ollama && x in a.missing)
        || (kind == PullModel && backend == Vllm && x in b.missing)
        || (kind == UpdateInventory && backend == Ollama && x in a.unexpected)
        || (kind == UpdateInventory && backend == Vllm && x in b.unexpected)
    {
      InActionsFor(PullModel, Ollama, a.missing, kind, backend, x);
      InActionsFor(UpdateInventory, Ollama, a.unexpected, kind, backend, x);
      InActionsFor(PullModel, Vllm, b.missing, kind, backend, x);
      InActionsFor(UpdateInventory, Vllm, b.unexpected, kind, backend, x);
    }
  }

  lemma InActionsFor(kind: Kind, backend: Backend, models: seq<string>, k: Kind, b: Backend, x: string)
    ensures Action(k, Some(b), Some(x)) in ActionsFor(kind, backend, models) <==>
            k == kind && b == backend && x in models
  {
    var r := ActionsFor(kind, backend, models);
    if x in models {
      var i :| 0 <= i < |models| && models[i] == x;
      assert r[i] == Action(kind, Some(backend), Some(x));
    }
  }

  /** The suggestions repair one backend: whatever is missing gets pulled, whatever is unexpected
      gets configured, and a name matches itself. */
  lemma {:induction false} BackendRepaired(backend: Backend, inventory: seq<InventoryModel>, probe: Probe,
                        inventory': seq<InventoryModel>, probe': Probe)
    requires probe.healthy && probe'.healthy
    requires forall y :: y in probe'.models <==>
      y in probe.models || y in BackendDriftOf(backend, inventory, probe).missing
    requires forall x :: InventoryModel(x, backend) in inventory' <==>
      InventoryModel(x, backend) in inventory || x in BackendDriftOf(backend, inventory, probe).unexpected
    ensures BackendDriftOf(backend, inventory', probe').inSync
  {
    hide MatchNames, NamesFor, SortedSet, Unmatched;
    var d := BackendDriftOf(backend, inventory, probe);
    forall x ensures MatchNames(x, x) { MatchReflexive(x); }
    forall x, y ensures MatchNames(x, y) <==> MatchNames(y, x) { MatchSymmetric(x, y); }
    MatchesIn(d.actual, probe.models);
    MatchesIn(d.desired, NamesFor(inventory, backend));
    forall x | InventoryModel(x, backend) in inventory'
      ensures exists y :: y in probe'.models && MatchNames(x, y)
    {
      if InventoryModel(x, backend) in inventory {
        assert x in d.desired;
      }
    }
    forall y | y in probe'.models
      ensures exists x :: InventoryModel(x, backend) in inventory' && MatchNames(x, y)
    {
      if y in probe.models {
        assert y in d.actual;
        if HasMatch(y, d.desired) {
          var x :| x in NamesFor(inventory, backend) && MatchNames(y, x);
          assert InventoryModel(x, backend) in inventory';
        } else {
          assert InventoryModel(y, backend) in inventory';
        }
      } else {
        assert InventoryModel(y, backend) in inventory';
      }
    }
    InSyncMeaning(backend, inventory', probe');
  }

  lemma MatchReflexive(x: string)
    ensures MatchNames(x, x)
  {
  }

  /** With healthy probes, carrying out every suggestion brings the next status in sync. */
  lemma {:induction false} RepairCompletes(inventory: seq<InventoryModel>, ollama: Probe, vllm: Probe)
    requires ollama.healthy && vllm.healthy
    ensures var actions := ActionsOf(StatusOf(inventory, ollama, vllm));
            StatusOf(Updated(inventory, actions), Pulled(ollama, actions, Ollama), Pulled(vllm, actions, Vllm)).inSync
  {
    hide BackendDriftOf, Named, Entries, AllBackendActions;
    var status := StatusOf(inventory, ollama, vllm);
    var actions := ActionsOf(status);
    RepairActions(inventory, ollama, vllm);
    forall x, backend ensures InventoryModel(x, backend) in Updated(inventory, actions) <==>
      InventoryModel(x, backend) in inventory || x in Named(actions, UpdateInventory, backend)
    {
      UpdatedMembers(inventory, actions, x, backend);
    }
    BackendRepaired(Ollama, inventory, ollama, Updated(inventory, actions), Pulled(ollama, actions, Ollama));
    BackendRepaired(Vllm, inventory, vllm, Updated(inventory, actions), Pulled(vllm, actions, Vllm));
  }

  /** What the suggestions name, per backend, also when there are none to make. */
  lemma {:induction false} RepairActions(inventory: seq<InventoryModel>, ollama: Probe, vllm: Probe)
    requires ollama.healthy && vllm.healthy
    ensures var actions := ActionsOf(StatusOf(inventory, ollama, vllm));
      && (forall x :: x in Named(actions, PullModel, Ollama) <==> x in BackendDriftOf(Ollama, inventory, ollama).missing)
      && (forall x :: x in Named(actions, PullModel, Vllm) <==> x in BackendDriftOf(Vllm, inventory, vllm).missing)
      && (forall x :: x in Named(actions, UpdateInventory, Ollama) <==> x in BackendDriftOf(Ollama, inventory, ollama).unexpected)
      && (forall x :: x in Named(actions, UpdateInventory, Vllm) <==> x in BackendDriftOf(Vllm, inventory, vllm).unexpected)
  {
    hide NamesFor, SortedSet, Unmatched, Named;
    var status := StatusOf(inventory, ollama, vllm);
    if !status.inSync {
      SuggestionsAreComplete(status, BackendDriftOf(Ollama, inventory, ollama), BackendDriftOf(Vllm, inventory, vllm));
    }
  }

  /* Runtime verification */

  datatype CheckName = ProbeFreshness | InventoryDrift | BaselineClosure

  datatype CheckStatus = Pass | Fail | Skipped

  datatype Check = Check(name: CheckName, status: CheckStatus)

  datatype Closure = Closure(baselineMissing: seq<string>, stillMissing: seq<string>, resolved: seq<string>, closed: bool)

  datatype Outcome = Verified | Failed

  datatype Snapshot = Snapshot(outcome: Outcome, checks: seq<Check>, closure: Closure)

  function AllMissing(bs: seq<BackendDrift>): seq<string> {
    if bs == [] then [] else AllMissing(bs[..|bs| - 1]) + bs[|bs| - 1].missing
  }

  function NonBlank(names: seq<string>): (r: seq<string>)
    ensures forall x :: x in r <==> x != "" && x in names
  {
    if names == [] then []
    else
      var r := NonBlank(names[..|names| - 1]);
      assert names == names[..|names| - 1] + [names[|names| - 1]];
      if names[|names| - 1] == "" then r else r + [names[|names| - 1]]
  }

  /** Every nonblank missing name of a status, once, in order of first mention. */
  function MissingNames(bs: seq<BackendDrift>): (r: seq<string>)
    ensures forall x :: x in r <==> x != "" && x in AllMissing(bs)
  {
    Distinct(NonBlank(AllMissing(bs)))
  }

  /** `_missing_from_status`, and `_missing_from_drift_snapshot` on a stored status. */
  method MissingFromStatus(bs: seq<BackendDrift>) returns (missing: seq<string>)
    ensures missing == MissingNames(bs)
    ensures ListsMissing(bs, missing)
  {
    MissingMeaning(bs);
    hide ListsMissing;
    missing := [];
    for i := 0 to |bs|
      invariant missing == MissingNames(bs[..i])
    {
      ghost var seen := AllMissing(bs[..i]);
      var names := bs[i].missing;
      assert seen + names[..0] == seen;
      for j := 0 to |names|
        invariant missing == Distinct(NonBlank(seen + names[..j]))
      {
        GatherNext(seen, names, j);
        if names[j] != "" && names[j] !in missing { missing := missing + [names[j]]; }
      }
      assert names[..|names|] == names;
      assert bs[..i + 1][..i] == bs[..i];
    }
    assert bs[..|bs|] == bs;
  }

  lemma GatherNext(seen: seq<string>, names: seq<string>, j: nat)
    requires j < |names|
    ensures var before := Distinct(NonBlank(seen + names[..j]));
            Distinct(NonBlank(seen + names[..j + 1])) ==
            if names[j] != "" && names[j] !in before then before + [names[j]] else before
  {
    var xs := seen + names[..j];
    var ys := seen + names[..j + 1];
    assert ys == xs + [names[j]] && ys[..|ys| - 1] == xs;
    var r := NonBlank(xs);
    if names[j] != "" {
      assert NonBlank(ys) == r + [names[j]];
      assert (r + [names[j]])[..|r|] == r;
    }
  }

  lemma {:induction false} AllMissingMembers(bs: seq<BackendDrift>, x: string)
    ensures x in AllMissing(bs) <==> exists i :: 0 <= i < |bs| && x in bs[i].missing
  {
    if bs != [] {
      var m := |bs| - 1;
      AllMissingMembers(bs[..m], x);
      if i :| 0 <= i < m && x in bs[i].missing { assert x in bs[..m][i].missing; }
    }
  }

  /** What is missing by a status: each name that is not blank and that some backend lacks, once. */
  ghost predicate ListsMissing(bs: seq<BackendDrift>, missing: seq<string>) {
    && (forall x :: x in missing <==> x != "" && exists i :: 0 <= i < |bs| && x in bs[i].missing)
    && forall i, j :: 0 <= i < j < |missing| ==> missing[i] != missing[j]
  }

  lemma MissingMeaning(bs: seq<BackendDrift>)
    ensures ListsMissing(bs, MissingNames(bs))
  {
    hide AllMissing, NonBlank, Distinct;
    DistinctOnce(NonBlank(AllMissing(bs)));
    forall x ensures x in AllMissing(bs) <==> exists i :: 0 <= i < |bs| && x in bs[i].missing {
      AllMissingMembers(bs, x);
    }
  }

  function Selected(xs: seq<string>, from: set<string>, inside: bool): (r: seq<string>)
    ensures forall x :: x in r <==> x in xs && (x in from <==> inside)
    ensures (forall x :: x in xs ==> (x in from <==> inside)) ==> r == xs
  {
    if xs == [] then []
    else
      var r := Selected(xs[..|xs| - 1], from, inside);
      assert xs == xs[..|xs| - 1] + [xs[|xs| - 1]];
      if xs[|xs| - 1] in from <==> inside then r + [xs[|xs| - 1]] else r
  }

  /** What a stored drift snapshot lists as missing; no snapshot lists nothing. */
  function BaselineNames(baseline: Option<DriftStatus>): seq<string> {
    match baseline
    case None => []
    case Some(s) => MissingNames(s.backends)
  }

  /** `build_baseline_closure`. */
  function ClosureOf(baseline: Option<DriftStatus>, current: DriftStatus): Closure {
    var names := BaselineNames(baseline);
    var now := set x | x in MissingNames(current.backends);
    var still := Selected(names, now, true);
    if names == [] then Closure([], [], [], true)
    else Closure(names, still, Selected(names, now, false), still == [])
  }

  /** The snapshot `build_verification_snapshot` returns. */
  function SnapshotOf(current: DriftStatus, baseline: Option<DriftStatus>, probed: bool): Snapshot {
    var closure := ClosureOf(baseline, current);
    Snapshot(if current.inSync && closure.closed then Verified else Failed,
             [Check(ProbeFreshness, if probed then Pass else Skipped),
              Check(InventoryDrift, if current.inSync then Pass else Fail),
              Check(BaselineClosure, if closure.baselineMissing == [] then Skipped
                                     else if closure.closed then Pass else Fail)],
             closure)
  }

  /** One check for each of the three questions. The probes are passed over when they were given, and the
      baseline when it lists nothing. */
  predicate ChecksMean(checks: seq<Check>, current: DriftStatus, baseline: Option<DriftStatus>, probed: bool) {
    && |checks| == 3 && checks[0].name.ProbeFreshness? && checks[1].name.InventoryDrift? && checks[2].name.BaselineClosure?
    && checks[0].status == (if probed then Pass else Skipped)
    && (checks[1].status.Fail? <==> !current.inSync) && !checks[1].status.Skipped?
    && (checks[2].status.Fail? <==> Reappears(baseline, current))
    && (checks[2].status.Skipped? <==> BaselineNames(baseline) == [])
  }

  /** `build_verification_snapshot`: it collects the checks and fails when one of them does, that
      is, when the inventory drifts or a name missing before is missing still. */
  method BuildVerificationSnapshot(current: DriftStatus, baseline: Option<DriftStatus>, probed: bool)
    returns (s: Snapshot)
    ensures s == SnapshotOf(current, baseline, probed)
    ensures s.outcome.Verified? <==> Verifies(current, baseline)
    ensures ChecksMean(s.checks, current, baseline, probed)
  {
    hide ClosureOf, BaselineNames, Reappears;
    var checks := [Check(ProbeFreshness, if probed then Pass else Skipped)];
    checks := checks + [Check(InventoryDrift, if current.inSync then Pass else Fail)];
    var closure := ClosureOf(baseline, current);
    ClosureMeaning(baseline, current);
    if closure.baselineMissing == [] {
      checks := checks + [Check(BaselineClosure, Skipped)];
    } else {
      checks := checks + [Check(BaselineClosure, if closure.closed then Pass else Fail)];
    }
    var failed := exists i :: 0 <= i < |checks| && checks[i].status.Fail?;
    assert checks[1].status.Fail? <==> !current.inSync;
    assert checks[2].status.Fail? <==> !closure.closed;
    s := Snapshot(if failed then Failed else Verified, checks, closure);
  }

  lemma SnapshotVerifiesExactlyWhen(current: DriftStatus, baseline: Option<DriftStatus>, probed: bool)
    ensures SnapshotOf(current, baseline, probed).outcome.Verified? <==> Verifies(current, baseline)
  {
    hide ClosureOf, BaselineNames, Reappears;
    ClosureMeaning(baseline, current);
  }

  /** A model the stored snapshot lists as missing is missing now. */
  predicate Reappears(baseline: Option<DriftStatus>, current: DriftStatus) {
    exists x :: x in BaselineNames(baseline) && x in MissingNames(current.backends)
  }

  /** When verification succeeds. */
  predicate Verifies(current: DriftStatus, baseline: Option<DriftStatus>) {
    current.inSync && !Reappears(baseline, current)
  }

  lemma {:induction false} ClosureMeaning(baseline: Option<DriftStatus>, current: DriftStatus)
    ensures var c := ClosureOf(baseline, current);
      && (c.closed <==> !Reappears(baseline, current))
      && c.baselineMissing == BaselineNames(baseline)
      && (c.baselineMissing == [] ==> c.closed)
      && (forall x :: x in c.baselineMissing <==> x in c.stillMissing || x in c.resolved)
      && (forall x :: x in c.stillMissing <==> x in BaselineNames(baseline) && x in MissingNames(current.backends))
      && (forall x :: x in c.stillMissing ==> x !in c.resolved)
      && (!Reappears(baseline, current) ==> c.stillMissing == [] && c.resolved == c.baselineMissing)
  {
    hide BaselineNames, MissingNames;
    var c := ClosureOf(baseline, current);
    if c.stillMissing != [] { assert c.stillMissing[0] in c.stillMissing; }
  }

  /** A status computed from the probes verifies exactly when it is in sync, whatever the baseline:
      the closure check can never be what fails it. */
  lemma BuiltStatusVerifiesWhenInSync(inventory: seq<InventoryModel>, ollama: Probe, vllm: Probe,
                                      baseline: Option<DriftStatus>)
    ensures var s := StatusOf(inventory, ollama, vllm);
            Verifies(s, baseline) <==> s.inSync
  {
    hide NamesFor, SortedSet, Unmatched;
    var s := StatusOf(inventory, ollama, vllm);
    if s.inSync {
      assert AllMissing(s.backends) == [] by {
        assert s.backends[..1] == [s.backends[0]] && [s.backends[0]][..0] == [];
        assert AllMissing([s.backends[0]]) == AllMissing([]) + s.backends[0].missing;
      }
    }
  }

  /** The whole loop: drift, suggestions, repair, verification against the old status. Every model
      missing at the start is resolved and none is still missing. */
  lemma {:induction false} ClosedLoopVerifies(inventory: seq<InventoryModel>, ollama: Probe, vllm: Probe)
    requires ollama.healthy && vllm.healthy
    ensures var before := StatusOf(inventory, ollama, vllm);
            var actions := ActionsOf(before);
            var after := StatusOf(Updated(inventory, actions), Pulled(ollama, actions, Ollama), Pulled(vllm, actions, Vllm));
            var c := ClosureOf(Some(before), after);
      && Verifies(after, Some(before))
      && c.closed && c.stillMissing == [] && c.resolved == BaselineNames(Some(before))
  {
    hide StatusOf, ActionsOf, Updated, Pulled, ClosureOf, Reappears, BaselineNames;
    var before := StatusOf(inventory, ollama, vllm);
    var actions := ActionsOf(before);
    var inventory', ollama', vllm' :=
      Updated(inventory, actions), Pulled(ollama, actions, Ollama), Pulled(vllm, actions, Vllm);
    RepairCompletes(inventory, ollama, vllm);
    BuiltStatusVerifiesWhenInSync(inventory', ollama', vllm', Some(before));
    ClosureMeaning(Some(before), StatusOf(inventory', ollama', vllm'));
  }
}
