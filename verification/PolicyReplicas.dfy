/** Any number of replicas sharing one bundle table (apps/control-api/app/policy_lifecycle.py).

    A replica runs one lifecycle call at a time; each step here is one store session or one update
    of the replica's own state, and steps of different replicas interleave freely. Loading a
    record's source yields the digest recorded with it, or fails. A call may also fail anywhere. */
module PolicyReplicas {
  import opened Wrappers
  import opened PolicyBundles

  /** What a replica's call in progress has done and read. */
  datatype Phase =
    | Idle
    | Seeding                                                       // bootstrap found no active bundle
    | Upserted(bundleId: string, content: string)                   // the candidate is recorded
    | Installing(generation: nat, content: string)                  // the store has activated it
    | Syncing(generation: nat, content: string)                     // the active record was read
    | RollingBack                                                   // a previous record exists
    | RolledBack(generation: nat, content: string)                  // the store has reactivated it
    | RollbackSyncing(generation: nat, content: string, activeGeneration: nat, activeContent: string)

  /** The digest of the bundle in use, the generation it was observed at, and the call in progress. */
  datatype Replica = Replica(local: string, observed: nat, phase: Phase)

  /** The shared table, the digest each generation was ever given to, and the replicas. */
  datatype World = World(table: Table, granted: map<nat, string>, replicas: map<nat, Replica>)

  const INITIAL := World(map[], map[], map[])

  datatype Step =
    | Join(r: nat, local: string)
    | Fail(r: nat)
    | Validate(r: nat, newId: string, bundleId: string, digest: string, source: string, valid: bool)
    | SyncRead(r: nat, force: bool)
    | SyncInstall(r: nat, loads: bool)
    | BootRead(r: nat)
    | Upsert(r: nat, newId: string, bundleId: string, digest: string, source: string)
    | StoreActivate(r: nat)
    | Install(r: nat)
    | RollbackRead(r: nat)
    | StoreRollback(r: nat)
    | RollbackSyncRead(r: nat)
    | RollbackInstall(r: nat, activeLoads: bool, ownLoads: bool)

  ghost function Find(t: Table, bundleId: string, digest: string): (found: Option<string>)
    ensures Finds(t, bundleId, digest, found)
  {
    if r :| r in t && Matches(t[r], bundleId, digest) then Some(r) else None
  }

  ghost function ReadActive(t: Table): (found: Option<string>)
    ensures match found
      case Some(r) => IsActive(t, r)
      case None => forall r :: !IsActive(t, r)
  {
    if r :| IsActive(t, r) then Some(r) else None
  }

  ghost function ReadPrevious(t: Table): (found: Option<string>)
    ensures found.Some? ==> IsLatestPrevious(t, found.value)
  {
    if r :| IsLatestPrevious(t, r) then Some(r) else None
  }

  function SetPhase(w: World, r: nat, phase: Phase): World
    requires r in w.replicas
  {
    w.(replicas := w.replicas[r := w.replicas[r].(phase := phase)])
  }

  /** `_set_active` with the generation it belongs to; the call is over. */
  function SetLocal(w: World, r: nat, content: string, generation: nat): World
    requires r in w.replicas
  {
    w.(replicas := w.replicas[r := Replica(content, generation, Idle)])
  }

  /** Recording a candidate. The service looks the row of the content up in a session before the one
      that writes; in one step here, since under the unique index on the content the row found is the
      row there is, rows are never deleted, and where another replica has inserted the content in
      between the insert is refused, which is `Fail`. */
  ghost function Upserting(w: World, newId: string, bundleId: string, digest: string, source: string,
                           valid: bool): World
  {
    w.(table := PolicyBundles.Upsert(w.table, Find(w.table, bundleId, digest), newId, bundleId, digest,
                                     source, valid, 0))
  }

  /** The store activates a row and thereby grants the next generation to its digest. */
  ghost function Activating(w: World, target: string): World
    requires target in w.table
  {
    w.(table := Activated(w.table, target, 0),
       granted := w.granted[MaxGeneration(w.table) + 1 := w.table[target].digest])
  }

  /** One step; one that cannot be taken changes nothing. */
  ghost function Apply(w: World, s: Step): World {
    if s.Join? then
      if s.r in w.replicas then w else w.(replicas := w.replicas[s.r := Replica(s.local, 0, Idle)])
    else if s.r !in w.replicas then w
    else
      var p := w.replicas[s.r];
      match s
      case Fail(r) => SetPhase(w, r, Idle)
      case Validate(r, newId, bundleId, digest, source, valid) =>
        if newId in w.table || !valid then w else Upserting(w, newId, bundleId, digest, source, valid)
      case SyncRead(r, force) =>
        if !p.phase.Idle? then w
        else
          (match ReadActive(w.table)
           case None => w
           case Some(a) =>
             var g, d := Gen(w.table[a]), w.table[a].digest;
             if !force && 0 < g == p.observed && p.local == d then w else SetPhase(w, r, Syncing(g, d)))
      case SyncInstall(r, loads) =>
        if !p.phase.Syncing? then w
        else if loads then SetLocal(w, r, p.phase.content, p.phase.generation)
        else SetPhase(w, r, Idle)
      case BootRead(r) =>
        if p.phase.Idle? && ReadActive(w.table).None? then SetPhase(w, r, Seeding) else w
      case Upsert(r, newId, bundleId, digest, source) =>
        if !(p.phase.Idle? || p.phase.Seeding?) || newId in w.table then w
        else SetPhase(Upserting(w, newId, bundleId, digest, source, true), r, Upserted(bundleId, digest))
      case StoreActivate(r) =>
        if !p.phase.Upserted? then w
        else
          (match Find(w.table, p.phase.bundleId, p.phase.content)
           case None => SetPhase(w, r, Idle)
           case Some(target) =>
             if !w.table[target].valid then SetPhase(w, r, Idle)
             else SetPhase(Activating(w, target), r, Installing(MaxGeneration(w.table) + 1, p.phase.content)))
      case Install(r) =>
        if !p.phase.Installing? then w else SetLocal(w, r, p.phase.content, p.phase.generation)
      case RollbackRead(r) =>
        if p.phase.Idle? && ReadPrevious(w.table).Some? then SetPhase(w, r, RollingBack) else w
      case StoreRollback(r) =>
        if !p.phase.RollingBack? then w
        else
          (match ReadPrevious(w.table)
           case None => SetPhase(w, r, Idle)
           case Some(target) =>
             if !w.table[target].valid then SetPhase(w, r, Idle)
             else SetPhase(Activating(w, target), r,
                           RolledBack(MaxGeneration(w.table) + 1, w.table[target].digest)))
      case RollbackSyncRead(r) =>
        if !p.phase.RolledBack? then w
        else
          (match ReadActive(w.table)
           case None => w
           case Some(a) =>
             SetPhase(w, r, RollbackSyncing(p.phase.generation, p.phase.content,
                                            Gen(w.table[a]), w.table[a].digest)))
      case RollbackInstall(r, activeLoads, ownLoads) =>
        if !p.phase.RollbackSyncing? then w
        else if activeLoads then SetLocal(w, r, p.phase.activeContent, p.phase.activeGeneration)
        else if ownLoads then SetLocal(w, r, p.phase.content, p.phase.generation)
        else SetPhase(w, r, Idle)
  }

  ghost function Run(w: World, run: seq<Step>): World
    decreases |run|
  {
    if run == [] then w else Apply(Run(w, run[..|run| - 1]), run[|run| - 1])
  }

  /* The invariant */

  /** A generation the store has granted to this digest. */
  predicate Grants(w: World, generation: nat, content: string) {
    generation in w.granted && w.granted[generation] == content
  }

  ghost predicate PhaseOk(w: World, p: Replica) {
    match p.phase
    case Installing(g, d) => Grants(w, g, d) && p.observed <= g
    case Syncing(g, d) => Grants(w, g, d) && p.observed <= g
    case RolledBack(g, d) => Grants(w, g, d) && p.observed <= g
    case RollbackSyncing(g, d, ag, ad) => Grants(w, g, d) && Grants(w, ag, ad) && p.observed <= g && p.observed <= ag
    case _ => true
  }

  ghost predicate ReplicaOk(w: World, p: Replica) {
    && p.observed <= MaxGeneration(w.table)
    && (p.observed != 0 ==> Grants(w, p.observed, p.local))
    && PhaseOk(w, p)
  }

  ghost predicate GrantsOk(t: Table, granted: map<nat, string>) {
    && (forall g :: g in granted ==> 1 <= g <= MaxGeneration(t))
    && (forall x :: x in t && Gen(t[x]) != 0 ==> Gen(t[x]) in granted && granted[Gen(t[x])] == t[x].digest)
  }

  ghost predicate Inv(w: World) {
    && Invariant(w.table) && GrantsOk(w.table, w.granted)
    && forall r :: r in w.replicas ==> ReplicaOk(w, w.replicas[r])
  }

  /** What every step does to the whole: no grant is taken back or given again, the highest
      generation and every observed generation only rise. */
  ghost predicate Progress(w: World, w': World) {
    && (forall g :: g in w.granted ==> Grants(w', g, w.granted[g]))
    && MaxGeneration(w.table) <= MaxGeneration(w'.table)
    && (forall r :: r in w.replicas ==> r in w'.replicas && w.replicas[r].observed <= w'.replicas[r].observed)
  }

  lemma {:induction false} UpsertingKeeps(w: World, newId: string, bundleId: string, digest: string,
                                          source: string, valid: bool)
    requires Inv(w) && newId !in w.table
    ensures var w' := Upserting(w, newId, bundleId, digest, source, valid); Inv(w') && Progress(w, w')
    ensures MaxGeneration(Upserting(w, newId, bundleId, digest, source, valid).table) == MaxGeneration(w.table)
  {
    hide MaxGeneration, Invariant;
    var w' := Upserting(w, newId, bundleId, digest, source, valid);
    UpsertKeeps(w.table, Find(w.table, bundleId, digest), newId, bundleId, digest, source, valid, 0);
  }

  lemma ActivatingKeeps(w: World, target: string)
    requires Inv(w) && target in w.table
    ensures var w' := Activating(w, target);
      && Inv(w') && Progress(w, w')
      && MaxGeneration(w.table) + 1 !in w.granted
      && Grants(w', MaxGeneration(w.table) + 1, w.table[target].digest)
      && MaxGeneration(w'.table) == MaxGeneration(w.table) + 1
  {
    hide MaxGeneration, Invariant;
    var w' := Activating(w, target);
    ActivateKeeps(w.table, target, 0);
  }

  lemma SetPhaseKeeps(w: World, r: nat, phase: Phase)
    requires Inv(w) && r in w.replicas && PhaseOk(w, w.replicas[r].(phase := phase))
    ensures Inv(SetPhase(w, r, phase)) && Progress(w, SetPhase(w, r, phase))
  {
    hide MaxGeneration, Invariant;
    var w' := SetPhase(w, r, phase);
    forall q | q in w'.replicas ensures ReplicaOk(w', w'.replicas[q]) {
      if q != r { assert ReplicaOk(w, w.replicas[q]); } else { assert ReplicaOk(w, w.replicas[r]); }
    }
  }

  lemma SetLocalKeeps(w: World, r: nat, content: string, generation: nat)
    requires Inv(w) && r in w.replicas && Grants(w, generation, content) && w.replicas[r].observed <= generation
    ensures Inv(SetLocal(w, r, content, generation)) && Progress(w, SetLocal(w, r, content, generation))
  {
    hide MaxGeneration, Invariant;
    var w' := SetLocal(w, r, content, generation);
    forall q | q in w'.replicas ensures ReplicaOk(w', w'.replicas[q]) {
      if q != r { assert ReplicaOk(w, w.replicas[q]); }
    }
  }

  /** The active row's generation is granted to its digest and is the highest. */
  lemma ActiveRead(w: World, a: string)
    requires Inv(w) && IsActive(w.table, a)
    ensures Grants(w, Gen(w.table[a]), w.table[a].digest) && Gen(w.table[a]) == MaxGeneration(w.table)
    ensures 1 <= Gen(w.table[a])
  {
    ActiveIsNewest(w.table, a);
  }

  predicate Activates(s: Step) {
    s.StoreActivate? || s.StoreRollback?
  }

  /** The steps that only read, load or install. */
  lemma {:induction false} LocalStepKeeps(w: World, s: Step)
    requires Inv(w) && (s.Fail? || s.SyncRead? || s.SyncInstall? || s.BootRead? || s.Install? || s.RollbackRead?
                        || s.RollbackSyncRead? || s.RollbackInstall?)
    ensures Inv(Apply(w, s)) && Progress(w, Apply(w, s))
  {
    hide MaxGeneration, Invariant;
    if s.r in w.replicas {
      var p := w.replicas[s.r];
      assert ReplicaOk(w, p);
      var a := ReadActive(w.table);
      if a.Some? { ActiveRead(w, a.value); }
      match s
      case Fail(r) => SetPhaseKeeps(w, r, Idle);
      case SyncRead(r, _) =>
        if a.Some? { SetPhaseKeeps(w, r, Syncing(Gen(w.table[a.value]), w.table[a.value].digest)); }
      case SyncInstall(r, _) =>
        if p.phase.Syncing? {
          SetLocalKeeps(w, r, p.phase.content, p.phase.generation);
          SetPhaseKeeps(w, r, Idle);
        }
      case BootRead(r) => SetPhaseKeeps(w, r, Seeding);
      case Install(r) =>
        if p.phase.Installing? { SetLocalKeeps(w, r, p.phase.content, p.phase.generation); }
      case RollbackRead(r) => SetPhaseKeeps(w, r, RollingBack);
      case RollbackSyncRead(r) =>
        if a.Some? && p.phase.RolledBack? {
          SetPhaseKeeps(w, r, RollbackSyncing(p.phase.generation, p.phase.content,
                                              Gen(w.table[a.value]), w.table[a.value].digest));
        }
      case RollbackInstall(r, _, _) =>
        if p.phase.RollbackSyncing? {
          SetLocalKeeps(w, r, p.phase.activeContent, p.phase.activeGeneration);
          SetLocalKeeps(w, r, p.phase.content, p.phase.generation);
          SetPhaseKeeps(w, r, Idle);
        }
    }
  }

  lemma JoinKeeps(w: World, r: nat, local: string)
    requires Inv(w)
    ensures Inv(Apply(w, Join(r, local))) && Progress(w, Apply(w, Join(r, local)))
  {
    hide MaxGeneration, Invariant;
    var w' := Apply(w, Join(r, local));
    forall q | q in w'.replicas ensures ReplicaOk(w', w'.replicas[q]) {
      if q in w.replicas { assert ReplicaOk(w, w.replicas[q]); }
    }
  }

  lemma {:induction false} RecordStepKeeps(w: World, s: Step)
    requires Inv(w) && (s.Validate? || s.Upsert?)
    ensures Inv(Apply(w, s)) && Progress(w, Apply(w, s))
    ensures MaxGeneration(Apply(w, s).table) == MaxGeneration(w.table)
  {
    hide MaxGeneration, Invariant;
    if s.r in w.replicas && s.newId !in w.table {
      var valid := if s.Validate? then s.valid else true;
      var w1 := Upserting(w, s.newId, s.bundleId, s.digest, s.source, valid);
      UpsertingKeeps(w, s.newId, s.bundleId, s.digest, s.source, valid);
      if s.Upsert? {
        SetPhaseKeeps(w1, s.r, Upserted(s.bundleId, s.digest));
      }
    }
  }

  /** The one generation a step may grant is the next one. */
  ghost predicate GrantsNext(w: World, w': World) {
    forall g :: g in w'.granted && g !in w.granted ==>
      g == MaxGeneration(w.table) + 1 == MaxGeneration(w'.table)
  }

  /** An activation by replica r, whose call then knows what it was granted. */
  lemma GrantKeeps(w: World, target: string, r: nat, phase: Phase)
    requires Inv(w) && target in w.table && r in w.replicas
    requires phase == Installing(MaxGeneration(w.table) + 1, w.table[target].digest)
          || phase == RolledBack(MaxGeneration(w.table) + 1, w.table[target].digest)
    ensures var w' := SetPhase(Activating(w, target), r, phase); Inv(w') && Progress(w, w') && GrantsNext(w, w')
  {
    hide MaxGeneration, Invariant;
    assert ReplicaOk(w, w.replicas[r]);
    ActivatingKeeps(w, target);
    SetPhaseKeeps(Activating(w, target), r, phase);
  }

  lemma {:induction false} ActivationKeeps(w: World, s: Step)
    requires Inv(w) && Activates(s)
    ensures Inv(Apply(w, s)) && Progress(w, Apply(w, s)) && GrantsNext(w, Apply(w, s))
  {
    hide MaxGeneration, Invariant, Inv, Progress;
    if s.r in w.replicas {
      var p := w.replicas[s.r];
      SetPhaseKeepsIdle(w, s.r);
      var g := MaxGeneration(w.table) + 1;
      if s.StoreRollback? {
        var target := ReadPrevious(w.table);
        if target.Some? { GrantKeeps(w, target.value, s.r, RolledBack(g, w.table[target.value].digest)); }
      } else if p.phase.Upserted? {
        var target := Find(w.table, p.phase.bundleId, p.phase.content);
        if target.Some? { GrantKeeps(w, target.value, s.r, Installing(g, w.table[target.value].digest)); }
      }
    }
    NothingKeeps(w);
  }

  lemma SetPhaseKeepsIdle(w: World, r: nat)
    requires Inv(w) && r in w.replicas
    ensures Inv(SetPhase(w, r, Idle)) && Progress(w, SetPhase(w, r, Idle))
  {
    SetPhaseKeeps(w, r, Idle);
  }

  lemma NothingKeeps(w: World)
    ensures Progress(w, w)
  {
  }

  lemma {:induction false} ApplyKeeps(w: World, s: Step)
    requires Inv(w)
    ensures Inv(Apply(w, s)) && Progress(w, Apply(w, s))
  {
    if s.Join? {
      JoinKeeps(w, s.r, s.local);
    } else if Activates(s) {
      ActivationKeeps(w, s);
    } else if s.Validate? || s.Upsert? {
      RecordStepKeeps(w, s);
    } else {
      LocalStepKeeps(w, s);
    }
  }

  lemma InitialOk()
    ensures Inv(INITIAL)
  {
    assert IsMaxGeneration(INITIAL.table, 0);
    MaxUnique(INITIAL.table, 0, MaxGeneration(INITIAL.table));
  }

  lemma {:induction false} RunKeeps(w: World, run: seq<Step>)
    requires Inv(w)
    ensures Inv(Run(w, run)) && Progress(w, Run(w, run))
    decreases |run|
  {
    if run != [] {
      var w1 := Run(w, run[..|run| - 1]);
      RunKeeps(w, run[..|run| - 1]);
      ApplyKeeps(w1, run[|run| - 1]);
    }
  }

  /* The results */

  lemma {:induction false} RunJoins(w: World, run: seq<Step>, more: seq<Step>)
    ensures Run(w, run + more) == Run(Run(w, run), more)
    decreases |more|
  {
    if more == [] {
      assert run + more == run;
    } else {
      var m := |more| - 1;
      RunJoins(w, run, more[..m]);
      assert (run + more)[..|run + more| - 1] == run + more[..m];
      assert (run + more)[|run + more| - 1] == more[m];
    }
  }

  /** In every run the shared table is consistent: at most one active bundle, which carries the largest
      generation; distinct generations, missing exactly for candidates; one row per content. */
  lemma {:induction false} TableStaysConsistent(run: seq<Step>)
    ensures Invariant(Run(INITIAL, run).table)
  {
    InitialOk();
    RunKeeps(INITIAL, run);
  }

  /** In every run, replicas at one nonzero generation hold one digest, the one that generation was
      granted to, and none is ahead of the store. */
  lemma ReplicasAgreePerGeneration(run: seq<Step>)
    ensures var w := Run(INITIAL, run);
      && (forall r :: r in w.replicas ==> w.replicas[r].observed <= MaxGeneration(w.table))
      && (forall r :: r in w.replicas && w.replicas[r].observed != 0 ==>
            Grants(w, w.replicas[r].observed, w.replicas[r].local))
      && (forall q, r | q in w.replicas && r in w.replicas && w.replicas[q].observed == w.replicas[r].observed ::
            w.replicas[q].observed != 0 ==> w.replicas[q].local == w.replicas[r].local)
  {
    InitialOk();
    RunKeeps(INITIAL, run);
    var w := Run(INITIAL, run);
    forall r | r in w.replicas ensures ReplicaOk(w, w.replicas[r]) {}
  }

  /** A generation is granted only as the next one above every earlier one, so it is granted
      once, to one digest. */
  lemma GenerationsAreGrantedInOrder(run: seq<Step>, s: Step)
    ensures GrantsNext(Run(INITIAL, run), Apply(Run(INITIAL, run), s))
    ensures forall g :: g in Run(INITIAL, run).granted ==> g <= MaxGeneration(Run(INITIAL, run).table)
  {
    hide MaxGeneration, Apply, Run;
    InitialOk();
    RunKeeps(INITIAL, run);
    if Activates(s) {
      ActivationKeeps(Run(INITIAL, run), s);
    } else {
      OthersGrantNothing(Run(INITIAL, run), s);
    }
  }

  lemma OthersGrantNothing(w: World, s: Step)
    requires !Activates(s)
    ensures Apply(w, s).granted == w.granted
  {
    hide PolicyBundles.Upsert;
  }

  /** Over every continuation of every run, a generation keeps the digest it was granted to and
      no replica's observed generation decreases. */
  lemma GrantsAndObservationsOnlyGrow(run: seq<Step>, more: seq<Step>)
    ensures Progress(Run(INITIAL, run), Run(INITIAL, run + more))
  {
    InitialOk();
    RunKeeps(INITIAL, run);
    RunKeeps(Run(INITIAL, run), more);
    RunJoins(INITIAL, run, more);
  }

  /* A call left alone */

  lemma RunOneMore(run: seq<Step>, s: Step)
    ensures Run(INITIAL, run + [s]) == Apply(Run(INITIAL, run), s)
  {
    assert (run + [s])[..|run|] == run;
  }

  function Activation(r: nat, newId: string, bundleId: string, digest: string, source: string): seq<Step> {
    [Upsert(r, newId, bundleId, digest, source), StoreActivate(r), Install(r)]
  }

  /** An activation that nothing interrupts makes its bundle the active one of the next generation, and the
      replica uses it and knows that. */
  lemma UninterruptedActivation(run: seq<Step>, r: nat, newId: string, bundleId: string, digest: string, source: string)
    requires var w := Run(INITIAL, run); r in w.replicas && w.replicas[r].phase.Idle? && newId !in w.table
    ensures var w, w' := Run(INITIAL, run), Run(INITIAL, run + Activation(r, newId, bundleId, digest, source));
      && MaxGeneration(w'.table) == MaxGeneration(w.table) + 1
      && r in w'.replicas && w'.replicas[r] == Replica(digest, MaxGeneration(w.table) + 1, Idle)
      && (exists a :: IsActive(w'.table, a) && w'.table[a].bundleId == bundleId && w'.table[a].digest == digest
                      && Gen(w'.table[a]) == MaxGeneration(w'.table))
  {
    hide MaxGeneration, Invariant, Run, Activated;
    var w := Run(INITIAL, run);
    InitialOk();
    RunKeeps(INITIAL, run);
    var s1, s2, s3 := Upsert(r, newId, bundleId, digest, source), StoreActivate(r), Install(r);
    RunOneMore(run, s1);
    RunOneMore(run + [s1], s2);
    RunOneMore(run + [s1] + [s2], s3);
    assert run + Activation(r, newId, bundleId, digest, source) == run + [s1] + [s2] + [s3];
    UpsertedRowIsFound(w.table, newId, bundleId, digest, source);
    UpsertingKeeps(w, newId, bundleId, digest, source, true);
    var w1 := Upserting(w, newId, bundleId, digest, source, true);
    var target := Find(w1.table, bundleId, digest).value;
    ActivateKeeps(w1.table, target, 0);
    ActivatedContent(w1.table, target);
    assert IsActive(Activated(w1.table, target, 0), target);
  }

  /** The row of a content just recorded is found, and valid. */
  lemma UpsertedRowIsFound(t: Table, newId: string, bundleId: string, digest: string, source: string)
    requires Invariant(t) && newId !in t
    ensures var t' := PolicyBundles.Upsert(t, Find(t, bundleId, digest), newId, bundleId, digest, source, true, 0);
      var found := Find(t', bundleId, digest); found.Some? && t'[found.value].valid
  {
    hide OneActive, CandidatesUnnumbered, DistinctGenerations, ActiveNewest, ActiveIfAny;
    var t' := PolicyBundles.Upsert(t, Find(t, bundleId, digest), newId, bundleId, digest, source, true, 0);
    UpsertKeepsContents(t, Find(t, bundleId, digest), newId, bundleId, digest, source, true, 0);
    var row := if Find(t, bundleId, digest).Some? then Find(t, bundleId, digest).value else newId;
    assert row in t' && Matches(t'[row], bundleId, digest) && t'[row].valid;
    OnlyRowOfContent(t', row, bundleId, digest);
  }

  lemma ActivatedContent(t: Table, target: string)
    requires target in t
    ensures var t' := Activated(t, target, 0);
      target in t' && t'[target].bundleId == t[target].bundleId && t'[target].digest == t[target].digest
  {
    hide ActivateRow;
    ActivateRowRows(t, target, MaxGeneration(t), 0);
  }

  function RollingSteps(r: nat): seq<Step> {
    [RollbackRead(r), StoreRollback(r), RollbackSyncRead(r), RollbackInstall(r, true, false)]
  }

  /** A rollback that nothing interrupts makes the latest previous bundle the active one of the next
      generation, if it is valid, and the replica uses it; else nothing changes but that the call is over. */
  lemma UninterruptedRollback(run: seq<Step>, r: nat, p: string)
    requires var w := Run(INITIAL, run);
      r in w.replicas && w.replicas[r].phase.Idle? && IsLatestPrevious(w.table, p)
    ensures var w, w' := Run(INITIAL, run), Run(INITIAL, run + RollingSteps(r));
      if w.table[p].valid then
        && MaxGeneration(w'.table) == MaxGeneration(w.table) + 1 && IsActive(w'.table, p)
        && r in w'.replicas && w'.replicas[r] == Replica(w.table[p].digest, MaxGeneration(w.table) + 1, Idle)
      else w' == w
  {
    hide MaxGeneration, Invariant, Run, Activated;
    var w := Run(INITIAL, run);
    InitialOk();
    RunKeeps(INITIAL, run);
    var s1, s2, s3, s4 := RollbackRead(r), StoreRollback(r), RollbackSyncRead(r), RollbackInstall(r, true, false);
    RunOneMore(run, s1);
    RunOneMore(run + [s1], s2);
    RunOneMore(run + [s1] + [s2], s3);
    RunOneMore(run + [s1] + [s2] + [s3], s4);
    assert run + RollingSteps(r) == run + [s1] + [s2] + [s3] + [s4];
    StoreRollsBack(w, r, p);
    hide Apply;
    if w.table[p].valid {
      ActivateKeeps(w.table, p, 0);
      ActivatedContent(w.table, p);
      RollbackInstalls(Apply(Apply(w, s1), s2), r, p);
    } else {
      IdleStaysIdle(w, r);
    }
  }

  /** The first two steps of a rollback. */
  lemma StoreRollsBack(w: World, r: nat, p: string)
    requires Invariant(w.table) && r in w.replicas && w.replicas[r].phase.Idle? && IsLatestPrevious(w.table, p)
    ensures var w' := Apply(Apply(w, RollbackRead(r)), StoreRollback(r));
      if w.table[p].valid then
        && w'.table == Activated(w.table, p, 0) && r in w'.replicas
        && w'.replicas[r].phase == RolledBack(MaxGeneration(w.table) + 1, w.table[p].digest)
      else w' == w
  {
    hide MaxGeneration, Activated;
    LatestPreviousUnique(w.table, p, ReadPrevious(w.table).value);
    assert w.replicas[r := w.replicas[r]] == w.replicas;
  }

  /** The last two. */
  lemma RollbackInstalls(w: World, r: nat, a: string)
    requires Invariant(w.table) && IsActive(w.table, a) && r in w.replicas && w.replicas[r].phase.RolledBack?
    ensures var w' := Apply(Apply(w, RollbackSyncRead(r)), RollbackInstall(r, true, false));
      && w'.table == w.table && r in w'.replicas
      && w'.replicas[r] == Replica(w.table[a].digest, Gen(w.table[a]), Idle)
  {
    OneActiveRow(w.table, a);
  }

  lemma IdleStaysIdle(w: World, r: nat)
    requires r in w.replicas && w.replicas[r].phase.Idle?
    ensures Apply(Apply(w, RollbackSyncRead(r)), RollbackInstall(r, true, false)) == w
  {
  }

  lemma OneActiveRow(t: Table, a: string)
    requires Invariant(t) && IsActive(t, a)
    ensures ReadActive(t) == Some(a)
  {
  }

  /* Convergence */

  ghost predicate Agrees(w: World, r: nat) {
    && r in w.replicas
    && exists a :: IsActive(w.table, a) && w.replicas[r].observed == Gen(w.table[a])
                && w.replicas[r].local == w.table[a].digest
  }

  /** Being at the store's generation is agreeing with the store. */
  lemma UpToDateAgrees(w: World, r: nat, a: string)
    requires Inv(w) && r in w.replicas && IsActive(w.table, a)
    requires w.replicas[r].observed == MaxGeneration(w.table)
    ensures Agrees(w, r)
  {
    ActiveRead(w, a);
    assert ReplicaOk(w, w.replicas[r]);
  }

  lemma QuietStep(w: World, s: Step)
    requires Inv(w) && !Activates(s)
    ensures MaxGeneration(Apply(w, s).table) == MaxGeneration(w.table)
    ensures (exists a :: IsActive(w.table, a)) ==> exists a :: IsActive(Apply(w, s).table, a)
  {
    hide MaxGeneration, Invariant;
    if s.Validate? || s.Upsert? {
      RecordStepKeeps(w, s);
      if s.r in w.replicas && s.newId !in w.table {
        UpsertKeeps(w.table, Find(w.table, s.bundleId, s.digest), s.newId, s.bundleId, s.digest, s.source,
                    if s.Validate? then s.valid else true, 0);
      }
    } else {
      assert Apply(w, s).table == w.table;
    }
  }

  lemma {:induction false} QuietRun(w: World, run: seq<Step>)
    requires Inv(w) && (forall k :: 0 <= k < |run| ==> !Activates(run[k]))
    ensures MaxGeneration(Run(w, run).table) == MaxGeneration(w.table)
    ensures (exists a :: IsActive(w.table, a)) ==> exists a :: IsActive(Run(w, run).table, a)
    decreases |run|
  {
    if run != [] {
      var init := run[..|run| - 1];
      QuietRun(w, init);
      RunKeeps(w, init);
      QuietStep(Run(w, init), run[|run| - 1]);
    }
  }

  lemma OthersLeaveAlone(w: World, s: Step, r: nat)
    requires s.r != r && r in w.replicas
    ensures r in Apply(w, s).replicas && Apply(w, s).replicas[r] == w.replicas[r]
  {
    hide MaxGeneration;
  }

  lemma {:induction false} OthersRun(w: World, run: seq<Step>, r: nat)
    requires r in w.replicas && (forall k :: 0 <= k < |run| ==> run[k].r != r)
    ensures r in Run(w, run).replicas && Run(w, run).replicas[r] == w.replicas[r]
    decreases |run|
  {
    if run != [] {
      OthersRun(w, run[..|run| - 1], r);
      OthersLeaveAlone(Run(w, run[..|run| - 1]), run[|run| - 1], r);
    }
  }

  /** Replica r, idle in w, reads at the start of the segment and installs at its end. */
  ghost predicate OneSync(w: World, segment: seq<Step>, r: nat) {
    && r in w.replicas && w.replicas[r].phase.Idle? && 2 <= |segment|
    && segment[0].SyncRead? && segment[0].r == r
    && segment[|segment| - 1] == SyncInstall(r, true)
    && forall k :: 1 <= k < |segment| - 1 ==> segment[k].r != r
  }

  /** A quiet segment in which a replica completes one successful sync brings it up to date. */
  lemma SyncCatchesUp(w: World, segment: seq<Step>, r: nat, a: string)
    requires Inv(w) && IsActive(w.table, a) && OneSync(w, segment, r)
    requires forall k :: 0 <= k < |segment| ==> !Activates(segment[k])
    ensures r in Run(w, segment).replicas
    ensures Run(w, segment).replicas[r].observed == MaxGeneration(w.table)
  {
    var n := |segment|;
    var middle := segment[1..n - 1];
    assert segment == [segment[0]] + (middle + [segment[n - 1]]);
    var w1 := Apply(w, segment[0]);
    assert Run(w, [segment[0]]) == w1 by {
      assert [segment[0]][..0] == [];
      assert Run(w, []) == w;
    }
    RunJoins(w, [segment[0]], middle + [segment[n - 1]]);
    RunJoins(w1, middle, [segment[n - 1]]);
    var w2 := Run(w1, middle);
    assert Run(w2, [segment[n - 1]]) == Apply(w2, segment[n - 1]) by {
      assert [segment[n - 1]][..0] == [];
      assert Run(w2, []) == w2;
    }
    assert forall k :: 0 <= k < |middle| ==> middle[k] == segment[k + 1];
    OthersRun(w1, middle, r);
    ActiveRead(w, ReadActive(w.table).value);
  }

  /** Once activations have stopped, a replica that completes one successful sync agrees with the
      store, and keeps agreeing whatever else replicas do short of activating. */
  lemma OneSyncConverges(run: seq<Step>, before: seq<Step>, segment: seq<Step>, rest: seq<Step>, r: nat)
    requires exists a :: IsActive(Run(INITIAL, run).table, a)
    requires forall s :: s in before || s in segment || s in rest ==> !Activates(s)
    requires OneSync(Run(INITIAL, run + before), segment, r)
    ensures Agrees(Run(INITIAL, run + before + segment + rest), r)
  {
    hide MaxGeneration, Invariant, Apply;
    InitialOk();
    RunKeeps(INITIAL, run);
    var w0 := Run(INITIAL, run);
    RunJoins(INITIAL, run, before);
    RunKeeps(w0, before);
    QuietRun(w0, before);
    var w1 := Run(w0, before);
    RunJoins(INITIAL, run + before, segment);
    RunKeeps(w1, segment);
    QuietRun(w1, segment);
    var a :| IsActive(w1.table, a);
    SyncCatchesUp(w1, segment, r, a);
    var w2 := Run(w1, segment);
    RunJoins(INITIAL, run + before + segment, rest);
    RunKeeps(w2, rest);
    QuietRun(w2, rest);
    var w3 := Run(w2, rest);
    assert ReplicaOk(w3, w3.replicas[r]);
    var b :| IsActive(w3.table, b);
    UpToDateAgrees(w3, r, b);
  }

  /** Somewhere in the run the replica completes a successful sync. */
  ghost predicate CompletesSync(w: World, run: seq<Step>, r: nat) {
    exists i, j :: 0 <= i <= j <= |run| && OneSync(Run(w, run[..i]), run[i..j], r)
  }

  lemma ReplicaConverges(run: seq<Step>, quiet: seq<Step>, r: nat)
    requires exists a :: IsActive(Run(INITIAL, run).table, a)
    requires forall s :: s in quiet ==> !Activates(s)
    requires CompletesSync(Run(INITIAL, run), quiet, r)
    ensures Agrees(Run(INITIAL, run + quiet), r)
  {
    hide MaxGeneration, Invariant, Apply, Agrees, OneSync;
    var w := Run(INITIAL, run);
    var i, j :| 0 <= i <= j <= |quiet| && OneSync(Run(w, quiet[..i]), quiet[i..j], r);
    var before, segment, rest := quiet[..i], quiet[i..j], quiet[j..];
    RunJoins(INITIAL, run, before);
    forall s | s in before || s in segment || s in rest ensures !Activates(s) {
      assert s in quiet;
    }
    OneSyncConverges(run, before, segment, rest, r);
    assert run + before + segment + rest == run + quiet;
  }

  /** Once activations have stopped, one successful sync each makes all replicas agree with the
      store, and so with one another. */
  lemma AllReplicasConverge(run: seq<Step>, quiet: seq<Step>)
    requires exists a :: IsActive(Run(INITIAL, run).table, a)
    requires forall s :: s in quiet ==> !Activates(s)
    requires forall r :: r in Run(INITIAL, run + quiet).replicas ==> CompletesSync(Run(INITIAL, run), quiet, r)
    ensures forall r :: r in Run(INITIAL, run + quiet).replicas ==> Agrees(Run(INITIAL, run + quiet), r)
  {
    hide *;
    forall r | r in Run(INITIAL, run + quiet).replicas ensures Agrees(Run(INITIAL, run + quiet), r) {
      ReplicaConverges(run, quiet, r);
    }
  }
}
