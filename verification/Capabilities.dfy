/** Frozen capability contracts of agents and tools, their synchronisation from the registries on
    disk, and the pins an execution resolves to (apps/control-api/app/decision_store.py,
    apps/control-api/app/capability_service.py). */
module Capabilities {
  import opened Wrappers
  import opened IsoTime
  import Text

  datatype Kind = Agent | Tool

  datatype ContractStatus = Draft | Active | Retired

  /** A registry entry's payload: the tools it lists, and the rest. */
  datatype Content = Content(tools: seq<string>, rest: string)

  /** The canonical digest of a payload; nothing is assumed of it. */
  type Hash = Content -> string

  datatype Contract = Contract(
    kind: Kind, name: string, tenantId: string, status: ContractStatus, digest: string, content: Content,
    updatedAt: Instant, activatedAt: Option<Instant>)

  /** Rows by contract id. */
  type Table = map<string, Contract>

  datatype ContractError = UnknownContract | Duplicate

  predicate HasKey(c: Contract, kind: Kind, name: string, tenantId: string) {
    c.kind == kind && c.name == name && c.tenantId == tenantId
  }

  predicate Matches(c: Contract, kind: Kind, name: string, tenantId: string, digest: string) {
    HasKey(c, kind, name, tenantId) && c.digest == digest
  }

  /* The two statements that write */

  predicate Unique(t: Table, id: string, c: Contract) {
    id !in t && forall i :: i in t ==> !Matches(t[i], c.kind, c.name, c.tenantId, c.digest)
  }

  /** An insert under the primary key and the unique index on content. */
  function Insert(t: Table, id: string, c: Contract): Result<Table, ContractError> {
    if Unique(t, id, c) then Ok(t[id := c]) else Err(Duplicate)
  }

  /** `set_capability_contract_status`, both updates. */
  function SetStatus(t: Table, id: string, status: ContractStatus, now: Instant): Result<Table, ContractError> {
    if id !in t then Err(UnknownContract)
    else Ok(map i | i in t ::
      if i == id then t[i].(status := status, updatedAt := now,
                            activatedAt := if status.Active? then Some(now) else t[i].activatedAt)
      else if status.Active? && t[i].status.Active? && HasKey(t[i], t[id].kind, t[id].name, t[id].tenantId)
      then t[i].(status := Retired, updatedAt := now)
      else t[i])
  }

  function NewContract(sha: Hash, kind: Kind, name: string, tenantId: string, content: Content,
                       now: Instant): Contract {
    Contract(kind, name, tenantId, Draft, sha(content), content, now, None)
  }

  /* What holds of every reachable table */

  predicate Rivals(c: Contract, d: Contract) {
    c.status.Active? && d.status.Active? && HasKey(c, d.kind, d.name, d.tenantId)
  }

  ghost predicate OneActive(t: Table) {
    forall i, j :: i in t && j in t && Rivals(t[i], t[j]) ==> i == j
  }

  ghost predicate OneRowPerContent(t: Table) {
    forall i, j :: i in t && j in t && Matches(t[i], t[j].kind, t[j].name, t[j].tenantId, t[j].digest) ==> i == j
  }

  ghost predicate Invariant(sha: Hash, t: Table) {
    && OneActive(t) && OneRowPerContent(t)
    && (forall i :: i in t ==> t[i].digest == sha(t[i].content))
    && (forall i :: i in t && t[i].status.Active? ==> t[i].activatedAt.Some?)
  }

  /** One session of the service; finding a row by digest is a session of its own and only reads, so
      an insert may follow it late. */
  datatype Step =
    | InsertStep(id: string, kind: Kind, name: string, tenantId: string, content: Content, now: Instant)
    | StatusStep(id: string, status: ContractStatus, now: Instant)

  function Apply(sha: Hash, t: Table, s: Step): Table {
    var r := match s
      case InsertStep(id, kind, name, tenantId, content, now) =>
        Insert(t, id, NewContract(sha, kind, name, tenantId, content, now))
      case StatusStep(id, status, now) => SetStatus(t, id, status, now);
    if r.Ok? then r.value else t
  }

  function After(sha: Hash, run: seq<Step>): Table
    decreases |run|
  {
    if run == [] then map[] else Apply(sha, After(sha, run[..|run| - 1]), run[|run| - 1])
  }

  lemma SetStatusKeeps(sha: Hash, t: Table, id: string, status: ContractStatus, now: Instant)
    requires Invariant(sha, t) && id in t
    ensures Invariant(sha, SetStatus(t, id, status, now).value)
  {
    var t' := SetStatus(t, id, status, now).value;
    assert forall i :: i in t ==> SameSubject(t'[i], t[i]);
    assert forall i :: i in t' ==> t'[i].digest == sha(t'[i].content) && (t'[i].status.Active? ==> t'[i].activatedAt.Some?);
    hide SetStatus, SameSubject, Rivals, OneRowPerContent;
    SubjectsKeepContents(t, t');
    forall i, j | i in t' && j in t' && Rivals(t'[i], t'[j]) ensures i == j {
      SetStatusSeparates(t, id, status, now, i, j);
    }
  }

  lemma SubjectsKeepContents(t: Table, t': Table)
    requires OneRowPerContent(t) && t'.Keys == t.Keys && forall i :: i in t ==> SameSubject(t'[i], t[i])
    ensures OneRowPerContent(t')
  {
    forall i, j | i in t' && j in t' && Matches(t'[i], t'[j].kind, t'[j].name, t'[j].tenantId, t'[j].digest)
      ensures i == j
    {
      assert SameSubject(t'[i], t[i]) && SameSubject(t'[j], t[j]);
      assert Matches(t[i], t[j].kind, t[j].name, t[j].tenantId, t[j].digest);
    }
  }

  /** What a status update leaves alone. */
  predicate SameSubject(c: Contract, d: Contract) {
    Matches(c, d.kind, d.name, d.tenantId, d.digest) && c.content == d.content
  }

  lemma SetStatusSeparates(t: Table, id: string, status: ContractStatus, now: Instant, i: string, j: string)
    requires OneActive(t) && id in t && i in t && j in t
    requires Rivals(SetStatus(t, id, status, now).value[i], SetStatus(t, id, status, now).value[j])
    ensures i == j
  {
    if i != id && j != id { assert Rivals(t[i], t[j]); }
  }

  /** Whatever sessions interleave, there is one active contract per kind, name and tenant at most,
      and one row per content. */
  lemma {:induction false} ReachableTablesAreConsistent(sha: Hash, run: seq<Step>)
    ensures Invariant(sha, After(sha, run))
    decreases |run|
  {
    if run != [] {
      var t := After(sha, run[..|run| - 1]);
      ReachableTablesAreConsistent(sha, run[..|run| - 1]);
      var s := run[|run| - 1];
      if s.StatusStep? && s.id in t { SetStatusKeeps(sha, t, s.id, s.status, s.now); }
    }
  }

  /* Synchronisation */

  datatype Entry = Entry(kind: Kind, name: string, content: Content)

  /** Registry names are the keys of a dictionary. */
  ghost predicate DistinctEntries(es: seq<Entry>) {
    forall i, j :: 0 <= i < j < |es| ==> es[i].kind != es[j].kind || es[i].name != es[j].name
  }

  ghost predicate FreshIds(t: Table, ids: seq<string>) {
    && (forall i :: 0 <= i < |ids| ==> ids[i] !in t)
    && (forall i, j :: 0 <= i < j < |ids| ==> ids[i] != ids[j])
  }

  predicate MatchesEntry(sha: Hash, c: Contract, tenantId: string, e: Entry) {
    Matches(c, e.kind, e.name, tenantId, sha(e.content))
  }

  /** `get_capability_contract_by_digest`. */
  ghost predicate Finds(sha: Hash, t: Table, tenantId: string, e: Entry, found: Option<string>) {
    match found
    case Some(id) => id in t && MatchesEntry(sha, t[id], tenantId, e)
    case None => forall id :: id in t ==> !MatchesEntry(sha, t[id], tenantId, e)
  }

  ghost function Find(sha: Hash, t: Table, tenantId: string, e: Entry): (found: Option<string>)
    ensures Finds(sha, t, tenantId, e, found)
  {
    if id :| id in t && MatchesEntry(sha, t[id], tenantId, e) then Some(id) else None
  }

  function SyncFound(sha: Hash, t: Table, tenantId: string, e: Entry, activate: bool, found: Option<string>,
                     newId: string, now: Instant): Table
    requires found.Some? ==> found.value in t
  {
    var t1 := if found.Some? then t else t[newId := NewContract(sha, e.kind, e.name, tenantId, e.content, now)];
    var id := if found.Some? then found.value else newId;
    if activate && !t1[id].status.Active? then SetStatus(t1, id, Active, now).value else t1
  }

  /** The loop body of `sync_from_filesystem`: find or insert, then activate unless active. */
  ghost function SyncOne(sha: Hash, t: Table, tenantId: string, e: Entry, activate: bool, newId: string,
                         now: Instant): Table {
    SyncFound(sha, t, tenantId, e, activate, Find(sha, t, tenantId, e), newId, now)
  }

  ghost function SyncAll(sha: Hash, t: Table, tenantId: string, es: seq<Entry>, activate: bool,
                         ids: seq<string>, now: Instant): Table
    requires |ids| == |es|
  {
    if es == [] then t
    else
      var m := |es| - 1;
      SyncOne(sha, SyncAll(sha, t, tenantId, es[..m], activate, ids[..m], now), tenantId, es[m], activate, ids[m], now)
  }

  /** The entry's content is the active contract of its name. */
  ghost predicate Serving(sha: Hash, t: Table, tenantId: string, e: Entry) {
    exists id :: id in t && t[id].status.Active? && MatchesEntry(sha, t[id], tenantId, e)
  }

  /** Rows of other names are as they were, and rows never change what they are about. */
  ghost predicate OthersUntouched(t: Table, t': Table, tenantId: string, e: Entry, newId: string) {
    && t.Keys <= t'.Keys <= t.Keys + {newId}
    && (forall id :: id in t && !HasKey(t[id], e.kind, e.name, tenantId) ==> t'[id] == t[id])
    && (forall id :: id in t ==> Matches(t'[id], t[id].kind, t[id].name, t[id].tenantId, t[id].digest))
    && (newId in t' && newId !in t ==> HasKey(t'[newId], e.kind, e.name, tenantId))
  }

  lemma InsertKeeps(sha: Hash, t: Table, tenantId: string, e: Entry, newId: string, now: Instant)
    requires Invariant(sha, t) && newId !in t && Finds(sha, t, tenantId, e, None)
    ensures var t' := t[newId := NewContract(sha, e.kind, e.name, tenantId, e.content, now)];
      && Invariant(sha, t') && OthersUntouched(t, t', tenantId, e, newId)
      && MatchesEntry(sha, t'[newId], tenantId, e)
  {
  }

  lemma ActivateOthers(t: Table, id: string, now: Instant)
    requires id in t
    ensures SetStatus(t, id, Active, now).Ok?
    ensures var t', c := SetStatus(t, id, Active, now).value, t[id];
      && t'.Keys == t.Keys && t'[id].status.Active?
      && (forall i :: i in t && !HasKey(t[i], c.kind, c.name, c.tenantId) ==> t'[i] == t[i])
      && (forall i :: i in t ==> Matches(t'[i], t[i].kind, t[i].name, t[i].tenantId, t[i].digest))
  {
  }

  /** Finding or inserting the row of an entry. */
  lemma EnsureRow(sha: Hash, t: Table, tenantId: string, e: Entry, newId: string, now: Instant)
    requires Invariant(sha, t) && newId !in t
    ensures var found := Find(sha, t, tenantId, e);
      var t1 := SyncFound(sha, t, tenantId, e, false, found, newId, now);
      var id := if found.Some? then found.value else newId;
      && Invariant(sha, t1) && OthersUntouched(t, t1, tenantId, e, newId)
      && id in t1 && MatchesEntry(sha, t1[id], tenantId, e)
      && (forall i :: i in t ==> t1[i] == t[i])
  {
    hide Invariant;
    if Find(sha, t, tenantId, e).None? { InsertKeeps(sha, t, tenantId, e, newId, now); }
  }

  lemma {:induction false} SyncOneServes(sha: Hash, t: Table, tenantId: string, e: Entry, activate: bool,
                                         newId: string, now: Instant)
    requires Invariant(sha, t) && newId !in t
    ensures var t' := SyncOne(sha, t, tenantId, e, activate, newId, now);
      && Invariant(sha, t') && OthersUntouched(t, t', tenantId, e, newId)
      && (activate ==> Serving(sha, t', tenantId, e))
      && (!activate ==> forall id :: id in t ==> t'[id] == t[id])
  {
    hide Invariant, SetStatus;
    EnsureRow(sha, t, tenantId, e, newId, now);
    var found := Find(sha, t, tenantId, e);
    var t1 := SyncFound(sha, t, tenantId, e, false, found, newId, now);
    var id := if found.Some? then found.value else newId;
    if activate && !t1[id].status.Active? {
      SetStatusKeeps(sha, t1, id, Active, now);
      ActivateOthers(t1, id, now);
      var t' := SetStatus(t1, id, Active, now).value;
      assert t' == SyncOne(sha, t, tenantId, e, activate, newId, now);
      assert t'[id].status.Active? && MatchesEntry(sha, t'[id], tenantId, e);
    }
  }

  lemma ServedStaysServed(sha: Hash, t: Table, t': Table, tenantId: string, e: Entry, other: Entry, newId: string)
    requires OthersUntouched(t, t', tenantId, e, newId) && Serving(sha, t, tenantId, other)
    requires other.kind != e.kind || other.name != e.name
    ensures Serving(sha, t', tenantId, other)
  {
    var id :| id in t && t[id].status.Active? && MatchesEntry(sha, t[id], tenantId, other);
    assert t'[id] == t[id];
  }

  /** A name outside the registry, or of another tenant. */
  ghost predicate Outside(es: seq<Entry>, tenantId: string, c: Contract) {
    forall i :: 0 <= i < |es| ==> !HasKey(c, es[i].kind, es[i].name, tenantId)
  }

  /** Synchronising with activation serves exactly the registry on its names, whatever was active
      before, also when content returns to a digest retired earlier; nothing else changes. */
  lemma {:induction false} SyncServesRegistry(sha: Hash, t: Table, tenantId: string, es: seq<Entry>,
                                              ids: seq<string>, now: Instant)
    requires Invariant(sha, t) && DistinctEntries(es) && |ids| == |es| && FreshIds(t, ids)
    ensures var t' := SyncAll(sha, t, tenantId, es, true, ids, now);
      && Invariant(sha, t')
      && (forall i :: 0 <= i < |es| ==> Serving(sha, t', tenantId, es[i]))
      && t.Keys <= t'.Keys && (forall id :: id in t' ==> id in t || id in ids)
      && (forall id :: id in t && Outside(es, tenantId, t[id]) ==> t'[id] == t[id])
      && (forall id :: id in t ==> Matches(t'[id], t[id].kind, t[id].name, t[id].tenantId, t[id].digest))
    decreases |es|
  {
    hide Invariant, Serving, Matches, SyncOne;
    if es == [] {
      assert forall id :: id in t ==> Matches(t[id], t[id].kind, t[id].name, t[id].tenantId, t[id].digest) by {
        forall id | id in t ensures Matches(t[id], t[id].kind, t[id].name, t[id].tenantId, t[id].digest) {
          SelfMatch(t[id]);
        }
      }
    } else {
      var m := |es| - 1;
      SyncServesRegistry(sha, t, tenantId, es[..m], ids[..m], now);
      var t1 := SyncAll(sha, t, tenantId, es[..m], true, ids[..m], now);
      assert ids[m] !in t1;
      SyncOneServes(sha, t1, tenantId, es[m], true, ids[m], now);
      var t' := SyncOne(sha, t1, tenantId, es[m], true, ids[m], now);
      forall i | 0 <= i < |es| ensures Serving(sha, t', tenantId, es[i]) {
        if i < m { ServedStaysServed(sha, t1, t', tenantId, es[m], es[..m][i], ids[m]); }
      }
      forall id | id in t && Outside(es, tenantId, t[id]) ensures t'[id] == t[id] {
        assert !HasKey(t[id], es[m].kind, es[m].name, tenantId);
        assert Outside(es[..m], tenantId, t[id]);
      }
      forall id | id in t ensures Matches(t'[id], t[id].kind, t[id].name, t[id].tenantId, t[id].digest) {
        MatchTransitive(t'[id], t1[id], t[id]);
      }
    }
  }

  lemma SelfMatch(c: Contract)
    ensures Matches(c, c.kind, c.name, c.tenantId, c.digest)
  {
  }

  lemma MatchTransitive(a: Contract, b: Contract, c: Contract)
    requires Matches(a, b.kind, b.name, b.tenantId, b.digest) && Matches(b, c.kind, c.name, c.tenantId, c.digest)
    ensures Matches(a, c.kind, c.name, c.tenantId, c.digest)
  {
  }

  lemma SyncOneIdle(sha: Hash, t: Table, tenantId: string, e: Entry, newId: string, now: Instant)
    requires Invariant(sha, t) && Serving(sha, t, tenantId, e)
    ensures SyncOne(sha, t, tenantId, e, true, newId, now) == t
  {
    var id :| id in t && t[id].status.Active? && MatchesEntry(sha, t[id], tenantId, e);
    assert Find(sha, t, tenantId, e) == Some(id);
  }

  lemma {:induction false} SyncAllIdle(sha: Hash, t: Table, tenantId: string, es: seq<Entry>, ids: seq<string>,
                                       now: Instant)
    requires Invariant(sha, t) && |ids| == |es|
    requires forall i :: 0 <= i < |es| ==> Serving(sha, t, tenantId, es[i])
    ensures SyncAll(sha, t, tenantId, es, true, ids, now) == t
    decreases |es|
  {
    if es != [] {
      var m := |es| - 1;
      assert forall i :: 0 <= i < m ==> es[..m][i] == es[i];
      SyncAllIdle(sha, t, tenantId, es[..m], ids[..m], now);
      SyncOneIdle(sha, t, tenantId, es[m], ids[m], now);
    }
  }

  /** Synchronising again changes nothing, not even a timestamp. */
  lemma SecondSyncChangesNothing(sha: Hash, t: Table, tenantId: string, es: seq<Entry>,
                                 ids: seq<string>, now: Instant, ids': seq<string>, now': Instant)
    requires Invariant(sha, t) && DistinctEntries(es) && |ids| == |es| && FreshIds(t, ids) && |ids'| == |es|
    ensures var t' := SyncAll(sha, t, tenantId, es, true, ids, now);
      SyncAll(sha, t', tenantId, es, true, ids', now') == t'
  {
    hide *;
    SyncServesRegistry(sha, t, tenantId, es, ids, now);
    SyncAllIdle(sha, SyncAll(sha, t, tenantId, es, true, ids, now), tenantId, es, ids', now');
  }

  predicate SameName(c: Contract, d: Contract) {
    c.kind == d.kind && c.name == d.name && c.tenantId == d.tenantId
  }

  /** The row has its new status, and the time of its activation if that is what happened; an activation
      retires the other active rows of its kind, name and tenant. All else is as it was. */
  ghost predicate StatusSet(t: Table, t': Table, id: string, status: ContractStatus, now: Instant) {
    && id in t && t'.Keys == t.Keys
    && t'[id] == (if status.Active? then t[id].(status := Active, updatedAt := now, activatedAt := Some(now))
                  else t[id].(status := status, updatedAt := now))
    && (forall i :: i in t && i != id ==>
          t'[i] == if status.Active? && t[i].status.Active? && SameName(t[i], t[id])
                   then t[i].(status := Retired, updatedAt := now) else t[i])
  }

  lemma SetStatusMeans(t: Table, id: string, status: ContractStatus, now: Instant)
    requires id in t
    ensures StatusSet(t, SetStatus(t, id, status, now).value, id, status, now)
  {
  }

  /** Either a row of this content for this name was there, and nothing changes, or there was none, and the
      new row is a draft of it. */
  ghost predicate Upserted(sha: Hash, t: Table, t': Table, tenantId: string, e: Entry, id: string, newId: string,
                           now: Instant)
  {
    var draft := Contract(e.kind, e.name, tenantId, Draft, sha(e.content), e.content, now, None);
    if exists i :: i in t && SameName(t[i], draft) && t[i].digest == sha(e.content) then
      t' == t && id in t && SameName(t[id], draft) && t[id].digest == sha(e.content)
    else t' == t[newId := draft] && id == newId
  }

  class CapabilityStore {
    const sha: Hash
    var contracts: Table

    constructor (sha: Hash)
      ensures this.sha == sha && contracts == map[]
    {
      this.sha := sha;
      contracts := map[];
    }

    /** `upsert_capability_contract`: an existing row of this content is returned as it is. */
    method Upsert(tenantId: string, e: Entry, newId: string, now: Instant) returns (id: string)
      requires Invariant(sha, contracts) && newId !in contracts
      modifies this
      ensures contracts == SyncOne(sha, old(contracts), tenantId, e, false, newId, now)
      ensures id in contracts && MatchesEntry(sha, contracts[id], tenantId, e)
      ensures Find(sha, old(contracts), tenantId, e) == if id in old(contracts) then Some(id) else None
      ensures Upserted(sha, old(contracts), contracts, tenantId, e, id, newId, now)
    {
      if existing :| existing in contracts && MatchesEntry(sha, contracts[existing], tenantId, e) {
        assert Find(sha, contracts, tenantId, e) == Some(existing);
        return existing;
      }
      assert Find(sha, contracts, tenantId, e) == None;
      contracts := contracts[newId := NewContract(sha, e.kind, e.name, tenantId, e.content, now)];
      id := newId;
    }

    method SetContractStatus(id: string, status: ContractStatus, now: Instant) returns (r: Result<Contract,
                             ContractError>)
      modifies this
      ensures r.Ok? <==> id in old(contracts)
      ensures r.Ok? ==> SetStatus(old(contracts), id, status, now) == Ok(contracts) && r.value == contracts[id]
      ensures r.Err? ==> contracts == old(contracts)
      ensures r.Ok? ==> StatusSet(old(contracts), contracts, id, status, now)
    {
      hide StatusSet;
      if id !in contracts { return Err(UnknownContract); }
      SetStatusMeans(contracts, id, status, now);
      var record := contracts[id];
      if status.Active? {
        contracts := map i | i in contracts ::
          if i != id && contracts[i].status.Active? && HasKey(contracts[i], record.kind, record.name, record.tenantId)
          then contracts[i].(status := Retired, updatedAt := now) else contracts[i];
      }
      var activatedAt := if status.Active? then Some(now) else contracts[id].activatedAt;
      contracts := contracts[id := contracts[id].(status := status, updatedAt := now, activatedAt := activatedAt)];
      assert contracts == SetStatus(old(contracts), id, status, now).value;
      r := Ok(contracts[id]);
    }

    /** `sync_from_filesystem`, over the agents and then the tools. */
    method SyncFromFilesystem(tenantId: string, agents: seq<Entry>, tools: seq<Entry>, activate: bool,
                              ids: seq<string>, now: Instant)
      returns (synced: seq<Contract>)
      requires Invariant(sha, contracts) && |ids| == |agents| + |tools| && FreshIds(contracts, ids)
      modifies this
      ensures Invariant(sha, contracts)
      ensures contracts == SyncAll(sha, old(contracts), tenantId, agents + tools, activate, ids, now)
      ensures |synced| == |agents| + |tools|
      ensures forall i :: 0 <= i < |synced| ==> MatchesEntry(sha, synced[i], tenantId, (agents + tools)[i])
      ensures activate ==> forall i :: 0 <= i < |synced| ==> synced[i].status.Active?
    {
      hide Invariant, SyncOne, MatchesEntry;
      synced := [];
      var es := agents + tools;
      for i := 0 to |es|
        invariant |synced| == i && Invariant(sha, contracts)
        invariant contracts == SyncAll(sha, old(contracts), tenantId, es[..i], activate, ids[..i], now)
        invariant forall id :: id in contracts ==> id in old(contracts) || id in ids[..i]
        invariant forall j :: 0 <= j < i ==> MatchesEntry(sha, synced[j], tenantId, es[j])
        invariant activate ==> forall j :: 0 <= j < i ==> synced[j].status.Active?
      {
        assert es[..i + 1][..i] == es[..i] && ids[..i + 1][..i] == ids[..i];
        var record := SyncEntry(tenantId, es[i], activate, ids[i], now);
        synced := synced + [record];
      }
      assert es[..|es|] == es && ids[..|es|] == ids;
    }

    /** Its loop body. */
    method SyncEntry(tenantId: string, e: Entry, activate: bool, newId: string, now: Instant) returns (record: Contract)
      requires Invariant(sha, contracts) && newId !in contracts
      modifies this
      ensures Invariant(sha, contracts) && contracts.Keys <= old(contracts).Keys + {newId}
      ensures contracts == SyncOne(sha, old(contracts), tenantId, e, activate, newId, now)
      ensures MatchesEntry(sha, record, tenantId, e) && (activate ==> record.status.Active?)
    {
      SyncOneServes(sha, contracts, tenantId, e, activate, newId, now);
      var id := Upsert(tenantId, e, newId, now);
      record := contracts[id];
      if activate && !record.status.Active? {
        var r := SetContractStatus(id, Active, now);
        record := r.value;
      }
    }
  }

  /* What is served */

  const LIST_LIMIT := 500

  function ActiveIds(t: Table, kind: Kind, tenant: Option<string>): (r: set<string>)
    ensures r <= t.Keys
  {
    set id | id in t && t[id].status.Active? && t[id].kind == kind && (tenant.None? || t[id].tenantId == tenant.value)
  }

  ghost predicate DistinctIds(page: seq<string>) {
    forall i, j :: 0 <= i < j < |page| ==> page[i] != page[j]
  }

  /** A result of `list_capability_contracts`: the latest updated first and no more than the limit;
      rows updated at the same instant come in any order. */
  ghost predicate Lists(t: Table, among: set<string>, limit: nat, page: seq<string>)
    requires among <= t.Keys
  {
    && DistinctIds(page) && (forall i :: 0 <= i < |page| ==> page[i] in among)
    && |page| == (if |among| <= limit then |among| else limit)
    && (forall i, j :: 0 <= i < j < |page| ==> t[page[j]].updatedAt <= t[page[i]].updatedAt)
    && (forall i, id :: 0 <= i < |page| && id in among && id !in page ==> t[id].updatedAt <= t[page[i]].updatedAt)
  }

  lemma {:induction false} DistinctCount(page: seq<string>)
    requires DistinctIds(page)
    ensures |set id | id in page| == |page|
  {
    if page != [] {
      var m := |page| - 1;
      DistinctCount(page[..m]);
      assert (set id | id in page) == (set id | id in page[..m]) + {page[m]};
      assert page[m] !in page[..m];
    }
  }

  /** The page holds every row exactly when they are no more than the limit. */
  lemma PageIsCompleteExactlyWhen(t: Table, among: set<string>, limit: nat, page: seq<string>)
    requires among <= t.Keys && Lists(t, among, limit, page)
    ensures (forall id :: id in among ==> id in page) <==> |among| <= limit
  {
    var listed := set id | id in page;
    DistinctCount(page);
    assert listed <= among;
    if |among| <= limit {
      if id :| id in among && id !in page { Cardinality(listed + {id}, among); assert false; }
    } else if forall id :: id in among ==> id in page {
      Cardinality(among, listed);
    }
  }

  lemma Cardinality(a: set<string>, b: set<string>)
    requires a <= b
    ensures |a| <= |b|
  {
    assert b == a + (b - a);
  }

  /** Names to contents, a later row replacing an earlier one of the same name. */
  function MapOf(t: Table, page: seq<string>): (m: map<string, Content>)
    requires forall i :: 0 <= i < |page| ==> page[i] in t
  {
    if page == [] then map[]
    else MapOf(t, page[..|page| - 1])[t[page[|page| - 1]].name := t[page[|page| - 1]].content]
  }

  /** `active_capability_map`, on the page its query returns. */
  method ActiveCapabilityMap(t: Table, kind: Kind, tenant: Option<string>, page: seq<string>)
    returns (m: map<string, Content>)
    requires Lists(t, ActiveIds(t, kind, tenant), LIST_LIMIT, page)
    ensures m == MapOf(t, page)
    ensures MapServes(t, page, m)
  {
    MapOfServes(t, page);
    assert MapOf(t, page[..0]) == map[];
    hide MapServes, DistinctIds, MapOf, ActiveIds;
    m := map[];
    for i := 0 to |page|
      invariant m == MapOf(t, page[..i])
    {
      MapOfOneMore(t, page, i);
      m := m[t[page[i]].name := t[page[i]].content];
    }
    assert page[..|page|] == page;
  }

  /** Row i is the last of the page with its name. */
  predicate LastOfName(t: Table, page: seq<string>, i: nat)
    requires forall k :: 0 <= k < |page| ==> page[k] in t
  {
    i < |page| && forall j :: i < j < |page| ==> t[page[j]].name != t[page[i]].name
  }

  /** The map has the names of the page, each with the content of the last row of that name. */
  lemma {:induction false} MapOfMeaning(t: Table, page: seq<string>)
    requires forall i :: 0 <= i < |page| ==> page[i] in t
    ensures forall i :: 0 <= i < |page| ==> t[page[i]].name in MapOf(t, page)
    ensures forall n :: n in MapOf(t, page) ==>
      exists i: nat :: i < |page| && t[page[i]].name == n && MapOf(t, page)[n] == t[page[i]].content && LastOfName(t, page, i)
  {
    if page != [] {
      var m := |page| - 1;
      MapOfMeaning(t, page[..m]);
      forall n | n in MapOf(t, page)
        ensures exists i: nat :: i < |page| && t[page[i]].name == n && MapOf(t, page)[n] == t[page[i]].content
                                 && LastOfName(t, page, i)
      {
        if n != t[page[m]].name {
          var i: nat :| i < m && t[page[..m][i]].name == n && MapOf(t, page[..m])[n] == t[page[..m][i]].content
                        && LastOfName(t, page[..m], i);
          assert page[i] == page[..m][i];
          assert LastOfName(t, page, i);
        } else {
          assert t[page[m]].name == n && LastOfName(t, page, m);
        }
      }
      forall i | 0 <= i < |page| ensures t[page[i]].name in MapOf(t, page) {
        if i < m { assert page[..m][i] == page[i]; }
      }
    }
  }

  lemma MapOfOneMore(t: Table, page: seq<string>, i: nat)
    requires i < |page| && forall j :: 0 <= j < |page| ==> page[j] in t
    ensures MapOf(t, page[..i + 1]) == MapOf(t, page[..i])[t[page[i]].name := t[page[i]].content]
  {
    assert page[..i + 1][..i] == page[..i];
  }

  /** The map has exactly the names of the page, each with the content of the last row of that name. */
  ghost predicate MapServes(t: Table, page: seq<string>, m: map<string, Content>)
    requires forall i :: 0 <= i < |page| ==> page[i] in t
  {
    && (forall i: nat :: LastOfName(t, page, i) ==> t[page[i]].name in m && m[t[page[i]].name] == t[page[i]].content)
    && (forall n :: n in m ==> exists i: nat :: LastOfName(t, page, i) && t[page[i]].name == n)
  }

  lemma MapOfServes(t: Table, page: seq<string>)
    requires forall i :: 0 <= i < |page| ==> page[i] in t
    ensures MapServes(t, page, MapOf(t, page))
  {
    hide MapOf;
    MapOfMeaning(t, page);
  }

  /** For one tenant the map serves every active contract exactly when there are no more than the
      query's limit of them. */
  lemma ActiveMapIsCompleteExactlyWhen(sha: Hash, t: Table, kind: Kind, tenantId: string, page: seq<string>)
    requires Invariant(sha, t) && Lists(t, ActiveIds(t, kind, Some(tenantId)), LIST_LIMIT, page)
    ensures (forall id :: id in ActiveIds(t, kind, Some(tenantId)) ==>
               t[id].name in MapOf(t, page) && MapOf(t, page)[t[id].name] == t[id].content)
            <==> |ActiveIds(t, kind, Some(tenantId))| <= LIST_LIMIT
  {
    hide OneRowPerContent, MapOf;
    var among := ActiveIds(t, kind, Some(tenantId));
    var m := MapOf(t, page);
    PageIsCompleteExactlyWhen(t, among, LIST_LIMIT, page);
    MapOfMeaning(t, page);
    forall id | id in among && t[id].name in m ensures id in page && m[t[id].name] == t[id].content {
      var i :| 0 <= i < |page| && t[page[i]].name == t[id].name && m[t[id].name] == t[page[i]].content;
      assert Rivals(t[id], t[page[i]]);
    }
    forall id | id in among && id in page ensures t[id].name in m {
      var i :| 0 <= i < |page| && page[i] == id;
    }
  }

  /* Which rows every page holds */

  /** The other rows that were updated at the same time as row id, or later. */
  function NotOlder(t: Table, among: set<string>, id: string): set<string>
    requires among <= t.Keys && id in t
  {
    set j | j in among && j != id && t[id].updatedAt <= t[j].updatedAt
  }

  lemma {:induction false} NewestExists(t: Table, among: set<string>) returns (x: string)
    requires among != {} && among <= t.Keys
    ensures x in among && forall y :: y in among ==> t[y].updatedAt <= t[x].updatedAt
    decreases |among|
  {
    x :| x in among;
    if among != {x} {
      var z := NewestExists(t, among - {x});
      if t[x].updatedAt < t[z].updatedAt { x := z; }
    }
  }

  /** The query always has a result. */
  lemma {:induction false} PageExists(t: Table, among: set<string>, limit: nat) returns (page: seq<string>)
    requires among <= t.Keys
    ensures Lists(t, among, limit, page)
    decreases limit
  {
    page := [];
    if limit > 0 && among != {} {
      var x := NewestExists(t, among);
      var rest := PageExists(t, among - {x}, limit - 1);
      page := [x] + rest;
      NewestFirst(t, among, limit, x, rest);
    }
  }

  /** A page lists its rows latest first, and none left out is later than one listed. */
  ghost predicate LatestFirst(t: Table, among: set<string>, page: seq<string>)
    requires among <= t.Keys && forall i :: 0 <= i < |page| ==> page[i] in among
  {
    && (forall i, j :: 0 <= i < j < |page| ==> t[page[j]].updatedAt <= t[page[i]].updatedAt)
    && (forall i, id :: 0 <= i < |page| && id in among && id !in page ==> t[id].updatedAt <= t[page[i]].updatedAt)
  }

  lemma LatestFirstFront(t: Table, among: set<string>, x: string, rest: seq<string>)
    requires among <= t.Keys && x in among && forall i :: 0 <= i < |rest| ==> rest[i] in among - {x}
    requires LatestFirst(t, among - {x}, rest) && forall y :: y in among ==> t[y].updatedAt <= t[x].updatedAt
    ensures forall i :: 0 <= i < |[x] + rest| ==> ([x] + rest)[i] in among
    ensures LatestFirst(t, among, [x] + rest)
  {
    var page := [x] + rest;
    assert forall i :: 0 < i < |page| ==> page[i] == rest[i - 1];
    forall i, id | 0 <= i < |page| && id in among && id !in page ensures t[id].updatedAt <= t[page[i]].updatedAt {
      assert page[0] == x && rest == page[1..];
      if i > 0 { assert t[id].updatedAt <= t[rest[i - 1]].updatedAt; }
    }
  }

  /** The newest row, and then a page of the others. */
  lemma NewestFirst(t: Table, among: set<string>, limit: nat, x: string, rest: seq<string>)
    requires among <= t.Keys && x in among && limit > 0 && Lists(t, among - {x}, limit - 1, rest)
    requires forall y :: y in among ==> t[y].updatedAt <= t[x].updatedAt
    ensures Lists(t, among, limit, [x] + rest)
  {
    assert |among - {x}| == |among| - 1;
    assert LatestFirst(t, among - {x}, rest);
    assert x !in rest;
    DistinctFront(x, rest);
    LatestFirstFront(t, among, x, rest);
    hide DistinctIds;
  }

  lemma DistinctFront(x: string, rest: seq<string>)
    requires DistinctIds(rest) && x !in rest
    ensures DistinctIds([x] + rest)
  {
  }

  /** A row is on every page exactly when fewer other rows than the limit are not older than it. */
  lemma AlwaysListedExactlyWhen(t: Table, among: set<string>, limit: nat, id: string)
    requires among <= t.Keys && id in among
    ensures (forall page :: Lists(t, among, limit, page) ==> id in page) <==> |NotOlder(t, among, id)| < limit
  {
    var others := NotOlder(t, among, id);
    if |others| < limit {
      forall page | Lists(t, among, limit, page) ensures id in page { ListedWhenRecent(t, among, limit, id, page); }
    } else {
      var page := PageExists(t, among - {id}, limit);
      UnlistedWhenCrowded(t, among, limit, id, page);
    }
  }

  lemma ListedWhenRecent(t: Table, among: set<string>, limit: nat, id: string, page: seq<string>)
    requires among <= t.Keys && id in among && Lists(t, among, limit, page) && |NotOlder(t, among, id)| < limit
    ensures id in page
  {
    if id !in page {
      var listed := set j | j in page;
      DistinctCount(page);
      forall j | j in listed ensures j in NotOlder(t, among, id) {
        var i :| 0 <= i < |page| && page[i] == j;
      }
      Cardinality(listed, NotOlder(t, among, id));
      Cardinality(listed + {id}, among);
    }
  }

  lemma UnlistedWhenCrowded(t: Table, among: set<string>, limit: nat, id: string, page: seq<string>)
    requires among <= t.Keys && id in among && limit <= |NotOlder(t, among, id)|
    requires Lists(t, among - {id}, limit, page)
    ensures Lists(t, among, limit, page) && id !in page
  {
    var others := NotOlder(t, among, id);
    Cardinality(others, among - {id});
    forall i | 0 <= i < |page| ensures t[id].updatedAt <= t[page[i]].updatedAt {
      if t[page[i]].updatedAt < t[id].updatedAt {
        var listed := set j | j in page;
        DistinctCount(page);
        assert others <= listed;
        Cardinality(others + {page[i]}, listed);
      }
    }
  }

  /** The map serves this entry's content under its name. */
  predicate ServedBy(sha: Hash, m: map<string, Content>, e: Entry) {
    e.name in m && sha(m[e.name]) == sha(e.content)
  }

  /** For one tenant, an active contract is in the map exactly when it is on the page. */
  lemma ServedWhenListed(sha: Hash, t: Table, kind: Kind, tenantId: string, page: seq<string>, id: string)
    requires Invariant(sha, t) && Lists(t, ActiveIds(t, kind, Some(tenantId)), LIST_LIMIT, page)
    requires id in ActiveIds(t, kind, Some(tenantId))
    ensures id in page <==> t[id].name in MapOf(t, page)
    ensures id in page ==> MapOf(t, page)[t[id].name] == t[id].content
  {
    hide OneRowPerContent, MapOf;
    var m := MapOf(t, page);
    MapOfMeaning(t, page);
    if t[id].name in m {
      var i :| 0 <= i < |page| && t[page[i]].name == t[id].name && m[t[id].name] == t[page[i]].content;
      assert Rivals(t[id], t[page[i]]);
    }
    if id in page { var i :| 0 <= i < |page| && page[i] == id; }
  }

  /** Row id is the active contract of this entry. */
  predicate Serves(sha: Hash, t: Table, tenantId: string, e: Entry, id: string) {
    id in ActiveIds(t, e.kind, Some(tenantId)) && MatchesEntry(sha, t[id], tenantId, e)
  }

  /** Every result of the query serves the entry. */
  ghost predicate AlwaysServed(sha: Hash, t: Table, tenantId: string, e: Entry) {
    forall page | Lists(t, ActiveIds(t, e.kind, Some(tenantId)), LIST_LIMIT, page) ::
      ServedBy(sha, MapOf(t, page), e)
  }

  lemma EntryServedExactlyWhen(sha: Hash, t: Table, tenantId: string, e: Entry, id: string)
    requires Invariant(sha, t) && Serves(sha, t, tenantId, e, id)
    ensures AlwaysServed(sha, t, tenantId, e) <==>
            |NotOlder(t, ActiveIds(t, e.kind, Some(tenantId)), id)| < LIST_LIMIT
  {
    hide MapOf, OneActive, OneRowPerContent, NotOlder;
    var among := ActiveIds(t, e.kind, Some(tenantId));
    AlwaysListedExactlyWhen(t, among, LIST_LIMIT, id);
    forall page | Lists(t, among, LIST_LIMIT, page) ensures ServedBy(sha, MapOf(t, page), e) <==> id in page {
      ServedWhenListed(sha, t, e.kind, tenantId, page, id);
    }
  }

  /** On any table that serves the registry. */
  lemma ServedExactlyWhen(sha: Hash, t: Table, tenantId: string, es: seq<Entry>)
    requires Invariant(sha, t) && forall i :: 0 <= i < |es| ==> Serving(sha, t, tenantId, es[i])
    ensures (forall i :: 0 <= i < |es| ==> AlwaysServed(sha, t, tenantId, es[i])) <==>
            (forall i, id :: 0 <= i < |es| && Serves(sha, t, tenantId, es[i], id) ==>
               |NotOlder(t, ActiveIds(t, es[i].kind, Some(tenantId)), id)| < LIST_LIMIT)
  {
    hide Invariant, NotOlder, AlwaysServed, ActiveIds, MatchesEntry;
    forall i, id | 0 <= i < |es| && Serves(sha, t, tenantId, es[i], id)
      ensures AlwaysServed(sha, t, tenantId, es[i]) <==>
              |NotOlder(t, ActiveIds(t, es[i].kind, Some(tenantId)), id)| < LIST_LIMIT
    {
      EntryServedExactlyWhen(sha, t, tenantId, es[i], id);
    }
    forall i | 0 <= i < |es| ensures exists id :: Serves(sha, t, tenantId, es[i], id) {
      ServingHasRow(sha, t, tenantId, es[i]);
    }
  }

  /** After a synchronisation the active maps agree with the registry on every name of it, whatever the
      queries return, if and only if for every entry fewer than 500 other active contracts of its kind
      and tenant are not older than the entry's own. */
  lemma SyncedMapEqualsRegistryExactlyWhen(sha: Hash, t: Table, tenantId: string, es: seq<Entry>, ids: seq<string>,
                                           now: Instant)
    requires Invariant(sha, t) && DistinctEntries(es) && |ids| == |es| && FreshIds(t, ids)
    ensures var t' := SyncAll(sha, t, tenantId, es, true, ids, now);
      (forall i :: 0 <= i < |es| ==> AlwaysServed(sha, t', tenantId, es[i])) <==>
      (forall i, id :: 0 <= i < |es| && Serves(sha, t', tenantId, es[i], id) ==>
         |NotOlder(t', ActiveIds(t', es[i].kind, Some(tenantId)), id)| < LIST_LIMIT)
  {
    hide SyncAll, Invariant, NotOlder, AlwaysServed, ActiveIds, Serves, Serving;
    SyncServesRegistry(sha, t, tenantId, es, ids, now);
    ServedExactlyWhen(sha, SyncAll(sha, t, tenantId, es, true, ids, now), tenantId, es);
  }

  lemma ServingHasRow(sha: Hash, t: Table, tenantId: string, e: Entry)
    requires Serving(sha, t, tenantId, e)
    ensures exists id :: Serves(sha, t, tenantId, e, id)
  {
    var id :| id in t && t[id].status.Active? && MatchesEntry(sha, t[id], tenantId, e);
    assert Serves(sha, t, tenantId, e, id);
  }

  /* A synchronised name can be missing */

  /** Names of one letter repeated. */
  function Unary(n: nat): (r: string)
    ensures |r| == n
  {
    seq(n, i => 'a')
  }

  function UnaryNames(low: nat, high: nat): set<string> {
    set k: nat | low <= k <= high :: Unary(k)
  }

  /** 501 active agents of one tenant, of which the one with the empty name was updated before the rest. */
  function CrowdedTable(sha: Hash): Table {
    map name | name in UnaryNames(0, LIST_LIMIT) ::
      Contract(Agent, name, "t", Active, sha(Content([], "")), Content([], ""), if name == "" then 0 else 1, Some(0))
  }

  lemma CrowdedInvariant(sha: Hash)
    ensures Invariant(sha, CrowdedTable(sha))
  {
    hide UnaryNames;
  }

  lemma {:induction false} UnaryCount(n: nat)
    ensures |UnaryNames(1, n)| == n
  {
    if n > 0 {
      UnaryCount(n - 1);
      assert UnaryNames(1, n) == UnaryNames(1, n - 1) + {Unary(n)};
      assert Unary(n) !in UnaryNames(1, n - 1);
    } else {
      assert UnaryNames(1, n) == {};
    }
  }

  lemma CrowdedNotOlder(sha: Hash)
    ensures var t := CrowdedTable(sha); var among := ActiveIds(t, Agent, Some("t"));
      "" in among && LIST_LIMIT <= |NotOlder(t, among, "")| < |among|
  {
    var t := CrowdedTable(sha);
    var among := ActiveIds(t, Agent, Some("t"));
    assert Unary(0) == "";
    forall name | name in UnaryNames(1, LIST_LIMIT) ensures name in NotOlder(t, among, "") {
      var k: nat :| 1 <= k <= LIST_LIMIT && Unary(k) == name;
    }
    UnaryCount(LIST_LIMIT);
    Cardinality(UnaryNames(1, LIST_LIMIT), NotOlder(t, among, ""));
    Cardinality(NotOlder(t, among, "") + {""}, among);
  }

  /** There synchronising a registry of that one agent changes nothing, and some result of the query
      leaves its name out; nor are all active contracts served. */
  lemma SyncedNameCanBeMissing(sha: Hash, now: Instant)
    ensures var t, e := CrowdedTable(sha), Entry(Agent, "", Content([], ""));
      && Invariant(sha, t)
      && SyncAll(sha, t, "t", [e], true, ["new"], now) == t
      && !AlwaysServed(sha, t, "t", e)
      && |ActiveIds(t, Agent, Some("t"))| > LIST_LIMIT
  {
    hide UnaryNames, Invariant, AlwaysServed, SyncAll;
    var t, e := CrowdedTable(sha), Entry(Agent, "", Content([], ""));
    CrowdedInvariant(sha);
    CrowdedNotOlder(sha);
    assert Serves(sha, t, "t", e, "");
    SyncAllIdle(sha, t, "t", [e], ["new"], now);
    EntryServedExactlyWhen(sha, t, "t", e, "");
  }

  /* The pins of an execution */

  /** The digest of a map from tool names to digests. */
  type MapHash = map<string, string> -> string

  function TenantOf(tenantId: string): Option<string> {
    if Text.Strip(tenantId) == "" then None else Some(Text.Strip(tenantId))
  }

  function AgentIds(t: Table, name: string, tenant: Option<string>): (r: set<string>)
    ensures r <= t.Keys
  {
    set id | id in ActiveIds(t, Agent, tenant) && t[id].name == name && name != ""
  }

  function ToolDigests(t: Table, page: seq<string>): map<string, string>
    requires forall i :: 0 <= i < |page| ==> page[i] in t
  {
    if page == [] then map[]
    else
      var c := t[page[|page| - 1]];
      var m := ToolDigests(t, page[..|page| - 1]);
      if c.digest == "" then m else m[c.name := c.digest]
  }

  /** The tools the agent names, or all of them when it names none. */
  function SelectedTools(tools: seq<string>, digests: map<string, string>): map<string, string> {
    if forall i :: 0 <= i < |tools| ==> tools[i] == "" then digests
    else map n | n in tools && n != "" && n in digests :: digests[n]
  }

  function PinsOf(hash: MapHash, t: Table, agentPage: seq<string>, toolPage: seq<string>): (string, string)
    requires forall i :: 0 <= i < |agentPage| ==> agentPage[i] in t
    requires forall i :: 0 <= i < |toolPage| ==> toolPage[i] in t
  {
    var tools := if agentPage == [] then [] else t[agentPage[0]].content.tools;
    var selected := SelectedTools(tools, ToolDigests(t, toolPage));
    (if agentPage == [] then "" else t[agentPage[0]].digest, if selected == map[] then "" else hash(selected))
  }

  ghost predicate PinPages(t: Table, agent: string, tenantId: string, agentPage: seq<string>, toolPage: seq<string>) {
    && Lists(t, AgentIds(t, Text.Strip(agent), TenantOf(tenantId)), 1, agentPage)
    && Lists(t, ActiveIds(t, Tool, TenantOf(tenantId)), LIST_LIMIT, toolPage)
  }

  predicate Names(c: Contract, n: string, digest: string) {
    c.name == n && c.digest == digest && digest != ""
  }

  predicate Pins(m: map<string, string>, n: string, d: string) {
    n in m && m[n] == d
  }

  ghost predicate PageNames(t: Table, page: seq<string>, n: string, d: string)
    requires forall i :: 0 <= i < |page| ==> page[i] in t
  {
    exists i :: 0 <= i < |page| && Names(t[page[i]], n, d)
  }

  /** With names that do not repeat, a tool is listed with the digest of its row. */
  lemma {:induction false} ToolDigestsMeaning(t: Table, page: seq<string>, n: string, d: string)
    requires forall i :: 0 <= i < |page| ==> page[i] in t
    requires forall i, j :: 0 <= i < j < |page| ==> t[page[i]].name != t[page[j]].name
    ensures Pins(ToolDigests(t, page), n, d) <==> PageNames(t, page, n, d)
  {
    if page != [] {
      var m := |page| - 1;
      var front := page[..m];
      ToolDigestsMeaning(t, front, n, d);
      if PageNames(t, front, n, d) {
        var i :| 0 <= i < m && Names(t[front[i]], n, d);
        assert Names(t[page[i]], n, d) && t[page[i]].name != t[page[m]].name;
      }
      if PageNames(t, page, n, d) {
        var i :| 0 <= i < |page| && Names(t[page[i]], n, d);
        if i < m { assert Names(t[front[i]], n, d); }
      }
      if t[page[m]].name == n && t[page[m]].digest == d && d != "" { assert Names(t[page[m]], n, d); }
      if t[page[m]].name == n { NamesOnce(t, front, n); }
    }
  }

  lemma {:induction false} NamesOnce(t: Table, front: seq<string>, n: string)
    requires forall i :: 0 <= i < |front| ==> front[i] in t && t[front[i]].name != n
    ensures n !in ToolDigests(t, front)
  {
    if front != [] { NamesOnce(t, front[..|front| - 1], n); }
  }

  /** A tool of the tenant is active with this digest. */
  ghost predicate ToolActive(t: Table, tenant: Option<string>, n: string, d: string) {
    exists id :: id in ActiveIds(t, Tool, tenant) && Names(t[id], n, d)
  }

  /** No two of the tools that may be listed share a name, nor do two contracts of the agent. */
  ghost predicate Unambiguous(t: Table, tenant: Option<string>, agent: string) {
    && (forall i, j :: i in ActiveIds(t, Tool, tenant) && j in ActiveIds(t, Tool, tenant) && t[i].name == t[j].name ==>
          i == j)
    && (forall i, j :: i in AgentIds(t, agent, tenant) && j in AgentIds(t, agent, tenant) ==> i == j)
  }

  /** That holds for every single tenant; without a tenant, contracts of several may share a name. */
  lemma TenantsAreUnambiguous(sha: Hash, t: Table, tenantId: string, agent: string)
    requires Invariant(sha, t)
    ensures Unambiguous(t, Some(tenantId), agent)
  {
    hide OneRowPerContent;
    forall i, j | i in ActiveIds(t, Tool, Some(tenantId)) && j in ActiveIds(t, Tool, Some(tenantId)) && t[i].name == t[j].name
      ensures i == j
    {
      assert Rivals(t[i], t[j]);
    }
    forall i, j | i in AgentIds(t, agent, Some(tenantId)) && j in AgentIds(t, agent, Some(tenantId)) ensures i == j {
      assert Rivals(t[i], t[j]);
    }
  }

  /** Every active tool of this name is on every page. */
  predicate ToolAlwaysListed(t: Table, tenant: Option<string>, n: string) {
    forall id :: id in ActiveIds(t, Tool, tenant) && t[id].name == n ==>
      |NotOlder(t, ActiveIds(t, Tool, tenant), id)| < LIST_LIMIT
  }

  lemma ToolDigestsAreTheActiveOnes(t: Table, tenant: Option<string>, agent: string, page: seq<string>, n: string,
                                    d: string)
    requires Unambiguous(t, tenant, agent) && Lists(t, ActiveIds(t, Tool, tenant), LIST_LIMIT, page)
    requires ToolAlwaysListed(t, tenant, n)
    ensures Pins(ToolDigests(t, page), n, d) <==> ToolActive(t, tenant, n, d)
  {
    hide ToolDigests, Names, NotOlder;
    var among := ActiveIds(t, Tool, tenant);
    ToolDigestsMeaning(t, page, n, d);
    if ToolActive(t, tenant, n, d) {
      var id :| id in among && Names(t[id], n, d);
      assert t[id].name == n by { NamesName(t[id], n, d); }
      ListedWhenRecent(t, among, LIST_LIMIT, id, page);
      var i :| 0 <= i < |page| && page[i] == id;
    }
  }

  lemma NamesName(c: Contract, n: string, d: string)
    requires Names(c, n, d)
    ensures c.name == n
  {
  }

  /** Where the agent is unambiguous its page has no choice. */
  lemma AgentPageIsDetermined(t: Table, name: string, tenant: Option<string>, page: seq<string>)
    requires Unambiguous(t, tenant, name) && Lists(t, AgentIds(t, name, tenant), 1, page)
    ensures |page| <= 1 && forall id :: id in AgentIds(t, name, tenant) <==> page == [id]
  {
    var among := AgentIds(t, name, tenant);
    forall id | id in among ensures page == [id] {
      assert among != {};
      assert page[0] in among;
    }
    if page != [] { assert page[0] in among; }
  }

  /** A tool that matters to an execution: one its agent names, or any when it names none. */
  predicate Relevant(tools: seq<string>, n: string) {
    (n in tools && n != "") || forall i :: 0 <= i < |tools| ==> tools[i] == ""
  }

  lemma SelectionIgnoresIrrelevant(tools: seq<string>, a: map<string, string>, b: map<string, string>)
    requires forall n, d :: Relevant(tools, n) ==> (Pins(a, n, d) <==> Pins(b, n, d))
    ensures SelectedTools(tools, a) == SelectedTools(tools, b)
  {
    forall n | Relevant(tools, n) ensures n in a <==> n in b
      ensures n in a ==> a[n] == b[n]
    {
      if n in a { assert Pins(a, n, a[n]); }
      if n in b { assert Pins(b, n, b[n]); }
    }
    if forall i :: 0 <= i < |tools| ==> tools[i] == "" {
      assert forall n :: Relevant(tools, n);
      assert a == b;
    } else {
      assert forall n :: n in tools && n != "" ==> Relevant(tools, n);
    }
  }

  /** The tools an agent's active contract lists. */
  function ToolsOf(t: Table, agentPage: seq<string>): seq<string>
    requires forall i :: 0 <= i < |agentPage| ==> agentPage[i] in t
  {
    if agentPage == [] then [] else t[agentPage[0]].content.tools
  }

  /* What the pins are */

  /** A row is for a tenant, or there is no tenant given, blanks aside. */
  predicate ForTenant(c: Contract, tenantId: string) {
    Text.Strip(tenantId) == "" || c.tenantId == Text.Strip(tenantId)
  }

  /** Row id is the active contract of an agent, who has none without a name. */
  predicate AgentContract(t: Table, id: string, agent: string, tenantId: string) {
    && id in t && t[id].kind.Agent? && t[id].status.Active? && ForTenant(t[id], tenantId)
    && t[id].name == Text.Strip(agent) != ""
  }

  /** Row id is the active contract of tool n. */
  predicate ToolContract(t: Table, id: string, n: string, tenantId: string) {
    id in t && t[id].kind.Tool? && t[id].status.Active? && ForTenant(t[id], tenantId) && t[id].name == n
  }

  /** An execution needs the tools its agent's contract names; without a contract, or where it names none,
      it needs every tool. */
  ghost predicate Needs(t: Table, agent: string, tenantId: string, n: string) {
    forall id :: AgentContract(t, id, agent, tenantId) ==>
      (n != "" && n in t[id].content.tools) || forall x :: x in t[id].content.tools ==> x == ""
  }

  /** Tool n is active with digest d. */
  ghost predicate ToolServed(t: Table, n: string, d: string, tenantId: string) {
    d != "" && exists id :: ToolContract(t, id, n, tenantId) && t[id].digest == d
  }

  /** The map has exactly the needed tools that are active with a digest, each with that digest. */
  ghost predicate NeededDigests(t: Table, agent: string, tenantId: string, m: map<string, string>) {
    forall n, d :: Pins(m, n, d) <==> (Needs(t, agent, tenantId, n) && ToolServed(t, n, d, tenantId))
  }

  /** The agent's pin is the digest of its active contract, and empty without one. The tools' pin is the
      digest of the map of the needed tools, and empty when that has none. */
  ghost predicate PinsMean(hash: MapHash, t: Table, agent: string, tenantId: string, agentDigest: string,
                           toolsDigest: string)
  {
    && (forall id :: AgentContract(t, id, agent, tenantId) ==> agentDigest == t[id].digest)
    && ((forall id :: !AgentContract(t, id, agent, tenantId)) ==> agentDigest == "")
    && exists m :: NeededDigests(t, agent, tenantId, m) && toolsDigest == if m == map[] then "" else hash(m)
  }

  /** No needed tool is crowded out of the query. */
  ghost predicate NeededToolsListed(t: Table, agent: string, tenantId: string) {
    forall n :: Needs(t, agent, tenantId, n) ==> ToolAlwaysListed(t, TenantOf(tenantId), n)
  }

  lemma AgentIdsMeaning(t: Table, id: string, agent: string, tenantId: string)
    ensures id in AgentIds(t, Text.Strip(agent), TenantOf(tenantId)) <==> AgentContract(t, id, agent, tenantId)
  {
    hide Text.Strip;
  }

  lemma ToolActiveMeaning(t: Table, tenantId: string, n: string, d: string)
    ensures ToolActive(t, TenantOf(tenantId), n, d) <==> ToolServed(t, n, d, tenantId)
  {
    hide Text.Strip;
    if ToolActive(t, TenantOf(tenantId), n, d) {
      var id :| id in ActiveIds(t, Tool, TenantOf(tenantId)) && Names(t[id], n, d);
      assert ToolContract(t, id, n, tenantId);
    }
    if id :| ToolContract(t, id, n, tenantId) && t[id].digest == d && d != "" {
      assert id in ActiveIds(t, Tool, TenantOf(tenantId)) && Names(t[id], n, d);
    }
  }

  lemma NamesNone(tools: seq<string>)
    ensures (forall x :: x in tools ==> x == "") <==> forall i :: 0 <= i < |tools| ==> tools[i] == ""
  {
    assert forall i :: 0 <= i < |tools| ==> tools[i] in tools;
  }

  /** The tools of the agent's page decide what is needed. */
  lemma NeedsMeaning(t: Table, agent: string, tenantId: string, agentPage: seq<string>, n: string)
    requires Unambiguous(t, TenantOf(tenantId), Text.Strip(agent))
    requires Lists(t, AgentIds(t, Text.Strip(agent), TenantOf(tenantId)), 1, agentPage)
    ensures Needs(t, agent, tenantId, n) <==> Relevant(ToolsOf(t, agentPage), n)
    ensures forall id :: AgentContract(t, id, agent, tenantId) <==> agentPage == [id]
  {
    hide Unambiguous, Text.Strip, TenantOf, AgentIds, AgentContract;
    AgentPageIsDetermined(t, Text.Strip(agent), TenantOf(tenantId), agentPage);
    forall id ensures AgentContract(t, id, agent, tenantId) <==> agentPage == [id] {
      AgentIdsMeaning(t, id, agent, tenantId);
    }
    if agentPage != [] {
      assert agentPage == [agentPage[0]];
      assert AgentContract(t, agentPage[0], agent, tenantId);
      NamesNone(t[agentPage[0]].content.tools);
    }
  }

  /** What `SelectedTools` keeps of a map. */
  lemma SelectedMeaning(tools: seq<string>, digests: map<string, string>, n: string, d: string)
    ensures Pins(SelectedTools(tools, digests), n, d) <==> Relevant(tools, n) && Pins(digests, n, d)
  {
  }

  lemma PinsDecide(hash: MapHash, t: Table, agent: string, tenantId: string, agentPage: seq<string>,
                   toolPage: seq<string>)
    requires PinPages(t, agent, tenantId, agentPage, toolPage)
    requires Unambiguous(t, TenantOf(tenantId), Text.Strip(agent)) && NeededToolsListed(t, agent, tenantId)
    ensures var (agentDigest, toolsDigest) := PinsOf(hash, t, agentPage, toolPage);
      PinsMean(hash, t, agent, tenantId, agentDigest, toolsDigest)
  {
    hide Unambiguous, ToolAlwaysListed, ToolActive, ToolDigests, ActiveIds, AgentIds, TenantOf, SelectedTools, Relevant,
      Needs, AgentContract, ToolServed, Pins, Text.Strip;
    var tools := ToolsOf(t, agentPage);
    var m := SelectedTools(tools, ToolDigests(t, toolPage));
    NeedsMeaning(t, agent, tenantId, agentPage, "");
    forall n, d ensures Pins(m, n, d) <==> (Needs(t, agent, tenantId, n) && ToolServed(t, n, d, tenantId)) {
      NeedsMeaning(t, agent, tenantId, agentPage, n);
      SelectedMeaning(tools, ToolDigests(t, toolPage), n, d);
      ToolActiveMeaning(t, tenantId, n, d);
      if Needs(t, agent, tenantId, n) {
        ToolDigestsAreTheActiveOnes(t, TenantOf(tenantId), Text.Strip(agent), toolPage, n, d);
      }
    }
    assert NeededDigests(t, agent, tenantId, m);
    if agentPage != [] { assert agentPage == [agentPage[0]]; }
  }

  /** `resolve_execution_capability_digests`, on the pages its two queries return. */
  method ResolveExecutionCapabilityDigests(hash: MapHash, t: Table, agent: string, tenantId: string,
                                           agentPage: seq<string>, toolPage: seq<string>)
    returns (agentDigest: string, toolsDigest: string)
    requires PinPages(t, agent, tenantId, agentPage, toolPage)
    ensures (agentDigest, toolsDigest) == PinsOf(hash, t, agentPage, toolPage)
    ensures Unambiguous(t, TenantOf(tenantId), Text.Strip(agent)) && NeededToolsListed(t, agent, tenantId) ==>
      PinsMean(hash, t, agent, tenantId, agentDigest, toolsDigest)
  {
    hide PinsMean, Unambiguous, NeededToolsListed, AgentIds, ActiveIds;
    if Unambiguous(t, TenantOf(tenantId), Text.Strip(agent)) && NeededToolsListed(t, agent, tenantId) {
      PinsDecide(hash, t, agent, tenantId, agentPage, toolPage);
    }
    hide TenantOf, Text.Strip;
    agentDigest := "";
    var tools: seq<string> := [];
    if agentPage != [] {
      agentDigest := t[agentPage[0]].digest;
      tools := t[agentPage[0]].content.tools;
    }
    var digests: map<string, string> := map[];
    for i := 0 to |toolPage|
      invariant digests == ToolDigests(t, toolPage[..i])
    {
      assert toolPage[..i + 1][..i] == toolPage[..i];
      if t[toolPage[i]].digest != "" { digests := digests[t[toolPage[i]].name := t[toolPage[i]].digest]; }
    }
    assert toolPage[..|toolPage|] == toolPage;
    var selected := SelectedTools(tools, digests);
    toolsDigest := if selected == map[] then "" else hash(selected);
  }

  /** The same contract is active for the agent in both tables, or none in either. */
  ghost predicate SameAgent(t: Table, t': Table, name: string, tenant: Option<string>) {
    && AgentIds(t, name, tenant) == AgentIds(t', name, tenant)
    && forall id :: id in AgentIds(t, name, tenant) ==> SameSubject(t[id], t'[id])
  }

  /** The pins of an agent depend on that agent's active contract and on the active digests of the tools
      it names, and on nothing else: not on how the queries break ties, nor on other tools, agents or
      tenants. It takes that names are unambiguous, as they are for any single tenant, and that the
      tools in question are not crowded out of the query. */
  lemma PinsDependOnNamedTools(hash: MapHash, t: Table, t': Table, agent: string, tenantId: string,
                               agentPage: seq<string>, toolPage: seq<string>,
                               agentPage': seq<string>, toolPage': seq<string>)
    requires Unambiguous(t, TenantOf(tenantId), Text.Strip(agent)) && Unambiguous(t', TenantOf(tenantId), Text.Strip(agent))
    requires PinPages(t, agent, tenantId, agentPage, toolPage) && PinPages(t', agent, tenantId, agentPage', toolPage')
    requires forall n :: Relevant(ToolsOf(t, agentPage), n) ==>
      ToolAlwaysListed(t, TenantOf(tenantId), n) && ToolAlwaysListed(t', TenantOf(tenantId), n)
    requires SameAgent(t, t', Text.Strip(agent), TenantOf(tenantId))
    requires forall n, d :: Relevant(ToolsOf(t, agentPage), n) ==>
      (ToolActive(t, TenantOf(tenantId), n, d) <==> ToolActive(t', TenantOf(tenantId), n, d))
    ensures PinsOf(hash, t, agentPage, toolPage) == PinsOf(hash, t', agentPage', toolPage')
  {
    hide Unambiguous, ToolAlwaysListed, ToolActive, ToolDigests, ActiveIds, AgentIds, TenantOf, SelectedTools, Relevant,
      Text.Strip;
    var name, tenant := Text.Strip(agent), TenantOf(tenantId);
    AgentPageIsDetermined(t, name, tenant, agentPage);
    AgentPageIsDetermined(t', name, tenant, agentPage');
    assert agentPage == agentPage' by {
      if agentPage != [] { assert agentPage[0] in AgentIds(t', name, tenant); assert agentPage == [agentPage[0]]; }
      if agentPage' != [] { assert agentPage'[0] in AgentIds(t, name, tenant); assert agentPage' == [agentPage'[0]]; }
    }
    var tools := ToolsOf(t, agentPage);
    forall n, d | Relevant(tools, n)
      ensures Pins(ToolDigests(t, toolPage), n, d) <==> Pins(ToolDigests(t', toolPage'), n, d)
    {
      ToolDigestsAreTheActiveOnes(t, tenant, name, toolPage, n, d);
      ToolDigestsAreTheActiveOnes(t', tenant, name, toolPage', n, d);
    }
    SelectionIgnoresIrrelevant(tools, ToolDigests(t, toolPage), ToolDigests(t', toolPage'));
  }
}
