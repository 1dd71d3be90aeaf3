/**
 The catalogue sync (admin-api/src/services/sync.ts, steps 3-6): remove duplicate system
 rows, then update or insert one row per discovered model.  A row is matched by either of
 two columns, so the statements hang on how an upsert moves the set of matches.
 */
module Catalog {
  import opened Wrappers

  datatype Details = Details(
    description: Option<string>, contextWindow: int, maxOutput: int, inputFen: int, outputFen: int,
    capabilities: Option<string>)

  datatype Spec = Spec(
    id: string, providerId: string, seriesId: Option<string>, name: string,
    modelId: string, openRouterId: Option<string>, providerModelId: Option<string>,
    details: Details, system: bool, workspace: Option<string>, createdAt: nat, updatedAt: nat)

  /** A discovered model; its id starts with a provider prefix, so it is never empty. */
  datatype Model = Model(
    id: string, name: string, providerSlug: string, series: Option<string>,
    promptPrice: real, completionPrice: real,
    description: Option<string>, contextLength: int, maxOutput: int, capabilities: Option<string>)

  /** What a run reads besides the table: provider and series ids by slug, exchange rate, clock. */
  datatype Env = Env(providers: map<string, string>, series: map<string, string>, rate: real, now: nat)

  // ── Derived columns ──

  /** The part of an id after its last '/', or all of it. */
  function NativeId(id: string): (r: string)
    ensures '/' !in r && |r| <= |id| && id[|id| - |r|..] == r
    ensures |r| < |id| ==> id[|id| - |r| - 1] == '/'
  {
    if id == "" then ""
    else if id[|id| - 1] == '/' then ""
    else
      var r := NativeId(id[..|id| - 1]);
      assert id[|id| - |r| - 1..] == r + [id[|id| - 1]];
      r + [id[|id| - 1]]
  }

  function Fen(price: real, rate: real): int {
    (price * 1000000.0 * 100.0 * rate + 0.5).Floor
  }

  function DetailsOf(m: Model, rate: real): Details {
    Details(if Truthy(m.description) then m.description else None, m.contextLength, m.maxOutput,
            Fen(m.promptPrice, rate), Fen(m.completionPrice, rate), m.capabilities)
  }

  // ── Matching ──

  predicate System(r: Spec) {
    r.workspace.None? && r.system
  }

  predicate Matches(r: Spec, id: string) {
    System(r) && (r.modelId == id || r.openRouterId == Some(id))
  }

  predicate Blank(s: Option<string>) {
    s == None || s == Some("")
  }

  /** The index of the first row matched by an id: `existing[0]` of the SELECT. */
  function First(rows: seq<Spec>, id: string): (r: Option<nat>)
    ensures r.Some? ==> r.value < |rows| && Matches(rows[r.value], id)
                        && forall j | 0 <= j < r.value :: !Matches(rows[j], id)
    ensures r.None? ==> forall j | 0 <= j < |rows| :: !Matches(rows[j], id)
  {
    if rows == [] then None
    else if Matches(rows[0], id) then Some(0)
    else
      var r := First(rows[1..], id);
      if r.Some? then Some(r.value + 1) else None
  }

  function Count(rows: seq<Spec>, id: string): nat {
    if rows == [] then 0 else (if Matches(rows[0], id) then 1 else 0) + Count(rows[1..], id)
  }

  // ── The steps ──

  /** The duplicate cleanup: a system row goes if a system row of the same model is older. */
  predicate Outdated(rows: seq<Spec>, r: Spec) {
    System(r) && exists o | o in rows :: System(o) && o.modelId == r.modelId && r.createdAt > o.createdAt
  }

  function Keep(rows: seq<Spec>, all: seq<Spec>): seq<Spec> {
    if rows == [] then []
    else if Outdated(all, rows[0]) then Keep(rows[1..], all)
    else [rows[0]] + Keep(rows[1..], all)
  }

  function Cleanup(rows: seq<Spec>): seq<Spec> {
    Keep(rows, rows)
  }

  function Refreshed(r: Spec, m: Model, env: Env): Spec {
    r.(openRouterId := if Blank(r.openRouterId) then Some(m.id) else r.openRouterId,
    providerModelId := Some(NativeId(m.id)), details := DetailsOf(m, env.rate), updatedAt := env.now)
  }

  function NewRow(m: Model, env: Env, id: string): Spec
    requires m.providerSlug in env.providers
  {
    Spec(id, env.providers[m.providerSlug],
         if Truthy(m.series) && m.series.value in env.series then Some(env.series[m.series.value]) else None,
         m.name, m.id, Some(m.id), Some(NativeId(m.id)), DetailsOf(m, env.rate), true, None, env.now, env.now)
  }

  function Upsert(rows: seq<Spec>, m: Model, env: Env, id: string): seq<Spec> {
    if m.providerSlug !in env.providers then rows
    else
      var at := First(rows, m.id);
      if at.Some? then rows[at.value := Refreshed(rows[at.value], m, env)] else rows + [NewRow(m, env, id)]
  }

  function UpsertAll(rows: seq<Spec>, models: seq<Model>, env: Env, ids: seq<string>): seq<Spec>
    requires |ids| == |models|
    decreases |models|
  {
    if models == [] then rows else UpsertAll(Upsert(rows, models[0], env, ids[0]), models[1..], env, ids[1..])
  }

  function SyncRows(rows: seq<Spec>, models: seq<Model>, env: Env, ids: seq<string>): seq<Spec>
    requires |ids| == |models|
  {
    UpsertAll(Cleanup(rows), models, env, ids)
  }

  function Resolvable(models: seq<Model>, env: Env): nat {
    if models == [] then 0
    else (if models[0].providerSlug in env.providers then 1 else 0) + Resolvable(models[1..], env)
  }

  datatype Outcome = Outcome(synced: nat, errors: seq<string>)

  /** The sync module's state around the `model_specs` table. */
  class SyncService {
    var specs: seq<Spec>
    var syncRunning: bool
    var lastSyncTime: Option<nat>
    var lastSyncCount: nat

    constructor (rows: seq<Spec>)
      ensures specs == rows && !syncRunning && lastSyncTime == None
    {
      specs, syncRunning, lastSyncTime, lastSyncCount := rows, false, None, 0;
    }

    /** The self-join delete: a row stays unless it is a system row and another of its model is older. */
    method CleanUpDuplicates()
      modifies this`specs
      ensures specs == Cleanup(old(specs))
      ensures forall r :: r in specs <==> r in old(specs) && (!System(r) || Earliest(old(specs), r))
    {
      var kept: seq<Spec> := [];
      for i := 0 to |specs|
        invariant kept + Keep(specs[i..], specs) == Cleanup(specs)
      {
        assert specs[i..][1..] == specs[i + 1..];
        if !Outdated(specs, specs[i]) { kept := kept + [specs[i]]; }
      }
      forall r ensures r in Cleanup(specs) <==> r in specs && (!System(r) || Earliest(specs, r)) {
        CleanupKeepsTheEarliest(specs, r);
      }
      specs := kept;
    }

    method UpsertModel(m: Model, env: Env, id: string)
      requires m.providerSlug in env.providers
      modifies this`specs
      ensures specs == Upsert(old(specs), m, env, id)
    {
      var existing := First(specs, m.id);
      if existing.Some? {
        specs := specs[existing.value := Refreshed(specs[existing.value], m, env)];
      } else {
        specs := specs + [NewRow(m, env, id)];
      }
    }

    method RunSync(discovered: seq<Model>, env: Env, ids: seq<string>) returns (result: Outcome)
      requires |ids| == |discovered|
      modifies this
      ensures old(syncRunning) ==>
                result == Outcome(0, ["Sync already in progress"]) && specs == old(specs) && syncRunning
                && lastSyncTime == old(lastSyncTime) && lastSyncCount == old(lastSyncCount)
      ensures !old(syncRunning) && discovered == [] ==>
                result == Outcome(0, ["No models discovered"]) && specs == old(specs) && !syncRunning
                && lastSyncTime == old(lastSyncTime) && lastSyncCount == old(lastSyncCount)
      ensures !old(syncRunning) && discovered != [] ==>
                result == Outcome(Resolvable(discovered, env), [])
                && specs == SyncRows(old(specs), discovered, env, ids)
                && !syncRunning && lastSyncTime == Some(env.now) && lastSyncCount == Resolvable(discovered, env)
    {
      if syncRunning { return Outcome(0, ["Sync already in progress"]); }
      syncRunning := true;
      var synced := 0;
      if |discovered| == 0 {
        syncRunning := false;
        return Outcome(0, ["No models discovered"]);
      }
      CleanUpDuplicates();
      for i := 0 to |discovered|
        invariant UpsertAll(specs, discovered[i..], env, ids[i..]) == SyncRows(old(specs), discovered, env, ids)
        invariant synced + Resolvable(discovered[i..], env) == Resolvable(discovered, env)
        invariant syncRunning
      {
        var m := discovered[i];
        assert discovered[i..][1..] == discovered[i + 1..] && ids[i..][1..] == ids[i + 1..];
        if m.providerSlug !in env.providers { continue; }
        UpsertModel(m, env, ids[i]);
        synced := synced + 1;
      }
      lastSyncTime, lastSyncCount := Some(env.now), synced;
      syncRunning := false;
      return Outcome(synced, []);
    }
  }

  // ── How an upsert moves the matches ──

  /** Refreshing a row changes what it matches for no id. */
  lemma RefreshKeepsMatches(r: Spec, m: Model, env: Env, id: string)
    requires m.id != "" && id != "" && Matches(r, m.id)
    ensures Matches(Refreshed(r, m, env), id) <==> Matches(r, id)
  {
  }

  lemma {:induction false} FirstIs(rows: seq<Spec>, id: string, j: nat)
    requires j < |rows| && Matches(rows[j], id) && forall i | 0 <= i < j :: !Matches(rows[i], id)
    ensures First(rows, id) == Some(j)
  {
    var f := First(rows, id);
    assert f.Some?;
  }

  lemma UpsertKeepsFirst(rows: seq<Spec>, m: Model, env: Env, newId: string, id: string)
    requires m.id != "" && id != "" && First(rows, id).Some?
    ensures First(Upsert(rows, m, env, newId), id) == First(rows, id)
  {
    var rows' := Upsert(rows, m, env, newId);
    var at := First(rows, m.id);
    if m.providerSlug in env.providers && at.Some? {
      RefreshKeepsMatches(rows[at.value], m, env, id);
    }
    FirstIs(rows', id, First(rows, id).value);
  }

  lemma UpsertFinds(rows: seq<Spec>, m: Model, env: Env, newId: string)
    requires m.id != "" && m.providerSlug in env.providers
    ensures var rows' := Upsert(rows, m, env, newId);
            First(rows', m.id) == if First(rows, m.id).Some? then First(rows, m.id) else Some(|rows|)
  {
    if First(rows, m.id).Some? {
      UpsertKeepsFirst(rows, m, env, newId, m.id);
    } else {
      FirstIs(rows + [NewRow(m, env, newId)], m.id, |rows|);
    }
  }

  ghost predicate Named(models: seq<Model>) {
    forall m | m in models :: m.id != ""
  }

  lemma {:induction false} UpsertAllKeepsFirst(rows: seq<Spec>, models: seq<Model>, env: Env, ids: seq<string>,
                                               id: string)
    requires |ids| == |models| && Named(models) && id != "" && First(rows, id).Some?
    ensures First(UpsertAll(rows, models, env, ids), id) == First(rows, id)
    decreases |models|
  {
    if models != [] {
      UpsertKeepsFirst(rows, models[0], env, ids[0], id);
      UpsertAllKeepsFirst(Upsert(rows, models[0], env, ids[0]), models[1..], env, ids[1..], id);
    }
  }

  // ── What an upsert may touch ──

  /** Two versions of a row differ at most in what a refresh writes. */
  predicate SameButRefreshed(a: Spec, b: Spec) {
    b == a.(openRouterId := b.openRouterId, providerModelId := b.providerModelId, details := b.details,
    updatedAt := b.updatedAt)
    && (Blank(a.openRouterId) || b.openRouterId == a.openRouterId)
  }

  predicate Written(r: Spec, m: Model, env: Env) {
    r.providerModelId == Some(NativeId(m.id)) && r.details == DetailsOf(m, env.rate) && !Blank(r.openRouterId)
    && r.updatedAt == env.now
  }

  lemma {:induction false} UpsertAllFrame(rows: seq<Spec>, models: seq<Model>, env: Env, ids: seq<string>)
    requires |ids| == |models|
    ensures |rows| <= |UpsertAll(rows, models, env, ids)|
    ensures forall j | 0 <= j < |rows| :: SameButRefreshed(rows[j], UpsertAll(rows, models, env, ids)[j])
    decreases |models|
  {
    if models != [] {
      UpsertAllFrame(Upsert(rows, models[0], env, ids[0]), models[1..], env, ids[1..]);
    }
  }

  /** The last model of the list that writes row j of the given table. */
  function LastWriter(models: seq<Model>, env: Env, rows: seq<Spec>, j: nat): Option<Model> {
    if models == [] then None
    else
      var later := LastWriter(models[1..], env, rows, j);
      if later.Some? then later
      else if models[0].providerSlug in env.providers && First(rows, models[0].id) == Some(j) then Some(models[0])
      else None
  }

  lemma {:induction false} Untouched(rows: seq<Spec>, models: seq<Model>, env: Env, ids: seq<string>, j: nat)
    requires |ids| == |models| && Named(models) && j < |rows|
    requires LastWriter(models, env, UpsertAll(rows, models, env, ids), j) == None
    ensures j < |UpsertAll(rows, models, env, ids)| && UpsertAll(rows, models, env, ids)[j] == rows[j]
    decreases |models|
  {
    if models != [] {
      var m := models[0];
      var rows' := Upsert(rows, m, env, ids[0]);
      if m.providerSlug in env.providers {
        UpsertFinds(rows, m, env, ids[0]);
        UpsertAllKeepsFirst(rows', models[1..], env, ids[1..], m.id);
      }
      Untouched(rows', models[1..], env, ids[1..], j);
    }
  }

  lemma {:induction false} LastWriterWins(rows: seq<Spec>, models: seq<Model>, env: Env, ids: seq<string>, j: nat)
    requires |ids| == |models| && Named(models)
    requires LastWriter(models, env, UpsertAll(rows, models, env, ids), j).Some?
    ensures j < |UpsertAll(rows, models, env, ids)|
    ensures Written(UpsertAll(rows, models, env, ids)[j],
                    LastWriter(models, env, UpsertAll(rows, models, env, ids), j).value, env)
    decreases |models|
  {
    var m := models[0];
    var rows' := Upsert(rows, m, env, ids[0]);
    var final := UpsertAll(rows, models, env, ids);
    if LastWriter(models[1..], env, final, j).Some? {
      LastWriterWins(rows', models[1..], env, ids[1..], j);
    } else {
      UpsertFinds(rows, m, env, ids[0]);
      UpsertAllKeepsFirst(rows', models[1..], env, ids[1..], m.id);
      Untouched(rows', models[1..], env, ids[1..], j);
    }
  }

  /** After a run every resolvable model of the list has a row. */
  lemma {:induction false} AllFound(rows: seq<Spec>, models: seq<Model>, env: Env, ids: seq<string>, m: Model)
    requires |ids| == |models| && Named(models) && m in models && m.providerSlug in env.providers
    ensures First(UpsertAll(rows, models, env, ids), m.id).Some?
    decreases |models|
  {
    var rows' := Upsert(rows, models[0], env, ids[0]);
    if models[0] == m {
      UpsertFinds(rows, m, env, ids[0]);
      UpsertAllKeepsFirst(rows', models[1..], env, ids[1..], m.id);
    } else {
      AllFound(rows', models[1..], env, ids[1..], m);
    }
  }

  lemma {:induction false} NothingInserted(rows: seq<Spec>, models: seq<Model>, env: Env, ids: seq<string>)
    requires |ids| == |models| && Named(models)
    requires forall m | m in models && m.providerSlug in env.providers :: First(rows, m.id).Some?
    ensures |UpsertAll(rows, models, env, ids)| == |rows|
    decreases |models|
  {
    if models != [] {
      var rows' := Upsert(rows, models[0], env, ids[0]);
      assert models[0] in models;
      forall m | m in models[1..] && m.providerSlug in env.providers ensures First(rows', m.id).Some? {
        assert m in models;
        UpsertKeepsFirst(rows, models[0], env, ids[0], m.id);
      }
      NothingInserted(rows', models[1..], env, ids[1..]);
    }
  }

  // ── The duplicate cleanup ──

  predicate Twins(a: Spec, b: Spec) {
    System(a) && System(b) && a.modelId == b.modelId
  }

  /** System rows of one model all have the same creation time: nothing for the cleanup to delete. */
  ghost predicate Clean(rows: seq<Spec>) {
    forall i, j | 0 <= i < |rows| && 0 <= j < |rows| ::
      Twins(rows[i], rows[j]) ==> rows[i].createdAt == rows[j].createdAt
  }

  lemma {:induction false} KeptExactly(rows: seq<Spec>, all: seq<Spec>, r: Spec)
    ensures r in Keep(rows, all) <==> r in rows && !Outdated(all, r)
  {
    if rows != [] { KeptExactly(rows[1..], all, r); }
  }

  lemma {:induction false} KeepAll(rows: seq<Spec>, all: seq<Spec>)
    requires forall r | r in rows :: !Outdated(all, r)
    ensures Keep(rows, all) == rows
  {
    if rows != [] { KeepAll(rows[1..], all); }
  }

  lemma CleanupOfClean(rows: seq<Spec>)
    requires Clean(rows)
    ensures Cleanup(rows) == rows
  {
    KeepAll(rows, rows);
  }

  lemma {:induction false} SurvivorBelow(rows: seq<Spec>, r: Spec)
    requires r in rows && System(r)
    ensures exists o :: o in Cleanup(rows) && System(o) && o.modelId == r.modelId && o.createdAt <= r.createdAt
    decreases r.createdAt
  {
    if Outdated(rows, r) {
      var o :| o in rows && System(o) && o.modelId == r.modelId && r.createdAt > o.createdAt;
      SurvivorBelow(rows, o);
    } else {
      KeptExactly(rows, rows, r);
    }
  }

  predicate Earliest(rows: seq<Spec>, r: Spec) {
    forall o | o in rows && Twins(o, r) :: r.createdAt <= o.createdAt
  }

  /** A row survives the cleanup iff it is not a system row, or is an earliest one of its model. */
  lemma CleanupKeepsTheEarliest(rows: seq<Spec>, r: Spec)
    ensures r in Cleanup(rows) <==> r in rows && (!System(r) || Earliest(rows, r))
  {
    KeptExactly(rows, rows, r);
  }

  /** Every model keeps a row, and more than one only when several share the earliest creation time. */
  lemma CleanupLeavesTies(rows: seq<Spec>)
    ensures Clean(Cleanup(rows))
    ensures forall r | r in rows && System(r) :: exists o :: o in Cleanup(rows) && Twins(o, r)
  {
    var kept := Cleanup(rows);
    forall i, j | 0 <= i < |kept| && 0 <= j < |kept| && Twins(kept[i], kept[j])
      ensures kept[i].createdAt == kept[j].createdAt {
      CleanupKeepsTheEarliest(rows, kept[i]);
      CleanupKeepsTheEarliest(rows, kept[j]);
    }
    forall r | r in rows && System(r) ensures exists o :: o in kept && Twins(o, r) {
      SurvivorBelow(rows, r);
    }
  }

  lemma CleanAppend(rows: seq<Spec>, r: Spec)
    requires Clean(rows) && forall i | 0 <= i < |rows| :: !Twins(rows[i], r)
    ensures Clean(rows + [r])
  {
  }

  lemma RefreshClean(rows: seq<Spec>, j: nat, m: Model, env: Env)
    requires Clean(rows) && j < |rows|
    ensures Clean(rows[j := Refreshed(rows[j], m, env)])
  {
  }

  lemma UpsertClean(rows: seq<Spec>, m: Model, env: Env, id: string)
    requires Clean(rows)
    ensures Clean(Upsert(rows, m, env, id))
  {
    if m.providerSlug in env.providers {
      if First(rows, m.id).Some? {
        RefreshClean(rows, First(rows, m.id).value, m, env);
      } else {
        CleanAppend(rows, NewRow(m, env, id));
      }
    }
  }

  lemma {:induction false} UpsertAllClean(rows: seq<Spec>, models: seq<Model>, env: Env, ids: seq<string>)
    requires |ids| == |models| && Clean(rows)
    ensures Clean(UpsertAll(rows, models, env, ids))
    decreases |models|
  {
    if models != [] {
      UpsertClean(rows, models[0], env, ids[0]);
      UpsertAllClean(Upsert(rows, models[0], env, ids[0]), models[1..], env, ids[1..]);
    }
  }

  // ── Idempotence ──

  predicate SameUpToTime(a: Spec, b: Spec) {
    b == a.(updatedAt := b.updatedAt)
  }

  lemma SecondPassRow(rows: seq<Spec>, models: seq<Model>, env: Env, ids: seq<string>, env': Env, ids': seq<string>,
                      j: nat)
    requires |ids| == |models| == |ids'| && Named(models)
    requires env' == env.(now := env'.now)
    requires var once := UpsertAll(rows, models, env, ids);
             var twice := UpsertAll(once, models, env', ids');
             |twice| == |once| && j < |once|
             && forall m | m in models && m.providerSlug in env.providers :: First(once, m.id).Some?
    ensures SameUpToTime(UpsertAll(rows, models, env, ids)[j],
                         UpsertAll(UpsertAll(rows, models, env, ids), models, env', ids')[j])
  {
    var once := UpsertAll(rows, models, env, ids);
    var twice := UpsertAll(once, models, env', ids');
    UpsertAllFrame(once, models, env', ids');
    SameWriter(models, env, env', once, twice, models, ids', j);
    if LastWriter(models, env, once, j).Some? {
      LastWriterWins(rows, models, env, ids, j);
      LastWriterWins(once, models, env', ids', j);
    } else {
      Untouched(once, models, env', ids', j);
    }
  }

  lemma {:induction false} SameWriter(part: seq<Model>, env: Env, env': Env, once: seq<Spec>, twice: seq<Spec>,
                                      models: seq<Model>, ids': seq<string>, j: nat)
    requires |ids'| == |models| && Named(models) && env' == env.(now := env'.now)
    requires twice == UpsertAll(once, models, env', ids')
    requires forall m | m in part :: m in models
    requires forall m | m in models && m.providerSlug in env.providers :: First(once, m.id).Some?
    ensures LastWriter(part, env, once, j) == LastWriter(part, env', twice, j)
  {
    if part != [] {
      SameWriter(part[1..], env, env', once, twice, models, ids', j);
      assert part[0] in part;
      if part[0].providerSlug in env.providers {
        UpsertAllKeepsFirst(once, models, env', ids', part[0].id);
      }
    }
  }

  /**
   On an unchanged list a second run deletes nothing, inserts nothing, and leaves every
   row as it was but for its update time.
   */
  lemma SyncIsIdempotent(rows: seq<Spec>, models: seq<Model>, env: Env, ids: seq<string>, env': Env, ids': seq<string>)
    requires |ids| == |models| == |ids'| && Named(models)
    requires env' == env.(now := env'.now)
    ensures var once := SyncRows(rows, models, env, ids);
            var twice := SyncRows(once, models, env', ids');
            Cleanup(once) == once && |twice| == |once|
            && forall j | 0 <= j < |once| :: SameUpToTime(once[j], twice[j])
  {
    var once := SyncRows(rows, models, env, ids);
    CleanupLeavesTies(rows);
    UpsertAllClean(Cleanup(rows), models, env, ids);
    CleanupOfClean(once);
    forall m | m in models && m.providerSlug in env.providers ensures First(once, m.id).Some? {
      AllFound(Cleanup(rows), models, env, ids, m);
    }
    NothingInserted(once, models, env', ids');
    forall j | 0 <= j < |once| ensures SameUpToTime(once[j], SyncRows(once, models, env', ids')[j]) {
      SecondPassRow(Cleanup(rows), models, env, ids, env', ids', j);
    }
  }

  // ── Uniqueness of matches ──

  lemma {:induction false} CountAppend(rows: seq<Spec>, r: Spec, id: string)
    ensures Count(rows + [r], id) == Count(rows, id) + if Matches(r, id) then 1 else 0
  {
    if rows != [] {
      assert (rows + [r])[1..] == rows[1..] + [r];
      CountAppend(rows[1..], r, id);
    }
  }

  lemma {:induction false} CountReplace(rows: seq<Spec>, j: nat, r: Spec, id: string)
    requires j < |rows| && (Matches(r, id) <==> Matches(rows[j], id))
    ensures Count(rows[j := r], id) == Count(rows, id)
  {
    if j > 0 {
      assert rows[j := r][1..] == rows[1..][j - 1 := r];
      CountReplace(rows[1..], j - 1, r, id);
    }
  }

  lemma {:induction false} CountPositive(rows: seq<Spec>, id: string)
    ensures Count(rows, id) > 0 <==> First(rows, id).Some?
  {
    if rows != [] { CountPositive(rows[1..], id); }
  }

  lemma UpsertCount(rows: seq<Spec>, m: Model, env: Env, newId: string, id: string)
    requires m.id != "" && id != ""
    ensures Count(Upsert(rows, m, env, newId), id)
         == if m.providerSlug in env.providers && m.id == id && Count(rows, id) == 0 then 1 else Count(rows, id)
  {
    CountPositive(rows, m.id);
    var at := First(rows, m.id);
    if m.providerSlug in env.providers {
      if at.Some? {
        RefreshKeepsMatches(rows[at.value], m, env, id);
        CountReplace(rows, at.value, Refreshed(rows[at.value], m, env), id);
      } else {
        CountAppend(rows, NewRow(m, env, newId), id);
      }
    }
  }

  predicate Listed(models: seq<Model>, env: Env, id: string) {
    exists m | m in models :: m.id == id && m.providerSlug in env.providers
  }

  lemma {:induction false} UpsertAllCount(rows: seq<Spec>, models: seq<Model>, env: Env, ids: seq<string>, id: string)
    requires |ids| == |models| && Named(models) && id != ""
    ensures Count(UpsertAll(rows, models, env, ids), id)
         == if Listed(models, env, id) && Count(rows, id) == 0 then 1 else Count(rows, id)
    decreases |models|
  {
    if models != [] {
      UpsertCount(rows, models[0], env, ids[0], id);
      UpsertAllCount(Upsert(rows, models[0], env, ids[0]), models[1..], env, ids[1..], id);
      assert Listed(models, env, id) <==>
             (models[0].id == id && models[0].providerSlug in env.providers) || Listed(models[1..], env, id) by {
        assert models == [models[0]] + models[1..];
      }
    }
  }

  lemma {:induction false} KeepCount(rows: seq<Spec>, all: seq<Spec>, id: string)
    ensures Count(Keep(rows, all), id) <= Count(rows, id)
  {
    if rows != [] {
      KeepCount(rows[1..], all, id);
      assert ([rows[0]] + Keep(rows[1..], all))[1..] == Keep(rows[1..], all);
    }
  }

  /**
   If a discovered id matched at most one system row before, it matches exactly one after,
   even when the list names it several times.
   */
  lemma EachModelMatchesOnce(rows: seq<Spec>, models: seq<Model>, env: Env, ids: seq<string>, id: string)
    requires |ids| == |models| && Named(models) && Listed(models, env, id)
    requires Count(rows, id) <= 1
    ensures Count(SyncRows(rows, models, env, ids), id) == 1
  {
    KeepCount(rows, rows, id);
    UpsertAllCount(Cleanup(rows), models, env, ids, id);
  }
}
