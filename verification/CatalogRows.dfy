/**
 What a catalogue sync leaves in the table (admin-api/src/services/sync.ts:96-173), column by column.
 */
module CatalogRows {
  import opened Wrappers
  import opened Catalog

  // ── Which rows ──

  /** A system row of the model, by its own id or by the upstream one. */
  predicate IsFor(r: Spec, id: string) {
    r.workspace == None && r.system == true && (r.modelId == id || r.openRouterId == Some(id))
  }

  /** The row the SELECT returns first. */
  ghost predicate IsFirst(rows: seq<Spec>, j: int, id: string) {
    0 <= j < |rows| && IsFor(rows[j], id) && forall i | 0 <= i < j :: !IsFor(rows[i], id)
  }

  lemma FirstIff(rows: seq<Spec>, id: string)
    ensures First(rows, id).None? <==> forall i | 0 <= i < |rows| :: !IsFor(rows[i], id)
    ensures forall j :: First(rows, id) == Some(j) <==> j >= 0 && IsFirst(rows, j, id)
  {
    forall r ensures Matches(r, id) <==> IsFor(r, id) {}
    forall j | j >= 0 && IsFirst(rows, j, id) ensures First(rows, id) == Some(j) { FirstIs(rows, id, j); }
  }

  /** A row is deleted exactly if it is a system row and an older system row has the same model id. */
  lemma CleanupIff(rows: seq<Spec>, r: Spec)
    ensures r in Cleanup(rows) <==>
            r in rows && !(r.workspace == None && r.system == true
                           && exists o | o in rows :: o.workspace == None && o.system == true
                                                      && o.modelId == r.modelId && o.createdAt < r.createdAt)
  {
    KeptExactly(rows, rows, r);
    if o :| o in rows && o.workspace == None && o.system == true && o.modelId == r.modelId
            && o.createdAt < r.createdAt {
      assert System(o) && r.createdAt > o.createdAt;
    }
  }

  lemma {:induction false} CountIsSize(rows: seq<Spec>, id: string)
    ensures Count(rows, id) == |set i | 0 <= i < |rows| && IsFor(rows[i], id)|
  {
    var all := set i | 0 <= i < |rows| && IsFor(rows[i], id);
    if rows == [] {
      assert all == {};
    } else {
      var n := |rows| - 1;
      var rest := rows[..n];
      var before := set i | 0 <= i < n && IsFor(rest[i], id);
      CountIsSize(rest, id);
      assert rows == rest + [rows[n]];
      CountAppend(rest, rows[n], id);
      assert forall i | 0 <= i < n :: rest[i] == rows[i];
      if IsFor(rows[n], id) { assert all == before + {n}; } else { assert all == before; }
    }
  }

  lemma {:induction false} ResolvableAppend(models: seq<Model>, m: Model, env: Env)
    ensures Resolvable(models + [m], env) == Resolvable(models, env) + if m.providerSlug in env.providers then 1 else 0
  {
    if models != [] {
      assert (models + [m])[1..] == models[1..] + [m];
      ResolvableAppend(models[1..], m, env);
    }
  }

  /** The number of models a run reports: those with a known provider. */
  lemma {:induction false} ResolvableIsSize(models: seq<Model>, env: Env)
    ensures Resolvable(models, env) == |set k | 0 <= k < |models| && models[k].providerSlug in env.providers|
  {
    var all := set k | 0 <= k < |models| && models[k].providerSlug in env.providers;
    if models == [] {
      assert all == {};
    } else {
      var n := |models| - 1;
      var rest := models[..n];
      var before := set k | 0 <= k < n && rest[k].providerSlug in env.providers;
      ResolvableIsSize(rest, env);
      assert models == rest + [models[n]];
      ResolvableAppend(rest, models[n], env);
      assert forall k | 0 <= k < n :: rest[k] == models[k];
      if models[n].providerSlug in env.providers { assert all == before + {n}; } else { assert all == before; }
    }
  }

  // ── Which columns ──

  /** Prices are fen per million tokens, rounded; input is the prompt's, output the completion's. */
  predicate DetailsOfModel(d: Details, m: Model, rate: real) {
    && d.contextWindow == m.contextLength && d.maxOutput == m.maxOutput && d.capabilities == m.capabilities
    && d.description == (if m.description == Some("") then None else m.description)
    && d.inputFen as real - 0.5 <= m.promptPrice * 100000000.0 * rate < d.inputFen as real + 0.5
    && d.outputFen as real - 0.5 <= m.completionPrice * 100000000.0 * rate < d.outputFen as real + 0.5
  }

  /** The provider's own model id: what follows the last slash. */
  predicate IsNative(native: Option<string>, id: string) {
    native.Some? && '/' !in native.value && |native.value| <= |id|
    && id[|id| - |native.value|..] == native.value
    && (|native.value| < |id| ==> id[|id| - |native.value| - 1] == '/')
  }

  lemma DetailsAre(m: Model, rate: real)
    ensures DetailsOfModel(DetailsOf(m, rate), m, rate)
  {
    FenIs(m.promptPrice, rate);
    FenIs(m.completionPrice, rate);
  }

  lemma FenIs(price: real, rate: real)
    ensures Fen(price, rate) as real - 0.5 <= price * 100000000.0 * rate < Fen(price, rate) as real + 0.5
  {
    assert price * 1000000.0 * 100.0 == price * 100000000.0;
  }

  /** A matched row keeps its identity and takes the model's details. */
  predicate IsRefreshed(after: Spec, before: Spec, m: Model, env: Env) {
    && after.id == before.id && after.providerId == before.providerId && after.seriesId == before.seriesId
    && after.name == before.name && after.modelId == before.modelId && after.system == before.system
    && after.workspace == before.workspace && after.createdAt == before.createdAt && after.updatedAt == env.now
    && after.openRouterId == (if before.openRouterId == None || before.openRouterId == Some("") then Some(m.id)
                              else before.openRouterId)
    && IsNative(after.providerModelId, m.id) && DetailsOfModel(after.details, m, env.rate)
  }

  /** A new row is a system row of the model, created now. */
  predicate IsInserted(r: Spec, m: Model, env: Env, id: string)
    requires m.providerSlug in env.providers
  {
    && r.id == id && r.providerId == env.providers[m.providerSlug] && r.name == m.name && r.modelId == m.id
    && r.seriesId == (if m.series.Some? && m.series != Some("") && m.series.value in env.series
                      then Some(env.series[m.series.value]) else None)
    && r.openRouterId == Some(m.id) && r.system == true && r.workspace == None
    && r.createdAt == env.now && r.updatedAt == env.now
    && IsNative(r.providerModelId, m.id) && DetailsOfModel(r.details, m, env.rate)
  }

  /**
   An upsert leaves the table alone if the model's provider is unknown; otherwise it refreshes the first
   system row of the model, and no other, or inserts one if there is none.
   */
  lemma UpsertWrites(rows: seq<Spec>, m: Model, env: Env, id: string)
    ensures var after := Upsert(rows, m, env, id);
            && (m.providerSlug !in env.providers ==> after == rows)
            && (m.providerSlug in env.providers ==>
                  && (forall j | IsFirst(rows, j, m.id) ::
                        |after| == |rows| && IsRefreshed(after[j], rows[j], m, env)
                        && forall i | 0 <= i < |rows| && i != j :: after[i] == rows[i])
                  && ((forall i | 0 <= i < |rows| :: !IsFor(rows[i], m.id)) ==>
                        && |after| == |rows| + 1 && after[..|rows|] == rows
                        && IsInserted(after[|rows|], m, env, id)))
  {
    FirstIff(rows, m.id);
    if m.providerSlug in env.providers {
      InsertedIs(m, env, id);
      var f := First(rows, m.id);
      if f.Some? { RefreshedIs(rows[f.value], m, env); }
    }
  }

  lemma RefreshedIs(r: Spec, m: Model, env: Env)
    ensures IsRefreshed(Refreshed(r, m, env), r, m, env)
  {
    DetailsAre(m, env.rate);
  }

  lemma InsertedIs(m: Model, env: Env, id: string)
    requires m.providerSlug in env.providers
    ensures IsInserted(NewRow(m, env, id), m, env, id)
  {
    DetailsAre(m, env.rate);
  }

  lemma WrittenIs(r: Spec, m: Model, env: Env)
    ensures Written(r, m, env) ==>
              && IsNative(r.providerModelId, m.id) && DetailsOfModel(r.details, m, env.rate)
              && r.openRouterId != None && r.openRouterId != Some("") && r.updatedAt == env.now
  {
    DetailsAre(m, env.rate);
  }

  lemma {:induction false} LastWriterIs(models: seq<Model>, env: Env, rows: seq<Spec>, j: nat, k: nat)
    requires k < |models| && models[k].providerSlug in env.providers && First(rows, models[k].id) == Some(j)
    requires forall l | k < l < |models| && models[l].providerSlug in env.providers ::
               First(rows, models[l].id) != Some(j)
    ensures LastWriter(models, env, rows, j) == Some(models[k])
    decreases |models|
  {
    if k > 0 {
      LastWriterIs(models[1..], env, rows, j, k - 1);
    } else {
      NoWriter(models[1..], env, rows, j);
    }
  }

  lemma {:induction false} NoWriter(models: seq<Model>, env: Env, rows: seq<Spec>, j: nat)
    requires forall l | 0 <= l < |models| && models[l].providerSlug in env.providers ::
               First(rows, models[l].id) != Some(j)
    ensures LastWriter(models, env, rows, j) == None
    decreases |models|
  {
    if models != [] { NoWriter(models[1..], env, rows, j); }
  }

  /** Model k is the last of the list, among those with a known provider, that row j is the first match of. */
  ghost predicate LastListed(rows: seq<Spec>, models: seq<Model>, env: Env, k: nat, j: nat) {
    && k < |models| && models[k].providerSlug in env.providers && IsFirst(rows, j, models[k].id)
    && forall l | k < l < |models| && models[l].providerSlug in env.providers :: !IsFirst(rows, j, models[l].id)
  }

  /** After a run a row that listed models match first holds what the last of them says. */
  lemma LastListedModelIsWritten(rows: seq<Spec>, models: seq<Model>, env: Env, ids: seq<string>, k: nat, j: nat)
    requires |ids| == |models| && Named(models)
    ensures var after := UpsertAll(rows, models, env, ids);
            LastListed(after, models, env, k, j) ==>
              && IsNative(after[j].providerModelId, models[k].id)
              && DetailsOfModel(after[j].details, models[k], env.rate)
              && after[j].openRouterId != None && after[j].openRouterId != Some("") && after[j].updatedAt == env.now
  {
    var after := UpsertAll(rows, models, env, ids);
    if LastListed(after, models, env, k, j) {
      FirstIff(after, models[k].id);
      forall l | k < l < |models| && models[l].providerSlug in env.providers
        ensures First(after, models[l].id) != Some(j)
      {
        FirstIff(after, models[l].id);
      }
      LastWriterIs(models, env, after, j, k);
      LastWriterWins(rows, models, env, ids, j);
      WrittenIs(after[j], models[k], env);
    }
  }

  /** A row that no listed model with a known provider matches first is left exactly as it was. */
  lemma UnlistedRowsStay(rows: seq<Spec>, models: seq<Model>, env: Env, ids: seq<string>, j: nat)
    requires |ids| == |models| && Named(models) && j < |rows|
    requires var after := UpsertAll(rows, models, env, ids);
             forall l | 0 <= l < |models| && models[l].providerSlug in env.providers :: !IsFirst(after, j, models[l].id)
    ensures j < |UpsertAll(rows, models, env, ids)| && UpsertAll(rows, models, env, ids)[j] == rows[j]
  {
    var after := UpsertAll(rows, models, env, ids);
    forall l | 0 <= l < |models| && models[l].providerSlug in env.providers
      ensures First(after, models[l].id) != Some(j) {
      FirstIff(after, models[l].id);
    }
    NoWriter(models, env, after, j);
    Untouched(rows, models, env, ids, j);
  }
}
