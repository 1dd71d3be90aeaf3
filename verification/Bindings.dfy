/**
 Key-to-provider bindings and the legacy pointer (admin-api/src/routes/bindings.ts): an API
 key has many bindings, and its old `provider_credential_id` column is kept pointing at
 one of them.  Each handler is one atomic step.
 */
module Bindings {
  import opened Wrappers

  datatype Binding = Binding(
    id: string, key: string, credential: string, priority: int, weight: int, enabled: bool,
    allowedModels: Option<string>, dailyBudget: int, monthlyBudget: int)

  datatype KeyInfo = KeyInfo(workspace: string, revoked: bool)

  /** The rows a handler reads but never changes here. */
  datatype Directory = Directory(keys: map<string, KeyInfo>, credentials: map<string, string>)

  datatype Tables = Tables(bindings: seq<Binding>, pointers: map<string, Option<string>>)

  datatype Changes = Changes(
    priority: Option<int>, weight: Option<int>, enabled: Option<bool>, allowedModels: Option<Option<string>>,
    dailyBudget: Option<int>, monthlyBudget: Option<int>)

  datatype Request =
    | Post(workspace: string, key: string, credential: string, priority: Option<int>, weight: Option<int>,
           allowedModels: Option<string>, dailyBudget: int, monthlyBudget: int, newId: string)
    | Put(workspace: string, key: string, id: string, changes: Changes)
    | Delete(workspace: string, key: string, id: string)

  // ── Queries ──

  function OfKey(rows: seq<Binding>, key: string): seq<Binding> {
    if rows == [] then [] else (if rows[0].key == key then [rows[0]] else []) + OfKey(rows[1..], key)
  }

  predicate Bound(rows: seq<Binding>, key: string, credential: string) {
    exists b | b in rows :: b.key == key && b.credential == credential
  }

  predicate Has(rows: seq<Binding>, key: string, id: string) {
    exists b | b in rows :: b.id == id && b.key == key
  }

  /** `ORDER BY priority_order ASC, weight DESC`: whether a may come before b. */
  predicate Precedes(a: Binding, b: Binding) {
    a.priority < b.priority || (a.priority == b.priority && a.weight >= b.weight)
  }

  /** The first row of that order; ties go to the earlier row of the table. */
  function Best(rows: seq<Binding>): (b: Binding)
    requires rows != []
    ensures b in rows
    ensures forall o | o in rows :: b.priority < o.priority || (b.priority == o.priority && b.weight >= o.weight)
  {
    if |rows| == 1 then rows[0]
    else
      var b := Best(rows[1..]);
      assert rows == [rows[0]] + rows[1..];
      if Precedes(rows[0], b) then rows[0] else b
  }

  function Without(rows: seq<Binding>, id: string): seq<Binding> {
    if rows == [] then [] else (if rows[0].id == id then [] else [rows[0]]) + Without(rows[1..], id)
  }

  function Changed(b: Binding, c: Changes): Binding {
    b.(priority := c.priority.GetOr(b.priority), weight := c.weight.GetOr(b.weight),
    enabled := c.enabled.GetOr(b.enabled), allowedModels := c.allowedModels.GetOr(b.allowedModels),
    dailyBudget := c.dailyBudget.GetOr(b.dailyBudget), monthlyBudget := c.monthlyBudget.GetOr(b.monthlyBudget))
  }

  function Update(rows: seq<Binding>, id: string, c: Changes): (r: seq<Binding>)
    ensures |r| == |rows|
    ensures forall i | 0 <= i < |rows| :: r[i] == if rows[i].id == id then Changed(rows[i], c) else rows[i]
  {
    if rows == [] then [] else [if rows[0].id == id then Changed(rows[0], c) else rows[0]] + Update(rows[1..], id, c)
  }

  // ── Handlers ──

  predicate KeyIn(dir: Directory, key: string, workspace: string) {
    key in dir.keys && dir.keys[key].workspace == workspace
  }

  /** The HTTP status a handler answers with. */
  function Status(dir: Directory, t: Tables, r: Request): nat {
    match r
    case Post(workspace, key, credential, _, _, _, _, _, _) =>
      if credential == "" then 400
      else if !KeyIn(dir, key, workspace) || dir.keys[key].revoked then 404
      else if !(credential in dir.credentials && dir.credentials[credential] == workspace) then 404
      else if Bound(t.bindings, key, credential) then 409
      else 201
    case Put(workspace, key, id, c) =>
      if !Has(t.bindings, key, id) || !KeyIn(dir, key, workspace) then 404
      else if c == Changes(None, None, None, None, None, None) then 400
      else 200
    case Delete(workspace, key, id) =>
      if !Has(t.bindings, key, id) || !KeyIn(dir, key, workspace) then 404 else 200
  }

  function Apply(dir: Directory, t: Tables, r: Request): Tables {
    if Status(dir, t, r) >= 400 then t else
    match r
    case Post(_, key, credential, priority, weight, allowed, daily, monthly, newId) =>
      var row := Binding(newId, key, credential, priority.GetOr(1), weight.GetOr(100), true, allowed, daily, monthly);
      var rows := t.bindings + [row];
      Tables(rows, if |OfKey(rows, key)| == 1 then t.pointers[key := Some(credential)] else t.pointers)
    case Put(_, _, id, c) => t.(bindings := Update(t.bindings, id, c))
    case Delete(_, key, id) =>
      var rows := Without(t.bindings, id);
      var remaining := OfKey(rows, key);
      Tables(rows, t.pointers[key := if remaining == [] then None else Some(Best(remaining).credential)])
  }

  /** The handlers over the tables they rewrite. */
  class BindingStore {
    var bindings: seq<Binding>
    var pointers: map<string, Option<string>>

    ghost function View(): Tables
      reads this
    {
      Tables(bindings, pointers)
    }

    method PostBinding(dir: Directory, r: Request) returns (status: nat)
      requires r.Post?
      modifies this
      ensures status == Status(dir, old(View()), r) && View() == Apply(dir, old(View()), r)
    {
      if r.credential == "" { return 400; }
      if !KeyIn(dir, r.key, r.workspace) || dir.keys[r.key].revoked { return 404; }
      if !(r.credential in dir.credentials && dir.credentials[r.credential] == r.workspace) { return 404; }
      if Bound(bindings, r.key, r.credential) { return 409; }
      bindings := bindings + [Binding(r.newId, r.key, r.credential, r.priority.GetOr(1), r.weight.GetOr(100), true,
                                      r.allowedModels, r.dailyBudget, r.monthlyBudget)];
      if |OfKey(bindings, r.key)| == 1 {
        pointers := pointers[r.key := Some(r.credential)];
      }
      return 201;
    }

    method PutBinding(dir: Directory, r: Request) returns (status: nat)
      requires r.Put?
      modifies this
      ensures status == Status(dir, old(View()), r) && View() == Apply(dir, old(View()), r)
    {
      if !Has(bindings, r.key, r.id) || !KeyIn(dir, r.key, r.workspace) { return 404; }
      if r.changes == Changes(None, None, None, None, None, None) { return 400; }
      bindings := Update(bindings, r.id, r.changes);
      return 200;
    }

    method DeleteBinding(dir: Directory, r: Request) returns (status: nat)
      requires r.Delete?
      modifies this
      ensures status == Status(dir, old(View()), r) && View() == Apply(dir, old(View()), r)
    {
      if !Has(bindings, r.key, r.id) || !KeyIn(dir, r.key, r.workspace) { return 404; }
      bindings := Without(bindings, r.id);
      var remaining := OfKey(bindings, r.key);
      pointers := pointers[r.key := if |remaining| > 0 then Some(Best(remaining).credential) else None];
      return 200;
    }
  }

  // ── The pointer invariant ──

  lemma {:induction false} OfKeyMember(rows: seq<Binding>, key: string, b: Binding)
    ensures b in OfKey(rows, key) <==> b in rows && b.key == key
  {
    if rows != [] {
      assert rows == [rows[0]] + rows[1..];
      OfKeyMember(rows[1..], key, b);
    }
  }

  lemma {:induction false} OfKeyAppend(rows: seq<Binding>, b: Binding, key: string)
    ensures OfKey(rows + [b], key) == OfKey(rows, key) + if b.key == key then [b] else []
  {
    if rows != [] {
      assert (rows + [b])[1..] == rows[1..] + [b];
      OfKeyAppend(rows[1..], b, key);
    }
  }

  lemma {:induction false} WithoutMember(rows: seq<Binding>, id: string, b: Binding)
    ensures b in Without(rows, id) <==> b in rows && b.id != id
  {
    if rows != [] {
      assert rows == [rows[0]] + rows[1..];
      WithoutMember(rows[1..], id, b);
    }
  }

  /** A key with bindings points at one of its bound credentials. */
  ghost predicate PointerOk(t: Tables, key: string) {
    (exists b | b in t.bindings :: b.key == key) ==>
      key in t.pointers && t.pointers[key].Some? && Bound(t.bindings, key, t.pointers[key].value)
  }

  /** Row ids are a primary key: a deleted row takes no row of another key with it. */
  ghost predicate IdsUnique(t: Tables) {
    forall a, b | a in t.bindings && b in t.bindings && a.id == b.id :: a.key == b.key
  }

  ghost predicate Fresh(t: Tables, r: Request) {
    r.Post? ==> forall b | b in t.bindings :: b.id != r.newId
  }

  lemma PostKeepsPointer(dir: Directory, t: Tables, r: Request, key: string)
    requires PointerOk(t, key) && r.Post? && Status(dir, t, r) == 201
    ensures PointerOk(Apply(dir, t, r), key)
  {
    var t' := Apply(dir, t, r);
    var row := t'.bindings[|t.bindings|];
    assert row in t'.bindings && t'.bindings == t.bindings + [row];
    OfKeyAppend(t.bindings, row, r.key);
    if key == r.key && OfKey(t.bindings, key) != [] {
      OfKeyMember(t.bindings, key, OfKey(t.bindings, key)[0]);
    }
    if key == r.key && OfKey(t.bindings, key) == [] {
      forall b | b in t.bindings ensures b.key != key { OfKeyMember(t.bindings, key, b); }
    }
    if b :| b in t.bindings && b.key == key && b.credential == t.pointers[key].value {
      assert b in t'.bindings;
    }
  }

  lemma PutKeepsPointer(dir: Directory, t: Tables, r: Request, key: string)
    requires PointerOk(t, key) && r.Put? && Status(dir, t, r) == 200
    ensures PointerOk(Apply(dir, t, r), key) && Apply(dir, t, r).pointers == t.pointers
  {
    var rows := Update(t.bindings, r.id, r.changes);
    if b' :| b' in rows && b'.key == key {
      var i :| 0 <= i < |rows| && rows[i] == b';
      assert t.bindings[i] in t.bindings && t.bindings[i].key == key;
      var b :| b in t.bindings && b.key == key && b.credential == t.pointers[key].value;
      var j :| 0 <= j < |t.bindings| && t.bindings[j] == b;
      assert rows[j] in rows;
    }
  }

  /** After a removal the key points at the best remaining binding, or at nothing. */
  lemma DeletePointsAtBest(dir: Directory, t: Tables, r: Request)
    requires r.Delete? && Status(dir, t, r) == 200
    ensures var t' := Apply(dir, t, r);
            && r.key in t'.pointers
            && (t'.pointers[r.key].None? <==> forall b | b in t'.bindings :: b.key != r.key)
            && (t'.pointers[r.key].Some? ==>
                  exists b | b in t'.bindings && b.key == r.key ::
                    b.credential == t'.pointers[r.key].value
                    && forall o | o in t'.bindings && o.key == r.key ::
                      b.priority < o.priority || (b.priority == o.priority && b.weight >= o.weight))
  {
    var t' := Apply(dir, t, r);
    var remaining := OfKey(t'.bindings, r.key);
    forall b ensures b in remaining <==> b in t'.bindings && b.key == r.key { OfKeyMember(t'.bindings, r.key, b); }
    if remaining != [] {
      assert Best(remaining) in t'.bindings;
    }
  }

  lemma DeleteKeepsPointer(dir: Directory, t: Tables, r: Request, key: string)
    requires PointerOk(t, key) && IdsUnique(t) && r.Delete? && Status(dir, t, r) == 200
    ensures PointerOk(Apply(dir, t, r), key)
  {
    var t' := Apply(dir, t, r);
    forall b ensures b in t'.bindings <==> b in t.bindings && b.id != r.id { WithoutMember(t.bindings, r.id, b); }
    if key == r.key {
      DeletePointsAtBest(dir, t, r);
    } else if b :| b in t'.bindings && b.key == key {
      var c :| c in t.bindings && c.key == key && c.credential == t.pointers[key].value;
      assert c in t'.bindings;
    }
  }

  lemma ApplyKeepsIds(dir: Directory, t: Tables, r: Request)
    requires IdsUnique(t) && Fresh(t, r)
    ensures IdsUnique(Apply(dir, t, r))
  {
    var t' := Apply(dir, t, r);
    if Status(dir, t, r) < 400 {
      if r.Put? {
        forall b | b in t'.bindings ensures exists a :: a in t.bindings && a.id == b.id && a.key == b.key {
          var i :| 0 <= i < |t'.bindings| && t'.bindings[i] == b;
          assert t.bindings[i] in t.bindings;
        }
      } else if r.Delete? {
        forall b ensures b in t'.bindings ==> b in t.bindings { WithoutMember(t.bindings, r.id, b); }
      }
    }
  }

  predicate Possible(dir: Directory, t: Tables, rs: seq<Request>)
    decreases |rs|
  {
    rs == [] || ((rs[0].Post? ==> forall b | b in t.bindings :: b.id != rs[0].newId)
                 && Possible(dir, Apply(dir, t, rs[0]), rs[1..]))
  }

  function Run(dir: Directory, t: Tables, rs: seq<Request>): Tables
    decreases |rs|
  {
    if rs == [] then t else Run(dir, Apply(dir, t, rs[0]), rs[1..])
  }

  lemma {:induction false} PointerInvariant(dir: Directory, t: Tables, rs: seq<Request>, key: string)
    requires PointerOk(t, key) && IdsUnique(t) && Possible(dir, t, rs)
    ensures PointerOk(Run(dir, t, rs), key)
    decreases |rs|
  {
    if rs != [] {
      ApplyKeepsIds(dir, t, rs[0]);
      if Status(dir, t, rs[0]) < 400 {
        match rs[0]
        case Post(_, _, _, _, _, _, _, _, _) => PostKeepsPointer(dir, t, rs[0], key);
        case Put(_, _, _, _) => PutKeepsPointer(dir, t, rs[0], key);
        case Delete(_, _, _) => DeleteKeepsPointer(dir, t, rs[0], key);
      }
      PointerInvariant(dir, Apply(dir, t, rs[0]), rs[1..], key);
    }
  }

  /** From a key without bindings, every run of handler calls keeps the legacy pointer valid. */
  lemma LegacyPointerStaysValid(dir: Directory, t: Tables, rs: seq<Request>, key: string)
    requires (forall b | b in t.bindings :: b.key != key) && IdsUnique(t) && Possible(dir, t, rs)
    ensures var t' := Run(dir, t, rs);
            (exists b | b in t'.bindings :: b.key == key) ==>
              key in t'.pointers && t'.pointers[key].Some? && Bound(t'.bindings, key, t'.pointers[key].value)
  {
    PointerInvariant(dir, t, rs, key);
  }

  // ── The handlers spelled out ──

  /** The key is one of the workspace's. */
  predicate Owns(dir: Directory, workspace: string, key: string) {
    key in dir.keys && dir.keys[key].workspace == workspace
  }

  /**
   Adding needs a live key and a credential of the workspace, not bound to the key yet; the new row has
   the given fields or the defaults, and the pointer is set if it is the key's only one.
   */
  lemma PostOutcome(dir: Directory, t: Tables, r: Request)
    requires r.Post?
    ensures var t', status := Apply(dir, t, r), Status(dir, t, r);
            var own := && Owns(dir, r.workspace, r.key) && dir.keys[r.key].revoked == false
                       && r.credential in dir.credentials && dir.credentials[r.credential] == r.workspace;
            var bound := exists b | b in t.bindings :: b.key == r.key && b.credential == r.credential;
            && (status == 400 <==> r.credential == "") && (status == 404 <==> r.credential != "" && !own)
            && (status == 409 <==> r.credential != "" && own && bound)
            && (status == 201 <==> r.credential != "" && own && !bound)
            && (status != 201 ==> t' == t)
            && (status == 201 ==>
                  && |t'.bindings| == |t.bindings| + 1 && t'.bindings[..|t.bindings|] == t.bindings
                  && var b := t'.bindings[|t.bindings|];
                  && b.id == r.newId && b.key == r.key && b.credential == r.credential && b.enabled == true
                  && b.priority == (if r.priority.Some? then r.priority.value else 1)
                  && b.weight == (if r.weight.Some? then r.weight.value else 100)
                  && b.allowedModels == r.allowedModels
                  && b.dailyBudget == r.dailyBudget && b.monthlyBudget == r.monthlyBudget
                  && (if exists o | o in t.bindings :: o.key == r.key then t'.pointers == t.pointers
                      else t'.pointers == t.pointers[r.key := Some(r.credential)]))
  {
    var row := Binding(r.newId, r.key, r.credential, r.priority.GetOr(1), r.weight.GetOr(100), true, r.allowedModels,
                       r.dailyBudget, r.monthlyBudget);
    OfKeyAppend(t.bindings, row, r.key);
    NoneOfKey(t.bindings, r.key);
  }

  lemma NoneOfKey(rows: seq<Binding>, key: string)
    ensures OfKey(rows, key) == [] <==> forall o | o in rows :: o.key != key
  {
    forall b ensures b in OfKey(rows, key) <==> b in rows && b.key == key { OfKeyMember(rows, key, b); }
    if OfKey(rows, key) != [] { assert OfKey(rows, key)[0] in OfKey(rows, key); }
  }

  /** The given fields change, the others and the row's identity stay. */
  predicate TakesChanges(b: Binding, b': Binding, c: Changes) {
    && b'.id == b.id && b'.key == b.key && b'.credential == b.credential
    && b'.priority == (if c.priority.Some? then c.priority.value else b.priority)
    && b'.weight == (if c.weight.Some? then c.weight.value else b.weight)
    && b'.enabled == (if c.enabled.Some? then c.enabled.value else b.enabled)
    && b'.allowedModels == (if c.allowedModels.Some? then c.allowedModels.value else b.allowedModels)
    && b'.dailyBudget == (if c.dailyBudget.Some? then c.dailyBudget.value else b.dailyBudget)
    && b'.monthlyBudget == (if c.monthlyBudget.Some? then c.monthlyBudget.value else b.monthlyBudget)
  }

  /** Changing needs the binding to be the key's, the key to be the workspace's, and a field; only that row changes. */
  lemma PutOutcome(dir: Directory, t: Tables, r: Request)
    requires r.Put?
    ensures var t', status, c := Apply(dir, t, r), Status(dir, t, r), r.changes;
            var found := Owns(dir, r.workspace, r.key) && exists b | b in t.bindings :: b.id == r.id && b.key == r.key;
            var given := c.priority.Some? || c.weight.Some? || c.enabled.Some? || c.allowedModels.Some?
                         || c.dailyBudget.Some? || c.monthlyBudget.Some?;
            && (status == 404 <==> !found) && (status == 400 <==> found && !given)
            && (status == 200 <==> found && given)
            && t'.pointers == t.pointers && |t'.bindings| == |t.bindings|
            && forall i | 0 <= i < |t.bindings| ::
                 var b, b' := t.bindings[i], t'.bindings[i];
                 if status == 200 && b.id == r.id then TakesChanges(b, b', c) else b' == b
  {
  }

  /** Removing needs the binding to be the key's and the key to be the workspace's; exactly that row goes. */
  lemma DeleteOutcome(dir: Directory, t: Tables, r: Request)
    requires r.Delete?
    ensures var t', status := Apply(dir, t, r), Status(dir, t, r);
            && (status == 200 <==>
                Owns(dir, r.workspace, r.key) && exists b | b in t.bindings :: b.id == r.id && b.key == r.key)
            && (status != 200 ==> status == 404 && t' == t)
            && (status == 200 ==>
                  && (forall b :: b in t'.bindings <==> b in t.bindings && b.id != r.id)
                  && forall key | key != r.key ::
                       (key in t'.pointers <==> key in t.pointers)
                       && (key in t.pointers ==> t'.pointers[key] == t.pointers[key]))
  {
    forall b ensures b in Without(t.bindings, r.id) <==> b in t.bindings && b.id != r.id {
      WithoutMember(t.bindings, r.id, b);
    }
  }
}
