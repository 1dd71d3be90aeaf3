/**
 Provider creation under concurrency (admin-api/src/routes/models.ts `ensureProvider`,
 admin-api/src/services/sync.ts steps 1-2).  Any number of callers and of sync runs, in
 any number of server processes, interleave at every await; the table's unique keys and
 INSERT IGNORE are all that orders them.  Generated ids are fresh.
 */
module Providers {
  import opened Wrappers

  /** `author` records which thread inserted the row, for the statements only. */
  datatype Row = Row(id: string, slug: string, system: bool, author: Option<nat>)

  function Find(rows: seq<Row>, slug: string): (r: Option<Row>)
    ensures r.Some? ==> r.value in rows && r.value.slug == slug
    ensures r.None? ==> forall i | 0 <= i < |rows| :: rows[i].slug != slug
  {
    if rows == [] then None else if rows[0].slug == slug then Some(rows[0]) else Find(rows[1..], slug)
  }

  predicate Conflicts(rows: seq<Row>, row: Row) {
    exists r | r in rows :: r.slug == row.slug || r.id == row.id
  }

  function InsertIgnore(rows: seq<Row>, row: Row): seq<Row> {
    if Conflicts(rows, row) then rows else rows + [row]
  }

  /** `SELECT id, slug ... WHERE workspace_id IS NULL`, loaded into a map in row order. */
  function LoadSystem(rows: seq<Row>): map<string, string> {
    if rows == [] then map[]
    else
      var last := rows[|rows| - 1];
      var m := LoadSystem(rows[..|rows| - 1]);
      if last.system then m[last.slug := last.id] else m
  }

  datatype CallerPc = Looking | Missing(newId: string) | Rechecking | Returned(id: Option<string>)
  datatype SyncPc = Loading | Walking | Inserting(newId: string) | Rereading(newId: string) | Finished

  datatype Thread =
    | Caller(slug: string, at: CallerPc)
    | Sync(process: nat, slugs: seq<string>, known: map<string, string>, todo: seq<string>, created: nat,
           won: set<string>,
           errors: seq<string>, pc: SyncPc)

  /** `running` holds the processes whose sync flag is set, each with the thread that set it. */
  datatype State = State(rows: seq<Row>, used: set<string>, threads: map<nat, Thread>, running: map<nat, nat>)

  datatype Event =
    | Call(tid: nat, slug: string)
    | StartSync(tid: nat, process: nat, slugs: seq<string>)
    | Step(tid: nat, newId: string)   // newId is drawn only by a step that generates an id
    | Fail(tid: nat)                  // the database throws inside the per-slug try of a sync

  predicate Live(t: Thread) {
    match t
    case Caller(_, at) => !at.Returned?
    case Sync(_, _, _, _, _, _, _, pc) => !pc.Finished?
  }

  predicate DrawsId(t: Thread, rows: seq<Row>) {
    match t
    case Caller(slug, at) => at.Looking? && Find(rows, slug).None?
    case Sync(_, _, known, todo, _, _, _, pc) => pc.Walking? && todo != [] && todo[0] !in known
  }

  predicate Enabled(s: State, e: Event) {
    match e
    case Call(tid, _) => tid !in s.threads
    case StartSync(tid, _, slugs) => tid !in s.threads && Distinct(slugs)
    case Step(tid, newId) =>
      tid in s.threads && Live(s.threads[tid]) && (DrawsId(s.threads[tid], s.rows) ==> newId !in s.used)
    case Fail(tid) =>
      tid in s.threads && s.threads[tid].Sync? && (s.threads[tid].pc.Inserting? || s.threads[tid].pc.Rereading?)
      && s.threads[tid].todo != []
  }

  /** One await of `ensureProvider`. */
  function StepCaller(s: State, tid: nat, newId: string): State
    requires tid in s.threads && s.threads[tid].Caller? && Live(s.threads[tid])
  {
    var t := s.threads[tid];
    match t.at
    case Looking =>
      var found := Find(s.rows, t.slug);
      if found.Some? then s.(threads := s.threads[tid := t.(at := Returned(Some(found.value.id)))])
      else s.(used := s.used + {newId}, threads := s.threads[tid := t.(at := Missing(newId))])
    case Missing(id) =>
      s.(rows := InsertIgnore(s.rows, Row(id, t.slug, true, Some(tid))),
      threads := s.threads[tid := t.(at := Rechecking)])
    case Rechecking =>
      var found := Find(s.rows, t.slug);
      s.(threads := s.threads[tid := t.(at := Returned(if found.Some? then Some(found.value.id) else None))])
    case Returned(_) => s
  }

  /** One await, or one turn without an await, of the provider loop of `runSync`. */
  function StepSync(s: State, tid: nat, newId: string): State
    requires tid in s.threads && s.threads[tid].Sync? && Live(s.threads[tid])
  {
    var t := s.threads[tid];
    match t.pc
    case Loading => s.(threads := s.threads[tid := t.(known := LoadSystem(s.rows), pc := Walking)])
    case Walking =>
      if t.todo == [] then s.(threads := s.threads[tid := t.(pc := Finished)], running := s.running - {t.process})
      else if t.todo[0] in t.known then s.(threads := s.threads[tid := t.(todo := t.todo[1..])])
      else s.(used := s.used + {newId}, threads := s.threads[tid := t.(pc := Inserting(newId))])
    case Inserting(id) =>
      if t.todo == [] then s else
      s.(rows := InsertIgnore(s.rows, Row(id, t.todo[0], true, Some(tid))),
      threads := s.threads[tid := t.(pc := Rereading(id))])
    case Rereading(id) =>
      if t.todo == [] then s else
      var slug := t.todo[0];
      var after := Find(s.rows, slug);
      var t' := t.(todo := t.todo[1..], pc := Walking);
      if after.None? then s.(threads := s.threads[tid := t'])
      else
        var own := after.value.id == id;
        s.(threads := s.threads[tid := t'.(known := t.known[slug := after.value.id],
        created := if own then t.created + 1 else t.created,
        won := if own then t.won + {slug} else t.won)])
    case Finished => s
  }

  function Apply(s: State, e: Event): State
    requires Enabled(s, e)
  {
    match e
    case Call(tid, slug) => s.(threads := s.threads[tid := Caller(slug, Looking)])
    case StartSync(tid, process, slugs) =>
      if process in s.running then s   // "Sync already in progress"
      else s.(threads := s.threads[tid := Sync(process, slugs, map[], slugs, 0, {}, [], Loading)],
           running := s.running[process := tid])
    case Step(tid, newId) =>
      if s.threads[tid].Caller? then StepCaller(s, tid, newId) else StepSync(s, tid, newId)
    case Fail(tid) =>
      var t := s.threads[tid];
      s.(threads := s.threads[tid := t.(todo := t.todo[1..], errors := t.errors + [t.todo[0]], pc := Walking)])
  }

  predicate Possible(s: State, es: seq<Event>)
    decreases |es|
  {
    es == [] || (Enabled(s, es[0]) && Possible(Apply(s, es[0]), es[1..]))
  }

  function Run(s: State, es: seq<Event>): State
    requires Possible(s, es)
    decreases |es|
  {
    if es == [] then s else Run(Apply(s, es[0]), es[1..])
  }

  // ── The invariant ──

  ghost predicate UniqueRows(rows: seq<Row>) {
    forall i, j | 0 <= i < j < |rows| :: rows[i].slug != rows[j].slug && rows[i].id != rows[j].id
  }

  function PendingId(t: Thread): Option<string> {
    match t
    case Caller(_, at) => if at.Missing? then Some(at.newId) else None
    case Sync(_, _, _, _, _, _, _, pc) => if pc.Inserting? then Some(pc.newId) else None
  }

  predicate OwnedBy(rows: seq<Row>, slug: string, tid: nat) {
    Find(rows, slug).Some? && Find(rows, slug).value.author == Some(tid)
  }

  ghost predicate SyncOk(rows: seq<Row>, tid: nat, t: Thread)
    requires t.Sync?
  {
    Distinct(t.todo)
    && (forall slug | slug in t.known :: Find(rows, slug).Some? && t.known[slug] == Find(rows, slug).value.id)
    && (forall slug :: slug in t.won <==> slug in t.known && OwnedBy(rows, slug, tid))
    && t.created == |t.won|
    && (forall slug | slug in t.slugs :: slug in t.known || slug in t.todo || slug in t.errors)
    && (t.pc.Inserting? || t.pc.Rereading? ==> t.todo != [] && t.todo[0] !in t.known)
    && (forall slug | slug in t.errors :: slug !in t.known && slug !in t.todo)
    && (t.pc.Loading? ==> t.errors == [] && t.known == map[] && forall r | r in rows :: r.author != Some(tid))
    && (t.pc.Finished? ==> t.todo == [])
    && (t.pc.Rereading? ==> Find(rows, t.todo[0]).Some?)
    && (forall r | r in rows && r.author == Some(tid) && r.slug in t.todo ::
          t.pc.Rereading? && r.slug == t.todo[0])
    && (forall r | r in rows && r.author == Some(tid) ::
          r.slug in t.known || r.slug in t.errors || (t.pc.Rereading? && r.slug == t.todo[0]))
    && (t.pc.Rereading? ==> (OwnedBy(rows, t.todo[0], tid) <==> Find(rows, t.todo[0]).value.id == t.pc.newId))
  }

  ghost predicate CallerOk(rows: seq<Row>, t: Thread)
    requires t.Caller?
  {
    (t.at.Rechecking? ==> Find(rows, t.slug).Some?)
    && (t.at.Returned? ==> Find(rows, t.slug).Some? && t.at.id == Some(Find(rows, t.slug).value.id))
  }

  ghost predicate ThreadOk(rows: seq<Row>, tid: nat, t: Thread) {
    if t.Caller? then CallerOk(rows, t) else SyncOk(rows, tid, t)
  }

  ghost predicate Invariant(s: State) {
    UniqueRows(s.rows)
    && (forall r | r in s.rows :: r.id in s.used && (r.author.Some? ==> r.author.value in s.threads && r.system))
    && (forall tid | tid in s.threads ::
          PendingId(s.threads[tid]).Some? ==>
            PendingId(s.threads[tid]).value in s.used
            && forall r | r in s.rows :: r.id != PendingId(s.threads[tid]).value)
    && (forall a, b | a in s.threads && b in s.threads && a != b && PendingId(s.threads[a]).Some? ::
          PendingId(s.threads[a]) != PendingId(s.threads[b]))
    && (forall tid | tid in s.threads :: ThreadOk(s.rows, tid, s.threads[tid]))
  }

  /** The flag of a process is set exactly while one sync, and only one, is unfinished there. */
  ghost predicate FlagOk(s: State) {
    (forall p | p in s.running ::
       s.running[p] in s.threads && Active(s.threads[s.running[p]]) && s.threads[s.running[p]].process == p)
    && (forall a | a in s.threads && Active(s.threads[a]) ::
          s.threads[a].process in s.running && s.running[s.threads[a].process] == a)
  }

  predicate Active(t: Thread) {
    t.Sync? && !t.pc.Finished?
  }

  lemma {:induction false} FindUnique(rows: seq<Row>, r: Row)
    requires UniqueRows(rows) && r in rows
    ensures Find(rows, r.slug) == Some(r)
  {
    if rows[0].slug != r.slug { FindUnique(rows[1..], r); }
    else { var i :| 0 <= i < |rows| && rows[i] == r; }
  }

  lemma {:induction false} FindAppend(rows: seq<Row>, row: Row, slug: string)
    ensures Find(rows + [row], slug) == if Find(rows, slug).Some? then Find(rows, slug)
                                        else if row.slug == slug then Some(row) else None
  {
    if rows != [] {
      assert (rows + [row])[1..] == rows[1..] + [row];
      FindAppend(rows[1..], row, slug);
    }
  }

  lemma {:induction false} LoadSystemSound(rows: seq<Row>)
    requires UniqueRows(rows)
    ensures forall slug | slug in LoadSystem(rows) ::
              Find(rows, slug).Some? && LoadSystem(rows)[slug] == Find(rows, slug).value.id
  {
    if rows != [] {
      var n := |rows| - 1;
      LoadSystemSound(rows[..n]);
      assert rows == rows[..n] + [rows[n]];
      forall slug | slug in LoadSystem(rows)
        ensures Find(rows, slug).Some? && LoadSystem(rows)[slug] == Find(rows, slug).value.id
      {
        FindAppend(rows[..n], rows[n], slug);
        if slug == rows[n].slug { FindUnique(rows, rows[n]); }
      }
    }
  }

  /** A sync starts from exactly the slugs that have a system row. */
  lemma {:induction false} LoadSystemIff(rows: seq<Row>, slug: string)
    ensures slug in LoadSystem(rows) <==> exists r | r in rows :: r.slug == slug && r.system == true
  {
    if rows != [] {
      var n := |rows| - 1;
      LoadSystemIff(rows[..n], slug);
      assert rows == rows[..n] + [rows[n]];
      if r :| r in rows && r.slug == slug && r.system == true { assert r in rows[..n] || r == rows[n]; }
    }
  }

  /** A row under a new slug leaves every other thread's view intact. */
  lemma ThreadStable(rows: seq<Row>, row: Row, tid: nat, t: Thread)
    requires ThreadOk(rows, tid, t) && Find(rows, row.slug).None? && row.author != Some(tid)
    ensures ThreadOk(rows + [row], tid, t)
  {
    forall slug ensures Find(rows, slug).Some? ==> Find(rows + [row], slug) == Find(rows, slug) {
      FindAppend(rows, row, slug);
    }
    if t.Sync? {
      forall slug ensures slug in t.known ==> OwnedBy(rows + [row], slug, tid) == OwnedBy(rows, slug, tid) {
        FindAppend(rows, row, slug);
      }
    }
  }

  /** With a fresh id, INSERT IGNORE is refused exactly when the slug is taken. */
  lemma IgnoredIffTaken(rows: seq<Row>, row: Row)
    requires forall r | r in rows :: r.id != row.id
    ensures InsertIgnore(rows, row) == if Find(rows, row.slug).Some? then rows else rows + [row]
  {
    if Conflicts(rows, row) {
      var r :| r in rows && (r.slug == row.slug || r.id == row.id);
      var i :| 0 <= i < |rows| && rows[i] == r;
    }
  }

  lemma InsertedOwn(rows: seq<Row>, tid: nat, t: Thread, id: string)
    requires t.Sync? && t.pc == Inserting(id) && SyncOk(rows, tid, t)
    requires Find(rows, t.todo[0]).None?
    ensures SyncOk(rows + [Row(id, t.todo[0], true, Some(tid))], tid, t.(pc := Rereading(id)))
  {
    var row := Row(id, t.todo[0], true, Some(tid));
    FindAppend(rows, row, row.slug);
    forall slug ensures slug in t.known ==> Find(rows + [row], slug) == Find(rows, slug) {
      FindAppend(rows, row, slug);
    }
    forall r | r in rows + [row] && r.author == Some(tid) && r.slug in t.todo ensures r.slug == t.todo[0] {
      assert r in rows || r == row;
    }
    forall slug ensures slug in t.won <==> slug in t.known && OwnedBy(rows + [row], slug, tid) {
      assert slug in t.known ==> OwnedBy(rows + [row], slug, tid) == OwnedBy(rows, slug, tid);
    }
  }

  lemma InsertedOther(rows: seq<Row>, tid: nat, t: Thread, id: string)
    requires t.Sync? && t.pc == Inserting(id) && SyncOk(rows, tid, t)
    requires Find(rows, t.todo[0]).Some? && forall r | r in rows :: r.id != id
    ensures SyncOk(rows, tid, t.(pc := Rereading(id)))
  {
    assert Find(rows, t.todo[0]).value in rows;
  }

  lemma InsertedThread(rows: seq<Row>, tid: nat, t: Thread, id: string)
    requires t.Sync? && t.pc == Inserting(id) && SyncOk(rows, tid, t)
    requires forall r | r in rows :: r.id != id
    ensures SyncOk(InsertIgnore(rows, Row(id, t.todo[0], true, Some(tid))), tid, t.(pc := Rereading(id)))
  {
    IgnoredIffTaken(rows, Row(id, t.todo[0], true, Some(tid)));
    if Find(rows, t.todo[0]).Some? { InsertedOther(rows, tid, t, id); } else { InsertedOwn(rows, tid, t, id); }
  }

  lemma InsertKeepsRows(s: State, tid: nat, id: string, slug: string)
    requires Invariant(s) && tid in s.threads && PendingId(s.threads[tid]) == Some(id)
    ensures var rows' := InsertIgnore(s.rows, Row(id, slug, true, Some(tid)));
            && UniqueRows(rows')
            && (forall r | r in rows' :: r.id in s.used && (r.author.Some? ==> r.author.value in s.threads && r.system))
            && (forall a | a in s.threads && a != tid :: ThreadOk(rows', a, s.threads[a]))
            && (forall a | a in s.threads && a != tid && PendingId(s.threads[a]).Some? ::
                  forall r | r in rows' :: r.id != PendingId(s.threads[a]).value)
            && Find(rows', slug).Some?
  {
    var row := Row(id, slug, true, Some(tid));
    IgnoredIffTaken(s.rows, row);
    if Find(s.rows, slug).None? {
      FindAppend(s.rows, row, slug);
      forall a | a in s.threads && a != tid ensures ThreadOk(s.rows + [row], a, s.threads[a]) {
        ThreadStable(s.rows, row, a, s.threads[a]);
      }
    }
  }

  lemma CallerStepInvariant(s: State, tid: nat, newId: string)
    requires Invariant(s) && Enabled(s, Step(tid, newId)) && s.threads[tid].Caller?
    ensures Invariant(StepCaller(s, tid, newId))
  {
    var t, s' := s.threads[tid], StepCaller(s, tid, newId);
    var t' := s'.threads[tid];
    match t.at
    case Missing(id) =>
      InsertKeepsRows(s, tid, id, t.slug);
      ThreadInserts(s, s', tid, t', id, t.slug);
    case Looking => if Find(s.rows, t.slug).Some? { ThreadMoves(s, s', tid, t'); }
    else { ThreadDraws(s, s', tid, t', newId); }
    case Rechecking => ThreadMoves(s, s', tid, t');
  }

  lemma ReadBack(rows: seq<Row>, tid: nat, t: Thread)
    requires t.Sync? && t.pc.Rereading? && SyncOk(rows, tid, t)
    ensures var slug, found := t.todo[0], Find(rows, t.todo[0]).value;
            var own := found.id == t.pc.newId;
            SyncOk(rows, tid, t.(todo := t.todo[1..], pc := Walking, known := t.known[slug := found.id],
                   created := if own then t.created + 1 else t.created,
                   won := if own then t.won + {slug} else t.won))
  {
    assert t.todo[0] !in t.won;
  }

  /** One thread moves on, and the table stays. */
  lemma ThreadMoves(s: State, s': State, tid: nat, t: Thread)
    requires Invariant(s) && tid in s.threads && ThreadOk(s.rows, tid, t) && PendingId(t).None?
    requires s'.rows == s.rows && s'.used == s.used && s'.threads == s.threads[tid := t]
    ensures Invariant(s')
  {
  }

  lemma ThreadDraws(s: State, s': State, tid: nat, t: Thread, newId: string)
    requires Invariant(s) && tid in s.threads && ThreadOk(s.rows, tid, t) && PendingId(t) == Some(newId)
    requires newId !in s.used
    requires s'.rows == s.rows && s'.used == s.used + {newId} && s'.threads == s.threads[tid := t]
    ensures Invariant(s')
  {
  }

  lemma ThreadInserts(s: State, s': State, tid: nat, t: Thread, id: string, slug: string)
    requires Invariant(s) && tid in s.threads && PendingId(s.threads[tid]) == Some(id) && PendingId(t).None?
    requires s'.rows == InsertIgnore(s.rows, Row(id, slug, true, Some(tid)))
    requires ThreadOk(s'.rows, tid, t) && s'.used == s.used && s'.threads == s.threads[tid := t]
    ensures Invariant(s')
  {
    InsertKeepsRows(s, tid, id, slug);
  }

  lemma LoadedThread(rows: seq<Row>, tid: nat, t: Thread)
    requires t.Sync? && t.pc.Loading? && SyncOk(rows, tid, t) && UniqueRows(rows)
    ensures SyncOk(rows, tid, t.(known := LoadSystem(rows), pc := Walking))
  {
    LoadSystemSound(rows);
    forall slug ensures !OwnedBy(rows, slug, tid) {}
    assert t.won == {} by {
      forall slug ensures slug !in t.won {}
    }
  }

  lemma SyncStepInvariant(s: State, tid: nat, newId: string)
    requires Invariant(s) && Enabled(s, Step(tid, newId)) && s.threads[tid].Sync?
    ensures Invariant(StepSync(s, tid, newId))
  {
    var t, s' := s.threads[tid], StepSync(s, tid, newId);
    var t' := s'.threads[tid];
    match t.pc
    case Loading =>
      LoadedThread(s.rows, tid, t);
      ThreadMoves(s, s', tid, t');
    case Walking =>
      if t.todo == [] || t.todo[0] in t.known { ThreadMoves(s, s', tid, t'); }
      else { ThreadDraws(s, s', tid, t', newId); }
    case Inserting(id) =>
      InsertedThread(s.rows, tid, t, id);
      ThreadInserts(s, s', tid, t', id, t.todo[0]);
    case Rereading(id) =>
      ReadBack(s.rows, tid, t);
      ThreadMoves(s, s', tid, t');
  }

  lemma ThreadArrives(s: State, s': State, tid: nat, t: Thread)
    requires Invariant(s) && tid !in s.threads && PendingId(t).None? && ThreadOk(s.rows, tid, t)
    requires s'.rows == s.rows && s'.used == s.used && s'.threads == s.threads[tid := t]
    ensures Invariant(s')
  {
  }

  lemma FailedThread(rows: seq<Row>, tid: nat, t: Thread)
    requires t.Sync? && (t.pc.Inserting? || t.pc.Rereading?) && SyncOk(rows, tid, t)
    ensures SyncOk(rows, tid, t.(todo := t.todo[1..], errors := t.errors + [t.todo[0]], pc := Walking))
  {
  }

  lemma ApplyInvariant(s: State, e: Event)
    requires Invariant(s) && Enabled(s, e)
    ensures Invariant(Apply(s, e))
  {
    match e
    case Step(tid, newId) =>
      if s.threads[tid].Caller? { CallerStepInvariant(s, tid, newId); } else { SyncStepInvariant(s, tid, newId); }
    case Call(tid, slug) => ThreadArrives(s, Apply(s, e), tid, Caller(slug, Looking));
    case StartSync(tid, process, slugs) =>
      if process !in s.running { ThreadArrives(s, Apply(s, e), tid, Apply(s, e).threads[tid]); }
    case Fail(tid) =>
      FailedThread(s.rows, tid, s.threads[tid]);
      ThreadMoves(s, Apply(s, e), tid, Apply(s, e).threads[tid]);
  }

  lemma ApplyFlag(s: State, e: Event)
    requires FlagOk(s) && Enabled(s, e)
    ensures FlagOk(Apply(s, e))
  {
    var s' := Apply(s, e);
    match e
    case Call(tid, slug) => FlagKept(s, s', tid, Caller(slug, Looking));
    case StartSync(tid, process, slugs) =>
      if process !in s.running { FlagSet(s, s', tid, s'.threads[tid]); }
    case Fail(tid) => FlagKept(s, s', tid, s'.threads[tid]);
    case Step(tid, newId) =>
      var t, t' := s.threads[tid], s'.threads[tid];
      if t.Sync? && t.pc.Walking? && t.todo == [] { FlagCleared(s, s', tid, t'); } else { FlagKept(s, s', tid, t'); }
  }

  lemma FlagKept(s: State, s': State, tid: nat, t: Thread)
    requires FlagOk(s) && s'.threads == s.threads[tid := t] && s'.running == s.running
    requires if tid in s.threads && Active(s.threads[tid]) then Active(t) && t.process == s.threads[tid].process
             else !Active(t)
    ensures FlagOk(s')
  {
  }

  lemma FlagSet(s: State, s': State, tid: nat, t: Thread)
    requires FlagOk(s) && tid !in s.threads && Active(t) && t.process !in s.running
    requires s'.threads == s.threads[tid := t] && s'.running == s.running[t.process := tid]
    ensures FlagOk(s')
  {
  }

  lemma FlagCleared(s: State, s': State, tid: nat, t: Thread)
    requires FlagOk(s) && tid in s.threads && Active(s.threads[tid]) && !Active(t)
    requires s'.threads == s.threads[tid := t] && s'.running == s.running - {s.threads[tid].process}
    ensures FlagOk(s')
  {
  }

  lemma {:induction false} RunInvariant(s: State, es: seq<Event>)
    requires Invariant(s) && FlagOk(s) && Possible(s, es)
    ensures Invariant(Run(s, es)) && FlagOk(Run(s, es))
    decreases |es|
  {
    if es != [] {
      ApplyInvariant(s, es[0]);
      ApplyFlag(s, es[0]);
      RunInvariant(Apply(s, es[0]), es[1..]);
    }
  }

  // ── What every interleaving guarantees ──

  /** A table as the schema keeps it: unique slugs and ids, nobody at work. */
  function Start(rows: seq<Row>): State {
    State(rows, set r | r in rows :: r.id, map[], map[])
  }

  ghost predicate ExactlyOne(rows: seq<Row>, slug: string, id: string) {
    exists i | 0 <= i < |rows| :: rows[i].slug == slug && rows[i].id == id
                                  && forall j | 0 <= j < |rows| && j != i :: rows[j].slug != slug
  }

  lemma FoundIsOnly(rows: seq<Row>, slug: string)
    requires UniqueRows(rows) && Find(rows, slug).Some?
    ensures ExactlyOne(rows, slug, Find(rows, slug).value.id)
  {
    var i :| 0 <= i < |rows| && rows[i] == Find(rows, slug).value;
  }

  /** Rows that callers and syncs insert are system rows, under slugs they asked for. */
  lemma InsertedAreSystem(rows: seq<Row>, es: seq<Event>)
    requires UniqueRows(rows) && (forall r | r in rows :: r.author.None?) && Possible(Start(rows), es)
    ensures var s := Run(Start(rows), es);
            rows <= s.rows && forall r | r in s.rows && r !in rows :: r.system == true
  {
    RunInvariant(Start(rows), es);
    RowsOnlyGrow(Start(rows), es);
    InsertedHaveAuthors(Start(rows), es);
  }

  lemma {:induction false} InsertedHaveAuthors(s: State, es: seq<Event>)
    requires Possible(s, es)
    ensures forall r | r in Run(s, es).rows && r !in s.rows :: r.author.Some?
    decreases |es|
  {
    if es != [] { InsertedHaveAuthors(Apply(s, es[0]), es[1..]); }
  }

  /** Slugs stay unique, and every caller that returned holds the id of the one row for its slug. */
  lemma CallersAgree(rows: seq<Row>, es: seq<Event>)
    requires UniqueRows(rows) && (forall r | r in rows :: r.author.None?) && Possible(Start(rows), es)
    ensures var s := Run(Start(rows), es);
            && UniqueRows(s.rows)
            && (forall a | a in s.threads && s.threads[a].Caller? && s.threads[a].at.Returned? ::
                  s.threads[a].at.id.Some? && ExactlyOne(s.rows, s.threads[a].slug, s.threads[a].at.id.value))
            && (forall a, b | a in s.threads && b in s.threads && s.threads[a].Caller? && s.threads[b].Caller?
                              && s.threads[a].at.Returned? && s.threads[b].at.Returned? ::
                  s.threads[a].slug == s.threads[b].slug ==> s.threads[a].at.id == s.threads[b].at.id)
  {
    RunInvariant(Start(rows), es);
    var s := Run(Start(rows), es);
    forall a | a in s.threads && s.threads[a].Caller? && s.threads[a].at.Returned?
      ensures s.threads[a].at.id.Some? && ExactlyOne(s.rows, s.threads[a].slug, s.threads[a].at.id.value)
    {
      assert ThreadOk(s.rows, a, s.threads[a]);
      FoundIsOnly(s.rows, s.threads[a].slug);
    }
  }

  /**
   A sync maps each slug it processed without error to the one row for it, the row every
   caller sees.  It counts a creation exactly for the slugs whose row it inserted and then read
   back; a row it inserted without reading it back is reported as an error instead.
   */
  lemma SyncAgreesAndCounts(rows: seq<Row>, es: seq<Event>, tid: nat)
    requires UniqueRows(rows) && (forall r | r in rows :: r.author.None?) && Possible(Start(rows), es)
    requires tid in Run(Start(rows), es).threads && Run(Start(rows), es).threads[tid].Sync?
    ensures var s := Run(Start(rows), es);
            var t := s.threads[tid];
            && (forall slug | slug in t.known :: ExactlyOne(s.rows, slug, t.known[slug]))
            && (t.pc.Finished? ==> forall slug | slug in t.slugs :: slug in t.known || slug in t.errors)
            && t.created == |set slug | slug in t.known && OwnedBy(s.rows, slug, tid)|
            && (t.pc.Finished? ==> forall r | r in s.rows && r.author == Some(tid) ::
                    r.slug in t.known || r.slug in t.errors)
  {
    RunInvariant(Start(rows), es);
    var s := Run(Start(rows), es);
    var t := s.threads[tid];
    assert ThreadOk(s.rows, tid, t);
    forall slug | slug in t.known ensures ExactlyOne(s.rows, slug, t.known[slug]) {
      FoundIsOnly(s.rows, slug);
    }
    assert t.won == set slug | slug in t.known && OwnedBy(s.rows, slug, tid);
  }

  /** A finished sync counts exactly the rows it inserted if and only if none of their slugs is among its errors. */
  lemma SyncCountsItsRowsIff(rows: seq<Row>, es: seq<Event>, tid: nat)
    requires UniqueRows(rows) && (forall r | r in rows :: r.author.None?) && Possible(Start(rows), es)
    requires tid in Run(Start(rows), es).threads && Run(Start(rows), es).threads[tid].Sync?
    requires Run(Start(rows), es).threads[tid].pc.Finished?
    ensures var s := Run(Start(rows), es);
            var t := s.threads[tid];
            t.created == |set r | r in s.rows && r.author == Some(tid) :: r.slug|
            <==> forall r | r in s.rows && r.author == Some(tid) :: r.slug !in t.errors
  {
    SyncAgreesAndCounts(rows, es, tid);
    RunInvariant(Start(rows), es);
    var s := Run(Start(rows), es);
    var t := s.threads[tid];
    assert ThreadOk(s.rows, tid, t);
    OwnSlugs(s.rows, tid, t);
  }

  /** The counted slugs are the own ones that are not errors. */
  lemma OwnSlugs(rows: seq<Row>, tid: nat, t: Thread)
    requires UniqueRows(rows) && t.Sync? && t.pc.Finished? && SyncOk(rows, tid, t)
    ensures t.created == |set r | r in rows && r.author == Some(tid) :: r.slug|
       <==> forall r | r in rows && r.author == Some(tid) :: r.slug !in t.errors
  {
    var own := set r | r in rows && r.author == Some(tid) :: r.slug;
    var lost := set slug | slug in own && slug in t.errors;
    forall slug ensures slug in t.won <==> slug in own && slug !in t.errors {
      if r :| r in rows && r.author == Some(tid) && r.slug == slug { FindUnique(rows, r); }
    }
    assert own == t.won + lost && t.won * lost == {};
    assert lost == {} <==> forall r | r in rows && r.author == Some(tid) :: r.slug !in t.errors by {
      forall r | r in rows && r.author == Some(tid) && r.slug in t.errors ensures r.slug in lost {}
    }
  }

  lemma OneEvent(s: State, e: Event, rest: seq<Event>)
    requires Enabled(s, e)
    ensures Possible(s, [e] + rest) <==> Possible(Apply(s, e), rest)
    ensures Possible(Apply(s, e), rest) ==> Run(s, [e] + rest) == Run(Apply(s, e), rest)
  {
    assert ([e] + rest)[1..] == rest;
  }

  /** A reread that fails after a winning insert leaves a row that no sync counts. */
  lemma FailedRereadIsNotCounted(slug: string, id: string)
    ensures exists es ::
              && Possible(Start([]), es) && Run(Start([]), es).rows == [Row(id, slug, true, Some(0))]
              && 0 in Run(Start([]), es).threads && Run(Start([]), es).threads[0].Sync?
              && Run(Start([]), es).threads[0].pc.Finished? && Run(Start([]), es).threads[0].created == 0
  {
    var s0, e0 := Start([]), StartSync(0, 0, [slug]);
    var s1, e1 := Apply(s0, e0), Step(0, "");
    var s2, e2 := Apply(s1, e1), Step(0, id);
    var s3, e3 := Apply(s2, e2), Step(0, "");
    var s4, e4 := Apply(s3, e3), Fail(0);
    var s5, e5 := Apply(s4, e4), Step(0, "");
    OneEvent(s5, e5, []);
    OneEvent(s4, e4, [e5] + []);
    OneEvent(s3, e3, [e4] + ([e5] + []));
    OneEvent(s2, e2, [e3] + ([e4] + ([e5] + [])));
    OneEvent(s1, e1, [e2] + ([e3] + ([e4] + ([e5] + []))));
    OneEvent(s0, e0, [e1] + ([e2] + ([e3] + ([e4] + ([e5] + [])))));
  }

  /** Two syncs never overlap in one process. */
  lemma OneSyncPerProcess(rows: seq<Row>, es: seq<Event>, a: nat, b: nat)
    requires UniqueRows(rows) && (forall r | r in rows :: r.author.None?) && Possible(Start(rows), es)
    requires a in Run(Start(rows), es).threads && b in Run(Start(rows), es).threads
    requires Active(Run(Start(rows), es).threads[a]) && Active(Run(Start(rows), es).threads[b])
    requires Run(Start(rows), es).threads[a].process == Run(Start(rows), es).threads[b].process
    ensures a == b
  {
    RunInvariant(Start(rows), es);
  }

  /** A row once found is found for ever: later steps only append. */
  lemma {:induction false} RowsOnlyGrow(s: State, es: seq<Event>)
    requires Possible(s, es)
    ensures s.rows <= Run(s, es).rows
    decreases |es|
  {
    if es != [] { RowsOnlyGrow(Apply(s, es[0]), es[1..]); }
  }
}
