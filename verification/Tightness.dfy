/**
 When a budget bounds its owner, and by how much (admin-api/src/routes/internal.ts): the overspend
 bound of the admission protocol cannot be improved, and the tables under which it holds are
 exactly those that leave no way around the budget.
 */
module Tightness {
  import opened Wrappers
  import opened Budget
  import opened Admission

  /** A frugal run, and one that is restrained at the gate if so asked, leads from one state to the other. */
  ghost predicate Reach(cfg: Config, g: Gate, gated: bool, c: Amount, k: nat, s: State, s': State) {
    exists es :: Frugally(cfg, g, gated, c, k, s, es) && Run(cfg, s, es) == s'
  }

  ghost predicate Frugally(cfg: Config, g: Gate, gated: bool, c: Amount, k: nat, s: State, es: seq<Event>) {
    Legal(cfg, s, es) && Frugal(cfg, g.owner, MeasureOf(g.layer), c, k, s, es)
    && (gated ==> Restrained(cfg, g, c, k, s, es))
  }

  lemma {:induction false} FrugallyConcat(
    cfg: Config, g: Gate, gated: bool, c: Amount, k: nat, s: State, a: seq<Event>, b: seq<Event>)
    requires Frugally(cfg, g, gated, c, k, s, a) && Frugally(cfg, g, gated, c, k, Run(cfg, s, a), b)
    ensures Frugally(cfg, g, gated, c, k, s, a + b)
    decreases |a|
  {
    RunConcat(cfg, s, a, b);
    if a == [] {
      assert a + b == b;
    } else {
      var all := a + b;
      assert all[0] == a[0] && all[1..] == a[1..] + b;
      FrugallyConcat(cfg, g, gated, c, k, Apply(cfg, s, a[0]), a[1..], b);
    }
  }

  lemma ReachTrans(cfg: Config, g: Gate, gated: bool, c: Amount, k: nat, s: State, m: State, t: State)
    requires Reach(cfg, g, gated, c, k, s, m) && Reach(cfg, g, gated, c, k, m, t)
    ensures Reach(cfg, g, gated, c, k, s, t)
  {
    var a :| Frugally(cfg, g, gated, c, k, s, a) && Run(cfg, s, a) == m;
    var b :| Frugally(cfg, g, gated, c, k, m, b) && Run(cfg, m, b) == t;
    RunConcat(cfg, s, a, b);
    FrugallyConcat(cfg, g, gated, c, k, s, a, b);
  }

  lemma ReachSelf(cfg: Config, g: Gate, gated: bool, c: Amount, k: nat, s: State)
    ensures Reach(cfg, g, gated, c, k, s, s)
  {
    assert Frugally(cfg, g, gated, c, k, s, []) && Run(cfg, s, []) == s;
  }

  /** One step as a run. */
  lemma ReachStep(cfg: Config, g: Gate, gated: bool, c: Amount, k: nat, s: State, e: Event)
    requires Enabled(cfg, s, e) && Thrifty(g.owner, MeasureOf(g.layer), c, s, e)
    requires |Apply(cfg, s, e).requests.Keys| <= k && (gated ==> Gated(cfg, g, c, s, e))
    ensures Reach(cfg, g, gated, c, k, s, Apply(cfg, s, e))
  {
    var s' := Apply(cfg, s, e);
    OneStep(cfg, s, e);
    SmallerSet(Pending(cfg, s', g), s'.requests.Keys);
    assert [e][1..] == [] && Frugally(cfg, g, gated, c, k, s', []);
    assert Frugally(cfg, g, gated, c, k, s, [e]);
  }

  // ── One request passes ──

  /** A step of one request's admission: nothing is logged. */
  predicate Admitting(e: Event, id: nat) {
    (e.Arrive? || e.Read? || e.Decide?) && e.id == id
  }

  lemma {:induction false} AdmittingIsFrugal(
    cfg: Config, g: Gate, c: Amount, k: nat, s: State, id: nat, others: set<nat>, es: seq<Event>)
    requires Legal(cfg, s, es) && forall i | 0 <= i < |es| :: Admitting(es[i], id)
    requires s.requests.Keys <= others + {id} && |others| < k
    ensures Frugally(cfg, g, true, c, k, s, es)
    decreases |es|
  {
    if es != [] {
      var s' := Apply(cfg, s, es[0]);
      assert Admitting(es[0], id);
      assert s'.requests.Keys <= others + {id};
      SmallerSet(s'.requests.Keys, others + {id});
      SmallerSet(Pending(cfg, s', g), s'.requests.Keys);
      AdmittingIsFrugal(cfg, g, c, k, s', id, others, es[1..]);
    }
  }

  lemma PassageAdmits(cfg: Config, id: nat, key: string)
    requires key in cfg.keys
    ensures forall i | 0 <= i < |Passage(cfg, id, key, None)| :: Admitting(Passage(cfg, id, key, None)[i], id)
  {
    ReadsAreReads(id, |Layers(NewRequest(cfg, key, None).subject)|);
  }

  function Ready(cfg: Config, key: string): Request
    requires key in cfg.keys
  {
    NewRequest(cfg, key, None).(phase := Forwarded)
  }

  /** No layer cuts the key off at this moment. */
  predicate Passes(cfg: Config, key: string, log: Log, today: Date)
    requires key in cfg.keys
  {
    !Blocked(Atomic(cfg, Moment(log, today), NewRequest(cfg, key, None).subject))
  }

  lemma ReachPassage(cfg: Config, g: Gate, gated: bool, c: Amount, k: nat, s: State, id: nat, key: string)
    requires id !in s.requests && LiveRow(cfg, key) && |s.requests.Keys| < k && Passes(cfg, key, s.log, s.today)
    ensures Reach(cfg, g, gated, c, k, s, s.(requests := s.requests[id := Ready(cfg, key)]))
  {
    PassageForwards(cfg, s, id, key, None);
    PassageAdmits(cfg, id, key);
    AdmittingIsFrugal(cfg, g, c, k, s, id, s.requests.Keys, Passage(cfg, id, key, None));
    assert Frugally(cfg, g, gated, c, k, s, Passage(cfg, id, key, None));
  }

  function CostRow(cfg: Config, key: string, today: Date, cost: Amount): LogRow
    requires key in cfg.keys
  {
    RowOf(Ready(cfg, key), Record(0, None, None, cost, 0, 0), today)
  }

  /** The gate watches the key's spend: its workspace's, or its user's. */
  predicate Watches(cfg: Config, g: Gate, key: string) {
    key in cfg.keys && g.layer in [WorkspaceDaily, WorkspaceMonthly, KeyDaily, KeyMonthly]
    && (g.owner == OfWorkspace(cfg.keys[key].workspace)
        || g.owner == OfUser(cfg.keys[key].workspace, cfg.keys[key].user))
  }

  lemma ReachRecord(cfg: Config, g: Gate, gated: bool, c: Amount, k: nat, s: State, id: nat, key: string, cost: Amount)
    requires Watches(cfg, g, key) && id in s.requests && s.requests[id] == Ready(cfg, key) && cost <= c
    requires |s.requests.Keys| <= k && (gated ==> Checked(cfg, g, Ready(cfg, key)))
    ensures Reach(cfg, g, gated, c, k, s,
                  State(s.log + [CostRow(cfg, key, s.today, cost)], s.today, s.requests - {id}))
  {
    var e := Record(id, None, None, cost, 0, 0);
    SmallerSet((s.requests - {id}).Keys, s.requests.Keys);
    ReachStep(cfg, g, gated, c, k, s, e);
  }

  lemma CostRowSpends(cfg: Config, g: Gate, key: string, log: Log, today: Date, cost: Amount)
    requires Watches(cfg, g, key)
    ensures Spent(log + [CostRow(cfg, key, today, cost)], MeterOn(g, today)) == Spent(log, MeterOn(g, today)) + cost
  {
    SpentAppend(log, CostRow(cfg, key, today, cost), MeterOn(g, today));
  }

  /** One request from arrival to row, nobody else in flight. */
  lemma OneInTurn(
    cfg: Config, g: Gate, gated: bool, key: string, c: Amount, k: nat, log: Log, today: Date, x: Amount)
    requires Watches(cfg, g, key) && LiveRow(cfg, key) && x <= c && k > 0 && Passes(cfg, key, log, today)
    requires gated ==> Checked(cfg, g, Ready(cfg, key))
    ensures Reach(cfg, g, gated, c, k, State(log, today, map[]),
                  State(log + [CostRow(cfg, key, today, x)], today, map[]))
  {
    var s, forwarded := State(log, today, map[]), State(log, today, map[0 := Ready(cfg, key)]);
    assert s.requests.Keys == {} && forwarded.requests.Keys == {0};
    ReachPassage(cfg, g, gated, c, k, s, 0, key);
    assert s.requests[0 := Ready(cfg, key)] == forwarded.requests;
    ReachRecord(cfg, g, gated, c, k, forwarded, 0, key, x);
    assert forwarded.requests - {0} == map[];
    ReachTrans(cfg, g, gated, c, k, s, forwarded, State(log + [CostRow(cfg, key, today, x)], today, map[]));
  }

  /** The log after n more rows of one price. */
  function Paid(cfg: Config, key: string, log: Log, today: Date, x: Amount, n: nat): Log
    requires key in cfg.keys
    decreases n
  {
    if n == 0 then log else Paid(cfg, key, log + [CostRow(cfg, key, today, x)], today, x, n - 1)
  }

  lemma {:induction false} PaidSpends(cfg: Config, g: Gate, key: string, log: Log, today: Date, x: Amount, n: nat)
    requires Watches(cfg, g, key)
    ensures Spent(Paid(cfg, key, log, today, x, n), MeterOn(g, today)) == Spent(log, MeterOn(g, today)) + n as real * x
    decreases n
  {
    if n > 0 {
      Product(n - 1, n, x);
      CostRowSpends(cfg, g, key, log, today, x);
      PaidSpends(cfg, g, key, log + [CostRow(cfg, key, today, x)], today, x, n - 1);
    }
  }

  // ── One budget, nothing else configured ──

  /** A live key whose requests are bounded by one layer alone. */
  predicate Alone(cfg: Config, key: string, layer: Layer) {
    LiveRow(cfg, key)
    && var subject := NewRequest(cfg, key, None).subject;
    layer in Layers(subject) && BudgetOf(cfg, layer, subject) > 0
    && forall other | other in Layers(subject) && other != layer :: BudgetOf(cfg, other, subject) <= 0
  }

  function GateOf(cfg: Config, key: string, layer: Layer): (g: Gate)
    requires Alone(cfg, key, layer)
    ensures g.budget > 0 && g.layer == layer && Watches(cfg, g, key) && Checked(cfg, g, Ready(cfg, key))
  {
    var subject := NewRequest(cfg, key, None).subject;
    Gate(layer, OwnerOf(cfg, layer, subject), BudgetOf(cfg, layer, subject))
  }

  lemma UnderCutoffPasses(cfg: Config, key: string, layer: Layer, log: Log, today: Date)
    requires Alone(cfg, key, layer)
    requires var g := GateOf(cfg, key, layer); 200.0 * Spent(log, MeterOn(g, today)) < 199.0 * g.budget as real
    ensures Passes(cfg, key, log, today)
  {
    var g, at, subject := GateOf(cfg, key, layer), Moment(log, today), NewRequest(cfg, key, None).subject;
    var layers := Layers(subject);
    var rs := Readings(cfg, seq(|layers|, _ => at), subject);
    VerdictIsMostSevere(cfg, seq(|layers|, _ => at), subject);
    forall i | 0 <= i < |rs| ensures !Blocked(rs[i]) {
      QuietIff(cfg, at, layers[i], subject);
      if layers[i] == layer { LevelThresholds(Spent(log, MeterOn(g, today)), g.budget); }
    }
  }

  /** One more row under the cutoff. */
  lemma OneBelow(cfg: Config, key: string, layer: Layer, c: Amount, k: nat, log: Log, today: Date, x: Amount)
    requires Alone(cfg, key, layer) && x <= c && k > 0
    requires var g := GateOf(cfg, key, layer); 200.0 * Spent(log, MeterOn(g, today)) < 199.0 * g.budget as real
    ensures Reach(cfg, GateOf(cfg, key, layer), true, c, k, State(log, today, map[]),
                  State(log + [CostRow(cfg, key, today, x)], today, map[]))
  {
    UnderCutoffPasses(cfg, key, layer, log, today);
    OneInTurn(cfg, GateOf(cfg, key, layer), true, key, c, k, log, today, x);
  }

  // ── First up to the cutoff, one request after the other ──

  /** Under the cutoff before each of n more rows. */
  predicate Below(g: Gate, log: Log, today: Date, x: Amount, n: nat) {
    200.0 * (Spent(log, MeterOn(g, today)) + n as real * x) < 199.0 * g.budget as real
  }

  lemma BelowStep(cfg: Config, g: Gate, key: string, log: Log, today: Date, x: Amount, n: nat)
    requires Watches(cfg, g, key) && Below(g, log, today, x, n)
    ensures 200.0 * Spent(log, MeterOn(g, today)) < 199.0 * g.budget as real
    ensures n > 0 ==> Below(g, log + [CostRow(cfg, key, today, x)], today, x, n - 1)
  {
    Shares(Spent(log, MeterOn(g, today)), x, n, 199.0 * g.budget as real);
    CostRowSpends(cfg, g, key, log, today, x);
  }

  lemma Shares(spent: real, x: Amount, n: nat, limit: real)
    requires 200.0 * (spent + n as real * x) < limit
    ensures 200.0 * spent < limit
    ensures n > 0 ==> 200.0 * (spent + x + (n - 1) as real * x) < limit
  {
    Product(n, n, x);
    if n > 0 { Product(n - 1, n, x); }
  }

  lemma {:induction false} SpendInTurn(
    cfg: Config, key: string, layer: Layer, c: Amount, k: nat, log: Log, today: Date, x: Amount, n: nat)
    requires Alone(cfg, key, layer) && x <= c && k > 0 && Below(GateOf(cfg, key, layer), log, today, x, n)
    ensures Reach(cfg, GateOf(cfg, key, layer), true, c, k, State(log, today, map[]),
                  State(Paid(cfg, key, log, today, x, n), today, map[]))
    decreases n
  {
    var g, end := GateOf(cfg, key, layer), State(Paid(cfg, key, log, today, x, n), today, map[]);
    BelowStep(cfg, g, key, log, today, x, n);
    if n == 0 {
      ReachSelf(cfg, g, true, c, k, end);
    } else {
      var one := log + [CostRow(cfg, key, today, x)];
      OneBelow(cfg, key, layer, c, k, log, today, x);
      SpendInTurn(cfg, key, layer, c, k, one, today, x, n - 1);
      ReachTrans(cfg, g, true, c, k, State(log, today, map[]), State(one, today, map[]), end);
    }
  }

  // ── Then K requests at once ──

  function Queue(cfg: Config, key: string, n: nat): map<nat, Request>
    requires key in cfg.keys
  {
    if n == 0 then map[] else Queue(cfg, key, n - 1)[n - 1 := Ready(cfg, key)]
  }

  lemma {:induction false} QueueFacts(cfg: Config, key: string, n: nat)
    requires key in cfg.keys
    ensures |Queue(cfg, key, n).Keys| == n
    ensures forall id | id in Queue(cfg, key, n) :: id < n && Queue(cfg, key, n)[id] == Ready(cfg, key)
  {
    if n > 0 {
      QueueFacts(cfg, key, n - 1);
      assert Queue(cfg, key, n).Keys == Queue(cfg, key, n - 1).Keys + {n - 1};
    }
  }

  lemma QueueEnd(cfg: Config, key: string, n: nat)
    requires key in cfg.keys && n > 0
    ensures n - 1 in Queue(cfg, key, n) && Queue(cfg, key, n)[n - 1] == Ready(cfg, key)
    ensures Queue(cfg, key, n) - {n - 1} == Queue(cfg, key, n - 1)
    ensures n - 1 !in Queue(cfg, key, n - 1)
    ensures |Queue(cfg, key, n - 1).Keys| == n - 1 && |Queue(cfg, key, n).Keys| == n
  {
    QueueFacts(cfg, key, n - 1);
    QueueFacts(cfg, key, n);
  }

  /** Requests 0 to n - 1, all forwarded and none paid for. */
  function Waiting(cfg: Config, key: string, log: Log, today: Date, n: nat): State
    requires key in cfg.keys
  {
    State(log, today, Queue(cfg, key, n))
  }

  lemma NextPasses(cfg: Config, g: Gate, key: string, c: Amount, k: nat, log: Log, today: Date, n: nat)
    requires LiveRow(cfg, key) && n < k && Passes(cfg, key, log, today)
    ensures Reach(cfg, g, true, c, k, Waiting(cfg, key, log, today, n), Waiting(cfg, key, log, today, n + 1))
  {
    QueueEnd(cfg, key, n + 1);
    ReachPassage(cfg, g, true, c, k, Waiting(cfg, key, log, today, n), n, key);
  }

  /** Waiting requests can be joined one by one, if each next one can. */
  lemma {:induction false} Joined(cfg: Config, g: Gate, key: string, c: Amount, k: nat, log: Log, today: Date, n: nat)
    requires key in cfg.keys
    requires forall i: nat | i < n ::
               Reach(cfg, g, true, c, k, Waiting(cfg, key, log, today, i), Waiting(cfg, key, log, today, i + 1))
    ensures Reach(cfg, g, true, c, k, Waiting(cfg, key, log, today, 0), Waiting(cfg, key, log, today, n))
    decreases n
  {
    if n == 0 {
      ReachSelf(cfg, g, true, c, k, Waiting(cfg, key, log, today, 0));
    } else {
      Joined(cfg, g, key, c, k, log, today, n - 1);
      ReachTrans(cfg, g, true, c, k, Waiting(cfg, key, log, today, 0), Waiting(cfg, key, log, today, n - 1),
                 Waiting(cfg, key, log, today, n));
    }
  }

  lemma AllPass(cfg: Config, g: Gate, key: string, c: Amount, k: nat, log: Log, today: Date, n: nat)
    requires LiveRow(cfg, key) && n <= k && Passes(cfg, key, log, today)
    ensures Reach(cfg, g, true, c, k, Waiting(cfg, key, log, today, 0), Waiting(cfg, key, log, today, n))
  {
    forall i: nat | i < n
      ensures Reach(cfg, g, true, c, k, Waiting(cfg, key, log, today, i), Waiting(cfg, key, log, today, i + 1))
    {
      NextPasses(cfg, g, key, c, k, log, today, i);
    }
    Joined(cfg, g, key, c, k, log, today, n);
  }

  lemma LastPays(cfg: Config, g: Gate, key: string, c: Amount, k: nat, log: Log, today: Date, n: nat)
    requires Watches(cfg, g, key) && Checked(cfg, g, Ready(cfg, key)) && 0 < n <= k
    ensures Reach(cfg, g, true, c, k, Waiting(cfg, key, log, today, n),
                  Waiting(cfg, key, log + [CostRow(cfg, key, today, c)], today, n - 1))
  {
    QueueEnd(cfg, key, n);
    ReachRecord(cfg, g, true, c, k, Waiting(cfg, key, log, today, n), n - 1, key, c);
  }

  lemma {:induction false} AllPay(cfg: Config, g: Gate, key: string, c: Amount, k: nat, log: Log, today: Date, n: nat)
    requires Watches(cfg, g, key) && Checked(cfg, g, Ready(cfg, key)) && n <= k
    ensures Reach(cfg, g, true, c, k, Waiting(cfg, key, log, today, n),
                  Waiting(cfg, key, Paid(cfg, key, log, today, c, n), today, 0))
    decreases n
  {
    var end := Waiting(cfg, key, Paid(cfg, key, log, today, c, n), today, 0);
    if n == 0 {
      ReachSelf(cfg, g, true, c, k, end);
    } else {
      var paid := log + [CostRow(cfg, key, today, c)];
      LastPays(cfg, g, key, c, k, log, today, n);
      AllPay(cfg, g, key, c, k, paid, today, n - 1);
      ReachTrans(cfg, g, true, c, k, Waiting(cfg, key, log, today, n), Waiting(cfg, key, paid, today, n - 1), end);
    }
  }

  lemma Quotient(a: real, b: real)
    requires b > 0.0
    ensures b * (a / b) == a && (a >= 0.0 ==> a / b >= 0.0)
  {
  }

  lemma Scale(a: real, b: real, c: Amount)
    requires a <= b
    ensures c * a <= b * c
  {
  }

  lemma Divide(n: real, x: real, c: real)
    requires n > 0.0 && n * x <= n * c
    ensures x <= c
  {
  }

  lemma Fits(total: real, c: Amount, n: real, x: real)
    requires c > 0.0 && n > 0.0 && total / c <= n && n * x == total
    ensures x <= c
  {
    Quotient(total, c);
    Scale(total / c, n, c);
    Divide(n, x, c);
  }

  /** A total split into equal parts of at most c. */
  lemma Split(total: Amount, c: Amount) returns (n: nat, x: Amount)
    requires c > 0.0
    ensures x <= c && n as real * x == total
  {
    Quotient(total, c);
    n := (total / c).Floor + 1;
    Quotient(total, n as real);
    x := total / n as real;
    Fits(total, c, n as real, x);
  }

  lemma TightRun(cfg: Config, key: string, layer: Layer, c: Amount, k: nat, today: Date, margin: real)
    returns (es: seq<Event>)
    requires Alone(cfg, key, layer) && c > 0.0 && k > 0 && margin > 0.0
    ensures Frugally(cfg, GateOf(cfg, key, layer), true, c, k, Start(today), es)
    ensures Spent(Run(cfg, Start(today), es).log, MeterOn(GateOf(cfg, key, layer), today))
          > Ceiling(GateOf(cfg, key, layer), c, k) - margin
  {
    var g := GateOf(cfg, key, layer);
    var limit := 199.0 * g.budget as real / 200.0;
    var total: Amount := if margin / 2.0 < limit then limit - margin / 2.0 else 0.0;
    var n, x := Split(total, c);
    var near := Paid(cfg, key, [], today, x, n);
    var end := Paid(cfg, key, near, today, c, k);
    PaidSpends(cfg, g, key, [], today, x, n);
    PaidSpends(cfg, g, key, near, today, c, k);
    assert Spent(end, MeterOn(g, today)) == total + k as real * c;
    SpendInTurn(cfg, key, layer, c, k, [], today, x, n);
    UnderCutoffPasses(cfg, key, layer, near, today);
    AllPass(cfg, g, key, c, k, near, today, k);
    AllPay(cfg, g, key, c, k, near, today, k);
    var s0, s1, s3 := Start(today), Waiting(cfg, key, near, today, 0), Waiting(cfg, key, end, today, 0);
    ReachTrans(cfg, g, true, c, k, s0, s1, Waiting(cfg, key, near, today, k));
    ReachTrans(cfg, g, true, c, k, s0, Waiting(cfg, key, near, today, k), s3);
    es :| Frugally(cfg, g, true, c, k, s0, es) && Run(cfg, s0, es) == s3;
  }

  /**
   The bound is the least one, for a workspace's and for a key's budgets: some run, restrained at
   the gate and with never more than K requests in flight, comes within any margin of it.
   */
  lemma BoundIsTight(cfg: Config, key: string, layer: Layer, c: Amount, k: nat, today: Date, margin: real)
    requires Alone(cfg, key, layer) && c > 0.0 && k > 0 && margin > 0.0
    ensures var g := GateOf(cfg, key, layer);
            exists es ::
              && Legal(cfg, Start(today), es) && Restrained(cfg, g, c, k, Start(today), es)
              && Frugal(cfg, g.owner, MeasureOf(layer), c, k, Start(today), es)
              && Spent(Run(cfg, Start(today), es).log, MeterOn(g, today))
               > 199.0 * g.budget as real / 200.0 + k as real * c - margin
  {
    var es := TightRun(cfg, key, layer, c, k, today, margin);
  }

  // ── Ways around a budget ──

  /** A frugal run above the ceiling refutes the bound. */
  lemma Exceeds(cfg: Config, g: Gate, c: Amount, k: nat, today: Date, es: seq<Event>)
    requires Legal(cfg, Start(today), es) && Frugal(cfg, g.owner, MeasureOf(g.layer), c, k, Start(today), es)
    requires Spent(Run(cfg, Start(today), es).log, MeterOn(g, today)) >= Ceiling(g, c, k)
    ensures !Bounds(cfg, g)
  {
  }

  lemma ReachExceeds(cfg: Config, g: Gate, c: Amount, k: nat, today: Date, s: State)
    requires Reach(cfg, g, false, c, k, Start(today), s) && Spent(s.log, MeterOn(g, today)) >= Ceiling(g, c, k)
    ensures !Bounds(cfg, g)
  {
    var es :| Frugally(cfg, g, false, c, k, Start(today), es) && Run(cfg, Start(today), es) == s;
    Exceeds(cfg, g, c, k, today, es);
  }

  function AgentCostRow(cfg: Config, agent: string, today: Date): LogRow
    requires agent in cfg.agents
  {
    RowOf(AgentRequest(cfg, agent), Record(0, None, None, 1.0, 0, 0), today)
  }

  function AgentLog(cfg: Config, agent: string, today: Date, n: nat): Log
    requires agent in cfg.agents
  {
    if n == 0 then [] else AgentLog(cfg, agent, today, n - 1) + [AgentCostRow(cfg, agent, today)]
  }

  lemma AgentInTurn(cfg: Config, g: Gate, agent: string, log: Log, today: Date)
    requires ActiveRow(cfg, agent) && MeasureOf(g.layer).Cost?
    ensures Reach(cfg, g, false, 1.0, 1, State(log, today, map[]),
                  State(log + [AgentCostRow(cfg, agent, today)], today, map[]))
  {
    var s, e := State(log, today, map[]), ArriveAgent(0, agent);
    var s', record := Apply(cfg, s, e), Record(0, None, None, 1.0, 0, 0);
    assert s'.requests.Keys == {0} && Apply(cfg, s', record).requests == map[];
    ReachStep(cfg, g, false, 1.0, 1, s, e);
    ReachStep(cfg, g, false, 1.0, 1, s', record);
    ReachTrans(cfg, g, false, 1.0, 1, s, s', Apply(cfg, s', record));
  }

  lemma {:induction false} AgentSpends(cfg: Config, g: Gate, agent: string, today: Date, n: nat)
    requires ActiveRow(cfg, agent) && MeasureOf(g.layer).Cost? && Charges(g.owner, AgentCostRow(cfg, agent, today))
    ensures Spent(AgentLog(cfg, agent, today, n), MeterOn(g, today)) == n as real
  {
    if n > 0 {
      AgentSpends(cfg, g, agent, today, n - 1);
      SpentAppend(AgentLog(cfg, agent, today, n - 1), AgentCostRow(cfg, agent, today), MeterOn(g, today));
    }
  }

  lemma {:induction false} AgentReaches(cfg: Config, g: Gate, agent: string, today: Date, n: nat)
    requires ActiveRow(cfg, agent) && MeasureOf(g.layer).Cost?
    ensures Reach(cfg, g, false, 1.0, 1, Start(today), State(AgentLog(cfg, agent, today, n), today, map[]))
  {
    var end := State(AgentLog(cfg, agent, today, n), today, map[]);
    if n == 0 {
      ReachSelf(cfg, g, false, 1.0, 1, end);
    } else {
      var log := AgentLog(cfg, agent, today, n - 1);
      AgentReaches(cfg, g, agent, today, n - 1);
      AgentInTurn(cfg, g, agent, log, today);
      ReachTrans(cfg, g, false, 1.0, 1, Start(today), State(log, today, map[]), end);
    }
  }

  function Above(x: real): (n: nat)
    ensures n as real >= x
  {
    if x <= 0.0 then 0 else x.Floor + 1
  }

  /** An active agent whose rows are charged to the owner defeats the budget, whatever else is configured. */
  lemma AgentKeyExceeds(cfg: Config, g: Gate, agent: string, today: Date)
    requires ActiveRow(cfg, agent) && MeasureOf(g.layer).Cost? && Charges(g.owner, AgentCostRow(cfg, agent, today))
    ensures !Bounds(cfg, g)
  {
    var n := Above(Ceiling(g, 1.0, 1));
    AgentSpends(cfg, g, agent, today, n);
    AgentReaches(cfg, g, agent, today, n);
    ReachExceeds(cfg, g, 1.0, 1, today, State(AgentLog(cfg, agent, today, n), today, map[]));
  }

  /** A live key that no layer bounds. */
  predicate Unlimited(cfg: Config, key: string) {
    LiveRow(cfg, key)
    && var subject := NewRequest(cfg, key, None).subject;
    forall layer | layer in Layers(subject) :: BudgetOf(cfg, layer, subject) <= 0
  }

  lemma UnlimitedPasses(cfg: Config, key: string, log: Log, today: Date)
    requires Unlimited(cfg, key)
    ensures Passes(cfg, key, log, today)
  {
    NoAlertIff(cfg, Moment(log, today), NewRequest(cfg, key, None).subject);
  }

  lemma {:induction false} SpendFreely(cfg: Config, g: Gate, key: string, log: Log, today: Date, n: nat)
    requires Unlimited(cfg, key) && Watches(cfg, g, key)
    ensures Reach(cfg, g, false, 1.0, 1, State(log, today, map[]),
                  State(Paid(cfg, key, log, today, 1.0, n), today, map[]))
    decreases n
  {
    var s, end := State(log, today, map[]), State(Paid(cfg, key, log, today, 1.0, n), today, map[]);
    if n == 0 {
      ReachSelf(cfg, g, false, 1.0, 1, s);
    } else {
      var one := log + [CostRow(cfg, key, today, 1.0)];
      UnlimitedPasses(cfg, key, log, today);
      OneInTurn(cfg, g, false, key, 1.0, 1, log, today, 1.0);
      SpendFreely(cfg, g, key, one, today, n - 1);
      ReachTrans(cfg, g, false, 1.0, 1, s, State(one, today, map[]), end);
    }
  }

  lemma UnlimitedKeyExceeds(cfg: Config, g: Gate, key: string, today: Date)
    requires Unlimited(cfg, key) && Watches(cfg, g, key)
    ensures !Bounds(cfg, g)
  {
    var n := Above(Ceiling(g, 1.0, 1));
    SpendFreely(cfg, g, key, [], today, n);
    PaidSpends(cfg, g, key, [], today, 1.0, n);
    ReachExceeds(cfg, g, 1.0, 1, today, State(Paid(cfg, key, [], today, 1.0, n), today, map[]));
  }

  lemma LargerRunExceeds(cfg: Config, g: Gate, own: Gate, today: Date, es: seq<Event>)
    requires own.layer == g.layer && own.owner == g.owner
    requires Legal(cfg, Start(today), es) && Frugal(cfg, g.owner, MeasureOf(g.layer), 1.0, 1, Start(today), es)
    requires Spent(Run(cfg, Start(today), es).log, MeterOn(own, today)) > Ceiling(g, 1.0, 1)
    ensures !Bounds(cfg, g)
  {
    Exceeds(cfg, g, 1.0, 1, today, es);
  }

  /** A key bounded by a larger budget alone comes close to its own ceiling, above the gate's. */
  lemma LargerKeyExceeds(cfg: Config, g: Gate, key: string, today: Date)
    requires Alone(cfg, key, g.layer) && g.owner == GateOf(cfg, key, g.layer).owner
    requires GateOf(cfg, key, g.layer).budget > g.budget
    ensures !Bounds(cfg, g)
  {
    var own := GateOf(cfg, key, g.layer);
    var es := TightRun(cfg, key, g.layer, 1.0, 1, today, Ceiling(own, 1.0, 1) - Ceiling(g, 1.0, 1));
    LargerRunExceeds(cfg, g, own, today, es);
  }

  // ── Exactly when a budget bounds its owner ──

  /** A workspace budget bounds the workspace exactly when no active agent belongs to it. */
  lemma WorkspaceBoundIff(cfg: Config, layer: Layer, workspace: string)
    requires layer in [WorkspaceDaily, WorkspaceMonthly] && WorkspaceGate(cfg, layer, workspace).budget > 0
    ensures Bounds(cfg, WorkspaceGate(cfg, layer, workspace)) <==> NoAgentOf(cfg, workspace)
  {
    var g := WorkspaceGate(cfg, layer, workspace);
    WorkspaceArrivals(cfg, layer, workspace);
    if agent :| ActiveRow(cfg, agent) && cfg.agents[agent].workspace == workspace {
      AgentKeyExceeds(cfg, g, agent, Date(2000, 1, 1));
    } else {
      CoveredIsBounded(cfg, g);
    }
  }

  /** Besides one key layer, nothing bounds the live keys of the user. */
  ghost predicate NothingElse(cfg: Config, layer: Layer, workspace: string, user: string) {
    forall key, other | KeyOf(cfg, key, workspace, user) && other in Layers(NewRequest(cfg, key, None).subject)
                        && other != layer ::
      BudgetOf(cfg, other, NewRequest(cfg, key, None).subject) <= 0
  }

  lemma UncoveredKeyExceeds(cfg: Config, layer: Layer, workspace: string, user: string, limit: int, key: string)
    requires layer in [KeyDaily, KeyMonthly] && key != "" && NothingElse(cfg, layer, workspace, user)
    requires KeyOf(cfg, key, workspace, user) && !(0 < LimitOf(layer, cfg.keys[key].limits) <= limit)
    ensures !Bounds(cfg, Gate(layer, OfUser(workspace, user), limit))
  {
    var g, subject := Gate(layer, OfUser(workspace, user), limit), NewRequest(cfg, key, None).subject;
    assert BudgetOf(cfg, layer, subject) == LimitOf(layer, cfg.keys[key].limits);
    assert Layers(subject)[if layer.KeyDaily? then 2 else 3] == layer;
    if LimitOf(layer, cfg.keys[key].limits) <= 0 {
      UnlimitedKeyExceeds(cfg, g, key, Date(2000, 1, 1));
    } else {
      LargerKeyExceeds(cfg, g, key, Date(2000, 1, 1));
    }
  }

  /**
   A key budget bounds its user when every live key of the user has a positive limit no larger than
   it and no active agent of the user is in the workspace; where nothing else bounds the
   user's keys, only then.
   */
  lemma UserBoundIff(cfg: Config, layer: Layer, workspace: string, user: string, limit: int)
    requires layer in [KeyDaily, KeyMonthly] && limit > 0 && "" !in cfg.keys
    ensures var bounds := Bounds(cfg, Gate(layer, OfUser(workspace, user), limit));
            && (UserCovered(cfg, layer, workspace, user, limit) ==> bounds)
            && (bounds ==> forall agent | ActiveRow(cfg, agent) ::
                    !(cfg.agents[agent].workspace == workspace && cfg.agents[agent].user == user))
            && (bounds && NothingElse(cfg, layer, workspace, user) ==>
                  UserCovered(cfg, layer, workspace, user, limit))
  {
    var g := Gate(layer, OfUser(workspace, user), limit);
    UserArrivals(cfg, layer, workspace, user, limit);
    if UserCovered(cfg, layer, workspace, user, limit) {
      CoveredIsBounded(cfg, g);
    } else if agent :| ActiveRow(cfg, agent) && cfg.agents[agent].workspace == workspace
                       && cfg.agents[agent].user == user {
      AgentKeyExceeds(cfg, g, agent, Date(2000, 1, 1));
    } else if NothingElse(cfg, layer, workspace, user) {
      var key :| KeyOf(cfg, key, workspace, user) && !(0 < LimitOf(layer, cfg.keys[key].limits) <= limit);
      UncoveredKeyExceeds(cfg, layer, workspace, user, limit, key);
    }
  }
}
