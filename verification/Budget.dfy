/**
 Budget enforcement (admin-api/src/services/budget.ts): spend is a sum over the
 append-only request log, every budget layer turns it into a rounded percentage and a
 level, and a request is judged by the most severe layer.

 Money and percentages are exact reals; `Math.round(x)` is the floor of x + 1/2.
 */
module Budget {
  import opened Wrappers
  import opened Sorting

  // ── The request log ──

  datatype Date = Date(year: int, month: int, day: int)

  predicate NotAfter(a: Date, b: Date) {
    a.year < b.year || (a.year == b.year && (a.month < b.month || (a.month == b.month && a.day <= b.day)))
  }

  type Amount = r: real | r >= 0.0 witness 0.0

  datatype LogRow = LogRow(
    workspace: Option<string>, user: Option<string>, agent: Option<string>,
    binding: Option<string>, apiKey: Option<string>,
    tokensIn: nat, tokensOut: nat, cost: Amount, date: Date)

  type Log = seq<LogRow>

  // ── Meters: what a SUM query adds up ──

  datatype Owner =
    | OfWorkspace(workspace: string)
    | OfUser(member: string, user: string)   // the join on workspace_id and user_id
    | OfAgent(agent: string)
    | OfBinding(binding: string)
    | OfKey(key: string)                     // api_key_id, for the settings page only

  datatype Measure = Cost | Tokens
  datatype Period = Day(date: Date) | Month(year: int, month: int)
  datatype Meter = Meter(owner: Owner, measure: Measure, period: Period)

  predicate Charges(owner: Owner, row: LogRow) {
    match owner
    case OfWorkspace(w) => row.workspace == Some(w)
    case OfUser(w, u) => row.workspace == Some(w) && row.user == Some(u)
    case OfAgent(a) => row.agent == Some(a)
    case OfBinding(b) => row.binding == Some(b)
    case OfKey(k) => row.apiKey == Some(k)
  }

  predicate Within(period: Period, date: Date) {
    match period
    case Day(d) => date == d
    case Month(y, m) => date.year == y && date.month == m
  }

  function Quantity(measure: Measure, row: LogRow): Amount {
    match measure
    case Cost => row.cost
    case Tokens => (row.tokensIn + row.tokensOut) as real
  }

  function Contribution(m: Meter, row: LogRow): Amount {
    if Charges(m.owner, row) && Within(m.period, row.date) then Quantity(m.measure, row) else 0.0
  }

  function Spent(log: Log, m: Meter): Amount {
    if log == [] then 0.0 else Contribution(m, log[0]) + Spent(log[1..], m)
  }

  lemma {:induction false} SpentConcat(a: Log, b: Log, m: Meter)
    ensures Spent(a + b, m) == Spent(a, m) + Spent(b, m)
  {
    if a == [] {
      assert a + b == b;
    } else {
      assert (a + b)[1..] == a[1..] + b;
      SpentConcat(a[1..], b, m);
    }
  }

  lemma SpentAppend(log: Log, row: LogRow, m: Meter)
    ensures Spent(log + [row], m) == Spent(log, m) + Contribution(m, row)
  {
    SpentConcat(log, [row], m);
    assert Spent([row], m) == Contribution(m, row) + Spent([], m);
  }

  /** An append-only log never lowers a sum. */
  lemma SpentGrows(a: Log, b: Log, m: Meter)
    requires a <= b
    ensures Spent(a, m) <= Spent(b, m)
  {
    assert b == a + b[|a|..];
    SpentConcat(a, b[|a|..], m);
  }

  // ── Levels ──

  datatype Level = Normal | Warning | Throttle | Cutoff

  function Round(x: real): int {
    (x + 0.5).Floor
  }

  function GetLevel(percent: int): Level {
    if percent >= 100 then Cutoff
    else if percent >= 85 then Throttle
    else if percent >= 70 then Warning
    else Normal
  }

  function Severity(level: Level): nat {
    match level
    case Normal => 0
    case Warning => 1
    case Throttle => 2
    case Cutoff => 3
  }

  function Percent(spent: Amount, budget: int): int
    requires budget != 0
  {
    Round(spent / (budget as real) * 100.0)
  }

  /** A percentage p is reached half a point early: at 2p - 1 two-hundredths of the budget. */
  lemma PercentReached(spent: Amount, budget: int, p: int)
    requires budget > 0
    ensures Percent(spent, budget) >= p <==> 200.0 * spent >= (2 * p - 1) as real * budget as real
  {
    var b := budget as real;
    var q := spent / b;
    assert q * b == spent;
    var t := (2 * p - 1) as real;
    assert Percent(spent, budget) >= p <==> q * 200.0 >= t;
    if q * 200.0 >= t {
      assert (q * 200.0 - t) * b >= 0.0;
    } else {
      assert (t - q * 200.0) * b > 0.0;
    }
    assert (q * 200.0) * b == 200.0 * spent;
  }

  /** A negative budget never alerts: its percentage is at most zero. */
  lemma NegativeBudget(spent: Amount, budget: int)
    requires budget < 0
    ensures Percent(spent, budget) <= 0
  {
    var b := budget as real;
    var q := spent / b;
    assert q * b == spent;
    assert q <= 0.0;
  }

  /** The exact spend at which each level begins. */
  lemma LevelThresholds(spent: Amount, budget: int)
    requires budget > 0
    ensures GetLevel(Percent(spent, budget)) == Cutoff <==> 200.0 * spent >= 199.0 * budget as real
    ensures Severity(GetLevel(Percent(spent, budget))) >= 2 <==> 200.0 * spent >= 169.0 * budget as real
    ensures GetLevel(Percent(spent, budget)) != Normal <==> 200.0 * spent >= 139.0 * budget as real
  {
    PercentReached(spent, budget, 100);
    PercentReached(spent, budget, 85);
    PercentReached(spent, budget, 70);
  }

  lemma LevelGrows(a: Amount, b: Amount, budget: int)
    requires a <= b && budget != 0
    ensures Severity(GetLevel(Percent(a, budget))) <= Severity(GetLevel(Percent(b, budget)))
  {
    if budget > 0 {
      LevelThresholds(a, budget);
      LevelThresholds(b, budget);
    } else {
      NegativeBudget(a, budget);
    }
  }

  // ── The six layers ──

  datatype Limits = Limits(daily: int, monthly: int)
  datatype KeyRow = KeyRow(workspace: string, user: string, revoked: bool, limits: Limits)
  datatype AgentRow = AgentRow(workspace: string, user: string, active: bool, dailyTokens: int, monthlyCost: int)
  datatype Config = Config(
    workspaces: map<string, Limits>, keys: map<string, KeyRow>, agents: map<string, AgentRow>)

  /** Who a request is checked for: workspace, API key, agent. */
  datatype Subject = Subject(workspace: string, key: Option<string>, agent: Option<string>)

  datatype Layer = WorkspaceDaily | WorkspaceMonthly | KeyDaily | KeyMonthly | AgentDaily | AgentMonthly

  function Layers(subject: Subject): seq<Layer> {
    [WorkspaceDaily, WorkspaceMonthly]
    + (if Truthy(subject.key) then [KeyDaily, KeyMonthly] else [])
    + (if Truthy(subject.agent) then [AgentDaily, AgentMonthly] else [])
  }

  predicate LiveKey(cfg: Config, subject: Subject) {
    subject.key.Some? && subject.key.value in cfg.keys
    && var k := cfg.keys[subject.key.value]; k.workspace == subject.workspace && !k.revoked
  }

  /** The configured budget of a layer; 0 stands for a missing row, a NULL and a zero alike. */
  function BudgetOf(cfg: Config, layer: Layer, subject: Subject): int {
    match layer
    case WorkspaceDaily => if subject.workspace in cfg.workspaces then cfg.workspaces[subject.workspace].daily else 0
    case WorkspaceMonthly => if subject.workspace in cfg.workspaces then cfg.workspaces[subject.workspace].monthly
    else 0
    case KeyDaily => if LiveKey(cfg, subject) then cfg.keys[subject.key.value].limits.daily else 0
    case KeyMonthly => if LiveKey(cfg, subject) then cfg.keys[subject.key.value].limits.monthly else 0
    case AgentDaily =>
      if subject.agent.Some? && subject.agent.value in cfg.agents then cfg.agents[subject.agent.value].dailyTokens
      else 0
    case AgentMonthly =>
      if subject.agent.Some? && subject.agent.value in cfg.agents then cfg.agents[subject.agent.value].monthlyCost
      else 0
  }

  function OwnerOf(cfg: Config, layer: Layer, subject: Subject): Owner
    requires BudgetOf(cfg, layer, subject) != 0
  {
    match layer
    case WorkspaceDaily | WorkspaceMonthly => OfWorkspace(subject.workspace)
    case KeyDaily | KeyMonthly => OfUser(subject.workspace, cfg.keys[subject.key.value].user)
    case AgentDaily | AgentMonthly => OfAgent(subject.agent.value)
  }

  function MeasureOf(layer: Layer): Measure {
    if layer.AgentDaily? then Tokens else Cost
  }

  function PeriodOf(layer: Layer, today: Date): Period {
    match layer
    case WorkspaceDaily | KeyDaily | AgentDaily => Day(today)
    case WorkspaceMonthly | KeyMonthly | AgentMonthly => Month(today.year, today.month)
  }

  datatype CheckResult = CheckResult(layer: Layer, level: Level, budgeted: int, spent: Amount, percent: int)

  /** What one SUM query sees: the log and the date at that await. */
  datatype Moment = Moment(log: Log, today: Date)

  function Check(cfg: Config, at: Moment, layer: Layer, subject: Subject): Option<CheckResult> {
    var budget := BudgetOf(cfg, layer, subject);
    if budget == 0 then None else
    var spent := Spent(at.log, Meter(OwnerOf(cfg, layer, subject), MeasureOf(layer), PeriodOf(layer, at.today)));
    var percent := Percent(spent, budget);
    var level := GetLevel(percent);
    if level == Normal then None else Some(CheckResult(layer, level, budget, spent, percent))
  }

  // ── The most severe result ──

  type Reading = Option<CheckResult>

  function Grade(r: Reading): nat {
    if r.None? then 0 else Severity(r.value.level)
  }

  /** The earliest reading of greatest severity. */
  function Worst(readings: seq<Reading>): Reading {
    if readings == [] then None else
    var w := Worst(readings[1..]);
    if readings[0].Some? && Grade(readings[0]) >= Grade(w) then readings[0] else w
  }

  ghost predicate Alerting(readings: seq<Reading>) {
    forall i | 0 <= i < |readings| :: readings[i].Some? ==> Grade(readings[i]) > 0
  }

  ghost predicate EarliestMaximum(readings: seq<Reading>, i: int) {
    0 <= i < |readings| && readings[i].Some?
    && (forall j | 0 <= j < |readings| :: Grade(readings[j]) <= Grade(readings[i]))
    && (forall j | 0 <= j < i :: Grade(readings[j]) < Grade(readings[i]))
  }

  lemma {:induction false} WorstIsEarliestMaximum(readings: seq<Reading>)
    requires Alerting(readings)
    ensures Worst(readings).None? <==> forall i | 0 <= i < |readings| :: readings[i].None?
    ensures Worst(readings).Some? ==> exists i :: EarliestMaximum(readings, i) && readings[i] == Worst(readings)
    ensures forall i | 0 <= i < |readings| :: Grade(readings[i]) <= Grade(Worst(readings))
  {
    if readings != [] {
      var t := readings[1..];
      assert forall i | 0 <= i < |t| :: t[i] == readings[i + 1];
      assert forall i | 0 < i < |readings| :: readings[i] == t[i - 1];
      WorstIsEarliestMaximum(t);
      if readings[0].Some? && Grade(readings[0]) >= Grade(Worst(t)) {
        assert EarliestMaximum(readings, 0);
      } else if Worst(t).Some? {
        var i :| EarliestMaximum(t, i) && t[i] == Worst(t);
        assert EarliestMaximum(readings, i + 1);
      }
    }
  }

  function Somes(readings: seq<Reading>): seq<CheckResult> {
    if readings == [] then []
    else if readings[0].Some? then [readings[0].value] + Somes(readings[1..])
    else Somes(readings[1..])
  }

  lemma {:induction false} SomesAppend(a: seq<Reading>, r: Reading)
    ensures Somes(a + [r]) == Somes(a) + if r.Some? then [r.value] else []
  {
    if a != [] {
      assert (a + [r])[1..] == a[1..] + [r];
      SomesAppend(a[1..], r);
    }
  }

  /** The comparator `severity[b.level] - severity[a.level]`: most severe first. */
  function BySeverity(r: CheckResult): real {
    -(Severity(r.level) as real)
  }

  lemma {:induction false} SortedHeadIsWorst(readings: seq<Reading>)
    ensures |Sort(Somes(readings), BySeverity)| == |Somes(readings)|
    ensures Worst(readings) ==
            if Somes(readings) == [] then None else Some(Sort(Somes(readings), BySeverity)[0])
  {
    SortIsStable(Somes(readings), BySeverity);
    if readings != [] {
      SortedHeadIsWorst(readings[1..]);
      if readings[0].Some? {
        assert Somes(readings)[1..] == Somes(readings[1..]);
      }
    }
  }

  /** What each layer reports when layer i is read at moment i. */
  function Readings(cfg: Config, moments: seq<Moment>, subject: Subject): seq<Reading>
    requires |moments| == |Layers(subject)|
  {
    seq(|moments|, i requires 0 <= i < |moments| => Check(cfg, moments[i], Layers(subject)[i], subject))
  }

  /** The verdict of a check whose reads fall at the given moments. */
  function Verdict(cfg: Config, moments: seq<Moment>, subject: Subject): Reading
    requires |moments| == |Layers(subject)|
  {
    Worst(Readings(cfg, moments, subject))
  }

  /** The verdict is the earliest alert of greatest severity, and null iff no layer alerts. */
  lemma VerdictIsMostSevere(cfg: Config, moments: seq<Moment>, subject: Subject)
    requires |moments| == |Layers(subject)|
    ensures var rs, v := Readings(cfg, moments, subject), Verdict(cfg, moments, subject);
            (v.None? <==> forall i | 0 <= i < |rs| :: rs[i].None?)
            && (v.Some? ==> exists i :: EarliestMaximum(rs, i) && rs[i] == v)
  {
    WorstIsEarliestMaximum(Readings(cfg, moments, subject));
  }

  /** One layer of `checkAllBudgets`: read it, and push its alert if there is one. */
  method PushAlert(cfg: Config, moments: seq<Moment>, k: nat, layer: Layer, subject: Subject, results: seq<CheckResult>)
    returns (pushed: seq<CheckResult>)
    requires |moments| == |Layers(subject)| && k < |moments| && Layers(subject)[k] == layer
    requires results == Somes(Readings(cfg, moments, subject)[..k])
    ensures pushed == Somes(Readings(cfg, moments, subject)[..k + 1])
  {
    var reading := Check(cfg, moments[k], layer, subject);
    ghost var rs := Readings(cfg, moments, subject);
    SomesAppend(rs[..k], reading);
    assert rs[..k + 1] == rs[..k] + [reading];
    pushed := if reading.Some? then results + [reading.value] else results;
  }

  /**
   `checkAllBudgets`: each layer is read at its own moment, alerts are collected, sorted
   most severe first, and the head is returned.
   */
  method CheckAllBudgets(cfg: Config, moments: seq<Moment>, subject: Subject) returns (r: Reading)
    requires |moments| == |Layers(subject)|
    ensures r == Verdict(cfg, moments, subject)
  {
    var results: seq<CheckResult> := [];
    results := PushAlert(cfg, moments, 0, WorkspaceDaily, subject, results);
    results := PushAlert(cfg, moments, 1, WorkspaceMonthly, subject, results);
    var k := 2;
    if Truthy(subject.key) {
      results := PushAlert(cfg, moments, 2, KeyDaily, subject, results);
      results := PushAlert(cfg, moments, 3, KeyMonthly, subject, results);
      k := 4;
    }
    if Truthy(subject.agent) {
      results := PushAlert(cfg, moments, k, AgentDaily, subject, results);
      results := PushAlert(cfg, moments, k + 1, AgentMonthly, subject, results);
      k := k + 2;
    }
    ghost var rs := Readings(cfg, moments, subject);
    assert rs[..k] == rs;
    SortedHeadIsWorst(rs);
    if |results| == 0 { return None; }
    results := Sort(results, BySeverity);
    return Some(results[0]);
  }

  // ── A check interleaved with new log rows ──

  /** A check made at a single moment. */
  function Atomic(cfg: Config, at: Moment, subject: Subject): Reading {
    Verdict(cfg, seq(|Layers(subject)|, _ => at), subject)
  }

  /** An atomic check answers null exactly when every layer is unset or under 69.5% of its budget. */
  lemma NoAlertIff(cfg: Config, at: Moment, subject: Subject)
    ensures Atomic(cfg, at, subject).None? <==>
            forall layer | layer in Layers(subject) ::
              var budget := BudgetOf(cfg, layer, subject);
              budget <= 0
              || 200.0 * Spent(at.log, Meter(OwnerOf(cfg, layer, subject), MeasureOf(layer), PeriodOf(layer, at.today)))
               < 139.0 * budget as real
  {
    var layers := Layers(subject);
    var moments := seq(|layers|, _ => at);
    var rs := Readings(cfg, moments, subject);
    VerdictIsMostSevere(cfg, moments, subject);
    forall layer | layer in layers
      ensures Check(cfg, at, layer, subject).None? <==>
              var budget := BudgetOf(cfg, layer, subject);
              budget <= 0
              || 200.0 * Spent(at.log, Meter(OwnerOf(cfg, layer, subject), MeasureOf(layer), PeriodOf(layer, at.today)))
               < 139.0 * budget as real
    {
      QuietIff(cfg, at, layer, subject);
    }
    assert forall i | 0 <= i < |rs| :: rs[i] == Check(cfg, at, layers[i], subject);
  }

  lemma QuietIff(cfg: Config, at: Moment, layer: Layer, subject: Subject)
    ensures Check(cfg, at, layer, subject).None? <==>
            var budget := BudgetOf(cfg, layer, subject);
            budget <= 0
            || 200.0 * Spent(at.log, Meter(OwnerOf(cfg, layer, subject), MeasureOf(layer), PeriodOf(layer, at.today)))
             < 139.0 * budget as real
  {
    var budget := BudgetOf(cfg, layer, subject);
    if budget != 0 {
      var spent := Spent(at.log, Meter(OwnerOf(cfg, layer, subject), MeasureOf(layer), PeriodOf(layer, at.today)));
      if budget > 0 { LevelThresholds(spent, budget); } else { NegativeBudget(spent, budget); }
    }
  }

  lemma CheckGrows(cfg: Config, a: Moment, b: Moment, layer: Layer, subject: Subject)
    requires a.log <= b.log && a.today == b.today
    ensures Grade(Check(cfg, a, layer, subject)) <= Grade(Check(cfg, b, layer, subject))
  {
    var budget := BudgetOf(cfg, layer, subject);
    if budget != 0 {
      var m := Meter(OwnerOf(cfg, layer, subject), MeasureOf(layer), PeriodOf(layer, a.today));
      SpentGrows(a.log, b.log, m);
      LevelGrows(Spent(a.log, m), Spent(b.log, m), budget);
    }
  }

  lemma WorstGrows(a: seq<Reading>, b: seq<Reading>)
    requires |a| == |b| && Alerting(a) && Alerting(b)
    requires forall i | 0 <= i < |a| :: Grade(a[i]) <= Grade(b[i])
    ensures Grade(Worst(a)) <= Grade(Worst(b))
  {
    WorstIsEarliestMaximum(a);
    WorstIsEarliestMaximum(b);
  }

  /**
   With the date and the budgets fixed, log rows that arrive between the reads can move
   the verdict only between that of an atomic check at the first read and at the last.
   */
  lemma InterleavedCheckIsSandwiched(cfg: Config, moments: seq<Moment>, subject: Subject, first: Moment, last: Moment)
    requires |moments| == |Layers(subject)|
    requires forall i | 0 <= i < |moments| :: first.log <= moments[i].log <= last.log
    requires forall i | 0 <= i < |moments| :: first.today == moments[i].today == last.today
    ensures Grade(Atomic(cfg, first, subject)) <= Grade(Verdict(cfg, moments, subject))
    ensures Grade(Verdict(cfg, moments, subject)) <= Grade(Atomic(cfg, last, subject))
  {
    var n := |Layers(subject)|;
    var lo, mid, hi := Readings(cfg, seq(n, _ => first), subject), Readings(cfg, moments, subject),
                       Readings(cfg, seq(n, _ => last), subject);
    forall i | 0 <= i < n ensures Grade(lo[i]) <= Grade(mid[i]) <= Grade(hi[i]) {
      CheckGrows(cfg, first, moments[i], Layers(subject)[i], subject);
      CheckGrows(cfg, moments[i], last, Layers(subject)[i], subject);
    }
    WorstGrows(lo, mid);
    WorstGrows(mid, hi);
  }
}
