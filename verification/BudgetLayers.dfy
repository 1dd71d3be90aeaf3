/**
 The six budget layers spelled out (admin-api/src/services/budget.ts:155-289): whose rows each one
 sums, over which period, against which column, and at which spend it says what.
 */
module BudgetLayers {
  import opened Wrappers
  import opened Budget

  // ── The sums ──

  /** A new row adds its cost, or its tokens, to the sums of its owners in its own day and month, and to no other. */
  lemma RowAdds(log: Log, row: LogRow, w: string, u: string, a: string, day: Date, year: int, month: int)
    ensures Spent(log + [row], Meter(OfWorkspace(w), Cost, Day(day)))
         == Spent(log, Meter(OfWorkspace(w), Cost, Day(day)))
            + if row.workspace == Some(w) && row.date == day then row.cost else 0.0
    ensures Spent(log + [row], Meter(OfWorkspace(w), Cost, Month(year, month)))
         == Spent(log, Meter(OfWorkspace(w), Cost, Month(year, month)))
            + if row.workspace == Some(w) && row.date.year == year && row.date.month == month then row.cost else 0.0
    ensures Spent(log + [row], Meter(OfUser(w, u), Cost, Day(day)))
         == Spent(log, Meter(OfUser(w, u), Cost, Day(day)))
            + if row.workspace == Some(w) && row.user == Some(u) && row.date == day then row.cost else 0.0
    ensures Spent(log + [row], Meter(OfUser(w, u), Cost, Month(year, month)))
         == Spent(log, Meter(OfUser(w, u), Cost, Month(year, month)))
            + if row.workspace == Some(w) && row.user == Some(u) && row.date.year == year && row.date.month == month
            then row.cost else 0.0
    ensures Spent(log + [row], Meter(OfAgent(a), Tokens, Day(day)))
         == Spent(log, Meter(OfAgent(a), Tokens, Day(day)))
            + if row.agent == Some(a) && row.date == day then row.tokensIn as real + row.tokensOut as real else 0.0
    ensures Spent(log + [row], Meter(OfAgent(a), Cost, Month(year, month)))
         == Spent(log, Meter(OfAgent(a), Cost, Month(year, month)))
            + if row.agent == Some(a) && row.date.year == year && row.date.month == month then row.cost else 0.0
  {
    SpentAppend(log, row, Meter(OfWorkspace(w), Cost, Day(day)));
    SpentAppend(log, row, Meter(OfWorkspace(w), Cost, Month(year, month)));
    SpentAppend(log, row, Meter(OfUser(w, u), Cost, Day(day)));
    SpentAppend(log, row, Meter(OfUser(w, u), Cost, Month(year, month)));
    SpentAppend(log, row, Meter(OfAgent(a), Tokens, Day(day)));
    SpentAppend(log, row, Meter(OfAgent(a), Cost, Month(year, month)));
  }

  lemma NothingInEmptyLog(m: Meter)
    ensures Spent([], m) == 0.0
  {
  }

  // ── What one layer reports ──

  /**
   Silent under 69.5% of the budget, then a warning, from 84.5% throttling and from 99.5% a
   cutoff, each with the budget, the spend and the nearest whole percentage.
   */
  ghost predicate Reports(r: Reading, layer: Layer, budget: int, spent: Amount) {
    var b := budget as real;
    && (r.None? <==> 200.0 * spent < 139.0 * b)
    && (r.Some? ==>
          && r.value.layer == layer && r.value.budgeted == budget && r.value.spent == spent
          && (r.value.level == Warning <==> 200.0 * spent < 169.0 * b)
          && (r.value.level == Throttle <==> 169.0 * b <= 200.0 * spent < 199.0 * b)
          && (r.value.level == Cutoff <==> 199.0 * b <= 200.0 * spent)
          && (2 * r.value.percent - 1) as real * b <= 200.0 * spent < (2 * r.value.percent + 1) as real * b)
  }

  lemma CheckReports(cfg: Config, at: Moment, layer: Layer, subject: Subject, m: Meter)
    requires BudgetOf(cfg, layer, subject) > 0
    requires m == Meter(OwnerOf(cfg, layer, subject), MeasureOf(layer), PeriodOf(layer, at.today))
    ensures Reports(Check(cfg, at, layer, subject), layer, BudgetOf(cfg, layer, subject), Spent(at.log, m))
  {
    LevelThresholds(Spent(at.log, m), BudgetOf(cfg, layer, subject));
    NearestPercent(Spent(at.log, m), BudgetOf(cfg, layer, subject));
  }

  lemma NearestPercent(spent: Amount, budget: int)
    requires budget > 0
    ensures (2 * Percent(spent, budget) - 1) as real * budget as real <= 200.0 * spent
    ensures 200.0 * spent < (2 * Percent(spent, budget) + 1) as real * budget as real
  {
    var p := Percent(spent, budget);
    PercentReached(spent, budget, p);
    PercentReached(spent, budget, p + 1);
    assert 2 * (p + 1) - 1 == 2 * p + 1;
  }

  lemma WorkspaceReports(cfg: Config, at: Moment, subject: Subject)
    requires subject.workspace in cfg.workspaces
    ensures var limits, w := cfg.workspaces[subject.workspace], subject.workspace;
            && (limits.daily > 0 ==>
                  Reports(Check(cfg, at, WorkspaceDaily, subject), WorkspaceDaily, limits.daily,
                          Spent(at.log, Meter(OfWorkspace(w), Cost, Day(at.today)))))
            && (limits.monthly > 0 ==>
                  Reports(Check(cfg, at, WorkspaceMonthly, subject), WorkspaceMonthly, limits.monthly,
                          Spent(at.log, Meter(OfWorkspace(w), Cost, Month(at.today.year, at.today.month)))))
  {
    var limits, w := cfg.workspaces[subject.workspace], subject.workspace;
    if limits.daily > 0 { CheckReports(cfg, at, WorkspaceDaily, subject, Meter(OfWorkspace(w), Cost, Day(at.today))); }
    if limits.monthly > 0 {
      CheckReports(cfg, at, WorkspaceMonthly, subject,
                   Meter(OfWorkspace(w), Cost, Month(at.today.year, at.today.month)));
    }
  }

  /** A key that the query finds: of this workspace and not revoked. */
  predicate Found(cfg: Config, workspace: string, key: Option<string>) {
    key.Some? && key.value in cfg.keys
    && cfg.keys[key.value].workspace == workspace && cfg.keys[key.value].revoked == false
  }

  lemma KeyReports(cfg: Config, at: Moment, subject: Subject)
    requires Found(cfg, subject.workspace, subject.key)
    ensures var key, w := cfg.keys[subject.key.value], subject.workspace;
            && (key.limits.daily > 0 ==>
                  Reports(Check(cfg, at, KeyDaily, subject), KeyDaily, key.limits.daily,
                          Spent(at.log, Meter(OfUser(w, key.user), Cost, Day(at.today)))))
            && (key.limits.monthly > 0 ==>
                  Reports(Check(cfg, at, KeyMonthly, subject), KeyMonthly, key.limits.monthly,
                          Spent(at.log, Meter(OfUser(w, key.user), Cost, Month(at.today.year, at.today.month)))))
  {
    var key, w := cfg.keys[subject.key.value], subject.workspace;
    if key.limits.daily > 0 {
      CheckReports(cfg, at, KeyDaily, subject, Meter(OfUser(w, key.user), Cost, Day(at.today)));
    }
    if key.limits.monthly > 0 {
      CheckReports(cfg, at, KeyMonthly, subject,
                   Meter(OfUser(w, key.user), Cost, Month(at.today.year, at.today.month)));
    }
  }

  lemma AgentReports(cfg: Config, at: Moment, subject: Subject, agent: string)
    requires subject.agent == Some(agent) && agent in cfg.agents
    ensures var row := cfg.agents[agent];
            && (row.dailyTokens > 0 ==>
                  Reports(Check(cfg, at, AgentDaily, subject), AgentDaily, row.dailyTokens,
                          Spent(at.log, Meter(OfAgent(agent), Tokens, Day(at.today)))))
            && (row.monthlyCost > 0 ==>
                  Reports(Check(cfg, at, AgentMonthly, subject), AgentMonthly, row.monthlyCost,
                          Spent(at.log, Meter(OfAgent(agent), Cost, Month(at.today.year, at.today.month)))))
  {
    var row := cfg.agents[agent];
    if row.dailyTokens > 0 {
      CheckReports(cfg, at, AgentDaily, subject, Meter(OfAgent(agent), Tokens, Day(at.today)));
    }
    if row.monthlyCost > 0 {
      CheckReports(cfg, at, AgentMonthly, subject,
                   Meter(OfAgent(agent), Cost, Month(at.today.year, at.today.month)));
    }
  }

  /** A row that is missing, or whose budget is zero or negative, never alerts. */
  lemma UnsetIsSilent(cfg: Config, at: Moment, subject: Subject)
    ensures var w, k, a := subject.workspace, subject.key, subject.agent;
            && (w !in cfg.workspaces || cfg.workspaces[w].daily <= 0 ==> Check(cfg, at, WorkspaceDaily, subject).None?)
            && (w !in cfg.workspaces || cfg.workspaces[w].monthly <= 0 ==>
                  Check(cfg, at, WorkspaceMonthly, subject).None?)
            && (!Found(cfg, w, k) || cfg.keys[k.value].limits.daily <= 0 ==> Check(cfg, at, KeyDaily, subject).None?)
            && (!Found(cfg, w, k) || cfg.keys[k.value].limits.monthly <= 0 ==>
                  Check(cfg, at, KeyMonthly, subject).None?)
            && (a.None? || a.value !in cfg.agents || cfg.agents[a.value].dailyTokens <= 0 ==>
                  Check(cfg, at, AgentDaily, subject).None?)
            && (a.None? || a.value !in cfg.agents || cfg.agents[a.value].monthlyCost <= 0 ==>
                  Check(cfg, at, AgentMonthly, subject).None?)
  {
    QuietIff(cfg, at, WorkspaceDaily, subject);
    QuietIff(cfg, at, WorkspaceMonthly, subject);
    QuietIff(cfg, at, KeyDaily, subject);
    QuietIff(cfg, at, KeyMonthly, subject);
    QuietIff(cfg, at, AgentDaily, subject);
    QuietIff(cfg, at, AgentMonthly, subject);
  }

  // ── What the whole check answers ──

  /** A positive budget of which the spend has reached t two-hundredths. */
  predicate Reached(budget: int, spent: Amount, t: real) {
    budget > 0 && 200.0 * spent >= t * budget as real
  }

  predicate WorkspaceReached(cfg: Config, at: Moment, w: string, t: real) {
    w in cfg.workspaces
    && (Reached(cfg.workspaces[w].daily, Spent(at.log, Meter(OfWorkspace(w), Cost, Day(at.today))), t)
        || Reached(cfg.workspaces[w].monthly,
                   Spent(at.log, Meter(OfWorkspace(w), Cost, Month(at.today.year, at.today.month))), t))
  }

  predicate KeyReached(cfg: Config, at: Moment, w: string, key: Option<string>, t: real) {
    key != Some("") && Found(cfg, w, key)
    && var row := cfg.keys[key.value];
    Reached(row.limits.daily, Spent(at.log, Meter(OfUser(w, row.user), Cost, Day(at.today))), t)
    || Reached(row.limits.monthly,
               Spent(at.log, Meter(OfUser(w, row.user), Cost, Month(at.today.year, at.today.month))), t)
  }

  predicate AgentReached(cfg: Config, at: Moment, agent: Option<string>, t: real) {
    agent.Some? && agent != Some("") && agent.value in cfg.agents
    && var row := cfg.agents[agent.value];
    Reached(row.dailyTokens, Spent(at.log, Meter(OfAgent(agent.value), Tokens, Day(at.today))), t)
    || Reached(row.monthlyCost,
               Spent(at.log, Meter(OfAgent(agent.value), Cost, Month(at.today.year, at.today.month))), t)
  }

  /** One of the up to six budgets has been used up to t two-hundredths. */
  predicate SomeReached(cfg: Config, at: Moment, subject: Subject, t: real) {
    WorkspaceReached(cfg, at, subject.workspace, t) || KeyReached(cfg, at, subject.workspace, subject.key, t)
    || AgentReached(cfg, at, subject.agent, t)
  }

  /** Some layer that is read reports at least this severity. */
  predicate SomeReports(cfg: Config, at: Moment, subject: Subject, grade: nat) {
    || Grade(Check(cfg, at, WorkspaceDaily, subject)) >= grade
    || Grade(Check(cfg, at, WorkspaceMonthly, subject)) >= grade
    || (Truthy(subject.key) && (Grade(Check(cfg, at, KeyDaily, subject)) >= grade
                                || Grade(Check(cfg, at, KeyMonthly, subject)) >= grade))
    || (Truthy(subject.agent) && (Grade(Check(cfg, at, AgentDaily, subject)) >= grade
                                  || Grade(Check(cfg, at, AgentMonthly, subject)) >= grade))
  }

  lemma GradeReached(r: Reading, layer: Layer, budget: int, spent: Amount)
    requires if budget > 0 then Reports(r, layer, budget, spent) else r.None?
    requires r.Some? ==> r.value.level != Normal
    ensures Grade(r) >= 1 <==> Reached(budget, spent, 139.0)
    ensures Grade(r) >= 2 <==> Reached(budget, spent, 169.0)
    ensures Grade(r) >= 3 <==> Reached(budget, spent, 199.0)
  {
  }

  function Threshold(grade: nat): real {
    if grade == 1 then 139.0 else if grade == 2 then 169.0 else 199.0
  }

  lemma SomeReachedIff(cfg: Config, at: Moment, subject: Subject, grade: nat)
    requires 1 <= grade <= 3
    ensures SomeReports(cfg, at, subject, grade) <==> SomeReached(cfg, at, subject, Threshold(grade))
  {
    UnsetIsSilent(cfg, at, subject);
    WorkspaceReachedIff(cfg, at, subject, grade);
    if Truthy(subject.key) { KeyReachedIff(cfg, at, subject, grade); }
    if Truthy(subject.agent) { AgentReachedIff(cfg, at, subject, grade); }
  }

  lemma WorkspaceReachedIff(cfg: Config, at: Moment, subject: Subject, grade: nat)
    requires 1 <= grade <= 3
    ensures Grade(Check(cfg, at, WorkspaceDaily, subject)) >= grade
            || Grade(Check(cfg, at, WorkspaceMonthly, subject)) >= grade
       <==> WorkspaceReached(cfg, at, subject.workspace, Threshold(grade))
  {
    UnsetIsSilent(cfg, at, subject);
    var w := subject.workspace;
    if w in cfg.workspaces {
      WorkspaceReports(cfg, at, subject);
      GradeReached(Check(cfg, at, WorkspaceDaily, subject), WorkspaceDaily, cfg.workspaces[w].daily,
                   Spent(at.log, Meter(OfWorkspace(w), Cost, Day(at.today))));
      GradeReached(Check(cfg, at, WorkspaceMonthly, subject), WorkspaceMonthly, cfg.workspaces[w].monthly,
                   Spent(at.log, Meter(OfWorkspace(w), Cost, Month(at.today.year, at.today.month))));
    }
  }

  lemma KeyReachedIff(cfg: Config, at: Moment, subject: Subject, grade: nat)
    requires 1 <= grade <= 3 && Truthy(subject.key)
    ensures Grade(Check(cfg, at, KeyDaily, subject)) >= grade || Grade(Check(cfg, at, KeyMonthly, subject)) >= grade
       <==> KeyReached(cfg, at, subject.workspace, subject.key, Threshold(grade))
  {
    UnsetIsSilent(cfg, at, subject);
    var w, key := subject.workspace, subject.key;
    if Found(cfg, w, key) {
      var row := cfg.keys[key.value];
      KeyReports(cfg, at, subject);
      GradeReached(Check(cfg, at, KeyDaily, subject), KeyDaily, row.limits.daily,
                   Spent(at.log, Meter(OfUser(w, row.user), Cost, Day(at.today))));
      GradeReached(Check(cfg, at, KeyMonthly, subject), KeyMonthly, row.limits.monthly,
                   Spent(at.log, Meter(OfUser(w, row.user), Cost, Month(at.today.year, at.today.month))));
    }
  }

  lemma AgentReachedIff(cfg: Config, at: Moment, subject: Subject, grade: nat)
    requires 1 <= grade <= 3 && Truthy(subject.agent)
    ensures Grade(Check(cfg, at, AgentDaily, subject)) >= grade || Grade(Check(cfg, at, AgentMonthly, subject)) >= grade
       <==> AgentReached(cfg, at, subject.agent, Threshold(grade))
  {
    UnsetIsSilent(cfg, at, subject);
    var agent := subject.agent.value;
    if agent in cfg.agents {
      var row := cfg.agents[agent];
      AgentReports(cfg, at, subject, agent);
      GradeReached(Check(cfg, at, AgentDaily, subject), AgentDaily, row.dailyTokens,
                   Spent(at.log, Meter(OfAgent(agent), Tokens, Day(at.today))));
      GradeReached(Check(cfg, at, AgentMonthly, subject), AgentMonthly, row.monthlyCost,
                   Spent(at.log, Meter(OfAgent(agent), Cost, Month(at.today.year, at.today.month))));
    }
  }

  lemma LayersAre(subject: Subject, layer: Layer)
    ensures layer in Layers(subject) <==>
            || layer in [WorkspaceDaily, WorkspaceMonthly]
            || (layer in [KeyDaily, KeyMonthly] && Truthy(subject.key))
            || (layer in [AgentDaily, AgentMonthly] && Truthy(subject.agent))
  {
    var keys := if Truthy(subject.key) then [KeyDaily, KeyMonthly] else [];
    var agents := if Truthy(subject.agent) then [AgentDaily, AgentMonthly] else [];
    assert Layers(subject) == [WorkspaceDaily, WorkspaceMonthly] + keys + agents;
    assert layer in Layers(subject)
      <==> layer in [WorkspaceDaily, WorkspaceMonthly] || layer in keys || layer in agents;
  }

  lemma WorstGrade(rs: seq<Reading>, grade: nat)
    requires Alerting(rs) && grade >= 1
    ensures Grade(Worst(rs)) >= grade <==> exists i | 0 <= i < |rs| :: Grade(rs[i]) >= grade
  {
    WorstIsEarliestMaximum(rs);
  }

  /** Some layer of the check reports at least this severity. */
  ghost predicate LayerReports(cfg: Config, at: Moment, subject: Subject, grade: nat) {
    exists layer | layer in Layers(subject) :: Grade(Check(cfg, at, layer, subject)) >= grade
  }

  lemma VerdictGrade(cfg: Config, at: Moment, subject: Subject, grade: nat)
    requires grade >= 1
    ensures Grade(Atomic(cfg, at, subject)) >= grade <==> LayerReports(cfg, at, subject, grade)
  {
    var layers := Layers(subject);
    var rs := Readings(cfg, seq(|layers|, _ => at), subject);
    WorstGrade(rs, grade);
    assert forall i | 0 <= i < |rs| :: rs[i] == Check(cfg, at, layers[i], subject);
    if LayerReports(cfg, at, subject, grade) {
      var layer :| layer in layers && Grade(Check(cfg, at, layer, subject)) >= grade;
      var i :| 0 <= i < |layers| && layers[i] == layer;
      assert Grade(rs[i]) >= grade;
    }
  }

  lemma LayerReportsIff(cfg: Config, at: Moment, subject: Subject, grade: nat)
    ensures LayerReports(cfg, at, subject, grade) <==> SomeReports(cfg, at, subject, grade)
  {
    LayersAre(subject, WorkspaceDaily);
    LayersAre(subject, WorkspaceMonthly);
    LayersAre(subject, KeyDaily);
    LayersAre(subject, KeyMonthly);
    LayersAre(subject, AgentDaily);
    LayersAre(subject, AgentMonthly);
    if LayerReports(cfg, at, subject, grade) {
      var layer :| layer in Layers(subject) && Grade(Check(cfg, at, layer, subject)) >= grade;
      LayersAre(subject, layer);
    }
  }

  lemma GradeIff(cfg: Config, at: Moment, subject: Subject, grade: nat)
    requires 1 <= grade <= 3
    ensures Grade(Atomic(cfg, at, subject)) >= grade <==> SomeReached(cfg, at, subject, Threshold(grade))
  {
    VerdictGrade(cfg, at, subject, grade);
    LayerReportsIff(cfg, at, subject, grade);
    SomeReachedIff(cfg, at, subject, grade);
  }

  /**
   The check spelled out: null while every budget that applies is under 69.5%, a cutoff once one of
   them is at 99.5%, throttling once one is at 84.5%, and a warning in between.
   */
  lemma CheckSpelledOut(cfg: Config, at: Moment, subject: Subject)
    ensures var r := Atomic(cfg, at, subject);
            && (r.None? <==> !SomeReached(cfg, at, subject, 139.0))
            && (r.Some? ==>
                  && (r.value.level == Cutoff <==> SomeReached(cfg, at, subject, 199.0))
                  && (r.value.level == Throttle <==>
                      SomeReached(cfg, at, subject, 169.0) && !SomeReached(cfg, at, subject, 199.0))
                  && (r.value.level == Warning <==> !SomeReached(cfg, at, subject, 169.0)))
  {
    VerdictIsAlert(cfg, at, subject);
    GradeIff(cfg, at, subject, 1);
    GradeIff(cfg, at, subject, 2);
    GradeIff(cfg, at, subject, 3);
  }

  lemma VerdictIsAlert(cfg: Config, at: Moment, subject: Subject)
    ensures Atomic(cfg, at, subject).Some? ==> Atomic(cfg, at, subject).value.level != Normal
  {
    var moments := seq(|Layers(subject)|, _ => at);
    VerdictIsMostSevere(cfg, moments, subject);
  }

  // ── Ties ──

  function Position(layer: Layer): nat {
    match layer
    case WorkspaceDaily => 0
    case WorkspaceMonthly => 1
    case KeyDaily => 2
    case KeyMonthly => 3
    case AgentDaily => 4
    case AgentMonthly => 5
  }

  lemma LayersAscend(subject: Subject, i: nat, j: nat)
    requires i < j < |Layers(subject)|
    ensures Position(Layers(subject)[i]) < Position(Layers(subject)[j])
  {
  }

  /** Of several layers at the answer's level it names the first: workspace, key, agent, daily before monthly. */
  lemma EarliestLayerWins(cfg: Config, at: Moment, subject: Subject, other: Layer)
    requires Atomic(cfg, at, subject).Some? && other in Layers(subject) && Check(cfg, at, other, subject).Some?
    requires Check(cfg, at, other, subject).value.level == Atomic(cfg, at, subject).value.level
    ensures Position(Atomic(cfg, at, subject).value.layer) <= Position(other)
  {
    var layers := Layers(subject);
    var moments := seq(|layers|, _ => at);
    var rs := Readings(cfg, moments, subject);
    VerdictIsMostSevere(cfg, moments, subject);
    var i :| EarliestMaximum(rs, i) && rs[i] == Atomic(cfg, at, subject);
    var j :| 0 <= j < |layers| && layers[j] == other;
    assert rs[i] == Check(cfg, at, layers[i], subject) && rs[j] == Check(cfg, at, other, subject);
    if i < j { LayersAscend(subject, i, j); }
  }

  /** Whenever its layers are read, the check answers with the first of the most severe things it read. */
  lemma VerdictIsOneOfItsReads(cfg: Config, moments: seq<Moment>, subject: Subject)
    requires |moments| == |Layers(subject)|
    ensures var r := Verdict(cfg, moments, subject);
            && (r.None? <==> forall i | 0 <= i < |moments| :: Check(cfg, moments[i], Layers(subject)[i], subject).None?)
            && (r.Some? ==>
                  exists i | 0 <= i < |moments| ::
                    && Check(cfg, moments[i], Layers(subject)[i], subject) == r
                    && (forall j | 0 <= j < |moments| ::
                          Grade(Check(cfg, moments[j], Layers(subject)[j], subject)) <= Grade(r))
                    && (forall j | 0 <= j < i :: Grade(Check(cfg, moments[j], Layers(subject)[j], subject)) < Grade(r)))
  {
    var rs := Readings(cfg, moments, subject);
    VerdictIsMostSevere(cfg, moments, subject);
    assert forall i | 0 <= i < |rs| :: rs[i] == Check(cfg, moments[i], Layers(subject)[i], subject);
    if Verdict(cfg, moments, subject).Some? {
      var i :| EarliestMaximum(rs, i) && rs[i] == Verdict(cfg, moments, subject);
      assert Check(cfg, moments[i], Layers(subject)[i], subject) == Verdict(cfg, moments, subject);
    }
  }
}
