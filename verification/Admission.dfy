/**
 The admission protocol (admin-api/src/routes/internal.ts): a request is judged by
 `validate-key`, forwarded by the gateway, and only later paid for by `log-request`.
 Every await is a step of its own, so any number of requests interleave between the
 read of a budget and the log row that spends it.
 */
module Admission {
  import opened Wrappers
  import opened Budget

  datatype Phase = Checking(seen: seq<Reading>) | Forwarded

  /** A matched request: whom it is checked for, whose it is, and its agent if it came with an agent key. */
  datatype Request = Request(subject: Subject, user: string, account: Option<string>, phase: Phase)

  datatype State = State(log: Log, today: Date, requests: map<nat, Request>)

  datatype Event =
    | Arrive(id: nat, key: string, agent: Option<string>)   // an API key, and the agent sent along for the check
    | ArriveAgent(id: nat, account: string)                 // an agent key: valid at once, no budget is read
    | Read(id: nat)
    | Decide(id: nat)
    | Record(id: nat, header: Option<string>, binding: Option<string>, cost: Amount, tokensIn: nat, tokensOut: nat)
    | Abandon(id: nat)       // forwarded, but its log row never arrives
    | Foreign(row: LogRow)   // a row of a request without a OneLLM key: its owner is what its headers say
    | Advance(today: Date)

  function NewRequest(cfg: Config, key: string, agent: Option<string>): Request
    requires key in cfg.keys
  {
    var row := cfg.keys[key];
    Request(Subject(row.workspace, Some(key), if Truthy(agent) then agent else None), row.user, None, Checking([]))
  }

  function AgentRequest(cfg: Config, agent: string): Request
    requires agent in cfg.agents
  {
    var row := cfg.agents[agent];
    Request(Subject(row.workspace, None, None), row.user, Some(agent), Forwarded)
  }

  /** The agent a row is charged to: the agent key's own, or else whatever the header names. */
  function RecordedAgent(r: Request, header: Option<string>): Option<string> {
    if Truthy(r.account) then r.account else if Truthy(header) then header else None
  }

  function RowOf(r: Request, e: Event, today: Date): LogRow
    requires e.Record?
  {
    LogRow(Some(r.subject.workspace), Some(r.user), RecordedAgent(r, e.header), e.binding, r.subject.key,
           e.tokensIn, e.tokensOut, e.cost, today)
  }

  predicate Enabled(cfg: Config, s: State, e: Event) {
    match e
    case Arrive(id, key, _) => id !in s.requests && key in cfg.keys && !cfg.keys[key].revoked
    case ArriveAgent(id, agent) => id !in s.requests && agent in cfg.agents && cfg.agents[agent].active
    case Read(id) =>
      id in s.requests && s.requests[id].phase.Checking?
      && |s.requests[id].phase.seen| < |Layers(s.requests[id].subject)|
    case Decide(id) =>
      id in s.requests && s.requests[id].phase.Checking?
      && |s.requests[id].phase.seen| == |Layers(s.requests[id].subject)|
    case Record(id, _, _, _, _, _) => id in s.requests && s.requests[id].phase.Forwarded?
    case Abandon(id) => id in s.requests && s.requests[id].phase.Forwarded?
    case Foreign(row) => row.date == s.today && row.apiKey.None?
    case Advance(day) => NotAfter(s.today, day)
  }

  predicate Blocked(r: Reading) {
    r.Some? && r.value.level == Cutoff
  }

  function Apply(cfg: Config, s: State, e: Event): State
    requires Enabled(cfg, s, e)
  {
    match e
    case Arrive(id, key, agent) => s.(requests := s.requests[id := NewRequest(cfg, key, agent)])
    case ArriveAgent(id, agent) => s.(requests := s.requests[id := AgentRequest(cfg, agent)])
    case Read(id) =>
      var r := s.requests[id];
      var n := |r.phase.seen|;
      var reading := Check(cfg, Moment(s.log, s.today), Layers(r.subject)[n], r.subject);
      s.(requests := s.requests[id := r.(phase := Checking(r.phase.seen + [reading]))])
    case Decide(id) =>
      var r := s.requests[id];
      if Blocked(Worst(r.phase.seen)) then s.(requests := s.requests - {id})
      else s.(requests := s.requests[id := r.(phase := Forwarded)])
    case Record(id, _, _, _, _, _) =>
      s.(log := s.log + [RowOf(s.requests[id], e, s.today)], requests := s.requests - {id})
    case Abandon(id) => s.(requests := s.requests - {id})
    case Foreign(row) => s.(log := s.log + [row])
    case Advance(day) => s.(today := day)
  }

  function Start(today: Date): State {
    State([], today, map[])
  }

  // ── A gate: one budget layer guarding everything one owner is charged for ──

  datatype Gate = Gate(layer: Layer, owner: Owner, budget: int)

  function MeterOn(g: Gate, day: Date): Meter {
    Meter(g.owner, MeasureOf(g.layer), PeriodOf(g.layer, day))
  }

  /** The request reads the gate's layer for the gate's owner, under a budget no larger than the gate's. */
  predicate Guards(cfg: Config, g: Gate, subject: Subject) {
    g.layer in Layers(subject) && 0 < BudgetOf(cfg, g.layer, subject) <= g.budget
    && OwnerOf(cfg, g.layer, subject) == g.owner
  }

  /** A request of the API-key path that reads the gate; agent keys read none. */
  predicate Checked(cfg: Config, g: Gate, r: Request) {
    r.account.None? && Guards(cfg, g, r.subject)
  }

  function Index(layer: Layer, subject: Subject): (i: nat)
    requires layer in Layers(subject)
    ensures i < |Layers(subject)| && Layers(subject)[i] == layer
  {
    match layer
    case WorkspaceDaily => 0
    case WorkspaceMonthly => 1
    case KeyDaily => 2
    case KeyMonthly => 3
    case AgentDaily => |Layers(subject)| - 2
    case AgentMonthly => |Layers(subject)| - 1
  }

  /** Past the gate's read without a cutoff there, and not yet paid for. */
  predicate Outstanding(cfg: Config, g: Gate, r: Request) {
    Checked(cfg, g, r)
    && match r.phase
       case Forwarded => true
       case Checking(seen) =>
         |seen| > Index(g.layer, r.subject) && !Blocked(seen[Index(g.layer, r.subject)])
  }

  function Pending(cfg: Config, s: State, g: Gate): set<nat> {
    set id | id in s.requests && Outstanding(cfg, g, s.requests[id])
  }

  /** What the bound assumes of a step: the owner is charged only for requests that read the gate, at most c a row. */
  predicate Gated(cfg: Config, g: Gate, c: Amount, s: State, e: Event) {
    match e
    case Record(id, _, _, _, _, _) =>
      id in s.requests && Charges(g.owner, RowOf(s.requests[id], e, s.today)) ==>
        Checked(cfg, g, s.requests[id]) && Quantity(MeasureOf(g.layer), RowOf(s.requests[id], e, s.today)) <= c
    case Foreign(row) => !Charges(g.owner, row)
    case _ => true
  }

  predicate Legal(cfg: Config, s: State, es: seq<Event>)
    decreases |es|
  {
    es == [] || (Enabled(cfg, s, es[0]) && Legal(cfg, Apply(cfg, s, es[0]), es[1..]))
  }

  function Run(cfg: Config, s: State, es: seq<Event>): State
    requires Legal(cfg, s, es)
    decreases |es|
  {
    if es == [] then s else Run(cfg, Apply(cfg, s, es[0]), es[1..])
  }

  /** Every step is gated, and at most K requests are ever outstanding. */
  predicate Restrained(cfg: Config, g: Gate, c: Amount, k: nat, s: State, es: seq<Event>)
    requires Legal(cfg, s, es)
    decreases |es|
  {
    es == []
    || (Gated(cfg, g, c, s, es[0]) && |Pending(cfg, Apply(cfg, s, es[0]), g)| <= k
        && Restrained(cfg, g, c, k, Apply(cfg, s, es[0]), es[1..]))
  }

  function Ceiling(g: Gate, c: Amount, k: nat): real {
    199.0 * g.budget as real / 200.0 + k as real * c
  }

  // ── The invariant ──

  ghost predicate WellFormed(s: State) {
    (forall i | 0 <= i < |s.log| :: NotAfter(s.log[i].date, s.today))
    && (forall id | id in s.requests && s.requests[id].phase.Checking? ::
          Alerting(s.requests[id].phase.seen)
          && |s.requests[id].phase.seen| <= |Layers(s.requests[id].subject)|)
  }

  /** Today's spend leaves room for n more rows. */
  ghost predicate HasRoom(g: Gate, c: Amount, k: nat, log: Log, today: Date, n: nat) {
    Spent(log, MeterOn(g, today)) + n as real * c < Ceiling(g, c, k)
  }

  ghost predicate NeverOver(g: Gate, c: Amount, k: nat, log: Log) {
    forall day :: Spent(log, MeterOn(g, day)) < Ceiling(g, c, k)
  }

  ghost predicate Contained(cfg: Config, g: Gate, c: Amount, k: nat, s: State) {
    HasRoom(g, c, k, s.log, s.today, |Pending(cfg, s, g)|) && NeverOver(g, c, k, s.log)
  }

  lemma {:induction false} NothingSpentYet(g: Gate, log: Log, today: Date, day: Date)
    requires forall i | 0 <= i < |log| :: NotAfter(log[i].date, today)
    requires NotAfter(today, day) && PeriodOf(g.layer, today) != PeriodOf(g.layer, day)
    ensures Spent(log, MeterOn(g, day)) == 0.0
  {
    if log != [] {
      assert NotAfter(log[0].date, today);
      NothingSpentYet(g, log[1..], today, day);
    }
  }

  lemma Product(n: nat, k: nat, c: Amount)
    ensures 0.0 <= n as real * c
    ensures (n + 1) as real * c == n as real * c + c
    ensures n <= k ==> n as real * c <= k as real * c
  {
    if n <= k { assert (k - n) as real * c >= 0.0; }
  }

  lemma ApplyWellFormed(cfg: Config, s: State, e: Event)
    requires WellFormed(s) && Enabled(cfg, s, e)
    ensures WellFormed(Apply(cfg, s, e))
  {
  }

  /** A request that was blocked at the gate's own layer is never forwarded. */
  lemma BlockedStaysOut(seen: seq<Reading>, i: nat)
    requires Alerting(seen) && i < |seen| && Blocked(seen[i])
    ensures Blocked(Worst(seen))
  {
    WorstIsEarliestMaximum(seen);
  }

  /** Admitted past the read means the spend was under the cutoff. */
  lemma AdmittedUnderThreshold(cfg: Config, g: Gate, s: State, subject: Subject)
    requires Guards(cfg, g, subject) && g.budget > 0
    requires !Blocked(Check(cfg, Moment(s.log, s.today), g.layer, subject))
    ensures 200.0 * Spent(s.log, MeterOn(g, s.today)) < 199.0 * g.budget as real
  {
    LevelThresholds(Spent(s.log, MeterOn(g, s.today)), BudgetOf(cfg, g.layer, subject));
  }

  lemma SmallerSet(a: set<nat>, b: set<nat>)
    requires a <= b
    ensures |a| <= |b|
  {
    assert b == a + (b - a);
  }

  /** Nothing was logged and no request became outstanding. */
  lemma KeepsContained(cfg: Config, g: Gate, c: Amount, k: nat, s: State, s': State)
    requires Contained(cfg, g, c, k, s) && s'.log == s.log && s'.today == s.today
    requires Pending(cfg, s', g) <= Pending(cfg, s, g)
    ensures Contained(cfg, g, c, k, s')
  {
    SmallerSet(Pending(cfg, s', g), Pending(cfg, s, g));
    ShareMoves(Spent(s.log, MeterOn(g, s.today)), 0.0, 0.0, c, |Pending(cfg, s', g)|, |Pending(cfg, s, g)|,
               Ceiling(g, c, k));
  }

  lemma UnderCeiling(spent: real, limit: real, n: nat, k: nat, c: Amount)
    requires spent < limit && n <= k
    ensures spent + n as real * c < limit + k as real * c
  {
    Product(n, k, c);
  }

  /** A request was let past the gate's read: the spend it saw was under the cutoff. */
  lemma AdmitContained(cfg: Config, g: Gate, c: Amount, k: nat, s: State, s': State)
    requires Contained(cfg, g, c, k, s) && s'.log == s.log && s'.today == s.today
    requires |Pending(cfg, s', g)| <= k
    requires 200.0 * Spent(s.log, MeterOn(g, s.today)) < 199.0 * g.budget as real
    ensures Contained(cfg, g, c, k, s')
  {
    var spent, limit := Spent(s.log, MeterOn(g, s.today)), 199.0 * g.budget as real / 200.0;
    assert spent < limit;
    UnderCeiling(spent, limit, |Pending(cfg, s', g)|, k, c);
  }

  lemma ShareMoves(spent: real, paid: real, share: Amount, c: Amount, n: nat, m: nat, ceiling: real)
    requires spent + m as real * c < ceiling && paid <= share <= c
    requires n <= m && (share > 0.0 ==> n < m)
    ensures spent + paid + n as real * c < ceiling && spent + paid < ceiling
  {
    Product(n, m, c);
    if share > 0.0 { Product(n + 1, m, c); }
  }

  /** A row was logged: its cost moves from the outstanding share to the spend. */
  lemma LogContained(cfg: Config, g: Gate, c: Amount, k: nat, s: State, s': State, row: LogRow, share: Amount)
    requires Contained(cfg, g, c, k, s) && s'.log == s.log + [row] && s'.today == s.today == row.date
    requires Pending(cfg, s', g) <= Pending(cfg, s, g) && share <= c
    requires share > 0.0 ==> |Pending(cfg, s', g)| < |Pending(cfg, s, g)|
    requires Contribution(MeterOn(g, s.today), row) <= share
    ensures Contained(cfg, g, c, k, s')
  {
    SmallerSet(Pending(cfg, s', g), Pending(cfg, s, g));
    LogToday(g, c, k, s, row, share, |Pending(cfg, s', g)|, |Pending(cfg, s, g)|);
    LogEveryDay(g, c, k, s, row);
  }

  lemma LogToday(g: Gate, c: Amount, k: nat, s: State, row: LogRow, share: Amount, n: nat, m: nat)
    requires HasRoom(g, c, k, s.log, s.today, m)
    requires Contribution(MeterOn(g, s.today), row) <= share <= c && n <= m && (share > 0.0 ==> n < m)
    ensures HasRoom(g, c, k, s.log + [row], s.today, n)
    ensures Spent(s.log + [row], MeterOn(g, s.today)) < Ceiling(g, c, k)
  {
    SpentAppend(s.log, row, MeterOn(g, s.today));
    ShareMoves(Spent(s.log, MeterOn(g, s.today)), Contribution(MeterOn(g, s.today), row), share, c, n, m,
               Ceiling(g, c, k));
  }

  lemma LogEveryDay(g: Gate, c: Amount, k: nat, s: State, row: LogRow)
    requires row.date == s.today && NeverOver(g, c, k, s.log)
    requires Spent(s.log + [row], MeterOn(g, s.today)) < Ceiling(g, c, k)
    ensures NeverOver(g, c, k, s.log + [row])
  {
    forall day ensures Spent(s.log + [row], MeterOn(g, day)) < Ceiling(g, c, k) { LogOtherDay(g, c, k, s, row, day); }
  }

  lemma LogOtherDay(g: Gate, c: Amount, k: nat, s: State, row: LogRow, day: Date)
    requires row.date == s.today
    requires Spent(s.log, MeterOn(g, day)) < Ceiling(g, c, k)
    requires Spent(s.log + [row], MeterOn(g, s.today)) < Ceiling(g, c, k)
    ensures Spent(s.log + [row], MeterOn(g, day)) < Ceiling(g, c, k)
  {
    SpentAppend(s.log, row, MeterOn(g, day));
    if Within(PeriodOf(g.layer, day), s.today) {
      assert MeterOn(g, day) == MeterOn(g, s.today);
    }
  }

  lemma RecordContained(cfg: Config, g: Gate, c: Amount, k: nat, s: State, e: Event)
    requires WellFormed(s) && Contained(cfg, g, c, k, s)
    requires e.Record? && Enabled(cfg, s, e) && Gated(cfg, g, c, s, e)
    ensures Contained(cfg, g, c, k, Apply(cfg, s, e))
  {
    var r := s.requests[e.id];
    var s', row := Apply(cfg, s, e), RowOf(r, e, s.today);
    assert Pending(cfg, s', g) == Pending(cfg, s, g) - {e.id};
    if Charges(g.owner, row) { assert e.id in Pending(cfg, s, g); }
    LogContained(cfg, g, c, k, s, s', row, if Charges(g.owner, row) then c else 0.0);
  }

  lemma ReadContained(cfg: Config, g: Gate, c: Amount, k: nat, s: State, e: Event)
    requires WellFormed(s) && Contained(cfg, g, c, k, s) && g.budget > 0
    requires e.Read? && Enabled(cfg, s, e) && |Pending(cfg, Apply(cfg, s, e), g)| <= k
    ensures Contained(cfg, g, c, k, Apply(cfg, s, e))
  {
    var s' := Apply(cfg, s, e);
    assert Pending(cfg, s', g) <= Pending(cfg, s, g) + {e.id};
    if e.id in Pending(cfg, s', g) && e.id !in Pending(cfg, s, g) {
      ReadAdmits(cfg, g, s, e);
      AdmitContained(cfg, g, c, k, s, s');
    } else {
      KeepsContained(cfg, g, c, k, s, s');
    }
  }

  /** A request becomes outstanding only by a read that found the spend under the cutoff. */
  lemma ReadAdmits(cfg: Config, g: Gate, s: State, e: Event)
    requires WellFormed(s) && g.budget > 0 && e.Read? && Enabled(cfg, s, e)
    requires e.id in Pending(cfg, Apply(cfg, s, e), g) && e.id !in Pending(cfg, s, g)
    ensures 200.0 * Spent(s.log, MeterOn(g, s.today)) < 199.0 * g.budget as real
  {
    var r := s.requests[e.id];
    assert Index(g.layer, r.subject) == |r.phase.seen|;
    AdmittedUnderThreshold(cfg, g, s, r.subject);
  }

  /** Deciding adds nobody: whoever was blocked at the gate's layer is turned away. */
  lemma DecideContained(cfg: Config, g: Gate, c: Amount, k: nat, s: State, e: Event)
    requires WellFormed(s) && Contained(cfg, g, c, k, s)
    requires e.Decide? && Enabled(cfg, s, e)
    ensures Contained(cfg, g, c, k, Apply(cfg, s, e))
  {
    var r := s.requests[e.id];
    var s' := Apply(cfg, s, e);
    if Checked(cfg, g, r) && Blocked(r.phase.seen[Index(g.layer, r.subject)]) {
      BlockedStaysOut(r.phase.seen, Index(g.layer, r.subject));
    }
    assert Pending(cfg, s', g) <= Pending(cfg, s, g);
    KeepsContained(cfg, g, c, k, s, s');
  }

  lemma ForeignContained(cfg: Config, g: Gate, c: Amount, k: nat, s: State, e: Event)
    requires Contained(cfg, g, c, k, s)
    requires e.Foreign? && Enabled(cfg, s, e) && Gated(cfg, g, c, s, e)
    ensures Contained(cfg, g, c, k, Apply(cfg, s, e))
  {
    var s' := Apply(cfg, s, e);
    assert Pending(cfg, s', g) == Pending(cfg, s, g);
    LogContained(cfg, g, c, k, s, s', e.row, 0.0);
  }

  lemma AdvanceContained(cfg: Config, g: Gate, c: Amount, k: nat, s: State, e: Event)
    requires WellFormed(s) && Contained(cfg, g, c, k, s) && g.budget > 0
    requires e.Advance? && Enabled(cfg, s, e) && |Pending(cfg, Apply(cfg, s, e), g)| <= k
    ensures Contained(cfg, g, c, k, Apply(cfg, s, e))
  {
    assert Pending(cfg, Apply(cfg, s, e), g) == Pending(cfg, s, g);
    if PeriodOf(g.layer, s.today) == PeriodOf(g.layer, e.today) {
      assert MeterOn(g, e.today) == MeterOn(g, s.today);
    } else {
      NothingSpentYet(g, s.log, s.today, e.today);
      Product(|Pending(cfg, s, g)|, k, c);
    }
  }

  lemma StepContained(cfg: Config, g: Gate, c: Amount, k: nat, s: State, e: Event)
    requires WellFormed(s) && Contained(cfg, g, c, k, s) && g.budget > 0
    requires Enabled(cfg, s, e) && Gated(cfg, g, c, s, e) && |Pending(cfg, Apply(cfg, s, e), g)| <= k
    ensures Contained(cfg, g, c, k, Apply(cfg, s, e))
  {
    match e
    case Record(_, _, _, _, _, _) => RecordContained(cfg, g, c, k, s, e);
    case Read(_) => ReadContained(cfg, g, c, k, s, e);
    case Decide(_) => DecideContained(cfg, g, c, k, s, e);
    case Foreign(_) => ForeignContained(cfg, g, c, k, s, e);
    case Advance(_) => AdvanceContained(cfg, g, c, k, s, e);
    case Arrive(_, _, _) =>
      assert Pending(cfg, Apply(cfg, s, e), g) <= Pending(cfg, s, g);
      KeepsContained(cfg, g, c, k, s, Apply(cfg, s, e));
    case ArriveAgent(_, _) =>
      assert Pending(cfg, Apply(cfg, s, e), g) <= Pending(cfg, s, g);
      KeepsContained(cfg, g, c, k, s, Apply(cfg, s, e));
    case Abandon(_) =>
      assert Pending(cfg, Apply(cfg, s, e), g) <= Pending(cfg, s, g);
      KeepsContained(cfg, g, c, k, s, Apply(cfg, s, e));
  }

  lemma {:induction false} RunContained(cfg: Config, g: Gate, c: Amount, k: nat, s: State, es: seq<Event>)
    requires WellFormed(s) && Contained(cfg, g, c, k, s) && g.budget > 0
    requires Legal(cfg, s, es) && Restrained(cfg, g, c, k, s, es)
    ensures Contained(cfg, g, c, k, Run(cfg, s, es))
    decreases |es|
  {
    if es != [] {
      StepContained(cfg, g, c, k, s, es[0]);
      ApplyWellFormed(cfg, s, es[0]);
      RunContained(cfg, g, c, k, Apply(cfg, s, es[0]), es[1..]);
    }
  }

  lemma StartContained(cfg: Config, g: Gate, c: Amount, k: nat, today: Date)
    requires g.budget > 0
    ensures Contained(cfg, g, c, k, Start(today))
  {
    assert Pending(cfg, Start(today), g) == {};
    UnderCeiling(0.0, 199.0 * g.budget as real / 200.0, 0, k, c);
    Product(0, k, c);
    assert forall day :: Spent([], MeterOn(g, day)) == 0.0;
  }

  // ── The bound ──

  /**
   Bounded overspend.  Whatever the interleaving, and across every change of day or month,
   what an owner is charged in any one period stays below 99.5% of the gate's budget plus
   K requests' worth, where K bounds the requests between their read and their log row.
   */
  lemma BoundedOverspend(cfg: Config, g: Gate, c: Amount, k: nat, today: Date, es: seq<Event>)
    requires g.budget > 0
    requires Legal(cfg, Start(today), es) && Restrained(cfg, g, c, k, Start(today), es)
    ensures forall day ::
              Spent(Run(cfg, Start(today), es).log, MeterOn(g, day))
              < 199.0 * g.budget as real / 200.0 + k as real * c
  {
    StartContained(cfg, g, c, k, today);
    RunContained(cfg, g, c, k, Start(today), es);
  }

  /** The bound with the periods spelled out: cost and tokens of any day, cost of any month. */
  lemma BoundedPeriods(cfg: Config, g: Gate, c: Amount, k: nat, today: Date, es: seq<Event>)
    requires g.budget > 0
    requires Legal(cfg, Start(today), es) && Restrained(cfg, g, c, k, Start(today), es)
    ensures var log, bound := Run(cfg, Start(today), es).log, 199.0 * g.budget as real / 200.0 + k as real * c;
            && (g.layer in [WorkspaceDaily, KeyDaily] ==>
                  forall day :: Spent(log, Meter(g.owner, Cost, Day(day))) < bound)
            && (g.layer == AgentDaily ==> forall day :: Spent(log, Meter(g.owner, Tokens, Day(day))) < bound)
            && (g.layer in [WorkspaceMonthly, KeyMonthly, AgentMonthly] ==>
                  forall year, month :: Spent(log, Meter(g.owner, Cost, Month(year, month))) < bound)
  {
    BoundedOverspend(cfg, g, c, k, today, es);
    var log, bound := Run(cfg, Start(today), es).log, 199.0 * g.budget as real / 200.0 + k as real * c;
    if g.layer in [WorkspaceDaily, KeyDaily, AgentDaily] {
      forall day ensures Spent(log, Meter(g.owner, MeasureOf(g.layer), Day(day))) < bound {
        assert MeterOn(g, day) == Meter(g.owner, MeasureOf(g.layer), Day(day));
      }
    } else {
      forall year, month ensures Spent(log, Meter(g.owner, Cost, Month(year, month))) < bound {
        assert MeterOn(g, Date(year, month, 1)) == Meter(g.owner, Cost, Month(year, month));
      }
    }
  }

  /** The row of a request, column by column. */
  lemma RecordedRow(cfg: Config, s: State, e: Event)
    requires e.Record? && Enabled(cfg, s, e)
    ensures var r, after := s.requests[e.id], Apply(cfg, s, e);
            && |after.log| == |s.log| + 1 && after.log[..|s.log|] == s.log && e.id !in after.requests
            && var row := after.log[|s.log|];
            && row.workspace == Some(r.subject.workspace) && row.user == Some(r.user) && row.apiKey == r.subject.key
            && row.binding == e.binding && row.cost == e.cost && row.date == s.today
            && row.tokensIn == e.tokensIn && row.tokensOut == e.tokensOut
            && (r.account.Some? && r.account != Some("") ==> row.agent == r.account)
            && (r.account == None || r.account == Some("") ==>
                  row.agent == if e.header == Some("") then None else e.header)
  {
  }

  /** What an arrival becomes: its key's workspace and user, checked for the agent sent along, or its agent's. */
  lemma Arrivals(cfg: Config, s: State, e: Event)
    requires Enabled(cfg, s, e)
    ensures e.Arrive? ==>
              && cfg.keys[e.key].revoked == false
              && var r := Apply(cfg, s, e).requests[e.id];
              && r.subject.workspace == cfg.keys[e.key].workspace && r.user == cfg.keys[e.key].user
              && r.subject.key == Some(e.key) && r.account == None && r.phase == Checking([])
              && r.subject.agent == if e.agent == Some("") then None else e.agent
    ensures e.ArriveAgent? ==>
              && cfg.agents[e.account].active
              && var r := Apply(cfg, s, e).requests[e.id];
              && r.subject.workspace == cfg.agents[e.account].workspace && r.user == cfg.agents[e.account].user
              && r.subject.key == None && r.account == Some(e.account) && r.phase == Forwarded
  {
  }

  /** The remaining steps: a reading of the next layer, a row that never comes, a foreign row, a new date. */
  lemma OtherSteps(cfg: Config, s: State, e: Event)
    requires Enabled(cfg, s, e)
    ensures var after := Apply(cfg, s, e);
            && (e.Read? ==>
                  var r := s.requests[e.id];
                  var n := |r.phase.seen|;
                  && n < |Layers(r.subject)| && after.log == s.log && after.today == s.today
                  && after.requests == s.requests[e.id := r.(phase := after.requests[e.id].phase)]
                  && after.requests[e.id].phase
                     == Checking(r.phase.seen + [Check(cfg, Moment(s.log, s.today), Layers(r.subject)[n], r.subject)]))
            && (e.Abandon? ==> after == s.(requests := s.requests - {e.id}))
            && (e.Foreign? ==> after == s.(log := s.log + [e.row]) && e.row.date == s.today)
            && (e.Advance? ==> after == s.(today := e.today))
  {
  }

  /** A decision turns away exactly the requests with a cutoff among their readings. */
  lemma Decisions(cfg: Config, s: State, id: nat)
    requires WellFormed(s) && Enabled(cfg, s, Decide(id))
    ensures var seen, after := s.requests[id].phase.seen, Apply(cfg, s, Decide(id));
            if exists i | 0 <= i < |seen| :: seen[i].Some? && seen[i].value.level == Cutoff
            then after == s.(requests := s.requests - {id})
            else after == s.(requests := s.requests[id := s.requests[id].(phase := Forwarded)])
  {
    var seen := s.requests[id].phase.seen;
    WorstIsEarliestMaximum(seen);
    if i :| 0 <= i < |seen| && seen[i].Some? && seen[i].value.level == Cutoff { BlockedStaysOut(seen, i); }
  }

  // ── Who is gated: workspaces, users, agents ──

  predicate LiveRow(cfg: Config, key: string) {
    key in cfg.keys && !cfg.keys[key].revoked
  }

  predicate ActiveRow(cfg: Config, agent: string) {
    agent in cfg.agents && cfg.agents[agent].active
  }

  /** Every row the request can be charged to the gate's owner is backed by a read of the gate. */
  predicate Admits(cfg: Config, g: Gate, r: Request) {
    match g.owner
    case OfWorkspace(w) => r.subject.workspace == w ==> Checked(cfg, g, r)
    case OfUser(w, u) => r.subject.workspace == w && r.user == u ==> Checked(cfg, g, r)
    case OfAgent(a) =>
      (r.subject.agent == Some(a) ==> Checked(cfg, g, r))
      && (r.account.Some? ==> Truthy(r.account) && r.account != Some(a))
    case OfBinding(_) | OfKey(_) => false
  }

  /**
   Arrivals the gate reads, rows of at most c, and, where an agent is charged, the recorded
   agent being the one the request was checked for.
   */
  predicate Confined(cfg: Config, g: Gate, c: Amount, s: State, e: Event) {
    match e
    case Arrive(_, key, agent) => LiveRow(cfg, key) ==> Admits(cfg, g, NewRequest(cfg, key, agent))
    case ArriveAgent(_, agent) => ActiveRow(cfg, agent) ==> Admits(cfg, g, AgentRequest(cfg, agent))
    case Record(id, header, _, _, _, _) =>
      id in s.requests ==>
        var r := s.requests[id];
        && Quantity(MeasureOf(g.layer), RowOf(r, e, s.today)) <= c
        && (g.owner.OfAgent? && r.account.None? && header == Some(g.owner.agent) ==> r.subject.agent == header)
    case Foreign(row) => !Charges(g.owner, row)
    case _ => true
  }

  /** Every step is confined, and at most K requests are ever outstanding. */
  predicate Steady(cfg: Config, g: Gate, c: Amount, k: nat, s: State, es: seq<Event>)
    requires Legal(cfg, s, es)
    decreases |es|
  {
    es == []
    || (Confined(cfg, g, c, s, es[0]) && |Pending(cfg, Apply(cfg, s, es[0]), g)| <= k
        && Steady(cfg, g, c, k, Apply(cfg, s, es[0]), es[1..]))
  }

  ghost predicate AllAdmitted(cfg: Config, g: Gate, s: State) {
    forall id | id in s.requests :: Admits(cfg, g, s.requests[id])
  }

  lemma ConfinedStep(cfg: Config, g: Gate, c: Amount, s: State, e: Event)
    requires AllAdmitted(cfg, g, s) && Enabled(cfg, s, e) && Confined(cfg, g, c, s, e)
    ensures Gated(cfg, g, c, s, e) && AllAdmitted(cfg, g, Apply(cfg, s, e))
  {
    var s' := Apply(cfg, s, e);
    forall id | id in s'.requests ensures Admits(cfg, g, s'.requests[id]) {
      if id in s.requests { assert Admits(cfg, g, s.requests[id]); }
    }
  }

  lemma {:induction false} SteadyIsRestrained(cfg: Config, g: Gate, c: Amount, k: nat, s: State, es: seq<Event>)
    requires AllAdmitted(cfg, g, s) && Legal(cfg, s, es) && Steady(cfg, g, c, k, s, es)
    ensures Restrained(cfg, g, c, k, s, es)
    decreases |es|
  {
    if es != [] {
      ConfinedStep(cfg, g, c, s, es[0]);
      SteadyIsRestrained(cfg, g, c, k, Apply(cfg, s, es[0]), es[1..]);
    }
  }

  /** The same bound from hypotheses on arrivals and rows alone. */
  lemma SteadyOverspend(cfg: Config, g: Gate, c: Amount, k: nat, today: Date, es: seq<Event>)
    requires g.budget > 0
    requires Legal(cfg, Start(today), es) && Steady(cfg, g, c, k, Start(today), es)
    ensures forall day ::
              Spent(Run(cfg, Start(today), es).log, MeterOn(g, day))
              < 199.0 * g.budget as real / 200.0 + k as real * c
  {
    SteadyIsRestrained(cfg, g, c, k, Start(today), es);
    BoundedOverspend(cfg, g, c, k, today, es);
  }

  function WorkspaceGate(cfg: Config, layer: Layer, workspace: string): Gate {
    Gate(layer, OfWorkspace(workspace), BudgetOf(cfg, layer, Subject(workspace, None, None)))
  }

  function AgentGate(cfg: Config, layer: Layer, agent: string): Gate {
    Gate(layer, OfAgent(agent), BudgetOf(cfg, layer, Subject("", None, Some(agent))))
  }

  function LimitOf(layer: Layer, limits: Limits): int {
    if layer.KeyDaily? then limits.daily else limits.monthly
  }

  // ── Hypotheses on the rows alone, and a condition on the tables ──

  /** Rows of at most c, no charge from outside, at most K requests in flight. */
  predicate Frugal(cfg: Config, owner: Owner, measure: Measure, c: Amount, k: nat, s: State, es: seq<Event>)
    requires Legal(cfg, s, es)
    decreases |es|
  {
    es == []
    || (Thrifty(owner, measure, c, s, es[0]) && |Apply(cfg, s, es[0]).requests.Keys| <= k
        && Frugal(cfg, owner, measure, c, k, Apply(cfg, s, es[0]), es[1..]))
  }

  predicate Thrifty(owner: Owner, measure: Measure, c: Amount, s: State, e: Event) {
    match e
    case Record(id, _, _, _, _, _) => id in s.requests ==> Quantity(measure, RowOf(s.requests[id], e, s.today)) <= c
    case Foreign(row) => !Charges(owner, row)
    case _ => true
  }

  /** Whoever can arrive under these tables is admitted by the gate. */
  ghost predicate Covered(cfg: Config, g: Gate) {
    (forall key, agent | LiveRow(cfg, key) :: Admits(cfg, g, NewRequest(cfg, key, agent)))
    && (forall agent | ActiveRow(cfg, agent) :: Admits(cfg, g, AgentRequest(cfg, agent)))
  }

  lemma {:induction false} FrugalIsSteady(cfg: Config, g: Gate, c: Amount, k: nat, s: State, es: seq<Event>)
    requires Covered(cfg, g) && !g.owner.OfAgent?
    requires Legal(cfg, s, es) && Frugal(cfg, g.owner, MeasureOf(g.layer), c, k, s, es)
    ensures Steady(cfg, g, c, k, s, es)
    decreases |es|
  {
    if es != [] {
      var s' := Apply(cfg, s, es[0]);
      SmallerSet(Pending(cfg, s', g), s'.requests.Keys);
      FrugalIsSteady(cfg, g, c, k, s', es[1..]);
    }
  }

  /** The gate's budget bounds its owner in every run of rows of at most c and K requests in flight. */
  ghost predicate Bounds(cfg: Config, g: Gate) {
    forall c: Amount, k: nat, today: Date, es: seq<Event>
      | Legal(cfg, Start(today), es) && Frugal(cfg, g.owner, MeasureOf(g.layer), c, k, Start(today), es) ::
      forall day :: Spent(Run(cfg, Start(today), es).log, MeterOn(g, day)) < Ceiling(g, c, k)
  }

  /** Tables under which everybody is admitted give the bound. */
  lemma CoveredIsBounded(cfg: Config, g: Gate)
    requires Covered(cfg, g) && g.budget > 0 && !g.owner.OfAgent?
    ensures Bounds(cfg, g)
  {
    forall c: Amount, k: nat, today: Date, es: seq<Event>
      | Legal(cfg, Start(today), es) && Frugal(cfg, g.owner, MeasureOf(g.layer), c, k, Start(today), es)
      ensures forall day :: Spent(Run(cfg, Start(today), es).log, MeterOn(g, day)) < Ceiling(g, c, k)
    {
      FrugalIsSteady(cfg, g, c, k, Start(today), es);
      SteadyOverspend(cfg, g, c, k, today, es);
    }
  }

  /** No active agent of the workspace. */
  ghost predicate NoAgentOf(cfg: Config, workspace: string) {
    forall agent | ActiveRow(cfg, agent) :: cfg.agents[agent].workspace != workspace
  }

  /** A workspace gate covers the tables exactly when no active agent belongs to the workspace. */
  lemma WorkspaceArrivals(cfg: Config, layer: Layer, workspace: string)
    requires layer in [WorkspaceDaily, WorkspaceMonthly] && WorkspaceGate(cfg, layer, workspace).budget > 0
    ensures forall key, agent | key in cfg.keys ::
              Admits(cfg, WorkspaceGate(cfg, layer, workspace), NewRequest(cfg, key, agent))
    ensures Covered(cfg, WorkspaceGate(cfg, layer, workspace)) <==> NoAgentOf(cfg, workspace)
  {
    var g := WorkspaceGate(cfg, layer, workspace);
    forall agent | ActiveRow(cfg, agent)
      ensures Admits(cfg, g, AgentRequest(cfg, agent)) <==> cfg.agents[agent].workspace != workspace
    {
    }
  }

  predicate KeyOf(cfg: Config, key: string, workspace: string, user: string) {
    LiveRow(cfg, key) && cfg.keys[key].workspace == workspace && cfg.keys[key].user == user
  }

  /**
   Key budgets are charged by user: each live key of the user must carry a limit of its own, no
   larger than the gate's, and no active agent of the user may be in the workspace.
   */
  ghost predicate UserCovered(cfg: Config, layer: Layer, workspace: string, user: string, limit: int) {
    (forall key | KeyOf(cfg, key, workspace, user) :: 0 < LimitOf(layer, cfg.keys[key].limits) <= limit)
    && forall agent | ActiveRow(cfg, agent) ::
      !(cfg.agents[agent].workspace == workspace && cfg.agents[agent].user == user)
  }

  lemma KeyArrival(
    cfg: Config, layer: Layer, workspace: string, user: string, limit: int, key: string, agent: Option<string>)
    requires layer in [KeyDaily, KeyMonthly] && LiveRow(cfg, key) && key != ""
    ensures Admits(cfg, Gate(layer, OfUser(workspace, user), limit), NewRequest(cfg, key, agent))
       <==> (KeyOf(cfg, key, workspace, user) ==> 0 < LimitOf(layer, cfg.keys[key].limits) <= limit)
  {
    var r := NewRequest(cfg, key, agent);
    assert BudgetOf(cfg, layer, r.subject) == LimitOf(layer, cfg.keys[key].limits);
    assert Layers(r.subject)[if layer.KeyDaily? then 2 else 3] == layer;
  }

  lemma UserArrivals(cfg: Config, layer: Layer, workspace: string, user: string, limit: int)
    requires layer in [KeyDaily, KeyMonthly] && "" !in cfg.keys
    ensures Covered(cfg, Gate(layer, OfUser(workspace, user), limit))
       <==> UserCovered(cfg, layer, workspace, user, limit)
  {
    var g := Gate(layer, OfUser(workspace, user), limit);
    forall key, agent | LiveRow(cfg, key)
      ensures Admits(cfg, g, NewRequest(cfg, key, agent))
         <==> (KeyOf(cfg, key, workspace, user) ==> 0 < LimitOf(layer, cfg.keys[key].limits) <= limit)
    {
      KeyArrival(cfg, layer, workspace, user, limit, key, agent);
    }
    if Covered(cfg, g) {
      forall key | KeyOf(cfg, key, workspace, user) ensures 0 < LimitOf(layer, cfg.keys[key].limits) <= limit {
        assert Admits(cfg, g, NewRequest(cfg, key, None));
      }
      forall agent | ActiveRow(cfg, agent)
        ensures !(cfg.agents[agent].workspace == workspace && cfg.agents[agent].user == user)
      {
        assert Admits(cfg, g, AgentRequest(cfg, agent));
      }
    }
  }

  /** An agent gate admits every API key, whatever agent is checked, and every other agent's key. */
  lemma AgentArrivals(cfg: Config, layer: Layer, agent: string)
    requires layer in [AgentDaily, AgentMonthly] && agent != "" && AgentGate(cfg, layer, agent).budget > 0
    ensures forall key, checked | key in cfg.keys ::
              Admits(cfg, AgentGate(cfg, layer, agent), NewRequest(cfg, key, checked))
    ensures forall other | other in cfg.agents && other != "" ::
              Admits(cfg, AgentGate(cfg, layer, agent), AgentRequest(cfg, other)) <==> other != agent
  {
    forall key, checked | key in cfg.keys
      ensures Admits(cfg, AgentGate(cfg, layer, agent), NewRequest(cfg, key, checked))
    {
      var layers := Layers(NewRequest(cfg, key, checked).subject);
      if NewRequest(cfg, key, checked).subject.agent == Some(agent) {
        assert layers[if layer.AgentDaily? then |layers| - 2 else |layers| - 1] == layer;
      }
    }
  }

  // ── What the gateway sends: no agent with the key, any agent with the row ──

  /** The gateway validates with the key alone. */
  predicate FromGateway(e: Event) {
    e.Arrive? ==> e.agent.None?
  }

  predicate AllFromGateway(es: seq<Event>) {
    forall i | 0 <= i < |es| :: FromGateway(es[i])
  }

  /** In a gateway run no request ever reads an agent layer. */
  lemma {:induction false} GatewayReadsNoAgentLayer(cfg: Config, s: State, es: seq<Event>)
    requires Legal(cfg, s, es) && AllFromGateway(es)
    requires forall id | id in s.requests :: s.requests[id].subject.agent.None?
    ensures forall id | id in Run(cfg, s, es).requests ::
              var layers := Layers(Run(cfg, s, es).requests[id].subject);
              AgentDaily !in layers && AgentMonthly !in layers
    decreases |es|
  {
    if es != [] {
      assert FromGateway(es[0]);
      GatewayReadsNoAgentLayer(cfg, Apply(cfg, s, es[0]), es[1..]);
    }
  }

  /** The same tables but for the limits of the agents. */
  ghost predicate SameButAgentLimits(a: Config, b: Config) {
    a.workspaces == b.workspaces && a.keys == b.keys && a.agents.Keys == b.agents.Keys
    && forall x | x in a.agents ::
      b.agents[x] == a.agents[x].(dailyTokens := b.agents[x].dailyTokens, monthlyCost := b.agents[x].monthlyCost)
  }

  ghost predicate NoAgentChecked(s: State) {
    forall id | id in s.requests :: s.requests[id].subject.agent.None?
  }

  lemma AgentLimitsUnread(a: Config, b: Config, s: State, e: Event)
    requires SameButAgentLimits(a, b) && NoAgentChecked(s) && FromGateway(e) && Enabled(a, s, e)
    ensures Enabled(b, s, e) && Apply(b, s, e) == Apply(a, s, e) && NoAgentChecked(Apply(a, s, e))
  {
    if e.Read? {
      var r := s.requests[e.id];
      var layer := Layers(r.subject)[|r.phase.seen|];
      assert !layer.AgentDaily? && !layer.AgentMonthly?;
      assert Check(a, Moment(s.log, s.today), layer, r.subject) == Check(b, Moment(s.log, s.today), layer, r.subject);
    }
  }

  /** No limit of any agent changes anything about a gateway run. */
  lemma {:induction false} AgentLimitsPlayNoPart(a: Config, b: Config, s: State, es: seq<Event>)
    requires SameButAgentLimits(a, b) && NoAgentChecked(s) && AllFromGateway(es) && Legal(a, s, es)
    ensures Legal(b, s, es) && Run(b, s, es) == Run(a, s, es)
    decreases |es|
  {
    if es != [] {
      assert FromGateway(es[0]);
      AgentLimitsUnread(a, b, s, es[0]);
      AgentLimitsPlayNoPart(a, b, Apply(a, s, es[0]), es[1..]);
    }
  }

  // ── Runs of one request ──

  lemma {:induction false} RunConcat(cfg: Config, s: State, a: seq<Event>, b: seq<Event>)
    requires Legal(cfg, s, a) && Legal(cfg, Run(cfg, s, a), b)
    ensures Legal(cfg, s, a + b) && Run(cfg, s, a + b) == Run(cfg, Run(cfg, s, a), b)
    decreases |a|
  {
    if a == [] {
      assert a + b == b;
    } else {
      var all := a + b;
      assert all[0] == a[0] && all[1..] == a[1..] + b;
      RunConcat(cfg, Apply(cfg, s, a[0]), a[1..], b);
    }
  }

  lemma OneStep(cfg: Config, s: State, e: Event)
    requires Enabled(cfg, s, e)
    ensures Legal(cfg, s, [e]) && Run(cfg, s, [e]) == Apply(cfg, s, e)
  {
    assert [e][1..] == [] && Legal(cfg, Apply(cfg, s, e), []);
    assert Run(cfg, Apply(cfg, s, e), []) == Apply(cfg, s, e);
  }

  function Reads(id: nat, n: nat): seq<Event> {
    if n == 0 then [] else [Read(id)] + Reads(id, n - 1)
  }

  /** The first n readings of a subject, all made at one moment. */
  function Early(cfg: Config, at: Moment, subject: Subject, n: nat): seq<Reading>
    requires n <= |Layers(subject)|
  {
    Readings(cfg, seq(|Layers(subject)|, _ => at), subject)[..n]
  }

  function AtRead(cfg: Config, s: State, id: nat, r: Request, n: nat): State
    requires n <= |Layers(r.subject)|
  {
    s.(requests := s.requests[id := r.(phase := Checking(Early(cfg, Moment(s.log, s.today), r.subject, n)))])
  }

  lemma ReadOne(cfg: Config, s: State, id: nat, r: Request, n: nat)
    requires n < |Layers(r.subject)|
    ensures Enabled(cfg, AtRead(cfg, s, id, r, n), Read(id))
    ensures Apply(cfg, AtRead(cfg, s, id, r, n), Read(id)) == AtRead(cfg, s, id, r, n + 1)
  {
    var at, m := Moment(s.log, s.today), |Layers(r.subject)|;
    var all := Readings(cfg, seq(m, _ => at), r.subject);
    assert all[n] == Check(cfg, at, Layers(r.subject)[n], r.subject);
    assert all[..n] + [all[n]] == all[..n + 1];
  }

  lemma {:induction false} ReadAll(cfg: Config, s: State, id: nat, r: Request, n: nat)
    requires n <= |Layers(r.subject)|
    ensures var rest := Reads(id, |Layers(r.subject)| - n);
            Legal(cfg, AtRead(cfg, s, id, r, n), rest)
            && Run(cfg, AtRead(cfg, s, id, r, n), rest) == AtRead(cfg, s, id, r, |Layers(r.subject)|)
    decreases |Layers(r.subject)| - n
  {
    var left := |Layers(r.subject)| - n;
    if left > 0 {
      ReadOne(cfg, s, id, r, n);
      ReadAll(cfg, s, id, r, n + 1);
      assert Reads(id, left)[0] == Read(id) && Reads(id, left)[1..] == Reads(id, left - 1);
    }
  }

  /** Arrive, read every layer, decide. */
  function Passage(cfg: Config, id: nat, key: string, agent: Option<string>): seq<Event>
    requires key in cfg.keys
  {
    [Arrive(id, key, agent)] + (Reads(id, |Layers(NewRequest(cfg, key, agent).subject)|) + [Decide(id)])
  }

  /** A request that no layer blocks at this moment is forwarded by an undisturbed passage. */
  lemma PassageForwards(cfg: Config, s: State, id: nat, key: string, agent: Option<string>)
    requires id !in s.requests && key in cfg.keys && !cfg.keys[key].revoked
    requires !Blocked(Atomic(cfg, Moment(s.log, s.today), NewRequest(cfg, key, agent).subject))
    ensures Legal(cfg, s, Passage(cfg, id, key, agent))
    ensures Run(cfg, s, Passage(cfg, id, key, agent))
         == s.(requests := s.requests[id := NewRequest(cfg, key, agent).(phase := Forwarded)])
  {
    var r := NewRequest(cfg, key, agent);
    var n := |Layers(r.subject)|;
    var arrive, begun, ready := Arrive(id, key, agent), AtRead(cfg, s, id, r, 0), AtRead(cfg, s, id, r, n);
    assert Early(cfg, Moment(s.log, s.today), r.subject, 0) == [] && r.(phase := Checking([])) == r;
    OneStep(cfg, s, arrive);
    assert Apply(cfg, s, arrive) == begun;
    ReadAll(cfg, s, id, r, 0);
    var all := Readings(cfg, seq(n, _ => Moment(s.log, s.today)), r.subject);
    assert Early(cfg, Moment(s.log, s.today), r.subject, n) == all;
    OneStep(cfg, ready, Decide(id));
    RunConcat(cfg, begun, Reads(id, n), [Decide(id)]);
    RunConcat(cfg, s, [arrive], Reads(id, n) + [Decide(id)]);
    assert Apply(cfg, ready, Decide(id)).requests == s.requests[id := r.(phase := Forwarded)];
  }

  lemma PassageFromGateway(cfg: Config, id: nat, key: string)
    requires key in cfg.keys
    ensures AllFromGateway(Passage(cfg, id, key, None))
  {
    ReadsAreReads(id, |Layers(NewRequest(cfg, key, None).subject)|);
  }

  lemma {:induction false} ReadsAreReads(id: nat, n: nat)
    ensures forall i | 0 <= i < |Reads(id, n)| :: Reads(id, n)[i] == Read(id)
  {
    if n > 0 { ReadsAreReads(id, n - 1); }
  }

  /** The row a request logs when it is forwarded and recorded, whatever its price. */
  lemma PassageSpends(cfg: Config, s: State, id: nat, key: string, record: Event)
    requires id !in s.requests && key in cfg.keys && !cfg.keys[key].revoked && record.Record? && record.id == id
    requires !Blocked(Atomic(cfg, Moment(s.log, s.today), NewRequest(cfg, key, None).subject))
    ensures var es := Passage(cfg, id, key, None) + [record];
            Legal(cfg, s, es) && AllFromGateway(es)
            && Run(cfg, s, es) == s.(log := s.log + [RowOf(NewRequest(cfg, key, None), record, s.today)])
  {
    var r := NewRequest(cfg, key, None);
    PassageForwards(cfg, s, id, key, None);
    PassageFromGateway(cfg, id, key);
    var forwarded := s.(requests := s.requests[id := r.(phase := Forwarded)]);
    OneStep(cfg, forwarded, record);
    RunConcat(cfg, s, Passage(cfg, id, key, None), [record]);
    assert s.requests[id := r.(phase := Forwarded)] - {id} == s.requests;
  }

  lemma QuietAtStart(cfg: Config, today: Date, subject: Subject)
    ensures Atomic(cfg, Moment([], today), subject) == None
  {
    NoAlertIff(cfg, Moment([], today), subject);
  }

  // ── The share of outstanding requests is real ──

  /**
   The budget alone is no bound: whatever the budgets, a single admitted request can bring
   the spend of its workspace to any amount, because it is priced after its check.
   */
  lemma OneRequestCanOverspend(cfg: Config, key: string, today: Date, amount: Amount)
    requires key in cfg.keys && !cfg.keys[key].revoked
    ensures exists es ::
              Legal(cfg, Start(today), es) && AllFromGateway(es)
              && Spent(Run(cfg, Start(today), es).log, Meter(OfWorkspace(cfg.keys[key].workspace), Cost, Day(today)))
                 == amount
  {
    var r, record := NewRequest(cfg, key, None), Record(0, None, None, amount, 0, 0);
    QuietAtStart(cfg, today, r.subject);
    PassageSpends(cfg, Start(today), 0, key, record);
    SpentAppend([], RowOf(r, record, today), Meter(OfWorkspace(cfg.keys[key].workspace), Cost, Day(today)));
  }

  /**
   No limit of an agent bounds what gateway requests charge to it: as long as the workspace
   and the key do not block, one more request naming the agent in its header is forwarded,
   whatever the agent has already spent, and adds any tokens and any cost.
   */
  lemma HeaderAgentsEscape(cfg: Config, s: State, id: nat, key: string, agent: string, cost: Amount, tokens: nat)
    requires id !in s.requests && key in cfg.keys && !cfg.keys[key].revoked && agent != ""
    requires !Blocked(Atomic(cfg, Moment(s.log, s.today), NewRequest(cfg, key, None).subject))
    ensures exists es ::
              && Legal(cfg, s, es) && AllFromGateway(es)
              && Spent(Run(cfg, s, es).log, Meter(OfAgent(agent), Tokens, Day(s.today)))
                 == Spent(s.log, Meter(OfAgent(agent), Tokens, Day(s.today))) + tokens as real
              && Spent(Run(cfg, s, es).log, Meter(OfAgent(agent), Cost, Month(s.today.year, s.today.month)))
                 == Spent(s.log, Meter(OfAgent(agent), Cost, Month(s.today.year, s.today.month))) + cost
  {
    var record := Record(id, Some(agent), None, cost, tokens, 0);
    var row := RowOf(NewRequest(cfg, key, None), record, s.today);
    PassageSpends(cfg, s, id, key, record);
    SpentAppend(s.log, row, Meter(OfAgent(agent), Tokens, Day(s.today)));
    SpentAppend(s.log, row, Meter(OfAgent(agent), Cost, Month(s.today.year, s.today.month)));
  }

  /**
   The agent-key path has no gate at all: in every state, whatever has been spent, a request
   with an agent key is forwarded and adds any cost to its workspace and to its agent.
   */
  lemma AgentKeysEscape(cfg: Config, s: State, id: nat, agent: string, cost: Amount)
    requires id !in s.requests && agent in cfg.agents && cfg.agents[agent].active && agent != ""
    ensures var w := Meter(OfWorkspace(cfg.agents[agent].workspace), Cost, Day(s.today));
            var a := Meter(OfAgent(agent), Cost, Month(s.today.year, s.today.month));
            var es := [ArriveAgent(id, agent)] + [Record(id, None, None, cost, 0, 0)];
            && Legal(cfg, s, es) && AllFromGateway(es)
            && Spent(Run(cfg, s, es).log, w) == Spent(s.log, w) + cost
            && Spent(Run(cfg, s, es).log, a) == Spent(s.log, a) + cost
  {
    var r, record := AgentRequest(cfg, agent), Record(id, None, None, cost, 0, 0);
    var s' := Apply(cfg, s, ArriveAgent(id, agent));
    OneStep(cfg, s, ArriveAgent(id, agent));
    OneStep(cfg, s', record);
    RunConcat(cfg, s, [ArriveAgent(id, agent)], [record]);
    var row := RowOf(r, record, s.today);
    SpentAppend(s.log, row, Meter(OfWorkspace(r.subject.workspace), Cost, Day(s.today)));
    SpentAppend(s.log, row, Meter(OfAgent(agent), Cost, Month(s.today.year, s.today.month)));
  }

  /**
   Neither is there a gate for a request without a OneLLM key: in every state its row adds any
   cost to the workspace and the user its headers name.
   */
  lemma ForeignRowsEscape(cfg: Config, s: State, workspace: string, user: string, cost: Amount)
    ensures var w := Meter(OfWorkspace(workspace), Cost, Day(s.today));
            var u := Meter(OfUser(workspace, user), Cost, Month(s.today.year, s.today.month));
            exists es ::
              && Legal(cfg, s, es) && AllFromGateway(es)
              && Spent(Run(cfg, s, es).log, w) == Spent(s.log, w) + cost
              && Spent(Run(cfg, s, es).log, u) == Spent(s.log, u) + cost
  {
    var row := LogRow(Some(workspace), Some(user), None, None, None, 0, 0, cost, s.today);
    OneStep(cfg, s, Foreign(row));
    SpentAppend(s.log, row, Meter(OfWorkspace(workspace), Cost, Day(s.today)));
    SpentAppend(s.log, row, Meter(OfUser(workspace, user), Cost, Month(s.today.year, s.today.month)));
    assert AllFromGateway([Foreign(row)]);
  }
}
