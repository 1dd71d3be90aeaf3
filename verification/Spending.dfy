/**
 Per-binding spend and the `validate-key` response: the merge of daily and monthly query
 results into one map (admin-api/src/routes/internal.ts), the two-map version of the same
 join (admin-api/src/services/budget.ts, `getBudgetSettings`), and what both conserve.
 */
module Spending {
  import opened Wrappers
  import opened Budget

  /** One row of `SELECT binding_id, SUM(cost_cents) ... GROUP BY binding_id`. */
  datatype Group = Group(binding: string, total: Amount)

  datatype Spend = Spend(daily: Amount, monthly: Amount)

  function SpentBy(log: Log, binding: string, period: Period): Amount {
    Spent(log, Meter(OfBinding(binding), Cost, period))
  }

  function MonthOf(date: Date): Period {
    Month(date.year, date.month)
  }

  predicate SameMonth(a: Date, b: Date) {
    MonthOf(a) == MonthOf(b)
  }

  predicate Charged(log: Log, binding: string, period: Period) {
    exists r | r in log :: r.binding == Some(binding) && Within(period, r.date)
  }

  ghost predicate OnePerBinding(groups: seq<Group>) {
    forall i, j | 0 <= i < j < |groups| :: groups[i].binding != groups[j].binding
  }

  ghost predicate Mentions(groups: seq<Group>, b: string) {
    exists g | g in groups :: g.binding == b
  }

  /** What the grouped query returns, in any row order: one row per listed binding that has log rows. */
  ghost predicate IsGroupBy(groups: seq<Group>, log: Log, ids: seq<string>, period: Period) {
    OnePerBinding(groups)
    && (forall g | g in groups :: g.binding in ids && g.total == SpentBy(log, g.binding, period))
    && (forall b | b in ids && Charged(log, b, period) :: Mentions(groups, b))
  }

  lemma {:induction false} UnchargedIsZero(log: Log, binding: string, period: Period)
    requires !Charged(log, binding, period)
    ensures SpentBy(log, binding, period) == 0.0
  {
    if log != [] {
      assert log[0] in log;
      forall r | r in log[1..] ensures r in log {}
      assert !Charged(log[1..], binding, period);
      UnchargedIsZero(log[1..], binding, period);
    }
  }

  lemma MentionsAppend(groups: seq<Group>, g: Group)
    ensures forall b :: Mentions(groups + [g], b) <==> Mentions(groups, b) || b == g.binding
  {
    assert g in groups + [g];
  }

  // ── One map of pairs, as `validate-key` fills it ──

  function Lookup(m: map<string, Spend>, b: string): Spend {
    if b in m then m[b] else Spend(0.0, 0.0)
  }

  /** Sets the daily, or else the monthly, half of an entry. */
  function WithHalf(e: Spend, daily: bool, total: Amount): Spend {
    if daily then e.(daily := total) else e.(monthly := total)
  }

  /** One of the two loops of the merge. */
  method MergeInto(m: map<string, Spend>, groups: seq<Group>, daily: bool) returns (merged: map<string, Spend>)
    requires OnePerBinding(groups)
    ensures forall b | !Mentions(groups, b) :: Lookup(merged, b) == Lookup(m, b)
    ensures forall g | g in groups :: Lookup(merged, g.binding) == WithHalf(Lookup(m, g.binding), daily, g.total)
  {
    merged := m;
    for i := 0 to |groups|
      invariant forall b | !Mentions(groups[..i], b) :: Lookup(merged, b) == Lookup(m, b)
      invariant forall g | g in groups[..i] ::
          Lookup(merged, g.binding) == WithHalf(Lookup(m, g.binding), daily, g.total)
    {
      var row := groups[i];
      merged := merged[row.binding := WithHalf(Lookup(merged, row.binding), daily, row.total)];
      assert groups[..i + 1] == groups[..i] + [row];
      MentionsAppend(groups[..i], row);
    }
    assert groups[..|groups|] == groups;
  }

  /**
   The per-binding spend of `validate-key`.  The monthly query runs after the daily one and
   may see more rows, or fall on a later day; each listed binding gets exactly its own two sums, zeros included.
   */
  method MergeSpending(ids: seq<string>, daily: seq<Group>, monthly: seq<Group>,
                       ghost dailyLog: Log, ghost monthlyLog: Log, ghost day: Date, ghost month: Date)
    returns (m: map<string, Spend>)
    requires IsGroupBy(daily, dailyLog, ids, Day(day))
    requires IsGroupBy(monthly, monthlyLog, ids, MonthOf(month))
    ensures forall b | b in ids ::
              Lookup(m, b) == Spend(SpentBy(dailyLog, b, Day(day)), SpentBy(monthlyLog, b, MonthOf(month)))
  {
    m := MergeInto(map[], daily, true);
    ghost var half := m;
    m := MergeInto(m, monthly, false);
    forall b | b in ids
      ensures Lookup(m, b) == Spend(SpentBy(dailyLog, b, Day(day)), SpentBy(monthlyLog, b, MonthOf(month)))
    {
      if !Mentions(daily, b) { UnchargedIsZero(dailyLog, b, Day(day)); }
      if !Mentions(monthly, b) { UnchargedIsZero(monthlyLog, b, MonthOf(month)); }
      assert Lookup(half, b) == Spend(SpentBy(dailyLog, b, Day(day)), 0.0);
    }
  }

  // ── Two maps, as `getBudgetSettings` fills them ──

  function TotalOr(m: map<string, Amount>, b: string): Amount {
    if b in m then m[b] else 0.0
  }

  /** `map.set(binding_id, total)` per row; a listed binding then looks up its own sum, or zero. */
  method FillTotals(groups: seq<Group>, ghost log: Log, ghost ids: seq<string>, ghost period: Period)
    returns (m: map<string, Amount>)
    requires IsGroupBy(groups, log, ids, period)
    ensures forall b | b in ids :: TotalOr(m, b) == SpentBy(log, b, period)
  {
    m := map[];
    for i := 0 to |groups|
      invariant forall b | !Mentions(groups[..i], b) :: b !in m
      invariant forall g | g in groups[..i] :: TotalOr(m, g.binding) == g.total
    {
      m := m[groups[i].binding := groups[i].total];
      assert groups[..i + 1] == groups[..i] + [groups[i]];
      MentionsAppend(groups[..i], groups[i]);
    }
    assert groups[..|groups|] == groups;
    forall b | b in ids ensures TotalOr(m, b) == SpentBy(log, b, period) {
      if !Mentions(groups, b) { UnchargedIsZero(log, b, period); }
    }
  }

  datatype BindingRow = BindingRow(id: string, dailyBudget: int, monthlyBudget: int)

  function Ids(rows: seq<BindingRow>): (ids: seq<string>)
    ensures |ids| == |rows| && forall i | 0 <= i < |rows| :: ids[i] == rows[i].id
  {
    if rows == [] then [] else [rows[0].id] + Ids(rows[1..])
  }

  datatype BindingView = BindingView(row: BindingRow, spend: Spend, rateLimit: Option<int>)

  /** The bindings of a key with their spend, from the two maps. */
  method SettingsBindings(rows: seq<BindingRow>, daily: seq<Group>, monthly: seq<Group>,
                          ghost dailyLog: Log, ghost monthlyLog: Log, ghost day: Date, ghost month: Date)
    returns (views: seq<BindingView>)
    requires IsGroupBy(daily, dailyLog, Ids(rows), Day(day))
    requires IsGroupBy(monthly, monthlyLog, Ids(rows), MonthOf(month))
    ensures |views| == |rows|
    ensures forall i | 0 <= i < |rows| ::
              views[i] == BindingView(rows[i], Spend(SpentBy(dailyLog, rows[i].id, Day(day)),
                                                     SpentBy(monthlyLog, rows[i].id, MonthOf(month))), None)
  {
    var dailyMap := FillTotals(daily, dailyLog, Ids(rows), Day(day));
    var monthlyMap := FillTotals(monthly, monthlyLog, Ids(rows), MonthOf(month));
    views := seq(|rows|, i requires 0 <= i < |rows| =>
      BindingView(rows[i], Spend(TotalOr(dailyMap, rows[i].id), TotalOr(monthlyMap, rows[i].id)),
                  None));
    forall i | 0 <= i < |rows| ensures rows[i].id in Ids(rows) { assert Ids(rows)[i] == rows[i].id; }
  }

  // ── Conservation ──

  function SpentByAny(log: Log, ids: seq<string>, period: Period): Amount {
    if log == [] then 0.0
    else
      (if log[0].binding.Some? && log[0].binding.value in ids && Within(period, log[0].date) then log[0].cost else 0.0)
      + SpentByAny(log[1..], ids, period)
  }

  function SumOver(log: Log, ids: seq<string>, period: Period): Amount {
    if ids == [] then 0.0 else SpentBy(log, ids[0], period) + SumOver(log, ids[1..], period)
  }

  lemma {:induction false} PeelBinding(log: Log, ids: seq<string>, period: Period)
    requires ids != [] && Distinct(ids)
    ensures SpentByAny(log, ids, period) == SpentBy(log, ids[0], period) + SpentByAny(log, ids[1..], period)
  {
    if log != [] {
      PeelBinding(log[1..], ids, period);
      assert ids == [ids[0]] + ids[1..];
      assert ids[0] !in ids[1..];
    }
  }

  lemma {:induction false} NoBindingsNoSpend(log: Log, period: Period)
    ensures SpentByAny(log, [], period) == 0.0
  {
    if log != [] { NoBindingsNoSpend(log[1..], period); }
  }

  /** The per-binding sums add up to the cost of all log rows of those bindings: nothing lost, nothing twice. */
  lemma {:induction false} SpendIsConserved(log: Log, ids: seq<string>, period: Period)
    requires Distinct(ids)
    ensures SumOver(log, ids, period) == SpentByAny(log, ids, period)
  {
    if ids == [] {
      NoBindingsNoSpend(log, period);
    } else {
      SpendIsConserved(log, ids[1..], period);
      PeelBinding(log, ids, period);
    }
  }

  /** A day is part of its month, and a later read sees a longer log. */
  lemma {:induction false} OwnerDailyWithinMonthly(dailyLog: Log, monthlyLog: Log, owner: Owner, day: Date, month: Date)
    requires dailyLog <= monthlyLog && SameMonth(day, month)
    ensures Spent(dailyLog, Meter(owner, Cost, Day(day))) <= Spent(monthlyLog, Meter(owner, Cost, MonthOf(month)))
  {
    if dailyLog != [] {
      OwnerDailyWithinMonthly(dailyLog[1..], monthlyLog[1..], owner, day, month);
    }
  }

  function RowFor(binding: Option<string>, key: Option<string>, workspace: string, user: string, cost: Amount,
                  day: Date)
    : LogRow
  {
    LogRow(Some(workspace), Some(user), None, binding, key, 0, 0, cost, day)
  }

  /**
   A binding's daily spend never exceeds its monthly spend exactly when the monthly query still
   runs in the month of the daily one: across midnight at a month's end it can.
   */
  lemma DailyWithinMonthlyIff(b: string, day: Date, month: Date)
    ensures (forall dailyLog: Log, monthlyLog: Log | dailyLog <= monthlyLog ::
               SpentBy(dailyLog, b, Day(day)) <= SpentBy(monthlyLog, b, MonthOf(month)))
       <==> SameMonth(day, month)
  {
    if SameMonth(day, month) {
      forall dailyLog: Log, monthlyLog: Log | dailyLog <= monthlyLog
        ensures SpentBy(dailyLog, b, Day(day)) <= SpentBy(monthlyLog, b, MonthOf(month))
      {
        OwnerDailyWithinMonthly(dailyLog, monthlyLog, OfBinding(b), day, month);
      }
    } else {
      var row := RowFor(Some(b), None, "", "", 1.0, day);
      SpentAppend([], row, Meter(OfBinding(b), Cost, Day(day)));
      SpentAppend([], row, Meter(OfBinding(b), Cost, MonthOf(month)));
      assert [] + [row] == [row];
      assert SpentBy([row], b, Day(day)) == 1.0 && SpentBy([row], b, MonthOf(month)) == 0.0;
    }
  }

  /** Without bindings: the sums by key where they are positive, the user's sums otherwise. */
  function Fallback(byApiKey: Spend, byUser: Spend): Spend {
    Spend(if byApiKey.daily > 0.0 then byApiKey.daily else byUser.daily,
          if byApiKey.monthly > 0.0 then byApiKey.monthly else byUser.monthly)
  }

  /** The daily and monthly sums of an owner, read from one log on one day. */
  function SumsOf(log: Log, owner: Owner, day: Date): Spend {
    Spend(Spent(log, Meter(owner, Cost, Day(day))), Spent(log, Meter(owner, Cost, MonthOf(day))))
  }

  /**
   The fallbacks mix two owners: even read from one log, daily spend stays within monthly
   exactly unless the key was used earlier this month but not today, and the user spent more
   today than the key did all month.
   */
  lemma FallbackDailyWithinMonthlyIff(log: Log, key: string, workspace: string, user: string, day: Date)
    ensures var k, u := SumsOf(log, OfKey(key), day), SumsOf(log, OfUser(workspace, user), day);
            Fallback(k, u).daily <= Fallback(k, u).monthly
            <==> !(k.daily == 0.0 && k.monthly > 0.0 && u.daily > k.monthly)
  {
    OwnerDailyWithinMonthly(log, log, OfKey(key), day, day);
    OwnerDailyWithinMonthly(log, log, OfUser(workspace, user), day, day);
  }

  /** It happens: one cent on this key earlier in the month, a hundred on the user's other key today. */
  lemma FallbackDailyCanExceedMonthly(key: string, other: string, workspace: string, user: string, earlier: Date,
                                      day: Date)
    requires key != other && earlier != day && SameMonth(earlier, day)
    ensures exists log ::
              var k, u := SumsOf(log, OfKey(key), day), SumsOf(log, OfUser(workspace, user), day);
              Fallback(k, u) == Spend(100.0, 1.0)
  {
    var a, b := RowFor(None, Some(key), workspace, user, 1.0, earlier),
                RowFor(None, Some(other), workspace, user, 100.0, day);
    forall m ensures Spent([a, b], m) == Contribution(m, a) + Contribution(m, b) {
      assert [a, b][1..] == [b] && [b][1..] == [] && Spent([], m) == 0.0;
    }
    assert Fallback(SumsOf([a, b], OfKey(key), day), SumsOf([a, b], OfUser(workspace, user), day)) == Spend(100.0, 1.0);
  }

  /** Key-level spend in `getBudgetSettings`: the bindings' sum, or else the fallbacks. */
  method KeySpending(views: seq<BindingView>, byApiKey: Spend, byUser: Spend,
                     ghost dailyLog: Log, ghost monthlyLog: Log, ghost day: Date, ghost month: Date)
    returns (spend: Spend)
    requires dailyLog <= monthlyLog
    requires forall i, j | 0 <= i < j < |views| :: views[i].row.id != views[j].row.id
    requires forall v | v in views ::
               v.spend == Spend(SpentBy(dailyLog, v.row.id, Day(day)), SpentBy(monthlyLog, v.row.id, MonthOf(month)))
    ensures views != [] ==>
              spend == Spend(SpentByAny(dailyLog, ViewIds(views), Day(day)),
                             SpentByAny(monthlyLog, ViewIds(views), MonthOf(month)))
              && (SameMonth(day, month) ==> spend.daily <= spend.monthly)
    ensures views == [] ==> spend == Fallback(byApiKey, byUser)
  {
    if |views| == 0 {
      return Spend(if byApiKey.daily > 0.0 then byApiKey.daily else byUser.daily,
                   if byApiKey.monthly > 0.0 then byApiKey.monthly else byUser.monthly);
    }
    var daily: Amount, monthly: Amount := 0.0, 0.0;
    ghost var ids := ViewIds(views);
    for i := 0 to |views|
      invariant daily + SumOver(dailyLog, ids[i..], Day(day)) == SumOver(dailyLog, ids, Day(day))
      invariant monthly + SumOver(monthlyLog, ids[i..], MonthOf(month))
             == SumOver(monthlyLog, ids, MonthOf(month))
      invariant SameMonth(day, month) ==> daily <= monthly
    {
      assert views[i] in views && ids[i..][1..] == ids[i + 1..];
      if SameMonth(day, month) {
        OwnerDailyWithinMonthly(dailyLog, monthlyLog, OfBinding(views[i].row.id), day, month);
      }
      daily := daily + views[i].spend.daily;
      monthly := monthly + views[i].spend.monthly;
    }
    SpendIsConserved(dailyLog, ids, Day(day));
    SpendIsConserved(monthlyLog, ids, MonthOf(month));
    spend := Spend(daily, monthly);
  }

  function ViewIds(views: seq<BindingView>): (ids: seq<string>)
    ensures |ids| == |views| && forall i | 0 <= i < |views| :: ids[i] == views[i].row.id
  {
    if views == [] then [] else [views[0].row.id] + ViewIds(views[1..])
  }

  // ── The response of `validate-key` ──

  datatype KeyFacts = KeyFacts(rateLimit: int, legacyCredential: bool, dailyBudget: int, monthlyBudget: int)
  datatype Response = Response(valid: bool, bindings: seq<BindingView>, budget: Reading)

  /** Half the configured rate, which is 60 when unset; never less than one. */
  function ThrottledRate(rateLimit: int): (r: int)
    ensures rateLimit == 0 ==> r == 30
    ensures rateLimit < 2 && rateLimit != 0 ==> r == 1
    ensures rateLimit >= 2 ==> 2 * r <= rateLimit < 2 * r + 2
  {
    var half := (if rateLimit == 0 then 60 else rateLimit) / 2;
    if half < 1 then 1 else half
  }

  /** The answer for a matched key: its bindings or the legacy one, marked when throttled, refused on cutoff. */
  method Respond(key: KeyFacts, rows: seq<BindingRow>, spending: map<string, Spend>, verdict: Reading)
    returns (r: Response)
    ensures r.valid <==> !(verdict.Some? && verdict.value.level == Cutoff)
    ensures r.budget == verdict
    ensures |r.bindings| == if rows != [] then |rows| else if key.legacyCredential then 1 else 0
    ensures forall i | 0 <= i < |rows| ::
              r.bindings[i].row == rows[i] && r.bindings[i].spend == Lookup(spending, rows[i].id)
    ensures rows == [] && key.legacyCredential ==>
              r.bindings[0].row == BindingRow("legacy", key.dailyBudget, key.monthlyBudget)
              && r.bindings[0].spend == Spend(0.0, 0.0)
    ensures forall v | v in r.bindings ::
              v.rateLimit == if verdict.Some? && verdict.value.level == Throttle
              then Some(ThrottledRate(key.rateLimit)) else None
  {
    var n := |rows|;
    var bindings := seq(n, i requires 0 <= i < n => BindingView(rows[i], Lookup(spending, rows[i].id), None));
    if |bindings| == 0 && key.legacyCredential {
      bindings := [BindingView(BindingRow("legacy", key.dailyBudget, key.monthlyBudget), Spend(0.0, 0.0), None)];
    }
    if verdict.Some? && verdict.value.level == Throttle {
      var unmarked := bindings;
      bindings := seq(|unmarked|, i requires 0 <= i < |unmarked| =>
        unmarked[i].(rateLimit := Some(ThrottledRate(key.rateLimit))));
    }
    r := Response(!(verdict.Some? && verdict.value.level == Cutoff), bindings, verdict);
  }
}
