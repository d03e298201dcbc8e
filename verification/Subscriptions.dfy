/**
 Subscription periods (billing/subscription.py, billing/entitlements.py lines 31-39).

 Time is counted in whole seconds. `ApplyPlan` is what one application of a plan does to the
 stored subscription; the results are about whole histories of applications.
 */
module Subscriptions {
  import opened Basics

  datatype Interval = Monthly | Yearly

  datatype Plan = Plan(id: int, interval: Interval, allowsApi: bool)

  datatype Status = Trial | Active | PastDue | Canceled | Expired

  datatype Subscription = Subscription(
    planId: int, status: Status, startedAt: int, periodEnd: int, canceledAt: Option<int>)

  const DAY := 86400

  function PeriodDelta(plan: Plan): (d: int)
    ensures d == if plan.interval == Yearly then 31536000 else 2592000
  {
    if plan.interval == Yearly then 365 * DAY else 30 * DAY
  }

  /** The new period is appended to the running one instead of starting now. */
  predicate Extends(sub: Option<Subscription>, plan: Plan, now: int) {
    && sub.Some?
    && sub.value.status == Active
    && sub.value.periodEnd > now
    && sub.value.planId == plan.id
  }

  function ApplyPlan(sub: Option<Subscription>, plan: Plan, now: int): Subscription {
    match sub
    case None => Subscription(plan.id, Active, now, now + PeriodDelta(plan), None)
    case Some(s) =>
      var start := if Extends(sub, plan, now) then s.periodEnd else now;
      s.(planId := plan.id, status := Active, canceledAt := None, periodEnd := start + PeriodDelta(plan))
  }

  /** The organization row and its subscription row. */
  class Account {
    var subscription: Option<Subscription>
    var apiEnabled: bool

    constructor (subscription: Option<Subscription>, apiEnabled: bool)
      ensures this.subscription == subscription && this.apiEnabled == apiEnabled
    {
      this.subscription := subscription;
      this.apiEnabled := apiEnabled;
    }

    /** A first subscription is created without looking at the API flag. */
    method ApplySubscriptionPlan(plan: Plan, now: int) returns (sub: Subscription)
      modifies this
      ensures sub == ApplyPlan(old(subscription), plan, now)
      ensures subscription == Some(sub)
      ensures apiEnabled == (old(apiEnabled) || (old(subscription).Some? && plan.allowsApi))
    {
      var delta := PeriodDelta(plan);
      if subscription.None? {
        sub := Subscription(plan.id, Active, now, now + delta, None);
        subscription := Some(sub);
        return;
      }
      sub := subscription.value;
      var start := now;
      if sub.status == Active && sub.periodEnd > now && sub.planId == plan.id {
        start := sub.periodEnd;
      }
      sub := sub.(planId := plan.id);
      sub := sub.(status := Active);
      sub := sub.(canceledAt := None);
      sub := sub.(periodEnd := start + delta);
      subscription := Some(sub);
      if plan.allowsApi && !apiEnabled {
        apiEnabled := true;
      }
    }
  }

  // -------------------------------------------------------------- histories

  datatype Application = Application(plan: Plan, at: int)

  function After(sub: Option<Subscription>, apps: seq<Application>): (r: Option<Subscription>)
    decreases |apps|
  {
    if apps == [] then sub
    else
      var last := apps[|apps| - 1];
      Some(ApplyPlan(After(sub, apps[..|apps| - 1]), last.plan, last.at))
  }

  predicate InOrder(apps: seq<Application>) {
    forall i, j | 0 <= i < j < |apps| :: apps[i].at <= apps[j].at
  }

  /** How many applications have happened by second `t`. */
  function Done(apps: seq<Application>, t: int): (n: nat)
    ensures n <= |apps|
  {
    if apps == [] || apps[0].at > t then 0 else 1 + Done(apps[1..], t)
  }

  /** `get_entitlements` grants the paid plan. */
  predicate Entitled(sub: Option<Subscription>, t: int) {
    && sub.Some?
    && (sub.value.status == Active || sub.value.status == Trial)
    && sub.value.periodEnd >= t
  }

  /** The whole second starting at `t` is entitled. */
  predicate SecondCovered(sub: Option<Subscription>, t: int) {
    Entitled(sub, t) && Entitled(sub, t + 1)
  }

  /** Seconds of [from, until) in which the organization holds its plan, reading the row as it is at each second. */
  function EntitledSeconds(sub: Option<Subscription>, apps: seq<Application>, from: int, until: int): (n: nat)
    decreases until - from
  {
    if from >= until then 0
    else
      var rest := EntitledSeconds(sub, apps, from + 1, until);
      if SecondCovered(After(sub, apps[..Done(apps, from)]), from) then 1 + rest else rest
  }

  /** Paid time not used yet at `now`; trial time is not paid time. */
  function Unexpired(sub: Option<Subscription>, now: int): int {
    if sub.Some? && sub.value.status == Active && sub.value.periodEnd > now then sub.value.periodEnd - now else 0
  }

  /** Paid time an application throws away: all of it when the plan changes. */
  function Dropped(sub: Option<Subscription>, app: Application): int {
    if sub.Some? && sub.value.planId != app.plan.id then Unexpired(sub, app.at) else 0
  }

  function TotalDropped(sub: Option<Subscription>, apps: seq<Application>): int
    decreases |apps|
  {
    if apps == [] then 0
    else Dropped(sub, apps[0]) + TotalDropped(Some(ApplyPlan(sub, apps[0].plan, apps[0].at)), apps[1..])
  }

  function TotalPeriods(apps: seq<Application>): int {
    if apps == [] then 0 else PeriodDelta(apps[0].plan) + TotalPeriods(apps[1..])
  }

  lemma {:induction false} AfterFromFront(sub: Option<Subscription>, apps: seq<Application>)
    requires apps != []
    ensures After(sub, apps) == After(Some(ApplyPlan(sub, apps[0].plan, apps[0].at)), apps[1..])
    decreases |apps|
  {
    if |apps| > 1 {
      AfterFromFront(sub, apps[..|apps| - 1]);
      assert apps[..|apps| - 1][1..] == apps[1..][..|apps| - 2];
    } else {
      assert apps[..0] == [];
    }
  }

  /** After the first application the history continues from the row it left. */
  lemma {:induction false} SecondsFromFront(sub: Option<Subscription>, apps: seq<Application>, from: int, until: int)
    requires apps != [] && apps[0].at <= from
    ensures EntitledSeconds(sub, apps, from, until)
         == EntitledSeconds(Some(ApplyPlan(sub, apps[0].plan, apps[0].at)), apps[1..], from, until)
    decreases until - from
  {
    if from < until {
      SecondsFromFront(sub, apps, from + 1, until);
      var n := Done(apps, from);
      AfterFromFront(sub, apps[..n]);
      assert apps[..n][1..] == apps[1..][..n - 1];
    }
  }

  function Overlap(from: int, until: int, end: int): int {
    if from >= until || end <= from then 0
    else if end < until then end - from
    else until - from
  }

  /** With no application in between, the entitled seconds run to the period end. */
  lemma {:induction false} SecondsOfOneRow(s: Subscription, apps: seq<Application>, from: int, until: int)
    requires s.status == Active
    requires apps == [] || until <= apps[0].at
    ensures EntitledSeconds(Some(s), apps, from, until) == Overlap(from, until, s.periodEnd)
    decreases until - from
  {
    if from < until {
      SecondsOfOneRow(s, apps, from + 1, until);
      assert apps[..0] == [];
    }
  }

  lemma {:induction false} SecondsSplit(sub: Option<Subscription>, apps: seq<Application>, from: int, mid: int, until: int)
    requires from <= mid <= until
    ensures EntitledSeconds(sub, apps, from, until)
         == EntitledSeconds(sub, apps, from, mid) + EntitledSeconds(sub, apps, mid, until)
    decreases mid - from
  {
    if from < mid {
      SecondsSplit(sub, apps, from + 1, mid, until);
    }
  }

  /** One application: what it adds is used by `until`, still open at `until`, or was dropped. */
  lemma OnePeriod(sub: Option<Subscription>, app: Application, until: int)
    requires app.at <= until
    ensures var s := ApplyPlan(sub, app.plan, app.at);
            && s.status == Active
            && Overlap(app.at, until, s.periodEnd) + Dropped(sub, app) + Unexpired(Some(s), until)
            == Unexpired(sub, app.at) + PeriodDelta(app.plan)
  {
  }

  /**
   Paid time is conserved: the seconds an organization is entitled from its first application
   on, plus the paid time lost at plan switches, are the periods it bought plus the paid time
   it still had.
   */
  lemma {:induction false} PaidTimeConserved(sub: Option<Subscription>, apps: seq<Application>, horizon: int)
    requires apps != [] && InOrder(apps)
    requires After(sub, apps).value.periodEnd <= horizon && apps[|apps| - 1].at <= horizon
    ensures EntitledSeconds(sub, apps, apps[0].at, horizon) + TotalDropped(sub, apps)
         == Unexpired(sub, apps[0].at) + TotalPeriods(apps)
    ensures TotalPeriods(apps) == 2592000 * Bought(apps, Monthly) + 31536000 * Bought(apps, Yearly)
    decreases |apps|
  {
    PeriodsBought(apps);
    var first, rest := apps[0], apps[1..];
    var s := ApplyPlan(sub, first.plan, first.at);
    var until := if rest == [] then horizon else rest[0].at;
    SecondsFromFront(sub, apps, first.at, horizon);
    AfterFromFront(sub, apps);
    OnePeriod(sub, first, until);
    SecondsOfOneRow(s, rest, first.at, until);
    hide EntitledSeconds, ApplyPlan, Dropped;
    if rest == [] {
      assert After(Some(s), rest) == Some(s);
    } else {
      assert rest[|rest| - 1] == apps[|apps| - 1];
      SecondsSplit(Some(s), rest, first.at, until, horizon);
      PaidTimeConserved(Some(s), rest, horizon);
    }
  }

  /** A month is 30 days of 86400 seconds, a year 365. */
  function PeriodSeconds(interval: Interval): int {
    match interval
    case Monthly => 2592000
    case Yearly => 31536000
  }

  /**
   One application, in seconds: it runs its period on from the old end when it extends, from now
   otherwise, and the organization is entitled from now through that second and not one second longer.
   */
  lemma PlanPeriod(sub: Option<Subscription>, plan: Plan, now: int)
    ensures var s, length := ApplyPlan(sub, plan, now), if plan.interval == Monthly then 2592000 else 31536000;
            && (s.periodEnd == if sub.Some? && sub.value.status == Active && sub.value.planId == plan.id
                                  && sub.value.periodEnd > now
                               then sub.value.periodEnd + length
                               else now + length)
            && s.planId == plan.id && s.status == Active && s.canceledAt == None
            && s.startedAt == (if sub.Some? then sub.value.startedAt else now)
            && (forall t | t >= now :: Entitled(Some(s), t) <==> t <= s.periodEnd)
            && Entitled(Some(s), s.periodEnd) && !Entitled(Some(s), s.periodEnd + 1)
  {
  }

  /** Which rows entitle at all: a trial or active period up to its last second. */
  lemma EntitledIff(sub: Option<Subscription>, t: int)
    ensures Entitled(sub, t) <==>
            sub.Some? && sub.value.status !in {PastDue, Canceled, Expired} && t <= sub.value.periodEnd
  {
  }

  /** The periods a history bought: so many months of 30 days and years of 365. */
  lemma {:induction false} PeriodsBought(apps: seq<Application>)
    ensures TotalPeriods(apps) == 2592000 * Bought(apps, Monthly) + 31536000 * Bought(apps, Yearly)
  {
    if apps != [] {
      PeriodsBought(apps[1..]);
    }
  }

  function Bought(apps: seq<Application>, interval: Interval): nat {
    if apps == [] then 0 else (if apps[0].plan.interval == interval then 1 else 0) + Bought(apps[1..], interval)
  }

  /** The end that payment `i` of `n` same-plan payments would force on its own. */
  function Reach(apps: seq<Application>, delta: int, i: int): int
    requires 0 <= i < |apps|
  {
    apps[i].at + (|apps| - i) * delta
  }

  /** k payments for one plan after a trial: the period ends at the largest t_i + (k-i+1)·delta. */
  lemma {:induction false} SamePlanEnd(sub: Option<Subscription>, plan: Plan, apps: seq<Application>)
    requires apps != [] && forall i | 0 <= i < |apps| :: apps[i].plan == plan
    requires !Extends(sub, plan, apps[0].at)
    ensures After(sub, apps).value.status == Active && After(sub, apps).value.planId == plan.id
    ensures forall i | 0 <= i < |apps| :: Reach(apps, PeriodSeconds(plan.interval), i) <= After(sub, apps).value.periodEnd
    ensures exists i | 0 <= i < |apps| :: Reach(apps, PeriodSeconds(plan.interval), i) == After(sub, apps).value.periodEnd
    decreases |apps|
  {
    var delta, k := PeriodSeconds(plan.interval), |apps|;
    var front, now := apps[..k - 1], apps[k - 1].at;
    var end := After(sub, apps).value.periodEnd;
    assert Reach(apps, delta, k - 1) == now + delta;
    if k == 1 {
      assert After(sub, front) == sub;
    } else {
      SamePlanEnd(sub, plan, front);
      var before := After(sub, front).value.periodEnd;
      assert end == (if before > now then before else now) + delta;
      forall i | 0 <= i < k - 1 ensures Reach(apps, delta, i) == Reach(front, delta, i) + delta {
        assert (k - i) * delta == (k - 1 - i) * delta + delta;
      }
      var j :| 0 <= j < k - 1 && Reach(front, delta, j) == before;
      assert Reach(apps, delta, j) == before + delta;
    }
  }

  // --------------------------------------------------- unlocked subscription

  /**
   Two payments of one organization lock different payment rows, so both may read the
   subscription before either writes it. `row` is what the organization ends with; `refused`
   says that the later write was a second insert, which the unique organization column refuses:
   that payment's transaction rolls back.
   */
  datatype OverlapResult = OverlapResult(row: Subscription, refused: bool)

  function OverlappingApply(sub: Option<Subscription>, writesFirst: Application, writesLast: Application): OverlapResult {
    match sub
    case None => OverlapResult(ApplyPlan(sub, writesFirst.plan, writesFirst.at), true)
    case Some(_) => OverlapResult(ApplyPlan(sub, writesLast.plan, writesLast.at), false)
  }

  predicate SamePlan(a: Application, b: Application) {
    a.plan.id == b.plan.id
  }

  /** The row two payments leave when one comes entirely before the other. */
  function SerialRow(sub: Option<Subscription>, first: Application, second: Application): Subscription {
    ApplyPlan(Some(ApplyPlan(sub, first.plan, first.at)), second.plan, second.at)
  }

  lemma {:induction false} SerialIsAfter(sub: Option<Subscription>, first: Application, second: Application)
    ensures After(sub, [first, second]) == Some(SerialRow(sub, first, second))
  {
    assert [first, second][..1] == [first] && [first][..0] == [];
    assert After(sub, [first]) == Some(ApplyPlan(sub, first.plan, first.at));
  }

  /**
   When the later payment also writes last, the row differs from the serial one exactly when it
   should have built on the other write: always without a row, and with one when the plan is the
   same and the first payment's period still runs, or when the second extends the running period.
   */
  lemma LaterWritesLast(sub: Option<Subscription>, first: Application, second: Application)
    requires first.at <= second.at && (SamePlan(first, second) ==> first.plan == second.plan)
    ensures var o := OverlappingApply(sub, first, second);
            && (o.refused <==> sub.None?)
            && (o.row != SerialRow(sub, first, second) <==>
                  || sub.None?
                  || (if SamePlan(first, second) then second.at < ApplyPlan(sub, first.plan, first.at).periodEnd
                      else Extends(sub, second.plan, second.at)))
  {
  }

  /**
   When the earlier payment writes last the row is never the serial one, except that two plans
   bought in the same second for an organization without a row leave the second plan either way.
   */
  lemma EarlierWritesLast(sub: Option<Subscription>, first: Application, second: Application)
    requires first.at <= second.at && (SamePlan(first, second) ==> first.plan == second.plan)
    ensures var o := OverlappingApply(sub, second, first);
            && (o.refused <==> sub.None?)
            && (o.row == SerialRow(sub, first, second) <==>
                  sub.None? && !SamePlan(first, second) && first.at == second.at)
  {
  }

  /**
   What two payments for one plan lose by overlapping, whichever writes last: with a row that both
   extend, exactly one period; with any row, time whenever the overlap changes the row; without a
   row, the whole payment that is refused.
   */
  lemma OverlapLosesTime(sub: Option<Subscription>, first: Application, second: Application, laterLast: bool)
    requires first.at <= second.at && first.plan == second.plan
    ensures var serial := SerialRow(sub, first, second);
            var o := if laterLast then OverlappingApply(sub, first, second) else OverlappingApply(sub, second, first);
            && o.row.periodEnd <= serial.periodEnd
            && (sub.Some? ==> (o.row != serial <==> o.row.periodEnd < serial.periodEnd))
            && (sub.Some? && Extends(sub, second.plan, second.at) ==>
                  serial.periodEnd == o.row.periodEnd + PeriodSeconds(first.plan.interval))
            && (o.refused ==>
                  var end := first.at + PeriodSeconds(first.plan.interval);
                  var kept := if laterLast then first else second;
                  serial.periodEnd - o.row.periodEnd == (if end > second.at then end else second.at) - kept.at)
  {
  }
}
