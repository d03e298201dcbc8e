/**
 One payment and the gateway callbacks that race for it
 (billing/payments/service.py lines 188-330, billing/views.py lines 174-178).

 `PaymentTransaction` holds the row and has one method per database write. `Machine` lets any
 number of callbacks interleave: each reads the row, asks the gateway, and then either writes a
 failure without looking at the row again, or locks the row, re-checks it and applies the plan.
 */
module Payments {
  import opened Basics
  import opened Amounts
  import opened Subscriptions

  datatype Gateway = BitPay | Zibal

  datatype PaymentStatus = Pending | Paid | Failed | PaymentCanceled

  /** What the gateway answered to a verify call. */
  datatype Verification =
    | GatewayError
    | Verified(success: bool, amount: Option<real>)

  datatype Row = Row(status: PaymentStatus, verifiedAt: Option<int>, appliedAt: Option<int>, errorMessage: string)

  datatype Order = Order(gateway: Gateway, amountToman: nat, plan: Option<Plan>)

  predicate AlreadyApplied(row: Row) {
    row.status == Paid && row.appliedAt.Some?
  }

  predicate AmountAccepted(order: Order, amount: Option<real>) {
    match amount
    case None => true
    case Some(v) =>
      match order.gateway
      case BitPay => BitPayAccepts(v, order.amountToman as real)
      case Zibal => ZibalAccepts(v, order.amountToman as real)
  }

  /** The verification lets the payment be applied. */
  predicate Accepted(order: Order, v: Verification) {
    v.Verified? && AmountAccepted(order, v.amount) && v.success
  }

  /**
   The amounts a gateway may report for a price of `e` toman: ten times the price for Zibal; for
   BitPay what rounds to the price, or is within half a toman of ten times the price.
   */
  predicate Covers(gateway: Gateway, v: real, e: nat) {
    var price := e as real;
    match gateway
    case Zibal => v == 10.0 * price
    case BitPay =>
      if e == 0 then -4.5 <= v <= 4.5
      else
        || price - 0.5 < v < price + 0.5
        || (e % 2 == 0 && (v == price - 0.5 || v == price + 0.5))
        || 10.0 * price - 5.5 < v <= 10.0 * price + 4.5
  }

  /** A successful verification that reports no amount, or one that covers the price at its gateway. */
  predicate Settles(order: Order, answer: Verification) {
    && answer.Verified? && answer.success
    && (answer.amount.Some? ==> Covers(order.gateway, answer.amount.value, order.amountToman))
  }

  lemma AcceptedIff(order: Order, answer: Verification)
    ensures Accepted(order, answer) <==> Settles(order, answer)
  {
    if answer.Verified? && answer.amount.Some? {
      ZibalWhole(answer.amount.value, order.amountToman);
      if order.amountToman == 0 {
        BitPayFree(answer.amount.value);
      } else {
        BitPayExact(answer.amount.value, order.amountToman);
      }
    }
  }

  /** For whole amounts: the price or its rials to within rounding at BitPay, ten times the price at Zibal. */
  lemma CoversWhole(v: int, e: nat)
    requires e > 0
    ensures Covers(BitPay, v as real, e) <==> v == e || 10 * e - 5 <= v <= 10 * e + 4
    ensures Covers(Zibal, v as real, e) <==> v == 10 * e
  {
    BitPayWhole(v, e);
    BitPayExact(v as real, e);
  }

  /** Messages are clipped to 500 characters before they are stored. */
  function Clip(message: string): string {
    if |message| > 500 then message[..500] else message
  }

  function FailRow(row: Row, message: string): Row {
    row.(status := Failed, errorMessage := Clip(message))
  }

  function CancelRow(row: Row, message: string): Row {
    row.(status := PaymentCanceled, errorMessage := message)
  }

  function PaidRow(row: Row, now: int): Row {
    row.(status := Paid, verifiedAt := Some(now), appliedAt := Some(now), errorMessage := "")
  }

  datatype PaymentError = PlanMissing | GatewayFailed

  class PaymentTransaction {
    const order: Order
    var status: PaymentStatus
    var verifiedAt: Option<int>
    var appliedAt: Option<int>
    var errorMessage: string

    constructor (order: Order)
      ensures this.order == order && Stored() == Row(Pending, None, None, "")
    {
      this.order := order;
      status, verifiedAt, appliedAt, errorMessage := Pending, None, None, "";
    }

    function Stored(): Row
      reads this
    {
      Row(status, verifiedAt, appliedAt, errorMessage)
    }

    method MarkPaymentFailed(message: string)
      modifies this
      ensures Stored() == FailRow(old(Stored()), message)
      ensures status == Failed && errorMessage <= message
      ensures |errorMessage| == if |message| > 500 then 500 else |message|
      ensures verifiedAt == old(verifiedAt) && appliedAt == old(appliedAt)
    {
      status := Failed;
      errorMessage := Clip(message);
    }

    method Cancel(message: string)
      modifies this
      ensures Stored() == CancelRow(old(Stored()), message)
      ensures Stored() == Row(PaymentCanceled, old(verifiedAt), old(appliedAt), message)
    {
      status := PaymentCanceled;
      errorMessage := message;
    }

    /** The locked transaction: re-check, apply the plan, mark paid. A missing plan rolls everything back. */
    method LockAndApply(account: Account, now: int) returns (r: Result<(), PaymentError>)
      modifies this, account
      ensures r == if AlreadyApplied(old(Stored())) || order.plan.Some? then Ok(()) else Err(PlanMissing)
      ensures account.apiEnabled
           <==> old(account.apiEnabled)
                || (!AlreadyApplied(old(Stored())) && order.plan.Some? && old(account.subscription).Some?
                    && order.plan.value.allowsApi)
      ensures AlreadyApplied(old(Stored())) || order.plan.None? ==>
                Stored() == old(Stored()) && account.subscription == old(account.subscription)
      ensures !AlreadyApplied(old(Stored())) && order.plan.Some? ==>
                && Stored() == PaidRow(old(Stored()), now) == Row(Paid, Some(now), Some(now), "")
                && account.subscription == Some(ApplyPlan(old(account.subscription), order.plan.value, now))
    {
      if status == Paid && appliedAt.Some? {
        return Ok(());
      }
      var before := verifiedAt;
      verifiedAt := Some(now);
      if order.plan.None? {
        verifiedAt := before;
        return Err(PlanMissing);
      }
      var _ := account.ApplySubscriptionPlan(order.plan.value, now);
      status := Paid;
      appliedAt := Some(now);
      errorMessage := "";
      return Ok(());
    }

    /** One callback that nothing interrupts. */
    method VerifyAndApply(account: Account, answer: Verification, now: int) returns (r: Result<(), PaymentError>)
      modifies this, account
      ensures AlreadyApplied(old(Stored())) ==> Stored() == old(Stored()) && r.Ok?
      ensures !AlreadyApplied(old(Stored())) && !Settles(order, answer) ==>
                Stored().status == Failed && Stored().appliedAt == old(Stored()).appliedAt
      ensures (status == Paid && appliedAt.Some?) <==>
                (old(status) == Paid && old(appliedAt).Some?) || (Settles(order, answer) && order.plan.Some?)
      ensures !AlreadyApplied(old(Stored())) ==>
                && (r == Err(GatewayFailed) <==> answer.GatewayError?)
                && (r == Err(PlanMissing) <==> Settles(order, answer) && order.plan.None?)
      ensures account.subscription
           == if !AlreadyApplied(old(Stored())) && AlreadyApplied(Stored())
              then Some(ApplyPlan(old(account.subscription), order.plan.value, now))
              else old(account.subscription)
    {
      AcceptedIff(order, answer);
      if status == Paid && appliedAt.Some? {
        return Ok(());
      }
      match answer
      case GatewayError =>
        MarkPaymentFailed("verify failed");
        r := Err(GatewayFailed);
      case Verified(success, amount) =>
        if amount.Some? && !AmountAccepted(order, amount) {
          MarkPaymentFailed("amount mismatch");
          r := Ok(());
        } else if !success {
          MarkPaymentFailed("payment unsuccessful");
          r := Ok(());
        } else {
          r := LockAndApply(account, now);
        }
    }
  }

  // ------------------------------------------------------------- the machine

  /** Where one callback stands. */
  datatype Phase = Verifying | Failing(message: string) | Applying | Finished

  datatype Machine = Machine(
    row: Row,
    subscription: Option<Subscription>,
    callbacks: seq<Phase>,
    answers: seq<Verification>,
    applications: seq<Application>,
    overwrites: nat)

  datatype Step =
    | Read
    | Abandon(callback: nat)
    | Answer(callback: nat, answer: Verification, message: string)
    | WriteFailure(callback: nat)
    | Commit(callback: nat, now: int)
    | CancelByUser(message: string)

  function Start(subscription: Option<Subscription>): Machine {
    Machine(Row(Pending, None, None, ""), subscription, [], [], [], 0)
  }

  predicate Enabled(m: Machine, step: Step) {
    match step
    case Read => true
    case Abandon(c) => c < |m.callbacks| && m.callbacks[c] == Verifying
    case Answer(c, _, _) => c < |m.callbacks| && m.callbacks[c] == Verifying
    case WriteFailure(c) => c < |m.callbacks| && m.callbacks[c].Failing?
    case Commit(c, _) => c < |m.callbacks| && m.callbacks[c] == Applying
    case CancelByUser(_) => true
  }

  /** A write that takes a paid and applied row away from `Paid`. */
  function Overwrite(m: Machine, row: Row): Machine {
    m.(row := row, overwrites := if AlreadyApplied(m.row) then m.overwrites + 1 else m.overwrites)
  }

  function Next(order: Order, m: Machine, step: Step): Machine
    requires Enabled(m, step)
  {
    match step
    case Read =>
      m.(callbacks := m.callbacks + [if AlreadyApplied(m.row) then Finished else Verifying])
    case Abandon(c) => m.(callbacks := m.callbacks[c := Finished])
    case Answer(c, answer, message) =>
      m.(callbacks := m.callbacks[c := if Accepted(order, answer) then Applying else Failing(message)],
         answers := m.answers + [answer])
    case WriteFailure(c) =>
      Overwrite(m, FailRow(m.row, m.callbacks[c].message)).(callbacks := m.callbacks[c := Finished])
    case Commit(c, now) =>
      if AlreadyApplied(m.row) || order.plan.None? then m.(callbacks := m.callbacks[c := Finished])
      else
        m.(callbacks := m.callbacks[c := Finished],
           row := PaidRow(m.row, now),
           subscription := Some(ApplyPlan(m.subscription, order.plan.value, now)),
           applications := m.applications + [Application(order.plan.value, now)])
    case CancelByUser(message) => Overwrite(m, CancelRow(m.row, message))
  }

  /** The machine after a sequence of steps; `None` when some step was not possible. */
  function Execute(order: Order, m: Machine, steps: seq<Step>): Option<Machine>
    decreases |steps|
  {
    if steps == [] then Some(m)
    else if !Enabled(m, steps[0]) then None
    else Execute(order, Next(order, m, steps[0]), steps[1..])
  }

  ghost predicate Accounted(order: Order, initial: Option<Subscription>, m: Machine) {
    && (m.row.status == Paid ==> m.row.appliedAt.Some?)
    && |m.applications| == m.overwrites + (if m.row.status == Paid then 1 else 0)
    && m.subscription == After(initial, m.applications)
    && forall i | 0 <= i < |m.applications| :: order.plan == Some(m.applications[i].plan)
  }

  ghost predicate SomeAccepted(order: Order, answers: seq<Verification>) {
    exists v | v in answers :: Accepted(order, v)
  }

  ghost predicate Witnessed(order: Order, m: Machine) {
    && (Applying in m.callbacks ==> SomeAccepted(order, m.answers))
    && (m.applications != [] ==> SomeAccepted(order, m.answers))
  }

  lemma StepKeepsAccounts(order: Order, initial: Option<Subscription>, m: Machine, step: Step)
    requires Accounted(order, initial, m) && Enabled(m, step)
    ensures Accounted(order, initial, Next(order, m, step))
  {
    if step.Commit? && !AlreadyApplied(m.row) && order.plan.Some? {
      var n := Next(order, m, step);
      assert n.applications[..|n.applications| - 1] == m.applications;
    }
  }

  lemma StepKeepsWitness(order: Order, m: Machine, step: Step)
    requires Witnessed(order, m) && Enabled(m, step)
    ensures Witnessed(order, Next(order, m, step))
  {
    var n := Next(order, m, step);
    assert m.answers <= n.answers;
    assert SomeAccepted(order, m.answers) ==> SomeAccepted(order, n.answers);
    if step.Answer? && Accepted(order, step.answer) {
      assert n.answers[|m.answers|] == step.answer;
    } else {
      assert forall p | p in n.callbacks && p == Applying :: p in m.callbacks;
    }
  }

  lemma {:induction false} RunKeepsInvariants(
      order: Order, initial: Option<Subscription>, m: Machine, steps: seq<Step>, n: Machine)
    requires Accounted(order, initial, m) && Witnessed(order, m)
    requires Execute(order, m, steps) == Some(n)
    ensures Accounted(order, initial, n) && Witnessed(order, n)
    decreases |steps|
  {
    if steps != [] {
      StepKeepsAccounts(order, initial, m, steps[0]);
      StepKeepsWitness(order, m, steps[0]);
      RunKeepsInvariants(order, initial, Next(order, m, steps[0]), steps[1..], n);
    }
  }

  lemma StartIsSound(order: Order, initial: Option<Subscription>)
    ensures Accounted(order, initial, Start(initial)) && Witnessed(order, Start(initial))
  {
    assert After(initial, []) == initial;
  }

  /**
   Applications are counted exactly: one for every failure or cancel write that hit a paid and
   applied row, plus one if the row is paid now. Without such writes a payment is applied at
   most once, and the subscription is what those applications make of it.
   */
  lemma {:induction false} ApplicationsCounted(order: Order, initial: Option<Subscription>, steps: seq<Step>, m: Machine)
    requires Execute(order, Start(initial), steps) == Some(m)
    ensures |m.applications| == m.overwrites + (if m.row.status == Paid then 1 else 0)
    ensures m.row.status == Paid <==> AlreadyApplied(m.row)
    ensures m.overwrites == 0 ==> |m.applications| <= 1
    ensures m.subscription == After(initial, m.applications)
  {
    StartIsSound(order, initial);
    RunKeepsInvariants(order, initial, Start(initial), steps, m);
  }

  /** A payment is paid only on an accepted verification, and for the plan it was opened for. */
  lemma {:induction false} PaidNeedsAcceptedVerification(
      order: Order, initial: Option<Subscription>, steps: seq<Step>, m: Machine)
    requires Execute(order, Start(initial), steps) == Some(m)
    requires m.row.status == Paid
    ensures SomeAccepted(order, m.answers)
    ensures m.applications != [] && order.plan == Some(m.applications[|m.applications| - 1].plan)
  {
    StartIsSound(order, initial);
    RunKeepsInvariants(order, initial, Start(initial), steps, m);
  }

  /**
   A payment is paid only on a successful verification whose amount is absent or covers the price:
   in the gateway's own arithmetic, and on whole amounts as the two last clauses say.
   */
  lemma PaidMeansCovered(order: Order, initial: Option<Subscription>, steps: seq<Step>, m: Machine)
      returns (answer: Verification)
    requires Execute(order, Start(initial), steps) == Some(m) && m.row.status == Paid
    ensures answer in m.answers && answer.Verified? && answer.success
    ensures answer.amount.Some? ==> Covers(order.gateway, answer.amount.value, order.amountToman)
    ensures answer.amount.Some? && order.amountToman > 0 ==>
              var v, e := answer.amount.value.Floor, order.amountToman;
              answer.amount.value == v as real ==>
                match order.gateway
                case BitPay => v == e || 10 * e - 5 <= v <= 10 * e + 4
                case Zibal => v == 10 * e
  {
    PaidNeedsAcceptedVerification(order, initial, steps, m);
    answer :| answer in m.answers && Accepted(order, answer);
    AcceptedIff(order, answer);
    if answer.amount.Some? && order.amountToman > 0 {
      CoversWhole(answer.amount.value.Floor, order.amountToman);
    }
  }

  lemma {:induction false} OverwritesGrow(order: Order, m: Machine, steps: seq<Step>, n: Machine)
    requires Execute(order, m, steps) == Some(n)
    ensures m.overwrites <= n.overwrites
    decreases |steps|
  {
    if steps != [] {
      OverwritesGrow(order, Next(order, m, steps[0]), steps[1..], n);
    }
  }

  /** A paid row and its applications stay as they are while no failure or cancel write touches it. */
  lemma {:induction false} PaidStaysPaid(order: Order, m: Machine, steps: seq<Step>, n: Machine)
    requires AlreadyApplied(m.row) && Execute(order, m, steps) == Some(n)
    requires n.overwrites == m.overwrites
    ensures n.row == m.row && n.applications == m.applications && n.subscription == m.subscription
    decreases |steps|
  {
    if steps != [] {
      var next := Next(order, m, steps[0]);
      OverwritesGrow(order, next, steps[1..], n);
      PaidStaysPaid(order, next, steps[1..], n);
    }
  }

  lemma {:induction false} ExecuteTwice(order: Order, m: Machine, first: seq<Step>, mid: Machine, second: seq<Step>)
    requires Execute(order, m, first) == Some(mid)
    ensures Execute(order, m, first + second) == Execute(order, mid, second)
    decreases |first|
  {
    if first == [] {
      assert first + second == second;
    } else {
      assert (first + second)[1..] == first[1..] + second;
      ExecuteTwice(order, Next(order, m, first[0]), first[1..], mid, second);
    }
  }

  /** One callback from start to commit, on a row that is not applied. */
  lemma CallbackApplies(order: Order, m: Machine, now: int) returns (steps: seq<Step>, n: Machine)
    requires order.plan.Some? && !AlreadyApplied(m.row)
    ensures Execute(order, m, steps) == Some(n)
    ensures AlreadyApplied(n.row) && |n.applications| == |m.applications| + 1
    ensures n.callbacks == m.callbacks + [Finished]
  {
    var c := |m.callbacks|;
    var answer := Answer(c, Verified(true, None), "");
    steps := [Read, answer, Commit(c, now)];
    var m1 := Next(order, m, Read);
    var m2 := Next(order, m1, answer);
    n := Next(order, m2, Commit(c, now));
    assert steps[1..] == [answer, Commit(c, now)] && steps[1..][1..] == [Commit(c, now)];
    assert Execute(order, m2, [Commit(c, now)]) == Execute(order, n, []);
  }

  /** A late failure write on a paid row lets another callback apply the same payment again. */
  lemma FailureAfterPaidAppliesTwice(order: Order, initial: Option<Subscription>)
      returns (steps: seq<Step>, m: Machine)
    requires order.plan.Some?
    ensures Execute(order, Start(initial), steps) == Some(m)
    ensures |m.applications| == 2 && m.row.status == Paid
  {
    var failing := [Read, Answer(0, GatewayError, "timeout")];
    var m1 := Next(order, Start(initial), Read);
    var m2 := Next(order, m1, failing[1]);
    assert failing[1..] == [failing[1]];
    assert Execute(order, Start(initial), failing) == Some(m2);
    var first, m3 := CallbackApplies(order, m2, 1);
    assert m3.callbacks[0] == Failing("timeout");
    var m4 := Next(order, m3, WriteFailure(0));
    assert Execute(order, m3, [WriteFailure(0)]) == Some(m4);
    var second, m5 := CallbackApplies(order, m4, 2);
    ExecuteTwice(order, Start(initial), failing, m2, first);
    ExecuteTwice(order, Start(initial), failing + first, m3, [WriteFailure(0)]);
    ExecuteTwice(order, Start(initial), failing + first + [WriteFailure(0)], m4, second);
    steps, m := failing + first + [WriteFailure(0)] + second, m5;
  }
}
