/** Session prices (billing/affleck.go). */
module Billing {
  import opened Domain

  const FREE_SPAN := 60 * MINUTE

  /** What a session costs under a plan: nothing for the first hour, then the hourly rate for every
      full minute, plus the energy rate; each of the two parts is rounded toward zero. */
  function Price(plan: Plan, elapsed: int, energy: int): int {
    TimePart(plan, elapsed) + EnergyPart(plan, energy)
  }

  function TimePart(plan: Plan, elapsed: int): int {
    if elapsed > FREE_SPAN then TruncDiv((elapsed - FREE_SPAN) / MINUTE * plan.pricePerHour, 60) else 0
  }

  function EnergyPart(plan: Plan, energy: int): int {
    if energy > 0 then TruncDiv(energy * plan.pricePerKwh, 1000) else 0
  }

  /** What a transaction owes on its stored figures; without a plan, nothing. */
  function Due(t: Transaction): int {
    match t.plan
    case None => 0
    case Some(plan) => Price(plan, t.timeStop - t.timeStart, t.meterStop - t.meterStart)
  }

  /** The running price of a session at a reading; without a plan the reading keeps price zero. */
  function DueAt(t: Transaction, time: int, value: int): int {
    match t.plan
    case None => 0
    case Some(plan) => Price(plan, time - t.timeStart, value - t.meterStart)
  }

  /** The transaction document after billing: only the payment changes, and only with a plan. */
  function Bill(t: Transaction): Transaction {
    if t.plan.None? then t else t.(payment := Due(t))
  }

  /** With rates that are not negative, a session never gets cheaper as it goes on, and its price
      is never negative. */
  lemma PriceMonotone(plan: Plan, elapsed: int, energy: int, elapsed': int, energy': int)
    requires plan.pricePerKwh >= 0 && plan.pricePerHour >= 0
    requires elapsed <= elapsed' && energy <= energy'
    ensures 0 <= Price(plan, elapsed, energy) <= Price(plan, elapsed', energy')
  {
    TimePartMonotone(plan, elapsed, elapsed');
    EnergyPartMonotone(plan, energy, energy');
  }

  lemma TimePartMonotone(plan: Plan, a: int, b: int)
    requires plan.pricePerHour >= 0 && a <= b
    ensures 0 <= TimePart(plan, a) <= TimePart(plan, b)
  {
    if b > FREE_SPAN {
      var x, y := if a > FREE_SPAN then (a - FREE_SPAN) / MINUTE else 0, (b - FREE_SPAN) / MINUTE;
      assert 0 <= x <= y;
      MulMonotone(0, x, plan.pricePerHour);
      MulMonotone(x, y, plan.pricePerHour);
      TruncDivMonotone(0, x * plan.pricePerHour, 60);
      TruncDivMonotone(x * plan.pricePerHour, y * plan.pricePerHour, 60);
    }
  }

  lemma EnergyPartMonotone(plan: Plan, a: int, b: int)
    requires plan.pricePerKwh >= 0 && a <= b
    ensures 0 <= EnergyPart(plan, a) <= EnergyPart(plan, b)
  {
    if b > 0 {
      var x := Max(a, 0);
      MulMonotone(0, x, plan.pricePerKwh);
      MulMonotone(x, b, plan.pricePerKwh);
      TruncDivMonotone(0, x * plan.pricePerKwh, 1000);
      TruncDivMonotone(x * plan.pricePerKwh, b * plan.pricePerKwh, 1000);
    }
  }

  lemma MulMonotone(a: int, b: int, r: int)
    requires a <= b && r >= 0
    ensures a * r <= b * r
  {
  }

  /** The price is that of the time and that of the energy. The first hour, and a meter that did not
      advance, cost nothing; whole kilowatt-hours and whole hours past the first cost exactly their
      rate; and what is cut off any other amount is less than a cent. */
  lemma PriceExactly(plan: Plan, elapsed: int, energy: int)
    ensures Price(plan, elapsed, energy) == Price(plan, elapsed, 0) + Price(plan, 0, energy)
    ensures elapsed <= 60 * MINUTE ==> Price(plan, elapsed, 0) == 0
    ensures energy <= 0 ==> Price(plan, 0, energy) == 0
    ensures elapsed >= 60 * MINUTE ==> CutTo(Price(plan, elapsed, 0), (elapsed - 60 * MINUTE) / MINUTE * plan.pricePerHour, 60)
    ensures energy >= 0 ==> CutTo(Price(plan, 0, energy), energy * plan.pricePerKwh, 1000)
    ensures forall n: nat :: energy == 1000 * n ==> Price(plan, 0, energy) == n * plan.pricePerKwh
    ensures forall k: nat :: elapsed == 60 * MINUTE * (k + 1) ==> Price(plan, elapsed, 0) == k * plan.pricePerHour
  {
    forall n: nat | energy == 1000 * n ensures Price(plan, 0, energy) == n * plan.pricePerKwh {
      WholeUnits(n, 1000, plan.pricePerKwh);
    }
    forall k: nat | elapsed == 60 * MINUTE * (k + 1) ensures Price(plan, elapsed, 0) == k * plan.pricePerHour {
      assert (elapsed - FREE_SPAN) / MINUTE == 60 * k;
      WholeUnits(k, 60, plan.pricePerHour);
    }
    if elapsed == 60 * MINUTE { ZeroTimes(plan.pricePerHour); }
    if energy == 0 { ZeroTimes(plan.pricePerKwh); }
  }

  /** A whole number of cents, short of an amount by less than one; the amount is in parts of a cent. */
  predicate CutTo(cents: int, amount: int, parts: int) {
    if amount >= 0 then 0 <= amount - parts * cents < parts else 0 <= parts * cents - amount < parts
  }

  lemma WholeUnits(n: nat, parts: int, rate: int)
    requires parts > 0
    ensures TruncDiv(parts * n * rate, parts) == n * rate
  {
    Associative(parts, n, rate);
    TruncDivWhole(n * rate, parts);
  }

  lemma Associative(a: int, b: int, c: int)
    ensures a * b * c == a * (b * c)
  {
  }

  lemma TruncDivWhole(q: int, b: int)
    requires b > 0
    ensures TruncDiv(b * q, b) == q
  {
    var r := TruncDiv(b * q, b);
    if r < q {
      MulMonotone(r + 1, q, b);
    } else if r > q {
      MulMonotone(q, r - 1, b);
    }
  }

  lemma ZeroTimes(rate: int)
    ensures 0 * rate == 0
  {
  }

  /** The whole minutes past the free hour, computed on fractional minutes as the source does,
      agree with integer division of nanoseconds. */
  lemma MinutesPastFreeHour(elapsed: int)
    ensures var duration := elapsed as real / MINUTE as real - 60.0;
            && (duration > 0.0 <==> elapsed > FREE_SPAN)
            && (duration > 0.0 ==> duration.Floor == (elapsed - FREE_SPAN) / MINUTE)
  {
    var over := elapsed - FREE_SPAN;
    var q, r := over / MINUTE, over % MINUTE;
    assert over == q * MINUTE + r;
    var duration := elapsed as real / MINUTE as real - 60.0;
    assert duration == over as real / MINUTE as real;
    assert duration == q as real + r as real / MINUTE as real;
  }

  /** A transaction document while a handler works on it, before it is written back. */
  class TransactionDoc {
    var id: int
    var place: Place
    var finished: bool
    var meterStart: int
    var meterStop: int
    var timeStart: int
    var timeStop: int
    var reason: string
    var payment: int
    var plan: Option<Plan>

    constructor Decode(t: Transaction)
      ensures Value() == t
    {
      id, place, finished := t.id, t.place, t.finished;
      meterStart, meterStop := t.meterStart, t.meterStop;
      timeStart, timeStop := t.timeStart, t.timeStop;
      reason, payment, plan := t.reason, t.payment, t.plan;
    }

    function Value(): Transaction
      reads this
    {
      Transaction(id, place, finished, meterStart, meterStop, timeStart, timeStop, reason, payment, plan)
    }
  }

  /** The tariff service. */
  class Affleck {
    /** The default plan, read from the database once and kept from then on. */
    var defaultPlan: Option<Plan>

    constructor ()
      ensures defaultPlan == None
    {
      defaultPlan := None;
    }

    /** Picks the plan of a new session: the user's own plan when it applies now, otherwise the
        default plan as it was first read. A session without a username gets no plan. */
    method ChoosePaymentPlan(username: string, userPlan: Option<Plan>, userPlanApplies: bool, storedDefault: Option<Plan>)
      returns (plan: Option<Plan>, ok: bool)
      modifies this
      ensures username == "" ==> plan == None && ok && defaultPlan == old(defaultPlan)
      ensures username != "" && userPlan.Some? && userPlanApplies ==>
                plan == userPlan && ok && defaultPlan == old(defaultPlan)
      ensures username != "" && !(userPlan.Some? && userPlanApplies) ==>
                && plan == defaultPlan && ok == plan.Some?
                && defaultPlan == if old(defaultPlan).Some? then old(defaultPlan) else storedDefault
    {
      if username == "" {
        return None, true;
      }
      if userPlan.Some? && userPlanApplies {
        return userPlan, true;
      }
      if defaultPlan == None {
        defaultPlan := storedDefault;
      }
      plan := defaultPlan;
      ok := plan != None;
    }

    method OnTransactionFinished(t: TransactionDoc)
      modifies t`payment
      ensures t.Value() == Bill(old(t.Value()))
      ensures t.payment == if t.plan.None? then old(t.payment)
                           else Price(t.plan.value, t.timeStop - t.timeStart, t.meterStop - t.meterStart)
    {
      if t.plan == None {
        return;
      }
      var price := RunningPrice(t.plan.value, t.timeStop - t.timeStart, t.meterStop - t.meterStart);
      t.payment := price;
    }

    method OnMeterValue(t: Transaction, time: int, value: int) returns (price: int)
      ensures price == DueAt(t, time, value)
      ensures price == if t.plan.None? then 0 else Price(t.plan.value, time - t.timeStart, value - t.meterStart)
    {
      price := 0;
      if t.plan != None {
        price := RunningPrice(t.plan.value, time - t.timeStart, value - t.meterStart);
      }
    }

    /** The computation both entry points share: minutes as a fraction, cut down to whole ones. */
    method RunningPrice(plan: Plan, elapsed: int, consumed: int) returns (price: int)
      ensures price == Price(plan, elapsed, consumed)
    {
      var duration := elapsed as real / MINUTE as real - 60.0;
      MinutesPastFreeHour(elapsed);
      price := 0;
      if duration > 0.0 {
        price := TruncDiv(duration.Floor * plan.pricePerHour, 60);
      }
      if consumed > 0 {
        price := price + TruncDiv(consumed * plan.pricePerKwh, 1000);
      }
    }
  }
}
