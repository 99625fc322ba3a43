/** Effective-dated execution costs and the affordable-notional bisection
    (src/ashare_quant/backtest/costs.py). */
module Costs {
  import opened Basics

  datatype Side = Buy | Sell

  /** One effective-dated cost regime. */
  datatype Schedule = Schedule(
    effectiveFrom: Date,
    commissionRate: real,
    minimumCommission: real,
    stampDutySell: real,
    transferFeeRate: real,
    slippageRate: real)

  /** The rates that apply to one trade date and side. */
  datatype Rates = Rates(
    commission: real,
    minimumCommission: real,
    stampDuty: real,
    transferFee: real,
    slippage: real)
  {
    ghost predicate Valid() {
      commission >= 0.0 && minimumCommission >= 0.0 && stampDuty >= 0.0
      && transferFee >= 0.0 && slippage >= 0.0
    }

    function Proportional(): real {
      commission + stampDuty + transferFee + slippage
    }
  }

  datatype TradeCosts = TradeCosts(commission: real, stampDuty: real, transferFee: real, slippage: real) {
    function Total(): real {
      commission + stampDuty + transferFee + slippage
    }
  }

  const NoCosts := TradeCosts(0.0, 0.0, 0.0, 0.0)

  datatype CostError = NegativeGross | NoCostRegime

  /** What the settings guarantee of a policy: regimes strictly ascending, no negative rate. */
  ghost predicate ValidPolicy(schedules: seq<Schedule>) {
    && (forall i, j :: 0 <= i < j < |schedules| ==> schedules[i].effectiveFrom < schedules[j].effectiveFrom)
    && (forall i :: 0 <= i < |schedules| ==>
          var s := schedules[i];
          s.commissionRate >= 0.0 && s.minimumCommission >= 0.0 && s.stampDutySell >= 0.0
          && s.transferFeeRate >= 0.0 && s.slippageRate >= 0.0)
  }

  function LastApplicable(schedules: seq<Schedule>, date: Date): Option<Schedule> {
    if schedules == [] then None
    else if schedules[|schedules| - 1].effectiveFrom <= date then Some(schedules[|schedules| - 1])
    else LastApplicable(schedules[..|schedules| - 1], date)
  }

  function Resolve(schedules: seq<Schedule>, date: Date, side: Side): Result<Rates, CostError> {
    match LastApplicable(schedules, date)
    case None => Err(NoCostRegime)
    case Some(s) =>
      Ok(Rates(s.commissionRate, s.minimumCommission, if side == Sell then s.stampDutySell else 0.0,
               s.transferFeeRate, s.slippageRate))
  }

  /** The regime in force is the latest one that has taken effect, and there is none exactly
      when every regime is still in the future. */
  lemma {:induction false} LastApplicableIsInForce(schedules: seq<Schedule>, date: Date)
    requires ValidPolicy(schedules)
    ensures LastApplicable(schedules, date).None? <==>
            forall i :: 0 <= i < |schedules| ==> date < schedules[i].effectiveFrom
    ensures LastApplicable(schedules, date).Some? ==>
              var s := LastApplicable(schedules, date).value;
              && s in schedules && s.effectiveFrom <= date
              && forall i :: 0 <= i < |schedules| && schedules[i].effectiveFrom <= date ==>
                   schedules[i].effectiveFrom <= s.effectiveFrom
  {
    if schedules != [] && schedules[|schedules| - 1].effectiveFrom > date {
      LastApplicableIsInForce(schedules[..|schedules| - 1], date);
    }
  }

  lemma ResolvedRatesAreValid(schedules: seq<Schedule>, date: Date, side: Side)
    requires ValidPolicy(schedules)
    ensures Resolve(schedules, date, side).Ok? ==> Resolve(schedules, date, side).value.Valid()
  {
    LastApplicableIsInForce(schedules, date);
  }

  /** The monetary costs of one gross notional. */
  function Charge(rates: Rates, gross: real): TradeCosts {
    TradeCosts(
      if gross > 0.0 then
        if gross * rates.commission < rates.minimumCommission then rates.minimumCommission
        else gross * rates.commission
      else 0.0,
      gross * rates.stampDuty,
      gross * rates.transferFee,
      gross * rates.slippage)
  }

  function Calculate(schedules: seq<Schedule>, date: Date, side: Side, gross: real): Result<TradeCosts, CostError> {
    if gross < 0.0 then Err(NegativeGross)
    else
      var rates :- Resolve(schedules, date, side);
      Ok(Charge(rates, gross))
  }

  // ----- the costs of a trade, read off the policy -----

  /** The latest regime that has taken effect. */
  ghost predicate InForce(schedules: seq<Schedule>, date: Date, s: Schedule) {
    && s in schedules && s.effectiveFrom <= date
    && forall other :: other in schedules && other.effectiveFrom <= date ==> other.effectiveFrom <= s.effectiveFrom
  }

  /** Commission with its minimum, stamp duty on sales only, transfer fee and slippage. */
  ghost predicate CostsUnder(s: Schedule, side: Side, gross: real, costs: TradeCosts) {
    && (gross == 0.0 ==> costs.commission == 0.0)
    && (gross > 0.0 ==> costs.commission >= s.minimumCommission && costs.commission >= gross * s.commissionRate
                        && (costs.commission == s.minimumCommission || costs.commission == gross * s.commissionRate))
    && costs.stampDuty == (if side == Sell then gross * s.stampDutySell else 0.0)
    && costs.transferFee == gross * s.transferFeeRate
    && costs.slippage == gross * s.slippageRate
  }

  lemma InForceIff(schedules: seq<Schedule>, date: Date)
    requires ValidPolicy(schedules)
    ensures forall s :: InForce(schedules, date, s) <==> LastApplicable(schedules, date) == Some(s)
    ensures LastApplicable(schedules, date).None? <==> forall s :: s in schedules ==> date < s.effectiveFrom
  {
    LastApplicableIsInForce(schedules, date);
    forall a, b | InForce(schedules, date, a) && InForce(schedules, date, b)
      ensures a == b
    {
      var i :| 0 <= i < |schedules| && schedules[i] == a;
      var j :| 0 <= j < |schedules| && schedules[j] == b;
    }
  }

  /** What a trade costs: the rates of the regime in force on its gross; nothing is known of it before the
      first regime. */
  lemma CalculateIff(schedules: seq<Schedule>, date: Date, side: Side, gross: real, r: Result<TradeCosts, CostError>)
    requires ValidPolicy(schedules)
    ensures Calculate(schedules, date, side, gross) == r <==>
            match r
            case Err(NegativeGross) => gross < 0.0
            case Err(NoCostRegime) => gross >= 0.0 && forall s :: s in schedules ==> date < s.effectiveFrom
            case Ok(costs) => gross >= 0.0 && exists s :: InForce(schedules, date, s) && CostsUnder(s, side, gross, costs)
  {
    hide LastApplicable, ValidPolicy, InForce;
    InForceIff(schedules, date);
    var last := LastApplicable(schedules, date);
    if gross >= 0.0 && last.Some? {
      OnlyCosts(last.value, schedules, date, side, gross);
    }
  }

  /** The commission is the greater of its share and its minimum. */
  lemma OnlyCommission(gross: real, share: real, minimum: real, commission: real)
    requires gross >= 0.0
    ensures (gross == 0.0 ==> commission == 0.0)
            && (gross > 0.0 ==> commission >= minimum && commission >= share && (commission == minimum || commission == share))
            <==> commission == if gross > 0.0 then (if share < minimum then minimum else share) else 0.0
  {}

  lemma OnlyCosts(s: Schedule, schedules: seq<Schedule>, date: Date, side: Side, gross: real)
    requires LastApplicable(schedules, date) == Some(s) && gross >= 0.0
    ensures forall costs :: CostsUnder(s, side, gross, costs) <==> costs == Charge(Resolve(schedules, date, side).value, gross)
  {
    hide LastApplicable, CostsUnder, Charge;
    forall costs: TradeCosts
      ensures CostsUnder(s, side, gross, costs) <==> costs == Charge(Resolve(schedules, date, side).value, gross)
    {
      OneCost(s, side, gross, costs, Resolve(schedules, date, side).value);
    }
  }

  lemma OneCost(s: Schedule, side: Side, gross: real, costs: TradeCosts, rates: Rates)
    requires gross >= 0.0
    requires rates == Rates(s.commissionRate, s.minimumCommission, if side == Sell then s.stampDutySell else 0.0, s.transferFeeRate, s.slippageRate)
    ensures CostsUnder(s, side, gross, costs) <==> costs == Charge(rates, gross)
  {
    OnlyCommission(gross, gross * s.commissionRate, s.minimumCommission, costs.commission);
    assert gross * 0.0 == 0.0;
  }

  lemma ChargeIsNonNegative(rates: Rates, gross: real)
    requires rates.Valid() && gross >= 0.0
    ensures var c := Charge(rates, gross);
            c.commission >= 0.0 && c.stampDuty >= 0.0 && c.transferFee >= 0.0 && c.slippage >= 0.0
            && c.Total() >= 0.0
  {}

  // ----- the bisection -----

  /** A notional fits when it and its costs are covered by the cash. */
  predicate Fits(rates: Rates, cash: real, notional: real) {
    notional + Charge(rates, notional).Total() <= cash
  }

  datatype Bracket = Bracket(low: real, high: real)

  /** The bracket after a number of bisection steps. */
  function BracketAfter(rates: Rates, cash: real, steps: nat): Bracket {
    if steps == 0 then Bracket(0.0, cash)
    else
      var b := BracketAfter(rates, cash, steps - 1);
      var middle := (b.low + b.high) / 2.0;
      if Fits(rates, cash, middle) then Bracket(middle, b.high) else Bracket(b.low, middle)
  }

  const BISECTION_STEPS: nat := 64

  function MaximumAffordable(rates: Rates, cash: real): real {
    if cash <= 0.0 then 0.0 else BracketAfter(rates, cash, BISECTION_STEPS).low
  }

  /** cash halved a number of times: the width of the bracket. */
  function Halved(cash: real, steps: nat): real {
    if steps == 0 then cash else Halved(cash, steps - 1) / 2.0
  }

  function TwoToThe(n: nat): real {
    if n == 0 then 1.0 else 2.0 * TwoToThe(n - 1)
  }

  lemma {:induction false} HalvedIsDivision(cash: real, n: nat)
    ensures Halved(cash, n) * TwoToThe(n) == cash
  {
    if n > 0 {
      HalvedIsDivision(cash, n - 1);
      assert (Halved(cash, n - 1) / 2.0) * (2.0 * TwoToThe(n - 1)) == Halved(cash, n - 1) * TwoToThe(n - 1);
    }
  }

  lemma {:induction false} HalvedIsSmaller(cash: real, n: nat)
    requires cash > 0.0
    ensures 0.0 < Halved(cash, n) <= cash
    ensures n > 0 ==> Halved(cash, n) < cash
  {
    if n > 0 {
      HalvedIsSmaller(cash, n - 1);
    }
  }

  lemma ScaleMonotone(x: real, y: real, rate: real)
    requires x <= y && rate >= 0.0
    ensures x * rate <= y * rate
  {}

  lemma ChargeMonotone(rates: Rates, n1: real, n2: real)
    requires rates.Valid() && 0.0 <= n1 <= n2
    ensures Charge(rates, n1).commission <= Charge(rates, n2).commission
    ensures Charge(rates, n1).stampDuty <= Charge(rates, n2).stampDuty
    ensures Charge(rates, n1).transferFee <= Charge(rates, n2).transferFee
    ensures Charge(rates, n1).slippage <= Charge(rates, n2).slippage
  {
    ScaleMonotone(n1, n2, rates.commission);
    ScaleMonotone(n1, n2, rates.stampDuty);
    ScaleMonotone(n1, n2, rates.transferFee);
    ScaleMonotone(n1, n2, rates.slippage);
  }

  lemma OutlayOrder(n1: real, n2: real, c1: TradeCosts, c2: TradeCosts)
    requires n1 <= n2 && c1.commission <= c2.commission && c1.stampDuty <= c2.stampDuty
    requires c1.transferFee <= c2.transferFee && c1.slippage <= c2.slippage
    ensures n1 + c1.Total() <= n2 + c2.Total()
  {}

  /** A larger notional never costs less, the jump of the minimum commission included. */
  lemma OutlayMonotone(rates: Rates, n1: real, n2: real)
    requires rates.Valid() && 0.0 <= n1 <= n2
    ensures n1 + Charge(rates, n1).Total() <= n2 + Charge(rates, n2).Total()
  {
    ChargeMonotone(rates, n1, n2);
    OutlayOrder(n1, n2, Charge(rates, n1), Charge(rates, n2));
  }

  /** Above zero the outlay grows by at most one plus the proportional rates per unit. */
  lemma OutlayLipschitz(rates: Rates, n1: real, n2: real)
    requires rates.Valid() && 0.0 < n1 <= n2
    ensures (n2 + Charge(rates, n2).Total()) - (n1 + Charge(rates, n1).Total())
         <= (1.0 + rates.Proportional()) * (n2 - n1)
  {
    ScaleMonotone(n1, n2, rates.commission);
    var d := n2 - n1;
    assert n2 * rates.commission - n1 * rates.commission == d * rates.commission;
    assert n2 * rates.stampDuty - n1 * rates.stampDuty == d * rates.stampDuty;
    assert n2 * rates.transferFee - n1 * rates.transferFee == d * rates.transferFee;
    assert n2 * rates.slippage - n1 * rates.slippage == d * rates.slippage;
    assert (1.0 + rates.Proportional()) * d
        == d + d * rates.commission + d * rates.stampDuty + d * rates.transferFee + d * rates.slippage;
  }

  ghost predicate BracketInvariant(rates: Rates, cash: real, steps: nat) {
    var b := BracketAfter(rates, cash, steps);
    && 0.0 <= b.low
    && b.high - b.low == Halved(cash, steps)
    && Fits(rates, cash, b.low)
    && (b.low == 0.0 || b.low >= Halved(cash, steps))
    && (if b.high == cash then true else !Fits(rates, cash, b.high))
    && b.high <= cash
  }

  lemma {:induction false} BracketKept(rates: Rates, cash: real, steps: nat)
    requires rates.Valid() && cash > 0.0
    ensures BracketInvariant(rates, cash, steps)
  {
    HalvedIsSmaller(cash, steps);
    if steps > 0 {
      BracketKept(rates, cash, steps - 1);
      HalvedIsSmaller(cash, steps - 1);
    }
  }

  /** The bisection returns an affordable notional, and no affordable notional exceeds it by
      more than the cash over 2^64. */
  lemma MaximumAffordableIsTight(rates: Rates, cash: real, notional: real)
    requires rates.Valid() && cash > 0.0
    ensures var g := MaximumAffordable(rates, cash);
            && 0.0 <= g < cash
            && Fits(rates, cash, g)
            && (notional >= 0.0 && Fits(rates, cash, notional) ==>
                  notional <= g + Halved(cash, BISECTION_STEPS))
  {
    BracketKept(rates, cash, BISECTION_STEPS);
    HalvedIsSmaller(cash, BISECTION_STEPS);
    if notional >= 0.0 && Fits(rates, cash, notional) {
      var b := BracketAfter(rates, cash, BISECTION_STEPS);
      ChargeIsNonNegative(rates, notional);
      if b.high != cash && b.high < notional {
        OutlayMonotone(rates, b.high, notional);
      }
    }
  }

  /** The bisection returns zero exactly when not even the cash over 2^64 is affordable. */
  lemma MaximumAffordableIsZeroIff(rates: Rates, cash: real)
    requires rates.Valid() && cash > 0.0
    ensures MaximumAffordable(rates, cash) == 0.0 <==> !Fits(rates, cash, Halved(cash, BISECTION_STEPS))
  {
    BracketKept(rates, cash, BISECTION_STEPS);
    HalvedIsSmaller(cash, BISECTION_STEPS);
    var width, g := Halved(cash, BISECTION_STEPS), MaximumAffordable(rates, cash);
    if g != 0.0 {
      OutlayMonotone(rates, width, g);
    }
  }

  /** A positive bisection result leaves at most (1 + rates) * cash / 2^64 unspent. */
  lemma UnspentIsSmall(rates: Rates, cash: real)
    requires rates.Valid() && cash > 0.0
    requires MaximumAffordable(rates, cash) > 0.0
    ensures var g := MaximumAffordable(rates, cash);
            cash - (g + Charge(rates, g).Total())
              <= (1.0 + rates.Proportional()) * Halved(cash, BISECTION_STEPS)
  {
    hide Charge, BracketAfter, Rates.Proportional;
    var b := BracketAfter(rates, cash, BISECTION_STEPS);
    var outlay := b.high + Charge(rates, b.high).Total();
    assert b.high - b.low == Halved(cash, BISECTION_STEPS) && b.high >= b.low && outlay >= cash by {
      BracketKept(rates, cash, BISECTION_STEPS);
      HalvedIsSmaller(cash, BISECTION_STEPS);
      ChargeIsNonNegative(rates, b.high);
    }
    OutlayLipschitz(rates, b.low, b.high);
  }

  /** The 64-step loop of maximum_affordable_gross. */
  method MaximumAffordableGross(schedules: seq<Schedule>, date: Date, side: Side, cash: real)
    returns (r: Result<real, CostError>)
    ensures cash <= 0.0 ==> r == Ok(0.0)
    ensures cash > 0.0 ==>
              match Resolve(schedules, date, side)
              case Err(e) => r == Err(e)
              case Ok(rates) => r == Ok(MaximumAffordable(rates, cash))
    ensures r.Ok? ==> r.value >= 0.0
    ensures ValidPolicy(schedules) && cash > 0.0 && r.Ok? ==>
              Fits(Resolve(schedules, date, side).value, cash, r.value)
  {
    hide Charge, TradeCosts.Total;
    if cash <= 0.0 {
      return Ok(0.0);
    }
    var low, high := 0.0, cash;
    ghost var rates := Resolve(schedules, date, side);
    for step := 0 to BISECTION_STEPS
      invariant step > 0 ==> rates.Ok?
      invariant rates.Ok? ==> Bracket(low, high) == BracketAfter(rates.value, cash, step)
      invariant 0.0 <= low <= high
    {
      var middle := (low + high) / 2.0;
      var costs := Calculate(schedules, date, side, middle);
      if costs.Err? {
        return Err(costs.error);
      }
      if middle + costs.value.Total() <= cash {
        low := middle;
      } else {
        high := middle;
      }
    }
    if ValidPolicy(schedules) {
      ResolvedRatesAreValid(schedules, date, side);
      MaximumAffordableIsTight(rates.value, cash, low);
    }
    return Ok(low);
  }
}
