/** Session billing: the split of a session into charging and idle minutes, and its tariff. */
module Billing {
  import opened Text

  const MILLISECONDS_PER_MINUTE := 60000
  const ACTIVE_POWER_THRESHOLD_WATTS := 100.0
  const WATT_HOURS_PER_KILOWATT_HOUR := 1000.0

  /** One meter reading; instants are milliseconds. */
  datatype Sample = Sample(timestamp: int, energyWh: real, powerW: real)

  /** A tariff; an absent rate charges nothing. */
  datatype Plan = Plan(pricePerKwh: Option<int>, pricePerMinute: Option<int>, idleFee: Option<int>,
                       sessionFee: Option<int>)

  datatype Bill = Bill(chargingMinutes: real, idleMinutes: real, totalCost: int)

  // ----- arithmetic -----

  function Max(a: real, b: real): real { if a < b then b else a }

  function Min(a: real, b: real): real { if a < b then a else b }

  /** Math.round: halves go up. */
  function Round(x: real): int { (x + 0.5).Floor }

  function Rate(rate: Option<int>): int { if rate.None? then 0 else rate.value }

  function ComponentCost(rate: Option<int>, quantity: real): int {
    if rate.None? then 0 else Round(rate.value as real * quantity)
  }

  function DurationMinutes(startedAt: int, endedAt: int): real {
    if endedAt - startedAt <= 0 then 0.0 else (endedAt - startedAt) as real / MILLISECONDS_PER_MINUTE as real
  }

  // ----- the last sign of charging -----

  predicate IsCharging(samples: seq<Sample>, k: nat)
    requires k < |samples|
  {
    samples[k].powerW > ACTIVE_POWER_THRESHOLD_WATTS || (k > 0 && samples[k].energyWh > samples[k - 1].energyWh)
  }

  function LastCharging(samples: seq<Sample>): Option<int> {
    if samples == [] then None
    else
      var last := |samples| - 1;
      if IsCharging(samples, last) then Some(samples[last].timestamp) else LastCharging(samples[..last])
  }

  method ResolveLastChargingTimestamp(meterValues: seq<Sample>) returns (lastChargingTimestamp: Option<int>)
    ensures lastChargingTimestamp == LastCharging(meterValues)
  {
    var previousEnergyReadingWh: Option<real> := None;
    lastChargingTimestamp := None;
    for k := 0 to |meterValues|
      invariant previousEnergyReadingWh == if k == 0 then None else Some(meterValues[k - 1].energyWh)
      invariant lastChargingTimestamp == LastCharging(meterValues[..k])
    {
      var meterValue := meterValues[k];
      var hasActivePower := meterValue.powerW > ACTIVE_POWER_THRESHOLD_WATTS;
      var hasEnergyIncrease := previousEnergyReadingWh.Some? && meterValue.energyWh > previousEnergyReadingWh.value;
      if hasActivePower || hasEnergyIncrease {
        lastChargingTimestamp := Some(meterValue.timestamp);
      }
      previousEnergyReadingWh := Some(meterValue.energyWh);
      assert meterValues[..k + 1][..k] == meterValues[..k];
    }
    assert meterValues[..|meterValues|] == meterValues;
  }

  /** Power of more than 100 W, or a register that rose. */
  predicate ShowsCharging(samples: seq<Sample>, k: nat)
    requires k < |samples|
  {
    100.0 < samples[k].powerW || (0 < k && samples[k - 1].energyWh < samples[k].energyWh)
  }

  predicate IsLastCharging(samples: seq<Sample>, k: nat) {
    k < |samples| && ShowsCharging(samples, k) && forall j :: k < j < |samples| ==> !ShowsCharging(samples, j)
  }

  lemma {:induction false} LastChargingIsLatest(samples: seq<Sample>)
    ensures LastCharging(samples).None? <==> forall k :: 0 <= k < |samples| ==> !IsCharging(samples, k)
    ensures LastCharging(samples).Some? ==>
      exists k :: 0 <= k < |samples| && IsCharging(samples, k) && LastCharging(samples).value == samples[k].timestamp
               && forall j :: k < j < |samples| ==> !IsCharging(samples, j)
  {
    if samples != [] {
      var last := |samples| - 1;
      var front := samples[..last];
      if !IsCharging(samples, last) {
        LastChargingIsLatest(front);
        assert forall k :: 0 <= k < last ==> IsCharging(front, k) == IsCharging(samples, k);
        if LastCharging(front).Some? {
          var k :| 0 <= k < |front| && IsCharging(front, k) && LastCharging(front).value == front[k].timestamp
                && forall j :: k < j < |front| ==> !IsCharging(front, j);
          assert IsCharging(samples, k) && forall j :: k < j < |samples| ==> !IsCharging(samples, j);
        }
      }
    }
  }

  /** Which sample the loop picks: the latest one that shows charging, if any does. */
  lemma LastChargingMeaning(samples: seq<Sample>)
    ensures LastCharging(samples).None? <==> forall k :: 0 <= k < |samples| ==> !ShowsCharging(samples, k)
    ensures forall k: nat :: IsLastCharging(samples, k) ==> LastCharging(samples) == Some(samples[k].timestamp)
  {
    LastChargingIsLatest(samples);
    assert forall k :: 0 <= k < |samples| ==> IsCharging(samples, k) == ShowsCharging(samples, k);
    forall k: nat | IsLastCharging(samples, k) ensures LastCharging(samples) == Some(samples[k].timestamp) {
      assert IsCharging(samples, k);
      var i :| 0 <= i < |samples| && IsCharging(samples, i) && LastCharging(samples).value == samples[i].timestamp
            && forall j :: i < j < |samples| ==> !IsCharging(samples, j);
      assert ShowsCharging(samples, i);
    }
  }

  /** Exactly 100 W is not charging, and anything above is. */
  lemma ThresholdIsExclusive(t: int, energyWh: real, powerW: real)
    ensures LastCharging([Sample(t, energyWh, powerW)]) == if 100.0 < powerW then Some(t) else None
  {}

  // ----- energy -----

  function MaxEnergy(samples: seq<Sample>): real
    requires samples != []
  {
    var last := |samples| - 1;
    if last == 0 then samples[0].energyWh else Max(MaxEnergy(samples[..last]), samples[last].energyWh)
  }

  function MinEnergy(samples: seq<Sample>): real
    requires samples != []
  {
    var last := |samples| - 1;
    if last == 0 then samples[0].energyWh else Min(MinEnergy(samples[..last]), samples[last].energyWh)
  }

  function EnergyDeliveredKwh(samples: seq<Sample>): real {
    if samples == [] then 0.0
    else Max(0.0, (MaxEnergy(samples) - MinEnergy(samples)) / WATT_HOURS_PER_KILOWATT_HOUR)
  }

  /** The delivered energy is the widest spread between two readings: a bound on all, reached by some. */
  lemma EnergyIsWidestSpread(samples: seq<Sample>)
    requires samples != []
    ensures forall j, k :: 0 <= j < |samples| && 0 <= k < |samples| ==>
      samples[j].energyWh - samples[k].energyWh <= 1000.0 * EnergyDeliveredKwh(samples)
    ensures exists j, k | 0 <= j < |samples| && 0 <= k < |samples| ::
      samples[j].energyWh - samples[k].energyWh == 1000.0 * EnergyDeliveredKwh(samples)
  {
    var high, low := ExtremeReadings(samples);
    assert samples[high].energyWh - samples[low].energyWh == 1000.0 * EnergyDeliveredKwh(samples);
  }

  lemma {:induction false} ExtremeReadings(samples: seq<Sample>) returns (high: nat, low: nat)
    requires samples != []
    ensures high < |samples| && samples[high].energyWh == MaxEnergy(samples)
    ensures low < |samples| && samples[low].energyWh == MinEnergy(samples)
    ensures forall k :: 0 <= k < |samples| ==> MinEnergy(samples) <= samples[k].energyWh <= MaxEnergy(samples)
  {
    var last := |samples| - 1;
    if last == 0 {
      high, low := 0, 0;
    } else {
      var front := samples[..last];
      high, low := ExtremeReadings(front);
      assert forall k :: 0 <= k < last ==> front[k] == samples[k];
      if MaxEnergy(front) < samples[last].energyWh { high := last; }
      if samples[last].energyWh <= MinEnergy(front) { low := last; }
    }
  }

  // ----- the bill -----

  function IdleMinutes(samples: seq<Sample>, energyKwh: real, totalMinutes: real, stoppedAt: int): real {
    if samples == [] then 0.0
    else
      var last := LastCharging(samples);
      if last.None? then
        if energyKwh > 0.0 then 0.0 else totalMinutes
      else
        DurationMinutes(last.value, stoppedAt)
  }

  function ChargingMinutes(samples: seq<Sample>, startedAt: int, stoppedAt: int): real {
    var total := DurationMinutes(startedAt, stoppedAt);
    Max(0.0, total - IdleMinutes(samples, EnergyDeliveredKwh(samples), total, stoppedAt))
  }

  function SessionIdleMinutes(samples: seq<Sample>, startedAt: int, stoppedAt: int): real {
    IdleMinutes(samples, EnergyDeliveredKwh(samples), DurationMinutes(startedAt, stoppedAt), stoppedAt)
  }

  /** The bill of a session on a connector whose tariff is `plan`. */
  function SessionBill(plan: Plan, samples: seq<Sample>, startedAt: int, stoppedAt: int): Bill {
    var charging := ChargingMinutes(samples, startedAt, stoppedAt);
    var idle := SessionIdleMinutes(samples, startedAt, stoppedAt);
    Bill(charging, idle,
         ComponentCost(plan.pricePerKwh, EnergyDeliveredKwh(samples)) + ComponentCost(plan.pricePerMinute, charging)
         + ComponentCost(plan.idleFee, idle) + Rate(plan.sessionFee))
  }

  /** The figure broadcast after a sample: the bill as if the session stopped at that sample. */
  function LiveCost(plan: Plan, samples: seq<Sample>, startedAt: int): int
    requires samples != []
  {
    SessionBill(plan, samples, startedAt, samples[|samples| - 1].timestamp).totalCost
  }

  // ----- what each part of a bill is, in the units of the readings -----

  function MinutesBetween(a: int, b: int): real {
    if a < b then (b - a) as real / 60000.0 else 0.0
  }

  /** Idle time runs from the last sample that shows charging to the stop. When none shows any, all of the
      session is idle if all registers are equal, and nothing is idle otherwise or without samples. */
  lemma IdleTimeInWords(samples: seq<Sample>, startedAt: int, stoppedAt: int)
    ensures samples == [] ==> SessionIdleMinutes(samples, startedAt, stoppedAt) == 0.0
    ensures forall k: nat :: IsLastCharging(samples, k) ==>
      SessionIdleMinutes(samples, startedAt, stoppedAt) == MinutesBetween(samples[k].timestamp, stoppedAt)
    ensures samples != [] && (forall k :: 0 <= k < |samples| ==> !ShowsCharging(samples, k)) ==>
      SessionIdleMinutes(samples, startedAt, stoppedAt)
      == if forall j, k :: 0 <= j < |samples| && 0 <= k < |samples| ==> samples[j].energyWh == samples[k].energyWh
         then MinutesBetween(startedAt, stoppedAt) else 0.0
  {
    LastChargingMeaning(samples);
    if samples != [] {
      EnergyIsWidestSpread(samples);
      var high, low := ExtremeReadings(samples);
      assert EnergyDeliveredKwh(samples) == 0.0 <==> samples[high].energyWh == samples[low].energyWh;
    }
  }

  /** The rest of the session is charging time. */
  lemma ChargingTimeInWords(samples: seq<Sample>, startedAt: int, stoppedAt: int)
    ensures var rest := MinutesBetween(startedAt, stoppedAt) - SessionIdleMinutes(samples, startedAt, stoppedAt);
      ChargingMinutes(samples, startedAt, stoppedAt) == if 0.0 < rest then rest else 0.0
  {}

  function SpreadWh(samples: seq<Sample>, high: nat, low: nat): real
    requires high < |samples| && low < |samples|
  {
    samples[high].energyWh - samples[low].energyWh
  }

  predicate WidestSpread(samples: seq<Sample>, high: nat, low: nat) {
    && high < |samples| && low < |samples|
    && forall j, k :: 0 <= j < |samples| && 0 <= k < |samples| ==>
         samples[j].energyWh - samples[k].energyWh <= SpreadWh(samples, high, low)
  }

  lemma EnergyOfSpread(samples: seq<Sample>, high: nat, low: nat)
    requires WidestSpread(samples, high, low)
    ensures EnergyDeliveredKwh(samples) == SpreadWh(samples, high, low) / 1000.0
  {
    EnergyIsWidestSpread(samples);
    var j, k :| 0 <= j < |samples| && 0 <= k < |samples|
             && samples[j].energyWh - samples[k].energyWh == 1000.0 * EnergyDeliveredKwh(samples);
  }

  /** A plan with a kilowatt-hour price only bills the widest spread, to within a half. */
  lemma EnergyBill(rate: int, samples: seq<Sample>, high: nat, low: nat, startedAt: int, stoppedAt: int)
    requires WidestSpread(samples, high, low)
    ensures var bill := SessionBill(Plan(Some(rate), None, None, None), samples, startedAt, stoppedAt);
      var exact := rate as real * (SpreadWh(samples, high, low) / 1000.0);
      exact - 0.5 < bill.totalCost as real <= exact + 0.5
  {
    EnergyOfSpread(samples, high, low);
    RoundingError(Some(rate), EnergyDeliveredKwh(samples));
  }

  /** A plan with a minute price, an idle fee or a session fee only bills charging minutes, idle minutes, each
      to within a half, or the fee as it is. */
  lemma TimeBills(rate: int, samples: seq<Sample>, startedAt: int, stoppedAt: int)
    ensures var bill := SessionBill(Plan(None, Some(rate), None, None), samples, startedAt, stoppedAt);
      var exact := rate as real * ChargingMinutes(samples, startedAt, stoppedAt);
      exact - 0.5 < bill.totalCost as real <= exact + 0.5
    ensures var bill := SessionBill(Plan(None, None, Some(rate), None), samples, startedAt, stoppedAt);
      var exact := rate as real * SessionIdleMinutes(samples, startedAt, stoppedAt);
      exact - 0.5 < bill.totalCost as real <= exact + 0.5
    ensures SessionBill(Plan(None, None, None, Some(rate)), samples, startedAt, stoppedAt).totalCost == rate
  {
    RoundingError(Some(rate), ChargingMinutes(samples, startedAt, stoppedAt));
    RoundingError(Some(rate), SessionIdleMinutes(samples, startedAt, stoppedAt));
  }

  /** A plan's bill is the sum of what its rates bill one by one. */
  lemma BillIsSumOfRates(plan: Plan, samples: seq<Sample>, startedAt: int, stoppedAt: int)
    ensures SessionBill(plan, samples, startedAt, stoppedAt).totalCost
         == SessionBill(Plan(plan.pricePerKwh, None, None, None), samples, startedAt, stoppedAt).totalCost
          + SessionBill(Plan(None, plan.pricePerMinute, None, None), samples, startedAt, stoppedAt).totalCost
          + SessionBill(Plan(None, None, plan.idleFee, None), samples, startedAt, stoppedAt).totalCost
          + SessionBill(Plan(None, None, None, plan.sessionFee), samples, startedAt, stoppedAt).totalCost
  {}

  // ----- splitting time -----

  /** Charging and idle minutes add up to the whole session exactly when the last sign of charging
      is not before the start, or not before the stop. */
  lemma SplitIsExact(plan: Plan, samples: seq<Sample>, startedAt: int, stoppedAt: int)
    ensures var bill := SessionBill(plan, samples, startedAt, stoppedAt);
      bill.chargingMinutes + bill.idleMinutes == DurationMinutes(startedAt, stoppedAt)
      <==> var last := LastCharging(samples);
           last.None? || startedAt <= last.value || stoppedAt <= last.value
  {
    var last := LastCharging(samples);
    if last.Some? {
      DurationOrder(last.value, startedAt, stoppedAt);
    }
  }

  lemma DurationOrder(a: int, b: int, end: int)
    ensures DurationMinutes(a, end) <= DurationMinutes(b, end) <==> b <= a || end <= a
  {
    if a < end && b < end {
      assert (end - a) as real / 60000.0 <= (end - b) as real / 60000.0 <==> (end - a) as real <= (end - b) as real;
    }
  }

  /** The exact tariff, before each component is rounded. */
  function ExactCost(plan: Plan, energyKwh: real, charging: real, idle: real): real {
    Rate(plan.pricePerKwh) as real * energyKwh + Rate(plan.pricePerMinute) as real * charging
    + Rate(plan.idleFee) as real * idle + Rate(plan.sessionFee) as real
  }

  lemma RoundingError(rate: Option<int>, quantity: real)
    ensures var exact := Rate(rate) as real * quantity;
      exact - 0.5 < ComponentCost(rate, quantity) as real <= exact + 0.5
  {
    if rate.None? {
      assert 0.0 * quantity == 0.0;
    }
  }

  lemma TotalWithinThreeHalves(plan: Plan, samples: seq<Sample>, startedAt: int, stoppedAt: int)
    ensures var bill := SessionBill(plan, samples, startedAt, stoppedAt);
      var exact := ExactCost(plan, EnergyDeliveredKwh(samples), bill.chargingMinutes, bill.idleMinutes);
      exact - 1.5 < bill.totalCost as real <= exact + 1.5
  {
    ThreeRoundings(plan, EnergyDeliveredKwh(samples), ChargingMinutes(samples, startedAt, stoppedAt),
                   SessionIdleMinutes(samples, startedAt, stoppedAt));
  }

  lemma ThreeRoundings(plan: Plan, energyKwh: real, charging: real, idle: real)
    ensures var total := ComponentCost(plan.pricePerKwh, energyKwh) + ComponentCost(plan.pricePerMinute, charging)
                         + ComponentCost(plan.idleFee, idle) + Rate(plan.sessionFee);
      var exact := ExactCost(plan, energyKwh, charging, idle);
      exact - 1.5 < total as real <= exact + 1.5
  {
    RoundingError(plan.pricePerKwh, energyKwh);
    RoundingError(plan.pricePerMinute, charging);
    RoundingError(plan.idleFee, idle);
  }

  // ----- the running bill -----

  /** Samples as the meter table keeps them: distinct instants, in order, none before the start. */
  predicate InOrder(samples: seq<Sample>, startedAt: int) {
    && (forall k :: 0 <= k < |samples| ==> startedAt <= samples[k].timestamp)
    && (forall j, k :: 0 <= j < k < |samples| ==> samples[j].timestamp < samples[k].timestamp)
  }

  predicate NonNegative(plan: Plan) {
    0 <= Rate(plan.pricePerKwh) && 0 <= Rate(plan.pricePerMinute) && 0 <= Rate(plan.idleFee)
  }

  lemma {:induction false} EnergyGrows(samples: seq<Sample>, i: nat)
    requires 0 < i <= |samples|
    ensures MaxEnergy(samples[..i]) <= MaxEnergy(samples) && MinEnergy(samples) <= MinEnergy(samples[..i])
    ensures 0.0 <= EnergyDeliveredKwh(samples[..i]) <= EnergyDeliveredKwh(samples)
    decreases |samples|
  {
    if i == |samples| {
      assert samples[..i] == samples;
    } else {
      var front := samples[..|samples| - 1];
      EnergyGrows(front, i);
      assert front[..i] == samples[..i];
    }
  }

  /** The three ways a bill can split its time. */
  lemma ChargingCases(samples: seq<Sample>, startedAt: int, stoppedAt: int)
    requires samples != [] && InOrder(samples, startedAt)
    requires samples[|samples| - 1].timestamp <= stoppedAt
    ensures var last := LastCharging(samples);
      && ChargingMinutes(samples, startedAt, stoppedAt)
         == (if last.Some? then DurationMinutes(startedAt, last.value)
             else if EnergyDeliveredKwh(samples) > 0.0 then DurationMinutes(startedAt, stoppedAt) else 0.0)
      && ChargingMinutes(samples, startedAt, stoppedAt) + SessionIdleMinutes(samples, startedAt, stoppedAt)
         == DurationMinutes(startedAt, stoppedAt)
      && (last.Some? ==> startedAt <= last.value <= stoppedAt)
  {
    var last := LastCharging(samples);
    if last.Some? {
      LastChargingWithin(samples, startedAt);
      DurationOrder(last.value, startedAt, stoppedAt);
      DurationSum(startedAt, last.value, stoppedAt);
    }
  }

  lemma DurationSum(a: int, b: int, c: int)
    requires a <= b <= c
    ensures DurationMinutes(a, b) + DurationMinutes(b, c) == DurationMinutes(a, c)
  {}

  lemma DurationGrows(a: int, b: int, c: int)
    requires b <= c
    ensures 0.0 <= DurationMinutes(a, b) <= DurationMinutes(a, c)
  {}

  /** A later sign of charging than any in a prefix comes after the prefix; an earlier one stays. */
  lemma {:induction false} LastChargingGrows(samples: seq<Sample>, i: nat, startedAt: int)
    requires 0 < i <= |samples| && InOrder(samples, startedAt)
    ensures var early, late := LastCharging(samples[..i]), LastCharging(samples);
      && (early.Some? ==> late.Some? && early.value <= late.value)
      && (early.None? && late.Some? ==> samples[i - 1].timestamp <= late.value)
    decreases |samples|
  {
    var last := |samples| - 1;
    if i == |samples| {
      assert samples[..i] == samples;
    } else {
      var front := samples[..last];
      LastChargingGrows(front, i, startedAt);
      assert front[..i] == samples[..i];
      if LastCharging(front).Some? { LastChargingWithin(front, startedAt); }
    }
  }

  lemma {:induction false} LastChargingWithin(samples: seq<Sample>, startedAt: int)
    requires InOrder(samples, startedAt) && LastCharging(samples).Some?
    ensures startedAt <= LastCharging(samples).value <= samples[|samples| - 1].timestamp
    decreases |samples|
  {
    var last := |samples| - 1;
    if !IsCharging(samples, last) {
      LastChargingWithin(samples[..last], startedAt);
    }
  }

  /** Charging minutes never shrink as samples arrive or the stop moves on. */
  lemma ChargingGrows(samples: seq<Sample>, i: nat, startedAt: int, stoppedAt: int)
    requires 0 < i <= |samples| && InOrder(samples, startedAt)
    requires samples[|samples| - 1].timestamp <= stoppedAt
    ensures ChargingMinutes(samples[..i], startedAt, samples[i - 1].timestamp)
         <= ChargingMinutes(samples, startedAt, stoppedAt)
  {
    var prefix, t := samples[..i], samples[i - 1].timestamp;
    assert t <= samples[|samples| - 1].timestamp;
    ChargingCases(prefix, startedAt, t);
    ChargingCases(samples, startedAt, stoppedAt);
    LastChargingGrows(samples, i, startedAt);
    EnergyGrows(samples, i);
    var early, late := LastCharging(prefix), LastCharging(samples);
    if late.Some? {
      DurationGrows(startedAt, if early.Some? then early.value else t, late.value);
    } else {
      DurationGrows(startedAt, t, stoppedAt);
    }
  }

  lemma ExactTimeCostGrows(m: real, f: real, charging: real, idle: real, charging': real, idle': real)
    requires 0.0 <= f <= m
    requires charging <= charging' && charging + idle <= charging' + idle'
    ensures m * charging + f * idle <= m * charging' + f * idle'
  {
    ProductNonNegative(m - f, charging' - charging);
    ProductNonNegative(f, (charging' + idle') - (charging + idle));
    assert m * charging' + f * idle' - (m * charging + f * idle)
        == (m - f) * (charging' - charging) + f * ((charging' + idle') - (charging + idle));
  }

  /** Rounding each component moves the sum of two by less than two, so by at most one. */
  lemma TimeCostGrows(perMinute: Option<int>, idleFee: Option<int>, charging: real, idle: real, charging': real,
                      idle': real)
    requires 0 <= Rate(idleFee) <= Rate(perMinute)
    requires charging <= charging' && charging + idle <= charging' + idle'
    ensures ComponentCost(perMinute, charging) + ComponentCost(idleFee, idle) - 1
         <= ComponentCost(perMinute, charging') + ComponentCost(idleFee, idle')
  {
    RoundingError(perMinute, charging);
    RoundingError(perMinute, charging');
    RoundingError(idleFee, idle);
    RoundingError(idleFee, idle');
    ExactTimeCostGrows(Rate(perMinute) as real, Rate(idleFee) as real, charging, idle, charging', idle');
  }

  lemma ProductNonNegative(a: real, b: real)
    requires 0.0 <= a && 0.0 <= b
    ensures 0.0 <= a * b
  {}

  lemma ComponentGrows(rate: Option<int>, q: real, q': real)
    requires 0 <= Rate(rate) && q <= q'
    ensures ComponentCost(rate, q) <= ComponentCost(rate, q')
  {
    if rate.Some? {
      assert rate.value as real * q <= rate.value as real * q';
    }
  }

  /** The bill at any stop not before the last sample is at least every live figure so far, less one. */
  lemma BillKeepsUpWithLiveCost(plan: Plan, samples: seq<Sample>, i: nat, startedAt: int, stoppedAt: int)
    requires NonNegative(plan) && Rate(plan.idleFee) <= Rate(plan.pricePerMinute)
    requires 0 < i <= |samples| && InOrder(samples, startedAt)
    requires samples[|samples| - 1].timestamp <= stoppedAt
    ensures LiveCost(plan, samples[..i], startedAt) - 1 <= SessionBill(plan, samples, startedAt, stoppedAt).totalCost
  {
    var prefix, t := samples[..i], samples[i - 1].timestamp;
    assert t <= samples[|samples| - 1].timestamp;
    ChargingGrows(samples, i, startedAt, stoppedAt);
    ChargingCases(prefix, startedAt, t);
    ChargingCases(samples, startedAt, stoppedAt);
    DurationGrows(startedAt, t, stoppedAt);
    TimeCostGrows(plan.pricePerMinute, plan.idleFee,
                  ChargingMinutes(prefix, startedAt, t), SessionIdleMinutes(prefix, startedAt, t),
                  ChargingMinutes(samples, startedAt, stoppedAt), SessionIdleMinutes(samples, startedAt, stoppedAt));
    EnergyGrows(samples, i);
    ComponentGrows(plan.pricePerKwh, EnergyDeliveredKwh(prefix), EnergyDeliveredKwh(samples));
  }

  /** No live figure is more than one below any earlier one, in any session on this plan. */
  ghost predicate NeverFallsByMoreThanOne(plan: Plan) {
    forall samples: seq<Sample>, startedAt: int, i: nat, j: nat
      {:trigger LiveCost(plan, samples[..i], startedAt), LiveCost(plan, samples[..j], startedAt)}
      | 0 < i <= j <= |samples| && InOrder(samples, startedAt) ::
      LiveCost(plan, samples[..i], startedAt) - 1 <= LiveCost(plan, samples[..j], startedAt)
  }

  /** The running bill is steady exactly for the plans whose idle fee is at most their minute price. */
  lemma RunningBillIsSteady(plan: Plan)
    requires NonNegative(plan)
    ensures NeverFallsByMoreThanOne(plan) <==> Rate(plan.idleFee) <= Rate(plan.pricePerMinute)
  {
    if Rate(plan.idleFee) <= Rate(plan.pricePerMinute) {
      forall samples: seq<Sample>, startedAt: int, i: nat, j: nat
        | 0 < i <= j <= |samples| && InOrder(samples, startedAt)
        ensures LiveCost(plan, samples[..i], startedAt) - 1 <= LiveCost(plan, samples[..j], startedAt)
      {
        var seen := samples[..j];
        assert seen[..i] == samples[..i] && InOrder(seen, startedAt);
        BillKeepsUpWithLiveCost(plan, seen, i, startedAt, seen[j - 1].timestamp);
      }
    } else {
      DearIdlingFalls(plan);
    }
  }

  /** When idling costs more than charging: wait long enough without charging, then draw power. */
  lemma DearIdlingFalls(plan: Plan)
    requires NonNegative(plan) && Rate(plan.pricePerMinute) < Rate(plan.idleFee)
    ensures !NeverFallsByMoreThanOne(plan)
  {
    var m, f := Rate(plan.pricePerMinute), Rate(plan.idleFee);
    var t := (m + 4) * MILLISECONDS_PER_MINUTE;
    var idle, busy := Sample(t, 0.0, 0.0), Sample(t + 1, 0.0, 200.0);
    var samples := [idle, busy];
    assert samples[..1] == [idle] && samples[..2] == samples;
    assert !IsCharging([idle], 0) && IsCharging(samples, 1);
    assert [idle][..0] == [];
    assert LastCharging([idle]) == LastCharging([]) == None;
    assert LastCharging(samples) == Some(t + 1);
    assert EnergyDeliveredKwh([idle]) == 0.0;
    assert MaxEnergy(samples) == 0.0 && MinEnergy(samples) == 0.0 && EnergyDeliveredKwh(samples) == 0.0;
    var early, late := DurationMinutes(0, t), DurationMinutes(0, t + 1);
    assert early == (m + 4) as real;
    assert late == early + 1.0 / 60000.0;
    assert ChargingMinutes([idle], 0, t) == 0.0 && SessionIdleMinutes([idle], 0, t) == early;
    assert ChargingMinutes(samples, 0, t + 1) == late && SessionIdleMinutes(samples, 0, t + 1) == 0.0;
    var energy := ComponentCost(plan.pricePerKwh, 0.0) + Rate(plan.sessionFee);
    assert LiveCost(plan, [idle], 0)
        == energy + ComponentCost(plan.pricePerMinute, 0.0) + ComponentCost(plan.idleFee, early);
    assert LiveCost(plan, samples, 0)
        == energy + ComponentCost(plan.pricePerMinute, late) + ComponentCost(plan.idleFee, 0.0);
    DearIdlingCosts(plan, early, late);
    assert LiveCost(plan, samples[..1], 0) - 1 > LiveCost(plan, samples[..2], 0);
  }

  lemma DearIdlingCosts(plan: Plan, early: real, late: real)
    requires NonNegative(plan) && Rate(plan.pricePerMinute) < Rate(plan.idleFee)
    requires early == (Rate(plan.pricePerMinute) + 4) as real && late == early + 1.0 / 60000.0
    ensures ComponentCost(plan.pricePerMinute, 0.0) + ComponentCost(plan.idleFee, early) - 1
          > ComponentCost(plan.pricePerMinute, late) + ComponentCost(plan.idleFee, 0.0)
  {
    var m, f := Rate(plan.pricePerMinute), Rate(plan.idleFee);
    RoundingError(plan.idleFee, early);
    RoundingError(plan.pricePerMinute, late);
    RoundingError(plan.idleFee, 0.0);
    RoundingError(plan.pricePerMinute, 0.0);
    ProductNonNegative((f - m - 1) as real, early);
    assert f as real * early == (f - m - 1) as real * early + m as real * early + early;
    assert m as real * late == m as real * early + m as real / 60000.0;
  }

  /** The allowance of one is needed even when idling is no dearer than charging. */
  lemma FallByOneHappens()
    ensures var plan := Plan(None, Some(1), Some(1), None);
      exists samples: seq<Sample> :: |samples| == 3 && InOrder(samples, 0)
        && LiveCost(plan, samples, 0) == LiveCost(plan, samples[..2], 0) - 1
  {
    var plan := Plan(None, Some(1), Some(1), None);
    var a, b, c := Sample(30000, 0.0, 200.0), Sample(60000, 0.0, 0.0), Sample(66000, 0.0, 200.0);
    var two, three := [a, b], [a, b, c];
    assert three[..2] == two && two[..1] == [a];
    assert IsCharging([a], 0) && !IsCharging(two, 1) && IsCharging(three, 2);
    assert LastCharging(two) == LastCharging([a]) == Some(30000);
    assert LastCharging(three) == Some(66000);
    assert ChargingMinutes(two, 0, 60000) == 0.5 && SessionIdleMinutes(two, 0, 60000) == 0.5;
    assert ChargingMinutes(three, 0, 66000) == 1.1 && SessionIdleMinutes(three, 0, 66000) == 0.0;
    assert LiveCost(plan, two, 0) == 2 && LiveCost(plan, three, 0) == 1;
  }
}
