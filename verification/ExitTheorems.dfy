/** What the exit decision guarantees: over runs of ticks, across the master switch, and in the IV percentile. */
module ExitTheorems {
  import opened Common
  import opened Schemas
  import opened ExitMonitors

  // ----- priority -----

  const PRIORITY: seq<Reason> := [ProfitTarget, EarningsGap, ThesisInvalidated, TrailingStop, StopLoss, DteStop]

  predicate Gate(mon: Monitor, pos: Position, t: Tick, r: Reason)
    requires pos.entry != 0.0
  {
    match r
    case ProfitTarget => ProfitGate(mon, pos, t)
    case EarningsGap => NearEarnings(mon, t) && PnlRatio(pos, t.premium) > 0.0
    case ThesisInvalidated => ThesisGate(mon, pos, t)
    case TrailingStop => TrailingGate(mon, pos, t)
    case StopLoss => StopGate(mon, pos, t)
    case DteStop => t.dte <= mon.dteFloor
  }

  // A reason is given exactly when its gate holds and none before it in the order does.
  lemma FirstInPriority(mon: Monitor, pos: Position, t: Tick)
    requires pos.entry != 0.0
    ensures forall k :: 0 <= k < |PRIORITY| ==>
              (FirstTriggered(mon, pos, t) == Some(PRIORITY[k]) <==>
               Gate(mon, pos, t, PRIORITY[k]) && forall j :: 0 <= j < k ==> !Gate(mon, pos, t, PRIORITY[j]))
    ensures FirstTriggered(mon, pos, t).None? <==> forall r :: !Gate(mon, pos, t, r)
  {
    var first := FirstTriggered(mon, pos, t);
    forall k | 0 <= k < |PRIORITY|
      ensures first == Some(PRIORITY[k]) <==>
              Gate(mon, pos, t, PRIORITY[k]) && forall j :: 0 <= j < k ==> !Gate(mon, pos, t, PRIORITY[j])
    {
      assert PRIORITY[0] == ProfitTarget && PRIORITY[1] == EarningsGap && PRIORITY[2] == ThesisInvalidated;
      assert PRIORITY[3] == TrailingStop && PRIORITY[4] == StopLoss && PRIORITY[5] == DteStop;
    }
    if first.Some? {
      assert Gate(mon, pos, t, first.value);
    }
  }

  // ----- static exits, stated in dollars -----

  ghost predicate StaticMonitor(mon: Monitor) {
    !mon.dynamic && 0.0 < mon.activation && 0.0 <= mon.giveback <= 1.0
  }

  // The price has come within the band of the target, from below for a call and from above for a put.
  predicate NearTarget(kind: OptionKind, price: real, target: real, band: real) {
    match kind
    case Call => price >= target * (1.0 - band)
    case Put => price <= target * (1.0 + band)
  }

  lemma WallIsNear(kind: OptionKind, price: real, target: real, band: real)
    ensures AtWall(kind, price, target, band) <==> NearTarget(kind, price, target, band)
  {
  }

  // The premium is up on the entry by the activation share.
  predicate ReachesActivation(mon: Monitor, entry: real, premium: real) {
    premium >= entry * (1.0 + mon.activation)
  }

  // Of the gain at the peak at least this share is gone.
  predicate GivenBack(entry: real, peak: real, premium: real, share: real) {
    peak - premium >= (peak - entry) * share
  }

  // The gates of a static monitor without ratios or adjustments: prices against prices.
  predicate DollarGate(mon: Monitor, pos: Position, t: Tick, r: Reason) {
    match r
    case ProfitTarget =>
      pos.target.Some? && NearTarget(pos.contract.kind, t.price, pos.target.value, mon.wallProximity)
    case EarningsGap => false
    case ThesisInvalidated =>
      t.setup.Some? && t.setup.value.direction != (if pos.contract.kind.Call? then GoCall else GoPut)
    case TrailingStop =>
      && pos.peak.Some? && ReachesActivation(mon, pos.entry, pos.peak.value) && pos.peak.value > pos.entry
      && GivenBack(pos.entry, pos.peak.value, t.premium, mon.giveback)
    case StopLoss => t.premium <= pos.entry * (1.0 - mon.stopLoss)
    case DteStop => t.dte <= mon.dteFloor
  }

  lemma RatioBelow(premium: real, entry: real, stop: real)
    requires entry > 0.0
    ensures (premium - entry) / entry <= -stop <==> premium <= entry * (1.0 - stop)
  {
    var q := (premium - entry) / entry;
    assert q * entry == premium - entry;
    if q <= -stop {
      MulMono(q, -stop, entry);
    } else {
      MulPos(q + stop, entry);
    }
  }

  // The premium is at the floor exactly when the giveback share of the gain at the peak has been given back.
  lemma FloorIsGivenBack(entry: real, peak: real, giveback: real, premium: real)
    ensures premium <= GivebackFloor(entry, peak, giveback) <==> GivenBack(entry, peak, premium, giveback)
    ensures premium > GivebackFloor(entry, peak, giveback) <==> premium - entry > (peak - entry) * (1.0 - giveback)
  {
    var kept, gone := (peak - entry) * (1.0 - giveback), (peak - entry) * giveback;
    ShareSplits(peak - entry, giveback);
    assert kept == (peak - entry) - gone;
    assert GivebackFloor(entry, peak, giveback) == entry + kept;
    assert GivenBack(entry, peak, premium, giveback) <==> peak - premium >= gone;
  }

  lemma ShareSplits(gain: real, share: real)
    ensures gain * (1.0 - share) == gain - gain * share
  {
  }

  lemma GatesInDollars(mon: Monitor, pos: Position, t: Tick)
    requires !mon.dynamic && pos.entry > 0.0
    ensures forall r :: Gate(mon, pos, t, r) <==> DollarGate(mon, pos, t, r)
  {
    RatioBelow(t.premium, pos.entry, mon.stopLoss);
    if pos.target.Some? {
      WallIsNear(pos.contract.kind, t.price, pos.target.value, mon.wallProximity);
    }
    if pos.peak.Some? {
      FloorIsGivenBack(pos.entry, pos.peak.value, mon.giveback, t.premium);
    }
  }

  // A static monitor signals exactly when a dollar gate holds, with the first one in priority as its reason.
  lemma StaticSignalIff(mon: Monitor, pos: Position, t: Tick)
    requires !mon.dynamic && pos.entry > 0.0
    ensures forall k :: 0 <= k < |PRIORITY| ==>
              (FirstTriggered(mon, pos, t) == Some(PRIORITY[k]) <==>
               DollarGate(mon, pos, t, PRIORITY[k]) && forall j :: 0 <= j < k ==> !DollarGate(mon, pos, t, PRIORITY[j]))
    ensures Evaluate(mon, pos, t).None? <==> forall r :: !DollarGate(mon, pos, t, r)
  {
    GatesInDollars(mon, pos, t);
    FirstInPriority(mon, pos, t);
  }

  // ----- the trailing ratchet over runs -----

  function PeakAfter(pos: Position, premiums: seq<real>): (p: Position)
    ensures p == pos.(peak := p.peak)
    decreases |premiums|
  {
    if premiums == [] then pos else PeakAfter(WithPeak(pos, premiums[0]), premiums[1..])
  }

  // The stored peak is the maximum of the premiums seen (and of the peak it started from).
  lemma {:induction false} PeakIsRunningMaximum(pos: Position, premiums: seq<real>)
    requires premiums != [] || pos.peak.Some?
    ensures var p := PeakAfter(pos, premiums);
            && p.peak.Some?
            && (pos.peak.Some? ==> pos.peak.value <= p.peak.value)
            && (forall k :: 0 <= k < |premiums| ==> premiums[k] <= p.peak.value)
            && (p.peak == pos.peak || p.peak.value in premiums)
    decreases |premiums|
  {
    if premiums != [] {
      var next := WithPeak(pos, premiums[0]);
      PeakIsRunningMaximum(next, premiums[1..]);
      assert forall k :: 1 <= k < |premiums| ==> premiums[k] == premiums[1..][k - 1];
    }
  }

  lemma FloorMonotone(entry: real, low: real, high: real, giveback: real)
    requires low <= high && giveback <= 1.0
    ensures GivebackFloor(entry, low, giveback) <= GivebackFloor(entry, high, giveback)
  {
    MulMono(low - entry, high - entry, 1.0 - giveback);
  }

  // Nothing that happens later lowers the floor or disarms the stop.
  lemma RatchetNeverSlips(mon: Monitor, pos: Position, premiums: seq<real>, more: seq<real>)
    requires StaticMonitor(mon) && pos.peak.Some?
    ensures var before, later := PeakAfter(pos, premiums), PeakAfter(PeakAfter(pos, premiums), more);
            && before.peak.Some? && later.peak.Some? && later.entry == before.entry == pos.entry
            && (Armed(mon, before) ==> Armed(mon, later))
            && GivebackFloor(pos.entry, before.peak.value, mon.giveback)
               <= GivebackFloor(pos.entry, later.peak.value, mon.giveback)
            && forall t :: TrailingGate(mon, before, t) ==> TrailingGate(mon, later, t)
  {
    PeakIsRunningMaximum(pos, premiums);
    var before := PeakAfter(pos, premiums);
    PeakIsRunningMaximum(before, more);
    FloorMonotone(pos.entry, before.peak.value, PeakAfter(before, more).peak.value, mon.giveback);
  }

  lemma FloorAboveEntry(mon: Monitor, entry: real, peak: real)
    requires StaticMonitor(mon) && entry > 0.0 && peak >= ArmingLevel(mon, entry)
    ensures peak > entry && GivebackFloor(entry, peak, mon.giveback) >= entry
  {
    MulPos(entry, mon.activation);
    assert ArmingLevel(mon, entry) == entry + entry * mon.activation;
    MulNonNeg(peak - entry, 1.0 - mon.giveback);
  }

  // More than the share 1 - giveback of the gain at the peak is left, so there is a gain.
  predicate KeepsItsShare(entry: real, peak: real, premium: real, giveback: real) {
    premium - entry > (peak - entry) * (1.0 - giveback) >= 0.0
  }

  lemma ArmedStaysAbove(mon: Monitor, p: Position, t: Tick)
    requires StaticMonitor(mon) && p.entry > 0.0 && p.peak.Some? && ReachesActivation(mon, p.entry, p.peak.value)
    requires Evaluate(mon, p, t).None?
    ensures KeepsItsShare(p.entry, p.peak.value, t.premium, mon.giveback)
  {
    FloorAboveEntry(mon, p.entry, p.peak.value);
    FloorIsGivenBack(p.entry, p.peak.value, mon.giveback, t.premium);
    MulNonNeg(p.peak.value - p.entry, 1.0 - mon.giveback);
    assert !TrailingGate(mon, p, t);
  }

  lemma PeakReaches(mon: Monitor, pos: Position, premiums: seq<real>, k: nat)
    requires k < |premiums| && ReachesActivation(mon, pos.entry, premiums[k])
    ensures var p := PeakAfter(pos, premiums);
            && p.peak.Some? && premiums[k] <= p.peak.value && p.entry == pos.entry
            && ReachesActivation(mon, pos.entry, p.peak.value)
  {
    PeakIsRunningMaximum(pos, premiums);
  }

  // MAIN RESULT. Once some premium of a run reached entry x (1 + activation), a tick that signals
  // nothing leaves more than the share 1 - giveback of the gain at the highest premium of the run, and so a gain.
  lemma ArmedSilenceMeansProfit(mon: Monitor, pos: Position, premiums: seq<real>, t: Tick, k: nat)
    requires StaticMonitor(mon) && pos.entry > 0.0
    requires k < |premiums| && ReachesActivation(mon, pos.entry, premiums[k])
    requires Evaluate(mon, PeakAfter(pos, premiums), t).None?
    ensures var peak := PeakAfter(pos, premiums).peak;
            && peak.Some? && premiums[k] <= peak.value
            && KeepsItsShare(pos.entry, peak.value, t.premium, mon.giveback)
  {
    PeakReaches(mon, pos, premiums, k);
    ArmedStaysAbove(mon, PeakAfter(pos, premiums), t);
  }

  // A lower peak never makes a static exit fire that a higher one would not.
  lemma LowerPeakFiresLess(mon: Monitor, low: Position, high: Position, t: Tick)
    requires StaticMonitor(mon) && low.entry != 0.0
    requires high == low.(peak := high.peak, entrySetup := high.entrySetup)
    requires low.peak.Some? ==> high.peak.Some? && low.peak.value <= high.peak.value
    ensures Evaluate(mon, low, t).Some? ==> Evaluate(mon, high, t).Some?
  {
    if low.peak.Some? {
      FloorMonotone(low.entry, low.peak.value, high.peak.value, mon.giveback);
    }
  }

  // The position remembers a peak that armed the stop, and the giveback share of the gain there is gone.
  predicate BelowRememberedFloor(mon: Monitor, pos: Position, premium: real) {
    && pos.peak.Some? && ReachesActivation(mon, pos.entry, pos.peak.value)
    && GivenBack(pos.entry, pos.peak.value, premium, mon.giveback)
  }

  // On a fresh peak the trailing stop never fires.
  lemma FreshPeakHolds(mon: Monitor, pos: Position, t: Tick)
    requires StaticMonitor(mon) && 0.0 < mon.giveback && pos.peak.None?
    ensures !TrailingGate(mon, WithPeak(pos, t.premium), t)
  {
    if Armed(mon, WithPeak(pos, t.premium)) {
      var gain := t.premium - pos.entry;
      MulPos(gain, mon.giveback);
      assert GivebackFloor(pos.entry, t.premium, mon.giveback) == t.premium - gain * mon.giveback;
    }
  }

  lemma ArmsAt(mon: Monitor, entry: real, peak: real)
    ensures peak >= ArmingLevel(mon, entry) <==> ReachesActivation(mon, entry, peak)
  {
  }

  lemma NotGivenBackAbove(entry: real, peak: real, premium: real, share: real)
    requires 0.0 < share && entry < peak < premium
    ensures !GivenBack(entry, peak, premium, share)
  {
    MulPos(peak - entry, share);
  }

  lemma RememberedFloorFires(mon: Monitor, pos: Position, t: Tick)
    requires StaticMonitor(mon) && 0.0 < mon.giveback && pos.entry > 0.0
    ensures TrailingGate(mon, WithPeak(pos, t.premium), t) <==> BelowRememberedFloor(mon, pos, t.premium)
  {
    if pos.peak.Some? {
      ArmsAt(mon, pos.entry, pos.peak.value);
      FloorIsGivenBack(pos.entry, pos.peak.value, mon.giveback, t.premium);
      if ReachesActivation(mon, pos.entry, pos.peak.value) {
        FloorAboveEntry(mon, pos.entry, pos.peak.value);
      }
    }
    if pos.peak.None? || t.premium > pos.peak.value {
      FreshPeakHolds(mon, pos.(peak := None), t);
      assert WithPeak(pos.(peak := None), t.premium) == WithPeak(pos, t.premium);
      if pos.peak.Some? && pos.peak.value > pos.entry {
        NotGivenBackAbove(pos.entry, pos.peak.value, t.premium, mon.giveback);
      }
    } else {
      assert WithPeak(pos, t.premium) == pos;
    }
  }

  // Two remembered peaks make a difference to the next tick exactly when neither wall nor thesis decides it and
  // the premium has fallen to the floor of the higher one but not to that of the lower.
  lemma PeaksDifferIff(mon: Monitor, pos: Position, low: Option<real>, high: Option<real>, t: Tick)
    requires StaticMonitor(mon) && 0.0 < mon.giveback && pos.entry > 0.0
    requires low.Some? ==> high.Some? && low.value <= high.value
    ensures Evaluate(mon, WithPeak(pos.(peak := low), t.premium), t)
            != Evaluate(mon, WithPeak(pos.(peak := high), t.premium), t)
            <==>
            !ProfitGate(mon, pos, t) && !ThesisGate(mon, pos, t)
            && BelowRememberedFloor(mon, pos.(peak := high), t.premium)
            && !BelowRememberedFloor(mon, pos.(peak := low), t.premium)
  {
    RememberedFloorFires(mon, pos.(peak := low), t);
    RememberedFloorFires(mon, pos.(peak := high), t);
    if low.Some? {
      FloorMonotone(pos.entry, low.value, high.value, mon.giveback);
      FloorIsGivenBack(pos.entry, low.value, mon.giveback, t.premium);
      FloorIsGivenBack(pos.entry, high.value, mon.giveback, t.premium);
    }
  }

  // Forgetting the peak changes the decision of the next tick exactly when neither the wall nor the thesis
  // decides it and the premium has fallen to the floor of the peak forgotten.
  lemma LostPeakMattersIff(mon: Monitor, pos: Position, t: Tick)
    requires StaticMonitor(mon) && 0.0 < mon.giveback && pos.entry > 0.0
    ensures Evaluate(mon, WithPeak(pos.(peak := None), t.premium), t) != Evaluate(mon, WithPeak(pos, t.premium), t)
            <==>
            !ProfitGate(mon, pos, t) && !ThesisGate(mon, pos, t) && BelowRememberedFloor(mon, pos, t.premium)
  {
    PeaksDifferIff(mon, pos, None, pos.peak, t);
  }

  // ----- dynamic exits, stated on what a tick shows -----

  // How far the IV percentile lies from the middle of its range: -1 at 0 and below, 1 at 100 and above.
  function Tilt(t: Tick): real {
    match IvPercentile(t.context, t.dte)
    case None => 0.0
    case Some(iv) => if iv <= 0.0 then -1.0 else if iv >= 100.0 then 1.0 else iv / 50.0 - 1.0
  }

  // RSI and MACD histogram both agree with the direction held.
  predicate Confirms(mon: Monitor, kind: OptionKind, c: Option<Context>) {
    var rsi, hist := LatestRsi(c), LatestHistogram(c);
    rsi.Some? && hist.Some? &&
    match kind
    case Call => rsi.value >= mon.rsiConfirm && hist.value > 0.0
    case Put => rsi.value + mon.rsiConfirm <= 100.0 && hist.value < 0.0
  }

  // Both are there, they do not agree, and either warns of a reversal.
  predicate Warns(mon: Monitor, kind: OptionKind, c: Option<Context>) {
    var rsi, hist := LatestRsi(c), LatestHistogram(c);
    rsi.Some? && hist.Some? && !Confirms(mon, kind, c) &&
    match kind
    case Call => rsi.value <= mon.rsiDiverge || hist.value < 0.0
    case Put => rsi.value + mon.rsiDiverge >= 100.0 || hist.value > 0.0
  }

  // The band around the target: wider with the IV percentile, a warning or a wide spread, narrower with
  // confirmation.
  function Band(mon: Monitor, pos: Position, t: Tick): real {
    var tilted := Times(mon.wallProximity, 1.0 + Tilt(t) * mon.ivMaxAdjust);
    var steered := Times(tilted, Steer(mon, pos.contract.kind, t.context));
    Times(steered, if t.spread.Some? && t.spread.value > mon.spreadThreshold then 1.0 + mon.liquidityAdjust else 1.0)
  }

  function Times(a: real, b: real): real {
    a * b
  }

  function Steer(mon: Monitor, kind: OptionKind, c: Option<Context>): real {
    if Confirms(mon, kind, c) then 1.0 - mon.momentumAdjust
    else if Warns(mon, kind, c) then 1.0 + mon.momentumAdjust else 1.0
  }

  function HeldSide(kind: OptionKind, setup: Setup): Option<Wall> {
    match kind case Call => setup.callWall case Put => setup.putWall
  }

  // Confidence has fallen below its share of what it was, or the wall held for has gone or moved away.
  predicate Eroded(mon: Monitor, kind: OptionKind, was: Setup, now: Setup) {
    && was.confidence > 0.0
    && (|| now.confidence < was.confidence * mon.confidenceDecay
        || (HeldSide(kind, was).Some? &&
            (HeldSide(kind, now).Some? ==>
               HeldSide(kind, now).value.distance > HeldSide(kind, was).value.distance * (1.0 + mon.wallDrift))))
  }

  predicate EarningsSoon(mon: Monitor, t: Tick) {
    t.daysToEarnings.Some? && t.daysToEarnings.value <= mon.earningsBuffer
  }

  // The gates of a dynamic monitor on prices and market context.
  predicate MarketGate(mon: Monitor, pos: Position, t: Tick, r: Reason) {
    match r
    case ProfitTarget =>
      pos.target.Some? &&
      var live := if t.setup.Some? then HeldSide(pos.contract.kind, t.setup.value) else None;
      var target := if live.Some? then live.value.strike else pos.target.value;
      NearTarget(pos.contract.kind, t.price, target, Band(mon, pos, t))
    case EarningsGap => EarningsSoon(mon, t) && t.premium > pos.entry
    case ThesisInvalidated =>
      t.setup.Some? &&
      (|| t.setup.value.direction != (if pos.contract.kind.Call? then GoCall else GoPut)
       || (pos.entrySetup.Some? && Eroded(mon, pos.contract.kind, pos.entrySetup.value, t.setup.value)))
    case TrailingStop =>
      && pos.peak.Some? && ReachesActivation(mon, pos.entry, pos.peak.value) && pos.peak.value > pos.entry
      && GivenBack(pos.entry, pos.peak.value, t.premium, mon.giveback * (1.0 - Tilt(t) * mon.ivMaxAdjust))
    case StopLoss =>
      || t.premium <= pos.entry * (1.0 - mon.stopLoss * (1.0 + Tilt(t) * mon.ivMaxAdjust))
      || (EarningsSoon(mon, t) && t.premium <= pos.entry && t.premium <= pos.entry * (1.0 - mon.stopLoss))
    case DteStop => t.dte <= mon.dteFloor
  }

  lemma TiltIsMultiplier(mon: Monitor, t: Tick)
    ensures IvMultiplier(mon, IvPercentile(t.context, t.dte), false) == 1.0 + Tilt(t) * mon.ivMaxAdjust
    ensures IvMultiplier(mon, IvPercentile(t.context, t.dte), true) == 1.0 - Tilt(t) * mon.ivMaxAdjust
  {
    var iv := IvPercentile(t.context, t.dte);
    if iv.Some? {
      assert (Max(0.0, Min(100.0, iv.value)) - 50.0) / 50.0 == Tilt(t);
    }
  }

  lemma BandIsProximity(mon: Monitor, pos: Position, t: Tick)
    requires mon.dynamic
    ensures EffectiveProximity(mon, pos, t) == Band(mon, pos, t)
  {
    TiltIsMultiplier(mon, t);
    SteerIsFactor(mon, pos, t);
    ScaledInTurn(mon.wallProximity, IvMultiplier(mon, IvPercentile(t.context, t.dte), false),
                 MomentumFactor(mon, pos, t), LiquidityFactor(mon, t));
  }

  lemma SteerIsFactor(mon: Monitor, pos: Position, t: Tick)
    ensures MomentumFactor(mon, pos, t) == Steer(mon, pos.contract.kind, t.context)
  {
  }

  lemma ScaledInTurn(base: real, iv: real, momentum: real, liquidity: real)
    ensures Scaled(base, iv, momentum, liquidity) == Times(Times(Times(base, iv), momentum), liquidity)
  {
  }

  lemma StopInMarket(mon: Monitor, pos: Position, t: Tick)
    requires mon.dynamic && pos.entry > 0.0
    ensures StopGate(mon, pos, t) <==> MarketGate(mon, pos, t, StopLoss)
  {
    TiltIsMultiplier(mon, t);
    RatioBelow(t.premium, pos.entry, EffectiveStop(mon, pos, t));
    RatioBelow(t.premium, pos.entry, 0.0);
    LowerStopHigherPrice(pos.entry, mon.stopLoss * (1.0 + Tilt(t) * mon.ivMaxAdjust), mon.stopLoss);
  }

  // The tighter of two stops is the higher of two prices.
  lemma LowerStopHigherPrice(entry: real, a: real, b: real)
    requires entry > 0.0
    ensures a <= b ==> entry * (1.0 - b) <= entry * (1.0 - a)
    ensures b <= a ==> entry * (1.0 - a) <= entry * (1.0 - b)
  {
    if a <= b {
      ScaleMono(entry, 1.0 - b, 1.0 - a);
    } else {
      ScaleMono(entry, 1.0 - a, 1.0 - b);
    }
  }

  lemma TrailingInMarket(mon: Monitor, pos: Position, t: Tick)
    requires mon.dynamic && pos.entry > 0.0
    ensures TrailingGate(mon, pos, t) <==> MarketGate(mon, pos, t, TrailingStop)
  {
    TiltIsMultiplier(mon, t);
    if pos.peak.Some? {
      FloorIsGivenBack(pos.entry, pos.peak.value, EffectiveGiveback(mon, t), t.premium);
    }
  }

  lemma EarningsInMarket(mon: Monitor, pos: Position, t: Tick)
    requires mon.dynamic && pos.entry > 0.0
    ensures Gate(mon, pos, t, EarningsGap) <==> MarketGate(mon, pos, t, EarningsGap)
  {
    RatioBelow(t.premium, pos.entry, 0.0);
  }

  lemma ProfitInMarket(mon: Monitor, pos: Position, t: Tick)
    requires mon.dynamic
    ensures ProfitGate(mon, pos, t) <==> MarketGate(mon, pos, t, ProfitTarget)
  {
    BandIsProximity(mon, pos, t);
    if pos.target.Some? {
      WallIsNear(pos.contract.kind, t.price, TargetFor(mon, pos, t), Band(mon, pos, t));
    }
  }

  lemma ThesisInMarket(mon: Monitor, pos: Position, t: Tick)
    requires mon.dynamic
    ensures ThesisGate(mon, pos, t) <==> MarketGate(mon, pos, t, ThesisInvalidated)
  {
  }

  lemma GatesInMarket(mon: Monitor, pos: Position, t: Tick)
    requires mon.dynamic && pos.entry > 0.0
    ensures forall r :: Gate(mon, pos, t, r) <==> MarketGate(mon, pos, t, r)
  {
    forall r ensures Gate(mon, pos, t, r) <==> MarketGate(mon, pos, t, r) {
      match r
      case ProfitTarget => ProfitInMarket(mon, pos, t);
      case EarningsGap => EarningsInMarket(mon, pos, t);
      case ThesisInvalidated => ThesisInMarket(mon, pos, t);
      case TrailingStop => TrailingInMarket(mon, pos, t);
      case StopLoss => StopInMarket(mon, pos, t);
      case DteStop =>
    }
  }

  // A dynamic monitor signals exactly when one of these gates holds, with the first in priority as its reason.
  lemma DynamicSignalIff(mon: Monitor, pos: Position, t: Tick)
    requires mon.dynamic && pos.entry > 0.0
    ensures forall k :: 0 <= k < |PRIORITY| ==>
              (FirstTriggered(mon, pos, t) == Some(PRIORITY[k]) <==>
               MarketGate(mon, pos, t, PRIORITY[k]) && forall j :: 0 <= j < k ==> !MarketGate(mon, pos, t, PRIORITY[j]))
    ensures Evaluate(mon, pos, t).None? <==> forall r :: !MarketGate(mon, pos, t, r)
  {
    GatesInMarket(mon, pos, t);
    FirstInPriority(mon, pos, t);
  }

  // What a signal reports.
  lemma SignalReports(mon: Monitor, pos: Position, t: Tick)
    requires pos.entry != 0.0 && Evaluate(mon, pos, t).Some?
    ensures var s := Evaluate(mon, pos, t).value;
            && FirstTriggered(mon, pos, t) == Some(s.reason)
            && s.currentPremium == t.premium && s.entry == pos.entry && s.dte == t.dte
            && s.pnl * s.entry == t.premium - pos.entry
  {
  }

  // What is read off the context: the percentile at a horizon no other entry is closer to, and the rows with the
  // latest timestamp.
  lemma ContextReads(c: Context, dte: int)
    ensures if c.iv == [] then IvPercentile(Some(c), dte).None?
            else exists k :: 0 <= k < |c.iv| && IvPercentile(Some(c), dte) == Some(c.iv[k].percentile)
                             && forall j :: 0 <= j < |c.iv| ==>
                                  Distance(c.iv[k].days, dte) <= Distance(c.iv[j].days, dte)
    ensures if c.rsi == [] then LatestRsi(Some(c)).None?
            else exists k :: 0 <= k < |c.rsi| && LatestRsi(Some(c)) == c.rsi[k].value
                             && forall j :: 0 <= j < |c.rsi| ==> c.rsi[j].timestamp <= c.rsi[k].timestamp
    ensures if c.macd == [] then LatestHistogram(Some(c)).None?
            else exists k :: 0 <= k < |c.macd| && LatestHistogram(Some(c)) == c.macd[k].histogram
                             && forall j :: 0 <= j < |c.macd| ==> c.macd[j].timestamp <= c.macd[k].timestamp
  {
    if c.iv != [] {
      var k := ClosestIndex(c.iv, dte);
      assert IvPercentile(Some(c), dte) == Some(c.iv[k].percentile);
    }
    if c.rsi != [] {
      var k := LatestIndex(c.rsi);
      assert LatestRsi(Some(c)) == c.rsi[k].value;
    }
    if c.macd != [] {
      var k := LatestIndex(c.macd);
      assert LatestHistogram(Some(c)) == c.macd[k].histogram;
    }
  }

  // ----- the master switch -----

  // What the static decision may look at: prices, dte, the direction of the live setup.
  ghost predicate SameStaticView(a: Tick, b: Tick) {
    && a.price == b.price && a.premium == b.premium && a.dte == b.dte
    && a.setup.Some? == b.setup.Some?
    && (a.setup.Some? ==> a.setup.value.direction == b.setup.value.direction)
  }

  // With dynamic exits off, context, earnings, spread, live walls, confidences and the entry snapshot
  // make no difference, and neither does any dynamic-only setting.
  lemma StaticIgnoresTheRest(mon: Monitor, mon': Monitor, pos: Position, pos': Position, t: Tick, t': Tick)
    requires !mon.dynamic && !mon'.dynamic && pos.entry != 0.0
    requires mon'.stopLoss == mon.stopLoss && mon'.dteFloor == mon.dteFloor && mon'.wallProximity == mon.wallProximity
    requires mon'.activation == mon.activation && mon'.giveback == mon.giveback
    requires pos' == pos.(entrySetup := pos'.entrySetup) && SameStaticView(t, t')
    ensures Evaluate(mon, pos, t) == Evaluate(mon', pos', t')
  {
  }

  // Nothing dynamic is available: no IV, no indicator pair, no earnings date, no spread, no live wall
  // on the held side and no entry snapshot.
  ghost predicate NothingDynamic(pos: Position, t: Tick) {
    && IvPercentile(t.context, t.dte).None?
    && (LatestRsi(t.context).None? || LatestHistogram(t.context).None?)
    && t.daysToEarnings.None? && t.spread.None?
    && (t.setup.Some? ==> t.setup.value.HeldWall(pos.contract.kind).None?)
    && pos.entrySetup.None?
  }

  // MAIN RESULT. Switching dynamic exits on is conservative: with none of their inputs available the
  // decision is the static one.
  lemma DynamicIsConservative(mon: Monitor, pos: Position, t: Tick)
    requires NothingDynamic(pos, t) && pos.entry != 0.0
    ensures Evaluate(mon.(dynamic := true), pos, t) == Evaluate(mon.(dynamic := false), pos, t)
  {
    var on, off := mon.(dynamic := true), mon.(dynamic := false);
    assert EffectiveProximity(on, pos, t) == mon.wallProximity == EffectiveProximity(off, pos, t);
    assert EffectiveStop(on, pos, t) == EffectiveStop(off, pos, t);
    assert EffectiveGiveback(on, t) == EffectiveGiveback(off, t);
  }

  // ----- the IV percentile -----

  ghost predicate SaneAdjustments(mon: Monitor) {
    && 0.0 <= mon.ivMaxAdjust < 1.0
    && 0.0 <= mon.momentumAdjust <= 1.0 && 0.0 <= mon.liquidityAdjust
    && 0.0 <= mon.wallProximity && 0.0 <= mon.stopLoss && 0.0 <= mon.giveback
  }

  function Scale(iv: real): (s: real)
    ensures -1.0 <= s <= 1.0
  {
    (Max(0.0, Min(100.0, iv)) - 50.0) / 50.0
  }

  lemma Multipliers(mon: Monitor, iv: Option<real>)
    requires SaneAdjustments(mon)
    ensures var wide, narrow := IvMultiplier(mon, iv, false), IvMultiplier(mon, iv, true);
            && wide + narrow == 2.0
            && 1.0 - mon.ivMaxAdjust <= wide <= 1.0 + mon.ivMaxAdjust
            && 1.0 - mon.ivMaxAdjust <= narrow <= 1.0 + mon.ivMaxAdjust
            && 0.0 < wide && 0.0 < narrow
  {
    if iv.Some? {
      var s := Scale(iv.value);
      MulMono(s, 1.0, mon.ivMaxAdjust);
      MulMono(-1.0, s, mon.ivMaxAdjust);
      assert IvMultiplier(mon, iv, false) == 1.0 + s * mon.ivMaxAdjust;
      assert IvMultiplier(mon, iv, true) == 1.0 - s * mon.ivMaxAdjust;
    }
  }

  lemma MultipliersMonotone(mon: Monitor, low: real, high: real)
    requires SaneAdjustments(mon) && low <= high
    ensures IvMultiplier(mon, Some(low), false) <= IvMultiplier(mon, Some(high), false)
    ensures IvMultiplier(mon, Some(high), true) <= IvMultiplier(mon, Some(low), true)
  {
    MulMono(Scale(low), Scale(high), mon.ivMaxAdjust);
    assert IvMultiplier(mon, Some(low), true) == 1.0 - Scale(low) * mon.ivMaxAdjust;
    assert IvMultiplier(mon, Some(high), true) == 1.0 - Scale(high) * mon.ivMaxAdjust;
  }

  // Two ticks that differ in nothing but a higher IV percentile.
  ghost predicate IvRises(t: Tick, t': Tick) {
    && t' == t.(context := t'.context) && t.context.Some? && t'.context.Some?
    && t'.context.value.rsi == t.context.value.rsi && t'.context.value.macd == t.context.value.macd
    && IvPercentile(t.context, t.dte).Some? && IvPercentile(t'.context, t.dte).Some?
    && IvPercentile(t.context, t.dte).value <= IvPercentile(t'.context, t.dte).value
  }

  lemma ProductMono(a: real, m: real, m': real, f: real, l: real)
    requires m <= m' && 0.0 <= a && 0.0 <= f && 0.0 <= l
    ensures Scaled(a, m, f, l) <= Scaled(a, m', f, l)
  {
    ScaleMono(a, m, m');
    MulMono(a * m, a * m', f);
    MulMono(a * m * f, a * m' * f, l);
  }

  lemma ProximityRises(mon: Monitor, pos: Position, t: Tick, t': Tick)
    requires SaneAdjustments(mon) && IvRises(t, t')
    ensures EffectiveProximity(mon, pos, t) <= EffectiveProximity(mon, pos, t')
  {
    if mon.dynamic {
      var m, m' := IvPercentile(t.context, t.dte), IvPercentile(t'.context, t.dte);
      MultipliersMonotone(mon, m.value, m'.value);
      ProductMono(mon.wallProximity, IvMultiplier(mon, m, false), IvMultiplier(mon, m', false),
                  MomentumFactor(mon, pos, t), LiquidityFactor(mon, t));
    }
  }

  lemma AdjustedMono(base: real, low: real, high: real)
    requires 0.0 <= base && low <= high
    ensures Adjusted(base, low) <= Adjusted(base, high)
  {
    ScaleMono(base, low, high);
  }

  lemma StopWidens(mon: Monitor, pos: Position, t: Tick, t': Tick)
    requires SaneAdjustments(mon) && IvRises(t, t') && pos.entry > 0.0
    ensures EffectiveStop(mon, pos, t) <= EffectiveStop(mon, pos, t')
  {
    if mon.dynamic {
      var m, m' := IvPercentile(t.context, t.dte), IvPercentile(t'.context, t.dte);
      MultipliersMonotone(mon, m.value, m'.value);
      AdjustedMono(mon.stopLoss, IvMultiplier(mon, m, false), IvMultiplier(mon, m', false));
    }
  }

  lemma GivebackShrinks(mon: Monitor, t: Tick, t': Tick)
    requires SaneAdjustments(mon) && IvRises(t, t')
    ensures EffectiveGiveback(mon, t') <= EffectiveGiveback(mon, t)
  {
    if mon.dynamic {
      var m, m' := IvPercentile(t.context, t.dte), IvPercentile(t'.context, t.dte);
      MultipliersMonotone(mon, m.value, m'.value);
      AdjustedMono(mon.giveback, IvMultiplier(mon, m', true), IvMultiplier(mon, m, true));
    }
  }

  // A wider band reaches the wall sooner.
  lemma WiderBand(kind: OptionKind, price: real, target: real, b: real, b': real)
    requires AtWall(kind, price, target, b) && b <= b' && 0.0 < target
    ensures AtWall(kind, price, target, b')
  {
    ScaleMono(target, 1.0 - b', 1.0 - b);
    ScaleMono(target, 1.0 + b, 1.0 + b');
  }

  // A smaller giveback sets a higher floor.
  lemma HigherFloor(entry: real, peak: real, g: real, g': real)
    requires g' <= g && entry <= peak
    ensures GivebackFloor(entry, peak, g) <= GivebackFloor(entry, peak, g')
  {
    ScaleMono(peak - entry, 1.0 - g, 1.0 - g');
  }

  // MAIN RESULT. A higher IV percentile never un-fires the profit target or the trailing stop and
  // never newly fires the stop-loss.
  lemma HigherIvMonotone(mon: Monitor, pos: Position, t: Tick, t': Tick)
    requires SaneAdjustments(mon) && IvRises(t, t') && pos.entry > 0.0
    requires pos.target.Some? ==> TargetFor(mon, pos, t) > 0.0
    ensures ProfitGate(mon, pos, t) ==> ProfitGate(mon, pos, t')
    ensures TrailingGate(mon, pos, t) ==> TrailingGate(mon, pos, t')
    ensures StopGate(mon, pos, t') ==> StopGate(mon, pos, t)
  {
    if ProfitGate(mon, pos, t) {
      ProximityRises(mon, pos, t, t');
      WiderBand(pos.contract.kind, t.price, TargetFor(mon, pos, t),
                EffectiveProximity(mon, pos, t), EffectiveProximity(mon, pos, t'));
    }
    if TrailingGate(mon, pos, t) {
      GivebackShrinks(mon, t, t');
      HigherFloor(pos.entry, pos.peak.value, EffectiveGiveback(mon, t), EffectiveGiveback(mon, t'));
    }
    StopWidens(mon, pos, t, t');
  }

  // Near earnings a losing position is never held to a wider stop than the static one.
  lemma EarningsStopNotWider(mon: Monitor, pos: Position, t: Tick)
    requires NearEarnings(mon, t) && pos.entry > 0.0 && t.premium <= pos.entry
    ensures EffectiveStop(mon, pos, t) <= EffectiveStop(mon.(dynamic := false), pos, t)
    ensures StopGate(mon.(dynamic := false), pos, t) ==> StopGate(mon, pos, t)
  {
    RatioBelow(t.premium, pos.entry, 0.0);
  }

  // ----- momentum, liquidity, decay -----

  function Rank(m: Momentum): int {
    match m case Diverge => 0 case Neutral => 1 case Confirm => 2
  }

  // Stronger indicators never weaken the signal for a call, nor strengthen it for a put.
  lemma MomentumMonotone(mon: Monitor, low: Option<Context>, high: Option<Context>)
    requires mon.rsiDiverge < mon.rsiConfirm
    requires LatestRsi(low).Some? && LatestRsi(high).Some? && LatestRsi(low).value <= LatestRsi(high).value
    requires LatestHistogram(low).Some? && LatestHistogram(high).Some?
    requires LatestHistogram(low).value <= LatestHistogram(high).value
    ensures Rank(MomentumSignal(mon, Call, low)) <= Rank(MomentumSignal(mon, Call, high))
    ensures Rank(MomentumSignal(mon, Put, high)) <= Rank(MomentumSignal(mon, Put, low))
  {
  }

  // A put reads the mirrored indicators as a call reads the originals.
  lemma MomentumMirrors(mon: Monitor, a: Option<Context>, b: Option<Context>)
    requires LatestRsi(a).Some? && LatestRsi(b).Some? && LatestRsi(b).value == 100.0 - LatestRsi(a).value
    requires LatestHistogram(a).Some? && LatestHistogram(b).Some?
    requires LatestHistogram(b).value == -LatestHistogram(a).value
    ensures MomentumSignal(mon, Put, b) == MomentumSignal(mon, Call, a)
  {
  }

  // A weaker momentum signal or a wider spread never narrows the band, so it never un-fires the profit target.
  lemma WeakerMarketTakesProfitSooner(mon: Monitor, pos: Position, t: Tick, t': Tick)
    requires SaneAdjustments(mon) && mon.dynamic && pos.target.Some? && TargetFor(mon, pos, t) > 0.0
    requires t' == t.(context := t'.context, spread := t'.spread)
    requires IvPercentile(t'.context, t.dte) == IvPercentile(t.context, t.dte)
    requires Rank(MomentumSignal(mon, pos.contract.kind, t'.context))
             <= Rank(MomentumSignal(mon, pos.contract.kind, t.context))
    requires t.spread.Some? ==> t'.spread.Some? && t.spread.value <= t'.spread.value
    ensures ProfitGate(mon, pos, t) ==> ProfitGate(mon, pos, t')
  {
    var base, wide := mon.wallProximity, IvMultiplier(mon, IvPercentile(t.context, t.dte), false);
    var f, f' := MomentumFactor(mon, pos, t), MomentumFactor(mon, pos, t');
    var l, l' := LiquidityFactor(mon, t), LiquidityFactor(mon, t');
    Multipliers(mon, IvPercentile(t.context, t.dte));
    ScaledMono(base, wide, f, f', l, l');
    if ProfitGate(mon, pos, t) {
      WiderBand(pos.contract.kind, t.price, TargetFor(mon, pos, t),
                Scaled(base, wide, f, l), Scaled(base, wide, f', l'));
    }
  }

  lemma ScaledMono(base: real, wide: real, f: real, f': real, l: real, l': real)
    requires 0.0 <= base && 0.0 <= wide && 0.0 <= f <= f' && 0.0 <= l <= l'
    ensures Scaled(base, wide, f, l) <= Scaled(base, wide, f', l')
  {
    MulNonNeg(base, wide);
    ScaleMono(base * wide, f, f');
    MulNonNeg(base * wide, f');
    MulMono(base * wide * f, base * wide * f', l);
    ScaleMono(base * wide * f', l, l');
  }

  // A setup that still looks as it did at entry has not decayed, and decay is never cured by a weaker
  // structure: lower confidence, or the held wall farther away or gone.
  lemma DecayIsMonotone(mon: Monitor, pos: Position, now: Setup, later: Setup)
    requires pos.entrySetup.Some? && 0.0 <= mon.confidenceDecay <= 1.0 && 0.0 <= mon.wallDrift
    requires pos.entrySetup.value.HeldWall(pos.contract.kind).Some? ==>
               pos.entrySetup.value.HeldWall(pos.contract.kind).value.distance >= 0.0
    requires later.confidence <= now.confidence
    requires later.HeldWall(pos.contract.kind).Some? ==>
               && now.HeldWall(pos.contract.kind).Some?
               && now.HeldWall(pos.contract.kind).value.distance <= later.HeldWall(pos.contract.kind).value.distance
    ensures !ConfidenceDecayed(mon, pos, pos.entrySetup.value)
    ensures ConfidenceDecayed(mon, pos, now) ==> ConfidenceDecayed(mon, pos, later)
  {
    var entry := pos.entrySetup.value;
    if entry.confidence > 0.0 {
      ScaleMono(entry.confidence, mon.confidenceDecay, 1.0);
    }
    if entry.HeldWall(pos.contract.kind).Some? {
      ScaleMono(entry.HeldWall(pos.contract.kind).value.distance, 1.0, 1.0 + mon.wallDrift);
    }
  }
}
