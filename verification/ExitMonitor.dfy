/** The exit decision: a priority chain of arithmetic gates (src/trader/exits/monitor.py and
    src/trader/exits/schemas.py). */
module ExitMonitors {
  import opened Common
  import opened Schemas

  datatype Reason = ProfitTarget | ThesisInvalidated | TrailingStop | StopLoss | DteStop | EarningsGap

  datatype Monitor = Monitor(
    stopLoss: real,
    dteFloor: int,
    wallProximity: real,
    activation: real,
    giveback: real,
    confidenceDecay: real,
    wallDrift: real,
    ivMaxAdjust: real,
    momentumAdjust: real,
    rsiConfirm: real,
    rsiDiverge: real,
    earningsBuffer: int,
    spreadThreshold: real,
    liquidityAdjust: real,
    dynamic: bool)

  // ----- market context -----

  datatype IvEntry = IvEntry(days: int, percentile: real)

  datatype Indicator = Indicator(timestamp: int, value: Option<real>, histogram: Option<real>)

  datatype Context = Context(iv: seq<IvEntry>, rsi: seq<Indicator>, macd: seq<Indicator>)

  function Distance(a: int, b: int): nat {
    if a >= b then a - b else b - a
  }

  // Index of the first entry whose horizon is closest to dte.
  function ClosestIndex(iv: seq<IvEntry>, dte: int): (k: nat)
    requires iv != []
    ensures k < |iv|
    ensures forall j :: 0 <= j < |iv| ==> Distance(iv[k].days, dte) <= Distance(iv[j].days, dte)
    ensures forall j :: 0 <= j < k ==> Distance(iv[k].days, dte) < Distance(iv[j].days, dte)
  {
    if |iv| == 1 then 0
    else
      var n := |iv| - 1;
      var k := ClosestIndex(iv[..n], dte);
      assert forall j :: 0 <= j < n ==> iv[..n][j] == iv[j];
      if Distance(iv[n].days, dte) < Distance(iv[k].days, dte) then n else k
  }

  // Index of the last row among those with the latest timestamp (the sort is stable).
  function LatestIndex(rows: seq<Indicator>): (k: nat)
    requires rows != []
    ensures k < |rows|
    ensures forall j :: 0 <= j < |rows| ==> rows[j].timestamp <= rows[k].timestamp
    ensures forall j :: k < j < |rows| ==> rows[j].timestamp < rows[k].timestamp
  {
    if |rows| == 1 then 0
    else
      var n := |rows| - 1;
      var k := LatestIndex(rows[..n]);
      assert forall j :: 0 <= j < n ==> rows[..n][j] == rows[j];
      if rows[n].timestamp >= rows[k].timestamp then n else k
  }

  function IvPercentile(ctx: Option<Context>, dte: int): Option<real> {
    if ctx.None? || ctx.value.iv == [] then None
    else Some(ctx.value.iv[ClosestIndex(ctx.value.iv, dte)].percentile)
  }

  function LatestRsi(ctx: Option<Context>): Option<real> {
    if ctx.None? || ctx.value.rsi == [] then None
    else ctx.value.rsi[LatestIndex(ctx.value.rsi)].value
  }

  function LatestHistogram(ctx: Option<Context>): Option<real> {
    if ctx.None? || ctx.value.macd == [] then None
    else ctx.value.macd[LatestIndex(ctx.value.macd)].histogram
  }

  // Everything one tick shows the monitor besides the position.
  datatype Tick = Tick(
    price: real,
    premium: real,
    dte: int,
    setup: Option<Setup>,
    context: Option<Context>,
    daysToEarnings: Option<int>,
    spread: Option<real>)

  // ----- adjustments -----

  function IvMultiplier(mon: Monitor, percentile: Option<real>, invert: bool): real {
    match percentile
    case None => 1.0
    case Some(iv) =>
      var p := Max(0.0, Min(100.0, iv));
      var s := (p - 50.0) / 50.0;
      1.0 + (if invert then -s * mon.ivMaxAdjust else s * mon.ivMaxAdjust)
  }

  datatype Momentum = Confirm | Diverge | Neutral

  function MomentumSignal(mon: Monitor, kind: OptionKind, ctx: Option<Context>): Momentum {
    var rsi, hist := LatestRsi(ctx), LatestHistogram(ctx);
    if rsi.None? || hist.None? then Neutral
    else if kind.Call? then
      if rsi.value >= mon.rsiConfirm && hist.value > 0.0 then Confirm
      else if rsi.value <= mon.rsiDiverge || hist.value < 0.0 then Diverge
      else Neutral
    else
      if rsi.value <= 100.0 - mon.rsiConfirm && hist.value < 0.0 then Confirm
      else if rsi.value >= 100.0 - mon.rsiDiverge || hist.value > 0.0 then Diverge
      else Neutral
  }

  function PnlRatio(pos: Position, premium: real): real
    requires pos.entry != 0.0
  {
    (premium - pos.entry) / pos.entry
  }

  predicate NearEarnings(mon: Monitor, t: Tick) {
    mon.dynamic && t.daysToEarnings.Some? && t.daysToEarnings.value <= mon.earningsBuffer
  }

  function MomentumFactor(mon: Monitor, pos: Position, t: Tick): real {
    match MomentumSignal(mon, pos.contract.kind, t.context)
    case Confirm => 1.0 - mon.momentumAdjust
    case Diverge => 1.0 + mon.momentumAdjust
    case Neutral => 1.0
  }

  function LiquidityFactor(mon: Monitor, t: Tick): real {
    if t.spread.Some? && t.spread.value > mon.spreadThreshold then 1.0 + mon.liquidityAdjust else 1.0
  }

  function Adjusted(base: real, factor: real): real {
    base * factor
  }

  function Scaled(base: real, iv: real, momentum: real, liquidity: real): real {
    base * iv * momentum * liquidity
  }

  function EffectiveProximity(mon: Monitor, pos: Position, t: Tick): real {
    if !mon.dynamic then mon.wallProximity
    else Scaled(mon.wallProximity, IvMultiplier(mon, IvPercentile(t.context, t.dte), false),
                MomentumFactor(mon, pos, t), LiquidityFactor(mon, t))
  }

  function EffectiveStop(mon: Monitor, pos: Position, t: Tick): real
    requires pos.entry != 0.0
  {
    if !mon.dynamic then mon.stopLoss
    else
      var stop := Adjusted(mon.stopLoss, IvMultiplier(mon, IvPercentile(t.context, t.dte), false));
      if NearEarnings(mon, t) && PnlRatio(pos, t.premium) <= 0.0 then Min(stop, mon.stopLoss) else stop
  }

  function EffectiveGiveback(mon: Monitor, t: Tick): real {
    if !mon.dynamic then mon.giveback
    else Adjusted(mon.giveback, IvMultiplier(mon, IvPercentile(t.context, t.dte), true))
  }

  // The live wall on the held side when there is one, otherwise the target fixed at entry.
  function TargetFor(mon: Monitor, pos: Position, t: Tick): real
    requires pos.target.Some?
  {
    if mon.dynamic && t.setup.Some? && t.setup.value.HeldWall(pos.contract.kind).Some?
    then t.setup.value.HeldWall(pos.contract.kind).value.strike
    else pos.target.value
  }

  predicate ConfidenceDecayed(mon: Monitor, pos: Position, now: Setup) {
    match pos.entrySetup
    case None => false
    case Some(atEntry) =>
      if atEntry.confidence <= 0.0 then false
      else if now.confidence < atEntry.confidence * mon.confidenceDecay then true
      else
        var before, live := atEntry.HeldWall(pos.contract.kind), now.HeldWall(pos.contract.kind);
        if before.None? then false
        else if live.None? then true
        else live.value.distance > before.value.distance * (1.0 + mon.wallDrift)
  }

  // ----- gates -----

  // The price is within the band around the target, on the side the contract profits from.
  predicate AtWall(kind: OptionKind, price: real, target: real, band: real) {
    if kind.Call? then price >= target * (1.0 - band) else price <= target * (1.0 + band)
  }

  predicate ProfitGate(mon: Monitor, pos: Position, t: Tick) {
    pos.target.Some? &&
    AtWall(pos.contract.kind, t.price, TargetFor(mon, pos, t), EffectiveProximity(mon, pos, t))
  }

  predicate ThesisGate(mon: Monitor, pos: Position, t: Tick) {
    t.setup.Some? &&
    (!t.setup.value.Supports(pos.contract.kind) || (mon.dynamic && ConfidenceDecayed(mon, pos, t.setup.value)))
  }

  function ArmingLevel(mon: Monitor, entry: real): real {
    entry * (1.0 + mon.activation)
  }

  function GivebackFloor(entry: real, peak: real, giveback: real): real {
    entry + (peak - entry) * (1.0 - giveback)
  }

  predicate Armed(mon: Monitor, pos: Position) {
    pos.peak.Some? && pos.peak.value >= ArmingLevel(mon, pos.entry) && pos.peak.value - pos.entry > 0.0
  }

  predicate TrailingGate(mon: Monitor, pos: Position, t: Tick) {
    Armed(mon, pos) && t.premium <= GivebackFloor(pos.entry, pos.peak.value, EffectiveGiveback(mon, t))
  }

  predicate StopGate(mon: Monitor, pos: Position, t: Tick)
    requires pos.entry != 0.0
  {
    PnlRatio(pos, t.premium) <= -EffectiveStop(mon, pos, t)
  }

  // The first gate that holds. The earnings gap comes right after the profit target.
  function FirstTriggered(mon: Monitor, pos: Position, t: Tick): Option<Reason>
    requires pos.entry != 0.0
  {
    if ProfitGate(mon, pos, t) then Some(ProfitTarget)
    else if NearEarnings(mon, t) && PnlRatio(pos, t.premium) > 0.0 then Some(EarningsGap)
    else if ThesisGate(mon, pos, t) then Some(ThesisInvalidated)
    else if TrailingGate(mon, pos, t) then Some(TrailingStop)
    else if StopGate(mon, pos, t) then Some(StopLoss)
    else if t.dte <= mon.dteFloor then Some(DteStop)
    else None
  }

  datatype Signal = Signal(reason: Reason, currentPremium: real, entry: real, pnl: real, dte: int)

  function Evaluate(mon: Monitor, pos: Position, t: Tick): Option<Signal>
    requires pos.entry != 0.0
  {
    match FirstTriggered(mon, pos, t)
    case None => None
    case Some(reason) => Some(Signal(reason, t.premium, pos.entry, PnlRatio(pos, t.premium), t.dte))
  }

  // The caller records a new high-water mark before it evaluates.
  function WithPeak(pos: Position, premium: real): Position {
    if pos.peak.None? || premium > pos.peak.value then pos.(peak := Some(premium)) else pos
  }
}
