/** Gamma regime, flip point, walls and direction from a strike ladder (src/trader/gex/detector.py). */
module GexDetectors {
  import opened Common
  import opened Schemas

  // One strike and its net gamma exposure (call plus put open-interest gamma).
  datatype Strike = Strike(price: real, net: real)

  datatype Params = Params(minConfidence: real, positive: real, negative: real)

  // ----- sorting -----

  function Insert(x: Strike, xs: seq<Strike>, key: Strike -> real): seq<Strike> {
    if xs == [] then [x]
    else if key(x) <= key(xs[0]) then [x] + xs
    else [xs[0]] + Insert(x, xs[1..], key)
  }

  // A stable sort: equal keys keep their order.
  function SortBy(xs: seq<Strike>, key: Strike -> real): seq<Strike> {
    if xs == [] then [] else Insert(xs[0], SortBy(xs[1..], key), key)
  }

  function PriceOf(s: Strike): real { s.price }

  function NetOf(s: Strike): real { s.net }

  function SizeOf(s: Strike): real { Abs(s.net) }

  function SmallnessOf(s: Strike): real { -SizeOf(s) }

  function Top3(xs: seq<Strike>): seq<Strike> {
    var sorted := SortBy(xs, SmallnessOf);
    if |sorted| > 3 then sorted[..3] else sorted
  }

  // ----- features -----

  predicate Crosses(a: Strike, b: Strike) {
    (a.net > 0.0 && b.net <= 0.0) || (a.net < 0.0 && b.net >= 0.0)
  }

  function Interpolated(a: Strike, b: Strike): real
    requires a.net - b.net != 0.0
  {
    a.price + a.net / (a.net - b.net) * (b.price - a.price)
  }

  // Where net GEX first crosses zero between neighbouring strikes.
  function FindFlip(strikes: seq<Strike>): Option<real> {
    if |strikes| < 2 then None
    else if Crosses(strikes[0], strikes[1]) && strikes[0].net - strikes[1].net != 0.0
    then Some(Interpolated(strikes[0], strikes[1]))
    else FindFlip(strikes[1..])
  }

  // The first strike of largest net GEX among those above spot with positive net GEX.
  function BestCall(strikes: seq<Strike>, spot: real): Option<Strike> {
    if strikes == [] then None
    else
      var s, best := strikes[0], BestCall(strikes[1..], spot);
      if s.price > spot && s.net > 0.0 && (best.None? || s.net >= best.value.net) then Some(s) else best
  }

  // The first strike of most negative net GEX among those below spot.
  function BestPut(strikes: seq<Strike>, spot: real): Option<Strike> {
    if strikes == [] then None
    else
      var s, best := strikes[0], BestPut(strikes[1..], spot);
      if s.price < spot && s.net < 0.0 && (best.None? || s.net <= best.value.net) then Some(s) else best
  }

  function WallAt(s: Option<Strike>, spot: real): Option<Wall>
    requires spot != 0.0
  {
    match s
    case None => None
    case Some(x) => Some(Wall(x.price, x.net, Abs(x.price - spot) / spot))
  }

  function RegimeFor(p: Params, confidence: real, ratio: real): Regime {
    if confidence < p.minConfidence then Mixed
    else if ratio >= p.positive then Positive
    else if ratio <= p.negative then Negative
    else Mixed
  }

  function StrikeOf(w: Option<Wall>): Option<real> {
    match w case None => None case Some(x) => Some(x.strike)
  }

  datatype Resolved = Resolved(direction: Direction, setupType: SetupType, target: Option<real>)

  function ResolveDirection(
    regime: Regime, spot: real, flip: Option<real>, callWall: Option<Wall>, putWall: Option<Wall>): Resolved
  {
    match regime
    case Mixed => Resolved(NoTrade, NoSetup, None)
    case Positive => Resolved(GoCall, Pin, StrikeOf(callWall))
    case Negative =>
      if flip.Some? && spot < flip.value then Resolved(GoPut, Momentum, StrikeOf(putWall))
      else Resolved(GoCall, Momentum, StrikeOf(callWall))
  }

  function EmptySetup(spot: real): Setup {
    Setup(spot, Mixed, None, None, None, None, NoTrade, NoSetup, 0.0)
  }

  function Ratio(strikes: seq<Strike>): real
    requires SumBy(strikes, SizeOf) != 0.0
  {
    SumBy(strikes, NetOf) / SumBy(strikes, SizeOf)
  }

  function Confidence(strikes: seq<Strike>): real
    requires SumBy(strikes, SizeOf) != 0.0
  {
    Min(SumBy(Top3(strikes), SizeOf) / SumBy(strikes, SizeOf), Abs(Ratio(strikes)))
  }

  function Detect(p: Params, data: seq<Strike>, spot: real): Setup
    requires spot > 0.0
  {
    var strikes := SortBy(data, PriceOf);
    if strikes == [] || SumBy(strikes, SizeOf) == 0.0 then EmptySetup(spot)
    else
      var confidence := Confidence(strikes);
      var regime := RegimeFor(p, confidence, Ratio(strikes));
      var flip := FindFlip(strikes);
      var callWall, putWall := WallAt(BestCall(strikes, spot), spot), WallAt(BestPut(strikes, spot), spot);
      var r := ResolveDirection(regime, spot, flip, callWall, putWall);
      Setup(spot, regime, flip, callWall, putWall, r.target, r.direction, r.setupType, confidence)
  }
}
