/** Option price tick rounding (src/trader/rh/ticks.py). */
module Ticks {
  import opened Common

  datatype TickRule = TickRule(above: real, below: real, cutoff: real)

  const PENNY: real := 0.01

  // The tick that applies at a price; a penny when the rule is unknown or not positive.
  function TickFor(price: real, rule: Option<TickRule>): (tick: real)
    ensures tick > 0.0
  {
    match rule
    case None => PENNY
    case Some(r) =>
      var tick := if price >= r.cutoff then r.above else r.below;
      if tick <= 0.0 then PENNY else tick
  }

  function RoundToTick(price: real, rule: Option<TickRule>): real {
    var tick := TickFor(price, rule);
    var ticks := (price / tick).Floor;
    Max(ticks as real * tick, tick)
  }

  // A positive whole number of ticks.
  ghost predicate OnGrid(price: real, tick: real)
    requires tick > 0.0
  {
    exists k: int :: 1 <= k && IsTicks(price, k, tick)
  }

  ghost predicate IsTicks(price: real, k: int, tick: real)
    requires tick > 0.0
  {
    price / tick == k as real
  }

  lemma DivMono(a: real, b: real, tick: real)
    requires tick > 0.0
    ensures a <= b <==> a / tick <= b / tick
  {
    if a <= b {
      assert (b - a) / tick >= 0.0;
    } else {
      MulPos(a - b, 1.0 / tick);
    }
  }

  lemma TimesTick(k: int, tick: real)
    requires tick > 0.0
    ensures IsTicks(k as real * tick, k, tick)
  {
  }

  // Compare through quotients: whole multiples compare like their counts.
  lemma FloorsTo(price: real, tick: real, k: int)
    requires tick > 0.0
    ensures k <= (price / tick).Floor <==> k as real * tick <= price
  {
    TimesTick(k, tick);
    DivMono(k as real * tick, price, tick);
  }

  lemma IsTicksUnique(q: real, j: int, tick: real)
    requires tick > 0.0 && IsTicks(q, j, tick)
    ensures q == j as real * tick
  {
    assert q == q / tick * tick;
  }

  lemma RoundToTickOnGrid(price: real, rule: Option<TickRule>)
    ensures OnGrid(RoundToTick(price, rule), TickFor(price, rule))
    ensures RoundToTick(price, rule) <= Max(price, TickFor(price, rule))
  {
    var tick := TickFor(price, rule);
    var k := (price / tick).Floor;
    TimesTick(k, tick);
    TimesTick(1, tick);
    FloorsTo(price, tick, k);
    DivMono(tick, k as real * tick, tick);
    if k >= 1 {
      assert IsTicks(RoundToTick(price, rule), k, tick);
    } else {
      assert IsTicks(RoundToTick(price, rule), 1, tick);
    }
  }

  // No grid point up to the price lies above the rounded price.
  lemma GridBelowRounded(q: real, price: real, rule: Option<TickRule>)
    requires OnGrid(q, TickFor(price, rule)) && q <= price
    ensures q <= RoundToTick(price, rule)
  {
    var tick := TickFor(price, rule);
    var j: int :| 1 <= j && IsTicks(q, j, tick);
    IsTicksUnique(q, j, tick);
    FloorsTo(price, tick, j);
    TimesTick((price / tick).Floor, tick);
    DivMono(q, (price / tick).Floor as real * tick, tick);
  }

  // The rounded price is the greatest positive grid point that does not exceed the price
  // (or the smallest grid point of all, when the price is below one tick).
  lemma RoundToTickIsGreatest(price: real, rule: Option<TickRule>)
    ensures var tick := TickFor(price, rule);
            var r := RoundToTick(price, rule);
            && OnGrid(r, tick)
            && r <= Max(price, tick)
            && (forall q :: OnGrid(q, tick) && q <= Max(price, tick) ==> q <= r)
  {
    var tick := TickFor(price, rule);
    RoundToTickOnGrid(price, rule);
    forall q | OnGrid(q, tick) && q <= Max(price, tick)
      ensures q <= RoundToTick(price, rule)
    {
      if q <= price {
        GridBelowRounded(q, price, rule);
      }
    }
  }

  // Rounding changes nothing exactly when the price is already on its grid.
  lemma RoundToTickFixesGrid(price: real, rule: Option<TickRule>)
    ensures OnGrid(price, TickFor(price, rule)) <==> RoundToTick(price, rule) == price
  {
    RoundToTickIsGreatest(price, rule);
    var tick := TickFor(price, rule);
    if OnGrid(price, tick) {
      TimesTick(1, tick);
      DivMono(tick, price, tick);
    }
  }

  // Ten-cent ticks from three dollars up, say: the coarse tick applies from the cutoff on, the fine one below it,
  // a cent without a rule, and the rounded price is the last tick at or below the price.
  lemma RoundsToItsTick(price: real, rule: Option<TickRule>)
    ensures rule.None? ==> LastTick(RoundToTick(price, rule), price, 0.01)
    ensures rule.Some? && price >= rule.value.cutoff && rule.value.above > 0.0 ==>
              LastTick(RoundToTick(price, rule), price, rule.value.above)
    ensures rule.Some? && price < rule.value.cutoff && rule.value.below > 0.0 ==>
              LastTick(RoundToTick(price, rule), price, rule.value.below)
    ensures rule.Some? && rule.value.above <= 0.0 && rule.value.below <= 0.0 ==>
              LastTick(RoundToTick(price, rule), price, 0.01)
  {
    var tick := TickFor(price, rule);
    var k := (price / tick).Floor;
    RoundToTickOnGrid(price, rule);
    FloorsTo(price, tick, k);
    FloorsTo(price, tick, k + 1);
    FloorsTo(price, tick, 1);
    assert (k + 1) as real * tick == k as real * tick + tick;
    if k >= 1 {
      MulMono(1.0, k as real, tick);
    } else {
      MulMono(k as real, 0.0, tick);
    }
  }

  // The greatest whole number of ticks within the price, but at least one.
  ghost predicate LastTick(rounded: real, price: real, tick: real)
    requires tick > 0.0
  {
    OnGrid(rounded, tick) && if price < tick then rounded == tick else price - tick < rounded <= price
  }
}
