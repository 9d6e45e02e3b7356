/** What the order manager decides and records, as functions on values
    (src/trader/live/order_manager.py). Broker replies arrive as arguments. */
module Lifecycle {
  import opened Common
  import opened Schemas
  import opened Ticks

  datatype OrderState =
    | Queued | Unconfirmed | Confirmed | PartiallyFilled | PendingCancelled
    | Filled
    | Cancelled | Rejected | Failed | Voided | Expired
    | Unrecognised

  predicate Terminal(s: OrderState) {
    s.Cancelled? || s.Rejected? || s.Failed? || s.Voided? || s.Expired?
  }

  predicate Working(s: OrderState) {
    s.Queued? || s.Unconfirmed? || s.Confirmed? || s.PartiallyFilled? || s.PendingCancelled?
  }

  predicate Final(s: OrderState) {
    s.Filled? || Terminal(s)
  }

  // One broker order as a lookup reports it; `premium` is the total dollars paid for what filled.
  datatype OrderView = OrderView(
    state: OrderState,
    quantity: nat,
    processed: nat,
    canceled: nat,
    pending: Option<int>,
    premium: real,
    limit: real,
    option: Option<nat>)

  function RemainingQuantity(v: OrderView): nat {
    match v.pending
    case Some(n) => MaxInt(n, 0)
    case None => MaxInt(v.quantity - v.processed - v.canceled, 0)
  }

  datatype Config = Config(priceCap: real, repriceAfter: int, giveUpAfter: int, maxReplacements: nat)

  // A working order: the value of the manager's mutable record.
  datatype Tracked = Tracked(
    orderId: nat,
    contract: Contract,
    quantity: nat,
    price: real,
    candidate: Option<Candidate>,
    optionId: Option<nat>,
    placedAt: int,
    lastActionAt: int,
    attempts: nat,
    cancelling: bool,
    givingUp: bool,
    minTicks: Option<TickRule>)

  datatype Mgr = Mgr(orders: map<nat, Tracked>, store: map<PositionId, Position>)

  // ----- tracking a placed buy -----

  function FirstTracked(id: nat, contract: Contract, c: Candidate, quantity: nat, limitPrice: Option<real>,
      now: int): Tracked {
    var price := match limitPrice
      case Some(p) => (if p != 0.0 then p else contract.Mid())
      case None => contract.Mid();
    Tracked(id, contract, quantity, price, Some(c), None, now, now, 0, false, false, None)
  }

  // A result that was not placed, or a candidate without a contract, registers nothing.
  function Tracking(
    m: Mgr, c: Candidate, placed: bool, orderId: Option<nat>, quantity: nat, limitPrice: Option<real>, now: int): Mgr
  {
    if !placed || orderId.None? || c.contract.None? then m
    else m.(orders := m.orders[orderId.value :=
              FirstTracked(orderId.value, c.contract.value, c, quantity, limitPrice, now)])
  }

  // ----- pricing a replacement -----

  datatype Quote = Quote(bid: Option<real>, ask: Option<real>, mark: Option<real>) {
    function Mid(): Option<real> {
      if mark.Some? then mark
      else if bid.Some? && ask.Some? then Some((bid.value + ask.value) / 2.0)
      else None
    }
  }

  // Fresh mid, then the mid/ask midpoint, then the ask.
  function Ladder(attempts: nat, quote: Quote): Option<real> {
    match quote.Mid()
    case None => None
    case Some(mid) =>
      Some(if attempts == 0 || quote.ask.None? then mid
           else if attempts == 1 then (mid + quote.ask.value) / 2.0
           else quote.ask.value)
  }

  // The tick rule is fetched lazily and kept once it is known.
  function KnownTicks(w: Tracked, fetched: Option<TickRule>): Option<TickRule> {
    if w.minTicks.Some? then w.minTicks else fetched
  }

  function NextPrice(cfg: Config, w: Tracked, quote: Option<Quote>, fetched: Option<TickRule>): Option<real> {
    if quote.None? then None
    else match Ladder(w.attempts, quote.value)
      case None => None
      case Some(p) => Some(RoundToTick(Min(p, cfg.priceCap), KnownTicks(w, fetched)))
  }

  // ----- deciding on one poll -----

  datatype Decision =
    | Keep(w: Tracked)
    | Drop(w: Tracked)
    | Promote(w: Tracked, filled: OrderView)
    | Cancel(w: Tracked)
    | Replace(w: Tracked)

  function WithOption(w: Tracked, v: OrderView): Tracked {
    if w.optionId.None? then w.(optionId := v.option) else w
  }

  function Decide(cfg: Config, w0: Tracked, look: Option<OrderView>, now: int): Decision {
    match look
    case None => Drop(w0)
    case Some(v) =>
      var w := WithOption(w0, v);
      if v.state.Filled? then Promote(w, v)
      else if Terminal(v.state) then
        if v.processed > 0 then Promote(w, v)
        else if w.cancelling && !w.givingUp && w.attempts < cfg.maxReplacements then Replace(w)
        else Drop(w)
      else if !Working(v.state) then Keep(w)
      else if w.cancelling then Keep(w)
      else if now - w.placedAt >= cfg.giveUpAfter then Cancel(w.(givingUp := true))
      else if now - w.lastActionAt >= cfg.repriceAfter && w.attempts < cfg.maxReplacements then Cancel(w)
      else Keep(w)
  }

  // A poll never renames the order, and never takes back its giving up.
  lemma DecideKeepsIdentity(cfg: Config, w: Tracked, look: Option<OrderView>, now: int)
    ensures var d := Decide(cfg, w, look, now);
            d.w.orderId == w.orderId && (w.givingUp ==> d.w.givingUp && !d.Replace?)
  {
  }

  // ----- promoting a fill -----

  // Per-share average fill, when the broker reports what was paid.
  function AvgFill(v: OrderView, qty: nat): Option<real> {
    if v.premium > 0.0 && qty > 0 then Some(v.premium / (qty * 100) as real) else None
  }

  function FilledQuantity(w: Tracked, v: OrderView): nat {
    if v.processed > 0 then v.processed else w.quantity
  }

  function EntryPremium(v: OrderView, qty: nat, fallback: real): real {
    match AvgFill(v, qty) case Some(x) => x case None => fallback
  }

  function PromotedPosition(w: Tracked, v: OrderView, now: int): Position {
    var qty := FilledQuantity(w, v);
    Position(
      OrderKey(w.orderId), w.contract, EntryPremium(v, qty, w.price),
      if w.candidate.Some? then w.candidate.value.setup.target else None,
      now, qty, w.optionId, None,
      if w.candidate.Some? then Some(w.candidate.value.setup) else None)
  }

  function ApplyDecision(m: Mgr, d: Decision, now: int): Mgr {
    match d
    case Keep(w) => m.(orders := m.orders[w.orderId := w])
    case Cancel(w) => m.(orders := m.orders[w.orderId := w])
    case Drop(w) => m.(orders := m.orders - {w.orderId})
    case Replace(w) => m.(orders := m.orders - {w.orderId})
    case Promote(w, v) =>
      Mgr(m.orders - {w.orderId}, m.store[OrderKey(w.orderId) := PromotedPosition(w, v, now)])
  }

  // A promoted position's cost basis is what the broker was paid, and so at most the limit per share.
  lemma EntryIsAverageCost(v: OrderView, qty: nat, fallback: real)
    requires v.premium > 0.0 && qty > 0
    ensures EntryPremium(v, qty, fallback) * (qty * 100) as real == v.premium
    ensures v.premium <= (qty * 100) as real * v.limit ==> EntryPremium(v, qty, fallback) <= v.limit
  {
    var n := (qty * 100) as real;
    var entry := EntryPremium(v, qty, fallback);
    assert entry == v.premium / n;
    assert entry * n == v.premium;
    if entry > v.limit {
      MulStrict(v.limit, entry, n);
    }
  }

  // ----- the broker's answers to a cancel and to a place -----

  function CancelAnswered(w: Tracked, ok: bool, now: int): Tracked {
    if ok then w.(cancelling := true, lastActionAt := now) else w
  }

  function OnCancel(m: Mgr, id: nat, ok: bool, now: int): Mgr
    requires id in m.orders
  {
    m.(orders := m.orders[id := CancelAnswered(m.orders[id], ok, now)])
  }

  // The limit the manager would send, when it has everything it needs to send one.
  function ReplacementPrice(cfg: Config, w: Tracked, quote: Option<Quote>, fetched: Option<TickRule>): Option<real> {
    if w.optionId.None? then None
    else match NextPrice(cfg, w, quote, fetched)
      case None => None
      case Some(p) => if p <= 0.0 then None else Some(p)
  }

  function Replacement(
    cfg: Config, w: Tracked, quote: Option<Quote>, fetched: Option<TickRule>, placed: Option<nat>, now: int)
    : Option<Tracked>
  {
    match ReplacementPrice(cfg, w, quote, fetched)
    case None => None
    case Some(p) =>
      if placed.None? then None
      else Some(w.(orderId := placed.value, price := p, attempts := w.attempts + 1, cancelling := false,
                   lastActionAt := now, minTicks := KnownTicks(w, fetched)))
  }

  function OnPlace(
    cfg: Config, m: Mgr, w: Tracked, quote: Option<Quote>, fetched: Option<TickRule>, placed: Option<nat>, now: int)
    : Mgr
  {
    match Replacement(cfg, w, quote, fetched, placed, now)
    case None => m
    case Some(w') => m.(orders := m.orders[w'.orderId := w'])
  }

  // ----- one whole poll of one order -----

  // Everything the broker and the clock answer during one poll.
  datatype Reply = Reply(
    look: Option<OrderView>,
    now: int,
    cancelOk: bool,
    quote: Option<Quote>,
    fetched: Option<TickRule>,
    placed: Option<nat>,
    later: int)

  function Check(cfg: Config, m: Mgr, id: nat, r: Reply): Mgr
    requires id in m.orders && m.orders[id].orderId == id
  {
    var d := Decide(cfg, m.orders[id], r.look, r.now);
    var m1 := ApplyDecision(m, d, r.now);
    match d
    case Cancel(w) => OnCancel(m1, id, r.cancelOk, r.later)
    case Replace(w) => OnPlace(cfg, m1, w, r.quote, r.fetched, r.placed, r.later)
    case _ => m1
  }

  // What becomes of the tracked order itself; None once it leaves the manager.
  function Poll(cfg: Config, w: Tracked, r: Reply): Option<Tracked> {
    match Decide(cfg, w, r.look, r.now)
    case Keep(w') => Some(w')
    case Cancel(w') => Some(CancelAnswered(w', r.cancelOk, r.later))
    case Replace(w') => Replacement(cfg, w', r.quote, r.fetched, r.placed, r.later)
    case Drop(_) => None
    case Promote(_, _) => None
  }

  // A poll touches nothing but the order it polls.
  lemma CheckIsLocal(cfg: Config, m: Mgr, id: nat, r: Reply)
    requires id in m.orders && m.orders[id].orderId == id
    ensures var w' := Poll(cfg, m.orders[id], r);
            Check(cfg, m, id, r).orders ==
              if w'.None? then m.orders - {id} else (m.orders - {id})[w'.value.orderId := w'.value]
    ensures forall k :: k != OrderKey(id) ==> (k in Check(cfg, m, id, r).store <==> k in m.store)
    ensures forall k :: k != OrderKey(id) && k in m.store ==> Check(cfg, m, id, r).store[k] == m.store[k]
  {
  }

  // As long as the broker order is not over, the poll only rewrites the order's own entry.
  lemma CheckInPlace(cfg: Config, m: Mgr, id: nat, r: Reply)
    requires id in m.orders && m.orders[id].orderId == id && r.look.Some? && !Final(r.look.value.state)
    ensures var w' := Poll(cfg, m.orders[id], r);
            w'.Some? && Check(cfg, m, id, r) == m.(orders := m.orders[id := w'.value])
  {
  }

  // Learning the option id before the poll makes no difference to it.
  lemma LearningOptionFirst(cfg: Config, m: Mgr, id: nat, r: Reply)
    requires id in m.orders && m.orders[id].orderId == id && r.look.Some?
    ensures Check(cfg, m.(orders := m.orders[id := WithOption(m.orders[id], r.look.value)]), id, r) ==
        Check(cfg, m, id, r)
  {
    var m' := m.(orders := m.orders[id := WithOption(m.orders[id], r.look.value)]);
    CheckIsLocal(cfg, m, id, r);
    CheckIsLocal(cfg, m', id, r);
    assert m'.orders - {id} == m.orders - {id};
  }

  // A replacement is on the tick grid and never above the larger of one tick and the capped ladder price.
  lemma ReplacementPriceBounds(cfg: Config, w: Tracked, quote: Quote, fetched: Option<TickRule>)
    requires Ladder(w.attempts, quote).Some?
    ensures var want := Min(Ladder(w.attempts, quote).value, cfg.priceCap);
            var tick := TickFor(want, KnownTicks(w, fetched));
            var p := NextPrice(cfg, w, Some(quote), fetched);
            && p.Some? && OnGrid(p.value, tick) && 0.0 < p.value <= Max(tick, want)
            && (forall q :: OnGrid(q, tick) && q <= want ==> q <= p.value)
            && (p.value <= cfg.priceCap <==> tick <= cfg.priceCap)
  {
    var want := Min(Ladder(w.attempts, quote).value, cfg.priceCap);
    RoundToTickIsGreatest(want, KnownTicks(w, fetched));
  }

  // On one quote the ladder goes from the mid to the ask and never back: up, unless the mark lies above the ask.
  lemma LadderClimbs(quote: Quote, a: nat, b: nat)
    requires quote.Mid().Some? && quote.ask.Some? && a <= b
    ensures Ladder(a, quote).Some? && Ladder(b, quote).Some?
    ensures var mid, ask := quote.Mid().value, quote.ask.value;
            && (mid <= ask ==> mid <= Ladder(a, quote).value <= Ladder(b, quote).value <= ask)
            && (ask <= mid ==> ask <= Ladder(b, quote).value <= Ladder(a, quote).value <= mid)
    ensures Ladder(0, quote) == quote.Mid() && (b >= 2 ==> Ladder(b, quote) == quote.ask)
    ensures Ladder(1, quote).value - quote.Mid().value == quote.ask.value - Ladder(1, quote).value
  {
  }

  // The mid is the mark, or else halfway between bid and ask; without an ask the ladder stays at the mid.
  lemma MidOfQuote(quote: Quote, a: nat)
    ensures Ladder(a, quote).Some? <==> quote.mark.Some? || (quote.bid.Some? && quote.ask.Some?)
    ensures quote.mark.Some? ==> quote.Mid() == quote.mark
    ensures quote.mark.None? && quote.Mid().Some? ==>
              quote.Mid().value - quote.bid.value == quote.ask.value - quote.Mid().value
    ensures quote.ask.None? ==> Ladder(a, quote) == quote.mark
  {
  }

  // ----- what a poll does, outcome by outcome -----

  // Filled, or over with something filled.
  predicate EndedWithFill(v: OrderView) {
    v.state.Filled? || (v.state in {Cancelled, Rejected, Failed, Voided, OrderState.Expired} && v.processed > 0)
  }

  // Over with nothing filled.
  predicate EndedEmpty(v: OrderView) {
    v.state in {Cancelled, Rejected, Failed, Voided, OrderState.Expired} && v.processed == 0
  }

  // MAIN RESULT. A fill becomes a position whose cost is what the broker was paid, or the order's own limit when
  // that was not reported; all else comes from the tracked order and the candidate it was placed for.
  lemma FillIsBookedAtCost(cfg: Config, m: Mgr, id: nat, r: Reply)
    requires id in m.orders && m.orders[id].orderId == id && r.look.Some? && EndedWithFill(r.look.value)
    ensures var m', w, v := Check(cfg, m, id, r), m.orders[id], r.look.value;
            && m'.orders == m.orders - {id}
            && m'.store.Keys == m.store.Keys + {OrderKey(id)}
            && var p := m'.store[OrderKey(id)];
               && p.quantity == (if v.processed > 0 then v.processed else w.quantity)
               && (v.premium > 0.0 && p.quantity > 0 ==> p.entry * (p.quantity * 100) as real == v.premium)
               && (v.premium <= 0.0 ==> p.entry == w.price)
               && (v.premium > 0.0 && p.quantity > 0 && v.premium <= (p.quantity * 100) as real * v.limit ==>
                     p.entry <= v.limit)
               && p.id == OrderKey(id) && p.contract == w.contract && p.openedAt == r.now && p.peak.None?
               && p.instrument == (if w.optionId.Some? then w.optionId else v.option)
               && (w.candidate.None? ==> p.target.None? && p.entrySetup.None?)
               && (w.candidate.Some? ==>
                     p.target == w.candidate.value.setup.target && p.entrySetup == Some(w.candidate.value.setup))
  {
    var w, v := m.orders[id], r.look.value;
    var qty := if v.processed > 0 then v.processed else w.quantity;
    if v.premium > 0.0 && qty > 0 {
      EntryIsAverageCost(v, qty, w.price);
    }
  }

  // An order that ended with nothing filled is placed again exactly when it was cancelled to be re-placed, may
  // be replaced once more, and everything the new order needs is there; otherwise the manager drops it.
  lemma ReplacedIff(cfg: Config, m: Mgr, id: nat, r: Reply)
    requires id in m.orders && m.orders[id].orderId == id && r.look.Some? && EndedEmpty(r.look.value)
    ensures var w, m' := m.orders[id], Check(cfg, m, id, r);
            var option := if w.optionId.Some? then w.optionId else r.look.value.option;
            && m'.store == m.store
            && if w.cancelling && !w.givingUp && w.attempts < cfg.maxReplacements && option.Some?
                  && r.quote.Some? && r.quote.value.Mid().Some? && r.placed.Some?
               then Replaces(cfg, w, r, m'.orders) && m'.orders.Keys == m.orders.Keys - {id} + {r.placed.value}
               else m'.orders == m.orders - {id}
  {
    if r.quote.Some? && r.quote.value.Mid().Some? {
      ReplacementPriceBounds(cfg, WithOption(m.orders[id], r.look.value), r.quote.value, r.fetched);
      RoundsToItsTick(Min(Ladder(m.orders[id].attempts, r.quote.value).value, cfg.priceCap),
                      KnownTicks(m.orders[id], r.fetched));
    }
  }

  // The same record under the new id, at the last tick within the capped ladder price.
  ghost predicate Replaces(cfg: Config, w: Tracked, r: Reply, orders: map<nat, Tracked>)
    requires r.look.Some? && r.quote.Some? && r.quote.value.Mid().Some? && r.placed.Some?
  {
    && r.placed.value in orders
    && var w' := orders[r.placed.value];
       var want := Min(Ladder(w.attempts, r.quote.value).value, cfg.priceCap);
       && w'.orderId == r.placed.value && w'.attempts == w.attempts + 1 && !w'.cancelling && !w'.givingUp
       && w'.lastActionAt == r.later && w'.placedAt == w.placedAt
       && w'.contract == w.contract && w'.quantity == w.quantity && w'.candidate == w.candidate
       && w'.optionId == (if w.optionId.Some? then w.optionId else r.look.value.option)
       && w'.minTicks == (if w.minTicks.Some? then w.minTicks else r.fetched)
       && w'.price == RoundToTick(want, w'.minTicks)
  }

  // A lookup that finds nothing drops the order; a state the manager does not know leaves it as it is.
  lemma UnknownAndMissing(cfg: Config, m: Mgr, id: nat, r: Reply)
    requires id in m.orders && m.orders[id].orderId == id
    ensures r.look.None? ==> Check(cfg, m, id, r) == m.(orders := m.orders - {id})
    ensures r.look.Some? && r.look.value.state.Unrecognised? ==>
              && Check(cfg, m, id, r).store == m.store && Check(cfg, m, id, r).orders.Keys == m.orders.Keys
              && Check(cfg, m, id, r).orders[id] == m.orders[id].(optionId := Check(cfg, m, id, r).orders[id].optionId)
  {
  }

  // What a placed buy is registered with: nothing asked of the broker yet, and its limit, or the middle of the
  // candidate's quote when it went out without one.
  lemma TrackRegisters(m: Mgr, c: Candidate, id: nat, quantity: nat, limitPrice: Option<real>, now: int)
    requires c.contract.Some?
    ensures var m', k := Tracking(m, c, true, Some(id), quantity, limitPrice, now), c.contract.value;
            && m'.store == m.store && m'.orders.Keys == m.orders.Keys + {id}
            && (forall o :: o in m.orders && o != id ==> m'.orders[o] == m.orders[o])
            && var w := m'.orders[id];
               && w.orderId == id && w.quantity == quantity && w.contract == k && w.candidate == Some(c)
               && (limitPrice.Some? && limitPrice.value != 0.0 ==> w.price == limitPrice.value)
               && (limitPrice.None? || limitPrice.value == 0.0 ==> w.price - k.bid == k.ask - w.price)
               && w.placedAt == w.lastActionAt == now && w.attempts == 0 && !w.cancelling && !w.givingUp
               && w.optionId.None? && w.minTicks.None?
  {
  }
}
