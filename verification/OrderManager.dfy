/** The order manager itself: a dictionary of mutable working orders, updated one poll at a time
    (src/trader/live/order_manager.py). Every method is tied to the functions of module Lifecycle. */
module OrderManagers {
  import opened Common
  import opened Schemas
  import opened Ticks
  import opened Lifecycle
  import opened PositionStores
  import opened Adoption

  class WorkingOrder {
    var orderId: nat
    const contract: Contract
    const quantity: nat
    var price: real
    const candidate: Option<Candidate>
    var optionId: Option<nat>
    const placedAt: int
    var lastActionAt: int
    var attempts: nat
    var cancelling: bool
    var givingUp: bool
    var minTicks: Option<TickRule>

    constructor (
      orderId: nat, contract: Contract, quantity: nat, price: real, candidate: Option<Candidate>,
      optionId: Option<nat>, cancelling: bool, now: int)
      ensures View() == Tracked(orderId, contract, quantity, price, candidate, optionId, now, now, 0,
                                cancelling, cancelling, None)
    {
      this.orderId, this.contract, this.quantity, this.price := orderId, contract, quantity, price;
      this.candidate, this.optionId := candidate, optionId;
      placedAt, lastActionAt, attempts := now, now, 0;
      this.cancelling, givingUp, minTicks := cancelling, cancelling, None;
    }

    ghost function View(): Tracked
      reads this
    {
      Tracked(orderId, contract, quantity, price, candidate, optionId, placedAt, lastActionAt, attempts,
              cancelling, givingUp, minTicks)
    }
  }

  class OrderLifecycleManager {
    const cfg: Config
    const store: PositionStore
    var orders: map<nat, WorkingOrder>

    // Every order sits under its own id, so no two keys share an object.
    ghost predicate Valid()
      reads this, orders.Values
    {
      forall id :: id in orders ==> orders[id].orderId == id
    }

    ghost function State(): Mgr
      reads this, orders.Values, store
    {
      Mgr(map id | id in orders :: orders[id].View(), store.positions)
    }

    // State() read pointwise.
    lemma StateIs(m: Mgr)
      requires orders.Keys == m.orders.Keys && store.positions == m.store
      requires forall id :: id in orders ==> orders[id].View() == m.orders[id]
      ensures State() == m
    {
      assert State().orders == m.orders;
    }

    constructor (cfg: Config, store: PositionStore)
      ensures Valid() && orders == map[] && this.cfg == cfg && this.store == store
    {
      this.cfg, this.store, orders := cfg, store, map[];
    }

    // Register a placed buy; a result that was not placed, or without a contract, is ignored.
    method Track(
      candidate: Candidate, placed: bool, orderId: Option<nat>, quantity: nat, limitPrice: Option<real>, now: int)
      requires Valid()
      modifies this
      ensures Valid()
      ensures State() == Tracking(old(State()), candidate, placed, orderId, quantity, limitPrice, now)
    {
      if !placed || orderId.None? || candidate.contract.None? {
        return;
      }
      var contract := candidate.contract.value;
      var price := match limitPrice case Some(p) => (if p != 0.0 then p else contract.Mid())
          case None => contract.Mid();
      var w := new WorkingOrder(orderId.value, contract, quantity, price, Some(candidate), None, false, now);
      ghost var m := State();
      orders := orders[orderId.value := w];
      StateIs(m.(orders := m.orders[orderId.value := w.View()]));
    }

    // One listed order; the result says whether it counts as adopted.
    method Adopt(o: Listed, state: OrderState, now: int) returns (adopted: bool)
      requires Valid()
      modifies this, store
      ensures Valid()
      ensures State() == AdoptOne(old(State()), o, state, now)
      ensures adopted == Takes(old(State()), o)
    {
      if o.id in orders || !o.buyToOpen || o.contract.None? {
        return false;
      }
      OpenFilledPart(o, now);
      TrackRemainder(o, state, now);
      return true;
    }

    // What is left of an adopted order is followed up on; when its cancel is pending, only to see it end.
    method TrackRemainder(o: Listed, state: OrderState, now: int)
      requires Valid() && o.contract.Some?
      modifies this`orders
      ensures Valid()
      ensures State() == if RemainingQuantity(o.view) <= 0 then old(State())
                         else old(State()).(orders := old(State()).orders[o.id := AdoptedOrder(o, state, now)])
    {
      ghost var m := State();
      var remaining := RemainingQuantity(o.view);
      if remaining > 0 {
        var cancelling := state.PendingCancelled?;
        var w := new WorkingOrder(
          o.id, o.contract.value, remaining, o.view.limit, None, o.view.option, cancelling, now);
        orders := orders[o.id := w];
        StateIs(m.(orders := m.orders[o.id := w.View()]));
      }
    }

    // Contracts an adopted order has already filled become a position at once.
    method OpenFilledPart(o: Listed, now: int)
      requires Valid() && o.contract.Some?
      modifies store
      ensures State() == old(State()).(store :=
                if o.view.processed > 0 then old(store.positions)[OrderKey(o.id) := AdoptedPosition(o, now)]
                    else old(store.positions))
    {
      ghost var m := State();
      var processed := o.view.processed;
      if processed > 0 {
        var entry := o.view.limit;
        if o.view.premium > 0.0 {
          entry := o.view.premium / (processed * 100) as real;
        }
        store.Add(Position(OrderKey(o.id), o.contract.value, entry, None, now, processed, o.view.option, None, None));
      }
      StateIs(m.(store := store.positions));
    }

    // Ask for each adoptable state in turn; a query that raises is skipped.
    method SweepOrders(answers: Answers) returns (adopted: nat)
      requires Valid()
      modifies this, store
      ensures Valid()
      ensures State() == Sweep(old(State()), answers)
      ensures adopted == SweepCount(old(State()), answers)
    {
      adopted := 0;
      ghost var m := State();
      for i := 0 to |SWEPT|
        invariant Valid() && SweepStates(State(), answers, SWEPT[i..]) == Sweep(m, answers)
        invariant adopted + CountStates(State(), answers, SWEPT[i..]) == SweepCount(m, answers)
      {
        assert SWEPT[i..][0] == SWEPT[i] && SWEPT[i..][1..] == SWEPT[i + 1..];
        if SWEPT[i] in answers {
          var took := SweepOneState(answers[SWEPT[i]].orders, SWEPT[i], answers[SWEPT[i]].now);
          adopted := adopted + took;
        }
      }
    }

    method SweepOneState(os: seq<Listed>, state: OrderState, now: int) returns (adopted: nat)
      requires Valid()
      modifies this, store
      ensures Valid()
      ensures State() == AdoptAll(old(State()), os, state, now)
      ensures adopted == CountAll(old(State()), os, state, now)
    {
      adopted := 0;
      ghost var m := State();
      for j := 0 to |os|
        invariant Valid() && State() == AdoptAll(m, os[..j], state, now)
        invariant adopted == CountAll(m, os[..j], state, now)
      {
        assert os[..j + 1][..j] == os[..j];
        var took := Adopt(os[j], state, now);
        if took {
          adopted := adopted + 1;
        }
      }
      assert os[..|os|] == os;
    }

    // Startup adoption; a first sweep that takes nothing is repeated once.
    method AdoptWorkingOrders(first: Answers, second: Answers) returns (adopted: nat)
      requires Valid()
      modifies this, store
      ensures Valid()
      ensures State() == AdoptedFrom(old(State()), first, second)
      ensures adopted == 0 ==> State() == old(State())
    {
      ghost var m := State();
      SweepCountZeroIff(m, first);
      SweepCountZeroIff(m, second);
      adopted := SweepOrders(first);
      if adopted == 0 {
        adopted := SweepOrders(second);
      }
    }

    // One poll: look the order up, then promote it, drop it, cancel it or re-place it.
    method CheckOrder(w: WorkingOrder, r: Reply)
      requires Valid() && w.orderId in orders && orders[w.orderId] == w
      modifies this, w, store
      ensures Valid()
      ensures State() == Check(cfg, old(State()), old(w.orderId), r)
    {
      ghost var m, id := State(), w.orderId;
      if r.look.None? {
        orders := orders - {w.orderId};
        StateIs(Check(cfg, m, id, r));
        return;
      }
      var v := r.look.value;
      if w.optionId.None? {
        w.optionId := v.option;
      }
      StateIs(m.(orders := m.orders[id := WithOption(m.orders[id], v)]));
      LearningOptionFirst(cfg, m, id, r);
      if Final(v.state) {
        Finish(w, v, r);
      } else {
        Follow(w, v, r);
      }
    }

    // The order is not over: leave it alone, or chase it when it works and no cancel is pending.
    method Follow(w: WorkingOrder, v: OrderView, r: Reply)
      requires Valid() && w.orderId in orders && orders[w.orderId] == w
      requires r.look == Some(v) && !Final(v.state) && (w.optionId.Some? || v.option.None?)
      modifies w`cancelling, w`givingUp, w`lastActionAt
      ensures Valid()
      ensures State() == Check(cfg, old(State()), w.orderId, r)
    {
      ghost var m, id := State(), w.orderId;
      CheckInPlace(cfg, m, id, r);
      if Working(v.state) && !w.cancelling {
        Chase(w, r);
      }
      StateIs(m.(orders := m.orders[id := w.View()]));
    }

    // The order's life at the broker is over: keep what filled, or re-place what a reprice cancelled.
    method Finish(w: WorkingOrder, v: OrderView, r: Reply)
      requires Valid() && w.orderId in orders && orders[w.orderId] == w
      requires r.look == Some(v) && Final(v.state) && (w.optionId.Some? || v.option.None?)
      modifies this, w, store
      ensures Valid()
      ensures State() == Check(cfg, old(State()), old(w.orderId), r)
    {
      ghost var m, d := State(), Decide(cfg, w.View(), r.look, r.now);
      if v.state.Filled? || v.processed > 0 {
        PromoteFill(w, v, r.now);
        StateIs(ApplyDecision(m, d, r.now));
      } else {
        orders := orders - {w.orderId};
        StateIs(ApplyDecision(m, d, r.now));
        if w.cancelling && !w.givingUp && w.attempts < cfg.maxReplacements {
          PlaceReplacement(w, r);
        }
      }
    }

    // An order still working: cancel it for good past the give-up age, or to re-place it.
    method Chase(w: WorkingOrder, r: Reply)
      requires r.look.Some? && Working(r.look.value.state) && !w.cancelling
      requires w.optionId.Some? || r.look.value.option.None?
      modifies w`cancelling, w`givingUp, w`lastActionAt
      ensures Poll(cfg, old(w.View()), r) == Some(w.View())
    {
      if r.now - w.placedAt >= cfg.giveUpAfter {
        w.givingUp := true;
        RequestCancel(w, r.cancelOk, r.later);
      } else if r.now - w.lastActionAt >= cfg.repriceAfter && w.attempts < cfg.maxReplacements {
        RequestCancel(w, r.cancelOk, r.later);
      }
    }

    // A cancel call that raises changes nothing; the next poll resolves the order either way.
    method RequestCancel(w: WorkingOrder, ok: bool, now: int)
      modifies w`cancelling, w`lastActionAt
      ensures w.View() == CancelAnswered(old(w.View()), ok, now)
    {
      if ok {
        w.cancelling := true;
        w.lastActionAt := now;
      }
    }

    method PlaceReplacement(w: WorkingOrder, r: Reply)
      requires Valid() && w !in orders.Values
      modifies this, w
      ensures Valid()
      ensures State() ==
              OnPlace(cfg, old(State()), old(w.View()), r.quote, r.fetched, r.placed, r.later)
    {
      if w.optionId.None? {
        return;
      }
      ghost var m := State();
      var price := NextLimit(w, r.quote, r.fetched);
      StateIs(m);
      if price.Some? && price.value > 0.0 && r.placed.Some? {
        Reenter(w, r.placed.value, price.value, r.later);
      }
    }

    // The record of the order goes on under its new id and price.
    method Reenter(w: WorkingOrder, id: nat, price: real, now: int)
      requires Valid() && w !in orders.Values
      modifies this`orders, w
      ensures Valid()
      ensures var w' := old(w.View()).(orderId := id, price := price, attempts := old(w.attempts) + 1,
                                       cancelling := false, lastActionAt := now);
              State() == old(State()).(orders := old(State()).orders[id := w'])
    {
      ghost var m := State();
      w.orderId := id;
      w.price := price;
      w.attempts := w.attempts + 1;
      w.cancelling := false;
      w.lastActionAt := now;
      orders := orders[id := w];
      StateIs(m.(orders := m.orders[id := w.View()]));
    }

    method NextLimit(w: WorkingOrder, quote: Option<Quote>, fetched: Option<TickRule>) returns (price: Option<real>)
      modifies w`minTicks
      ensures price == NextPrice(cfg, old(w.View()), quote, fetched)
      ensures w.minTicks == if price.Some? then KnownTicks(old(w.View()), fetched) else old(w.minTicks)
    {
      if quote.None? {
        return None;
      }
      var mid := quote.value.Mid();
      if mid.None? {
        return None;
      }
      var p := mid.value;
      if w.attempts == 0 || quote.value.ask.None? {
      } else if w.attempts == 1 {
        p := (p + quote.value.ask.value) / 2.0;
      } else {
        p := quote.value.ask.value;
      }
      p := Min(p, cfg.priceCap);
      if w.minTicks.None? {
        w.minTicks := fetched;
      }
      price := Some(RoundToTick(p, w.minTicks));
    }

    method PromoteFill(w: WorkingOrder, v: OrderView, now: int)
      requires Valid() && w.orderId in orders && orders[w.orderId] == w
      modifies this`orders, store
      ensures Valid() && orders == old(orders) - {w.orderId}
      ensures store.positions == old(store.positions)[OrderKey(w.orderId) := PromotedPosition(w.View(), v, now)]
    {
      orders := orders - {w.orderId};
      var qty := if v.processed > 0 then v.processed else w.quantity;
      var entry := w.price;
      if v.premium > 0.0 && qty > 0 {
        entry := v.premium / (qty * 100) as real;
      }
      var target, setup := None, None;
      if w.candidate.Some? {
        target := w.candidate.value.setup.target;
        setup := Some(w.candidate.value.setup);
      }
      store.Add(Position(OrderKey(w.orderId), w.contract, entry, target, now, qty, w.optionId, None, setup));
    }
  }
}
