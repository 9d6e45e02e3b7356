/** Startup adoption of orders that were working before a restart
    (src/trader/live/order_manager.py). */
module Adoption {
  import opened Common
  import opened Schemas
  import opened Lifecycle

  // An order as the startup listing shows it; `contract` is None when its leg cannot be parsed.
  datatype Listed = Listed(id: nat, view: OrderView, buyToOpen: bool, contract: Option<Contract>)

  const SWEPT: seq<OrderState> := [Queued, Confirmed, PartiallyFilled, PendingCancelled]

  predicate Adoptable(s: OrderState) {
    s.Queued? || s.Confirmed? || s.PartiallyFilled? || s.PendingCancelled?
  }

  function AdoptedPosition(o: Listed, now: int): Position
    requires o.contract.Some?
  {
    var qty := o.view.processed;
    Position(OrderKey(o.id), o.contract.value, EntryPremium(o.view, qty, o.view.limit), None, now, qty,
             o.view.option, None, None)
  }

  // A cancel in flight is watched, but the order is never chased again.
  function AdoptedOrder(o: Listed, state: OrderState, now: int): Tracked
    requires o.contract.Some?
  {
    Tracked(o.id, o.contract.value, RemainingQuantity(o.view), o.view.limit, None, o.view.option, now, now, 0,
            state.PendingCancelled?, state.PendingCancelled?, None)
  }

  function AdoptOne(m: Mgr, o: Listed, state: OrderState, now: int): Mgr {
    if o.id in m.orders || !o.buyToOpen || o.contract.None? then m
    else
      var store := if o.view.processed > 0 then m.store[OrderKey(o.id) := AdoptedPosition(o, now)] else m.store;
      if RemainingQuantity(o.view) <= 0 then m.(store := store)
      else Mgr(m.orders[o.id := AdoptedOrder(o, state, now)], store)
  }

  // What adopting one order leaves, in the broker's terms: what filled is a position at what was paid for it, or
  // at the limit when that is not reported; what is left is tracked at the limit.
  lemma AdoptedAtCost(m: Mgr, o: Listed, state: OrderState, now: int)
    ensures o.id in m.orders || !o.buyToOpen || o.contract.None? ==> AdoptOne(m, o, state, now) == m
    ensures o.id !in m.orders && o.buyToOpen && o.contract.Some? ==>
            var m', v, k := AdoptOne(m, o, state, now), o.view, OrderKey(o.id);
            var left := match v.pending case Some(n) => n case None => v.quantity - v.processed - v.canceled;
            && (v.processed == 0 ==> m'.store == m.store)
            && (v.processed > 0 ==>
                  && k in m'.store && m'.store == m.store[k := m'.store[k]]
                  && var p := m'.store[k];
                     && p.quantity == v.processed && p.contract == o.contract.value && p.instrument == v.option
                     && (v.premium > 0.0 ==> p.entry * (v.processed * 100) as real == v.premium)
                     && (v.premium <= 0.0 ==> p.entry == v.limit)
                     && p.id == k && p.openedAt == now && p.target.None? && p.peak.None? && p.entrySetup.None?)
            && (left <= 0 ==> m'.orders == m.orders)
            && (left > 0 ==>
                  && o.id in m'.orders && m'.orders == m.orders[o.id := m'.orders[o.id]]
                  && var w := m'.orders[o.id];
                     && w.orderId == o.id && w.quantity == left && w.price == v.limit
                     && w.contract == o.contract.value && w.optionId == v.option && w.candidate.None?
                     && (w.cancelling <==> state.PendingCancelled?) && (w.givingUp <==> state.PendingCancelled?)
                     && w.placedAt == w.lastActionAt == now && w.attempts == 0 && w.minTicks.None?)
  {
    if o.view.processed > 0 && o.view.premium > 0.0 {
      EntryIsAverageCost(o.view, o.view.processed, o.view.limit);
    }
  }

  // What one query brought back, and when it was dealt with.
  datatype Answer = Answer(orders: seq<Listed>, now: int)

  // The queries that did not raise. Each is a look at the broker of its own, so an order that moves in
  // between can be in several answers, or in none.
  type Answers = map<OrderState, Answer>

  // One answer: every order of it, in turn.
  function AdoptAll(m: Mgr, os: seq<Listed>, state: OrderState, now: int): Mgr
    decreases |os|
  {
    if os == [] then m
    else AdoptOne(AdoptAll(m, os[..|os| - 1], state, now), os[|os| - 1], state, now)
  }

  function AfterQuery(m: Mgr, answers: Answers, state: OrderState): Mgr {
    if state in answers then AdoptAll(m, answers[state].orders, state, answers[state].now) else m
  }

  // All queries in turn; one that raises is skipped.
  function SweepStates(m: Mgr, answers: Answers, states: seq<OrderState>): Mgr
    decreases |states|
  {
    if states == [] then m else SweepStates(AfterQuery(m, answers, states[0]), answers, states[1..])
  }

  function Sweep(m: Mgr, answers: Answers): Mgr {
    SweepStates(m, answers, SWEPT)
  }

  // ----- how many it adopts -----

  predicate Takes(m: Mgr, o: Listed) {
    o.id !in m.orders && Eligible(o)
  }

  predicate Eligible(o: Listed) {
    o.buyToOpen && o.contract.Some?
  }

  function CountAll(m: Mgr, os: seq<Listed>, state: OrderState, now: int): nat
    decreases |os|
  {
    if os == [] then 0
    else
      var front := os[..|os| - 1];
      CountAll(m, front, state, now) + if Takes(AdoptAll(m, front, state, now), os[|os| - 1]) then 1 else 0
  }

  function QueryCount(m: Mgr, answers: Answers, state: OrderState): nat {
    if state in answers then CountAll(m, answers[state].orders, state, answers[state].now) else 0
  }

  function CountStates(m: Mgr, answers: Answers, states: seq<OrderState>): nat
    decreases |states|
  {
    if states == [] then 0
    else QueryCount(m, answers, states[0]) + CountStates(AfterQuery(m, answers, states[0]), answers, states[1..])
  }

  function SweepCount(m: Mgr, answers: Answers): nat {
    CountStates(m, answers, SWEPT)
  }

  lemma {:induction false} CountAllZero(m: Mgr, os: seq<Listed>, state: OrderState, now: int)
    ensures CountAll(m, os, state, now) == 0 <==> forall k :: 0 <= k < |os| ==> !Takes(m, os[k])
    ensures CountAll(m, os, state, now) == 0 ==> AdoptAll(m, os, state, now) == m
    decreases |os|
  {
    if os != [] {
      var n := |os| - 1;
      CountAllZero(m, os[..n], state, now);
      assert forall k :: 0 <= k < n ==> os[..n][k] == os[k];
    }
  }

  // Some answer in one of these states has an order to take.
  ghost predicate SomethingToTake(m: Mgr, answers: Answers, states: seq<OrderState>) {
    exists i, k :: 0 <= i < |states| && states[i] in answers && 0 <= k < |answers[states[i]].orders|
                   && Takes(m, answers[states[i]].orders[k])
  }

  lemma {:induction false} CountStatesZero(m: Mgr, answers: Answers, states: seq<OrderState>)
    ensures CountStates(m, answers, states) == 0 <==> !SomethingToTake(m, answers, states)
    ensures CountStates(m, answers, states) == 0 ==> SweepStates(m, answers, states) == m
    decreases |states|
  {
    if states != [] {
      var s, rest := states[0], states[1..];
      if s in answers {
        CountAllZero(m, answers[s].orders, s, answers[s].now);
      }
      if QueryCount(m, answers, s) == 0 {
        CountStatesZero(m, answers, rest);
        assert forall i :: 0 <= i < |rest| ==> rest[i] == states[i + 1];
        assert SomethingToTake(m, answers, rest) ==> SomethingToTake(m, answers, states) by {
          if i, k :| 0 <= i < |rest| && rest[i] in answers && 0 <= k < |answers[rest[i]].orders|
                     && Takes(m, answers[rest[i]].orders[k]) {
            assert rest[i] == states[i + 1];
          }
        }
      }
    }
  }

  // A sweep reports zero, and is then repeated, exactly when no answer had an order to take; it changed nothing.
  lemma SweepCountZeroIff(m: Mgr, answers: Answers)
    ensures SweepCount(m, answers) == 0 <==> !SomethingToTake(m, answers, SWEPT)
    ensures SweepCount(m, answers) == 0 ==> Sweep(m, answers) == m
  {
    CountStatesZero(m, answers, SWEPT);
  }

  function AdoptedFrom(m: Mgr, first: Answers, second: Answers): Mgr {
    if SweepCount(m, first) == 0 then Sweep(m, second) else Sweep(m, first)
  }

  // ----- what a sweep does to one id -----

  datatype Entry = Entry(order: Option<Tracked>, position: Option<Position>)

  function At(m: Mgr, id: nat): Entry {
    Entry(if id in m.orders then Some(m.orders[id]) else None,
          if OrderKey(id) in m.store then Some(m.store[OrderKey(id)]) else None)
  }

  // The listings of one id, in order.
  function Only(os: seq<Listed>, id: nat): seq<Listed>
    decreases |os|
  {
    if os == [] then []
    else Only(os[..|os| - 1], id) + if os[|os| - 1].id == id then [os[|os| - 1]] else []
  }

  function OnlyIn(answers: Answers, id: nat): Answers {
    map s | s in answers :: Answer(Only(answers[s].orders, id), answers[s].now)
  }

  lemma AdoptOneElsewhere(m: Mgr, o: Listed, state: OrderState, now: int, id: nat)
    requires o.id != id
    ensures At(AdoptOne(m, o, state, now), id) == At(m, id)
  {
  }

  lemma AdoptOneHere(m: Mgr, m': Mgr, o: Listed, state: OrderState, now: int)
    requires At(m, o.id) == At(m', o.id)
    ensures At(AdoptOne(m, o, state, now), o.id) == At(AdoptOne(m', o, state, now), o.id)
  {
    assert o.id in m.orders <==> At(m, o.id).order.Some?;
    assert o.id in m'.orders <==> At(m', o.id).order.Some?;
  }

  lemma {:induction false} AdoptAllOwn(m: Mgr, m': Mgr, os: seq<Listed>, state: OrderState, now: int, id: nat)
    requires At(m, id) == At(m', id)
    ensures At(AdoptAll(m, os, state, now), id) == At(AdoptAll(m', Only(os, id), state, now), id)
    decreases |os|
  {
    if os != [] {
      var front, o := os[..|os| - 1], os[|os| - 1];
      AdoptAllOwn(m, m', front, state, now, id);
      if o.id == id {
        assert (Only(front, id) + [o])[..|Only(front, id)|] == Only(front, id);
        AdoptOneHere(AdoptAll(m, front, state, now), AdoptAll(m', Only(front, id), state, now), o, state, now);
      } else {
        AdoptOneElsewhere(AdoptAll(m, front, state, now), o, state, now, id);
        assert Only(front, id) + [] == Only(front, id);
      }
    }
  }

  lemma {:induction false} SweepStatesOwn(m: Mgr, m': Mgr, answers: Answers, states: seq<OrderState>, id: nat)
    requires At(m, id) == At(m', id)
    ensures At(SweepStates(m, answers, states), id) == At(SweepStates(m', OnlyIn(answers, id), states), id)
    decreases |states|
  {
    if states != [] {
      var s := states[0];
      if s in answers {
        AdoptAllOwn(m, m', answers[s].orders, s, answers[s].now, id);
      }
      SweepStatesOwn(AfterQuery(m, answers, s), AfterQuery(m', OnlyIn(answers, id), s), answers, states[1..], id);
    }
  }

  // What a sweep leaves at an id depends on the id's own listings alone, in the order the queries brought them;
  // an id that no query listed keeps what it had.
  lemma SweepIsPointwise(m: Mgr, answers: Answers, id: nat)
    ensures At(Sweep(m, answers), id) == At(Sweep(m, OnlyIn(answers, id)), id)
    ensures (forall s :: s in answers ==> Only(answers[s].orders, id) == []) ==> At(Sweep(m, answers), id) == At(m, id)
  {
    SweepStatesOwn(m, m, answers, SWEPT, id);
    if forall s :: s in answers ==> Only(answers[s].orders, id) == [] {
      NothingListed(m, OnlyIn(answers, id), SWEPT);
    }
  }

  lemma {:induction false} NothingListed(m: Mgr, answers: Answers, states: seq<OrderState>)
    requires forall s :: s in answers ==> answers[s].orders == []
    ensures SweepStates(m, answers, states) == m
    decreases |states|
  {
    if states != [] {
      NothingListed(m, answers, states[1..]);
    }
  }

  // ----- which orders end up tracked -----

  // The answer lists the id as a buy to open with contracts left.
  ghost predicate Works(os: seq<Listed>, id: nat) {
    exists k :: 0 <= k < |os| && os[k].id == id && LeftToWork(os[k])
  }

  ghost predicate ListedAtWork(answers: Answers, states: seq<OrderState>, id: nat) {
    exists i :: 0 <= i < |states| && states[i] in answers && Works(answers[states[i]].orders, id)
  }

  predicate LeftToWork(o: Listed) {
    Eligible(o) && RemainingQuantity(o.view) > 0
  }

  lemma AdoptOneTracks(m: Mgr, o: Listed, state: OrderState, now: int, id: nat)
    ensures id in AdoptOne(m, o, state, now).orders <==> id in m.orders || (o.id == id && LeftToWork(o))
    ensures id in m.orders ==> At(AdoptOne(m, o, state, now), id) == At(m, id)
  {
  }

  lemma WorksGrows(front: seq<Listed>, o: Listed, id: nat)
    ensures Works(front + [o], id) <==> Works(front, id) || (o.id == id && LeftToWork(o))
  {
    var os := front + [o];
    assert forall k :: 0 <= k < |front| ==> os[k] == front[k];
    if Works(front, id) {
      var k :| 0 <= k < |front| && front[k].id == id && LeftToWork(front[k]);
      assert os[k].id == id && LeftToWork(os[k]);
    }
    if o.id == id && LeftToWork(o) {
      assert os[|front|] == o;
    }
  }

  lemma {:induction false} AdoptAllTracks(m: Mgr, os: seq<Listed>, state: OrderState, now: int, id: nat)
    ensures id in AdoptAll(m, os, state, now).orders <==> id in m.orders || Works(os, id)
    ensures id in m.orders ==> At(AdoptAll(m, os, state, now), id) == At(m, id)
    decreases |os|
  {
    if os != [] {
      var front, o := os[..|os| - 1], os[|os| - 1];
      AdoptAllTracks(m, front, state, now, id);
      AdoptOneTracks(AdoptAll(m, front, state, now), o, state, now, id);
      WorksGrows(front, o, id);
      assert front + [o] == os;
    }
  }

  lemma {:induction false} SweepStatesTracks(m: Mgr, answers: Answers, states: seq<OrderState>, id: nat)
    ensures id in SweepStates(m, answers, states).orders <==> id in m.orders || ListedAtWork(answers, states, id)
    ensures id in m.orders ==> At(SweepStates(m, answers, states), id) == At(m, id)
    decreases |states|
  {
    if states != [] {
      var s, rest := states[0], states[1..];
      if s in answers {
        AdoptAllTracks(m, answers[s].orders, s, answers[s].now, id);
      }
      SweepStatesTracks(AfterQuery(m, answers, s), answers, rest, id);
      assert forall i :: 0 <= i < |rest| ==> rest[i] == states[i + 1];
      if ListedAtWork(answers, rest, id) {
        var i :| 0 <= i < |rest| && rest[i] in answers && Works(answers[rest[i]].orders, id);
        assert states[i + 1] == rest[i];
      }
    }
  }

  // Whatever the answers, an order is tracked after a sweep exactly when it was before or some query that
  // answered listed it as a buy to open with contracts left; what was tracked before is left alone.
  lemma SweepTracksIff(m: Mgr, answers: Answers, id: nat)
    ensures id in Sweep(m, answers).orders <==> id in m.orders || ListedAtWork(answers, SWEPT, id)
    ensures id in m.orders ==> At(Sweep(m, answers), id) == At(m, id)
  {
    SweepStatesTracks(m, answers, SWEPT, id);
  }

  // ----- what a sweep leaves alone -----

  // Positions kept under anything but an order are the same in both.
  ghost predicate SameRecovered(m: Mgr, m': Mgr) {
    forall k: PositionId :: !k.OrderKey? ==>
      (k in m'.store <==> k in m.store) && (k in m.store ==> m'.store[k] == m.store[k])
  }

  lemma {:induction false} AdoptAllKeepsRecovered(m: Mgr, os: seq<Listed>, state: OrderState, now: int)
    ensures SameRecovered(m, AdoptAll(m, os, state, now))
    decreases |os|
  {
    if os != [] {
      AdoptAllKeepsRecovered(m, os[..|os| - 1], state, now);
    }
  }

  lemma {:induction false} SweepKeepsRecovered(m: Mgr, answers: Answers, states: seq<OrderState>)
    ensures SameRecovered(m, SweepStates(m, answers, states))
    decreases |states|
  {
    if states != [] {
      var s := states[0];
      if s in answers {
        AdoptAllKeepsRecovered(m, answers[s].orders, s, answers[s].now);
      }
      SweepKeepsRecovered(AfterQuery(m, answers, s), answers, states[1..]);
    }
  }

  // ----- when the broker stands still -----

  ghost predicate DistinctIds(os: seq<Listed>) {
    forall j, k :: 0 <= j < k < |os| ==> os[j].id != os[k].id
  }

  function InState(os: seq<Listed>, state: OrderState): seq<Listed>
    decreases |os|
  {
    if os == [] then []
    else InState(os[..|os| - 1], state) + if os[|os| - 1].view.state == state then [os[|os| - 1]] else []
  }

  // The answers of a broker that shows the same orders to every query.
  function Still(os: seq<Listed>, answered: set<OrderState>, now: int): Answers {
    map s | s in answered :: Answer(InState(os, s), now)
  }

  lemma {:induction false} OnlyInState(os: seq<Listed>, state: OrderState, k: nat)
    requires DistinctIds(os) && k < |os|
    ensures Only(InState(os, state), os[k].id) == if os[k].view.state == state then [os[k]] else []
    decreases |os|
  {
    if k < |os| - 1 {
      var front := os[..|os| - 1];
      assert front[k] == os[k] && os[|os| - 1].id != os[k].id;
      OnlyInState(front, state, k);
      OnlyOneMore(os, state, os[k].id);
    } else {
      OnlyUnlisted(os[..k], state, os[k].id);
      OnlyOneMore(os, state, os[k].id);
    }
  }

  lemma OnlyOneMore(os: seq<Listed>, state: OrderState, id: nat)
    requires os != []
    ensures var front, last := os[..|os| - 1], os[|os| - 1];
            Only(InState(os, state), id) ==
            Only(InState(front, state), id) + if last.view.state == state && last.id == id then [last] else []
  {
    var front, last := os[..|os| - 1], os[|os| - 1];
    OnlyAppend(InState(front, state), if last.view.state == state then [last] else [], id);
  }

  lemma {:induction false} OnlyUnlisted(os: seq<Listed>, state: OrderState, id: nat)
    requires forall k :: 0 <= k < |os| ==> os[k].id != id
    ensures Only(InState(os, state), id) == []
    decreases |os|
  {
    if os != [] {
      OnlyUnlisted(os[..|os| - 1], state, id);
      OnlyOneMore(os, state, id);
    }
  }

  lemma OnlyAppend(os: seq<Listed>, more: seq<Listed>, id: nat)
    requires |more| <= 1
    ensures Only(os + more, id) == Only(os, id) + if more != [] && more[0].id == id then more else []
  {
    if more == [] {
      assert os + more == os;
    } else {
      assert (os + more)[..|os|] == os;
    }
  }

  // Each order is then listed once, by the query for its state, and is adopted there.
  lemma StillSweepAt(m: Mgr, os: seq<Listed>, answered: set<OrderState>, now: int, k: nat)
    requires DistinctIds(os) && k < |os|
    ensures var o := os[k];
            At(Sweep(m, Still(os, answered, now)), o.id) ==
              if Adoptable(o.view.state) && o.view.state in answered then At(AdoptOne(m, o, o.view.state, now), o.id)
              else At(m, o.id)
  {
    var o := os[k];
    var own := OnlyIn(Still(os, answered, now), o.id);
    SweepIsPointwise(m, Still(os, answered, now), o.id);
    forall s | s in own
      ensures own[s].orders == if o.view.state == s then [o] else []
    {
      OnlyInState(os, s, k);
    }
    OneListing(m, own, o, SWEPT, now);
  }

  lemma StillSweepElsewhere(m: Mgr, os: seq<Listed>, answered: set<OrderState>, now: int, id: nat)
    requires forall k :: 0 <= k < |os| ==> os[k].id != id
    ensures At(Sweep(m, Still(os, answered, now)), id) == At(m, id)
  {
    forall s | s in answered
      ensures Only(InState(os, s), id) == []
    {
      OnlyUnlisted(os, s, id);
    }
    SweepIsPointwise(m, Still(os, answered, now), id);
  }

  lemma AdoptSingle(m: Mgr, o: Listed, state: OrderState, now: int)
    ensures AdoptAll(m, [o], state, now) == AdoptOne(m, o, state, now)
  {
    assert [o][..0] == [] && AdoptAll(m, [], state, now) == m;
  }

  lemma {:induction false} OneListing(m: Mgr, answers: Answers, o: Listed, states: seq<OrderState>, now: int)
    requires forall s :: s in answers ==>
               answers[s] == Answer(if o.view.state == s then [o] else [], now)
    requires forall i, j :: 0 <= i < j < |states| ==> states[i] != states[j]
    ensures SweepStates(m, answers, states) ==
            if o.view.state in states && o.view.state in answers then AdoptOne(m, o, o.view.state, now) else m
    decreases |states|
  {
    if states != [] {
      var rest := states[1..];
      var m1 := AfterQuery(m, answers, states[0]);
      AdoptSingle(m, o, o.view.state, now);
      assert m1 == if states[0] == o.view.state && states[0] in answers then AdoptOne(m, o, o.view.state, now) else m;
      assert forall x :: x in states <==> x == states[0] || x in rest;
      OneListing(m1, answers, o, rest, now);
    }
  }
}
