/** The order manager running against a broker that fills, cancels and rejects at any moment.
    One step is one atomic action of either side; every interleaving of steps is a run. */
module OrderSystem {
  import opened Common
  import opened Schemas
  import opened Ticks
  import opened Lifecycle
  import opened Adoption

  // A broker order, the buy intent it serves when the manager is responsible for it, and the contract it
  // buys to open (None for any other order, and when its leg cannot be parsed).
  datatype BrokerOrder = BrokerOrder(view: OrderView, intent: Option<nat>, leg: Option<Contract>)

  // Where the manager's poll is between two broker calls.
  datatype Pc =
    | Idle
    | Looked(id: nat, seen: OrderView)
    | Cancelling(id: nat)
    | Replacing(w: Tracked)

  datatype Sys = Sys(mgr: Mgr, broker: seq<BrokerOrder>, wanted: seq<nat>, clock: int, pc: Pc)

  datatype Step =
    | Evolve(id: nat, to: OrderView)                    // the broker makes progress on an order
    | Wait(seconds: nat)
    | Submit(first: OrderView, candidate: Candidate, limitPrice: Option<real>)  // a buy is placed and tracked
    | Lookup(id: nat)
    | Act
    | CancelAnswer(ok: bool)
    | PlaceAnswer(quote: Option<Quote>, fetched: Option<TickRule>, placed: Option<OrderView>)
    | AdoptOrder(id: nat)                               // startup takes up one order a query listed
    | SubmitLost(first: OrderView, candidate: Candidate)  // fault: a buy is placed and never tracked
    | LookupEmpty(id: nat)                              // fault: a lookup finds nothing
    | PlaceLost(lost: OrderView)                        // fault: an order is placed, its id is lost

  // The environment the safety argument relies on: lookups find what exists, and a place call
  // either has no effect or returns the id of the order it created.
  predicate Faithful(step: Step) {
    !step.LookupEmpty? && !step.PlaceLost? && !step.SubmitLost?
  }

  predicate WellFormed(v: OrderView) {
    && v.processed + v.canceled <= v.quantity
    && (v.state.Filled? ==> 0 < v.processed == v.quantity)
    && (v.pending.Some? ==> v.pending.value == v.quantity - v.processed - v.canceled)
  }

  // Final orders stay as they are; the others only move forward.
  predicate Evolves(v: OrderView, to: OrderView) {
    && !Final(v.state)
    && to.quantity == v.quantity && to.limit == v.limit && to.option == v.option
    && v.processed <= to.processed && v.canceled <= to.canceled
    && WellFormed(to)
  }

  ghost predicate Enabled(cfg: Config, s: Sys, step: Step) {
    match step
    case Evolve(id, to) => id < |s.broker| && Evolves(s.broker[id].view, to)
    case Wait(_) => true
    case Submit(v, c, _) => WellFormed(v) && c.contract.Some?
    case Lookup(id) => s.pc.Idle? && id in s.mgr.orders && id < |s.broker|
    case Act => s.pc.Looked? && s.pc.id in s.mgr.orders
    case CancelAnswer(_) => s.pc.Cancelling? && s.pc.id in s.mgr.orders
    case PlaceAnswer(quote, fetched, placed) =>
      && s.pc.Replacing?
      && (placed.Some? ==>
            && ReplacementPrice(cfg, s.pc.w, quote, fetched) == Some(placed.value.limit)
            && placed.value.quantity == s.pc.w.quantity && placed.value.option == s.pc.w.optionId
            && WellFormed(placed.value))
    case AdoptOrder(id) =>
      && s.pc.Idle? && id < |s.broker| && id !in s.mgr.orders
      && s.broker[id].leg.Some? && Adoptable(s.broker[id].view.state)
    case SubmitLost(v, c) => WellFormed(v) && c.contract.Some?
    case LookupEmpty(id) => s.pc.Idle? && id in s.mgr.orders
    case PlaceLost(v) =>
      s.pc.Replacing? && s.pc.w.orderId < |s.broker| && v.quantity == s.pc.w.quantity && WellFormed(v)
  }

  function PcAfter(d: Decision): Pc {
    match d
    case Cancel(w) => Cancelling(w.orderId)
    case Replace(w) => Replacing(w)
    case _ => Idle
  }

  ghost function Apply(cfg: Config, s: Sys, step: Step): Sys
    requires Enabled(cfg, s, step)
  {
    match step
    case Evolve(id, to) => s.(broker := s.broker[id := s.broker[id].(view := to)])
    case Wait(seconds) => s.(clock := s.clock + seconds)
    case Submit(v, c, limitPrice) =>
      var id := |s.broker|;
      s.(broker := s.broker + [BrokerOrder(v, Some(|s.wanted|), c.contract)], wanted := s.wanted + [v.quantity],
         mgr := Tracking(s.mgr, c, true, Some(id), v.quantity, limitPrice, s.clock))
    case Lookup(id) => s.(pc := Looked(id, s.broker[id].view))
    case Act =>
      var d := Decide(cfg, s.mgr.orders[s.pc.id], Some(s.pc.seen), s.clock);
      s.(mgr := ApplyDecision(s.mgr, d, s.clock), pc := PcAfter(d))
    case CancelAnswer(ok) =>
      s.(mgr := OnCancel(s.mgr, s.pc.id, ok, s.clock), pc := Idle)
    case PlaceAnswer(quote, fetched, placed) =>
      var w := s.pc.w;
      if placed.None? then
        s.(mgr := OnPlace(cfg, s.mgr, w, quote, fetched, None, s.clock), pc := Idle)
      else
        s.(mgr := OnPlace(cfg, s.mgr, w, quote, fetched, Some(|s.broker|), s.clock), pc := Idle,
           broker := s.broker + [BrokerOrder(placed.value, IntentOf(s, w.orderId), Some(w.contract))])
    case AdoptOrder(id) =>
      var v := s.broker[id].view;
      var mgr := AdoptOne(s.mgr, Shown(s.broker, id), v.state, s.clock);
      if s.broker[id].intent.Some? then s.(mgr := mgr)
      else s.(mgr := mgr, broker := s.broker[id := s.broker[id].(intent := Some(|s.wanted|))],
              wanted := s.wanted + [v.quantity])
    case SubmitLost(v, c) =>
      s.(broker := s.broker + [BrokerOrder(v, Some(|s.wanted|), c.contract)], wanted := s.wanted + [v.quantity])
    case LookupEmpty(id) =>
      s.(mgr := s.mgr.(orders := s.mgr.orders - {id}))
    case PlaceLost(v) =>
      s.(pc := Idle, broker := s.broker + [BrokerOrder(v, IntentOf(s, s.pc.w.orderId), Some(s.pc.w.contract))])
  }

  // A broker order as a listing shows it.
  function Shown(b: seq<BrokerOrder>, id: nat): Listed
    requires id < |b|
  {
    Listed(id, b[id].view, b[id].leg.Some?, b[id].leg)
  }

  function IntentOf(s: Sys, id: nat): Option<nat> {
    if id < |s.broker| then s.broker[id].intent else None
  }

  // Contracts of one order that the position store accounts for.
  function Held(m: Mgr, id: nat): int {
    if OrderKey(id) in m.store then m.store[OrderKey(id)].quantity else 0
  }

  // Contracts filled over all broker orders of one intent, and how many orders that is.
  function ChainFilled(b: seq<BrokerOrder>, i: nat): nat {
    if b == [] then 0
    else ChainFilled(b[..|b| - 1], i) + if b[|b| - 1].intent == Some(i) then b[|b| - 1].view.processed else 0
  }

  function ChainLength(b: seq<BrokerOrder>, i: nat): nat {
    if b == [] then 0
    else ChainLength(b[..|b| - 1], i) + if b[|b| - 1].intent == Some(i) then 1 else 0
  }

  // ----- the invariant -----

  // An order that ended without filling anything.
  predicate Dead(v: OrderView) {
    Final(v.state) && v.processed == 0
  }

  // Nothing more can fill: the order ended, or no contract of it is left.
  predicate Over(v: OrderView) {
    Final(v.state) || v.processed + v.canceled == v.quantity
  }

  ghost predicate SameChain(b: seq<BrokerOrder>, o: nat, p: nat)
    requires o < |b| && p < |b|
  {
    b[o].intent.Some? && b[o].intent == b[p].intent
  }

  // Every order but the newest of its chain is dead.
  ghost predicate OnlyNewestMatters(b: seq<BrokerOrder>) {
    forall o: nat, p: nat :: o < p < |b| && SameChain(b, o, p) ==> Dead(b[o].view)
  }

  ghost predicate Newest(b: seq<BrokerOrder>, o: nat)
    requires o < |b|
  {
    forall p: nat :: o < p < |b| ==> !SameChain(b, o, p)
  }

  // A chain has one newest order.
  lemma NewestDiffer(b: seq<BrokerOrder>, o: nat, p: nat)
    requires o < |b| && p < |b| && o != p && Newest(b, o) && Newest(b, p) && b[o].intent.Some?
    ensures b[o].intent != b[p].intent
  {
    assert if o < p then !SameChain(b, o, p) else !SameChain(b, p, o);
  }

  ghost predicate BrokerOk(cfg: Config, b: seq<BrokerOrder>, wanted: seq<nat>) {
    && (forall o: nat :: o < |b| ==>
          && WellFormed(b[o].view)
          && (b[o].intent.Some? ==> b[o].intent.value < |wanted| && b[o].view.quantity <= wanted[b[o].intent.value]))
    && (forall i: nat :: i < |wanted| ==> ChainLength(b, i) <= cfg.maxReplacements + 1)
    && OnlyNewestMatters(b)
  }

  // Every contract filled for an intent is with a tracked order or in the store, exactly once.
  ghost predicate Accounted(m: Mgr, b: seq<BrokerOrder>, o: nat)
    requires o < |b|
  {
    if o in m.orders then 0 <= Held(m, o) <= b[o].view.processed
    else Over(b[o].view) && Held(m, o) == b[o].view.processed
  }

  ghost predicate Conserved(m: Mgr, b: seq<BrokerOrder>) {
    forall o: nat :: o < |b| && b[o].intent.Some? ==> Accounted(m, b, o)
  }

  // A tracked order and the newest broker order of its chain agree.
  ghost predicate InStep(cfg: Config, m: Mgr, b: seq<BrokerOrder>, wanted: seq<nat>, w: Tracked) {
    && w.orderId < |b| && b[w.orderId].intent.Some?
    && Newest(b, w.orderId)
    && w.attempts <= cfg.maxReplacements
    && ChainLength(b, b[w.orderId].intent.value) == w.attempts + 1
    && b[w.orderId].intent.value < |wanted|
    && w.quantity + Held(m, w.orderId) <= wanted[b[w.orderId].intent.value]
  }

  ghost predicate TrackedOk(cfg: Config, m: Mgr, b: seq<BrokerOrder>, wanted: seq<nat>) {
    && (forall id :: id in m.orders ==> m.orders[id].orderId == id && InStep(cfg, m, b, wanted, m.orders[id]))
    && (forall id: nat :: OrderKey(id) in m.store ==> id < |b| && b[id].intent.Some?)
  }

  ghost predicate PcOk(cfg: Config, s: Sys) {
    match s.pc
    case Idle => true
    case Looked(id, v) =>
      id in s.mgr.orders && id < |s.broker| && WellFormed(v) && (Final(v.state) ==> v == s.broker[id].view)
    case Cancelling(id) => id in s.mgr.orders
    case Replacing(w) =>
      && InStep(cfg, s.mgr, s.broker, s.wanted, w)
      && w.orderId !in s.mgr.orders && Dead(s.broker[w.orderId].view)
      && !w.givingUp && w.cancelling && w.attempts < cfg.maxReplacements
  }

  ghost predicate Inv(cfg: Config, s: Sys) {
    && BrokerOk(cfg, s.broker, s.wanted)
    && Conserved(s.mgr, s.broker)
    && TrackedOk(cfg, s.mgr, s.broker, s.wanted)
    && PcOk(cfg, s)
  }

  // ----- the invariant survives every step -----

  lemma {:induction false} ChainLengthUpdate(b: seq<BrokerOrder>, n: nat, x: BrokerOrder, i: nat)
    requires n < |b| && x.intent == b[n].intent
    ensures ChainLength(b[n := x], i) == ChainLength(b, i)
  {
    if n == |b| - 1 {
      assert b[n := x][..|b| - 1] == b[..|b| - 1];
    } else {
      assert b[n := x][..|b| - 1] == b[..|b| - 1][n := x];
      ChainLengthUpdate(b[..|b| - 1], n, x, i);
    }
  }

  lemma {:induction false} NoOrdersYet(b: seq<BrokerOrder>, i: nat)
    requires forall o: nat :: o < |b| ==> b[o].intent != Some(i)
    ensures ChainLength(b, i) == 0
  {
    if b != [] {
      NoOrdersYet(b[..|b| - 1], i);
    }
  }

  lemma AppendLength(b: seq<BrokerOrder>, x: BrokerOrder, i: nat)
    ensures ChainLength(b + [x], i) == ChainLength(b, i) + if x.intent == Some(i) then 1 else 0
  {
    assert (b + [x])[..|b|] == b;
  }

  // What appending one broker order does to the chains.
  lemma AppendOrder(b: seq<BrokerOrder>, x: BrokerOrder)
    ensures forall i: nat ::
              ChainLength(b + [x], i) == ChainLength(b, i) + if x.intent == Some(i) then 1 else 0
    ensures forall o: nat, p: nat :: o < |b| && p < |b| ==> SameChain(b + [x], o, p) == SameChain(b, o, p)
    ensures forall o: nat :: o < |b| && Newest(b, o) && (x.intent.None? || x.intent != b[o].intent) ==>
        Newest(b + [x], o)
    ensures Newest(b + [x], |b|)
  {
    assert (b + [x])[..|b|] == b;
  }

  lemma EvolveKeepsChains(b: seq<BrokerOrder>, id: nat, to: OrderView)
    requires id < |b| && Evolves(b[id].view, to)
    ensures var b' := b[id := b[id].(view := to)];
            && (forall i: nat :: ChainLength(b', i) == ChainLength(b, i))
            && (forall o: nat :: o < |b| && Newest(b, o) ==> Newest(b', o))
            && (OnlyNewestMatters(b) ==> OnlyNewestMatters(b'))
  {
    var b' := b[id := b[id].(view := to)];
    forall i: nat ensures ChainLength(b', i) == ChainLength(b, i) {
      ChainLengthUpdate(b, id, b'[id], i);
    }
    assert forall o: nat, p: nat :: o < |b| && p < |b| ==> SameChain(b', o, p) == SameChain(b, o, p);
  }

  lemma EvolveKeepsBroker(cfg: Config, b: seq<BrokerOrder>, wanted: seq<nat>, id: nat, to: OrderView)
    requires BrokerOk(cfg, b, wanted) && id < |b| && Evolves(b[id].view, to)
    ensures BrokerOk(cfg, b[id := b[id].(view := to)], wanted)
  {
    EvolveKeepsChains(b, id, to);
  }

  lemma EvolveKeepsTracked(cfg: Config, m: Mgr, b: seq<BrokerOrder>, wanted: seq<nat>, id: nat, to: OrderView)
    requires id < |b| && Evolves(b[id].view, to)
    ensures var b' := b[id := b[id].(view := to)];
            && (forall w :: InStep(cfg, m, b, wanted, w) ==> InStep(cfg, m, b', wanted, w))
            && (Conserved(m, b) ==> Conserved(m, b'))
  {
    var b' := b[id := b[id].(view := to)];
    EvolveKeepsChains(b, id, to);
    assert forall o: nat :: o < |b| && b[o].intent.Some? && Accounted(m, b, o) ==> Accounted(m, b', o);
  }

  lemma EvolveKeepsPc(cfg: Config, s: Sys, id: nat, to: OrderView)
    requires Inv(cfg, s) && Enabled(cfg, s, Evolve(id, to))
    ensures PcOk(cfg, Apply(cfg, s, Evolve(id, to)))
  {
    if s.pc.Replacing? {
      EvolveKeepsTracked(cfg, s.mgr, s.broker, s.wanted, id, to);
      assert InStep(cfg, s.mgr, s.broker, s.wanted, s.pc.w);
    }
  }

  lemma EvolveKeepsInv(cfg: Config, s: Sys, id: nat, to: OrderView)
    requires Inv(cfg, s) && Enabled(cfg, s, Evolve(id, to))
    ensures Inv(cfg, Apply(cfg, s, Evolve(id, to)))
  {
    EvolveKeepsBroker(cfg, s.broker, s.wanted, id, to);
    EvolveKeepsTracked(cfg, s.mgr, s.broker, s.wanted, id, to);
    EvolveKeepsPc(cfg, s, id, to);
  }

  // Appending an order of another chain leaves a tracked order in step.
  lemma InStepGrows(
    cfg: Config, m: Mgr, m': Mgr, b: seq<BrokerOrder>, x: BrokerOrder, wanted: seq<nat>, more: seq<nat>, w: Tracked)
    requires InStep(cfg, m, b, wanted, w) && m'.store == m.store
    requires x.intent != b[w.orderId].intent
    ensures InStep(cfg, m', b + [x], wanted + more, w)
  {
    AppendOrder(b, x);
    assert Held(m', w.orderId) == Held(m, w.orderId);
  }

  // Tracking the appended order, when no other tracked order belongs to its chain.
  lemma TrackNewKeeps(
    cfg: Config, m: Mgr, b: seq<BrokerOrder>, x: BrokerOrder, wanted: seq<nat>, more: seq<nat>, w: Tracked)
    requires Conserved(m, b) && TrackedOk(cfg, m, b, wanted)
    requires w.orderId == |b|
    requires forall id :: id in m.orders ==> x.intent != b[id].intent
    requires InStep(cfg, m, b + [x], wanted + more, w)
    ensures var m' := m.(orders := m.orders[w.orderId := w]);
            Conserved(m', b + [x]) && TrackedOk(cfg, m', b + [x], wanted + more)
  {
    var m' := m.(orders := m.orders[w.orderId := w]);
    assert forall o: nat :: Held(m', o) == Held(m, o);
    assert forall o: nat :: o < |b| && b[o].intent.Some? ==> Accounted(m, b, o);
    assert Accounted(m', b + [x], |b|);
    forall id | id in m'.orders
      ensures InStep(cfg, m', b + [x], wanted + more, m'.orders[id])
    {
      if id != |b| {
        InStepGrows(cfg, m, m', b, x, wanted, more, m.orders[id]);
      }
    }
  }

  // Appending an order keeps the broker's side when the rest of its chain is dead.
  lemma AppendKeepsBroker(
    cfg: Config, b: seq<BrokerOrder>, wanted: seq<nat>, i: nat, v: OrderView, leg: Option<Contract>)
    requires BrokerOk(cfg, b, wanted) && WellFormed(v)
    requires i < |wanted| && v.quantity <= wanted[i] && ChainLength(b, i) <= cfg.maxReplacements
    requires forall o: nat :: o < |b| && b[o].intent == Some(i) ==> Dead(b[o].view)
    ensures var b' := b + [BrokerOrder(v, Some(i), leg)];
            BrokerOk(cfg, b', wanted) && ChainLength(b', i) == ChainLength(b, i) + 1 && Newest(b', |b|)
  {
    var x := BrokerOrder(v, Some(i), leg);
    var b' := b + [x];
    forall j: nat ensures ChainLength(b', j) == ChainLength(b, j) + if i == j then 1 else 0 {
      AppendLength(b, x, j);
    }
    forall o: nat, p: nat | o < p < |b'| && SameChain(b', o, p)
      ensures Dead(b'[o].view)
    {
      if p < |b| {
        assert SameChain(b, o, p);
      }
    }
  }

  // A fresh intent has no orders yet.
  lemma NewIntent(cfg: Config, b: seq<BrokerOrder>, wanted: seq<nat>, q: nat)
    requires BrokerOk(cfg, b, wanted)
    ensures BrokerOk(cfg, b, wanted + [q]) && ChainLength(b, |wanted|) == 0
  {
    NoOrdersYet(b, |wanted|);
  }

  // What the manager is in the middle of does not notice an order of another chain.
  lemma PcGrows(cfg: Config, s: Sys, w: Tracked, v: OrderView, leg: Option<Contract>)
    requires Inv(cfg, s) && w.orderId == |s.broker|
    ensures PcOk(cfg, Sys(s.mgr.(orders := s.mgr.orders[|s.broker| := w]),
                          s.broker + [BrokerOrder(v, Some(|s.wanted|), leg)], s.wanted + [v.quantity], s.clock, s.pc))
  {
    if s.pc.Replacing? {
      var m' := s.mgr.(orders := s.mgr.orders[|s.broker| := w]);
      InStepGrows(cfg, s.mgr, m', s.broker, BrokerOrder(v, Some(|s.wanted|), leg), s.wanted, [v.quantity], s.pc.w);
    }
  }

  lemma SubmittedKeeps(cfg: Config, s: Sys, w: Tracked, v: OrderView, leg: Option<Contract>)
    requires Inv(cfg, s) && WellFormed(v)
    requires w.orderId == |s.broker| && w.attempts == 0 && w.quantity == v.quantity
    ensures var x := BrokerOrder(v, Some(|s.wanted|), leg);
            Inv(cfg, Sys(s.mgr.(orders := s.mgr.orders[|s.broker| := w]), s.broker + [x], s.wanted + [v.quantity],
                         s.clock, s.pc))
  {
    var x := BrokerOrder(v, Some(|s.wanted|), leg);
    NewIntent(cfg, s.broker, s.wanted, v.quantity);
    AppendKeepsBroker(cfg, s.broker, s.wanted + [v.quantity], |s.wanted|, v, leg);
    assert forall id :: id in s.mgr.orders ==> InStep(cfg, s.mgr, s.broker, s.wanted, s.mgr.orders[id]);
    assert Held(s.mgr, |s.broker|) == 0;
    TrackNewKeeps(cfg, s.mgr, s.broker, x, s.wanted, [v.quantity], w);
    PcGrows(cfg, s, w, v, leg);
  }

  lemma SubmitKeepsInv(cfg: Config, s: Sys, step: Step)
    requires Inv(cfg, s) && step.Submit? && Enabled(cfg, s, step)
    ensures Inv(cfg, Apply(cfg, s, step))
  {
    var v, c := step.first, step.candidate;
    var w := FirstTracked(|s.broker|, c.contract.value, c, v.quantity, step.limitPrice, s.clock);
    SubmittedKeeps(cfg, s, w, v, c.contract);
  }

  // Rewriting a tracked order's flags in place moves no contracts.
  lemma RewriteKeeps(cfg: Config, m: Mgr, b: seq<BrokerOrder>, wanted: seq<nat>, w: Tracked)
    requires Conserved(m, b) && TrackedOk(cfg, m, b, wanted)
    requires w.orderId in m.orders
    requires w.quantity == m.orders[w.orderId].quantity && w.attempts == m.orders[w.orderId].attempts
    ensures var m' := m.(orders := m.orders[w.orderId := w]);
            Conserved(m', b) && TrackedOk(cfg, m', b, wanted)
  {
    var m' := m.(orders := m.orders[w.orderId := w]);
    assert forall o: nat :: Held(m', o) == Held(m, o);
    assert forall o: nat :: o < |b| && Accounted(m, b, o) ==> Accounted(m', b, o);
  }

  // Forgetting a dead order loses nothing.
  lemma ForgetKeeps(cfg: Config, m: Mgr, b: seq<BrokerOrder>, wanted: seq<nat>, id: nat)
    requires Conserved(m, b) && TrackedOk(cfg, m, b, wanted)
    requires id in m.orders && id < |b| && Dead(b[id].view)
    ensures var m' := m.(orders := m.orders - {id});
            Conserved(m', b) && TrackedOk(cfg, m', b, wanted) && InStep(cfg, m', b, wanted, m.orders[id])
  {
    var m' := m.(orders := m.orders - {id});
    assert forall o: nat :: Held(m', o) == Held(m, o);
    assert forall o: nat :: o < |b| && b[o].intent.Some? && Accounted(m, b, o) ==> Accounted(m', b, o);
  }

  // Promotion moves exactly what the broker filled into the store, over whatever was there.
  lemma PromoteKeeps(cfg: Config, m: Mgr, b: seq<BrokerOrder>, wanted: seq<nat>, p: Position)
    requires Conserved(m, b) && TrackedOk(cfg, m, b, wanted)
    requires p.id.OrderKey? && p.id.order in m.orders && p.id.order < |b|
    requires Final(b[p.id.order].view.state) && p.quantity == b[p.id.order].view.processed
    ensures var m' := Mgr(m.orders - {p.id.order}, m.store[p.id := p]);
            Conserved(m', b) && TrackedOk(cfg, m', b, wanted)
  {
    var m' := Mgr(m.orders - {p.id.order}, m.store[p.id := p]);
    assert forall o: nat :: o != p.id.order ==> Held(m', o) == Held(m, o);
    assert forall o: nat :: o < |b| && b[o].intent.Some? && Accounted(m, b, o) ==> Accounted(m', b, o);
  }

  // What a final view promotes is what the broker processed.
  lemma PromotesProcessed(cfg: Config, w: Tracked, v: OrderView, now: int)
    requires WellFormed(v) && Decide(cfg, w, Some(v), now).Promote?
    ensures Final(v.state) && PromotedPosition(WithOption(w, v), v, now).quantity == v.processed
  {
  }

  lemma DecideKeepsAccount(cfg: Config, w: Tracked, v: OrderView, now: int)
    ensures var d := Decide(cfg, w, Some(v), now);
            && d.w.quantity == w.quantity && d.w.attempts == w.attempts
            && (d.Drop? || d.Replace? ==> Final(v.state) && v.processed == 0)
            && (d.Replace? ==> !d.w.givingUp && d.w.cancelling && d.w.attempts < cfg.maxReplacements)
  {
  }

  lemma ActKeepsInv(cfg: Config, s: Sys)
    requires Inv(cfg, s) && Enabled(cfg, s, Act)
    ensures Inv(cfg, Apply(cfg, s, Act))
  {
    var id, w0 := s.pc.id, s.mgr.orders[s.pc.id];
    assert Accounted(s.mgr, s.broker, id) && InStep(cfg, s.mgr, s.broker, s.wanted, w0);
    DecideKeepsIdentity(cfg, w0, Some(s.pc.seen), s.clock);
    DecideKeepsAccount(cfg, w0, s.pc.seen, s.clock);
    match Decide(cfg, w0, Some(s.pc.seen), s.clock)
    case Keep(w) => RewriteKeeps(cfg, s.mgr, s.broker, s.wanted, w);
    case Cancel(w) => RewriteKeeps(cfg, s.mgr, s.broker, s.wanted, w);
    case Drop(w) => ForgetKeeps(cfg, s.mgr, s.broker, s.wanted, id);
    case Replace(w) => ForgetKeeps(cfg, s.mgr, s.broker, s.wanted, id);
    case Promote(w, v) =>
      PromotesProcessed(cfg, w0, v, s.clock);
      PromoteKeeps(cfg, s.mgr, s.broker, s.wanted, PromotedPosition(w, v, s.clock));
  }

  // Once the newest order of a chain is dead, the whole chain is, and nothing in it is tracked.
  lemma DeadChain(cfg: Config, s: Sys, w: Tracked)
    requires Inv(cfg, s) && s.pc == Replacing(w)
    ensures forall o: nat :: o < |s.broker| && SameChain(s.broker, o, w.orderId) ==> Dead(s.broker[o].view)
    ensures forall id :: id in s.mgr.orders ==> !SameChain(s.broker, id, w.orderId)
  {
    var b := s.broker;
    forall o: nat | o < |b| && SameChain(b, o, w.orderId)
      ensures Dead(b[o].view) && o !in s.mgr.orders
    {
      assert SameChain(b, w.orderId, o);
    }
  }

  lemma ReplacedKeeps(cfg: Config, s: Sys, w': Tracked, v: OrderView, leg: Option<Contract>)
    requires Inv(cfg, s) && s.pc.Replacing? && WellFormed(v)
    requires w'.orderId == |s.broker| && w'.attempts == s.pc.w.attempts + 1
    requires w'.quantity == v.quantity == s.pc.w.quantity
    ensures var x := BrokerOrder(v, IntentOf(s, s.pc.w.orderId), leg);
            Inv(cfg, Sys(s.mgr.(orders := s.mgr.orders[|s.broker| := w']), s.broker + [x], s.wanted, s.clock, Idle))
  {
    var id, w := |s.broker|, s.pc.w;
    var i := s.broker[w.orderId].intent.value;
    assert Accounted(s.mgr, s.broker, w.orderId) && Held(s.mgr, id) == 0;
    DeadChain(cfg, s, w);
    assert forall o: nat :: o < |s.broker| && s.broker[o].intent == Some(i) ==> SameChain(s.broker, o, w.orderId);
    assert forall o :: o in s.mgr.orders ==> InStep(cfg, s.mgr, s.broker, s.wanted, s.mgr.orders[o]);
    AppendKeepsBroker(cfg, s.broker, s.wanted, i, v, leg);
    assert s.wanted + [] == s.wanted;
    TrackNewKeeps(cfg, s.mgr, s.broker, BrokerOrder(v, Some(i), leg), s.wanted, [], w');
  }

  lemma PlaceKeepsInv(cfg: Config, s: Sys, step: Step)
    requires Inv(cfg, s) && step.PlaceAnswer? && Enabled(cfg, s, step)
    ensures Inv(cfg, Apply(cfg, s, step))
  {
    if step.placed.Some? {
      var w' := Replacement(cfg, s.pc.w, step.quote, step.fetched, Some(|s.broker|), s.clock).value;
      ReplacedKeeps(cfg, s, w', step.placed.value, Some(s.pc.w.contract));
    }
  }

  // ----- adopting an order -----

  lemma {:induction false} ClaimedLength(b: seq<BrokerOrder>, id: nat, i: nat, j: nat)
    requires id < |b| && b[id].intent.None?
    ensures ChainLength(b[id := b[id].(intent := Some(i))], j) == ChainLength(b, j) + if j == i then 1 else 0
  {
    var b', n := b[id := b[id].(intent := Some(i))], |b| - 1;
    if id == n {
      assert b'[..n] == b[..n];
    } else {
      assert b'[..n] == b[..n][id := b[id].(intent := Some(i))];
      ClaimedLength(b[..n], id, i, j);
    }
  }

  // An order that was nobody's becomes the only order of a new intent.
  lemma ClaimKeepsBroker(cfg: Config, b: seq<BrokerOrder>, wanted: seq<nat>, id: nat)
    requires BrokerOk(cfg, b, wanted) && id < |b| && b[id].intent.None?
    ensures var b' := b[id := b[id].(intent := Some(|wanted|))];
            && BrokerOk(cfg, b', wanted + [b[id].view.quantity])
            && ChainLength(b', |wanted|) == 1 && Newest(b', id)
            && (forall i: nat :: i < |wanted| ==> ChainLength(b', i) == ChainLength(b, i))
            && (forall o: nat :: o < |b| && o != id && Newest(b, o) ==> Newest(b', o))
  {
    var b' := b[id := b[id].(intent := Some(|wanted|))];
    NoOrdersYet(b, |wanted|);
    forall i: nat ensures ChainLength(b', i) == ChainLength(b, i) + if i == |wanted| then 1 else 0 {
      ClaimedLength(b, id, |wanted|, i);
    }
    forall o: nat, p: nat | o < |b| && p < |b| && o != p
      ensures SameChain(b', o, p) == SameChain(b, o, p)
    {
      assert b[o].intent.Some? ==> b[o].intent.value < |wanted|;
      assert b[p].intent.Some? ==> b[p].intent.value < |wanted|;
    }
  }

  lemma ClaimKeepsTracked(cfg: Config, m: Mgr, b: seq<BrokerOrder>, wanted: seq<nat>, id: nat, w: Tracked)
    requires BrokerOk(cfg, b, wanted) && id < |b| && b[id].intent.None?
    requires InStep(cfg, m, b, wanted, w)
    ensures InStep(cfg, m, b[id := b[id].(intent := Some(|wanted|))], wanted + [b[id].view.quantity], w)
  {
    ClaimKeepsBroker(cfg, b, wanted, id);
  }

  // What adoption leaves for an order nobody was responsible for.
  lemma ClaimedInStep(cfg: Config, s: Sys, id: nat)
    requires Inv(cfg, s) && Enabled(cfg, s, AdoptOrder(id)) && s.broker[id].intent.None?
    ensures var s' := Apply(cfg, s, AdoptOrder(id));
            && Accounted(s'.mgr, s'.broker, id)
            && (id in s'.mgr.orders ==>
                  s'.mgr.orders[id].orderId == id && InStep(cfg, s'.mgr, s'.broker, s'.wanted, s'.mgr.orders[id]))
  {
    ClaimKeepsBroker(cfg, s.broker, s.wanted, id);
    assert OrderKey(id) !in s.mgr.store && WellFormed(s.broker[id].view);
  }

  // Adopting touches no other order.
  lemma AdoptOneIsLocal(m: Mgr, o: Listed, state: OrderState, now: int)
    ensures var m' := AdoptOne(m, o, state, now);
            && (forall id: nat :: id != o.id ==> (id in m'.orders <==> id in m.orders))
            && (forall id: nat :: id != o.id && id in m.orders ==> m'.orders[id] == m.orders[id])
            && (forall id: nat :: id != o.id ==> (OrderKey(id) in m'.store <==> OrderKey(id) in m.store))
            && (forall id: nat :: id != o.id ==> Held(m', id) == Held(m, id))
  {
  }

  lemma ClaimKeepsInv(cfg: Config, s: Sys, id: nat)
    requires Inv(cfg, s) && Enabled(cfg, s, AdoptOrder(id)) && s.broker[id].intent.None?
    ensures Inv(cfg, Apply(cfg, s, AdoptOrder(id)))
  {
    var s' := Apply(cfg, s, AdoptOrder(id));
    ClaimKeepsBroker(cfg, s.broker, s.wanted, id);
    AdoptOneIsLocal(s.mgr, Shown(s.broker, id), s.broker[id].view.state, s.clock);
    ClaimedInStep(cfg, s, id);
    forall o: nat | o < |s'.broker| && s'.broker[o].intent.Some?
      ensures Accounted(s'.mgr, s'.broker, o)
    {
      assert o != id ==> Accounted(s.mgr, s.broker, o);
    }
    forall o | o in s'.mgr.orders
      ensures s'.mgr.orders[o].orderId == o && InStep(cfg, s'.mgr, s'.broker, s'.wanted, s'.mgr.orders[o])
    {
      if o != id {
        ClaimKeepsTracked(cfg, s.mgr, s.broker, s.wanted, id, s.mgr.orders[o]);
      }
    }
  }

  // An order of an earlier intent is over when it is not tracked, so adopting it again moves nothing.
  lemma AdoptAgainKeepsInv(cfg: Config, s: Sys, id: nat)
    requires Inv(cfg, s) && Enabled(cfg, s, AdoptOrder(id)) && s.broker[id].intent.Some?
    ensures var s' := Apply(cfg, s, AdoptOrder(id));
            && Inv(cfg, s') && s'.mgr.orders == s.mgr.orders && forall o: nat :: Held(s'.mgr, o) == Held(s.mgr, o)
  {
    var s' := Apply(cfg, s, AdoptOrder(id));
    assert Accounted(s.mgr, s.broker, id) && WellFormed(s.broker[id].view);
    AdoptOneIsLocal(s.mgr, Shown(s.broker, id), s.broker[id].view.state, s.clock);
    assert forall o: nat :: Held(s'.mgr, o) == Held(s.mgr, o);
    assert forall o: nat :: o < |s.broker| && Accounted(s.mgr, s.broker, o) ==> Accounted(s'.mgr, s.broker, o);
    forall o | o in s'.mgr.orders
      ensures InStep(cfg, s'.mgr, s'.broker, s'.wanted, s'.mgr.orders[o])
    {
      assert InStep(cfg, s.mgr, s.broker, s.wanted, s.mgr.orders[o]);
    }
  }

  lemma StepKeepsInv(cfg: Config, s: Sys, step: Step)
    requires Inv(cfg, s) && Enabled(cfg, s, step) && Faithful(step)
    ensures Inv(cfg, Apply(cfg, s, step))
  {
    match step
    case Evolve(id, to) => EvolveKeepsInv(cfg, s, id, to);
    case Submit(_, _, _) => SubmitKeepsInv(cfg, s, step);
    case Act => ActKeepsInv(cfg, s);
    case PlaceAnswer(_, _, _) => PlaceKeepsInv(cfg, s, step);
    case AdoptOrder(id) =>
      if s.broker[id].intent.None? {
        ClaimKeepsInv(cfg, s, id);
      } else {
        AdoptAgainKeepsInv(cfg, s, id);
      }
    case CancelAnswer(ok) =>
      RewriteKeeps(cfg, s.mgr, s.broker, s.wanted, CancelAnswered(s.mgr.orders[s.pc.id], ok, s.clock));
    case Wait(_) =>
    case Lookup(_) =>
    case _ =>
  }
}
