/** Startup as a whole: reconciliation fills the store, adoption adds to it, and the manager runs from there,
    while the broker keeps moving (scripts/run_live.py). What the store then counts, instrument by instrument. */
module StartupSafety {
  import opened Common
  import opened Schemas
  import opened Lifecycle
  import opened Adoption
  import opened AdoptionSafety
  import opened OrderSystem
  import opened OrderSafety
  import opened Reconcilers

  // ----- contracts of one instrument in the store -----

  function Weight(p: Position, i: nat): int {
    if p.instrument == Some(i) then p.quantity else 0
  }

  ghost function TotalOn(store: map<PositionId, Position>, i: nat): int
    decreases |store|
  {
    if store == map[] then 0
    else
      var k :| k in store;
      Weight(store[k], i) + TotalOn(store - {k}, i)
  }

  lemma {:induction false} TotalPick(store: map<PositionId, Position>, i: nat, k: PositionId)
    requires k in store
    ensures TotalOn(store, i) == Weight(store[k], i) + TotalOn(store - {k}, i)
    decreases |store|
  {
    var j :| j in store && TotalOn(store, i) == Weight(store[j], i) + TotalOn(store - {j}, i);
    if j != k {
      TotalPick(store - {j}, i, k);
      TotalPick(store - {k}, i, j);
      assert store - {j} - {k} == store - {k} - {j};
    }
  }

  lemma TotalPut(store: map<PositionId, Position>, i: nat, k: PositionId, p: Position)
    ensures TotalOn(store[k := p], i) ==
            TotalOn(store, i) + Weight(p, i) - if k in store then Weight(store[k], i) else 0
  {
    TotalPick(store[k := p], i, k);
    if k in store {
      TotalPick(store, i, k);
      assert store[k := p] - {k} == store - {k};
    } else {
      assert store[k := p] - {k} == store;
    }
  }

  // ----- what reconciliation puts there -----

  function HeldOn(hs: seq<Holding>, i: nat): int {
    if hs == [] then 0
    else HeldOn(hs[..|hs| - 1], i) + if hs[|hs| - 1].instrument == Some(i) then hs[|hs| - 1].quantity else 0
  }

  function RecoveredOn(hs: seq<Holding>, i: nat): int {
    if hs == [] then 0
    else
      var h := hs[|hs| - 1];
      RecoveredOn(hs[..|hs| - 1], i) + if Usable(h) && h.instrument == Some(i) then h.quantity else 0
  }

  // The broker lists an instrument once.
  ghost predicate ListedOnce(hs: seq<Holding>) {
    forall j, k :: 0 <= j < k < |hs| && hs[j].instrument.Some? ==> hs[j].instrument != hs[k].instrument
  }

  lemma {:induction false} ReconciledKeys(hs: seq<Holding>, now: int)
    ensures forall k :: k in Reconciled(map[], hs, now) ==>
              exists j :: 0 <= j < |hs| && Usable(hs[j]) && k == KeyOf(hs[j])
                          && Reconciled(map[], hs, now)[k].instrument == hs[j].instrument
  {
    if hs != [] {
      var n := |hs| - 1;
      ReconciledKeys(hs[..n], now);
      assert forall j :: 0 <= j < n ==> hs[..n][j] == hs[j];
    }
  }

  lemma {:induction false} ReconciledTotal(hs: seq<Holding>, now: int, i: nat)
    requires ListedOnce(hs)
    ensures TotalOn(Reconciled(map[], hs, now), i) == RecoveredOn(hs, i)
  {
    if hs != [] {
      var n := |hs| - 1;
      var rest := Reconciled(map[], hs[..n], now);
      ReconciledTotal(hs[..n], now, i);
      ReconciledKeys(hs[..n], now);
      if Usable(hs[n]) {
        TotalPut(rest, i, KeyOf(hs[n]), ToPosition(hs[n], now));
      }
    }
  }

  ghost predicate AllUsable(hs: seq<Holding>, i: nat) {
    forall k :: 0 <= k < |hs| && hs[k].instrument == Some(i) ==> Usable(hs[k])
  }

  lemma {:induction false} AllRecovered(hs: seq<Holding>, i: nat)
    requires AllUsable(hs, i)
    ensures RecoveredOn(hs, i) == HeldOn(hs, i)
  {
    if hs != [] {
      AllRecovered(hs[..|hs| - 1], i);
    }
  }

  // ----- sums over the broker's orders -----

  function Sum(n: nat, f: nat -> int): int {
    if n == 0 then 0 else Sum(n - 1, f) + f(n - 1)
  }

  lemma {:induction false} SumSplits(n: nat, f: nat -> int, g: nat -> int, h: nat -> int)
    requires forall o: nat :: o < n ==> f(o) == g(o) + h(o)
    ensures Sum(n, f) == Sum(n, g) + Sum(n, h)
  {
    if n > 0 {
      SumSplits(n - 1, f, g, h);
    }
  }

  lemma {:induction false} SumAtLeast(n: nat, f: nat -> int, g: nat -> int)
    requires forall o: nat :: o < n ==> f(o) <= g(o)
    ensures Sum(n, f) <= Sum(n, g)
  {
    if n > 0 {
      SumAtLeast(n - 1, f, g);
    }
  }

  lemma {:induction false} SumHasTerm(n: nat, f: nat -> int, o: nat)
    requires o < n && forall p: nat :: p < n ==> f(p) >= 0
    ensures Sum(n, f) >= f(o)
    decreases n
  {
    if o < n - 1 {
      SumHasTerm(n - 1, f, o);
    } else {
      SumNotNegative(n - 1, f);
    }
  }

  lemma {:induction false} SumNotNegative(n: nat, f: nat -> int)
    requires forall p: nat :: p < n ==> f(p) >= 0
    ensures Sum(n, f) >= 0
  {
    if n > 0 {
      SumNotNegative(n - 1, f);
    }
  }

  predicate On(b: seq<BrokerOrder>, o: nat, i: nat) {
    o < |b| && b[o].view.option == Some(i)
  }

  function Filled(b: seq<BrokerOrder>, o: nat): nat {
    if o < |b| then b[o].view.processed else 0
  }

  // Contracts an order has filled since the broker was in state b0.
  function Since(b0: seq<BrokerOrder>, b: seq<BrokerOrder>, i: nat): nat -> int {
    (o: nat) => if On(b, o, i) then Filled(b, o) - Filled(b0, o) else 0
  }

  function Books(m: Mgr, b: seq<BrokerOrder>, i: nat): nat -> int {
    (o: nat) => if On(b, o, i) then Held(m, o) else 0
  }

  // Filled before b0 by an order the manager has become responsible for: recovered, and booked again.
  function TwiceBy(b0: seq<BrokerOrder>, b: seq<BrokerOrder>, i: nat): nat -> int {
    (o: nat) => if On(b, o, i) && b[o].intent.Some? then Filled(b0, o) else 0
  }

  // Filled since b0 by an order the manager never became responsible for.
  function MissedBy(b0: seq<BrokerOrder>, b: seq<BrokerOrder>, i: nat): nat -> int {
    (o: nat) => if On(b, o, i) && b[o].intent.None? then Filled(b, o) - Filled(b0, o) else 0
  }

  // Filled by an order of the manager's and not in the store yet.
  function UnbookedBy(m: Mgr, b: seq<BrokerOrder>, i: nat): nat -> int {
    (o: nat) => if On(b, o, i) && b[o].intent.Some? then Filled(b, o) - Held(m, o) else 0
  }

  function Twice(b0: seq<BrokerOrder>, b: seq<BrokerOrder>, i: nat): int {
    Sum(|b|, TwiceBy(b0, b, i))
  }

  function Missed(b0: seq<BrokerOrder>, b: seq<BrokerOrder>, i: nat): int {
    Sum(|b|, MissedBy(b0, b, i))
  }

  function Unbooked(m: Mgr, b: seq<BrokerOrder>, i: nat): int {
    Sum(|b|, UnbookedBy(m, b, i))
  }

  // ----- the store, order by order -----

  // What the manager books under an order carries the order's instrument.
  ghost predicate RightAt(m: Mgr, b: seq<BrokerOrder>, o: nat) {
    && (o in m.orders ==> o < |b| && InstrumentOk(m.orders[o].optionId, b[o].view.option))
    && (OrderKey(o) in m.store ==> o < |b| && m.store[OrderKey(o)].instrument == b[o].view.option)
  }

  predicate InstrumentOk(known: Option<nat>, listed: Option<nat>) {
    known.Some? ==> known == listed
  }

  ghost predicate RightInstruments(s: Sys) {
    && (forall o: nat :: RightAt(s.mgr, s.broker, o))
    && (s.pc.Looked? ==> s.pc.id < |s.broker| && s.pc.seen.option == s.broker[s.pc.id].view.option)
  }

  lemma DecisionKeepsInstrument(cfg: Config, w: Tracked, v: OrderView, now: int)
    requires InstrumentOk(w.optionId, v.option)
    ensures var d := Decide(cfg, w, Some(v), now);
            && InstrumentOk(d.w.optionId, v.option) && d.w.orderId == w.orderId
            && (d.Promote? ==> PromotedPosition(d.w, d.filled, now).instrument == v.option)
  {
  }

  lemma ActKeepsInstruments(cfg: Config, s: Sys)
    requires Inv(cfg, s) && RightInstruments(s) && Enabled(cfg, s, Act)
    ensures RightInstruments(Apply(cfg, s, Act))
  {
    var id, m' := s.pc.id, Apply(cfg, s, Act).mgr;
    var w := s.mgr.orders[id];
    assert RightAt(s.mgr, s.broker, id) && w.orderId == id;
    DecisionKeepsInstrument(cfg, w, s.pc.seen, s.clock);
    DecisionIsLocal(s.mgr, Decide(cfg, w, Some(s.pc.seen), s.clock), s.clock);
    forall o: nat ensures RightAt(m', s.broker, o) {
      assert RightAt(s.mgr, s.broker, o);
    }
  }

  lemma DecisionIsLocal(m: Mgr, d: Decision, now: int)
    ensures var m' := ApplyDecision(m, d, now);
            && (forall o: nat :: o in m'.orders ==>
                  (o == d.w.orderId && m'.orders[o] == d.w) || (o in m.orders && m'.orders[o] == m.orders[o]))
            && (forall o: nat :: OrderKey(o) in m'.store ==>
                  || (OrderKey(o) in m.store && m'.store[OrderKey(o)] == m.store[OrderKey(o)])
                  || (d.Promote? && o == d.w.orderId && m'.store[OrderKey(o)] == PromotedPosition(d.w, d.filled, now)))
  {
  }

  lemma AdoptKeepsInstruments(cfg: Config, s: Sys, id: nat)
    requires RightInstruments(s) && Enabled(cfg, s, AdoptOrder(id))
    ensures RightInstruments(Apply(cfg, s, AdoptOrder(id)))
  {
    var s' := Apply(cfg, s, AdoptOrder(id));
    forall o: nat ensures RightAt(s'.mgr, s'.broker, o) {
      assert RightAt(s.mgr, s.broker, o);
    }
  }

  lemma PlaceKeepsInstruments(cfg: Config, s: Sys, step: Step)
    requires Inv(cfg, s) && RightInstruments(s) && step.PlaceAnswer? && Enabled(cfg, s, step)
    ensures RightInstruments(Apply(cfg, s, step))
  {
    var s' := Apply(cfg, s, step);
    forall o: nat ensures RightAt(s'.mgr, s'.broker, o) {
      assert RightAt(s.mgr, s.broker, o);
    }
  }

  lemma StepKeepsInstruments(cfg: Config, s: Sys, step: Step)
    requires Inv(cfg, s) && RightInstruments(s) && Enabled(cfg, s, step) && Faithful(step)
    ensures RightInstruments(Apply(cfg, s, step))
  {
    if step.Act? {
      ActKeepsInstruments(cfg, s);
    } else if step.AdoptOrder? {
      AdoptKeepsInstruments(cfg, s, step.id);
    } else if step.PlaceAnswer? {
      PlaceKeepsInstruments(cfg, s, step);
    } else {
      var s' := Apply(cfg, s, step);
      forall o: nat ensures RightAt(s'.mgr, s'.broker, o) {
        assert RightAt(s.mgr, s.broker, o);
      }
    }
  }

  lemma {:induction false} RunKeepsInstruments(cfg: Config, s: Sys, steps: seq<Step>, t: Sys)
    requires Inv(cfg, s) && RightInstruments(s) && Runs(cfg, s, steps, t) && AllFaithful(steps)
    ensures RightInstruments(t)
    decreases |steps|
  {
    if steps != [] {
      StepKeepsInv(cfg, s, steps[0]);
      StepKeepsInstruments(cfg, s, steps[0]);
      RunKeepsInstruments(cfg, Apply(cfg, s, steps[0]), steps[1..], t);
    }
  }

  // The store without the orders from n on.
  function UpTo(store: map<PositionId, Position>, n: nat): map<PositionId, Position> {
    map k | k in store && (k.OrderKey? ==> k.order < n) :: store[k]
  }

  lemma {:induction false} TotalUpTo(s: Sys, i: nat, n: nat)
    requires RightInstruments(s) && n <= |s.broker|
    ensures TotalOn(UpTo(s.mgr.store, n), i) == TotalOn(UpTo(s.mgr.store, 0), i) + Sum(n, Books(s.mgr, s.broker, i))
  {
    if n > 0 {
      var store, k := s.mgr.store, OrderKey(n - 1);
      TotalUpTo(s, i, n - 1);
      assert RightAt(s.mgr, s.broker, n - 1);
      if k in store {
        assert UpTo(store, n) == UpTo(store, n - 1)[k := store[k]];
        TotalPut(UpTo(store, n - 1), i, k, store[k]);
      } else {
        assert UpTo(store, n) == UpTo(store, n - 1);
      }
    }
  }

  lemma SameUnderOrders(m: Mgr, m': Mgr)
    requires SameRecovered(m, m')
    ensures UpTo(m'.store, 0) == UpTo(m.store, 0)
  {
  }

  // ----- every run -----

  lemma StepOnlyAdds(cfg: Config, s: Sys, step: Step)
    requires Inv(cfg, s) && Enabled(cfg, s, step) && Faithful(step)
    ensures SameRecovered(s.mgr, Apply(cfg, s, step).mgr)
    ensures forall o: nat :: Held(s.mgr, o) <= Held(Apply(cfg, s, step).mgr, o)
  {
    match step
    case Act => ActOnlyAdds(cfg, s);
    case AdoptOrder(id) =>
      AdoptOneIsLocal(s.mgr, Shown(s.broker, id), s.broker[id].view.state, s.clock);
      assert WellFormed(s.broker[id].view);
      assert s.broker[id].intent.Some? ==> Accounted(s.mgr, s.broker, id);
    case _ =>
  }

  lemma ActOnlyAdds(cfg: Config, s: Sys)
    requires Inv(cfg, s) && Enabled(cfg, s, Act)
    ensures SameRecovered(s.mgr, Apply(cfg, s, Act).mgr)
    ensures forall o: nat :: Held(s.mgr, o) <= Held(Apply(cfg, s, Act).mgr, o)
  {
    var id, w := s.pc.id, s.mgr.orders[s.pc.id];
    assert InStep(cfg, s.mgr, s.broker, s.wanted, w) && Accounted(s.mgr, s.broker, id);
    DecideKeepsIdentity(cfg, w, Some(s.pc.seen), s.clock);
    if Decide(cfg, w, Some(s.pc.seen), s.clock).Promote? {
      PromotesProcessed(cfg, w, s.pc.seen, s.clock);
    }
  }

  lemma {:induction false} RunOnlyAdds(cfg: Config, s: Sys, steps: seq<Step>, t: Sys)
    requires Inv(cfg, s) && Runs(cfg, s, steps, t) && AllFaithful(steps)
    ensures SameRecovered(s.mgr, t.mgr) && forall o: nat :: Held(s.mgr, o) <= Held(t.mgr, o)
    decreases |steps|
  {
    if steps != [] {
      var s' := Apply(cfg, s, steps[0]);
      StepKeepsInv(cfg, s, steps[0]);
      StepOnlyAdds(cfg, s, steps[0]);
      RunOnlyAdds(cfg, s', steps[1..], t);
      assert forall o: nat :: Held(s.mgr, o) <= Held(s'.mgr, o) <= Held(t.mgr, o);
    }
  }

  // A process that has just reconciled: the store has what the holdings listing had, and nothing is tracked.
  ghost predicate Reconciling(s: Sys, hs: seq<Holding>, now: int) {
    Fresh(s) && s.mgr.store == Reconciled(map[], hs, now) && ListedOnce(hs)
  }

  // What the broker holds of an instrument: what it listed then, and what its orders have filled since.
  function Holds(hs: seq<Holding>, b0: seq<BrokerOrder>, b: seq<BrokerOrder>, i: nat): int {
    HeldOn(hs, i) + Sum(|b|, Since(b0, b, i))
  }

  lemma StoreTotal(cfg: Config, s: Sys, hs: seq<Holding>, now: int, steps: seq<Step>, t: Sys, i: nat)
    requires Reconciling(s, hs, now) && Runs(cfg, s, steps, t) && AllFaithful(steps)
    ensures Inv(cfg, t)
    ensures TotalOn(t.mgr.store, i) == RecoveredOn(hs, i) + Sum(|t.broker|, Books(t.mgr, t.broker, i))
  {
    FreshIsInv(cfg, s);
    RunKeepsInv(cfg, s, steps, t);
    RunKeepsInstruments(cfg, s, steps, t);
    RunOnlyAdds(cfg, s, steps, t);
    SameUnderOrders(s.mgr, t.mgr);
    TotalUpTo(t, i, |t.broker|);
    assert forall o: nat :: OrderKey(o) in t.mgr.store ==> o < |t.broker|;
    assert UpTo(t.mgr.store, |t.broker|) == t.mgr.store;
    assert UpTo(s.mgr.store, 0) == s.mgr.store;
    ReconciledTotal(hs, now, i);
  }

  // Order by order, booked minus filled since is counted twice minus missed minus not booked yet.
  lemma BooksBalance(cfg: Config, b0: seq<BrokerOrder>, t: Sys, i: nat)
    requires Inv(cfg, t)
    ensures Sum(|t.broker|, Books(t.mgr, t.broker, i)) - Sum(|t.broker|, Since(b0, t.broker, i)) ==
            Twice(b0, t.broker, i) - Missed(b0, t.broker, i) - Unbooked(t.mgr, t.broker, i)
  {
    var n, b := |t.broker|, t.broker;
    var books, since := Books(t.mgr, b, i), Since(b0, b, i);
    var twice, missed, unbooked := TwiceBy(b0, b, i), MissedBy(b0, b, i), UnbookedBy(t.mgr, b, i);
    var over: nat -> int := (o: nat) => twice(o) - missed(o) - unbooked(o);
    var rest: nat -> int := (o: nat) => twice(o) - missed(o);
    forall o: nat | o < n
      ensures books(o) == since(o) + over(o)
    {
      assert b[o].intent.None? ==> Held(t.mgr, o) == 0;
    }
    SumSplits(n, books, since, over);
    SumSplits(n, rest, over, unbooked);
    SumSplits(n, twice, rest, missed);
  }

  // Held contracts that reconciliation could not read.
  function Unread(hs: seq<Holding>, i: nat): int {
    HeldOn(hs, i) - RecoveredOn(hs, i)
  }

  // MAIN RESULT. At any moment of any fault-free run that began when the holdings were listed, through adoption
  // and after, the store's total on an instrument is what the broker holds, plus what was filled before the
  // listing by orders taken up since, minus what was filled after it by orders never taken up, what has not been
  // booked yet and what was not recovered. So the two agree exactly when contracts counted twice make up for
  // those left out.
  lemma StartupCountsRightIff(cfg: Config, s: Sys, hs: seq<Holding>, now: int, steps: seq<Step>, t: Sys, i: nat)
    requires Reconciling(s, hs, now) && Runs(cfg, s, steps, t) && AllFaithful(steps)
    ensures var twice, missed := Twice(s.broker, t.broker, i), Missed(s.broker, t.broker, i);
            var unbooked, unread := Unbooked(t.mgr, t.broker, i), Unread(hs, i);
            && TotalOn(t.mgr.store, i) == Holds(hs, s.broker, t.broker, i) + twice - missed - unbooked - unread
            && (TotalOn(t.mgr.store, i) == Holds(hs, s.broker, t.broker, i) <==> twice == missed + unbooked + unread)
            && ((forall id :: id in t.mgr.orders ==> Held(t.mgr, id) == Filled(t.broker, id)) ==> unbooked == 0)
            && (AllUsable(hs, i) ==> unread == 0)
  {
    StoreTotal(cfg, s, hs, now, steps, t, i);
    BooksBalance(cfg, s.broker, t, i);
    if AllUsable(hs, i) {
      AllRecovered(hs, i);
    }
    if forall id :: id in t.mgr.orders ==> Held(t.mgr, id) == Filled(t.broker, id) {
      AllBooked(cfg, t, i);
    }
  }

  lemma AllBooked(cfg: Config, t: Sys, i: nat)
    requires Inv(cfg, t) && forall id :: id in t.mgr.orders ==> Held(t.mgr, id) == Filled(t.broker, id)
    ensures Unbooked(t.mgr, t.broker, i) == 0
  {
    var none := UnbookedBy(t.mgr, t.broker, i);
    forall o: nat | o < |t.broker|
      ensures none(o) == none(o) + none(o)
    {
      assert t.broker[o].intent.Some? ==> Accounted(t.mgr, t.broker, o);
    }
    SumSplits(|t.broker|, none, none, none);
  }

  // No run of the manager repairs a double count: while nothing is missed, unbooked or unread, the store exceeds
  // what the broker holds by at least what any order it took up had filled before the listing.
  lemma DoubleCountLasts(
    cfg: Config, s: Sys, hs: seq<Holding>, now: int, early: seq<Step>, u: Sys, late: seq<Step>, t: Sys, o: nat, i: nat)
    requires Reconciling(s, hs, now)
    requires Runs(cfg, s, early, u) && AllFaithful(early) && Runs(cfg, u, late, t) && AllFaithful(late)
    requires o < |s.broker| && On(s.broker, o, i) && o < |u.broker| && u.broker[o].intent.Some?
    ensures TotalOn(t.mgr.store, i) + Missed(s.broker, t.broker, i) + Unbooked(t.mgr, t.broker, i) + Unread(hs, i)
            >= Holds(hs, s.broker, t.broker, i) + s.broker[o].view.processed
    ensures TotalOn(t.mgr.store, i) >= TotalOn(u.mgr.store, i)
  {
    RunsAppend(cfg, s, early, u, late, t);
    StartupCountsRightIff(cfg, s, hs, now, early + late, t, i);
    RunKeepsOrder(cfg, s, early, u, o);
    RunKeepsOrder(cfg, u, late, t, o);
    SumHasTerm(|t.broker|, TwiceBy(s.broker, t.broker, i), o);
    StoreTotal(cfg, s, hs, now, early, u, i);
    StoreTotal(cfg, s, hs, now, early + late, t, i);
    StoreNeverFalls(cfg, u, late, t, i);
  }

  lemma StoreNeverFalls(cfg: Config, u: Sys, late: seq<Step>, t: Sys, i: nat)
    requires Inv(cfg, u) && Runs(cfg, u, late, t) && AllFaithful(late)
    ensures Sum(|u.broker|, Books(u.mgr, u.broker, i)) <= Sum(|t.broker|, Books(t.mgr, t.broker, i))
  {
    RunOnlyAdds(cfg, u, late, t);
    RunKeepsInv(cfg, u, late, t);
    var before, after := Books(u.mgr, u.broker, i), Books(t.mgr, t.broker, i);
    forall o: nat | o < |u.broker|
      ensures before(o) <= after(o)
    {
      RunKeepsOrder(cfg, u, late, t, o);
    }
    SumAtLeast(|u.broker|, before, after);
    RunKeepsLength(cfg, u, late, t);
    HeldNotNegative(cfg, t);
    SumGrows(|u.broker|, |t.broker|, after);
  }

  lemma HeldNotNegative(cfg: Config, t: Sys)
    requires Inv(cfg, t)
    ensures forall o: nat :: Held(t.mgr, o) >= 0
  {
    forall o: nat ensures Held(t.mgr, o) >= 0 {
      if OrderKey(o) in t.mgr.store {
        assert Accounted(t.mgr, t.broker, o);
      }
    }
  }

  lemma {:induction false} SumGrows(m: nat, n: nat, f: nat -> int)
    requires m <= n && forall o: nat :: f(o) >= 0
    ensures Sum(m, f) <= Sum(n, f)
    decreases n
  {
    if m < n {
      SumGrows(m, n - 1, f);
    }
  }

  lemma {:induction false} RunKeepsLength(cfg: Config, s: Sys, steps: seq<Step>, t: Sys)
    requires Runs(cfg, s, steps, t)
    ensures |s.broker| <= |t.broker|
    decreases |steps|
  {
    if steps != [] {
      RunKeepsLength(cfg, Apply(cfg, s, steps[0]), steps[1..], t);
    }
  }

  // ----- three concrete startups -----

  const SPY := Contract("SPY", 30, 500.0, Call, 0.0, 0.0)

  const PART_FILLED := FIVE_WORKING.(state := PartiallyFilled, processed := 2, premium := 200.0)

  function OneOrder(v: OrderView, store: map<PositionId, Position>): Sys {
    Sys(Mgr(map[], store), [BrokerOrder(v, None, Some(SPY))], [], 0, Idle)
  }

  // Counted twice: two of five had filled when the holdings were listed, and the order is adopted. The broker
  // holds two; the store has four.
  lemma PartFilledExample(cfg: Config, now: int) returns (s: Sys, t: Sys)
    ensures var hs := [Holding(Some(7), "SPY", Some(30), 500.0, Some(Call), 2, 100.0, None)];
            && Reconciling(s, hs, now) && AllUsable(hs, 7) && Runs(cfg, s, [AdoptOrder(0)], t)
            && Holds(hs, s.broker, t.broker, 7) == 2 && TotalOn(t.mgr.store, 7) == 4
  {
    var hs := [Holding(Some(7), "SPY", Some(30), 500.0, Some(Call), 2, 100.0, None)];
    s := OneOrder(PART_FILLED, Reconciled(map[], hs, now));
    assert hs[..0] == [];
    ReconciledKeys(hs, now);
    t := Apply(cfg, s, AdoptOrder(0));
    OneStep(cfg, s, AdoptOrder(0));
    StartupCountsRightIff(cfg, s, hs, now, [AdoptOrder(0)], t, 7);
    assert HeldOn(hs, 7) == 2;
    assert Sum(1, Since(s.broker, t.broker, 7)) == 0 && Sum(1, TwiceBy(s.broker, t.broker, 7)) == 2;
    assert Sum(1, MissedBy(s.broker, t.broker, 7)) == 0 && Sum(1, UnbookedBy(t.mgr, t.broker, 7)) == 0;
  }

  lemma SomethingListed(b: seq<BrokerOrder>, state: OrderState, ids: seq<nat>)
    requires MayList(b, state, ids)
    ensures ids == [] || exists o: nat :: o < |b| && b[o].view.state == state
  {
    if ids != [] {
      assert b[ids[0]].view.state == state;
    }
  }

  // Missed: five fill between the holdings listing and the sweep, whose queries then show nothing. The broker
  // holds five; the store has none, and nothing watches them.
  lemma FilledBetweenExample(cfg: Config, now: int) returns (s: Sys, t: Sys)
    ensures && Reconciling(s, [], now) && Runs(cfg, s, [Evolve(0, FIVE_FILLED)], t)
            && (forall state, ids :: Adoptable(state) && MayList(t.broker, state, ids) ==> ids == [])
            && Holds([], s.broker, t.broker, 7) == 5 && TotalOn(t.mgr.store, 7) == 0 && t.mgr.orders == map[]
  {
    s := OneOrder(FIVE_WORKING, map[]);
    t := Apply(cfg, s, Evolve(0, FIVE_FILLED));
    OneStep(cfg, s, Evolve(0, FIVE_FILLED));
    assert Sum(1, Since(s.broker, t.broker, 7)) == 5;
    forall state, ids | Adoptable(state) && MayList(t.broker, state, ids)
      ensures ids == []
    {
      SomethingListed(t.broker, state, ids);
    }
  }

  // Right all the same: two fill after the holdings listing, and the order is adopted part-filled.
  lemma FilledThenAdoptedExample(cfg: Config, now: int) returns (s: Sys, t: Sys)
    ensures && Reconciling(s, [], now) && Runs(cfg, s, [Evolve(0, PART_FILLED), AdoptOrder(0)], t)
            && |t.broker| == 1 && t.broker[0].intent.Some? && t.broker[0].view.processed == 2
            && Holds([], s.broker, t.broker, 7) == 2 && TotalOn(t.mgr.store, 7) == 2
  {
    s := OneOrder(FIVE_WORKING, map[]);
    t := FilledThenAdopted(cfg, s);
    StartupCountsRightIff(cfg, s, [], now, [Evolve(0, PART_FILLED), AdoptOrder(0)], t, 7);
    assert Sum(1, Since(s.broker, t.broker, 7)) == 2 && Sum(1, TwiceBy(s.broker, t.broker, 7)) == 0;
    assert Sum(1, MissedBy(s.broker, t.broker, 7)) == 0 && Sum(1, UnbookedBy(t.mgr, t.broker, 7)) == 0;
  }

  lemma FilledThenAdopted(cfg: Config, s: Sys) returns (t: Sys)
    requires s == OneOrder(FIVE_WORKING, map[])
    ensures Runs(cfg, s, [Evolve(0, PART_FILLED), AdoptOrder(0)], t)
    ensures |t.broker| == 1 && t.broker[0] == BrokerOrder(PART_FILLED, Some(0), Some(SPY)) && Held(t.mgr, 0) == 2
  {
    var u := Apply(cfg, s, Evolve(0, PART_FILLED));
    t := Apply(cfg, u, AdoptOrder(0));
    OneStep(cfg, u, AdoptOrder(0));
    RunsFrom(cfg, s, Evolve(0, PART_FILLED), [AdoptOrder(0)], t);
    assert [Evolve(0, PART_FILLED)] + [AdoptOrder(0)] == [Evolve(0, PART_FILLED), AdoptOrder(0)];
  }
}
