/** What the positions in the store cost, over every run of the order manager
    (src/trader/live/order_manager.py). */
module OrderCosts {
  import opened Common
  import opened Schemas
  import opened Lifecycle
  import opened Adoption
  import opened OrderSystem
  import opened OrderSafety

  // The broker reports what an order has cost so far; it changes only with what the order has filled.
  ghost predicate ReportsCost(s: Sys, step: Step) {
    step.Evolve? && step.id < |s.broker| && step.to.processed == s.broker[step.id].view.processed ==>
      step.to.premium == s.broker[step.id].view.premium
  }

  ghost predicate AllReportCost(cfg: Config, s: Sys, steps: seq<Step>)
    decreases |steps|
  {
    steps == [] ||
    (Enabled(cfg, s, steps[0]) && ReportsCost(s, steps[0]) && AllReportCost(cfg, Apply(cfg, s, steps[0]), steps[1..]))
  }

  // The position costs, all shares together, what the broker was paid.
  predicate CostsWhatWasPaid(p: Position, v: OrderView) {
    v.premium > 0.0 ==> p.entry * (v.processed * 100) as real == v.premium
  }

  // An order the manager is done with: every contract it filled is in the store, at what it cost.
  ghost predicate BookedAtCost(m: Mgr, b: seq<BrokerOrder>, o: nat)
    requires o < |b|
  {
    b[o].intent.Some? && o !in m.orders && b[o].view.processed > 0 ==>
      OrderKey(o) in m.store && CostsWhatWasPaid(m.store[OrderKey(o)], b[o].view)
  }

  ghost predicate AllBookedAtCost(s: Sys) {
    forall o: nat :: o < |s.broker| ==> BookedAtCost(s.mgr, s.broker, o)
  }

  lemma PromotedAtCost(w: Tracked, v: OrderView, now: int)
    requires v.processed > 0
    ensures CostsWhatWasPaid(PromotedPosition(w, v, now), v)
  {
    if v.premium > 0.0 {
      EntryIsAverageCost(v, v.processed, w.price);
    }
  }

  lemma ActBooksAtCost(cfg: Config, s: Sys)
    requires Inv(cfg, s) && AllBookedAtCost(s) && Enabled(cfg, s, Act)
    ensures AllBookedAtCost(Apply(cfg, s, Act))
  {
    var id, s' := s.pc.id, Apply(cfg, s, Act);
    var w, v := s.mgr.orders[id], s.pc.seen;
    assert WellFormed(v);
    DecideKeepsIdentity(cfg, w, Some(v), s.clock);
    forall o: nat | o < |s'.broker|
      ensures BookedAtCost(s'.mgr, s'.broker, o)
    {
      assert BookedAtCost(s.mgr, s.broker, o);
      if o == id && Final(v.state) && v.processed > 0 {
        PromotedAtCost(WithOption(w, v), v, s.clock);
      }
    }
  }

  lemma AdoptBooksAtCost(cfg: Config, s: Sys, id: nat)
    requires Inv(cfg, s) && AllBookedAtCost(s) && Enabled(cfg, s, AdoptOrder(id))
    ensures AllBookedAtCost(Apply(cfg, s, AdoptOrder(id)))
  {
    var s', v := Apply(cfg, s, AdoptOrder(id)), s.broker[id].view;
    forall o: nat | o < |s'.broker|
      ensures BookedAtCost(s'.mgr, s'.broker, o)
    {
      assert BookedAtCost(s.mgr, s.broker, o);
      if o == id && v.processed > 0 && v.premium > 0.0 {
        EntryIsAverageCost(v, v.processed, v.limit);
      }
    }
  }

  lemma EvolveBooksAtCost(cfg: Config, s: Sys, id: nat, to: OrderView)
    requires Inv(cfg, s) && AllBookedAtCost(s) && Enabled(cfg, s, Evolve(id, to)) && ReportsCost(s, Evolve(id, to))
    ensures AllBookedAtCost(Apply(cfg, s, Evolve(id, to)))
  {
    var s' := Apply(cfg, s, Evolve(id, to));
    forall o: nat | o < |s'.broker|
      ensures BookedAtCost(s'.mgr, s'.broker, o)
    {
      assert BookedAtCost(s.mgr, s.broker, o);
      assert s.broker[o].intent.Some? ==> Accounted(s.mgr, s.broker, o);
    }
  }

  lemma StepBooksAtCost(cfg: Config, s: Sys, step: Step)
    requires Inv(cfg, s) && AllBookedAtCost(s) && Enabled(cfg, s, step) && Faithful(step) && ReportsCost(s, step)
    ensures AllBookedAtCost(Apply(cfg, s, step))
  {
    if step.Act? {
      ActBooksAtCost(cfg, s);
    } else if step.AdoptOrder? {
      AdoptBooksAtCost(cfg, s, step.id);
    } else if step.Evolve? {
      EvolveBooksAtCost(cfg, s, step.id, step.to);
    } else {
      var s' := Apply(cfg, s, step);
      forall o: nat | o < |s'.broker|
        ensures BookedAtCost(s'.mgr, s'.broker, o)
      {
        assert o < |s.broker| ==> BookedAtCost(s.mgr, s.broker, o);
      }
    }
  }

  lemma {:induction false} RunBooksAtCost(cfg: Config, s: Sys, steps: seq<Step>, t: Sys)
    requires Inv(cfg, s) && AllBookedAtCost(s) && Runs(cfg, s, steps, t) && AllFaithful(steps)
    requires AllReportCost(cfg, s, steps)
    ensures Inv(cfg, t) && AllBookedAtCost(t)
    decreases |steps|
  {
    if steps != [] {
      StepKeepsInv(cfg, s, steps[0]);
      StepBooksAtCost(cfg, s, steps[0]);
      RunBooksAtCost(cfg, Apply(cfg, s, steps[0]), steps[1..], t);
    }
  }

  // MAIN RESULT. However broker, manager and startup interleave, once an order is no longer tracked the store
  // holds exactly the contracts it filled, and, when the broker reports what they cost, their entry premiums add
  // up to exactly that.
  lemma StoreCostsWhatWasPaid(cfg: Config, s: Sys, steps: seq<Step>, t: Sys, o: nat)
    requires Fresh(s) && Runs(cfg, s, steps, t) && AllFaithful(steps) && AllReportCost(cfg, s, steps)
    requires o < |t.broker| && t.broker[o].intent.Some? && o !in t.mgr.orders && t.broker[o].view.processed > 0
    ensures OrderKey(o) in t.mgr.store
    ensures var p, v := t.mgr.store[OrderKey(o)], t.broker[o].view;
            p.quantity == v.processed && CostsWhatWasPaid(p, v)
  {
    FreshIsInv(cfg, s);
    RunBooksAtCost(cfg, s, steps, t);
    assert BookedAtCost(t.mgr, t.broker, o) && Accounted(t.mgr, t.broker, o);
  }
}
