/** What holds after every run of the order manager against its broker. */
module OrderSafety {
  import opened Common
  import opened Schemas
  import opened Ticks
  import opened Lifecycle
  import opened Adoption
  import opened OrderSystem
  import Risk = RiskEngines
  import RiskFacts = RiskTheorems

  // `t` is reached from `s` by the given steps.
  ghost predicate Runs(cfg: Config, s: Sys, steps: seq<Step>, t: Sys)
    decreases |steps|
  {
    if steps == [] then s == t
    else Enabled(cfg, s, steps[0]) && Runs(cfg, Apply(cfg, s, steps[0]), steps[1..], t)
  }

  ghost predicate AllFaithful(steps: seq<Step>) {
    forall k :: 0 <= k < |steps| ==> Faithful(steps[k])
  }

  // A manager that tracks nothing and has promoted nothing, over whatever positions were recovered;
  // what the broker already has is nobody's intent.
  ghost predicate Fresh(s: Sys) {
    && s.mgr.orders == map[] && (forall id: nat :: OrderKey(id) !in s.mgr.store) && s.wanted == [] && s.pc.Idle?
    && forall o: nat :: o < |s.broker| ==> WellFormed(s.broker[o].view) && s.broker[o].intent.None?
  }

  lemma FreshIsInv(cfg: Config, s: Sys)
    requires Fresh(s)
    ensures Inv(cfg, s)
  {
  }

  lemma {:induction false} RunKeepsInv(cfg: Config, s: Sys, steps: seq<Step>, t: Sys)
    requires Inv(cfg, s) && Runs(cfg, s, steps, t) && AllFaithful(steps)
    ensures Inv(cfg, t)
    decreases |steps|
  {
    if steps != [] {
      StepKeepsInv(cfg, s, steps[0]);
      RunKeepsInv(cfg, Apply(cfg, s, steps[0]), steps[1..], t);
    }
  }

  // A poll that nothing interrupts is the manager's own `Check`: the lookup and the decision, and then
  // the answer to the cancel or to the place it asked for.
  lemma PollStepsAreCheck(cfg: Config, s: Sys, id: nat, r: Reply)
    requires Inv(cfg, s) && Enabled(cfg, s, Lookup(id))
    requires r.look == Some(s.broker[id].view) && r.now == r.later == s.clock
    ensures var s2 := Apply(cfg, Apply(cfg, s, Lookup(id)), Act);
            && (s2.pc.Idle? ==> s2.mgr == Check(cfg, s.mgr, id, r))
            && (s2.pc.Cancelling? ==>
                  && s2.pc.id in s2.mgr.orders
                  && OnCancel(s2.mgr, s2.pc.id, r.cancelOk, s2.clock) == Check(cfg, s.mgr, id, r))
            && (s2.pc.Replacing? ==>
                  OnPlace(cfg, s2.mgr, s2.pc.w, r.quote, r.fetched, r.placed, s2.clock) == Check(cfg, s.mgr, id, r))
  {
    DecideKeepsIdentity(cfg, s.mgr.orders[id], r.look, r.now);
  }

  // ----- totals over one chain -----

  function ChainHeld(m: Mgr, b: seq<BrokerOrder>, i: nat): int {
    if b == [] then 0
    else ChainHeld(m, b[..|b| - 1], i) + if b[|b| - 1].intent == Some(i) then Held(m, |b| - 1) else 0
  }

  function ChainSpent(b: seq<BrokerOrder>, i: nat): real {
    if b == [] then 0.0
    else ChainSpent(b[..|b| - 1], i) + if b[|b| - 1].intent == Some(i) then b[|b| - 1].view.premium else 0.0
  }

  lemma {:induction false} DeadChainFillsNothing(b: seq<BrokerOrder>, i: nat)
    requires forall o: nat :: o < |b| && b[o].intent == Some(i) ==> Dead(b[o].view)
    ensures ChainFilled(b, i) == 0
  {
    if b != [] {
      DeadChainFillsNothing(b[..|b| - 1], i);
    }
  }

  // Only the newest order of a chain can have filled, so the chain fills no more than one order may.
  lemma {:induction false} ChainFillsAtMost(b: seq<BrokerOrder>, i: nat, q: nat)
    requires OnlyNewestMatters(b)
    requires forall o: nat :: o < |b| && b[o].intent == Some(i) ==> b[o].view.processed <= q
    ensures ChainFilled(b, i) <= q
  {
    if b != [] {
      var n := |b| - 1;
      var rest := b[..n];
      assert forall o: nat, p: nat :: o < n && p < n ==> SameChain(rest, o, p) == SameChain(b, o, p);
      if b[n].intent == Some(i) {
        assert forall o: nat :: o < n && rest[o].intent == Some(i) ==> SameChain(b, o, n);
        DeadChainFillsNothing(rest, i);
      } else {
        ChainFillsAtMost(rest, i, q);
      }
    }
  }

  // The store never counts a contract twice, and counts all of them once nothing is tracked.
  lemma {:induction false} StoreMatchesFills(m: Mgr, b: seq<BrokerOrder>, i: nat)
    requires Conserved(m, b)
    ensures ChainHeld(m, b, i) <= ChainFilled(b, i)
    ensures (forall o: nat :: o < |b| && b[o].intent == Some(i) ==> o !in m.orders) ==>
              ChainHeld(m, b, i) == ChainFilled(b, i)
  {
    if b != [] {
      var rest := b[..|b| - 1];
      assert forall o: nat :: o < |rest| && Accounted(m, b, o) ==> Accounted(m, rest, o);
      assert b[|b| - 1].intent.Some? ==> Accounted(m, b, |b| - 1);
      StoreMatchesFills(m, rest, i);
    }
  }

  lemma FillsWithinWanted(cfg: Config, t: Sys)
    requires Inv(cfg, t)
    ensures forall i: nat :: i < |t.wanted| ==> ChainFilled(t.broker, i) <= t.wanted[i]
  {
    forall i: nat | i < |t.wanted|
      ensures ChainFilled(t.broker, i) <= t.wanted[i]
    {
      ChainFillsAtMost(t.broker, i, t.wanted[i]);
    }
  }

  lemma StoreWithinFills(cfg: Config, t: Sys)
    requires Inv(cfg, t)
    ensures forall i: nat :: ChainHeld(t.mgr, t.broker, i) <= ChainFilled(t.broker, i)
    ensures forall i: nat ::
              (forall o: nat :: o < |t.broker| && t.broker[o].intent == Some(i) ==> o !in t.mgr.orders) ==>
              ChainHeld(t.mgr, t.broker, i) == ChainFilled(t.broker, i)
  {
    forall i: nat
      ensures ChainHeld(t.mgr, t.broker, i) <= ChainFilled(t.broker, i)
      ensures (forall o: nat :: o < |t.broker| && t.broker[o].intent == Some(i) ==> o !in t.mgr.orders) ==>
                ChainHeld(t.mgr, t.broker, i) == ChainFilled(t.broker, i)
    {
      StoreMatchesFills(t.mgr, t.broker, i);
    }
  }

  // MAIN RESULT. In every interleaving of fills, cancels and polls that starts from a fresh manager
  // (or any state of the invariant): one intent has at most one order that is not over, its chain
  // fills at most what was wanted over at most max_replacements + 1 orders, and every filled contract
  // belongs to an order that is tracked or is in the store with exactly the broker's quantity.
  lemma EveryInterleavingIsSafe(cfg: Config, s: Sys, steps: seq<Step>, t: Sys)
    requires Fresh(s) || Inv(cfg, s)
    requires Runs(cfg, s, steps, t) && AllFaithful(steps)
    ensures forall o: nat, p: nat :: o < p < |t.broker| && SameChain(t.broker, o, p) ==>
              Final(t.broker[o].view.state) && t.broker[o].view.processed == 0
    ensures forall i: nat :: i < |t.wanted| ==>
              ChainFilled(t.broker, i) <= t.wanted[i] && ChainLength(t.broker, i) <= cfg.maxReplacements + 1
    ensures forall o: nat :: o < |t.broker| && t.broker[o].intent.Some? && o !in t.mgr.orders ==>
              Over(t.broker[o].view) && Held(t.mgr, o) == t.broker[o].view.processed
    ensures forall i: nat :: ChainHeld(t.mgr, t.broker, i) <= ChainFilled(t.broker, i)
    ensures forall i: nat ::
              (forall o: nat :: o < |t.broker| && t.broker[o].intent == Some(i) ==> o !in t.mgr.orders) ==>
              ChainHeld(t.mgr, t.broker, i) == ChainFilled(t.broker, i)
  {
    if Fresh(s) {
      FreshIsInv(cfg, s);
    }
    RunKeepsInv(cfg, s, steps, t);
    FillsWithinWanted(cfg, t);
    StoreWithinFills(cfg, t);
    forall o: nat | o < |t.broker| && t.broker[o].intent.Some? && o !in t.mgr.orders
      ensures Over(t.broker[o].view) && Held(t.mgr, o) == t.broker[o].view.processed
    {
      assert Accounted(t.mgr, t.broker, o);
    }
  }

  // ----- what the two faults cost -----

  // The broker knows the order and the manager does not.
  ghost predicate Forgotten(s: Sys, id: nat) {
    && id < |s.broker| && WellFormed(s.broker[id].view) && id !in s.mgr.orders
    && (forall k :: k in s.mgr.orders ==> s.mgr.orders[k].orderId == k)
  }

  // No startup in between takes the order up again.
  ghost predicate NotAdopted(steps: seq<Step>, id: nat) {
    forall k :: 0 <= k < |steps| ==> steps[k] != AdoptOrder(id)
  }

  lemma StepKeepsForgotten(cfg: Config, s: Sys, step: Step, id: nat)
    requires Forgotten(s, id) && Enabled(cfg, s, step) && step != AdoptOrder(id)
    ensures var s' := Apply(cfg, s, step);
            && Forgotten(s', id) && Held(s'.mgr, id) == Held(s.mgr, id)
            && (s'.broker[id].view == s.broker[id].view || Evolves(s.broker[id].view, s'.broker[id].view))
  {
    match step
    case Act => DecideKeepsIdentity(cfg, s.mgr.orders[s.pc.id], Some(s.pc.seen), s.clock);
    case AdoptOrder(o) => AdoptOneIsLocal(s.mgr, Shown(s.broker, o), s.broker[o].view.state, s.clock);
    case _ =>
  }

  // Until a startup takes it up, no step of any run, faults included, tracks a forgotten order again or
  // books what it fills.
  lemma {:induction false} ForgottenUntilAdopted(cfg: Config, s: Sys, steps: seq<Step>, t: Sys, id: nat)
    requires Forgotten(s, id) && Runs(cfg, s, steps, t) && NotAdopted(steps, id)
    ensures Forgotten(t, id) && Held(t.mgr, id) == Held(s.mgr, id)
    ensures s.broker[id].view.processed <= t.broker[id].view.processed
    ensures Over(s.broker[id].view) ==> t.broker[id].view.processed == s.broker[id].view.processed
    decreases |steps|
  {
    if steps != [] {
      StepKeepsForgotten(cfg, s, steps[0], id);
      ForgottenUntilAdopted(cfg, Apply(cfg, s, steps[0]), steps[1..], t, id);
    }
  }

  // In every state that can be reached before a restart, the store has all that the order filled.
  ghost predicate NothingLost(cfg: Config, s: Sys, id: nat) {
    forall steps, t :: Runs(cfg, s, steps, t) && NotAdopted(steps, id) && id < |t.broker| ==>
      Held(t.mgr, id) == t.broker[id].view.processed
  }

  lemma ForgottenLosesNothingIff(cfg: Config, s: Sys, id: nat)
    requires Forgotten(s, id) && Held(s.mgr, id) <= s.broker[id].view.processed
    ensures NothingLost(cfg, s, id) <==> Over(s.broker[id].view) && Held(s.mgr, id) == s.broker[id].view.processed
  {
    var v := s.broker[id].view;
    if Over(v) && Held(s.mgr, id) == v.processed {
      forall steps, t | Runs(cfg, s, steps, t) && NotAdopted(steps, id) && id < |t.broker|
        ensures Held(t.mgr, id) == t.broker[id].view.processed
      {
        ForgottenUntilAdopted(cfg, s, steps, t, id);
      }
    } else if NothingLost(cfg, s, id) {
      assert Runs(cfg, s, [], s) && NotAdopted([], id);
      var more := Evolve(id, v.(state := PartiallyFilled, processed := v.processed + 1, pending := None));
      var t := Apply(cfg, s, more);
      assert Runs(cfg, t, [], t) && [more][1..] == [] && NotAdopted([more], id);
      assert Runs(cfg, s, [more], t);
    }
  }

  // Dropping an order because its lookup came back empty loses nothing before a restart exactly when the order was
  // over and what it had filled was in the store already.
  lemma EmptyLookupSafeIff(cfg: Config, s: Sys, id: nat)
    requires Inv(cfg, s) && Enabled(cfg, s, LookupEmpty(id))
    ensures id < |s.broker|
    ensures var v := s.broker[id].view;
            NothingLost(cfg, Apply(cfg, s, LookupEmpty(id)), id) <==> Over(v) && Held(s.mgr, id) == v.processed
  {
    assert InStep(cfg, s.mgr, s.broker, s.wanted, s.mgr.orders[id]) && Accounted(s.mgr, s.broker, id);
    ForgottenLosesNothingIff(cfg, Apply(cfg, s, LookupEmpty(id)), id);
  }

  // Losing the id of a replacement loses nothing before a restart exactly when it was over at once
  // without filling anything.
  lemma LostReplacementSafeIff(cfg: Config, s: Sys, v: OrderView)
    requires Inv(cfg, s) && Enabled(cfg, s, PlaceLost(v))
    ensures NothingLost(cfg, Apply(cfg, s, PlaceLost(v)), |s.broker|) <==> Over(v) && v.processed == 0
  {
    assert forall id :: id in s.mgr.orders ==> InStep(cfg, s.mgr, s.broker, s.wanted, s.mgr.orders[id]);
    ForgottenLosesNothingIff(cfg, Apply(cfg, s, PlaceLost(v)), |s.broker|);
  }

  // So does losing the id of the first order.
  lemma LostSubmissionSafeIff(cfg: Config, s: Sys, v: OrderView, c: Candidate)
    requires Inv(cfg, s) && Enabled(cfg, s, SubmitLost(v, c))
    ensures NothingLost(cfg, Apply(cfg, s, SubmitLost(v, c)), |s.broker|) <==> Over(v) && v.processed == 0
  {
    assert forall id :: id in s.mgr.orders ==> InStep(cfg, s.mgr, s.broker, s.wanted, s.mgr.orders[id]);
    ForgottenLosesNothingIff(cfg, Apply(cfg, s, SubmitLost(v, c)), |s.broker|);
  }

  const NOTHING_YET := Sys(Mgr(map[], map[]), [], [], 0, Idle)

  const FIVE_WORKING := OrderView(Confirmed, 5, 0, 0, None, 0.0, 1.0, Some(7))

  const FIVE_FILLED := FIVE_WORKING.(state := Filled, processed := 5, premium := 500.0)

  lemma RunsFrom(cfg: Config, s: Sys, step: Step, steps: seq<Step>, t: Sys)
    requires Enabled(cfg, s, step) && Runs(cfg, Apply(cfg, s, step), steps, t)
    ensures Runs(cfg, s, [step] + steps, t)
  {
    assert ([step] + steps)[1..] == steps;
  }

  // A concrete loss: five contracts are ordered, one lookup comes back empty, and the order fills.
  lemma EmptyLookupExample(cfg: Config, c: Candidate) returns (steps: seq<Step>, t: Sys)
    requires c.contract.Some?
    ensures Fresh(NOTHING_YET) && Runs(cfg, NOTHING_YET, steps, t)
    ensures t.mgr == Mgr(map[], map[]) && |t.broker| == 1 && t.broker[0].view == FIVE_FILLED
  {
    var a, b, d := Submit(FIVE_WORKING, c, None), LookupEmpty(0), Evolve(0, FIVE_FILLED);
    var s1 := Apply(cfg, NOTHING_YET, a);
    var s2 := Apply(cfg, s1, b);
    t := Apply(cfg, s2, d);
    RunsFrom(cfg, s2, d, [], t);
    RunsFrom(cfg, s1, b, [d] + [], t);
    RunsFrom(cfg, NOTHING_YET, a, [b] + ([d] + []), t);
    steps := [a] + ([b] + ([d] + []));
  }

  // A concrete loss at the default settings: the order is cancelled to be re-placed, the replacement goes
  // through but its id is lost, and it fills.
  lemma LostReplacementExample(c: Candidate) returns (steps: seq<Step>, t: Sys)
    requires c.contract.Some?
    ensures Runs(Config(5.0, 120, 600, 3), NOTHING_YET, steps, t)
    ensures t.mgr == Mgr(map[], map[]) && |t.broker| == 2 && t.broker[1].view == FIVE_FILLED
  {
    var cfg := Config(5.0, 120, 600, 3);
    var gone := FIVE_WORKING.(state := Cancelled, canceled := 5);
    var cancelled := CancelledForReplacement(c);
    var s6 := Apply(cfg, cancelled, Evolve(0, gone));
    var s7 := Apply(cfg, s6, Lookup(0));
    var s8 := Apply(cfg, s7, Act);
    var s9 := Apply(cfg, s8, PlaceLost(FIVE_WORKING));
    t := Apply(cfg, s9, Evolve(1, FIVE_FILLED));
    steps := [Evolve(1, FIVE_FILLED)] + [];
    RunsFrom(cfg, s9, Evolve(1, FIVE_FILLED), [], t);
    RunsFrom(cfg, s8, PlaceLost(FIVE_WORKING), steps, t);
    steps := [PlaceLost(FIVE_WORKING)] + steps;
    RunsFrom(cfg, s7, Act, steps, t);
    steps := [Act] + steps;
    RunsFrom(cfg, s6, Lookup(0), steps, t);
    steps := [Lookup(0)] + steps;
    RunsFrom(cfg, cancelled, Evolve(0, gone), steps, t);
    steps := [Evolve(0, gone)] + steps;
    steps := UpToCancel(c, steps, t);
  }

  // Five contracts ordered at time 0, a cancel requested two minutes later.
  ghost function CancelledForReplacement(c: Candidate): Sys
    requires c.contract.Some?
  {
    var w := FirstTracked(0, c.contract.value, c, 5, None, 0)
             .(optionId := Some(7), cancelling := true, lastActionAt := 120);
    Sys(Mgr(map[0 := w], map[]), [BrokerOrder(FIVE_WORKING, Some(0), c.contract)], [5], 120, Idle)
  }

  lemma UpToCancel(c: Candidate, steps: seq<Step>, t: Sys) returns (all: seq<Step>)
    requires c.contract.Some? && Runs(Config(5.0, 120, 600, 3), CancelledForReplacement(c), steps, t)
    ensures Runs(Config(5.0, 120, 600, 3), NOTHING_YET, all, t)
  {
    var cfg := Config(5.0, 120, 600, 3);
    var s1 := Apply(cfg, NOTHING_YET, Submit(FIVE_WORKING, c, None));
    var s2 := Apply(cfg, s1, Wait(120));
    var s3 := Apply(cfg, s2, Lookup(0));
    var s4 := Apply(cfg, s3, Act);
    assert Apply(cfg, s4, CancelAnswer(true)) == CancelledForReplacement(c);
    RunsFrom(cfg, s4, CancelAnswer(true), steps, t);
    all := [CancelAnswer(true)] + steps;
    RunsFrom(cfg, s3, Act, all, t);
    all := [Act] + all;
    RunsFrom(cfg, s2, Lookup(0), all, t);
    all := [Lookup(0)] + all;
    RunsFrom(cfg, s1, Wait(120), all, t);
    all := [Wait(120)] + all;
    RunsFrom(cfg, NOTHING_YET, Submit(FIVE_WORKING, c, None), all, t);
    all := [Submit(FIVE_WORKING, c, None)] + all;
  }

  // ----- giving up is for good -----

  // The intent whose newest order is `id` will place nothing more.
  ghost predicate Abandoned(s: Sys, id: nat) {
    && id < |s.broker| && s.broker[id].intent.Some? && Newest(s.broker, id)
    && (id in s.mgr.orders ==> s.mgr.orders[id].givingUp)
    && (s.pc.Replacing? ==> s.pc.w.orderId != id)
  }

  // Chain i of `b'` has the same orders as in `b`.
  ghost predicate ChainKept(b: seq<BrokerOrder>, b': seq<BrokerOrder>, id: nat)
    requires id < |b| && b[id].intent.Some?
  {
    && id < |b'| && b'[id].intent == b[id].intent
    && (Newest(b, id) ==> Newest(b', id))
    && ChainLength(b', b[id].intent.value) == ChainLength(b, b[id].intent.value)
  }

  lemma UpdateKeepsChain(b: seq<BrokerOrder>, o: nat, x: BrokerOrder, id: nat)
    requires o < |b| && x.intent == b[o].intent && id < |b| && b[id].intent.Some?
    ensures ChainKept(b, b[o := x], id)
  {
    ChainLengthUpdate(b, o, x, b[id].intent.value);
    var b' := b[o := x];
    forall p: nat | id < p < |b'| && Newest(b, id)
      ensures !SameChain(b', id, p)
    {
      assert !SameChain(b, id, p);
    }
  }

  lemma AppendKeepsChain(b: seq<BrokerOrder>, x: BrokerOrder, id: nat)
    requires id < |b| && b[id].intent.Some? && x.intent != b[id].intent
    ensures ChainKept(b, b + [x], id)
  {
    AppendOrder(b, x);
  }

  // Only a replacement can extend a chain, and it extends the chain of the order being replaced.
  lemma StepKeepsChain(cfg: Config, s: Sys, step: Step, id: nat)
    requires Inv(cfg, s) && Enabled(cfg, s, step) && Faithful(step) && Abandoned(s, id)
    ensures ChainKept(s.broker, Apply(cfg, s, step).broker, id)
  {
    match step
    case Evolve(o, to) => UpdateKeepsChain(s.broker, o, s.broker[o].(view := to), id);
    case Submit(v, c, _) => AppendKeepsChain(s.broker, BrokerOrder(v, Some(|s.wanted|), c.contract), id);
    case AdoptOrder(o) =>
      if s.broker[o].intent.None? {
        ClaimKeepsBroker(cfg, s.broker, s.wanted, o);
      }
    case PlaceAnswer(_, _, placed) =>
      var w := s.pc.w;
      assert InStep(cfg, s.mgr, s.broker, s.wanted, w);
      NewestDiffer(s.broker, w.orderId, id);
      if placed.Some? {
        AppendKeepsChain(s.broker, BrokerOrder(placed.value, IntentOf(s, w.orderId), Some(w.contract)), id);
      }
    case _ =>
  }

  lemma StepKeepsAbandoned(cfg: Config, s: Sys, step: Step, id: nat)
    requires Inv(cfg, s) && Enabled(cfg, s, step) && Faithful(step) && Abandoned(s, id)
    ensures Abandoned(Apply(cfg, s, step), id)
    ensures ChainKept(s.broker, Apply(cfg, s, step).broker, id)
  {
    StepKeepsChain(cfg, s, step, id);
    match step
    case Act =>
      var w := s.mgr.orders[s.pc.id];
      assert w.orderId == s.pc.id;
      DecideKeepsIdentity(cfg, w, Some(s.pc.seen), s.clock);
    case PlaceAnswer(_, _, placed) =>
      assert id != |s.broker|;
    case AdoptOrder(o) => AdoptKeepsFlag(cfg, s, o, id);
    case CancelAnswer(_) =>
    case _ =>
  }

  lemma AdoptKeepsFlag(cfg: Config, s: Sys, o: nat, id: nat)
    requires Inv(cfg, s) && Enabled(cfg, s, AdoptOrder(o)) && Abandoned(s, id)
    ensures id in Apply(cfg, s, AdoptOrder(o)).mgr.orders ==>
              id in s.mgr.orders && Apply(cfg, s, AdoptOrder(o)).mgr.orders[id] == s.mgr.orders[id]
  {
    AdoptOneIsLocal(s.mgr, Shown(s.broker, o), s.broker[o].view.state, s.clock);
    if o == id {
      AdoptAgainKeepsInv(cfg, s, o);
    }
  }

  // Once `giving_up` is set it is never unset, and no order is ever placed for that intent again.
  lemma {:induction false} GivingUpIsFinal(cfg: Config, s: Sys, steps: seq<Step>, t: Sys, id: nat)
    requires Inv(cfg, s) && Runs(cfg, s, steps, t) && AllFaithful(steps) && Abandoned(s, id)
    ensures Abandoned(t, id)
    ensures ChainLength(t.broker, s.broker[id].intent.value) == ChainLength(s.broker, s.broker[id].intent.value)
    decreases |steps|
  {
    if steps != [] {
      StepKeepsInv(cfg, s, steps[0]);
      StepKeepsAbandoned(cfg, s, steps[0], id);
      GivingUpIsFinal(cfg, Apply(cfg, s, steps[0]), steps[1..], t, id);
    }
  }

  // Setting the flag is what starts it: a tracked order that gives up abandons its intent.
  lemma TrackedGivingUpAbandons(cfg: Config, s: Sys, id: nat)
    requires Inv(cfg, s) && id in s.mgr.orders && s.mgr.orders[id].givingUp
    ensures Abandoned(s, id)
  {
    assert InStep(cfg, s.mgr, s.broker, s.wanted, s.mgr.orders[id]);
  }

  // ----- what an intent can cost -----

  function CostAt(contracts: nat, price: real): real {
    (contracts * 100) as real * price
  }

  // A limit order pays between nothing and its limit for each contract it filled.
  predicate PaidWithinLimit(v: OrderView) {
    0.0 <= v.premium <= CostAt(v.processed, v.limit)
  }

  ghost predicate Capped(cfg: Config, b: seq<BrokerOrder>) {
    forall o: nat :: o < |b| && b[o].intent.Some? ==> b[o].view.limit <= cfg.priceCap && PaidWithinLimit(b[o].view)
  }

  // The candidate was approved under the same cap, and went out at its mid rounded to a tick within the cap.
  ghost predicate PassedGate(
    cfg: Config, c: Candidate, limit: real, setting: Risk.Setting, books: Risk.Books, open: int, rule: Option<TickRule>)
  {
    && c.contract.Some? && cfg.priceCap == setting.params.maxPremium / 100.0
    && Risk.Verdict(setting, books, c, open) == []
    && limit == RoundToTick(c.contract.value.Mid(), rule) && TickFor(c.contract.value.Mid(), rule) <= cfg.priceCap
  }

  lemma GateCapsLimit(
    cfg: Config, c: Candidate, limit: real, setting: Risk.Setting, books: Risk.Books, open: int, rule: Option<TickRule>)
    requires PassedGate(cfg, c, limit, setting, books, open, rule)
    ensures limit <= cfg.priceCap
  {
    RiskFacts.ApprovalMeans(setting, books, c, open);
    RoundToTickOnGrid(c.contract.value.Mid(), rule);
  }

  // The first order passed the risk gate, fills never cost more than the limit, the tick that applies to
  // a replacement is no larger than the cap, and an adopted order was placed under the cap.
  ghost predicate Prudent(cfg: Config, s: Sys, step: Step) {
    match step
    case Evolve(_, to) => PaidWithinLimit(to)
    case Submit(v, c, _) =>
      && PaidWithinLimit(v)
      && exists setting, books, open, rule :: PassedGate(cfg, c, v.limit, setting, books, open, rule)
    case AdoptOrder(id) =>
      id < |s.broker| ==> s.broker[id].view.limit <= cfg.priceCap && PaidWithinLimit(s.broker[id].view)
    case PlaceAnswer(quote, fetched, placed) =>
      placed.Some? ==>
        && PaidWithinLimit(placed.value)
        && (s.pc.Replacing? && quote.Some? && Ladder(s.pc.w.attempts, quote.value).Some? ==>
              TickFor(Min(Ladder(s.pc.w.attempts, quote.value).value, cfg.priceCap), KnownTicks(s.pc.w, fetched))
              <= cfg.priceCap)
    case _ => true
  }

  ghost predicate PrudentRun(cfg: Config, s: Sys, steps: seq<Step>)
    decreases |steps|
  {
    steps == [] ||
    (Enabled(cfg, s, steps[0]) && Prudent(cfg, s, steps[0]) && PrudentRun(cfg, Apply(cfg, s, steps[0]), steps[1..]))
  }

  lemma StepKeepsCapped(cfg: Config, s: Sys, step: Step)
    requires Capped(cfg, s.broker) && Enabled(cfg, s, step) && Faithful(step) && Prudent(cfg, s, step)
    ensures Capped(cfg, Apply(cfg, s, step).broker)
  {
    if step.PlaceAnswer? && step.placed.Some? {
      ReplacementPriceBounds(cfg, s.pc.w, step.quote.value, step.fetched);
    } else if step.Submit? {
      var setting, books, open, rule :| PassedGate(cfg, step.candidate, step.first.limit, setting, books, open, rule);
      GateCapsLimit(cfg, step.candidate, step.first.limit, setting, books, open, rule);
    }
  }

  lemma {:induction false} RunKeepsCapped(cfg: Config, s: Sys, steps: seq<Step>, t: Sys)
    requires Capped(cfg, s.broker) && Runs(cfg, s, steps, t) && AllFaithful(steps) && PrudentRun(cfg, s, steps)
    ensures Capped(cfg, t.broker)
    decreases |steps|
  {
    if steps != [] {
      StepKeepsCapped(cfg, s, steps[0]);
      RunKeepsCapped(cfg, Apply(cfg, s, steps[0]), steps[1..], t);
    }
  }

  lemma CostMono(n: nat, q: nat, price: real, cap: real)
    requires n <= q && price <= cap && 0.0 <= cap
    ensures CostAt(n, price) <= CostAt(q, cap)
  {
    MulMono(price, cap, (n * 100) as real);
    MulMono((n * 100) as real, (q * 100) as real, cap);
  }

  lemma {:induction false} DeadChainCostsNothing(b: seq<BrokerOrder>, i: nat)
    requires forall o: nat :: o < |b| && b[o].intent == Some(i) ==> Dead(b[o].view) && PaidWithinLimit(b[o].view)
    ensures ChainSpent(b, i) == 0.0
  {
    if b != [] {
      DeadChainCostsNothing(b[..|b| - 1], i);
    }
  }

  lemma {:induction false} ChainSpendsAtMost(cfg: Config, b: seq<BrokerOrder>, i: nat, q: nat)
    requires OnlyNewestMatters(b) && Capped(cfg, b) && 0.0 <= cfg.priceCap
    requires forall o: nat :: o < |b| && b[o].intent == Some(i) ==> b[o].view.processed <= q
    ensures ChainSpent(b, i) <= CostAt(q, cfg.priceCap)
  {
    if b == [] {
      CostMono(0, q, 0.0, cfg.priceCap);
    } else {
      var n := |b| - 1;
      var rest := b[..n];
      assert forall o: nat, p: nat :: o < n && p < n ==> SameChain(rest, o, p) == SameChain(b, o, p);
      if b[n].intent == Some(i) {
        assert forall o: nat :: o < n && rest[o].intent == Some(i) ==> SameChain(b, o, n);
        DeadChainCostsNothing(rest, i);
        CostMono(b[n].view.processed, q, b[n].view.limit, cfg.priceCap);
      } else {
        ChainSpendsAtMost(cfg, rest, i, q);
      }
    }
  }

  // MAIN RESULT. Across all its replacements an intent for Q contracts never spends more than
  // Q x 100 x the per-share cap, that is Q x max_premium_per_contract.
  lemma IntentStaysWithinBudget(cfg: Config, s: Sys, steps: seq<Step>, t: Sys, i: nat)
    requires Fresh(s) || (Inv(cfg, s) && Capped(cfg, s.broker))
    requires Runs(cfg, s, steps, t) && AllFaithful(steps) && PrudentRun(cfg, s, steps)
    requires 0.0 <= cfg.priceCap && i < |t.wanted|
    ensures ChainSpent(t.broker, i) <= CostAt(t.wanted[i], cfg.priceCap)
  {
    if Fresh(s) {
      FreshIsInv(cfg, s);
    }
    RunKeepsInv(cfg, s, steps, t);
    RunKeepsCapped(cfg, s, steps, t);
    ChainSpendsAtMost(cfg, t.broker, i, t.wanted[i]);
  }
}
