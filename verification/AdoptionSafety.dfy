/** What startup adoption guarantees while the broker moves and queries raise, and what it leaves behind. */
module AdoptionSafety {
  import opened Common
  import opened Schemas
  import opened Lifecycle
  import opened Adoption
  import opened OrderSystem
  import opened OrderSafety

  // Contracts of one id that are still being worked.
  function Worked(m: Mgr, id: nat): int {
    if id in m.orders then m.orders[id].quantity else 0
  }

  ghost predicate ListedOk(os: seq<Listed>) {
    DistinctIds(os) && forall k :: 0 <= k < |os| ==> WellFormed(os[k].view)
  }

  // ----- a sweep is a run -----

  lemma {:induction false} RunsAppend(cfg: Config, s: Sys, a: seq<Step>, u: Sys, b: seq<Step>, t: Sys)
    requires Runs(cfg, s, a, u) && Runs(cfg, u, b, t)
    ensures Runs(cfg, s, a + b, t)
    decreases |a|
  {
    if a == [] {
      assert a + b == b;
    } else {
      RunsAppend(cfg, Apply(cfg, s, a[0]), a[1..], u, b, t);
      assert (a + b)[0] == a[0] && (a + b)[1..] == a[1..] + b;
    }
  }

  ghost predicate InBroker(b: seq<BrokerOrder>, ids: seq<nat>) {
    forall k :: 0 <= k < |ids| ==> ids[k] < |b|
  }

  // What a query for this state may bring back: orders in that state, in any order, some perhaps left out or
  // repeated.
  ghost predicate MayList(b: seq<BrokerOrder>, state: OrderState, ids: seq<nat>) {
    InBroker(b, ids) && forall k :: 0 <= k < |ids| ==> b[ids[k]].view.state == state
  }

  ghost function Listings(b: seq<BrokerOrder>, ids: seq<nat>): seq<Listed>
    requires InBroker(b, ids)
  {
    seq(|ids|, k requires 0 <= k < |ids| => Shown(b, ids[k]))
  }

  // The adoptions that such an answer leads to.
  ghost function QuerySteps(s: Sys, state: OrderState, ids: seq<nat>): seq<Step>
    requires InBroker(s.broker, ids)
    decreases |ids|
  {
    if ids == [] then []
    else
      var front, id := ids[..|ids| - 1], ids[|ids| - 1];
      QuerySteps(s, state, front) +
      if s.broker[id].leg.Some? && id !in AdoptAll(s.mgr, Listings(s.broker, front), state, s.clock).orders
      then [AdoptOrder(id)] else []
  }

  ghost predicate SameOrders(b: seq<BrokerOrder>, b': seq<BrokerOrder>) {
    |b'| == |b| && forall o: nat :: o < |b| ==> b'[o].view == b[o].view && b'[o].leg == b[o].leg
  }

  lemma AdoptStep(cfg: Config, b: seq<BrokerOrder>, t: Sys, id: nat, v: Sys)
    requires SameOrders(b, t.broker) && Enabled(cfg, t, AdoptOrder(id)) && v == Apply(cfg, t, AdoptOrder(id))
    ensures SameOrders(b, v.broker) && v.pc.Idle? && v.clock == t.clock
    ensures v.mgr == AdoptOne(t.mgr, Shown(b, id), b[id].view.state, t.clock)
  {
    assert Shown(t.broker, id) == Shown(b, id);
  }

  lemma {:induction false} LastStep(cfg: Config, s: Sys, steps: seq<Step>, last: Step, v: Sys) returns (t: Sys)
    requires Runs(cfg, s, steps + [last], v)
    ensures Runs(cfg, s, steps, t) && Enabled(cfg, t, last) && v == Apply(cfg, t, last)
    decreases |steps|
  {
    assert (steps + [last])[0] == if steps == [] then last else steps[0];
    if steps == [] {
      t := s;
      assert ([] + [last])[1..] == [];
    } else {
      assert (steps + [last])[1..] == steps[1..] + [last];
      t := LastStep(cfg, Apply(cfg, s, steps[0]), steps[1..], last, v);
    }
  }

  lemma OneMoreListed(m: Mgr, b: seq<BrokerOrder>, state: OrderState, ids: seq<nat>, now: int)
    requires ids != [] && InBroker(b, ids)
    ensures var front, id := ids[..|ids| - 1], ids[|ids| - 1];
            AdoptAll(m, Listings(b, ids), state, now) ==
            AdoptOne(AdoptAll(m, Listings(b, front), state, now), Shown(b, id), state, now)
  {
    assert Listings(b, ids)[..|ids| - 1] == Listings(b, ids[..|ids| - 1]);
  }

  // Those adoptions leave what the manager makes of the answer.
  lemma {:induction false} QueryAdopts(cfg: Config, s: Sys, state: OrderState, ids: seq<nat>, v: Sys)
    requires s.pc.Idle? && MayList(s.broker, state, ids) && Runs(cfg, s, QuerySteps(s, state, ids), v)
    ensures SameOrders(s.broker, v.broker) && v.pc.Idle? && v.clock == s.clock
    ensures v.mgr == AdoptAll(s.mgr, Listings(s.broker, ids), state, s.clock)
    ensures AllFaithful(QuerySteps(s, state, ids))
    decreases |ids|
  {
    if ids != [] {
      var front, id := ids[..|ids| - 1], ids[|ids| - 1];
      var steps := QuerySteps(s, state, front);
      OneMoreListed(s.mgr, s.broker, state, ids, s.clock);
      if s.broker[id].leg.Some? && id !in AdoptAll(s.mgr, Listings(s.broker, front), state, s.clock).orders {
        var t := LastStep(cfg, s, steps, AdoptOrder(id), v);
        QueryAdopts(cfg, s, state, front, t);
        AdoptStep(cfg, s.broker, t, id, v);
      } else {
        assert steps + [] == steps;
        QueryAdopts(cfg, s, state, front, v);
      }
    }
  }

  // And they can always be carried out.
  lemma {:induction false} QueryCanRun(cfg: Config, s: Sys, state: OrderState, ids: seq<nat>) returns (v: Sys)
    requires s.pc.Idle? && Adoptable(state) && MayList(s.broker, state, ids)
    ensures Runs(cfg, s, QuerySteps(s, state, ids), v)
    decreases |ids|
  {
    v := s;
    if ids != [] {
      var front, id := ids[..|ids| - 1], ids[|ids| - 1];
      var steps := QuerySteps(s, state, front);
      v := QueryCanRun(cfg, s, state, front);
      QueryAdopts(cfg, s, state, front, v);
      if s.broker[id].leg.Some? && id !in v.mgr.orders {
        OneStep(cfg, v, AdoptOrder(id));
        RunsAppend(cfg, s, steps, v, [AdoptOrder(id)], Apply(cfg, v, AdoptOrder(id)));
        v := Apply(cfg, v, AdoptOrder(id));
      } else {
        assert steps + [] == steps;
      }
    }
  }

  lemma OneStep(cfg: Config, s: Sys, step: Step)
    requires Enabled(cfg, s, step)
    ensures Runs(cfg, s, [step], Apply(cfg, s, step))
  {
    assert [step][1..] == [] && Runs(cfg, Apply(cfg, s, step), [], Apply(cfg, s, step));
  }

  // Between two queries only the broker moves and time passes.
  ghost predicate OnlyBroker(steps: seq<Step>) {
    forall k :: 0 <= k < |steps| ==> steps[k].Evolve? || steps[k].Wait?
  }

  lemma {:induction false} OnlyBrokerKeepsManager(cfg: Config, s: Sys, steps: seq<Step>, t: Sys)
    requires OnlyBroker(steps) && Runs(cfg, s, steps, t)
    ensures t.mgr == s.mgr && t.pc == s.pc && AllFaithful(steps)
    decreases |steps|
  {
    if steps != [] {
      OnlyBrokerKeepsManager(cfg, Apply(cfg, s, steps[0]), steps[1..], t);
      assert forall k :: 1 <= k < |steps| ==> steps[k] == steps[1..][k - 1];
    }
  }

  // One query: the broker moved before it, and it raised or brought back orders as they were then.
  ghost predicate Asked(
    cfg: Config, s: Sys, state: OrderState, answers: Answers, moves: seq<Step>, u: Sys, ids: seq<nat>, v: Sys)
  {
    && OnlyBroker(moves) && Runs(cfg, s, moves, u)
    && if state in answers
       then MayList(u.broker, state, ids) && answers[state] == Answer(Listings(u.broker, ids), u.clock)
            && Runs(cfg, u, QuerySteps(u, state, ids), v)
       else v == u
  }

  // A sweep of these states leads from s to t, with these answers.
  ghost predicate Sweeps(cfg: Config, s: Sys, states: seq<OrderState>, answers: Answers, t: Sys)
    decreases |states|
  {
    if states == [] then s == t
    else exists moves, u, ids, v ::
           Asked(cfg, s, states[0], answers, moves, u, ids, v) && Sweeps(cfg, v, states[1..], answers, t)
  }

  lemma AskedIsRun(
    cfg: Config, s: Sys, state: OrderState, answers: Answers, moves: seq<Step>, u: Sys, ids: seq<nat>, v: Sys)
    returns (steps: seq<Step>)
    requires s.pc.Idle? && Adoptable(state) && Asked(cfg, s, state, answers, moves, u, ids, v)
    ensures Runs(cfg, s, steps, v) && AllFaithful(steps) && v.pc.Idle?
    ensures v.mgr == AfterQuery(s.mgr, answers, state)
  {
    OnlyBrokerKeepsManager(cfg, s, moves, u);
    steps := moves;
    if state in answers {
      var more := QuerySteps(u, state, ids);
      QueryAdopts(cfg, u, state, ids, v);
      RunsAppend(cfg, s, moves, u, more, v);
      steps := moves + more;
    }
  }

  lemma {:induction false} SweepsIsRun(cfg: Config, s: Sys, states: seq<OrderState>, answers: Answers, t: Sys)
    returns (steps: seq<Step>)
    requires s.pc.Idle? && (forall k :: 0 <= k < |states| ==> Adoptable(states[k]))
    requires Sweeps(cfg, s, states, answers, t)
    ensures Runs(cfg, s, steps, t) && AllFaithful(steps) && t.pc.Idle?
    ensures t.mgr == SweepStates(s.mgr, answers, states)
    decreases |states|
  {
    if states == [] {
      steps := [];
    } else {
      var moves, u, ids, v :|
        Asked(cfg, s, states[0], answers, moves, u, ids, v) && Sweeps(cfg, v, states[1..], answers, t);
      var first := AskedIsRun(cfg, s, states[0], answers, moves, u, ids, v);
      var rest := SweepsIsRun(cfg, v, states[1..], answers, t);
      RunsAppend(cfg, s, first, v, rest, t);
      steps := first + rest;
    }
  }

  // A whole startup adoption: a sweep, and another one when the first took nothing.
  ghost predicate StartsUp(cfg: Config, s: Sys, first: Answers, u: Sys, second: Answers, t: Sys) {
    && Sweeps(cfg, s, SWEPT, first, u)
    && if SweepCount(s.mgr, first) == 0 then Sweeps(cfg, u, SWEPT, second, t) else t == u
  }

  lemma StartsUpIsRun(cfg: Config, s: Sys, first: Answers, u: Sys, second: Answers, t: Sys)
    returns (steps: seq<Step>)
    requires s.pc.Idle? && StartsUp(cfg, s, first, u, second, t)
    ensures Runs(cfg, s, steps, t) && AllFaithful(steps) && t.mgr == AdoptedFrom(s.mgr, first, second)
  {
    steps := SweepsIsRun(cfg, s, SWEPT, first, u);
    if SweepCount(s.mgr, first) == 0 {
      SweepCountZeroIff(s.mgr, first);
      var again := SweepsIsRun(cfg, u, SWEPT, second, t);
      RunsAppend(cfg, s, steps, u, again, t);
      steps := steps + again;
    }
  }

  // MAIN RESULT. Startup adoption over whatever positions were recovered before, with queries that raise, a
  // broker that moves between them, orders listed twice or never, and the retry, is a fault-free run that ends
  // in the manager that AdoptWorkingOrders computes. So every safety result for runs holds through startup.
  lemma AdoptionStartsSafely(cfg: Config, s: Sys, first: Answers, u: Sys, second: Answers, t: Sys)
    returns (steps: seq<Step>)
    requires (Fresh(s) || Inv(cfg, s)) && s.pc.Idle? && StartsUp(cfg, s, first, u, second, t)
    ensures Runs(cfg, s, steps, t) && AllFaithful(steps) && Inv(cfg, t)
    ensures t.mgr == AdoptedFrom(s.mgr, first, second)
  {
    if Fresh(s) {
      FreshIsInv(cfg, s);
    }
    steps := StartsUpIsRun(cfg, s, first, u, second, t);
    RunKeepsInv(cfg, s, steps, t);
  }

  // ----- one adopted order -----

  // An adopted order's filled part is a position and its open part is worked: total minus cancelled. It
  // holds however often the order was adopted before.
  lemma AdoptionSplitsContracts(cfg: Config, s: Sys, id: nat)
    requires Inv(cfg, s) && Enabled(cfg, s, AdoptOrder(id))
    ensures var m', v := Apply(cfg, s, AdoptOrder(id)).mgr, s.broker[id].view;
            && Held(m', id) == v.processed
            && Held(m', id) + Worked(m', id) == v.quantity - v.canceled
            && (v.state.PendingCancelled? && id in m'.orders ==> m'.orders[id].givingUp)
  {
    assert WellFormed(s.broker[id].view);
    assert s.broker[id].intent.Some? ==> Accounted(s.mgr, s.broker, id);
  }

  lemma PendingCancelAbandons(cfg: Config, s: Sys, id: nat)
    requires Inv(cfg, s) && Enabled(cfg, s, AdoptOrder(id)) && s.broker[id].view.state.PendingCancelled?
    requires RemainingQuantity(s.broker[id].view) > 0
    ensures var s' := Apply(cfg, s, AdoptOrder(id));
            && Inv(cfg, s') && id in s'.mgr.orders && s'.mgr.orders[id].givingUp
            && id < |s'.broker| && s'.broker[id].intent.Some?
            && ChainLength(s'.broker, s'.broker[id].intent.value) == 1
  {
    StepKeepsInv(cfg, s, AdoptOrder(id));
    if s.broker[id].intent.Some? {
      NothingLeftAgain(cfg, s, id);
    } else {
      ClaimKeepsBroker(cfg, s.broker, s.wanted, id);
    }
  }

  // An untracked order of an earlier intent has nothing left to work.
  lemma NothingLeftAgain(cfg: Config, s: Sys, id: nat)
    requires Inv(cfg, s) && Enabled(cfg, s, AdoptOrder(id)) && s.broker[id].intent.Some?
    ensures RemainingQuantity(s.broker[id].view) == 0
  {
    assert Accounted(s.mgr, s.broker, id) && WellFormed(s.broker[id].view);
  }

  // An order adopted while its cancel was pending is never placed again.
  lemma PendingCancelNeverReplaced(cfg: Config, s: Sys, id: nat, steps: seq<Step>, t: Sys)
    requires Inv(cfg, s) && Enabled(cfg, s, AdoptOrder(id)) && s.broker[id].view.state.PendingCancelled?
    requires RemainingQuantity(s.broker[id].view) > 0
    requires Runs(cfg, Apply(cfg, s, AdoptOrder(id)), steps, t) && AllFaithful(steps)
    ensures id < |t.broker| && t.broker[id].intent.Some? && ChainLength(t.broker, t.broker[id].intent.value) == 1
  {
    PendingCancelAbandons(cfg, s, id);
    GivenUpStaysSingle(cfg, Apply(cfg, s, AdoptOrder(id)), id, steps, t);
  }

  lemma GivenUpStaysSingle(cfg: Config, s: Sys, id: nat, steps: seq<Step>, t: Sys)
    requires Inv(cfg, s) && Runs(cfg, s, steps, t) && AllFaithful(steps)
    requires id in s.mgr.orders && s.mgr.orders[id].givingUp
    requires id < |s.broker| && s.broker[id].intent.Some? && ChainLength(s.broker, s.broker[id].intent.value) == 1
    ensures id < |t.broker| && t.broker[id].intent.Some? && ChainLength(t.broker, t.broker[id].intent.value) == 1
  {
    TrackedGivingUpAbandons(cfg, s, id);
    GivingUpIsFinal(cfg, s, steps, t, id);
    RunKeepsOrder(cfg, s, steps, t, id);
  }

  lemma {:induction false} RunKeepsOrder(cfg: Config, s: Sys, steps: seq<Step>, t: Sys, o: nat)
    requires Runs(cfg, s, steps, t) && o < |s.broker|
    ensures o < |t.broker| && (s.broker[o].intent.Some? ==> t.broker[o].intent == s.broker[o].intent)
    ensures t.broker[o].view.option == s.broker[o].view.option
    ensures s.broker[o].view.processed <= t.broker[o].view.processed
    decreases |steps|
  {
    if steps != [] {
      RunKeepsOrder(cfg, Apply(cfg, s, steps[0]), steps[1..], t, o);
    }
  }

  // When a tracked order ends with anything filled, promotion overwrites what adoption had put under its
  // key with the broker's total instead of adding to it.
  lemma ResolutionOverwrites(cfg: Config, m: Mgr, id: nat, r: Reply)
    requires id in m.orders && m.orders[id].orderId == id
    requires r.look.Some? && WellFormed(r.look.value) && Final(r.look.value.state) && r.look.value.processed > 0
    ensures id !in Check(cfg, m, id, r).orders && Held(Check(cfg, m, id, r), id) == r.look.value.processed
  {
  }

  // ----- sweeping again while the broker stands still -----

  datatype Try = Try(answered: set<OrderState>, now: int)

  function Resweep(m: Mgr, os: seq<Listed>, tries: seq<Try>): Mgr
    decreases |tries|
  {
    if tries == [] then m
    else
      var last := tries[|tries| - 1];
      Sweep(Resweep(m, os, tries[..|tries| - 1]), Still(os, last.answered, last.now))
  }

  predicate EverAnswered(tries: seq<Try>, state: OrderState) {
    exists k :: 0 <= k < |tries| && state in tries[k].answered
  }

  function Timeless(w: Tracked): Tracked {
    w.(placedAt := 0, lastActionAt := 0)
  }

  // The same but for when it was adopted.
  ghost predicate SameEntry(a: Entry, b: Entry) {
    && a.order.Some? == b.order.Some? && (a.order.Some? ==> Timeless(a.order.value) == Timeless(b.order.value))
    && a.position.Some? == b.position.Some?
    && (a.position.Some? ==> a.position.value.(openedAt := 0) == b.position.value.(openedAt := 0))
  }

  lemma AdoptLater(m: Mgr, o: Listed, state: OrderState, now: int, later: int)
    ensures SameEntry(At(AdoptOne(m, o, state, later), o.id), At(AdoptOne(m, o, state, now), o.id))
  {
  }

  lemma AdoptOver(m: Mgr, m1: Mgr, o: Listed, state: OrderState, now: int, later: int)
    requires SameEntry(At(m1, o.id), At(AdoptOne(m, o, state, now), o.id))
    ensures SameEntry(At(AdoptOne(m1, o, state, later), o.id), At(AdoptOne(m, o, state, now), o.id))
  {
    assert o.id in m1.orders <==> At(m1, o.id).order.Some?;
    var once := AdoptOne(m, o, state, now);
    assert o.id in once.orders <==> At(once, o.id).order.Some?;
  }

  lemma AdoptTwice(m: Mgr, m1: Mgr, o: Listed, state: OrderState, now: int, later: int)
    requires At(m1, o.id) == At(m, o.id) || SameEntry(At(m1, o.id), At(AdoptOne(m, o, state, now), o.id))
    ensures SameEntry(At(AdoptOne(m1, o, state, later), o.id), At(AdoptOne(m, o, state, now), o.id))
  {
    if At(m1, o.id) == At(m, o.id) {
      AdoptOneHere(m, m1, o, state, later);
      AdoptLater(m, o, state, now, later);
    } else {
      AdoptOver(m, m1, o, state, now, later);
    }
  }

  lemma {:induction false} ResweepAt(m: Mgr, os: seq<Listed>, tries: seq<Try>, k: nat, now: int)
    requires DistinctIds(os) && k < |os|
    ensures var o := os[k];
            if Adoptable(o.view.state) && EverAnswered(tries, o.view.state)
            then SameEntry(At(Resweep(m, os, tries), o.id), At(AdoptOne(m, o, o.view.state, now), o.id))
            else At(Resweep(m, os, tries), o.id) == At(m, o.id)
    decreases |tries|
  {
    if tries != [] {
      var n, o := |tries| - 1, os[k];
      var before := Resweep(m, os, tries[..n]);
      ResweepAt(m, os, tries[..n], k, now);
      StillSweepAt(before, os, tries[n].answered, tries[n].now, k);
      assert forall j :: 0 <= j < n ==> tries[..n][j] == tries[j];
      assert EverAnswered(tries, o.view.state) <==>
             EverAnswered(tries[..n], o.view.state) || o.view.state in tries[n].answered;
      if Adoptable(o.view.state) && o.view.state in tries[n].answered {
        AdoptTwice(m, before, o, o.view.state, now, tries[n].now);
      }
    }
  }

  lemma {:induction false} ResweepElsewhere(m: Mgr, os: seq<Listed>, tries: seq<Try>, id: nat)
    requires forall k :: 0 <= k < |os| ==> os[k].id != id
    ensures At(Resweep(m, os, tries), id) == At(m, id)
    decreases |tries|
  {
    if tries != [] {
      var n := |tries| - 1;
      ResweepElsewhere(m, os, tries[..n], id);
      StillSweepElsewhere(Resweep(m, os, tries[..n]), os, tries[n].answered, tries[n].now, id);
    }
  }

  // MAIN RESULT. While the broker stands still, any number of sweeps, whichever of their queries raise, leave
  // for every order what one sweep leaves whose queries raise only where all of theirs did.
  lemma AnyNumberOfSweeps(m: Mgr, os: seq<Listed>, tries: seq<Try>, all: set<OrderState>, now: int)
    requires DistinctIds(os) && forall s :: s in all <==> EverAnswered(tries, s)
    ensures forall id :: SameEntry(At(Resweep(m, os, tries), id), At(Sweep(m, Still(os, all, now)), id))
  {
    forall id
      ensures SameEntry(At(Resweep(m, os, tries), id), At(Sweep(m, Still(os, all, now)), id))
    {
      if k :| 0 <= k < |os| && os[k].id == id {
        ResweepAt(m, os, tries, k, now);
        StillSweepAt(m, os, all, now, k);
      } else {
        ResweepElsewhere(m, os, tries, id);
        StillSweepElsewhere(m, os, all, now, id);
      }
    }
  }

  // A second sweep whose answers the first one had already changes nothing.
  lemma SecondSweepChangesNothing(
    m: Mgr, os: seq<Listed>, first: set<OrderState>, now: int, second: set<OrderState>, later: int)
    requires DistinctIds(os) && second <= first
    ensures var once := Sweep(m, Still(os, first, now));
            forall id :: SameEntry(At(Sweep(once, Still(os, second, later)), id), At(once, id))
  {
    var tries := [Try(first, now), Try(second, later)];
    assert tries[..1] == [Try(first, now)] && tries[..1][..0] == [];
    assert Resweep(m, os, []) == m;
    assert Resweep(m, os, tries[..1]) == Sweep(m, Still(os, first, now));
    forall s ensures s in first <==> EverAnswered(tries, s) {
      assert tries[0].answered == first && tries[1].answered == second;
    }
    AnyNumberOfSweeps(m, os, tries, first, now);
  }

  // ----- what adoption misses -----

  // What the broker shows throughout one sweep, and the queries that answered.
  datatype Listing = Listing(os: seq<Listed>, answered: set<OrderState>, now: int) {
    function Answers(): Answers {
      Still(os, answered, now)
    }
  }

  function Used(m: Mgr, first: Listing, second: Listing): Listing {
    if SweepCount(m, first.Answers()) == 0 then second else first
  }

  ghost predicate AtWork(o: Listed) {
    Eligible(o) && Working(o.view.state) && RemainingQuantity(o.view) > 0
  }

  // An open buy still working is picked up exactly when it is not `unconfirmed`, the one working state no
  // query asks for, and the query for its state did not raise in the sweep that counted.
  lemma AdoptionTakesIff(store: map<PositionId, Position>, first: Listing, second: Listing, k: nat)
    requires var used := Used(Mgr(map[], store), first, second);
             ListedOk(used.os) && k < |used.os| && AtWork(used.os[k])
    ensures var used := Used(Mgr(map[], store), first, second);
            var o := used.os[k];
            o.id in AdoptedFrom(Mgr(map[], store), first.Answers(), second.Answers()).orders <==>
            !o.view.state.Unconfirmed? && o.view.state in used.answered
  {
    var m := Mgr(map[], store);
    var used := Used(m, first, second);
    var o := used.os[k];
    StillSweepAt(m, used.os, used.answered, used.now, k);
    assert At(Sweep(m, used.Answers()), o.id).order.Some? <==> o.id in Sweep(m, used.Answers()).orders;
  }

  // So all are picked up exactly when none is `unconfirmed` or in a state whose query raised.
  lemma AdoptionCompleteIff(store: map<PositionId, Position>, first: Listing, second: Listing)
    requires ListedOk(Used(Mgr(map[], store), first, second).os)
    ensures var used := Used(Mgr(map[], store), first, second);
            (forall k :: 0 <= k < |used.os| && AtWork(used.os[k]) ==>
               used.os[k].id in AdoptedFrom(Mgr(map[], store), first.Answers(), second.Answers()).orders)
            <==>
            (forall k :: 0 <= k < |used.os| && AtWork(used.os[k]) ==>
               !used.os[k].view.state.Unconfirmed? && used.os[k].view.state in used.answered)
  {
    var used := Used(Mgr(map[], store), first, second);
    forall k | 0 <= k < |used.os| && AtWork(used.os[k])
      ensures used.os[k].id in AdoptedFrom(Mgr(map[], store), first.Answers(), second.Answers()).orders <==>
              !used.os[k].view.state.Unconfirmed? && used.os[k].view.state in used.answered
    {
      AdoptionTakesIff(store, first, second, k);
    }
  }

  const EVERY_STATE: set<OrderState> := {Queued, Confirmed, PartiallyFilled, PendingCancelled}

  function Five(id: nat, state: OrderState, contract: Contract): Listed {
    Listed(id, FIVE_WORKING.(state := state), true, Some(contract))
  }

  // A concrete miss: one unconfirmed buy of five contracts at startup, and it is not tracked.
  lemma UnconfirmedExample(contract: Contract, now: int)
    ensures var l := Listing([Five(0, Unconfirmed, contract)], EVERY_STATE, now);
            && AtWork(l.os[0])
            && 0 !in AdoptedFrom(Mgr(map[], map[]), l.Answers(), l.Answers()).orders
  {
    var l := Listing([Five(0, Unconfirmed, contract)], EVERY_STATE, now);
    AdoptionTakesIff(map[], l, l, 0);
  }

  // A concrete miss with nothing unconfirmed: a queued and a confirmed buy, and only the query for queued
  // orders answers. One order is adopted, so there is no second sweep, and the other is never tracked.
  lemma QueryRaisedExample(contract: Contract, now: int)
    ensures var os := [Five(0, Queued, contract), Five(1, Confirmed, contract)];
            var first, second := Listing(os, {Queued}, now), Listing(os, EVERY_STATE, now + 3);
            var m := AdoptedFrom(Mgr(map[], map[]), first.Answers(), second.Answers());
            AtWork(os[0]) && AtWork(os[1]) && 0 in m.orders && 1 !in m.orders
  {
    var os := [Five(0, Queued, contract), Five(1, Confirmed, contract)];
    var first, second := Listing(os, {Queued}, now), Listing(os, EVERY_STATE, now + 3);
    var m := Mgr(map[], map[]);
    StillSweepAt(m, os, {Queued}, now, 0);
    SweepCountZeroIff(m, first.Answers());
    assert At(Sweep(m, first.Answers()), 0).order.Some?;
    assert Used(m, first, second) == first;
    AdoptionTakesIff(map[], first, second, 0);
    AdoptionTakesIff(map[], first, second, 1);
  }
}
