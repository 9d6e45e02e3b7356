/** One backtest replay as functions on values: exits, entries, a day, a window
    (src/trader/backtest/harness.py, schemas.py). A position's id is its index among the records. */
module Replay {
  import opened Common
  import opened Schemas
  import opened ExitMonitors

  const MAX_CONTRACTS: int := 10

  datatype Pos = Pos(
    id: nat,
    ticker: string,
    contract: Contract,
    entry: real,
    target: real,
    openedOn: int,
    contracts: nat,
    peak: Option<real>,
    entrySetup: Option<Setup>)

  function CostOf(premium: real, contracts: nat): real {
    premium * (contracts * 100) as real
  }

  function EntryCost(p: Pos): real {
    CostOf(p.entry, p.contracts)
  }

  datatype Status = Open | Closed | Expired

  datatype Rec = Rec(
    pos: Pos,
    candidate: Candidate,
    entryDate: int,
    exitDate: Option<int>,
    exit: Option<Signal>,
    pnlPct: Option<real>,
    pnlDollars: Option<real>,
    status: Status)

  datatype St = St(
    open: seq<nat>,
    recs: seq<Rec>,
    cash: real,
    equity: seq<(int, real)>,
    processed: seq<int>)

  // The pluggable policy and the day's data, as pure functions of the day.
  datatype Policy = Policy(
    premium: (Contract, int) -> Option<real>,
    exit: (Pos, int) -> Option<Signal>,
    candidates: int -> seq<Candidate>,
    enter: Candidate -> bool)

  datatype Harness = Harness(
    policy: Policy,
    start: int,
    end: int,
    cap: int,
    capital: Option<real>,
    tradePct: real)
  {
    predicate Simulates() {
      capital.Some?
    }
  }

  // A candidate without a contract is never entered.
  ghost predicate Enterable(h: Harness) {
    forall c :: h.policy.enter(c) ==> c.contract.Some?
  }

  // ----- exits -----

  function Peaked(p: Pos, premium: Option<real>): Pos {
    if premium.Some? && (p.peak.None? || premium.value > p.peak.value) then p.(peak := premium) else p
  }

  function DollarPnl(pnl: real, cost: real): real {
    pnl * cost
  }

  function CloseRec(r: Rec, signal: Signal, day: int): Rec {
    r.(exitDate := Some(day), exit := Some(signal), pnlPct := Some(signal.pnl),
       pnlDollars := Some(DollarPnl(signal.pnl, EntryCost(r.pos))), status := Closed)
  }

  function ExpireRec(r: Rec, day: int): Rec {
    r.(exitDate := Some(day), status := Expired)
  }

  // What one day does to one open record: remember the peak, then close it or not.
  function ExitRec(h: Harness, r: Rec, day: int): Rec {
    var p := Peaked(r.pos, h.policy.premium(r.pos.contract, day));
    var r1 := r.(pos := p);
    match h.policy.exit(p, day)
    case None => r1
    case Some(signal) => CloseRec(r1, signal, day)
  }

  function Exits(h: Harness, r: Rec, day: int): Option<Signal> {
    h.policy.exit(Peaked(r.pos, h.policy.premium(r.pos.contract, day)), day)
  }

  function Proceeds(h: Harness, r: Rec, day: int): real {
    match Exits(h, r, day)
    case None => 0.0
    case Some(signal) => if h.Simulates() then CostOf(signal.currentPremium, r.pos.contracts) else 0.0
  }

  datatype Book = Book(open: seq<nat>, recs: seq<Rec>, cash: real)

  ghost predicate InRange(open: seq<nat>, recs: seq<Rec>) {
    forall k :: 0 <= k < |open| ==> open[k] < |recs|
  }

  // Evaluate `todo` in order; positions that stay go to the new open list.
  function ExitPass(h: Harness, day: int, todo: seq<nat>, recs: seq<Rec>, cash: real): (b: Book)
    requires InRange(todo, recs)
    ensures |b.recs| == |recs|
    decreases |todo|
  {
    if todo == [] then Book([], recs, cash)
    else
      var o := todo[0];
      var r := recs[o];
      var rest := ExitPass(h, day, todo[1..], recs[o := ExitRec(h, r, day)], cash + Proceeds(h, r, day));
      if Exits(h, r, day).None? then rest.(open := [o] + rest.open) else rest
  }

  // The outcome of a pass of which `rest` remains and `stayed` already stays open.
  function Joined(stayed: seq<nat>, rest: Book): Book {
    rest.(open := stayed + rest.open)
  }

  lemma OneExitDone(h: Harness, day: int, todo: seq<nat>, recs: seq<Rec>, cash: real, stayed: seq<nat>)
    requires InRange(todo, recs) && todo != []
    ensures var o, r := todo[0], recs[todo[0]];
            && InRange(todo[1..], recs[o := ExitRec(h, r, day)])
            && Joined(stayed, ExitPass(h, day, todo, recs, cash)) ==
               Joined(if Exits(h, r, day).None? then stayed + [o] else stayed,
                      ExitPass(h, day, todo[1..], recs[o := ExitRec(h, r, day)], cash + Proceeds(h, r, day)))
  {
    var o, r := todo[0], recs[todo[0]];
    var rest := ExitPass(h, day, todo[1..], recs[o := ExitRec(h, r, day)], cash + Proceeds(h, r, day));
    assert stayed + ([o] + rest.open) == (stayed + [o]) + rest.open;
  }

  // ----- entries -----

  function Trunc(x: real): int {
    if x >= 0.0 then x.Floor else -((-x).Floor)
  }

  // As many contracts as the budget allows, at least one and at most ten.
  function ContractsForBudget(tradePct: real, mid: real, cash: real): nat {
    if mid <= 0.0 then 1
    else MaxInt(1, MinInt(MAX_CONTRACTS, Trunc(cash * tradePct / (mid * 100.0))))
  }

  function Sized(h: Harness, mid: real, cash: real): nat {
    if h.Simulates() then ContractsForBudget(h.tradePct, mid, cash) else 1
  }

  function NewPos(id: nat, c: Candidate, day: int, contracts: nat): Pos
    requires c.contract.Some?
  {
    var k := c.contract.value;
    Pos(id, c.ticker, k, k.Mid(), match c.setup.target case Some(t) => t case None => k.strike, day, contracts,
        None, Some(c.setup))
  }

  function NewRec(id: nat, c: Candidate, day: int, contracts: nat): Rec
    requires c.contract.Some?
  {
    Rec(NewPos(id, c, day, contracts), c, day, None, None, None, None, Open)
  }

  // Enter candidates in order until the cap is reached, skipping what cash cannot pay for.
  function EnterPass(h: Harness, day: int, b: Book, cands: seq<Candidate>): Book
    requires Enterable(h)
    decreases |cands|
  {
    if cands == [] || |b.open| >= h.cap then b
    else
      var c := cands[0];
      if !h.policy.enter(c) then EnterPass(h, day, b, cands[1..])
      else
        var mid := c.contract.value.Mid();
        var contracts := Sized(h, mid, b.cash);
        var cost := CostOf(mid, contracts);
        if h.Simulates() && cost > b.cash then EnterPass(h, day, b, cands[1..])
        else EnterPass(h, day, Entered(h, b, c, day, contracts), cands[1..])
  }

  function Entered(h: Harness, b: Book, c: Candidate, day: int, contracts: nat): Book
    requires c.contract.Some?
  {
    Book(b.open + [|b.recs|], b.recs + [NewRec(|b.recs|, c, day, contracts)],
         if h.Simulates() then b.cash - CostOf(c.contract.value.Mid(), contracts) else b.cash)
  }

  // ----- a day -----

  // Mark to market; a missing or zero premium falls back to the entry premium.
  function Marked(h: Harness, p: Pos, day: int): real {
    var m := h.policy.premium(p.contract, day);
    CostOf(if m.Some? && m.value != 0.0 then m.value else p.entry, p.contracts)
  }

  function MarkedAll(h: Harness, open: seq<nat>, recs: seq<Rec>, day: int): real
    requires InRange(open, recs)
  {
    if open == [] then 0.0
    else MarkedAll(h, open[..|open| - 1], recs, day) + Marked(h, recs[open[|open| - 1]].pos, day)
  }

  function DayBook(h: Harness, st: St, day: int): Book
    requires InRange(st.open, st.recs) && Enterable(h)
  {
    var b := ExitPass(h, day, st.open, st.recs, st.cash);
    if |b.open| >= h.cap then b else EnterPass(h, day, b, h.policy.candidates(day))
  }

  // ----- what the passes keep -----

  // The open list is exactly the open-status subsequence of the records.
  ghost predicate Exact(open: seq<nat>, recs: seq<Rec>) {
    && InRange(open, recs)
    && Ascending(open)
    && (forall i: nat :: i < |recs| ==> (i in open <==> recs[i].status.Open?))
    && (forall i: nat :: i < |recs| ==> recs[i].pos.id == i)
  }

  ghost predicate Ascending(todo: seq<nat>) {
    forall j, k :: 0 <= j < k < |todo| ==> todo[j] < todo[k]
  }

  // Records outside `todo` are untouched, those in it are stepped by one day.
  lemma {:induction false} ExitPassRecords(h: Harness, day: int, todo: seq<nat>, recs: seq<Rec>, cash: real)
    requires InRange(todo, recs) && Ascending(todo)
    ensures forall i: nat :: i < |recs| ==>
              ExitPass(h, day, todo, recs, cash).recs[i] == if i in todo then ExitRec(h, recs[i], day) else recs[i]
    decreases |todo|
  {
    if todo != [] {
      var o, r, rest := todo[0], recs[todo[0]], todo[1..];
      ExitPassRecords(h, day, rest, recs[o := ExitRec(h, r, day)], cash + Proceeds(h, r, day));
      assert forall i :: i in todo <==> i == o || i in rest;
    }
  }

  // Exactly the ones that did not exit stay open, in order.
  lemma {:induction false} ExitPassOpen(h: Harness, day: int, todo: seq<nat>, recs: seq<Rec>, cash: real)
    requires InRange(todo, recs) && Ascending(todo)
    ensures var open := ExitPass(h, day, todo, recs, cash).open;
            && (forall i :: i in open <==> i in todo && Exits(h, recs[i], day).None?)
            && Ascending(open) && |open| <= |todo|
    decreases |todo|
  {
    if todo != [] {
      var o, r, rest := todo[0], recs[todo[0]], todo[1..];
      var recs' := recs[o := ExitRec(h, r, day)];
      ExitPassOpen(h, day, rest, recs', cash + Proceeds(h, r, day));
      var open := ExitPass(h, day, rest, recs', cash + Proceeds(h, r, day)).open;
      assert forall i :: i in rest ==> o < i;
      Prepend(o, open);
      forall i
        ensures i in ExitPass(h, day, todo, recs, cash).open <==> i in todo && Exits(h, recs[i], day).None?
      {
        if i in rest {
          assert recs'[i] == recs[i];
        }
        assert i in todo <==> i == o || i in rest;
      }
    }
  }

  lemma Prepend(o: nat, open: seq<nat>)
    requires Ascending(open) && forall i :: i in open ==> o < i
    ensures Ascending([o] + open)
  {
    assert forall k :: 0 <= k < |open| ==> open[k] in open;
  }

  lemma ExitPassSteps(h: Harness, day: int, todo: seq<nat>, recs: seq<Rec>, cash: real)
    requires InRange(todo, recs) && Ascending(todo)
    ensures var b := ExitPass(h, day, todo, recs, cash);
            && (forall i: nat :: i < |recs| ==> b.recs[i] == if i in todo then ExitRec(h, recs[i], day) else recs[i])
            && (forall i: nat :: i < |recs| ==> (i in b.open <==> i in todo && Exits(h, recs[i], day).None?))
            && Ascending(b.open) && InRange(b.open, recs) && |b.open| <= |todo|
  {
    ExitPassRecords(h, day, todo, recs, cash);
    ExitPassOpen(h, day, todo, recs, cash);
    var open := ExitPass(h, day, todo, recs, cash).open;
    assert forall k :: 0 <= k < |open| ==> open[k] in open;
  }

  lemma ExitKeepsExact(h: Harness, day: int, open: seq<nat>, recs: seq<Rec>, cash: real)
    requires Exact(open, recs)
    ensures Exact(ExitPass(h, day, open, recs, cash).open, ExitPass(h, day, open, recs, cash).recs)
  {
    ExitPassSteps(h, day, open, recs, cash);
  }

  lemma EnteredKeepsExact(h: Harness, b: Book, c: Candidate, day: int, contracts: nat)
    requires Exact(b.open, b.recs) && c.contract.Some?
    ensures Exact(Entered(h, b, c, day, contracts).open, Entered(h, b, c, day, contracts).recs)
  {
    var b' := Entered(h, b, c, day, contracts);
    assert forall i: nat :: i in b'.open <==> i in b.open || i == |b.recs|;
  }

  lemma {:induction false} EnterKeepsExact(h: Harness, day: int, b: Book, cands: seq<Candidate>)
    requires Enterable(h) && Exact(b.open, b.recs)
    ensures var b' := EnterPass(h, day, b, cands);
            && Exact(b'.open, b'.recs) && b.recs <= b'.recs && |b'.open| <= MaxInt(|b.open|, h.cap)
    decreases |cands|
  {
    if cands != [] && |b.open| < h.cap {
      var c := cands[0];
      if h.policy.enter(c) {
        var contracts := Sized(h, c.contract.value.Mid(), b.cash);
        EnteredKeepsExact(h, b, c, day, contracts);
        EnterKeepsExact(h, day, Entered(h, b, c, day, contracts), cands[1..]);
      }
      EnterKeepsExact(h, day, b, cands[1..]);
    }
  }

  lemma DayKeepsExact(h: Harness, st: St, day: int)
    requires Enterable(h) && Exact(st.open, st.recs)
    ensures var b := DayBook(h, st, day);
            && Exact(b.open, b.recs) && |st.recs| <= |b.recs| && |b.open| <= MaxInt(|st.open|, h.cap)
    ensures forall i: nat :: i < |st.recs| ==>
              DayBook(h, st, day).recs[i] == if st.recs[i].status.Open? then ExitRec(h, st.recs[i], day) else st.recs[i]
  {
    ExitPassSteps(h, day, st.open, st.recs, st.cash);
    ExitKeepsExact(h, day, st.open, st.recs, st.cash);
    var b := ExitPass(h, day, st.open, st.recs, st.cash);
    EnterKeepsExact(h, day, b, h.policy.candidates(day));
  }

  // ----- stepping days -----

  // The state after a day that ended with these books.
  function Closing(h: Harness, b: Book, equity: seq<(int, real)>, processed: seq<int>, day: int): St
    requires InRange(b.open, b.recs)
  {
    St(b.open, b.recs, b.cash,
       if h.Simulates() then equity + [(day, b.cash + MarkedAll(h, b.open, b.recs, day))] else equity,
       processed + [day])
  }

  function StepDay(h: Harness, st: St, day: int): St
    requires Enterable(h) && Exact(st.open, st.recs)
  {
    DayKeepsExact(h, st, day);
    Closing(h, DayBook(h, st, day), st.equity, st.processed, day)
  }

  predicate InWindow(h: Harness, day: int) {
    h.start <= day <= h.end
  }

  ghost predicate Ready(h: Harness, st: St) {
    Enterable(h) && Exact(st.open, st.recs)
  }

  // Walk the available dates, skipping those already processed before the call and those outside the window.
  function Advance(h: Harness, already: set<int>, st: St, dates: seq<int>): (st': St)
    requires Ready(h, st)
    ensures Ready(h, st')
    decreases |dates|
  {
    if dates == [] then st
    else if dates[0] in already || !InWindow(h, dates[0]) then Advance(h, already, st, dates[1..])
    else
      DayKeepsExact(h, st, dates[0]);
      Advance(h, already, StepDay(h, st, dates[0]), dates[1..])
  }

  function ProcessedSet(st: St): set<int> {
    set d | d in st.processed
  }

  function StepForward(h: Harness, st: St, dates: seq<int>): (st': St)
    requires Ready(h, st)
    ensures Ready(h, st')
  {
    Advance(h, ProcessedSet(st), st, dates)
  }

  function FreshState(h: Harness): St {
    St([], [], match h.capital case Some(c) => c case None => 0.0, [], [])
  }

  // A one-shot run walks every available date inside the window.
  function WindowWalk(h: Harness, st: St, dates: seq<int>): (st': St)
    requires Ready(h, st)
    ensures Ready(h, st')
    decreases |dates|
  {
    if dates == [] then st
    else
      var n := |dates| - 1;
      var before := WindowWalk(h, st, dates[..n]);
      if !InWindow(h, dates[n]) then before
      else
        DayKeepsExact(h, before, dates[n]);
        StepDay(h, before, dates[n])
  }

  // At its end it expires whatever is still open.
  function ExpireAll(recs: seq<Rec>, open: seq<nat>, day: int): (out: seq<Rec>)
    requires InRange(open, recs)
    ensures |out| == |recs|
    decreases |open|
  {
    if open == [] then recs
    else
      var n := |open| - 1;
      var done := ExpireAll(recs, open[..n], day);
      done[open[n] := ExpireRec(done[open[n]], day)]
  }

  function RunRecords(h: Harness, dates: seq<int>): seq<Rec>
    requires Enterable(h)
  {
    var st := WindowWalk(h, FreshState(h), dates);
    ExpireAll(st.recs, st.open, h.end)
  }
}
