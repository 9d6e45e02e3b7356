/** The replay on the heap: positions shared by the open list and the records, both mutated in place
    (src/trader/backtest/harness.py, schemas.py, state.py). Every method is tied to module Replay. */
module Harnesses {
  import opened Common
  import opened Schemas
  import opened ExitMonitors
  import opened Replay
  import opened ReplayTheorems
  import opened ReplayResume

  class BacktestPosition {
    const id: nat
    const ticker: string
    const contract: Contract
    const entry: real
    const target: real
    const openedOn: int
    const contracts: nat
    const entrySetup: Option<Setup>
    var peak: Option<real>

    constructor (p: Pos)
      ensures View() == p
    {
      id, ticker, contract, entry := p.id, p.ticker, p.contract, p.entry;
      target, openedOn, contracts := p.target, p.openedOn, p.contracts;
      entrySetup, peak := p.entrySetup, p.peak;
    }

    function View(): Pos
      reads this
    {
      Pos(id, ticker, contract, entry, target, openedOn, contracts, peak, entrySetup)
    }
  }

  class BacktestTradeRecord {
    const position: BacktestPosition
    const candidate: Candidate
    const entryDate: int
    var exitDate: Option<int>
    var exitSignal: Option<Signal>
    var pnlPct: Option<real>
    var pnlDollars: Option<real>
    var status: Status

    constructor (position: BacktestPosition, candidate: Candidate, entryDate: int)
      ensures this.position == position
      ensures View() == Rec(position.View(), candidate, entryDate, None, None, None, None, Open)
    {
      this.position, this.candidate, this.entryDate := position, candidate, entryDate;
      exitDate, exitSignal, pnlPct, pnlDollars, status := None, None, None, None, Open;
    }

    constructor Restore(position: BacktestPosition, d: RecDoc)
      ensures this.position == position
      ensures View() == RecFromDoc(d).(pos := position.View())
    {
      this.position, candidate, entryDate := position, d.candidate, d.entryDate;
      exitDate, exitSignal, pnlPct, pnlDollars, status := d.exitDate, d.exit, d.pnlPct, d.pnlDollars, d.status;
    }

    function View(): Rec
      reads this, position
    {
      Rec(position.View(), candidate, entryDate, exitDate, exitSignal, pnlPct, pnlDollars, status)
    }

    method Close(signal: Signal, day: int)
      modifies this
      ensures View() == CloseRec(old(View()), signal, day)
    {
      exitDate := Some(day);
      exitSignal := Some(signal);
      pnlPct := Some(signal.pnl);
      pnlDollars := Some(DollarPnl(signal.pnl, EntryCost(position.View())));
      status := Closed;
    }

    method Expire(day: int)
      modifies this
      ensures View() == ExpireRec(old(View()), day)
    {
      exitDate := Some(day);
      status := Expired;
    }
  }

  ghost function Views(rs: seq<BacktestTradeRecord>): (vs: seq<Rec>)
    reads rs, set r | r in rs :: r.position
    ensures |vs| == |rs|
  {
    seq(|rs|, i requires 0 <= i < |rs| reads rs, set r | r in rs :: r.position => rs[i].View())
  }

  function Ids(ps: seq<BacktestPosition>): (ids: seq<nat>)
    ensures |ids| == |ps|
  {
    seq(|ps|, k requires 0 <= k < |ps| => ps[k].id)
  }

  class ReplayState {
    var openPositions: seq<BacktestPosition>
    var records: seq<BacktestTradeRecord>
    var cash: real
    var equity: seq<(int, real)>
    var processed: seq<int>

    // Ids are positions in the record list, and an open position is the very object its record holds.
    ghost predicate Valid()
      reads this, records
    {
      && (forall i: nat :: i < |records| ==> records[i].position.id == i)
      && (forall k: nat :: k < |openPositions| ==>
            openPositions[k].id < |records| && records[openPositions[k].id].position == openPositions[k])
    }

    ghost function Repr(): set<object>
      reads this, records
    {
      var recs: set<object> := set r | r in records :: r;
      var positions: set<object> := set r | r in records :: r.position;
      {this} + recs + positions
    }

    ghost function State(): St
      reads this, records, set r | r in records :: r.position
    {
      St(Ids(openPositions), Views(records), cash, equity, processed)
    }

    ghost function Account(): Book
      reads this, records, set r | r in records :: r.position
    {
      Book(Ids(openPositions), Views(records), cash)
    }

    constructor (cash: real)
      ensures Valid() && fresh(Repr())
      ensures State() == St([], [], cash, [], [])
    {
      openPositions, records, this.cash, equity, processed := [], [], cash, [], [];
    }

    constructor Of(
      open: seq<BacktestPosition>, records: seq<BacktestTradeRecord>, cash: real, equity: seq<(int, real)>,
      processed: seq<int>)
      ensures openPositions == open && this.records == records
      ensures this.cash == cash && this.equity == equity && this.processed == processed
    {
      openPositions, this.records, this.cash, this.equity, this.processed := open, records, cash, equity, processed;
    }
  }

  class BacktestHarness {
    const h: Harness

    constructor (h: Harness)
      ensures this.h == h
    {
      this.h := h;
    }

    // Remember the peak, then ask the policy; close the record when it says so.
    method ExitOne(records: seq<BacktestTradeRecord>, o: nat, day: int)
      returns (stays: bool, proceeds: real)
      requires o < |records| && forall i: nat :: i < |records| ==> records[i].position.id == i
      modifies records[o], records[o].position
      ensures Views(records) == old(Views(records))[o := ExitRec(h, old(records[o].View()), day)]
      ensures stays == Exits(h, old(records[o].View()), day).None?
      ensures proceeds == Proceeds(h, old(records[o].View()), day)
    {
      var record, pos := records[o], records[o].position;
      ghost var before := Views(records);
      var premium := h.policy.premium(pos.contract, day);
      if premium.Some? && (pos.peak.None? || premium.value > pos.peak.value) {
        pos.peak := premium;
      }
      var signal := h.policy.exit(pos.View(), day);
      stays, proceeds := signal.None?, 0.0;
      if signal.Some? {
        record.Close(signal.value, day);
        if h.Simulates() {
          proceeds := CostOf(signal.value.currentPremium, pos.contracts);
        }
      }
      assert record.View() == ExitRec(h, before[o], day);
      forall i: nat | i < |records| && i != o
        ensures records[i].View() == before[i]
      {
        assert records[i].position.id == i;
      }
      assert Views(records) == before[o := ExitRec(h, before[o], day)];
    }

    // One turn of the exit loop; `left` are the ids still to evaluate, this one first.
    method ExitNext(
      day: int, records: seq<BacktestTradeRecord>, ghost left: seq<nat>, pos: BacktestPosition,
      stillOpen: seq<BacktestPosition>, cash: real)
      returns (stillOpen': seq<BacktestPosition>, cash': real)
      requires forall i: nat :: i < |records| ==> records[i].position.id == i
      requires left != [] && left[0] == pos.id && InRange(left, Views(records))
      modifies records[pos.id], records[pos.id].position
      ensures stillOpen' == stillOpen || stillOpen' == stillOpen + [pos]
      ensures InRange(left[1..], Views(records))
      ensures Joined(Ids(stillOpen'), ExitPass(h, day, left[1..], Views(records), cash')) ==
              old(Joined(Ids(stillOpen), ExitPass(h, day, left, Views(records), cash)))
    {
      OneExitDone(h, day, left, Views(records), cash, Ids(stillOpen));
      var stays, proceeds := ExitOne(records, pos.id, day);
      cash' := cash + proceeds;
      stillOpen' := stillOpen;
      if stays {
        assert Ids(stillOpen + [pos]) == Ids(stillOpen) + [pos.id];
        stillOpen' := stillOpen + [pos];
      }
    }

    // The exit loop: which positions stay, and the cash after all proceeds.
    method ExitEach(day: int, todo: seq<BacktestPosition>, records: seq<BacktestTradeRecord>, cash0: real)
      returns (stillOpen: seq<BacktestPosition>, cash: real)
      requires forall i: nat :: i < |records| ==> records[i].position.id == i
      requires forall k: nat :: k < |todo| ==> todo[k].id < |records|
      modifies records, set r | r in records :: r.position
      ensures forall j :: 0 <= j < |stillOpen| ==> stillOpen[j] in todo
      ensures Book(Ids(stillOpen), Views(records), cash) == ExitPass(h, day, Ids(todo), old(Views(records)), cash0)
    {
      ghost var left := Ids(todo);
      ghost var full := ExitPass(h, day, left, Views(records), cash0);
      stillOpen, cash := [], cash0;
      for k := 0 to |todo|
        invariant forall j :: 0 <= j < |stillOpen| ==> stillOpen[j] in todo
        invariant left == Ids(todo)[k..] && InRange(left, Views(records))
        invariant Joined(Ids(stillOpen), ExitPass(h, day, left, Views(records), cash)) == full
      {
        assert left[0] == todo[k].id;
        stillOpen, cash := ExitNext(day, records, left, todo[k], stillOpen, cash);
        left := left[1..];
      }
    }

    method RunExits(day: int, state: ReplayState)
      requires state.Valid() && InRange(Ids(state.openPositions), Views(state.records))
      modifies state.Repr()
      ensures state.Valid() && state.records == old(state.records)
      ensures state.Account() == ExitPass(h, day, old(Ids(state.openPositions)), old(Views(state.records)),
          old(state.cash))
      ensures state.equity == old(state.equity) && state.processed == old(state.processed)
    {
      var todo, records := state.openPositions, state.records;
      assert forall r: BacktestTradeRecord :: r in records ==> r in state.Repr() && r.position in state.Repr();
      var stillOpen, cash := ExitEach(day, todo, records, state.cash);
      ghost var views := Views(records);
      state.openPositions, state.cash := stillOpen, cash;
      assert Views(state.records) == views;
    }

    method NewTrade(id: nat, day: int, c: Candidate, contracts: nat) returns (record: BacktestTradeRecord)
      requires c.contract.Some?
      ensures fresh(record) && fresh(record.position) && record.position.id == id
      ensures record.View() == NewRec(id, c, day, contracts)
    {
      var pos := new BacktestPosition(NewPos(id, c, day, contracts));
      record := new BacktestTradeRecord(pos, c, day);
    }

    method OpenPosition(day: int, c: Candidate, contracts: nat, state: ReplayState)
      requires state.Valid() && c.contract.Some?
      modifies state
      ensures state.Valid() && fresh(state.Repr() - old(state.Repr()))
      ensures state.Account() == Entered(h, old(state.Account()), c, day, contracts)
      ensures state.equity == old(state.equity) && state.processed == old(state.processed)
    {
      var record := NewTrade(|state.records|, day, c, contracts);
      ghost var before, ids := Views(state.records), Ids(state.openPositions);
      if h.Simulates() {
        state.cash := state.cash - CostOf(c.contract.value.Mid(), contracts);
      }
      state.openPositions := state.openPositions + [record.position];
      state.records := state.records + [record];
      assert Views(state.records) == before + [record.View()];
      assert Ids(state.openPositions) == ids + [|before|];
    }

    // The entry scan: stop at the cap, skip what the policy or the cash refuses.
    method ScanEntries(day: int, cands: seq<Candidate>, state: ReplayState)
      requires state.Valid() && Enterable(h)
      modifies state
      ensures state.Valid() && fresh(state.Repr() - old(state.Repr()))
      ensures state.Account() == EnterPass(h, day, old(state.Account()), cands)
      ensures state.equity == old(state.equity) && state.processed == old(state.processed)
    {
      ghost var full := EnterPass(h, day, state.Account(), cands);
      var i := 0;
      while i < |cands|
        invariant 0 <= i <= |cands| && state.Valid() && fresh(state.Repr() - old(state.Repr()))
        invariant state.equity == old(state.equity) && state.processed == old(state.processed)
        invariant EnterPass(h, day, state.Account(), cands[i..]) == full
      {
        if |state.openPositions| >= h.cap {
          break;
        }
        var c := cands[i];
        assert cands[i..][0] == c && cands[i..][1..] == cands[i + 1..];
        if h.policy.enter(c) {
          var mid := c.contract.value.Mid();
          var contracts := 1;
          if h.Simulates() {
            contracts := ContractsForBudget(h.tradePct, mid, state.cash);
          }
          if !(h.Simulates() && CostOf(mid, contracts) > state.cash) {
            OpenPosition(day, c, contracts, state);
          }
        }
        i := i + 1;
      }
    }

    method MarkToMarket(day: int, state: ReplayState) returns (total: real)
      requires state.Valid()
      ensures InRange(Ids(state.openPositions), Views(state.records))
      ensures total == MarkedAll(h, Ids(state.openPositions), Views(state.records), day)
    {
      total := 0.0;
      ghost var ids, views := Ids(state.openPositions), Views(state.records);
      for k := 0 to |state.openPositions|
        invariant total == MarkedAll(h, ids[..k], views, day)
      {
        var p := state.openPositions[k];
        assert ids[..k + 1][..k] == ids[..k];
        assert views[ids[k]].pos == p.View();
        var premium := h.policy.premium(p.contract, day);
        total := total + CostOf(if premium.Some? && premium.value != 0.0 then premium.value else p.entry, p.contracts);
      }
      assert ids[..|ids|] == ids;
    }

    // Exits first, then entries while below the cap.
    method TradeDay(day: int, state: ReplayState)
      requires state.Valid() && Ready(h, state.State())
      modifies state.Repr()
      ensures state.Valid() && fresh(state.Repr() - old(state.Repr()))
      ensures state.Account() == DayBook(h, old(state.State()), day)
      ensures state.equity == old(state.equity) && state.processed == old(state.processed)
    {
      RunExits(day, state);
      assert state.Repr() == old(state.Repr());
      if |state.openPositions| < h.cap {
        ScanEntries(day, h.policy.candidates(day), state);
      }
    }

    // The equity snapshot, and the day is done.
    method CloseDay(day: int, state: ReplayState)
      requires state.Valid()
      modifies state`equity, state`processed
      ensures state.Valid() && state.Repr() == old(state.Repr())
      ensures InRange(old(state.Account().open), old(state.Account().recs))
      ensures state.State() == Closing(h, old(state.Account()), old(state.equity), old(state.processed), day)
    {
      ghost var account := state.Account();
      var marked := MarkToMarket(day, state);
      if h.Simulates() {
        state.equity := state.equity + [(day, state.cash + marked)];
      }
      state.processed := state.processed + [day];
      assert state.Account() == account;
    }

    method StepOneDay(day: int, state: ReplayState)
      requires state.Valid() && Ready(h, state.State())
      modifies state.Repr()
      ensures state.Valid() && fresh(state.Repr() - old(state.Repr()))
      ensures state.State() == StepDay(h, old(state.State()), day)
    {
      TradeDay(day, state);
      CloseDay(day, state);
    }

    // One date of a walk: skip it when it was processed before or lies outside the window.
    method StepIfNew(already: set<int>, day: int, state: ReplayState)
      requires state.Valid() && Ready(h, state.State())
      modifies state.Repr()
      ensures state.Valid() && fresh(state.Repr() - old(state.Repr()))
      ensures Ready(h, state.State())
      ensures state.State() == Advance(h, already, old(state.State()), [day])
    {
      if day !in already && InWindow(h, day) {
        DayKeepsExact(h, state.State(), day);
        StepOneDay(day, state);
      }
    }

    method Walk(already: set<int>, dates: seq<int>, state: ReplayState)
      requires state.Valid() && Ready(h, state.State())
      modifies state.Repr()
      ensures state.Valid() && fresh(state.Repr() - old(state.Repr()))
      ensures Ready(h, state.State()) && state.State() == Advance(h, already, old(state.State()), dates)
    {
      ghost var st := state.State();
      for i := 0 to |dates|
        invariant state.Valid() && fresh(state.Repr() - old(state.Repr())) && Ready(h, state.State())
        invariant state.State() == Advance(h, already, st, dates[..i])
      {
        AdvanceNext(h, already, st, dates, i);
        StepIfNew(already, dates[i], state);
      }
      assert dates[..|dates|] == dates;
    }

    // Advance through every available date not processed before; open positions stay open.
    method Forward(dates: seq<int>, state: ReplayState)
      requires state.Valid() && Ready(h, state.State())
      modifies state.Repr()
      ensures state.Valid() && fresh(state.Repr() - old(state.Repr()))
      ensures Ready(h, state.State()) && state.State() == StepForward(h, old(state.State()), dates)
    {
      var already := set d | d in state.processed;
      Walk(already, dates, state);
    }

    // One date of a one-shot run: only the window matters.
    method StepInWindow(day: int, state: ReplayState)
      requires state.Valid() && Ready(h, state.State())
      modifies state.Repr()
      ensures state.Valid() && fresh(state.Repr() - old(state.Repr()))
      ensures Ready(h, state.State())
      ensures state.State() == if InWindow(h, day) then StepDay(h, old(state.State()), day) else old(state.State())
    {
      if InWindow(h, day) {
        DayKeepsExact(h, state.State(), day);
        StepOneDay(day, state);
      }
    }

    method Replayed(dates: seq<int>) returns (state: ReplayState)
      requires Enterable(h)
      ensures state.Valid() && fresh(state.Repr()) && Ready(h, state.State())
      ensures state.State() == WindowWalk(h, FreshState(h), dates)
    {
      state := new ReplayState(match h.capital case Some(c) => c case None => 0.0);
      for i := 0 to |dates|
        invariant state.Valid() && fresh(state.Repr()) && Ready(h, state.State())
        invariant state.State() == WindowWalk(h, FreshState(h), dates[..i])
      {
        assert dates[..i + 1][..i] == dates[..i];
        StepInWindow(dates[i], state);
      }
      assert dates[..|dates|] == dates;
    }

    // One fresh pass over the window; what is still open at its end expires.
    method Run(dates: seq<int>) returns (state: ReplayState)
      requires Enterable(h)
      ensures Views(state.records) == RunRecords(h, dates)
      ensures state.equity == WindowWalk(h, FreshState(h), dates).equity
    {
      state := Replayed(dates);
      var records := state.records;
      assert forall r: BacktestTradeRecord :: r in records ==> r in state.Repr();
      assert forall i :: 0 <= i < |records| ==> records[i] in records && fresh(records[i]);
      ExpireOpen(state.openPositions, records);
    }

    method ExpireOpen(open: seq<BacktestPosition>, records: seq<BacktestTradeRecord>)
      requires forall i: nat :: i < |records| ==> records[i].position.id == i
      requires forall k: nat :: k < |open| ==> open[k].id < |records|
      modifies records
      ensures Views(records) == ExpireAll(old(Views(records)), Ids(open), h.end)
    {
      ghost var before, ids := Views(records), Ids(open);
      for k := 0 to |open|
        invariant Views(records) == ExpireAll(before, ids[..k], h.end)
      {
        assert ids[..k + 1][..k] == ids[..k];
        var o := open[k].id;
        ghost var now := Views(records);
        records[o].Expire(h.end);
        forall i: nat | i < |records| && i != o
          ensures records[i].View() == now[i]
        {
          assert records[i].position.id == i;
        }
        assert Views(records) == now[o := ExpireRec(now[o], h.end)];
      }
      assert ids[..|ids|] == ids;
    }
  }

  // ----- saving and resuming -----

  method ToDict(state: ReplayState) returns (d: Doc)
    requires state.Valid()
    ensures InRange(state.State().open, state.State().recs) && d == ToDoc(state.State())
  {
    var ids := seq(|state.openPositions|,
        k requires 0 <= k < |state.openPositions| reads state => state.openPositions[k].id);
    var recs: seq<RecDoc> := [];
    for i := 0 to |state.records|
      invariant |recs| == i && forall j :: 0 <= j < i ==> recs[j] == RecToDoc(state.records[j].View())
    {
      recs := recs + [RecToDoc(state.records[i].View())];
    }
    d := Doc(ids, recs, state.cash, state.equity, state.processed);
    assert d.recs == ToDoc(state.State()).recs;
    assert d.openIds == ToDoc(state.State()).openIds;
  }

  method RestoreRecords(docs: seq<RecDoc>) returns (records: seq<BacktestTradeRecord>)
    ensures fresh(set r | r in records) && fresh(set r | r in records :: r.position)
    ensures Views(records) == RestoredAll(docs)
  {
    records := [];
    for i := 0 to |docs|
      invariant |records| == i && fresh(set r | r in records) && fresh(set r | r in records :: r.position)
      invariant forall j: nat :: j < i ==> records[j].View() == RecFromDoc(docs[j])
    {
      var pos := new BacktestPosition(PosFromDoc(docs[i].pos));
      var record := new BacktestTradeRecord.Restore(pos, docs[i]);
      records := records + [record];
    }
    assert Views(records) == RestoredAll(docs);
  }

  // The dictionary from ids to records; of records with one id the last counts.
  method IndexById(records: seq<BacktestTradeRecord>) returns (byId: map<nat, nat>)
    ensures forall id: nat :: ById(Views(records), id) == if id in byId then Some(byId[id]) else None
  {
    byId := map[];
    ghost var views := Views(records);
    for i := 0 to |records|
      invariant forall id: nat :: ById(views[..i], id) == if id in byId then Some(byId[id]) else None
    {
      assert views[..i + 1][..i] == views[..i] && views[i].pos.id == records[i].position.id;
      byId := byId[records[i].position.id := i];
    }
    assert views[..|records|] == views;
  }

  // The positions of the open ids, out of the records themselves; unknown ids are dropped.
  method ResolveOpen(ids: seq<nat>, records: seq<BacktestTradeRecord>) returns (open: seq<BacktestPosition>)
    ensures InRange(Resolved(ids, Views(records)), Views(records))
    ensures open == Positions(Resolved(ids, Views(records)), records)
  {
    open := [];
    ghost var views := Views(records);
    var byId := IndexById(records);
    for k := 0 to |ids|
      invariant InRange(Resolved(ids[..k], views), views)
      invariant open == Positions(Resolved(ids[..k], views), records)
    {
      assert ids[..k + 1][..k] == ids[..k];
      ByIdInRange(views, ids[k]);
      if ids[k] in byId {
        open := open + [records[byId[ids[k]]].position];
      }
    }
    assert ids[..|ids|] == ids;
  }

  function Positions(at: seq<nat>, records: seq<BacktestTradeRecord>): (ps: seq<BacktestPosition>)
    requires forall k :: 0 <= k < |at| ==> at[k] < |records|
    ensures |ps| == |at|
  {
    seq(|at|, k requires 0 <= k < |at| => records[at[k]].position)
  }

  // Fresh objects throughout; each open position is again the object its record holds. When ids are positions
  // in the record list, as in everything saved, the state is again one the harness can step.
  method FromDict(d: Doc) returns (state: ReplayState)
    ensures fresh(state.Repr())
    ensures Views(state.records) == FromDoc(d).recs && InRange(FromDoc(d).open, FromDoc(d).recs)
    ensures state.openPositions == Positions(FromDoc(d).open, state.records)
    ensures state.cash == d.cash && state.equity == d.equity && state.processed == d.processed
    ensures (forall i: nat :: i < |d.recs| ==> d.recs[i].pos.id == i) ==> state.Valid() && state.State() == FromDoc(d)
  {
    var records := RestoreRecords(d.recs);
    var open := ResolveOpen(d.openIds, records);
    state := new ReplayState.Of(open, records, d.cash, d.equity, d.processed);
    assert Views(state.records) == FromDoc(d).recs;
    if forall i: nat :: i < |d.recs| ==> d.recs[i].pos.id == i {
      forall i: nat | i < |records|
        ensures records[i].position.id == i
      {
        assert Views(records)[i].pos.id == records[i].position.id;
      }
      assert Ids(open) == FromDoc(d).open;
    }
  }
}
