/** Saving a replay to JSON and resuming it (src/trader/backtest/state.py), and what the two fields the
    save drops cost under the standard policy (src/trader/backtest/policy.py). */
module ReplayResume {
  import opened Common
  import opened Schemas
  import opened ExitMonitors
  import opened ExitTheorems
  import opened Replay
  import opened ReplayTheorems

  // ----- the JSON form -----

  // A position without its peak premium and its entry setup.
  datatype PosDoc = PosDoc(
    id: nat, ticker: string, contract: Contract, entry: real, target: real, openedOn: int, contracts: nat)

  datatype RecDoc = RecDoc(
    pos: PosDoc,
    candidate: Candidate,
    entryDate: int,
    exitDate: Option<int>,
    exit: Option<Signal>,
    pnlPct: Option<real>,
    pnlDollars: Option<real>,
    status: Status)

  datatype Doc = Doc(
    openIds: seq<nat>, recs: seq<RecDoc>, cash: real, equity: seq<(int, real)>, processed: seq<int>)

  function PosToDoc(p: Pos): PosDoc {
    PosDoc(p.id, p.ticker, p.contract, p.entry, p.target, p.openedOn, p.contracts)
  }

  function PosFromDoc(d: PosDoc): Pos {
    Pos(d.id, d.ticker, d.contract, d.entry, d.target, d.openedOn, d.contracts, None, None)
  }

  function RecToDoc(r: Rec): RecDoc {
    RecDoc(PosToDoc(r.pos), r.candidate, r.entryDate, r.exitDate, r.exit, r.pnlPct, r.pnlDollars, r.status)
  }

  function RecFromDoc(d: RecDoc): Rec {
    Rec(PosFromDoc(d.pos), d.candidate, d.entryDate, d.exitDate, d.exit, d.pnlPct, d.pnlDollars, d.status)
  }

  function DocAll(recs: seq<Rec>): seq<RecDoc> {
    seq(|recs|, i requires 0 <= i < |recs| => RecToDoc(recs[i]))
  }

  function OpenIds(open: seq<nat>, recs: seq<Rec>): seq<nat>
    requires InRange(open, recs)
  {
    seq(|open|, k requires 0 <= k < |open| => recs[open[k]].pos.id)
  }

  function ToDoc(st: St): Doc
    requires InRange(st.open, st.recs)
  {
    Doc(OpenIds(st.open, st.recs), DocAll(st.recs), st.cash, st.equity, st.processed)
  }

  // Index of the last record whose position has this id, as a dictionary built in order would keep it.
  function ById(recs: seq<Rec>, id: nat): Option<nat> {
    if recs == [] then None
    else if recs[|recs| - 1].pos.id == id then Some(|recs| - 1)
    else ById(recs[..|recs| - 1], id)
  }

  // Of the records with one id the last counts.
  lemma {:induction false} ByIdIsLast(recs: seq<Rec>, id: nat)
    ensures match ById(recs, id)
            case None => forall i :: 0 <= i < |recs| ==> recs[i].pos.id != id
            case Some(i) => i < |recs| && recs[i].pos.id == id && forall j :: i < j < |recs| ==> recs[j].pos.id != id
  {
    if recs != [] {
      var rest := recs[..|recs| - 1];
      ByIdIsLast(rest, id);
      assert forall i :: 0 <= i < |rest| ==> rest[i] == recs[i];
    }
  }

  function Resolved(ids: seq<nat>, recs: seq<Rec>): seq<nat> {
    if ids == [] then []
    else
      var n := |ids| - 1;
      Resolved(ids[..n], recs) + match ById(recs, ids[n]) case Some(i) => [i] case None => []
  }

  ghost predicate SomeIdIs(ids: seq<nat>, recs: seq<Rec>, i: nat) {
    exists k :: 0 <= k < |ids| && ById(recs, ids[k]) == Some(i)
  }

  // The records of the known ids, and no others.
  lemma {:induction false} ResolvedAre(ids: seq<nat>, recs: seq<Rec>, i: nat)
    ensures i in Resolved(ids, recs) <==> SomeIdIs(ids, recs, i)
  {
    if ids != [] {
      var n := |ids| - 1;
      ResolvedAre(ids[..n], recs, i);
      if SomeIdIs(ids[..n], recs, i) {
        var k :| 0 <= k < n && ById(recs, ids[..n][k]) == Some(i);
        assert ById(recs, ids[k]) == Some(i);
      }
      if SomeIdIs(ids, recs, i) && ById(recs, ids[n]) != Some(i) {
        var k :| 0 <= k < n && ById(recs, ids[k]) == Some(i);
        assert ById(recs, ids[..n][k]) == Some(i);
      }
    }
  }

  // In the order of the ids, when all are known.
  lemma {:induction false} ResolvedInOrder(ids: seq<nat>, recs: seq<Rec>)
    requires forall k :: 0 <= k < |ids| ==> ById(recs, ids[k]).Some?
    ensures |Resolved(ids, recs)| == |ids|
    ensures forall k :: 0 <= k < |ids| ==> Resolved(ids, recs)[k] == ById(recs, ids[k]).value
  {
    if ids != [] {
      var n := |ids| - 1;
      assert forall k :: 0 <= k < n ==> ids[..n][k] == ids[k];
      ResolvedInOrder(ids[..n], recs);
    }
  }

  function RestoredAll(docs: seq<RecDoc>): seq<Rec> {
    seq(|docs|, i requires 0 <= i < |docs| => RecFromDoc(docs[i]))
  }

  function FromDoc(d: Doc): St {
    var recs := RestoredAll(d.recs);
    St(Resolved(d.openIds, recs), recs, d.cash, d.equity, d.processed)
  }

  // ----- the round trip -----

  function StrippedRec(r: Rec): Rec {
    r.(pos := r.pos.(peak := None, entrySetup := None))
  }

  function StrippedAll(recs: seq<Rec>): seq<Rec> {
    seq(|recs|, i requires 0 <= i < |recs| => StrippedRec(recs[i]))
  }

  function Stripped(st: St): St {
    st.(recs := StrippedAll(st.recs))
  }

  lemma DocsRoundTrip(recs: seq<Rec>)
    ensures RestoredAll(DocAll(recs)) == StrippedAll(recs)
    ensures DocAll(StrippedAll(recs)) == DocAll(recs)
  {
  }

  lemma {:induction false} ByIdInRange(recs: seq<Rec>, id: nat)
    ensures ById(recs, id).Some? ==> ById(recs, id).value < |recs|
  {
    if recs != [] {
      ByIdInRange(recs[..|recs| - 1], id);
    }
  }

  lemma {:induction false} ByIdFindsIndex(recs: seq<Rec>, id: nat)
    requires forall i: nat :: i < |recs| ==> recs[i].pos.id == i
    ensures ById(recs, id) == if id < |recs| then Some(id) else None
  {
    if recs != [] && id != |recs| - 1 {
      ByIdFindsIndex(recs[..|recs| - 1], id);
    }
  }

  lemma {:induction false} ResolvesToItself(ids: seq<nat>, recs: seq<Rec>)
    requires forall i: nat :: i < |recs| ==> recs[i].pos.id == i
    requires InRange(ids, recs)
    ensures Resolved(ids, recs) == ids
  {
    if ids != [] {
      ByIdFindsIndex(recs, ids[|ids| - 1]);
      ResolvesToItself(ids[..|ids| - 1], recs);
    }
  }

  // Without their peaks and setups the records are as open and as numbered as before.
  lemma StrippedExact(open: seq<nat>, recs: seq<Rec>)
    requires Exact(open, recs)
    ensures Exact(open, StrippedAll(recs))
  {
    var bare := StrippedAll(recs);
    assert forall i: nat :: i < |recs| ==> bare[i].status == recs[i].status && bare[i].pos.id == recs[i].pos.id;
  }

  lemma OpenIdsAreOpen(open: seq<nat>, recs: seq<Rec>)
    requires Exact(open, recs)
    ensures OpenIds(open, recs) == open
  {
  }

  // MAIN RESULT. Resuming restores everything but the peaks and entry setups, and the resumed state is
  // again one the harness can step.
  lemma ResumeRestores(st: St)
    requires Exact(st.open, st.recs)
    ensures FromDoc(ToDoc(st)) == Stripped(st)
    ensures Exact(Stripped(st).open, Stripped(st).recs)
    ensures ToDoc(Stripped(st)) == ToDoc(st)
  {
    StrippedExact(st.open, st.recs);
    OpenIdsAreOpen(st.open, st.recs);
    OpenIdsAreOpen(st.open, StrippedAll(st.recs));
    DocsRoundTrip(st.recs);
    ResolvesToItself(st.open, StrippedAll(st.recs));
  }

  // ----- the standard policy -----

  // One day's market data, by day.
  datatype Feed = Feed(
    spot: (string, int) -> Option<real>,
    premium: (Contract, int) -> Option<real>,
    setup: (string, int, real) -> Option<Setup>,
    context: (string, int) -> Context)

  function AsExitPosition(p: Pos): Position {
    Position(ReplayKey(p.id), p.contract, p.entry, Some(p.target), p.openedOn, 1, None, p.peak, p.entrySetup)
  }

  function DayTick(feed: Feed, p: Pos, day: int, spot: real, premium: real): Tick {
    Tick(spot, premium, MaxInt(p.contract.expiry - day, 0), feed.setup(p.ticker, day, spot),
         Some(feed.context(p.ticker, day)), None, None)
  }

  // No data, no exit. (A zero entry premium makes src/trader/exits/monitor.py:197 raise;
  // here it is no exit.)
  function StandardExit(mon: Monitor, feed: Feed, p: Pos, day: int): Option<Signal> {
    var spot, premium := feed.spot(p.ticker, day), feed.premium(p.contract, day);
    if spot.None? || premium.None? || p.entry == 0.0 then None
    else Evaluate(mon, AsExitPosition(p), DayTick(feed, p, day, spot.value, premium.value))
  }

  // Under static exits a day closes a position exactly when it is quoted and a gate holds, with no day before
  // expiry counted as less than none.
  lemma StandardExitIff(mon: Monitor, feed: Feed, p: Pos, day: int)
    requires !mon.dynamic && p.entry > 0.0
    ensures var spot, premium := feed.spot(p.ticker, day), feed.premium(p.contract, day);
            StandardExit(mon, feed, p, day).Some? <==>
            && spot.Some? && premium.Some?
            && var dte := if p.contract.expiry >= day then p.contract.expiry - day else 0;
               var t := Tick(spot.value, premium.value, dte, feed.setup(p.ticker, day, spot.value),
                             Some(feed.context(p.ticker, day)), None, None);
               var pos := Position(ReplayKey(p.id), p.contract, p.entry, Some(p.target), p.openedOn, 1, None, p.peak,
                                   p.entrySetup);
               exists r :: DollarGate(mon, pos, t, r)
  {
    var spot, premium := feed.spot(p.ticker, day), feed.premium(p.contract, day);
    if spot.Some? && premium.Some? {
      StaticSignalIff(mon, AsExitPosition(p), DayTick(feed, p, day, spot.value, premium.value));
    }
  }

  ghost predicate Standard(h: Harness, mon: Monitor, feed: Feed) {
    && (forall p, day :: h.policy.exit(p, day) == StandardExit(mon, feed, p, day))
    && (forall c, day :: h.policy.premium(c, day) == feed.premium(c, day))
  }

  // With non-negative quotes and positive entry mids the standard policy keeps the ledger honest.
  lemma StandardIsHonest(h: Harness, mon: Monitor, feed: Feed)
    requires Standard(h, mon, feed)
    requires forall c, day :: feed.premium(c, day).Some? ==> feed.premium(c, day).value >= 0.0
    requires forall c :: h.policy.enter(c) ==> c.contract.Some? && c.contract.value.Mid() > 0.0
    ensures Honest(h)
  {
    forall p: Pos, day: int | p.entry > 0.0 && h.policy.exit(p, day).Some?
      ensures var s := h.policy.exit(p, day).value;
              s.currentPremium >= 0.0 && s.pnl * p.entry == s.currentPremium - p.entry
    {
      var s := h.policy.exit(p, day).value;
      assert h.policy.exit(p, day) == StandardExit(mon, feed, p, day);
      assert s.currentPremium == feed.premium(p.contract, day).value;
      assert s.pnl == (s.currentPremium - p.entry) / p.entry;
    }
  }

  // ----- a resumed replay exits no earlier -----

  // What a series of days does to one record, whatever happens to the others.
  function RecAfter(h: Harness, r: Rec, days: seq<int>): Rec
    decreases |days|
  {
    if days == [] then r else RecAfter(h, if r.status.Open? then ExitRec(h, r, days[0]) else r, days[1..])
  }

  lemma {:induction false} RecordsEvolveAlone(h: Harness, already: set<int>, st: St, dates: seq<int>, i: nat)
    requires Ready(h, st) && i < |st.recs|
    ensures var end := Advance(h, already, st, dates);
            i < |end.recs| && end.recs[i] == RecAfter(h, st.recs[i], Taken(h, already, dates))
    decreases |dates|
  {
    if dates != [] {
      DayKeepsExact(h, st, dates[0]);
      if dates[0] in already || !InWindow(h, dates[0]) {
        RecordsEvolveAlone(h, already, st, dates[1..], i);
      } else {
        var taken := Taken(h, already, dates);
        RecordsEvolveAlone(h, already, StepDay(h, st, dates[0]), dates[1..], i);
        assert taken[0] == dates[0] && taken[1..] == Taken(h, already, dates[1..]);
      }
    }
  }

  // ----- the ratchet over a replay -----

  // The premiums a contract is quoted at over some days.
  function Quotes(h: Harness, k: Contract, days: seq<int>): seq<real>
    decreases |days|
  {
    if days == [] then []
    else (match h.policy.premium(k, days[0]) case Some(x) => [x] case None => []) + Quotes(h, k, days[1..])
  }

  // As long as a record stays open, its position is what the live loop would make of it on the same quotes.
  lemma {:induction false} OpenRecordTracksPeak(h: Harness, r: Rec, days: seq<int>)
    requires RecAfter(h, r, days).status.Open?
    ensures AsExitPosition(RecAfter(h, r, days).pos) ==
            PeakAfter(AsExitPosition(r.pos), Quotes(h, r.pos.contract, days))
    decreases |days|
  {
    if days != [] {
      var r' := if r.status.Open? then ExitRec(h, r, days[0]) else r;
      if !r'.status.Open? {
        OnceShutStaysShut(h, r', days[1..]);
      }
      OpenRecordTracksPeak(h, r', days[1..]);
      var first := match h.policy.premium(r.pos.contract, days[0]) case Some(x) => [x] case None => [];
      assert (first + Quotes(h, r.pos.contract, days[1..]))[|first|..] == Quotes(h, r.pos.contract, days[1..]);
    }
  }

  lemma {:induction false} OnceShutStaysShut(h: Harness, r: Rec, days: seq<int>)
    requires !r.status.Open?
    ensures RecAfter(h, r, days) == r
    decreases |days|
  {
    if days != [] {
      OnceShutStaysShut(h, r, days[1..]);
    }
  }

  lemma {:induction false} OneMoreDay(h: Harness, r: Rec, days: seq<int>, day: int)
    ensures var before := RecAfter(h, r, days);
            RecAfter(h, r, days + [day]) == if before.status.Open? then ExitRec(h, before, day) else before
    decreases |days|
  {
    if days == [] {
      assert [] + [day] == [day] && [day][1..] == [];
    } else {
      assert (days + [day])[1..] == days[1..] + [day];
      OneMoreDay(h, if r.status.Open? then ExitRec(h, r, days[0]) else r, days[1..], day);
    }
  }

  // MAIN RESULT. Under static exits, once some quote of a replayed position reached entry x (1 + activation),
  // a quoted day that leaves it open leaves more than the share 1 - giveback of the gain at its highest quote.
  lemma OpenMeansProfit(h: Harness, mon: Monitor, feed: Feed, r: Rec, days: seq<int>, day: int, k: nat)
    requires Standard(h, mon, feed) && StaticMonitor(mon) && r.pos.entry > 0.0
    requires RecAfter(h, r, days + [day]).status.Open?
    requires feed.spot(r.pos.ticker, day).Some? && feed.premium(r.pos.contract, day).Some?
    requires k < |Quotes(h, r.pos.contract, days + [day])|
    requires ReachesActivation(mon, r.pos.entry, Quotes(h, r.pos.contract, days + [day])[k])
    ensures var peak := RecAfter(h, r, days + [day]).pos.peak;
            && peak.Some? && Quotes(h, r.pos.contract, days + [day])[k] <= peak.value
            && KeepsItsShare(r.pos.entry, peak.value, feed.premium(r.pos.contract, day).value, mon.giveback)
  {
    var before := RecAfter(h, r, days);
    OneMoreDay(h, r, days, day);
    OpenRecordTracksPeak(h, r, days + [day]);
    var p := RecAfter(h, r, days + [day]).pos;
    assert h.policy.premium(before.pos.contract, day) == feed.premium(before.pos.contract, day);
    assert h.policy.exit(p, day) == StandardExit(mon, feed, p, day);
    SamePosition(h, r, days);
    var t := DayTick(feed, p, day, feed.spot(p.ticker, day).value, feed.premium(p.contract, day).value);
    ArmedSilenceMeansProfit(mon, AsExitPosition(r.pos), Quotes(h, r.pos.contract, days + [day]), t, k);
  }

  lemma {:induction false} SamePosition(h: Harness, r: Rec, days: seq<int>)
    ensures RecAfter(h, r, days).pos == r.pos.(peak := RecAfter(h, r, days).pos.peak)
    decreases |days|
  {
    if days != [] {
      SamePosition(h, if r.status.Open? then ExitRec(h, r, days[0]) else r, days[1..]);
    }
  }

  // `low` is `high` with a lower peak, or was overtaken by it.
  ghost predicate Trails(low: Rec, high: Rec) {
    && low.pos == high.pos.(peak := low.pos.peak, entrySetup := low.pos.entrySetup)
    && !low.status.Expired? && !high.status.Expired?
    && (low.status.Closed? ==> high.status.Closed?)
    && (high.status.Open? && low.pos.peak.Some? ==>
          high.pos.peak.Some? && low.pos.peak.value <= high.pos.peak.value)
  }

  lemma DayKeepsTrailing(h: Harness, mon: Monitor, feed: Feed, low: Rec, high: Rec, day: int)
    requires Standard(h, mon, feed) && StaticMonitor(mon) && Trails(low, high)
    ensures Trails(if low.status.Open? then ExitRec(h, low, day) else low,
                   if high.status.Open? then ExitRec(h, high, day) else high)
  {
    if low.status.Open? && high.status.Open? && low.pos.entry != 0.0 {
      var premium, spot := feed.premium(low.pos.contract, day), feed.spot(low.pos.ticker, day);
      var p, q := Peaked(low.pos, premium), Peaked(high.pos, premium);
      assert h.policy.premium(low.pos.contract, day) == premium;
      assert h.policy.exit(p, day) == StandardExit(mon, feed, p, day);
      assert h.policy.exit(q, day) == StandardExit(mon, feed, q, day);
      if premium.Some? && spot.Some? {
        LowerPeakFiresLess(mon, AsExitPosition(p), AsExitPosition(q), DayTick(feed, p, day, spot.value, premium.value));
      }
    } else if low.status.Open? && high.status.Open? {
      var p := Peaked(low.pos, h.policy.premium(low.pos.contract, day));
      assert h.policy.exit(p, day) == StandardExit(mon, feed, p, day);
    }
  }

  lemma {:induction false} DaysKeepTrailing(h: Harness, mon: Monitor, feed: Feed, low: Rec, high: Rec, days: seq<int>)
    requires Standard(h, mon, feed) && StaticMonitor(mon) && Trails(low, high)
    ensures Trails(RecAfter(h, low, days), RecAfter(h, high, days))
    decreases |days|
  {
    if days != [] {
      DayKeepsTrailing(h, mon, feed, low, high, days[0]);
      DaysKeepTrailing(h, mon, feed,
                       if low.status.Open? then ExitRec(h, low, days[0]) else low,
                       if high.status.Open? then ExitRec(h, high, days[0]) else high, days[1..]);
    }
  }

  // MAIN RESULT. Under static exits with giveback in [0, 1], a replay resumed from JSON has closed one of
  // the saved positions by some date only if the uninterrupted replay has closed it by then too.
  lemma ResumedExitsNoEarlier(h: Harness, mon: Monitor, feed: Feed, st: St, dates: seq<int>, i: nat)
    requires Ready(h, st) && Standard(h, mon, feed) && StaticMonitor(mon)
    requires i < |st.recs| && !st.recs[i].status.Expired?
    ensures FromDoc(ToDoc(st)) == Stripped(st) && Ready(h, Stripped(st))
    ensures var resumed, straight := StepForward(h, Stripped(st), dates), StepForward(h, st, dates);
            && i < |resumed.recs| && i < |straight.recs|
            && (resumed.recs[i].status.Closed? ==> straight.recs[i].status.Closed?)
  {
    ResumeRestores(st);
    var already := ProcessedSet(st);
    assert ProcessedSet(Stripped(st)) == already;
    RecordsEvolveAlone(h, already, st, dates, i);
    RecordsEvolveAlone(h, already, Stripped(st), dates, i);
    DaysKeepTrailing(h, mon, feed, Stripped(st).recs[i], st.recs[i], Taken(h, already, dates));
  }
}
