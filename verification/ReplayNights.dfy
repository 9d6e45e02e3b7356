/** The nightly track record: every night the replay is loaded, stepped through what is new, and saved again
    (src/trader/live/backtest_loop.py). What forgetting the peaks every night does to the trailing stop. */
module ReplayNights {
  import opened Common
  import opened Schemas
  import opened ExitMonitors
  import opened ExitTheorems
  import opened Replay
  import opened ReplayTheorems
  import opened ReplayResume

  // All dates that became available over some nights.
  function Available(nights: seq<seq<int>>): seq<int> {
    if nights == [] then [] else Available(nights[..|nights| - 1]) + nights[|nights| - 1]
  }

  // Each night some dates are new; everything captured so far is available, and the state is saved and loaded
  // after the night.
  function Nightly(h: Harness, st: St, nights: seq<seq<int>>): (st': St)
    requires Ready(h, st)
    ensures Ready(h, st')
    decreases |nights|
  {
    if nights == [] then st
    else
      var night := StepForward(h, Nightly(h, st, nights[..|nights| - 1]), Available(nights));
      ResumeRestores(night);
      FromDoc(ToDoc(night))
  }

  // ----- a night steps its new dates -----

  lemma OneStepProcesses(h: Harness, st: St, dates: seq<int>)
    requires Ready(h, st)
    ensures forall d :: d in StepForward(h, st, dates).processed <==>
              d in st.processed || (d in dates && InWindow(h, d))
  {
    ProcessedAre(h, ProcessedSet(st), st, dates);
    TakenMembers(h, ProcessedSet(st), dates);
  }

  lemma {:induction false} NightlyProcesses(h: Harness, st: St, nights: seq<seq<int>>)
    requires Ready(h, st)
    ensures forall d :: d in Nightly(h, st, nights).processed <==>
              d in st.processed || (d in Available(nights) && InWindow(h, d))
    decreases |nights|
  {
    if nights != [] {
      var front := nights[..|nights| - 1];
      NightlyProcesses(h, st, front);
      var before := Nightly(h, st, front);
      OneStepProcesses(h, before, Available(nights));
      ResumeRestores(StepForward(h, before, Available(nights)));
    }
  }

  lemma NightStepsItsDates(h: Harness, before: St, front: seq<int>, batch: seq<int>)
    requires Ready(h, before) && forall k :: 0 <= k < |front| && InWindow(h, front[k]) ==> front[k] in before.processed
    ensures StepForward(h, before, front + batch) == StepForward(h, before, batch)
  {
    AdvanceInTwo(h, ProcessedSet(before), before, front, batch);
    NothingNew(h, ProcessedSet(before), before, front);
  }

  // What the last night adds to the ones before.
  lemma LastNight(h: Harness, st: St, nights: seq<seq<int>>)
    requires Ready(h, st) && nights != []
    ensures var before, batch := Nightly(h, st, nights[..|nights| - 1]), nights[|nights| - 1];
            Nightly(h, st, nights) == Stripped(StepForward(h, before, batch))
  {
    var front, batch := nights[..|nights| - 1], nights[|nights| - 1];
    var before := Nightly(h, st, front);
    NightlyProcesses(h, st, front);
    NightStepsItsDates(h, before, Available(front), batch);
    ResumeRestores(StepForward(h, before, Available(nights)));
  }

  // ----- no trailing stop -----

  // No open position knows its peak, and no record was closed by the trailing stop.
  ghost predicate NeverTrailed(recs: seq<Rec>) {
    forall i :: 0 <= i < |recs| ==>
      recs[i].pos.peak.None? && !(recs[i].exit.Some? && recs[i].exit.value.reason.TrailingStop?)
  }

  lemma ExitDoesNotTrail(h: Harness, mon: Monitor, feed: Feed, r: Rec, day: int)
    requires Standard(h, mon, feed) && StaticMonitor(mon) && 0.0 < mon.giveback && r.pos.peak.None?
    ensures Exits(h, r, day).Some? ==> !Exits(h, r, day).value.reason.TrailingStop?
  {
    var premium, spot := feed.premium(r.pos.contract, day), feed.spot(r.pos.ticker, day);
    var p := Peaked(r.pos, premium);
    assert h.policy.premium(r.pos.contract, day) == premium;
    assert h.policy.exit(p, day) == StandardExit(mon, feed, p, day);
    if premium.Some? && spot.Some? && p.entry != 0.0 {
      var t := DayTick(feed, p, day, spot.value, premium.value);
      FreshPeakHolds(mon, AsExitPosition(r.pos), t);
      FirstInPriority(mon, AsExitPosition(p), t);
    }
  }

  lemma {:induction false} EnteredAreNew(h: Harness, day: int, b: Book, cands: seq<Candidate>)
    requires Enterable(h)
    ensures var b' := EnterPass(h, day, b, cands);
            && b.recs <= b'.recs && forall i :: |b.recs| <= i < |b'.recs| ==> b'.recs[i].exit.None?
    decreases |cands|
  {
    if cands != [] && |b.open| < h.cap {
      var c := cands[0];
      EnteredAreNew(h, day, b, cands[1..]);
      if h.policy.enter(c) {
        EnteredAreNew(h, day, Entered(h, b, c, day, Sized(h, c.contract.value.Mid(), b.cash)), cands[1..]);
      }
    }
  }

  lemma DayDoesNotTrail(h: Harness, mon: Monitor, feed: Feed, st: St, day: int)
    requires Ready(h, st) && Standard(h, mon, feed) && StaticMonitor(mon) && 0.0 < mon.giveback
    requires NeverTrailed(st.recs)
    ensures NeverTrailed(StrippedAll(StepForward(h, st, [day]).recs))
  {
    AdvanceOne(h, ProcessedSet(st), st, day);
    if day !in ProcessedSet(st) && InWindow(h, day) {
      DayKeepsExact(h, st, day);
      var b := ExitPass(h, day, st.open, st.recs, st.cash);
      EnteredAreNew(h, day, b, h.policy.candidates(day));
      var recs := StepForward(h, st, [day]).recs;
      assert recs == DayBook(h, st, day).recs;
      forall i | 0 <= i < |recs|
        ensures !(recs[i].exit.Some? && recs[i].exit.value.reason.TrailingStop?)
      {
        if i < |st.recs| {
          ExitDoesNotTrail(h, mon, feed, st.recs[i], day);
        }
      }
    }
  }

  lemma NightDoesNotTrail(h: Harness, mon: Monitor, feed: Feed, before: St, batch: seq<int>)
    requires Ready(h, before) && Standard(h, mon, feed) && StaticMonitor(mon) && 0.0 < mon.giveback
    requires NeverTrailed(before.recs) && |batch| <= 1
    ensures NeverTrailed(Stripped(StepForward(h, before, batch)).recs)
  {
    if batch != [] {
      assert batch == [batch[0]];
      DayDoesNotTrail(h, mon, feed, before, batch[0]);
    }
  }

  // At most one new date a night.
  predicate OneEach(nights: seq<seq<int>>) {
    nights == [] || (|nights[|nights| - 1]| <= 1 && OneEach(nights[..|nights| - 1]))
  }

  // MAIN RESULT. A static track record with a positive giveback that is saved and loaded after every date
  // never closes anything by the trailing stop.
  lemma {:induction false} NightlyNeverTrails(h: Harness, mon: Monitor, feed: Feed, st: St, nights: seq<seq<int>>)
    requires Ready(h, st) && Standard(h, mon, feed) && StaticMonitor(mon) && 0.0 < mon.giveback
    requires NeverTrailed(st.recs) && OneEach(nights)
    ensures NeverTrailed(Nightly(h, st, nights).recs)
    decreases |nights|
  {
    if nights != [] {
      var front, batch := nights[..|nights| - 1], nights[|nights| - 1];
      NightlyNeverTrails(h, mon, feed, st, front);
      LastNight(h, st, nights);
      NightDoesNotTrail(h, mon, feed, Nightly(h, st, front), batch);
    }
  }

  // ----- no earlier exit -----

  lemma StripKeepsTrailing(low: Rec, high: Rec)
    requires Trails(low, high)
    ensures Trails(StrippedRec(low), high)
  {
  }

  lemma {:induction false} SameTaken(h: Harness, one: set<int>, two: set<int>, dates: seq<int>)
    requires forall d :: d in dates ==> (d in one <==> d in two)
    ensures Taken(h, one, dates) == Taken(h, two, dates)
  {
    if dates != [] {
      SameTaken(h, one, two, dates[1..]);
    }
  }

  // One night's dates on two states that have processed the same days as far as these are concerned.
  lemma NightTrails(
    h: Harness, mon: Monitor, feed: Feed, low: St, high: St, low': St, high': St, already: set<int>, batch: seq<int>,
    i: nat)
    requires Ready(h, low) && Ready(h, high) && Standard(h, mon, feed) && StaticMonitor(mon)
    requires i < |low.recs| && i < |high.recs| && Trails(low.recs[i], high.recs[i])
    requires forall d :: d in batch ==> (d in ProcessedSet(low) <==> d in already)
    requires low' == Stripped(StepForward(h, low, batch)) && high' == Advance(h, already, high, batch)
    ensures i < |low'.recs| && i < |high'.recs| && Trails(low'.recs[i], high'.recs[i])
  {
    var taken := Taken(h, already, batch);
    RecordsEvolveAlone(h, ProcessedSet(low), low, batch, i);
    RecordsEvolveAlone(h, already, high, batch, i);
    SameTaken(h, ProcessedSet(low), already, batch);
    DaysKeepTrailing(h, mon, feed, low.recs[i], high.recs[i], taken);
    StripKeepsTrailing(RecAfter(h, low.recs[i], taken), RecAfter(h, high.recs[i], taken));
  }

  lemma MoreDates(h: Harness, st: St, front: seq<int>, batch: seq<int>)
    requires Ready(h, st)
    ensures StepForward(h, st, front + batch) == Advance(h, ProcessedSet(st), StepForward(h, st, front), batch)
  {
    AdvanceInTwo(h, ProcessedSet(st), st, front, batch);
  }

  lemma NoRepeatsSplit(a: seq<int>, b: seq<int>)
    requires NoRepeats(a + b)
    ensures NoRepeats(a) && forall d :: d in b ==> d !in a
  {
    assert forall k :: 0 <= k < |a| ==> (a + b)[k] == a[k];
    assert forall k :: 0 <= k < |b| ==> (a + b)[|a| + k] == b[k];
  }

  lemma {:induction false} NightlyTrails(
    h: Harness, mon: Monitor, feed: Feed, st: St, nights: seq<seq<int>>, i: nat)
    requires Ready(h, st) && Standard(h, mon, feed) && StaticMonitor(mon) && NoRepeats(Available(nights))
    requires i < |st.recs| && !st.recs[i].status.Expired?
    ensures i < |Nightly(h, st, nights).recs| && i < |StepForward(h, st, Available(nights)).recs|
    ensures Trails(Nightly(h, st, nights).recs[i], StepForward(h, st, Available(nights)).recs[i])
    decreases |nights|
  {
    if nights != [] {
      var front, batch := nights[..|nights| - 1], nights[|nights| - 1];
      NoRepeatsSplit(Available(front), batch);
      NightlyTrails(h, mon, feed, st, front, i);
      NightlyProcesses(h, st, front);
      LastNight(h, st, nights);
      MoreDates(h, st, Available(front), batch);
      NightTrails(h, mon, feed, Nightly(h, st, front), StepForward(h, st, Available(front)), Nightly(h, st, nights),
                  StepForward(h, st, Available(nights)), ProcessedSet(st), batch, i);
    }
  }

  // MAIN RESULT. Saving and loading every night, whatever dates each night brings, has closed a position by
  // some night only if the replay that is never interrupted has closed it by then too.
  lemma NightlyClosesNoEarlier(h: Harness, mon: Monitor, feed: Feed, st: St, nights: seq<seq<int>>, i: nat)
    requires Ready(h, st) && Standard(h, mon, feed) && StaticMonitor(mon) && NoRepeats(Available(nights))
    requires i < |st.recs| && !st.recs[i].status.Expired?
    ensures i < |Nightly(h, st, nights).recs| && i < |StepForward(h, st, Available(nights)).recs|
    ensures Nightly(h, st, nights).recs[i].status.Closed? ==>
              StepForward(h, st, Available(nights)).recs[i].status.Closed?
  {
    NightlyTrails(h, mon, feed, st, nights, i);
  }

  // ----- positions opened on the way -----

  // `low` trails `high`, or was expired by an earlier run, which nothing changes any more.
  ghost predicate Follows(low: Rec, high: Rec) {
    Trails(low, high) || low.status.Expired?
  }

  lemma DaysKeepFollowing(h: Harness, mon: Monitor, feed: Feed, low: Rec, high: Rec, days: seq<int>)
    requires Standard(h, mon, feed) && StaticMonitor(mon) && Follows(low, high)
    ensures Follows(StrippedRec(RecAfter(h, low, days)), RecAfter(h, high, days))
  {
    if low.status.Expired? {
      OnceShutStaysShut(h, low, days);
    } else {
      DaysKeepTrailing(h, mon, feed, low, high, days);
    }
  }

  lemma {:induction false} TakenConcat(h: Harness, already: set<int>, a: seq<int>, b: seq<int>)
    ensures Taken(h, already, a + b) == Taken(h, already, a) + Taken(h, already, b)
  {
    if a == [] {
      assert a + b == b;
    } else {
      assert (a + b)[1..] == a[1..] + b;
      TakenConcat(h, already, a[1..], b);
    }
  }

  lemma {:induction false} RecAfterConcat(h: Harness, r: Rec, a: seq<int>, b: seq<int>)
    ensures RecAfter(h, r, a + b) == RecAfter(h, RecAfter(h, r, a), b)
    decreases |a|
  {
    if a == [] {
      assert a + b == b;
    } else {
      assert (a + b)[1..] == a[1..] + b;
      RecAfterConcat(h, if r.status.Open? then ExitRec(h, r, a[0]) else r, a[1..], b);
    }
  }

  // The state in which night n ends, before it is saved.
  function EndOfNight(h: Harness, st: St, nights: seq<seq<int>>, n: nat): (st': St)
    requires Ready(h, st) && n < |nights|
    ensures Ready(h, st')
  {
    StepForward(h, Nightly(h, st, nights[..n]), nights[n])
  }

  // The dates processed after night n.
  function DatesAfter(h: Harness, st: St, nights: seq<seq<int>>, n: nat): seq<int>
    requires n < |nights|
  {
    Taken(h, ProcessedSet(st), Available(nights[n + 1..]))
  }

  lemma OneMoreNight(h: Harness, st: St, nights: seq<seq<int>>, n: nat)
    requires n < |nights| - 1
    ensures var front, batch := nights[..|nights| - 1], nights[|nights| - 1];
            DatesAfter(h, st, nights, n) == DatesAfter(h, st, front, n) + Taken(h, ProcessedSet(st), batch)
  {
    var front, batch, tail := nights[..|nights| - 1], nights[|nights| - 1], nights[n + 1..];
    assert tail[..|tail| - 1] == front[n + 1..] && tail[|tail| - 1] == batch;
    TakenConcat(h, ProcessedSet(st), Available(front[n + 1..]), batch);
  }

  // The dates of the last night are new to what the nights before left.
  lemma LastNightTakes(h: Harness, st: St, nights: seq<seq<int>>)
    requires Ready(h, st) && nights != [] && NoRepeats(Available(nights))
    ensures var before, batch := Nightly(h, st, nights[..|nights| - 1]), nights[|nights| - 1];
            Taken(h, ProcessedSet(before), batch) == Taken(h, ProcessedSet(st), batch)
  {
    var front, batch := nights[..|nights| - 1], nights[|nights| - 1];
    NoRepeatsSplit(Available(front), batch);
    NightlyProcesses(h, st, front);
    SameTaken(h, ProcessedSet(Nightly(h, st, front)), ProcessedSet(st), batch);
  }

  lemma NightFollows(h: Harness, mon: Monitor, feed: Feed, st: St, nights: seq<seq<int>>, i: nat, high: Rec)
    requires Ready(h, st) && Standard(h, mon, feed) && StaticMonitor(mon)
    requires nights != [] && NoRepeats(Available(nights))
    requires var before := Nightly(h, st, nights[..|nights| - 1]); i < |before.recs| && Follows(before.recs[i], high)
    ensures i < |Nightly(h, st, nights).recs|
    ensures Follows(Nightly(h, st, nights).recs[i],
                    RecAfter(h, high, Taken(h, ProcessedSet(st), nights[|nights| - 1])))
  {
    var before, batch := Nightly(h, st, nights[..|nights| - 1]), nights[|nights| - 1];
    LastNight(h, st, nights);
    LastNightTakes(h, st, nights);
    RecordsEvolveAlone(h, ProcessedSet(before), before, batch, i);
    DaysKeepFollowing(h, mon, feed, before.recs[i], high, Taken(h, ProcessedSet(st), batch));
  }

  lemma {:induction false} RecordsFollow(
    h: Harness, mon: Monitor, feed: Feed, st: St, nights: seq<seq<int>>, n: nat, i: nat)
    requires Ready(h, st) && Standard(h, mon, feed) && StaticMonitor(mon) && NoRepeats(Available(nights))
    requires n < |nights| && i < |EndOfNight(h, st, nights, n).recs|
    ensures i < |Nightly(h, st, nights).recs|
    ensures Follows(Nightly(h, st, nights).recs[i],
                    RecAfter(h, EndOfNight(h, st, nights, n).recs[i], DatesAfter(h, st, nights, n)))
    decreases |nights|
  {
    var front, batch := nights[..|nights| - 1], nights[|nights| - 1];
    if n == |nights| - 1 {
      LastNight(h, st, nights);
      assert nights[n + 1..] == [];
    } else {
      assert front[..n] == nights[..n] && front[n] == nights[n];
      NoRepeatsSplit(Available(front), batch);
      RecordsFollow(h, mon, feed, st, front, n, i);
      var r := EndOfNight(h, st, nights, n).recs[i];
      NightFollows(h, mon, feed, st, nights, i, RecAfter(h, r, DatesAfter(h, st, front, n)));
      OneMoreNight(h, st, nights, n);
      RecAfterConcat(h, r, DatesAfter(h, st, front, n), Taken(h, ProcessedSet(st), batch));
    }
  }

  // MAIN RESULT. Any position recorded by the end of some night, opened that night or before, is closed by a
  // later night only if it is closed by then when it goes on from that night without being saved and loaded.
  lemma RecordedClosesNoEarlier(
    h: Harness, mon: Monitor, feed: Feed, st: St, nights: seq<seq<int>>, n: nat, i: nat)
    requires Ready(h, st) && Standard(h, mon, feed) && StaticMonitor(mon) && NoRepeats(Available(nights))
    requires n < |nights| && i < |EndOfNight(h, st, nights, n).recs|
    ensures i < |Nightly(h, st, nights).recs|
    ensures Nightly(h, st, nights).recs[i].status.Closed? ==>
              RecAfter(h, EndOfNight(h, st, nights, n).recs[i], DatesAfter(h, st, nights, n)).status.Closed?
  {
    RecordsFollow(h, mon, feed, st, nights, n, i);
  }

  // ----- when a resume shows -----

  predicate Quoted(feed: Feed, p: Pos, day: int) {
    feed.spot(p.ticker, day).Some? && feed.premium(p.contract, day).Some?
  }

  function TickOn(feed: Feed, p: Pos, day: int): Tick
    requires Quoted(feed, p, day)
  {
    DayTick(feed, p, day, feed.spot(p.ticker, day).value, feed.premium(p.contract, day).value)
  }

  // A quoted day on which a gate holds for the position and its peak so far.
  ghost predicate Decided(mon: Monitor, feed: Feed, p: Pos, day: int) {
    && Quoted(feed, p, day)
    && var t := TickOn(feed, p, day);
       exists g :: DollarGate(mon, WithPeak(AsExitPosition(p), t.premium), t, g)
  }

  // A quoted day decided neither by the wall nor by the thesis, with the premium at or below the floor of one
  // peak and above that of the other.
  predicate BetweenFloors(mon: Monitor, feed: Feed, low: Pos, high: Pos, day: int) {
    && Quoted(feed, high, day)
    && var pos, t := AsExitPosition(high), TickOn(feed, high, day);
       && !ProfitGate(mon, pos, t) && !ThesisGate(mon, pos, t)
       && BelowRememberedFloor(mon, pos, t.premium) && !BelowRememberedFloor(mon, AsExitPosition(low), t.premium)
  }

  // The same position with a lower peak, and perhaps another entry setup.
  ghost predicate LowerPeak(low: Pos, high: Pos) {
    && low == high.(peak := low.peak, entrySetup := low.entrySetup)
    && (low.peak.Some? ==> high.peak.Some? && low.peak.value <= high.peak.value)
  }

  lemma DayDecides(h: Harness, mon: Monitor, feed: Feed, r: Rec, day: int)
    requires Standard(h, mon, feed) && StaticMonitor(mon) && r.pos.entry > 0.0
    ensures Exits(h, r, day).Some? <==> Decided(mon, feed, r.pos, day)
  {
    var premium := feed.premium(r.pos.contract, day);
    var p := Peaked(r.pos, premium);
    assert h.policy.premium(r.pos.contract, day) == premium;
    assert h.policy.exit(p, day) == StandardExit(mon, feed, p, day);
    if Quoted(feed, r.pos, day) {
      var t := TickOn(feed, r.pos, day);
      StaticSignalIff(mon, AsExitPosition(p), t);
      assert WithPeak(AsExitPosition(r.pos), t.premium) == AsExitPosition(p) && TickOn(feed, p, day) == t;
    }
  }

  lemma DayDiffersIff(h: Harness, mon: Monitor, feed: Feed, low: Rec, high: Rec, day: int)
    requires Standard(h, mon, feed) && StaticMonitor(mon) && 0.0 < mon.giveback && high.pos.entry > 0.0
    requires LowerPeak(low.pos, high.pos)
    ensures Exits(h, low, day) != Exits(h, high, day) <==> BetweenFloors(mon, feed, low.pos, high.pos, day)
  {
    var premium := feed.premium(high.pos.contract, day);
    var p, q := Peaked(low.pos, premium), Peaked(high.pos, premium);
    assert h.policy.premium(high.pos.contract, day) == premium;
    assert h.policy.exit(p, day) == StandardExit(mon, feed, p, day);
    assert h.policy.exit(q, day) == StandardExit(mon, feed, q, day);
    if Quoted(feed, high.pos, day) {
      var t, pos := TickOn(feed, high.pos, day), AsExitPosition(high.pos);
      PeaksDifferIff(mon, pos, low.pos.peak, high.pos.peak, t);
      StaticIgnoresTheRest(mon, mon, AsExitPosition(p), WithPeak(pos.(peak := low.pos.peak), t.premium), t, t);
    }
  }

  // The next day after a resume decides differently for an open position exactly when it is quoted, neither
  // wall nor thesis decides, and the premium has fallen to the floor of the peak that was not saved.
  lemma ResumeShowsIff(h: Harness, mon: Monitor, feed: Feed, r: Rec, day: int)
    requires Standard(h, mon, feed) && StaticMonitor(mon) && 0.0 < mon.giveback && r.pos.entry > 0.0
    ensures Exits(h, StrippedRec(r), day) != Exits(h, r, day) <==>
            && Quoted(feed, r.pos, day)
            && var pos, t := AsExitPosition(r.pos), TickOn(feed, r.pos, day);
               !ProfitGate(mon, pos, t) && !ThesisGate(mon, pos, t) && BelowRememberedFloor(mon, pos, t.premium)
  {
    DayDiffersIff(h, mon, feed, StrippedRec(r), r, day);
  }

  // The position with the highest of its peak and the quotes of some days.
  function Seen(h: Harness, p: Pos, days: seq<int>): Pos {
    p.(peak := PeakAfter(AsExitPosition(p), Quotes(h, p.contract, days)).peak)
  }

  // Nothing decided the days before day k, and day k lies between the floors of the peak since the start and of
  // the peak since the resume.
  ghost predicate FirstToDiffer(h: Harness, mon: Monitor, feed: Feed, r: Rec, days: seq<int>, k: nat)
    requires k < |days|
  {
    && (forall j :: 0 <= j < k ==> !Decided(mon, feed, Seen(h, r.pos, days[..j]), days[j]))
    && BetweenFloors(mon, feed, Seen(h, StrippedRec(r).pos, days[..k]), Seen(h, r.pos, days[..k]), days[k])
  }

  lemma OpenIsSeen(h: Harness, r: Rec, days: seq<int>)
    requires RecAfter(h, r, days).status.Open?
    ensures RecAfter(h, r, days).pos == Seen(h, r.pos, days)
  {
    OpenRecordTracksPeak(h, r, days);
    SamePosition(h, r, days);
  }

  // A record is open after some days exactly when none of them decided.
  lemma {:induction false} OpenIff(h: Harness, mon: Monitor, feed: Feed, r: Rec, days: seq<int>, n: nat)
    requires Standard(h, mon, feed) && StaticMonitor(mon) && r.status.Open? && r.pos.entry > 0.0 && n <= |days|
    ensures RecAfter(h, r, days[..n]).status.Open? <==>
            forall j :: 0 <= j < n ==> !Decided(mon, feed, Seen(h, r.pos, days[..j]), days[j])
  {
    if n > 0 {
      assert days[..n] == days[..n - 1] + [days[n - 1]];
      OpenIff(h, mon, feed, r, days, n - 1);
      OneMoreDay(h, r, days[..n - 1], days[n - 1]);
      var before := RecAfter(h, r, days[..n - 1]);
      if before.status.Open? {
        OpenIsSeen(h, r, days[..n - 1]);
        DayDecides(h, mon, feed, before, days[n - 1]);
      }
    }
  }

  // Days leave everything of an open record but its peak, or close it on one of them.
  lemma {:induction false} OpenOrClosedOn(h: Harness, r: Rec, days: seq<int>)
    requires r.status.Open?
    ensures var end := RecAfter(h, r, days);
            if end.status.Open? then end == r.(pos := r.pos.(peak := end.pos.peak))
            else end.status.Closed? && end.exitDate.Some? && end.exitDate.value in days
    decreases |days|
  {
    if days != [] {
      var next := ExitRec(h, r, days[0]);
      if next.status.Open? {
        OpenOrClosedOn(h, next, days[1..]);
      } else {
        OnceShutStaysShut(h, next, days[1..]);
      }
    }
  }

  // The resumed record is the straight one, apart from what is not saved.
  predicate Agree(a: Rec, b: Rec) {
    StrippedRec(a) == StrippedRec(b)
  }

  function DayOn(h: Harness, r: Rec, day: int): Rec {
    if r.status.Open? then ExitRec(h, r, day) else r
  }

  // Two records that agree and are open agree after a day that decides alike.
  lemma OpenDayAgrees(h: Harness, mon: Monitor, feed: Feed, low: Rec, high: Rec, day: int)
    requires Standard(h, mon, feed) && StaticMonitor(mon) && 0.0 < mon.giveback && high.pos.entry > 0.0
    requires LowerPeak(low.pos, high.pos) && Agree(low, high) && low.status.Open?
    ensures Agree(DayOn(h, low, day), DayOn(h, high, day)) <==> !BetweenFloors(mon, feed, low.pos, high.pos, day)
  {
    DayDiffersIff(h, mon, feed, low, high, day);
    assert StrippedRec(low).status == StrippedRec(high).status;
    var a, b := DayOn(h, low, day), DayOn(h, high, day);
    assert StrippedRec(a).exit == a.exit && StrippedRec(b).exit == b.exit;
    assert StrippedRec(a).status == a.status && StrippedRec(b).status == b.status;
  }

  // Once they disagree they stay apart.
  lemma DisagreementLasts(h: Harness, low: Rec, high: Rec, day: int)
    requires !Agree(low, high) && !high.status.Open? && (high.exitDate.None? || high.exitDate.value != day)
    requires low.status.Open? || low.status.Closed?
    ensures !Agree(DayOn(h, low, day), high)
  {
    var a := DayOn(h, low, day);
    assert StrippedRec(a).status == a.status && StrippedRec(a).exitDate == a.exitDate;
    assert StrippedRec(high).status == high.status && StrippedRec(high).exitDate == high.exitDate;
  }

  lemma {:induction false} AgreeUpTo(h: Harness, mon: Monitor, feed: Feed, r: Rec, days: seq<int>, n: nat)
    requires Standard(h, mon, feed) && StaticMonitor(mon) && 0.0 < mon.giveback && r.pos.entry > 0.0
    requires r.status.Open? && NoRepeats(days) && n <= |days|
    ensures Agree(RecAfter(h, StrippedRec(r), days[..n]), RecAfter(h, r, days[..n])) <==>
            forall k :: 0 <= k < n ==> !FirstToDiffer(h, mon, feed, r, days, k)
  {
    if n > 0 {
      AgreeUpTo(h, mon, feed, r, days, n - 1);
      AgreeOneMore(h, mon, feed, r, days, n - 1);
    }
  }

  lemma AgreeOneMore(h: Harness, mon: Monitor, feed: Feed, r: Rec, days: seq<int>, n: nat)
    requires Standard(h, mon, feed) && StaticMonitor(mon) && 0.0 < mon.giveback && r.pos.entry > 0.0
    requires r.status.Open? && NoRepeats(days) && n < |days|
    ensures Agree(RecAfter(h, StrippedRec(r), days[..n + 1]), RecAfter(h, r, days[..n + 1])) <==>
            Agree(RecAfter(h, StrippedRec(r), days[..n]), RecAfter(h, r, days[..n]))
            && !FirstToDiffer(h, mon, feed, r, days, n)
  {
    var low, high := RecAfter(h, StrippedRec(r), days[..n]), RecAfter(h, r, days[..n]);
    assert days[..n + 1] == days[..n] + [days[n]];
    OneMoreDay(h, r, days[..n], days[n]);
    OneMoreDay(h, StrippedRec(r), days[..n], days[n]);
    OpenIff(h, mon, feed, r, days, n);
    DaysKeepTrailing(h, mon, feed, StrippedRec(r), r, days[..n]);
    OpenOrClosedOn(h, r, days[..n]);
    OpenOrClosedOn(h, StrippedRec(r), days[..n]);
    if high.status.Open? {
      OpenIsSeen(h, r, days[..n]);
      OpenIsSeen(h, StrippedRec(r), days[..n]);
      OpenDayAgrees(h, mon, feed, low, high, days[n]);
    } else if Agree(low, high) {
      assert StrippedRec(low).status == StrippedRec(high).status;
    } else {
      DisagreementLasts(h, low, high, days[n]);
    }
  }

  // MAIN RESULT. However many dates follow, the replay resumed once and the uninterrupted one agree on an open
  // position, apart from its unsaved fields, exactly when no day they process is the first to differ: before it
  // nothing decided, and its premium lies between the floors of the two highest quotes.
  lemma ResumeAgreesIff(h: Harness, mon: Monitor, feed: Feed, st: St, dates: seq<int>, i: nat)
    requires Ready(h, st) && Standard(h, mon, feed) && StaticMonitor(mon) && 0.0 < mon.giveback && NoRepeats(dates)
    requires i < |st.recs| && st.recs[i].status.Open? && st.recs[i].pos.entry > 0.0
    ensures Ready(h, FromDoc(ToDoc(st)))
    ensures var resumed, straight := StepForward(h, FromDoc(ToDoc(st)), dates), StepForward(h, st, dates);
            var days := Taken(h, ProcessedSet(st), dates);
            && i < |resumed.recs| && i < |straight.recs|
            && (Agree(resumed.recs[i], straight.recs[i]) <==>
                forall k :: 0 <= k < |days| ==> !FirstToDiffer(h, mon, feed, st.recs[i], days, k))
  {
    ResumeRestores(st);
    var already := ProcessedSet(st);
    var days := Taken(h, already, dates);
    assert ProcessedSet(Stripped(st)) == already && days[..|days|] == days;
    RecordsEvolveAlone(h, already, st, dates, i);
    RecordsEvolveAlone(h, already, Stripped(st), dates, i);
    TakenNoRepeats(h, already, dates);
    AgreeUpTo(h, mon, feed, st.recs[i], days, |days|);
  }

  // ----- a concrete case -----

  const DEFAULTS := Monitor(
    0.35, 7, 0.015, 0.3, 0.5, 0.5, 1.0, 0.5, 0.5, 55.0, 45.0, 2, 0.15, 0.5, false)

  // Entered at 4 on day 1, quoted at 8 on day 2 and at 5.5 from then on; spot far below the wall throughout.
  function Quote(day: int): real {
    if day <= 1 then 4.0 else if day == 2 then 8.0 else 5.5
  }

  function RoundTrip(): Feed {
    Feed((ticker: string, day: int) => Some(50.0), (c: Contract, day: int) => Some(Quote(day)),
         (ticker: string, day: int, spot: real) => None, (ticker: string, day: int) => Context([], [], []))
  }

  function RoundTripHarness(c: Candidate): Harness {
    Harness(
      Policy((k: Contract, day: int) => Some(Quote(day)),
             (p: Pos, day: int) => StandardExit(DEFAULTS, RoundTrip(), p, day),
             (day: int) => if day == 1 then [c] else [],
             (d: Candidate) => d.contract.Some?),
      1, 9, 3, Some(10000.0), 0.25)
  }

  predicate AtFour(c: Candidate) {
    c.contract == Some(Contract("SPY", 60, 100.0, Call, 3.9, 4.1)) && c.setup.target == Some(100.0)
  }

  function DayOne(c: Candidate): St
    requires AtFour(c)
  {
    St([0], [NewRec(0, c, 1, 6)], 7600.0, [(1, 10000.0)], [1])
  }

  lemma SixContracts()
    ensures ContractsForBudget(0.25, 4.0, 10000.0) == 6 && CostOf(4.0, 6) == 2400.0
  {
    assert Trunc(10000.0 * 0.25 / (4.0 * 100.0)) == 6;
  }

  lemma FirstEntry(c: Candidate, h: Harness)
    requires AtFour(c) && h == RoundTripHarness(c)
    ensures EnterPass(h, 1, Book([], [], 10000.0), [c]) == Book([0], DayOne(c).recs, 7600.0)
  {
    SixContracts();
    assert [c][1..] == [] && [] + [0] == [0];
    assert Entered(h, Book([], [], 10000.0), c, 1, 6) == Book([0], DayOne(c).recs, 7600.0);
  }

  lemma FirstDay(c: Candidate, h: Harness, st: St)
    requires AtFour(c) && h == RoundTripHarness(c) && st == FreshState(h) && Ready(h, st)
    ensures StepDay(h, st, 1).recs == DayOne(c).recs
  {
    FirstEntry(c, h);
    assert DayBook(h, st, 1) == EnterPass(h, 1, Book([], [], 10000.0), h.policy.candidates(1));
  }

  lemma DayOneIs(c: Candidate)
    requires AtFour(c)
    ensures var h := RoundTripHarness(c);
            Ready(h, FreshState(h)) && StepForward(h, FreshState(h), [1]).recs == DayOne(c).recs
  {
    var h := RoundTripHarness(c);
    var st := FreshState(h);
    AdvanceOne(h, ProcessedSet(st), st, 1);
    FirstDay(c, h, st);
  }

  // Straight through, day 3 closes it by the trailing stop; saved and loaded every night it stays open.
  lemma LostPeakExample(c: Candidate)
    requires AtFour(c)
    ensures var h := RoundTripHarness(c);
            && Ready(h, FreshState(h)) && Standard(h, DEFAULTS, RoundTrip()) && StaticMonitor(DEFAULTS)
            && var straight := StepForward(h, FreshState(h), [1, 2, 3]);
               var nightly := Nightly(h, FreshState(h), [[1], [2], [3]]);
               && |straight.recs| >= 1 && |nightly.recs| >= 1
               && straight.recs[0].status.Closed? && straight.recs[0].exit.Some?
               && straight.recs[0].exit.value.reason.TrailingStop?
               && nightly.recs[0].status.Open?
  {
    StraightCloses(c);
    NightlyStaysOpen(c);
  }

  lemma StraightCloses(c: Candidate)
    requires AtFour(c)
    ensures var h := RoundTripHarness(c);
            && Ready(h, FreshState(h))
            && var straight := StepForward(h, FreshState(h), [1, 2, 3]);
               && |straight.recs| >= 1 && straight.recs[0].status.Closed? && straight.recs[0].exit.Some?
               && straight.recs[0].exit.value.reason.TrailingStop?
  {
    var h := RoundTripHarness(c);
    var st := FreshState(h);
    DayOneIs(c);
    assert [1, 2, 3] == [1] + [2, 3] && ProcessedSet(st) == {};
    AdvanceInTwo(h, {}, st, [1], [2, 3]);
    RecordsEvolveAlone(h, {}, StepForward(h, st, [1]), [2, 3], 0);
    TakenBoth(h);
    DayThree(c, DayOne(c).recs[0]);
  }

  lemma TakenBoth(h: Harness)
    requires InWindow(h, 2) && InWindow(h, 3)
    ensures Taken(h, {}, [2, 3]) == [2, 3]
  {
    assert [2, 3][1..] == [3] && [3][1..] == [];
    assert Taken(h, {}, [3]) == [3];
  }

  // On day 2 the position runs up and remembers it; whether it did decides day 3.
  lemma DayTwo(c: Candidate, r: Rec)
    requires AtFour(c) && r == DayOne(c).recs[0]
    ensures ExitRec(RoundTripHarness(c), r, 2) == r.(pos := r.pos.(peak := Some(8.0)))
    ensures RecAfter(RoundTripHarness(c), r, [2]) == r.(pos := r.pos.(peak := Some(8.0)))
  {
    assert [2][1..] == [];
    assert FirstTriggered(DEFAULTS, AsExitPosition(r.pos.(peak := Some(8.0))),
                          DayTick(RoundTrip(), r.pos, 2, 50.0, 8.0)).None?;
  }

  lemma DayThree(c: Candidate, r: Rec)
    requires AtFour(c) && r == DayOne(c).recs[0]
    ensures var end := RecAfter(RoundTripHarness(c), r, [2, 3]);
            end.status.Closed? && end.exit.Some? && end.exit.value.reason.TrailingStop?
  {
    var h := RoundTripHarness(c);
    var r2 := r.(pos := r.pos.(peak := Some(8.0)));
    DayTwo(c, r);
    assert [2, 3][1..] == [3] && [3][1..] == [];
    assert FirstTriggered(DEFAULTS, AsExitPosition(r2.pos), DayTick(RoundTrip(), r.pos, 3, 50.0, 5.5))
           == Some(TrailingStop);
    assert RecAfter(h, r, [2, 3]) == RecAfter(h, r2, [3]) == ExitRec(h, r2, 3);
  }

  lemma ForgetfulDayThree(c: Candidate, r: Rec)
    requires AtFour(c) && r == StrippedRec(DayOne(c).recs[0])
    ensures RecAfter(RoundTripHarness(c), r, [3]).status.Open?
  {
    assert [3][1..] == [];
    assert FirstTriggered(DEFAULTS, AsExitPosition(r.pos.(peak := Some(5.5))),
                          DayTick(RoundTrip(), r.pos, 3, 50.0, 5.5)).None?;
  }

  lemma ForgetfulDayTwo(c: Candidate, r: Rec)
    requires AtFour(c) && r == StrippedRec(DayOne(c).recs[0])
    ensures StrippedRec(RecAfter(RoundTripHarness(c), r, [2])) == r
  {
    assert [2][1..] == [];
    assert FirstTriggered(DEFAULTS, AsExitPosition(r.pos.(peak := Some(8.0))),
                          DayTick(RoundTrip(), r.pos, 2, 50.0, 8.0)).None?;
  }

  // The first record after a night with one new date.
  lemma DateOnRecord(h: Harness, before: St, after: St, day: int, r: Rec)
    requires Ready(h, before) && InWindow(h, day) && day !in before.processed
    requires before.recs != [] && before.recs[0] == r && after == Stripped(StepForward(h, before, [day]))
    ensures after.recs != [] && after.recs[0] == StrippedRec(RecAfter(h, r, [day]))
  {
    RecordsEvolveAlone(h, ProcessedSet(before), before, [day], 0);
    assert Taken(h, ProcessedSet(before), [day]) == [day] by {
      assert [day][1..] == [];
    }
  }

  lemma NightOnRecord(h: Harness, st: St, front: seq<seq<int>>, nights: seq<seq<int>>, day: int, r: Rec)
    requires Ready(h, st) && nights != [] && nights[..|nights| - 1] == front && nights[|nights| - 1] == [day]
    requires InWindow(h, day) && day !in Available(front) && day !in st.processed
    requires Nightly(h, st, front).recs != [] && Nightly(h, st, front).recs[0] == r
    ensures Nightly(h, st, nights).recs != []
    ensures Nightly(h, st, nights).recs[0] == StrippedRec(RecAfter(h, r, [day]))
  {
    NightlyProcesses(h, st, front);
    LastNight(h, st, nights);
    DateOnRecord(h, Nightly(h, st, front), Nightly(h, st, nights), day, r);
  }

  lemma FirstNights()
    ensures Available([[1]]) == [1] && Available([[1], [2]]) == [1, 2]
  {
    assert [[1]][..0] == [] && [[1], [2]][..1] == [[1]];
  }

  lemma NightOne(c: Candidate)
    requires AtFour(c)
    ensures var h := RoundTripHarness(c);
            Ready(h, FreshState(h)) && Nightly(h, FreshState(h), [[1]]).recs == [StrippedRec(DayOne(c).recs[0])]
  {
    var h := RoundTripHarness(c);
    DayOneIs(c);
    LastNight(h, FreshState(h), [[1]]);
  }

  lemma NightlyStaysOpen(c: Candidate)
    requires AtFour(c)
    ensures var h := RoundTripHarness(c);
            && Ready(h, FreshState(h))
            && Nightly(h, FreshState(h), [[1], [2], [3]]).recs != []
            && Nightly(h, FreshState(h), [[1], [2], [3]]).recs[0].status.Open?
  {
    var h, r := RoundTripHarness(c), StrippedRec(DayOne(c).recs[0]);
    NightOne(c);
    ForgetfulDayTwo(c, r);
    ForgetfulDayThree(c, r);
    LastTwoNights(h, FreshState(h), r);
  }

  // Two more nights for a record on which the first leaves no trace.
  lemma LastTwoNights(h: Harness, st: St, r: Rec)
    requires Ready(h, st) && st.processed == [] && InWindow(h, 2) && InWindow(h, 3)
    requires Nightly(h, st, [[1]]).recs == [r] && StrippedRec(RecAfter(h, r, [2])) == r
    ensures Nightly(h, st, [[1], [2], [3]]).recs != []
    ensures Nightly(h, st, [[1], [2], [3]]).recs[0] == StrippedRec(RecAfter(h, r, [3]))
  {
    FirstNights();
    NightOnRecord(h, st, [[1]], [[1], [2]], 2, r);
    NightOnRecord(h, st, [[1], [2]], [[1], [2], [3]], 3, r);
  }
}
