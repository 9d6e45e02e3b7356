/** The kill switch over whole histories of calls, days and restarts. */
module RiskTheorems {
  import opened Common
  import opened Schemas
  import opened RiskEngines

  datatype Op =
    | CheckOp(today: int, candidate: Candidate, open: int)
    | RecordOp(today: int, pnl: real)
    | RestartOp(today: int)

  // The engine after one call, and the verdict it gave, if it was asked for one.
  datatype Outcome = Outcome(books: Books, answer: Option<seq<Refusal>>)

  function Do(s: Setting, b: Books, op: Op): Outcome {
    match op
    case CheckOp(today, c, open) =>
      var b' := Roll(b, today);
      Outcome(b', Some(Verdict(s, b', c, open)))
    case RecordOp(today, pnl) => Outcome(Record(s, b, today, pnl), None)
    case RestartOp(today) => Outcome(Start(s, b.file, today), None)
  }

  function Run(s: Setting, b: Books, ops: seq<Op>): Books {
    if ops == [] then b else Do(s, Run(s, b, ops[..|ops| - 1]), ops[|ops| - 1]).books
  }

  function Answers(s: Setting, b: Books, ops: seq<Op>): seq<seq<Refusal>> {
    if ops == [] then []
    else
      var n := |ops| - 1;
      var answer := Do(s, Run(s, b, ops[..n]), ops[n]).answer;
      Answers(s, b, ops[..n]) + match answer case Some(v) => [v] case None => []
  }

  function WithoutRestarts(ops: seq<Op>): seq<Op> {
    if ops == [] then []
    else
      var n := |ops| - 1;
      WithoutRestarts(ops[..n]) + if ops[n].RestartOp? then [] else [ops[n]]
  }

  ghost predicate DaysInOrder(first: int, ops: seq<Op>) {
    && (forall k :: 0 <= k < |ops| ==> first <= ops[k].today)
    && (forall j, k :: 0 <= j < k < |ops| ==> ops[j].today <= ops[k].today)
  }

  function LastDay(first: int, ops: seq<Op>): int {
    if ops == [] then first else ops[|ops| - 1].today
  }

  lemma DaysStayInOrder(first: int, ops: seq<Op>)
    requires DaysInOrder(first, ops) && ops != []
    ensures DaysInOrder(first, ops[..|ops| - 1]) && LastDay(first, ops[..|ops| - 1]) <= LastDay(first, ops)
  {
    var rest := ops[..|ops| - 1];
    if rest != [] {
      assert rest[|rest| - 1] == ops[|rest| - 1];
    }
  }

  // A loss of the configured share of the account, if there is an account.
  predicate AtLimit(s: Setting, pnl: real) {
    s.nav > 0.0 && pnl <= -AllowedLoss(s)
  }

  function AllowedLoss(s: Setting): real {
    s.nav * s.params.lossPct
  }

  // No P&L is injected and a flat day does not trip the switch.
  ghost predicate CleanSetting(s: Setting) {
    s.injectedPnl == 0.0 && !AtLimit(s, 0.0)
  }

  // ----- restarts are invisible -----

  datatype DayView = DayView(pnl: real, kill: bool)

  function Seen(e: Engine, today: int): DayView {
    if e.date == today then DayView(e.pnl, e.kill) else DayView(0.0, false)
  }

  function Stored(file: Option<Saved>, today: int): DayView {
    if file.Some? && file.value.date == today then DayView(file.value.pnl, file.value.kill) else DayView(0.0, false)
  }

  // Up to day d: engine and file agree, nothing is from the future, and an open switch is justified.
  ghost predicate InSync(s: Setting, b: Books, d: int) {
    && b.engine.date <= d && (b.file.Some? ==> b.file.value.date <= d)
    && Stored(b.file, d) == Seen(b.engine, d)
    && (AtLimit(s, Seen(b.engine, d).pnl) ==> Seen(b.engine, d).kill)
  }

  lemma LaterDayInSync(s: Setting, b: Books, d: int, d': int)
    requires InSync(s, b, d) && d <= d' && CleanSetting(s)
    ensures InSync(s, b, d')
  {
  }

  lemma CallStaysInSync(s: Setting, b: Books, op: Op)
    requires CleanSetting(s) && InSync(s, b, op.today)
    ensures InSync(s, Do(s, b, op).books, op.today)
  {
  }

  lemma {:induction false} RunStaysInSync(s: Setting, b: Books, first: int, ops: seq<Op>)
    requires CleanSetting(s) && InSync(s, b, first) && DaysInOrder(first, ops)
    ensures InSync(s, Run(s, b, ops), LastDay(first, ops))
  {
    if ops != [] {
      var rest, op := ops[..|ops| - 1], ops[|ops| - 1];
      DaysStayInOrder(first, ops);
      RunStaysInSync(s, b, first, rest);
      var b' := Run(s, b, rest);
      LaterDayInSync(s, b', LastDay(first, rest), op.today);
      CallStaysInSync(s, b', op);
    }
  }

  // One call on an engine that restarted somewhere and on one that did not.
  lemma CallsAgree(s: Setting, b: Books, bare: Books, op: Op, day: int)
    requires CleanSetting(s) && InSync(s, b, op.today) && op.today <= day
    requires bare.engine.date <= op.today && Seen(b.engine, op.today) == Seen(bare.engine, op.today)
    ensures op.RestartOp? ==> Seen(Do(s, b, op).books.engine, day) == Seen(bare.engine, day)
    ensures !op.RestartOp? ==>
              && Do(s, b, op).answer == Do(s, bare, op).answer
              && Seen(Do(s, b, op).books.engine, day) == Seen(Do(s, bare, op).books.engine, day)
              && Do(s, bare, op).books.engine.date <= op.today
  {
  }

  // MAIN RESULT. Restarting between any two calls changes no verdict, and on no later day does it
  // change the daily P&L or the switch.
  lemma {:induction false} RestartsAreInvisible(s: Setting, b: Books, first: int, ops: seq<Op>, day: int)
    requires CleanSetting(s) && InSync(s, b, first) && DaysInOrder(first, ops) && LastDay(first, ops) <= day
    ensures Answers(s, b, ops) == Answers(s, b, WithoutRestarts(ops))
    ensures Seen(Run(s, b, ops).engine, day) == Seen(Run(s, b, WithoutRestarts(ops)).engine, day)
    ensures Run(s, b, WithoutRestarts(ops)).engine.date <= LastDay(first, ops)
  {
    if ops != [] {
      var rest, op := ops[..|ops| - 1], ops[|ops| - 1];
      var bare := WithoutRestarts(rest);
      DaysStayInOrder(first, ops);
      RestartsAreInvisible(s, b, first, rest, op.today);
      RunStaysInSync(s, b, first, rest);
      LaterDayInSync(s, Run(s, b, rest), LastDay(first, rest), op.today);
      CallsAgree(s, Run(s, b, rest), Run(s, b, bare), op, day);
      if op.RestartOp? {
        assert WithoutRestarts(ops) == bare;
      } else {
        assert WithoutRestarts(ops) == bare + [op] && (bare + [op])[..|bare|] == bare;
      }
    }
  }

  // ----- when the switch is on -----

  function DayPnls(ops: seq<Op>, day: int): seq<real> {
    if ops == [] then []
    else
      var n := |ops| - 1;
      DayPnls(ops[..n], day) + if ops[n].RecordOp? && ops[n].today == day then [ops[n].pnl] else []
  }

  function Total(xs: seq<real>): real {
    if xs == [] then 0.0 else Total(xs[..|xs| - 1]) + xs[|xs| - 1]
  }

  ghost predicate SomePrefixAtLimit(s: Setting, xs: seq<real>) {
    exists k :: 1 <= k <= |xs| && AtLimit(s, Total(xs[..k]))
  }

  lemma PrefixesOfAppend(s: Setting, xs: seq<real>, x: real)
    ensures SomePrefixAtLimit(s, xs + [x]) <==> SomePrefixAtLimit(s, xs) || AtLimit(s, Total(xs) + x)
    ensures Total(xs + [x]) == Total(xs) + x
  {
    var ys := xs + [x];
    assert ys[..|xs|] == xs && ys[..|ys|] == ys;
    assert forall k :: 0 <= k <= |xs| ==> ys[..k] == xs[..k];
    assert SomePrefixAtLimit(s, xs) ==> SomePrefixAtLimit(s, ys);
    if AtLimit(s, Total(xs) + x) {
      assert AtLimit(s, Total(ys[..|ys|]));
    }
  }

  lemma {:induction false} NoPnlYet(ops: seq<Op>, first: int, day: int)
    requires DaysInOrder(first, ops) && LastDay(first, ops) < day
    ensures DayPnls(ops, day) == []
  {
    if ops != [] {
      var rest := ops[..|ops| - 1];
      DaysStayInOrder(first, ops);
      NoPnlYet(rest, first, day);
    }
  }

  // What the engine shows on a day, against what was recorded that day.
  ghost predicate DayFacts(s: Setting, e: Engine, pnls: seq<real>, day: int) {
    Seen(e, day).pnl == Total(pnls) && (Seen(e, day).kill <==> SomePrefixAtLimit(s, pnls))
  }

  lemma QuietDay(s: Setting, e: Engine, day: int)
    requires e.date < day
    ensures DayFacts(s, e, [], day)
  {
  }

  lemma RecordSeen(s: Setting, b: Books, day: int, pnl: real)
    ensures var before, after := Seen(b.engine, day), Seen(Record(s, b, day, pnl).engine, day);
            after == DayView(before.pnl + pnl, before.kill || AtLimit(s, before.pnl + pnl))
  {
  }

  lemma OthersSeen(s: Setting, b: Books, op: Op)
    requires CleanSetting(s) && InSync(s, b, op.today) && !op.RecordOp?
    ensures Seen(Do(s, b, op).books.engine, op.today) == Seen(b.engine, op.today)
  {
  }

  // One more call on the same day.
  lemma SameDayCall(s: Setting, b: Books, pnls: seq<real>, op: Op)
    requires CleanSetting(s) && InSync(s, b, op.today) && DayFacts(s, b.engine, pnls, op.today)
    ensures DayFacts(s, Do(s, b, op).books.engine, if op.RecordOp? then pnls + [op.pnl] else pnls, op.today)
  {
    if op.RecordOp? {
      PrefixesOfAppend(s, pnls, op.pnl);
      RecordSeen(s, b, op.today, op.pnl);
    } else {
      OthersSeen(s, b, op);
    }
  }

  lemma {:induction false} SwitchFollowsDay(s: Setting, first: int, ops: seq<Op>, day: int)
    requires CleanSetting(s) && DaysInOrder(first, ops) && LastDay(first, ops) <= day
    ensures DayFacts(s, Run(s, Start(s, None, first), ops).engine, DayPnls(ops, day), day)
  {
    var b := Start(s, None, first);
    var end := Run(s, b, ops);
    RunStaysInSync(s, b, first, ops);
    if LastDay(first, ops) < day {
      NoPnlYet(ops, first, day);
      QuietDay(s, end.engine, day);
    } else if ops != [] {
      var rest, op := ops[..|ops| - 1], ops[|ops| - 1];
      DaysStayInOrder(first, ops);
      SwitchFollowsDay(s, first, rest, day);
      RunStaysInSync(s, b, first, rest);
      LaterDayInSync(s, Run(s, b, rest), LastDay(first, rest), day);
      SameDayCall(s, Run(s, b, rest), DayPnls(rest, day), op);
      assert DayPnls(ops, day) == if op.RecordOp? then DayPnls(rest, day) + [op.pnl] else DayPnls(rest, day);
    }
  }

  // MAIN RESULT. On the current day the P&L is the sum of what was recorded that day, and the switch is on
  // exactly when there is an account and at some moment of the day the sum so far was a loss of at least its
  // configured share: it latches until the day changes.
  lemma KillSwitchIff(s: Setting, first: int, ops: seq<Op>, day: int)
    requires CleanSetting(s) && DaysInOrder(first, ops) && LastDay(first, ops) <= day
    ensures var e, xs := Run(s, Start(s, None, first), ops).engine, DayPnls(ops, day);
            && Seen(e, day).pnl == SumBy(xs, Itself)
            && (Seen(e, day).kill <==> exists k :: 1 <= k <= |xs| && AtLimit(s, SumBy(xs[..k], Itself)))
  {
    SwitchFollowsDay(s, first, ops, day);
    var xs := DayPnls(ops, day);
    forall k | 0 <= k <= |xs|
      ensures Total(xs[..k]) == SumBy(xs[..k], Itself)
    {
      TotalIsSum(xs[..k]);
    }
    assert xs[..|xs|] == xs;
  }

  function Itself(x: real): real {
    x
  }

  lemma {:induction false} TotalIsSum(xs: seq<real>)
    ensures Total(xs) == SumBy(xs, Itself)
  {
    if xs != [] {
      var n := |xs| - 1;
      TotalIsSum(xs[..n]);
      SumByAppend(xs[..n], [xs[n]], Itself);
      assert xs == xs[..n] + [xs[n]];
    }
  }

  // A restart on some day: today's file is taken over, any other is gone and the day begins with what was
  // injected; either way a loss at the limit puts the switch on, and then the file says so.
  lemma StartsFrom(s: Setting, file: Option<Saved>, today: int)
    ensures var b, loaded := Start(s, file, today), file.Some? && file.value.date == today;
            && b.engine.date == today
            && b.engine.pnl == (if loaded then file.value.pnl else s.injectedPnl)
            && (b.engine.kill <==> (loaded && file.value.kill) || AtLimit(s, b.engine.pnl))
            && b.file == if b.engine.kill && !(loaded && file.value.kill)
                         then Some(Saved(today, b.engine.pnl, true)) else if loaded then file else None
  {
  }

  // Each refusal is given exactly when its gate is closed, and with the switch on nothing else is looked at; so
  // an approval means every gate is open, in particular that a hundred shares at the middle of the quote cost no
  // more than the cap.
  lemma ApprovalMeans(s: Setting, b: Books, c: Candidate, open: int)
    ensures var v := Verdict(s, b, c, open);
            var full := open >= s.params.maxPositions;
            var dear := c.contract.Some? && (c.contract.value.bid + c.contract.value.ask) * 50.0 > s.params.maxPremium;
            var sector := if c.ticker in s.sectorOf then Some(s.sectorOf[c.ticker]) else None;
            var count := if sector.Some? && sector.value in s.sectorCounts then s.sectorCounts[sector.value] else 0;
            var crowded := sector.Some? && count >= s.params.maxSector;
            && (b.engine.kill ==> v == [KillSwitch])
            && (!b.engine.kill ==>
                  && KillSwitch !in v && (PositionCap in v <==> full)
                  && (PremiumCap in v <==> dear) && (SectorCap in v <==> crowded))
            && (v == [] <==> !b.engine.kill && !full && !dear && !crowded)
  {
  }
}
