/** The replay's ledger, and why stepping it in pieces is stepping it at once. */
module ReplayTheorems {
  import opened Common
  import opened Schemas
  import opened ExitMonitors
  import opened Replay

  // ----- the ledger -----

  // What an open position cost: its entry premium for a hundred shares of each contract.
  function OpenCost(r: Rec): real {
    if r.status.Open? then r.pos.entry * (r.pos.contracts * 100) as real else 0.0
  }

  function ClosedPnl(r: Rec): real {
    if r.status.Closed? && r.pnlDollars.Some? then r.pnlDollars.value else 0.0
  }

  // Exit signals quote a non-negative premium and the ratio that goes with it; entries cost something.
  ghost predicate Honest(h: Harness) {
    && (forall p: Pos, day: int :: p.entry > 0.0 && h.policy.exit(p, day).Some? ==>
          var s := h.policy.exit(p, day).value;
          s.currentPremium >= 0.0 && s.pnl * p.entry == s.currentPremium - p.entry)
    && (forall c :: h.policy.enter(c) ==> c.contract.Some? && c.contract.value.Mid() > 0.0)
  }

  ghost predicate PaidFor(recs: seq<Rec>) {
    forall i: nat :: i < |recs| ==> recs[i].pos.entry > 0.0
  }

  function Equity(b: Book): real {
    b.cash + SumBy(b.recs, OpenCost) - SumBy(b.recs, ClosedPnl)
  }

  // Cash plus what open positions cost is the initial capital plus what closed trades made.
  ghost predicate Balanced(b: Book, initial: real) {
    b.cash >= 0.0 && Equity(b) == initial && PaidFor(b.recs)
  }

  lemma ProceedsSplit(entry: real, current: real, pnl: real, contracts: nat)
    requires pnl * entry == current - entry
    ensures CostOf(current, contracts) == CostOf(entry, contracts) + pnl * CostOf(entry, contracts)
  {
    var n := (contracts * 100) as real;
    assert pnl * (entry * n) == (pnl * entry) * n;
    assert (current - entry) * n == current * n - entry * n;
  }

  // Closing a record turns its cost and its P&L into cash.
  lemma ExitRecBalances(h: Harness, r: Rec, day: int)
    requires Honest(h) && h.Simulates() && r.status.Open? && r.pos.entry > 0.0
    ensures var r' := ExitRec(h, r, day);
            && OpenCost(r') - ClosedPnl(r') + Proceeds(h, r, day) == OpenCost(r)
            && Proceeds(h, r, day) >= 0.0 && r'.pos.entry == r.pos.entry
  {
    var p := Peaked(r.pos, h.policy.premium(r.pos.contract, day));
    assert EntryCost(p) == EntryCost(r.pos);
    if Exits(h, r, day).Some? {
      var s := Exits(h, r, day).value;
      assert h.policy.exit(p, day) == Some(s) && p.entry > 0.0;
      ProceedsSplit(p.entry, s.currentPremium, s.pnl, p.contracts);
      MulNonNeg(s.currentPremium, (p.contracts * 100) as real);
    }
  }

  lemma {:induction false} ExitPassBalances(
    h: Harness, day: int, todo: seq<nat>, recs: seq<Rec>, cash: real, initial: real)
    requires Honest(h) && h.Simulates() && InRange(todo, recs) && Ascending(todo)
    requires forall k :: 0 <= k < |todo| ==> recs[todo[k]].status.Open?
    requires Balanced(Book(todo, recs, cash), initial)
    ensures Balanced(ExitPass(h, day, todo, recs, cash), initial)
    decreases |todo|
  {
    if todo != [] {
      var o, r := todo[0], recs[todo[0]];
      var r' := ExitRec(h, r, day);
      ExitRecBalances(h, r, day);
      SumByUpdate(recs, o, r', OpenCost);
      SumByUpdate(recs, o, r', ClosedPnl);
      ExitPassBalances(h, day, todo[1..], recs[o := r'], cash + Proceeds(h, r, day), initial);
    }
  }

  lemma EnteredBalances(h: Harness, b: Book, c: Candidate, day: int, contracts: nat, initial: real)
    requires h.Simulates() && c.contract.Some? && c.contract.value.Mid() > 0.0
    requires Balanced(b, initial) && CostOf(c.contract.value.Mid(), contracts) <= b.cash
    ensures Balanced(Entered(h, b, c, day, contracts), initial)
  {
    var r := NewRec(|b.recs|, c, day, contracts);
    SumByAppend(b.recs, [r], OpenCost);
    SumByAppend(b.recs, [r], ClosedPnl);
    assert SumBy([r], OpenCost) == EntryCost(r.pos) && SumBy([r], ClosedPnl) == 0.0;
  }

  lemma {:induction false} EnterPassBalances(h: Harness, day: int, b: Book, cands: seq<Candidate>, initial: real)
    requires Honest(h) && Enterable(h) && h.Simulates() && Balanced(b, initial)
    ensures Balanced(EnterPass(h, day, b, cands), initial)
    decreases |cands|
  {
    if cands != [] && |b.open| < h.cap {
      var c := cands[0];
      if h.policy.enter(c) {
        var contracts := Sized(h, c.contract.value.Mid(), b.cash);
        if CostOf(c.contract.value.Mid(), contracts) <= b.cash {
          EnteredBalances(h, b, c, day, contracts, initial);
          EnterPassBalances(h, day, Entered(h, b, c, day, contracts), cands[1..], initial);
        }
      }
      EnterPassBalances(h, day, b, cands[1..], initial);
    }
  }

  lemma DayBalances(h: Harness, st: St, day: int, initial: real)
    requires Ready(h, st) && Honest(h) && h.Simulates()
    requires Balanced(Book(st.open, st.recs, st.cash), initial)
    ensures Balanced(DayBook(h, st, day), initial)
  {
    assert forall k :: 0 <= k < |st.open| ==> st.open[k] in st.open;
    ExitPassBalances(h, day, st.open, st.recs, st.cash, initial);
    var b := ExitPass(h, day, st.open, st.recs, st.cash);
    if |b.open| < h.cap {
      EnterPassBalances(h, day, b, h.policy.candidates(day), initial);
    }
  }

  // MAIN RESULT. At every day boundary of a simulated replay: the open list is exactly the open-status
  // subsequence of the records and respects the cap, cash is never negative, and cash plus open entry
  // costs equals the initial capital plus the closed P&L.
  lemma {:induction false} BooksBalanceEveryDay(h: Harness, already: set<int>, st: St, dates: seq<int>, initial: real)
    requires Ready(h, st) && Honest(h) && h.Simulates() && |st.open| <= h.cap
    requires Balanced(Book(st.open, st.recs, st.cash), initial)
    ensures var end := Advance(h, already, st, dates);
            && Exact(end.open, end.recs) && |end.open| <= h.cap
            && end.cash >= 0.0
            && end.cash + SumBy(end.recs, OpenCost) == initial + SumBy(end.recs, ClosedPnl)
            && Balanced(Book(end.open, end.recs, end.cash), initial)
    decreases |dates|
  {
    if dates != [] {
      DayKeepsExact(h, st, dates[0]);
      DayBalances(h, st, dates[0], initial);
      var step := dates[0] !in already && InWindow(h, dates[0]);
      BooksBalanceEveryDay(h, already, if step then StepDay(h, st, dates[0]) else st, dates[1..], initial);
    }
  }

  lemma FreshBalances(h: Harness)
    requires h.Simulates() && h.capital.value >= 0.0 && Enterable(h)
    ensures Ready(h, FreshState(h)) && Balanced(Book([], [], FreshState(h).cash), h.capital.value)
  {
  }

  lemma Affordable(n: nat, mid: real, budget: real)
    requires mid > 0.0
    ensures n as real <= budget / (mid * 100.0) <==> CostOf(mid, n) <= budget
  {
    var unit := mid * 100.0;
    var q := budget / unit;
    assert q * unit == budget;
    assert CostOf(mid, n) == n as real * unit;
    if n as real <= q {
      MulMono(n as real, q, unit);
    } else {
      MulStrict(q, n as real, unit);
    }
  }

  // ----- the equity snapshot -----

  lemma {:induction false} MarkedPrefix(h: Harness, open: seq<nat>, recs: seq<Rec>, more: seq<Rec>, day: int)
    requires InRange(open, recs)
    ensures MarkedAll(h, open, recs + more, day) == MarkedAll(h, open, recs, day)
  {
    if open != [] {
      MarkedPrefix(h, open[..|open| - 1], recs, more, day);
    }
  }

  function MarkIfOpen(h: Harness, day: int): Rec -> real {
    (r: Rec) => if r.status.Open? then Marked(h, r.pos, day) else 0.0
  }

  lemma {:induction false} AscendingBound(open: seq<nat>, n: nat)
    requires Ascending(open) && forall k :: 0 <= k < |open| ==> open[k] < n
    ensures |open| <= n
  {
    if open != [] {
      AscendingBound(open[..|open| - 1], open[|open| - 1]);
    }
  }

  // The sum over the open list is the sum over the open-status records.
  lemma {:induction false} MarkedOverRecords(h: Harness, open: seq<nat>, recs: seq<Rec>, day: int)
    requires Exact(open, recs)
    ensures MarkedAll(h, open, recs, day) == SumBy(recs, MarkIfOpen(h, day))
    decreases |recs|
  {
    if recs == [] {
      AscendingBound(open, 0);
    } else {
      var n, w := |recs| - 1, MarkIfOpen(h, day);
      var rest, last := recs[..n], recs[n];
      assert recs == rest + [last];
      SumByAppend(rest, [last], w);
      assert SumBy([last], w) == w(last);
      if last.status.Open? {
        var before := open[..|open| - 1];
        OpenEndsWith(open, recs);
        MarkedOverRecords(h, before, rest, day);
        MarkedPrefix(h, before, rest, [last], day);
      } else {
        assert forall k :: 0 <= k < |open| ==> open[k] in open && open[k] != n;
        MarkedOverRecords(h, open, rest, day);
        MarkedPrefix(h, open, rest, [last], day);
      }
    }
  }

  lemma OpenEndsWith(open: seq<nat>, recs: seq<Rec>)
    requires Exact(open, recs) && recs != [] && recs[|recs| - 1].status.Open?
    ensures open != [] && open[|open| - 1] == |recs| - 1
    ensures Exact(open[..|open| - 1], recs[..|recs| - 1])
  {
    var n, m := |recs| - 1, |open| - 1;
    assert n in open;
    var k :| 0 <= k < |open| && open[k] == n;
    assert k == m;
    assert forall i :: i in open <==> i in open[..m] || i == n;
    assert forall j :: 0 <= j < m ==> open[..m][j] < open[m];
  }

  // What an open position would gain or lose at today's quote; nothing without a quote.
  function Unrealized(h: Harness, day: int): Rec -> real {
    (r: Rec) =>
      var m := h.policy.premium(r.pos.contract, day);
      if r.status.Open? && m.Some? && m.value != 0.0 then (m.value - r.pos.entry) * (r.pos.contracts * 100) as real
      else 0.0
  }

  lemma MarkSplits(h: Harness, r: Rec, day: int)
    ensures MarkIfOpen(h, day)(r) == OpenCost(r) + Unrealized(h, day)(r)
  {
    var m := h.policy.premium(r.pos.contract, day);
    if m.Some? {
      var n := (r.pos.contracts * 100) as real;
      assert (m.value - r.pos.entry) * n == m.value * n - r.pos.entry * n;
    }
  }

  lemma {:induction false} MarksSplit(h: Harness, recs: seq<Rec>, day: int)
    ensures SumBy(recs, MarkIfOpen(h, day)) == SumBy(recs, OpenCost) + SumBy(recs, Unrealized(h, day))
  {
    if recs != [] {
      MarkSplits(h, recs[0], day);
      MarksSplit(h, recs[1..], day);
    }
  }

  // A snapshot is the initial capital plus realized plus unrealized P&L.
  lemma EquityIsRealizedPlusUnrealized(h: Harness, b: Book, initial: real, day: int)
    requires Exact(b.open, b.recs) && Balanced(b, initial)
    ensures b.cash + MarkedAll(h, b.open, b.recs, day) ==
            initial + SumBy(b.recs, ClosedPnl) + SumBy(b.recs, Unrealized(h, day))
  {
    MarkedOverRecords(h, b.open, b.recs, day);
    MarksSplit(h, b.recs, day);
  }

  // A purchase of more than one contract stays within the budget share of cash; sizes lie in 1..10, and
  // one more contract would not fit. What costs nothing is bought once.
  lemma BudgetRespected(tradePct: real, mid: real, cash: real)
    ensures var n := ContractsForBudget(tradePct, mid, cash);
            && 1 <= n <= 10 && (mid <= 0.0 ==> n == 1)
            && (mid > 0.0 && n > 1 ==> mid * (n * 100) as real <= cash * tradePct)
            && (mid > 0.0 && n < 10 ==> mid * ((n + 1) * 100) as real > cash * tradePct)
  {
    var n := ContractsForBudget(tradePct, mid, cash);
    if mid > 0.0 {
      Affordable(n, mid, cash * tradePct);
      Affordable(n + 1, mid, cash * tradePct);
    }
  }

  // ----- stepping in pieces -----

  lemma {:induction false} AdvanceInTwo(h: Harness, already: set<int>, st: St, a: seq<int>, b: seq<int>)
    requires Ready(h, st)
    ensures Advance(h, already, st, a + b) == Advance(h, already, Advance(h, already, st, a), b)
    decreases |a|
  {
    if a == [] {
      assert a + b == b;
    } else {
      assert (a + b)[1..] == a[1..] + b && (a + b)[0] == a[0];
      DayKeepsExact(h, st, a[0]);
      var step := a[0] !in already && InWindow(h, a[0]);
      AdvanceInTwo(h, already, if step then StepDay(h, st, a[0]) else st, a[1..], b);
    }
  }

  lemma AdvanceOne(h: Harness, already: set<int>, st: St, day: int)
    requires Ready(h, st)
    ensures Advance(h, already, st, [day]) == if day in already || !InWindow(h, day) then st else StepDay(h, st, day)
  {
    assert [day][1..] == [];
    DayKeepsExact(h, st, day);
  }

  lemma AdvanceNext(h: Harness, already: set<int>, st: St, dates: seq<int>, i: nat)
    requires Ready(h, st) && i < |dates|
    ensures Advance(h, already, st, dates[..i + 1]) ==
            Advance(h, already, Advance(h, already, st, dates[..i]), [dates[i]])
  {
    AdvanceInTwo(h, already, st, dates[..i], [dates[i]]);
    assert dates[..i + 1] == dates[..i] + [dates[i]];
  }

  // The snapshot was taken on the j-th date, and is what the records of that evening say.
  ghost predicate SaidBy(
    h: Harness, already: set<int>, st: St, dates: seq<int>, initial: real, snapshot: (int, real), j: nat)
    requires Ready(h, st) && j < |dates|
  {
    var evening := Advance(h, already, st, dates[..j + 1]).recs;
    && snapshot.0 == dates[j]
    && snapshot.1 == initial + SumBy(evening, ClosedPnl) + SumBy(evening, Unrealized(h, dates[j]))
  }

  ghost predicate Said(h: Harness, already: set<int>, st: St, dates: seq<int>, initial: real, snapshot: (int, real))
    requires Ready(h, st)
  {
    exists j: nat :: j < |dates| && SaidBy(h, already, st, dates, initial, snapshot, j)
  }

  lemma SaidEarlier(
    h: Harness, already: set<int>, st: St, dates: seq<int>, n: nat, initial: real, snapshot: (int, real))
    requires Ready(h, st) && n <= |dates| && Said(h, already, st, dates[..n], initial, snapshot)
    ensures Said(h, already, st, dates, initial, snapshot)
  {
    var j: nat :| j < n && SaidBy(h, already, st, dates[..n], initial, snapshot, j);
    assert dates[..n][..j + 1] == dates[..j + 1];
    assert SaidBy(h, already, st, dates, initial, snapshot, j);
  }

  // One more processed date appends one snapshot, and it says what the records of that evening say.
  lemma SnapshotOfTheDay(h: Harness, st: St, day: int, initial: real)
    requires Ready(h, st) && Honest(h) && h.Simulates()
    requires Balanced(Book(st.open, st.recs, st.cash), initial)
    ensures var st' := StepDay(h, st, day);
            st'.equity == st.equity +
                          [(day, initial + SumBy(st'.recs, ClosedPnl) + SumBy(st'.recs, Unrealized(h, day)))]
  {
    DayKeepsExact(h, st, day);
    DayBalances(h, st, day, initial);
    EquityIsRealizedPlusUnrealized(h, DayBook(h, st, day), initial, day);
  }

  // What the last of some dates adds to the curve.
  lemma LastSnapshot(h: Harness, already: set<int>, st: St, dates: seq<int>, initial: real)
    requires Ready(h, st) && Honest(h) && h.Simulates() && |st.open| <= h.cap && dates != []
    requires Balanced(Book(st.open, st.recs, st.cash), initial)
    ensures var n := |dates| - 1;
            var curve, before := Advance(h, already, st, dates).equity, Advance(h, already, st, dates[..n]).equity;
            curve == before ||
            (|curve| == |before| + 1 && before <= curve && Said(h, already, st, dates, initial, curve[|before|]))
  {
    var n := |dates| - 1;
    var before, day := Advance(h, already, st, dates[..n]), dates[n];
    BooksBalanceEveryDay(h, already, st, dates[..n], initial);
    AdvanceNext(h, already, st, dates, n);
    AdvanceOne(h, already, before, day);
    assert dates[..n + 1] == dates;
    if day !in already && InWindow(h, day) {
      SnapshotOfTheDay(h, before, day, initial);
      assert SaidBy(h, already, st, dates, initial, StepDay(h, before, day).equity[|before.equity|], n);
    }
  }

  // MAIN RESULT. Every snapshot a simulated run adds to the equity curve is the initial capital plus the
  // realized and unrealized P&L of the records as they stood that evening.
  lemma {:induction false} EquityCurveIsPnl(h: Harness, already: set<int>, st: St, dates: seq<int>, initial: real)
    requires Ready(h, st) && Honest(h) && h.Simulates() && |st.open| <= h.cap
    requires Balanced(Book(st.open, st.recs, st.cash), initial)
    ensures var curve := Advance(h, already, st, dates).equity;
            && st.equity <= curve
            && forall k :: |st.equity| <= k < |curve| ==> Said(h, already, st, dates, initial, curve[k])
    decreases |dates|
  {
    if dates != [] {
      var n := |dates| - 1;
      var before, curve := Advance(h, already, st, dates[..n]).equity, Advance(h, already, st, dates).equity;
      EquityCurveIsPnl(h, already, st, dates[..n], initial);
      LastSnapshot(h, already, st, dates, initial);
      forall k | |st.equity| <= k < |curve|
        ensures Said(h, already, st, dates, initial, curve[k])
      {
        if k < |before| {
          SaidEarlier(h, already, st, dates, n, initial, before[k]);
        }
      }
    }
  }

  // Only the answer to "already processed" for the dates at hand matters.
  lemma {:induction false} SameAnswersSameWalk(h: Harness, one: set<int>, two: set<int>, st: St, dates: seq<int>)
    requires Ready(h, st)
    requires forall k :: 0 <= k < |dates| && InWindow(h, dates[k]) ==> (dates[k] in one <==> dates[k] in two)
    ensures Advance(h, one, st, dates) == Advance(h, two, st, dates)
    decreases |dates|
  {
    if dates != [] {
      DayKeepsExact(h, st, dates[0]);
      var step := dates[0] !in one && InWindow(h, dates[0]);
      var next := if step then StepDay(h, st, dates[0]) else st;
      assert forall k :: 0 <= k < |dates[1..]| ==> dates[1..][k] == dates[k + 1];
      SameAnswersSameWalk(h, one, two, next, dates[1..]);
    }
  }

  lemma {:induction false} NothingNew(h: Harness, already: set<int>, st: St, dates: seq<int>)
    requires Ready(h, st)
    requires forall k :: 0 <= k < |dates| && InWindow(h, dates[k]) ==> dates[k] in already
    ensures Advance(h, already, st, dates) == st
    decreases |dates|
  {
    if dates != [] {
      NothingNew(h, already, st, dates[1..]);
    }
  }

  function Taken(h: Harness, already: set<int>, dates: seq<int>): seq<int> {
    if dates == [] then []
    else if dates[0] in already || !InWindow(h, dates[0]) then Taken(h, already, dates[1..])
    else [dates[0]] + Taken(h, already, dates[1..])
  }

  lemma Reassociate(a: seq<int>, x: int, t: seq<int>)
    ensures a + ([x] + t) == (a + [x]) + t
  {
  }

  // The dates processed are exactly the new ones inside the window, in order.
  lemma {:induction false} ProcessedAre(h: Harness, already: set<int>, st: St, dates: seq<int>)
    requires Ready(h, st)
    ensures Advance(h, already, st, dates).processed == st.processed + Taken(h, already, dates)
    ensures forall d :: d in Taken(h, already, dates) <==> d in dates && d !in already && h.start <= d <= h.end
    decreases |dates|
  {
    TakenMembers(h, already, dates);
    if dates == [] {
    } else if dates[0] in already || !InWindow(h, dates[0]) {
      ProcessedAre(h, already, st, dates[1..]);
    } else {
      DayKeepsExact(h, st, dates[0]);
      ProcessedAre(h, already, StepDay(h, st, dates[0]), dates[1..]);
      Reassociate(st.processed, dates[0], Taken(h, already, dates[1..]));
    }
  }

  lemma {:induction false} TakenMembers(h: Harness, already: set<int>, dates: seq<int>)
    ensures forall d :: d in Taken(h, already, dates) <==> d in dates && d !in already && InWindow(h, d)
  {
    if dates != [] {
      TakenMembers(h, already, dates[1..]);
      assert forall d :: d in dates <==> d == dates[0] || d in dates[1..];
    }
  }

  ghost predicate NoRepeats(dates: seq<int>) {
    forall j, k :: 0 <= j < k < |dates| ==> dates[j] != dates[k]
  }

  lemma {:induction false} TakenNoRepeats(h: Harness, already: set<int>, dates: seq<int>)
    requires NoRepeats(dates)
    ensures NoRepeats(Taken(h, already, dates))
  {
    if dates != [] {
      var rest := dates[1..];
      TakenNoRepeats(h, already, rest);
      TakenMembers(h, already, rest);
      assert dates[0] !in rest;
      assert forall k :: 0 <= k < |Taken(h, already, rest)| ==> Taken(h, already, rest)[k] in Taken(h, already, rest);
    }
  }

  // No date is ever processed twice.
  lemma NoDateTwice(h: Harness, st: St, dates: seq<int>)
    requires Ready(h, st) && NoRepeats(dates) && NoRepeats(st.processed)
    ensures NoRepeats(StepForward(h, st, dates).processed)
  {
    var already := ProcessedSet(st);
    var taken := Taken(h, already, dates);
    ProcessedAre(h, already, st, dates);
    TakenMembers(h, already, dates);
    TakenNoRepeats(h, already, dates);
    assert forall k :: 0 <= k < |taken| ==> taken[k] in taken;
    assert forall k :: 0 <= k < |st.processed| ==> st.processed[k] in already;
  }

  // MAIN RESULT. Stepping a prefix of the dates and later all of them is stepping them all at once;
  // in particular a call with nothing new changes nothing.
  lemma SteppingInPieces(h: Harness, st: St, a: seq<int>, b: seq<int>)
    requires Ready(h, st) && NoRepeats(a + b)
    ensures StepForward(h, StepForward(h, st, a), a + b) == StepForward(h, st, a + b)
    ensures StepForward(h, StepForward(h, st, a), a) == StepForward(h, st, a)
  {
    var already := ProcessedSet(st);
    var mid := StepForward(h, st, a);
    var later := ProcessedSet(mid);
    ProcessedAre(h, already, st, a);
    TakenMembers(h, already, a);
    assert forall d :: d in later <==> d in already || (d in a && InWindow(h, d));
    NothingNew(h, later, mid, a);
    AdvanceInTwo(h, already, st, a, b);
    AdvanceInTwo(h, later, mid, a, b);
    forall k | 0 <= k < |b|
      ensures b[k] !in a
    {
      assert (a + b)[|a| + k] == b[k];
      assert forall j :: 0 <= j < |a| ==> (a + b)[j] == a[j];
    }
    SameAnswersSameWalk(h, already, later, mid, b);
  }

  lemma {:induction false} ExpiresExactly(recs: seq<Rec>, open: seq<nat>, day: int)
    requires InRange(open, recs) && Ascending(open)
    ensures forall i: nat :: i < |recs| ==>
              ExpireAll(recs, open, day)[i] == if i in open then ExpireRec(recs[i], day) else recs[i]
    decreases |open|
  {
    if open != [] {
      var n := |open| - 1;
      ExpiresExactly(recs, open[..n], day);
      assert open == open[..n] + [open[n]];
    }
  }

  // Without a memory of processed dates the walk is the same.
  lemma {:induction false} WindowWalkAdvances(h: Harness, st: St, dates: seq<int>)
    requires Ready(h, st)
    ensures WindowWalk(h, st, dates) == Advance(h, {}, st, dates)
    decreases |dates|
  {
    if dates != [] {
      var n := |dates| - 1;
      WindowWalkAdvances(h, st, dates[..n]);
      AdvanceNext(h, {}, st, dates, n);
      AdvanceOne(h, {}, WindowWalk(h, st, dates[..n]), dates[n]);
      assert dates[..n + 1] == dates;
    }
  }

  // MAIN RESULT. A one-shot run is one fresh step forward with every still-open record expired.
  lemma RunIsStepThenExpire(h: Harness, dates: seq<int>)
    requires Enterable(h)
    ensures WindowWalk(h, FreshState(h), dates) == StepForward(h, FreshState(h), dates)
    ensures var end := StepForward(h, FreshState(h), dates);
            && |RunRecords(h, dates)| == |end.recs|
            && forall i: nat :: i < |end.recs| ==>
                 RunRecords(h, dates)[i] ==
                 if end.recs[i].status == Open then end.recs[i].(status := Expired, exitDate := Some(h.end))
                 else end.recs[i]
  {
    assert ProcessedSet(FreshState(h)) == {};
    WindowWalkAdvances(h, FreshState(h), dates);
    var end := StepForward(h, FreshState(h), dates);
    ExpiresExactly(end.recs, end.open, h.end);
  }
}
