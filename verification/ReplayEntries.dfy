/** What one day of the replay does, in candidates taken and dollars booked
    (src/trader/backtest/harness.py, schemas.py). */
module ReplayEntries {
  import opened Common
  import opened Schemas
  import opened ExitMonitors
  import opened Replay
  import opened ReplayTheorems

  // ----- entries -----

  function MidPrice(c: Candidate): real
    requires c.contract.Some?
  {
    (c.contract.value.bid + c.contract.value.ask) / 2.0
  }

  // The record a candidate gets: bought at the middle of its quote, aiming at its target or else its strike.
  predicate OpenedFor(r: Rec, id: nat, c: Candidate, day: int, contracts: nat)
    requires c.contract.Some?
  {
    && r.candidate == c && r.entryDate == r.pos.openedOn == day && r.status.Open?
    && r.exitDate.None? && r.exit.None? && r.pnlPct.None? && r.pnlDollars.None?
    && r.pos.id == id && r.pos.ticker == c.ticker && r.pos.contract == c.contract.value
    && r.pos.entry == MidPrice(c) && r.pos.contracts == contracts && r.pos.peak.None?
    && r.pos.target == (if c.setup.target.Some? then c.setup.target.value else c.contract.value.strike)
    && r.pos.entrySetup == Some(c.setup)
  }

  function PaidFor(r: Rec): real {
    r.pos.entry * (r.pos.contracts * 100) as real
  }

  // Cash once the first j of some new records are paid for.
  function CashLeft(h: Harness, cash: real, news: seq<Rec>, j: nat): real
    requires j <= |news|
  {
    if h.capital.Some? then cash - SumBy(news[..j], PaidFor) else cash
  }

  function Size(h: Harness, c: Candidate, cash: real): nat
    requires c.contract.Some?
  {
    if h.capital.Some? then ContractsForBudget(h.tradePct, MidPrice(c), cash) else 1
  }

  predicate CanPay(h: Harness, c: Candidate, cash: real)
    requires c.contract.Some?
  {
    h.capital.Some? ==> MidPrice(c) * (Size(h, c, cash) * 100) as real <= cash
  }

  // j of the picks come before candidate k.
  predicate Turn(at: seq<nat>, k: nat, j: nat) {
    j <= |at| && (j > 0 ==> at[j - 1] < k) && (j < |at| ==> k <= at[j])
  }

  // Each pick becomes one record, in order, behind the old ones.
  ghost predicate PicksOpened(h: Harness, day: int, b: Book, cands: seq<Candidate>, at: seq<nat>, b': Book) {
    && Ascending(at) && (forall j :: 0 <= j < |at| ==> at[j] < |cands| && cands[at[j]].contract.Some?)
    && |b'.recs| == |b.recs| + |at| && b.recs == b'.recs[..|b.recs|]
    && b'.open == b.open + seq(|at|, j requires 0 <= j < |at| => |b.recs| + j)
    && var news := b'.recs[|b.recs|..];
       && b'.cash == CashLeft(h, b.cash, news, |at|)
       && forall j :: 0 <= j < |at| ==>
            OpenedFor(news[j], |b.recs| + j, cands[at[j]], day, Size(h, cands[at[j]], CashLeft(h, b.cash, news, j)))
  }

  // A candidate is picked exactly when the policy enters it, there is room below the cap when its turn comes, and
  // the cash left then pays for it.
  ghost predicate PicksRight(h: Harness, b: Book, cands: seq<Candidate>, at: seq<nat>, news: seq<Rec>)
    requires Enterable(h) && |news| == |at|
  {
    forall k: nat, j: nat :: k < |cands| && Turn(at, k, j) ==>
      (j < |at| && at[j] == k <==>
       h.policy.enter(cands[k]) && |b.open| + j < h.cap && CanPay(h, cands[k], CashLeft(h, b.cash, news, j)))
  }

  ghost predicate Scanned(h: Harness, day: int, b: Book, cands: seq<Candidate>, at: seq<nat>, b': Book)
    requires Enterable(h)
  {
    PicksOpened(h, day, b, cands, at, b') && PicksRight(h, b, cands, at, b'.recs[|b.recs|..])
  }

  lemma {:induction false} OneMoreCandidate(h: Harness, day: int, b: Book, cands: seq<Candidate>, c: Candidate)
    requires Enterable(h)
    ensures EnterPass(h, day, b, cands + [c]) == EnterPass(h, day, EnterPass(h, day, b, cands), [c])
    decreases |cands|
  {
    if cands == [] {
      assert [] + [c] == [c];
    } else if |b.open| < h.cap {
      assert (cands + [c])[1..] == cands[1..] + [c];
      var d := cands[0];
      OneMoreCandidate(h, day, b, cands[1..], c);
      if h.policy.enter(d) {
        OneMoreCandidate(h, day, Entered(h, b, d, day, Sized(h, d.contract.value.Mid(), b.cash)), cands[1..], c);
      }
    }
  }

  // One candidate, in these terms.
  lemma OfferOne(h: Harness, day: int, b: Book, c: Candidate)
    requires Enterable(h)
    ensures var b' := EnterPass(h, day, b, [c]);
            if h.policy.enter(c) && |b.open| < h.cap && CanPay(h, c, b.cash)
            then && |b'.recs| == |b.recs| + 1 && b.recs == b'.recs[..|b.recs|]
                 && OpenedFor(b'.recs[|b.recs|], |b.recs|, c, day, Size(h, c, b.cash))
                 && b'.open == b.open + [|b.recs|]
                 && b'.cash == (if h.capital.Some? then b.cash - PaidFor(b'.recs[|b.recs|]) else b.cash)
            else b' == b
  {
    assert [c][1..] == [];
    if h.policy.enter(c) {
      assert c.contract.value.Mid() == MidPrice(c);
    }
  }

  lemma CashAfterOne(h: Harness, cash: real, news: seq<Rec>, r: Rec)
    ensures forall j: nat :: j <= |news| ==> CashLeft(h, cash, news + [r], j) == CashLeft(h, cash, news, j)
    ensures CashLeft(h, cash, news + [r], |news| + 1) ==
            if h.capital.Some? then CashLeft(h, cash, news, |news|) - PaidFor(r) else cash
  {
    assert forall j: nat :: j <= |news| ==> (news + [r])[..j] == news[..j];
    assert (news + [r])[..|news| + 1] == news + [r] && news[..|news|] == news;
    SumByAppend(news, [r], PaidFor);
    assert SumBy([r], PaidFor) == PaidFor(r);
  }

  lemma TurnOfLast(at: seq<nat>, n: nat, j: nat)
    requires Turn(at, n, j) && forall i :: 0 <= i < |at| ==> at[i] < n
    ensures j == |at|
  {
  }

  lemma PickKeepsOpened(
    h: Harness, day: int, b: Book, cands: seq<Candidate>, at: seq<nat>, b1: Book, c: Candidate, b2: Book)
    requires Enterable(h) && PicksOpened(h, day, b, cands, at, b1) && b2 == EnterPass(h, day, b1, [c])
    requires h.policy.enter(c) && |b1.open| < h.cap && CanPay(h, c, b1.cash)
    ensures PicksOpened(h, day, b, cands + [c], at + [|cands|], b2)
  {
    OfferOne(h, day, b1, c);
    var news, r := b1.recs[|b.recs|..], b2.recs[|b1.recs|];
    assert b2.recs[|b.recs|..] == news + [r];
    CashAfterOne(h, b.cash, news, r);
    assert b2.recs[..|b.recs|] == b1.recs[..|b.recs|];
  }

  lemma PickKeepsRight(h: Harness, b: Book, cands: seq<Candidate>, at: seq<nat>, news: seq<Rec>, c: Candidate, r: Rec)
    requires Enterable(h) && |news| == |at| && PicksRight(h, b, cands, at, news)
    requires forall i :: 0 <= i < |at| ==> at[i] < |cands|
    requires h.policy.enter(c) && |b.open| + |at| < h.cap && CanPay(h, c, CashLeft(h, b.cash, news, |at|))
    ensures PicksRight(h, b, cands + [c], at + [|cands|], news + [r])
  {
    var at', cands' := at + [|cands|], cands + [c];
    CashAfterOne(h, b.cash, news, r);
    forall k: nat, j: nat | k < |cands'| && Turn(at', k, j)
      ensures j < |at'| && at'[j] == k <==>
              h.policy.enter(cands'[k]) && |b.open| + j < h.cap
              && CanPay(h, cands'[k], CashLeft(h, b.cash, news + [r], j))
    {
      assert j <= |at|;
      if k < |cands| {
        assert Turn(at, k, j);
      }
    }
  }

  lemma SkipKeepsRight(h: Harness, b: Book, cands: seq<Candidate>, at: seq<nat>, news: seq<Rec>, c: Candidate)
    requires Enterable(h) && |news| == |at| && PicksRight(h, b, cands, at, news)
    requires forall i :: 0 <= i < |at| ==> at[i] < |cands|
    requires !(h.policy.enter(c) && |b.open| + |at| < h.cap && CanPay(h, c, CashLeft(h, b.cash, news, |at|)))
    ensures PicksRight(h, b, cands + [c], at, news)
  {
    var cands' := cands + [c];
    forall k: nat, j: nat | k < |cands'| && Turn(at, k, j)
      ensures j < |at| && at[j] == k <==>
              h.policy.enter(cands'[k]) && |b.open| + j < h.cap && CanPay(h, cands'[k], CashLeft(h, b.cash, news, j))
    {
      if k == |cands| {
        TurnOfLast(at, k, j);
      }
    }
  }

  // MAIN RESULT. The entry scan takes exactly the candidates the policy enters for which there is room and cash
  // when their turn comes, in order, each at the middle of its quote and sized on the cash left.
  lemma {:induction false} ScanTakesExactly(h: Harness, day: int, b: Book, cands: seq<Candidate>)
    returns (at: seq<nat>)
    requires Enterable(h)
    ensures Scanned(h, day, b, cands, at, EnterPass(h, day, b, cands))
    decreases |cands|
  {
    if cands == [] {
      at := [];
      assert b.recs[|b.recs|..] == [];
    } else {
      var front, c := cands[..|cands| - 1], cands[|cands| - 1];
      assert front + [c] == cands;
      at := ScanTakesExactly(h, day, b, front);
      OneMoreCandidate(h, day, b, front, c);
      var b1, b2 := EnterPass(h, day, b, front), EnterPass(h, day, b, cands);
      var news := b1.recs[|b.recs|..];
      OfferOne(h, day, b1, c);
      if h.policy.enter(c) && |b1.open| < h.cap && CanPay(h, c, b1.cash) {
        PickKeepsOpened(h, day, b, front, at, b1, c, b2);
        PickKeepsRight(h, b, front, at, news, c, b2.recs[|b1.recs|]);
        assert b2.recs[|b.recs|..] == news + [b2.recs[|b1.recs|]];
        at := at + [|front|];
      } else {
        SkipKeepsRight(h, b, front, at, news, c);
      }
    }
  }

  // How many candidates the policy would enter.
  function Wanted(h: Harness, cands: seq<Candidate>): nat {
    if cands == [] then 0
    else Wanted(h, cands[..|cands| - 1]) + if h.policy.enter(cands[|cands| - 1]) then 1 else 0
  }

  // Without simulated cash the scan opens as many as the policy enters and the cap has room for.
  lemma {:induction false} OpensAllThatFit(h: Harness, day: int, b: Book, cands: seq<Candidate>)
    requires Enterable(h) && h.capital.None?
    ensures var added := |EnterPass(h, day, b, cands).recs| - |b.recs|;
            && added == MinInt(MaxInt(h.cap - |b.open|, 0), Wanted(h, cands))
            && |EnterPass(h, day, b, cands).open| == |b.open| + added
    decreases |cands|
  {
    if cands != [] {
      var front, c := cands[..|cands| - 1], cands[|cands| - 1];
      OpensAllThatFit(h, day, b, front);
      assert front + [c] == cands;
      OneMoreCandidate(h, day, b, front, c);
      OfferOne(h, day, EnterPass(h, day, b, front), c);
    }
  }

  // ----- exits -----

  // The highest of a peak and a quote.
  function Higher(peak: Option<real>, quote: Option<real>): Option<real> {
    if quote.None? || (peak.Some? && peak.value >= quote.value) then peak else quote
  }

  lemma ExitProceeds(entry: real, current: real, pnl: real, contracts: nat)
    requires pnl * entry == current - entry
    ensures DollarPnl(pnl, CostOf(entry, contracts)) == (current - entry) * (contracts * 100) as real
  {
    ProceedsSplit(entry, current, pnl, contracts);
    var n := (contracts * 100) as real;
    assert (current - entry) * n == current * n - entry * n;
  }

  // A day asks the policy about the position with its peak brought up to date, and either changes nothing else or
  // closes the record with the difference of exit and entry premium, times a hundred times the contracts.
  lemma ExitBooksDifference(h: Harness, r: Rec, day: int)
    requires Honest(h) && r.pos.entry > 0.0
    ensures var p, r' := r.pos.(peak := Higher(r.pos.peak, h.policy.premium(r.pos.contract, day))), ExitRec(h, r, day);
            match h.policy.exit(p, day)
            case None => r' == r.(pos := p) && Proceeds(h, r, day) == 0.0
            case Some(s) =>
              && r'.pnlDollars.Some?
              && r'.pnlDollars.value == (s.currentPremium - r.pos.entry) * (r.pos.contracts * 100) as real
              && Proceeds(h, r, day) ==
                 (if h.capital.Some? then s.currentPremium * (r.pos.contracts * 100) as real else 0.0)
              && r' == r.(pos := p, exitDate := Some(day), exit := Some(s), pnlPct := Some(s.pnl),
                          pnlDollars := r'.pnlDollars, status := Closed)
  {
    var p := Peaked(r.pos, h.policy.premium(r.pos.contract, day));
    assert p == r.pos.(peak := Higher(r.pos.peak, h.policy.premium(r.pos.contract, day)));
    if h.policy.exit(p, day).Some? {
      var s := h.policy.exit(p, day).value;
      assert s.pnl * p.entry == s.currentPremium - p.entry;
      ExitProceeds(p.entry, s.currentPremium, s.pnl, p.contracts);
      assert ExitRec(h, r, day).pnlDollars == Some(DollarPnl(s.pnl, CostOf(p.entry, p.contracts)));
    }
  }

  // ----- a day -----

  // MAIN RESULT. A day first asks about every open position, in order, and then scans the candidates over the room
  // and the cash the exits left.
  lemma DayExitsThenScans(h: Harness, st: St, day: int) returns (b: Book, at: seq<nat>)
    requires Ready(h, st)
    ensures forall i: nat :: i < |st.recs| ==>
              (i in b.open <==> st.recs[i].status.Open? && Exits(h, st.recs[i], day).None?)
    ensures Ascending(b.open) && InRange(b.open, st.recs) && |b.recs| == |st.recs|
    ensures forall i: nat :: i < |st.recs| ==>
              b.recs[i] == if st.recs[i].status.Open? then ExitRec(h, st.recs[i], day) else st.recs[i]
    ensures var st' := StepDay(h, st, day);
            Scanned(h, day, b, h.policy.candidates(day), at, Book(st'.open, st'.recs, st'.cash))
  {
    b := ExitPass(h, day, st.open, st.recs, st.cash);
    ExitPassSteps(h, day, st.open, st.recs, st.cash);
    at := ScanTakesExactly(h, day, b, h.policy.candidates(day));
    DayKeepsExact(h, st, day);
  }
}
