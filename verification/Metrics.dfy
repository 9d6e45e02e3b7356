/** Trade metrics by group and portfolio metrics from the equity curve (src/trader/backtest/metrics.py). */
module Metrics {
  import opened Common
  import opened Schemas
  import opened Replay

  // ----- one slice of trades -----

  datatype TradeMetrics = TradeMetrics(
    trades: nat, closed: nat, wins: nat, winRate: real, avgPnl: real, worst: real, totalPnl: real)

  // P&L percentages of the closed trades, in order.
  function ClosedPnls(recs: seq<Rec>): seq<real> {
    if recs == [] then []
    else
      var n := |recs| - 1;
      var r := recs[n];
      ClosedPnls(recs[..n]) + if r.status.Closed? && r.pnlPct.Some? then [r.pnlPct.value] else []
  }

  function Wins(pnls: seq<real>): nat {
    if pnls == [] then 0 else Wins(pnls[..|pnls| - 1]) + if pnls[|pnls| - 1] > 0.0 then 1 else 0
  }

  function Total(pnls: seq<real>): real {
    if pnls == [] then 0.0 else Total(pnls[..|pnls| - 1]) + pnls[|pnls| - 1]
  }

  function Least(pnls: seq<real>): (low: real)
    requires pnls != []
    ensures low in pnls && forall k :: 0 <= k < |pnls| ==> low <= pnls[k]
  {
    if |pnls| == 1 then pnls[0]
    else
      var n := |pnls| - 1;
      assert forall k :: 0 <= k < n ==> pnls[..n][k] == pnls[k];
      Min(Least(pnls[..n]), pnls[n])
  }

  function ComputeMetrics(recs: seq<Rec>): TradeMetrics {
    var pnls := ClosedPnls(recs);
    if recs == [] then TradeMetrics(0, 0, 0, 0.0, 0.0, 0.0, 0.0)
    else if pnls == [] then TradeMetrics(|recs|, 0, 0, 0.0, 0.0, 0.0, 0.0)
    else
      var n := |pnls| as real;
      TradeMetrics(|recs|, |pnls|, Wins(pnls), Wins(pnls) as real / n, Total(pnls) / n, Least(pnls), Total(pnls))
  }

  // ----- groups -----

  // Records by key, each group in record order.
  function GroupBy<K(==)>(recs: seq<Rec>, key: Rec -> K): map<K, seq<Rec>> {
    if recs == [] then map[]
    else
      var n := |recs| - 1;
      Filed(GroupBy(recs[..n], key), key(recs[n]), recs[n])
  }

  function Filed<K(==)>(m: map<K, seq<Rec>>, k: K, r: Rec): map<K, seq<Rec>> {
    m[k := (if k in m then m[k] else []) + [r]]
  }

  function RegimeOf(r: Rec): Regime { r.candidate.setup.regime }

  function SetupOf(r: Rec): SetupType { r.candidate.setup.setupType }

  function ComboOf(r: Rec): (Regime, SetupType) { (RegimeOf(r), SetupOf(r)) }

  datatype BacktestResult = BacktestResult(
    overall: TradeMetrics,
    byRegime: map<Regime, TradeMetrics>,
    bySetup: map<SetupType, TradeMetrics>,
    byCombo: map<(Regime, SetupType), TradeMetrics>,
    portfolio: Option<PortfolioMetrics>)

  function Measured<K(==)>(m: map<K, seq<Rec>>): map<K, TradeMetrics> {
    map k | k in m :: ComputeMetrics(m[k])
  }

  method ComputeBacktestResult(recs: seq<Rec>, curve: Option<seq<(int, real)>>, initial: Option<real>)
    returns (result: BacktestResult)
    ensures result.overall == ComputeMetrics(recs)
    ensures result.byRegime == Measured(GroupBy(recs, RegimeOf))
    ensures result.bySetup == Measured(GroupBy(recs, SetupOf))
    ensures result.byCombo == Measured(GroupBy(recs, ComboOf))
    ensures result.portfolio.Some? <==> curve.Some? && initial.Some?
    ensures result.portfolio.Some? ==> IsPortfolio(result.portfolio.value, curve.value, initial.value)
  {
    var byRegime: map<Regime, seq<Rec>> := map[];
    var bySetup: map<SetupType, seq<Rec>> := map[];
    var byCombo: map<(Regime, SetupType), seq<Rec>> := map[];
    for i := 0 to |recs|
      invariant byRegime == GroupBy(recs[..i], RegimeOf)
      invariant bySetup == GroupBy(recs[..i], SetupOf)
      invariant byCombo == GroupBy(recs[..i], ComboOf)
    {
      assert recs[..i + 1][..i] == recs[..i];
      var r := recs[i];
      byRegime := Filed(byRegime, RegimeOf(r), r);
      bySetup := Filed(bySetup, SetupOf(r), r);
      byCombo := Filed(byCombo, ComboOf(r), r);
    }
    assert recs[..|recs|] == recs;
    var portfolio := None;
    if curve.Some? && initial.Some? {
      var p := ComputePortfolio(curve.value, initial.value);
      portfolio := Some(p);
    }
    result := BacktestResult(ComputeMetrics(recs), Measured(byRegime), Measured(bySetup), Measured(byCombo), portfolio);
  }

  // ----- groups add up -----

  ghost function SumGroups<K(!new)>(m: map<K, seq<Rec>>, f: seq<Rec> -> real): real
    decreases |m|
  {
    if m == map[] then 0.0
    else
      var k :| k in m;
      f(m[k]) + SumGroups(m - {k}, f)
  }

  lemma {:induction false} SumGroupsPick<K(!new)>(m: map<K, seq<Rec>>, f: seq<Rec> -> real, k: K)
    requires k in m
    ensures SumGroups(m, f) == f(m[k]) + SumGroups(m - {k}, f)
    decreases |m|
  {
    var j :| j in m && SumGroups(m, f) == f(m[j]) + SumGroups(m - {j}, f);
    if j != k {
      SumGroupsPick(m - {j}, f, k);
      SumGroupsPick(m - {k}, f, j);
      assert m - {j} - {k} == m - {k} - {j};
    }
  }

  ghost predicate Additive(f: seq<Rec> -> real) {
    f([]) == 0.0 && forall xs: seq<Rec>, x: Rec {:trigger f(xs + [x])} :: f(xs + [x]) == f(xs) + f([x])
  }

  lemma FiledAdds<K(!new)>(m: map<K, seq<Rec>>, k: K, r: Rec, f: seq<Rec> -> real)
    requires Additive(f)
    ensures SumGroups(Filed(m, k, r), f) == SumGroups(m, f) + f([r])
  {
    var m' := Filed(m, k, r);
    SumGroupsPick(m', f, k);
    if k in m {
      SumGroupsPick(m, f, k);
      assert m' - {k} == m - {k};
      assert f(m[k] + [r]) == f(m[k]) + f([r]);
    } else {
      assert m' - {k} == m;
      assert [] + [r] == [r];
    }
  }

  lemma {:induction false} GroupsAddUp<K(!new)>(recs: seq<Rec>, key: Rec -> K, f: seq<Rec> -> real)
    requires Additive(f)
    ensures SumGroups(GroupBy(recs, key), f) == f(recs)
  {
    if recs != [] {
      var n := |recs| - 1;
      GroupsAddUp(recs[..n], key, f);
      FiledAdds(GroupBy(recs[..n], key), key(recs[n]), recs[n], f);
      assert recs[..n] + [recs[n]] == recs;
    }
  }

  function TradesOf(recs: seq<Rec>): real { ComputeMetrics(recs).trades as real }

  function ClosedOf(recs: seq<Rec>): real { ComputeMetrics(recs).closed as real }

  function WinsOf(recs: seq<Rec>): real { ComputeMetrics(recs).wins as real }

  function PnlOf(recs: seq<Rec>): real { ComputeMetrics(recs).totalPnl }

  lemma PnlsOfAppend(xs: seq<Rec>, x: Rec)
    ensures ClosedPnls(xs + [x]) == ClosedPnls(xs) + ClosedPnls([x])
    ensures |ClosedPnls([x])| <= 1
    ensures Total(ClosedPnls(xs + [x])) == Total(ClosedPnls(xs)) + Total(ClosedPnls([x]))
    ensures Wins(ClosedPnls(xs + [x])) == Wins(ClosedPnls(xs)) + Wins(ClosedPnls([x]))
  {
    assert (xs + [x])[..|xs|] == xs && [x][..0] == [];
    var a, b := ClosedPnls(xs), ClosedPnls([x]);
    if b == [] {
      assert a + b == a;
    } else {
      assert (a + b)[..|a|] == a && b[..0] == [];
    }
  }

  lemma MetricsAreAdditive()
    ensures Additive(TradesOf) && Additive(ClosedOf) && Additive(WinsOf) && Additive(PnlOf)
  {
    forall xs: seq<Rec>, x: Rec
      ensures TradesOf(xs + [x]) == TradesOf(xs) + TradesOf([x])
      ensures ClosedOf(xs + [x]) == ClosedOf(xs) + ClosedOf([x])
      ensures WinsOf(xs + [x]) == WinsOf(xs) + WinsOf([x])
      ensures PnlOf(xs + [x]) == PnlOf(xs) + PnlOf([x])
    {
      FiguresOfAppend(xs, x);
    }
  }

  lemma FiguresAre(xs: seq<Rec>)
    ensures TradesOf(xs) == |xs| as real && ClosedOf(xs) == |ClosedPnls(xs)| as real
    ensures WinsOf(xs) == Wins(ClosedPnls(xs)) as real && PnlOf(xs) == Total(ClosedPnls(xs))
  {
  }

  lemma FiguresOfAppend(xs: seq<Rec>, x: Rec)
    ensures TradesOf(xs + [x]) == TradesOf(xs) + TradesOf([x]) && ClosedOf(xs + [x]) == ClosedOf(xs) + ClosedOf([x])
    ensures WinsOf(xs + [x]) == WinsOf(xs) + WinsOf([x]) && PnlOf(xs + [x]) == PnlOf(xs) + PnlOf([x])
  {
    FiguresAre(xs);
    FiguresAre([x]);
    FiguresAre(xs + [x]);
    PnlsOfAppend(xs, x);
  }

  // MAIN RESULT. Trade, closed and win counts and total P&L, summed over the groups of any key, equal
  // the overall figures.
  lemma SlicesSumToOverall<K(!new)>(recs: seq<Rec>, key: Rec -> K)
    ensures var m, all := GroupBy(recs, key), ComputeMetrics(recs);
            && SumGroups(m, TradesOf) == all.trades as real
            && SumGroups(m, ClosedOf) == all.closed as real
            && SumGroups(m, WinsOf) == all.wins as real
            && SumGroups(m, PnlOf) == all.totalPnl
  {
    MetricsAreAdditive();
    GroupsAddUp(recs, key, TradesOf);
    GroupsAddUp(recs, key, ClosedOf);
    GroupsAddUp(recs, key, WinsOf);
    GroupsAddUp(recs, key, PnlOf);
  }

  // ----- what the figures mean -----

  // A trade that was closed, with its ratio of P&L.
  predicate Counts(r: Rec) {
    r.status == Closed && r.pnlPct.Some?
  }

  function ClosedAt(recs: seq<Rec>): set<nat> {
    set i: nat | i < |recs| && Counts(recs[i])
  }

  function WonAt(recs: seq<Rec>): set<nat> {
    set i: nat | i < |recs| && Counts(recs[i]) && recs[i].pnlPct.value > 0.0
  }

  function PnlOrNothing(r: Rec): real {
    if Counts(r) then r.pnlPct.value else 0.0
  }

  lemma ClosedOne(rest: seq<Rec>, r: Rec)
    ensures ClosedPnls(rest + [r]) == if Counts(r) then ClosedPnls(rest) + [r.pnlPct.value] else ClosedPnls(rest)
  {
    assert (rest + [r])[..|rest|] == rest && ClosedPnls(rest) + [] == ClosedPnls(rest);
  }

  lemma {:induction false} ClosedCount(recs: seq<Rec>)
    ensures |ClosedPnls(recs)| == |ClosedAt(recs)|
  {
    if recs != [] {
      var n := |recs| - 1;
      ClosedCount(recs[..n]);
      ClosedOne(recs[..n], recs[n]);
      assert recs[..n] + [recs[n]] == recs;
      assert ClosedAt(recs) == ClosedAt(recs[..n]) + if Counts(recs[n]) then {n} else {};
    }
  }

  lemma OneMorePnl(pnls: seq<real>, x: real)
    ensures Wins(pnls + [x]) == Wins(pnls) + if x > 0.0 then 1 else 0
    ensures Total(pnls + [x]) == Total(pnls) + x
  {
    assert (pnls + [x])[..|pnls|] == pnls;
  }

  lemma {:induction false} WonCount(recs: seq<Rec>)
    ensures Wins(ClosedPnls(recs)) == |WonAt(recs)|
  {
    if recs != [] {
      var n := |recs| - 1;
      var rest, r := recs[..n], recs[n];
      WonCount(rest);
      assert rest + [r] == recs;
      ClosedOne(rest, r);
      WonOne(rest, r);
      if Counts(r) {
        OneMorePnl(ClosedPnls(rest), r.pnlPct.value);
      }
    }
  }

  lemma WonOne(rest: seq<Rec>, r: Rec)
    ensures |WonAt(rest + [r])| == |WonAt(rest)| + if Counts(r) && r.pnlPct.value > 0.0 then 1 else 0
  {
    if Counts(r) && r.pnlPct.value > 0.0 {
      assert WonAt(rest + [r]) == WonAt(rest) + {|rest|};
    } else {
      assert WonAt(rest + [r]) == WonAt(rest);
    }
  }

  lemma {:induction false} ClosedSum(recs: seq<Rec>)
    ensures Total(ClosedPnls(recs)) == SumBy(recs, PnlOrNothing)
  {
    if recs != [] {
      var n := |recs| - 1;
      var rest, r := recs[..n], recs[n];
      ClosedSum(rest);
      assert rest + [r] == recs;
      ClosedOne(rest, r);
      if Counts(r) {
        OneMorePnl(ClosedPnls(rest), r.pnlPct.value);
      }
      SumByAppend(rest, [r], PnlOrNothing);
      assert SumBy([r], PnlOrNothing) == PnlOrNothing(r);
    }
  }

  ghost predicate SomeClosedAt(recs: seq<Rec>, x: real) {
    exists i :: 0 <= i < |recs| && Counts(recs[i]) && recs[i].pnlPct.value == x
  }

  lemma {:induction false} ClosedMembers(recs: seq<Rec>, x: real)
    ensures x in ClosedPnls(recs) <==> SomeClosedAt(recs, x)
  {
    if recs != [] {
      var n := |recs| - 1;
      ClosedMembers(recs[..n], x);
      assert forall i :: 0 <= i < n ==> recs[..n][i] == recs[i];
      if SomeClosedAt(recs[..n], x) {
        var i :| 0 <= i < n && Counts(recs[..n][i]) && recs[..n][i].pnlPct.value == x;
        assert Counts(recs[i]);
      }
    }
  }

  // A mean over n trades, for all of them.
  function OverAll(mean: real, n: nat): real {
    mean * n as real
  }

  lemma MeanOverAll(sum: real, n: nat)
    requires n > 0
    ensures OverAll(sum / n as real, n) == sum
  {
  }

  // The worst is one of the ratios of the trades closed and above none.
  ghost predicate IsWorst(recs: seq<Rec>, x: real) {
    SomeClosedAt(recs, x) && forall i :: 0 <= i < |recs| && Counts(recs[i]) ==> x <= recs[i].pnlPct.value
  }

  lemma WorstIsLeast(recs: seq<Rec>)
    requires ClosedPnls(recs) != []
    ensures IsWorst(recs, Least(ClosedPnls(recs)))
  {
    var pnls := ClosedPnls(recs);
    ClosedMembers(recs, Least(pnls));
    forall i | 0 <= i < |recs| && Counts(recs[i])
      ensures Least(pnls) <= recs[i].pnlPct.value
    {
      ClosedMembers(recs, recs[i].pnlPct.value);
      assert SomeClosedAt(recs, recs[i].pnlPct.value);
    }
  }

  // Counts are of the trades closed and won, and rate and average are what they give when shared out.
  lemma MetricsMean(recs: seq<Rec>)
    ensures var m := ComputeMetrics(recs);
            && m.trades == |recs| && m.closed == |ClosedAt(recs)| && m.wins == |WonAt(recs)|
            && m.totalPnl == SumBy(recs, PnlOrNothing)
            && OverAll(m.winRate, m.closed) == m.wins as real && OverAll(m.avgPnl, m.closed) == m.totalPnl
            && (m.closed == 0 ==> m.winRate == m.avgPnl == m.worst == 0.0)
            && (m.closed > 0 ==> IsWorst(recs, m.worst))
  {
    ClosedCount(recs);
    WonCount(recs);
    ClosedSum(recs);
    var pnls := ClosedPnls(recs);
    if pnls != [] {
      MeanOverAll(Wins(pnls) as real, |pnls|);
      MeanOverAll(Total(pnls), |pnls|);
      WorstIsLeast(recs);
    }
  }

  function Those<K(==)>(recs: seq<Rec>, key: Rec -> K, k: K): seq<Rec> {
    if recs == [] then []
    else Those(recs[..|recs| - 1], key, k) + if key(recs[|recs| - 1]) == k then [recs[|recs| - 1]] else []
  }

  ghost predicate Occurs<K>(recs: seq<Rec>, key: Rec -> K, k: K) {
    exists i :: 0 <= i < |recs| && key(recs[i]) == k
  }

  // There is a group for each key that occurs, and it holds the trades with that key, in order.
  lemma {:induction false} GroupsAreThose<K>(recs: seq<Rec>, key: Rec -> K, k: K)
    ensures k in GroupBy(recs, key) <==> Occurs(recs, key, k)
    ensures Those(recs, key, k) == if k in GroupBy(recs, key) then GroupBy(recs, key)[k] else []
  {
    if recs != [] {
      var n := |recs| - 1;
      GroupsAreThose(recs[..n], key, k);
      assert forall i :: 0 <= i < n ==> recs[..n][i] == recs[i];
      if Occurs(recs[..n], key, k) {
        var i :| 0 <= i < n && key(recs[..n][i]) == k;
        assert key(recs[i]) == k;
      }
    }
  }

  // ----- the equity curve -----

  datatype PortfolioMetrics = PortfolioMetrics(
    initial: real, final: real, pnl: real, returnPct: real, peak: real, drawdown: real, drawdownPct: real)

  // Initial capital, then the daily values.
  function Values(curve: seq<(int, real)>, initial: real): seq<real> {
    [initial] + seq(|curve|, i requires 0 <= i < |curve| => curve[i].1)
  }

  // The drawdown is the least difference between a value and an earlier (or the same) one.
  ghost predicate IsDrawdown(vs: seq<real>, dd: real) {
    && (forall i, j :: 0 <= i <= j < |vs| ==> dd <= vs[j] - vs[i])
    && (exists i, j :: 0 <= i <= j < |vs| && dd == vs[j] - vs[i])
  }

  ghost predicate IsMaximum(vs: seq<real>, top: real) {
    top in vs && forall i :: 0 <= i < |vs| ==> vs[i] <= top
  }

  ghost predicate IsPortfolio(p: PortfolioMetrics, curve: seq<(int, real)>, initial: real) {
    var vs := Values(curve, initial);
    && p.initial == initial && p.final == vs[|vs| - 1] && p.pnl == p.final - initial
    && p.returnPct == (if initial != 0.0 then (p.final - initial) / initial else 0.0)
    && IsMaximum(vs, p.peak) && IsDrawdown(vs, p.drawdown)
    && p.drawdownPct == (if p.peak != 0.0 then p.drawdown / p.peak else 0.0)
  }

  // One pass over the curve: the running peak and the deepest fall below it.
  method ScanCurve(curve: seq<(int, real)>, initial: real) returns (peak: real, dd: real)
    ensures IsMaximum(Values(curve, initial), peak) && IsDrawdown(Values(curve, initial), dd)
  {
    ghost var vs := Values(curve, initial);
    peak, dd := initial, 0.0;
    ghost var top, from, to := 0, 0, 0;
    for k := 0 to |curve|
      invariant 0 <= top <= k && vs[top] == peak && forall i :: 0 <= i <= k ==> vs[i] <= peak
      invariant 0 <= from <= to <= k && dd == vs[to] - vs[from]
      invariant forall i, j :: 0 <= i <= j <= k ==> dd <= vs[j] - vs[i]
    {
      var value := curve[k].1;
      assert vs[k + 1] == value;
      if value > peak {
        peak := value;
        top := k + 1;
      }
      if value - peak < dd {
        dd := value - peak;
        from, to := top, k + 1;
      }
    }
  }

  method ComputePortfolio(curve: seq<(int, real)>, initial: real) returns (p: PortfolioMetrics)
    ensures IsPortfolio(p, curve, initial)
  {
    ghost var vs := Values(curve, initial);
    if |curve| == 0 {
      assert vs[0] - vs[0] == 0.0;
      return PortfolioMetrics(initial, initial, 0.0, 0.0, initial, 0.0, 0.0);
    }
    var final := curve[|curve| - 1].1;
    var peak, dd := ScanCurve(curve, initial);
    p := PortfolioMetrics(
      initial, final, final - initial, if initial != 0.0 then (final - initial) / initial else 0.0,
      peak, dd, if peak != 0.0 then dd / peak else 0.0);
  }
}
