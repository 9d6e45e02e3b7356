/** Startup reconciliation: positions the broker already holds go back into the store
    (src/trader/live/reconciler.py). */
module Reconcilers {
  import opened Common
  import opened Schemas
  import opened PositionStores

  // One held option as the broker lists it, with what the instrument lookup added; the price is per contract.
  datatype Holding = Holding(
    instrument: Option<nat>,
    ticker: string,
    expiry: Option<int>,
    strike: real,
    kind: Option<OptionKind>,
    quantity: int,
    averagePrice: real,
    openedAt: Option<int>)

  predicate Usable(h: Holding) {
    h.ticker != "" && h.expiry.Some? && h.strike != 0.0 && h.kind.Some? && h.quantity > 0 && h.averagePrice > 0.0
  }

  function KeyOf(h: Holding): PositionId
    requires Usable(h)
  {
    match h.instrument
    case Some(i) => InstrumentKey(i)
    case None => ContractKey(h.ticker, h.expiry.value, h.strike, h.kind.value)
  }

  // Without a target the profit gate is off; everything else still protects it.
  function ToPosition(h: Holding, now: int): Position
    requires Usable(h)
  {
    Position(
      KeyOf(h), Contract(h.ticker, h.expiry.value, h.strike, h.kind.value, 0.0, 0.0), h.averagePrice / 100.0, None,
      match h.openedAt case Some(t) => t case None => now, h.quantity, h.instrument, None, None)
  }

  function Reconciled(store: map<PositionId, Position>, hs: seq<Holding>, now: int): map<PositionId, Position> {
    if hs == [] then store
    else
      var n := |hs| - 1;
      var rest := Reconciled(store, hs[..n], now);
      if Usable(hs[n]) then rest[KeyOf(hs[n]) := ToPosition(hs[n], now)] else rest
  }

  function UsableCount(hs: seq<Holding>): nat {
    if hs == [] then 0 else UsableCount(hs[..|hs| - 1]) + if Usable(hs[|hs| - 1]) then 1 else 0
  }

  // The listing that counts: a second one is asked for when the first is empty; None is a query that raised.
  function Answer(first: Option<seq<Holding>>, second: Option<seq<Holding>>): seq<Holding> {
    match first
    case None => []
    case Some(hs) => if hs != [] then hs else match second case None => [] case Some(more) => more
  }

  // What a recovered position says: the average price is per contract of a hundred shares, and nothing is known of
  // a target, a peak or the setup at entry.
  lemma RecoveredAtAveragePrice(h: Holding, now: int)
    requires Usable(h)
    ensures var p := ToPosition(h, now);
            && p.entry * 100.0 == h.averagePrice && p.quantity == h.quantity && p.instrument == h.instrument
            && p.contract.ticker == h.ticker && h.expiry == Some(p.contract.expiry) && p.contract.strike == h.strike
            && h.kind == Some(p.contract.kind)
            && p.openedAt == (if h.openedAt.Some? then h.openedAt.value else now)
            && p.target.None? && p.peak.None? && p.entrySetup.None?
            && p.id == if h.instrument.Some? then InstrumentKey(h.instrument.value)
                       else ContractKey(h.ticker, h.expiry.value, h.strike, h.kind.value)
  {
  }

  // Nothing needed is missing or zero.
  predicate Complete(h: Holding) {
    && |h.ticker| > 0 && h.expiry.Some? && h.kind.Some? && (h.strike < 0.0 || h.strike > 0.0)
    && h.quantity >= 1 && h.averagePrice > 0.0
  }

  ghost predicate NoneComplete(hs: seq<Holding>, k: PositionId) {
    forall i :: 0 <= i < |hs| && Complete(hs[i]) ==> KeyOf(hs[i]) != k
  }

  // Number i is complete and has this key, and none after it does.
  ghost predicate LastComplete(hs: seq<Holding>, k: PositionId, i: nat) {
    i < |hs| && Complete(hs[i]) && KeyOf(hs[i]) == k && NoneComplete(hs[i + 1..], k)
  }

  // The last complete holding of a key is what the store has there; a key without one keeps what it had.
  lemma {:induction false} ReconciledFromLast(
    before: map<PositionId, Position>, hs: seq<Holding>, now: int, k: PositionId) returns (i: nat)
    ensures var after := Reconciled(before, hs, now);
            if NoneComplete(hs, k) then (k in after <==> k in before) && (k in before ==> after[k] == before[k])
            else LastComplete(hs, k, i) && k in after && after[k] == ToPosition(hs[i], now)
  {
    i := 0;
    if hs != [] {
      var n := |hs| - 1;
      var rest := hs[..n];
      i := ReconciledFromLast(before, rest, now, k);
      OneMoreHolding(rest, hs[n], k);
      assert rest + [hs[n]] == hs;
      if Complete(hs[n]) && KeyOf(hs[n]) == k {
        i := n;
      }
    }
  }

  lemma OneMoreHolding(rest: seq<Holding>, h: Holding, k: PositionId)
    ensures var here := Complete(h) && KeyOf(h) == k;
            && (NoneComplete(rest + [h], k) <==> NoneComplete(rest, k) && !here)
            && (here ==> LastComplete(rest + [h], k, |rest|))
            && (!here ==> forall i: nat :: LastComplete(rest, k, i) ==> LastComplete(rest + [h], k, i))
  {
    var hs := rest + [h];
    assert forall i :: 0 <= i < |rest| ==> hs[i] == rest[i];
    assert hs[|rest|] == h && hs[|rest| + 1..] == [];
    if NoneComplete(hs, k) {
      forall i | 0 <= i < |rest| && Complete(rest[i])
        ensures KeyOf(rest[i]) != k
      {
        assert Complete(hs[i]);
      }
    }
    forall i: nat | LastComplete(rest, k, i) && !(Complete(h) && KeyOf(h) == k)
      ensures LastComplete(hs, k, i)
    {
      var tail := rest[i + 1..];
      assert hs[i + 1..] == tail + [h];
      assert forall j :: 0 <= j < |tail| ==> (tail + [h])[j] == tail[j];
    }
  }

  // The listing that comes back, the second one after an empty first; nothing when one of them raised.
  lemma AnswerIs(first: Option<seq<Holding>>, second: Option<seq<Holding>>)
    ensures first.None? ==> Answer(first, second) == []
    ensures first.Some? && |first.value| > 0 ==> Answer(first, second) == first.value
    ensures first.Some? && |first.value| == 0 ==> Answer(first, second) == if second.Some? then second.value else []
  {
  }

  lemma {:induction false} CountsComplete(hs: seq<Holding>)
    ensures UsableCount(hs) == |set i: nat | i < |hs| && Complete(hs[i])|
  {
    if hs != [] {
      var n := |hs| - 1;
      CountsComplete(hs[..n]);
      var before, all := set i: nat | i < n && Complete(hs[..n][i]), set i: nat | i < |hs| && Complete(hs[i]);
      assert all == before + if Complete(hs[n]) then {n} else {};
    }
  }

  method ReconcilePositions(
    store: PositionStore, first: Option<seq<Holding>>, second: Option<seq<Holding>>, now: int)
    returns (recovered: nat)
    modifies store
    ensures store.positions == Reconciled(old(store.positions), Answer(first, second), now)
    ensures recovered == UsableCount(Answer(first, second))
  {
    recovered := 0;
    if first.None? {
      return;
    }
    var items := first.value;
    if items == [] {
      if second.None? {
        return;
      }
      items := second.value;
    }
    for k := 0 to |items|
      invariant store.positions == Reconciled(old(store.positions), items[..k], now)
      invariant recovered == UsableCount(items[..k])
    {
      assert items[..k + 1][..k] == items[..k];
      var h := items[k];
      if Usable(h) {
        var since := now;
        if h.openedAt.Some? {
          since := h.openedAt.value;
        }
        var contract := Contract(h.ticker, h.expiry.value, h.strike, h.kind.value, 0.0, 0.0);
        var entry := h.averagePrice / 100.0;
        store.Add(Position(KeyOf(h), contract, entry, None, since, h.quantity, h.instrument, None, None));
        recovered := recovered + 1;
      }
    }
    assert items[..|items|] == items;
  }
}
