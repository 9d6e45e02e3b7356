/** The live exit loop: evaluate a position, remember its peak, sell, book the result
    (src/trader/live/exit_loop.py). One evaluation is atomic. */
module ExitLoops {
  import opened Common
  import opened Schemas
  import opened Ticks
  import opened ExitMonitors
  import opened ExitTheorems
  import opened PositionStores
  import opened RiskEngines

  // What came of the sell call, if one was made: it returned; it raised although the order went through; it
  // raised and nothing was placed.
  datatype SellReply = Returned | Lost | Refused

  // What one tick fetched, what came of a sell call, and the day.
  datatype Fetch = Fetch(
    spot: Option<real>,
    premium: Option<real>,
    dte: int,
    setup: Option<Setup>,
    context: Option<Context>,
    daysToEarnings: Option<int>,
    spread: Option<real>,
    reply: SellReply,
    today: int)
  {
    predicate Sold() {
      reply.Returned?
    }

    predicate HasData() {
      spot.Some? && premium.Some?
    }

    function View(): Tick
      requires HasData()
    {
      Tick(spot.value, premium.value, dte, setup, context, daysToEarnings, spread)
    }
  }

  datatype Desk = Desk(store: map<PositionId, Position>, risk: Books)

  function Gain(entry: real, premium: real, quantity: int): real {
    (premium - entry) * 100.0 * quantity as real
  }

  function Realized(pos: Position, premium: real): real {
    Gain(pos.entry, premium, pos.quantity)
  }

  // Below mid when getting out matters more than the price, toward the bid when the market is wide.
  function ExitLimit(mon: Monitor, signal: Signal, spread: Option<real>): real {
    if signal.reason.StopLoss? || signal.reason.TrailingStop? then Max(signal.currentPremium * 0.95, PENNY)
    else if spread.Some? && spread.value > mon.spreadThreshold then Max(signal.currentPremium * 0.97, PENNY)
    else signal.currentPremium
  }

  // The position leaves when a signal fired and its sell did not raise (a dry run sells nothing).
  predicate Leaves(mon: Monitor, dry: bool, pos: Position, f: Fetch) {
    f.HasData() &&
    var p := WithPeak(pos, f.premium.value);
    p.entry != 0.0 && Evaluate(mon, p, f.View()).Some? && (dry || f.Sold())
  }

  function AfterFetch(mon: Monitor, dry: bool, s: Setting, d: Desk, pos: Position, f: Fetch): Desk {
    if !f.HasData() then d
    else
      var p := WithPeak(pos, f.premium.value);
      var d1 := if p == pos then d else d.(store := d.store[p.id := p]);
      if !Leaves(mon, dry, pos, f) then d1
      else Desk(d1.store - {pos.id}, if dry then d1.risk else Record(s, d1.risk, f.today, Realized(p, f.premium.value)))
  }

  class ExitLoop {
    const store: PositionStore
    const risk: RiskEngine
    const dry: bool
    var monitor: Monitor

    constructor (store: PositionStore, risk: RiskEngine, dry: bool, monitor: Monitor)
      ensures this.store == store && this.risk == risk && this.dry == dry && this.monitor == monitor
    {
      this.store, this.risk, this.dry, this.monitor := store, risk, dry, monitor;
    }

    ghost function State(): Desk
      reads this, store, risk, risk.file
    {
      Desk(store.positions, risk.State())
    }

    // A zero entry premium makes the evaluation raise; the peak recorded before that stays.
    method EvaluatePosition(pos: Position, f: Fetch, rule: Option<TickRule>) returns (limit: Option<real>)
      modifies store, risk, risk.file
      ensures State() == AfterFetch(monitor, dry, risk.setting, old(State()), pos, f)
      ensures limit.Some? ==>
                && f.HasData() && pos.entry != 0.0 && !dry && f.Sold()
                && var signal := Evaluate(monitor, WithPeak(pos, f.premium.value), f.View());
                   signal.Some? && limit.value == RoundToTick(ExitLimit(monitor, signal.value, f.spread), rule)
      ensures limit.Some? <==> !dry && Leaves(monitor, dry, pos, f)
    {
      limit := None;
      if f.spot.None? || f.premium.None? {
        return;
      }
      var p := pos;
      if pos.peak.None? || f.premium.value > pos.peak.value {
        p := pos.(peak := f.premium);
        store.Add(p);
      }
      if p.entry == 0.0 {
        return;
      }
      var signal := Evaluate(monitor, p, f.View());
      if signal.Some? {
        limit := ExecuteExit(p, signal.value, f, rule);
      }
    }

    // Keep the position when the sell raises; otherwise remove it and book the realized P&L.
    method ExecuteExit(pos: Position, signal: Signal, f: Fetch, rule: Option<TickRule>) returns (limit: Option<real>)
      modifies store, risk, risk.file
      ensures dry || f.Sold() ==>
                && store.positions == old(store.positions) - {pos.id}
                && risk.State() == if dry then old(risk.State())
                     else Record(risk.setting, old(risk.State()), f.today, Realized(pos, signal.currentPremium))
      ensures !dry && !f.Sold() ==> State() == old(State())
      ensures !dry && f.Sold() ==>
                risk.dailyPnl == (if old(risk.stateDate) == f.today then old(risk.dailyPnl) else 0.0)
                                 + (signal.currentPremium - pos.entry) * 100.0 * pos.quantity as real
      ensures limit == if !dry && f.Sold() then Some(RoundToTick(ExitLimit(monitor, signal, f.spread), rule)) else None
    {
      limit := None;
      if !dry {
        var price := RoundToTick(ExitLimit(monitor, signal, f.spread), rule);
        if !f.Sold() {
          return;
        }
        limit := Some(price);
      }
      store.Remove(pos.id);
      if !dry {
        risk.RecordPnl(f.today, Realized(pos, signal.currentPremium));
      }
    }
  }

  // ----- one position over a run of ticks -----

  function LiveRun(mon: Monitor, dry: bool, s: Setting, d: Desk, id: PositionId, fs: seq<Fetch>): Desk
    decreases |fs|
  {
    if fs == [] || id !in d.store then d
    else LiveRun(mon, dry, s, AfterFetch(mon, dry, s, d, d.store[id], fs[0]), id, fs[1..])
  }

  function Premiums(fs: seq<Fetch>): seq<real> {
    if fs == [] then []
    else (if fs[0].HasData() then [fs[0].premium.value] else []) + Premiums(fs[1..])
  }

  // The tick at which the position leaves, if it does.
  function LeavingTick(mon: Monitor, dry: bool, pos: Position, fs: seq<Fetch>): (k: Option<nat>)
    ensures k.Some? ==> k.value < |fs| && fs[k.value].HasData()
    decreases |fs|
  {
    if fs == [] then None
    else if Leaves(mon, dry, pos, fs[0]) then Some(0)
    else
      var next := if fs[0].HasData() then WithPeak(pos, fs[0].premium.value) else pos;
      match LeavingTick(mon, dry, next, fs[1..])
      case None => None
      case Some(k) => Some(k + 1)
  }

  lemma PeakOneMore(pos: Position, fs: seq<Fetch>)
    requires fs != []
    ensures var next := if fs[0].HasData() then WithPeak(pos, fs[0].premium.value) else pos;
            PeakAfter(pos, Premiums(fs)) == PeakAfter(next, Premiums(fs[1..]))
  {
    var rest := Premiums(fs[1..]);
    if fs[0].HasData() {
      assert Premiums(fs) == [fs[0].premium.value] + rest && Premiums(fs)[1..] == rest;
    } else {
      assert Premiums(fs) == rest;
    }
  }

  // The books after a profit of x is recorded: the day's P&L grows by it, a new day starting from nothing; the
  // switch stays on for the day or goes on at the limit; and the file says the same.
  ghost predicate Booked(s: Setting, before: Books, after: Books, today: int, x: real) {
    var e, e' := before.engine, after.engine;
    && e'.date == today
    && e'.pnl == (if e.date == today then e.pnl else 0.0) + x
    && (e'.kill <==> (e.date == today && e.kill) || (s.nav > 0.0 && e'.pnl <= -(s.nav * s.params.lossPct)))
    && after.file == Some(Saved(today, e'.pnl, e'.kill))
  }

  lemma RecordBooks(s: Setting, b: Books, today: int, x: real)
    ensures Booked(s, b, Record(s, b, today, x), today, x)
  {
  }

  // Cost basis plus what is booked is what the contracts are worth at the exit.
  lemma CostPlusGain(pos: Position, premium: real)
    ensures pos.entry * (100 * pos.quantity) as real + Realized(pos, premium) == premium * (100 * pos.quantity) as real
    ensures Realized(pos, premium) == (premium - pos.entry) * 100.0 * pos.quantity as real
  {
  }

  lemma {:induction false} ExitBooksRealized(
    mon: Monitor, dry: bool, s: Setting, d: Desk, id: PositionId, fs: seq<Fetch>)
    requires id in d.store && d.store[id].id == id
    ensures var pos, end := d.store[id], LiveRun(mon, dry, s, d, id, fs);
            match LeavingTick(mon, dry, pos, fs)
            case None =>
              end == d.(store := d.store[id := PeakAfter(pos, Premiums(fs))])
            case Some(k) =>
              && end.store == d.store - {id}
              && end.risk == if dry then d.risk
                   else Record(s, d.risk, fs[k].today, Realized(pos, fs[k].premium.value))
    decreases |fs|
  {
    var pos := d.store[id];
    if fs == [] {
      assert d.store[id := pos] == d.store;
    } else {
      var d' := AfterFetch(mon, dry, s, d, pos, fs[0]);
      if Leaves(mon, dry, pos, fs[0]) {
        assert LiveRun(mon, dry, s, d', id, fs[1..]) == d' && d'.store == d.store - {id};
      } else {
        ExitBooksRealized(mon, dry, s, d', id, fs[1..]);
        PeakOneMore(pos, fs);
        var last := PeakAfter(pos, Premiums(fs));
        assert d'.store - {id} == d.store - {id} && d'.store[id := last] == d.store[id := last];
      }
    }
  }

  // MAIN RESULT. As long as no signal sells, the position stays in the store with the running maximum
  // as its peak and nothing is booked; once one does, it is gone, and the difference between premium and entry
  // at that tick, times a hundred times the quantity, has been booked, once.
  lemma ExitIsBookedOnce(mon: Monitor, dry: bool, s: Setting, d: Desk, id: PositionId, fs: seq<Fetch>)
    requires id in d.store && d.store[id].id == id
    ensures var pos, end := d.store[id], LiveRun(mon, dry, s, d, id, fs);
            match LeavingTick(mon, dry, pos, fs)
            case None =>
              end == d.(store := d.store[id := PeakAfter(pos, Premiums(fs))])
            case Some(k) =>
              && end.store == d.store - {id}
              && if dry then end.risk == d.risk
                 else Booked(s, d.risk, end.risk, fs[k].today,
                             (fs[k].premium.value - pos.entry) * 100.0 * pos.quantity as real)
  {
    var pos := d.store[id];
    ExitBooksRealized(mon, dry, s, d, id, fs);
    match LeavingTick(mon, dry, pos, fs)
    case None =>
    case Some(k) =>
      CostPlusGain(pos, fs[k].premium.value);
      RecordBooks(s, d.risk, fs[k].today, Realized(pos, fs[k].premium.value));
  }

  // This tick is quoted, a gate holds for the position and its peak so far, and the sell returns (or none is sent).
  ghost predicate SellsAt(mon: Monitor, dry: bool, pos: Position, fs: seq<Fetch>, k: nat)
    requires k < |fs|
  {
    && fs[k].HasData() && pos.entry != 0.0 && (dry || fs[k].reply.Returned?)
    && var p, t := PeakAfter(pos, Premiums(fs[..k + 1])), fs[k].View();
       exists r :: Gate(mon, p, t, r)
  }

  lemma LeavesSells(mon: Monitor, dry: bool, pos: Position, fs: seq<Fetch>)
    requires fs != []
    ensures Leaves(mon, dry, pos, fs[0]) <==> SellsAt(mon, dry, pos, fs, 0)
  {
    if fs[0].HasData() && pos.entry != 0.0 {
      var p := WithPeak(pos, fs[0].premium.value);
      assert fs[..1] == [fs[0]] && [fs[0]][1..] == [];
      assert Premiums(fs[..1]) == [fs[0].premium.value] + Premiums([]);
      assert [fs[0].premium.value][1..] == [] && PeakAfter(pos, Premiums(fs[..1])) == p;
      FirstInPriority(mon, p, fs[0].View());
    }
  }

  lemma SellsLater(mon: Monitor, dry: bool, pos: Position, fs: seq<Fetch>, k: nat)
    requires 0 < k < |fs|
    ensures var next := if fs[0].HasData() then WithPeak(pos, fs[0].premium.value) else pos;
            SellsAt(mon, dry, pos, fs, k) <==> SellsAt(mon, dry, next, fs[1..], k - 1)
  {
    PeakOneMore(pos, fs[..k + 1]);
    assert fs[..k + 1][1..] == fs[1..][..k] && fs[..k + 1][0] == fs[0];
  }

  // The tick a position leaves on is the first one that sells it.
  lemma {:induction false} LeavesAtFirstSale(mon: Monitor, dry: bool, pos: Position, fs: seq<Fetch>)
    ensures match LeavingTick(mon, dry, pos, fs)
            case None => forall k :: 0 <= k < |fs| ==> !SellsAt(mon, dry, pos, fs, k)
            case Some(k) => SellsAt(mon, dry, pos, fs, k) && forall j :: 0 <= j < k ==> !SellsAt(mon, dry, pos, fs, j)
    decreases |fs|
  {
    if fs != [] {
      LeavesSells(mon, dry, pos, fs);
      var next := if fs[0].HasData() then WithPeak(pos, fs[0].premium.value) else pos;
      LeavesAtFirstSale(mon, dry, next, fs[1..]);
      forall k | 0 < k < |fs|
        ensures SellsAt(mon, dry, pos, fs, k) <==> SellsAt(mon, dry, next, fs[1..], k - 1)
      {
        SellsLater(mon, dry, pos, fs, k);
      }
    }
  }

  // The sell goes out five percent below the premium when it has to get out, three percent below in a wide market,
  // both at a cent at least, and at the premium otherwise; rounded, it is never above the larger of one tick and
  // the premium that triggered it (a cent when it was less).
  lemma ExitNeverAsksMore(mon: Monitor, signal: Signal, spread: Option<real>, rule: Option<TickRule>)
    ensures var price := ExitLimit(mon, signal, spread);
            && RoundToTick(price, rule) <= Max(Max(signal.currentPremium, PENNY), TickFor(price, rule))
            && 0.0 < RoundToTick(price, rule) && OnGrid(RoundToTick(price, rule), TickFor(price, rule))
    ensures var price, premium := ExitLimit(mon, signal, spread), signal.currentPremium;
            if signal.reason == StopLoss || signal.reason == TrailingStop
            then 20.0 * price == 19.0 * premium >= 0.2 || (19.0 * premium <= 0.2 && price == 0.01)
            else if spread.Some? && spread.value > mon.spreadThreshold
            then 100.0 * price == 97.0 * premium >= 1.0 || (97.0 * premium <= 1.0 && price == 0.01)
            else price == premium
  {
    RoundToTickIsGreatest(ExitLimit(mon, signal, spread), rule);
  }

  // ----- how often one position is sold -----

  // The reason of the sell that reached the broker on this tick. Position and reason make up its ref_id,
  // so the broker treats a repeated reason as the order it already has.
  function Reached(mon: Monitor, pos: Position, f: Fetch): Option<Reason> {
    if !f.HasData() || pos.entry == 0.0 || f.reply.Refused? then None
    else FirstTriggered(mon, WithPeak(pos, f.premium.value), f.View())
  }

  // The reasons that reached the broker until the position left, in order.
  function AllReached(mon: Monitor, pos: Position, fs: seq<Fetch>): seq<Reason>
    decreases |fs|
  {
    if fs == [] then []
    else
      var next := if fs[0].HasData() then WithPeak(pos, fs[0].premium.value) else pos;
      (match Reached(mon, pos, fs[0]) case Some(r) => [r] case None => []) +
      if Leaves(mon, false, pos, fs[0]) then [] else AllReached(mon, next, fs[1..])
  }

  // Contracts the broker is asked to sell: the quantity once for each distinct ref_id.
  function AskedToSell(mon: Monitor, pos: Position, fs: seq<Fetch>): int {
    Copies(|Refs(AllReached(mon, pos, fs))|, pos.quantity)
  }

  function Refs(rs: seq<Reason>): set<Reason> {
    set r | r in rs
  }

  function Copies(n: nat, quantity: int): int {
    n * quantity
  }

  lemma CopiesWithin(n: nat, quantity: int)
    requires quantity > 0
    ensures Copies(n, quantity) <= quantity <==> n <= 1
  {
    if n == 0 {
      assert Copies(0, quantity) == 0;
    } else if n == 1 {
      assert Copies(1, quantity) == quantity;
    } else {
      assert Copies(n, quantity) == quantity + Copies(n - 1, quantity);
      assert (n - 1) * quantity > 0;
    }
  }

  predicate AllSame(rs: seq<Reason>) {
    forall j, k :: 0 <= j < k < |rs| ==> rs[j] == rs[k]
  }

  lemma FewDistinct(rs: seq<Reason>)
    ensures |Refs(rs)| <= 1 <==> AllSame(rs)
  {
    var all := Refs(rs);
    if rs == [] {
      assert all == {};
    } else if AllSame(rs) {
      assert all == {rs[0]};
    } else {
      var j, k :| 0 <= j < k < |rs| && rs[j] != rs[k];
      CardMono({rs[j], rs[k]}, all);
    }
  }

  lemma {:induction false} CardMono(a: set<Reason>, b: set<Reason>)
    requires a <= b
    ensures |a| <= |b|
    decreases |a|
  {
    if x :| x in a {
      CardMono(a - {x}, b - {x});
    }
  }

  // All that reached the broker before the last one had its reply lost.
  lemma {:induction false} NoLossReachesOnce(mon: Monitor, pos: Position, fs: seq<Fetch>)
    requires forall k :: 0 <= k < |fs| ==> !fs[k].reply.Lost?
    ensures |AllReached(mon, pos, fs)| <= 1
    decreases |fs|
  {
    if fs != [] {
      NoLossReachesOnce(mon, if fs[0].HasData() then WithPeak(pos, fs[0].premium.value) else pos, fs[1..]);
    }
  }

  // Which gates hold for a position on a tick.
  type Gates = (Position, Tick, Reason) -> bool

  function GatesOf(mon: Monitor): Gates {
    (p: Position, t: Tick, r: Reason) => p.entry != 0.0 && Gate(mon, p, t, r)
  }

  function DollarGatesOf(mon: Monitor): Gates {
    (p: Position, t: Tick, r: Reason) => DollarGate(mon, p, t, r)
  }

  ghost predicate NoGate(g: Gates, p: Position, t: Tick) {
    forall r :: !g(p, t, r)
  }

  // Gate r holds and no gate before it in priority does.
  ghost predicate FirstGate(g: Gates, p: Position, t: Tick, r: Reason) {
    && g(p, t, r)
    && exists k :: 0 <= k < |PRIORITY| && PRIORITY[k] == r && forall j :: 0 <= j < k ==> !g(p, t, PRIORITY[j])
  }

  // On every tick up to the one the position leaves on, unless its sell is refused: no gate holds, or r is the
  // first that does. It leaves when a gate holds and the sell returns.
  ghost predicate OneReason(g: Gates, pos: Position, fs: seq<Fetch>, r: Reason)
    decreases |fs|
  {
    fs == [] ||
    if !fs[0].HasData() then OneReason(g, pos, fs[1..], r)
    else
      var p, t := WithPeak(pos, fs[0].premium.value), fs[0].View();
      && (!fs[0].reply.Refused? ==> NoGate(g, p, t) || FirstGate(g, p, t, r))
      && ((!NoGate(g, p, t) && fs[0].Sold()) || OneReason(g, p, fs[1..], r))
  }

  lemma ReasonOfGates(mon: Monitor, p: Position, t: Tick)
    requires p.entry != 0.0
    ensures FirstTriggered(mon, p, t).None? <==> NoGate(GatesOf(mon), p, t)
    ensures forall r :: FirstTriggered(mon, p, t) == Some(r) <==> FirstGate(GatesOf(mon), p, t, r)
  {
    FirstInPriority(mon, p, t);
    var g := GatesOf(mon);
    assert forall r :: g(p, t, r) <==> Gate(mon, p, t, r);
    forall r ensures FirstTriggered(mon, p, t) == Some(r) <==> FirstGate(g, p, t, r) {
      var k := Place(r);
      assert PRIORITY[k] == r;
    }
  }

  function Place(r: Reason): (k: nat)
    ensures k < |PRIORITY| && PRIORITY[k] == r
    ensures forall j :: 0 <= j < |PRIORITY| && PRIORITY[j] == r ==> j == k
  {
    match r
    case ProfitTarget => 0
    case EarningsGap => 1
    case ThesisInvalidated => 2
    case TrailingStop => 3
    case StopLoss => 4
    case DteStop => 5
  }

  predicate AllAre(rs: seq<Reason>, r: Reason) {
    forall k :: 0 <= k < |rs| ==> rs[k] == r
  }

  lemma AllAreConcat(a: seq<Reason>, b: seq<Reason>, r: Reason)
    ensures AllAre(a + b, r) <==> AllAre(a, r) && AllAre(b, r)
  {
    assert forall k :: 0 <= k < |a| ==> (a + b)[k] == a[k];
    assert forall k :: 0 <= k < |b| ==> (a + b)[|a| + k] == b[k];
  }

  // One tick: what reaches the broker, and whether the position leaves, in terms of the gates.
  lemma TickOfGates(mon: Monitor, pos: Position, f: Fetch)
    requires f.HasData()
    ensures var p, t, g := WithPeak(pos, f.premium.value), f.View(), GatesOf(mon);
            && (Reached(mon, pos, f).None? <==> f.reply.Refused? || NoGate(g, p, t))
            && (Reached(mon, pos, f).Some? ==> FirstGate(g, p, t, Reached(mon, pos, f).value))
            && (forall r :: Reached(mon, pos, f).Some? && FirstGate(g, p, t, r) ==> Reached(mon, pos, f) == Some(r))
            && (Leaves(mon, false, pos, f) <==> !NoGate(g, p, t) && f.Sold())
  {
    var p := WithPeak(pos, f.premium.value);
    if pos.entry == 0.0 {
      assert forall r :: !GatesOf(mon)(p, f.View(), r);
    } else {
      ReasonOfGates(mon, p, f.View());
    }
  }

  lemma {:induction false} OneReasonReaches(mon: Monitor, pos: Position, fs: seq<Fetch>, r: Reason)
    ensures OneReason(GatesOf(mon), pos, fs, r) <==> AllAre(AllReached(mon, pos, fs), r)
    decreases |fs|
  {
    if fs == [] {
    } else if !fs[0].HasData() {
      OneReasonReaches(mon, pos, fs[1..], r);
      assert [] + AllReached(mon, pos, fs[1..]) == AllReached(mon, pos, fs[1..]);
    } else {
      var next := WithPeak(pos, fs[0].premium.value);
      var here := match Reached(mon, pos, fs[0]) case Some(x) => [x] case None => [];
      var later := if Leaves(mon, false, pos, fs[0]) then [] else AllReached(mon, next, fs[1..]);
      assert AllReached(mon, pos, fs) == here + later;
      AllAreConcat(here, later, r);
      TickOfGates(mon, pos, fs[0]);
      OneReasonReaches(mon, next, fs[1..], r);
      assert AllAre(here, r) <==> Reached(mon, pos, fs[0]).None? || Reached(mon, pos, fs[0]) == Some(r) by {
        assert here != [] ==> here[0] == Reached(mon, pos, fs[0]).value;
      }
    }
  }

  lemma SameIfAllAre(rs: seq<Reason>)
    ensures AllSame(rs) <==> exists r :: AllAre(rs, r)
  {
    if AllSame(rs) {
      assert AllAre(rs, if rs == [] then StopLoss else rs[0]);
    }
  }

  // MAIN RESULT. Over any run of ticks a position of positive quantity is sold at most once exactly when there
  // is one reason such that, on every tick until it leaves whose sell is not refused, either no gate holds or
  // that reason's gate is the first that does.
  lemma SoldOnceIff(mon: Monitor, pos: Position, fs: seq<Fetch>)
    requires pos.quantity > 0
    ensures AskedToSell(mon, pos, fs) <= pos.quantity <==> exists r :: OneReason(GatesOf(mon), pos, fs, r)
  {
    var rs := AllReached(mon, pos, fs);
    FewDistinct(rs);
    CopiesWithin(|Refs(rs)|, pos.quantity);
    SameIfAllAre(rs);
    if r :| AllAre(rs, r) {
      OneReasonReaches(mon, pos, fs, r);
    }
    if r :| OneReason(GatesOf(mon), pos, fs, r) {
      OneReasonReaches(mon, pos, fs, r);
    }
  }

  lemma {:induction false} OneReasonBySameGates(g: Gates, h: Gates, pos: Position, fs: seq<Fetch>, r: Reason)
    requires forall p: Position, t, x :: p.entry == pos.entry ==> g(p, t, x) == h(p, t, x)
    ensures OneReason(g, pos, fs, r) <==> OneReason(h, pos, fs, r)
    decreases |fs|
  {
    if fs != [] {
      OneReasonBySameGates(g, h, if fs[0].HasData() then WithPeak(pos, fs[0].premium.value) else pos, fs[1..], r);
    }
  }

  // For a static monitor the gates compare prices in dollars.
  lemma SoldOnceStaticIff(mon: Monitor, pos: Position, fs: seq<Fetch>)
    requires !mon.dynamic && pos.entry > 0.0 && pos.quantity > 0
    ensures AskedToSell(mon, pos, fs) <= pos.quantity <==> exists r :: OneReason(DollarGatesOf(mon), pos, fs, r)
  {
    var g, h := GatesOf(mon), DollarGatesOf(mon);
    SoldOnceIff(mon, pos, fs);
    forall p: Position, t, x | p.entry == pos.entry
      ensures g(p, t, x) == h(p, t, x)
    {
      GatesInDollars(mon, p, t);
    }
    if r :| OneReason(g, pos, fs, r) {
      OneReasonBySameGates(g, h, pos, fs, r);
    }
    if r :| OneReason(h, pos, fs, r) {
      OneReasonBySameGates(g, h, pos, fs, r);
    }
  }

  // In particular it is sold at most once when no reply was lost.
  lemma SoldOnceWithoutLoss(mon: Monitor, pos: Position, fs: seq<Fetch>)
    requires pos.quantity > 0 && forall k :: 0 <= k < |fs| ==> !fs[k].reply.Lost?
    ensures AskedToSell(mon, pos, fs) <= pos.quantity
  {
    NoLossReachesOnce(mon, pos, fs);
    FewDistinct(AllReached(mon, pos, fs));
    CopiesWithin(|Refs(AllReached(mon, pos, fs))|, pos.quantity);
  }

  // A concrete double sell: the stop-loss goes through but its reply is lost, and by the next tick the
  // premium has recovered and only the expiry floor fires.
  lemma SoldTwiceExample(mon: Monitor, pos: Position)
    requires !mon.dynamic && mon.stopLoss == 0.35 && mon.dteFloor == 7 && mon.activation == 0.3
    requires pos.entry == 4.0 && pos.quantity == 1 && pos.target.None? && pos.peak.None?
    ensures var stop := Fetch(Some(100.0), Some(2.0), 8, None, None, None, None, Lost, 1);
            var late := Fetch(Some(100.0), Some(3.9), 7, None, None, None, None, Returned, 2);
            AskedToSell(mon, pos, [stop, late]) == 2
  {
    var stop := Fetch(Some(100.0), Some(2.0), 8, None, None, None, None, Lost, 1);
    var late := Fetch(Some(100.0), Some(3.9), 7, None, None, None, None, Returned, 2);
    var next := WithPeak(pos, 2.0);
    assert [stop, late][1..] == [late] && [late][1..] == [];
    assert Reached(mon, pos, stop) == Some(StopLoss) && Reached(mon, next, late) == Some(DteStop);
    assert AllReached(mon, next, [late]) == [DteStop];
    assert AllReached(mon, pos, [stop, late]) == [StopLoss, DteStop];
    assert Refs([StopLoss, DteStop]) == {StopLoss, DteStop};
  }
}
