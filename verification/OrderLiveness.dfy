/** Every tracked order leaves the manager after a bounded number of polls. */
module OrderLiveness {
  import opened Common
  import opened Lifecycle

  // What the broker promises: a requested cancel is settled within `patience` polls, and at most
  // `failures` cancel calls raise.
  datatype Promise = Promise(patience: nat, failures: nat)

  // How far one order has got: the clock at its last poll, how many polls its pending cancel has
  // already waited, and how many cancel calls failed.
  datatype Progress = Progress(last: int, waited: nat, failed: nat)

  function CancelFails(cfg: Config, w: Tracked, r: Reply): bool {
    Decide(cfg, w, r.look, r.now).Cancel? && !r.cancelOk
  }

  ghost predicate Kept(cfg: Config, w: Tracked, r: Reply, p: Promise, g: Progress) {
    && g.last < r.now
    && (r.look.Some? ==> Final(r.look.value.state) || Working(r.look.value.state))
    && (w.cancelling && g.waited == p.patience && r.look.Some? ==> Final(r.look.value.state))
    && (CancelFails(cfg, w, r) ==> g.failed < p.failures)
  }

  function Next(cfg: Config, w: Tracked, r: Reply, g: Progress): Progress {
    Progress(
      r.now,
      if w.cancelling && Decide(cfg, w, r.look, r.now).Keep? then g.waited + 1 else 0,
      if CancelFails(cfg, w, r) then g.failed + 1 else g.failed)
  }

  // The tracked order after a series of polls; None once it has left.
  function After(cfg: Config, w: Option<Tracked>, rs: seq<Reply>): Option<Tracked>
    decreases |rs|
  {
    if rs == [] || w.None? then w else After(cfg, Poll(cfg, w.value, rs[0]), rs[1..])
  }

  ghost predicate KeptThroughout(cfg: Config, w: Option<Tracked>, rs: seq<Reply>, p: Promise, g: Progress)
    decreases |rs|
  {
    rs == [] || w.None? ||
    (Kept(cfg, w.value, rs[0], p, g)
     && KeptThroughout(cfg, Poll(cfg, w.value, rs[0]), rs[1..], p, Next(cfg, w.value, rs[0], g)))
  }

  // Seconds until the order is old enough to be given up, stretched so that each outweighs a reprice.
  function Measure(cfg: Config, w: Tracked, p: Promise, g: Progress): int {
    var young := MaxInt(0, w.placedAt + cfg.giveUpAfter - g.last);
    var phase :=
      if !w.cancelling then p.patience + 1
      else if w.givingUp then p.patience - g.waited
      else p.patience - g.waited + p.patience + 2;
    Stretch(young, p.patience + 2) + (p.failures - g.failed) + phase
  }

  function Stretch(n: int, k: nat): int {
    n * k
  }

  lemma StretchMono(a: int, b: int, k: nat)
    requires 0 <= a <= b
    ensures 0 <= Stretch(a, k) <= Stretch(b, k)
    ensures a < b ==> Stretch(a, k) + k <= Stretch(b, k)
  {
    assert Stretch(b, k) == Stretch(a, k) + (b - a) * k;
    if a < b {
      assert (b - a) * k == k + (b - a - 1) * k;
    }
  }

  // A poll that leaves the order tracked brings it strictly closer to leaving.
  lemma PollDecreases(cfg: Config, w: Tracked, r: Reply, p: Promise, g: Progress)
    requires Kept(cfg, w, r, p, g) && g.waited <= p.patience && g.failed <= p.failures
    requires Poll(cfg, w, r).Some?
    ensures var w', g' := Poll(cfg, w, r).value, Next(cfg, w, r, g);
            && 0 <= Measure(cfg, w', p, g') < Measure(cfg, w, p, g)
            && g'.waited <= p.patience && g'.failed <= p.failures
  {
    var young := MaxInt(0, w.placedAt + cfg.giveUpAfter - g.last);
    var young' := MaxInt(0, w.placedAt + cfg.giveUpAfter - r.now);
    StretchMono(young', young, p.patience + 2);
  }

  // MAIN RESULT. Under the broker's promise and an advancing clock, an order that is polled more often
  // than its measure is no longer tracked, whatever the broker answered.
  lemma {:induction false} EveryOrderLeaves(cfg: Config, w: Tracked, rs: seq<Reply>, p: Promise, g: Progress)
    requires KeptThroughout(cfg, Some(w), rs, p, g) && g.waited <= p.patience && g.failed <= p.failures
    requires Measure(cfg, w, p, g) < |rs|
    ensures After(cfg, Some(w), rs).None?
    decreases |rs|
  {
    var w' := Poll(cfg, w, rs[0]);
    var young := MaxInt(0, w.placedAt + cfg.giveUpAfter - g.last);
    StretchMono(0, young, p.patience + 2);
    if w'.Some? {
      PollDecreases(cfg, w, rs[0], p, g);
      EveryOrderLeaves(cfg, w'.value, rs[1..], p, Next(cfg, w, rs[0], g));
    }
  }

  // For a freshly tracked order the bound is (patience + 2) x give_up_after + failures + patience + 1.
  lemma FreshOrderBound(cfg: Config, w: Tracked, rs: seq<Reply>, p: Promise)
    requires !w.cancelling && cfg.giveUpAfter >= 0
    requires KeptThroughout(cfg, Some(w), rs, p, Progress(w.placedAt, 0, 0))
    requires |rs| >= Stretch(cfg.giveUpAfter, p.patience + 2) + p.failures + p.patience + 2
    ensures After(cfg, Some(w), rs).None?
  {
    EveryOrderLeaves(cfg, w, rs, p, Progress(w.placedAt, 0, 0));
  }

  // One of the two deadlines has passed: too old, or unchanged for too long with replacements left.
  predicate Due(cfg: Config, w: Tracked, now: int) {
    || now - w.placedAt >= cfg.giveUpAfter
    || (now - w.lastActionAt >= cfg.repriceAfter && w.attempts < cfg.maxReplacements)
  }

  // While its broker order works, an order waits for a cancel after a poll exactly when it already did, or one
  // of its deadlines has passed and the cancel call went through; so none sits past a deadline. It is given up
  // exactly when it is too old. Nothing else about it changes, but for the option id and the time of the cancel.
  lemma CancelledExactlyWhenDue(cfg: Config, w: Tracked, r: Reply)
    requires r.look.Some? && r.look.value.state in {Queued, Unconfirmed, Confirmed, PartiallyFilled, PendingCancelled}
    ensures Poll(cfg, w, r).Some?
    ensures var w' := Poll(cfg, w, r).value;
            && (w'.cancelling <==> w.cancelling || (Due(cfg, w, r.now) && r.cancelOk))
            && (w'.givingUp <==> w.givingUp || (!w.cancelling && r.now - w.placedAt >= cfg.giveUpAfter))
            && w'.lastActionAt == (if w'.cancelling && !w.cancelling then r.later else w.lastActionAt)
            && w' == w.(cancelling := w'.cancelling, givingUp := w'.givingUp, lastActionAt := w'.lastActionAt,
                        optionId := if w.optionId.Some? then w.optionId else r.look.value.option)
  {
  }

  // The manager's own view: poll the order under whatever id it currently has.
  function ManagerAfter(cfg: Config, m: Mgr, id: nat, rs: seq<Reply>): Mgr
    requires id in m.orders && m.orders[id].orderId == id
    decreases |rs|
  {
    if rs == [] then m
    else
      var w' := Poll(cfg, m.orders[id], rs[0]);
      CheckIsLocal(cfg, m, id, rs[0]);
      var m' := Check(cfg, m, id, rs[0]);
      if w'.None? then m' else ManagerAfter(cfg, m', w'.value.orderId, rs[1..])
  }

  // Replacements get ids of their own, so once the order leaves, its dictionary is the old one without it.
  lemma {:induction false} ManagerForgetsIt(cfg: Config, m: Mgr, id: nat, rs: seq<Reply>)
    requires id in m.orders && m.orders[id].orderId == id
    requires forall k :: 0 <= k < |rs| && rs[k].placed.Some? ==> rs[k].placed.value !in m.orders
    requires forall j, k :: 0 <= j < k < |rs| && rs[j].placed.Some? ==> rs[j].placed != rs[k].placed
    requires After(cfg, Some(m.orders[id]), rs).None?
    ensures ManagerAfter(cfg, m, id, rs).orders == m.orders - {id}
    decreases |rs|
  {
    var w' := Poll(cfg, m.orders[id], rs[0]);
    CheckIsLocal(cfg, m, id, rs[0]);
    if w'.Some? {
      var m' := Check(cfg, m, id, rs[0]);
      ManagerForgetsIt(cfg, m', w'.value.orderId, rs[1..]);
      assert m'.orders - {w'.value.orderId} == m.orders - {id};
    }
  }
}
