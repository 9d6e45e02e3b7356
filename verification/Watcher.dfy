/** The flow watcher's memory: alerts already seen, and tickers attempted within the cooldown
    (src/trader/live/watcher.py). */
module Watchers {
  import opened Common
  import opened Schemas

  const COOLDOWN_SECONDS: int := 1800
  const SEEN_LIMIT: nat := 10_000
  const SEEN_KEPT: nat := 5_000
  const ATTEMPT_LIMIT: nat := 200

  datatype Key = Key(ticker: string, expiry: int, strike: real, kind: OptionKind, created: int)

  datatype Alert = Alert(key: Key, premium: real)

  // ----- alerts -----

  function Keys(alerts: seq<Alert>): seq<Key> {
    seq(|alerts|, i requires 0 <= i < |alerts| => alerts[i].key)
  }

  // The watched alerts whose key is new, each key once, in order.
  function NewAlerts(alerts: seq<Alert>, watched: set<string>, seen: seq<Key>): seq<Alert> {
    if alerts == [] then []
    else
      var before := NewAlerts(alerts[..|alerts| - 1], watched, seen);
      var a := alerts[|alerts| - 1];
      if a.key.ticker in watched && a.key !in seen && a.key !in Keys(before) then before + [a] else before
  }

  // Past the limit only the most recent keys are kept.
  function Trim(seen: seq<Key>): seq<Key> {
    if |seen| > SEEN_LIMIT then seen[|seen| - SEEN_KEPT..] else seen
  }

  ghost predicate Distinct(keys: seq<Key>) {
    forall j, k :: 0 <= j < k < |keys| ==> keys[j] != keys[k]
  }

  // ----- attempts -----

  function RecentIn(attempts: map<string, int>, ticker: string, now: int): bool {
    ticker in attempts && now - attempts[ticker] <= COOLDOWN_SECONDS
  }

  function Recorded(attempts: map<string, int>, ticker: string, at: int, cutoff: int): map<string, int> {
    var m := attempts[ticker := at];
    if |m| > ATTEMPT_LIMIT then map t | t in m && cutoff - m[t] <= COOLDOWN_SECONDS :: m[t] else m
  }

  class FlowWatcher {
    var seen: seq<Key>              // the keys of an insertion-ordered dictionary
    var attempts: map<string, int>

    ghost predicate Valid()
      reads this
    {
      Distinct(seen) && |seen| <= SEEN_LIMIT
    }

    constructor ()
      ensures Valid() && seen == [] && attempts == map[]
    {
      seen, attempts := [], map[];
    }

    method FilterNew(alerts: seq<Alert>, watched: set<string>) returns (out: seq<Alert>)
      requires Valid()
      modifies this`seen
      ensures Valid()
      ensures out == NewAlerts(alerts, watched, old(seen))
      ensures seen == Trim(old(seen) + Keys(out))
    {
      out := [];
      for i := 0 to |alerts|
        invariant out == NewAlerts(alerts[..i], watched, old(seen))
        invariant seen == old(seen) + Keys(out) && Distinct(seen)
      {
        assert alerts[..i + 1][..i] == alerts[..i];
        var a := alerts[i];
        if a.key.ticker in watched && a.key !in seen {
          assert Keys(out + [a]) == Keys(out) + [a.key];
          seen := seen + [a.key];
          out := out + [a];
        }
      }
      assert alerts[..|alerts|] == alerts;
      if |seen| > SEEN_LIMIT {
        seen := seen[|seen| - SEEN_KEPT..];
      }
    }

    method RecentlyAttempted(ticker: string, now: int) returns (recent: bool)
      ensures recent == RecentIn(attempts, ticker, now)
    {
      recent := ticker in attempts && now - attempts[ticker] <= COOLDOWN_SECONDS;
    }

    method RecordAttempt(ticker: string, at: int, cutoff: int)
      modifies this`attempts
      ensures attempts == Recorded(old(attempts), ticker, at, cutoff)
      ensures forall t :: t in attempts ==> attempts[t] == if t == ticker then at else old(attempts)[t]
      ensures forall t :: t == ticker || t in old(attempts) ==>
                var last := if t == ticker then at else old(attempts)[t];
                cutoff <= last + 1800 ==> t in attempts
      ensures |old(attempts)| < 200 ==> attempts == old(attempts)[ticker := at]
    {
      attempts := attempts[ticker := at];
      if |attempts| > ATTEMPT_LIMIT {
        attempts := map t | t in attempts && cutoff - attempts[t] <= COOLDOWN_SECONDS :: attempts[t];
      }
    }

    // One live signal per ticker: skip within the cooldown or while a position is open.
    method Ask(ticker: string, now: int, holding: bool) returns (go: bool)
      ensures go <==> Goes(attempts, ticker, now, holding)
      ensures go <==> !holding && (ticker !in attempts || now > attempts[ticker] + 1800)
    {
      var recent := RecentlyAttempted(ticker, now);
      go := !recent && !holding;
    }
  }

  // ----- what one filtering call returns -----

  // Keys returned are watched, new, returned once, and complete.
  lemma {:induction false} NewAlertsAreNew(alerts: seq<Alert>, watched: set<string>, seen: seq<Key>)
    ensures var out := NewAlerts(alerts, watched, seen);
            && Distinct(Keys(out))
            && (forall k :: 0 <= k < |out| ==> out[k] in alerts && out[k].key.ticker in watched && out[k].key !in seen)
            && (forall a :: a in alerts && a.key.ticker in watched && a.key !in seen ==> a.key in Keys(out))
  {
    if alerts != [] {
      var rest, a := alerts[..|alerts| - 1], alerts[|alerts| - 1];
      NewAlertsAreNew(rest, watched, seen);
      var before := NewAlerts(rest, watched, seen);
      assert alerts == rest + [a];
      assert Keys(before + [a]) == Keys(before) + [a.key];
    }
  }

  // ----- what is remembered over many calls -----

  datatype Poll = Poll(alerts: seq<Alert>, watched: set<string>)

  datatype Memory = Memory(seen: seq<Key>, history: seq<Key>)

  // `history` is every key ever returned, oldest first.
  function Polled(m: Memory, p: Poll): Memory {
    var out := Keys(NewAlerts(p.alerts, p.watched, m.seen));
    Memory(Trim(m.seen + out), m.history + out)
  }

  function PolledAll(m: Memory, ps: seq<Poll>): Memory {
    if ps == [] then m else Polled(PolledAll(m, ps[..|ps| - 1]), ps[|ps| - 1])
  }

  // The dictionary holds a recent stretch of the history: never more than the limit, and at least
  // the last SEEN_KEPT keys.
  ghost predicate Remembers(m: Memory) {
    && |m.seen| <= |m.history| && m.seen == m.history[|m.history| - |m.seen|..]
    && |m.seen| <= 10_000 && |m.seen| >= (if |m.history| < 5_000 then |m.history| else 5_000)
    && Distinct(m.seen)
  }

  lemma SuffixGrows(h: seq<Key>, s: seq<Key>, out: seq<Key>)
    requires |s| <= |h| && s == h[|h| - |s|..]
    ensures s + out == (h + out)[|h| - |s|..]
  {
  }

  lemma DistinctAppend(s: seq<Key>, out: seq<Key>)
    requires Distinct(s) && Distinct(out) && forall k :: 0 <= k < |out| ==> out[k] !in s
    ensures Distinct(s + out)
  {
    var all := s + out;
    forall j, k | 0 <= j < k < |all|
      ensures all[j] != all[k]
    {
      if j < |s| <= k {
        assert all[j] == s[j] && all[k] == out[k - |s|];
      }
    }
  }

  lemma TrimRemembers(all: seq<Key>, h: seq<Key>)
    requires |all| <= |h| && all == h[|h| - |all|..] && Distinct(all)
    requires |all| >= (if |h| < SEEN_KEPT then |h| else SEEN_KEPT)
    ensures Remembers(Memory(Trim(all), h))
  {
    if |all| > SEEN_LIMIT {
      assert Trim(all) == h[|h| - SEEN_KEPT..];
    }
  }

  lemma PollRemembers(m: Memory, p: Poll)
    requires Remembers(m)
    ensures Remembers(Polled(m, p))
  {
    NewAlertsAreNew(p.alerts, p.watched, m.seen);
    var out := Keys(NewAlerts(p.alerts, p.watched, m.seen));
    SuffixGrows(m.history, m.seen, out);
    DistinctAppend(m.seen, out);
    TrimRemembers(m.seen + out, m.history + out);
  }

  lemma {:induction false} AlwaysRemembers(m: Memory, ps: seq<Poll>)
    requires Remembers(m)
    ensures Remembers(PolledAll(m, ps))
  {
    if ps != [] {
      var rest := ps[..|ps| - 1];
      AlwaysRemembers(m, rest);
      PollRemembers(PolledAll(m, rest), ps[|ps| - 1]);
    }
  }

  lemma RecentKeyNotReturned(m: Memory, p: Poll, a: Alert, i: nat)
    requires Remembers(m) && i < |m.history| <= i + SEEN_KEPT
    requires a in NewAlerts(p.alerts, p.watched, m.seen)
    ensures a.key != m.history[i]
  {
    NewAlertsAreNew(p.alerts, p.watched, m.seen);
    var j := i - (|m.history| - |m.seen|);
    assert m.history[|m.history| - |m.seen|..][j] == m.history[i];
    assert m.seen[j] in m.seen;
  }

  // MAIN RESULT. After any series of polls, no poll returns a key that is among the 5,000 most recent ones ever
  // returned.
  lemma NoRepeatWithinMemory(m: Memory, ps: seq<Poll>, p: Poll)
    requires Remembers(m)
    ensures var end := PolledAll(m, ps);
            forall a: Alert, i: nat ::
              i < |end.history| <= i + 5_000 && a in NewAlerts(p.alerts, p.watched, end.seen) ==>
                a.key != end.history[i]
  {
    AlwaysRemembers(m, ps);
    var end := PolledAll(m, ps);
    forall a: Alert, i: nat | i < |end.history| <= i + SEEN_KEPT && a in NewAlerts(p.alerts, p.watched, end.seen)
      ensures a.key != end.history[i]
    {
      RecentKeyNotReturned(end, p, a, i);
    }
  }

  // ----- the cooldown -----

  predicate Goes(attempts: map<string, int>, ticker: string, now: int, holding: bool) {
    !RecentIn(attempts, ticker, now) && !holding
  }

  // Pipelines of different tickers alternate: each asks, and commits to an attempt some time after it
  // was let through. A commit reads the clock twice, the second time to prune.
  datatype Event =
    | Ask(ticker: string, now: int, holding: bool)
    | Commit(ticker: string, now: int, cutoff: int)
  {
    function End(): int {
      if Commit? then cutoff else now
    }
  }

  // `cleared` holds the tickers let through that have not committed yet.
  datatype Gates = Gates(attempts: map<string, int>, cleared: set<string>)

  function Passed(g: Gates, e: Event, pruning: bool): Gates {
    match e
    case Ask(t, now, holding) => if Goes(g.attempts, t, now, holding) then g.(cleared := g.cleared + {t}) else g
    case Commit(t, now, cutoff) =>
      Gates(if pruning then Recorded(g.attempts, t, now, cutoff) else g.attempts[t := now], g.cleared - {t})
  }

  function After(es: seq<Event>, pruning: bool): Gates {
    if es == [] then Gates(map[], {}) else Passed(After(es[..|es| - 1], pruning), es[|es| - 1], pruning)
  }

  ghost predicate ClockRuns(first: int, es: seq<Event>) {
    && (forall k :: 0 <= k < |es| ==> first <= es[k].now <= es[k].End())
    && (forall j, k :: 0 <= j < k < |es| ==> es[j].End() <= es[k].now)
  }

  function EndOf(first: int, es: seq<Event>): int {
    if es == [] then first else es[|es| - 1].End()
  }

  // One pipeline per ticker at a time: a ticker commits only after it was let through.
  ghost predicate OnlyClearedCommit(es: seq<Event>) {
    forall k :: 0 <= k < |es| && es[k].Commit? ==> es[k].ticker in After(es[..k], true).cleared
  }

  lemma ClockRan(first: int, es: seq<Event>)
    requires ClockRuns(first, es) && es != []
    ensures ClockRuns(first, es[..|es| - 1]) && EndOf(first, es[..|es| - 1]) <= es[|es| - 1].now <= EndOf(first, es)
  {
    var rest := es[..|es| - 1];
    assert rest != [] ==> rest[|rest| - 1] == es[|rest| - 1];
  }

  lemma OnlyClearedCommitted(es: seq<Event>)
    requires OnlyClearedCommit(es) && es != []
    ensures OnlyClearedCommit(es[..|es| - 1])
  {
    var n := |es| - 1;
    assert forall k :: 0 <= k < n ==> es[..n][..k] == es[..k];
  }

  // What was pruned is older than the cooldown.
  ghost predicate Agrees(pruned: map<string, int>, full: map<string, int>, now: int) {
    && (forall t :: t in pruned ==> t in full && full[t] == pruned[t])
    && (forall t :: t in full && t !in pruned ==> now - full[t] > COOLDOWN_SECONDS)
  }

  lemma EventAgrees(pruned: Gates, full: Gates, now: int, e: Event)
    requires Agrees(pruned.attempts, full.attempts, now) && pruned.cleared == full.cleared && now <= e.now <= e.End()
    ensures var pruned', full' := Passed(pruned, e, true), Passed(full, e, false);
            Agrees(pruned'.attempts, full'.attempts, e.End()) && pruned'.cleared == full'.cleared
  {
  }

  // MAIN RESULT. With a clock that never runs back, the pruned map answers as the full history would,
  // for every ticker and at every later time.
  lemma {:induction false} PruningIsInvisible(first: int, es: seq<Event>)
    requires ClockRuns(first, es)
    ensures var pruned, full, end := After(es, true), After(es, false), EndOf(first, es);
            && Agrees(pruned.attempts, full.attempts, end) && pruned.cleared == full.cleared
            && forall t, later :: end <= later ==>
                 (RecentIn(pruned.attempts, t, later) <==> RecentIn(full.attempts, t, later))
  {
    if es != [] {
      var rest := es[..|es| - 1];
      ClockRan(first, es);
      PruningIsInvisible(first, rest);
      EventAgrees(After(rest, true), After(rest, false), EndOf(first, rest), es[|es| - 1]);
    }
  }

  // Attempts on one ticker are more than the cooldown apart.
  ghost predicate Spaced(es: seq<Event>) {
    forall j, k :: 0 <= j < k < |es| && es[j].Commit? && es[k].Commit? && es[j].ticker == es[k].ticker ==>
      es[k].now - es[j].now > 1800
  }

  // The full history has every attempt or a later one, and a ticker let through is past its cooldown.
  ghost predicate Logged(es: seq<Event>, full: Gates, end: int) {
    && (forall k :: 0 <= k < |es| && es[k].Commit? ==>
          es[k].ticker in full.attempts && es[k].now <= full.attempts[es[k].ticker])
    && (forall t :: t in full.attempts ==> full.attempts[t] <= end)
    && (forall t :: t in full.cleared && t in full.attempts ==> end - full.attempts[t] > COOLDOWN_SECONDS)
  }

  lemma EventSpaced(es: seq<Event>, full: Gates, end: int, e: Event)
    requires Logged(es, full, end) && Spaced(es) && end <= e.now <= e.End()
    requires e.Commit? ==> e.ticker in full.cleared
    ensures Logged(es + [e], Passed(full, e, false), e.End()) && Spaced(es + [e])
  {
  }

  // MAIN RESULT. However the pipelines alternate, two attempts on the same ticker are always more than
  // the cooldown apart.
  lemma {:induction false} AttemptsAreSpaced(first: int, es: seq<Event>)
    requires ClockRuns(first, es) && OnlyClearedCommit(es)
    ensures Logged(es, After(es, false), EndOf(first, es)) && Spaced(es)
  {
    if es != [] {
      var n := |es| - 1;
      var rest, e := es[..n], es[n];
      ClockRan(first, es);
      OnlyClearedCommitted(es);
      AttemptsAreSpaced(first, rest);
      PruningIsInvisible(first, rest);
      EventSpaced(rest, After(rest, false), EndOf(first, rest), e);
      assert es == rest + [e];
    }
  }

  // The last attempt on a ticker is what the full history remembers.
  lemma {:induction false} HistoryHasAttempts(es: seq<Event>, t: string)
    ensures t in After(es, false).attempts <==>
              exists k :: 0 <= k < |es| && es[k].Commit? && es[k].ticker == t
    ensures t in After(es, false).attempts ==>
              exists k :: 0 <= k < |es| && es[k].Commit? && es[k].ticker == t
                          && es[k].now == After(es, false).attempts[t]
  {
    if es != [] {
      var n := |es| - 1;
      HistoryHasAttempts(es[..n], t);
      assert forall k :: 0 <= k < n ==> es[..n][k] == es[k];
      if es[n].Commit? && es[n].ticker == t {
        assert es[n].now == After(es, false).attempts[t];
      } else if t in After(es[..n], false).attempts {
        var k :| 0 <= k < n && es[..n][k].Commit? && es[..n][k].ticker == t
                 && es[..n][k].now == After(es[..n], false).attempts[t];
        assert es[k].Commit? && es[k].ticker == t && es[k].now == After(es, false).attempts[t];
      }
    }
  }

  // With a clock that never runs back, the last attempt is the latest.
  lemma {:induction false} NoAttemptIsLater(first: int, es: seq<Event>)
    requires ClockRuns(first, es)
    ensures forall k :: 0 <= k < |es| && es[k].Commit? ==>
              && es[k].ticker in After(es, false).attempts
              && es[k].now <= After(es, false).attempts[es[k].ticker] <= EndOf(first, es)
  {
    if es != [] {
      var n := |es| - 1;
      ClockRan(first, es);
      NoAttemptIsLater(first, es[..n]);
      var before, full := After(es[..n], false).attempts, After(es, false).attempts;
      forall k | 0 <= k < |es| && es[k].Commit?
        ensures es[k].ticker in full && es[k].now <= full[es[k].ticker] <= EndOf(first, es)
      {
        if k < n {
          assert es[..n][k] == es[k];
        }
      }
    }
  }

  // MAIN RESULT. Whatever happened before, and pruned or not, a ticker is let through exactly when no position is
  // held and every attempt on it so far is more than half an hour old.
  lemma LetThroughIff(first: int, es: seq<Event>, t: string, now: int, holding: bool)
    requires ClockRuns(first, es) && EndOf(first, es) <= now
    ensures Goes(After(es, true).attempts, t, now, holding) <==>
              !holding && forall k :: 0 <= k < |es| && es[k].Commit? && es[k].ticker == t ==> now > es[k].now + 1800
  {
    PruningIsInvisible(first, es);
    HistoryHasAttempts(es, t);
    NoAttemptIsLater(first, es);
  }
}
