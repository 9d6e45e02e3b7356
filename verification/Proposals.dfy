/** Proposals awaiting human approval, decided by two clients (src/trader/live/proposals.py).
    Each call holds the store's lock, so calls interleave but do not overlap. */
module ProposalStores {
  import opened Common
  import opened Schemas

  datatype Status = Pending | Approved | Rejected | Executed | Expired

  const TTL_SECONDS: int := 1800
  const RETENTION_SECONDS: int := 3600

  datatype Entry = Entry(candidate: Candidate, created: int, status: Status, decided: Option<int>)

  // Ids are never reused; `next` is the first one not handed out yet.
  datatype Board = Board(entries: map<nat, Entry>, next: nat)

  predicate Stale(e: Entry, now: int) {
    !e.status.Pending? && now - (match e.decided case Some(t) => t case None => e.created) > RETENTION_SECONDS
  }

  predicate Late(e: Entry, now: int) {
    now - e.created > TTL_SECONDS
  }

  function Pruned(b: Board, now: int): Board {
    b.(entries := map id | id in b.entries && !Stale(b.entries[id], now) :: b.entries[id])
  }

  function Added(b: Board, c: Candidate, created: int, now: int): Board {
    var b' := Pruned(b, now);
    Board(b'.entries[b.next := Entry(c, created, Pending, None)], b.next + 1)
  }

  function Aged(e: Entry, now: int): Entry {
    if e.status.Pending? && Late(e, now) then e.(status := Expired) else e
  }

  // Listing expires pending entries past their time to live.
  function Listed(b: Board, now: int, pruneNow: int): Board {
    var b' := Pruned(b, pruneNow);
    b'.(entries := map id | id in b'.entries :: Aged(b'.entries[id], now))
  }

  predicate Decidable(b: Board, id: nat) {
    id in b.entries && b.entries[id].status.Pending?
  }

  predicate Approvable(b: Board, id: nat, now: int) {
    Decidable(b, id) && !Late(b.entries[id], now)
  }

  function ApprovedBoard(b: Board, id: nat, now: int, decidedAt: int): Board {
    if !Decidable(b, id) then b
    else if Late(b.entries[id], now) then b.(entries := b.entries[id := b.entries[id].(status := Expired)])
    else b.(entries := b.entries[id := b.entries[id].(status := Approved, decided := Some(decidedAt))])
  }

  function RejectedBoard(b: Board, id: nat, now: int): Board {
    if !Decidable(b, id) then b
    else b.(entries := b.entries[id := b.entries[id].(status := Rejected, decided := Some(now))])
  }

  function ExecutedBoard(b: Board, id: nat): Board {
    if id !in b.entries then b
    else b.(entries := b.entries[id := b.entries[id].(status := Executed)])
  }

  // ----- the store and its mutable proposals -----

  class Proposal {
    const id: nat
    const candidate: Candidate
    const createdAt: int
    var status: Status
    var decidedAt: Option<int>

    constructor (id: nat, candidate: Candidate, createdAt: int)
      ensures this.id == id && View() == Entry(candidate, createdAt, Pending, None)
    {
      this.id, this.candidate, this.createdAt := id, candidate, createdAt;
      status, decidedAt := Pending, None;
    }

    ghost function View(): Entry
      reads this
    {
      Entry(candidate, createdAt, status, decidedAt)
    }

    method ExpireIfLate(now: int) returns (pending: bool)
      modifies this
      ensures View() == Aged(old(View()), now)
      ensures pending == status.Pending?
    {
      if status.Pending? && now - createdAt > TTL_SECONDS {
        status := Expired;
      }
      pending := status.Pending?;
    }
  }

  class ProposalStore {
    var proposals: map<nat, Proposal>
    var next: nat

    ghost predicate Valid()
      reads this, proposals.Values
    {
      forall id :: id in proposals ==> proposals[id].id == id
    }

    ghost function State(): Board
      reads this, proposals.Values
    {
      Board(map id | id in proposals :: proposals[id].View(), next)
    }

    lemma StateIs(b: Board)
      requires proposals.Keys == b.entries.Keys && next == b.next
      requires forall id :: id in proposals ==> proposals[id].View() == b.entries[id]
      ensures State() == b
    {
      assert State().entries == b.entries;
    }

    constructor ()
      ensures Valid() && State() == Board(map[], 0)
    {
      proposals, next := map[], 0;
    }

    method Prune(now: int)
      requires Valid()
      modifies this`proposals
      ensures Valid() && proposals.Values <= old(proposals.Values)
      ensures State() == Pruned(old(State()), now)
    {
      ghost var b := State();
      proposals := map id | id in proposals &&
          !(proposals[id].status != Pending &&
            now - (match proposals[id].decidedAt case Some(t) => t case None => proposals[id].createdAt)
            > RETENTION_SECONDS)
        :: proposals[id];
      StateIs(Pruned(b, now));
    }

    method Add(c: Candidate, created: int, now: int) returns (p: Proposal)
      requires Valid()
      modifies this
      ensures Valid() && fresh(p) && p.id == old(next) && p.id in proposals && proposals[p.id] == p
      ensures State() == Added(old(State()), c, created, now)
    {
      p := new Proposal(next, c, created);
      Prune(now);
      ghost var b := State();
      proposals := proposals[next := p];
      next := next + 1;
      StateIs(Board(b.entries[p.id := p.View()], b.next + 1));
    }

    // Approve at most once, and only within the time to live.
    method Approve(id: nat, now: int, decidedAt: int) returns (p: Proposal?)
      requires Valid()
      modifies this, proposals.Values
      ensures Valid()
      ensures State() == ApprovedBoard(old(State()), id, now, decidedAt)
      ensures p != null <==> old(Approvable(State(), id, now))
      ensures p != null ==> id in proposals && p == proposals[id]
    {
      ghost var b := State();
      if id !in proposals || proposals[id].status != Pending {
        return null;
      }
      p := proposals[id];
      if now - p.createdAt > TTL_SECONDS {
        p.status := Expired;
        StateIs(b.(entries := b.entries[id := p.View()]));
        return null;
      }
      p.status := Approved;
      p.decidedAt := Some(decidedAt);
      StateIs(b.(entries := b.entries[id := p.View()]));
    }

    method Reject(id: nat, now: int) returns (p: Proposal?)
      requires Valid()
      modifies this, proposals.Values
      ensures Valid()
      ensures State() == RejectedBoard(old(State()), id, now)
      ensures p != null <==> old(Decidable(State(), id))
    {
      ghost var b := State();
      if id !in proposals || proposals[id].status != Pending {
        return null;
      }
      p := proposals[id];
      p.status := Rejected;
      p.decidedAt := Some(now);
      StateIs(b.(entries := b.entries[id := p.View()]));
    }

    method MarkExecuted(id: nat)
      requires Valid()
      modifies this, proposals.Values
      ensures Valid()
      ensures State() == ExecutedBoard(old(State()), id)
    {
      ghost var b := State();
      if id in proposals {
        var p := proposals[id];
        p.status := Executed;
        StateIs(b.(entries := b.entries[id := p.View()]));
      }
    }

    // The ids still pending within their time to live; later ones expire on the way.
    method ListPending(now: int, pruneNow: int) returns (out: set<nat>)
      requires Valid()
      modifies this, proposals.Values
      ensures Valid()
      ensures State() == Listed(old(State()), now, pruneNow)
      ensures forall id :: id in out <==> Decidable(State(), id)
    {
      Prune(pruneNow);
      out := ExpireLate(now);
    }

    // Expire what is late and collect what is still pending.
    method ExpireLate(now: int) returns (out: set<nat>)
      requires Valid()
      modifies proposals.Values
      ensures Valid() && forall id :: id in out <==> Decidable(State(), id)
      ensures State().next == old(State()).next && State().entries.Keys == old(State()).entries.Keys
      ensures forall id :: id in proposals ==> State().entries[id] == Aged(old(State()).entries[id], now)
    {
      ghost var b, kept := State(), proposals;
      out := {};
      var todo := proposals.Keys;
      while todo != {}
        invariant proposals == kept && next == b.next && todo <= kept.Keys && Valid()
        invariant forall id :: id in todo ==> kept[id].View() == b.entries[id]
        invariant forall id :: id in kept && id !in todo ==> kept[id].View() == Aged(b.entries[id], now)
        invariant forall id :: id in out <==> id in kept && id !in todo && Aged(b.entries[id], now).status.Pending?
      {
        var id :| id in todo;
        label L:
        var pending := proposals[id].ExpireIfLate(now);
        if pending {
          out := out + {id};
        }
        forall k | k in kept && k != id
          ensures kept[k].View() == old@L(kept[k].View())
        {
          assert kept[k].id == k != kept[id].id;
        }
        todo := todo - {id};
      }
    }
  }

  // ----- every interleaving of the two clients -----

  datatype Call =
    | AddCall(candidate: Candidate, created: int, now: int)
    | ListCall(now: int, pruneNow: int)
    | ApproveCall(id: nat, now: int, decidedAt: int)
    | RejectCall(id: nat, now: int)
    | ExecutedCall(id: nat)

  function After(b: Board, c: Call): Board {
    match c
    case AddCall(candidate, created, now) => Added(b, candidate, created, now)
    case ListCall(now, pruneNow) => Listed(b, now, pruneNow)
    case ApproveCall(id, now, decidedAt) => ApprovedBoard(b, id, now, decidedAt)
    case RejectCall(id, now) => RejectedBoard(b, id, now)
    case ExecutedCall(id) => ExecutedBoard(b, id)
  }

  function Run(b: Board, calls: seq<Call>): Board
    decreases |calls|
  {
    if calls == [] then b else Run(After(b, calls[0]), calls[1..])
  }

  // The call makes the decision on this proposal: an approve or reject that returns it.
  predicate Decides(b: Board, c: Call, id: nat) {
    || (c.ApproveCall? && c.id == id && Approvable(b, id, c.now))
    || (c.RejectCall? && c.id == id && Decidable(b, id))
  }

  function Decisions(b: Board, calls: seq<Call>, id: nat): nat
    decreases |calls|
  {
    if calls == [] then 0
    else (if Decides(b, calls[0], id) then 1 else 0) + Decisions(After(b, calls[0]), calls[1..], id)
  }

  function Approvals(b: Board, calls: seq<Call>, id: nat): nat
    decreases |calls|
  {
    if calls == [] then 0
    else (if calls[0].ApproveCall? && Decides(b, calls[0], id) then 1 else 0)
         + Approvals(After(b, calls[0]), calls[1..], id)
  }

  ghost predicate BoardOk(b: Board) {
    forall id :: id in b.entries ==> id < b.next
  }

  // The id was handed out and is no longer open: decided, expired, or pruned away.
  predicate Closed(b: Board, id: nat) {
    id < b.next && !Decidable(b, id)
  }

  // Half an hour to decide on a proposal.
  predicate InTime(e: Entry, now: int) {
    now <= e.created + 1800
  }

  // Approving decides a pending proposal in time and expires a late one, rejecting decides one at any time, and
  // marking it executed follows whatever its status; nothing else about it changes, and no other proposal does.
  lemma CallOutcome(b: Board, c: Call, id: nat)
    requires id in b.entries && (c.ApproveCall? || c.RejectCall? || c.ExecutedCall?)
    ensures var e, b' := b.entries[id], After(b, c);
            && b'.entries.Keys == b.entries.Keys && b'.next == b.next
            && b'.entries[id] == if c.id != id then e
                 else if c.ExecutedCall? then e.(status := Executed)
                 else if e.status != Pending then e
                 else if c.RejectCall? then e.(status := Rejected, decided := Some(c.now))
                 else if InTime(e, c.now) then e.(status := Approved, decided := Some(c.decidedAt))
                 else e.(status := Expired)
    ensures Decides(b, c, id) <==>
              c.id == id && b.entries[id].status == Pending
              && (c.RejectCall? || (c.ApproveCall? && InTime(b.entries[id], c.now)))
  {
  }

  // A listing shows what is pending and in time, expires what is late, and forgets what was closed more than an
  // hour ago; adding one forgets the same.
  lemma ListOutcome(b: Board, c: Call, id: nat)
    requires BoardOk(b) && (c.ListCall? || c.AddCall?) && id in b.entries
    ensures var e, b' := b.entries[id], After(b, c);
            var since := if e.decided.Some? then e.decided.value else e.created;
            var at := if c.ListCall? then c.pruneNow else c.now;
            && (id in b'.entries <==> e.status == Pending || at <= since + 3600)
            && (id in b'.entries ==>
                  b'.entries[id] ==
                  if c.ListCall? && e.status == Pending && !InTime(e, c.now) then e.(status := Expired) else e)
            && (c.ListCall? ==> (Decidable(b', id) <==> e.status == Pending && InTime(e, c.now)))
  {
  }

  // A proposal added is pending under an id that was never used, and nothing else is new.
  lemma AddOutcome(b: Board, candidate: Candidate, created: int, now: int)
    requires BoardOk(b)
    ensures var b' := After(b, AddCall(candidate, created, now));
            && b.next !in b.entries && b'.next == b.next + 1 && b.next in b'.entries
            && b'.entries[b.next] == Entry(candidate, created, Pending, None)
            && forall id :: id in b'.entries && id != b.next ==> id in b.entries
  {
  }

  lemma StepFacts(b: Board, c: Call, id: nat)
    requires BoardOk(b)
    ensures BoardOk(After(b, c)) && b.next <= After(b, c).next
    ensures Closed(b, id) ==> Closed(After(b, c), id) && !Decides(b, c, id)
    ensures Decides(b, c, id) ==> Closed(After(b, c), id)
    ensures Decidable(b, id) ==>
              && id in After(b, c).entries
              && After(b, c).entries[id].created == b.entries[id].created
  {
  }

  lemma {:induction false} ClosedStaysClosed(b: Board, calls: seq<Call>, id: nat)
    requires BoardOk(b) && Closed(b, id)
    ensures Closed(Run(b, calls), id) && Decisions(b, calls, id) == 0 && Approvals(b, calls, id) == 0
    decreases |calls|
  {
    if calls != [] {
      StepFacts(b, calls[0], id);
      ClosedStaysClosed(After(b, calls[0]), calls[1..], id);
    }
  }

  // MAIN RESULT. Over any interleaving of adds, lists, approvals, rejections and executions, approve
  // and reject together return a given proposal at most once.
  lemma {:induction false} AtMostOneDecision(b: Board, calls: seq<Call>, id: nat)
    requires BoardOk(b)
    ensures Approvals(b, calls, id) <= Decisions(b, calls, id) <= 1
    decreases |calls|
  {
    if calls != [] {
      StepFacts(b, calls[0], id);
      if Decides(b, calls[0], id) {
        ClosedStaysClosed(After(b, calls[0]), calls[1..], id);
      } else {
        AtMostOneDecision(After(b, calls[0]), calls[1..], id);
      }
    }
  }

  // A pending proposal is never pruned, keeps its creation time until it is decided, and once it is
  // not pending (or was pruned) it never is again.
  lemma {:induction false} PendingOnlyOnce(b: Board, calls: seq<Call>, more: seq<Call>, id: nat)
    requires BoardOk(b) && Decidable(b, id)
    ensures Decidable(Run(b, calls), id) ==> Run(b, calls).entries[id].created == b.entries[id].created
    ensures !Decidable(Run(b, calls), id) ==> !Decidable(Run(Run(b, calls), more), id)
    decreases |calls|
  {
    if calls != [] {
      StepFacts(b, calls[0], id);
      var b' := After(b, calls[0]);
      if Decidable(b', id) {
        PendingOnlyOnce(b', calls[1..], more, id);
      } else {
        ClosedStaysClosed(b', calls[1..], id);
        RunKeepsOk(b', calls[1..]);
        ClosedStaysClosed(Run(b', calls[1..]), more, id);
      }
    }
  }

  lemma {:induction false} RunKeepsOk(b: Board, calls: seq<Call>)
    requires BoardOk(b)
    ensures BoardOk(Run(b, calls))
    decreases |calls|
  {
    if calls != [] {
      StepFacts(b, calls[0], 0);
      RunKeepsOk(After(b, calls[0]), calls[1..]);
    }
  }

  // ----- executing what was approved -----

  // A client runs the order only for an approval that returned the proposal, once for each; `running` are
  // those it has not run yet, `executed` what was run, in order.
  datatype Desk = Desk(board: Board, running: multiset<nat>, executed: seq<nat>)

  // Execute stands for running one order and then, unless that raised, marking the proposal.
  datatype Act =
    | Ask(call: Call)
    | Execute(id: nat, raised: bool)

  predicate Possible(d: Desk, a: Act) {
    match a
    case Ask(call) => !call.ExecutedCall?
    case Execute(id, _) => id in d.running
  }

  function Acted(d: Desk, a: Act): Desk {
    match a
    case Ask(call) =>
      var won := call.ApproveCall? && Decides(d.board, call, call.id);
      Desk(After(d.board, call), if won then d.running + multiset{call.id} else d.running, d.executed)
    case Execute(id, raised) =>
      Desk(if raised then d.board else ExecutedBoard(d.board, id), d.running - multiset{id}, d.executed + [id])
  }

  ghost predicate Protocol(d: Desk, acts: seq<Act>)
    decreases |acts|
  {
    acts == [] || (Possible(d, acts[0]) && Protocol(Acted(d, acts[0]), acts[1..]))
  }

  function ActedAll(d: Desk, acts: seq<Act>): Desk
    decreases |acts|
  {
    if acts == [] then d else ActedAll(Acted(d, acts[0]), acts[1..])
  }

  // Each proposal is run or waiting to be run at most once, and only after it was closed.
  ghost predicate OncePerProposal(d: Desk) {
    && BoardOk(d.board)
    && forall id: nat ::
         d.running[id] + multiset(d.executed)[id] <= (if Closed(d.board, id) then 1 else 0)
  }

  lemma ActKeepsOnce(d: Desk, a: Act)
    requires OncePerProposal(d) && Possible(d, a)
    ensures OncePerProposal(Acted(d, a))
  {
    var d' := Acted(d, a);
    forall id: nat
      ensures d'.running[id] + multiset(d'.executed)[id] <= (if Closed(d'.board, id) then 1 else 0)
    {
      assert d.running[id] + multiset(d.executed)[id] <= (if Closed(d.board, id) then 1 else 0);
      if a.Ask? {
        StepFacts(d.board, a.call, id);
      } else {
        StepFacts(d.board, ExecutedCall(a.id), id);
        assert multiset(d.executed + [a.id]) == multiset(d.executed) + multiset{a.id};
      }
    }
    if a.Ask? {
      StepFacts(d.board, a.call, 0);
    }
  }

  // MAIN RESULT. However the two clients interleave, each proposal is executed at most once.
  lemma {:induction false} ExecutedAtMostOnce(d: Desk, acts: seq<Act>, id: nat)
    requires OncePerProposal(d) && Protocol(d, acts)
    ensures OncePerProposal(ActedAll(d, acts)) && multiset(ActedAll(d, acts).executed)[id] <= 1
    decreases |acts|
  {
    if acts == [] {
      assert d.running[id] + multiset(d.executed)[id] <= (if Closed(d.board, id) then 1 else 0);
    } else {
      ActKeepsOnce(d, acts[0]);
      ExecutedAtMostOnce(Acted(d, acts[0]), acts[1..], id);
    }
  }

  // ----- in time -----

  // An approval that succeeds comes no later than the time to live after the proposal was created.
  lemma {:induction false} ApprovedInTime(b: Board, calls: seq<Call>, id: nat, now: int, decidedAt: int)
    requires BoardOk(b) && Decidable(b, id)
    ensures Decides(Run(b, calls), ApproveCall(id, now, decidedAt), id) ==>
              now <= b.entries[id].created + 1800
    ensures Decidable(Run(b, calls), id) && now > b.entries[id].created + 1800 ==>
              After(Run(b, calls), ApproveCall(id, now, decidedAt)).entries[id].status.Expired?
  {
    PendingOnlyOnce(b, calls, [], id);
  }
}
