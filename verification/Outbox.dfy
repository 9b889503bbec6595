/**
 * The outbox of events to deliver. Workers claim events under a lease and mark them delivered; any
 * number of workers run at once, each statement being atomic and skipping rows locked by others.
 */
module Outbox {
  import opened Common

  datatype Event = Event(
    organizationId: Id, availableAt: Time, lockedAt: Option<Time>, lockedBy: Option<Id>,
    attempts: nat, deliveredAt: Option<Time>)

  type Table = map<Id, Event>

  /** The row may be claimed: undelivered, due, and not under a lease that still runs. */
  predicate Claimable(e: Event, o: Id, at: Time, leaseSeconds: nat) {
    e.organizationId == o && e.deliveredAt.None? && e.availableAt <= at &&
    (e.lockedAt.None? || e.lockedAt.value < at - leaseSeconds * 1000)
  }

  predicate Markable(e: Event, o: Id, worker: Id) {
    e.organizationId == o && e.lockedBy == Some(worker) && e.deliveredAt.None?
  }

  function Lock(e: Event, worker: Id, at: Time): Event {
    e.(lockedAt := Some(at), lockedBy := Some(worker), attempts := e.attempts + 1)
  }

  function Deliver(e: Event, at: Time): Event {
    e.(deliveredAt := Some(at), lockedAt := None, lockedBy := None)
  }

  function Locked(m: Table, chosen: set<Id>, worker: Id, at: Time): Table {
    map id | id in m :: if id in chosen then Lock(m[id], worker, at) else m[id]
  }

  // ---------------------------------------------------------------- statements

  /** `Claim` locks a set of rows; `Mark` tries to mark one; `Enqueue` adds one. */
  datatype Statement =
    | Claim(organizationId: Id, worker: Id, at: Time, claimed: set<Id>)
    | Mark(organizationId: Id, worker: Id, at: Time, eventId: Id)
    | Enqueue(organizationId: Id, availableAt: Time, at: Time, eventId: Id)

  /**
   * What a statement may do. A claim takes any claimable rows: which ones depends on the limit and on the
   * rows that other transactions hold at that moment.
   */
  ghost predicate Possible(m: Table, s: Statement, leaseSeconds: nat) {
    match s
    case Claim(o, _, at, claimed) => forall id :: id in claimed ==> id in m && Claimable(m[id], o, at, leaseSeconds)
    case Mark(_, _, _, _) => true
    case Enqueue(_, _, _, id) => id !in m
  }

  predicate Marks(m: Table, s: Statement, id: Id) {
    s.Mark? && s.eventId == id && id in m && Markable(m[id], s.organizationId, s.worker)
  }

  predicate Claims(s: Statement, id: Id) {
    s.Claim? && id in s.claimed
  }

  function Execute(m: Table, s: Statement): Table {
    match s
    case Claim(_, worker, at, claimed) => Locked(m, claimed, worker, at)
    case Mark(_, _, at, id) => if Marks(m, s, id) then m[id := Deliver(m[id], at)] else m
    case Enqueue(o, available, _, id) => m[id := Event(o, available, None, None, 0, None)]
  }

  function TableAfter(run: seq<Statement>, n: nat): Table
    requires n <= |run|
  {
    if n == 0 then map[] else Execute(TableAfter(run, n - 1), run[n - 1])
  }

  ghost predicate PossibleAt(run: seq<Statement>, i: nat, leaseSeconds: nat)
    requires i < |run|
  {
    Possible(TableAfter(run, i), run[i], leaseSeconds)
  }

  predicate InOrder(run: seq<Statement>, i: nat, j: nat)
    requires i <= j < |run|
  {
    run[i].at <= run[j].at
  }

  /** A run from an empty outbox, under one lease time, on clocks that do not go back. */
  ghost predicate Runs(run: seq<Statement>, leaseSeconds: nat) {
    && (forall i: nat {:trigger PossibleAt(run, i, leaseSeconds)} :: i < |run| ==> PossibleAt(run, i, leaseSeconds))
    && (forall i: nat, j: nat {:trigger InOrder(run, i, j)} :: i <= j < |run| ==> InOrder(run, i, j))
  }

  /** What one statement does to one row. */
  lemma RowStep(m: Table, s: Statement, leaseSeconds: nat, id: Id)
    requires Possible(m, s, leaseSeconds)
    ensures var t := Execute(m, s);
            if Claims(s, id) then
              id in m && id in t && t[id] == Lock(m[id], s.worker, s.at) &&
                Claimable(m[id], s.organizationId, s.at, leaseSeconds)
            else if Marks(m, s, id) then id in t && t[id] == Deliver(m[id], s.at)
            else if id in m then id in t && t[id] == m[id]
            else
              id in t ==>
                t[id].lockedAt.None? && t[id].lockedBy.None? && t[id].attempts == 0 && t[id].deliveredAt.None?
  {
  }

  // ---------------------------------------------------------------- the history of one event

  /** The last claim of the event among the first `n` statements. */
  function LastClaim(run: seq<Statement>, id: Id, n: nat): (last: Option<nat>)
    requires n <= |run|
    ensures last.Some? ==> last.value < n && Claims(run[last.value], id)
    ensures last.Some? ==> forall i :: last.value < i < n ==> !Claims(run[i], id)
    ensures last.None? ==> forall i :: 0 <= i < n ==> !Claims(run[i], id)
  {
    if n == 0 then None else if Claims(run[n - 1], id) then Some(n - 1) else LastClaim(run, id, n - 1)
  }

  function ClaimCount(run: seq<Statement>, id: Id, n: nat): nat
    requires n <= |run|
  {
    if n == 0 then 0 else ClaimCount(run, id, n - 1) + if Claims(run[n - 1], id) then 1 else 0
  }

  /** What the row says is what happened: who claimed it last, when, and how often. */
  ghost predicate Tells(run: seq<Statement>, id: Id, n: nat)
    requires n <= |run|
  {
    var m, last := TableAfter(run, n), LastClaim(run, id, n);
    if id !in m then last.None? && ClaimCount(run, id, n) == 0
    else
      && m[id].attempts == ClaimCount(run, id, n)
      && (m[id].deliveredAt.None? && last.None? ==> m[id].lockedAt.None? && m[id].lockedBy.None?)
      && (m[id].deliveredAt.None? && last.Some? ==>
            m[id].lockedAt == Some(run[last.value].at) && m[id].lockedBy == Some(run[last.value].worker))
  }

  lemma {:induction false} RunTells(run: seq<Statement>, leaseSeconds: nat, id: Id, n: nat)
    requires Runs(run, leaseSeconds) && n <= |run|
    ensures Tells(run, id, n)
  {
    hide Execute, Claimable;
    if n == 0 {
    } else {
      RunTells(run, leaseSeconds, id, n - 1);
      assert PossibleAt(run, n - 1, leaseSeconds);
      RowStep(TableAfter(run, n - 1), run[n - 1], leaseSeconds, id);
    }
  }

  lemma {:induction false} StaysDelivered(run: seq<Statement>, leaseSeconds: nat, id: Id, m: nat, n: nat)
    requires Runs(run, leaseSeconds) && m <= n <= |run|
    requires id in TableAfter(run, m) && TableAfter(run, m)[id].deliveredAt.Some?
    ensures id in TableAfter(run, n) && TableAfter(run, n)[id].deliveredAt == TableAfter(run, m)[id].deliveredAt
  {
    hide Execute;
    if m < n {
      StaysDelivered(run, leaseSeconds, id, m, n - 1);
      assert PossibleAt(run, n - 1, leaseSeconds);
      RowStep(TableAfter(run, n - 1), run[n - 1], leaseSeconds, id);
    }
  }

  // ---------------------------------------------------------------- exclusive leases

  /** Two claims of one event are more than the lease time apart. */
  lemma {:induction false} ClaimsApart(run: seq<Statement>, leaseSeconds: nat, id: Id, i: nat, j: nat)
    requires Runs(run, leaseSeconds) && i < j < |run| && Claims(run[i], id) && Claims(run[j], id)
    ensures run[j].at - run[i].at > leaseSeconds * 1000
  {
    hide TableAfter, Execute;
    RunTells(run, leaseSeconds, id, j);
    assert PossibleAt(run, j, leaseSeconds);
    RowStep(TableAfter(run, j), run[j], leaseSeconds, id);
    assert InOrder(run, i, LastClaim(run, id, j).value);
  }

  /** Only the worker of the latest claim can mark an event delivered. */
  lemma {:induction false} OnlyLatestClaimerMarks(run: seq<Statement>, leaseSeconds: nat, id: Id, j: nat)
    requires Runs(run, leaseSeconds) && j < |run| && Marks(TableAfter(run, j), run[j], id)
    ensures LastClaim(run, id, j).Some? && run[LastClaim(run, id, j).value].worker == run[j].worker
  {
    RunTells(run, leaseSeconds, id, j);
  }

  /** Every event is marked delivered at most once, and never claimed afterwards. */
  lemma {:induction false} DeliveredOnce(run: seq<Statement>, leaseSeconds: nat, id: Id, i: nat, j: nat)
    requires Runs(run, leaseSeconds) && i < j < |run| && Marks(TableAfter(run, i), run[i], id)
    ensures !Marks(TableAfter(run, j), run[j], id) && !Claims(run[j], id)
  {
    hide Execute;
    assert PossibleAt(run, i, leaseSeconds) && PossibleAt(run, j, leaseSeconds);
    RowStep(TableAfter(run, i), run[i], leaseSeconds, id);
    StaysDelivered(run, leaseSeconds, id, i + 1, j);
    RowStep(TableAfter(run, j), run[j], leaseSeconds, id);
  }

  /** The latest claimer may mark the event however late, as long as nobody has claimed it since. */
  lemma {:induction false} LatestClaimerMayMark(run: seq<Statement>, leaseSeconds: nat, id: Id, i: nat, j: nat)
    requires Runs(run, leaseSeconds) && i < j < |run| && LastClaim(run, id, j) == Some(i)
    requires run[j].Mark? && run[j].eventId == id && run[j].worker == run[i].worker
    requires id in TableAfter(run, j) && TableAfter(run, j)[id].organizationId == run[j].organizationId
    requires forall k :: i < k < j ==> !Marks(TableAfter(run, k), run[k], id)
    ensures Marks(TableAfter(run, j), run[j], id)
  {
    RunTells(run, leaseSeconds, id, j);
    UndeliveredUntilMarked(run, leaseSeconds, id, i, j);
  }

  lemma {:induction false} UndeliveredUntilMarked(run: seq<Statement>, leaseSeconds: nat, id: Id, i: nat, j: nat)
    requires Runs(run, leaseSeconds) && i < j <= |run| && Claims(run[i], id)
    requires forall k :: i < k < j ==> !Marks(TableAfter(run, k), run[k], id)
    ensures id in TableAfter(run, j) && TableAfter(run, j)[id].deliveredAt.None?
  {
    hide Execute;
    assert PossibleAt(run, j - 1, leaseSeconds);
    RowStep(TableAfter(run, j - 1), run[j - 1], leaseSeconds, id);
    if i + 1 < j {
      UndeliveredUntilMarked(run, leaseSeconds, id, i, j - 1);
    }
  }

  // ---------------------------------------------------------------- when an event can be claimed

  predicate Enqueues(s: Statement, id: Id) {
    s.Enqueue? && s.eventId == id
  }

  predicate MarksAt(run: seq<Statement>, k: nat, id: Id)
    requires k < |run|
  {
    Marks(TableAfter(run, k), run[k], id)
  }

  /** A row exists once it was enqueued, keeps what it was enqueued with, and is undelivered until it is marked. */
  lemma {:induction false} RowOrigin(run: seq<Statement>, leaseSeconds: nat, id: Id, n: nat)
    requires Runs(run, leaseSeconds) && n <= |run|
    ensures var m := TableAfter(run, n);
            (id in m <==> exists i {:trigger run[i]} :: 0 <= i < n && Enqueues(run[i], id)) &&
            (forall i {:trigger run[i]} :: 0 <= i < n && Enqueues(run[i], id) ==>
              id in m && m[id].organizationId == run[i].organizationId && m[id].availableAt == run[i].availableAt) &&
            (id in m ==>
              (m[id].deliveredAt.None? <==>
                forall k: nat {:trigger MarksAt(run, k, id)} :: k < n ==> !MarksAt(run, k, id)))
    ensures forall k: nat {:trigger MarksAt(run, k, id)} :: k < n && MarksAt(run, k, id) ==> id in TableAfter(run, n)
  {
    if n == 0 {
    } else {
      RowOrigin(run, leaseSeconds, id, n - 1);
      assert PossibleAt(run, n - 1, leaseSeconds);
      RowStep(TableAfter(run, n - 1), run[n - 1], leaseSeconds, id);
      OriginStep(run, leaseSeconds, id, n);
    }
  }

  lemma OriginStep(run: seq<Statement>, leaseSeconds: nat, id: Id, n: nat)
    requires 0 < n <= |run| && PossibleAt(run, n - 1, leaseSeconds)
    ensures var (m, t, s) := (TableAfter(run, n - 1), TableAfter(run, n), run[n - 1]);
            (id in t <==> id in m || Enqueues(s, id)) && (Enqueues(s, id) ==> id !in m) &&
            (id in m ==>
              t[id].organizationId == m[id].organizationId && t[id].availableAt == m[id].availableAt &&
              (t[id].deliveredAt.None? <==> m[id].deliveredAt.None? && !MarksAt(run, n - 1, id))) &&
            (Enqueues(s, id) ==>
              t[id].organizationId == s.organizationId && t[id].availableAt == s.availableAt &&
              t[id].deliveredAt.None?) &&
            (MarksAt(run, n - 1, id) ==> id in m)
  {
  }

  /** The event waits: it was enqueued to be due by now, was never marked, and every lease on it has run out. */
  ghost predicate Waits(run: seq<Statement>, id: Id, n: nat, o: Id, at: Time, leaseSeconds: nat)
    requires n <= |run|
  {
    && (exists i {:trigger run[i]} :: 0 <= i < n && Enqueues(run[i], id) && run[i].organizationId == o &&
          run[i].availableAt <= at)
    && (forall k: nat {:trigger MarksAt(run, k, id)} :: k < n ==> !MarksAt(run, k, id))
    && (forall k {:trigger run[k]} :: 0 <= k < n && Claims(run[k], id) ==> run[k].at < at - leaseSeconds * 1000)
  }

  /** Over every run an event can be claimed exactly while it waits: not before it is due, and after every lease. */
  lemma {:induction false} ClaimableExactly(run: seq<Statement>, leaseSeconds: nat, id: Id, n: nat, o: Id, at: Time)
    requires Runs(run, leaseSeconds) && n <= |run|
    ensures (id in TableAfter(run, n) && Claimable(TableAfter(run, n)[id], o, at, leaseSeconds)) <==>
              Waits(run, id, n, o, at, leaseSeconds)
  {
    RowOrigin(run, leaseSeconds, id, n);
    RunTells(run, leaseSeconds, id, n);
    hide TableAfter, MarksAt;
    var last := LastClaim(run, id, n);
    forall k: nat | k < n && Claims(run[k], id) && last.Some? ensures run[k].at <= run[last.value].at {
      assert InOrder(run, k, last.value);
    }
  }

  // ---------------------------------------------------------------- the two statements, in place

  predicate Precedes(m: Table, a: Id, b: Id)
    requires a in m && b in m
  {
    m[a].availableAt < m[b].availableAt || (m[a].availableAt == m[b].availableAt && a <= b)
  }

  /** The rows open to a claim: claimable, and not held by another transaction. */
  function Open(m: Table, o: Id, at: Time, leaseSeconds: nat, held: set<Id>): set<Id> {
    set id | id in m && id !in held && Claimable(m[id], o, at, leaseSeconds)
  }

  /** Undelivered, due, and under no lease that still runs. */
  ghost predicate Untaken(e: Event, o: Id, at: Time, leaseSeconds: nat) {
    && e.organizationId == o && e.deliveredAt.None? && e.availableAt <= at
    && match e.lockedAt
       case None => true
       case Some(since) => since + leaseSeconds * 1000 < at
  }

  /**
   * At most `limit` rows are taken, all of them open; and as long as the limit is not reached none is left, nor ever
   * one that is due earlier, or as early with a lower identifier.
   */
  ghost predicate TakenFirst(m: Table, o: Id, at: Time, limit: nat, leaseSeconds: nat, held: set<Id>, taken: set<Id>) {
    && |taken| <= limit
    && (forall id {:trigger id in taken} :: id in taken ==>
          id in m && id !in held && Untaken(m[id], o, at, leaseSeconds))
    && forall id {:trigger m[id]} ::
         id in m && id !in held && id !in taken && Untaken(m[id], o, at, leaseSeconds) ==>
           |taken| == limit && forall c {:trigger c in taken} :: c in taken ==>
             m[c].availableAt < m[id].availableAt || (m[c].availableAt == m[id].availableAt && c <= id)
  }

  lemma FirstTaken(m: Table, o: Id, at: Time, limit: nat, leaseSeconds: nat, held: set<Id>, taken: set<Id>)
    requires var open := Open(m, o, at, leaseSeconds, held);
             taken <= open && |taken| == (if |open| < limit then |open| else limit) && Ahead(m, taken, open - taken)
    ensures TakenFirst(m, o, at, limit, leaseSeconds, held, taken)
  {
    var open := Open(m, o, at, leaseSeconds, held);
    MoreThan(open, taken, open - taken);
    forall id | id in m && id !in held && id !in taken && Untaken(m[id], o, at, leaseSeconds)
      ensures |taken| == limit
      ensures forall c {:trigger c in taken} :: c in taken ==> Precedes(m, c, id)
    {
      assert id in open - taken;
    }
  }

  method FirstOf(m: Table, ids: set<Id>) returns (first: Id)
    requires ids != {} && ids <= m.Keys
    ensures first in ids && forall id :: id in ids ==> Precedes(m, first, id)
  {
    first :| first in ids;
    var todo := ids - {first};
    while todo != {}
      invariant first in ids && todo <= ids
      invariant forall id :: id in ids && id !in todo ==> Precedes(m, first, id)
      decreases todo
    {
      var id: Id :| id in todo;
      if m[id].availableAt < m[first].availableAt || (m[id].availableAt == m[first].availableAt && id < first) {
        first := id;
      }
      todo := todo - {id};
    }
  }

  ghost predicate Ahead(m: Table, taken: set<Id>, rest: set<Id>)
    requires taken <= m.Keys && rest <= m.Keys
  {
    forall a, b :: a in taken && b in rest ==> Precedes(m, a, b)
  }

  lemma {:induction false} OneMoreAhead(m: Table, taken: set<Id>, rest: set<Id>, first: Id)
    requires taken <= m.Keys && rest <= m.Keys && first in rest && Ahead(m, taken, rest)
    requires forall id :: id in rest ==> Precedes(m, first, id)
    ensures Ahead(m, taken + {first}, rest - {first})
  {
  }

  /** The first `limit` of the rows, by time and identifier. */
  method TakeFirst(m: Table, open: set<Id>, limit: nat) returns (taken: set<Id>)
    requires open <= m.Keys
    ensures taken <= open && |taken| == if |open| < limit then |open| else limit
    ensures Ahead(m, taken, open - taken)
  {
    taken := {};
    var rest := open;
    while rest != {} && |taken| < limit
      invariant rest <= open && taken == open - rest && |taken| <= limit && Ahead(m, taken, rest)
      decreases rest
    {
      var first := FirstOf(m, rest);
      OneMoreAhead(m, taken, rest, first);
      assert open - (rest - {first}) == taken + {first};
      taken, rest := taken + {first}, rest - {first};
    }
    assert open - taken == rest;
    MoreThan(open, taken, rest);
  }

  class OutboxTable {
    var rows: Table

    /** Claims the first open rows by time and identifier, at most `limit` of them. */
    method ClaimOutboxEvents(o: Id, worker: Id, at: Time, limit: nat, leaseSeconds: nat, held: set<Id>)
      returns (claimed: set<Id>)
      modifies this
      ensures var open := Open(old(rows), o, at, leaseSeconds, held);
              claimed <= open && |claimed| == (if |open| < limit then |open| else limit) &&
              Ahead(old(rows), claimed, open - claimed)
      ensures Possible(old(rows), Claim(o, worker, at, claimed), leaseSeconds)
      ensures rows == Execute(old(rows), Claim(o, worker, at, claimed))
      ensures rows.Keys == old(rows).Keys
      ensures forall id {:trigger old(rows)[id]} {:trigger rows[id]} :: id in old(rows) ==>
        var e := old(rows)[id];
        rows[id] == if id in claimed
          then Event(e.organizationId, e.availableAt, Some(at), Some(worker), e.attempts + 1, e.deliveredAt) else e
      ensures TakenFirst(old(rows), o, at, limit, leaseSeconds, held, claimed)
    {
      claimed := TakeFirst(rows, Open(rows, o, at, leaseSeconds, held), limit);
      FirstTaken(rows, o, at, limit, leaseSeconds, held, claimed);
      hide TakenFirst, Ahead, Open;
      rows := map id | id in rows ::
        if id in claimed then rows[id].(lockedAt := Some(at), lockedBy := Some(worker),
                                        attempts := rows[id].attempts + 1)
        else rows[id];
    }

    /** Marks an event delivered for the worker that holds it. */
    method MarkOutboxDelivered(o: Id, eventId: Id, worker: Id, at: Time) returns (marked: bool)
      modifies this
      ensures marked == Marks(old(rows), Mark(o, worker, at, eventId), eventId)
      ensures rows == Execute(old(rows), Mark(o, worker, at, eventId))
      ensures marked <==>
                eventId in old(rows) && old(rows)[eventId].organizationId == o &&
                old(rows)[eventId].lockedBy == Some(worker) && old(rows)[eventId].deliveredAt.None?
      ensures marked ==>
        var e := old(rows)[eventId];
        rows == old(rows)[eventId := Event(o, e.availableAt, None, None, e.attempts, Some(at))]
    {
      if eventId !in rows || rows[eventId].organizationId != o || rows[eventId].lockedBy != Some(worker) ||
         rows[eventId].deliveredAt.Some? {
        return false;
      }
      rows := rows[eventId := rows[eventId].(deliveredAt := Some(at), lockedAt := None, lockedBy := None)];
      return true;
    }
  }

  lemma {:induction false} MoreThan(all: set<Id>, a: set<Id>, b: set<Id>)
    requires a !! b && a + b == all
    ensures |all| == |a| + |b|
  {
    assert (a + b) - a == b;
  }
}
