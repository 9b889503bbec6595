/**
 * Follow-ups of leads, and the due time that each lead keeps of its next one. Two operations compute
 * that time afresh and one maintains it incrementally. All three go by the text of the due times: these
 * lemmas say exactly when what they keep is the earliest pending due time.
 */
module FollowUps {
  import opened Common
  import opened LeadFacts
  import opened LeadModel
  import opened DueTimes

  datatype FollowUp = FollowUp(organizationId: Id, leadId: Id, employeeId: Id, dueAt: Stamp, pending: bool,
                               version: nat)

  type Book = map<Id, FollowUp>

  /** A lead with the due time that it keeps of its next follow-up. */
  datatype Entry = Entry(lead: Lead, nextDue: Option<Stamp>)

  /** A follow-up entered on the device. */
  datatype MobileFollowUp = MobileFollowUp(dueAt: Stamp, reminderAt: Option<Stamp>)

  datatype MobileReceipt = MobileReceipt(fingerprint: Id, leadId: Id, version: nat)

  datatype Outcome = Done(version: nat, replayed: bool) | Missing | Conflict | BadRequest | ConsentRequired

  const WINDOW_AHEAD: Time := 5 * 60 * 1000
  const WINDOW_BEHIND: Time := 7 * 24 * 60 * 60 * 1000

  /**
   * The place of a text in the order of `localeCompare`. Texts of due times are bounded in length, so they
   * can be numbered in that order.
   */
  type Collation = Stamp -> int

  /** Digits sort as digits: among canonical texts a collation and the order of code units agree. */
  ghost predicate SortsDigits(rank: Collation) {
    forall a, b {:trigger rank(a), rank(b)} :: Canonical(a) && Canonical(b) ==> (rank(a) < rank(b) <==> Before(a, b))
  }

  // ---------------------------------------------------------------- the simple definition

  predicate PendingOf(f: FollowUp, o: Id, l: Id) {
    f.organizationId == o && f.leadId == l && f.pending
  }

  predicate PendingAt(b: Book, o: Id, l: Id, k: Id) {
    k in b && PendingOf(b[k], o, l)
  }

  /** No pending follow-up of the lead is due before the time `t`. */
  ghost predicate NoneEarlier(b: Book, o: Id, l: Id, t: Stamp) {
    forall k {:trigger PendingAt(b, o, l, k)} :: PendingAt(b, o, l, k) ==> Instant(t) <= Instant(b[k].dueAt)
  }

  ghost predicate IsPendingDue(b: Book, o: Id, l: Id, t: Stamp) {
    exists k {:trigger PendingAt(b, o, l, k)} :: PendingAt(b, o, l, k) && b[k].dueAt == t
  }

  /** `due` is the earliest due time of the pending follow-ups, and missing if there are none. */
  ghost predicate IsNextDue(b: Book, o: Id, l: Id, due: Option<Stamp>) {
    match due
    case None => forall k {:trigger PendingAt(b, o, l, k)} :: !PendingAt(b, o, l, k)
    case Some(t) => IsPendingDue(b, o, l, t) && NoneEarlier(b, o, l, t)
  }

  /** The definition fixes the instant, and whether there is one. */
  lemma NextDueUnique(b: Book, o: Id, l: Id, s: Option<Stamp>, t: Option<Stamp>)
    requires IsNextDue(b, o, l, s) && IsNextDue(b, o, l, t)
    ensures s.Some? <==> t.Some?
    ensures s.Some? ==> Instant(s.value) == Instant(t.value)
  {
    if s.Some? {
      var k :| PendingAt(b, o, l, k) && b[k].dueAt == s.value;
    }
    if t.Some? {
      var k :| PendingAt(b, o, l, k) && b[k].dueAt == t.value;
    }
  }

  // ---------------------------------------------------------------- what the recomputing operations pick

  predicate SortsFirst(rank: Collation, b: Book, j: Id, k: Id)
    requires j in b && k in b
  {
    rank(b[j].dueAt) < rank(b[k].dueAt) || (rank(b[j].dueAt) == rank(b[k].dueAt) && j <= k)
  }

  /** Follow-up `k` is the first pending one of the lead, by the text of the due time and then by identifier. */
  ghost predicate FirstByText(rank: Collation, b: Book, o: Id, l: Id, k: Id) {
    PendingAt(b, o, l, k) &&
    forall j {:trigger PendingAt(b, o, l, j)} :: PendingAt(b, o, l, j) ==> SortsFirst(rank, b, k, j)
  }

  ghost predicate PickedByText(rank: Collation, b: Book, o: Id, l: Id, due: Option<Stamp>) {
    match due
    case None => forall k {:trigger PendingAt(b, o, l, k)} :: !PendingAt(b, o, l, k)
    case Some(t) => exists k {:trigger FirstByText(rank, b, o, l, k)} ::
      FirstByText(rank, b, o, l, k) && b[k].dueAt == t
  }

  /**
   * The due time of a pending follow-up of the lead, such that those of all the others sort after it, or sort equal
   * and have greater identifiers; none if the lead has no pending follow-up.
   */
  ghost predicate NextByText(rank: Collation, b: Book, o: Id, l: Id, due: Option<Stamp>) {
    match due
    case None =>
      forall k {:trigger b[k]} :: k in b ==> !(b[k].pending && b[k].organizationId == o && b[k].leadId == l)
    case Some(t) =>
      exists k {:trigger b[k]} ::
        k in b && b[k].pending && b[k].organizationId == o && b[k].leadId == l && b[k].dueAt == t &&
        forall j {:trigger b[j]} :: j in b && b[j].pending && b[j].organizationId == o && b[j].leadId == l ==>
          rank(t) < rank(b[j].dueAt) || (rank(t) == rank(b[j].dueAt) && k <= j)
  }

  lemma PickedIsNextByText(rank: Collation, b: Book, o: Id, l: Id, due: Option<Stamp>)
    requires PickedByText(rank, b, o, l, due)
    ensures NextByText(rank, b, o, l, due)
  {
    match due
    case None =>
      forall k | k in b ensures !(b[k].pending && b[k].organizationId == o && b[k].leadId == l) {
        assert !PendingAt(b, o, l, k);
      }
    case Some(t) =>
      var k :| FirstByText(rank, b, o, l, k) && b[k].dueAt == t;
      forall j | j in b && b[j].pending && b[j].organizationId == o && b[j].leadId == l
        ensures SortsFirst(rank, b, k, j)
      {
        assert PendingAt(b, o, l, j);
      }
  }

  /** No pending follow-up is due before the one whose due time sorts first. */
  ghost predicate FirstIsEarliest(rank: Collation, b: Book, o: Id, l: Id) {
    forall j, k {:trigger FirstByText(rank, b, o, l, k), PendingAt(b, o, l, j)} ::
      FirstByText(rank, b, o, l, k) && PendingAt(b, o, l, j) ==> Instant(b[k].dueAt) <= Instant(b[j].dueAt)
  }

  /** Text order and time order agree on the pending due times of the lead. */
  ghost predicate OrdersAgree(rank: Collation, b: Book, o: Id, l: Id) {
    forall j, k {:trigger PendingAt(b, o, l, j), PendingAt(b, o, l, k)} ::
      PendingAt(b, o, l, j) && PendingAt(b, o, l, k) && rank(b[j].dueAt) <= rank(b[k].dueAt) ==>
        Instant(b[j].dueAt) <= Instant(b[k].dueAt)
  }

  /** What is picked is the earliest due time if and only if no pending one is earlier than the textually first. */
  lemma PickedIsNext(rank: Collation, b: Book, o: Id, l: Id, due: Option<Stamp>)
    requires PickedByText(rank, b, o, l, due)
    ensures IsNextDue(b, o, l, due) <==> FirstIsEarliest(rank, b, o, l)
    ensures OrdersAgree(rank, b, o, l) ==> IsNextDue(b, o, l, due)
  {
    if due.Some? {
      var k :| FirstByText(rank, b, o, l, k) && b[k].dueAt == due.value;
      forall i | FirstByText(rank, b, o, l, i) ensures i == k {
        assert SortsFirst(rank, b, i, k) && SortsFirst(rank, b, k, i);
      }
    }
  }

  // ---------------------------------------------------------------- what the incremental operation keeps

  /** The new text replaces the stored one if that is missing or comes later in code-unit order. */
  predicate Replaces(stored: Option<Stamp>, t: Stamp) {
    stored.None? || Before(t, stored.value)
  }

  function Kept(stored: Option<Stamp>, t: Stamp): Option<Stamp> {
    if Replaces(stored, t) then Some(t) else stored
  }

  /**
   * Something to check before the update: a new time that replaces the stored one must not be later than any
   * pending one; otherwise the stored one must be right and not later than the new one, or be the new one.
   */
  ghost predicate KeptRight(b: Book, o: Id, l: Id, stored: Option<Stamp>, t: Stamp) {
    if Replaces(stored, t) then NoneEarlier(b, o, l, t)
    else
      || (stored == Some(t) && NoneEarlier(b, o, l, t))
      || (IsNextDue(b, o, l, stored) && Instant(stored.value) <= Instant(t))
  }

  lemma PendingAfter(b: Book, id: Id, f: FollowUp, o: Id, l: Id)
    requires id !in b && PendingOf(f, o, l)
    ensures forall k {:trigger PendingAt(b[id := f], o, l, k)} {:trigger PendingAt(b, o, l, k)} ::
              (PendingAt(b[id := f], o, l, k) <==> k == id || PendingAt(b, o, l, k)) &&
              (PendingAt(b, o, l, k) ==> b[id := f][k] == b[k])
  {
  }

  /** The time that an update keeps is right exactly under that condition, whatever was stored before. */
  lemma KeptIsNext(b: Book, o: Id, l: Id, stored: Option<Stamp>, id: Id, f: FollowUp)
    requires id !in b && PendingOf(f, o, l)
    ensures IsNextDue(b[id := f], o, l, Kept(stored, f.dueAt)) <==> KeptRight(b, o, l, stored, f.dueAt)
  {
    hide Before, Instant;
    var more := b[id := f];
    PendingAfter(b, id, f, o, l);
    assert PendingAt(more, o, l, id) && more[id] == f;
    var kept := Kept(stored, f.dueAt).value;
    assert NoneEarlier(more, o, l, kept) <==> NoneEarlier(b, o, l, kept) && Instant(kept) <= Instant(f.dueAt);
    assert IsPendingDue(more, o, l, kept) <==> kept == f.dueAt || IsPendingDue(b, o, l, kept) by {
      if k: Id :| PendingAt(b, o, l, k) && b[k].dueAt == kept {
        assert PendingAt(more, o, l, k);
      }
      if k: Id :| PendingAt(more, o, l, k) && more[k].dueAt == kept {
        assert k == id || PendingAt(b, o, l, k);
      }
    }
  }

  /** All pending due times of the lead, and the one kept, are canonical. */
  ghost predicate CanonicalDues(b: Book, o: Id, l: Id, stored: Option<Stamp>) {
    && (stored.Some? ==> Canonical(stored.value))
    && forall k {:trigger PendingAt(b, o, l, k)} :: PendingAt(b, o, l, k) ==> Canonical(b[k].dueAt)
  }

  /**
   * Among canonical texts the condition is one on the texts: with `least` the right time before the update,
   * the lead is right afterwards if it was right, or if the new time is first of all and replaces the stored one.
   */
  lemma CanonicalRepair(b: Book, o: Id, l: Id, stored: Option<Stamp>, least: Option<Stamp>, t: Stamp)
    requires CanonicalDues(b, o, l, stored) && Canonical(t) && IsNextDue(b, o, l, least)
    ensures KeptRight(b, o, l, stored, t) <==>
              stored == least ||
              ((least.None? || !Before(least.value, t)) && (stored.None? || !Before(stored.value, t)))
  {
    hide Before, Instant, Canonical;
    if least.Some? {
      var k :| PendingAt(b, o, l, k) && b[k].dueAt == least.value;
      CanonicalOrder(least.value, t);
      CanonicalOrder(t, least.value);
      if stored.Some? {
        CanonicalOrder(stored.value, least.value);
      }
    }
    if stored.Some? {
      CanonicalOrder(stored.value, t);
      CanonicalOrder(t, stored.value);
      if IsNextDue(b, o, l, stored) {
        NextDueUnique(b, o, l, stored, least);
      }
    }
  }

  /** Canonical due times are picked rightly: their text order is their time order. */
  lemma CanonicalAgree(rank: Collation, b: Book, o: Id, l: Id, stored: Option<Stamp>)
    requires SortsDigits(rank) && CanonicalDues(b, o, l, stored)
    ensures OrdersAgree(rank, b, o, l)
  {
    hide Before, Instant, Canonical;
    forall j: Id, k: Id | PendingAt(b, o, l, j) && PendingAt(b, o, l, k) && rank(b[j].dueAt) <= rank(b[k].dueAt)
      ensures Instant(b[j].dueAt) <= Instant(b[k].dueAt)
    {
      CanonicalOrder(b[k].dueAt, b[j].dueAt);
    }
  }

  // ---------------------------------------------------------------- where it goes wrong

  /**
   * A right time can turn wrong: the device enters a due time whose offset makes it earlier than its text looks,
   * and the lead keeps the later one. Computing the time afresh picks the same wrong one.
   */
  lemma OffsetMisleadsUpdate(o: Id, l: Id, employee: Id, rank: Collation)
    requires rank(ELEVEN_UTC) < rank(NOON_WITH_OFFSET)
    ensures var b := map[1 := FollowUp(o, l, employee, ELEVEN_UTC, true, 1)];
            var after := b[2 := FollowUp(o, l, employee, NOON_WITH_OFFSET, true, 1)];
            IsNextDue(b, o, l, Some(ELEVEN_UTC)) && Kept(Some(ELEVEN_UTC), NOON_WITH_OFFSET) == Some(ELEVEN_UTC) &&
            !IsNextDue(after, o, l, Some(ELEVEN_UTC)) && PickedByText(rank, after, o, l, Some(ELEVEN_UTC))
  {
    OffsetsMislead();
    OneComesFirstOnly();
    hide Before, Instant;
    var b: Book := map[1 := FollowUp(o, l, employee, ELEVEN_UTC, true, 1)];
    var after: Book := b[2 := FollowUp(o, l, employee, NOON_WITH_OFFSET, true, 1)];
    assert PendingAt(b, o, l, 1) && PendingAt(after, o, l, 1) && PendingAt(after, o, l, 2);
    assert FirstByText(rank, after, o, l, 1);
  }

  lemma OneComesFirstOnly()
    ensures !Before(NOON_WITH_OFFSET, ELEVEN_UTC)
  {
    OffsetsMislead();
    NotBoth(ELEVEN_UTC, NOON_WITH_OFFSET);
  }

  lemma {:induction false} NotBoth(a: Stamp, b: Stamp)
    requires Before(a, b)
    ensures !Before(b, a)
  {
    if a == "" || a[0] != b[0] {
    } else {
      NotBoth(a[1..], b[1..]);
    }
  }

  /**
   * A lead that is seeded with a due time and has no follow-up is wrong. A follow-up from the device puts it
   * right if and only if its due time is the seeded one or comes before it as text.
   */
  lemma SeededLeadExactly(stale: Stamp, o: Id, l: Id, id: Id, f: FollowUp)
    requires PendingOf(f, o, l)
    ensures !IsNextDue(map[], o, l, Some(stale))
    ensures IsNextDue(map[id := f], o, l, Kept(Some(stale), f.dueAt)) <==> f.dueAt == stale || Before(f.dueAt, stale)
  {
    hide Before, Instant;
    var none: Book := map[];
    KeptIsNext(none, o, l, Some(stale), id, f);
    assert none[id := f] == map[id := f];
  }

  // ---------------------------------------------------------------- many leads

  /** The stored time of one lead is right. */
  ghost predicate Agrees(leads: map<Id, Entry>, b: Book, l: Id)
    requires l in leads
  {
    IsNextDue(b, leads[l].lead.organizationId, l, leads[l].nextDue)
  }

  ghost predicate OthersAgreeAsBefore(leads: map<Id, Entry>, b: Book, wasLeads: map<Id, Entry>, was: Book, l: Id)
    requires leads.Keys == wasLeads.Keys
  {
    forall m: Id {:trigger Agrees(leads, b, m)} ::
      m in leads && m != l ==> (Agrees(leads, b, m) <==> Agrees(wasLeads, was, m))
  }

  /** All due times are canonical, and every lead keeps its earliest one. */
  ghost predicate Sound(leads: map<Id, Entry>, b: Book) {
    && (forall l: Id {:trigger Agrees(leads, b, l)} :: l in leads ==> Agrees(leads, b, l))
    && (forall k: Id {:trigger Canonical(b[k].dueAt)} :: k in b ==> Canonical(b[k].dueAt))
  }

  /** Every follow-up belongs to a lead of its own organization. */
  ghost predicate Rooted(leads: map<Id, Entry>, b: Book) {
    forall k {:trigger b[k]} :: k in b ==>
      b[k].leadId in leads && leads[b[k].leadId].lead.organizationId == b[k].organizationId
  }

  /** Follow-ups of other leads do not matter. */
  lemma OtherLeadsFollowUp(was: Book, o: Id, l: Id, due: Option<Stamp>, id: Id, f: FollowUp)
    requires f.leadId != l && (id in was ==> was[id].leadId != l)
    ensures IsNextDue(was[id := f], o, l, due) <==> IsNextDue(was, o, l, due)
  {
    hide Instant;
    var now := was[id := f];
    assert forall k {:trigger PendingAt(now, o, l, k)} {:trigger PendingAt(was, o, l, k)} ::
        PendingAt(now, o, l, k) <==> PendingAt(was, o, l, k);
    assert forall k {:trigger now[k]} {:trigger was[k]} :: k in was && k != id ==> now[k] == was[k];
  }

  /** Storing a follow-up of lead `l` and its entry leaves every other lead as right or wrong as it was. */
  lemma OneLeadChanged(leads: map<Id, Entry>, b: Book, l: Id, entry: Entry, id: Id, f: FollowUp)
    requires l in leads && f.leadId == l && (id in b ==> b[id].leadId == l)
    ensures OthersAgreeAsBefore(leads[l := entry], b[id := f], leads, b, l)
  {
    var now := leads[l := entry];
    forall m: Id {:trigger Agrees(now, b[id := f], m)} | m in now && m != l
      ensures Agrees(now, b[id := f], m) <==> Agrees(leads, b, m)
    {
      OtherLeadsFollowUp(b, leads[m].lead.organizationId, m, leads[m].nextDue, id, f);
    }
  }

  lemma EntryChanged(leads: map<Id, Entry>, b: Book, l: Id, entry: Entry)
    requires l in leads
    ensures OthersAgreeAsBefore(leads[l := entry], b, leads, b, l)
  {
    hide IsNextDue;
  }

  /** With canonical due times, keeping the lead concerned right keeps the whole book sound. */
  lemma StaysSound(leads: map<Id, Entry>, b: Book, wasLeads: map<Id, Entry>, was: Book, l: Id)
    requires Sound(wasLeads, was) && leads.Keys == wasLeads.Keys && l in leads
    requires OthersAgreeAsBefore(leads, b, wasLeads, was, l) && Agrees(leads, b, l)
    requires forall k: Id {:trigger b[k]} :: k in b ==> Canonical(b[k].dueAt)
    ensures Sound(leads, b)
  {
    hide IsNextDue, Canonical;
    forall m: Id | m in leads ensures Agrees(leads, b, m) {
      assert m != l ==> Agrees(wasLeads, was, m);
    }
  }

  /** In a book of canonical due times the first by text is the earliest. */
  lemma CanonicalFirstIsEarliest(rank: Collation, b: Book, o: Id, l: Id)
    requires SortsDigits(rank) && forall k: Id {:trigger b[k]} :: k in b ==> Canonical(b[k].dueAt)
    ensures FirstIsEarliest(rank, b, o, l)
  {
    hide Canonical, Instant, Before;
    CanonicalAgree(rank, b, o, l, None);
    hide SortsDigits;
    assert OrdersAgree(rank, b, o, l);
    forall j: Id, k: Id | FirstByText(rank, b, o, l, k) && PendingAt(b, o, l, j)
      ensures Instant(b[k].dueAt) <= Instant(b[j].dueAt)
    {
      assert SortsFirst(rank, b, k, j);
    }
  }

  /** With canonical due times a right stored time stays right. */
  lemma CanonicalKept(b: Book, o: Id, l: Id, stored: Option<Stamp>, t: Stamp)
    requires IsNextDue(b, o, l, stored) && Canonical(t)
    requires forall k: Id {:trigger b[k]} :: k in b ==> Canonical(b[k].dueAt)
    ensures KeptRight(b, o, l, stored, t)
  {
    hide Before, Instant, Canonical;
    if stored.Some? {
      var k :| PendingAt(b, o, l, k) && b[k].dueAt == stored.value;
      assert Canonical(stored.value);
    }
    CanonicalRepair(b, o, l, stored, stored, t);
  }

  class FollowUpBook {
    const rank: Collation
    var desk: Desk
    var leads: map<Id, Entry>
    var followUps: Book
    var receipts: map<(Id, Id, Id), MobileReceipt>

    ghost predicate Valid()
      reads this
    {
      Rooted(leads, followUps)
    }

    /** A book without seeded leads. */
    constructor (d: Desk, collation: Collation)
      ensures Valid() && Sound(leads, followUps)
      ensures desk == d && rank == collation && leads == map[] && followUps == map[] && receipts == map[]
    {
      rank, desk, leads, followUps, receipts := collation, d, map[], map[], map[];
    }

    /** A new lead has no follow-ups and no due time. */
    method AddLead(id: Id, lead: Lead)
      requires Valid() && id !in leads
      modifies this`leads
      ensures Valid() && leads == old(leads)[id := Entry(lead, None)]
      ensures Sound(old(leads), followUps) ==> Sound(leads, followUps)
    {
      leads := leads[id := Entry(lead, None)];
      forall l: Id | l in leads && Sound(old(leads), followUps) ensures Agrees(leads, followUps, l) {
        if l != id {
          assert Agrees(old(leads), followUps, l);
        }
      }
    }

    /** The due time of the lead's first pending follow-up, by the order of the texts and then of the identifiers. */
    method NextDue(o: Id, leadId: Id) returns (due: Option<Stamp>)
      ensures PickedByText(rank, followUps, o, leadId, due)
      ensures NextByText(rank, followUps, o, leadId, due)
      ensures IsNextDue(followUps, o, leadId, due) <==> FirstIsEarliest(rank, followUps, o, leadId)
    {
      hide IsNextDue, FirstIsEarliest, OrdersAgree, NextByText;
      var first: Option<Id> := None;
      var todo := followUps.Keys;
      while todo != {}
        invariant todo <= followUps.Keys
        invariant first.Some? ==> PendingAt(followUps, o, leadId, first.value)
        invariant forall j {:trigger PendingAt(followUps, o, leadId, j)} ::
            PendingAt(followUps, o, leadId, j) && j !in todo ==>
              first.Some? && SortsFirst(rank, followUps, first.value, j)
        decreases todo
      {
        var k: Id :| k in todo;
        var f := followUps[k];
        if f.organizationId == o && f.leadId == leadId && f.pending {
          if first.None? || SortsFirst(rank, followUps, k, first.value) {
            first := Some(k);
          }
        }
        todo := todo - {k};
      }
      due := if first.Some? then Some(followUps[first.value].dueAt) else None;
      if first.Some? {
        assert FirstByText(rank, followUps, o, leadId, first.value);
      }
      PickedIsNext(rank, followUps, o, leadId, due);
      PickedIsNextByText(rank, followUps, o, leadId, due);
    }

    /**
     * Schedules a follow-up. Whatever was stored before, the lead's due time is the textually first one afterwards,
     * and right exactly if no pending one is earlier.
     */
    method CreateLeadFollowUp(o: Id, scope: Scope, leadId: Id, employeeId: Id, dueAt: Stamp, newId: Id)
      returns (outcome: Outcome)
      requires Valid() && newId !in followUps
      modifies this`leads, this`followUps
      ensures Valid()
      ensures outcome.Missing? || (outcome.Done? && !outcome.replayed)
      ensures outcome.Done? <==>
                leadId in old(leads) && old(leads)[leadId].lead.organizationId == o &&
                LeadReached(desk, scope, old(leads)[leadId].lead) && MayBeGiven(desk, o, scope, Some(employeeId))
      ensures outcome.Missing? ==> leads == old(leads) && followUps == old(followUps)
      ensures outcome.Done? ==>
        followUps == old(followUps)[newId := FollowUp(o, leadId, employeeId, dueAt, true, 1)] &&
        outcome.version == old(leads)[leadId].lead.version + 1 && leadId in leads &&
        leads == old(leads)[leadId :=
          Entry(old(leads)[leadId].lead.(version := outcome.version), leads[leadId].nextDue)] &&
        NextByText(rank, followUps, o, leadId, leads[leadId].nextDue) &&
        (Agrees(leads, followUps, leadId) <==> FirstIsEarliest(rank, followUps, o, leadId)) &&
        OthersAgreeAsBefore(leads, followUps, old(leads), old(followUps), leadId)
      ensures Sound(old(leads), old(followUps)) && Canonical(dueAt) && SortsDigits(rank) ==> Sound(leads, followUps)
    {
      hide Canonical, IsNextDue, FirstIsEarliest, SortsDigits, NextByText, LeadReached, MayBeGiven, CanAccessLead,
        MayOwn;
      OwnIsGiven(desk, o, scope, employeeId);
      if leadId in leads {
        LeadReachedIsAccess(desk, scope, leads[leadId].lead);
      }
      if leadId !in leads || leads[leadId].lead.organizationId != o ||
         !CanAccessLead(desk, scope, leads[leadId].lead) ||
         !MayOwn(desk, o, scope, employeeId) {
        return Missing;
      }
      var f := FollowUp(o, leadId, employeeId, dueAt, true, 1);
      followUps := followUps[newId := f];
      var due := NextDue(o, leadId);
      assert PendingAt(followUps, o, leadId, newId);
      var entry := leads[leadId];
      if due.Some? {
        entry := entry.(nextDue := due);
      }
      entry := entry.(lead := entry.lead.(version := entry.lead.version + 1));
      OneLeadChanged(leads, old(followUps), leadId, entry, newId, f);
      leads := leads[leadId := entry];
      if Sound(old(leads), old(followUps)) && Canonical(dueAt) && SortsDigits(rank) {
        CanonicalFirstIsEarliest(rank, followUps, o, leadId);
        StaysSound(leads, followUps, old(leads), old(followUps), leadId);
      }
      return Done(entry.lead.version, false);
    }

    /**
     * Completes a pending follow-up. Whatever was stored before, the lead's due time is the textually first of the
     * remaining ones afterwards, and right exactly if none of them is earlier.
     */
    method CompleteLeadFollowUp(o: Id, scope: Scope, followUpId: Id, expectedVersion: nat) returns (outcome: Outcome)
      requires Valid()
      modifies this`leads, this`followUps
      ensures Valid()
      ensures !outcome.Done? ==> leads == old(leads) && followUps == old(followUps)
      ensures outcome.Missing? <==>
                followUpId !in old(followUps) || old(followUps)[followUpId].organizationId != o ||
                !LeadReached(desk, scope, old(leads)[old(followUps)[followUpId].leadId].lead)
      ensures !outcome.Missing? ==>
        if old(followUps)[followUpId].version == expectedVersion && old(followUps)[followUpId].pending
        then outcome.Done? else outcome.Conflict?
      ensures outcome.Done? ==>
        var f := old(followUps)[followUpId];
        followUps == old(followUps)[followUpId := f.(pending := false, version := f.version + 1)] &&
        outcome.version == old(leads)[f.leadId].lead.version + 1 && !outcome.replayed && f.leadId in leads &&
        leads == old(leads)[f.leadId :=
          Entry(old(leads)[f.leadId].lead.(version := outcome.version), leads[f.leadId].nextDue)] &&
        NextByText(rank, followUps, o, f.leadId, leads[f.leadId].nextDue) &&
        (Agrees(leads, followUps, f.leadId) <==> FirstIsEarliest(rank, followUps, o, f.leadId)) &&
        OthersAgreeAsBefore(leads, followUps, old(leads), old(followUps), f.leadId)
      ensures Sound(old(leads), old(followUps)) && SortsDigits(rank) ==> Sound(leads, followUps)
    {
      hide Canonical, IsNextDue, FirstIsEarliest, SortsDigits, PickedByText, NextByText, LeadReached, CanAccessLead;
      if followUpId in followUps {
        LeadReachedIsAccess(desk, scope, leads[followUps[followUpId].leadId].lead);
      }
      if followUpId !in followUps || followUps[followUpId].organizationId != o {
        return Missing;
      }
      var f := followUps[followUpId];
      if f.leadId !in leads || !CanAccessLead(desk, scope, leads[f.leadId].lead) {
        return Missing;
      }
      if f.version != expectedVersion || !f.pending {
        return Conflict;
      }
      var g := f.(pending := false, version := f.version + 1);
      followUps := followUps[followUpId := g];
      var due := NextDue(o, f.leadId);
      var entry := leads[f.leadId];
      entry := entry.(nextDue := due, lead := entry.lead.(version := entry.lead.version + 1));
      OneLeadChanged(leads, old(followUps), f.leadId, entry, followUpId, g);
      leads := leads[f.leadId := entry];
      if Sound(old(leads), old(followUps)) && SortsDigits(rank) {
        assert Canonical(old(followUps)[followUpId].dueAt);
        CanonicalFirstIsEarliest(rank, followUps, o, f.leadId);
        StaysSound(leads, followUps, old(leads), old(followUps), f.leadId);
      }
      return Done(entry.lead.version, false);
    }

    /**
     * An update from the device, as far as it concerns follow-ups. The due time is compared with the stored one
     * only; afterwards the lead is right exactly under `KeptRight`, and sound books stay sound.
     */
    method ApplyMobileLeadUpdate(trusted: bool, o: Id, employeeId: Id, deviceId: Id, linked: bool, requestId: Id,
                                 fingerprint: Id, leadId: Id, expectedVersion: nat, occurredAt: Time,
                                 statusOk: bool, followUp: Option<MobileFollowUp>, newId: Id, at: Time)
      returns (outcome: Outcome)
      requires Valid() && newId !in followUps
      modifies this`leads, this`followUps, this`receipts
      ensures Valid()
      ensures outcome.ConsentRequired? <==> !trusted
      ensures trusted && (o, deviceId, requestId) in old(receipts) ==>
        var prior := old(receipts)[(o, deviceId, requestId)];
        outcome ==
          if prior.fingerprint == fingerprint && prior.leadId == leadId then Done(prior.version, true) else Conflict
      ensures trusted && (o, deviceId, requestId) !in old(receipts) ==>
        (outcome.Done? <==>
          occurredAt >= at - 604_800_000 && occurredAt <= at + 300_000 &&
          leadId in old(leads) && var lead := old(leads)[leadId].lead;
          lead.organizationId == o && !lead.archived && lead.owner == Some(employeeId) &&
          lead.version == expectedVersion && linked && statusOk &&
          (followUp.Some? && followUp.value.reminderAt.Some? ==>
            Instant(followUp.value.reminderAt.value) <= Instant(followUp.value.dueAt)))
      ensures !outcome.Done? || outcome.replayed ==>
        leads == old(leads) && followUps == old(followUps) && receipts == old(receipts)
      ensures outcome.Done? && !outcome.replayed ==>
        leadId in old(leads) && leadId in leads &&
        outcome.version == expectedVersion + 1 == old(leads)[leadId].lead.version + 1 &&
        receipts == old(receipts)[(o, deviceId, requestId) := MobileReceipt(fingerprint, leadId, outcome.version)] &&
        var was := old(leads)[leadId];
        followUps == (if followUp.None? then old(followUps) else
          old(followUps)[newId := FollowUp(o, leadId, employeeId, followUp.value.dueAt, true, 1)]) &&
        leads == old(leads)[leadId := Entry(was.lead.(version := outcome.version),
          if followUp.None? then was.nextDue else Kept(was.nextDue, followUp.value.dueAt))] &&
        (Agrees(leads, followUps, leadId) <==>
          if followUp.None? then Agrees(old(leads), old(followUps), leadId)
          else KeptRight(old(followUps), o, leadId, was.nextDue, followUp.value.dueAt)) &&
        OthersAgreeAsBefore(leads, followUps, old(leads), old(followUps), leadId)
      ensures Sound(old(leads), old(followUps)) && (followUp.Some? ==> Canonical(followUp.value.dueAt)) ==>
        Sound(leads, followUps)
    {
      hide Canonical, IsNextDue, Before, Instant, KeptRight;
      if !trusted {
        return ConsentRequired;
      }
      var key := (o, deviceId, requestId);
      if key in receipts {
        var prior := receipts[key];
        return
          if prior.fingerprint != fingerprint || prior.leadId != leadId then Conflict else Done(prior.version, true);
      }
      if occurredAt > at + WINDOW_AHEAD || occurredAt < at - WINDOW_BEHIND {
        return BadRequest;
      }
      if leadId !in leads || leads[leadId].lead.organizationId != o || leads[leadId].lead.archived ||
         leads[leadId].lead.owner != Some(employeeId) {
        return Missing;
      }
      if leads[leadId].lead.version != expectedVersion {
        return Conflict;
      }
      if !linked || !statusOk {
        return Missing;
      }
      if followUp.Some? && followUp.value.reminderAt.Some? &&
         Instant(followUp.value.reminderAt.value) > Instant(followUp.value.dueAt) {
        return BadRequest;
      }
      ghost var wasLeads, was := leads, followUps;
      var entry := leads[leadId];
      entry := entry.(lead := entry.lead.(version := entry.lead.version + 1));
      if followUp.Some? {
        var due := followUp.value.dueAt;
        var f := FollowUp(o, leadId, employeeId, due, true, 1);
        if entry.nextDue.None? || Before(due, entry.nextDue.value) {
          entry := entry.(nextDue := Some(due));
        }
        KeptIsNext(was, o, leadId, wasLeads[leadId].nextDue, newId, f);
        OneLeadChanged(leads, followUps, leadId, entry, newId, f);
        followUps := followUps[newId := f];
      } else {
        EntryChanged(leads, followUps, leadId, entry);
      }
      leads := leads[leadId := entry];
      receipts := receipts[key := MobileReceipt(fingerprint, leadId, entry.lead.version)];
      if Sound(wasLeads, was) && (followUp.Some? ==> Canonical(followUp.value.dueAt)) {
        assert Agrees(wasLeads, was, leadId);
        if followUp.Some? {
          CanonicalKept(was, o, leadId, wasLeads[leadId].nextDue, followUp.value.dueAt);
        }
        StaysSound(leads, followUps, wasLeads, was, leadId);
      }
      return Done(entry.lead.version, false);
    }
  }
}
