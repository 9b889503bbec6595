/**
 * Which leads a commit adds: one for each row that it imports, in the order of the rows, each the lead of its row.
 */
module LeadArrivals {
  import opened Common
  import opened LeadModel
  import opened LeadImport
  import opened LeadForesight
  import opened LeadFacts

  /**
   * The owner of an imported row's lead: somebody the caller may give it to, and either the proposed owner, or under
   * a rule an owner of that rule, which still fits.
   */
  ghost predicate ArrivesFor(d: Desk, o: Id, scope: Scope, row: Row, lead: Lead) {
    && MayBeGiven(d, o, scope, lead.owner)
    && (row.ruleId.None? ==> lead.owner == row.proposed)
    && (row.ruleId.Some? ==> exists rule {:trigger OwnerOfRule(rule, lead.owner)} ::
          rule in d.rules && rule.id == row.ruleId.value && OwnerOfRule(rule, lead.owner) &&
          RuleFits(d, o, scope, rule, row.team, lead.source, None, lead.statusId))
  }

  /** The lead is that of the row, cell by cell, and its owner is in order. */
  ghost predicate Arrives(d: Desk, o: Id, scope: Scope, row: Row, lead: Lead) {
    LeadOfRow(d, o, scope, row.input, lead.owner, lead) && ArrivesFor(d, o, scope, row, lead)
  }

  lemma FateRight(d: Desk, o: Id, scope: Scope, leads: seq<Lead>, cursors: map<Id, nat>, row: Row)
    ensures var fate := FateOf(d, o, scope, leads, cursors, row);
            && (fate.Duplicates? ==> HeldFirst(leads, o, row.team, row.input, Some(fate.holder)))
            && (!fate.Duplicates? ==> HeldFirst(leads, o, row.team, row.input, None))
            && (fate.Imports? ==> Arrives(d, o, scope, row, fate.lead))
  {
    HolderRight(leads, o, row);
    var fate := FateOf(d, o, scope, leads, cursors, row);
    if fate.Imports? {
      NewLeadRight(d, o, scope, row.input, fate.lead.owner);
      GivenIsAccepted(d, o, scope, fate.lead.owner);
      if row.ruleId.Some? {
        var rule := FindRule(d.rules, row.ruleId.value).value;
        FitsIsEligible(d, o, scope, rule, RowTraits(d, o, row.input, row.team));
        DueIsOwner(rule, CursorOf(cursors, rule.id));
      }
    }
    hide LeadOfRow, MayBeGiven, RuleFits, HeldFirst, OwnerAt, Accepts, Eligible, StatusFor, HolderFor, LandingTeam;
  }

  /** The leads added since, matched with the rows imported since. */
  ghost predicate Arrived(d: Desk, o: Id, scope: Scope, was: Batch, now: Batch, n: nat) {
    && n <= |was.rows| && |now.rows| == |was.rows|
    && var ks := Arrivals(was.rows, now.rows, n);
       && |now.leads| == |was.leads| + |ks| && now.leads[..|was.leads|] == was.leads
       && forall k {:trigger ks[k]} :: 0 <= k < |ks| ==>
            Arrives(d, o, scope, was.rows[ks[k]], now.leads[|was.leads| + k])
  }

  /** How many of the rows imported since carry the rule. */
  function ArrivedUnder(rows: seq<Row>, ks: seq<nat>, ruleId: Id): nat
    requires forall i :: 0 <= i < |ks| ==> ks[i] < |rows|
  {
    if ks == [] then 0
    else
      ArrivedUnder(rows, ks[..|ks| - 1], ruleId) + if rows[ks[|ks| - 1]].ruleId == Some(ruleId) then 1 else 0
  }

  /** The cursor of a round-robin rule moves by the rows imported under it; no other cursor moves. */
  ghost predicate CursorRight(was: Batch, now: Batch, n: nat, rule: Rule) {
    && n <= |was.rows| && |now.rows| == |was.rows|
    && CursorOf(now.cursors, rule.id) == CursorOf(was.cursors, rule.id) +
         if rule.strategy.RoundRobin? then ArrivedUnder(was.rows, Arrivals(was.rows, now.rows, n), rule.id) else 0
  }

  lemma OneMoreCursor(d: Desk, o: Id, scope: Scope, was: Batch, before: Batch, n: nat, rule: Rule)
    requires WellFormed(d) && rule in d.rules
    requires n < |was.rows| && CursorRight(was, before, n, rule)
    requires was.rows[n].decision == RowValid && before.rows[n] == was.rows[n]
    ensures CursorRight(was, CommitRow(d, o, scope, before, n), n + 1, rule)
  {
    FindsRule(d, rule);
    var now := CommitRow(d, o, scope, before, n);
    SameArrivals(was.rows, before.rows, now.rows, n);
    ImportedRule(d, o, scope, before.leads, before.cursors, was.rows[n]);
    var ks := Arrivals(was.rows, before.rows, n);
    var fate := FateOf(d, o, scope, before.leads, before.cursors, was.rows[n]);
    hide FateOf, WellFormed, FindRule;
    if fate.Imports? {
      assert Arrivals(was.rows, now.rows, n + 1) == ks + [n];
      assert (ks + [n])[..|ks|] == ks;
    } else {
      assert Arrivals(was.rows, now.rows, n + 1) == ks;
    }
  }

  lemma ImportedRule(d: Desk, o: Id, scope: Scope, leads: seq<Lead>, cursors: map<Id, nat>, row: Row)
    ensures var fate := FateOf(d, o, scope, leads, cursors, row);
            fate.Imports? ==>
              (fate.rule.Some? <==> row.ruleId.Some?) &&
              (fate.rule.Some? ==> fate.rule == FindRule(d.rules, row.ruleId.value) &&
                                   fate.rule.value.id == row.ruleId.value)
  {
  }

  lemma RowPassedOver(was: Batch, now: Batch, n: nat, rule: Rule)
    requires n < |was.rows| && was.rows[n].decision != RowValid
    requires CursorRight(was, now, n, rule)
    ensures CursorRight(was, now, n + 1, rule)
  {
    assert Arrivals(was.rows, now.rows, n + 1) == Arrivals(was.rows, now.rows, n);
  }

  lemma {:induction false} CursorsUpTo(d: Desk, o: Id, scope: Scope, b: Batch, n: nat, rule: Rule)
    requires WellFormed(d) && rule in d.rules && n <= |b.rows|
    ensures CursorRight(b, CommitUpTo(d, o, scope, b, n), n, rule)
  {
    hide CommitRow, WellFormed;
    if n == 0 {
    } else {
      CursorsUpTo(d, o, scope, b, n - 1, rule);
      LaterRowsWait(d, o, scope, b, n - 1);
      if b.rows[n - 1].decision == RowValid {
        OneMoreCursor(d, o, scope, b, CommitUpTo(d, o, scope, b, n - 1), n - 1, rule);
      } else {
        RowPassedOver(b, CommitUpTo(d, o, scope, b, n), n - 1, rule);
      }
    }
  }

  /** What one commit does to the cursor of a rule. */
  lemma {:induction false} BatchMoves(d: Desk, o: Id, scope: Scope, b: Batch, rule: Rule)
    requires WellFormed(d) && rule in d.rules
    ensures CursorRight(b, CommitBatch(d, o, scope, b), |b.rows|, rule)
  {
    var n := ListEnds(b.rows, BatchSize(b.rows));
    ListOrder(d, o, scope, b, n);
    CursorsUpTo(d, o, scope, b, n, rule);
    LaterRowsWait(d, o, scope, b, n);
    NoMoreArrivals(b.rows, CommitUpTo(d, o, scope, b, n).rows, n, |b.rows|);
    hide CommitRow, CommitUpTo, CommitTo, Pending, WellFormed;
  }

  lemma {:induction false} SameArrivals(was: seq<Row>, a: seq<Row>, b: seq<Row>, n: nat)
    requires n <= |was| && n <= |a| && n <= |b| && forall i :: 0 <= i < n ==> a[i] == b[i]
    ensures Arrivals(was, a, n) == Arrivals(was, b, n)
  {
    if n == 0 {
    } else {
      SameArrivals(was, a, b, n - 1);
    }
  }

  lemma {:induction false} LaterRowsWait(d: Desk, o: Id, scope: Scope, b: Batch, n: nat)
    requires n <= |b.rows|
    ensures forall j :: n <= j < |b.rows| ==> CommitUpTo(d, o, scope, b, n).rows[j] == b.rows[j]
  {
    if n == 0 {
    } else {
      hide FateOf;
      LaterRowsWait(d, o, scope, b, n - 1);
    }
  }

  /** One more row: it adds its own lead, or none. */
  lemma OneArrival(d: Desk, o: Id, scope: Scope, was: Batch, before: Batch, n: nat)
    requires n < |was.rows| && Arrived(d, o, scope, was, before, n)
    requires was.rows[n].decision == RowValid && before.rows[n] == was.rows[n]
    ensures Arrived(d, o, scope, was, CommitRow(d, o, scope, before, n), n + 1)
  {
    FateRight(d, o, scope, before.leads, before.cursors, was.rows[n]);
    hide FateOf, Arrives, HeldFirst;
    var now := CommitRow(d, o, scope, before, n);
    SameArrivals(was.rows, before.rows, now.rows, n);
  }

  lemma {:induction false} ArrivalsUpTo(d: Desk, o: Id, scope: Scope, b: Batch, n: nat)
    requires n <= |b.rows|
    ensures Arrived(d, o, scope, b, CommitUpTo(d, o, scope, b, n), n)
  {
    hide CommitRow, Arrives;
    if n == 0 {
    } else {
      ArrivalsUpTo(d, o, scope, b, n - 1);
      LaterRowsWait(d, o, scope, b, n - 1);
      if b.rows[n - 1].decision == RowValid {
        OneArrival(d, o, scope, b, CommitUpTo(d, o, scope, b, n - 1), n - 1);
      }
    }
  }

  /** Rows that are not touched bring no leads. */
  lemma {:induction false} NoMoreArrivals(was: seq<Row>, now: seq<Row>, n: nat, m: nat)
    requires n <= m <= |was| && m <= |now| && forall i :: n <= i < m ==> now[i] == was[i]
    ensures Arrivals(was, now, m) == Arrivals(was, now, n)
  {
    if m == n {
    } else {
      NoMoreArrivals(was, now, n, m - 1);
    }
  }

  /** Where the first `c` rows of the list end. */
  lemma {:induction false} ListEnds(rows: seq<Row>, c: nat) returns (n: nat)
    requires c <= |Pending(rows, |rows|)|
    ensures n <= |rows| && |Pending(rows, n)| == c
  {
    if c == |Pending(rows, |rows|)| {
      n := |rows|;
    } else {
      n := Pending(rows, |rows|)[c];
      PlaceOf(rows, c);
    }
  }

  /** What one commit adds to the leads. */
  lemma {:induction false} BatchArrives(d: Desk, o: Id, scope: Scope, b: Batch)
    ensures Arrived(d, o, scope, b, CommitBatch(d, o, scope, b), |b.rows|)
  {
    var n := ListEnds(b.rows, BatchSize(b.rows));
    ListOrder(d, o, scope, b, n);
    ArrivalsUpTo(d, o, scope, b, n);
    LaterRowsWait(d, o, scope, b, n);
    NoMoreArrivals(b.rows, CommitUpTo(d, o, scope, b, n).rows, n, |b.rows|);
    hide CommitRow, Arrives, CommitUpTo, CommitTo, Pending;
  }
}
