/**
 * When a preview predicts its commit. Commit decides duplicates, rules and turns again for every
 * row; these lemmas say exactly when it comes to what the preview proposed.
 */
module LeadForesight {
  import opened Common
  import opened LeadModel
  import opened LeadFacts
  import opened LeadImport
  import opened LeadProgress

  /** The leads that the preview proposes for the valid rows among the first `n`. */
  function ProposedLeads(d: Desk, o: Id, scope: Scope, rows: seq<Row>, n: nat): seq<Lead>
    requires n <= |rows|
  {
    if n == 0 then []
    else
      var row := rows[n - 1];
      ProposedLeads(d, o, scope, rows, n - 1) +
      if row.decision == RowValid && row.input.phone.Some? && StatusFor(d, o, row.input.statusName).Some?
      then [NewLead(d, o, scope, row.input, row.proposed)] else []
  }

  /** Once imported, the lead of row `earlier` stands in the way of row `later`. */
  predicate StandsInWay(d: Desk, o: Id, scope: Scope, earlier: Row, later: Row) {
    earlier.decision == RowValid && later.team.Some? && LandingTeam(d, o, scope, earlier.proposed) == later.team &&
    PhonesOf(earlier.input) * PhonesOf(later.input) != {}
  }

  /**
   * A caller can test this on the preview: the proposed owner is acceptable to lead creation, and no
   * lead of an earlier valid row will land in the row's team with one of its phones.
   */
  ghost predicate GoesThrough(d: Desk, o: Id, scope: Scope, rows: seq<Row>, i: nat)
    requires i < |rows|
  {
    Accepts(d, o, scope, rows[i].proposed) &&
    forall j {:trigger rows[j]} :: 0 <= j < i ==> !StandsInWay(d, o, scope, rows[j], rows[i])
  }

  ghost predicate AllGoThrough(d: Desk, o: Id, scope: Scope, rows: seq<Row>, n: nat)
    requires n <= |rows|
  {
    forall i: nat {:trigger GoesThrough(d, o, scope, rows, i)} ::
      i < n && rows[i].decision == RowValid ==> GoesThrough(d, o, scope, rows, i)
  }

  // ---------------------------------------------------------------- row by row

  /** Committing the valid rows among the first `n`, in order. */
  function CommitUpTo(d: Desk, o: Id, scope: Scope, b: Batch, n: nat): (r: Batch)
    requires n <= |b.rows|
    ensures |r.rows| == |b.rows|
  {
    if n == 0 then b
    else
      var before := CommitUpTo(d, o, scope, b, n - 1);
      if b.rows[n - 1].decision == RowValid then CommitRow(d, o, scope, before, n - 1) else before
  }

  lemma OneMoreCommitted(d: Desk, o: Id, scope: Scope, b: Batch, ks: seq<nat>, c: nat)
    requires c < |ks| && forall i :: 0 <= i < |ks| ==> ks[i] < |b.rows|
    ensures CommitTo(d, o, scope, b, ks, c + 1) == CommitRow(d, o, scope, CommitTo(d, o, scope, b, ks, c), ks[c])
  {
  }

  lemma {:induction false} ListOrder(d: Desk, o: Id, scope: Scope, b: Batch, n: nat)
    requires n <= |b.rows|
    ensures |Pending(b.rows, n)| <= |Pending(b.rows, |b.rows|)|
    ensures CommitTo(d, o, scope, b, Pending(b.rows, |b.rows|), |Pending(b.rows, n)|) == CommitUpTo(d, o, scope, b, n)
  {
    hide CommitRow;
    if n == 0 {
    } else {
      ListOrder(d, o, scope, b, n - 1);
      var ks, c := Pending(b.rows, |b.rows|), |Pending(b.rows, n - 1)|;
      if b.rows[n - 1].decision == RowValid {
        RankOf(b.rows, n - 1, |b.rows|);
        assert |Pending(b.rows, n)| == c + 1 && ks[c] == n - 1;
        OneMoreCommitted(d, o, scope, b, ks, c);
      } else {
        assert Pending(b.rows, n) == Pending(b.rows, n - 1);
      }
    }
  }

  lemma {:induction false} ProposedHolders(d: Desk, o: Id, scope: Scope, rows: seq<Row>, n: nat, later: Row)
    requires n <= |rows| && later.team.Some?
    requires forall i :: 0 <= i < n && rows[i].decision == RowValid ==>
      rows[i].input.phone.Some? && StatusFor(d, o, rows[i].input.statusName).Some?
    ensures FirstHolder(ProposedLeads(d, o, scope, rows, n), o, later.team.value, PhonesOf(later.input)).None? <==>
            forall j {:trigger rows[j]} :: 0 <= j < n ==> !StandsInWay(d, o, scope, rows[j], later)
  {
    hide StandsInWay, NewLead, Holds;
    if n == 0 {
    } else {
      ProposedHolders(d, o, scope, rows, n - 1, later);
      var row, earlier := rows[n - 1], ProposedLeads(d, o, scope, rows, n - 1);
      var all := ProposedLeads(d, o, scope, rows, n);
      if row.decision == RowValid {
        LeadStands(d, o, scope, row, later);
        assert all == earlier + [NewLead(d, o, scope, row.input, row.proposed)] && all[..|earlier|] == earlier;
      } else {
        NeverInvalid(d, o, scope, row, later);
        assert all == earlier;
      }
    }
  }

  lemma NeverInvalid(d: Desk, o: Id, scope: Scope, row: Row, later: Row)
    requires row.decision != RowValid
    ensures !StandsInWay(d, o, scope, row, later)
  {
  }

  lemma LeadStands(d: Desk, o: Id, scope: Scope, row: Row, later: Row)
    requires row.decision == RowValid && later.team.Some?
    requires row.input.phone.Some? && StatusFor(d, o, row.input.statusName).Some?
    ensures Holds(NewLead(d, o, scope, row.input, row.proposed), o, later.team.value, PhonesOf(later.input)) <==>
            StandsInWay(d, o, scope, row, later)
  {
    var lead, phones := NewLead(d, o, scope, row.input, row.proposed), PhonesOf(later.input);
    if HasPhone(lead, phones) {
      assert lead.phone in PhonesOf(row.input) * phones ||
             (lead.alternate.Some? && lead.alternate.value in PhonesOf(row.input) * phones);
    }
    if PhonesOf(row.input) * phones != {} {
      var p :| p in PhonesOf(row.input) * phones;
    }
  }

  /** The leads in front of a row after the first `n` rows went as proposed. */
  lemma HolderSplits(d: Desk, o: Id, scope: Scope, leads: seq<Lead>, rows: seq<Row>, n: nat, later: Row)
    requires n <= |rows| && later.team.Some?
    requires forall i :: 0 <= i < n && rows[i].decision == RowValid ==>
      rows[i].input.phone.Some? && StatusFor(d, o, rows[i].input.statusName).Some?
    ensures HolderFor(leads + ProposedLeads(d, o, scope, rows, n), o, later).None? <==>
            HolderFor(leads, o, later).None? &&
            forall j {:trigger rows[j]} :: 0 <= j < n ==> !StandsInWay(d, o, scope, rows[j], later)
  {
    ProposedHolders(d, o, scope, rows, n, later);
    var more, team, phones := ProposedLeads(d, o, scope, rows, n), later.team.value, PhonesOf(later.input);
    var all := leads + more;
    assert forall i :: 0 <= i < |leads| ==> all[i] == leads[i];
    assert forall i :: 0 <= i < |more| ==> all[|leads| + i] == more[i];
    if HolderFor(leads, o, later).None? && FirstHolder(more, o, team, phones).None? {
      forall i | 0 <= i < |all| ensures !Holds(all[i], o, team, phones) {
        if i >= |leads| {
          assert all[i] == more[i - |leads|];
        }
      }
    }
  }

  // ---------------------------------------------------------------- the first n rows went as proposed

  /** The round-robin cursors after the rules' rows among the first `n`. */
  ghost predicate TurnsTaken(d: Desk, was: map<Id, nat>, now: map<Id, nat>, rows: seq<Row>, n: nat)
    requires n <= |rows|
  {
    forall rule {:trigger rule in d.rules} :: rule in d.rules && rule.strategy.RoundRobin? ==>
      CursorOf(now, rule.id) == CursorOf(was, rule.id) + RuleRows(rows, rule.id, n)
  }

  ghost predicate RowsImported(was: seq<Row>, now: seq<Row>, n: nat) {
    |now| == |was| && forall k {:trigger now[k]} :: 0 <= k < |was| ==>
      now[k] == if k < n && was[k].decision == RowValid then was[k].(decision := RowImported) else was[k]
  }

  ghost predicate Foreseen(d: Desk, o: Id, scope: Scope, b: Batch, n: nat, now: Batch)
    requires n <= |b.rows|
  {
    && now.leads == b.leads + ProposedLeads(d, o, scope, b.rows, n)
    && RowsImported(b.rows, now.rows, n)
    && TurnsTaken(d, b.cursors, now.cursors, b.rows, n)
  }

  /** A previewed valid row has what it takes to become a lead. */
  lemma ValidRow(d: Desk, o: Id, scope: Scope, leads: seq<Lead>, cursors: map<Id, nat>, rows: seq<Row>, i: nat)
    requires i < |rows| && RowPreviewed(d, o, scope, leads, cursors, rows, i) && rows[i].decision == RowValid
    ensures rows[i].input.phone.Some? && StatusFor(d, o, rows[i].input.statusName).Some? && rows[i].team.Some?
    ensures HolderFor(leads, o, rows[i]).None? && !Repeated(rows, i)
  {
  }

  /** The rule of a row is found again at commit, is still eligible, and yields the proposed owner. */
  lemma RuleYieldsProposed(d: Desk, o: Id, scope: Scope, leads: seq<Lead>, was: map<Id, nat>, rows: seq<Row>, i: nat,
                           now: map<Id, nat>)
    requires WellFormed(d) && i < |rows| && RowPreviewed(d, o, scope, leads, was, rows, i)
    requires rows[i].decision == RowValid && rows[i].ruleId.Some? && TurnsTaken(d, was, now, rows, i)
    ensures StatusFor(d, o, rows[i].input.statusName).Some?
    ensures var rule := FindRule(d.rules, rows[i].ruleId.value);
            rule.Some? && rule.value in d.rules &&
            Eligible(d, o, scope, rule.value, RowTraits(d, o, rows[i].input, rows[i].team)) &&
            rows[i].proposed == Some(OwnerAt(rule.value, CursorOf(now, rule.value.id)))
  {
    var rule := BestRule(d.rules, d, o, scope, RowTraits(d, o, rows[i].input, rows[i].team)).value;
    FindsRule(d, rule);
  }

  /** With the earlier rows gone as proposed, a row goes as proposed if and only if it goes through. */
  lemma FateForeseen(d: Desk, o: Id, scope: Scope, b: Batch, n: nat, now: Batch)
    requires WellFormed(d) && Previewed(d, o, scope, b.leads, b.cursors, b.rows)
    requires n < |b.rows| && b.rows[n].decision == RowValid && Foreseen(d, o, scope, b, n, now)
    ensures b.rows[n].input.phone.Some? && StatusFor(d, o, b.rows[n].input.statusName).Some?
    ensures b.rows[n].ruleId.Some? ==> FindRule(d.rules, b.rows[n].ruleId.value).Some?
    ensures var fate := FateOf(d, o, scope, now.leads, now.cursors, b.rows[n]);
            (fate.Imports? <==> GoesThrough(d, o, scope, b.rows, n)) &&
            (fate.Imports? ==> fate.lead == NewLead(d, o, scope, b.rows[n].input, b.rows[n].proposed)) &&
            (fate.Imports? ==> LeadOfRow(d, o, scope, b.rows[n].input, b.rows[n].proposed, fate.lead)) &&
            (fate.Imports? ==>
              fate.rule == if b.rows[n].ruleId.Some? then FindRule(d.rules, b.rows[n].ruleId.value) else None)
  {
    assert RowPreviewed(d, o, scope, b.leads, b.cursors, b.rows, n);
    ValidRow(d, o, scope, b.leads, b.cursors, b.rows, n);
    forall i: nat | i < n && b.rows[i].decision == RowValid
      ensures b.rows[i].input.phone.Some? && StatusFor(d, o, b.rows[i].input.statusName).Some?
    {
      assert RowPreviewed(d, o, scope, b.leads, b.cursors, b.rows, i);
      ValidRow(d, o, scope, b.leads, b.cursors, b.rows, i);
    }
    HolderSplits(d, o, scope, b.leads, b.rows, n, b.rows[n]);
    if b.rows[n].ruleId.Some? {
      RuleYieldsProposed(d, o, scope, b.leads, b.cursors, b.rows, n, now.cursors);
    }
    NewLeadRight(d, o, scope, b.rows[n].input, b.rows[n].proposed);
    hide RowPreviewed, Previewed, NewLead, StandsInWay, HolderFor, ProposedLeads, Eligible, BestRule, FindRule,
      WellFormed, LeadOfRow;
  }

  /** The cursors after an imported row stand where the preview's count of the rule's rows puts them. */
  lemma TurnTakenByRow(d: Desk, was: map<Id, nat>, now: map<Id, nat>, rows: seq<Row>, n: nat)
    requires WellFormed(d) && n < |rows| && TurnsTaken(d, was, now, rows, n)
    requires rows[n].ruleId.Some? ==> FindRule(d.rules, rows[n].ruleId.value).Some?
    ensures TurnsTaken(d, was,
              if rows[n].ruleId.Some? then Advance(now, FindRule(d.rules, rows[n].ruleId.value).value) else now,
              rows, n + 1)
  {
    forall rule | rule in d.rules && rule.strategy.RoundRobin? && rows[n].ruleId == Some(rule.id)
      ensures FindRule(d.rules, rule.id) == Some(rule)
    {
      FindsRule(d, rule);
    }
  }

  lemma RowForeseen(d: Desk, o: Id, scope: Scope, b: Batch, n: nat, now: Batch)
    requires WellFormed(d) && Previewed(d, o, scope, b.leads, b.cursors, b.rows)
    requires n < |b.rows| && b.rows[n].decision == RowValid && Foreseen(d, o, scope, b, n, now)
    ensures GoesThrough(d, o, scope, b.rows, n) ==> Foreseen(d, o, scope, b, n + 1, CommitRow(d, o, scope, now, n))
    ensures !GoesThrough(d, o, scope, b.rows, n) ==> CommitRow(d, o, scope, now, n).rows[n].decision != RowImported
  {
    hide FateOf, NewLead, WellFormed, Previewed, GoesThrough, TurnsTaken, Advance, FindRule, StatusFor, RuleRows;
    FateForeseen(d, o, scope, b, n, now);
    TurnTakenByRow(d, b.cursors, now.cursors, b.rows, n);
  }

  lemma RowSkipped(d: Desk, o: Id, scope: Scope, b: Batch, n: nat, now: Batch)
    requires Previewed(d, o, scope, b.leads, b.cursors, b.rows)
    requires n < |b.rows| && b.rows[n].decision != RowValid && Foreseen(d, o, scope, b, n, now)
    ensures Foreseen(d, o, scope, b, n + 1, now)
  {
    assert RowPreviewed(d, o, scope, b.leads, b.cursors, b.rows, n);
    assert ProposedLeads(d, o, scope, b.rows, n + 1) == ProposedLeads(d, o, scope, b.rows, n);
  }

  /** The next row leaves the rows before it as they are. */
  lemma RowKept(d: Desk, o: Id, scope: Scope, b: Batch, n: nat, k: nat)
    requires k + 1 < n <= |b.rows|
    ensures CommitUpTo(d, o, scope, b, n).rows[k] == CommitUpTo(d, o, scope, b, n - 1).rows[k]
  {
    hide FateOf;
  }

  lemma {:induction false} CommitFollows(d: Desk, o: Id, scope: Scope, b: Batch, n: nat)
    requires WellFormed(d) && Previewed(d, o, scope, b.leads, b.cursors, b.rows) && n <= |b.rows|
    ensures AllGoThrough(d, o, scope, b.rows, n) ==> Foreseen(d, o, scope, b, n, CommitUpTo(d, o, scope, b, n))
    ensures !AllGoThrough(d, o, scope, b.rows, n) ==>
              exists k: nat :: k < n && b.rows[k].decision == RowValid &&
                CommitUpTo(d, o, scope, b, n).rows[k].decision != RowImported
  {
    if n == 0 {
      assert CommitUpTo(d, o, scope, b, 0) == b && ProposedLeads(d, o, scope, b.rows, 0) == [];
    } else {
      hide CommitRow, Foreseen, GoesThrough, WellFormed, Previewed;
      CommitFollows(d, o, scope, b, n - 1);
      var before := CommitUpTo(d, o, scope, b, n - 1);
      if !AllGoThrough(d, o, scope, b.rows, n - 1) {
        var k: nat :| k < n - 1 && b.rows[k].decision == RowValid && before.rows[k].decision != RowImported;
        RowKept(d, o, scope, b, n, k);
      } else if b.rows[n - 1].decision == RowValid {
        RowForeseen(d, o, scope, b, n - 1, before);
      } else {
        RowSkipped(d, o, scope, b, n - 1, before);
      }
    }
  }

  // ---------------------------------------------------------------- batch after batch

  lemma {:induction false} CommitRest(d: Desk, o: Id, scope: Scope, b: Batch, ks: seq<nat>, m: nat, c: nat)
    requires forall i :: 0 <= i < |ks| ==> ks[i] < |b.rows|
    requires m + c <= |ks|
    ensures CommitTo(d, o, scope, CommitTo(d, o, scope, b, ks, m), ks[m..], c) == CommitTo(d, o, scope, b, ks, m + c)
  {
    hide CommitRow;
    if c == 0 {
    } else {
      CommitRest(d, o, scope, b, ks, m, c - 1);
    }
  }

  /** The job and the repository after a number of commits with nothing else in between. */
  function CommitTimes(d: Desk, o: Id, scope: Scope, b: Batch, times: nat): (r: Batch)
    ensures |r.rows| == |b.rows|
  {
    if times == 0 then b else CommitBatch(d, o, scope, CommitTimes(d, o, scope, b, times - 1))
  }

  function AtMost(n: nat, limit: nat): nat {
    if n < limit then n else limit
  }

  /** After `m` valid rows the next batch takes up where the list stands. */
  lemma {:induction false} NextBatch(d: Desk, o: Id, scope: Scope, b: Batch, m: nat)
    requires m <= |Pending(b.rows, |b.rows|)|
    ensures var ks := Pending(b.rows, |b.rows|);
            CommitBatch(d, o, scope, CommitTo(d, o, scope, b, ks, m)) ==
              CommitTo(d, o, scope, b, ks, m + AtMost(|ks| - m, BATCH))
  {
    hide CommitRow, CommitTo, Pending, FirstSettled;
    var ks := Pending(b.rows, |b.rows|);
    var before := CommitTo(d, o, scope, b, ks, m);
    BatchSettles(d, o, scope, b, m);
    PendingAfter(b.rows, before.rows, m, |b.rows|);
    assert Pending(before.rows, |before.rows|) == ks[m..];
    CommitRest(d, o, scope, b, ks, m, BatchSize(before.rows));
  }

  /** Committing in batches of fifty comes to committing the valid rows one after the other. */
  lemma {:induction false} BatchesAddUp(d: Desk, o: Id, scope: Scope, b: Batch, times: nat)
    ensures var ks := Pending(b.rows, |b.rows|);
            CommitTimes(d, o, scope, b, times) == CommitTo(d, o, scope, b, ks, AtMost(|ks|, BATCH * times))
  {
    hide CommitRow, CommitBatch, Pending;
    if times == 0 {
    } else {
      var v := |Pending(b.rows, |b.rows|)|;
      BatchesAddUp(d, o, scope, b, times - 1);
      var m := AtMost(v, BATCH * (times - 1));
      NextBatch(d, o, scope, b, m);
      assert m + AtMost(v - m, BATCH) == AtMost(v, BATCH * times) by {
        hide *;
        assert BATCH * times == BATCH * (times - 1) + BATCH;
      }
    }
  }

  // ---------------------------------------------------------------- the theorem

  /** Every valid row was imported, in order, as the lead of its cells and with the owner that the preview proposed. */
  ghost predicate AsProposed(d: Desk, o: Id, scope: Scope, b: Batch, final: Batch)
    requires |final.rows| == |b.rows|
  {
    && (forall k :: 0 <= k < |b.rows| && b.rows[k].decision == RowValid ==> final.rows[k].decision == RowImported)
    && var ks := Arrivals(b.rows, final.rows, |b.rows|);
       && |final.leads| == |b.leads| + |ks| && final.leads[..|b.leads|] == b.leads
       && forall k {:trigger ks[k]} :: 0 <= k < |ks| ==>
            LeadOfRow(d, o, scope, b.rows[ks[k]].input, b.rows[ks[k]].proposed, final.leads[|b.leads| + k])
  }

  /** The proposed leads are those of the valid rows, in order. */
  lemma {:induction false} ProposedArrive(d: Desk, o: Id, scope: Scope, rows: seq<Row>, now: seq<Row>, n: nat)
    requires n <= |rows| == |now|
    requires forall i {:trigger rows[i]} :: 0 <= i < n && rows[i].decision == RowValid ==>
      now[i].decision == RowImported && rows[i].input.phone.Some? && StatusFor(d, o, rows[i].input.statusName).Some?
    ensures var (leads, ks) := (ProposedLeads(d, o, scope, rows, n), Arrivals(rows, now, n));
            |leads| == |ks| && forall k {:trigger ks[k]} :: 0 <= k < |ks| ==>
              LeadOfRow(d, o, scope, rows[ks[k]].input, rows[ks[k]].proposed, leads[k])
  {
    hide StatusFor, NewLead, LeadOfRow;
    if n == 0 {
    } else {
      ProposedArrive(d, o, scope, rows, now, n - 1);
      if rows[n - 1].decision == RowValid {
        NewLeadRight(d, o, scope, rows[n - 1].input, rows[n - 1].proposed);
      }
    }
  }

  lemma ForeseenIsAsProposed(d: Desk, o: Id, scope: Scope, b: Batch, final: Batch)
    requires Previewed(d, o, scope, b.leads, b.cursors, b.rows) && |final.rows| == |b.rows|
    requires Foreseen(d, o, scope, b, |b.rows|, final)
    ensures AsProposed(d, o, scope, b, final)
  {
    forall i: nat | i < |b.rows| && b.rows[i].decision == RowValid
      ensures b.rows[i].input.phone.Some? && StatusFor(d, o, b.rows[i].input.statusName).Some?
    {
      assert RowPreviewed(d, o, scope, b.leads, b.cursors, b.rows, i);
      ValidRow(d, o, scope, b.leads, b.cursors, b.rows, i);
    }
    ProposedArrive(d, o, scope, b.rows, final.rows, |b.rows|);
    hide StatusFor, Previewed, RowPreviewed, LeadOfRow, ProposedLeads, TurnsTaken;
  }

  /**
   * Preview predicts commit, exactly: committing to completion imports every valid row with the owner
   * that the preview proposed if and only if every valid row goes through.
   */
  lemma PreviewPredictsCommit(d: Desk, o: Id, scope: Scope, b: Batch, times: nat)
    requires WellFormed(d) && Previewed(d, o, scope, b.leads, b.cursors, b.rows)
    requires times >= CommitsNeeded(|Pending(b.rows, |b.rows|)|)
    ensures AsProposed(d, o, scope, b, CommitTimes(d, o, scope, b, times)) <==>
        AllGoThrough(d, o, scope, b.rows, |b.rows|)
  {
    hide CommitRow, CommitTo, CommitUpTo, CommitTimes, Pending, WellFormed, Previewed, AllGoThrough, ProposedLeads;
    BatchesAddUp(d, o, scope, b, times);
    ListOrder(d, o, scope, b, |b.rows|);
    CommitFollows(d, o, scope, b, |b.rows|);
    if AllGoThrough(d, o, scope, b.rows, |b.rows|) {
      ForeseenIsAsProposed(d, o, scope, b, CommitTimes(d, o, scope, b, times));
    }
    hide Foreseen, Arrivals, LeadOfRow;
  }

  /**
   * It is enough that every valid row has a proposed owner with a team; a caller limited to its own
   * leads must also be that owner.
   */
  lemma OwnersWithTeamsGoThrough(d: Desk, o: Id, scope: Scope, b: Batch)
    requires Previewed(d, o, scope, b.leads, b.cursors, b.rows)
    requires forall i :: 0 <= i < |b.rows| && b.rows[i].decision == RowValid ==>
      b.rows[i].proposed.Some? && TeamOfEmployee(d, b.rows[i].proposed).Some? &&
      (scope.Assigned? ==> b.rows[i].proposed == Some(scope.employeeId))
    ensures AllGoThrough(d, o, scope, b.rows, |b.rows|)
  {
    forall i: nat | i < |b.rows| && b.rows[i].decision == RowValid
      ensures MayOwn(d, o, scope, b.rows[i].proposed.value)
      ensures LandingTeam(d, o, scope, b.rows[i].proposed) == b.rows[i].team
    {
      OwnerOfRow(d, o, scope, b, i);
    }
    forall i: nat | i < |b.rows| && b.rows[i].decision == RowValid ensures GoesThrough(d, o, scope, b.rows, i) {
      assert RowPreviewed(d, o, scope, b.leads, b.cursors, b.rows, i);
      ValidRow(d, o, scope, b.leads, b.cursors, b.rows, i);
      forall j | 0 <= j < i ensures !StandsInWay(d, o, scope, b.rows[j], b.rows[i]) {
        assert !Blocks(b.rows[j], b.rows[i]);
      }
      hide LandingTeam, RowPreviewed, MayOwn;
    }
  }

  lemma OwnerOfRow(d: Desk, o: Id, scope: Scope, b: Batch, i: nat)
    requires Previewed(d, o, scope, b.leads, b.cursors, b.rows) && i < |b.rows| && b.rows[i].decision == RowValid
    requires b.rows[i].proposed.Some? && TeamOfEmployee(d, b.rows[i].proposed).Some?
    requires scope.Assigned? ==> b.rows[i].proposed == Some(scope.employeeId)
    ensures MayOwn(d, o, scope, b.rows[i].proposed.value)
    ensures LandingTeam(d, o, scope, b.rows[i].proposed) == b.rows[i].team
  {
    var row := b.rows[i];
    assert RowPreviewed(d, o, scope, b.leads, b.cursors, b.rows, i);
    ValidRow(d, o, scope, b.leads, b.cursors, b.rows, i);
    if OwnerOf(d, o, scope, row.input).None? {
      var rule := BestRule(d.rules, d, o, scope, RowTraits(d, o, row.input, row.team)).value;
      assert OwnersReady(d, o, rule, rule.team);
    }
  }

  // ---------------------------------------------------------------- an owner without a team

  /** Employee 2 is in team 2, employee 3 in team 1, and employee 1 is in no team. */
  function MixedDesk(): Desk {
    Desk(map[1 := Employee(0, true, None, Some(1)), 2 := Employee(0, true, Some(2), Some(2)),
             3 := Employee(0, true, Some(1), Some(3))],
         [2, 3, 1], [Status(0, 0, true, 0, true, 0)], [])
  }

  function MixedInput(ownerCode: Id): RowInput {
    RowInput(true, Some(7), Missing, true, Missing, None, Some(ownerCode))
  }

  /** Two rows with one phone, for employees 1 and 2. */
  function MixedRows(): seq<Row> {
    [Row(MixedInput(1), RowValid, None, Some(1), Some(1), None),
     Row(MixedInput(2), RowValid, None, Some(2), Some(2), None)]
  }

  /**
   * That every valid row has a proposed owner is not enough. An owner without a team is checked for
   * duplicates against the default team, but the lead lands in the team of the first employee.
   */
  lemma {:induction false} TeamlessOwnerMisleads()
    ensures var d, rows := MixedDesk(), MixedRows();
            WellFormed(d) && Previewed(d, 0, Organization, [], map[], rows) &&
            (forall i :: 0 <= i < |rows| ==> rows[i].decision == RowValid && rows[i].proposed.Some?) &&
            !AllGoThrough(d, 0, Organization, rows, |rows|)
  {
    var d, rows := MixedDesk(), MixedRows();
    MixedOwners();
    MixedPreviewed();
    hide RowPreviewed, ExplicitOwner, DefaultTeam;
    assert 7 in PhonesOf(rows[0].input) * PhonesOf(rows[1].input);
    assert StandsInWay(d, 0, Organization, rows[0], rows[1]);
    assert !GoesThrough(d, 0, Organization, rows, 1);
  }

  lemma MixedPreviewed()
    ensures RowPreviewed(MixedDesk(), 0, Organization, [], map[], MixedRows(), 0)
    ensures RowPreviewed(MixedDesk(), 0, Organization, [], map[], MixedRows(), 1)
  {
    var d, rows := MixedDesk(), MixedRows();
    assert DefaultStatus(d.statuses[..0], 0).None? && StatusFor(d, 0, None) == Some(0);
    MixedOwners();
    hide ExplicitOwner, DefaultTeam, AnyTeam;
    assert !Blocks(rows[0], rows[1]);
  }

  lemma MixedOwners()
    ensures var d := MixedDesk();
            OwnerOf(d, 0, Organization, MixedInput(1)) == Some(1) &&
              OwnerOf(d, 0, Organization, MixedInput(2)) == Some(2) &&
            DefaultTeam(d, d.order, 0, Organization) == Some(1) && AnyTeam(d, d.order, 0) == Some(2)
  {
    var d := MixedDesk();
    assert ExplicitOwner(d, [1], 0, Organization, 1) == Some(1);
    assert [3, 1][1..] == [1] && [2, 3, 1][1..] == [3, 1];
    assert ExplicitOwner(d, [3, 1], 0, Organization, 1) == Some(1);
    assert DefaultTeam(d, [1][1..], 0, Organization).None?;
    assert DefaultTeam(d, [1], 0, Organization).None?;
    assert DefaultTeam(d, [3, 1], 0, Organization) == Some(1);
  }
}
