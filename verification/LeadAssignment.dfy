/**
 * What applying the assignment rules to the unassigned leads does, stated lead by lead: the rule
 * that takes a lead, the owner whose turn it is, and how far each rule's cursor moves.
 */
module LeadAssignment {
  import opened Common
  import opened LeadModel

  /** A lead that the rules may assign for this caller. */
  predicate Unassigned(d: Desk, o: Id, scope: Scope, lead: Lead) {
    lead.organizationId == o && !lead.archived && lead.owner.None? && CanAccessLead(d, scope, lead)
  }

  /** The rule that takes the lead. */
  function RuleOf(d: Desk, o: Id, scope: Scope, lead: Lead): Option<Rule> {
    if Unassigned(d, o, scope, lead) then BestRule(d.rules, d, o, scope, TraitsOf(d, lead)) else None
  }

  /** The lead takes a turn of the round-robin rule `ruleId`. */
  predicate TakesTurn(d: Desk, o: Id, scope: Scope, lead: Lead, ruleId: Id) {
    var rule := RuleOf(d, o, scope, lead);
    rule.Some? && rule.value.id == ruleId && rule.value.strategy.RoundRobin?
  }

  /** How many of the first `n` leads take a turn of the rule. */
  function Turns(d: Desk, o: Id, scope: Scope, leads: seq<Lead>, ruleId: Id, n: nat): nat
    requires n <= |leads|
  {
    if n == 0 then 0
    else Turns(d, o, scope, leads, ruleId, n - 1) + if TakesTurn(d, o, scope, leads[n - 1], ruleId) then 1 else 0
  }

  /** The owner that lead `i` is due: the rule's owners take turns from the cursor on, in lead order. */
  function PlannedOwner(d: Desk, o: Id, scope: Scope, leads: seq<Lead>, cursors: map<Id, nat>, i: nat): Option<Id>
    requires i < |leads|
  {
    var rule := RuleOf(d, o, scope, leads[i]);
    if rule.None? then None
    else Some(OwnerAt(rule.value, CursorOf(cursors, rule.value.id) + Turns(d, o, scope, leads, rule.value.id, i)))
  }

  function Matched(d: Desk, o: Id, scope: Scope, leads: seq<Lead>, n: nat): nat
    requires n <= |leads|
  {
    if n == 0 then 0
    else Matched(d, o, scope, leads, n - 1) + if RuleOf(d, o, scope, leads[n - 1]).Some? then 1 else 0
  }

  predicate LeftOver(d: Desk, o: Id, scope: Scope, lead: Lead) {
    Unassigned(d, o, scope, lead) && RuleOf(d, o, scope, lead).None?
  }

  function Unmatched(d: Desk, o: Id, scope: Scope, leads: seq<Lead>, n: nat): nat
    requires n <= |leads|
  {
    if n == 0 then 0
    else Unmatched(d, o, scope, leads, n - 1) + if LeftOver(d, o, scope, leads[n - 1]) then 1 else 0
  }

  /** How many of the first `n` leads are due to employee `e`. */
  function Share(d: Desk, o: Id, scope: Scope, leads: seq<Lead>, cursors: map<Id, nat>, e: Id, n: nat): nat
    requires n <= |leads|
  {
    if n == 0 then 0
    else Share(d, o, scope, leads, cursors, e, n - 1) +
         if PlannedOwner(d, o, scope, leads, cursors, n - 1) == Some(e) then 1 else 0
  }

  /** Giving a lead to an employee also moves it to the employee's team, if there is one. */
  function Give(d: Desk, lead: Lead, e: Id): Lead {
    lead.(owner := Some(e), team := OrElse(TeamOfEmployee(d, Some(e)), lead.team), version := lead.version + 1)
  }

  function AppliedLead(d: Desk, o: Id, scope: Scope, leads: seq<Lead>, cursors: map<Id, nat>, i: nat): Lead
    requires i < |leads|
  {
    var owner := PlannedOwner(d, o, scope, leads, cursors, i);
    if owner.Some? then Give(d, leads[i], owner.value) else leads[i]
  }

  /** The leads after an application. */
  ghost predicate LeadsApplied(d: Desk, o: Id, scope: Scope, was: seq<Lead>, cursors: map<Id, nat>, now: seq<Lead>) {
    |now| == |was| && forall i :: 0 <= i < |was| ==> now[i] == AppliedLead(d, o, scope, was, cursors, i)
  }

  /** The cursors after the first `n` leads were visited. */
  ghost predicate CursorsMoved(d: Desk, o: Id, scope: Scope, leads: seq<Lead>, was: map<Id, nat>, now: map<Id, nat>,
                               n: nat)
    requires n <= |leads|
  {
    forall r: Id {:trigger CursorOf(now, r)} :: CursorOf(now, r) == CursorOf(was, r) + Turns(d, o, scope, leads, r, n)
  }

  // ---------------------------------------------------------------- facts used by the loops

  lemma {:induction false} TurnsUpTo(d: Desk, o: Id, scope: Scope, leads: seq<Lead>, ruleId: Id, m: nat, n: nat)
    requires m <= n <= |leads|
    ensures Turns(d, o, scope, leads, ruleId, m) <= Turns(d, o, scope, leads, ruleId, n)
    decreases n
  {
    if m < n {
      TurnsUpTo(d, o, scope, leads, ruleId, m, n - 1);
    }
  }

  /** The owner that a rule yields may always be given the lead, so an update in the loop never fails. */
  lemma DueOwnerMayOwn(d: Desk, o: Id, scope: Scope, lead: Lead, cursor: nat)
    requires RuleOf(d, o, scope, lead).Some?
    ensures var rule := RuleOf(d, o, scope, lead).value;
            rule.owners != [] && MayOwn(d, o, scope, OwnerAt(rule, cursor)) &&
            TeamOfEmployee(d, Some(OwnerAt(rule, cursor))) == Some(rule.team)
  {
    var rule := RuleOf(d, o, scope, lead).value;
    assert OwnersReady(d, o, rule, rule.team);
    var k := if rule.strategy.FixedOwner? then 0 else cursor % |rule.owners|;
    assert ActiveIn(d, o, rule.owners[k]);
  }

  // ---------------------------------------------------------------- dry-run equals apply

  /** Leads that had no owner before and belong to `e` after. */
  function NewlyGiven(was: seq<Lead>, now: seq<Lead>, e: Id, n: nat): nat
    requires n <= |was| == |now|
  {
    if n == 0 then 0
    else NewlyGiven(was, now, e, n - 1) + if was[n - 1].owner.None? && now[n - 1].owner == Some(e) then 1 else 0
  }

  lemma {:induction false} SharesAreGiven(d: Desk, o: Id, scope: Scope, was: seq<Lead>, cursors: map<Id, nat>,
                                          now: seq<Lead>, e: Id, n: nat)
    requires LeadsApplied(d, o, scope, was, cursors, now) && n <= |was|
    ensures NewlyGiven(was, now, e, n) == Share(d, o, scope, was, cursors, e, n)
  {
    if n == 0 {
    } else {
      SharesAreGiven(d, o, scope, was, cursors, now, e, n - 1);
      assert now[n - 1] == AppliedLead(d, o, scope, was, cursors, n - 1);
    }
  }

  /** After an application nothing matches any more, and the same leads are left over. */
  lemma NothingLeftToMatch(d: Desk, o: Id, scope: Scope, was: seq<Lead>, cursors: map<Id, nat>, now: seq<Lead>, i: nat)
    requires LeadsApplied(d, o, scope, was, cursors, now) && i < |was|
    ensures RuleOf(d, o, scope, now[i]).None?
    ensures LeftOver(d, o, scope, now[i]) <==> LeftOver(d, o, scope, was[i])
  {
    assert now[i] == AppliedLead(d, o, scope, was, cursors, i);
  }

  lemma {:induction false} SecondDryRun(d: Desk, o: Id, scope: Scope, was: seq<Lead>, cursors: map<Id, nat>,
                                        now: seq<Lead>, n: nat)
    requires LeadsApplied(d, o, scope, was, cursors, now) && n <= |was|
    ensures Matched(d, o, scope, now, n) == 0
    ensures Unmatched(d, o, scope, now, n) == Unmatched(d, o, scope, was, n)
  {
    if n == 0 {
    } else {
      SecondDryRun(d, o, scope, was, cursors, now, n - 1);
      NothingLeftToMatch(d, o, scope, was, cursors, now, n - 1);
    }
  }

  /**
   * Dry-run equals apply. What an application gives each employee is what the dry-run before it
   * distributes to that employee; leads that no rule takes are untouched; and a dry-run after it
   * matches nothing and leaves the same leads over.
   */
  lemma DryRunEqualsApply(d: Desk, o: Id, scope: Scope, was: seq<Lead>, cursors: map<Id, nat>, now: seq<Lead>)
    requires LeadsApplied(d, o, scope, was, cursors, now)
    ensures forall e: Id :: NewlyGiven(was, now, e, |was|) == Share(d, o, scope, was, cursors, e, |was|)
    ensures forall i :: 0 <= i < |was| && RuleOf(d, o, scope, was[i]).None? ==> now[i] == was[i]
    ensures Matched(d, o, scope, now, |now|) == 0
    ensures Unmatched(d, o, scope, now, |now|) == Unmatched(d, o, scope, was, |was|)
  {
    forall e: Id ensures NewlyGiven(was, now, e, |was|) == Share(d, o, scope, was, cursors, e, |was|) {
      SharesAreGiven(d, o, scope, was, cursors, now, e, |was|);
    }
    SecondDryRun(d, o, scope, was, cursors, now, |was|);
  }

  /** A caller limited to its own leads reaches no unassigned lead, so it can assign none. */
  lemma OwnScopeMatchesNothing(d: Desk, o: Id, self: Id, lead: Lead)
    ensures RuleOf(d, o, Assigned(self), lead).None?
  {
  }
}
