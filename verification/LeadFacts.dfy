/**
 * What rule assignment and import promise, in the fields of the records alone. None of these predicates is used by an
 * operation; the lemmas say that the definitions which the operations do use come to the same.
 */
module LeadFacts {
  import opened Common
  import opened LeadModel
  import opened LeadAssignment
  import opened LeadImport

  // ---------------------------------------------------------------- people and teams

  ghost predicate AtWork(d: Desk, o: Id, e: Id) {
    e in d.employees && d.employees[e].organizationId == o && d.employees[e].active
  }

  /** The caller reaches the team; a caller for the whole organization also reaches people without a team. */
  ghost predicate Reached(d: Desk, scope: Scope, team: Option<Id>) {
    match scope
    case Organization => true
    case Teams(names) => exists i {:trigger names[i]} :: 0 <= i < |names| && team == Some(names[i])
    case Assigned(self) => team.Some? && self in d.employees && d.employees[self].team == team
  }

  lemma ReachedIsAccess(d: Desk, scope: Scope, team: Option<Id>)
    ensures CanAccessTeam(d, scope, team) <==> Reached(d, scope, team)
  {
    if scope.Teams? && team.Some? && team.value in scope.names {
      var i :| 0 <= i < |scope.names| && scope.names[i] == team.value;
    }
  }

  /** The caller may give a lead to this owner, or leave it without one. */
  ghost predicate MayBeGiven(d: Desk, o: Id, scope: Scope, owner: Option<Id>) {
    && (owner.Some? ==> AtWork(d, o, owner.value))
    && (scope.Teams? && owner.Some? ==> Reached(d, scope, d.employees[owner.value].team))
    && (scope.Assigned? ==> owner == Some(scope.employeeId))
  }

  lemma GivenIsAccepted(d: Desk, o: Id, scope: Scope, owner: Option<Id>)
    ensures Accepts(d, o, scope, owner) <==> MayBeGiven(d, o, scope, owner)
  {
    if owner.Some? && owner.value in d.employees {
      ReachedIsAccess(d, scope, d.employees[owner.value].team);
    }
  }

  lemma OwnIsGiven(d: Desk, o: Id, scope: Scope, e: Id)
    ensures MayOwn(d, o, scope, e) <==> MayBeGiven(d, o, scope, Some(e))
  {
    if e in d.employees {
      ReachedIsAccess(d, scope, d.employees[e].team);
    }
  }

  /** The caller reaches the lead: their own, or one of a team of theirs, by its own team or else by its owner's. */
  ghost predicate LeadReached(d: Desk, scope: Scope, lead: Lead) {
    match scope
    case Organization => true
    case Assigned(self) => lead.owner == Some(self)
    case Teams(names) =>
      exists i {:trigger names[i]} :: 0 <= i < |names| &&
        if lead.team.Some? then lead.team == Some(names[i])
        else lead.owner.Some? && lead.owner.value in d.employees &&
             d.employees[lead.owner.value].team == Some(names[i])
  }

  lemma LeadReachedIsAccess(d: Desk, scope: Scope, lead: Lead)
    ensures CanAccessLead(d, scope, lead) <==> LeadReached(d, scope, lead)
  {
    if scope.Teams? && LeadTeam(d, lead).Some? && LeadTeam(d, lead).value in scope.names {
      var i :| 0 <= i < |scope.names| && scope.names[i] == LeadTeam(d, lead).value;
    }
  }

  // ---------------------------------------------------------------- rules

  /** The rule is active and of this team, all its owners are at work in the team, and its conditions hold. */
  ghost predicate RuleFits(d: Desk, o: Id, scope: Scope, rule: Rule, team: Option<Id>, source: Id,
                           temperature: Option<Id>, statusId: Id)
  {
    && rule.active && team == Some(rule.team) && Reached(d, scope, team)
    && |rule.owners| > 0
    && (forall i :: 0 <= i < |rule.owners| ==>
          AtWork(d, o, rule.owners[i]) && d.employees[rule.owners[i]].team == Some(rule.team))
    && (rule.conditions.sources == {} || source in rule.conditions.sources)
    && (rule.conditions.temperatures == {} ||
        (temperature.Some? && temperature.value in rule.conditions.temperatures))
    && (rule.conditions.statusIds == {} || statusId in rule.conditions.statusIds)
  }

  lemma FitsIsEligible(d: Desk, o: Id, scope: Scope, rule: Rule, t: Traits)
    ensures Eligible(d, o, scope, rule, t) <==>
              RuleFits(d, o, scope, rule, t.team, t.source, t.temperature, t.statusId)
  {
    ReachedIsAccess(d, scope, t.team);
    hide Reached, CanAccessTeam;
  }

  ghost predicate RuleTakes(d: Desk, o: Id, scope: Scope, rule: Rule, team: Option<Id>, source: Id,
                            temperature: Option<Id>, statusId: Id)
  {
    rule in d.rules && rule.organizationId == o && RuleFits(d, o, scope, rule, team, source, temperature, statusId)
  }

  /** Of the rules that could take the lead this is the first: none has a lower priority number. */
  ghost predicate FirstToTake(d: Desk, o: Id, scope: Scope, rule: Rule, team: Option<Id>, source: Id,
                              temperature: Option<Id>, statusId: Id)
  {
    && RuleTakes(d, o, scope, rule, team, source, temperature, statusId)
    && forall other {:trigger RuleTakes(d, o, scope, other, team, source, temperature, statusId)} ::
         RuleTakes(d, o, scope, other, team, source, temperature, statusId) ==>
           rule.priority < other.priority || (rule.priority == other.priority && rule.id <= other.id)
  }

  ghost predicate NoneTakes(d: Desk, o: Id, scope: Scope, team: Option<Id>, source: Id,
                            temperature: Option<Id>, statusId: Id)
  {
    forall rule {:trigger RuleTakes(d, o, scope, rule, team, source, temperature, statusId)} ::
      !RuleTakes(d, o, scope, rule, team, source, temperature, statusId)
  }

  lemma BestIsFirst(d: Desk, o: Id, scope: Scope, t: Traits)
    ensures var best := BestRule(d.rules, d, o, scope, t);
            if best.Some? then FirstToTake(d, o, scope, best.value, t.team, t.source, t.temperature, t.statusId)
            else NoneTakes(d, o, scope, t.team, t.source, t.temperature, t.statusId)
  {
    hide RuleFits, Eligible;
    forall rule | rule in d.rules
      ensures Matches(d, o, scope, rule, t) <==>
                RuleTakes(d, o, scope, rule, t.team, t.source, t.temperature, t.statusId)
    {
      FitsIsEligible(d, o, scope, rule, t);
    }
  }

  /** The owner is one of the rule's owners, and the first of them under a fixed owner. */
  ghost predicate OwnerOfRule(rule: Rule, owner: Option<Id>) {
    && (exists k {:trigger rule.owners[k]} :: 0 <= k < |rule.owners| && owner == Some(rule.owners[k]))
    && (rule.strategy.FixedOwner? ==> owner == Some(rule.owners[0]))
  }

  lemma DueIsOwner(rule: Rule, cursor: nat)
    requires rule.owners != []
    ensures OwnerOfRule(rule, Some(OwnerAt(rule, cursor)))
  {
    var k := if rule.strategy.FixedOwner? then 0 else cursor % |rule.owners|;
    assert OwnerAt(rule, cursor) == rule.owners[k];
  }

  // ---------------------------------------------------------------- applying the rules

  /** An unassigned lead within reach of the caller. */
  ghost predicate FreeLead(o: Id, scope: Scope, lead: Lead) {
    && lead.organizationId == o && !lead.archived && lead.owner.None?
    && match scope
       case Organization => true
       case Teams(names) => exists i {:trigger names[i]} :: 0 <= i < |names| && lead.team == Some(names[i])
       case Assigned(_) => false
  }

  lemma FreeIsUnassigned(d: Desk, o: Id, scope: Scope, lead: Lead)
    ensures Unassigned(d, o, scope, lead) <==> FreeLead(o, scope, lead)
  {
    if scope.Teams? && lead.team.Some? && lead.team.value in scope.names {
      var i :| 0 <= i < |scope.names| && scope.names[i] == lead.team.value;
    }
  }

  /** The owner that a lead is due: one of the first rule that takes it, and none if no rule does. */
  ghost predicate DueRightly(d: Desk, o: Id, scope: Scope, lead: Lead, owner: Option<Id>) {
    if FreeLead(o, scope, lead) && !NoneTakes(d, o, scope, lead.team, lead.source, lead.temperature, lead.statusId) then
      exists rule {:trigger FirstToTake(d, o, scope, rule, lead.team, lead.source, lead.temperature, lead.statusId)} ::
        FirstToTake(d, o, scope, rule, lead.team, lead.source, lead.temperature, lead.statusId) &&
        OwnerOfRule(rule, owner)
    else owner.None?
  }

  /** The lead is given to the owner it is due, moves to the team of the rule, and gets a new version; or stays. */
  ghost predicate GivenRightly(d: Desk, o: Id, scope: Scope, was: Lead, now: Lead) {
    if FreeLead(o, scope, was) && !NoneTakes(d, o, scope, was.team, was.source, was.temperature, was.statusId) then
      DueRightly(d, o, scope, was, now.owner) && now == was.(owner := now.owner, version := was.version + 1)
    else now == was
  }

  lemma PlannedRightly(d: Desk, o: Id, scope: Scope, leads: seq<Lead>, cursors: map<Id, nat>, i: nat)
    requires i < |leads|
    ensures DueRightly(d, o, scope, leads[i], PlannedOwner(d, o, scope, leads, cursors, i))
  {
    var lead := leads[i];
    FreeIsUnassigned(d, o, scope, lead);
    BestIsFirst(d, o, scope, TraitsOf(d, lead));
    var rule := RuleOf(d, o, scope, lead);
    if rule.Some? {
      DueIsOwner(rule.value, CursorOf(cursors, rule.value.id) + Turns(d, o, scope, leads, rule.value.id, i));
    }
    hide FirstToTake, OwnerOfRule, FreeLead, Unassigned, OwnerAt, BestRule, Turns;
    FreeTraits(d, o, scope, lead);
    TakenNotNone(d, o, scope, lead);
  }

  lemma FreeTraits(d: Desk, o: Id, scope: Scope, lead: Lead)
    ensures FreeLead(o, scope, lead) ==>
              TraitsOf(d, lead) == Traits(lead.team, lead.source, lead.temperature, lead.statusId)
  {
  }

  lemma TakenNotNone(d: Desk, o: Id, scope: Scope, lead: Lead)
    ensures forall rule
              {:trigger FirstToTake(d, o, scope, rule, lead.team, lead.source, lead.temperature, lead.statusId)} ::
              FirstToTake(d, o, scope, rule, lead.team, lead.source, lead.temperature, lead.statusId) ==>
                !NoneTakes(d, o, scope, lead.team, lead.source, lead.temperature, lead.statusId)
  {
  }

  lemma AppliedRightly(d: Desk, o: Id, scope: Scope, was: seq<Lead>, cursors: map<Id, nat>, now: seq<Lead>, i: nat)
    requires LeadsApplied(d, o, scope, was, cursors, now) && i < |was|
    ensures GivenRightly(d, o, scope, was[i], now[i])
  {
    PlannedRightly(d, o, scope, was, cursors, i);
    assert now[i] == AppliedLead(d, o, scope, was, cursors, i);
    var owner := PlannedOwner(d, o, scope, was, cursors, i);
    if owner.Some? {
      var rule := RuleOf(d, o, scope, was[i]).value;
      DueOwnerMayOwn(d, o, scope, was[i], CursorOf(cursors, rule.id) + Turns(d, o, scope, was, rule.id, i));
      FreeIsUnassigned(d, o, scope, was[i]);
      FreeTraits(d, o, scope, was[i]);
    }
    hide DueRightly, NoneTakes, FreeLead, OwnerAt, BestRule, Turns;
  }

  /** How many of the first `n` leads the rule is the first to take. */
  ghost function TakenBy(d: Desk, o: Id, scope: Scope, leads: seq<Lead>, rule: Rule, n: nat): nat
    requires n <= |leads|
  {
    if n == 0 then 0
    else
      var lead := leads[n - 1];
      TakenBy(d, o, scope, leads, rule, n - 1) +
      if FreeLead(o, scope, lead) &&
         FirstToTake(d, o, scope, rule, lead.team, lead.source, lead.temperature, lead.statusId) then 1 else 0
  }

  /** The rule that takes a free lead is the one first rule. */
  lemma TakesAsFirst(d: Desk, o: Id, scope: Scope, lead: Lead, rule: Rule)
    requires WellFormed(d) && rule in d.rules
    ensures RuleOf(d, o, scope, lead) == Some(rule) <==>
              FreeLead(o, scope, lead) &&
              FirstToTake(d, o, scope, rule, lead.team, lead.source, lead.temperature, lead.statusId)
  {
    FreeIsUnassigned(d, o, scope, lead);
    FreeTraits(d, o, scope, lead);
    BestIsFirst(d, o, scope, TraitsOf(d, lead));
    var best := BestRule(d.rules, d, o, scope, TraitsOf(d, lead));
    if best.Some? && best.value.id == rule.id {
      FindsRule(d, rule);
      FindsRule(d, best.value);
    }
    hide RuleTakes, FreeLead, Unassigned, BestRule, FindRule, WellFormed;
  }

  /** The cursor of a round-robin rule moves by the leads it is the first to take; no other cursor moves. */
  lemma {:induction false} TurnsRight(d: Desk, o: Id, scope: Scope, leads: seq<Lead>, rule: Rule, n: nat)
    requires WellFormed(d) && rule in d.rules && n <= |leads|
    ensures Turns(d, o, scope, leads, rule.id, n) ==
              if rule.strategy.RoundRobin? then TakenBy(d, o, scope, leads, rule, n) else 0
  {
    if n == 0 {
    } else {
      TurnsRight(d, o, scope, leads, rule, n - 1);
      TakesAsFirst(d, o, scope, leads[n - 1], rule);
      TakerStored(d, o, scope, leads[n - 1], rule);
      hide WellFormed, FreeLead, FirstToTake, RuleOf;
    }
  }

  lemma TakerStored(d: Desk, o: Id, scope: Scope, lead: Lead, rule: Rule)
    requires WellFormed(d) && rule in d.rules
    ensures RuleOf(d, o, scope, lead).Some? && RuleOf(d, o, scope, lead).value.id == rule.id ==>
              RuleOf(d, o, scope, lead) == Some(rule)
  {
    var taker := RuleOf(d, o, scope, lead);
    if taker.Some? {
      FindsRule(d, rule);
      FindsRule(d, taker.value);
    }
  }

  // ---------------------------------------------------------------- statuses

  ghost predicate InUse(s: Status, o: Id) {
    s.organizationId == o && s.active
  }

  /** The first active status of that name. */
  ghost predicate StatusNamed(statuses: seq<Status>, o: Id, name: Id, id: Id) {
    exists i {:trigger statuses[i]} :: 0 <= i < |statuses| && statuses[i].id == id && InUse(statuses[i], o) &&
      statuses[i].name == name &&
      forall j {:trigger statuses[j]} :: 0 <= j < i ==> !(InUse(statuses[j], o) && statuses[j].name == name)
  }

  ghost predicate NoneNamed(statuses: seq<Status>, o: Id, name: Id) {
    forall j {:trigger statuses[j]} :: 0 <= j < |statuses| ==> !(InUse(statuses[j], o) && statuses[j].name == name)
  }

  /** Status `i` comes before status `j`: initial ones first, then by position, then as inserted. */
  ghost predicate Earlier(statuses: seq<Status>, i: nat, j: nat)
    requires i < |statuses| && j < |statuses|
  {
    var (a, b) := (statuses[i], statuses[j]);
    (a.initial && !b.initial) ||
    (a.initial == b.initial && (a.position < b.position || (a.position == b.position && i <= j)))
  }

  ghost predicate DefaultAt(statuses: seq<Status>, o: Id, i: nat) {
    i < |statuses| && InUse(statuses[i], o) &&
    forall j: nat {:trigger Earlier(statuses, i, j)} :: j < |statuses| && InUse(statuses[j], o) ==>
      Earlier(statuses, i, j)
  }

  ghost predicate NoneInUse(statuses: seq<Status>, o: Id) {
    forall j {:trigger statuses[j]} :: 0 <= j < |statuses| ==> !InUse(statuses[j], o)
  }

  lemma {:induction false} NamedFound(statuses: seq<Status>, o: Id, name: Id)
    ensures var found := NamedStatus(statuses, o, name);
            if found.Some? then StatusNamed(statuses, o, name, found.value) else NoneNamed(statuses, o, name)
  {
    if statuses == [] {
    } else {
      var rest := statuses[1..];
      NamedFound(rest, o, name);
      if !(InUse(statuses[0], o) && statuses[0].name == name) {
        if NamedStatus(rest, o, name).Some? {
          var i :| 0 <= i < |rest| && rest[i].id == NamedStatus(rest, o, name).value && InUse(rest[i], o) &&
            rest[i].name == name &&
            forall j {:trigger rest[j]} :: 0 <= j < i ==> !(InUse(rest[j], o) && rest[j].name == name);
          assert statuses[i + 1] == rest[i];
          forall j | 0 <= j < i + 1 ensures !(InUse(statuses[j], o) && statuses[j].name == name) {
            assert j > 0 ==> statuses[j] == rest[j - 1];
          }
        } else {
          forall j | 0 <= j < |statuses| ensures !(InUse(statuses[j], o) && statuses[j].name == name) {
            assert j > 0 ==> statuses[j] == rest[j - 1];
          }
        }
      }
    }
  }

  lemma {:induction false} DefaultFound(statuses: seq<Status>, o: Id) returns (i: nat)
    ensures var found := DefaultStatus(statuses, o);
            if found.Some? then DefaultAt(statuses, o, i) && found.value == statuses[i] else NoneInUse(statuses, o)
  {
    i := 0;
    if statuses == [] {
    } else {
      var n := |statuses| - 1;
      var before := statuses[..n];
      var k := DefaultFound(before, o);
      var best := DefaultStatus(before, o);
      assert forall j :: 0 <= j < n ==> statuses[j] == before[j];
      if InUse(statuses[n], o) && (best.None? || RanksBelow(statuses[n], best.value)) {
        i := n;
        forall j: nat | j < |statuses| && InUse(statuses[j], o) ensures Earlier(statuses, n, j) {
          if best.Some? && j < n {
            assert Earlier(before, k, j);
          }
        }
      } else if best.Some? {
        i := k;
        forall j: nat | j < |statuses| && InUse(statuses[j], o) ensures Earlier(statuses, k, j) {
          if j < n {
            assert Earlier(before, k, j);
          }
        }
      }
    }
  }

  /** The status of an imported lead: the one the row names, or else the default one. */
  ghost predicate StatusChosen(d: Desk, o: Id, name: Option<Id>, id: Id) {
    if name.Some? then StatusNamed(d.statuses, o, name.value, id)
    else exists i: nat {:trigger DefaultAt(d.statuses, o, i)} :: DefaultAt(d.statuses, o, i) && d.statuses[i].id == id
  }

  ghost predicate NoStatus(d: Desk, o: Id, name: Option<Id>) {
    if name.Some? then NoneNamed(d.statuses, o, name.value) else NoneInUse(d.statuses, o)
  }

  lemma StatusRight(d: Desk, o: Id, name: Option<Id>)
    ensures var found := StatusFor(d, o, name);
            if found.Some? then StatusChosen(d, o, name, found.value) else NoStatus(d, o, name)
    ensures StatusFor(d, o, name).Some? ==> !NoStatus(d, o, name)
  {
    if name.Some? {
      NamedFound(d.statuses, o, name.value);
    } else {
      var i := DefaultFound(d.statuses, o);
    }
  }

  // ---------------------------------------------------------------- from a row to a lead

  ghost predicate TeamOf(d: Desk, o: Id, e: Id) {
    e in d.employees && d.employees[e].organizationId == o && d.employees[e].team.Some?
  }

  /** The team of the first employee of the organization who has one. */
  ghost predicate FirstTeam(d: Desk, order: seq<Id>, o: Id, team: Option<Id>) {
    match team
    case None => forall i {:trigger order[i]} :: 0 <= i < |order| ==> !TeamOf(d, o, order[i])
    case Some(_) =>
      exists i {:trigger order[i]} ::
        0 <= i < |order| && TeamOf(d, o, order[i]) && d.employees[order[i]].team == team &&
        forall j {:trigger order[j]} :: 0 <= j < i ==> !TeamOf(d, o, order[j])
  }

  lemma {:induction false} AnyIsFirst(d: Desk, order: seq<Id>, o: Id)
    ensures FirstTeam(d, order, o, AnyTeam(d, order, o))
  {
    if order == [] {
    } else {
      var rest := order[1..];
      AnyIsFirst(d, rest, o);
      if TeamOf(d, o, order[0]) {
        assert AnyTeam(d, order, o) == d.employees[order[0]].team;
      } else {
        assert AnyTeam(d, order, o) == AnyTeam(d, rest, o);
        if AnyTeam(d, rest, o).Some? {
          var i :| 0 <= i < |rest| && TeamOf(d, o, rest[i]) && d.employees[rest[i]].team == AnyTeam(d, rest, o) &&
            forall j {:trigger rest[j]} :: 0 <= j < i ==> !TeamOf(d, o, rest[j]);
          assert order[i + 1] == rest[i];
          forall j | 0 <= j < i + 1 ensures !TeamOf(d, o, order[j]) {
            assert j > 0 ==> order[j] == rest[j - 1];
          }
        } else {
          forall j | 0 <= j < |order| ensures !TeamOf(d, o, order[j]) {
            assert j > 0 ==> order[j] == rest[j - 1];
          }
        }
      }
    }
  }

  /** A lead lands in the team of its owner, or else in the caller's first team, or else in some team of all. */
  ghost predicate LandsIn(d: Desk, o: Id, scope: Scope, owner: Option<Id>, team: Option<Id>) {
    if owner.Some? && owner.value in d.employees && d.employees[owner.value].team.Some? then
      team == d.employees[owner.value].team
    else if scope.Teams? then
      team == if |scope.names| == 0 then None else Some(scope.names[0])
    else FirstTeam(d, d.order, o, team)
  }

  lemma LandingRight(d: Desk, o: Id, scope: Scope, owner: Option<Id>)
    ensures LandsIn(d, o, scope, owner, LandingTeam(d, o, scope, owner))
  {
    AnyIsFirst(d, d.order, o);
    hide FirstTeam;
  }

  /** The lead that a row becomes with this owner, cell by cell. */
  ghost predicate LeadOfRow(d: Desk, o: Id, scope: Scope, input: RowInput, owner: Option<Id>, lead: Lead) {
    && lead.organizationId == o && !lead.archived && lead.version == 1
    && input.phone == Some(lead.phone)
    && (input.alternate.Given? ==> lead.alternate == Some(input.alternate.value))
    && (!input.alternate.Given? ==> lead.alternate.None?)
    && (input.source.Given? ==> lead.source == input.source.value)
    && (!input.source.Given? ==> lead.source == CSV_IMPORT)
    && lead.temperature.None? && lead.owner == owner
    && StatusChosen(d, o, input.statusName, lead.statusId)
    && LandsIn(d, o, scope, owner, lead.team)
  }

  lemma NewLeadRight(d: Desk, o: Id, scope: Scope, input: RowInput, owner: Option<Id>)
    requires input.phone.Some? && StatusFor(d, o, input.statusName).Some?
    ensures LeadOfRow(d, o, scope, input, owner, NewLead(d, o, scope, input, owner))
  {
    StatusRight(d, o, input.statusName);
    LandingRight(d, o, scope, owner);
    hide StatusChosen, LandsIn, LandingTeam, StatusFor, NoStatus;
  }

  /** The rows among the first `n` that were valid before and are imported now, in order. */
  function Arrivals(was: seq<Row>, now: seq<Row>, n: nat): (ks: seq<nat>)
    requires n <= |was| && n <= |now|
    ensures forall i :: 0 <= i < |ks| ==> ks[i] < n
  {
    if n == 0 then []
    else
      Arrivals(was, now, n - 1) +
      if was[n - 1].decision == RowValid && now[n - 1].decision == RowImported then [n - 1] else []
  }

  // ---------------------------------------------------------------- phones

  /** The lead has one of the row's phones, as its phone or as its alternate one. */
  ghost predicate HasPhoneOf(lead: Lead, input: RowInput) {
    (input.phone.Some? && (lead.phone == input.phone.value || lead.alternate == input.phone)) ||
    (input.alternate.Given? &&
     (lead.phone == input.alternate.value || lead.alternate == Some(input.alternate.value)))
  }

  /** An active lead of the team has one of the row's phones. */
  ghost predicate HeldBy(lead: Lead, o: Id, team: Option<Id>, input: RowInput) {
    team.Some? && lead.organizationId == o && !lead.archived && lead.team == team && HasPhoneOf(lead, input)
  }

  lemma HeldIsHolds(lead: Lead, o: Id, team: Id, input: RowInput)
    ensures Holds(lead, o, team, PhonesOf(input)) <==> HeldBy(lead, o, Some(team), input)
  {
  }

  /** The first lead that holds the row's phones in its team, and none if none does. */
  ghost predicate HeldFirst(leads: seq<Lead>, o: Id, team: Option<Id>, input: RowInput, holder: Option<nat>) {
    if holder.Some? then
      holder.value < |leads| && HeldBy(leads[holder.value], o, team, input) &&
      forall i {:trigger leads[i]} :: 0 <= i < holder.value ==> !HeldBy(leads[i], o, team, input)
    else forall i {:trigger leads[i]} :: 0 <= i < |leads| ==> !HeldBy(leads[i], o, team, input)
  }

  lemma HolderRight(leads: seq<Lead>, o: Id, row: Row)
    ensures HeldFirst(leads, o, row.team, row.input, HolderFor(leads, o, row))
  {
    if row.team.Some? {
      forall i | 0 <= i < |leads|
        ensures Holds(leads[i], o, row.team.value, PhonesOf(row.input)) <==> HeldBy(leads[i], o, row.team, row.input)
      {
        HeldIsHolds(leads[i], o, row.team.value, row.input);
      }
      hide HasPhoneOf, Holds, PhonesOf;
    }
  }

  ghost predicate CellIs(c: Cell, p: Option<Id>) {
    c.Given? && p == Some(c.value)
  }

  /** The two rows share a phone. */
  ghost predicate RowsShare(a: RowInput, b: RowInput) {
    (a.phone.Some? && (a.phone == b.phone || CellIs(b.alternate, a.phone))) ||
    CellIs(a.alternate, b.phone) || (a.alternate.Given? && a.alternate == b.alternate)
  }

  lemma ShareIsBlock(a: RowInput, b: RowInput)
    ensures PhonesOf(a) * PhonesOf(b) != {} <==> RowsShare(a, b)
  {
    var common := PhonesOf(a) * PhonesOf(b);
    if RowsShare(a, b) {
      var p := if a.phone.Some? && (a.phone == b.phone || CellIs(b.alternate, a.phone)) then a.phone.value
               else a.alternate.value;
      assert p in common;
    }
    if common != {} {
      var p :| p in common;
      assert p in PhonesOf(a) && p in PhonesOf(b);
    }
  }

  // ---------------------------------------------------------------- previews

  ghost predicate HasCode(d: Desk, o: Id, scope: Scope, code: Id, e: Id) {
    AtWork(d, o, e) && Reached(d, scope, d.employees[e].team) && d.employees[e].code == Some(code)
  }

  /** The first employee at work within reach who has this code. */
  ghost predicate OwnerByCode(d: Desk, order: seq<Id>, o: Id, scope: Scope, code: Id, owner: Option<Id>) {
    match owner
    case None => forall i {:trigger order[i]} :: 0 <= i < |order| ==> !HasCode(d, o, scope, code, order[i])
    case Some(e) =>
      exists i {:trigger order[i]} :: 0 <= i < |order| && order[i] == e && HasCode(d, o, scope, code, e) &&
        forall j {:trigger order[j]} :: 0 <= j < i ==> !HasCode(d, o, scope, code, order[j])
  }

  lemma {:induction false} OwnerFound(d: Desk, order: seq<Id>, o: Id, scope: Scope, code: Id)
    ensures OwnerByCode(d, order, o, scope, code, ExplicitOwner(d, order, o, scope, code))
  {
    hide Reached, CanAccessTeam;
    if order == [] {
    } else {
      var rest := order[1..];
      OwnerFound(d, rest, o, scope, code);
      if order[0] in d.employees {
        ReachedIsAccess(d, scope, d.employees[order[0]].team);
      }
      var found := ExplicitOwner(d, rest, o, scope, code);
      if HasCode(d, o, scope, code, order[0]) {
        assert ExplicitOwner(d, order, o, scope, code) == Some(order[0]);
      } else {
        assert ExplicitOwner(d, order, o, scope, code) == found;
        if found.Some? {
          var i :| 0 <= i < |rest| && rest[i] == found.value && HasCode(d, o, scope, code, found.value) &&
            forall j {:trigger rest[j]} :: 0 <= j < i ==> !HasCode(d, o, scope, code, rest[j]);
          assert order[i + 1] == rest[i];
          forall j | 0 <= j < i + 1 ensures !HasCode(d, o, scope, code, order[j]) {
            assert j > 0 ==> order[j] == rest[j - 1];
          }
        } else {
          forall j | 0 <= j < |order| ensures !HasCode(d, o, scope, code, order[j]) {
            assert j > 0 ==> order[j] == rest[j - 1];
          }
        }
      }
    }
  }

  ghost predicate Offers(d: Desk, o: Id, scope: Scope, e: Id) {
    AtWork(d, o, e) && d.employees[e].team.Some? && Reached(d, scope, d.employees[e].team)
  }

  /** The least of the teams of employees at work within reach. */
  ghost predicate LeastTeam(d: Desk, o: Id, scope: Scope, team: Option<Id>) {
    match team
    case None => forall i {:trigger d.order[i]} :: 0 <= i < |d.order| ==> !Offers(d, o, scope, d.order[i])
    case Some(t) =>
      && (exists i {:trigger d.order[i]} ::
            0 <= i < |d.order| && Offers(d, o, scope, d.order[i]) && d.employees[d.order[i]].team == team)
      && (forall i {:trigger d.order[i]} :: 0 <= i < |d.order| && Offers(d, o, scope, d.order[i]) ==>
            t <= d.employees[d.order[i]].team.value)
  }

  lemma LeastFound(d: Desk, o: Id, scope: Scope)
    ensures LeastTeam(d, o, scope, DefaultTeam(d, d.order, o, scope))
  {
    forall i | 0 <= i < |d.order|
      ensures OffersTeam(d, o, scope, d.order[i]) <==> Offers(d, o, scope, d.order[i])
    {
      if d.order[i] in d.employees {
        ReachedIsAccess(d, scope, d.employees[d.order[i]].team);
      }
    }
    var team := DefaultTeam(d, d.order, o, scope);
    if team.Some? {
      var i :| 0 <= i < |d.order| && OffersTeam(d, o, scope, d.order[i]) && team == d.employees[d.order[i]].team;
      assert Offers(d, o, scope, d.order[i]);
    }
    hide OffersTeam, Offers;
  }

  /** The owner that the row names by code; none if it names none or nobody has the code. */
  ghost predicate NamedOwner(d: Desk, o: Id, scope: Scope, input: RowInput, owner: Option<Id>) {
    if input.ownerCode.Some? then OwnerByCode(d, d.order, o, scope, input.ownerCode.value, owner) else owner.None?
  }

  /** The row's team: that of the owner it names, or else the least team within reach. */
  ghost predicate TeamOfRow(d: Desk, o: Id, scope: Scope, owner: Option<Id>, team: Option<Id>) {
    if owner.Some? && owner.value in d.employees && d.employees[owner.value].team.Some?
    then team == d.employees[owner.value].team
    else LeastTeam(d, o, scope, team)
  }

  /** The cells of the row are in order, its status and owner are known, and there is a team for it. */
  ghost predicate CellsRight(d: Desk, o: Id, input: RowInput, owner: Option<Id>, team: Option<Id>) {
    && input.named && input.phone.Some? && input.emailOk && !input.alternate.Malformed? && !input.source.Malformed?
    && !NoStatus(d, o, input.statusName) && (input.ownerCode.Some? ==> owner.Some?) && team.Some?
  }

  /** A row with its cells in order is valid exactly if its phones are new to its team, in the file and in the leads. */
  ghost predicate DecidedRightly(d: Desk, o: Id, leads: seq<Lead>, rows: seq<Row>, i: nat, owner: Option<Id>)
    requires i < |rows|
  {
    var row := rows[i];
    var inOrder := CellsRight(d, o, row.input, owner, row.team);
    var repeats := CellIs(row.input.alternate, row.input.phone) ||
                   exists j {:trigger rows[j]} :: 0 <= j < i && rows[j].decision == RowValid &&
                     rows[j].team == row.team && RowsShare(rows[j].input, row.input);
    && (row.decision == RowInvalid <==> !inOrder)
    && (row.decision == RowValid <==>
          inOrder && !repeats &&
          forall k {:trigger leads[k]} :: 0 <= k < |leads| ==> !HeldBy(leads[k], o, row.team, row.input))
    && row.decision != RowImported
  }

  /** A valid row goes to the owner it names, or else to one of the first rule that takes it, or to nobody. */
  ghost predicate OwnedRightly(d: Desk, o: Id, scope: Scope, row: Row, owner: Option<Id>) {
    if owner.Some? || row.decision != RowValid then row.proposed == owner && row.ruleId.None?
    else
      var source := if row.input.source.Given? then row.input.source.value else CSV_IMPORT;
      exists status: Id {:trigger StatusChosen(d, o, row.input.statusName, status)} ::
        StatusChosen(d, o, row.input.statusName, status) &&
        if row.ruleId.None? then row.proposed.None? && NoneTakes(d, o, scope, row.team, source, None, status)
        else
          exists rule {:trigger FirstToTake(d, o, scope, rule, row.team, source, None, status)} ::
            FirstToTake(d, o, scope, rule, row.team, source, None, status) && row.ruleId == Some(rule.id) &&
            OwnerOfRule(rule, row.proposed)
  }

  ghost predicate RowRight(d: Desk, o: Id, scope: Scope, leads: seq<Lead>, rows: seq<Row>, i: nat)
    requires i < |rows|
  {
    exists owner: Option<Id> {:trigger NamedOwner(d, o, scope, rows[i].input, owner)} ::
      NamedOwner(d, o, scope, rows[i].input, owner) && TeamOfRow(d, o, scope, owner, rows[i].team) &&
      DecidedRightly(d, o, leads, rows, i, owner) && OwnedRightly(d, o, scope, rows[i], owner)
  }

  lemma OwnerNamed(d: Desk, o: Id, scope: Scope, input: RowInput)
    ensures NamedOwner(d, o, scope, input, OwnerOf(d, o, scope, input))
    ensures TeamOfRow(d, o, scope, OwnerOf(d, o, scope, input), RowTeam(d, o, scope, input))
  {
    if input.ownerCode.Some? {
      OwnerFound(d, d.order, o, scope, input.ownerCode.value);
    }
    LeastFound(d, o, scope);
    hide OwnerByCode, LeastTeam;
  }

  lemma CellsAreValid(d: Desk, o: Id, scope: Scope, input: RowInput)
    ensures FieldsValid(d, o, scope, input) <==>
              CellsRight(d, o, input, OwnerOf(d, o, scope, input), RowTeam(d, o, scope, input))
  {
    StatusRight(d, o, input.statusName);
    hide StatusFor, NoStatus, StatusChosen, OwnerOf, RowTeam;
  }

  lemma DecisionRight(d: Desk, o: Id, scope: Scope, leads: seq<Lead>, rows: seq<Row>, i: nat)
    requires i < |rows| && RightDecision(d, o, scope, leads, rows, i)
    requires rows[i].team == RowTeam(d, o, scope, rows[i].input)
    ensures DecidedRightly(d, o, leads, rows, i, OwnerOf(d, o, scope, rows[i].input))
  {
    CellsAreValid(d, o, scope, rows[i].input);
    HolderRight(leads, o, rows[i]);
    forall j | 0 <= j < i
      ensures Blocks(rows[j], rows[i]) <==>
                rows[j].decision == RowValid && rows[j].team == rows[i].team && RowsShare(rows[j].input, rows[i].input)
    {
      ShareIsBlock(rows[j].input, rows[i].input);
    }
    hide FieldsValid, CellsRight, HeldBy, RowsShare, Blocks, HolderFor, OwnerOf, RowTeam;
  }

  lemma OwnershipRight(d: Desk, o: Id, scope: Scope, cursors: map<Id, nat>, rows: seq<Row>, i: nat)
    requires i < |rows| && RightOwner(d, o, scope, cursors, rows, i)
    ensures OwnedRightly(d, o, scope, rows[i], OwnerOf(d, o, scope, rows[i].input))
  {
    var row := rows[i];
    if row.decision == RowValid && OwnerOf(d, o, scope, row.input).None? {
      StatusRight(d, o, row.input.statusName);
      var t := RowTraits(d, o, row.input, row.team);
      BestIsFirst(d, o, scope, t);
      var rule := BestRule(d.rules, d, o, scope, t);
      if rule.Some? {
        DueIsOwner(rule.value, CursorOf(cursors, rule.value.id) + RuleRows(rows, rule.value.id, i));
      }
    }
    hide StatusFor, NoStatus, StatusChosen, OwnerOf, FirstToTake, NoneTakes, OwnerOfRule, OwnerAt, BestRule, RuleRows;
  }

  /** What a preview says is right, row by row. */
  lemma PreviewRight(d: Desk, o: Id, scope: Scope, leads: seq<Lead>, cursors: map<Id, nat>, rows: seq<Row>, i: nat)
    requires i < |rows| && RowPreviewed(d, o, scope, leads, cursors, rows, i)
    ensures RowRight(d, o, scope, leads, rows, i)
  {
    OwnerNamed(d, o, scope, rows[i].input);
    DecisionRight(d, o, scope, leads, rows, i);
    OwnershipRight(d, o, scope, cursors, rows, i);
    hide RowTeam, OwnerOf, RightDecision, RightOwner, DecidedRightly, OwnedRightly, TeamOfRow;
  }
}
