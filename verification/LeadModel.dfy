/**
 * Leads, the people who own them, and the assignment rules: the records that lead import and
 * rule assignment read, and the read-only tests on them.
 */
module LeadModel {
  import opened Common

  /** Teams are named in the order that the source sorts them; `code` is the folded employee code. */
  datatype Employee = Employee(organizationId: Id, active: bool, team: Option<Id>, code: Option<Id>)

  datatype Status = Status(id: Id, organizationId: Id, active: bool, name: Id, initial: bool, position: int)

  datatype Strategy = RoundRobin | FixedOwner

  /** An empty set puts no condition on the lead. */
  datatype Conditions = Conditions(sources: set<Id>, temperatures: set<Id>, statusIds: set<Id>)

  datatype Rule = Rule(
    id: Id, organizationId: Id, team: Id, priority: int, active: bool,
    conditions: Conditions, strategy: Strategy, owners: seq<Id>)

  /** A lead; leads are never removed, so its place in insertion order identifies it. */
  datatype Lead = Lead(
    organizationId: Id, archived: bool, phone: Id, alternate: Option<Id>,
    source: Id, temperature: Option<Id>, statusId: Id,
    owner: Option<Id>, team: Option<Id>, version: nat)

  datatype Scope = Organization | Teams(names: seq<Id>) | Assigned(employeeId: Id)

  /** What the operations on leads read and never write; `order` lists the employees as inserted. */
  datatype Desk = Desk(employees: map<Id, Employee>, order: seq<Id>, statuses: seq<Status>, rules: seq<Rule>)

  /** What a rule looks at. */
  datatype Traits = Traits(team: Option<Id>, source: Id, temperature: Option<Id>, statusId: Id)

  ghost predicate WellFormed(d: Desk) {
    && (forall i :: 0 <= i < |d.order| ==> d.order[i] in d.employees)
    && (forall i, j :: 0 <= i < j < |d.rules| ==> d.rules[i].id != d.rules[j].id)
    && (forall i :: 0 <= i < |d.rules| ==> DistinctOwners(d.rules[i].owners))
  }

  /** Rules are only stored with distinct owners. */
  predicate DistinctOwners(owners: seq<Id>) {
    forall i, j :: 0 <= i < j < |owners| ==> owners[i] != owners[j]
  }

  // ---------------------------------------------------------------- access

  function TeamOfEmployee(d: Desk, e: Option<Id>): Option<Id> {
    if e.Some? && e.value in d.employees then d.employees[e.value].team else None
  }

  function OrElse<T>(a: Option<T>, b: Option<T>): Option<T> {
    if a.Some? then a else b
  }

  predicate CanAccessTeam(d: Desk, scope: Scope, team: Option<Id>) {
    match scope
    case Organization => true
    case Teams(names) => team.Some? && team.value in names
    case Assigned(e) => team.Some? && TeamOfEmployee(d, Some(e)) == team
  }

  /** The team of a lead: its own, or else that of its owner. */
  function LeadTeam(d: Desk, lead: Lead): Option<Id> {
    OrElse(lead.team, TeamOfEmployee(d, lead.owner))
  }

  predicate CanAccessLead(d: Desk, scope: Scope, lead: Lead) {
    match scope
    case Organization => true
    case Assigned(e) => lead.owner == Some(e)
    case Teams(names) => LeadTeam(d, lead).Some? && LeadTeam(d, lead).value in names
  }

  predicate ActiveIn(d: Desk, o: Id, e: Id) {
    e in d.employees && d.employees[e].organizationId == o && d.employees[e].active
  }

  /** The caller may give a lead to employee `e`. */
  predicate MayOwn(d: Desk, o: Id, scope: Scope, e: Id) {
    ActiveIn(d, o, e) &&
    match scope
    case Organization => true
    case Assigned(self) => self == e
    case Teams(names) => d.employees[e].team.Some? && d.employees[e].team.value in names
  }

  // ---------------------------------------------------------------- rules

  predicate OwnersReady(d: Desk, o: Id, rule: Rule, team: Id) {
    rule.owners != [] &&
    forall i :: 0 <= i < |rule.owners| ==>
      ActiveIn(d, o, rule.owners[i]) && d.employees[rule.owners[i]].team == Some(team)
  }

  predicate ConditionsHold(c: Conditions, t: Traits) {
    && (c.sources != {} ==> t.source in c.sources)
    && (c.temperatures != {} ==> t.temperature.Some? && t.temperature.value in c.temperatures)
    && (c.statusIds != {} ==> t.statusId in c.statusIds)
  }

  /** The rule may assign a lead with these traits now. */
  predicate Eligible(d: Desk, o: Id, scope: Scope, rule: Rule, t: Traits) {
    rule.active && t.team == Some(rule.team) && CanAccessTeam(d, scope, t.team) &&
    OwnersReady(d, o, rule, rule.team) && ConditionsHold(rule.conditions, t)
  }

  predicate Matches(d: Desk, o: Id, scope: Scope, rule: Rule, t: Traits) {
    rule.organizationId == o && Eligible(d, o, scope, rule, t)
  }

  predicate Precedes(a: Rule, b: Rule) {
    a.priority < b.priority || (a.priority == b.priority && a.id <= b.id)
  }

  /** The first of the matching rules by priority, then by identifier. */
  function BestRule(rules: seq<Rule>, d: Desk, o: Id, scope: Scope, t: Traits): (best: Option<Rule>)
    ensures best.None? <==> forall i :: 0 <= i < |rules| ==> !Matches(d, o, scope, rules[i], t)
    ensures best.Some? ==> best.value in rules && Matches(d, o, scope, best.value, t)
    ensures best.Some? ==>
              forall i :: 0 <= i < |rules| && Matches(d, o, scope, rules[i], t) ==>
                best.value.priority < rules[i].priority ||
                (best.value.priority == rules[i].priority && best.value.id <= rules[i].id)
  {
    if rules == [] then None
    else
      var n := |rules| - 1;
      var best := BestRule(rules[..n], d, o, scope, t);
      if Matches(d, o, scope, rules[n], t) && (best.None? || !Precedes(best.value, rules[n])) then Some(rules[n])
      else best
  }

  function FindRule(rules: seq<Rule>, id: Id): (found: Option<Rule>)
    ensures found.Some? ==> found.value in rules && found.value.id == id
    ensures found.None? ==> forall i :: 0 <= i < |rules| ==> rules[i].id != id
  {
    if rules == [] then None
    else if rules[0].id == id then Some(rules[0])
    else FindRule(rules[1..], id)
  }

  /** Rule identifiers are unique, so a stored rule is found again by its identifier. */
  lemma FindsRule(d: Desk, rule: Rule)
    requires WellFormed(d) && rule in d.rules
    ensures FindRule(d.rules, rule.id) == Some(rule)
  {
    var found := FindRule(d.rules, rule.id);
    var i :| 0 <= i < |d.rules| && d.rules[i] == rule;
    var j :| 0 <= j < |d.rules| && d.rules[j] == found.value;
    assert i == j;
  }

  function TraitsOf(d: Desk, lead: Lead): Traits {
    Traits(LeadTeam(d, lead), lead.source, lead.temperature, lead.statusId)
  }

  // ---------------------------------------------------------------- rotation of owners

  function CursorOf(cursors: map<Id, nat>, ruleId: Id): nat {
    if ruleId in cursors then cursors[ruleId] else 0
  }

  /** The owner whose turn it is once the rule's cursor stands at `cursor`. */
  function OwnerAt(rule: Rule, cursor: nat): Id
    requires rule.owners != []
  {
    if rule.strategy.FixedOwner? then rule.owners[0] else rule.owners[cursor % |rule.owners|]
  }

  function Advance(cursors: map<Id, nat>, rule: Rule): map<Id, nat> {
    if rule.strategy.RoundRobin? then cursors[rule.id := CursorOf(cursors, rule.id) + 1] else cursors
  }

  // ---------------------------------------------------------------- directory look-ups

  /** The active employee with this code, the first one in insertion order. */
  function ExplicitOwner(d: Desk, order: seq<Id>, o: Id, scope: Scope, code: Id): (found: Option<Id>)
    ensures found.Some? ==> found.value in order && ActiveIn(d, o, found.value)
    ensures found.Some? ==> CanAccessTeam(d, scope, d.employees[found.value].team)
  {
    if order == [] then None
    else if ActiveIn(d, o, order[0]) && CanAccessTeam(d, scope, d.employees[order[0]].team) &&
            d.employees[order[0]].code == Some(code) then Some(order[0])
    else ExplicitOwner(d, order[1..], o, scope, code)
  }

  predicate OffersTeam(d: Desk, o: Id, scope: Scope, e: Id) {
    ActiveIn(d, o, e) && d.employees[e].team.Some? && CanAccessTeam(d, scope, d.employees[e].team)
  }

  /** The least team with an active employee that the caller can reach: the default for imported rows. */
  function DefaultTeam(d: Desk, order: seq<Id>, o: Id, scope: Scope): (team: Option<Id>)
    ensures team.None? <==> forall i :: 0 <= i < |order| ==> !OffersTeam(d, o, scope, order[i])
    ensures team.Some? ==> forall i :: 0 <= i < |order| && OffersTeam(d, o, scope, order[i]) ==>
              team.value <= d.employees[order[i]].team.value
    ensures team.Some? ==> CanAccessTeam(d, scope, team)
    ensures team.Some? ==>
      exists i :: 0 <= i < |order| && OffersTeam(d, o, scope, order[i]) && team == d.employees[order[i]].team
  {
    if order == [] then None
    else
      var rest := DefaultTeam(d, order[1..], o, scope);
      assert rest.Some? ==>
          exists i :: 0 < i < |order| && OffersTeam(d, o, scope, order[i]) && rest == d.employees[order[i]].team by {
        if rest.Some? {
          var i :| 0 <= i < |order| - 1 && OffersTeam(d, o, scope, order[1..][i]) &&
                   rest == d.employees[order[1..][i]].team;
          assert order[1..][i] == order[i + 1];
        }
      }
      if OffersTeam(d, o, scope, order[0]) && (rest.None? || d.employees[order[0]].team.value < rest.value)
      then d.employees[order[0]].team else rest
  }

  /** The team of the first employee of the organization that has one. */
  function AnyTeam(d: Desk, order: seq<Id>, o: Id): Option<Id> {
    if order == [] then None
    else if order[0] in d.employees && d.employees[order[0]].organizationId == o && d.employees[order[0]].team.Some?
    then d.employees[order[0]].team
    else AnyTeam(d, order[1..], o)
  }

  function NamedStatus(statuses: seq<Status>, o: Id, name: Id): Option<Id> {
    if statuses == [] then None
    else if statuses[0].organizationId == o && statuses[0].active && statuses[0].name == name then Some(statuses[0].id)
    else NamedStatus(statuses[1..], o, name)
  }

  predicate RanksBelow(a: Status, b: Status) {
    (a.initial && !b.initial) || (a.initial == b.initial && a.position < b.position)
  }

  /** Initial statuses come first, then lower positions, then earlier insertion. */
  function DefaultStatus(statuses: seq<Status>, o: Id): Option<Status> {
    if statuses == [] then None
    else
      var n := |statuses| - 1;
      var best := DefaultStatus(statuses[..n], o);
      if statuses[n].organizationId == o && statuses[n].active && (best.None? || RanksBelow(statuses[n], best.value))
      then Some(statuses[n]) else best
  }

  function StatusFor(d: Desk, o: Id, name: Option<Id>): Option<Id> {
    if name.Some? then NamedStatus(d.statuses, o, name.value)
    else
      var s := DefaultStatus(d.statuses, o);
      if s.Some? then Some(s.value.id) else None
  }

  // ---------------------------------------------------------------- phones

  predicate HasPhone(lead: Lead, phones: set<Id>) {
    lead.phone in phones || (lead.alternate.Some? && lead.alternate.value in phones)
  }

  predicate Holds(lead: Lead, o: Id, team: Id, phones: set<Id>) {
    lead.organizationId == o && !lead.archived && lead.team == Some(team) && HasPhone(lead, phones)
  }

  /** The first active lead of the team with one of the phones. */
  function FirstHolder(leads: seq<Lead>, o: Id, team: Id, phones: set<Id>): (found: Option<nat>)
    ensures found.None? <==> forall i :: 0 <= i < |leads| ==> !Holds(leads[i], o, team, phones)
    ensures found.Some? ==> found.value < |leads| && Holds(leads[found.value], o, team, phones)
    ensures found.Some? ==>
              forall i :: 0 <= i < found.value ==> !Holds(leads[i], o, team, phones)
  {
    if leads == [] then None
    else
      var n := |leads| - 1;
      var earlier := FirstHolder(leads[..n], o, team, phones);
      if earlier.Some? then earlier else if Holds(leads[n], o, team, phones) then Some(n) else None
  }
}
