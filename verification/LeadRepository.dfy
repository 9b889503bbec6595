/**
 * The part of the in-memory repository that imports and assigns leads, in its own form: one object
 * whose methods loop over rows and leads and update its fields.
 */
module LeadRepository {
  import opened Common
  import opened LeadModel
  import opened LeadArrivals
  import opened LeadAssignment
  import opened LeadFacts
  import opened LeadImport
  import opened LeadProgress

  datatype DryRun = DryRun(matched: nat, unmatched: nat, distribution: map<Id, nat>)

  datatype ApplyResult = ApplyResult(dryRun: DryRun, applied: nat)

  datatype ApplyReceipt = ApplyReceipt(fingerprint: Id, result: ApplyResult)

  datatype ApplyOutcome = Applied(result: ApplyResult, replayed: bool) | ApplyConflict

  datatype JobStatus = PreviewReady | Processing | Interrupted | Completed

  datatype Job = Job(
    organizationId: Id, createdBy: Id, teams: set<Id>, rows: seq<Row>,
    counters: Counters, processed: nat, status: JobStatus)

  datatype PreviewReceipt = PreviewReceipt(fingerprint: Id, jobId: Id)

  datatype PreviewOutcome = Staged(jobId: Id, job: Job, replayed: bool) | PreviewConflict | PreviewForbidden

  datatype CommitReceipt = CommitReceipt(fingerprint: Id, jobId: Id, job: Job)

  datatype CommitOutcome = Committed(job: Job, replayed: bool) | NoSuchImport | CommitConflict

  function ShareIn(distribution: map<Id, nat>, e: Id): nat {
    if e in distribution then distribution[e] else 0
  }

  /** The working copy of the cursors over the stored ones. */
  function Overlaid(stored: map<Id, nat>, working: map<Id, nat>, ruleId: Id): nat {
    if ruleId in working then working[ruleId] else CursorOf(stored, ruleId)
  }

  // ---------------------------------------------------------------- one turn of the loops

  ghost predicate Stands(d: Desk, o: Id, scope: Scope, leads: seq<Lead>, cursors: map<Id, nat>, working: map<Id, nat>,
                         i: nat, ruleId: Id)
    requires i <= |leads|
  {
    var turns := Turns(d, o, scope, leads, ruleId, i);
    Overlaid(cursors, working, ruleId) == CursorOf(cursors, ruleId) + turns && (ruleId in working <==> turns > 0)
  }

  /** The working cursors after the first `i` leads. */
  ghost predicate Kept(d: Desk, o: Id, scope: Scope, leads: seq<Lead>, cursors: map<Id, nat>, working: map<Id, nat>,
                       i: nat)
    requires i <= |leads|
  {
    forall id: Id {:trigger Stands(d, o, scope, leads, cursors, working, i, id)} ::
      Stands(d, o, scope, leads, cursors, working, i, id)
  }

  function Worked(cursors: map<Id, nat>, working: map<Id, nat>, rule: Option<Rule>): map<Id, nat> {
    if rule.Some? && rule.value.strategy.RoundRobin?
    then working[rule.value.id := Overlaid(cursors, working, rule.value.id) + 1] else working
  }

  lemma TurnTaken(d: Desk, o: Id, scope: Scope, leads: seq<Lead>, cursors: map<Id, nat>, working: map<Id, nat>, i: nat)
    requires i < |leads| && Kept(d, o, scope, leads, cursors, working, i)
    ensures var rule := RuleOf(d, o, scope, leads[i]);
            Kept(d, o, scope, leads, cursors, Worked(cursors, working, rule), i + 1) &&
            PlannedOwner(d, o, scope, leads, cursors, i) ==
              if rule.Some? then Some(OwnerAt(rule.value, Overlaid(cursors, working, rule.value.id))) else None
  {
    var rule := RuleOf(d, o, scope, leads[i]);
    var next, n := Worked(cursors, working, rule), i + 1;
    forall id: Id ensures Stands(d, o, scope, leads, cursors, next, n, id) {
      assert Stands(d, o, scope, leads, cursors, working, i, id);
    }
    if rule.Some? {
      assert Stands(d, o, scope, leads, cursors, working, i, rule.value.id);
    }
  }

  /** The leads after the first `i` were visited. */
  ghost predicate Visited(d: Desk, o: Id, scope: Scope, was: seq<Lead>, cursors: map<Id, nat>, now: seq<Lead>, i: nat)
  {
    |now| == |was| &&
    forall j {:trigger now[j]} :: 0 <= j < |was| ==>
      now[j] == if j < i then AppliedLead(d, o, scope, was, cursors, j) else was[j]
  }

  lemma LeadVisited(d: Desk, o: Id, scope: Scope, was: seq<Lead>, cursors: map<Id, nat>, now: seq<Lead>, i: nat)
    requires Visited(d, o, scope, was, cursors, now, i) && i < |was|
    ensures now[i] == was[i]
    ensures Visited(d, o, scope, was, cursors, now[i := AppliedLead(d, o, scope, was, cursors, i)], i + 1)
    ensures PlannedOwner(d, o, scope, was, cursors, i).None? ==> Visited(d, o, scope, was, cursors, now, i + 1)
  {
  }

  ghost predicate Shared(d: Desk, o: Id, scope: Scope, leads: seq<Lead>, cursors: map<Id, nat>,
                         distribution: map<Id, nat>, i: nat)
    requires i <= |leads|
  {
    forall e: Id {:trigger ShareIn(distribution, e)} ::
      ShareIn(distribution, e) == Share(d, o, scope, leads, cursors, e, i)
  }

  lemma ShareTaken(d: Desk, o: Id, scope: Scope, leads: seq<Lead>, cursors: map<Id, nat>, distribution: map<Id, nat>,
                   i: nat)
    requires i < |leads| && Shared(d, o, scope, leads, cursors, distribution, i)
    ensures var owner := PlannedOwner(d, o, scope, leads, cursors, i);
            Shared(d, o, scope, leads, cursors,
              if owner.Some? then distribution[owner.value := ShareIn(distribution, owner.value) + 1]
              else distribution, i + 1)
  {
    var owner := PlannedOwner(d, o, scope, leads, cursors, i);
    var next := if owner.Some? then distribution[owner.value := ShareIn(distribution, owner.value) + 1]
        else distribution;
    forall e: Id ensures ShareIn(next, e) == Share(d, o, scope, leads, cursors, e, i + 1) {
      assert ShareIn(distribution, e) == Share(d, o, scope, leads, cursors, e, i);
    }
  }

  /** The dry-run report of a state. */
  ghost predicate Reports(d: Desk, o: Id, scope: Scope, leads: seq<Lead>, cursors: map<Id, nat>, r: DryRun) {
    && r.matched == Matched(d, o, scope, leads, |leads|)
    && r.unmatched == Unmatched(d, o, scope, leads, |leads|)
    && Shared(d, o, scope, leads, cursors, r.distribution, |leads|)
  }

  // ---------------------------------------------------------------- staging rows

  /** The phones of the valid rows so far, by team. */
  ghost predicate PhonesKnown(phones: map<(Option<Id>, Id), nat>, rows: seq<Row>) {
    forall team: Option<Id>, p: Id {:trigger (team, p) in phones} ::
      (team, p) in phones <==>
        exists j {:trigger rows[j]} :: 0 <= j < |rows| && rows[j].decision == RowValid && rows[j].team == team &&
          p in PhonesOf(rows[j].input)
  }

  /** The working cursors of a preview count the rows that each rule proposed so far. */
  ghost predicate Proposing(d: Desk, cursors: map<Id, nat>, working: map<Id, nat>, rows: seq<Row>) {
    forall rule {:trigger rule in d.rules} :: rule in d.rules && rule.strategy.RoundRobin? ==>
      Overlaid(cursors, working, rule.id) == CursorOf(cursors, rule.id) + RuleRows(rows, rule.id, |rows|)
  }

  lemma {:induction false} RuleRowsPrefix(rows: seq<Row>, row: Row, ruleId: Id, n: nat)
    requires n <= |rows|
    ensures RuleRows(rows + [row], ruleId, n) == RuleRows(rows, ruleId, n)
  {
    if n == 0 {
    } else {
      RuleRowsPrefix(rows, row, ruleId, n - 1);
    }
  }

  lemma DecisionStands(d: Desk, o: Id, scope: Scope, leads: seq<Lead>, rows: seq<Row>, row: Row, i: nat)
    requires i < |rows| && RightDecision(d, o, scope, leads, rows, i)
    ensures RightDecision(d, o, scope, leads, rows + [row], i)
  {
    var more := rows + [row];
    assert Repeated(more, i) <==> Repeated(rows, i) by {
      assert forall j :: 0 <= j <= i ==> more[j] == rows[j];
    }
    hide FieldsValid, HolderFor, Repeated, RepeatsItself;
  }

  lemma OwnerStands(d: Desk, o: Id, scope: Scope, cursors: map<Id, nat>, rows: seq<Row>, row: Row, i: nat)
    requires i < |rows| && RightOwner(d, o, scope, cursors, rows, i)
    ensures RightOwner(d, o, scope, cursors, rows + [row], i)
  {
    var ruleId := if rows[i].ruleId.Some? then rows[i].ruleId.value else 0;
    RuleRowsPrefix(rows, row, ruleId, i);
    hide BestRule, OwnerOf, StatusFor, RuleRows, OwnerAt;
  }

  /** What a preview says about a row does not depend on the rows after it. */
  lemma EarlierRowStands(d: Desk, o: Id, scope: Scope, leads: seq<Lead>, cursors: map<Id, nat>, rows: seq<Row>,
                         row: Row, i: nat)
    requires i < |rows| && RowPreviewed(d, o, scope, leads, cursors, rows, i)
    ensures RowPreviewed(d, o, scope, leads, cursors, rows + [row], i)
  {
    DecisionStands(d, o, scope, leads, rows, row, i);
    OwnerStands(d, o, scope, cursors, rows, row, i);
    hide RightDecision, RightOwner, RowTeam;
  }

  lemma PhoneLearnt(phones: map<(Option<Id>, Id), nat>, rows: seq<Row>, row: Row, more: map<(Option<Id>, Id), nat>)
    requires PhonesKnown(phones, rows)
    requires forall team: Option<Id>, p: Id {:trigger (team, p) in more} ::
      (team, p) in more <==>
        (team, p) in phones || (row.decision == RowValid && row.team == team && p in PhonesOf(row.input))
    ensures PhonesKnown(more, rows + [row])
  {
    var all := rows + [row];
    forall team: Option<Id>, p: Id
      ensures (team, p) in more <==>
        exists j {:trigger all[j]} :: 0 <= j < |all| && all[j].decision == RowValid && all[j].team == team &&
          p in PhonesOf(all[j].input)
    {
      if (team, p) in phones {
        var j :| 0 <= j < |rows| && rows[j].decision == RowValid && rows[j].team == team &&
            p in PhonesOf(rows[j].input);
        assert all[j] == rows[j];
      } else if row.decision == RowValid && row.team == team && p in PhonesOf(row.input) {
        assert all[|rows|] == row;
      }
    }
  }

  ghost predicate PhoneTaken(phones: map<(Option<Id>, Id), nat>, team: Option<Id>, input: RowInput) {
    exists p: Id :: p in PhonesOf(input) && (team, p) in phones
  }

  /** The look-ups in the table of phones find exactly the rows that repeat an earlier one. */
  lemma RepeatFound(phones: map<(Option<Id>, Id), nat>, rows: seq<Row>, row: Row)
    requires PhonesKnown(phones, rows)
    ensures Repeated(rows + [row], |rows|) <==> PhoneTaken(phones, row.team, row.input)
  {
    var all := rows + [row];
    if Repeated(all, |rows|) {
      var j :| 0 <= j < |rows| && Blocks(all[j], all[|rows|]);
      var p :| p in PhonesOf(all[j].input) * PhonesOf(row.input);
      assert rows[j] == all[j];
      assert (row.team, p) in phones;
    }
    if p: Id :| p in PhonesOf(row.input) && (row.team, p) in phones {
      var j :| 0 <= j < |rows| && rows[j].decision == RowValid && rows[j].team == row.team &&
          p in PhonesOf(rows[j].input);
      assert all[j] == rows[j] && p in PhonesOf(rows[j].input) * PhonesOf(row.input);
      assert Blocks(all[j], all[|rows|]);
    }
  }

  /** The row is decided, and carries at most the owner that it names itself. */
  ghost predicate Decided(d: Desk, o: Id, scope: Scope, leads: seq<Lead>, phones: map<(Option<Id>, Id), nat>,
                          row: Row)
  {
    var clean := FieldsValid(d, o, scope, row.input) && !RepeatsItself(row.input) &&
        !PhoneTaken(phones, row.team, row.input);
    && row.team == RowTeam(d, o, scope, row.input)
    && row.proposed == OwnerOf(d, o, scope, row.input) && row.ruleId.None?
    && row.holder == (if clean then HolderFor(leads, o, row) else None)
    && (row.decision == RowValid <==> clean && row.holder.None?)
    && (row.decision == RowInvalid <==> !FieldsValid(d, o, scope, row.input))
    && row.decision != RowImported
  }

  lemma RowDecided(d: Desk, o: Id, scope: Scope, leads: seq<Lead>, phones: map<(Option<Id>, Id), nat>, row: Row,
                   flawed: bool, repeated: bool)
    requires flawed <==> !FieldsValid(d, o, scope, row.input)
    requires repeated <==> RepeatsItself(row.input) || PhoneTaken(phones, row.team, row.input)
    requires row.team == RowTeam(d, o, scope, row.input) && row.proposed == OwnerOf(d, o, scope, row.input)
    requires row.ruleId.None?
    requires !flawed && !repeated ==>
      row.team.Some? && row.holder == FirstHolder(leads, o, row.team.value, PhonesOf(row.input))
    requires flawed || repeated ==> row.holder.None?
    requires row.decision ==
      if flawed then RowInvalid else if repeated || row.holder.Some? then RowDuplicate else RowValid
    ensures Decided(d, o, scope, leads, phones, row)
  {
    hide FieldsValid, RepeatsItself, PhoneTaken, RowTeam, OwnerOf, FirstHolder, PhonesOf;
  }

  /** The rule that proposes an owner for a decided row. */
  function ProposingRule(d: Desk, o: Id, scope: Scope, row: Row): Option<Rule> {
    if row.decision == RowValid && row.proposed.None? && StatusFor(d, o, row.input.statusName).Some?
    then BestRule(d.rules, d, o, scope, RowTraits(d, o, row.input, row.team)) else None
  }

  function Proposed(row: Row, rule: Option<Rule>, cursors: map<Id, nat>, working: map<Id, nat>): Row
    requires rule.Some? ==> rule.value.owners != []
  {
    if rule.None? then row
    else row.(ruleId := Some(rule.value.id),
              proposed := Some(OwnerAt(rule.value, Overlaid(cursors, working, rule.value.id))))
  }

  /** The rule that proposes an owner is a stored one, and the only one with its identifier. */
  lemma ProposingRuleStored(d: Desk, o: Id, scope: Scope, row: Row, other: Rule)
    requires WellFormed(d) && ProposingRule(d, o, scope, row).Some? && other in d.rules
    ensures ProposingRule(d, o, scope, row).value in d.rules
    ensures other.id == ProposingRule(d, o, scope, row).value.id ==> other == ProposingRule(d, o, scope, row).value
  {
    FindsRule(d, other);
    FindsRule(d, ProposingRule(d, o, scope, row).value);
  }

  lemma ProposingKept(d: Desk, o: Id, scope: Scope, cursors: map<Id, nat>, working: map<Id, nat>, rows: seq<Row>,
                      row: Row)
    requires Proposing(d, cursors, working, rows) && WellFormed(d) && row.ruleId.None?
    ensures var rule := ProposingRule(d, o, scope, row);
            Proposing(d, cursors, Worked(cursors, working, rule), rows + [Proposed(row, rule, cursors, working)])
  {
    var rule := ProposingRule(d, o, scope, row);
    var staged := Proposed(row, rule, cursors, working);
    forall other | other in d.rules && other.strategy.RoundRobin?
      ensures RuleRows(rows + [staged], other.id, |rows|) == RuleRows(rows, other.id, |rows|)
      ensures rule.Some? && other.id == rule.value.id ==> other == rule.value
    {
      RuleRowsPrefix(rows, staged, other.id, |rows|);
      if rule.Some? {
        ProposingRuleStored(d, o, scope, row, other);
      }
    }
    hide ProposingRule, WellFormed, OwnerAt;
  }

  lemma RowStaged(d: Desk, o: Id, scope: Scope, leads: seq<Lead>, cursors: map<Id, nat>, working: map<Id, nat>,
                  phones: map<(Option<Id>, Id), nat>, rows: seq<Row>, row: Row)
    requires PhonesKnown(phones, rows) && Proposing(d, cursors, working, rows) && WellFormed(d)
    requires Decided(d, o, scope, leads, phones, row)
    ensures var rule := ProposingRule(d, o, scope, row);
            RowPreviewed(d, o, scope, leads, cursors, rows + [Proposed(row, rule, cursors, working)], |rows|)
  {
    var rule := ProposingRule(d, o, scope, row);
    var staged := Proposed(row, rule, cursors, working);
    RepeatFound(phones, rows, staged);
    hide FieldsValid, RowTeam, HolderFor, OwnerOf, PhonesKnown, Repeated;
    if rule.Some? {
      ProposingRuleStored(d, o, scope, row, rule.value);
      RuleRowsPrefix(rows, staged, rule.value.id, |rows|);
    }
  }

  lemma AllPreviewed(d: Desk, o: Id, scope: Scope, leads: seq<Lead>, cursors: map<Id, nat>, rows: seq<Row>, row: Row)
    requires Previewed(d, o, scope, leads, cursors, rows)
    requires RowPreviewed(d, o, scope, leads, cursors, rows + [row], |rows|)
    ensures Previewed(d, o, scope, leads, cursors, rows + [row])
  {
    hide RowPreviewed;
    var all := rows + [row];
    forall i: nat | i < |all| ensures RowPreviewed(d, o, scope, leads, cursors, all, i) {
      if i < |rows| {
        assert RowPreviewed(d, o, scope, leads, cursors, rows, i);
        EarlierRowStands(d, o, scope, leads, cursors, rows, row, i);
      }
    }
  }

  // ---------------------------------------------------------------- import jobs

  /** What holds of a stored job between calls. */
  ghost predicate JobSound(job: Job) {
    && Accounted(job.rows, job.counters)
    && job.processed == |job.rows| - |Pending(job.rows, |job.rows|)|
    && (job.status == Completed ==> Pending(job.rows, |job.rows|) == [])
    && (job.status == Interrupted ==> Pending(job.rows, |job.rows|) != [])
    && job.status != Processing
  }

  predicate CanAccessJob(d: Desk, o: Id, scope: Scope, actor: Id, job: Job) {
    job.organizationId == o &&
    (scope.Organization? ||
     (job.createdBy == actor && forall team :: team in job.teams ==> CanAccessTeam(d, scope, Some(team))))
  }

  /** The caller may see the job: of their organization, and their own with teams within reach, or they see all. */
  ghost predicate JobReached(d: Desk, o: Id, scope: Scope, actor: Id, job: Job) {
    && job.organizationId == o
    && (scope.Organization? ||
        (job.createdBy == actor && forall team: Id {:trigger team in job.teams} :: team in job.teams ==>
           Reached(d, scope, Some(team))))
  }

  lemma JobAccess(d: Desk, o: Id, scope: Scope, actor: Id, job: Job)
    ensures CanAccessJob(d, o, scope, actor, job) <==> JobReached(d, o, scope, actor, job)
  {
    forall team | team in job.teams ensures CanAccessTeam(d, scope, Some(team)) <==> Reached(d, scope, Some(team)) {
      ReachedIsAccess(d, scope, Some(team));
    }
    hide CanAccessTeam, Reached;
  }

  /** The leads that are free and taken by some rule, among the first `n`. */
  ghost function TakenLeads(d: Desk, o: Id, scope: Scope, leads: seq<Lead>, n: nat): nat
    requires n <= |leads|
  {
    if n == 0 then 0
    else
      var lead := leads[n - 1];
      TakenLeads(d, o, scope, leads, n - 1) +
      if FreeLead(o, scope, lead) && !NoneTakes(d, o, scope, lead.team, lead.source, lead.temperature, lead.statusId)
      then 1 else 0
  }

  ghost function FreeLeads(o: Id, scope: Scope, leads: seq<Lead>, n: nat): nat
    requires n <= |leads|
  {
    if n == 0 then 0 else FreeLeads(o, scope, leads, n - 1) + if FreeLead(o, scope, leads[n - 1]) then 1 else 0
  }

  ghost function Due(plan: seq<Option<Id>>, e: Id, n: nat): nat
    requires n <= |plan|
  {
    if n == 0 then 0 else Due(plan, e, n - 1) + if plan[n - 1] == Some(e) then 1 else 0
  }

  /** The report counts leads taken and left over, and what each employee is due under some right plan. */
  ghost predicate ReportsRightly(d: Desk, o: Id, scope: Scope, leads: seq<Lead>, r: DryRun, plan: seq<Option<Id>>) {
    && r.matched == TakenLeads(d, o, scope, leads, |leads|)
    && r.matched + r.unmatched == FreeLeads(o, scope, leads, |leads|)
    && |plan| == |leads|
    && (forall i {:trigger plan[i]} :: 0 <= i < |leads| ==> DueRightly(d, o, scope, leads[i], plan[i]))
    && forall e: Id {:trigger Due(plan, e, |plan|)} :: ShareIn(r.distribution, e) == Due(plan, e, |plan|)
  }

  lemma {:induction false} CountsRight(d: Desk, o: Id, scope: Scope, leads: seq<Lead>, n: nat)
    requires n <= |leads|
    ensures Matched(d, o, scope, leads, n) == TakenLeads(d, o, scope, leads, n)
    ensures Matched(d, o, scope, leads, n) + Unmatched(d, o, scope, leads, n) == FreeLeads(o, scope, leads, n)
  {
    if n == 0 {
    } else {
      CountsRight(d, o, scope, leads, n - 1);
      TakenRight(d, o, scope, leads[n - 1]);
      FreeIsUnassigned(d, o, scope, leads[n - 1]);
    }
  }

  lemma TakenRight(d: Desk, o: Id, scope: Scope, lead: Lead)
    ensures RuleOf(d, o, scope, lead).Some? <==>
              FreeLead(o, scope, lead) &&
              !NoneTakes(d, o, scope, lead.team, lead.source, lead.temperature, lead.statusId)
  {
    PlannedRightly(d, o, scope, [lead], map[], 0);
    hide FirstToTake, NoneTakes, FreeLead, OwnerOfRule;
  }

  lemma {:induction false} SharesRight(d: Desk, o: Id, scope: Scope, leads: seq<Lead>, cursors: map<Id, nat>,
                                       plan: seq<Option<Id>>, e: Id, n: nat)
    requires n <= |leads| == |plan|
    requires forall i {:trigger plan[i]} :: 0 <= i < |leads| ==> plan[i] == PlannedOwner(d, o, scope, leads, cursors, i)
    ensures Share(d, o, scope, leads, cursors, e, n) == Due(plan, e, n)
  {
    if n == 0 {
    } else {
      SharesRight(d, o, scope, leads, cursors, plan, e, n - 1);
      assert plan[n - 1] == PlannedOwner(d, o, scope, leads, cursors, n - 1);
    }
  }

  /** The report of a state is right, under the plan by which an application would go. */
  lemma ReportRight(d: Desk, o: Id, scope: Scope, leads: seq<Lead>, cursors: map<Id, nat>, r: DryRun)
    requires Reports(d, o, scope, leads, cursors, r)
    ensures exists plan {:trigger ReportsRightly(d, o, scope, leads, r, plan)} ::
              ReportsRightly(d, o, scope, leads, r, plan)
  {
    var plan := seq(|leads|, i requires 0 <= i < |leads| => PlannedOwner(d, o, scope, leads, cursors, i));
    CountsRight(d, o, scope, leads, |leads|);
    forall i | 0 <= i < |leads| ensures DueRightly(d, o, scope, leads[i], plan[i]) {
      PlannedRightly(d, o, scope, leads, cursors, i);
    }
    forall e: Id ensures ShareIn(r.distribution, e) == Due(plan, e, |plan|) {
      SharesRight(d, o, scope, leads, cursors, plan, e, |leads|);
    }
    hide DueRightly, PlannedOwner;
    assert ReportsRightly(d, o, scope, leads, r, plan);
  }

  /** Each rule whose cursor moved gets one new version, however far it moved. */
  function Bumped(versions: map<Id, nat>, d: Desk, moved: set<Id>, ruleId: Id): nat {
    CursorOf(versions, ruleId) + if ruleId in moved && FindRule(d.rules, ruleId).Some? then 1 else 0
  }

  ghost predicate VersionsBumped(was: map<Id, nat>, d: Desk, moved: set<Id>, now: map<Id, nat>) {
    forall r: Id {:trigger CursorOf(now, r)} :: CursorOf(now, r) == Bumped(was, d, moved, r)
  }

  /** Exactly the rules in the working copy have moved on. */
  ghost predicate OnlyMoved(stored: map<Id, nat>, working: map<Id, nat>) {
    forall r: Id {:trigger r in working} :: r in working ==> working[r] > CursorOf(stored, r)
  }

  /** Advancing a rule in the working copy advances it in what the working copy stands for. */
  lemma AdvanceWorking(stored: map<Id, nat>, working: map<Id, nat>, rule: Rule)
    requires OnlyMoved(stored, working)
    ensures CursorOf(stored + working, rule.id) == Overlaid(stored, working, rule.id)
    ensures stored + Worked(stored, working, Some(rule)) == Advance(stored + working, rule)
    ensures OnlyMoved(stored, Worked(stored, working, Some(rule)))
  {
  }

  method CountRows(rows: seq<Row>, decision: Decision) returns (n: nat)
    ensures n == Count(rows, decision, |rows|)
  {
    n := 0;
    for i := 0 to |rows|
      invariant n == Count(rows, decision, i)
    {
      if rows[i].decision == decision {
        n := n + 1;
      }
    }
  }

  /** The first rows that are still valid, at most fifty of them. */
  method NextRows(rows: seq<Row>) returns (batch: seq<nat>)
    ensures batch == Pending(rows, |rows|)[..BatchSize(rows)]
  {
    batch := [];
    for i := 0 to |rows|
      invariant batch == Pending(rows, i)
    {
      if rows[i].decision == RowValid {
        batch := batch + [i];
      }
    }
    if |batch| > BATCH {
      batch := batch[..BATCH];
    }
  }

  /** A batch half done: the first `m` rows of the list are committed. */
  ghost predicate Underway(d: Desk, o: Id, scope: Scope, b: Batch, ks: seq<nat>, m: nat,
                           leads: seq<Lead>, rows: seq<Row>, cursors: map<Id, nat>, working: map<Id, nat>)
    requires m <= |ks| && forall i :: 0 <= i < |ks| ==> ks[i] < |b.rows|
  {
    Batch(leads, rows, cursors + working) == CommitTo(d, o, scope, b, ks, m) && OnlyMoved(cursors, working)
  }

  lemma RowCommitted(d: Desk, o: Id, scope: Scope, b: Batch, ks: seq<nat>, m: nat,
                     leads: seq<Lead>, rows: seq<Row>, cursors: map<Id, nat>, working: map<Id, nat>)
    requires m < |ks| && forall i :: 0 <= i < |ks| ==> ks[i] < |b.rows| == |rows|
    requires Underway(d, o, scope, b, ks, m, leads, rows, cursors, working)
    ensures var k := ks[m];
            var fate := FateOf(d, o, scope, leads, cursors + working, rows[k]);
            Underway(d, o, scope, b, ks, m + 1, if fate.Imports? then leads + [fate.lead] else leads,
              rows[k := Settled(rows[k], fate)], cursors,
              if fate.Imports? then Worked(cursors, working, fate.rule) else working)
  {
    var fate := FateOf(d, o, scope, leads, cursors + working, rows[ks[m]]);
    if fate.Imports? && fate.rule.Some? {
      AdvanceWorking(cursors, working, fate.rule.value);
    }
    hide FateOf, OnlyMoved, Overlaid;
  }

  lemma NothingUnderway(d: Desk, o: Id, scope: Scope, b: Batch, ks: seq<nat>)
    requires forall i :: 0 <= i < |ks| ==> ks[i] < |b.rows|
    ensures Underway(d, o, scope, b, ks, 0, b.leads, b.rows, b.cursors, map[])
  {
    assert b.cursors + map[] == b.cursors;
  }

  lemma StillDue(d: Desk, o: Id, scope: Scope, b: Batch, ks: seq<nat>, m: nat,
                 leads: seq<Lead>, rows: seq<Row>, cursors: map<Id, nat>, working: map<Id, nat>)
    requires ks == Pending(b.rows, |b.rows|) && m < |ks|
    requires Underway(d, o, scope, b, ks, m, leads, rows, cursors, working)
    ensures |rows| == |b.rows| && rows[ks[m]].decision == RowValid
  {
    hide CommitTo;
    StillValid(d, o, scope, b, m);
  }

  lemma BatchDone(d: Desk, o: Id, scope: Scope, b: Batch, leads: seq<Lead>, rows: seq<Row>,
                  cursors: map<Id, nat>, working: map<Id, nat>)
    requires Underway(d, o, scope, b, Pending(b.rows, |b.rows|), BatchSize(b.rows), leads, rows, cursors, working)
    ensures Batch(leads, rows, cursors + working) == CommitBatch(d, o, scope, b) && OnlyMoved(cursors, working)
  {
  }

  /** What the loop keeps about the working cursors is how far the stored ones move. */
  lemma KeptIsMoved(d: Desk, o: Id, scope: Scope, leads: seq<Lead>, stored: map<Id, nat>, working: map<Id, nat>)
    requires Kept(d, o, scope, leads, stored, working, |leads|)
    ensures CursorsMoved(d, o, scope, leads, stored, stored + working, |leads|) && OnlyMoved(stored, working)
  {
    var n := |leads|;
    forall r: Id ensures CursorOf(stored + working, r) == CursorOf(stored, r) + Turns(d, o, scope, leads, r, n) {
      assert Stands(d, o, scope, leads, stored, working, n, r);
    }
    forall r: Id | r in working ensures working[r] > CursorOf(stored, r) {
      assert Stands(d, o, scope, leads, stored, working, n, r);
    }
  }

  lemma NothingImported(d: Desk, o: Id, scope: Scope, leads: seq<Lead>, cursors: map<Id, nat>, rows: seq<Row>)
    requires Previewed(d, o, scope, leads, cursors, rows)
    ensures Count(rows, RowImported, |rows|) == 0
  {
    forall i: nat | i < |rows| ensures rows[i].decision != RowImported {
      assert RowPreviewed(d, o, scope, leads, cursors, rows, i);
    }
    NoneCounted(rows, RowImported, |rows|);
  }

  lemma {:induction false} NoneCounted(rows: seq<Row>, decision: Decision, n: nat)
    requires n <= |rows| && forall i :: 0 <= i < n ==> rows[i].decision != decision
    ensures Count(rows, decision, n) == 0
  {
    if n == 0 {
    } else {
      NoneCounted(rows, decision, n - 1);
    }
  }

  lemma OneMoreVersion(was: map<Id, nat>, d: Desk, moved: set<Id>, now: map<Id, nat>, r: Id)
    requires VersionsBumped(was, d, moved, now) && r !in moved
    ensures VersionsBumped(was, d, moved + {r},
                           if FindRule(d.rules, r).Some? then now[r := CursorOf(now, r) + 1] else now)
  {
    var next := if FindRule(d.rules, r).Some? then now[r := CursorOf(now, r) + 1] else now;
    forall id: Id ensures CursorOf(next, id) == Bumped(was, d, moved + {r}, id) {
      assert CursorOf(now, id) == Bumped(was, d, moved, id);
    }
  }

  /** The rules whose cursors stand further on than before. */
  ghost function MovedRules(was: map<Id, nat>, now: map<Id, nat>): set<Id> {
    set r | r in now && now[r] > CursorOf(was, r)
  }

  /** One new version for a rule whose cursor moved, however far, and none for any other. */
  ghost predicate VersionRight(wasVersions: map<Id, nat>, versions: map<Id, nat>, was: map<Id, nat>, now: map<Id, nat>,
                               rule: Rule)
  {
    CursorOf(versions, rule.id) ==
      CursorOf(wasVersions, rule.id) + if CursorOf(now, rule.id) != CursorOf(was, rule.id) then 1 else 0
  }

  lemma BumpedRightly(d: Desk, wasVersions: map<Id, nat>, versions: map<Id, nat>, was: map<Id, nat>, now: map<Id, nat>,
                      rule: Rule)
    requires VersionsBumped(wasVersions, d, MovedRules(was, now), versions) && rule in d.rules
    requires CursorOf(now, rule.id) >= CursorOf(was, rule.id)
    ensures VersionRight(wasVersions, versions, was, now, rule)
  {
    assert CursorOf(versions, rule.id) == Bumped(wasVersions, d, MovedRules(was, now), rule.id);
    var i :| 0 <= i < |d.rules| && d.rules[i] == rule;
  }

  lemma CursorOnwards(was: Batch, now: Batch, n: nat, rule: Rule)
    requires CursorRight(was, now, n, rule)
    ensures CursorOf(now.cursors, rule.id) >= CursorOf(was.cursors, rule.id)
  {
  }

  lemma WorkingMoved(stored: map<Id, nat>, working: map<Id, nat>)
    requires OnlyMoved(stored, working)
    ensures MovedRules(stored, stored + working) == working.Keys
  {
  }

  class LeadStore {
    var desk: Desk
    var leads: seq<Lead>
    var cursors: map<Id, nat>
    var ruleVersions: map<Id, nat>
    var jobs: map<Id, Job>
    var applyReceipts: map<(Id, Id), ApplyReceipt>
    var previewReceipts: map<(Id, Id), PreviewReceipt>
    var commitReceipts: map<(Id, Id), CommitReceipt>

    ghost predicate Valid()
      reads this
    {
      && WellFormed(desk)
      && (forall j {:trigger jobs[j]} :: j in jobs ==> JobSound(jobs[j]))
      && (forall k {:trigger previewReceipts[k]} :: k in previewReceipts ==> previewReceipts[k].jobId in jobs)
    }

    /** A store with these people, rules and leads, and no import yet. */
    constructor (d: Desk, stored: seq<Lead>)
      requires WellFormed(d)
      ensures Valid() && desk == d && leads == stored && cursors == map[] && jobs == map[]
    {
      desk, leads, cursors, ruleVersions, jobs := d, stored, map[], map[], map[];
      applyReceipts, previewReceipts, commitReceipts := map[], map[], map[];
    }

    /** Counts what the rules would do, without doing it. */
    method DryRunLeadAssignmentRules(o: Id, scope: Scope) returns (r: DryRun)
      ensures Reports(desk, o, scope, leads, cursors, r)
      ensures exists plan {:trigger ReportsRightly(desk, o, scope, leads, r, plan)} ::
                ReportsRightly(desk, o, scope, leads, r, plan)
    {
      hide ReportsRightly;
      var distribution: map<Id, nat>, working: map<Id, nat> := map[], map[];
      var matched, unmatched := 0, 0;
      for i := 0 to |leads|
        invariant matched == Matched(desk, o, scope, leads, i)
        invariant unmatched == Unmatched(desk, o, scope, leads, i)
        invariant Kept(desk, o, scope, leads, cursors, working, i)
        invariant Shared(desk, o, scope, leads, cursors, distribution, i)
      {
        var lead := leads[i];
        TurnTaken(desk, o, scope, leads, cursors, working, i);
        ShareTaken(desk, o, scope, leads, cursors, distribution, i);
        if lead.organizationId != o || lead.archived || lead.owner.Some? || !CanAccessLead(desk, scope, lead) {
          continue;
        }
        var rule := BestRule(desk.rules, desk, o, scope, TraitsOf(desk, lead));
        if rule.None? {
          unmatched := unmatched + 1;
          continue;
        }
        matched := matched + 1;
        var cursor := Overlaid(cursors, working, rule.value.id);
        var index := if rule.value.strategy.FixedOwner? then 0 else cursor % |rule.value.owners|;
        var employeeId := rule.value.owners[index];
        if rule.value.strategy.RoundRobin? {
          working := working[rule.value.id := cursor + 1];
        }
        distribution := distribution[employeeId := ShareIn(distribution, employeeId) + 1];
      }
      r := DryRun(matched, unmatched, distribution);
      ReportRight(desk, o, scope, leads, cursors, r);
    }

    /** Assigns every unassigned lead that a rule takes. */
    method AssignUnassigned(o: Id, scope: Scope) returns (applied: nat, working: map<Id, nat>)
      modifies this`leads
      ensures LeadsApplied(desk, o, scope, old(leads), cursors, leads)
      ensures applied == Matched(desk, o, scope, old(leads), |old(leads)|)
      ensures Kept(desk, o, scope, old(leads), cursors, working, |old(leads)|)
    {
      ghost var was := leads;
      applied, working := 0, map[];
      for i := 0 to |leads|
        invariant Visited(desk, o, scope, was, cursors, leads, i)
        invariant applied == Matched(desk, o, scope, was, i)
        invariant Kept(desk, o, scope, was, cursors, working, i)
      {
        var lead := leads[i];
        TurnTaken(desk, o, scope, was, cursors, working, i);
        LeadVisited(desk, o, scope, was, cursors, leads, i);
        if lead.organizationId != o || lead.archived || lead.owner.Some? || !CanAccessLead(desk, scope, lead) {
          continue;
        }
        var rule := BestRule(desk.rules, desk, o, scope, TraitsOf(desk, lead));
        if rule.None? {
          continue;
        }
        var cursor := Overlaid(cursors, working, rule.value.id);
        var employeeId :=
          rule.value.owners[if rule.value.strategy.FixedOwner? then 0 else cursor % |rule.value.owners|];
        DueOwnerMayOwn(desk, o, scope, lead, cursor);
        if MayOwn(desk, o, scope, employeeId) {
          var team := TeamOfEmployee(desk, Some(employeeId));
          lead := lead.(owner := Some(employeeId), version := lead.version + 1);
          if team.Some? {
            lead := lead.(team := team);
          }
          leads := leads[i := lead];
          applied := applied + 1;
          if rule.value.strategy.RoundRobin? {
            working := working[rule.value.id := cursor + 1];
          }
        }
      }
    }

    /** Decides a row by its cells, the phones of the valid rows before it, and the stored leads. */
    method DecideRow(o: Id, scope: Scope, input: RowInput, phones: map<(Option<Id>, Id), nat>) returns (row: Row)
      ensures row.input == input
      ensures Decided(desk, o, scope, leads, phones, row)
    {
      hide StatusFor, ExplicitOwner, DefaultTeam, FirstHolder, Decided, HolderFor;
      var status := StatusFor(desk, o, input.statusName);
      var explicit :=
        if input.ownerCode.Some? then ExplicitOwner(desk, desk.order, o, scope, input.ownerCode.value) else None;
      var team := TeamOfEmployee(desk, explicit);
      if team.None? {
        team := DefaultTeam(desk, desk.order, o, scope);
      }
      var flawed := !input.named || input.phone.None? || !input.emailOk || input.source.Malformed? || status.None? ||
                    (input.ownerCode.Some? && explicit.None?) || team.None? || input.alternate.Malformed?;
      var repeated := false;
      if input.phone.Some? && (team, input.phone.value) in phones {
        repeated := true;
      }
      if input.alternate.Given? &&
         ((team, input.alternate.value) in phones || input.phone == Some(input.alternate.value)) {
        repeated := true;
      }
      var holder := None;
      if !flawed && !repeated {
        holder := FirstHolder(leads, o, team.value, PhonesOf(input));
      }
      assert repeated <==> RepeatsItself(input) || PhoneTaken(phones, team, input);
      var decision := if flawed then RowInvalid else if repeated || holder.Some? then RowDuplicate else RowValid;
      row := Row(input, decision, holder, explicit, team, None);
      RowDecided(desk, o, scope, leads, phones, row, flawed, repeated);
    }

    /** Proposes the owner whose turn it is for a valid row that names none. */
    method ProposeOwner(o: Id, scope: Scope, decided: Row, working: map<Id, nat>)
      returns (row: Row, after: map<Id, nat>)
      ensures row == Proposed(decided, ProposingRule(desk, o, scope, decided), cursors, working)
      ensures after == Worked(cursors, working, ProposingRule(desk, o, scope, decided))
    {
      row, after := decided, working;
      var status := StatusFor(desk, o, row.input.statusName);
      if row.decision == RowValid && row.proposed.None? && status.Some? {
        var rule := BestRule(desk.rules, desk, o, scope, RowTraits(desk, o, row.input, row.team));
        if rule.Some? {
          var cursor := Overlaid(cursors, working, rule.value.id);
          var position := if rule.value.strategy.FixedOwner? then 0 else cursor % |rule.value.owners|;
          row := row.(proposed := Some(rule.value.owners[position]), ruleId := Some(rule.value.id));
          if rule.value.strategy.RoundRobin? {
            after := working[rule.value.id := cursor + 1];
          }
        }
      }
    }

    /** Decides every row of a file in order and proposes owners, as a simulation of the round-robin. */
    method StageRows(o: Id, scope: Scope, inputs: seq<RowInput>) returns (rows: seq<Row>)
      requires WellFormed(desk)
      ensures |rows| == |inputs| && forall i :: 0 <= i < |rows| ==> rows[i].input == inputs[i]
      ensures Previewed(desk, o, scope, leads, cursors, rows)
      ensures forall i: nat {:trigger RowRight(desk, o, scope, leads, rows, i)} ::
                i < |rows| ==> RowRight(desk, o, scope, leads, rows, i)
    {
      hide RowPreviewed, HolderFor, RowTeam, OwnerOf, StatusFor, BestRule, RowRight;
      rows := [];
      var phones: map<(Option<Id>, Id), nat>, working: map<Id, nat> := map[], map[];
      for i := 0 to |inputs|
        invariant |rows| == i && forall j :: 0 <= j < i ==> rows[j].input == inputs[j]
        invariant Previewed(desk, o, scope, leads, cursors, rows)
        invariant PhonesKnown(phones, rows)
        invariant Proposing(desk, cursors, working, rows)
      {
        var row := DecideRow(o, scope, inputs[i], phones);
        RowStaged(desk, o, scope, leads, cursors, working, phones, rows, row);
        ProposingKept(desk, o, scope, cursors, working, rows, row);
        var more := phones;
        if row.decision == RowValid {
          more := more[(row.team, row.input.phone.value) := i + 1];
          if row.input.alternate.Given? {
            more := more[(row.team, row.input.alternate.value) := i + 1];
          }
        }
        row, working := ProposeOwner(o, scope, row, working);
        PhoneLearnt(phones, rows, row, more);
        AllPreviewed(desk, o, scope, leads, cursors, rows, row);
        rows, phones := rows + [row], more;
      }
      forall i: nat | i < |rows| ensures RowRight(desk, o, scope, leads, rows, i) {
        assert RowPreviewed(desk, o, scope, leads, cursors, rows, i);
        PreviewRight(desk, o, scope, leads, cursors, rows, i);
      }
    }

    /**
     * Decides what becomes of a row at commit. A row becomes a lead only with an owner that the caller may give it, and
     * only if no active lead of the row's team has its phones; the lead itself may land in another team.
     */
    method SettleRow(o: Id, scope: Scope, row: Row, working: map<Id, nat>) returns (fate: Fate)
      ensures fate == FateOf(desk, o, scope, leads, cursors + working, row)
      ensures fate.Duplicates? <==>
                row.team.Some? &&
                exists i :: 0 <= i < |leads| && Holds(leads[i], o, row.team.value, PhonesOf(row.input))
      ensures fate.Imports? ==>
                Accepts(desk, o, scope, fate.lead.owner) && HasPhone(fate.lead, PhonesOf(row.input)) &&
                (fate.lead.team.Some? && fate.lead.team == row.team ==>
                  forall i :: 0 <= i < |leads| ==>
                    !Holds(leads[i], o, fate.lead.team.value, PhonesOf(row.input)))
      ensures HeldFirst(leads, o, row.team, row.input, if fate.Duplicates? then Some(fate.holder) else None)
      ensures fate.Imports? ==> Arrives(desk, o, scope, row, fate.lead)
    {
      FateRight(desk, o, scope, leads, cursors + working, row);
      hide HeldFirst, Arrives;
      if row.team.Some? {
        var holder := FirstHolder(leads, o, row.team.value, PhonesOf(row.input));
        if holder.Some? {
          return Duplicates(holder.value);
        }
      }
      var status := StatusFor(desk, o, row.input.statusName);
      if status.None? || row.input.phone.None? {
        return Fails;
      }
      var owner, advanced := row.proposed, None;
      if row.ruleId.Some? {
        var rule := FindRule(desk.rules, row.ruleId.value);
        if rule.None? || !Eligible(desk, o, scope, rule.value, RowTraits(desk, o, row.input, row.team)) {
          return Fails;
        }
        var cursor := Overlaid(cursors, working, rule.value.id);
        owner := Some(rule.value.owners[if rule.value.strategy.FixedOwner? then 0 else cursor % |rule.value.owners|]);
        advanced := rule;
      }
      if (owner.Some? && !MayOwn(desk, o, scope, owner.value)) || (scope.Assigned? && owner != Some(scope.employeeId)) {
        return Fails;
      }
      return Imports(NewLead(desk, o, scope, row.input, owner), advanced);
    }

    /** Commits one batch: leads are stored row by row, and every row and counter is brought up to date. */
    method CommitRows(o: Id, scope: Scope, job: Job) returns (rows: seq<Row>, counters: Counters, working: map<Id, nat>)
      requires Accounted(job.rows, job.counters)
      modifies this`leads
      ensures Batch(leads, rows, cursors + working) == CommitBatch(desk, o, scope, Batch(old(leads), job.rows, cursors))
      ensures Accounted(rows, counters) && OnlyMoved(cursors, working)
      ensures Arrived(desk, o, scope, Batch(old(leads), job.rows, cursors), Batch(leads, rows, cursors + working),
                      |rows|)
    {
      hide Arrived, FateOf, Accounted, OnlyMoved, Underway, CommitTo, CommitBatch, NewLead;
      ghost var b := Batch(leads, job.rows, cursors);
      ghost var ks := Pending(job.rows, |job.rows|);
      var batch := NextRows(job.rows);
      rows, counters, working := job.rows, job.counters, map[];
      NothingUnderway(desk, o, scope, b, ks);
      for m := 0 to |batch|
        invariant |rows| == |job.rows| && Accounted(rows, counters)
        invariant Underway(desk, o, scope, b, ks, m, leads, rows, cursors, working)
      {
        var k := batch[m];
        StillDue(desk, o, scope, b, ks, m, leads, rows, cursors, working);
        RowCommitted(desk, o, scope, b, ks, m, leads, rows, cursors, working);
        var fate := SettleRow(o, scope, rows[k], working);
        TallyKeeps(rows, counters, k, fate);
        match fate {
          case Duplicates(holder) =>
            rows := rows[k := rows[k].(decision := RowDuplicate, holder := Some(holder))];
            counters := counters.(duplicate := counters.duplicate + 1, valid := counters.valid - 1);
          case Fails =>
            rows := rows[k := rows[k].(decision := RowInvalid)];
            counters := counters.(error := counters.error + 1, valid := counters.valid - 1);
          case Imports(lead, rule) =>
            leads := leads + [lead];
            rows := rows[k := rows[k].(decision := RowImported)];
            counters := counters.(imported := counters.imported + 1);
            if rule.Some? && rule.value.strategy.RoundRobin? {
              working := working[rule.value.id := Overlaid(cursors, working, rule.value.id) + 1];
            }
        }
      }
      BatchDone(desk, o, scope, b, leads, rows, cursors, working);
      BatchArrives(desk, o, scope, b);
    }

    /** Writes the working cursors back and gives each rule that moved a new version. */
    method StoreCursors(working: map<Id, nat>)
      modifies this`cursors, this`ruleVersions
      ensures cursors == old(cursors) + working
      ensures VersionsBumped(old(ruleVersions), desk, working.Keys, ruleVersions)
    {
      var todo := working.Keys;
      while todo != {}
        invariant todo <= working.Keys
        invariant cursors == old(cursors) + map r | r in working && r !in todo :: working[r]
        invariant VersionsBumped(old(ruleVersions), desk, working.Keys - todo, ruleVersions)
        decreases todo
      {
        var r: Id :| r in todo;
        OneMoreVersion(old(ruleVersions), desk, working.Keys - todo, ruleVersions, r);
        assert working.Keys - (todo - {r}) == working.Keys - todo + {r};
        cursors := cursors[r := working[r]];
        if FindRule(desk.rules, r).Some? {
          ruleVersions := ruleVersions[r := CursorOf(ruleVersions, r) + 1];
        }
        todo := todo - {r};
      }
      assert (map r | r in working && r !in todo :: working[r]) == working;
    }

    /**
     * Applies the rules to the unassigned leads, if asked to, and reports the dry-run made before it.
     * A repeated request is answered from its receipt.
     */
    method ApplyLeadAssignmentRules(o: Id, scope: Scope, requestId: Id, fingerprint: Id, includeExisting: bool)
      returns (outcome: ApplyOutcome)
      requires Valid()
      modifies this`leads, this`cursors, this`ruleVersions, this`applyReceipts
      ensures Valid()
      ensures (o, requestId) in old(applyReceipts) ==>
        applyReceipts == old(applyReceipts) && leads == old(leads) && cursors == old(cursors) &&
          ruleVersions == old(ruleVersions)
      ensures (o, requestId) in old(applyReceipts) ==>
        var prior := old(applyReceipts)[(o, requestId)];
        outcome == if prior.fingerprint == fingerprint then Applied(prior.result, true) else ApplyConflict
      ensures (o, requestId) !in old(applyReceipts) ==>
        outcome.Applied? && !outcome.replayed &&
          outcome.result.applied == (if includeExisting then outcome.result.dryRun.matched else 0)
      ensures (o, requestId) !in old(applyReceipts) ==>
        applyReceipts == old(applyReceipts)[(o, requestId) := ApplyReceipt(fingerprint, outcome.result)]
      ensures (o, requestId) !in old(applyReceipts) ==>
        Reports(desk, o, scope, old(leads), old(cursors), outcome.result.dryRun)
      ensures (o, requestId) !in old(applyReceipts) && includeExisting ==>
        LeadsApplied(desk, o, scope, old(leads), old(cursors), leads) &&
        CursorsMoved(desk, o, scope, old(leads), old(cursors), cursors, |old(leads)|) &&
        VersionsBumped(old(ruleVersions), desk, MovedRules(old(cursors), cursors), ruleVersions)
      ensures (o, requestId) !in old(applyReceipts) ==>
        exists plan {:trigger ReportsRightly(desk, o, scope, old(leads), outcome.result.dryRun, plan)} ::
          ReportsRightly(desk, o, scope, old(leads), outcome.result.dryRun, plan)
      ensures (o, requestId) !in old(applyReceipts) && includeExisting ==>
        |leads| == |old(leads)| && forall i {:trigger leads[i]} :: 0 <= i < |leads| ==>
          GivenRightly(desk, o, scope, old(leads)[i], leads[i])
      ensures (o, requestId) !in old(applyReceipts) && includeExisting ==>
        forall rule {:trigger CursorOf(cursors, rule.id)} :: rule in desk.rules ==>
          CursorOf(cursors, rule.id) == CursorOf(old(cursors), rule.id) +
            if rule.strategy.RoundRobin? then TakenBy(desk, o, scope, old(leads), rule, |old(leads)|) else 0
      ensures (o, requestId) !in old(applyReceipts) && includeExisting ==>
        forall rule {:trigger VersionRight(old(ruleVersions), ruleVersions, old(cursors), cursors, rule)} ::
          rule in desk.rules ==> VersionRight(old(ruleVersions), ruleVersions, old(cursors), cursors, rule)
      ensures (o, requestId) !in old(applyReceipts) && !includeExisting ==>
        leads == old(leads) && cursors == old(cursors) && ruleVersions == old(ruleVersions)
    {
      hide GivenRightly, ReportsRightly;
      var key := (o, requestId);
      if key in applyReceipts {
        var prior := applyReceipts[key];
        return if prior.fingerprint == fingerprint then Applied(prior.result, true) else ApplyConflict;
      }
      var before := DryRunLeadAssignmentRules(o, scope);
      var applied := 0;
      if includeExisting {
        ghost var was, stored := leads, cursors;
        var working;
        applied, working := AssignUnassigned(o, scope);
        StoreCursors(working);
        KeptIsMoved(desk, o, scope, was, stored, working);
        WorkingMoved(stored, working);
        forall i | 0 <= i < |leads| ensures GivenRightly(desk, o, scope, was[i], leads[i]) {
          AppliedRightly(desk, o, scope, was, stored, leads, i);
        }
        forall rule | rule in desk.rules
          ensures CursorOf(cursors, rule.id) == CursorOf(stored, rule.id) +
                    if rule.strategy.RoundRobin? then TakenBy(desk, o, scope, was, rule, |was|) else 0
        {
          TurnsRight(desk, o, scope, was, rule, |was|);
        }
        forall rule | rule in desk.rules
          ensures VersionRight(old(ruleVersions), ruleVersions, stored, cursors, rule)
        {
          BumpedRightly(desk, old(ruleVersions), ruleVersions, stored, cursors, rule);
        }
      }
      var result := ApplyResult(before, applied);
      applyReceipts := applyReceipts[key := ApplyReceipt(fingerprint, result)];
      return Applied(result, false);
    }

    /** Stages a file: decides every row and stores the job. */
    method PreviewLeadImport(o: Id, scope: Scope, actor: Id, requestId: Id, fingerprint: Id, inputs: seq<RowInput>,
                             newJobId: Id)
      returns (outcome: PreviewOutcome)
      requires Valid() && newJobId !in jobs
      modifies this`jobs, this`previewReceipts
      ensures Valid()
      ensures (o, requestId) in old(previewReceipts) ==> jobs == old(jobs) && previewReceipts == old(previewReceipts)
      ensures (o, requestId) in old(previewReceipts) ==>
        var prior := old(previewReceipts)[(o, requestId)];
        outcome == if prior.fingerprint != fingerprint then PreviewConflict
                   else if !JobReached(desk, o, scope, actor, jobs[prior.jobId]) then PreviewForbidden
                   else Staged(prior.jobId, jobs[prior.jobId], true)
      ensures (o, requestId) !in old(previewReceipts) ==>
        outcome.Staged? && outcome.jobId == newJobId && !outcome.replayed &&
          jobs == old(jobs)[newJobId := outcome.job] &&
        previewReceipts == old(previewReceipts)[(o, requestId) := PreviewReceipt(fingerprint, newJobId)]
      ensures (o, requestId) !in old(previewReceipts) ==>
        outcome.job.status == PreviewReady && outcome.job.organizationId == o && outcome.job.createdBy == actor &&
        |outcome.job.rows| == |inputs| && (forall i :: 0 <= i < |inputs| ==> outcome.job.rows[i].input == inputs[i]) &&
        outcome.job.teams ==
          (set i | 0 <= i < |inputs| && outcome.job.rows[i].team.Some? :: outcome.job.rows[i].team.value) &&
        Previewed(desk, o, scope, leads, cursors, outcome.job.rows) &&
        forall i: nat {:trigger RowRight(desk, o, scope, leads, outcome.job.rows, i)} ::
          i < |inputs| ==> RowRight(desk, o, scope, leads, outcome.job.rows, i)
    {
      hide Previewed, WellFormed, CanAccessJob, JobReached, RowRight;
      var key := (o, requestId);
      if key in previewReceipts {
        var prior := previewReceipts[key];
        if prior.fingerprint != fingerprint {
          return PreviewConflict;
        }
        JobAccess(desk, o, scope, actor, jobs[prior.jobId]);
        if !CanAccessJob(desk, o, scope, actor, jobs[prior.jobId]) {
          return PreviewForbidden;
        }
        return Staged(prior.jobId, jobs[prior.jobId], true);
      }
      var rows := StageRows(o, scope, inputs);
      var valid := CountRows(rows, RowValid);
      var duplicate := CountRows(rows, RowDuplicate);
      var error := CountRows(rows, RowInvalid);
      NothingImported(desk, o, scope, leads, cursors, rows);
      PendingIsCount(rows, |rows|);
      var teams := set i | 0 <= i < |rows| && rows[i].team.Some? :: rows[i].team.value;
      var job := Job(o, actor, teams, rows, Counters(|rows|, valid, duplicate, error, 0), |rows| - valid, PreviewReady);
      jobs := jobs[newJobId := job];
      previewReceipts := previewReceipts[key := PreviewReceipt(fingerprint, newJobId)];
      return Staged(newJobId, job, false);
    }

    /** Commits one batch of a job; a repeated request, or one on a completed job, changes no lead. */
    method CommitLeadImport(o: Id, scope: Scope, actor: Id, jobId: Id, requestId: Id, fingerprint: Id)
      returns (outcome: CommitOutcome)
      requires Valid()
      modifies this`leads, this`jobs, this`cursors, this`ruleVersions, this`commitReceipts
      ensures Valid()
      ensures var anew := jobId in old(jobs) && JobReached(desk, o, scope, actor, old(jobs)[jobId]) &&
                            (o, requestId) !in old(commitReceipts) && old(jobs)[jobId].status != Completed;
              if anew then
                var b := CommitBatch(desk, o, scope, Batch(old(leads), old(jobs)[jobId].rows, old(cursors)));
                outcome.Committed? && !outcome.replayed && outcome.job.rows == b.rows && leads == b.leads &&
                  cursors == b.cursors &&
                Arrived(desk, o, scope, Batch(old(leads), old(jobs)[jobId].rows, old(cursors)),
                        Batch(leads, outcome.job.rows, cursors), |outcome.job.rows|) &&
                (forall rule {:trigger rule in desk.rules} :: rule in desk.rules ==>
                  CursorRight(Batch(old(leads), old(jobs)[jobId].rows, old(cursors)),
                              Batch(leads, outcome.job.rows, cursors), |outcome.job.rows|, rule) &&
                  VersionRight(old(ruleVersions), ruleVersions, old(cursors), cursors, rule)) &&
                outcome.job.organizationId == o && outcome.job.createdBy == old(jobs)[jobId].createdBy &&
                outcome.job.teams == old(jobs)[jobId].teams &&
                jobs == old(jobs)[jobId := outcome.job] &&
                VersionsBumped(old(ruleVersions), desk, MovedRules(old(cursors), cursors), ruleVersions) &&
                outcome.job.status == (if Pending(b.rows, |b.rows|) == [] then Completed else Interrupted)
              else
                leads == old(leads) && jobs == old(jobs) && cursors == old(cursors) && ruleVersions == old(ruleVersions)
      ensures jobId !in old(jobs) || !JobReached(desk, o, scope, actor, old(jobs)[jobId]) ==>
        outcome == NoSuchImport && commitReceipts == old(commitReceipts)
      ensures jobId in old(jobs) && JobReached(desk, o, scope, actor, old(jobs)[jobId]) ==>
        if (o, requestId) in old(commitReceipts) then
          var prior := old(commitReceipts)[(o, requestId)];
          commitReceipts == old(commitReceipts) &&
          outcome == if prior.fingerprint != fingerprint ||
            prior.jobId != jobId then CommitConflict else Committed(prior.job, true)
        else
          outcome.Committed? && outcome.replayed == (old(jobs)[jobId].status == Completed) &&
          outcome.job == jobs[jobId] &&
          commitReceipts == old(commitReceipts)[(o, requestId) := CommitReceipt(fingerprint, jobId, outcome.job)]
    {
      hide CommitBatch, WellFormed, Accounted, VersionsBumped, MovedRules, CanAccessJob, Arrived, CursorRight,
        VersionRight;
      if jobId in jobs {
        JobAccess(desk, o, scope, actor, jobs[jobId]);
      }
      hide JobReached;
      if jobId !in jobs || !CanAccessJob(desk, o, scope, actor, jobs[jobId]) {
        return NoSuchImport;
      }
      var key := (o, requestId);
      if key in commitReceipts {
        var prior := commitReceipts[key];
        if prior.fingerprint != fingerprint || prior.jobId != jobId {
          return CommitConflict;
        }
        return Committed(prior.job, true);
      }
      var job := jobs[jobId];
      if job.status == Completed {
        commitReceipts := commitReceipts[key := CommitReceipt(fingerprint, jobId, job)];
        return Committed(job, true);
      }
      ghost var b := Batch(leads, job.rows, cursors);
      forall rule | rule in desk.rules ensures CursorRight(b, CommitBatch(desk, o, scope, b), |b.rows|, rule) {
        BatchMoves(desk, o, scope, b, rule);
      }
      var rows, counters, working := CommitRows(o, scope, job);
      WorkingMoved(cursors, working);
      StoreCursors(working);
      forall rule | rule in desk.rules ensures VersionRight(old(ruleVersions), ruleVersions, b.cursors, cursors, rule) {
        CursorOnwards(b, CommitBatch(desk, o, scope, b), |b.rows|, rule);
        BumpedRightly(desk, old(ruleVersions), ruleVersions, b.cursors, cursors, rule);
      }
      var remaining := CountRows(rows, RowValid);
      PendingIsCount(rows, |rows|);
      var status := if remaining > 0 then Interrupted else Completed;
      job := job.(rows := rows, counters := counters, processed := |rows| - remaining, status := status);
      jobs := jobs[jobId := job];
      commitReceipts := commitReceipts[key := CommitReceipt(fingerprint, jobId, job)];
      return Committed(job, false);
    }
  }
}
