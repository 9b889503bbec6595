/**
 * Importing leads from a file. The preview decides every row and proposes owners; the commit takes
 * the valid rows in batches and decides each one again against the leads stored by then.
 */
module LeadImport {
  import opened Common
  import opened LeadModel

  /** An optional cell of a row, with the verdict of its format test. */
  datatype Cell = Missing | Malformed | Given(value: Id)

  /** `named`, `emailOk` and a missing `phone` hold the verdicts of the text tests on those cells. */
  datatype RowInput = RowInput(
    named: bool, phone: Option<Id>, alternate: Cell, emailOk: bool, source: Cell,
    statusName: Option<Id>, ownerCode: Option<Id>)

  datatype Decision = RowValid | RowDuplicate | RowInvalid | RowImported

  /** A staged row; `team` and `ruleId` are what the source keeps beside it under the row's key. */
  datatype Row = Row(
    input: RowInput, decision: Decision, holder: Option<nat>,
    proposed: Option<Id>, team: Option<Id>, ruleId: Option<Id>)

  const CSV_IMPORT: Id := 0

  const BATCH: nat := 50

  function PhonesOf(input: RowInput): set<Id> {
    (if input.phone.Some? then {input.phone.value} else {}) +
    (if input.alternate.Given? then {input.alternate.value} else {})
  }

  predicate RepeatsItself(input: RowInput) {
    input.alternate.Given? && input.phone == Some(input.alternate.value)
  }

  function SourceOf(input: RowInput): Id {
    if input.source.Given? then input.source.value else CSV_IMPORT
  }

  function OwnerOf(d: Desk, o: Id, scope: Scope, input: RowInput): Option<Id> {
    if input.ownerCode.Some? then ExplicitOwner(d, d.order, o, scope, input.ownerCode.value) else None
  }

  function RowTeam(d: Desk, o: Id, scope: Scope, input: RowInput): Option<Id> {
    OrElse(TeamOfEmployee(d, OwnerOf(d, o, scope, input)), DefaultTeam(d, d.order, o, scope))
  }

  /** Nothing is wrong with the row apart from, perhaps, its phones being known already. */
  predicate FieldsValid(d: Desk, o: Id, scope: Scope, input: RowInput) {
    && input.named && input.phone.Some? && input.emailOk && !input.source.Malformed? && !input.alternate.Malformed?
    && StatusFor(d, o, input.statusName).Some?
    && (input.ownerCode.Some? ==> OwnerOf(d, o, scope, input).Some?)
    && RowTeam(d, o, scope, input).Some?
  }

  /** What the rules see of a row that is about to become a lead. */
  function RowTraits(d: Desk, o: Id, input: RowInput, team: Option<Id>): Traits
    requires StatusFor(d, o, input.statusName).Some?
  {
    Traits(team, SourceOf(input), None, StatusFor(d, o, input.statusName).value)
  }

  // ---------------------------------------------------------------- what a preview must say

  /** Row `i` shares a phone with an earlier valid row of its team. */
  ghost predicate Repeated(rows: seq<Row>, i: nat)
    requires i < |rows|
  {
    exists j {:trigger rows[j]} :: 0 <= j < i && Blocks(rows[j], rows[i])
  }

  predicate Blocks(earlier: Row, later: Row) {
    earlier.decision == RowValid && earlier.team == later.team && PhonesOf(earlier.input) * PhonesOf(later.input) != {}
  }

  /** How many of the first `n` rows were proposed by the rule. */
  function RuleRows(rows: seq<Row>, ruleId: Id, n: nat): nat
    requires n <= |rows|
  {
    if n == 0 then 0 else RuleRows(rows, ruleId, n - 1) + if rows[n - 1].ruleId == Some(ruleId) then 1 else 0
  }

  /** The first active lead of the row's team that already has one of its phones. */
  function HolderFor(leads: seq<Lead>, o: Id, row: Row): Option<nat> {
    if row.team.Some? then FirstHolder(leads, o, row.team.value, PhonesOf(row.input)) else None
  }

  /** A row is valid if and only if its fields are, and no phone of it is known. */
  ghost predicate RightDecision(d: Desk, o: Id, scope: Scope, leads: seq<Lead>, rows: seq<Row>, i: nat)
    requires i < |rows|
  {
    var row := rows[i];
    && (row.decision == RowInvalid <==> !FieldsValid(d, o, scope, row.input))
    && (row.decision == RowValid <==>
          && FieldsValid(d, o, scope, row.input) && !RepeatsItself(row.input) && !Repeated(rows, i)
          && HolderFor(leads, o, row).None?)
    && row.decision != RowImported
    && row.holder == if FieldsValid(d, o, scope, row.input) && !RepeatsItself(row.input) && !Repeated(rows, i)
                     then HolderFor(leads, o, row) else None
  }

  /** The owner named in the row, or else the one whose turn it is by the first matching rule. */
  ghost predicate RightOwner(d: Desk, o: Id, scope: Scope, cursors: map<Id, nat>, rows: seq<Row>, i: nat)
    requires i < |rows|
  {
    var row := rows[i];
    if row.decision != RowValid || OwnerOf(d, o, scope, row.input).Some? then
      row.ruleId.None? && row.proposed == OwnerOf(d, o, scope, row.input)
    else if StatusFor(d, o, row.input.statusName).None? then false
    else
      var rule := BestRule(d.rules, d, o, scope, RowTraits(d, o, row.input, row.team));
      if rule.None? then row.ruleId.None? && row.proposed.None?
      else
        && row.ruleId == Some(rule.value.id)
        && row.proposed == Some(
             OwnerAt(rule.value, CursorOf(cursors, rule.value.id) + RuleRows(rows, rule.value.id, i)))
  }

  ghost predicate RowPreviewed(d: Desk, o: Id, scope: Scope, leads: seq<Lead>, cursors: map<Id, nat>, rows: seq<Row>,
                               i: nat)
    requires i < |rows|
  {
    && rows[i].team == RowTeam(d, o, scope, rows[i].input)
    && RightDecision(d, o, scope, leads, rows, i)
    && RightOwner(d, o, scope, cursors, rows, i)
  }

  ghost predicate Previewed(d: Desk, o: Id, scope: Scope, leads: seq<Lead>, cursors: map<Id, nat>, rows: seq<Row>) {
    forall i: nat {:trigger RowPreviewed(d, o, scope, leads, cursors, rows, i)} ::
      i < |rows| ==> RowPreviewed(d, o, scope, leads, cursors, rows, i)
  }

  lemma {:induction false} SameRuleRows(a: seq<Row>, b: seq<Row>, ruleId: Id, n: nat)
    requires n <= |a| && n <= |b| && forall j :: 0 <= j < n ==> a[j] == b[j]
    ensures RuleRows(a, ruleId, n) == RuleRows(b, ruleId, n)
  {
    if n == 0 {
    } else {
      SameRuleRows(a, b, ruleId, n - 1);
    }
  }

  lemma NextRowUnique(d: Desk, o: Id, scope: Scope, leads: seq<Lead>, cursors: map<Id, nat>, a: seq<Row>, b: seq<Row>,
                      n: nat)
    requires n < |a| == |b| && a[n].input == b[n].input && forall j :: 0 <= j < n ==> a[j] == b[j]
    requires RowPreviewed(d, o, scope, leads, cursors, a, n) && RowPreviewed(d, o, scope, leads, cursors, b, n)
    ensures a[n] == b[n]
  {
    assert Repeated(a, n) <==> Repeated(b, n) by {
      assert a[n].team == b[n].team;
      assert forall j :: 0 <= j < n ==> (Blocks(a[j], a[n]) <==> Blocks(b[j], b[n]));
      if Repeated(a, n) {
        var j :| 0 <= j < n && Blocks(a[j], a[n]);
        assert Blocks(b[j], b[n]);
      }
      if Repeated(b, n) {
        var j :| 0 <= j < n && Blocks(b[j], b[n]);
        assert Blocks(a[j], a[n]);
      }
    }
    if a[n].ruleId.Some? {
      SameRuleRows(a, b, a[n].ruleId.value, n);
    }
    hide FieldsValid, RowTeam, HolderFor, OwnerOf, Repeated, StatusFor;
  }

  /** What a preview must say leaves no choice: a file has one preview in a given state. */
  lemma {:induction false} PreviewUnique(d: Desk, o: Id, scope: Scope, leads: seq<Lead>, cursors: map<Id, nat>,
                                         a: seq<Row>, b: seq<Row>, n: nat)
    requires n <= |a| == |b| && forall i :: 0 <= i < |a| ==> a[i].input == b[i].input
    requires Previewed(d, o, scope, leads, cursors, a) && Previewed(d, o, scope, leads, cursors, b)
    ensures a[..n] == b[..n]
  {
    if n == 0 {
    } else {
      hide RowPreviewed;
      PreviewUnique(d, o, scope, leads, cursors, a, b, n - 1);
      forall j | 0 <= j < n - 1 ensures a[j] == b[j] {
        assert a[..n - 1][j] == b[..n - 1][j];
      }
      assert RowPreviewed(d, o, scope, leads, cursors, a, n - 1);
      assert RowPreviewed(d, o, scope, leads, cursors, b, n - 1);
      NextRowUnique(d, o, scope, leads, cursors, a, b, n - 1);
    }
  }

  // ---------------------------------------------------------------- committing one row

  /** What becomes of a valid row when its turn comes. */
  datatype Fate = Duplicates(holder: nat) | Fails | Imports(lead: Lead, rule: Option<Rule>)

  /** A lead without an owner's team falls to a team of the caller, or to any team of the organization. */
  function LandingTeam(d: Desk, o: Id, scope: Scope, owner: Option<Id>): Option<Id> {
    OrElse(TeamOfEmployee(d, owner),
      match scope
      case Teams(names) => if names == [] then None else Some(names[0])
      case _ => AnyTeam(d, d.order, o))
  }

  /** The caller may create a lead with this owner. */
  predicate Accepts(d: Desk, o: Id, scope: Scope, owner: Option<Id>) {
    && (owner.Some? ==> MayOwn(d, o, scope, owner.value))
    && (scope.Assigned? ==> owner == Some(scope.employeeId))
  }

  function NewLead(d: Desk, o: Id, scope: Scope, input: RowInput, owner: Option<Id>): Lead
    requires input.phone.Some? && StatusFor(d, o, input.statusName).Some?
  {
    Lead(o, false, input.phone.value, if input.alternate.Given? then Some(input.alternate.value) else None,
         SourceOf(input), None, StatusFor(d, o, input.statusName).value, owner, LandingTeam(d, o, scope, owner), 1)
  }

  function FateOf(d: Desk, o: Id, scope: Scope, leads: seq<Lead>, cursors: map<Id, nat>, row: Row): Fate {
    var holder := HolderFor(leads, o, row);
    if holder.Some? then Duplicates(holder.value)
    else if StatusFor(d, o, row.input.statusName).None? || row.input.phone.None? then Fails
    else if row.ruleId.Some? then
      var rule := FindRule(d.rules, row.ruleId.value);
      if rule.None? || !Eligible(d, o, scope, rule.value, RowTraits(d, o, row.input, row.team)) then Fails
      else
        var owner := Some(OwnerAt(rule.value, CursorOf(cursors, rule.value.id)));
        if Accepts(d, o, scope, owner) then Imports(NewLead(d, o, scope, row.input, owner), rule) else Fails
    else if Accepts(d, o, scope, row.proposed) then Imports(NewLead(d, o, scope, row.input, row.proposed), None)
    else Fails
  }

  /** What a commit works on: the leads, the rows of the job, and the cursors of the rules. */
  datatype Batch = Batch(leads: seq<Lead>, rows: seq<Row>, cursors: map<Id, nat>)

  function Settled(row: Row, fate: Fate): Row {
    match fate
    case Duplicates(h) => row.(decision := RowDuplicate, holder := Some(h))
    case Fails => row.(decision := RowInvalid)
    case Imports(_, _) => row.(decision := RowImported)
  }

  function CommitRow(d: Desk, o: Id, scope: Scope, b: Batch, k: nat): (r: Batch)
    requires k < |b.rows|
    ensures |r.rows| == |b.rows| && r.rows[k].decision != RowValid
    ensures forall j :: 0 <= j < |b.rows| && j != k ==> r.rows[j] == b.rows[j]
  {
    var fate := FateOf(d, o, scope, b.leads, b.cursors, b.rows[k]);
    Batch(if fate.Imports? then b.leads + [fate.lead] else b.leads,
          b.rows[k := Settled(b.rows[k], fate)],
          if fate.Imports? && fate.rule.Some? then Advance(b.cursors, fate.rule.value) else b.cursors)
  }

  // ---------------------------------------------------------------- committing a batch

  /** The places of the valid rows among the first `n`, in order. */
  function Pending(rows: seq<Row>, n: nat): (ks: seq<nat>)
    requires n <= |rows|
    ensures forall i :: 0 <= i < |ks| ==> ks[i] < n && rows[ks[i]].decision == RowValid
    ensures |ks| <= n
  {
    if n == 0 then []
    else Pending(rows, n - 1) + if rows[n - 1].decision == RowValid then [n - 1] else []
  }

  /** Committing the first `m` rows of the list `ks`. */
  function CommitTo(d: Desk, o: Id, scope: Scope, b: Batch, ks: seq<nat>, m: nat): (r: Batch)
    requires m <= |ks| && forall i :: 0 <= i < |ks| ==> ks[i] < |b.rows|
    ensures |r.rows| == |b.rows|
  {
    if m == 0 then b else CommitRow(d, o, scope, CommitTo(d, o, scope, b, ks, m - 1), ks[m - 1])
  }

  function BatchSize(rows: seq<Row>): (n: nat)
    ensures n <= |Pending(rows, |rows|)| && n <= BATCH
  {
    var v := |Pending(rows, |rows|)|;
    if v < BATCH then v else BATCH
  }

  /** One commit: the first rows that are still valid, at most fifty of them. */
  function CommitBatch(d: Desk, o: Id, scope: Scope, b: Batch): (r: Batch)
    ensures |r.rows| == |b.rows|
  {
    CommitTo(d, o, scope, b, Pending(b.rows, |b.rows|), BatchSize(b.rows))
  }

  // ---------------------------------------------------------------- progress

  /** Row `k` is settled if it was valid and among the first `c` valid rows; otherwise it is as it was. */
  ghost predicate SettledAt(was: seq<Row>, now: seq<Row>, c: nat, k: nat)
    requires k < |was| == |now|
  {
    if was[k].decision == RowValid && |Pending(was, k)| < c then now[k].decision != RowValid else now[k] == was[k]
  }

  /** The first `c` valid rows are no longer valid, and no other row is touched. */
  ghost predicate FirstSettled(was: seq<Row>, now: seq<Row>, c: nat) {
    |now| == |was| && forall k: nat {:trigger SettledAt(was, now, c, k)} :: k < |was| ==> SettledAt(was, now, c, k)
  }

  lemma {:induction false} PendingAfter(was: seq<Row>, now: seq<Row>, c: nat, n: nat)
    requires FirstSettled(was, now, c) && n <= |was|
    ensures Pending(now, n) == if |Pending(was, n)| <= c then [] else Pending(was, n)[c..]
  {
    if n == 0 {
    } else {
      PendingAfter(was, now, c, n - 1);
      assert SettledAt(was, now, c, n - 1);
    }
  }

  /** The place of a valid row in the list of valid rows. */
  lemma {:induction false} RankOf(rows: seq<Row>, k: nat, n: nat)
    requires k < n <= |rows| && rows[k].decision == RowValid
    ensures |Pending(rows, k)| < |Pending(rows, n)| && Pending(rows, n)[|Pending(rows, k)|] == k
  {
    if k < n - 1 {
      RankOf(rows, k, n - 1);
    }
  }

  lemma {:induction false} PendingIncreases(rows: seq<Row>, n: nat, i: nat, j: nat)
    requires n <= |rows| && i < j < |Pending(rows, n)|
    ensures Pending(rows, n)[i] < Pending(rows, n)[j]
  {
    if j < |Pending(rows, n - 1)| {
      PendingIncreases(rows, n - 1, i, j);
    }
  }

  /** The rank of the row at place `m` of the list is `m`. */
  lemma PlaceOf(rows: seq<Row>, m: nat)
    requires m < |Pending(rows, |rows|)|
    ensures |Pending(rows, Pending(rows, |rows|)[m])| == m
  {
    var k := Pending(rows, |rows|)[m];
    RankOf(rows, k, |rows|);
    var r := |Pending(rows, k)|;
    if r < m { PendingIncreases(rows, |rows|, r, m); }
    if m < r { PendingIncreases(rows, |rows|, m, r); }
  }

  /** Whatever becomes of them, the rows of a batch are settled and the others are not touched. */
  lemma {:induction false} BatchSettles(d: Desk, o: Id, scope: Scope, b: Batch, m: nat)
    requires m <= |Pending(b.rows, |b.rows|)|
    ensures FirstSettled(b.rows, CommitTo(d, o, scope, b, Pending(b.rows, |b.rows|), m).rows, m)
  {
    hide FirstSettled, Pending, CommitRow;
    if m == 0 {
      NoneSettled(b.rows);
    } else {
      var ks := Pending(b.rows, |b.rows|);
      var before := CommitTo(d, o, scope, b, ks, m - 1);
      BatchSettles(d, o, scope, b, m - 1);
      PlaceOf(b.rows, m - 1);
      OneMoreSettled(b.rows, before.rows, CommitRow(d, o, scope, before, ks[m - 1]).rows, m);
    }
  }

  lemma NoneSettled(rows: seq<Row>)
    ensures FirstSettled(rows, rows, 0)
  {
  }

  lemma OneMoreSettled(was: seq<Row>, before: seq<Row>, now: seq<Row>, m: nat)
    requires 0 < m <= |Pending(was, |was|)| && FirstSettled(was, before, m - 1) && |now| == |was|
    requires var k := Pending(was, |was|)[m - 1];
             |Pending(was, k)| == m - 1 && now[k].decision != RowValid &&
             forall j :: 0 <= j < |was| && j != k ==> now[j] == before[j]
    ensures FirstSettled(was, now, m)
  {
    forall k: nat | k < |was| ensures SettledAt(was, now, m, k) {
      assert SettledAt(was, before, m - 1, k);
      if was[k].decision == RowValid {
        RankOf(was, k, |was|);
      }
    }
  }

  /** A row of the list is still valid when its turn comes. */
  lemma StillValid(d: Desk, o: Id, scope: Scope, b: Batch, m: nat)
    requires m < |Pending(b.rows, |b.rows|)|
    ensures var ks := Pending(b.rows, |b.rows|);
            CommitTo(d, o, scope, b, ks, m).rows[ks[m]] == b.rows[ks[m]]
  {
    hide CommitRow, CommitTo;
    var ks := Pending(b.rows, |b.rows|);
    BatchSettles(d, o, scope, b, m);
    PlaceOf(b.rows, m);
    assert SettledAt(b.rows, CommitTo(d, o, scope, b, ks, m).rows, m, ks[m]);
  }
}
