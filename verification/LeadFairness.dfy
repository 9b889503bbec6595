/**
 * Fairness of round-robin rules over whole runs: whatever mixture of rule applications, import
 * commits and other changes happens, a rule serves its owners strictly in turn.
 */
module LeadFairness {
  import opened Common
  import opened LeadModel
  import opened LeadAssignment
  import opened LeadImport

  // ---------------------------------------------------------------- serving in turn

  /** The owners come up one after the other, starting at position `c`. */
  ghost predicate InTurn(owners: seq<Id>, c: nat, log: seq<Id>)
    requires owners != []
  {
    forall t {:trigger log[t]} :: 0 <= t < |log| ==> log[t] == owners[(c + t) % |owners|]
  }

  lemma InTurnConcat(owners: seq<Id>, c: nat, a: seq<Id>, b: seq<Id>)
    requires owners != [] && InTurn(owners, c, a) && InTurn(owners, c + |a|, b)
    ensures InTurn(owners, c, a + b)
  {
    var log := a + b;
    forall t | 0 <= t < |log| ensures log[t] == owners[(c + t) % |owners|] {
      if t >= |a| {
        assert log[t] == b[t - |a|] && c + t == c + |a| + (t - |a|);
      }
    }
  }

  /** How often `e` was served. */
  function Served(log: seq<Id>, e: Id): nat {
    if log == [] then 0 else (if log[0] == e then 1 else 0) + Served(log[1..], e)
  }

  lemma {:induction false} ServedConcat(a: seq<Id>, b: seq<Id>, e: Id)
    ensures Served(a + b, e) == Served(a, e) + Served(b, e)
  {
    if a == [] {
      assert a + b == b;
    } else {
      ServedConcat(a[1..], b, e);
      assert (a + b)[1..] == a[1..] + b;
    }
  }

  /** How many turns position `p` has to wait when the cursor stands at `c`. */
  function Wait(p: nat, c: nat, k: nat): nat
    requires p < k
  {
    if p >= c % k then p - c % k else p - c % k + k
  }

  lemma {:induction false} NextWait(p: nat, c: nat, k: nat)
    requires p < k
    ensures Wait(p, c, k) == 0 <==> c % k == p
    ensures Wait(p, c + 1, k) == if Wait(p, c, k) == 0 then k - 1 else Wait(p, c, k) - 1
  {
    assert (c + 1) % k == if c % k + 1 == k then 0 else c % k + 1 by {
      var q, r := c / k, c % k;
      assert c == q * k + r;
      if r + 1 == k {
        assert c + 1 == (q + 1) * k;
        MultipleMod(q + 1, k, 0);
      } else {
        MultipleMod(q, k, r + 1);
      }
    }
  }

  lemma {:induction false} MultipleMod(q: nat, k: nat, r: nat)
    requires r < k
    ensures (q * k + r) % k == r
  {
    var x := q * k + r;
    var m := q - x / k;
    assert x == (x / k) * k + x % k;
    assert m * k == x % k - r;
    if m != 0 {
      MultipleGrows(m, k);
    }
  }

  lemma {:induction false} MultipleGrows(m: int, k: nat)
    requires m != 0
    ensures m * k >= k || m * k + k <= 0
    decreases if m > 0 then m else -m
  {
    if m > 1 {
      MultipleGrows(m - 1, k);
    } else if m < -1 {
      MultipleGrows(m + 1, k);
    }
  }

  /** The owner who waits longer is never ahead, and never behind by more than one turn. */
  lemma {:induction false} Balanced(owners: seq<Id>, c: nat, log: seq<Id>, p: nat, q: nat)
    requires owners != [] && DistinctOwners(owners) && InTurn(owners, c, log)
    requires p < |owners| && q < |owners| && Wait(p, c, |owners|) < Wait(q, c, |owners|)
    ensures Served(log, owners[q]) <= Served(log, owners[p]) <= Served(log, owners[q]) + 1
    decreases |log|
  {
    if log == [] {
    } else {
      var k := |owners|;
      NextWait(p, c, k);
      NextWait(q, c, k);
      assert log[0] == owners[(c + 0) % k];
      forall t | 0 <= t < |log| - 1 ensures log[1..][t] == owners[(c + 1 + t) % k] {
        assert log[1..][t] == log[t + 1] && c + (t + 1) == c + 1 + t;
      }
      if Wait(p, c, k) == 0 {
        Balanced(owners, c + 1, log[1..], q, p);
      } else {
        Balanced(owners, c + 1, log[1..], p, q);
      }
    }
  }

  /** Served in turn, any two owners are within one of each other. */
  lemma {:induction false} TotalsDifferByOne(owners: seq<Id>, c: nat, log: seq<Id>, a: Id, b: Id)
    requires owners != [] && DistinctOwners(owners) && InTurn(owners, c, log) && a in owners && b in owners
    ensures Served(log, a) <= Served(log, b) + 1
  {
    var p: nat :| p < |owners| && owners[p] == a;
    var q: nat :| q < |owners| && owners[q] == b;
    if Wait(p, c, |owners|) < Wait(q, c, |owners|) {
      Balanced(owners, c, log, p, q);
    } else if Wait(q, c, |owners|) < Wait(p, c, |owners|) {
      Balanced(owners, c, log, q, p);
    }
  }

  // ---------------------------------------------------------------- what one operation serves

  /** The owners that an application gave leads under the rule, in lead order. */
  function ApplyLog(d: Desk, o: Id, scope: Scope, was: seq<Lead>, now: seq<Lead>, r: Id, n: nat): seq<Id>
    requires n <= |was| == |now|
  {
    if n == 0 then []
    else
      ApplyLog(d, o, scope, was, now, r, n - 1) +
      if TakesTurn(d, o, scope, was[n - 1], r) && now[n - 1].owner.Some? then [now[n - 1].owner.value] else []
  }

  /** The owners of the leads that a commit created under the rule, in row order. */
  function CommitLog(d: Desk, o: Id, scope: Scope, b: Batch, ks: seq<nat>, r: Id, m: nat): seq<Id>
    requires m <= |ks| && forall i :: 0 <= i < |ks| ==> ks[i] < |b.rows|
  {
    if m == 0 then []
    else CommitLog(d, o, scope, b, ks, r, m - 1) + LastServed(CommitTo(d, o, scope, b, ks, m), ks[m - 1], r)
  }

  /** The owner of the last lead, if row `k` has become that lead under the rule. */
  function LastServed(now: Batch, k: nat, r: Id): seq<Id>
    requires k < |now.rows|
  {
    if now.rows[k].ruleId == Some(r) && now.rows[k].decision == RowImported &&
       now.leads != [] && now.leads[|now.leads| - 1].owner.Some?
    then [now.leads[|now.leads| - 1].owner.value] else []
  }

  /** The rule stands in the desk as a round-robin rule over these owners. */
  predicate Serves(d: Desk, r: Id, owners: seq<Id>) {
    var rule := FindRule(d.rules, r);
    rule.Some? && rule.value.strategy.RoundRobin? && rule.value.owners == owners
  }

  lemma InTurnNone(owners: seq<Id>, c: nat)
    requires owners != []
    ensures InTurn(owners, c, [])
  {
  }

  lemma InTurnMore(owners: seq<Id>, c: nat, log: seq<Id>, e: Id)
    requires owners != [] && InTurn(owners, c, log) && e == owners[(c + |log|) % |owners|]
    ensures InTurn(owners, c, log + [e])
  {
  }

  lemma OneLeadServes(d: Desk, o: Id, scope: Scope, was: seq<Lead>, cursors: map<Id, nat>, r: Id, owners: seq<Id>,
                      i: nat)
    requires WellFormed(d) && Serves(d, r, owners) && owners != [] && i < |was| && TakesTurn(d, o, scope, was[i], r)
    ensures AppliedLead(d, o, scope, was, cursors, i).owner ==
              Some(owners[(CursorOf(cursors, r) + Turns(d, o, scope, was, r, i)) % |owners|])
  {
    FindsRule(d, RuleOf(d, o, scope, was[i]).value);
  }

  lemma {:induction false} ApplyServes(d: Desk, o: Id, scope: Scope, was: seq<Lead>, cursors: map<Id, nat>,
                                       now: seq<Lead>, r: Id, owners: seq<Id>, n: nat)
    requires WellFormed(d) && Serves(d, r, owners) && owners != [] && n <= |was|
    requires LeadsApplied(d, o, scope, was, cursors, now)
    ensures |ApplyLog(d, o, scope, was, now, r, n)| == Turns(d, o, scope, was, r, n)
    ensures InTurn(owners, CursorOf(cursors, r), ApplyLog(d, o, scope, was, now, r, n))
  {
    hide WellFormed, Serves, AppliedLead, TakesTurn, InTurn;
    InTurnNone(owners, CursorOf(cursors, r));
    if n == 0 {
    } else {
      ApplyServes(d, o, scope, was, cursors, now, r, owners, n - 1);
      assert now[n - 1] == AppliedLead(d, o, scope, was, cursors, n - 1);
      if TakesTurn(d, o, scope, was[n - 1], r) {
        OneLeadServes(d, o, scope, was, cursors, r, owners, n - 1);
        InTurnMore(owners, CursorOf(cursors, r), ApplyLog(d, o, scope, was, now, r, n - 1), now[n - 1].owner.value);
      } else {
        assert ApplyLog(d, o, scope, was, now, r, n) == ApplyLog(d, o, scope, was, now, r, n - 1);
      }
    }
  }

  lemma OneRowServes(d: Desk, o: Id, scope: Scope, b: Batch, k: nat, r: Id, owners: seq<Id>)
    requires WellFormed(d) && Serves(d, r, owners) && owners != [] && k < |b.rows| && b.rows[k].decision == RowValid
    ensures var now := CommitRow(d, o, scope, b, k);
            var c := CursorOf(b.cursors, r);
            (LastServed(now, k, r) == [] && CursorOf(now.cursors, r) == c) ||
            (LastServed(now, k, r) == [owners[c % |owners|]] && CursorOf(now.cursors, r) == c + 1)
  {
  }

  lemma {:induction false} CommitServes(d: Desk, o: Id, scope: Scope, b: Batch, r: Id, owners: seq<Id>, m: nat)
    requires WellFormed(d) && Serves(d, r, owners) && owners != [] && m <= |Pending(b.rows, |b.rows|)|
    ensures var ks := Pending(b.rows, |b.rows|);
            var log := CommitLog(d, o, scope, b, ks, r, m);
            CursorOf(CommitTo(d, o, scope, b, ks, m).cursors, r) == CursorOf(b.cursors, r) + |log| &&
            InTurn(owners, CursorOf(b.cursors, r), log)
  {
    hide CommitRow, WellFormed, Serves, InTurn, Pending, LastServed;
    var ks, c := Pending(b.rows, |b.rows|), CursorOf(b.cursors, r);
    if m == 0 {
      InTurnNone(owners, c);
    } else {
      var before, log := CommitTo(d, o, scope, b, ks, m - 1), CommitLog(d, o, scope, b, ks, r, m - 1);
      CommitServes(d, o, scope, b, r, owners, m - 1);
      StillValid(d, o, scope, b, m - 1);
      OneRowServes(d, o, scope, before, ks[m - 1], r, owners);
      var last := LastServed(CommitTo(d, o, scope, b, ks, m), ks[m - 1], r);
      if last == [] {
        assert log + last == log;
      } else {
        InTurnMore(owners, c, log, owners[(c + |log|) % |owners|]);
      }
    }
  }

  // ---------------------------------------------------------------- whole runs

  datatype Store = Store(desk: Desk, leads: seq<Lead>, cursors: map<Id, nat>)

  /** `OtherChange` is any other operation: no other operation moves the cursor of an existing rule. */
  datatype Change =
    | ApplyRules(organizationId: Id, scope: Scope)
    | CommitImport(organizationId: Id, scope: Scope, rows: seq<Row>)
    | OtherChange

  ghost predicate StepTo(s: Store, c: Change, t: Store) {
    match c
    case ApplyRules(o, scope) =>
      LeadsApplied(s.desk, o, scope, s.leads, s.cursors, t.leads) &&
      CursorsMoved(s.desk, o, scope, s.leads, s.cursors, t.cursors, |s.leads|)
    case CommitImport(o, scope, rows) =>
      var b := CommitBatch(s.desk, o, scope, Batch(s.leads, rows, s.cursors));
      t.leads == b.leads && t.cursors == b.cursors
    case OtherChange =>
      forall r: Id {:trigger CursorOf(t.cursors, r)} ::
        FindRule(s.desk.rules, r).Some? ==> CursorOf(t.cursors, r) == CursorOf(s.cursors, r)
  }

  function LogOf(s: Store, c: Change, t: Store, r: Id): seq<Id> {
    match c
    case ApplyRules(o, scope) =>
      if |s.leads| == |t.leads| then ApplyLog(s.desk, o, scope, s.leads, t.leads, r, |s.leads|) else []
    case CommitImport(o, scope, rows) =>
      CommitLog(s.desk, o, scope, Batch(s.leads, rows, s.cursors), Pending(rows, |rows|), r, BatchSize(rows))
    case OtherChange => []
  }

  /** One step moves the cursor by as many places as it served owners, in turn. */
  lemma StepServes(s: Store, c: Change, t: Store, r: Id, owners: seq<Id>)
    requires StepTo(s, c, t) && WellFormed(s.desk) && Serves(s.desk, r, owners) && owners != []
    ensures CursorOf(t.cursors, r) == CursorOf(s.cursors, r) + |LogOf(s, c, t, r)|
    ensures InTurn(owners, CursorOf(s.cursors, r), LogOf(s, c, t, r))
  {
    match c
    case ApplyRules(o, scope) =>
      ApplyServes(s.desk, o, scope, s.leads, s.cursors, t.leads, r, owners, |s.leads|);
    case CommitImport(o, scope, rows) =>
      hide CommitTo, CommitLog, Pending;
      CommitServes(s.desk, o, scope, Batch(s.leads, rows, s.cursors), r, owners, BatchSize(rows));
    case OtherChange =>
  }

  /** A run: every change leads from one store to the next, and the rule keeps its owners throughout. */
  ghost predicate RunsOver(stores: seq<Store>, changes: seq<Change>, r: Id, owners: seq<Id>) {
    && |stores| == |changes| + 1
    && (forall i {:trigger changes[i]} :: 0 <= i < |changes| ==>
          StepTo(stores[i], changes[i], stores[i + 1]) && WellFormed(stores[i].desk) &&
            Serves(stores[i].desk, r, owners))
  }

  /** The owners served by the first `n` changes. */
  function RunLog(stores: seq<Store>, changes: seq<Change>, r: Id, n: nat): seq<Id>
    requires |stores| == |changes| + 1 && n <= |changes|
  {
    if n == 0 then [] else RunLog(stores, changes, r, n - 1) + LogOf(stores[n - 1], changes[n - 1], stores[n], r)
  }

  lemma {:induction false} RunServes(stores: seq<Store>, changes: seq<Change>, r: Id, owners: seq<Id>, n: nat)
    requires RunsOver(stores, changes, r, owners) && owners != [] && n <= |changes|
    ensures CursorOf(stores[n].cursors, r) == CursorOf(stores[0].cursors, r) + |RunLog(stores, changes, r, n)|
    ensures InTurn(owners, CursorOf(stores[0].cursors, r), RunLog(stores, changes, r, n))
  {
    hide StepTo, WellFormed, Serves, LogOf, InTurn;
    InTurnNone(owners, CursorOf(stores[0].cursors, r));
    if n == 0 {
    } else {
      RunServes(stores, changes, r, owners, n - 1);
      assert StepTo(stores[n - 1], changes[n - 1], stores[n]);
      StepServes(stores[n - 1], changes[n - 1], stores[n], r, owners);
      InTurnConcat(owners, CursorOf(stores[0].cursors, r), RunLog(stores, changes, r, n - 1),
                   LogOf(stores[n - 1], changes[n - 1], stores[n], r));
    }
  }

  /**
   * Fairness. Over any run that leaves the owners of a round-robin rule unchanged, the t-th lead
   * that the rule gives away goes to position (c + t) mod k, the cursor moves by the number of leads
   * given away and by nothing else, and the totals of two owners differ by at most one.
   */
  lemma {:induction false} RoundRobinIsFair(stores: seq<Store>, changes: seq<Change>, r: Id, owners: seq<Id>, a: Id,
                                            b: Id)
    requires RunsOver(stores, changes, r, owners) && DistinctOwners(owners) && a in owners && b in owners
    ensures var c, log := CursorOf(stores[0].cursors, r), RunLog(stores, changes, r, |changes|);
            (forall t :: 0 <= t < |log| ==> log[t] == owners[(c + t) % |owners|]) &&
            CursorOf(stores[|changes|].cursors, r) == c + |log| &&
            Served(log, a) <= Served(log, b) + 1
  {
    hide StepTo, WellFormed, Serves, LogOf, RunLog, Served, DistinctOwners;
    RunServes(stores, changes, r, owners, |changes|);
    TotalsDifferByOne(owners, CursorOf(stores[0].cursors, r), RunLog(stores, changes, r, |changes|), a, b);
  }
}
