/** Counting the rows of an import: what the counters mean, and how many commits complete a job. */
module LeadProgress {
  import opened Common
  import opened LeadModel
  import opened LeadImport

  // ---------------------------------------------------------------- counters

  function Count(rows: seq<Row>, decision: Decision, n: nat): nat
    requires n <= |rows|
  {
    if n == 0 then 0 else Count(rows, decision, n - 1) + if rows[n - 1].decision == decision then 1 else 0
  }

  /** The counters kept in a job; they are updated one row at a time. */
  datatype Counters = Counters(total: nat, valid: nat, duplicate: nat, error: nat, imported: nat)

  /** What the counters say about the rows: an imported row still counts as a valid one. */
  ghost predicate Accounted(rows: seq<Row>, c: Counters) {
    && c.total == |rows|
    && c.valid == Count(rows, RowValid, |rows|) + Count(rows, RowImported, |rows|)
    && c.duplicate == Count(rows, RowDuplicate, |rows|)
    && c.error == Count(rows, RowInvalid, |rows|)
    && c.imported == Count(rows, RowImported, |rows|)
  }

  lemma {:induction false} EveryRowCounted(rows: seq<Row>, n: nat)
    requires n <= |rows|
    ensures Count(rows, RowValid, n) + Count(rows, RowDuplicate, n) + Count(rows, RowInvalid, n) +
            Count(rows, RowImported, n) == n
  {
    if n == 0 {
    } else {
      EveryRowCounted(rows, n - 1);
    }
  }

  /** No row is lost: the total is always the valid, duplicate and erroneous rows together. */
  lemma Conservation(rows: seq<Row>, c: Counters)
    requires Accounted(rows, c)
    ensures c.total == c.valid + c.duplicate + c.error
    ensures c.imported <= c.valid
    ensures c.total - Count(rows, RowValid, |rows|) == c.imported + c.duplicate + c.error
  {
    EveryRowCounted(rows, |rows|);
  }

  lemma {:induction false} Recount(rows: seq<Row>, k: nat, row: Row, decision: Decision, n: nat)
    requires k < |rows| && n <= |rows|
    ensures Count(rows[k := row], decision, n) ==
      if k < n then Count(rows, decision, n) - (if rows[k].decision == decision then 1 else 0) +
                    (if row.decision == decision then 1 else 0)
      else Count(rows, decision, n)
  {
    if n == 0 {
    } else {
      Recount(rows, k, row, decision, n - 1);
    }
  }

  function Tally(c: Counters, fate: Fate): Counters
    requires fate.Imports? || c.valid > 0
  {
    match fate
    case Duplicates(_) => c.(duplicate := c.duplicate + 1, valid := c.valid - 1)
    case Fails => c.(error := c.error + 1, valid := c.valid - 1)
    case Imports(_, _) => c.(imported := c.imported + 1)
  }

  /** Settling a valid row and counting its fate keeps the counters in step with the rows. */
  lemma TallyKeeps(rows: seq<Row>, c: Counters, k: nat, fate: Fate)
    requires Accounted(rows, c) && k < |rows| && rows[k].decision == RowValid
    ensures c.valid > 0 && Accounted(rows[k := Settled(rows[k], fate)], Tally(c, fate))
  {
    var row, n := Settled(rows[k], fate), |rows|;
    Recount(rows, k, row, RowValid, n);
    Recount(rows, k, row, RowDuplicate, n);
    Recount(rows, k, row, RowInvalid, n);
    Recount(rows, k, row, RowImported, n);
  }

  lemma {:induction false} PendingIsCount(rows: seq<Row>, n: nat)
    requires n <= |rows|
    ensures |Pending(rows, n)| == Count(rows, RowValid, n)
  {
    if n == 0 {
    } else {
      PendingIsCount(rows, n - 1);
    }
  }

  // ---------------------------------------------------------------- how many commits complete a job

  /** The state in which a commit finds the repository. */
  datatype World = World(desk: Desk, organizationId: Id, scope: Scope, leads: seq<Lead>, cursors: map<Id, nat>)

  /** The rows of a job after one commit in each of the given states. */
  function RowsAfter(rows: seq<Row>, worlds: seq<World>): seq<Row> {
    if worlds == [] then rows
    else
      var w := worlds[|worlds| - 1];
      CommitBatch(w.desk, w.organizationId, w.scope,
                  Batch(w.leads, RowsAfter(rows, worlds[..|worlds| - 1]), w.cursors)).rows
  }

  lemma {:induction false} PendingShrinks(rows: seq<Row>, worlds: seq<World>)
    ensures var v, left := |Pending(rows, |rows|)|, RowsAfter(rows, worlds);
            |Pending(left, |left|)| == if v <= BATCH * |worlds| then 0 else v - BATCH * |worlds|
  {
    if worlds == [] {
    } else {
      PendingShrinks(rows, worlds[..|worlds| - 1]);
      var w, before := worlds[|worlds| - 1], RowsAfter(rows, worlds[..|worlds| - 1]);
      var b := Batch(w.leads, before, w.cursors);
      BatchSettles(w.desk, w.organizationId, w.scope, b, BatchSize(before));
      PendingAfter(before, CommitBatch(w.desk, w.organizationId, w.scope, b).rows, BatchSize(before), |before|);
    }
  }

  /** One commit, and otherwise one for every fifty valid rows. */
  function CommitsNeeded(valid: nat): nat {
    if valid == 0 then 1 else (valid + BATCH - 1) / BATCH
  }

  /**
   * A job is complete after exactly `CommitsNeeded` commits, whatever else changes between them:
   * none of its rows is left valid after that many commits, and some row is after fewer.
   */
  lemma CompletesExactly(rows: seq<Row>, worlds: seq<World>)
    requires worlds != []
    ensures var left := RowsAfter(rows, worlds);
            Pending(left, |left|) == [] <==> |worlds| >= CommitsNeeded(|Pending(rows, |rows|)|)
    ensures var left := RowsAfter(rows, worlds);
            Pending(left, |left|) == [] <==> 50 * |worlds| >= |Pending(rows, |rows|)|
  {
    PendingShrinks(rows, worlds);
  }
}
