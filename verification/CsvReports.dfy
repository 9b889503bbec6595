/**
 * What somebody who reads a printed report finds in it: the header names every column once, in the order in which the
 * rows first mention them, and each record has the values of its row under those names.
 */
module CsvReports {
  import opened Common
  import opened Utf8
  import opened Csv

  // ---------------------------------------------------------------- the promise, without the table

  /** Name `n` stands at place `c` of row `r`. */
  predicate NamedAt(rows: seq<Row>, r: nat, c: nat, n: Text) {
    r < |rows| && c < |rows[r].names| && rows[r].names[c] == n
  }

  predicate NoLater(r: nat, c: nat, s: nat, d: nat) {
    r < s || (r == s && c <= d)
  }

  /** Place `c` of row `r` is the first one with the name. */
  ghost predicate FirstNamedAt(rows: seq<Row>, r: nat, c: nat, n: Text) {
    NamedAt(rows, r, c, n) &&
    forall s: nat, d: nat {:trigger NamedAt(rows, s, d, n)} :: NamedAt(rows, s, d, n) ==> NoLater(r, c, s, d)
  }

  /** Some row first mentions `m` before any row mentions `n`. */
  ghost predicate MentionedBefore(rows: seq<Row>, m: Text, n: Text) {
    exists r: nat, c: nat, s: nat, d: nat {:trigger FirstNamedAt(rows, r, c, m), FirstNamedAt(rows, s, d, n)} ::
      FirstNamedAt(rows, r, c, m) && FirstNamedAt(rows, s, d, n) && !NoLater(s, d, r, c)
  }

  ghost predicate Mentioned(rows: seq<Row>, n: Text) {
    exists r: nat, c: nat {:trigger NamedAt(rows, r, c, n)} :: NamedAt(rows, r, c, n)
  }

  /** The header has every name that a row mentions, once, in the order of first mention. */
  ghost predicate HeaderRight(rows: seq<Row>, header: seq<Text>) {
    && (forall i, j :: 0 <= i < j < |header| ==> header[i] != header[j])
    && (forall n: Text {:trigger n in header} :: n in header <==> Mentioned(rows, n))
    && (forall i, j {:trigger header[i], header[j]} :: 0 <= i < j < |header| ==>
          MentionedBefore(rows, header[i], header[j]))
  }

  /** The field holds the row's value under the name, and is empty if there is none. */
  predicate FieldRight(row: Row, name: Text, field: Text) {
    field == if name in row.cells then match row.cells[name] case Some(value) => value case None => [] else []
  }

  ghost predicate RecordRight(row: Row, header: seq<Text>, record: seq<Text>) {
    |record| == |header| && forall j {:trigger header[j]} {:trigger record[j]} :: 0 <= j < |header| ==>
      FieldRight(row, header[j], record[j])
  }

  /** The records are the header and, for each row, its values. */
  ghost predicate RecordsRight(rows: seq<Row>, records: seq<seq<Text>>) {
    |records| == |rows| + 1 && HeaderRight(rows, records[0]) &&
    forall i {:trigger rows[i]} :: 0 <= i < |rows| ==> RecordRight(rows[i], records[0], records[i + 1])
  }

  /** No name and no value under a name has a lone surrogate. */
  ghost predicate TextsWellFormed(rows: seq<Row>) {
    && (forall n: Text {:trigger Mentioned(rows, n)} :: Mentioned(rows, n) ==> WellFormed(n))
    && (forall i, n: Text {:trigger Mentioned(rows, n), rows[i]} ::
          0 <= i < |rows| && Mentioned(rows, n) && n in rows[i].cells && rows[i].cells[n].Some? ==>
          WellFormed(rows[i].cells[n].value))
  }

  // ---------------------------------------------------------------- places in the list of all names

  /** The place in the list of all names where those of row `r` begin. */
  function Offset(rows: seq<Row>, r: nat): nat
    requires r <= |rows|
  {
    if r == 0 then 0 else |rows[0].names| + Offset(rows[1..], r - 1)
  }

  lemma {:induction false} NameAt(rows: seq<Row>, r: nat, c: nat)
    requires r < |rows| && c < |rows[r].names|
    ensures Offset(rows, r) + c < |AllNames(rows)| && AllNames(rows)[Offset(rows, r) + c] == rows[r].names[c]
  {
    if r == 0 {
    } else {
      assert rows[1..][r - 1] == rows[r];
      NameAt(rows[1..], r - 1, c);
    }
  }

  lemma {:induction false} PlaceAt(rows: seq<Row>, p: nat) returns (r: nat, c: nat)
    requires p < |AllNames(rows)|
    ensures r < |rows| && c < |rows[r].names| && p == Offset(rows, r) + c && rows[r].names[c] == AllNames(rows)[p]
  {
    if p < |rows[0].names| {
      r, c := 0, p;
    } else {
      r, c := PlaceAt(rows[1..], p - |rows[0].names|);
      assert rows[1..][r] == rows[r + 1];
      r := r + 1;
    }
  }

  lemma {:induction false} OffsetsGrow(rows: seq<Row>, r: nat, s: nat)
    requires r < s <= |rows|
    ensures Offset(rows, r) + |rows[r].names| <= Offset(rows, s)
  {
    if r == 0 {
    } else {
      assert rows[1..][r - 1] == rows[r];
      OffsetsGrow(rows[1..], r - 1, s - 1);
    }
  }

  /** Places are ordered as rows and columns are. */
  lemma PlacesOrdered(rows: seq<Row>, r: nat, c: nat, s: nat, d: nat)
    requires r < |rows| && c < |rows[r].names| && s < |rows| && d < |rows[s].names|
    ensures NoLater(r, c, s, d) <==> Offset(rows, r) + c <= Offset(rows, s) + d
  {
    if r < s {
      OffsetsGrow(rows, r, s);
    } else if s < r {
      OffsetsGrow(rows, s, r);
    }
  }

  // ---------------------------------------------------------------- first occurrences

  /** Place `p` is the first one with its name. */
  ghost predicate FirstAt(names: seq<Text>, p: nat) {
    p < |names| && forall q {:trigger names[q]} :: 0 <= q < p ==> names[q] != names[p]
  }

  /** The place where the `i`-th distinct name first occurs; the places ascend. */
  lemma {:induction false} DistinctPlaces(names: seq<Text>) returns (ps: seq<nat>)
    ensures |ps| == |Distinct(names)|
    ensures forall i {:trigger ps[i]} :: 0 <= i < |ps| ==> FirstAt(names, ps[i]) && names[ps[i]] == Distinct(names)[i]
    ensures forall i, j {:trigger ps[i], ps[j]} :: 0 <= i < j < |ps| ==> ps[i] < ps[j]
  {
    if names == [] {
      ps := [];
    } else {
      var n := |names| - 1;
      var before := names[..n];
      ps := DistinctPlaces(before);
      forall i | 0 <= i < |ps| ensures FirstAt(names, ps[i]) && names[ps[i]] == Distinct(before)[i] {
        assert FirstAt(before, ps[i]);
        assert forall q {:trigger names[q]} :: 0 <= q < n ==> names[q] == before[q];
      }
      if names[n] !in Distinct(before) {
        assert forall q {:trigger names[q]} :: 0 <= q < n ==> names[q] == before[q] && before[q] in before;
        assert FirstAt(names, n);
        ps := ps + [n];
      }
    }
  }

  lemma FirstIsFirst(rows: seq<Row>, p: nat) returns (r: nat, c: nat)
    requires FirstAt(AllNames(rows), p)
    ensures FirstNamedAt(rows, r, c, AllNames(rows)[p]) && p == Offset(rows, r) + c
  {
    r, c := PlaceAt(rows, p);
    var n := AllNames(rows)[p];
    forall s: nat, d: nat | NamedAt(rows, s, d, n) ensures NoLater(r, c, s, d) {
      NameAt(rows, s, d);
      PlacesOrdered(rows, r, c, s, d);
    }
  }

  lemma MentionedIsNamed(rows: seq<Row>, n: Text)
    ensures n in AllNames(rows) <==> Mentioned(rows, n)
  {
    if n in AllNames(rows) {
      var p: nat :| p < |AllNames(rows)| && AllNames(rows)[p] == n;
      var r, c := PlaceAt(rows, p);
      assert NamedAt(rows, r, c, n);
    }
    if Mentioned(rows, n) {
      var r: nat, c: nat :| NamedAt(rows, r, c, n);
      NameAt(rows, r, c);
    }
  }

  lemma {:induction false} ColumnsRight(rows: seq<Row>)
    ensures HeaderRight(rows, Columns(rows))
  {
    var names, header := AllNames(rows), Columns(rows);
    var ps := DistinctPlaces(names);
    forall n: Text ensures n in header <==> Mentioned(rows, n) {
      MentionedIsNamed(rows, n);
    }
    forall i, j | 0 <= i < j < |header|
      ensures header[i] != header[j] && MentionedBefore(rows, header[i], header[j])
    {
      assert ps[i] < ps[j] && FirstAt(names, ps[i]) && FirstAt(names, ps[j]);
      assert names[ps[i]] == header[i] && names[ps[j]] == header[j];
      var r, c := FirstIsFirst(rows, ps[i]);
      var s, d := FirstIsFirst(rows, ps[j]);
      PlacesOrdered(rows, s, d, r, c);
    }
  }

  // ---------------------------------------------------------------- what is read back

  lemma TableRight(rows: seq<Row>)
    ensures RecordsRight(rows, Table(rows))
  {
    ColumnsRight(rows);
    hide HeaderRight, Columns;
  }

  lemma TextsInTable(rows: seq<Row>)
    requires TextsWellFormed(rows)
    ensures TableWellFormed(Table(rows))
  {
    ColumnsRight(rows);
    var table, header := Table(rows), Columns(rows);
    assert WellFormed([]);
    hide WellFormed, Columns;
    forall i | 0 <= i < |table| ensures AllWellFormed(table[i]) {
      forall j | 0 <= j < |table[i]| ensures WellFormed(table[i][j]) {
        assert header[j] in header && Mentioned(rows, header[j]);
        if i > 0 {
          assert table[i][j] == CellText(rows[i - 1], header[j]);
        }
      }
    }
  }

  /**
   * A report with at least one name reads back as its header and the values of its rows; the bytes begin with a byte
   * order mark, and nothing is lost on the way through UTF-8 if no text has a lone surrogate.
   */
  lemma ReportReadsBack(rows: seq<Row>, n: Text)
    requires Mentioned(rows, n) && TextsWellFormed(rows)
    ensures |RenderCsv(rows)| >= 3 && RenderCsv(rows)[..3] == [0xEF, 0xBB, 0xBF]
    ensures var text := Decode(RenderCsv(rows));
            text.Some? && ReadRecords(text.value).Some? && RecordsRight(rows, ReadRecords(text.value).value)
  {
    ColumnsRight(rows);
    assert n in Columns(rows);
    TableRight(rows);
    TextsInTable(rows);
    RenderedBytesReadBack(rows);
    MarkFirst(Lines(Table(rows)));
    hide RecordsRight, Table, Lines, Decode, ReadRecords, TableWellFormed;
  }

  lemma MarkFirst(body: Text)
    ensures |Encode([BYTE_ORDER_MARK] + body)| >= 3 && Encode([BYTE_ORDER_MARK] + body)[..3] == [0xEF, 0xBB, 0xBF]
  {
    var marked := [BYTE_ORDER_MARK] + body;
    assert marked[1..] == body && !StartsPair(marked);
    assert Scalars(marked) == [BYTE_ORDER_MARK] + Scalars(body);
    assert Scalars(marked)[1..] == Scalars(body);
  }
}
