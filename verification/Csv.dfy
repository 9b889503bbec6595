/**
 * Reports printed as comma-separated values, and a reader for the format of section 2 of RFC 4180.
 */
module Csv {
  import opened Common
  import opened Utf8

  const QUOTE: Unit := 0x22
  const COMMA: Unit := 0x2C
  const CR: Unit := 0x0D
  const LF: Unit := 0x0A

  function CrLf(): Text { [CR, LF] }

  predicate Special(u: Unit) {
    u == QUOTE || u == COMMA || u == CR || u == LF
  }

  /** A cell is a text, or missing: null, undefined, or no cell of that name. */
  datatype Row = Row(names: seq<Text>, cells: map<Text, Option<Text>>)

  // ---------------------------------------------------------------- printing

  function Doubled(t: Text): Text {
    if t == [] then [] else (if t[0] == QUOTE then [QUOTE, QUOTE] else [t[0]]) + Doubled(t[1..])
  }

  predicate NeedsQuotes(t: Text) {
    exists i :: 0 <= i < |t| && Special(t[i])
  }

  function CsvCell(t: Text): Text {
    if NeedsQuotes(t) then [QUOTE] + Doubled(t) + [QUOTE] else t
  }

  /** The cells of a line, separated by commas; the line is ended by CR LF. */
  function Line(cells: seq<Text>): Text {
    if cells == [] then CrLf()
    else if |cells| == 1 then CsvCell(cells[0]) + CrLf()
    else CsvCell(cells[0]) + ([COMMA] + Line(cells[1..]))
  }

  function Lines(table: seq<seq<Text>>): Text {
    if table == [] then [] else Line(table[0]) + Lines(table[1..])
  }

  /** The values of a list without repetitions, in the order of first occurrence. */
  function Distinct(names: seq<Text>): (r: seq<Text>)
    ensures forall n :: n in r <==> n in names
  {
    if names == [] then []
    else
      var rest := Distinct(names[..|names| - 1]);
      if names[|names| - 1] in rest then rest else rest + [names[|names| - 1]]
  }

  function AllNames(rows: seq<Row>): seq<Text> {
    if rows == [] then [] else rows[0].names + AllNames(rows[1..])
  }

  function Columns(rows: seq<Row>): seq<Text> {
    Distinct(AllNames(rows))
  }

  function CellText(row: Row, name: Text): Text {
    if name in row.cells && row.cells[name].Some? then row.cells[name].value else []
  }

  function RowTexts(row: Row, columns: seq<Text>): (r: seq<Text>)
    ensures |r| == |columns|
  {
    seq(|columns|, i requires 0 <= i < |columns| => CellText(row, columns[i]))
  }

  function BodyTexts(rows: seq<Row>, columns: seq<Text>): (table: seq<seq<Text>>)
    ensures |table| == |rows|
  {
    seq(|rows|, i requires 0 <= i < |rows| => RowTexts(rows[i], columns))
  }

  /** The header and the cell texts of a report. */
  function Table(rows: seq<Row>): seq<seq<Text>> {
    [Columns(rows)] + BodyTexts(rows, Columns(rows))
  }

  function RenderCsv(rows: seq<Row>): Bytes {
    Encode([BYTE_ORDER_MARK] + Lines(Table(rows)))
  }

  // ---------------------------------------------------------------- reading

  /** Reads up to the closing quote; two quotes stand for one. */
  function ReadQuoted(t: Text): (r: Option<(Text, Text)>)
    ensures r.Some? ==> |r.value.1| < |t|
    decreases |t|
  {
    if t == [] then None
    else if t[0] != QUOTE then
      var r := ReadQuoted(t[1..]);
      if r.None? then None else Some(([t[0]] + r.value.0, r.value.1))
    else if |t| > 1 && t[1] == QUOTE then
      var r := ReadQuoted(t[2..]);
      if r.None? then None else Some(([QUOTE] + r.value.0, r.value.1))
    else Some(([], t[1..]))
  }

  function ReadPlain(t: Text): (r: (Text, Text))
    ensures |r.1| <= |t|
  {
    if t == [] || Special(t[0]) then ([], t)
    else
      var r := ReadPlain(t[1..]);
      ([t[0]] + r.0, r.1)
  }

  function ReadField(t: Text): (r: Option<(Text, Text)>)
    ensures r.Some? ==> |r.value.1| <= |t|
  {
    if t != [] && t[0] == QUOTE then ReadQuoted(t[1..]) else Some(ReadPlain(t))
  }

  /** The fields of one record, up to the line break or the end of the text. */
  function ReadRecord(t: Text): (r: Option<(seq<Text>, Text)>)
    ensures r.Some? && t != [] ==> |r.value.1| < |t|
    decreases |t|
  {
    var f := ReadField(t);
    if f.None? then None
    else
      var (field, rest) := f.value;
      if rest == [] then Some(([field], []))
      else if rest[0] == COMMA then
        var r := ReadRecord(rest[1..]);
        if r.None? then None else Some(([field] + r.value.0, r.value.1))
      else if |rest| >= 2 && rest[0] == CR && rest[1] == LF then Some(([field], rest[2..]))
      else None
  }

  function ReadRecords(t: Text): Option<seq<seq<Text>>>
    decreases |t|
  {
    if t == [] then Some([])
    else
      var first := ReadRecord(t);
      if first.None? then None
      else
        var rest := ReadRecords(first.value.1);
        if rest.None? then None else Some([first.value.0] + rest.value)
  }

  // ---------------------------------------------------------------- round trip

  /** The text that follows a cell: a comma or a line break. */
  predicate EndsCell(after: Text) {
    after != [] && (after[0] == COMMA || after[0] == CR)
  }

  lemma QuotedOther(u: Unit, rest: Text)
    requires u != QUOTE && ReadQuoted(rest).Some?
    ensures ReadQuoted([u] + rest) == Some(([u] + ReadQuoted(rest).value.0, ReadQuoted(rest).value.1))
  {
    assert ([u] + rest)[1..] == rest;
  }

  lemma QuotedQuote(rest: Text)
    requires ReadQuoted(rest).Some?
    ensures ReadQuoted([QUOTE, QUOTE] + rest) == Some(([QUOTE] + ReadQuoted(rest).value.0, ReadQuoted(rest).value.1))
  {
    assert ([QUOTE, QUOTE] + rest)[2..] == rest;
  }

  lemma QuotedEnd(after: Text)
    requires EndsCell(after)
    ensures ReadQuoted([QUOTE] + after) == Some(([], after))
  {
    assert ([QUOTE] + after)[1..] == after;
  }

  lemma {:induction false} ReadsDoubled(t: Text, after: Text)
    requires EndsCell(after)
    ensures ReadQuoted(Doubled(t) + ([QUOTE] + after)) == Some((t, after))
  {
    hide ReadQuoted, EndsCell;
    var tail := [QUOTE] + after;
    if t == [] {
      assert Doubled(t) + tail == tail;
      QuotedEnd(after);
    } else {
      ReadsDoubled(t[1..], after);
      assert t == [t[0]] + t[1..];
      if t[0] == QUOTE {
        assert Doubled(t) + tail == [QUOTE, QUOTE] + (Doubled(t[1..]) + tail);
        QuotedQuote(Doubled(t[1..]) + tail);
      } else {
        assert Doubled(t) + tail == [t[0]] + (Doubled(t[1..]) + tail);
        QuotedOther(t[0], Doubled(t[1..]) + tail);
      }
    }
  }

  lemma {:induction false} ReadsPlain(t: Text, after: Text)
    requires EndsCell(after) && !NeedsQuotes(t)
    ensures ReadPlain(t + after) == (t, after)
  {
    if t == [] {
      assert t + after == after;
    } else {
      assert (t + after)[1..] == t[1..] + after;
      forall i | 0 <= i < |t| - 1 ensures !Special(t[1..][i]) {
        assert t[1..][i] == t[i + 1];
      }
      ReadsPlain(t[1..], after);
      assert !Special(t[0]) && t == [t[0]] + t[1..];
    }
  }

  lemma FieldQuoted(rest: Text)
    ensures ReadField([QUOTE] + rest) == ReadQuoted(rest)
  {
    hide ReadQuoted;
    assert ([QUOTE] + rest)[1..] == rest;
  }

  lemma FieldPlain(t: Text)
    requires t != [] && t[0] != QUOTE
    ensures ReadField(t) == Some(ReadPlain(t))
  {
    hide ReadPlain;
  }

  lemma PlainStart(t: Text, after: Text)
    requires EndsCell(after) && !NeedsQuotes(t)
    ensures t + after != [] && (t + after)[0] != QUOTE
  {
    if t != [] {
      assert !Special(t[0]);
    }
  }

  lemma ReadsCell(t: Text, after: Text)
    requires EndsCell(after)
    ensures ReadField(CsvCell(t) + after) == Some((t, after))
  {
    hide ReadField, ReadQuoted, ReadPlain, EndsCell, NeedsQuotes, Doubled;
    if NeedsQuotes(t) {
      ReadsDoubled(t, after);
      assert CsvCell(t) + after == [QUOTE] + (Doubled(t) + ([QUOTE] + after));
      FieldQuoted(Doubled(t) + ([QUOTE] + after));
    } else {
      ReadsPlain(t, after);
      PlainStart(t, after);
      FieldPlain(t + after);
    }
  }

  lemma RecordGoesOn(t: Text, field: Text, rest: Text, fields: seq<Text>, after: Text)
    requires ReadField(t) == Some((field, rest)) && rest != [] && rest[0] == COMMA
    requires ReadRecord(rest[1..]) == Some((fields, after))
    ensures ReadRecord(t) == Some(([field] + fields, after))
  {
    hide ReadField;
  }

  lemma RecordEnds(t: Text, field: Text, after: Text)
    requires ReadField(t) == Some((field, CrLf() + after))
    ensures ReadRecord(t) == Some(([field], after))
  {
    hide ReadField;
    assert (CrLf() + after)[2..] == after;
  }

  lemma {:induction false} ReadsLine(cells: seq<Text>, after: Text)
    requires cells != []
    ensures ReadRecord(Line(cells) + after) == Some((cells, after))
  {
    hide CsvCell, ReadField, ReadRecord;
    if |cells| == 1 {
      ReadsCell(cells[0], CrLf() + after);
      assert Line(cells) + after == CsvCell(cells[0]) + (CrLf() + after);
      RecordEnds(Line(cells) + after, cells[0], after);
      assert cells == [cells[0]];
    } else {
      var rest := [COMMA] + (Line(cells[1..]) + after);
      ReadsCell(cells[0], rest);
      ReadsLine(cells[1..], after);
      assert Line(cells) + after == CsvCell(cells[0]) + rest;
      assert rest[1..] == Line(cells[1..]) + after;
      RecordGoesOn(Line(cells) + after, cells[0], rest, cells[1..], after);
      assert cells == [cells[0]] + cells[1..];
    }
  }

  /** Reading back printed lines, each with at least one cell, gives the cells. */
  lemma {:induction false} ReadsLines(table: seq<seq<Text>>)
    requires forall i :: 0 <= i < |table| ==> table[i] != []
    ensures ReadRecords(Lines(table)) == Some(table)
  {
    hide ReadRecord, Line, ReadRecords;
    if table == [] {
      ReadsNothing();
    } else {
      ReadsLines(table[1..]);
      ReadsLine(table[0], Lines(table[1..]));
      LineNotEmpty(table[0]);
      RecordsGoOn(Lines(table), table[0], Lines(table[1..]), table[1..]);
      assert table == [table[0]] + table[1..];
    }
  }

  lemma ReadsNothing()
    ensures ReadRecords([]) == Some([])
  {
  }

  lemma RecordsGoOn(t: Text, first: seq<Text>, rest: Text, others: seq<seq<Text>>)
    requires t != [] && ReadRecord(t) == Some((first, rest)) && ReadRecords(rest) == Some(others)
    ensures ReadRecords(t) == Some([first] + others)
  {
    hide ReadRecord;
  }

  lemma LineNotEmpty(cells: seq<Text>)
    ensures Line(cells) != []
  {
  }

  /** A line without cells reads back as a line with one empty cell. */
  lemma {:induction false} EmptyLinesRead(table: seq<seq<Text>>)
    requires forall i :: 0 <= i < |table| ==> table[i] == []
    ensures ReadRecords(Lines(table)).Some? && |ReadRecords(Lines(table)).value| == |table|
    ensures table != [] ==> ReadRecords(Lines(table)).value[0] == [[]]
  {
    if table == [] {
    } else {
      EmptyLinesRead(table[1..]);
      ReadsLine([[]], Lines(table[1..]));
      assert Line([]) == Line([[]]);
    }
  }

  /** Printing then reading is the identity on the texts of a report if and only if it has a column. */
  lemma CsvRoundTrip(rows: seq<Row>)
    ensures ReadRecords(Lines(Table(rows))) == Some(Table(rows)) <==> Columns(rows) != []
  {
    var table := Table(rows);
    if Columns(rows) != [] {
      ReadsLines(table);
    } else {
      EmptyLinesRead(table);
      assert table[0] == [];
    }
  }

  // ---------------------------------------------------------------- down to the bytes

  lemma {:induction false} JoinedWellFormed(a: Text, u: Unit, b: Text)
    requires !High(u) && !Low(u)
    ensures WellFormed(a + ([u] + b)) <==> WellFormed(a) && WellFormed(b)
  {
    var whole := a + ([u] + b);
    if a == [] {
      assert whole == [u] + b && whole[1..] == b;
    } else if StartsPair(a) {
      assert whole[2..] == a[2..] + ([u] + b);
      JoinedWellFormed(a[2..], u, b);
    } else {
      assert whole[0] == a[0] && whole[1..] == a[1..] + ([u] + b);
      JoinedWellFormed(a[1..], u, b);
    }
  }

  lemma {:induction false} DoubledWellFormed(t: Text)
    ensures WellFormed(Doubled(t)) <==> WellFormed(t)
  {
    if t == [] {
    } else if StartsPair(t) {
      DoubledWellFormed(t[2..]);
      var d := Doubled(t);
      assert t[1..][0] == t[1] && t[1..][1..] == t[2..];
      assert Doubled(t[1..]) == [t[1]] + Doubled(t[2..]);
      assert d == [t[0]] + ([t[1]] + Doubled(t[2..])) && d[2..] == Doubled(t[2..]);
    } else {
      DoubledWellFormed(t[1..]);
      var d := Doubled(t);
      if t[0] == QUOTE {
        assert d[1..][1..] == Doubled(t[1..]) && !StartsPair(d) && !StartsPair(d[1..]);
      } else {
        assert d[1..] == Doubled(t[1..]);
        if |t| > 1 && High(t[0]) {
          assert d[1] == t[1];
        }
      }
    }
  }

  lemma CellWellFormed(t: Text, u: Unit, after: Text)
    requires !High(u) && !Low(u)
    ensures WellFormed(CsvCell(t) + ([u] + after)) <==> WellFormed(t) && WellFormed(after)
  {
    JoinedWellFormed(CsvCell(t), u, after);
    if NeedsQuotes(t) {
      DoubledWellFormed(t);
      JoinedWellFormed(Doubled(t), QUOTE, []);
      JoinedWellFormed([], QUOTE, Doubled(t) + ([QUOTE] + []));
      assert CsvCell(t) == [] + ([QUOTE] + (Doubled(t) + ([QUOTE] + [])));
    }
  }

  ghost predicate AllWellFormed(cells: seq<Text>) {
    forall i :: 0 <= i < |cells| ==> WellFormed(cells[i])
  }

  lemma {:induction false} LineSplits(cells: seq<Text>, after: Text)
    requires cells != []
    ensures Line(cells) + after ==
      if |cells| == 1 then CsvCell(cells[0]) + ([CR] + ([LF] + after))
      else CsvCell(cells[0]) + ([COMMA] + (Line(cells[1..]) + after))
  {
    hide CsvCell;
  }

  lemma LineFeedWellFormed(after: Text)
    ensures WellFormed([LF] + after) <==> WellFormed(after)
  {
    assert ([LF] + after)[1..] == after;
  }

  lemma CellsSplit(cells: seq<Text>)
    requires cells != []
    ensures AllWellFormed(cells) <==> WellFormed(cells[0]) && AllWellFormed(cells[1..])
  {
    hide WellFormed;
    assert forall i :: 0 <= i < |cells[1..]| ==> cells[1..][i] == cells[i + 1];
    if WellFormed(cells[0]) && AllWellFormed(cells[1..]) {
      forall i | 0 <= i < |cells| ensures WellFormed(cells[i]) {
        assert i > 0 ==> cells[i] == cells[1..][i - 1];
      }
    }
  }

  lemma NoCells()
    ensures AllWellFormed([])
  {
  }

  lemma {:induction false} LineWellFormed(cells: seq<Text>, after: Text)
    requires cells != []
    ensures WellFormed(Line(cells) + after) <==> AllWellFormed(cells) && WellFormed(after)
  {
    hide CsvCell, WellFormed, Line, AllWellFormed;
    LineSplits(cells, after);
    CellsSplit(cells);
    if |cells| == 1 {
      CellWellFormed(cells[0], CR, [LF] + after);
      LineFeedWellFormed(after);
      NoCells();
      assert cells[1..] == [];
    } else {
      LineWellFormed(cells[1..], after);
      CellWellFormed(cells[0], COMMA, Line(cells[1..]) + after);
    }
  }

  ghost predicate TableWellFormed(table: seq<seq<Text>>) {
    forall i :: 0 <= i < |table| ==> AllWellFormed(table[i])
  }

  lemma {:induction false} LinesWellFormed(table: seq<seq<Text>>)
    requires forall i :: 0 <= i < |table| ==> table[i] != []
    ensures WellFormed(Lines(table)) <==> TableWellFormed(table)
  {
    if table == [] {
    } else {
      hide Line, WellFormed, AllWellFormed;
      LinesWellFormed(table[1..]);
      LineWellFormed(table[0], Lines(table[1..]));
      assert table == [table[0]] + table[1..];
    }
  }

  /**
   * The rendered bytes, decoded and read, give the report's header and cells back if and only if none of
   * them has a lone surrogate. The byte order mark in front is what the decoder drops.
   */
  lemma RenderedBytesReadBack(rows: seq<Row>)
    requires Columns(rows) != []
    ensures Decode(RenderCsv(rows)) == Some(Lines(Table(rows))) <==> TableWellFormed(Table(rows))
    ensures TableWellFormed(Table(rows)) ==>
              ReadRecords(Decode(RenderCsv(rows)).value) == Some(Table(rows))
  {
    var body := Lines(Table(rows));
    var marked := [BYTE_ORDER_MARK] + body;
    DecodesText(marked);
    assert marked[1..] == body && !StartsPair(marked);
    assert Scalars(marked) == [BYTE_ORDER_MARK] + Scalars(body) && Scalars(marked)[1..] == Scalars(body);
    TextOfScalars(body);
    LinesWellFormed(Table(rows));
    CsvRoundTrip(rows);
  }
}
