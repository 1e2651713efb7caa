/** The table export and a reader for the comma-separated values of
    RFC 4180, section 2, with line feeds between records. */
module CsvExport {
  import opened Options
  import opened Printing

  /** A cell; a missing value prints as nothing. */
  datatype Cell = Missing | Shown(text: string)

  datatype Table = Table(header: seq<Cell>, rows: seq<seq<Cell>>)

  function TextOf(cell: Cell): string {
    if cell.Missing? then "" else cell.text
  }

  // ----- Writing -----

  function Escape(cell: Cell): string {
    var text := TextOf(cell);
    if '"' in text || ',' in text || '\n' in text then "\"" + Doubled(text) + "\"" else text
  }

  function Escaped(cells: seq<Cell>): seq<string> {
    seq(|cells|, i requires 0 <= i < |cells| => Escape(cells[i]))
  }

  function RowLine(cells: seq<Cell>): string {
    Join(Escaped(cells), ',')
  }

  function Lines(rows: seq<seq<Cell>>): seq<string> {
    seq(|rows|, i requires 0 <= i < |rows| => RowLine(rows[i]))
  }

  /** The header and the rows. */
  function Records(table: Table): seq<seq<Cell>> {
    [table.header] + table.rows
  }

  method ExportCsv(table: Table) returns (text: string)
    ensures text == Join(Lines(Records(table)), '\n')
  {
    var lines := [RowLine(table.header)];
    for i := 0 to |table.rows|
      invariant lines == Lines(Records(table)[..i + 1])
    {
      lines := lines + [RowLine(table.rows[i])];
    }
    assert Records(table)[..|table.rows| + 1] == Records(table);
    text := Join(lines, '\n');
  }

  // ----- Reading -----

  /** The rest of a quoted field, up to a quote that is not doubled, and what follows that quote. */
  function ReadQuoted(s: string): (r: Option<(string, string)>)
    ensures r.Some? ==> |r.value.1| < |s|
  {
    if s == "" then None
    else if s[0] == '"' && (|s| == 1 || s[1] != '"') then Some(("", s[1..]))
    else
      var skip := if s[0] == '"' then 2 else 1;
      match ReadQuoted(s[skip..])
      case None => None
      case Some(read) => Some(([s[0]] + read.0, read.1))
  }

  /** An unquoted field and what follows it; there is no quote in it. */
  function ReadPlain(s: string): (r: Option<(string, string)>)
    ensures r.Some? ==> |r.value.1| <= |s|
  {
    if s == "" || s[0] == ',' || s[0] == '\n' then Some(("", s))
    else if s[0] == '"' then None
    else
      match ReadPlain(s[1..])
      case None => None
      case Some(read) => Some(([s[0]] + read.0, read.1))
  }

  function ReadField(s: string): (r: Option<(string, string)>)
    ensures r.Some? ==> |r.value.1| <= |s|
  {
    if s != "" && s[0] == '"' then ReadQuoted(s[1..]) else ReadPlain(s)
  }

  /** The records of a text; None when it is not made of such fields. */
  function Read(s: string): (r: Option<seq<seq<string>>>)
    ensures r.Some? ==> r.value != [] && forall i :: 0 <= i < |r.value| ==> r.value[i] != []
    decreases |s|
  {
    match ReadField(s)
    case None => None
    case Some((field, rest)) =>
      if rest == "" then Some([[field]])
      else if rest[0] == ',' then Continued(field, Read(rest[1..]))
      else if rest[0] == '\n' then Followed([field], Read(rest[1..]))
      else None
  }

  /** One more field at the front of the first record. */
  function Continued(field: string, records: Option<seq<seq<string>>>): Option<seq<seq<string>>>
    requires records.Some? ==> records.value != []
  {
    match records
    case None => None
    case Some(read) => Some([[field] + read[0]] + read[1..])
  }

  /** One more record at the front. */
  function Followed(record: seq<string>, records: Option<seq<seq<string>>>): Option<seq<seq<string>>> {
    match records
    case None => None
    case Some(read) => Some([record] + read)
  }

  // ----- Reading what was written -----

  /** Where a field may end. */
  predicate EndsField(rest: string) {
    rest == "" || rest[0] == ',' || rest[0] == '\n'
  }

  lemma {:induction false} ReadDoubled(text: string, rest: string)
    requires EndsField(rest)
    ensures ReadQuoted(Doubled(text) + "\"" + rest) == Some((text, rest))
  {
    var s := Doubled(text) + "\"" + rest;
    if text == "" {
      assert s[1..] == rest;
    } else {
      var skip := if text[0] == '"' then 2 else 1;
      assert s[skip..] == Doubled(text[1..]) + "\"" + rest;
      ReadDoubled(text[1..], rest);
      assert text == [text[0]] + text[1..];
    }
  }

  lemma {:induction false} ReadUnquoted(text: string, rest: string)
    requires EndsField(rest)
    requires '"' !in text && ',' !in text && '\n' !in text
    ensures ReadPlain(text + rest) == Some((text, rest))
  {
    if text == "" {
      assert text + rest == rest;
    } else {
      assert text[0] in text;
      assert (text + rest)[1..] == text[1..] + rest;
      ReadUnquoted(text[1..], rest);
      assert text == [text[0]] + text[1..];
    }
  }

  /** A written cell is read back, whatever it holds and whichever separator follows. */
  lemma ReadEscaped(cell: Cell, rest: string)
    requires EndsField(rest)
    ensures ReadField(Escape(cell) + rest) == Some((TextOf(cell), rest))
  {
    hide Doubled, ReadQuoted, ReadPlain;
    var text, s := TextOf(cell), Escape(cell) + rest;
    if '"' in text || ',' in text || '\n' in text {
      assert s[1..] == Doubled(text) + "\"" + rest;
      ReadDoubled(text, rest);
    } else {
      if text != "" { assert text[0] in text; }
      ReadUnquoted(text, rest);
    }
  }

  lemma ReadCell(cell: Cell, rest: string)
    requires EndsField(rest)
    ensures Read(Escape(cell) + rest) ==
      if rest == "" then Some([[TextOf(cell)]])
      else if rest[0] == ',' then Continued(TextOf(cell), Read(rest[1..]))
      else Followed([TextOf(cell)], Read(rest[1..]))
  {
    ReadEscaped(cell, rest);
    hide ReadField, Escape, TextOf, Continued, Followed;
  }

  function Texts(cells: seq<Cell>): seq<string> {
    seq(|cells|, i requires 0 <= i < |cells| => TextOf(cells[i]))
  }

  /** What the reading of a row and the rest of a text is. */
  function After(cells: seq<Cell>, rest: string): Option<seq<seq<string>>> {
    if rest == "" then Some([Texts(cells)]) else Followed(Texts(cells), Read(rest[1..]))
  }

  lemma AfterOneMore(cell: Cell, tail: seq<Cell>, rest: string)
    ensures Texts([cell] + tail) == [TextOf(cell)] + Texts(tail)
    ensures After([cell] + tail, rest) == Continued(TextOf(cell), After(tail, rest))
  {
    assert Texts([cell] + tail) == [TextOf(cell)] + Texts(tail);
    hide Texts;
    if rest == "" {
      assert [[TextOf(cell)] + Texts(tail)] + [Texts(tail)][1..] == [[TextOf(cell)] + Texts(tail)];
    } else if Read(rest[1..]).Some? {
      var read := Read(rest[1..]).value;
      assert ([Texts(tail)] + read)[1..] == read;
    }
  }

  lemma RowLineSplits(cell: Cell, tail: seq<Cell>)
    ensures RowLine([cell] + tail) == if tail == [] then Escape(cell) else Escape(cell) + "," + RowLine(tail)
  {
    assert Escaped([cell] + tail) == [Escape(cell)] + Escaped(tail);
    hide Escape;
    JoinFront(Escape(cell), Escaped(tail), ',');
  }

  lemma {:induction false} ReadRow(cells: seq<Cell>, rest: string)
    requires cells != [] && (rest == "" || rest[0] == '\n')
    ensures Read(RowLine(cells) + rest) == After(cells, rest)
  {
    var cell, tail := cells[0], cells[1..];
    assert cells == [cell] + tail;
    RowLineSplits(cell, tail);
    hide RowLine, Escape, TextOf, Read, Continued, Followed;
    if tail == [] {
      ReadCell(cell, rest);
      assert Texts(cells) == [TextOf(cell)];
    } else {
      hide Texts, After;
      LineGoesOn(Escape(cell), RowLine(tail), rest);
      ReadCell(cell, "," + RowLine(tail) + rest);
      ReadRow(tail, rest);
      AfterOneMore(cell, tail, rest);
    }
  }

  lemma LineGoesOn(field: string, line: string, rest: string)
    ensures field + "," + line + rest == field + ("," + line + rest)
    ensures ("," + line + rest)[1..] == line + rest
  {}

  function AllTexts(rows: seq<seq<Cell>>): seq<seq<string>> {
    seq(|rows|, i requires 0 <= i < |rows| => Texts(rows[i]))
  }

  lemma {:induction false} ReadLines(rows: seq<seq<Cell>>)
    requires rows != [] && forall i :: 0 <= i < |rows| ==> rows[i] != []
    ensures Read(Join(Lines(rows), '\n')) == Some(AllTexts(rows))
  {
    var tail := rows[1..];
    assert Lines(rows)[0] == RowLine(rows[0]) && Lines(rows)[1..] == Lines(tail);
    assert AllTexts(rows) == [Texts(rows[0])] + AllTexts(tail);
    if tail == [] {
      ReadRow(rows[0], "");
      assert AllTexts(rows) == [Texts(rows[0])] && Lines(rows) == [RowLine(rows[0])];
      assert RowLine(rows[0]) + "" == RowLine(rows[0]);
    } else {
      var rest := "\n" + Join(Lines(tail), '\n');
      assert Join(Lines(rows), '\n') == RowLine(rows[0]) + rest;
      assert rest[1..] == Join(Lines(tail), '\n');
      ReadRow(rows[0], rest);
      ReadLines(tail);
    }
  }

  /** Reading an exported table gives the header's and every row's
      texts back if and only if none of them is without cells. */
  lemma ExportIsReadBack(table: Table)
    ensures Read(Join(Lines(Records(table)), '\n')) == Some(AllTexts(Records(table))) <==>
            table.header != [] && forall i :: 0 <= i < |table.rows| ==> table.rows[i] != []
  {
    var records := Records(table);
    assert records[0] == table.header && forall i :: 0 <= i < |table.rows| ==> records[i + 1] == table.rows[i];
    if table.header != [] && forall i :: 0 <= i < |table.rows| ==> table.rows[i] != [] {
      ReadLines(records);
    }
    if Read(Join(Lines(records), '\n')) == Some(AllTexts(records)) {
      forall i | 0 <= i < |records| ensures records[i] != [] {
        assert AllTexts(records)[i] != [] && |AllTexts(records)[i]| == |records[i]|;
      }
    }
  }

  /** What is read back, cell by cell: the header first, then the rows, and nothing for a missing value. */
  lemma ExportSaysTable(table: Table, i: nat, j: nat)
    requires table.header != [] && forall k :: 0 <= k < |table.rows| ==> table.rows[k] != []
    ensures Read(Join(Lines(Records(table)), '\n')).Some?
    ensures var read := Read(Join(Lines(Records(table)), '\n')).value;
      && |read| == 1 + |table.rows| && |read[0]| == |table.header|
      && (j < |table.header| ==> read[0][j] == match table.header[j] case Missing => "" case Shown(text) => text)
      && (i < |table.rows| ==> |read[i + 1]| == |table.rows[i]|)
      && (i < |table.rows| && j < |table.rows[i]| ==>
          read[i + 1][j] == match table.rows[i][j] case Missing => "" case Shown(text) => text)
  {
    hide Read, Lines, Join, Records, AllTexts;
    ExportIsReadBack(table);
    RecordTexts(table);
  }

  lemma RecordTexts(table: Table)
    ensures var texts := AllTexts(Records(table));
      && |texts| == 1 + |table.rows| && texts[0] == Texts(table.header)
      && forall i :: 0 <= i < |table.rows| ==> texts[i + 1] == Texts(table.rows[i])
  {
    hide Texts;
    assert Records(table)[0] == table.header;
    assert forall i :: 0 <= i < |table.rows| ==> Records(table)[i + 1] == table.rows[i];
  }

  predicate NeedsQuotes(text: string) {
    exists c :: c in text && c in "\",\n"
  }

  /** Quotes are put around a text only when it needs them. */
  lemma OnlyWhatNeedsQuotes(text: string)
    ensures Escape(Missing) == ""
    ensures Escape(Shown(text)) == if NeedsQuotes(text) then "\"" + Doubled(text) + "\"" else text
  {
    hide Doubled;
    var special := "\",\n";
    assert special[0] == '"' && special[1] == ',' && special[2] == '\n';
    assert forall c :: c in special <==> c == '"' || c == ',' || c == '\n';
    if '"' in text || ',' in text || '\n' in text {
      var c := if '"' in text then '"' else if ',' in text then ',' else '\n';
      assert c in text && c in special;
    }
  }
}
