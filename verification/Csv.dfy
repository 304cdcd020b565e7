/**
 The CSV printer and parser of the sales import and export: quoting as in section 2 of RFC 4180, line
 breaks normalised, and a quote mark in front of cells that a spreadsheet would read as a formula.
 */
module Csv {
  import opened Prelude

  type Table = seq<seq<string>>

  // ------------------------------------------------------------------ printing

  /** Leading control characters and spaces, then one of = + - @. */
  predicate FormulaLeading(t: string) {
    t != [] && (t[0] in {'=', '+', '-', '@'} || (t[0] <= ' ' && FormulaLeading(t[1..])))
  }

  function Guard(t: string): string {
    if FormulaLeading(t) then "'" + t else t
  }

  predicate NeedsQuotes(t: string) {
    exists i :: 0 <= i < |t| && t[i] in {',', '"', '\n', '\r'}
  }

  function DoubleQuotes(t: string): string {
    if t == [] then [] else (if t[0] == '"' then ['"', '"'] else [t[0]]) + DoubleQuotes(t[1..])
  }

  function CsvCell(value: string): string {
    var text := Guard(value);
    if NeedsQuotes(text) then ['"'] + DoubleQuotes(text) + ['"'] else text
  }

  function PrintRow(row: seq<string>): string {
    if row == [] then [] else if |row| == 1 then CsvCell(row[0]) else CsvCell(row[0]) + [','] + PrintRow(row[1..])
  }

  /** The exporters end every line with a line feed. */
  function PrintTable(rows: Table): string {
    if rows == [] then [] else PrintRow(rows[0]) + ['\n'] + PrintTable(rows[1..])
  }

  // ------------------------------------------------------------------ parsing

  /** text.replace(/\r\n/g, '\n') */
  function ReplaceCrLf(s: string): string {
    if s == [] then []
    else if s[0] == '\r' && |s| > 1 && s[1] == '\n' then ['\n'] + ReplaceCrLf(s[2..])
    else [s[0]] + ReplaceCrLf(s[1..])
  }

  /** .replace(/\r/g, '\n') */
  function ReplaceCr(s: string): string {
    if s == [] then [] else [if s[0] == '\r' then '\n' else s[0]] + ReplaceCr(s[1..])
  }

  function Normalize(s: string): string {
    ReplaceCr(ReplaceCrLf(s))
  }

  datatype Scanner = Scanner(rows: Table, row: seq<string>, field: string, inQuotes: bool)

  /** One turn of the loop at a character with its successor in sight: the new state, and how far it reads. */
  function Turn(p: Scanner, c: char, next: Option<char>): (Scanner, nat) {
    if p.inQuotes then
      if c == '"' then
        if next == Some('"') then (p.(field := p.field + ['"']), 2) else (p.(inQuotes := false), 1)
      else (p.(field := p.field + [c]), 1)
    else if c == '"' then (p.(inQuotes := true), 1)
    else if c == ',' then (p.(row := p.row + [p.field], field := []), 1)
    else if c == '\n' then (Scanner(p.rows + [p.row + [p.field]], [], [], false), 1)
    else (p.(field := p.field + [c]), 1)
  }

  function Peek(s: string): Option<char> {
    if |s| > 1 then Some(s[1]) else None
  }

  function Scan(p: Scanner, s: string): Scanner
    decreases |s|
  {
    if s == [] then p
    else
      var t := Turn(p, s[0], Peek(s));
      Scan(t.0, if t.1 <= |s| then s[t.1..] else [])
  }

  /** A last line without a line feed still counts, unless it is empty. */
  function Finish(p: Scanner): Table {
    if p.field != [] || p.row != [] then p.rows + [p.row + [p.field]] else p.rows
  }

  predicate BlankRow(row: seq<string>) {
    forall i :: 0 <= i < |row| ==> Blank(row[i])
  }

  function DropBlank(rows: Table): Table {
    if rows == [] then [] else (if BlankRow(rows[0]) then [] else [rows[0]]) + DropBlank(rows[1..])
  }

  const START: Scanner := Scanner([], [], [], false)

  function ParseCsv(text: string): Table {
    DropBlank(Finish(Scan(START, Normalize(text))))
  }

  /** The character loop over the normalised text. */
  method Parse(text: string) returns (result: Table)
    ensures result == ParseCsv(text)
  {
    var rows: Table := [];
    var field: string := "";
    var row: seq<string> := [];
    var inQuotes := false;
    var src := Normalize(text);
    var i := 0;
    while i < |src|
      invariant i <= |src|
      invariant Scan(Scanner(rows, row, field, inQuotes), src[i..]) == Scan(START, src)
    {
      var c := src[i];
      assert src[i..][0] == c && (i + 1 < |src| ==> src[i..][1] == src[i + 1]);
      assert src[i..][1..] == src[i + 1..];
      if inQuotes {
        if c == '"' {
          if i + 1 < |src| && src[i + 1] == '"' {
            assert src[i..][2..] == src[i + 2..];
            field := field + ['"'];
            i := i + 1;
          } else {
            inQuotes := false;
          }
        } else {
          field := field + [c];
        }
      } else if c == '"' {
        inQuotes := true;
      } else if c == ',' {
        row := row + [field];
        field := "";
      } else if c == '\n' {
        row := row + [field];
        rows := rows + [row];
        row := [];
        field := "";
      } else {
        field := field + [c];
      }
      i := i + 1;
    }
    assert src[i..] == [];
    if field != "" || row != [] {
      row := row + [field];
      rows := rows + [row];
    }
    result := DropBlank(rows);
  }

  // ------------------------------------------------------------------ normalisation goes through printing

  predicate EndsCr(a: string) {
    a != [] && a[|a| - 1] == '\r'
  }

  lemma {:induction false} CrLfConcat(a: string, b: string)
    requires !(EndsCr(a) && b != [] && b[0] == '\n')
    ensures ReplaceCrLf(a + b) == ReplaceCrLf(a) + ReplaceCrLf(b)
  {
    if a == [] {
      assert a + b == b;
    } else if a[0] == '\r' && |a| > 1 && a[1] == '\n' {
      assert (a + b)[2..] == a[2..] + b;
      CrLfConcat(a[2..], b);
    } else {
      assert (a + b)[1..] == a[1..] + b;
      CrLfConcat(a[1..], b);
    }
  }

  lemma {:induction false} CrConcat(a: string, b: string)
    ensures ReplaceCr(a + b) == ReplaceCr(a) + ReplaceCr(b)
  {
    if a == [] {
      assert a + b == b;
    } else {
      assert (a + b)[1..] == a[1..] + b;
      CrConcat(a[1..], b);
    }
  }

  lemma NormalizeConcat(a: string, b: string)
    requires !(EndsCr(a) && b != [] && b[0] == '\n')
    ensures Normalize(a + b) == Normalize(a) + Normalize(b)
  {
    CrLfConcat(a, b);
    CrConcat(ReplaceCrLf(a), ReplaceCrLf(b));
  }

  lemma NormalizeOne(c: char)
    ensures Normalize([c]) == [if c == '\r' then '\n' else c]
  {
    assert [c][1..] == [] && ReplaceCr([]) == [];
    assert ReplaceCrLf([c]) == [c];
    assert ReplaceCr([c]) == [if c == '\r' then '\n' else c] + ReplaceCr([c][1..]);
  }

  function Doubled(c: char): string {
    if c == '"' then ['"', '"'] else [c]
  }

  lemma NormalizeDoubledOne(c: char)
    ensures Normalize(Doubled(c)) == Doubled(if c == '\r' then '\n' else c)
  {
    NormalizeOne(c);
    if c == '"' {
      NormalizeConcat(['"'], ['"']);
      assert ['"'] + ['"'] == ['"', '"'];
    }
  }

  lemma DoubleQuotesCons(c: char, rest: string)
    ensures DoubleQuotes([c] + rest) == Doubled(c) + DoubleQuotes(rest)
  {
    assert ([c] + rest)[1..] == rest;
  }

  /** Doubling quotes and normalising line breaks do not disturb each other. */
  lemma {:induction false} NormalizeDoubled(t: string)
    ensures Normalize(DoubleQuotes(t)) == DoubleQuotes(Normalize(t))
    ensures t != [] ==> DoubleQuotes(t) != [] && (DoubleQuotes(t)[0] == '\n' <==> t[0] == '\n')
    decreases |t|
  {
    if t != [] {
      var c, rest := t[0], t[1..];
      assert t == [c] + rest;
      NormalizeDoubled(rest);
      DoubleQuotesCons(c, rest);
      if c == '\r' && rest != [] && rest[0] == '\n' {
        NormalizeDoubledCrLf(t);
      } else {
        NormalizeConcat([c], rest);
        NormalizeConcat(Doubled(c), DoubleQuotes(rest));
        NormalizeDoubledOne(c);
        NormalizeOne(c);
        DoubleQuotesCons(if c == '\r' then '\n' else c, Normalize(rest));
      }
    }
  }

  lemma NormalizeDoubledCrLf(t: string)
    requires |t| > 1 && t[0] == '\r' && t[1] == '\n'
    requires Normalize(DoubleQuotes(t[1..])) == DoubleQuotes(Normalize(t[1..]))
    ensures Normalize(DoubleQuotes(t)) == DoubleQuotes(Normalize(t))
  {
    var rest := t[2..];
    assert t[1..] == ['\n'] + rest && t[1..][1..] == rest;
    DoubleQuotesCons('\n', rest);
    var d := DoubleQuotes(t[1..]);
    assert d == ['\n'] + DoubleQuotes(rest) && d[1..] == DoubleQuotes(rest);
    assert DoubleQuotes(t) == ['\r'] + d && DoubleQuotes(t)[2..] == DoubleQuotes(rest);
    assert Normalize(DoubleQuotes(t)) == Normalize(d);
    assert Normalize(t) == Normalize(t[1..]);
  }

  // ------------------------------------------------------------------ the printed text, normalised

  /** A cell as it reads back: guarded, with line feeds only. */
  function Readable(value: string): string {
    Normalize(Guard(value))
  }

  function ReadableRow(row: seq<string>): seq<string> {
    if row == [] then [] else [Readable(row[0])] + ReadableRow(row[1..])
  }

  function ReadableTable(rows: Table): Table {
    if rows == [] then [] else [ReadableRow(rows[0])] + ReadableTable(rows[1..])
  }

  function Encode(text: string): string {
    if NeedsQuotes(text) then ['"'] + DoubleQuotes(text) + ['"'] else text
  }

  function EncodeRow(row: seq<string>): string {
    if row == [] then [] else if |row| == 1 then Encode(row[0]) else Encode(row[0]) + [','] + EncodeRow(row[1..])
  }

  function EncodeTable(rows: Table): string {
    if rows == [] then [] else EncodeRow(rows[0]) + ['\n'] + EncodeTable(rows[1..])
  }

  lemma {:induction false} NormalizePlain(t: string)
    requires forall i :: 0 <= i < |t| ==> t[i] != '\r'
    ensures Normalize(t) == t
  {
    if t != [] {
      NormalizePlain(t[1..]);
    }
  }

  lemma NeedsQuotesCons(c: char, rest: string)
    ensures NeedsQuotes([c] + rest) <==> c in {',', '"', '\n', '\r'} || NeedsQuotes(rest)
  {
    var t := [c] + rest;
    if NeedsQuotes(rest) {
      var i :| 0 <= i < |rest| && rest[i] in {',', '"', '\n', '\r'};
      assert t[i + 1] == rest[i];
    }
    if c in {',', '"', '\n', '\r'} {
      assert t[0] == c;
    }
  }

  /** Normalising leaves no carriage return, and whatever needed quotes still does. */
  lemma {:induction false} NormalizeKeepsNeed(t: string)
    ensures NeedsQuotes(t) <==> NeedsQuotes(Normalize(t))
    ensures forall i :: 0 <= i < |Normalize(t)| ==> Normalize(t)[i] != '\r'
    decreases |t|
  {
    if t != [] {
      var c, rest := t[0], t[1..];
      assert t == [c] + rest;
      NeedsQuotesCons(c, rest);
      if c == '\r' && rest != [] && rest[0] == '\n' {
        assert rest[1..] == t[2..];
        NormalizeKeepsNeed(rest);
        assert Normalize(t) == Normalize(rest);
        assert rest == ['\n'] + rest[1..];
        NeedsQuotesCons('\n', rest[1..]);
      } else {
        NormalizeKeepsNeed(rest);
        NormalizeConcat([c], rest);
        NormalizeOne(c);
        NeedsQuotesCons(if c == '\r' then '\n' else c, Normalize(rest));
      }
    }
  }

  lemma CellNormalized(value: string)
    ensures Normalize(CsvCell(value)) == Encode(Readable(value))
    ensures !EndsCr(CsvCell(value))
  {
    var text := Guard(value);
    NormalizeKeepsNeed(text);
    if NeedsQuotes(text) {
      var d := DoubleQuotes(text);
      NormalizeDoubled(text);
      NormalizeConcat(['"'], d);
      NormalizeConcat(['"'] + d, ['"']);
      NormalizeOne('"');
    } else {
      NormalizePlain(text);
    }
  }

  lemma {:induction false} RowNormalized(row: seq<string>)
    ensures Normalize(PrintRow(row)) == EncodeRow(ReadableRow(row))
    ensures !EndsCr(PrintRow(row))
  {
    if row != [] {
      CellNormalized(row[0]);
      if |row| > 1 {
        RowNormalized(row[1..]);
        assert ReadableRow(row)[1..] == ReadableRow(row[1..]);
        var cell := CsvCell(row[0]);
        NormalizeConcat(cell, [',']);
        NormalizeConcat(cell + [','], PrintRow(row[1..]));
        NormalizeOne(',');
      }
    }
  }

  lemma {:induction false} TableNormalized(rows: Table)
    ensures Normalize(PrintTable(rows)) == EncodeTable(ReadableTable(rows))
  {
    if rows != [] {
      RowNormalized(rows[0]);
      TableNormalized(rows[1..]);
      assert ReadableTable(rows)[1..] == ReadableTable(rows[1..]);
      var line := PrintRow(rows[0]);
      NormalizeConcat(line, ['\n']);
      NormalizeConcat(line + ['\n'], PrintTable(rows[1..]));
      NormalizeOne('\n');
    }
  }

  // ------------------------------------------------------------------ scanning what was printed

  /** What may follow a cell. */
  predicate AfterCell(rest: string) {
    rest == [] || rest[0] == ',' || rest[0] == '\n'
  }

  lemma {:induction false} ScanPlain(p: Scanner, t: string, rest: string)
    requires !p.inQuotes && !NeedsQuotes(t)
    ensures Scan(p, t + rest) == Scan(p.(field := p.field + t), rest)
    decreases |t|
  {
    if t == [] {
      assert t + rest == rest && p.field + t == p.field;
    } else {
      assert t == [t[0]] + t[1..];
      NeedsQuotesCons(t[0], t[1..]);
      assert (t + rest)[1..] == t[1..] + rest;
      ScanPlain(p.(field := p.field + [t[0]]), t[1..], rest);
      assert p.field + [t[0]] + t[1..] == p.field + t;
    }
  }

  lemma {:induction false} ScanQuoted(p: Scanner, t: string, rest: string)
    requires p.inQuotes && AfterCell(rest)
    ensures Scan(p, DoubleQuotes(t) + ['"'] + rest) == Scan(p.(field := p.field + t, inQuotes := false), rest)
    decreases |t|
  {
    if t == [] {
      var s := DoubleQuotes(t) + ['"'] + rest;
      assert s == ['"'] + rest && s[1..] == rest && p.field + t == p.field;
    } else {
      var c, more := t[0], t[1..];
      assert t == [c] + more;
      DoubleQuotesCons(c, more);
      var s, tail := DoubleQuotes(t) + ['"'] + rest, DoubleQuotes(more) + ['"'] + rest;
      assert s == Doubled(c) + tail;
      assert s[|Doubled(c)|..] == tail;
      ScanQuoted(p.(field := p.field + [c]), more, rest);
      assert p.field + [c] + more == p.field + t;
    }
  }

  lemma ScanQuotedCell(p: Scanner, t: string, rest: string)
    requires !p.inQuotes && p.field == [] && AfterCell(rest)
    ensures Scan(p, ['"'] + (DoubleQuotes(t) + ['"'] + rest)) == Scan(p.(field := t), rest)
  {
    var s := ['"'] + (DoubleQuotes(t) + ['"'] + rest);
    assert s[1..] == DoubleQuotes(t) + ['"'] + rest;
    ScanQuoted(p.(inQuotes := true), t, rest);
    assert p.field + t == t;
  }

  lemma ScanCell(p: Scanner, t: string, rest: string)
    requires !p.inQuotes && p.field == [] && AfterCell(rest)
    ensures Scan(p, Encode(t) + rest) == Scan(p.(field := t), rest)
  {
    if NeedsQuotes(t) {
      ScanQuotedCell(p, t, rest);
      assert ['"'] + DoubleQuotes(t) + ['"'] + rest == ['"'] + (DoubleQuotes(t) + ['"'] + rest);
    } else {
      ScanPlain(p, t, rest);
      assert p.field + t == t;
    }
  }

  lemma ScanCellComma(p: Scanner, t: string, tail: string)
    requires !p.inQuotes && p.field == []
    ensures Scan(p, Encode(t) + ([','] + tail)) == Scan(p.(row := p.row + [t], field := []), tail)
  {
    ScanCell(p, t, [','] + tail);
    assert ([','] + tail)[1..] == tail;
  }

  lemma RowShift(row: seq<string>, before: seq<string>)
    requires |row| > 1
    ensures before + [row[0]] + row[1..][..|row| - 2] == before + row[..|row| - 1]
    ensures row[1..][|row| - 2] == row[|row| - 1]
  {}

  lemma EncodeRowCons(row: seq<string>, rest: string)
    requires |row| > 1
    ensures EncodeRow(row) + rest == Encode(row[0]) + ([','] + (EncodeRow(row[1..]) + rest))
  {
    Regroup(Encode(row[0]), [','], EncodeRow(row[1..]), rest);
  }

  lemma Regroup(a: string, b: string, c: string, d: string)
    ensures a + b + c + d == a + (b + (c + d))
  {}

  lemma ScanLastCell(p: Scanner, row: seq<string>, rest: string)
    requires !p.inQuotes && p.field == [] && |row| == 1 && AfterCell(rest)
    ensures Scan(p, EncodeRow(row) + rest) == Scan(p.(row := p.row + row[..0], field := row[0]), rest)
  {
    ScanCell(p, row[0], rest);
    assert p.row + row[..0] == p.row;
  }

  /** A printed row leaves its last cell in the field and the others in the row. */
  lemma {:induction false} ScanRow(p: Scanner, row: seq<string>, rest: string)
    requires !p.inQuotes && p.field == [] && row != [] && (rest == [] || rest[0] == '\n')
    ensures Scan(p, EncodeRow(row) + rest) == Scan(p.(row := p.row + row[..|row| - 1], field := row[|row| - 1]), rest)
    decreases |row|
  {
    if |row| == 1 {
      ScanLastCell(p, row, rest);
    } else {
      EncodeRowCons(row, rest);
      ScanCellComma(p, row[0], EncodeRow(row[1..]) + rest);
      ScanRow(p.(row := p.row + [row[0]], field := []), row[1..], rest);
      RowShift(row, p.row);
    }
  }

  predicate NoEmptyRow(rows: Table) {
    forall i :: 0 <= i < |rows| ==> rows[i] != []
  }

  /** A printed line becomes one more row. */
  lemma ScanLine(done: Table, row: seq<string>, tail: string)
    requires row != []
    ensures Scan(Scanner(done, [], [], false), EncodeRow(row) + (['\n'] + tail)) == Scan(Scanner(done + [row], [], [], false), tail)
  {
    var p, rest := Scanner(done, [], [], false), ['\n'] + tail;
    ScanRow(p, row, rest);
    assert rest[1..] == tail;
    assert p.row + row[..|row| - 1] + [row[|row| - 1]] == row;
  }

  lemma {:induction false} ScanTable(done: Table, rows: Table)
    requires NoEmptyRow(rows)
    ensures Scan(Scanner(done, [], [], false), EncodeTable(rows)) == Scanner(done + rows, [], [], false)
    decreases |rows|
  {
    if rows == [] {
      assert done + rows == done;
    } else {
      assert EncodeTable(rows) == EncodeRow(rows[0]) + (['\n'] + EncodeTable(rows[1..]));
      ScanLine(done, rows[0], EncodeTable(rows[1..]));
      ScanTable(done + [rows[0]], rows[1..]);
      assert done + [rows[0]] + rows[1..] == done + rows;
    }
  }

  lemma {:induction false} ReadableShape(rows: Table)
    requires NoEmptyRow(rows)
    ensures |ReadableTable(rows)| == |rows| && NoEmptyRow(ReadableTable(rows))
  {
    if rows != [] {
      ReadableShape(rows[1..]);
    }
  }

  /**
   Parsing what was printed gives the table back: carriage returns and CR LF turned into line feeds,
   the quote mark in front of formula-leading cells, and without the rows that are all blank.
   */
  lemma PrintThenParse(rows: Table)
    requires NoEmptyRow(rows)
    ensures ParseCsv(PrintTable(rows)) == DropBlank(ReadableTable(rows))
  {
    TableNormalized(rows);
    ReadableShape(rows);
    ScanTable([], ReadableTable(rows));
    assert [] + ReadableTable(rows) == ReadableTable(rows);
  }

  /** Cells that are neither formula-leading nor hold a carriage return come back as they were. */
  lemma PlainCellsComeBack(value: string)
    requires !FormulaLeading(value) && forall i :: 0 <= i < |value| ==> value[i] != '\r'
    ensures Readable(value) == value
  {
    NormalizePlain(value);
  }

  /** No printed cell is formula-leading once it has been read back. */
  lemma ReadableIsSafe(value: string)
    ensures !FormulaLeading(Readable(value))
  {
    NormalizeKeepsLead(Guard(value));
  }

  lemma {:induction false} NormalizeKeepsLead(t: string)
    ensures FormulaLeading(t) <==> FormulaLeading(Normalize(t))
    decreases |t|
  {
    if t != [] {
      var c, rest := t[0], t[1..];
      assert t == [c] + rest;
      NormalizeKeepsLead(rest);
      if c == '\r' && rest != [] && rest[0] == '\n' {
        assert rest[1..] == t[2..];
        assert Normalize(t) == Normalize(rest);
      } else {
        NormalizeConcat([c], rest);
        NormalizeOne(c);
        assert Normalize(t)[1..] == Normalize(rest);
      }
    }
  }
}
