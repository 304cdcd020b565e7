/** Which cells are guarded, quoted and printed as they are, how quotes are read, and which rows are dropped. */
module CsvCells {
  import opened Prelude
  import opened Sums
  import opened Csv

  /** Behind nothing but spaces and control characters comes one of = + - @. */
  ghost predicate StartsFormula(t: string) {
    exists k :: 0 <= k < |t| && t[k] in {'=', '+', '-', '@'} && AllBelowSpace(t[..k])
  }

  predicate AllBelowSpace(t: string) {
    forall i :: 0 <= i < |t| ==> t[i] as int <= 32
  }

  lemma LeadCons(c: char, rest: string)
    ensures StartsFormula([c] + rest) <==> c in {'=', '+', '-', '@'} || (c as int <= 32 && StartsFormula(rest))
  {
    var t := [c] + rest;
    if k :| 0 <= k < |t| && t[k] in {'=', '+', '-', '@'} && AllBelowSpace(t[..k]) {
      if k > 0 {
        assert t[..k][0] == c;
        var head := rest[..k - 1];
        forall i | 0 <= i < |head| ensures head[i] as int <= 32 {
          assert t[..k][i + 1] == rest[i];
        }
        assert rest[k - 1] == t[k] && AllBelowSpace(rest[..k - 1]);
      }
    }
    if c in {'=', '+', '-', '@'} {
      assert t[0] == c && AllBelowSpace(t[..0]);
    }
    if c as int <= 32 && StartsFormula(rest) {
      var k :| 0 <= k < |rest| && rest[k] in {'=', '+', '-', '@'} && AllBelowSpace(rest[..k]);
      var head := t[..k + 1];
      forall i | 0 <= i < |head| ensures head[i] as int <= 32 {
        assert i > 0 ==> t[i] == rest[..k][i - 1];
      }
      assert t[k + 1] == rest[k] && AllBelowSpace(t[..k + 1]);
    }
  }

  /** The guard looks at exactly those cells. */
  lemma {:induction false} FormulaIs(t: string)
    ensures FormulaLeading(t) <==> StartsFormula(t)
  {
    if t != [] {
      FormulaIs(t[1..]);
      assert t == [t[0]] + t[1..];
      LeadCons(t[0], t[1..]);
    }
  }

  predicate Special(c: char) {
    c == ',' || c == '"' || c == '\n' || c == '\r'
  }

  /** Every quote mark twice. */
  function TwiceQuoted(t: string): string {
    if t == [] then [] else TwiceQuoted(t[..|t| - 1]) + (if t[|t| - 1] == '"' then "\"\"" else [t[|t| - 1]])
  }

  lemma {:induction false} DoublesFromTheFront(t: string)
    ensures DoubleQuotes(t) == TwiceQuoted(t)
  {
    if t != [] {
      DoublesFromTheFront(t[..|t| - 1]);
      assert t == t[..|t| - 1] + [t[|t| - 1]];
      DoubleQuotesJoin(t[..|t| - 1], [t[|t| - 1]]);
    }
  }

  lemma {:induction false} DoubleQuotesJoin(a: string, b: string)
    ensures DoubleQuotes(a + b) == DoubleQuotes(a) + DoubleQuotes(b)
  {
    if a == [] {
      assert a + b == b;
    } else {
      assert (a + b)[1..] == a[1..] + b;
      DoubleQuotesJoin(a[1..], b);
    }
  }

  /**
   A cell is printed as it is if it has no comma, quote mark or line break and would not start a formula; it
   is quoted, with quote marks doubled, if and only if it has one of those characters.
   */
  lemma CellPrinted(value: string, text: string)
    requires text == if StartsFormula(value) then "'" + value else value
    ensures (exists i :: 0 <= i < |value| && Special(value[i])) ==> CsvCell(value) == "\"" + TwiceQuoted(text) + "\""
    ensures (forall i :: 0 <= i < |value| ==> !Special(value[i])) ==> CsvCell(value) == text
  {
    FormulaIs(value);
    DoublesFromTheFront(text);
    if i :| 0 <= i < |value| && Special(value[i]) {
      assert text[i + |text| - |value|] == value[i];
      assert NeedsQuotes(text);
    } else {
      forall i | 0 <= i < |text| ensures !(text[i] in {',', '"', '\n', '\r'}) {
        assert i >= |text| - |value| ==> text[i] == value[i - (|text| - |value|)];
      }
    }
  }

  // ------------------------------------------------------------------ quotes inside a cell

  /** A quoted piece behind plain characters joins them: quote marks need not stand at the ends of a cell. */
  lemma QuotesInside(p: Scanner, plain: string, t: string, rest: string)
    requires !p.inQuotes && AfterCell(rest) && forall i :: 0 <= i < |plain| ==> !Special(plain[i])
    ensures Scan(p, plain + ("\"" + (DoubleQuotes(t) + "\"" + rest))) == Scan(p.(field := p.field + plain + t), rest)
  {
    var quoted := "\"" + (DoubleQuotes(t) + "\"" + rest);
    ScanPlain(p, plain, quoted);
    var q := p.(field := p.field + plain);
    assert quoted[1..] == DoubleQuotes(t) + "\"" + rest;
    ScanQuoted(q.(inQuotes := true), t, rest);
  }

  /** A quote mark that is never closed takes the rest of the text into its cell, line breaks and commas included. */
  lemma {:induction false} OpenQuote(p: Scanner, t: string)
    requires p.inQuotes
    ensures Scan(p, DoubleQuotes(t)) == p.(field := p.field + t)
    decreases |t|
  {
    if t == [] {
      assert p.field + t == p.field;
    } else {
      assert t == [t[0]] + t[1..];
      DoubleQuotesCons(t[0], t[1..]);
      assert DoubleQuotes(t)[|Doubled(t[0])|..] == DoubleQuotes(t[1..]);
      OpenQuote(p.(field := p.field + [t[0]]), t[1..]);
      assert p.field + [t[0]] + t[1..] == p.field + t;
    }
  }

  // ------------------------------------------------------------------ line breaks and blank rows

  /** No carriage return is left; text without any is left alone, and each kind of line break becomes one line feed. */
  lemma LineBreaks(a: string, b: string)
    requires a == [] || a[|a| - 1] != '\r'
    ensures Normalize(a + "\r\n" + b) == Normalize(a) + "\n" + Normalize(b)
    ensures (b == [] || b[0] != '\n') ==> Normalize(a + "\r" + b) == Normalize(a) + "\n" + Normalize(b)
    ensures Normalize(a + "\n" + b) == Normalize(a) + "\n" + Normalize(b)
    ensures forall i :: 0 <= i < |Normalize(a)| ==> Normalize(a)[i] != '\r'
  {
    NormalizeOne('\r');
    NormalizeOne('\n');
    NormalizeKeepsNeed(a);
    CrLfIsOne(b);
    assert a + "\r\n" + b == a + ("\r\n" + b);
    NormalizeConcat(a, "\r\n" + b);
    NormalizeConcat(a, "\n");
    NormalizeConcat(a + "\n", b);
    if b == [] || b[0] != '\n' {
      NormalizeConcat(a, "\r");
      NormalizeConcat(a + "\r", b);
    }
  }

  lemma CrLfIsOne(b: string)
    ensures Normalize("\r\n" + b) == "\n" + Normalize(b)
  {
    var t := "\r\n" + b;
    assert t[2..] == b;
    assert ReplaceCrLf(t) == ['\n'] + ReplaceCrLf(b);
    assert (['\n'] + ReplaceCrLf(b))[1..] == ReplaceCrLf(b);
  }

  /** White space, by code point. */
  lemma SpaceCodes(c: char)
    ensures Space(c) <==>
              var n := c as int;
              9 <= n <= 13 || 0x2000 <= n <= 0x200A
              || n in {0x20, 0xA0, 0x1680, 0x2028, 0x2029, 0x202F, 0x205F, 0x3000, 0xFEFF}
  {
  }

  /** Some cell of the row has a character that is not white space. */
  ghost predicate HasText(row: seq<string>) {
    exists i, k :: 0 <= i < |row| && 0 <= k < |row[i]| && !Space(row[i][k])
  }

  lemma TextIsNotBlank(row: seq<string>)
    ensures BlankRow(row) <==> !HasText(row)
  {
    if !BlankRow(row) {
      var i :| 0 <= i < |row| && !Blank(row[i]);
      var k :| 0 <= k < |row[i]| && !Space(row[i][k]);
    }
    if HasText(row) {
      var i, k :| 0 <= i < |row| && 0 <= k < |row[i]| && !Space(row[i][k]);
      assert !Blank(row[i]);
    }
  }

  /** Exactly the rows with text are kept, in order. */
  lemma {:induction false} RowsWithText(rows: Table)
    ensures DropBlank(rows) == Filter(rows, (row: seq<string>) => !BlankRow(row))
    ensures forall row :: row in DropBlank(rows) <==> row in rows && HasText(row)
  {
    var keep := (row: seq<string>) => !BlankRow(row);
    if rows != [] {
      RowsWithText(rows[1..]);
      assert rows == [rows[0]] + rows[1..];
      FilterAppend([rows[0]], rows[1..], keep);
      assert [rows[0]][..0] == [];
    }
    FilterMembers(rows, keep);
    forall row ensures row in DropBlank(rows) <==> row in rows && HasText(row) {
      TextIsNotBlank(row);
    }
  }
}
