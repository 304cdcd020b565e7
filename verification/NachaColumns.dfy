/** The columns of the NACHA records, field by field, and what a reader of the file gets back from them. */
module NachaColumns {
  import opened Prelude
  import opened Sums
  import opened Nacha

  /** The field is at column `from` of the record. */
  predicate At(record: string, from: nat, field: string) {
    from + |field| <= |record| && forall k :: 0 <= k < |field| ==> record[from + k] == field[k]
  }

  /** A text field: the text from the left, cut at the end of the field or filled up with blanks. */
  predicate LeftAligned(field: string, text: string, width: nat) {
    |field| == width && forall k :: 0 <= k < width ==> field[k] == if k < |text| then text[k] else ' '
  }

  lemma TextField(text: string, width: nat)
    ensures LeftAligned(Pr(text, width), text, width)
  {}

  // ------------------------------------------------------------------ digits of a text

  lemma DigitsAreFiltered(s: string)
    ensures DigitsOnly(s) == Filter(s, Digit)
  {
    if s != [] {
      DigitsAreFiltered(s[..|s| - 1]);
    }
  }

  lemma {:induction false} HyphensAreFiltered(s: string)
    ensures NoHyphens(s) == Filter(s, (c: char) => c != '-')
  {
    if s != [] {
      HyphensAreFiltered(s[1..]);
      assert s == [s[0]] + s[1..];
      FilterAppend([s[0]], s[1..], (c: char) => c != '-');
      assert [s[0]][..0] == [];
    }
  }

  /** Digits written behind others. */
  lemma {:induction false} DecodeJoin(a: string, b: string)
    ensures Decode(a + b) == Decode(a) * Pow10(|b|) + Decode(b)
  {
    if b == [] {
      assert a + b == a;
    } else {
      var front, d := b[..|b| - 1], DigitValue(b[|b| - 1]);
      DecodeJoin(a, front);
      assert (a + b)[..|a + b| - 1] == a + front;
      ShiftLeft(Decode(a), Pow10(|front|), Decode(front), d);
    }
  }

  lemma ShiftLeft(a: nat, p: nat, b: nat, d: nat)
    ensures 10 * (a * p + b) + d == a * (10 * p) + (10 * b + d)
  {}

  lemma DecodeSuffix(s: string, n: nat)
    requires n <= |s|
    ensures Pow10(n) >= 1 && Decode(s[|s| - n..]) == Decode(s) % Pow10(n)
  {
    var front, back := s[..|s| - n], s[|s| - n..];
    assert s == front + back;
    DecodeJoin(front, back);
    DecodeBound(back);
    Behind(Decode(front), Pow10(n), Decode(back), Decode(s));
  }

  lemma Behind(a: nat, p: nat, r: nat, x: nat)
    requires r < p && x == a * p + r
    ensures x % p == r
  {
    Remainder(p, a, r);
  }

  lemma Remainder(p: nat, q: nat, r: nat)
    requires r < p
    ensures (p * q + r) % p == r
  {
    var x := p * q + r;
    var k := q - x / p;
    assert p * k == x % p - r by {
      assert p * (q - x / p) == p * q - p * (x / p);
    }
    MultipleSize(p, k);
  }

  lemma MultipleSize(p: nat, k: int)
    ensures k >= 1 ==> p * k >= p
    ensures k <= -1 ==> p * k <= 0 - p
  {
    if k >= 1 {
      assert p * (k - 1) >= 0;
    }
    if k <= -1 {
      assert p * (-1 - k) >= 0;
    }
  }

  /** A numeric field of a text holds the last digits of the text, whatever else is in it. */
  lemma DigitField(s: string, n: nat)
    ensures |PnText(s, n)| == n && Pow10(n) >= 1
    ensures Decode(PnText(s, n)) == Decode(Filter(s, Digit)) % Pow10(n)
  {
    DigitsAreFiltered(s);
    FittedDigits(DigitsOnly(s), n);
  }

  lemma FittedDigits(ds: string, n: nat)
    ensures Pow10(n) >= 1 && Decode(FitRight(ds, n)) == Decode(ds) % Pow10(n)
  {
    PowPositive(n);
    if |ds| >= n {
      DecodeSuffix(ds, n);
    } else {
      DecodePadded(n - |ds|, ds);
      DecodeBound(ds);
      PowGrows(|ds|, n);
      Remainder(Pow10(n), 0, Decode(ds));
    }
  }

  lemma {:induction false} PowGrows(a: nat, b: nat)
    requires a <= b
    ensures Pow10(a) <= Pow10(b)
  {
    if a < b {
      PowGrows(a, b - 1);
    }
  }

  lemma {:induction false} AllDigitsStay(s: string)
    requires forall k :: 0 <= k < |s| ==> Digit(s[k])
    ensures DigitsOnly(s) == s
  {
    if s != [] {
      AllDigitsStay(s[..|s| - 1]);
    }
  }

  /** A routing number of nine digits is written as it is. */
  lemma RoutingAsIs(s: string)
    requires |s| == 9 && forall k :: 0 <= k < |s| ==> Digit(s[k])
    ensures PnText(s, 9) == s
  {
    AllDigitsStay(s);
    assert s[0..] == s;
  }

  // ------------------------------------------------------------------ the entry record

  lemma AtLeft(a: string, b: string, from: nat, field: string)
    requires At(a, from, field)
    ensures At(a + b, from, field)
  {}

  lemma AtRight(a: string, b: string, from: nat, field: string)
    requires At(b, from, field)
    ensures At(a + b, |a| + from, field)
  {}

  lemma HeadColumns(e: Entry)
    ensures var head := EntryHead(e);
            && At(head, 0, "6") && At(head, 1, if e.accountType == Savings then "32" else "22")
            && At(head, 3, PnText(e.routing, 9)) && At(head, 12, Pr(e.account, 17))
  {
    var left, right := "6" + TransactionCode(e.accountType), Receiver(e) + Pr(e.account, 17);
    AtRight(left, right, 0, Receiver(e));
    AtRight(left, right, 9, Pr(e.account, 17));
  }

  lemma TailColumns(e: Entry, i: nat, cfg: Config)
    ensures var tail := EntryTail(e, i, cfg);
            && At(tail, 0, Pr(Upto(NoHyphens(e.id), 15), 15)) && At(tail, 15, Pr(e.name, 22)) && At(tail, 37, "  0")
            && At(tail, 40, Odfi8(cfg)) && At(tail, 48, Pn(i + 1, 7))
  {}

  /** Columns 2 and 3 of an entry record tell savings from checking. */
  lemma AccountTypeColumns(e: Entry, i: nat, cfg: Config)
    ensures |EntryLine(e, i, cfg)| == 94
    ensures EntryLine(e, i, cfg)[1..3] == "32" <==> e.accountType == Savings
    ensures EntryLine(e, i, cfg)[1..3] == "22" <==> e.accountType == Checking
  {
    RecordColumns(e, i, cfg);
    var line := EntryLine(e, i, cfg);
    assert line[1] == (if e.accountType == Savings then "32" else "22")[0];
    assert line[1..3] == [line[1], line[2]];
  }

  lemma FrontColumns(e: Entry, rest: string)
    ensures var line := EntryHead(e) + rest;
            && At(line, 0, "6") && At(line, 1, if e.accountType == Savings then "32" else "22")
            && At(line, 3, PnText(e.routing, 9)) && At(line, 12, Pr(e.account, 17))
  {
    HeadColumns(e);
    AtLeft(EntryHead(e), rest, 0, "6");
    AtLeft(EntryHead(e), rest, 1, if e.accountType == Savings then "32" else "22");
    AtLeft(EntryHead(e), rest, 3, PnText(e.routing, 9));
    AtLeft(EntryHead(e), rest, 12, Pr(e.account, 17));
  }

  lemma AtThird(a: string, b: string, c: string, from: nat, field: string)
    requires At(c, from, field)
    ensures At(a + (b + c), |a| + |b| + from, field)
  {
    AtRight(b, c, from, field);
    AtRight(a, b + c, |b| + from, field);
  }

  lemma BackColumns(e: Entry, i: nat, cfg: Config, head: string, amount: string)
    requires |head| == 29 && |amount| == 10
    ensures var line := head + (amount + EntryTail(e, i, cfg));
            && At(line, 29, amount)
            && At(line, 39, Pr(Upto(NoHyphens(e.id), 15), 15)) && At(line, 54, Pr(e.name, 22)) && At(line, 76, "  0")
            && At(line, 79, Odfi8(cfg)) && At(line, 87, Pn(i + 1, 7))
  {
    TailColumns(e, i, cfg);
    var tail := EntryTail(e, i, cfg);
    AtRight(head, amount + tail, 0, amount);
    AtThird(head, amount, tail, 0, Pr(Upto(NoHyphens(e.id), 15), 15));
    AtThird(head, amount, tail, 15, Pr(e.name, 22));
    AtThird(head, amount, tail, 37, "  0");
    AtThird(head, amount, tail, 40, Odfi8(cfg));
    AtThird(head, amount, tail, 48, Pn(i + 1, 7));
  }

  /**
   Every column of an entry record: type, transaction code, receiving bank with its check digit, account,
   amount, the member's id without hyphens, name, and the trace number.
   */
  lemma RecordColumns(e: Entry, i: nat, cfg: Config)
    ensures var line := EntryLine(e, i, cfg);
            && |line| == 94 && At(line, 0, "6") && At(line, 1, if e.accountType == Savings then "32" else "22")
            && At(line, 3, PnText(e.routing, 9)) && At(line, 12, Pr(e.account, 17)) && At(line, 29, Pn(e.amountCents, 10))
            && At(line, 39, Pr(Upto(NoHyphens(e.id), 15), 15)) && At(line, 54, Pr(e.name, 22)) && At(line, 76, "  0")
            && At(line, 79, Odfi8(cfg)) && At(line, 87, Pn(i + 1, 7))
  {
    FrontColumns(e, Pn(e.amountCents, 10) + EntryTail(e, i, cfg));
    BackColumns(e, i, cfg, EntryHead(e), Pn(e.amountCents, 10));
  }

  /** The id field: the member's id without its hyphens, cut at fifteen characters. */
  lemma IdField(id: string)
    ensures LeftAligned(Pr(Upto(NoHyphens(id), 15), 15), Filter(id, (c: char) => c != '-'), 15)
  {
    HyphensAreFiltered(id);
  }

  // ------------------------------------------------------------------ the other records

  lemma FileHeaderFront(cfg: Config, t: Stamp)
    requires |Yymmdd(t)| == 6
    ensures var line := FileHeader(cfg, t);
            && |line| == 94 && At(line, 0, "101 ") && At(line, 4, PnText(cfg.destRouting, 9)) && At(line, 13, PnText(cfg.odfiRouting, 10))
            && At(line, 23, Yymmdd(t)) && At(line, 29, Pn(t.hour, 2)) && At(line, 31, Pn(t.minute, 2))
  {}

  lemma FileHeaderBack(cfg: Config, t: Stamp)
    requires |Yymmdd(t)| == 6
    ensures var line := FileHeader(cfg, t);
            && At(line, 33, "A094101") && At(line, 40, Pr("", 23)) && At(line, 63, Pr(cfg.companyName, 23)) && At(line, 86, Pr("", 8))
  {}

  /** The file header: destination, origin, date and time, the fixed codes, and the company. */
  lemma FileHeaderColumns(cfg: Config, t: Stamp)
    requires 1000 <= t.year <= 9999
    ensures var line := FileHeader(cfg, t);
            && |line| == 94 && At(line, 0, "101 ") && At(line, 4, PnText(cfg.destRouting, 9)) && At(line, 13, PnText(cfg.odfiRouting, 10))
            && At(line, 23, Yymmdd(t)) && At(line, 29, Pn(t.hour, 2)) && At(line, 31, Pn(t.minute, 2)) && At(line, 33, "A094101")
            && At(line, 40, Pr("", 23)) && At(line, 63, Pr(cfg.companyName, 23)) && At(line, 86, Pr("", 8))
  {
    YearDigits(t);
    FileHeaderFront(cfg, t);
    FileHeaderBack(cfg, t);
  }

  lemma BatchHeaderFront(cfg: Config, t: Stamp)
    requires |Yymmdd(t)| == 6
    ensures var line := BatchHeader(cfg, t);
            && |line| == 94 && At(line, 0, "5220") && At(line, 4, Pr(cfg.companyName, 16)) && At(line, 20, Pr("", 20))
            && At(line, 40, Pr(cfg.companyId, 10)) && At(line, 50, "PPD")
  {}

  lemma BatchHeaderBack(cfg: Config, t: Stamp)
    requires |Yymmdd(t)| == 6
    ensures var line := BatchHeader(cfg, t);
            && At(line, 53, Pr(cfg.description, 10)) && At(line, 63, Yymmdd(t)) && At(line, 69, Yymmdd(t))
            && At(line, 75, "   1") && At(line, 79, Odfi8(cfg)) && At(line, 87, Pn(1, 7))
  {}

  /** The batch header: credits only, the company, the description, and the date twice. */
  lemma BatchHeaderColumns(cfg: Config, t: Stamp)
    requires 1000 <= t.year <= 9999
    ensures var line := BatchHeader(cfg, t);
            && |line| == 94 && At(line, 0, "5220") && At(line, 4, Pr(cfg.companyName, 16)) && At(line, 20, Pr("", 20))
            && At(line, 40, Pr(cfg.companyId, 10)) && At(line, 50, "PPD") && At(line, 53, Pr(cfg.description, 10))
            && At(line, 63, Yymmdd(t)) && At(line, 69, Yymmdd(t)) && At(line, 75, "   1") && At(line, 79, Odfi8(cfg)) && At(line, 87, Pn(1, 7))
  {
    YearDigits(t);
    BatchHeaderFront(cfg, t);
    BatchHeaderBack(cfg, t);
  }

  /** The date of a header decodes to the last two digits of the year, the month and the day. */
  lemma DateField(t: Stamp)
    requires 1000 <= t.year <= 9999 && t.month < 100 && t.day < 100
    ensures |Yymmdd(t)| == 6
    ensures Decode(Yymmdd(t)[..2]) == t.year % 100 && Decode(Yymmdd(t)[2..4]) == t.month && Decode(Yymmdd(t)[4..]) == t.day
  {
    YearDigits(t);
    var year := Decimal(t.year);
    DecimalLength(t.year, 3);
    DecimalLength(t.year, 4);
    Small();
    DecodeDecimal(t.year);
    DecodeSuffix(year, 2);
    FieldFits(t.month, 2);
    FieldFits(t.day, 2);
    assert Yymmdd(t)[..2] == year[2..];
    assert Yymmdd(t)[2..4] == Pn(t.month, 2);
    assert Yymmdd(t)[4..] == Pn(t.day, 2);
  }

  lemma Small()
    ensures Pow10(2) == 100 && Pow10(3) == 1000 && Pow10(4) == 10_000
  {
    assert Pow10(1) == 10;
    assert Pow10(2) == 100;
  }

  /** The batch control: counts, hash, no debits, the credits, and the company. */
  lemma BatchControlColumns(count: nat, hash: nat, total: nat, cfg: Config)
    ensures var line := BatchControl(count, hash, total, cfg);
            && At(line, 0, "8220") && At(line, 4, Pn(count, 6)) && At(line, 10, Pn(hash % 10_000_000_000, 10)) && At(line, 20, Pn(0, 12))
            && At(line, 32, Pn(total, 12)) && At(line, 44, Pr(cfg.companyId, 10)) && At(line, 54, Pr("", 19)) && At(line, 73, Pr("", 6))
            && At(line, 79, Odfi8(cfg)) && At(line, 87, Pn(1, 7))
  {}

  /** The file control: one batch, the blocks, counts, hash, no debits, and the credits. */
  lemma FileControlColumns(blocks: nat, count: nat, hash: nat, total: nat)
    ensures var line := FileControl(blocks, count, hash, total);
            && At(line, 0, "9") && At(line, 1, Pn(1, 6)) && At(line, 7, Pn(blocks, 6)) && At(line, 13, Pn(count, 8))
            && At(line, 21, Pn(hash % 10_000_000_000, 10)) && At(line, 31, Pn(0, 12)) && At(line, 43, Pn(total, 12)) && At(line, 55, Pr("", 39))
  {}

  /** The records between the headers and the controls are those of the entries, in order. */
  lemma EntriesBetween(entries: seq<Entry>, cfg: Config, lines: seq<string>, i: nat)
    requires i < |entries| && |entries| + 2 <= |lines| && lines[2..|entries| + 2] == EntryLines(entries, cfg)
    ensures lines[i + 2] == EntryLine(entries[i], i, cfg)
  {
    EntryLineAt(entries, cfg, i);
    assert lines[2..|entries| + 2][i] == lines[i + 2];
  }

  /** The records of the entries, behind the two headers. */
  lemma EntryRecords(entries: seq<Entry>, cfg: Config, t: Stamp, i: nat)
    requires i < |entries|
    ensures i + 2 < |FileLines(entries, cfg, t)| && FileLines(entries, cfg, t)[i + 2] == EntryLine(entries[i], i, cfg)
  {
    RecordOrder(entries, cfg, t);
    EntriesBetween(entries, cfg, FileLines(entries, cfg, t), i);
  }

  /** The order of the records, and the nines that fill the last block. */
  lemma RecordOrder(entries: seq<Entry>, cfg: Config, t: Stamp)
    ensures var n, lines := |entries|, FileLines(entries, cfg, t);
            && |lines| >= n + 4 && lines[0] == FileHeader(cfg, t) && lines[1] == BatchHeader(cfg, t)
            && lines[2..n + 2] == EntryLines(entries, cfg)
            && (forall k :: n + 4 <= k < |lines| ==> lines[k] == Repeat('9', 94))
  {
    var n := |entries|;
    StackPositions(FileHeader(cfg, t), BatchHeader(cfg, t), EntryLines(entries, cfg),
                   BatchControl(n, EntryHash(entries), CreditTotal(entries), cfg),
                   FileControl(Blocks(n + 4), n, EntryHash(entries), CreditTotal(entries)));
  }

  lemma {:induction false} EntryLineAt(entries: seq<Entry>, cfg: Config, i: nat)
    requires i < |entries|
    ensures EntryLines(entries, cfg)[i] == EntryLine(entries[i], i, cfg)
  {
    if i < |entries| - 1 {
      EntryLineAt(entries[..|entries| - 1], cfg, i);
    }
  }

  /** In the text of the file, line k starts at 95 k and is ended by a line feed. */
  lemma {:induction false} LineInText(lines: seq<string>, k: nat)
    requires k < |lines| && forall i :: 0 <= i < |lines| ==> |lines[i]| == 94
    ensures var text := JoinLines(lines);
            |text| == 95 * |lines| && text[95 * k..95 * k + 94] == lines[k] && text[95 * k + 94] == '\n'
  {
    TextLength(lines);
    var n := |lines| - 1;
    TextLength(lines[..n]);
    var front, last := JoinLines(lines[..n]), lines[n];
    assert JoinLines(lines) == front + last + "\n";
    if k < n {
      LineInText(lines[..n], k);
      SliceLeft(front, last + "\n", 95 * k, 95 * k + 94);
      assert front + last + "\n" == front + (last + "\n");
    } else {
      FieldAt(front, last, "\n");
      assert front + last + "\n" == front + (last + "\n");
    }
  }
}
