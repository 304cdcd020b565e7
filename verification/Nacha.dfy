/** The NACHA ACH payment file (PPD credits): fixed 94-character records in blocks of ten. */
module Nacha {
  import opened Prelude

  datatype AccountType = Checking | Savings

  /** Texts are as stored; the upper-casing of names is left to the platform and happens before. */
  datatype Entry = Entry(routing: string, account: string, accountType: AccountType, amountCents: nat, name: string, id: string)

  datatype Config = Config(odfiRouting: string, companyName: string, companyId: string, destRouting: string, description: string)

  /** The date and time of the file, in UTC. */
  datatype Stamp = Stamp(year: nat, month: nat, day: nat, hour: nat, minute: nat)

  // ------------------------------------------------------------------ numbers as text

  predicate Digit(c: char) {
    '0' <= c <= '9'
  }

  function DigitChar(d: nat): char
    requires d < 10
  {
    (d + 48) as char
  }

  /** String(v) */
  function Decimal(v: nat): (s: string)
    ensures s != []
  {
    if v < 10 then [DigitChar(v)] else Decimal(v / 10) + [DigitChar(v % 10)]
  }

  function DigitsOnly(s: string): string {
    if s == [] then [] else DigitsOnly(s[..|s| - 1]) + (if Digit(s[|s| - 1]) then [s[|s| - 1]] else [])
  }

  function Repeat(c: char, n: nat): (s: string)
    ensures |s| == n
  {
    seq(n, i => c)
  }

  /** padStart(n, '0').slice(-n) */
  function FitRight(s: string, n: nat): (r: string)
    ensures |r| == n
  {
    if |s| >= n then s[|s| - n..] else Repeat('0', n - |s|) + s
  }

  /** Numeric field of a text. */
  function PnText(s: string, n: nat): (r: string)
    ensures |r| == n
  {
    FitRight(DigitsOnly(s), n)
  }

  /** Numeric field of a number. */
  function Pn(v: nat, n: nat): (r: string)
    ensures |r| == n
  {
    PnText(Decimal(v), n)
  }

  /** Text field, left aligned. */
  function Pr(s: string, n: nat): (r: string)
    ensures |r| == n
  {
    (s + Repeat(' ', n))[..n]
  }

  function DigitValue(c: char): nat {
    if Digit(c) then c as int - 48 else 0
  }

  /** The number that a field of digits spells. */
  function Decode(s: string): nat {
    if s == [] then 0 else 10 * Decode(s[..|s| - 1]) + DigitValue(s[|s| - 1])
  }

  function Pow10(n: nat): nat {
    if n == 0 then 1 else 10 * Pow10(n - 1)
  }

  lemma DecodeSnoc(s: string, d: nat)
    requires d < 10
    ensures Decode(s + [DigitChar(d)]) == 10 * Decode(s) + d
    ensures DigitsOnly(s + [DigitChar(d)]) == DigitsOnly(s) + [DigitChar(d)]
  {
    assert (s + [DigitChar(d)])[..|s|] == s;
  }

  lemma {:induction false} DecodeDecimal(v: nat)
    ensures Decode(Decimal(v)) == v
    ensures DigitsOnly(Decimal(v)) == Decimal(v)
  {
    if v < 10 {
      DecodeSnoc([], v);
      assert [] + [DigitChar(v)] == [DigitChar(v)];
    } else {
      DecodeDecimal(v / 10);
      DecodeSnoc(Decimal(v / 10), v % 10);
    }
  }

  lemma {:induction false} DecimalLength(v: nat, n: nat)
    requires 1 <= n
    ensures |Decimal(v)| <= n <==> v < Pow10(n)
  {
    if n == 1 {
      assert Pow10(1) == 10 * Pow10(0);
      if v >= 10 {
        assert |Decimal(v)| == |Decimal(v / 10)| + 1;
      }
    } else if v >= 10 {
      DecimalLength(v / 10, n - 1);
      assert |Decimal(v)| == |Decimal(v / 10)| + 1;
    } else {
      PowPositive(n - 1);
    }
  }

  lemma {:induction false} PowPositive(n: nat)
    ensures Pow10(n) >= 1
  {
    if n > 0 {
      PowPositive(n - 1);
    }
  }

  lemma {:induction false} DecodePadded(k: nat, s: string)
    ensures Decode(Repeat('0', k) + s) == Decode(s)
  {
    if s == [] {
      assert Repeat('0', k) + s == Repeat('0', k);
      DecodeZeros(k);
    } else {
      var front := s[..|s| - 1];
      assert (Repeat('0', k) + s)[..k + |front|] == Repeat('0', k) + front;
      DecodePadded(k, front);
    }
  }

  lemma {:induction false} DecodeZeros(k: nat)
    ensures Decode(Repeat('0', k)) == 0
  {
    if k > 0 {
      assert Repeat('0', k)[..k - 1] == Repeat('0', k - 1);
      DecodeZeros(k - 1);
    }
  }

  lemma {:induction false} DecodeBound(s: string)
    ensures Decode(s) < Pow10(|s|)
  {
    if s != [] {
      DecodeBound(s[..|s| - 1]);
    }
  }

  lemma FieldFits(v: nat, n: nat)
    requires n >= 1 && v < Pow10(n)
    ensures Decode(Pn(v, n)) == v
  {
    DecodeDecimal(v);
    DecimalLength(v, n);
    var s := Decimal(v);
    if |s| == n {
      assert s[0..] == s;
    } else {
      DecodePadded(n - |s|, s);
    }
  }

  /** A number is read back from its field exactly when it fits. */
  lemma FieldReadsBack(v: nat, n: nat)
    requires n >= 1
    ensures Decode(Pn(v, n)) == v <==> v < Pow10(n)
  {
    DecodeBound(Pn(v, n));
    if v < Pow10(n) {
      FieldFits(v, n);
    }
  }

  // ------------------------------------------------------------------ records

  /** String(year).slice(2), then month and day. */
  function Yymmdd(t: Stamp): string {
    (if |Decimal(t.year)| >= 2 then Decimal(t.year)[2..] else []) + Pn(t.month, 2) + Pn(t.day, 2)
  }

  function Hhmm(t: Stamp): (s: string)
    ensures |s| == 4
  {
    Pn(t.hour, 2) + Pn(t.minute, 2)
  }

  function Odfi8(cfg: Config): (s: string)
    ensures |s| == 8
  {
    PnText(cfg.odfiRouting, 9)[..8]
  }

  function FileHeader(cfg: Config, t: Stamp): string {
    "101 " + PnText(cfg.destRouting, 9) + PnText(cfg.odfiRouting, 10) + Yymmdd(t) + Hhmm(t) + "A094101"
    + Pr("", 23) + Pr(cfg.companyName, 23) + Pr("", 8)
  }

  function BatchHeader(cfg: Config, t: Stamp): string {
    "5220" + Pr(cfg.companyName, 16) + Pr("", 20) + Pr(cfg.companyId, 10) + "PPD" + Pr(cfg.description, 10)
    + Yymmdd(t) + Yymmdd(t) + "   1" + Odfi8(cfg) + Pn(1, 7)
  }

  function TransactionCode(a: AccountType): string {
    if a.Savings? then "32" else "22"
  }

  /** The receiving bank: eight digits and a check digit. */
  function Receiver(e: Entry): (s: string)
    ensures |s| == 9
  {
    PnText(e.routing, 9)
  }

  function NoHyphens(s: string): string {
    if s == [] then [] else (if s[0] == '-' then [] else [s[0]]) + NoHyphens(s[1..])
  }

  function Upto(s: string, n: nat): string {
    if |s| > n then s[..n] else s
  }

  /** Columns 1 to 29: record type, transaction code, receiving bank, account. */
  function EntryHead(e: Entry): (s: string)
    ensures |s| == 29
  {
    ("6" + TransactionCode(e.accountType)) + (Receiver(e) + Pr(e.account, 17))
  }

  function EntryTail(e: Entry, i: nat, cfg: Config): (s: string)
    ensures |s| == 55
  {
    Pr(Upto(NoHyphens(e.id), 15), 15) + Pr(e.name, 22) + "  0" + Odfi8(cfg) + Pn(i + 1, 7)
  }

  function EntryLine(e: Entry, i: nat, cfg: Config): (s: string)
    ensures |s| == 94
  {
    EntryHead(e) + (Pn(e.amountCents, 10) + EntryTail(e, i, cfg))
  }

  function HashField(hash: nat): (s: string)
    ensures |s| == 10
  {
    Pn(hash % 10_000_000_000, 10)
  }

  /** Columns up to the debit total. */
  function BatchControlHead(count: nat, hash: nat): (s: string)
    ensures |s| == 32
  {
    ("8220" + Pn(count, 6)) + (HashField(hash) + Pn(0, 12))
  }

  function BatchControl(count: nat, hash: nat, total: nat, cfg: Config): (s: string)
    ensures |s| == 94
  {
    BatchControlHead(count, hash) + (Pn(total, 12) + (Pr(cfg.companyId, 10) + Pr("", 19) + Pr("", 6) + Odfi8(cfg) + Pn(1, 7)))
  }

  function FileControlHead(blocks: nat, count: nat, hash: nat): (s: string)
    ensures |s| == 43
  {
    (("9" + Pn(1, 6)) + Pn(blocks, 6)) + (Pn(count, 8) + (HashField(hash) + Pn(0, 12)))
  }

  function FileControl(blocks: nat, count: nat, hash: nat, total: nat): (s: string)
    ensures |s| == 94
  {
    FileControlHead(blocks, count, hash) + (Pn(total, 12) + Pr("", 39))
  }

  function EntryLines(entries: seq<Entry>, cfg: Config): (lines: seq<string>)
    ensures |lines| == |entries|
    ensures forall k :: 0 <= k < |lines| ==> |lines[k]| == 94
  {
    if entries == [] then []
    else EntryLines(entries[..|entries| - 1], cfg) + [EntryLine(entries[|entries| - 1], |entries| - 1, cfg)]
  }

  function EntryHash(entries: seq<Entry>): nat {
    if entries == [] then 0 else EntryHash(entries[..|entries| - 1]) + Decode(Receiver(entries[|entries| - 1])[..8])
  }

  function CreditTotal(entries: seq<Entry>): nat {
    if entries == [] then 0 else CreditTotal(entries[..|entries| - 1]) + entries[|entries| - 1].amountCents
  }

  /** Math.ceil(n / 10) */
  function Blocks(n: nat): nat {
    (n + 9) / 10
  }

  function Padding(n: nat): seq<string> {
    seq(n, i => Repeat('9', 94))
  }

  /** Headers, entries, controls, and nines up to the end of the last block of ten. */
  function Stack(header: string, batch: string, es: seq<string>, control: string, file: string): seq<string> {
    [header, batch] + es + [control, file] + Padding(10 * Blocks(|es| + 4) - (|es| + 4))
  }

  function FileLines(entries: seq<Entry>, cfg: Config, t: Stamp): seq<string> {
    Stack(FileHeader(cfg, t), BatchHeader(cfg, t), EntryLines(entries, cfg),
          BatchControl(|entries|, EntryHash(entries), CreditTotal(entries), cfg),
          FileControl(Blocks(|entries| + 4), |entries|, EntryHash(entries), CreditTotal(entries)))
  }

  function JoinLines(lines: seq<string>): string {
    if lines == [] then [] else JoinLines(lines[..|lines| - 1]) + lines[|lines| - 1] + "\n"
  }

  lemma OneMoreEntry(entries: seq<Entry>, cfg: Config, i: nat)
    requires i < |entries|
    ensures EntryLines(entries[..i + 1], cfg) == EntryLines(entries[..i], cfg) + [EntryLine(entries[i], i, cfg)]
    ensures EntryHash(entries[..i + 1]) == EntryHash(entries[..i]) + Decode(Receiver(entries[i])[..8])
    ensures CreditTotal(entries[..i + 1]) == CreditTotal(entries[..i]) + entries[i].amountCents
  {
    assert entries[..i + 1][..i] == entries[..i];
  }

  /** Writes the entry records and accumulates hash and total on the way. */
  method WriteEntries(entries: seq<Entry>, cfg: Config, start: seq<string>) returns (lines: seq<string>, hash: nat, totalCredit: nat)
    ensures lines == start + EntryLines(entries, cfg) && hash == EntryHash(entries) && totalCredit == CreditTotal(entries)
  {
    lines, hash, totalCredit := start, 0, 0;
    for i := 0 to |entries|
      invariant lines == start + EntryLines(entries[..i], cfg)
      invariant hash == EntryHash(entries[..i]) && totalCredit == CreditTotal(entries[..i])
    {
      OneMoreEntry(entries, cfg, i);
      var e := entries[i];
      hash := hash + Decode(Receiver(e)[..8]);
      totalCredit := totalCredit + e.amountCents;
      lines := lines + [EntryLine(e, i, cfg)];
    }
    assert entries[..|entries|] == entries;
  }

  /** Fills the last block with nines. */
  method PadToBlock(records: seq<string>, blockCount: nat) returns (lines: seq<string>)
    requires blockCount == Blocks(|records|)
    ensures lines == records + Padding(10 * blockCount - |records|)
  {
    lines := records;
    while |lines| % 10 != 0
      invariant |records| <= |lines| <= 10 * blockCount && lines == records + Padding(|lines| - |records|)
      decreases 10 * blockCount - |lines|
    {
      lines := lines + [Repeat('9', 94)];
    }
  }

  lemma TwoMore<T>(a: seq<T>, x: T, y: T)
    ensures a + [x] + [y] == a + [x, y]
  {}

  /** All records of the file; the block count is taken before the file control record is there. */
  method WriteLines(entries: seq<Entry>, cfg: Config, header: string, batch: string) returns (lines: seq<string>)
    ensures lines == Stack(header, batch, EntryLines(entries, cfg),
                           BatchControl(|entries|, EntryHash(entries), CreditTotal(entries), cfg),
                           FileControl(Blocks(|entries| + 4), |entries|, EntryHash(entries), CreditTotal(entries)))
  {
    var hash, totalCredit;
    lines, hash, totalCredit := WriteEntries(entries, cfg, [header, batch]);
    ghost var before := lines;
    var control := BatchControl(|entries|, hash, totalCredit, cfg);
    lines := lines + [control];
    var blockCount := Blocks(|lines| + 1);
    var file := FileControl(blockCount, |entries|, hash, totalCredit);
    lines := lines + [file];
    TwoMore(before, control, file);
    lines := PadToBlock(lines, blockCount);
  }

  method BuildNachaFile(entries: seq<Entry>, cfg: Config, now: Stamp) returns (text: string)
    ensures text == JoinLines(FileLines(entries, cfg, now))
  {
    var lines := WriteLines(entries, cfg, FileHeader(cfg, now), BatchHeader(cfg, now));
    text := JoinLines(lines);
  }

  // ------------------------------------------------------------------ the format

  lemma YearDigits(t: Stamp)
    ensures |Yymmdd(t)| == 6 <==> 1000 <= t.year <= 9999
  {
    DecimalLength(t.year, 3);
    DecimalLength(t.year, 4);
    assert Pow10(4) == 10 * Pow10(3) && Pow10(3) == 10 * Pow10(2) && Pow10(2) == 10 * Pow10(1) && Pow10(1) == 10 * Pow10(0);
  }

  /** The two header records have 94 characters exactly when the year has four digits. */
  lemma HeaderLength(cfg: Config, t: Stamp)
    ensures |FileHeader(cfg, t)| == 94 <==> 1000 <= t.year <= 9999
    ensures |BatchHeader(cfg, t)| == 94 <==> 1000 <= t.year <= 9999
  {
    YearDigits(t);
    assert |FileHeader(cfg, t)| == 88 + |Yymmdd(t)|;
    assert |BatchHeader(cfg, t)| == 82 + 2 * |Yymmdd(t)|;
  }

  /** The file is whole blocks of ten, as many as the file control record says before it is padded. */
  lemma WholeBlocks(entries: seq<Entry>, cfg: Config, t: Stamp)
    ensures |FileLines(entries, cfg, t)| == 10 * Blocks(|entries| + 4)
    ensures |entries| + 4 <= |FileLines(entries, cfg, t)| < |entries| + 14
  {}

  /** Every line of the file has 94 characters exactly when the year has four digits. */
  lemma AllLines94(entries: seq<Entry>, cfg: Config, t: Stamp)
    ensures (forall k :: 0 <= k < |FileLines(entries, cfg, t)| ==> |FileLines(entries, cfg, t)[k]| == 94) <==> 1000 <= t.year <= 9999
  {
    var lines := FileLines(entries, cfg, t);
    HeaderLength(cfg, t);
    assert lines[0] == FileHeader(cfg, t);
    if 1000 <= t.year <= 9999 {
      forall k | 0 <= k < |lines| ensures |lines[k]| == 94 {
        LineLength(entries, cfg, t, k);
      }
    }
  }

  lemma LineLength(entries: seq<Entry>, cfg: Config, t: Stamp, k: nat)
    requires 1000 <= t.year <= 9999 && k < |FileLines(entries, cfg, t)|
    ensures |FileLines(entries, cfg, t)[k]| == 94
  {
    HeaderLength(cfg, t);
    var n := |entries|;
    if 2 <= k < n + 2 {
      assert FileLines(entries, cfg, t)[k] == EntryLines(entries, cfg)[k - 2];
    }
  }

  // ------------------------------------------------------------------ the controls decode to the entries

  lemma SliceLeft<T>(a: seq<T>, b: seq<T>, i: nat, j: nat)
    requires i <= j <= |a|
    ensures (a + b)[i..j] == a[i..j]
  {}

  lemma SliceRight<T>(a: seq<T>, b: seq<T>, i: nat, j: nat)
    requires |a| <= i <= j <= |a| + |b|
    ensures (a + b)[i..j] == b[i - |a|..j - |a|]
  {}

  /** A field between two others. */
  lemma FieldAt<T>(a: seq<T>, b: seq<T>, c: seq<T>)
    ensures (a + (b + c))[|a|..|a| + |b|] == b
  {}

  /** Columns of an entry record: the bank's eight digits, and the amount. */
  lemma EntryFields(e: Entry, i: nat, cfg: Config)
    ensures var line := EntryLine(e, i, cfg);
            line[3..11] == Receiver(e)[..8] && line[29..39] == Pn(e.amountCents, 10)
  {
    FieldAt(EntryHead(e), Pn(e.amountCents, 10), EntryTail(e, i, cfg));
    SliceLeft(EntryHead(e), Pn(e.amountCents, 10) + EntryTail(e, i, cfg), 3, 11);
    SliceRight("6" + TransactionCode(e.accountType), Receiver(e) + Pr(e.account, 17), 3, 11);
    SliceLeft(Receiver(e), Pr(e.account, 17), 0, 8);
  }

  lemma BatchControlHeadFields(count: nat, hash: nat)
    ensures BatchControlHead(count, hash)[4..10] == Pn(count, 6) && BatchControlHead(count, hash)[10..20] == HashField(hash)
  {
    var left, right := "8220" + Pn(count, 6), HashField(hash) + Pn(0, 12);
    SliceLeft(left, right, 4, 10);
    FieldAt(left, HashField(hash), Pn(0, 12));
    assert left[4..10] == Pn(count, 6);
  }

  /** Columns of the batch control: entry count, hash and credit total. */
  lemma BatchControlFields(count: nat, hash: nat, total: nat, cfg: Config)
    ensures var line := BatchControl(count, hash, total, cfg);
            line[4..10] == Pn(count, 6) && line[10..20] == HashField(hash) && line[32..44] == Pn(total, 12)
  {
    var head, tail := BatchControlHead(count, hash), Pr(cfg.companyId, 10) + Pr("", 19) + Pr("", 6) + Odfi8(cfg) + Pn(1, 7);
    BatchControlHeadFields(count, hash);
    SliceLeft(head, Pn(total, 12) + tail, 4, 10);
    SliceLeft(head, Pn(total, 12) + tail, 10, 20);
    FieldAt(head, Pn(total, 12), tail);
  }

  lemma FileControlHeadFields(blocks: nat, count: nat, hash: nat)
    ensures var head := FileControlHead(blocks, count, hash);
            head[7..13] == Pn(blocks, 6) && head[13..21] == Pn(count, 8) && head[21..31] == HashField(hash)
  {
    var left, right := ("9" + Pn(1, 6)) + Pn(blocks, 6), Pn(count, 8) + (HashField(hash) + Pn(0, 12));
    SliceLeft(left, right, 7, 13);
    assert left[7..13] == Pn(blocks, 6);
    FieldAt(left, Pn(count, 8), HashField(hash) + Pn(0, 12));
    SliceRight(left, right, 21, 31);
    FieldAt(Pn(count, 8), HashField(hash), Pn(0, 12));
  }

  /** Columns of the file control: blocks, entry count, hash and credit total. */
  lemma FileControlFields(blocks: nat, count: nat, hash: nat, total: nat)
    ensures var line := FileControl(blocks, count, hash, total);
            line[7..13] == Pn(blocks, 6) && line[13..21] == Pn(count, 8) && line[21..31] == HashField(hash) && line[43..55] == Pn(total, 12)
  {
    var head := FileControlHead(blocks, count, hash);
    FileControlHeadFields(blocks, count, hash);
    SliceLeft(head, Pn(total, 12) + Pr("", 39), 7, 13);
    SliceLeft(head, Pn(total, 12) + Pr("", 39), 13, 21);
    SliceLeft(head, Pn(total, 12) + Pr("", 39), 21, 31);
    FieldAt(head, Pn(total, 12), Pr("", 39));
  }

  /** The sum of one column over the entry records, as a reader of the file would compute it. */
  function ColumnSum(lines: seq<string>, from: nat, to: nat): nat
    requires from <= to && forall k :: 0 <= k < |lines| ==> to <= |lines[k]|
  {
    if lines == [] then 0
    else ColumnSum(lines[..|lines| - 1], from, to) + Decode(lines[|lines| - 1][from..to])
  }

  lemma {:induction false} EntryColumns(entries: seq<Entry>, cfg: Config)
    requires forall i :: 0 <= i < |entries| ==> entries[i].amountCents < Pow10(10)
    ensures ColumnSum(EntryLines(entries, cfg), 3, 11) == EntryHash(entries)
    ensures ColumnSum(EntryLines(entries, cfg), 29, 39) == CreditTotal(entries)
  {
    if entries != [] {
      var front, e := entries[..|entries| - 1], entries[|entries| - 1];
      EntryColumns(front, cfg);
      EntryFields(e, |front|, cfg);
      FieldReadsBack(e.amountCents, 10);
      var lines := EntryLines(entries, cfg);
      assert lines[..|lines| - 1] == EntryLines(front, cfg);
    }
  }

  /** What fits the fields of the format: ten digits an amount, six digits of entries, twelve of credit. */
  predicate WithinLimits(entries: seq<Entry>) {
    && (forall i :: 0 <= i < |entries| ==> entries[i].amountCents < Pow10(10))
    && |entries| < 1_000_000 && CreditTotal(entries) < Pow10(12)
  }

  /**
   Both control records decode to what the entry records add up to: their number, the sum of the bank
   digits modulo 10^10, the sum of the amounts, and in the file control the number of blocks.
   */
  lemma ControlsDecode(entries: seq<Entry>, cfg: Config, t: Stamp)
    requires WithinLimits(entries)
    ensures var n, lines := |entries|, FileLines(entries, cfg, t);
            && |lines| >= n + 4 && |lines[n + 2]| == 94 && |lines[n + 3]| == 94
            && lines[2..n + 2] == EntryLines(entries, cfg)
            && (forall k :: 0 <= k < n ==> |EntryLines(entries, cfg)[k]| == 94)
            && Decode(lines[n + 2][4..10]) == n == Decode(lines[n + 3][13..21])
            && Decode(lines[n + 2][10..20]) == ColumnSum(EntryLines(entries, cfg), 3, 11) % 10_000_000_000 == Decode(lines[n + 3][21..31])
            && Decode(lines[n + 2][32..44]) == ColumnSum(EntryLines(entries, cfg), 29, 39) == Decode(lines[n + 3][43..55])
            && 10 * Decode(lines[n + 3][7..13]) == |lines|
  {
    var n, hash, total := |entries|, EntryHash(entries), CreditTotal(entries);
    EntryColumns(entries, cfg);
    BatchControlFields(n, hash, total, cfg);
    FileControlFields(Blocks(n + 4), n, hash, total);
    Powers();
    FieldReadsBack(n, 6);
    FieldReadsBack(n, 8);
    FieldReadsBack(hash % 10_000_000_000, 10);
    FieldReadsBack(total, 12);
    FieldReadsBack(Blocks(n + 4), 6);
    StackPositions(FileHeader(cfg, t), BatchHeader(cfg, t), EntryLines(entries, cfg), BatchControl(n, hash, total, cfg),
                   FileControl(Blocks(n + 4), n, hash, total));
  }

  lemma Powers()
    ensures Pow10(6) == 1_000_000 && Pow10(8) == 100_000_000 && Pow10(10) == 10_000_000_000
  {
    assert Pow10(3) == 1000;
    assert Pow10(6) == 1_000_000;
    assert Pow10(8) == 100_000_000;
  }

  lemma StackPositions(header: string, batch: string, es: seq<string>, control: string, file: string)
    ensures var n, lines := |es|, Stack(header, batch, es, control, file);
            && |lines| == 10 * Blocks(n + 4) >= n + 4
            && lines[0] == header && lines[1] == batch && lines[2..n + 2] == es && lines[n + 2] == control && lines[n + 3] == file
            && forall k :: n + 4 <= k < |lines| ==> lines[k] == Repeat('9', 94)
  {
    var n := |es|;
    var front, back := [header, batch], [control, file];
    var pad := Padding(10 * Blocks(n + 4) - (n + 4));
    SliceLeft(front + es + back, pad, 2, n + 2);
    SliceLeft(front + es, back, 2, n + 2);
    SliceRight(front, es, 2, n + 2);
    assert es[0..n] == es;
  }

  /** The file is its lines, each ended by a line feed. */
  lemma {:induction false} TextLength(lines: seq<string>)
    requires forall k :: 0 <= k < |lines| ==> |lines[k]| == 94
    ensures |JoinLines(lines)| == 95 * |lines|
  {
    if lines != [] {
      TextLength(lines[..|lines| - 1]);
    }
  }
}
