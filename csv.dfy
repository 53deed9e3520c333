/** The catalog parser: `parseCSVRow` (app.js:831-848) and `parseCSV`
    (app.js:752-829). A row is split at commas outside double quotes; a
    double quote only toggles the "inside quotes" state and is dropped, so a
    doubled quote `""` vanishes instead of standing for a literal quote as in
    section 2 of RFC 4180. Every cell is trimmed. */
module Csv {
  import opened Wrappers
  import opened Text
  import opened Catalog
  import Seqs

  /** The cells of `row` before trimming, with `inQuotes` the state at the
      start of `row`: the reference definition of the splitter. */
  function Fields(row: string, inQuotes: bool): (fs: seq<string>)
    ensures |fs| >= 1
  {
    if row == [] then [[]]
    else if row[0] == '"' then Fields(row[1..], !inQuotes)
    else
      var rest := Fields(row[1..], inQuotes);
      if row[0] == ',' && !inQuotes then [[]] + rest
      else [[row[0]] + rest[0]] + rest[1..]
  }

  /** No cell holds a double quote. */
  lemma {:induction false} FieldsNoQuote(row: string, inQuotes: bool)
    ensures forall i :: 0 <= i < |Fields(row, inQuotes)| ==> '"' !in Fields(row, inQuotes)[i]
  {
    if row != [] {
      if row[0] == '"' {
        FieldsNoQuote(row[1..], !inQuotes);
      } else {
        FieldsNoQuote(row[1..], inQuotes);
        var rest := Fields(row[1..], inQuotes);
        var fs := Fields(row, inQuotes);
        if !(row[0] == ',' && !inQuotes) {
          assert fs[0] == [row[0]] + rest[0];
          forall i | 1 <= i < |fs| ensures fs[i] == rest[i] { }
        } else {
          forall i | 1 <= i < |fs| ensures fs[i] == rest[i - 1] { }
        }
      }
    }
  }

  /** Whether an odd number of double quotes occurs in `s`: read left to right,
      whether the next character is inside quotes. */
  function QuotesOdd(s: string): bool {
    if s == [] then false
    else QuotesOdd(s[..|s| - 1]) != (s[|s| - 1] == '"')
  }

  /** The number of commas in `s` that stand outside quotes. */
  function UnquotedCommas(s: string): nat {
    if s == [] then 0
    else
      var init := s[..|s| - 1];
      UnquotedCommas(init) + if s[|s| - 1] == ',' && !QuotesOdd(init) then 1 else 0
  }

  /** `row` without its double quotes. */
  function RemoveQuotes(row: string): string {
    if row == [] then []
    else if row[0] == '"' then RemoveQuotes(row[1..])
    else [row[0]] + RemoveQuotes(row[1..])
  }

  /** The state of `parseCSVRow` after reading `row[..i]`: the finished cells
      `raw`, the cell being built `current` and the quote state `inQuotes`
      agree with the reference splitter on the whole row. */
  ghost predicate RowScan(row: string, i: nat, raw: seq<string>, current: string, inQuotes: bool) {
    && i <= |row|
    && inQuotes == QuotesOdd(row[..i])
    && |raw| == UnquotedCommas(row[..i])
    && var f := Fields(row[i..], inQuotes);
       Fields(row, false) == raw + [current + f[0]] + f[1..]
  }

  lemma RowScanStart(row: string)
    ensures RowScan(row, 0, [], "", false)
  {
    assert row[0..] == row && row[..0] == [];
    var f := Fields(row, false);
    assert [] + f[0] == f[0];
    assert [f[0]] + f[1..] == f;
  }

  /** One character of the loop of `parseCSVRow`: a double quote flips the state. */
  lemma RowScanQuote(row: string, i: nat, raw: seq<string>, current: string, inQuotes: bool)
    requires RowScan(row, i, raw, current, inQuotes) && i < |row| && row[i] == '"'
    ensures RowScan(row, i + 1, raw, current, !inQuotes)
  {
    assert row[..i + 1][..i] == row[..i] && row[..i + 1][i] == row[i];
    assert row[i..][1..] == row[i + 1..] && row[i..][0] == row[i];
  }

  /** A comma outside quotes closes the current cell. */
  lemma RowScanComma(row: string, i: nat, raw: seq<string>, current: string, inQuotes: bool)
    requires RowScan(row, i, raw, current, inQuotes) && i < |row| && row[i] == ',' && !inQuotes
    ensures RowScan(row, i + 1, raw + [current], [], inQuotes)
  {
    assert row[..i + 1][..i] == row[..i] && row[..i + 1][i] == row[i];
    assert row[i..][1..] == row[i + 1..] && row[i..][0] == row[i];
    var f := Fields(row[i..], inQuotes);
    var g := Fields(row[i + 1..], inQuotes);
    assert f == [[]] + g;
    assert current + f[0] == current && [] + g[0] == g[0] && f[1..] == g;
    assert [g[0]] + g[1..] == g;
  }

  /** Any other character extends the current cell. */
  lemma RowScanOther(row: string, i: nat, raw: seq<string>, current: string, inQuotes: bool)
    requires RowScan(row, i, raw, current, inQuotes) && i < |row| && row[i] != '"' && !(row[i] == ',' && !inQuotes)
    ensures RowScan(row, i + 1, raw, current + [row[i]], inQuotes)
  {
    var c := row[i];
    assert row[..i + 1][..i] == row[..i] && row[..i + 1][i] == c;
    assert row[i..][1..] == row[i + 1..] && row[i..][0] == c;
    var f := Fields(row[i..], inQuotes);
    var g := Fields(row[i + 1..], inQuotes);
    assert f == [[c] + g[0]] + g[1..];
    assert current + f[0] == (current + [c]) + g[0];
  }

  lemma RowScanEnd(row: string, raw: seq<string>, current: string, inQuotes: bool)
    requires RowScan(row, |row|, raw, current, inQuotes)
    ensures Fields(row, false) == raw + [current]
    ensures |raw| == UnquotedCommas(row)
  {
    assert row[..|row|] == row;
    var f := Fields(row[|row|..], inQuotes);
    assert row[|row|..] == [];
    assert f == [[]];
    assert current + f[0] == current;
    assert f[1..] == [];
    assert raw + [current] + [] == raw + [current];
  }

  /** `parseCSVRow(row)`. */
  method ParseCSVRow(row: string) returns (cells: seq<string>)
    ensures cells == Seqs.Map(Trim, Fields(row, false))
    ensures |cells| == UnquotedCommas(row) + 1
    ensures CleanCells(cells)
  {
    cells := [];
    var current := "";
    var inQuotes := false;
    ghost var raw: seq<string> := [];
    var i := 0;
    RowScanStart(row);
    while i < |row|
      invariant i <= |row|
      invariant RowScan(row, i, raw, current, inQuotes)
      invariant cells == Seqs.Map(Trim, raw)
    {
      cells, current, inQuotes, raw := ScanChar(row, i, cells, current, inQuotes, raw);
      i := i + 1;
    }
    RowScanEnd(row, raw, current, inQuotes);
    cells := cells + [Trim(current)];
    MapSnoc(raw, current);
    CellsClean(row);
    CellCount(row);
  }

  /** The body of the loop of `parseCSVRow` for the character `row[i]`. */
  method ScanChar(row: string, i: nat, cells: seq<string>, current: string, inQuotes: bool, ghost raw: seq<string>)
    returns (cells': seq<string>, current': string, inQuotes': bool, ghost raw': seq<string>)
    requires i < |row| && RowScan(row, i, raw, current, inQuotes) && cells == Seqs.Map(Trim, raw)
    ensures RowScan(row, i + 1, raw', current', inQuotes') && cells' == Seqs.Map(Trim, raw')
  {
    var c := row[i];
    cells', current', inQuotes', raw' := cells, current, inQuotes, raw;
    if c == '"' {
      RowScanQuote(row, i, raw, current, inQuotes);
      inQuotes' := !inQuotes;
    } else if c == ',' && !inQuotes {
      RowScanComma(row, i, raw, current, inQuotes);
      MapSnoc(raw, current);
      cells' := cells + [Trim(current)];
      raw' := raw + [current];
      current' := "";
    } else {
      RowScanOther(row, i, raw, current, inQuotes);
      current' := current + [c];
    }
  }

  lemma MapSnoc(raw: seq<string>, last: string)
    ensures Seqs.Map(Trim, raw + [last]) == Seqs.Map(Trim, raw) + [Trim(last)]
  {
  }

  /** Cells holding no double quote and no surrounding white space. */
  predicate CleanCells(cells: seq<string>) {
    forall k :: 0 <= k < |cells| ==> '"' !in cells[k] && IsTrimmed(cells[k])
  }

  /** The cells of a row hold no double quote and are trimmed. */
  lemma CellsClean(row: string)
    ensures CleanCells(Seqs.Map(Trim, Fields(row, false)))
  {
    var fs := Fields(row, false);
    var cells := Seqs.Map(Trim, fs);
    FieldsNoQuote(row, false);
    forall k | 0 <= k < |cells| ensures '"' !in cells[k] {
      if '"' in cells[k] { TrimChars(fs[k], '"'); }
    }
  }

  /** Joining the cells with commas gives the row back without its quotes:
      the splitter loses nothing but the quote characters. */
  lemma {:induction false} JoinFields(row: string, inQuotes: bool)
    ensures Join(Fields(row, inQuotes), ",") == RemoveQuotes(row)
  {
    if row != [] {
      if row[0] == '"' {
        JoinFields(row[1..], !inQuotes);
      } else {
        JoinFields(row[1..], inQuotes);
        JoinFieldsStep(row[0], Fields(row[1..], inQuotes), inQuotes);
      }
    }
  }

  /** One character that is not a quote, in front of the fields of the rest of the row. */
  lemma JoinFieldsStep(c: char, rest: seq<string>, inQuotes: bool)
    requires |rest| >= 1
    ensures var fs := if c == ',' && !inQuotes then [[]] + rest else [[c] + rest[0]] + rest[1..];
      Join(fs, ",") == [c] + Join(rest, ",")
  {
    if c == ',' && !inQuotes {
      JoinCons([], rest, ",");
    } else {
      JoinExtendHead(c, rest, ",");
    }
  }

  lemma JoinCons(x: string, rest: seq<string>, sep: string)
    requires rest != []
    ensures Join([x] + rest, sep) == x + sep + Join(rest, sep)
  {
    assert ([x] + rest)[1..] == rest;
  }

  lemma JoinExtendHead(c: char, rest: seq<string>, sep: string)
    requires rest != []
    ensures Join([[c] + rest[0]] + rest[1..], sep) == [c] + Join(rest, sep)
  {
    if |rest| > 1 {
      var fs := [[c] + rest[0]] + rest[1..];
      assert fs[1..] == rest[1..];
      assert [c] + rest[0] + sep + Join(rest[1..], sep) == [c] + (rest[0] + sep + Join(rest[1..], sep));
    }
  }

  /** Counting cells through a split point: the cells of `a + b` are the
      unquoted commas of `a` plus the cells of `b` read from the state after `a`. */
  lemma {:induction false} FieldsCount(a: string, b: string)
    ensures |Fields(a + b, false)| == UnquotedCommas(a) + |Fields(b, QuotesOdd(a))|
    decreases |a|
  {
    if a == [] {
      assert a + b == b;
    } else {
      var init := a[..|a| - 1];
      var c := a[|a| - 1];
      assert a + b == init + ([c] + b);
      FieldsCount(init, [c] + b);
      assert ([c] + b)[1..] == b;
    }
  }

  /** A row has exactly one more cell than it has commas outside quotes. */
  lemma CellCount(row: string)
    ensures |Fields(row, false)| == UnquotedCommas(row) + 1
  {
    FieldsCount(row, []);
    assert row + [] == row;
  }

  /** `barcodes.split('/').map(b => b.trim()).join('/')` when the cell holds a `/`. */
  function NormalizeAlternates(barcodes: string): string {
    if '/' in barcodes then Join(Alternates(barcodes), "/") else barcodes
  }

  /** A cell holding the separator splits into at least two pieces. */
  lemma SplitAtSep(s: string, sep: char)
    requires sep in s
    ensures |Split(s, sep)| >= 2
  {
    JoinSplit(s, sep);
  }

  /** Normalizing the NS alternates changes nothing the matcher sees, and a
      second normalization changes nothing at all. */
  lemma NormalizeAlternatesStable(barcodes: string)
    ensures Alternates(NormalizeAlternates(barcodes)) == Alternates(barcodes)
    ensures NormalizeAlternates(NormalizeAlternates(barcodes)) == NormalizeAlternates(barcodes)
  {
    if '/' in barcodes {
      var alts := Alternates(barcodes);
      SplitAtSep(barcodes, '/');
      var n := Join(alts, "/");
      assert n == alts[0] + "/" + Join(alts[1..], "/");
      assert n[|alts[0]|] == '/';
      SplitJoin(alts, '/');
      assert Split(n, '/') == alts;
      assert Seqs.Map(Trim, alts) == alts;
    }
  }

  /** The PS4 range, cells 0-6 of the row. */
  function Ps4Record(r: seq<string>): Option<Product>
    requires |r| == 7
  {
    if Contains(r[0], "PS4") && r[1] != [] && r[2] != [] then
      Some(Product(r[0], r[1], r[2], r[3], r[4], r[5], r[6], "CUSA"))
    else None
  }

  /** The PS5 range, cells 8-14 of the row. */
  function Ps5Record(r: seq<string>): Option<Product>
    requires |r| == 7
  {
    if Contains(r[0], "PS5") && r[1] != [] && r[2] != [] then
      Some(Product(r[0], r[1], r[2], r[3], r[4], r[5], r[6], "PPSA"))
    else None
  }

  /** The Nintendo Switch range, cells 16-21 of the row; its alternates are normalized. */
  function SwitchRecord(r: seq<string>): Option<Product>
    requires |r| == 6
  {
    if (Contains(r[0], "NS") || Contains(r[0], "Switch")) && r[1] != [] && r[2] != [] then
      Some(Product(r[0], NormalizeAlternates(r[1]), r[2], "", r[3], r[4], r[5], ""))
    else None
  }

  /** The Xbox range, cells 23-28 of the row. */
  function XboxRecord(r: seq<string>): Option<Product>
    requires |r| == 6
  {
    if Contains(r[0], "XBOX") && r[1] != [] && r[2] != [] then
      Some(Product(r[0], r[1], r[2], "", r[3], r[4], r[5], ""))
    else None
  }

  function OptionToSeq<T>(o: Option<T>): seq<T> {
    if o.Some? then [o.value] else []
  }

  /** The records of one row of at least 29 cells: each range is read from its
      own cells only, and the ranges come in the order PS4, PS5, NS, XBOX. */
  function RowRecords(cells: seq<string>): seq<Product>
    requires |cells| >= 29
  {
    OptionToSeq(Ps4Record(cells[0..7])) + OptionToSeq(Ps5Record(cells[8..15]))
    + OptionToSeq(SwitchRecord(cells[16..22])) + OptionToSeq(XboxRecord(cells[23..29]))
  }

  /** The records of one line of the export: none for a blank line or a row of fewer than 29 cells. */
  function LineRecords(line: string): seq<Product> {
    if Trim(line) == [] then []
    else
      var cells := Seqs.Map(Trim, Fields(line, false));
      if |cells| < 29 then [] else RowRecords(cells)
  }

  /** The records of `lines`, line after line. */
  function LinesRecords(lines: seq<string>): seq<Product> {
    Seqs.FlatMap(LineRecords, lines)
  }

  lemma LinesRecordsSnoc(lines: seq<string>, line: string)
    ensures LinesRecords(lines + [line]) == LinesRecords(lines) + LineRecords(line)
  {
    assert (lines + [line])[..|lines|] == lines;
  }

  lemma LinesRecordsStep(rows: seq<string>, i: nat)
    requires 1 <= i < |rows|
    ensures LinesRecords(rows[1..i + 1]) == LinesRecords(rows[1..i]) + LineRecords(rows[i])
  {
    assert rows[1..i + 1] == rows[1..i] + [rows[i]];
    LinesRecordsSnoc(rows[1..i], rows[i]);
  }

  /** What `parseCSV` extracts from the lines of the export: line 0 is the header. */
  function CatalogRecords(lines: seq<string>): seq<Product> {
    if lines == [] then [] else LinesRecords(lines[1..])
  }

  /** `parseCSV(csvText)`. */
  method ParseCSV(csvText: string) returns (games: seq<Product>)
    ensures games == CatalogRecords(Split(csvText, '\n'))
  {
    var rows := Split(csvText, '\n');
    games := [];
    var i := 1;
    while i < |rows|
      invariant 1 <= i <= |rows|
      invariant games == LinesRecords(rows[1..i])
    {
      LinesRecordsStep(rows, i);
      games := AppendLineRecords(games, rows[i]);
      i := i + 1;
    }
    assert rows[1..i] == rows[1..];
  }

  /** The body of the loop of `parseCSV` for one line after the header. */
  method AppendLineRecords(games: seq<Product>, line: string) returns (out: seq<Product>)
    ensures out == games + LineRecords(line)
  {
    out := games;
    if Trim(line) == [] {
      return;
    }
    var cells := ParseCSVRow(line);
    if |cells| < 29 {
      return;
    }
    out := AppendRowRecords(out, cells);
  }

  /** The four `if` blocks of `parseCSV` for one row of at least 29 cells. */
  method AppendRowRecords(games: seq<Product>, cells: seq<string>) returns (out: seq<Product>)
    requires |cells| >= 29
    ensures out == games + RowRecords(cells)
  {
    out := PushPs4(games, cells);
    out := PushPs5(out, cells);
    out := PushSwitch(out, cells);
    out := PushXbox(out, cells);
  }

  method PushPs4(games: seq<Product>, cells: seq<string>) returns (out: seq<Product>)
    requires |cells| >= 29
    ensures out == games + OptionToSeq(Ps4Record(cells[0..7]))
  {
    out := games;
    if Contains(cells[0], "PS4") && cells[1] != [] && cells[2] != [] {
      out := out + [Product(cells[0], cells[1], cells[2], cells[3], cells[4], cells[5], cells[6], "CUSA")];
    }
  }

  method PushPs5(games: seq<Product>, cells: seq<string>) returns (out: seq<Product>)
    requires |cells| >= 29
    ensures out == games + OptionToSeq(Ps5Record(cells[8..15]))
  {
    out := games;
    if Contains(cells[8], "PS5") && cells[9] != [] && cells[10] != [] {
      out := out + [Product(cells[8], cells[9], cells[10], cells[11], cells[12], cells[13], cells[14], "PPSA")];
    }
  }

  method PushSwitch(games: seq<Product>, cells: seq<string>) returns (out: seq<Product>)
    requires |cells| >= 29
    ensures out == games + OptionToSeq(SwitchRecord(cells[16..22]))
  {
    out := games;
    if (Contains(cells[16], "NS") || Contains(cells[16], "Switch")) && cells[17] != [] && cells[18] != [] {
      var barcodes := cells[17];
      if '/' in barcodes {
        barcodes := Join(Seqs.Map(Trim, Split(barcodes, '/')), "/");
      }
      out := out + [Product(cells[16], barcodes, cells[18], "", cells[19], cells[20], cells[21], "")];
    }
  }

  method PushXbox(games: seq<Product>, cells: seq<string>) returns (out: seq<Product>)
    requires |cells| >= 29
    ensures out == games + OptionToSeq(XboxRecord(cells[23..29]))
  {
    out := games;
    if Contains(cells[23], "XBOX") && cells[24] != [] && cells[25] != [] {
      out := out + [Product(cells[23], cells[24], cells[25], "", cells[26], cells[27], cells[28], "")];
    }
  }

  /** The header line contributes nothing, whatever it holds. */
  lemma HeaderIgnored(header: string, other: string, rest: seq<string>)
    ensures CatalogRecords([header] + rest) == CatalogRecords([other] + rest)
  {
    assert ([header] + rest)[1..] == rest == ([other] + rest)[1..];
  }

  /** A blank line after the header contributes nothing, wherever it stands. */
  lemma BlankLineIgnored(a: seq<string>, blank: string, b: seq<string>)
    requires |a| >= 1 && AllSpace(blank)
    ensures CatalogRecords(a + [blank] + b) == CatalogRecords(a + b)
  {
    assert (a + [blank] + b)[1..] == a[1..] + [blank] + b;
    assert (a + b)[1..] == a[1..] + b;
    assert LineRecords(blank) == [];
    Seqs.FlatMapDropEmpty(LineRecords, a[1..], blank, b);
  }

  /** A row with fewer than 28 unquoted commas has fewer than 29 cells and yields no record. */
  lemma ShortRowIgnored(line: string)
    requires UnquotedCommas(line) < 28
    ensures LineRecords(line) == []
  {
    CellCount(line);
  }

  /** Every record names one of the four platforms with its code type, has a
      non-empty barcode and name, and holds no double quote in its name. */
  predicate WellFormedRecord(p: Product) {
    && p.barcode != [] && p.name != [] && '"' !in p.name && IsTrimmed(p.name)
    && (|| (Contains(p.platform, "PS4") && p.codeType == "CUSA")
        || (Contains(p.platform, "PS5") && p.codeType == "PPSA")
        || ((Contains(p.platform, "NS") || Contains(p.platform, "Switch")) && p.code == [] && p.codeType == [])
        || (Contains(p.platform, "XBOX") && p.code == [] && p.codeType == []))
  }

  /** A name cell that the parser may store. */
  predicate CleanName(name: string) {
    '"' !in name && IsTrimmed(name)
  }

  lemma Ps4WellFormed(r: seq<string>)
    requires |r| == 7 && CleanName(r[2])
    ensures forall p :: p in OptionToSeq(Ps4Record(r)) ==> WellFormedRecord(p)
  {
  }

  lemma Ps5WellFormed(r: seq<string>)
    requires |r| == 7 && CleanName(r[2])
    ensures forall p :: p in OptionToSeq(Ps5Record(r)) ==> WellFormedRecord(p)
  {
  }

  lemma SwitchWellFormed(r: seq<string>)
    requires |r| == 6 && CleanName(r[2])
    ensures forall p :: p in OptionToSeq(SwitchRecord(r)) ==> WellFormedRecord(p)
  {
    if r[1] != [] && '/' in r[1] {
      var alts := Alternates(r[1]);
      SplitAtSep(r[1], '/');
      assert Join(alts, "/") == alts[0] + "/" + Join(alts[1..], "/");
    }
  }

  lemma XboxWellFormed(r: seq<string>)
    requires |r| == 6 && CleanName(r[2])
    ensures forall p :: p in OptionToSeq(XboxRecord(r)) ==> WellFormedRecord(p)
  {
  }

  /** The records of a row whose cells hold no double quote and are trimmed are well formed. */
  lemma RowRecordsWellFormed(cells: seq<string>)
    requires |cells| >= 29 && CleanCells(cells)
    ensures |RowRecords(cells)| <= 4
    ensures forall p :: p in RowRecords(cells) ==> WellFormedRecord(p)
  {
    var ps4, ps5, ns, xbox := cells[0..7], cells[8..15], cells[16..22], cells[23..29];
    assert ps4[2] == cells[2] && ps5[2] == cells[10] && ns[2] == cells[18] && xbox[2] == cells[25];
    Ps4WellFormed(ps4);
    Ps5WellFormed(ps5);
    SwitchWellFormed(ns);
    XboxWellFormed(xbox);
    var a, b, c, d := OptionToSeq(Ps4Record(ps4)), OptionToSeq(Ps5Record(ps5)),
      OptionToSeq(SwitchRecord(ns)), OptionToSeq(XboxRecord(xbox));
    assert RowRecords(cells) == a + b + c + d;
    forall p | p in RowRecords(cells) ensures WellFormedRecord(p) {
      assert p in a || p in b || p in c || p in d;
    }
  }

  lemma LineRecordsWellFormed(line: string)
    ensures |LineRecords(line)| <= 4
    ensures forall p :: p in LineRecords(line) ==> WellFormedRecord(p)
  {
    var cells := Seqs.Map(Trim, Fields(line, false));
    if Trim(line) == [] || |cells| < 29 {
      assert LineRecords(line) == [];
    } else {
      assert LineRecords(line) == RowRecords(cells);
      CellsClean(line);
      RowRecordsWellFormed(cells);
    }
  }

  /** Every parsed record is well formed and comes from a line after the header. */
  lemma CatalogRecordsWellFormed(lines: seq<string>)
    ensures forall p :: p in CatalogRecords(lines) ==> WellFormedRecord(p)
    ensures forall p :: p in CatalogRecords(lines) ==> exists i :: 1 <= i < |lines| && p in LineRecords(lines[i])
  {
    forall p | p in CatalogRecords(lines)
      ensures WellFormedRecord(p) && exists i :: 1 <= i < |lines| && p in LineRecords(lines[i])
    {
      Seqs.FlatMapMember(LineRecords, lines[1..], p);
      var k :| 0 <= k < |lines[1..]| && p in LineRecords(lines[1..][k]);
      assert lines[k + 1] == lines[1..][k];
      LineRecordsWellFormed(lines[k + 1]);
    }
  }
}
