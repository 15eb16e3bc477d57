/**
 The CSV printer of server/src/services/csv.ts, proved against a reader written from section 2 of
 RFC 4180.
 */
module Csv {
  import opened Characters

  const BOM: string := [0xFEFF as char]
  const CRLF: string := ['\r', '\n']

  datatype Cell = Text(text: string) | Number(value: int) | Missing | Raw(raw: string)

  // ---- printing ----

  predicate IsFormulaTrigger(c: char) {
    c == '=' || c == '+' || c == '-' || c == '@' || c == '\t' || c == '\r'
  }

  /** A leading apostrophe for text a spreadsheet would run as a formula. */
  function NeutralizeFormula(value: string): string {
    if value != "" && IsFormulaTrigger(value[0]) then "'" + value else value
  }

  function NatText(n: nat): string {
    if n < 10 then [DigitChar(n)] else NatText(n / 10) + [DigitChar(n % 10)]
  }

  function IntText(n: int): string {
    if n < 0 then "-" + NatText(-n) else NatText(n)
  }

  /** What a cell says, before quoting. */
  function Shown(cell: Cell): string {
    match cell
    case Missing => ""
    case Raw(s) => s
    case Number(n) => IntText(n)
    case Text(s) => NeutralizeFormula(s)
  }

  predicate IsSpecial(c: char) {
    c == '"' || c == ',' || c == '\n' || c == '\r' || c == '\t'
  }

  function DoubleQuotes(s: string): string {
    if s == "" then ""
    else DoubleQuotes(s[..|s| - 1]) + if s[|s| - 1] == '"' then "\"\"" else [s[|s| - 1]]
  }

  function Quote(s: string): string {
    if exists i | 0 <= i < |s| :: IsSpecial(s[i]) then "\"" + DoubleQuotes(s) + "\"" else s
  }

  function Join(parts: seq<string>, separator: string): string {
    if parts == [] then ""
    else if |parts| == 1 then parts[0]
    else Join(parts[..|parts| - 1], separator) + separator + parts[|parts| - 1]
  }

  function QuoteAll(cells: seq<Cell>): (q: seq<string>)
    ensures |q| == |cells|
  {
    seq(|cells|, i requires 0 <= i < |cells| => Quote(Shown(cells[i])))
  }

  function PrintRow(cells: seq<Cell>): string {
    Join(QuoteAll(cells), ",")
  }

  function HeaderRow(headers: seq<string>): (r: seq<Cell>)
    ensures |r| == |headers|
  {
    seq(|headers|, i requires 0 <= i < |headers| => Text(headers[i]))
  }

  function PrintRows(rows: seq<seq<Cell>>): (lines: seq<string>)
    ensures |lines| == |rows|
  {
    seq(|rows|, i requires 0 <= i < |rows| => PrintRow(rows[i]))
  }

  function Print(headers: seq<string>, rows: seq<seq<Cell>>): string {
    BOM + Join(PrintRows([HeaderRow(headers)] + rows), CRLF)
  }

  method ToCsv(headers: seq<string>, rows: seq<seq<Cell>>) returns (csv: string)
    ensures csv == Print(headers, rows)
  {
    var lines := [PrintRow(HeaderRow(headers))];
    ghost var all := [HeaderRow(headers)] + rows;
    for i := 0 to |rows|
      invariant lines == PrintRows(all)[..i + 1]
    {
      lines := lines + [PrintRow(rows[i])];
    }
    assert PrintRows(all)[..|rows| + 1] == PrintRows(all);
    csv := BOM + Join(lines, CRLF);
  }

  // ---- reading, after section 2 of RFC 4180 ----

  datatype Mode = Start | Plain | Quoted | Closing | Return

  /** Finished records, the record and the field being read, and where in the field the reader stands. */
  datatype Reader = Reading(records: seq<seq<string>>, record: seq<string>, field: string, mode: Mode) | Broken

  function EndField(r: Reader): Reader
    requires r.Reading?
  {
    Reading(r.records, r.record + [r.field], "", Start)
  }

  function EndRecord(r: Reader): Reader
    requires r.Reading?
  {
    Reading(r.records + [r.record + [r.field]], [], "", Start)
  }

  function Step(r: Reader, c: char): Reader {
    match r
    case Broken => Broken
    case Reading(_, _, field, mode) =>
      match mode
      case Quoted => if c == '"' then r.(mode := Closing) else r.(field := field + [c])
      case Return => if c == '\n' then EndRecord(r) else Broken
      case Closing =>
        if c == '"' then r.(field := field + [c], mode := Quoted)
        else if c == ',' then EndField(r)
        else if c == '\r' then r.(mode := Return)
        else Broken
      case _ =>
        if c == ',' then EndField(r)
        else if c == '\r' then r.(mode := Return)
        else if c == '"' then (if mode == Start then r.(mode := Quoted) else Broken)
        else if c == '\n' then Broken
        else r.(field := field + [c], mode := Plain)
  }

  function Read(r: Reader, s: string): Reader {
    if s == "" then r else Step(Read(r, s[..|s| - 1]), s[|s| - 1])
  }

  datatype Parsed = Grid(records: seq<seq<string>>) | Malformed

  /** The grammar's end of file: the last record ends where the text ends. */
  function Finish(r: Reader): Parsed {
    if r.Reading? && r.mode != Quoted && r.mode != Return then Grid(EndRecord(r).records) else Malformed
  }

  /** The grammar's other reading of the end: a line break after the last record is not a new record. */
  function FinishOptionalBreak(r: Reader): Parsed {
    if r.Reading? && r.mode == Start && r.record == [] && r.records != [] then Grid(r.records) else Finish(r)
  }

  function Parse(s: string): Parsed {
    if BOM <= s then Finish(Read(Reading([], [], "", Start), s[|BOM|..])) else Malformed
  }

  function ParseOptionalBreak(s: string): Parsed {
    if BOM <= s then FinishOptionalBreak(Read(Reading([], [], "", Start), s[|BOM|..])) else Malformed
  }

  // ---- the reader undoes the printer ----

  lemma {:induction false} ReadConcat(r: Reader, a: string, b: string)
    ensures Read(r, a + b) == Read(Read(r, a), b)
  {
    if b == "" {
      assert a + b == a;
    } else {
      ReadConcat(r, a, b[..|b| - 1]);
      assert (a + b)[..|a + b| - 1] == a + b[..|b| - 1];
    }
  }

  lemma ReadOne(r: Reader, c: char)
    ensures Read(r, [c]) == Step(r, c)
  {
    assert [c][..0] == "";
  }

  lemma {:induction false} ReadQuotedBody(r: Reader, s: string)
    requires r.Reading? && r.mode == Quoted
    ensures Read(r, DoubleQuotes(s)) == r.(field := r.field + s)
  {
    if s != "" {
      var front, last := s[..|s| - 1], s[|s| - 1];
      ReadQuotedBody(r, front);
      assert s == front + [last];
      ReadConcat(r, DoubleQuotes(front), if last == '"' then "\"\"" else [last]);
      QuotedStep(r.(field := r.field + front), last);
    }
  }

  lemma QuotedStep(r: Reader, c: char)
    requires r.Reading? && r.mode == Quoted
    ensures Read(r, if c == '"' then "\"\"" else [c]) == r.(field := r.field + [c])
  {
    if c == '"' {
      ReadTwo(r, c, c);
    } else {
      ReadOne(r, c);
    }
  }

  lemma {:induction false} ReadPlain(r: Reader, s: string)
    requires r.Reading? && r.mode == Start && r.field == ""
    requires forall i | 0 <= i < |s| :: !IsSpecial(s[i])
    ensures Read(r, s) == r.(field := s, mode := if s == "" then Start else Plain)
  {
    if s != "" {
      ReadPlain(r, s[..|s| - 1]);
      assert s == s[..|s| - 1] + [s[|s| - 1]];
    }
  }

  /** Reading one printed field: its text is recovered, and a field ending may follow. */
  lemma ReadField(r: Reader, s: string)
    requires r.Reading? && r.mode == Start && r.field == ""
    ensures var after := Read(r, Quote(s));
            && after.Reading? && after == r.(field := s, mode := after.mode)
            && after.mode != Quoted && after.mode != Return
            && (after.mode == Start <==> s == "")
  {
    if exists i | 0 <= i < |s| :: IsSpecial(s[i]) {
      ReadQuoted(r, s);
    } else {
      ReadPlain(r, s);
    }
  }

  lemma ReadQuoted(r: Reader, s: string)
    requires r.Reading? && r.mode == Start && r.field == ""
    ensures Read(r, "\"" + DoubleQuotes(s) + "\"") == r.(field := s, mode := Closing)
  {
    var inside := r.(mode := Quoted);
    var body := DoubleQuotes(s);
    ReadConcat(r, "\"" + body, "\"");
    ReadConcat(r, "\"", body);
    ReadOne(r, '"');
    ReadQuotedBody(inside, s);
    assert "" + s == s;
    ReadOne(inside.(field := s), '"');
  }

  /** The cells of a row as text. A row without cells prints as an empty line, which reads as one empty cell. */
  function Texts(cells: seq<Cell>): (t: seq<string>)
    ensures t != []
  {
    if cells == [] then [""] else seq(|cells|, i requires 0 <= i < |cells| => Shown(cells[i]))
  }

  /** Standing on the last field of a record. */
  ghost predicate AtEndOf(r: Reader, records: seq<seq<string>>, texts: seq<string>) {
    && texts != []
    && r.Reading? && r.records == records
    && r.record == texts[..|texts| - 1] && r.field == texts[|texts| - 1]
    && r.mode != Quoted && r.mode != Return
    && (r.mode == Start <==> r.field == "")
  }

  lemma EndRecordAt(r: Reader, records: seq<seq<string>>, texts: seq<string>)
    requires AtEndOf(r, records, texts)
    ensures EndRecord(r) == Reading(records + [texts], [], "", Start)
  {
    assert texts == texts[..|texts| - 1] + [texts[|texts| - 1]];
  }

  /** A row of two or more cells is its front, a comma and its last cell. */
  lemma RowSplit(cells: seq<Cell>)
    requires |cells| > 1
    ensures PrintRow(cells) == PrintRow(cells[..|cells| - 1]) + "," + Quote(Shown(cells[|cells| - 1]))
  {
    var front := cells[..|cells| - 1];
    assert QuoteAll(cells)[..|cells| - 1] == QuoteAll(front);
  }

  lemma TextsSplit(cells: seq<Cell>)
    requires |cells| > 1
    ensures Texts(cells) == Texts(cells[..|cells| - 1]) + [Shown(cells[|cells| - 1])]
  {
  }

  lemma {:induction false} ReadRow(records: seq<seq<string>>, cells: seq<Cell>)
    ensures AtEndOf(Read(Reading(records, [], "", Start), PrintRow(cells)), records, Texts(cells))
  {
    var r := Reading(records, [], "", Start);
    if |cells| == 1 {
      ReadField(r, Shown(cells[0]));
    } else if |cells| > 1 {
      var front, last := cells[..|cells| - 1], Shown(cells[|cells| - 1]);
      RowSplit(cells);
      TextsSplit(cells);
      ReadRow(records, front);
      var mid := Read(r, PrintRow(front));
      ReadConcat(r, PrintRow(front) + ",", Quote(last));
      ReadConcat(r, PrintRow(front), ",");
      ReadOne(mid, ',');
      NextField(mid, records, Texts(front));
      ReadField(Reading(records, Texts(front), "", Start), last);
    }
  }

  lemma NextField(r: Reader, records: seq<seq<string>>, texts: seq<string>)
    requires AtEndOf(r, records, texts)
    ensures Step(r, ',') == Reading(records, texts, "", Start)
  {
    assert texts == texts[..|texts| - 1] + [texts[|texts| - 1]];
  }

  function Grids(rows: seq<seq<Cell>>): (g: seq<seq<string>>)
    ensures |g| == |rows|
  {
    seq(|rows|, i requires 0 <= i < |rows| => Texts(rows[i]))
  }

  lemma GridsSplit(rows: seq<seq<Cell>>)
    requires rows != []
    ensures Grids(rows) == Grids(rows[..|rows| - 1]) + [Texts(rows[|rows| - 1])]
    ensures PrintRows(rows) == PrintRows(rows[..|rows| - 1]) + [PrintRow(rows[|rows| - 1])]
  {
  }

  /** Standing on the last field of the last of `rows`. */
  ghost predicate AtEndOfRows(r: Reader, rows: seq<seq<Cell>>) {
    rows != [] && AtEndOf(r, Grids(rows[..|rows| - 1]), Texts(rows[|rows| - 1]))
  }

  lemma {:induction false} ReadRows(rows: seq<seq<Cell>>)
    requires rows != []
    ensures AtEndOfRows(Read(Reading([], [], "", Start), Join(PrintRows(rows), CRLF)), rows)
  {
    var r := Reading([], [], "", Start);
    var front, last := rows[..|rows| - 1], rows[|rows| - 1];
    GridsSplit(rows);
    if front == [] {
      ReadRow([], last);
    } else {
      ReadRows(front);
      var before := Join(PrintRows(front), CRLF);
      var mid := Read(r, before);
      GridsSplit(front);
      EndRecordAt(mid, Grids(front[..|front| - 1]), Texts(front[|front| - 1]));
      JoinSplit(PrintRows(front), PrintRow(last), CRLF);
      ReadConcat(r, before + CRLF, PrintRow(last));
      ReadConcat(r, before, CRLF);
      ReadBreak(mid);
      ReadRow(Grids(front), last);
    }
  }

  lemma JoinSplit(parts: seq<string>, last: string, separator: string)
    requires parts != []
    ensures Join(parts + [last], separator) == Join(parts, separator) + separator + last
  {
    assert (parts + [last])[..|parts|] == parts;
  }

  lemma ReadBreak(r: Reader)
    requires r.Reading? && r.mode != Quoted && r.mode != Return
    ensures Read(r, CRLF) == EndRecord(r)
  {
    ReadTwo(r, '\r', '\n');
  }

  lemma ReadTwo(r: Reader, c: char, d: char)
    ensures Read(r, [c, d]) == Step(Step(r, c), d)
  {
    assert [c, d][..1] == [c];
    ReadOne(r, c);
  }

  /** Reading a printed file gives back the grid, cell by cell, whatever the cells contain. */
  lemma RoundTrip(headers: seq<string>, rows: seq<seq<Cell>>)
    ensures Parse(Print(headers, rows)) == Grid(Grids([HeaderRow(headers)] + rows))
  {
    var all := [HeaderRow(headers)] + rows;
    ReadRows(all);
    assert Print(headers, rows)[|BOM|..] == Join(PrintRows(all), CRLF);
    GridsSplit(all);
    EndRecordAt(ReaderAfter(headers, rows), Grids(all[..|rows|]), Texts(all[|rows|]));
  }

  /** The reader's state at the end of a printed file. */
  function ReaderAfter(headers: seq<string>, rows: seq<seq<Cell>>): Reader {
    Read(Reading([], [], "", Start), Join(PrintRows([HeaderRow(headers)] + rows), CRLF))
  }

  /**
   A reader that takes a final line break as optional reads the same grid exactly when the last of
   two or more records is not a lone empty cell; otherwise it loses that record.
   */
  lemma OptionalBreakRoundTrip(headers: seq<string>, rows: seq<seq<Cell>>)
    ensures var g := Grids([HeaderRow(headers)] + rows);
            && (ParseOptionalBreak(Print(headers, rows)) == Grid(g)
                <==> !(rows != [] && g[|rows|] == [""]))
            && (rows != [] && g[|rows|] == [""] ==> ParseOptionalBreak(Print(headers, rows)) == Grid(g[..|rows|]))
  {
    RoundTrip(headers, rows);
    var all := [HeaderRow(headers)] + rows;
    ReadRows(all);
    assert Print(headers, rows)[|BOM|..] == Join(PrintRows(all), CRLF);
    GridsSplit(all);
    LoneEmptyCell(ReaderAfter(headers, rows), Grids(all[..|rows|]), Texts(all[|rows|]));
    assert Grids(all)[..|rows|] == Grids(all[..|rows|]);
  }

  lemma LoneEmptyCell(r: Reader, records: seq<seq<string>>, texts: seq<string>)
    requires AtEndOf(r, records, texts)
    ensures r.mode == Start && r.record == [] <==> texts == [""]
  {
    assert texts == texts[..|texts| - 1] + [texts[|texts| - 1]];
  }

  // ---- what the cells say ----

  lemma {:induction false} NatTextIsPlain(n: nat)
    ensures NatText(n) != "" && forall i | 0 <= i < |NatText(n)| :: '0' <= NatText(n)[i] <= '9'
  {
    if n >= 10 {
      NatTextIsPlain(n / 10);
    }
  }

  function ReadNat(s: string): int {
    if s == "" then 0 else ReadNat(s[..|s| - 1]) * 10 + (s[|s| - 1] as int - '0' as int)
  }

  function ReadInt(s: string): int {
    if s != "" && s[0] == '-' then -ReadNat(s[1..]) else ReadNat(s)
  }

  lemma {:induction false} NatReadsBack(n: nat)
    ensures ReadNat(NatText(n)) == n
  {
    if n < 10 {
      assert NatText(n)[..0] == "";
    } else {
      NatReadsBack(n / 10);
      assert NatText(n)[..|NatText(n)| - 1] == NatText(n / 10);
    }
  }

  /** The decimal text of a number cell means that number. */
  lemma NumberReadsBack(n: int)
    ensures ReadInt(Shown(Number(n))) == n
  {
    var m := if n < 0 then -n else n;
    NatReadsBack(m);
    NatTextIsPlain(m);
    assert n < 0 ==> IntText(n)[1..] == NatText(m);
  }

  /** What may become of a cell between caller and spreadsheet. */
  ghost predicate ReadsAs(cell: Cell, text: string) {
    match cell
    case Missing => text == ""
    case Raw(s) => text == s
    case Number(n) => ReadInt(text) == n
    case Text(s) => (text == s || text == "'" + s) && (text == "" || !IsFormulaTrigger(text[0]))
  }

  /** Free text is changed exactly if it starts with a formula trigger, and quoted exactly if it holds a special character. */
  lemma TextExactly(s: string)
    ensures Shown(Text(s)) == if s != "" && s[0] in {'=', '+', '-', '@', '\t', '\r'} then "'" + s else s
    ensures Quote(s) == s <==> forall c | c in s :: c !in {'"', ',', '\n', '\r', '\t'}
  {
    if exists i | 0 <= i < |s| :: IsSpecial(s[i]) {
      var i :| 0 <= i < |s| && IsSpecial(s[i]);
      assert s[i] in s;
      QuotingLengthens(s);
    }
  }

  lemma {:induction false} QuotingLengthens(s: string)
    ensures |DoubleQuotes(s)| >= |s|
  {
    if s != "" {
      QuotingLengthens(s[..|s| - 1]);
    }
  }

  /**
   Cell by cell, a printed file read back holds numbers as numbers and raw cells as they were, and no
   free text, headers included, comes back as something a spreadsheet would run as a formula.
   */
  lemma CellsReadBack(headers: seq<string>, rows: seq<seq<Cell>>, i: nat, j: nat)
    requires i <= |rows|
    requires j < if i == 0 then |headers| else |rows[i - 1]|
    ensures var parsed := Parse(Print(headers, rows));
            && parsed.Grid? && |parsed.records| == |rows| + 1
            && |parsed.records[i]| == (if i == 0 then |headers| else |rows[i - 1]|)
            && ReadsAs(if i == 0 then Text(headers[j]) else rows[i - 1][j], parsed.records[i][j])
  {
    RoundTrip(headers, rows);
    var cell := if i == 0 then Text(headers[j]) else rows[i - 1][j];
    if cell.Number? {
      NumberReadsBack(cell.value);
    }
  }
}
