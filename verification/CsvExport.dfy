/**
 The CSV printer of the user export, and a reader for the quoting rules of section 2 of RFC 4180
 with `;` as separator. The reader knows nothing of the printer: it also accepts unquoted fields.
 */
module CsvExport {
  import opened Prelude
  import opened Text

  const BOM := '\U{FEFF}'
  const QUOTE := '"'
  const SEPARATOR := ';'
  const CRLF: string := ['\r', '\n']

  predicate IsBreak(c: char) {
    c == '\r' || c == '\n' || c == '\t'
  }

  predicate StartsFormula(s: string) {
    s != "" && (s[0] == '=' || s[0] == '+' || s[0] == '-' || s[0] == '@')
  }

  // ----- printer

  /** Every maximal run of CR, LF and TAB becomes one space. */
  function Flatten(s: string): string {
    if s == "" then ""
    else if !IsBreak(s[0]) then [s[0]] + Flatten(s[1..])
    else if |s| > 1 && IsBreak(s[1]) then Flatten(s[1..])
    else " " + Flatten(s[1..])
  }

  /** The text a cell carries. */
  function Clean(s: string): string {
    var text := Trim(Flatten(s));
    if StartsFormula(text) then "'" + text else text
  }

  function Doubled(s: string): string {
    if s == "" then "" else (if s[0] == QUOTE then [QUOTE, QUOTE] else [s[0]]) + Doubled(s[1..])
  }

  function Cell(s: string): string {
    [QUOTE] + Doubled(Clean(s)) + [QUOTE]
  }

  function Record(cells: seq<string>): string
    requires cells != []
  {
    if |cells| == 1 then Cell(cells[0]) else Cell(cells[0]) + ([SEPARATOR] + Record(cells[1..]))
  }

  predicate NoEmptyRow(rows: seq<seq<string>>) {
    forall i :: 0 <= i < |rows| ==> rows[i] != []
  }

  function Records(rows: seq<seq<string>>): string
    requires NoEmptyRow(rows)
  {
    if rows == [] then "" else Record(rows[0]) + (CRLF + Records(rows[1..]))
  }

  /** The exported text: a byte order mark, then each row ended by CR LF. */
  function Export(rows: seq<seq<string>>): string
    requires NoEmptyRow(rows)
  {
    [BOM] + Records(rows)
  }

  function CleanRow(cells: seq<string>): (r: seq<string>)
    ensures |r| == |cells| && forall i :: 0 <= i < |cells| ==> r[i] == Clean(cells[i])
  {
    seq(|cells|, i requires 0 <= i < |cells| => Clean(cells[i]))
  }

  function CleanRows(rows: seq<seq<string>>): (r: seq<seq<string>>)
    ensures |r| == |rows| && forall i :: 0 <= i < |rows| ==> r[i] == CleanRow(rows[i])
  {
    seq(|rows|, i requires 0 <= i < |rows| => CleanRow(rows[i]))
  }

  // ----- reader

  datatype Parsed<T> = Parsed(value: T, rest: string)

  /** The rest of a quoted field after its opening quote. */
  function ReadQuoted(s: string): (r: Option<Parsed<string>>)
    ensures r.Some? ==> |r.value.rest| < |s|
  {
    if s == "" then None
    else if s[0] == QUOTE then
      if |s| > 1 && s[1] == QUOTE then
        match ReadQuoted(s[2..])
        case None => None
        case Some(Parsed(text, rest)) => Some(Parsed([QUOTE] + text, rest))
      else Some(Parsed("", s[1..]))
    else
      match ReadQuoted(s[1..])
      case None => None
      case Some(Parsed(text, rest)) => Some(Parsed([s[0]] + text, rest))
  }

  predicate IsBare(c: char) {
    c != QUOTE && c != SEPARATOR && c != '\r' && c != '\n'
  }

  function ReadBare(s: string): (r: Parsed<string>)
    ensures |r.rest| <= |s|
  {
    if s == "" || !IsBare(s[0]) then Parsed("", s)
    else
      var r := ReadBare(s[1..]);
      Parsed([s[0]] + r.value, r.rest)
  }

  function ReadField(s: string): (r: Option<Parsed<string>>)
    ensures r.Some? ==> |r.value.rest| <= |s|
  {
    if s != "" && s[0] == QUOTE then ReadQuoted(s[1..]) else Some(ReadBare(s))
  }

  function ReadRecord(s: string): (r: Option<Parsed<seq<string>>>)
    ensures r.Some? ==> |r.value.rest| <= |s|
    decreases |s|
  {
    match ReadField(s)
    case None => None
    case Some(Parsed(field, rest)) =>
      if rest != "" && rest[0] == SEPARATOR then
        match ReadRecord(rest[1..])
        case None => None
        case Some(Parsed(fields, after)) => Some(Parsed([field] + fields, after))
      else Some(Parsed([field], rest))
  }

  /** Records separated by CR LF; the line break after the last record is optional. */
  function ReadRecords(s: string): Option<seq<seq<string>>>
    decreases |s|
  {
    if s == "" then Some([])
    else
      match ReadRecord(s)
      case None => None
      case Some(Parsed(record, rest)) =>
        if rest == "" then Some([record])
        else if |rest| >= 2 && rest[..2] == CRLF then
          match ReadRecords(rest[2..])
          case None => None
          case Some(records) => Some([record] + records)
        else None
  }

  function ReadFile(s: string): Option<seq<seq<string>>> {
    if s != "" && s[0] == BOM then ReadRecords(s[1..]) else ReadRecords(s)
  }

  // ----- round trip

  /** A quoted field reads back, whatever text it carries, unless a further quote follows it. */
  lemma {:induction false} ReadDoubled(text: string, rest: string)
    requires rest == "" || rest[0] != QUOTE
    ensures ReadQuoted(Doubled(text) + [QUOTE] + rest) == Some(Parsed(text, rest))
  {
    var s := Doubled(text) + [QUOTE] + rest;
    if text == "" {
      assert s == [QUOTE] + rest;
      assert s[1..] == rest;
    } else {
      var tail := Doubled(text[1..]) + [QUOTE] + rest;
      ReadDoubled(text[1..], rest);
      assert s == (if text[0] == QUOTE then [QUOTE, QUOTE] else [text[0]]) + tail;
      ReadOneMore(text[0], tail, Parsed(text[1..], rest));
      assert [text[0]] + text[1..] == text;
    }
  }

  lemma ReadOneMore(c: char, tail: string, parsed: Parsed<string>)
    requires ReadQuoted(tail) == Some(parsed)
    ensures ReadQuoted((if c == QUOTE then [QUOTE, QUOTE] else [c]) + tail) == Some(Parsed([c] + parsed.value, parsed.rest))
  {
    var s := (if c == QUOTE then [QUOTE, QUOTE] else [c]) + tail;
    assert s[if c == QUOTE then 2 else 1..] == tail;
  }

  lemma Regroup(a: string, b: string, c: string)
    ensures (a + b) + c == a + (b + c)
  {
  }

  lemma ReadCell(cell: string, rest: string)
    requires rest == "" || rest[0] != QUOTE
    ensures ReadField(Cell(cell) + rest) == Some(Parsed(Clean(cell), rest))
  {
    var body := Doubled(Clean(cell)) + [QUOTE];
    ReadDoubled(Clean(cell), rest);
    Regroup([QUOTE], body, rest);
    assert Cell(cell) == [QUOTE] + body;
    assert ([QUOTE] + (body + rest))[1..] == body + rest;
  }

  /** A printed cell followed by a separator is the first field of a record. */
  lemma ReadCellThenRecord(cell: string, tail: string)
    requires ReadRecord(tail).Some?
    ensures ReadRecord(Cell(cell) + ([SEPARATOR] + tail))
         == Some(Parsed([Clean(cell)] + ReadRecord(tail).value.value, ReadRecord(tail).value.rest))
  {
    ReadCell(cell, [SEPARATOR] + tail);
    assert ([SEPARATOR] + tail)[1..] == tail;
  }

  lemma CleanRowHead(cells: seq<string>)
    requires cells != []
    ensures CleanRow(cells) == [Clean(cells[0])] + CleanRow(cells[1..])
  {
  }

  lemma {:induction false} ReadPrintedRecord(cells: seq<string>, rest: string)
    requires cells != [] && (rest == "" || (rest[0] != QUOTE && rest[0] != SEPARATOR))
    ensures ReadRecord(Record(cells) + rest) == Some(Parsed(CleanRow(cells), rest))
  {
    CleanRowHead(cells);
    if |cells| == 1 {
      ReadCell(cells[0], rest);
      assert CleanRow(cells) == [Clean(cells[0])];
    } else {
      ReadPrintedRecord(cells[1..], rest);
      ReadCellThenRecord(cells[0], Record(cells[1..]) + rest);
      Regroup(Cell(cells[0]), [SEPARATOR] + Record(cells[1..]), rest);
      Regroup([SEPARATOR], Record(cells[1..]), rest);
    }
  }

  lemma ReadRecordThenRecords(record: string, cells: seq<string>, tail: string)
    requires record != "" && ReadRecord(record + (CRLF + tail)) == Some(Parsed(cells, CRLF + tail))
    requires ReadRecords(tail).Some?
    ensures ReadRecords(record + (CRLF + tail)) == Some([cells] + ReadRecords(tail).value)
  {
    var rest := CRLF + tail;
    assert rest[..2] == CRLF && rest[2..] == tail;
  }

  lemma {:induction false} ReadPrintedRecords(rows: seq<seq<string>>)
    requires NoEmptyRow(rows)
    ensures ReadRecords(Records(rows)) == Some(CleanRows(rows))
  {
    if rows == [] {
      assert CleanRows(rows) == [];
    } else {
      var tail := Records(rows[1..]);
      assert Records(rows) == Record(rows[0]) + (CRLF + tail);
      ReadPrintedRecord(rows[0], CRLF + tail);
      ReadPrintedRecords(rows[1..]);
      ReadRecordThenRecords(Record(rows[0]), CleanRow(rows[0]), tail);
      CleanRowsHead(rows);
    }
  }

  lemma CleanRowsHead(rows: seq<seq<string>>)
    requires rows != []
    ensures CleanRows(rows) == [CleanRow(rows[0])] + CleanRows(rows[1..])
  {
  }

  /** A reader recovers from the exported text exactly the matrix of cleaned cells. */
  lemma ExportRoundTrip(rows: seq<seq<string>>)
    requires NoEmptyRow(rows)
    ensures ReadFile(Export(rows)) == Some(CleanRows(rows))
  {
    ReadPrintedRecords(rows);
    assert Export(rows)[1..] == Records(rows);
  }

  // ----- cleaning

  predicate NoBreaks(s: string) {
    forall i :: 0 <= i < |s| ==> !IsBreak(s[i])
  }

  lemma {:induction false} FlattenHasNoBreaks(s: string)
    ensures NoBreaks(Flatten(s))
  {
    if s != "" {
      FlattenHasNoBreaks(s[1..]);
    }
  }

  lemma {:induction false} FlattenKeeps(s: string)
    requires NoBreaks(s)
    ensures Flatten(s) == s
  {
    if s != "" {
      FlattenKeeps(s[1..]);
    }
  }

  /** Wherever a run of breaks stands, one space takes its place; with `FlattenKeeps` this determines every result. */
  lemma {:induction false} FlattenRun(before: string, run: string, after: string)
    requires run != "" && forall i :: 0 <= i < |run| ==> IsBreak(run[i])
    requires before != "" ==> !IsBreak(before[|before| - 1])
    requires after != "" ==> !IsBreak(after[0])
    ensures Flatten(before + run + after) == Flatten(before) + " " + Flatten(after)
    decreases |before| + |run|
  {
    var s := before + run + after;
    if before != "" {
      FlattenOneMore(before, run + after);
      assert s == before + (run + after);
      if |before| > 1 || !IsBreak(before[0]) {
        FlattenRun(before[1..], run, after);
        assert before[1..] + (run + after) == before[1..] + run + after;
      }
    } else if |run| > 1 {
      FlattenRun("", run[1..], after);
      assert s[0] == run[0] && s[1] == run[1] && s[1..] == "" + run[1..] + after;
    } else {
      assert s[0] == run[0] && s[1..] == after;
      assert |s| > 1 ==> s[1] == after[0];
    }
  }

  /** The first character is dealt with by itself, but for the question whether a break follows. */
  lemma FlattenOneMore(before: string, rest: string)
    requires before != "" && !IsBreak(before[|before| - 1])
    ensures var head := if !IsBreak(before[0]) then [before[0]] else if IsBreak(before[1]) then "" else " ";
            && Flatten(before + rest) == head + Flatten(before[1..] + rest)
            && Flatten(before) == head + Flatten(before[1..])
  {
    assert (before + rest)[1..] == before[1..] + rest;
  }

  /** A cell without breaks or outer white space is exported as it is, with an apostrophe in front of a formula. */
  lemma PlainCellsSurvive(s: string)
    requires NoBreaks(s) && Trimmed(s)
    ensures Clean(s) == if s != "" && s[0] in {'=', '+', '-', '@'} then ['\''] + s else s
  {
    FlattenKeeps(s);
    TrimOfTrimmed(s);
  }

  lemma TrimHasNoBreaks(s: string)
    requires NoBreaks(s)
    ensures NoBreaks(Trim(s)) && Trimmed(Trim(s))
  {
    TrimIsTrimmed(s);
  }

  /** No cell carries CR, LF or TAB, starts or ends with white space, or starts like a formula. */
  lemma CleanedCell(s: string)
    ensures NoBreaks(Clean(s)) && Trimmed(Clean(s)) && !StartsFormula(Clean(s))
  {
    FlattenHasNoBreaks(s);
    TrimHasNoBreaks(Flatten(s));
    GuardedCell(Trim(Flatten(s)));
  }

  lemma GuardedCell(text: string)
    requires NoBreaks(text) && Trimmed(text)
    ensures var guarded := if StartsFormula(text) then "'" + text else text;
            NoBreaks(guarded) && Trimmed(guarded) && !StartsFormula(guarded)
  {
    if StartsFormula(text) {
      var guarded := "'" + text;
      assert guarded[0] == '\'' && forall i :: 0 < i < |guarded| ==> guarded[i] == text[i - 1];
    }
  }

  /** Cleaning twice is cleaning once. */
  lemma CleanIsIdempotent(s: string)
    ensures Clean(Clean(s)) == Clean(s)
  {
    CleanedCell(s);
    FlattenKeeps(Clean(s));
    TrimOfTrimmed(Clean(s));
  }

  /** So exporting what a reader recovered changes nothing: it reads back as itself. */
  lemma ExportIsStable(rows: seq<seq<string>>)
    requires NoEmptyRow(rows)
    ensures NoEmptyRow(CleanRows(rows))
    ensures ReadFile(Export(CleanRows(rows))) == Some(CleanRows(rows))
  {
    var clean := CleanRows(rows);
    ExportRoundTrip(clean);
    forall i | 0 <= i < |rows| ensures CleanRow(clean[i]) == clean[i] {
      forall j | 0 <= j < |rows[i]| ensures Clean(clean[i][j]) == clean[i][j] {
        CleanIsIdempotent(rows[i][j]);
      }
    }
    assert CleanRows(clean) == clean;
  }
}
