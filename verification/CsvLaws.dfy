/**
 * Rows written out and read back: which separator is guessed, what is read
 * when that is the one they were written with, and that a wrong guess never
 * gives the rows the printer wrote.
 */
module CsvLaws {
  import opened Basics
  import opened Text
  import opened Csv
  import opened CsvFiles

  // ----- The separator a text is read with ------------------------------------------------

  function Count(v: string, c: char): nat { multiset(v)[c] }

  /** An even number of quotes stands before `k`. */
  predicate Unquoted(text: string, k: nat)
    requires k <= |text|
  {
    Count(text[..k], '"') % 2 == 0
  }

  predicate LineBreak(c: char) { c == '\r' || c == '\n' }

  /** No line break before `k` stands outside quotes. */
  predicate OnFirstLine(text: string, k: nat)
    requires k <= |text|
  {
    forall j :: 0 <= j < k && LineBreak(text[j]) ==> !Unquoted(text, j)
  }

  /** Where `c` stands in the header row, outside quotes, from `i` on. */
  ghost function Places(text: string, i: nat, c: char): set<nat> {
    set k: nat | i <= k < |text| && text[k] == c && Unquoted(text, k) && OnFirstLine(text, k)
  }

  lemma NextUnquoted(text: string, i: nat)
    requires i < |text|
    ensures Unquoted(text, i + 1) <==> Unquoted(text, i) == (text[i] != '"')
  {
    assert text[..i + 1] == text[..i] + [text[i]];
  }

  lemma NextPlaces(text: string, i: nat, c: char)
    requires i < |text|
    ensures |Places(text, i, c)|
      == (if text[i] == c && Unquoted(text, i) && OnFirstLine(text, i) then 1 else 0) + |Places(text, i + 1, c)|
  {
    var next: set<nat> := if text[i] == c && Unquoted(text, i) && OnFirstLine(text, i) then {i} else {};
    var rest := Places(text, i + 1, c);
    assert Places(text, i, c) == next + rest;
    assert next !! rest;
  }

  lemma LastPlaces(text: string, i: nat, c: char)
    requires i < |text| && Unquoted(text, i) && LineBreak(text[i]) && IsSeparator(c)
    ensures Places(text, i, c) == {}
  {
    if k :| k in Places(text, i, c) { assert OnFirstLine(text, k); }
  }

  lemma {:induction false} CountsFrom(text: string, i: nat, inQuotes: bool, c: char)
    requires i <= |text| && IsSeparator(c) && inQuotes == !Unquoted(text, i) && OnFirstLine(text, i)
    ensures HeaderCount(text, i, inQuotes, c) == |Places(text, i, c)|
    decreases |text| - i
  {
    if i == |text| {
      assert Places(text, i, c) == {};
    } else if !inQuotes && LineBreak(text[i]) {
      LastPlaces(text, i, c);
    } else {
      NextPlaces(text, i, c);
      NextUnquoted(text, i);
      CountsFrom(text, i + 1, if text[i] == '"' then !inQuotes else inQuotes, c);
    }
  }

  /** The guess counts the places in the header row that have an even number of quotes before them. */
  lemma CountsPlaces(text: string, c: char)
    requires IsSeparator(c)
    ensures HeaderCount(text, 0, false, c) == |Places(text, 0, c)|
  {
    assert Count(text[..0], '"') == 0;
    CountsFrom(text, 0, false, c);
  }

  /** What the guess can see of a field: the text outside quotes. */
  function Outside(f: Field): string {
    match f
    case Bare(text) => text
    case Quoted(_, rest) => rest
  }

  function OutsideCount(fields: seq<Field>, c: char): nat {
    if fields == [] then 0 else Count(Outside(fields[0]), c) + OutsideCount(fields[1..], c)
  }

  /** No stray quotes outside quotes. */
  predicate PlainFields(fields: seq<Field>) { forall f <- fields :: '"' !in Outside(f) }

  lemma {:induction false} CountText(text: string, i: nat, v: string, c: char)
    requires At(text, i, v)
    requires '"' !in v && '\r' !in v && '\n' !in v
    ensures HeaderCount(text, i, false, c) == Count(v, c) + HeaderCount(text, i + |v|, false, c)
    decreases |v|
  {
    if v != "" {
      assert v[0] in v && text[i] == v[0];
      AtParts(text, i, v[..1], v[1..]);
      CountText(text, i + 1, v[1..], c);
      assert v == [v[0]] + v[1..];
    }
  }

  lemma {:induction false} CountBody(text: string, i: nat, v: string, c: char)
    requires At(text, i, Escape(v) + "\"")
    ensures HeaderCount(text, i, true, c) == HeaderCount(text, i + |Escape(v)| + 1, false, c)
    decreases |v|
  {
    if v == "" {
      assert text[i] == (Escape(v) + "\"")[0];
    } else {
      var first := Escaped(v[0]);
      assert Escape(v) + "\"" == first + (Escape(v[1..]) + "\"");
      AtParts(text, i, first, Escape(v[1..]) + "\"");
      assert text[i] == first[0];
      if v[0] == '"' { assert text[i + 1] == first[1]; }
      CountBody(text, i + |first|, v[1..], c);
    }
  }

  lemma CountField(text: string, i: nat, f: Field, separator: char, c: char)
    requires At(text, i, Written(f)) && FieldOk(f, separator) && '"' !in Outside(f)
    ensures HeaderCount(text, i, false, c) == Count(Outside(f), c) + HeaderCount(text, i + |Written(f)|, false, c)
  {
    match f {
      case Bare(v) => CountText(text, i, v, c);
      case Quoted(body, rest) =>
        var quoted := Escape(body) + "\"";
        Associative(Escape(body), "\"", rest);
        AtParts(text, i, "\"", quoted + rest);
        AtParts(text, i + 1, quoted, rest);
        assert text[i] == "\""[0];
        CountBody(text, i + 1, body, c);
        CountText(text, i + 1 + |quoted|, rest, c);
    }
  }

  /** A field that a separator follows, at `k`. */
  lemma CountFieldThen(text: string, i: nat, f: Field, k: nat, separator: char, c: char)
    requires At(text, i, Written(f)) && k == i + |Written(f)| < |text| && text[k] == separator
    requires FieldOk(f, separator) && '"' !in Outside(f) && IsSeparator(separator)
    ensures HeaderCount(text, i, false, c)
      == Count(Outside(f), c) + (if c == separator then 1 else 0) + HeaderCount(text, k + 1, false, c)
  {
    CountField(text, i, f, separator, c);
  }

  lemma {:induction false} CountFields(text: string, i: nat, fields: seq<Field>, separator: char, c: char, end: nat)
    requires FieldsStand(text, i, fields, separator, end)
    requires FieldsOk(fields, separator) && PlainFields(fields) && IsSeparator(separator)
    ensures HeaderCount(text, i, false, c)
      == OutsideCount(fields, c) + (if c == separator then |fields| - 1 else 0) + HeaderCount(text, end, false, c)
    decreases |fields|
  {
    var f, rest := fields[0], fields[1..];
    var k := FirstStands(text, i, fields, separator, end);
    assert '"' !in Outside(f) && PlainFields(rest);
    if |fields| == 1 {
      CountField(text, i, f, separator, c);
      assert OutsideCount(rest, c) == 0;
    } else {
      CountFieldThen(text, i, f, k, separator, c);
      CountFields(text, k + 1, rest, separator, c, end);
    }
  }

  /** The fields of a file's first line. */
  function Header(file: File): seq<Field> {
    if file.rows != [] then file.rows[0].fields else if file.Closed? then file.last else []
  }

  predicate PlainHeader(file: File) { file.Closed? && Header(file) != [] && PlainFields(Header(file)) }

  /** A line is counted up to its ending, or the end of the file. */
  lemma CountLine(text: string, fields: seq<Field>, separator: char, c: char, end: nat)
    requires At(text, 0, WrittenFields(fields, separator)) && end == |WrittenFields(fields, separator)|
    requires FieldsOk(fields, separator) && PlainFields(fields) && IsSeparator(separator)
    requires end < |text| ==> text[end] == '\r' || text[end] == '\n'
    ensures HeaderCount(text, 0, false, c) == OutsideCount(fields, c) + if c == separator then |fields| - 1 else 0
  {
    FieldsAt(text, 0, fields, separator);
    CountFields(text, 0, fields, separator, c, end);
  }

  /** The first line of a file stands at its start, up to its ending. */
  lemma HeaderStands(file: File, separator: char)
    requires FileOk(file, separator) && PlainHeader(file)
    ensures var text, line := Content(file, separator), WrittenFields(Header(file), separator);
      At(text, 0, line) && (|line| < |text| ==> text[|line|] == '\r' || text[|line|] == '\n')
  {
    if file.rows != [] {
      var tail := Tail(file, separator);
      var ending, rest := file.rows[0].ending, WrittenRows(file.rows[1..], separator) + tail;
      RowsSplit(file.rows, separator, tail);
      AtParts(Content(file, separator), 0, WrittenFields(Header(file), separator), ending + rest);
      assert (ending + rest)[0] == ending[0];
    }
  }

  /** What the guess counts is what stands in the first line. */
  lemma HeaderCounts(file: File, separator: char, c: char)
    requires FileOk(file, separator) && PlainHeader(file) && IsSeparator(separator)
    ensures HeaderCount(Content(file, separator), 0, false, c)
      == OutsideCount(Header(file), c) + if c == separator then |Header(file)| - 1 else 0
  {
    HeaderStands(file, separator);
    CountLine(Content(file, separator), Header(file), separator, c, |WrittenFields(Header(file), separator)|);
  }

  /** The first line holds fewer of any other separator than its own, or as many of one that gives way to it. */
  predicate OwnSeparator(fields: seq<Field>, separator: char) {
    forall d :: IsSeparator(d) && d != separator ==>
      OutsideCount(fields, d) < |fields| - 1 || (OutsideCount(fields, d) == |fields| - 1 && Before(separator, d))
  }

  lemma {:induction false} NoneOutside(fields: seq<Field>, separator: char)
    requires forall f <- fields :: FieldOk(f, separator)
    ensures OutsideCount(fields, separator) == 0
  {
    if fields != [] {
      assert FieldOk(fields[0], separator);
      NoneOutside(fields[1..], separator);
    }
  }

  /** The guess, by what was counted. */
  lemma GuessIs(text: string, commas: nat, semicolons: nat, tabs: nat)
    requires commas == HeaderCount(text, 0, false, ',') && semicolons == HeaderCount(text, 0, false, ';')
    requires tabs == HeaderCount(text, 0, false, '\t')
    ensures Separator(text)
      == if tabs > commas && tabs > semicolons then '\t' else if semicolons > commas then ';' else ','
  {
  }

  lemma OwnIs(fields: seq<Field>, separator: char)
    requires IsSeparator(separator)
    ensures var n, commas, semicolons, tabs :=
        |fields| - 1, OutsideCount(fields, ','), OutsideCount(fields, ';'), OutsideCount(fields, '\t');
      OwnSeparator(fields, separator) <==>
        if separator == ',' then semicolons <= n && tabs <= n
        else if separator == ';' then commas < n && tabs <= n
        else commas < n && semicolons < n
  {
    if OwnSeparator(fields, separator) { assert IsSeparator(',') && IsSeparator(';') && IsSeparator('\t'); }
  }

  lemma OwnGuess(text: string, fields: seq<Field>, separator: char, commas: nat, semicolons: nat, tabs: nat)
    requires IsSeparator(separator) && fields != [] && OutsideCount(fields, separator) == 0
    requires commas == HeaderCount(text, 0, false, ',') && semicolons == HeaderCount(text, 0, false, ';')
    requires tabs == HeaderCount(text, 0, false, '\t')
    requires commas == OutsideCount(fields, ',') + if separator == ',' then |fields| - 1 else 0
    requires semicolons == OutsideCount(fields, ';') + if separator == ';' then |fields| - 1 else 0
    requires tabs == OutsideCount(fields, '\t') + if separator == '\t' then |fields| - 1 else 0
    ensures Separator(text) == separator <==> OwnSeparator(fields, separator)
  {
    GuessIs(text, commas, semicolons, tabs);
    OwnIs(fields, separator);
  }

  /** The separator a file is written with is guessed exactly when its first line says so. */
  lemma GuessesOwn(file: File, separator: char)
    requires FileOk(file, separator) && PlainHeader(file) && IsSeparator(separator)
    ensures Separator(Content(file, separator)) == separator <==> OwnSeparator(Header(file), separator)
  {
    var text, fields := Content(file, separator), Header(file);
    assert FieldsOk(fields, separator);
    NoneOutside(fields, separator);
    HeaderCounts(file, separator, ',');
    HeaderCounts(file, separator, ';');
    HeaderCounts(file, separator, '\t');
    OwnGuess(text, fields, separator, HeaderCount(text, 0, false, ','), HeaderCount(text, 0, false, ';'),
      HeaderCount(text, 0, false, '\t'));
  }

  // ----- Rows written plainly -----------------------------------------------------------------

  /** What has to be quoted in a file with this separator. */
  predicate NeedsQuoting(v: string, separator: char) {
    '"' in v || separator in v || '\r' in v || '\n' in v || !Trimmed(v)
  }

  function FieldFor(v: string, separator: char): Field { if NeedsQuoting(v, separator) then Quoted(v, "") else Bare(v) }

  /** What a row reads back as: an empty row is a blank line. */
  function Shown(row: seq<string>): seq<string> {
    if row == [] then [""] else row
  }

  function FieldsFor(row: seq<string>, separator: char): seq<Field> {
    Map((v: string) => FieldFor(v, separator), Shown(row))
  }

  function RowsFor(rows: seq<seq<string>>, separator: char, ending: string): seq<FileRow> {
    Map((row: seq<string>) => FileRow(FieldsFor(row, separator), ending), rows)
  }

  /** The rows as a file: with this separator and line ending, the last line ended or not. */
  function FileFor(rows: seq<seq<string>>, separator: char, ending: string, ended: bool): File {
    if ended || rows == [] then Closed(RowsFor(rows, separator, ending), [])
    else
      var n := |rows| - 1;
      var last := if Shown(rows[n]) == [""] then [] else FieldsFor(rows[n], separator);
      Closed(RowsFor(rows[..n], separator, ending), last)
  }

  lemma FieldForOk(v: string, separator: char)
    ensures var f := FieldFor(v, separator); FieldOk(f, separator) && Value(f) == v && '"' !in Outside(f)
  {
    assert v + "" == v;
  }

  lemma FieldsForOk(row: seq<string>, separator: char)
    ensures var fields := FieldsFor(row, separator);
      FieldsOk(fields, separator) && PlainFields(fields) && Values(fields) == Shown(row)
  {
    var fields, shown := FieldsFor(row, separator), Shown(row);
    forall i | 0 <= i < |fields|
      ensures FieldOk(fields[i], separator) && '"' !in Outside(fields[i]) && Value(fields[i]) == shown[i]
    {
      FieldForOk(shown[i], separator);
    }
    assert Values(fields) == shown;
  }

  /** A line starts with its first value, a quote, or what follows an empty value: never with a line feed. */
  lemma LineStarts(row: seq<string>, separator: char)
    requires IsSeparator(separator)
    ensures var line := WrittenFields(FieldsFor(row, separator), separator);
      line != "" ==> line[0] != '\n' && line[0] != BOM
  {
    var fields := FieldsFor(row, separator);
    FieldForStarts(Shown(row)[0], separator);
    assert fields[0] == FieldFor(Shown(row)[0], separator);
  }

  lemma FieldForStarts(v: string, separator: char)
    ensures var written := Written(FieldFor(v, separator)); written != "" ==> written[0] != '\n' && written[0] != BOM
  {
    if !NeedsQuoting(v, separator) && v != "" { assert v[0] in v; }
  }

  /** Text that can stand behind a record with this ending, or at the start of a file. */
  predicate StartsWell(text: string, ending: string) {
    text != "" ==> text[0] != BOM && (text[0] == '\n' ==> ending == "\n")
  }

  lemma {:induction false} RowsForOk(rows: seq<seq<string>>, separator: char, ending: string, after: string)
    requires IsSeparator(separator) && IsEnding(ending) && StartsWell(after, ending)
    ensures RowsBefore(RowsFor(rows, separator, ending), separator, after)
    ensures StartsWell(WrittenRows(RowsFor(rows, separator, ending), separator) + after, ending)
  {
    var written := RowsFor(rows, separator, ending);
    if rows == [] {
      assert WrittenRows(written, separator) + after == after;
    } else {
      assert written[1..] == RowsFor(rows[1..], separator, ending);
      RowsForOk(rows[1..], separator, ending, after);
      FieldsForOk(rows[0], separator);
      LineStarts(rows[0], separator);
      RowsSplit(written, separator, after);
    }
  }

  lemma RowsForValues(rows: seq<seq<string>>, separator: char, ending: string)
    ensures Map(RowValues, RowsFor(rows, separator, ending)) == Map(Shown, rows)
  {
    var written := RowsFor(rows, separator, ending);
    forall i | 0 <= i < |rows| ensures RowValues(written[i]) == Shown(rows[i]) { FieldsForOk(rows[i], separator); }
    assert Map(RowValues, written) == Map(Shown, rows);
  }

  /** What is read of the rows: all of them, but for a last blank one that is not ended. */
  function ReadOf(rows: seq<seq<string>>, ended: bool): seq<seq<string>> {
    if rows != [] && !ended && Shown(rows[|rows| - 1]) == [""] then Map(Shown, rows[..|rows| - 1]) else Map(Shown, rows)
  }

  lemma FileForOk(rows: seq<seq<string>>, separator: char, ending: string, ended: bool)
    requires IsSeparator(separator) && IsEnding(ending)
    ensures var file := FileFor(rows, separator, ending, ended);
      && FileOk(file, separator) && Meaning(file) == Records(ReadOf(rows, ended))
      && StartsWell(Content(file, separator), ending)
  {
    if ended || rows == [] {
      RowsForOk(rows, separator, ending, "");
      RowsForValues(rows, separator, ending);
      assert Map(Shown, rows) + [] == Map(Shown, rows);
    } else {
      UnendedOk(rows, separator, ending);
      UnendedMeaning(rows, separator, ending);
    }
  }

  lemma UnendedOk(rows: seq<seq<string>>, separator: char, ending: string)
    requires rows != [] && IsSeparator(separator) && IsEnding(ending)
    ensures var file := FileFor(rows, separator, ending, false);
      FileOk(file, separator) && StartsWell(Content(file, separator), ending)
  {
    var n := |rows| - 1;
    FieldsForOk(rows[n], separator);
    LineStarts(rows[n], separator);
    RowsForOk(rows[..n], separator, ending, Tail(FileFor(rows, separator, ending, false), separator));
    assert Values([Bare("")]) == [""];
  }

  lemma UnendedMeaning(rows: seq<seq<string>>, separator: char, ending: string)
    requires rows != []
    ensures Meaning(FileFor(rows, separator, ending, false)) == Records(ReadOf(rows, false))
  {
    var n := |rows| - 1;
    var before := Map(Shown, rows[..n]);
    FieldsForOk(rows[n], separator);
    RowsForValues(rows[..n], separator, ending);
    assert before + [] == before;
    assert Map(Shown, rows) == before + [Shown(rows[n])];
  }

  /**
   * Rows written with a comma, semicolon or tab, with any of the three line
   * endings and with or without the last one, are read as they are when that
   * separator is guessed; a byte order mark in front changes nothing.
   */
  lemma ReadsRows(rows: seq<seq<string>>, separator: char, ending: string, ended: bool)
    requires IsSeparator(separator) && IsEnding(ending)
    requires Separator(Content(FileFor(rows, separator, ending, ended), separator)) == separator
    ensures var text := Content(FileFor(rows, separator, ending, ended), separator);
      Parse(text) == Records(ReadOf(rows, ended)) == Parse([BOM] + text)
  {
    var file := FileFor(rows, separator, ending, ended);
    FileForOk(rows, separator, ending, ended);
    ReadsAsWritten(Content(file, separator), file);
    assert StripBom([BOM] + Content(file, separator)) == Content(file, separator);
    ReadsAsWritten([BOM] + Content(file, separator), file);
  }

  /** And it is guessed exactly when the first row holds no more of another one outside quotes. */
  lemma GuessesRows(rows: seq<seq<string>>, separator: char, ending: string, ended: bool)
    requires IsSeparator(separator) && IsEnding(ending) && rows != []
    requires ended || |rows| > 1 || Shown(rows[0]) != [""]
    ensures Separator(Content(FileFor(rows, separator, ending, ended), separator)) == separator
      <==> OwnSeparator(FieldsFor(rows[0], separator), separator)
  {
    var file := FileFor(rows, separator, ending, ended);
    FileForOk(rows, separator, ending, ended);
    FieldsForOk(rows[0], separator);
    assert Header(file) == FieldsFor(rows[0], separator);
    GuessesOwn(file, separator);
  }

  // ----- The printer's own rows ---------------------------------------------------------------

  /** A printed row with its line ending. */
  function Line(row: seq<string>): string { PrintRow(row) + "\r\n" }

  function Lines(rows: seq<seq<string>>): string {
    if rows == [] then "" else Line(rows[0]) + Lines(rows[1..])
  }

  lemma LineParts(row: seq<string>)
    requires row != []
    ensures |row| == 1 ==> Line(row) == Quote(row[0]) + "\r\n"
    ensures |row| > 1 ==> Line(row) == Quote(row[0]) + ("," + Line(row[1..]))
  {
    if |row| > 1 {
      assert Map(Quote, row)[1..] == Map(Quote, row[1..]);
      Associative(Quote(row[0]) + ",", PrintRow(row[1..]), "\r\n");
    }
  }

  /** The printed text is the rows' lines, one after the other. */
  lemma {:induction false} PrintedText(rows: seq<seq<string>>)
    requires rows != []
    ensures ToCsv(rows) == Lines(rows)
  {
    var printed := Map(PrintRow, rows);
    if |rows| == 1 {
      assert Lines(rows[1..]) == "";
    } else {
      MapHead(PrintRow, rows);
      PrintedText(rows[1..]);
    }
  }

  /** How often `c` appears in the cells that are printed without quotes. */
  function UnquotedCount(row: seq<string>, c: char): nat {
    if row == [] then 0
    else (if NeedsQuotes(row[0]) then 0 else Count(row[0], c)) + UnquotedCount(row[1..], c)
  }

  lemma {:induction false} UnquotedIsOutside(row: seq<string>, c: char)
    requires row != []
    ensures OutsideCount(FieldsFor(row, ','), c) == UnquotedCount(row, c)
  {
    var fields := FieldsFor(row, ',');
    assert Count("", c) == 0;
    if |row| == 1 {
      assert fields[1..] == [] && row[1..] == [];
    } else {
      assert fields[1..] == FieldsFor(row[1..], ',');
      UnquotedIsOutside(row[1..], c);
    }
  }

  /** The header's bare cells hold no more semicolons, and no more tabs, than it has commas. */
  predicate CommaHeader(row: seq<string>) {
    row != [] ==> UnquotedCount(row, ';') <= |row| - 1 && UnquotedCount(row, '\t') <= |row| - 1
  }

  lemma QuoteWritten(v: string)
    ensures Quote(v) == Written(FieldFor(v, ','))
  {
    assert "\"" + "" == "\"";
    Associative("\"", Escape(v), "\"");
  }

  lemma LineWritten(row: seq<string>)
    ensures Line(row) == WrittenFields(FieldsFor(row, ','), ',') + "\r\n"
  {
    var fields := FieldsFor(row, ',');
    if row == [] {
      assert Map(Written, fields) == [""];
    } else {
      forall i | 0 <= i < |row| ensures Map(Written, fields)[i] == Map(Quote, row)[i] { QuoteWritten(row[i]); }
      assert Map(Written, fields) == Map(Quote, row);
    }
  }

  /** The printer writes its rows with commas and CRLF, the last line ended. */
  lemma {:induction false} LinesWritten(rows: seq<seq<string>>)
    ensures Lines(rows) == WrittenRows(RowsFor(rows, ',', "\r\n"), ',')
    ensures Lines(rows) == Content(FileFor(rows, ',', "\r\n", true), ',')
  {
    var written := RowsFor(rows, ',', "\r\n");
    if rows != [] {
      assert written[1..] == RowsFor(rows[1..], ',', "\r\n");
      LinesWritten(rows[1..]);
      LineWritten(rows[0]);
      Associative(WrittenFields(written[0].fields, ','), "\r\n", Lines(rows[1..]));
    }
    assert WrittenRows(written, ',') + "" == WrittenRows(written, ',');
  }

  lemma HeaderIs(rows: seq<seq<string>>, c: char)
    requires rows != [] && IsSeparator(c)
    ensures HeaderCount(Lines(rows), 0, false, c)
      == OutsideCount(FieldsFor(rows[0], ','), c) + if c == ',' then |Shown(rows[0])| - 1 else 0
  {
    LinesWritten(rows);
    FileForOk(rows, ',', "\r\n", true);
    FieldsForOk(rows[0], ',');
    HeaderCounts(FileFor(rows, ',', "\r\n", true), ',', c);
  }

  /** The separator guess agrees with the printer exactly on comma headers. */
  lemma GuessesComma(rows: seq<seq<string>>)
    requires rows != []
    ensures Separator(Lines(rows)) == ',' <==> CommaHeader(rows[0])
    ensures var c := Separator(Lines(rows)); c != ',' ==> UnquotedCount(rows[0], c) > |rows[0]| - 1
  {
    var fields, c := FieldsFor(rows[0], ','), Separator(Lines(rows));
    FieldsForOk(rows[0], ',');
    NoneOutside(fields, ',');
    HeaderIs(rows, ',');
    HeaderIs(rows, ';');
    HeaderIs(rows, '\t');
    if rows[0] != [] {
      UnquotedIsOutside(rows[0], ';');
      UnquotedIsOutside(rows[0], '\t');
    } else {
      assert fields == [Bare("")] && fields[1..] == [];
    }
  }

  // ----- A wrong guess is always visible --------------------------------------------

  /** The very first value, once it has ended. */
  function FirstValue(s: Scan): Option<string> {
    if s.records != [] then (if s.records[0] != [] then Some(s.records[0][0]) else None)
    else if s.record != [] then Some(s.record[0])
    else None
  }

  /** The first value has ended as, or is growing from, something that starts with `p`. */
  predicate Grows(s: Scan, p: string) {
    match FirstValue(s)
    case Some(v) => p <= v
    case None => s.records == [] && p <= s.value
  }

  lemma {:induction false} RunKeepsFirst(s: Scan, text: string, i: nat, separator: char, p: string)
    requires i <= |text| && Grows(s, p)
    ensures Grows(Run(s, text, i, separator), p)
    ensures FirstValue(s).Some? ==> FirstValue(Run(s, text, i, separator)) == FirstValue(s)
    decreases |text| - i
  {
    if i < |text| {
      var (s', i') := Step(s, text, i, separator);
      RunKeepsFirst(s', text, i', separator, p);
    }
  }

  /** The first cell ends at the first wrong separator inside it. */
  lemma CellSplit(text: string, head: string, separator: char)
    requires separator == ';' || separator == '\t'
    requires At(text, 0, head) && |head| < |text| && text[|head|] == separator
    requires separator !in head && '"' !in head && '\r' !in head && '\n' !in head
    ensures FirstValue(Run(Start, text, 0, separator)) == Some(head)
  {
    ScanText(Start, text, 0, head, separator);
    assert Start.value + head == head;
    RunKeepsFirst(Start.(value := head).EndValue(), text, |head| + 1, separator, head);
  }

  /** A cell printed without the other separator in it is a field of a file that uses that one. */
  lemma CommaCell(v: string, separator: char)
    requires NeedsQuotes(v) || separator !in v
    ensures var f := FieldFor(v, ','); FieldOk(f, separator) && Value(f) == v && f.Quoted? == NeedsQuotes(v)
  {
    assert v + "" == v;
  }

  /** A comma read as text makes the first value longer than its cell. */
  lemma CellExtended(text: string, v: string, separator: char)
    requires separator == ';' || separator == '\t'
    requires At(text, 0, Quote(v)) && At(text, |Quote(v)|, ",")
    requires NeedsQuotes(v) || separator !in v
    ensures Grows(Run(Start, text, 0, separator), v + ",")
  {
    var end := |Quote(v)|;
    assert text[end] == ","[0];
    QuoteWritten(v);
    CommaCell(v, separator);
    ScanField(Start, text, 0, FieldFor(v, ','), separator);
    var s := Start.(value := v, quotedValue := NeedsQuotes(v));
    RunKeepsFirst(s.Append(','), text, end + 1, separator, v + ",");
  }

  lemma BareCellDiffers(text: string, row: seq<string>, separator: char)
    requires separator == ';' || separator == '\t'
    requires row != [] && At(text, 0, Line(row)) && !NeedsQuotes(row[0]) && separator in row[0]
    ensures var first := FirstValue(Run(Start, text, 0, separator)); first.Some? && first.value != row[0]
  {
    var v := row[0];
    LineParts(row);
    AtParts(text, 0, v, if |row| == 1 then "\r\n" else "," + Line(row[1..]));
    var k := Find((c: char) => c == separator, v);
    assert v == v[..k] + v[k..];
    AtParts(text, 0, v[..k], v[k..]);
    assert text[k] == v[k..][0];
    CellSplit(text, v[..k], separator);
  }

  /** The first value of the records is the scanner's first value. */
  lemma FinishFirst(s: Scan, rows: seq<seq<string>>, v: string)
    requires rows != [] && rows[0] != [] && rows[0][0] == v
    requires (FirstValue(s).Some? && FirstValue(s).value != v) || Grows(s, v + ",")
    ensures Finish(s) != Records(rows)
  {
  }

  /** A printed text read with another separator never gives the first row back. */
  lemma OtherSeparator(rows: seq<seq<string>>, separator: char)
    requires rows != [] && rows[0] != []
    requires separator == ';' || separator == '\t'
    requires UnquotedCount(rows[0], separator) > |rows[0]| - 1
    ensures Finish(Run(Start, Lines(rows), 0, separator)) != Records(rows)
  {
    var text, row, v := Lines(rows), rows[0], rows[0][0];
    AtParts(text, 0, Line(row), Lines(rows[1..]));
    LineParts(row);
    assert |row| == 1 ==> UnquotedCount(row[1..], separator) == 0;
    if !NeedsQuotes(v) && separator in v {
      BareCellDiffers(text, row, separator);
    } else if |row| == 1 {
      assert false;
    } else {
      AtParts(text, 0, Quote(v), "," + Line(row[1..]));
      AtParts(text, |Quote(v)|, ",", Line(row[1..]));
      CellExtended(text, v, separator);
    }
    FinishFirst(Run(Start, text, 0, separator), rows, v);
  }

  // ----- Main results -----------------------------------------------------------------

  /** There is a row, no row is empty, and the header is read with a comma. */
  predicate ReadsBack(rows: seq<seq<string>>) {
    && rows != []
    && (forall row :: row in rows ==> row != [])
    && CommaHeader(rows[0])
  }

  lemma PrintedTextHasNoBom(rows: seq<seq<string>>)
    requires rows != []
    ensures Lines(rows) != "" && Lines(rows)[0] != BOM
  {
    LinesWritten(rows);
    FileForOk(rows, ',', "\r\n", true);
  }

  /** No rows print like one empty row: a blank line. */
  lemma PrintedRows(rows: seq<seq<string>>) returns (lines: seq<seq<string>>)
    ensures lines == if rows == [] then [[]] else rows
    ensures ToCsv(rows) == Lines(lines) && StripBom(ToCsv(rows)) == ToCsv(rows)
  {
    lines := if rows == [] then [[]] else rows;
    PrintedText(lines);
    PrintedTextHasNoBom(lines);
  }

  /** With a comma header, every row reads back, an empty one as a blank line. */
  lemma ReadsShown(rows: seq<seq<string>>)
    requires rows != [] && CommaHeader(rows[0])
    ensures Finish(Run(Start, Lines(rows), 0, Separator(Lines(rows)))) == Records(Map(Shown, rows))
  {
    GuessesComma(rows);
    LinesWritten(rows);
    PrintedTextHasNoBom(rows);
    ReadsRows(rows, ',', "\r\n", true);
  }

  /** The reader undoes the printer exactly on the rows `ReadsBack` describes. */
  lemma RoundTrip(rows: seq<seq<string>>)
    ensures Parse(ToCsv(rows)) == Records(rows) <==> ReadsBack(rows)
  {
    var lines := PrintedRows(rows);
    if CommaHeader(lines[0]) {
      var shown := Map(Shown, lines);
      ReadsShown(lines);
      assert Parse(ToCsv(rows)) == Records(shown);
      if shown == rows {
        forall row | row in rows ensures row != [] {
          var i :| 0 <= i < |rows| && rows[i] == row;
          assert shown[i] == Shown(lines[i]);
        }
      }
      if ReadsBack(rows) {
        forall i | 0 <= i < |rows| ensures shown[i] == rows[i] {
          assert shown[i] == Shown(lines[i]) && rows[i] in rows;
        }
      }
    } else {
      GuessesComma(rows);
      OtherSeparator(rows, Separator(Lines(rows)));
    }
  }

  /** A byte-order mark in front changes nothing. */
  lemma BomIgnored(rows: seq<seq<string>>)
    ensures Parse([BOM] + ToCsv(rows)) == Parse(ToCsv(rows))
  {
  }
}
