/**
 * What any text says as CSV, apart from the scanner: a file is records of
 * bare and quoted fields with their line endings, possibly a last record that
 * is not ended, or a quote that is opened and never closed. Every text is
 * such a file, and the reader gives just what the file says.
 */
module CsvFiles {
  import opened Basics
  import opened Text
  import opened Csv

  // ----- Pieces of a text ---------------------------------------------

  /** `piece` stands at index `i` of `text`. */
  predicate At(text: string, i: nat, piece: string) {
    i + |piece| <= |text| && forall k :: 0 <= k < |piece| ==> text[i + k] == piece[k]
  }

  lemma AtParts(text: string, i: nat, a: string, b: string)
    requires At(text, i, a + b)
    ensures At(text, i, a) && At(text, i + |a|, b)
  {
    var piece := a + b;
    forall k | 0 <= k < |b| ensures text[i + |a| + k] == b[k] {
      assert piece[|a| + k] == b[k];
    }
    forall k | 0 <= k < |a| ensures text[i + k] == a[k] {
      assert piece[k] == a[k];
    }
  }

  // ----- What any text is made of ---------------------------------------------------

  /** A value as a file writes it: bare, or quoted with whatever follows the closing quote. */
  datatype Field = Bare(text: string) | Quoted(body: string, rest: string)

  /** A record with what ends it: nothing only at the end of the file. */
  datatype FileRow = FileRow(fields: seq<Field>, ending: string)

  function Value(f: Field): string {
    match f
    case Bare(text) => text
    case Quoted(body, rest) => body + rest
  }

  function Values(fields: seq<Field>): seq<string> { Map(Value, fields) }

  function RowValues(row: FileRow): seq<string> { Values(row.fields) }

  /** Inside a line, and not opening a quote. */
  predicate Inline(v: string, separator: char) {
    separator !in v && '\r' !in v && '\n' !in v && (v != "" ==> v[0] != '"')
  }

  predicate FieldOk(f: Field, separator: char) {
    match f
    case Bare(text) => Inline(text, separator)
    case Quoted(_, rest) => Inline(rest, separator)
  }

  predicate FieldsOk(fields: seq<Field>, separator: char) {
    fields != [] && forall f <- fields :: FieldOk(f, separator)
  }

  function Written(f: Field): string {
    match f
    case Bare(text) => text
    case Quoted(body, rest) => "\"" + (Escape(body) + ("\"" + rest))
  }

  function WrittenFields(fields: seq<Field>, separator: char): string { Join(Map(Written, fields), [separator]) }

  function WrittenRows(rows: seq<FileRow>, separator: char): string {
    if rows == [] then ""
    else WrittenFields(rows[0].fields, separator) + (rows[0].ending + WrittenRows(rows[1..], separator))
  }

  lemma WrittenIs(fields: seq<Field>, separator: char)
    requires fields != []
    ensures |fields| == 1 ==> WrittenFields(fields, separator) == Written(fields[0])
    ensures |fields| > 1 ==>
      WrittenFields(fields, separator) == Written(fields[0]) + ([separator] + WrittenFields(fields[1..], separator))
  {
    if |fields| > 1 {
      assert Map(Written, fields)[1..] == Map(Written, fields[1..]);
      Associative(Written(fields[0]), [separator], WrittenFields(fields[1..], separator));
    }
  }

  predicate IsEnding(ending: string) { ending == "\r\n" || ending == "\n" || ending == "\r" }

  /** A record's ending, with `after` behind it: a carriage return takes a line feed with it. */
  predicate EndsBefore(ending: string, after: string) {
    IsEnding(ending) && (ending == "\r" && after != "" ==> after[0] != '\n')
  }

  /** Records a file can hold, with `after` behind them. */
  predicate RowsBefore(rows: seq<FileRow>, separator: char, after: string) {
    rows != [] ==>
      && FieldsOk(rows[0].fields, separator)
      && EndsBefore(rows[0].ending, WrittenRows(rows[1..], separator) + after)
      && RowsBefore(rows[1..], separator, after)
  }

  /** A last record without an ending: there has to be something of it. */
  predicate LastOk(last: seq<Field>, separator: char) {
    last != [] ==> FieldsOk(last, separator) && last != [Bare("")]
  }

  /** What a file holds: records, a last one that is not ended, or an opened quote that is never closed. */
  datatype File =
    | Closed(rows: seq<FileRow>, last: seq<Field>)
    | Unclosed(rows: seq<FileRow>, fields: seq<Field>, body: string)

  /** The fields before an unclosed one. */
  function Leading(fields: seq<Field>, separator: char): string {
    if fields == [] then "" else WrittenFields(fields, separator) + [separator]
  }

  function Tail(file: File, separator: char): string {
    match file
    case Closed(_, last) => WrittenFields(last, separator)
    case Unclosed(_, fields, body) => Leading(fields, separator) + ("\"" + Escape(body))
  }

  function Content(file: File, separator: char): string {
    WrittenRows(file.rows, separator) + Tail(file, separator)
  }

  predicate FileOk(file: File, separator: char) {
    && RowsBefore(file.rows, separator, Tail(file, separator))
    && match file
       case Closed(_, last) => LastOk(last, separator)
       case Unclosed(_, fields, _) => fields != [] ==> FieldsOk(fields, separator)
  }

  /** What a file says: its records, or the row of the quote that is never closed. */
  function Meaning(file: File): ParseResult {
    match file
    case Closed(rows, last) => Records(Map(RowValues, rows) + if last == [] then [] else [Values(last)])
    case Unclosed(rows, _, _) => CsvError(|rows| + 1)
  }

  // ----- Scanning it ------------------------------------------------------------------

  /** Between two values. */
  predicate Fresh(s: Scan) {
    s.value == "" && !s.inQuotes && !s.quotedValue
  }

  lemma {:induction false} ScanText(s: Scan, text: string, i: nat, v: string, separator: char)
    requires At(text, i, v) && !s.inQuotes
    requires separator !in v && '\r' !in v && '\n' !in v
    requires v != "" && v[0] == '"' ==> s.value != "" || s.quotedValue
    ensures Run(s, text, i, separator) == Run(s.(value := s.value + v), text, i + |v|, separator)
    decreases |v|
  {
    if v == "" {
      assert s.value + v == s.value;
    } else {
      assert v[0] in v && text[i] == v[0];
      AtParts(text, i, v[..1], v[1..]);
      ScanText(s.Append(v[0]), text, i + 1, v[1..], separator);
      assert s.Append(v[0]).value + v[1..] == s.value + v;
    }
  }

  function Escaped(c: char): string { if c == '"' then "\"\"" else [c] }

  /** Inside quotes one character is read from its escaped form. */
  lemma ScanOne(s: Scan, text: string, i: nat, c: char, separator: char)
    requires At(text, i, Escaped(c)) && s.inQuotes
    ensures Run(s, text, i, separator) == Run(s.Append(c), text, i + |Escaped(c)|, separator)
  {
    assert text[i] == Escaped(c)[0];
    if c == '"' { assert text[i + 1] == Escaped(c)[1]; }
  }

  lemma {:induction false} ScanBody(s: Scan, text: string, i: nat, v: string, separator: char)
    requires At(text, i, Escape(v)) && s.inQuotes
    ensures Run(s, text, i, separator) == Run(s.(value := s.value + v), text, i + |Escape(v)|, separator)
    decreases |v|
  {
    if v == "" {
      assert s.value + v == s.value;
    } else {
      var first := Escaped(v[0]);
      assert Escape(v) == first + Escape(v[1..]);
      AtParts(text, i, first, Escape(v[1..]));
      ScanOne(s, text, i, v[0], separator);
      ScanBody(s.Append(v[0]), text, i + |first|, v[1..], separator);
      assert s.Append(v[0]).value + v[1..] == s.value + v;
    }
  }

  /** A closing quote, when another quote does not follow. */
  lemma ScanClosing(s: Scan, text: string, i: nat, separator: char)
    requires At(text, i, "\"") && s.inQuotes && (i + 1 < |text| ==> text[i + 1] != '"')
    ensures Run(s, text, i, separator) == Run(s.(inQuotes := false), text, i + 1, separator)
  {
    assert text[i] == "\""[0];
  }

  lemma ScanOpening(s: Scan, text: string, i: nat, separator: char)
    requires At(text, i, "\"") && Fresh(s)
    ensures Run(s, text, i, separator) == Run(s.(inQuotes := true, quotedValue := true), text, i + 1, separator)
  {
    assert text[i] == "\""[0];
  }

  /** The scanner after a value, before what ends it. */
  function WithValue(s: Scan, f: Field): Scan { s.(value := Value(f), quotedValue := f.Quoted?) }

  lemma ScanQuoted(s: Scan, text: string, i: nat, body: string, rest: string, separator: char)
    requires At(text, i, Written(Quoted(body, rest))) && Fresh(s) && Inline(rest, separator)
    requires var end := i + |Written(Quoted(body, rest))|; end < |text| ==> text[end] != '"'
    ensures Run(s, text, i, separator)
      == Run(WithValue(s, Quoted(body, rest)), text, i + |Written(Quoted(body, rest))|, separator)
  {
    var quoting := s.(inQuotes := true, quotedValue := true);
    var k := i + 1 + |Escape(body)|;
    AtParts(text, i, "\"", Escape(body) + ("\"" + rest));
    AtParts(text, i + 1, Escape(body), "\"" + rest);
    AtParts(text, k, "\"", rest);
    ScanOpening(s, text, i, separator);
    ScanBody(quoting, text, i + 1, body, separator);
    assert quoting.value + body == body;
    assert rest != "" ==> text[k + 1] == rest[0];
    ScanClosing(quoting.(value := body), text, k, separator);
    ScanText(s.(value := body, quotedValue := true), text, k + 1, rest, separator);
  }

  /** Whatever a field holds, it scans to its value. */
  lemma ScanField(s: Scan, text: string, i: nat, f: Field, separator: char)
    requires At(text, i, Written(f)) && Fresh(s) && FieldOk(f, separator)
    requires var end := i + |Written(f)|; end < |text| ==> text[end] != '"'
    ensures Run(s, text, i, separator) == Run(WithValue(s, f), text, i + |Written(f)|, separator)
  {
    match f {
      case Bare(v) =>
        ScanText(s, text, i, v, separator);
        assert s.value + v == v;
      case Quoted(body, rest) => ScanQuoted(s, text, i, body, rest, separator);
    }
  }

  lemma ScanSeparator(s: Scan, text: string, i: nat, separator: char)
    requires i < |text| && text[i] == separator && !s.inQuotes && IsSeparator(separator)
    ensures Run(s, text, i, separator) == Run(s.EndValue(), text, i + 1, separator)
  {
  }

  /** The scanner after fields, the last of which has not ended. */
  function WithFields(s: Scan, fields: seq<Field>): Scan
    requires fields != []
  {
    var n := |fields| - 1;
    WithValue(s.(record := s.record + Values(fields[..n])), fields[n])
  }

  lemma WithMore(s: Scan, fields: seq<Field>)
    requires |fields| > 1 && Fresh(s)
    ensures WithFields(WithValue(s, fields[0]).EndValue(), fields[1..]) == WithFields(s, fields)
  {
    var n := |fields| - 1;
    assert fields[..n] == [fields[0]] + fields[1..][..n - 1];
    assert Values(fields[..n]) == [Value(fields[0])] + Values(fields[1..][..n - 1]);
    Associative(s.record, [Value(fields[0])], Values(fields[1..][..n - 1]));
  }

  /** A field that a separator follows, at `k`. */
  lemma ScanFieldThen(s: Scan, text: string, i: nat, f: Field, k: nat, separator: char)
    requires At(text, i, Written(f)) && k == i + |Written(f)| < |text| && text[k] == separator
    requires Fresh(s) && FieldOk(f, separator) && IsSeparator(separator)
    ensures Run(s, text, i, separator) == Run(WithValue(s, f).EndValue(), text, k + 1, separator)
  {
    ScanField(s, text, i, f, separator);
  }

  /** The pieces of a line stand one after the other from `i` to `end`. */
  predicate PiecesStand(text: string, i: nat, pieces: seq<string>, separator: char, end: nat)
    decreases |pieces|
  {
    && pieces != [] && end <= |text|
    && At(text, i, pieces[0])
    && var k := i + |pieces[0]|;
       if |pieces| == 1 then k == end
       else k < |text| && text[k] == separator && PiecesStand(text, k + 1, pieces[1..], separator, end)
  }

  lemma {:induction false} PiecesAt(text: string, i: nat, pieces: seq<string>, separator: char)
    requires At(text, i, Join(pieces, [separator])) && pieces != []
    ensures PiecesStand(text, i, pieces, separator, i + |Join(pieces, [separator])|)
    decreases |pieces|
  {
    if |pieces| > 1 {
      var first, rest := pieces[0], Join(pieces[1..], [separator]);
      AtParts(text, i, first + [separator], rest);
      AtParts(text, i, first, [separator]);
      assert text[i + |first|] == [separator][0];
      PiecesAt(text, i + |first| + 1, pieces[1..], separator);
    }
  }

  /** The fields of a line stand one after the other from `i` to `end`. */
  predicate FieldsStand(text: string, i: nat, fields: seq<Field>, separator: char, end: nat) {
    PiecesStand(text, i, Map(Written, fields), separator, end)
  }

  lemma FieldsAt(text: string, i: nat, fields: seq<Field>, separator: char)
    requires At(text, i, WrittenFields(fields, separator)) && fields != []
    ensures FieldsStand(text, i, fields, separator, i + |WrittenFields(fields, separator)|)
  {
    PiecesAt(text, i, Map(Written, fields), separator);
  }

  /** Where the first field stands, and the others. */
  lemma FirstStands(text: string, i: nat, fields: seq<Field>, separator: char, end: nat) returns (k: nat)
    requires FieldsStand(text, i, fields, separator, end) && FieldsOk(fields, separator)
    ensures FieldOk(fields[0], separator) && At(text, i, Written(fields[0])) && k == i + |Written(fields[0])| <= |text|
    ensures |fields| == 1 ==> k == end
    ensures |fields| > 1 ==> k < |text| && text[k] == separator && FieldsStand(text, k + 1, fields[1..], separator, end)
    ensures |fields| > 1 ==> FieldsOk(fields[1..], separator)
  {
    k := i + |Written(fields[0])|;
    MapHead(Written, fields);
    assert Map(Written, fields)[1..] == Map(Written, fields[1..]);
  }

  lemma OneField(s: Scan, f: Field)
    ensures WithFields(s, [f]) == WithValue(s, f)
  {
    assert [f][..0] == [] && s.record + Values([]) == s.record;
  }

  lemma {:induction false} ScanFields(s: Scan, text: string, i: nat, fields: seq<Field>, separator: char, end: nat)
    requires FieldsStand(text, i, fields, separator, end)
    requires Fresh(s) && FieldsOk(fields, separator) && IsSeparator(separator) && (end < |text| ==> text[end] != '"')
    ensures Run(s, text, i, separator) == Run(WithFields(s, fields), text, end, separator)
    decreases |fields|
  {
    var f := fields[0];
    var k := FirstStands(text, i, fields, separator, end);
    if |fields| == 1 {
      assert fields == [f];
      OneField(s, f);
      ScanField(s, text, i, f, separator);
    } else {
      ScanFieldThen(s, text, i, f, k, separator);
      ScanFields(WithValue(s, f).EndValue(), text, k + 1, fields[1..], separator, end);
      WithMore(s, fields);
    }
  }

  /** A whole record has been read. */
  lemma RecordEnds(s: Scan, fields: seq<Field>)
    requires fields != [] && Fresh(s) && s.record == []
    ensures WithFields(s, fields).EndRecord() == s.(records := s.records + [Values(fields)])
  {
    var n := |fields| - 1;
    assert fields == fields[..n] + [fields[n]];
    assert Values(fields) == Values(fields[..n]) + [Value(fields[n])];
    assert [] + Values(fields[..n]) == Values(fields[..n]);
  }

  lemma ScanEnding(s: Scan, text: string, i: nat, ending: string, after: string, separator: char)
    requires At(text, i, ending + after) && i + |ending + after| == |text| && EndsBefore(ending, after)
    requires !s.inQuotes && IsSeparator(separator)
    ensures Run(s, text, i, separator) == Run(s.EndRecord(), text, i + |ending|, separator)
  {
    AtParts(text, i, ending, after);
    assert text[i] == ending[0];
    if ending == "\r\n" { assert text[i + 1] == ending[1]; }
    if after != "" { assert text[i + |ending|] == after[0]; }
  }

  lemma ScanRowAt(s: Scan, text: string, i: nat, row: FileRow, k: nat, after: string, separator: char)
    requires FieldsStand(text, i, row.fields, separator, k)
    requires At(text, k, row.ending + after) && k + |row.ending + after| == |text|
    requires Fresh(s) && s.record == [] && IsSeparator(separator)
    requires FieldsOk(row.fields, separator) && EndsBefore(row.ending, after)
    ensures Run(s, text, i, separator)
      == Run(s.(records := s.records + [RowValues(row)]), text, k + |row.ending|, separator)
  {
    assert text[k] == (row.ending + after)[0] == row.ending[0];
    ScanFields(s, text, i, row.fields, separator, k);
    ScanEnding(WithFields(s, row.fields), text, k, row.ending, after, separator);
    RecordEnds(s, row.fields);
  }

  /** Where the parts of a record stand: its line, its ending at `k`, and what comes after. */
  lemma RowAt(text: string, i: nat, line: string, ending: string, after: string, k: nat)
    requires At(text, i, line + (ending + after)) && |text| == k + |ending| + |after| && k == i + |line|
    ensures At(text, i, line) && At(text, k, ending + after) && At(text, k + |ending|, after)
  {
    AtParts(text, i, line, ending + after);
    AtParts(text, k, ending, after);
  }

  lemma ScanRow(s: Scan, text: string, i: nat, row: FileRow, after: string, separator: char, k: nat)
    requires At(text, i, WrittenFields(row.fields, separator) + (row.ending + after))
    requires |text| == k + |row.ending| + |after| && k == i + |WrittenFields(row.fields, separator)|
    requires Fresh(s) && s.record == [] && IsSeparator(separator)
    requires FieldsOk(row.fields, separator) && EndsBefore(row.ending, after)
    ensures At(text, k + |row.ending|, after)
    ensures Run(s, text, i, separator)
      == Run(s.(records := s.records + [RowValues(row)]), text, k + |row.ending|, separator)
  {
    RowAt(text, i, WrittenFields(row.fields, separator), row.ending, after, k);
    FieldsAt(text, i, row.fields, separator);
    ScanRowAt(s, text, i, row, k, after, separator);
  }

  lemma RowsMore(s: Scan, rows: seq<FileRow>)
    requires rows != []
    ensures var s' := s.(records := s.records + [RowValues(rows[0])]);
      s'.(records := s'.records + Map(RowValues, rows[1..])) == s.(records := s.records + Map(RowValues, rows))
  {
    MapHead(RowValues, rows);
    Associative(s.records, [RowValues(rows[0])], Map(RowValues, rows[1..]));
  }

  lemma {:induction false} ScanRows(s: Scan, text: string, i: nat, rows: seq<FileRow>, after: string, separator: char,
    end: nat)
    requires At(text, i, WrittenRows(rows, separator) + after)
    requires end + |after| == |text| == i + |WrittenRows(rows, separator) + after|
    requires Fresh(s) && s.record == [] && IsSeparator(separator) && RowsBefore(rows, separator, after)
    ensures At(text, end, after)
    ensures Run(s, text, i, separator) == Run(s.(records := s.records + Map(RowValues, rows)), text, end, separator)
    decreases |rows|
  {
    if rows == [] {
      assert WrittenRows(rows, separator) + after == after;
      assert s.records + Map(RowValues, rows) == s.records;
    } else {
      var row, rest := rows[0], WrittenRows(rows[1..], separator) + after;
      var k := i + |WrittenFields(row.fields, separator)|;
      RowsSplit(rows, separator, after);
      ScanRow(s, text, i, row, rest, separator, k);
      ScanRows(s.(records := s.records + [RowValues(row)]), text, k + |row.ending|, rows[1..], after, separator, end);
      RowsMore(s, rows);
    }
  }

  lemma RowsSplit(rows: seq<FileRow>, separator: char, after: string)
    requires rows != []
    ensures WrittenRows(rows, separator) + after
      == WrittenFields(rows[0].fields, separator) + (rows[0].ending + (WrittenRows(rows[1..], separator) + after))
  {
    var line, ending := WrittenFields(rows[0].fields, separator), rows[0].ending;
    var rest := WrittenRows(rows[1..], separator);
    Associative(line, ending + rest, after);
    Associative(ending, rest, after);
  }

  /** A last record that is not ended counts, if there is anything of it. */
  lemma ScanLast(s: Scan, text: string, i: nat, last: seq<Field>, separator: char)
    requires At(text, i, WrittenFields(last, separator)) && i + |WrittenFields(last, separator)| == |text|
    requires Fresh(s) && s.record == [] && IsSeparator(separator) && LastOk(last, separator)
    ensures Finish(Run(s, text, i, separator))
      == Records(s.records + if last == [] then [] else [Values(last)])
  {
    if last == [] {
      assert s.records + [] == s.records;
    } else {
      FieldsAt(text, i, last, separator);
      ScanFields(s, text, i, last, separator, |text|);
      LastCounts(s, last, separator);
    }
  }

  lemma LastCounts(s: Scan, last: seq<Field>, separator: char)
    requires last != [] && Fresh(s) && s.record == [] && LastOk(last, separator)
    ensures Finish(WithFields(s, last)) == Records(s.records + [Values(last)])
  {
    RecordEnds(s, last);
    var end := WithFields(s, last);
    if |last| == 1 {
      assert last == [last[0]];
      OneField(s, last[0]);
    } else {
      assert |end.record| == |last| - 1;
    }
  }

  /** Fields that a separator follows, at `k`. */
  lemma ScanFieldsThen(s: Scan, text: string, i: nat, fields: seq<Field>, k: nat, separator: char)
    requires At(text, i, WrittenFields(fields, separator)) && k == i + |WrittenFields(fields, separator)|
    requires k < |text| && text[k] == separator
    requires Fresh(s) && FieldsOk(fields, separator) && IsSeparator(separator)
    ensures Run(s, text, i, separator) == Run(WithFields(s, fields).EndValue(), text, k + 1, separator)
  {
    FieldsAt(text, i, fields, separator);
    ScanFields(s, text, i, fields, separator, k);
    ScanSeparator(WithFields(s, fields), text, k, separator);
  }

  lemma ScanLine(s: Scan, text: string, i: nat, fields: seq<Field>, line: string, separator: char)
    requires At(text, i, line + [separator]) && line == WrittenFields(fields, separator)
    requires Fresh(s) && FieldsOk(fields, separator) && IsSeparator(separator)
    ensures Run(s, text, i, separator) == Run(WithFields(s, fields).EndValue(), text, i + |line| + 1, separator)
  {
    var k := i + |line|;
    AtParts(text, i, line, [separator]);
    assert text[k] == [separator][0];
    ScanFieldsThen(s, text, i, fields, k, separator);
  }

  lemma ScanLeading(s: Scan, text: string, i: nat, fields: seq<Field>, after: string, separator: char)
    returns (s': Scan)
    requires At(text, i, Leading(fields, separator) + after) && Fresh(s) && IsSeparator(separator)
    requires fields != [] ==> FieldsOk(fields, separator)
    ensures At(text, i + |Leading(fields, separator)|, after) && Fresh(s') && s'.records == s.records
    ensures Run(s, text, i, separator) == Run(s', text, i + |Leading(fields, separator)|, separator)
  {
    AtParts(text, i, Leading(fields, separator), after);
    if fields == [] {
      s' := s;
    } else {
      s' := WithFields(s, fields).EndValue();
      ScanLine(s, text, i, fields, WrittenFields(fields, separator), separator);
    }
  }

  lemma ScanOpen(s: Scan, text: string, i: nat, body: string, separator: char)
    requires At(text, i, "\"" + Escape(body)) && i + |"\"" + Escape(body)| == |text| && Fresh(s)
    ensures Finish(Run(s, text, i, separator)) == CsvError(|s.records| + 1)
  {
    AtParts(text, i, "\"", Escape(body));
    ScanOpening(s, text, i, separator);
    ScanBody(s.(inQuotes := true, quotedValue := true), text, i + 1, body, separator);
  }

  /** The end of a file, after its ended records. */
  lemma ScanTail(s: Scan, text: string, i: nat, file: File, separator: char)
    requires At(text, i, Tail(file, separator)) && i + |Tail(file, separator)| == |text|
    requires Fresh(s) && s.record == [] && IsSeparator(separator) && FileOk(file, separator)
    requires s.records == Map(RowValues, file.rows)
    ensures Finish(Run(s, text, i, separator)) == Meaning(file)
  {
    match file {
      case Closed(_, last) => ScanLast(s, text, i, last, separator);
      case Unclosed(_, fields, body) =>
        var s' := ScanLeading(s, text, i, fields, "\"" + Escape(body), separator);
        ScanOpen(s', text, i + |Leading(fields, separator)|, body, separator);
    }
  }

  lemma ScanFrom(text: string, file: File, tail: string, separator: char)
    requires At(text, 0, WrittenRows(file.rows, separator) + tail)
    requires |WrittenRows(file.rows, separator) + tail| == |text|
    requires RowsBefore(file.rows, separator, tail) && IsSeparator(separator)
    ensures At(text, |text| - |tail|, tail)
    ensures Run(Start, text, 0, separator)
      == Run(Start.(records := Map(RowValues, file.rows)), text, |text| - |tail|, separator)
  {
    var records := Map(RowValues, file.rows);
    assert [] + records == records;
    ScanRows(Start, text, 0, file.rows, tail, separator, |text| - |tail|);
  }

  /** Scanning what a file is written as gives what it says. */
  lemma ScanFile(file: File, separator: char)
    requires FileOk(file, separator) && IsSeparator(separator)
    ensures Finish(Run(Start, Content(file, separator), 0, separator)) == Meaning(file)
  {
    var text, tail := Content(file, separator), Tail(file, separator);
    ScanFrom(text, file, tail, separator);
    ScanTail(Start.(records := Map(RowValues, file.rows)), text, |text| - |tail|, file, separator);
  }

  // ----- Every text is a file --------------------------------------------------------------

  /** Where a line or a field ends. */
  predicate Ends(c: char, separator: char) { c == separator || c == '\r' || c == '\n' }

  /** The text up to where a field ends. */
  lemma {:induction false} TakeInline(text: string, separator: char) returns (v: string, after: string)
    ensures text == v + after && separator !in v && '\r' !in v && '\n' !in v
    ensures after != "" ==> Ends(after[0], separator)
  {
    if text == "" || Ends(text[0], separator) {
      v, after := "", text;
    } else {
      var rest;
      rest, after := TakeInline(text[1..], separator);
      v := [text[0]] + rest;
    }
  }

  /** Behind an opening quote: a body and its closing quote, or a body up to the end. */
  lemma {:induction false} TakeBody(text: string) returns (body: string, closed: bool, after: string)
    ensures text == Escape(body) + if closed then "\"" + after else ""
    ensures closed && after != "" ==> after[0] != '"'
    ensures closed ==> |after| < |text|
  {
    if text == "" {
      body, closed, after := "", false, "";
    } else if text[0] != '"' {
      var rest;
      rest, closed, after := TakeBody(text[1..]);
      body := [text[0]] + rest;
    } else if |text| > 1 && text[1] == '"' {
      var rest;
      rest, closed, after := TakeBody(text[2..]);
      body := ['"'] + rest;
      assert text == "\"\"" + text[2..];
    } else {
      body, closed, after := "", true, text[1..];
    }
  }

  /** The first field of a text, or the unclosed quote it starts with. */
  lemma TakeField(text: string, separator: char) returns (f: Option<Field>, body: string, after: string)
    ensures f.Some? ==> FieldOk(f.value, separator) && text == Written(f.value) + after
    ensures f.Some? && after != "" ==> Ends(after[0], separator)
    ensures f.None? ==> text == "\"" + Escape(body)
  {
    if text != "" && text[0] == '"' {
      var closed, behind;
      body, closed, behind := TakeBody(text[1..]);
      if closed {
        var rest;
        rest, after := TakeInline(behind, separator);
        f := Some(Quoted(body, rest));
        assert text == ("\"" + (Escape(body) + ("\"" + rest))) + after;
      } else {
        f, after := None, "";
        assert text == "\"" + Escape(body);
      }
    } else {
      var v;
      v, after := TakeInline(text, separator);
      f, body := Some(Bare(v)), "";
    }
  }

  /** The fields of a text's first line, or those before an unclosed quote in it. */
  lemma {:induction false} TakeFields(text: string, separator: char)
    returns (fields: seq<Field>, body: Option<string>, after: string)
    requires IsSeparator(separator)
    ensures fields != [] ==> FieldsOk(fields, separator)
    ensures body.None? ==> fields != [] && text == WrittenFields(fields, separator) + after
    ensures body.None? && after != "" ==> after[0] == '\r' || after[0] == '\n'
    ensures body.Some? ==> text == Leading(fields, separator) + ("\"" + Escape(body.value))
    decreases |text|
  {
    var f, unclosed, behind := TakeField(text, separator);
    if f.None? {
      fields, body, after := [], Some(unclosed), "";
      assert text == "" + ("\"" + Escape(unclosed));
    } else if behind == "" || behind[0] != separator {
      fields, body, after := [f.value], None, behind;
    } else {
      var more;
      more, body, after := TakeFields(behind[1..], separator);
      fields := [f.value] + more;
      FieldThenMore(text, f.value, behind, more, body, after, separator);
    }
  }

  lemma FieldThenMore(text: string, f: Field, behind: string, more: seq<Field>, body: Option<string>, after: string,
    separator: char)
    requires text == Written(f) + behind && behind != "" && behind[0] == separator && FieldOk(f, separator)
    requires more != [] ==> FieldsOk(more, separator)
    requires body.None? ==> more != [] && behind[1..] == WrittenFields(more, separator) + after
    requires body.Some? ==> behind[1..] == Leading(more, separator) + ("\"" + Escape(body.value))
    ensures FieldsOk([f] + more, separator)
    ensures body.None? ==> text == WrittenFields([f] + more, separator) + after
    ensures body.Some? ==> text == Leading([f] + more, separator) + ("\"" + Escape(body.value))
  {
    assert behind == [separator] + behind[1..];
    FieldsTaken(f, more, separator);
    if body.Some? {
      Regroup(Written(f), [separator], Leading(more, separator), "\"" + Escape(body.value));
    } else {
      Regroup(Written(f), [separator], WrittenFields(more, separator), after);
    }
  }

  lemma Regroup(a: string, b: string, c: string, d: string)
    ensures a + (b + (c + d)) == (a + (b + c)) + d
  {
  }

  lemma FieldsTaken(f: Field, more: seq<Field>, separator: char)
    ensures more != [] ==>
      WrittenFields([f] + more, separator) == Written(f) + ([separator] + WrittenFields(more, separator))
    ensures Leading([f] + more, separator) == Written(f) + ([separator] + Leading(more, separator))
    ensures FieldOk(f, separator) && (more != [] ==> FieldsOk(more, separator)) ==> FieldsOk([f] + more, separator)
  {
    assert ([f] + more)[1..] == more;
    WrittenIs([f] + more, separator);
    if more == [] {
      assert [separator] + "" == [separator];
    } else {
      Regroup(Written(f), [separator], WrittenFields(more, separator), [separator]);
    }
  }

  /** The ending a line break is. */
  lemma TakeEnding(text: string) returns (ending: string, after: string)
    requires text != "" && (text[0] == '\r' || text[0] == '\n')
    ensures text == ending + after && EndsBefore(ending, after)
  {
    if text[0] == '\r' && |text| > 1 && text[1] == '\n' {
      ending, after := "\r\n", text[2..];
    } else {
      ending, after := if text[0] == '\r' then "\r" else "\n", text[1..];
    }
  }

  /** Every text is what some file is written as. */
  lemma {:induction false} EveryTextIsAFile(text: string, separator: char) returns (file: File)
    requires IsSeparator(separator)
    ensures FileOk(file, separator) && text == Content(file, separator)
    decreases |text|
  {
    var fields, body, behind := TakeFields(text, separator);
    if body.Some? {
      file := Unclosed([], fields, body.value);
      assert text == "" + Tail(file, separator);
    } else if behind == "" {
      file := Closed([], if fields == [Bare("")] then [] else fields);
      assert text == "" + Tail(file, separator);
    } else {
      var ending, after := TakeEnding(behind);
      assert |text| == |WrittenFields(fields, separator)| + |behind|;
      var rest := EveryTextIsAFile(after, separator);
      var row := FileRow(fields, ending);
      file := match rest
        case Closed(rows, last) => Closed([row] + rows, last)
        case Unclosed(rows, leading, open) => Unclosed([row] + rows, leading, open);
      RowTaken(text, row, rest, file, separator);
    }
  }

  lemma RowTaken(text: string, row: FileRow, rest: File, file: File, separator: char)
    requires FieldsOk(row.fields, separator) && EndsBefore(row.ending, Content(rest, separator))
    requires FileOk(rest, separator)
    requires text == WrittenFields(row.fields, separator) + (row.ending + Content(rest, separator))
    requires file.rows == [row] + rest.rows && Tail(file, separator) == Tail(rest, separator)
    requires if rest.Closed? then file.Closed? && file.last == rest.last
             else file.Unclosed? && file.fields == rest.fields && file.body == rest.body
    ensures FileOk(file, separator) && text == Content(file, separator)
  {
    assert file.rows[1..] == rest.rows;
    RowsSplit(file.rows, separator, Tail(file, separator));
  }

  /**
   * The reader on any text whatever: with the separator guessed, the text is
   * written as just such records, and they are what is read; or a quote is
   * opened that is never closed, and its row is reported.
   */
  lemma ReadsEveryText(input: string) returns (file: File)
    ensures var separator := Separator(StripBom(input));
      && FileOk(file, separator) && StripBom(input) == Content(file, separator) && Parse(input) == Meaning(file)
  {
    var text := StripBom(input);
    file := EveryTextIsAFile(text, Separator(text));
    ScanFile(file, Separator(text));
  }

  /** And whatever records a text is written as, they are what is read. */
  lemma ReadsAsWritten(input: string, file: File)
    requires var separator := Separator(StripBom(input));
      FileOk(file, separator) && StripBom(input) == Content(file, separator)
    ensures Parse(input) == Meaning(file)
  {
    ScanFile(file, Separator(StripBom(input)));
  }
}
