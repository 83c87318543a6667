/**
 * The CSV reader and writer (RFC 4180, section 2): a character-level scanner,
 * the separator guess, and the printer. The scanner works on one character at
 * a time; `Parse` is its meaning, and `ParseCsv` is the loop that computes it.
 */
module Csv {
  import opened Basics
  import opened Text

  /** The row where an unclosed quoted value starts, or the records. */
  datatype ParseResult = Records(records: seq<seq<string>>) | CsvError(row: nat)

  /** The scanner's variables between two characters. */
  datatype Scan = Scan(
    records: seq<seq<string>>,
    record: seq<string>,
    value: string,
    inQuotes: bool,
    quotedValue: bool
  ) {
    function EndValue(): Scan {
      this.(record := record + [value], value := "", quotedValue := false)
    }

    function EndRecord(): Scan {
      var s := EndValue();
      s.(records := s.records + [s.record], record := [])
    }

    function Append(c: char): Scan {
      this.(value := value + [c])
    }
  }

  const Start := Scan([], [], "", false, false)

  // ----- Printing -------------------------------------------------------------

  predicate NeedsQuotes(value: string) {
    '"' in value || ',' in value || '\r' in value || '\n' in value || !Trimmed(value)
  }

  function Escape(value: string): string {
    if value == "" then ""
    else (if value[0] == '"' then "\"\"" else [value[0]]) + Escape(value[1..])
  }

  function Quote(value: string): string {
    if NeedsQuotes(value) then "\"" + Escape(value) + "\"" else value
  }

  function PrintRow(row: seq<string>): string {
    Join(Map(Quote, row), ",")
  }

  function ToCsv(rows: seq<seq<string>>): string {
    Join(Map(PrintRow, rows), "\r\n") + "\r\n"
  }

  // ----- Guessing the separator -------------------------------------------------

  /** How often `c` stands outside quotes from `i` until the header row ends. */
  function HeaderCount(text: string, i: nat, inQuotes: bool, c: char): nat
    requires i <= |text|
    decreases |text| - i
  {
    if i == |text| then 0
    else if text[i] == '"' then HeaderCount(text, i + 1, !inQuotes, c)
    else if !inQuotes && (text[i] == '\n' || text[i] == '\r') then 0
    else (if !inQuotes && text[i] == c then 1 else 0) + HeaderCount(text, i + 1, inQuotes, c)
  }

  predicate IsSeparator(c: char) { c in {',', ';', '\t'} }

  /** Commas come before semicolons, and those before tabs. */
  predicate Before(d: char, c: char) { d == ',' != c || (d == ';' && c == '\t') }

  /** The separator the file uses: a comma unless another one is strictly ahead. */
  function Separator(text: string): (c: char)
    ensures IsSeparator(c)
    ensures forall d :: IsSeparator(d) ==> HeaderCount(text, 0, false, d) <= HeaderCount(text, 0, false, c)
    ensures forall d :: IsSeparator(d) && Before(d, c) ==>
      HeaderCount(text, 0, false, d) < HeaderCount(text, 0, false, c)
  {
    var commas := HeaderCount(text, 0, false, ',');
    var semicolons := HeaderCount(text, 0, false, ';');
    var tabs := HeaderCount(text, 0, false, '\t');
    if tabs > commas && tabs > semicolons then '\t'
    else if semicolons > commas then ';'
    else ','
  }

  /** How often each separator stands outside quotes in the header row. */
  method CountSeparators(text: string) returns (counts: map<char, int>)
    ensures counts.Keys == {',', ';', '\t'}
    ensures forall c <- counts.Keys :: counts[c] == HeaderCount(text, 0, false, c)
  {
    counts := map[',' := 0, ';' := 0, '\t' := 0];
    var inQuotes := false;
    var i := 0;
    while i < |text|
      invariant 0 <= i <= |text|
      invariant counts.Keys == {',', ';', '\t'}
      invariant forall c <- counts.Keys ::
        counts[c] + HeaderCount(text, i, inQuotes, c) == HeaderCount(text, 0, false, c)
    {
      var c := text[i];
      if c == '"' {
        inQuotes := !inQuotes;
      } else if !inQuotes && (c == '\n' || c == '\r') {
        break;
      } else if !inQuotes && c in counts {
        counts := counts[c := counts[c] + 1];
      }
      i := i + 1;
    }
  }

  /** The first of the separators that is counted most. */
  method DetectSeparator(text: string) returns (best: char)
    ensures best == Separator(text)
  {
    var separators := [',', ';', '\t'];
    var counts := CountSeparators(text);
    best := ',';
    var most := 0;
    for k := 0 to 3
      invariant k == 0 ==> best == ',' && most == 0
      invariant k == 1 ==> best == ',' && most == counts[',']
      invariant k == 2 ==>
        && best == (if counts[';'] > counts[','] then ';' else ',')
        && most == counts[best]
      invariant k == 3 ==> best == Separator(text)
    {
      if counts[separators[k]] > most {
        best, most := separators[k], counts[separators[k]];
      }
    }
  }

  // ----- Scanning -------------------------------------------------------------

  /** One turn of the scanner's loop: the state after it, and the next index. */
  function Step(s: Scan, text: string, i: nat, separator: char): (r: (Scan, nat))
    requires i < |text|
    ensures i < r.1 <= |text|
  {
    var c := text[i];
    var next := if i + 1 < |text| then Some(text[i + 1]) else None;
    if s.inQuotes then
      if c != '"' then (s.Append(c), i + 1)
      else if next == Some('"') then (s.Append('"'), i + 2)
      else (s.(inQuotes := false), i + 1)
    else if c == '"' && s.value == "" && !s.quotedValue then
      (s.(inQuotes := true, quotedValue := true), i + 1)
    else if c == separator then (s.EndValue(), i + 1)
    else if c == '\n' || c == '\r' then
      (s.EndRecord(), if c == '\r' && next == Some('\n') then i + 2 else i + 1)
    else (s.Append(c), i + 1)
  }

  /** The state after scanning `text` from index `i` to its end. */
  function Run(s: Scan, text: string, i: nat, separator: char): Scan
    requires i <= |text|
    decreases |text| - i
  {
    if i == |text| then s
    else
      var (s', i') := Step(s, text, i, separator);
      Run(s', text, i', separator)
  }

  function Finish(s: Scan): ParseResult {
    if s.inQuotes then CsvError(|s.records| + 1)
    else if s.value != "" || |s.record| > 0 || s.quotedValue then Records(s.EndRecord().records)
    else Records(s.records)
  }

  function StripBom(input: string): string {
    if input != "" && input[0] == BOM then input[1..] else input
  }

  function Parse(input: string): ParseResult {
    var text := StripBom(input);
    Finish(Run(Start, text, 0, Separator(text)))
  }

  method ParseCsv(input: string) returns (result: ParseResult)
    ensures result == Parse(input)
  {
    var text := StripBom(input);
    var separator := DetectSeparator(text);
    var records: seq<seq<string>> := [];
    var record: seq<string> := [];
    var value := "";
    var inQuotes := false;
    var quotedValue := false;
    var i := 0;
    while i < |text|
      invariant 0 <= i <= |text|
      invariant Run(Scan(records, record, value, inQuotes, quotedValue), text, i, separator)
             == Run(Start, text, 0, separator)
      decreases |text| - i
    {
      var c := text[i];
      if inQuotes {
        if c != '"' {
          value := value + [c];
        } else if i + 1 < |text| && text[i + 1] == '"' {
          value := value + ['"'];
          i := i + 1;
        } else {
          inQuotes := false;
        }
      } else if c == '"' && value == "" && !quotedValue {
        inQuotes := true;
        quotedValue := true;
      } else if c == separator {
        record, value, quotedValue := record + [value], "", false;
      } else if c == '\n' || c == '\r' {
        if c == '\r' && i + 1 < |text| && text[i + 1] == '\n' { i := i + 1; }
        record, value, quotedValue := record + [value], "", false;
        records, record := records + [record], [];
      } else {
        value := value + [c];
      }
      i := i + 1;
    }
    if inQuotes { return CsvError(|records| + 1); }
    if value != "" || |record| > 0 || quotedValue {
      record := record + [value];
      records := records + [record];
    }
    return Records(records);
  }
}
