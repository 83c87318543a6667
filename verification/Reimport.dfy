/**
 * What importing a test's own CSV export gives for any stored question, whether
 * or not the columns can say all of it.
 */
module Reimport {
  import opened Basics
  import opened Text
  import opened Questions
  import SectionKeys
  import opened Content
  import opened CsvImport
  import opened SectionList
  import opened QuestionCsv
  import opened ExportImport

  // ----- One question -------------------------------------------------------------------------

  /** What an option is read back as: scale points numbered 1 to n, with wording at the ends only or no role wording. */
  function ReadOption(kind: QuestionType, o: CanonicalOption, i: nat, last: nat): CanonicalOption {
    match kind
    case RatingScale =>
      var ends := i == 0 || i == last;
      CanonicalOption(Some(NumberText(i + 1)), if ends then o.text else "", if ends then o.employerText else None,
        Some(i + 1), false)
    case ChoiceScale => CanonicalOption(Some(NumberText(i + 1)), o.text, None, Some(i + 1), false)
    case _ => o
  }

  /** A True/False question without texts gets the two words. */
  function WithWords(o: CanonicalOption, i: nat): CanonicalOption { o.(text := if i == 0 then "True" else "False") }

  predicate Wordless(q: CanonicalQuestion) { q.kind == TrueFalse && forall o <- q.options :: o.text == "" }

  function ReadOptions(q: CanonicalQuestion): (r: seq<CanonicalOption>)
    ensures |r| == |q.options|
    ensures forall i :: 0 <= i < |r| ==>
      r[i] == if Wordless(q) then WithWords(q.options[i], i) else ReadOption(q.kind, q.options[i], i, |q.options| - 1)
  {
    seq(|q.options|, i requires 0 <= i < |q.options| =>
      if Wordless(q) then WithWords(q.options[i], i) else ReadOption(q.kind, q.options[i], i, |q.options| - 1))
  }

  /** What an exported question is read back as. */
  function Reread(q: CanonicalQuestion): CanonicalQuestion { q.(options := ReadOptions(q)) }

  /** It is read back at all: the role's value is one of 1 to n, and a True/False question has both texts or neither. */
  predicate Rereads(q: CanonicalQuestion) {
    match q.kind
    case SingleChoice => true
    case TrueFalse => Wordless(q) || !SomeBlank(q.options)
    case _ => q.employerValue.Some? && 1 <= q.employerValue.value <= |q.options|
  }

  /** A stored question as it is exported: normal and ready, its file by name. */
  predicate Exportable(q: CanonicalQuestion, scoring: ScoringMethod) {
    Normal(q) && Ready(q, scoring) && (q.media.Some? ==> q.media.value.assetId.None?)
  }

  // ----- Scales -----------------------------------------------------------------------------

  lemma RereadCells(q: CanonicalQuestion)
    requires IsScale(q.kind)
    ensures CellsOf(Reread(q)) == CellsOf(q)
  {
    var r := Reread(q);
    forall i: nat ensures OptionCell(r, i) == OptionCell(q, i) {}
    forall first, employer ensures EndCell(r, first, employer) == EndCell(q, first, employer) {
      if q.kind == RatingScale && q.options != [] {
        var at := if first then 0 else |q.options| - 1;
        assert r.options[at].text == q.options[at].text && r.options[at].employerText == q.options[at].employerText;
      }
    }
  }

  lemma RereadOptionNormal(q: CanonicalQuestion, i: nat)
    requires Normal(q) && IsScale(q.kind) && i < |q.options|
    ensures NormalizeOption(true, Reread(q).options[i], i) == Reread(q).options[i]
  {
    assert q.options[i] == NormalizeOptions(q.kind, q.options)[i];
  }

  lemma RereadNormal(q: CanonicalQuestion)
    requires Normal(q) && IsScale(q.kind)
    ensures Normal(Reread(q))
  {
    var r := Reread(q);
    forall i | 0 <= i < |r.options| ensures NormalizeOption(true, r.options[i], i) == r.options[i] {
      RereadOptionNormal(q, i);
    }
    assert NormalizeOptions(r.kind, r.options) == r.options;
    OptionsSwapped(q, r.options);
  }

  /** A scale the columns can say is read back, unless the rules refuse it. */
  lemma ScaleRowReads(q: CanonicalQuestion, scoring: ScoringMethod)
    requires Normal(q) && IsScale(q.kind) && CsvCanHold(q) && q.stem != ""
    requires 2 <= |q.options| <= if q.kind == RatingScale then 7 else 6
    ensures ParseRow(CellsOf(q), scoring) ==
      if QuestionProblems(q, scoring) == [] then RowResult(Some(q), [], [])
      else RowResult(None, Map(p => Note(None, Refused(p)), QuestionProblems(q, scoring)), [])
  {
    PrintedFlags(q, scoring);
    PrintedTexts(q);
    ScaleOptionsRead(q);
    RestReadsBack(q, CellsOf(q), OptionsOutcome(q.kind, CellsOf(q)).options);
  }

  lemma ScaleOptionsRead(q: CanonicalQuestion)
    requires Normal(q) && IsScale(q.kind) && CsvCanHold(q)
    requires 2 <= |q.options| <= if q.kind == RatingScale then 7 else 6
    ensures var body := OptionsOutcome(q.kind, CellsOf(q));
      body.errors == [] && body.warnings == [] && NormalizeOptions(q.kind, body.options) == q.options
  {
    if q.kind == RatingScale {
      PrintedPoints(q);
      RatingReadsBack(q, CellsOf(q));
    } else {
      PrintedChoices(q);
      ChoiceCells(q, CellsOf(q));
      ChoicesNormalize(q, OptionsOutcome(q.kind, CellsOf(q)).options);
    }
  }

  lemma RereadHolds(q: CanonicalQuestion)
    requires IsScale(q.kind) && (q.media.Some? ==> q.media.value.assetId.None?)
    requires q.kind == ChoiceScale ==> !SomeBlank(q.options)
    ensures CsvCanHold(Reread(q)) && Climbing(Reread(q).options)
    ensures q.kind == ChoiceScale ==> !SomeBlank(Reread(q).options)
  {
    var r := Reread(q);
    forall i | 0 <= i < |r.options| ensures r.options[i].value == Some(i + 1) {}
    if q.kind == ChoiceScale { RereadTexts(q); }
  }

  lemma RereadTexts(q: CanonicalQuestion)
    requires q.kind == ChoiceScale && !SomeBlank(q.options)
    ensures forall o <- ReadOptions(q) :: o.text != "" && o.employerText == None
  {
    var read := ReadOptions(q);
    forall i | 0 <= i < |read| ensures read[i].text != "" && read[i].employerText == None {
      assert q.options[i] in q.options;
    }
  }

  lemma ScaleRefused(q: CanonicalQuestion, scoring: ScoringMethod)
    requires IsScale(q.kind) && scoring == Alignment && q.stem != "" && Climbing(q.options)
    requires 2 <= |q.options| <= if q.kind == RatingScale then 7 else 6
    requires q.kind == ChoiceScale ==> !SomeBlank(q.options)
    ensures QuestionProblems(q, scoring) == [] <==> HasValue(q.options, q.employerValue)
  {
    ProblemFree(q, scoring);
  }

  /** Numbered 1 to n, a scale is refused exactly when the role's value is none of these. */
  lemma RereadReady(q: CanonicalQuestion, scoring: ScoringMethod)
    requires Exportable(q, scoring) && IsScale(q.kind)
    ensures QuestionProblems(Reread(q), scoring) == [] <==> Rereads(q)
  {
    RereadHolds(q);
    NumberedHas(Reread(q).options, q.employerValue);
    ScaleRefused(Reread(q), scoring);
  }

  lemma NumberedHas(options: seq<CanonicalOption>, value: Option<int>)
    requires forall i :: 0 <= i < |options| ==> options[i].value == Some(i + 1)
    ensures HasValue(options, value) <==> value.Some? && 1 <= value.value <= |options|
  {
    if value.Some? && 1 <= value.value <= |options| { assert options[value.value - 1] in options; }
  }

  lemma ScaleRereads(q: CanonicalQuestion, scoring: ScoringMethod)
    requires Exportable(q, scoring) && IsScale(q.kind)
    ensures var read := ParseRow(CellsOf(q), scoring);
      if Rereads(q) then read == RowResult(Some(Reread(q)), [], []) else read.question.None?
  {
    RereadCells(q);
    RereadNormal(q);
    RereadHolds(q);
    RereadReady(q, scoring);
    ScaleRowReads(Reread(q), scoring);
  }

  // ----- Right answers ------------------------------------------------------------------------

  lemma AsItWas(q: CanonicalQuestion)
    requires !IsScale(q.kind) && !Wordless(q)
    ensures Reread(q) == q
  {
    assert ReadOptions(q) == q.options;
  }

  /** Right-answer options have no role wording. */
  lemma NoRoleWording(q: CanonicalQuestion)
    requires Normal(q) && !IsScale(q.kind)
    ensures forall o <- q.options :: o.employerText == None
  {
    forall i | 0 <= i < |q.options| ensures q.options[i].employerText == None {
      if q.options != [] { assert q.options[i] == NormalizeOptions(q.kind, q.options)[i]; }
    }
  }

  lemma ChoiceRereads(q: CanonicalQuestion, scoring: ScoringMethod)
    requires Exportable(q, scoring) && !IsScale(q.kind) && !SomeBlank(q.options)
    ensures ParseRow(CellsOf(q), scoring) == RowResult(Some(Reread(q)), [], [])
  {
    NoRoleWording(q);
    assert q.options[0] in q.options;
    AsItWas(q);
    RowReadsBack(q, scoring);
  }

  /** The option cells of a True/False question, and its answer cell. */
  lemma TwoCells(q: CanonicalQuestion)
    requires q.kind == TrueFalse && |q.options| == 2 && q.options[0].correct != q.options[1].correct
    ensures var cells := CellsOf(q);
      && OptionTexts(cells) == [q.options[0].text, q.options[1].text, "", "", "", ""]
      && cells.correct == (if q.options[0].correct then "A" else "B")
  {
    assert OPTION_LETTERS[0] == 'A' && OPTION_LETTERS[1] == 'B';
  }

  lemma LetterIndex(options: seq<CanonicalOption>, first: bool)
    ensures CorrectIndex(if first then "A" else "B", options, TrueFalse) ==
      var at := if first then 0 else 1; if at < |options| then Some(at) else None
  {
    assert ToLower("A") == "a" && ToLower("B") == "b";
  }

  /** Without texts the two words are read, and the mark stays in its place. */
  lemma WordlessOptions(q: CanonicalQuestion)
    requires Wordless(q) && |q.options| == 2 && q.options[0].correct != q.options[1].correct
    ensures var body := OptionsOutcome(TrueFalse, CellsOf(q));
      && body.errors == [] && body.warnings == [] && |body.options| == 2
      && forall i :: 0 <= i < 2 ==> body.options[i] == TRUE_FALSE_OPTIONS[i].(correct := q.options[i].correct)
  {
    TwoCells(q);
    assert q.options[0] in q.options && q.options[1] in q.options;
    FilledIs(OptionTexts(CellsOf(q)), 0);
    LetterIndex(TRUE_FALSE_OPTIONS, q.options[0].correct);
  }

  lemma WordlessRereads(q: CanonicalQuestion, scoring: ScoringMethod)
    requires Exportable(q, scoring) && Wordless(q)
    ensures ParseRow(CellsOf(q), scoring) == RowResult(Some(Reread(q)), [], [])
  {
    var r := Reread(q);
    PrintedFlags(q, scoring);
    PrintedTexts(q);
    WordlessOptions(q);
    WordsNormal(q, OptionsOutcome(TrueFalse, CellsOf(q)).options);
    OptionsSwapped(q, r.options);
    RestReadsBack(r, CellsOf(q), OptionsOutcome(TrueFalse, CellsOf(q)).options);
    CorrectOfTwo(r.options);
    ProblemFree(r, scoring);
  }

  lemma WordNormal(o: CanonicalOption, i: nat)
    requires i < 2 && o == NormalizeOption(false, o, i) && o.text == ""
    ensures NormalizeOption(false, TRUE_FALSE_OPTIONS[i].(correct := o.correct), i) == WithWords(o, i)
    ensures NormalizeOption(false, WithWords(o, i), i) == WithWords(o, i)
  {
    assert Trim("True") == "True" && Trim("False") == "False";
  }

  lemma WordsNormal(q: CanonicalQuestion, read: seq<CanonicalOption>)
    requires NormalizeOptions(TrueFalse, q.options) == q.options && Wordless(q) && |q.options| == 2 && |read| == 2
    requires forall i :: 0 <= i < 2 ==> read[i] == TRUE_FALSE_OPTIONS[i].(correct := q.options[i].correct)
    ensures NormalizeOptions(TrueFalse, read) == Reread(q).options
    ensures NormalizeOptions(TrueFalse, Reread(q).options) == Reread(q).options
  {
    forall i | 0 <= i < 2
      ensures NormalizeOption(false, read[i], i) == Reread(q).options[i]
      ensures NormalizeOption(false, Reread(q).options[i], i) == Reread(q).options[i]
    {
      assert q.options[i] == NormalizeOption(false, q.options[i], i) && q.options[i] in q.options;
      WordNormal(q.options[i], i);
    }
  }

  lemma OptionsSwapped(q: CanonicalQuestion, options: seq<CanonicalOption>)
    requires Normal(q) && NormalizeOptions(q.kind, options) == options
    ensures Normal(q.(options := options))
  {
    assert Normalize(q.(options := options)) == Normalize(q).(options := options);
  }

  lemma FilledIs(texts: seq<string>, n: nat)
    requires n <= |texts| && (n > 0 ==> texts[n - 1] != "") && forall k :: n <= k < |texts| ==> texts[k] == ""
    ensures FilledCount(texts) == n
  {
  }

  /** What is read back is normal again. */
  lemma RereadStays(q: CanonicalQuestion, scoring: ScoringMethod)
    requires Exportable(q, scoring)
    ensures Normal(Reread(q))
  {
    if IsScale(q.kind) {
      RereadNormal(q);
    } else if Wordless(q) {
      WordlessStays(q, scoring);
    } else {
      AsItWas(q);
    }
  }

  lemma WordlessStays(q: CanonicalQuestion, scoring: ScoringMethod)
    requires Exportable(q, scoring) && Wordless(q)
    ensures Normal(Reread(q))
  {
    WordlessOptions(q);
    WordsNormal(q, OptionsOutcome(TrueFalse, CellsOf(q)).options);
    OptionsSwapped(q, Reread(q).options);
  }

  /** With one text missing the columns hold a gap, or one option. */
  lemma HalfWorded(q: CanonicalQuestion)
    requires q.kind == TrueFalse && |q.options| == 2 && q.options[0].correct != q.options[1].correct
    requires (q.options[0].text == "") != (q.options[1].text == "")
    ensures var body := OptionsOutcome(TrueFalse, CellsOf(q)); body.errors != [] || |body.options| == 1
  {
    TwoCells(q);
    var texts := OptionTexts(CellsOf(q));
    if q.options[0].text == "" {
      FilledIs(texts, 2);
      assert Find((t: string) => t == "", texts[..2]) == 0;
    } else {
      FilledIs(texts, 1);
      LetterIndex(Map(PlainOption, texts[..1]), q.options[0].correct);
    }
  }

  lemma BlankOne(options: seq<CanonicalOption>)
    requires |options| == 2
    ensures SomeBlank(options) <==> options[0].text == "" || options[1].text == ""
    ensures (forall o <- options :: o.text == "") <==> options[0].text == "" && options[1].text == ""
  {
    assert options == [options[0], options[1]];
  }

  lemma OneOptionRefused(raw: CanonicalQuestion, scoring: ScoringMethod)
    requires raw.kind == TrueFalse && |raw.options| == 1
    ensures QuestionProblems(Normalize(raw), scoring) != []
  {
  }

  /** So the row is refused. */
  lemma HalfWordedRefused(q: CanonicalQuestion, scoring: ScoringMethod)
    requires Exportable(q, scoring) && q.kind == TrueFalse && !Rereads(q)
    ensures ParseRow(CellsOf(q), scoring).question.None?
  {
    BlankOne(q.options);
    HalfWorded(q);
    PrintedFlags(q, scoring);
    if ParseRow(CellsOf(q), scoring).question.Some? {
      var raw := QuestionOfRow(CellsOf(q), scoring);
      OneOptionRefused(raw, scoring);
      assert false;
    }
  }

  /** Any stored question's own row is read back, clean, as `Reread` says, or not at all. */
  lemma RowRereads(q: CanonicalQuestion, scoring: ScoringMethod)
    requires Exportable(q, scoring)
    ensures var read := ParseRow(CellsOf(q), scoring);
      if Rereads(q) then read == RowResult(Some(Reread(q)), [], []) else read.question.None?
  {
    if IsScale(q.kind) {
      ScaleRereads(q, scoring);
    } else if Wordless(q) {
      WordlessRereads(q, scoring);
    } else if Rereads(q) {
      ChoiceRereads(q, scoring);
    } else {
      HalfWordedRefused(q, scoring);
    }
  }

  // ----- A whole file ----------------------------------------------------------------------------

  lemma PrintedRowRereads(q: CanonicalQuestion, columns: map<Column, nat>, scoring: ScoringMethod)
    requires InOrder(columns) && Exportable(q, scoring)
    ensures !BlankRecord(PrintedRow(q))
    ensures var read := RowReader(columns, scoring)(PrintedRow(q));
      if Rereads(q) then read == RowResult(Some(Reread(q)), [], []) else read.question.None?
  {
    NotBlank(q);
    RecordReads(q, columns);
    RowRereads(q, scoring);
  }

  lemma {:induction false} RowsAtMost(data: seq<seq<string>>, n: nat, read: seq<string> -> RowResult)
    requires n <= |data|
    ensures |ReadData(data, n, read).rows| <= n
    ensures (exists k :: 0 <= k < n && read(data[k]).question.None?) ==> |ReadData(data, n, read).rows| < n
  {
    if n > 0 { RowsAtMost(data, n - 1, read); }
  }

  ghost predicate AllExportable(questions: seq<CanonicalQuestion>, scoring: ScoringMethod) {
    forall q <- questions :: Exportable(q, scoring)
  }

  ghost predicate AllReread(questions: seq<CanonicalQuestion>) { forall q <- questions :: Rereads(q) }

  lemma RereadData(questions: seq<CanonicalQuestion>, columns: map<Column, nat>, scoring: ScoringMethod)
    requires InOrder(columns) && AllExportable(questions, scoring) && AllReread(questions)
    ensures ReadData(Map(PrintedRow, questions), |questions|, RowReader(columns, scoring))
      == ParsedCsv(Numbered(Map(Reread, questions)), [], [])
  {
    var data, read, all := Map(PrintedRow, questions), RowReader(columns, scoring), Map(Reread, questions);
    forall i | 0 <= i < |data| ensures !BlankRecord(data[i]) && read(data[i]) == RowResult(Some(all[i]), [], []) {
      assert questions[i] in questions;
      PrintedRowRereads(questions[i], columns, scoring);
    }
    DataReads(data, all, |data|, read);
    assert all[..|all|] == all;
  }

  /** A row that is not read back leaves fewer questions than rows, which an error explains. */
  lemma RefusedData(questions: seq<CanonicalQuestion>, columns: map<Column, nat>, scoring: ScoringMethod, k: nat)
    requires InOrder(columns) && AllExportable(questions, scoring) && k < |questions| && !Rereads(questions[k])
    ensures |ReadData(Map(PrintedRow, questions), |questions|, RowReader(columns, scoring)).rows| < |questions|
  {
    var data, read := Map(PrintedRow, questions), RowReader(columns, scoring);
    assert questions[k] in questions;
    PrintedRowRereads(questions[k], columns, scoring);
    assert read(data[k]).question.None?;
    RowsAtMost(data, |data|, read);
  }

  lemma {:induction false} AllFilled(records: seq<seq<string>>)
    requires forall i :: 0 <= i < |records| ==> !BlankRecord(records[i])
    ensures Filled(records) == |records|
  {
    CountAll((r: seq<string>) => !BlankRecord(r), records);
  }

  lemma RefusedFile(questions: seq<CanonicalQuestion>, scoring: ScoringMethod, k: nat)
    requires AllExportable(questions, scoring) && k < |questions| && !Rereads(questions[k])
    ensures ReadText(QuestionsToCsv(questions), scoring).errors != []
  {
    var data, text := Map(PrintedRow, questions), QuestionsToCsv(questions);
    var records := [HeaderRow()] + data;
    PrintedRecords(questions);
    assert records[1..] == data;
    var columns := PrintedTable(records, Reader(scoring));
    RefusedData(questions, columns, scoring, k);
    forall i | 0 <= i < |data| ensures !BlankRecord(data[i]) {
      assert questions[i] in questions;
      PrintedRowRereads(questions[i], columns, scoring);
    }
    AllFilled(data);
    if ReadText(text, scoring).errors == [] {
      EveryRowAccounted(text, scoring);
      assert false;
    }
  }

  /** An export is read without errors exactly when each question is read back, and then as `Reread` says. */
  lemma FileRereads(questions: seq<CanonicalQuestion>, scoring: ScoringMethod)
    requires AllExportable(questions, scoring) && questions != []
    ensures ReadText(QuestionsToCsv(questions), scoring).errors == [] <==> AllReread(questions)
    ensures AllReread(questions) ==>
      ReadText(QuestionsToCsv(questions), scoring) == ParsedCsv(Numbered(Map(Reread, questions)), [], [])
  {
    if AllReread(questions) {
      var data := Map(PrintedRow, questions);
      PrintedRecords(questions);
      assert ([HeaderRow()] + data)[1..] == data;
      var columns := PrintedTable([HeaderRow()] + data, Reader(scoring));
      RereadData(questions, columns, scoring);
      CleanBody(data, columns, Reader(scoring), Map(Reread, questions));
    } else {
      var k :| 0 <= k < |questions| && !Rereads(questions[k]);
      RefusedFile(questions, scoring, k);
    }
  }

  // ----- A whole test ------------------------------------------------------------------------------

  lemma InFileExportable(q: StoredQuestion, sections: seq<StoredSection>, scoring: ScoringMethod)
    requires Kept(q, scoring)
    ensures Exportable(ExportImport.InFile(q, sections), scoring)
  {
    InFileNormal(q, sections);
    InFileSame(q, sections, scoring);
    SameRules(ExportImport.InFile(q, sections), ToCanonical(q, None).(media := None), scoring);
    ProblemFree(ExportImport.InFile(q, sections), scoring);
  }

  /** The rows a clean re-import of the test gives. */
  function RereadRows(questions: seq<StoredQuestion>, sections: seq<StoredSection>): seq<QuestionRow> {
    Numbered(Map(Reread, AllInFile(questions, sections)))
  }

  lemma NoneNewReread(fold: SectionKeys.Fold, questions: seq<StoredQuestion>, sections: seq<StoredSection>)
    requires SectionsApart(sections) && forall q <- questions :: InSections(q.sectionId, sections)
    ensures NewNames(fold, sections, RereadRows(questions, sections)) == []
  {
    var rows := RereadRows(questions, sections);
    forall k | 0 <= k < |rows|
      ensures NamesSection(rows[k].question) ==>
        SectionNamed(fold, sections, [], rows[k].question.section.value).Some?
    {
      NamesItsSection(fold, sections, questions[k]);
    }
    NothingNamedNew(fold, sections, rows);
  }

  /**
   * Any test's own export, imported in place of its questions, is reported clean
   * exactly when it has questions and each is read back; the rows are then what
   * `Reread` says, whether or not that is what was exported.
   */
  lemma CleanReimport(fold: SectionKeys.Fold, questions: seq<StoredQuestion>, sections: seq<StoredSection>,
    scoring: ScoringMethod)
    requires Restorable(questions, sections, scoring) && questions != []
    ensures var report := ReimportReport(fold, questions, sections, scoring);
      && (report.errors == [] <==> AllReread(AllInFile(questions, sections)))
      && (report.errors == [] ==> report == Report(RereadRows(questions, sections), [], []))
  {
    var all := AllInFile(questions, sections);
    SamePrint(questions, sections);
    forall i | 0 <= i < |all| ensures Exportable(all[i], scoring) {
      assert questions[i] in questions;
      InFileExportable(questions[i], sections, scoring);
    }
    FileRereads(all, scoring);
    CleanReport(fold, sections, 0, ReadText(QuestionsToCsv(all), scoring));
    if AllReread(all) { NoneNewReread(fold, questions, sections); }
  }
}
