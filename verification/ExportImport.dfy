/**
 * A test's questions exported as CSV and imported again in place of those there
 * were: when every question comes back, in its own section.
 */
module ExportImport {
  import opened Basics
  import opened Text
  import opened Questions
  import opened Snapshots
  import opened SectionKeys
  import opened Content
  import opened Imports
  import opened CsvImport
  import opened SectionList
  import opened Authoring
  import QuestionCsv

  // ----- The file --------------------------------------------------------------------------

  function SectionName(q: StoredQuestion, sections: seq<StoredSection>): Option<string> {
    if q.sectionId.None? then None
    else
      var at := SectionAt(sections, q.sectionId.value);
      if at < |sections| then Some(sections[at].name) else None
  }

  function Exported(q: StoredQuestion, sections: seq<StoredSection>): CanonicalQuestion {
    Normalize(ToCanonical(q, SectionName(q, sections)))
  }

  function ExportCsv(questions: seq<StoredQuestion>, sections: seq<StoredSection>): string {
    QuestionCsv.QuestionsToCsv(Map((q: StoredQuestion) => Exported(q, sections), questions))
  }

  /** The question as a CSV can say it: with a file name, but no file id. */
  function ByName(q: CanonicalQuestion): CanonicalQuestion {
    q.(media := if q.media.Some? then NormalizeMedia(Some(CanonicalMedia(q.media.value.file, None))) else None)
  }

  /** The question the file holds for a row of the test. */
  function InFile(q: StoredQuestion, sections: seq<StoredSection>): CanonicalQuestion { ByName(Exported(q, sections)) }

  function AllInFile(questions: seq<StoredQuestion>, sections: seq<StoredSection>): seq<CanonicalQuestion> {
    Map((q: StoredQuestion) => InFile(q, sections), questions)
  }

  lemma InFileNormal(q: StoredQuestion, sections: seq<StoredSection>)
    ensures Normal(InFile(q, sections))
  {
    var exported := Exported(q, sections);
    NormalizeIdempotent(ToCanonical(q, SectionName(q, sections)));
    MediaStays(exported.media);
    MediaSwapped(exported, ByName(exported).media);
  }

  /** A file given by its name alone, once normalized. */
  lemma MediaStays(media: Option<CanonicalMedia>)
    ensures var named := if media.Some? then NormalizeMedia(Some(CanonicalMedia(media.value.file, None))) else None;
      NormalizeMedia(named) == named
  {
  }

  lemma MediaSwapped(q: CanonicalQuestion, media: Option<CanonicalMedia>)
    requires Normal(q) && NormalizeMedia(media) == media
    ensures Normal(q.(media := media))
  {
    assert Normalize(q.(media := media)) == Normalize(q).(media := media);
  }

  function FileCell(media: Option<CanonicalMedia>): string {
    if media.Some? then media.value.file.GetOr("") else ""
  }

  lemma SameFile(q: CanonicalQuestion)
    requires Normal(q)
    ensures FileCell(ByName(q).media) == FileCell(q.media)
  {
    assert NormalizeMedia(q.media) == q.media;
  }

  lemma SameOptionCells(q: CanonicalQuestion, r: CanonicalQuestion)
    requires q.kind == r.kind && q.options == r.options
    ensures forall i: nat :: QuestionCsv.OptionCell(q, i) == QuestionCsv.OptionCell(r, i)
    ensures forall first, employer :: QuestionCsv.EndCell(q, first, employer) == QuestionCsv.EndCell(r, first, employer)
    ensures QuestionCsv.CorrectCell(q) == QuestionCsv.CorrectCell(r)
  {
  }

  lemma PrintedByName(q: CanonicalQuestion)
    requires Normal(q)
    ensures QuestionCsv.CellsOf(ByName(q)) == QuestionCsv.CellsOf(q)
  {
    SameFile(q);
    SameOptionCells(ByName(q), q);
  }

  lemma SamePrint(questions: seq<StoredQuestion>, sections: seq<StoredSection>)
    ensures ExportCsv(questions, sections) == QuestionCsv.QuestionsToCsv(AllInFile(questions, sections))
  {
    var exported := Map((q: StoredQuestion) => Exported(q, sections), questions);
    forall i | 0 <= i < |questions|
      ensures QuestionCsv.PrintedRow(AllInFile(questions, sections)[i]) == QuestionCsv.PrintedRow(exported[i])
    {
      NormalizeIdempotent(ToCanonical(questions[i], SectionName(questions[i], sections)));
      PrintedByName(exported[i]);
    }
    assert Map(QuestionCsv.PrintedRow, AllInFile(questions, sections)) == Map(QuestionCsv.PrintedRow, exported);
  }

  // ----- Which questions the file can hold ---------------------------------------------------

  /** The option columns can say the question's options. */
  predicate FitsColumns(q: StoredQuestion) {
    QuestionCsv.FromRow(q.kind, Map(ExportOption, q.options))
  }

  /** The file holds a kept question's columns and options. */
  lemma InFileSame(q: StoredQuestion, sections: seq<StoredSection>, scoring: ScoringMethod)
    requires Kept(q, scoring)
    ensures InFile(q, sections).(section := None, media := None) == ToCanonical(q, None).(media := None)
  {
  }

  lemma FitsExactly(q: StoredQuestion, sections: seq<StoredSection>, scoring: ScoringMethod)
    requires Kept(q, scoring)
    ensures QuestionCsv.Importable(InFile(q, sections), scoring) <==> FitsColumns(q)
  {
    InFileNormal(q, sections);
    InFileSame(q, sections, scoring);
    SameRules(InFile(q, sections), ToCanonical(q, None).(media := None), scoring);
    ProblemFree(InFile(q, sections), scoring);
  }

  // ----- Which sections are found again --------------------------------------------------------

  /** A section's name is not blank, and no later section has it for a key. */
  ghost predicate FoundAgain(fold: Fold, sections: seq<StoredSection>, sectionId: Id) {
    var at := SectionAt(sections, sectionId);
    at < |sections| && sections[at].name != "" && NoLaterKey(fold, sections, at, ToLower(sections[at].name))
  }

  /** What a test's sections satisfy: trimmed names, apart, under ids of their own. */
  ghost predicate SectionsApart(sections: seq<StoredSection>) {
    NamesDiffer(Names(sections)) && DistinctIds(sections) && forall s <- sections :: Trimmed(s.name)
  }

  lemma SectionHere(sections: seq<StoredSection>, sectionId: Id)
    requires InSections(Some(sectionId), sections)
    ensures var at := SectionAt(sections, sectionId); at < |sections| && sections[at].id == sectionId
  {
  }

  /** A question is filed under its own section again exactly when that section is found by its name. */
  lemma FiledAgain(fold: Fold, sections: seq<StoredSection>, q: StoredQuestion)
    requires SectionsApart(sections) && InSections(q.sectionId, sections)
    ensures FiledUnder(fold, sections, [], InFile(q, sections)) == q.sectionId
      <==> q.sectionId.Some? ==> FoundAgain(fold, sections, q.sectionId.value)
  {
    if q.sectionId.Some? {
      SectionHere(sections, q.sectionId.value);
      var at := SectionAt(sections, q.sectionId.value);
      assert Names([]) == NewNames(fold, sections, []);
      LandsInItsSection(fold, sections, [], [], at, sections[at].name);
    }
  }

  /** No row names a new section. */
  lemma {:induction false} NothingNamedNew(fold: Fold, sections: seq<StoredSection>, rows: seq<QuestionCsv.QuestionRow>)
    requires forall row <- rows ::
      NamesSection(row.question) ==> SectionNamed(fold, sections, [], row.question.section.value).Some?
    ensures NewNames(fold, sections, rows) == []
  {
    if rows != [] {
      var n := |rows| - 1;
      assert rows[n] in rows;
      NothingNamedNew(fold, sections, rows[..n]);
    }
  }

  lemma NamesItsSection(fold: Fold, sections: seq<StoredSection>, q: StoredQuestion)
    requires SectionsApart(sections) && InSections(q.sectionId, sections)
    ensures var c := InFile(q, sections);
      NamesSection(c) ==> SectionNamed(fold, sections, [], c.section.value).Some?
  {
    if q.sectionId.Some? {
      SectionHere(sections, q.sectionId.value);
      var at := SectionAt(sections, q.sectionId.value);
      ExistingFound(fold, sections, at, ToLower(sections[at].name));
    }
  }

  // ----- Restoring -----------------------------------------------------------------------------

  /** The dry run of importing the export in place of the test's questions. */
  function ReimportReport(fold: Fold, questions: seq<StoredQuestion>, sections: seq<StoredSection>,
    scoring: ScoringMethod): Report {
    ReportOf(fold, sections, 0, QuestionCsv.ReadText(ExportCsv(questions, sections), scoring))
  }

  /** The row brings the question back, in its own section. */
  predicate BringsBack(fold: Fold, sections: seq<StoredSection>, q: StoredQuestion, row: QuestionCsv.QuestionRow) {
    row.question == InFile(q, sections) && FiledUnder(fold, sections, [], row.question) == q.sectionId
  }

  /** The import reports no error and no new section, and each row brings its question back. */
  ghost predicate Restores(fold: Fold, questions: seq<StoredQuestion>, sections: seq<StoredSection>,
    scoring: ScoringMethod) {
    var report := ReimportReport(fold, questions, sections, scoring);
    && report.errors == [] && report.newSections == [] && |report.rows| == |questions|
    && forall k :: 0 <= k < |questions| ==> BringsBack(fold, sections, questions[k], report.rows[k])
  }

  /** A question whose options the columns can say, in a section found again by its name. */
  ghost predicate CanComeBack(fold: Fold, sections: seq<StoredSection>, q: StoredQuestion) {
    FitsColumns(q) && (q.sectionId.Some? ==> FoundAgain(fold, sections, q.sectionId.value))
  }

  /** A test as staff operations keep it. */
  ghost predicate Restorable(questions: seq<StoredQuestion>, sections: seq<StoredSection>, scoring: ScoringMethod) {
    && SectionsApart(sections) && |questions| <= MAX_QUESTIONS && |sections| <= MAX_SECTIONS
    && forall q <- questions :: Kept(q, scoring) && InSections(q.sectionId, sections)
  }

  lemma FileReads(questions: seq<StoredQuestion>, sections: seq<StoredSection>, scoring: ScoringMethod)
    requires questions != [] && forall q <- questions :: Kept(q, scoring) && FitsColumns(q)
    ensures QuestionCsv.ReadText(ExportCsv(questions, sections), scoring)
      == QuestionCsv.ParsedCsv(QuestionCsv.Numbered(AllInFile(questions, sections)), [], [])
  {
    var all := AllInFile(questions, sections);
    SamePrint(questions, sections);
    forall i | 0 <= i < |questions| ensures QuestionCsv.Importable(all[i], scoring) {
      FitsExactly(questions[i], sections, scoring);
    }
    QuestionCsv.ImportableReadsBack(all, scoring);
  }

  lemma NoneNew(fold: Fold, questions: seq<StoredQuestion>, sections: seq<StoredSection>)
    requires SectionsApart(sections) && forall q <- questions :: InSections(q.sectionId, sections)
    ensures NewNames(fold, sections, QuestionCsv.Numbered(AllInFile(questions, sections))) == []
  {
    var rows := QuestionCsv.Numbered(AllInFile(questions, sections));
    forall k | 0 <= k < |rows|
      ensures NamesSection(rows[k].question) ==>
        SectionNamed(fold, sections, [], rows[k].question.section.value).Some?
    {
      NamesItsSection(fold, sections, questions[k]);
    }
    NothingNamedNew(fold, sections, rows);
  }

  lemma ReadsAll(fold: Fold, questions: seq<StoredQuestion>, sections: seq<StoredSection>, scoring: ScoringMethod)
    requires Restorable(questions, sections, scoring) && questions != [] && forall q <- questions :: FitsColumns(q)
    ensures ReimportReport(fold, questions, sections, scoring)
      == Report(QuestionCsv.Numbered(AllInFile(questions, sections)), [], [])
  {
    FileReads(questions, sections, scoring);
    NoneNew(fold, questions, sections);
  }

  lemma RestoredFit(fold: Fold, questions: seq<StoredQuestion>, sections: seq<StoredSection>, scoring: ScoringMethod)
    requires Restorable(questions, sections, scoring) && Restores(fold, questions, sections, scoring)
    ensures questions != [] && forall q <- questions :: CanComeBack(fold, sections, q)
  {
    var text := ExportCsv(questions, sections);
    var rows := QuestionCsv.ReadText(text, scoring).rows;
    CleanReport(fold, sections, 0, QuestionCsv.ReadText(text, scoring));
    QuestionCsv.ImportsAreReady(text, scoring);
    QuestionCsv.EveryRowAccounted(text, scoring);
    forall k | 0 <= k < |questions| ensures CanComeBack(fold, sections, questions[k]) {
      assert BringsBack(fold, sections, questions[k], rows[k]) && rows[k] in rows;
      FitsExactly(questions[k], sections, scoring);
      FiledAgain(fold, sections, questions[k]);
    }
  }

  lemma RowComesBack(fold: Fold, sections: seq<StoredSection>, q: StoredQuestion, row: QuestionCsv.QuestionRow)
    requires SectionsApart(sections) && InSections(q.sectionId, sections) && CanComeBack(fold, sections, q)
    requires row.question == InFile(q, sections)
    ensures BringsBack(fold, sections, q, row)
  {
    FiledAgain(fold, sections, q);
  }

  lemma FitComeBack(fold: Fold, questions: seq<StoredQuestion>, sections: seq<StoredSection>, scoring: ScoringMethod)
    requires Restorable(questions, sections, scoring) && questions != []
    requires forall q <- questions :: CanComeBack(fold, sections, q)
    ensures Restores(fold, questions, sections, scoring)
  {
    ReadsAll(fold, questions, sections, scoring);
    var rows := QuestionCsv.Numbered(AllInFile(questions, sections));
    forall k | 0 <= k < |questions| ensures BringsBack(fold, sections, questions[k], rows[k]) {
      assert questions[k] in questions;
      RowComesBack(fold, sections, questions[k], rows[k]);
    }
  }

  /**
   * Importing a test's own export in place of its questions brings all of them
   * back, each in its section, exactly when there is one, the columns can say
   * each one's options, and each one's section is found by its name.
   */
  lemma RestoresExactly(fold: Fold, questions: seq<StoredQuestion>, sections: seq<StoredSection>,
    scoring: ScoringMethod)
    requires Restorable(questions, sections, scoring)
    ensures Restores(fold, questions, sections, scoring)
      <==> questions != [] && forall q <- questions :: CanComeBack(fold, sections, q)
  {
    if Restores(fold, questions, sections, scoring) {
      RestoredFit(fold, questions, sections, scoring);
    }
    if questions != [] && forall q <- questions :: CanComeBack(fold, sections, q) {
      FitComeBack(fold, questions, sections, scoring);
    }
  }

  // ----- Tests that do not come back ----------------------------------------------------------

  /** A stored scale's points, worded as given, with these values. */
  function Points(texts: seq<string>, values: seq<int>): (r: seq<SnapshotOption>)
    requires |texts| == |values|
    ensures |r| == |texts|
  {
    seq(|texts|, i requires 0 <= i < |texts| =>
      SnapshotOption(i, NumberText(values[i]), texts[i], None, Some(values[i]), false))
  }

  /** A rating scale with nothing else to say. */
  function Scale(sectionId: Option<Id>, texts: seq<string>, values: seq<int>, role: int): StoredQuestion
    requires |texts| == |values|
  {
    StoredQuestion(0, sectionId, None, RatingScale, None, None, "Q", None, None, None, Some(role), None, None, None,
      None, false, Points(texts, values))
  }

  lemma PointsNormal(texts: seq<string>, values: seq<int>)
    requires |texts| == |values| && forall t <- texts :: Trimmed(t)
    ensures var options := Map(ExportOption, Points(texts, values));
      NormalizeOptions(RatingScale, options) == options
  {
    var options := Map(ExportOption, Points(texts, values));
    forall i | 0 <= i < |options| ensures NormalizeOption(true, options[i], i) == options[i] {
      assert texts[i] in texts;
    }
  }

  /** Trimmed texts, and climbing values with the role's among them. */
  predicate ScaleOk(texts: seq<string>, values: seq<int>, role: int) {
    && 2 <= |texts| == |values| <= 7 && (forall t <- texts :: Trimmed(t))
    && (forall i, j :: 0 <= i < j < |values| ==> values[i] < values[j]) && role in values
  }

  lemma ScaleNormal(sectionId: Option<Id>, texts: seq<string>, values: seq<int>, role: int)
    requires ScaleOk(texts, values, role)
    ensures Normal(ToCanonical(Scale(sectionId, texts, values, role), None).(media := None))
  {
    PointsNormal(texts, values);
    assert Trim("Q") == "Q";
  }

  lemma ScaleReady(c: CanonicalQuestion)
    requires c.kind == RatingScale && c.stem != "" && 2 <= |c.options| <= 7 && Climbing(c.options)
    requires HasValue(c.options, c.employerValue)
    ensures QuestionProblems(c, Alignment) == []
  {
    ProblemFree(c, Alignment);
  }

  lemma ScaleKept(sectionId: Option<Id>, texts: seq<string>, values: seq<int>, role: int)
    requires ScaleOk(texts, values, role)
    ensures Kept(Scale(sectionId, texts, values, role), Alignment)
  {
    var c := ToCanonical(Scale(sectionId, texts, values, role), None).(media := None);
    ScaleNormal(sectionId, texts, values, role);
    PointsClimb(texts, values, role);
    ScaleReady(c);
  }

  lemma PointsClimb(texts: seq<string>, values: seq<int>, role: int)
    requires ScaleOk(texts, values, role)
    ensures var options := Map(ExportOption, Points(texts, values));
      Climbing(options) && HasValue(options, Some(role))
  {
    var options := Map(ExportOption, Points(texts, values));
    var k :| 0 <= k < |values| && values[k] == role;
    assert options[k] in options && options[k].value == Some(role);
  }

  /** A test with one question that cannot come back. */
  lemma OneLost(fold: Fold, q: StoredQuestion, sections: seq<StoredSection>, scoring: ScoringMethod)
    requires SectionsApart(sections) && |sections| <= MAX_SECTIONS && Kept(q, scoring)
    requires InSections(q.sectionId, sections)
    requires !CanComeBack(fold, sections, q)
    ensures Restorable([q], sections, scoring) && !Restores(fold, [q], sections, scoring)
  {
    RestoresExactly(fold, [q], sections, scoring);
    assert q in [q];
  }

  /** Wording between the ends of a rating scale is lost. */
  lemma WordingLost(fold: Fold, texts: seq<string>, values: seq<int>, role: int, i: nat)
    requires ScaleOk(texts, values, role) && 0 < i < |texts| - 1 && texts[i] != ""
    ensures var q := Scale(None, texts, values, role);
      Restorable([q], [], Alignment) && !Restores(fold, [q], [], Alignment)
  {
    var q := Scale(None, texts, values, role);
    ScaleKept(None, texts, values, role);
    assert Map(ExportOption, q.options)[i].text == texts[i];
    OneLost(fold, q, [], Alignment);
  }

  /** Three points, the middle one called "Sometimes": a test can hold them, and its export does not bring them back. */
  lemma MiddleWordingLost(fold: Fold)
    ensures var q := Scale(None, ["", "Sometimes", ""], [1, 2, 3], 2);
      Restorable([q], [], Alignment) && !Restores(fold, [q], [], Alignment)
  {
    assert 2 == [1, 2, 3][1];
    WordingLost(fold, ["", "Sometimes", ""], [1, 2, 3], 2, 1);
  }

  /**
   * Two sections, the second's name of letters no key can hold: the questions of
   * the section called "Item" come back under the other one.
   */
  lemma ItemQuestionMoves(fold: Fold, first: StoredSection, second: StoredSection, q: StoredQuestion,
    scoring: ScoringMethod)
    requires first.name == "Item" && second.name == "\U{65E5}\U{672C}" == fold(second.name) && first.id != second.id
    requires q.sectionId == Some(first.id) && Kept(q, scoring)
    ensures Restorable([q], [first, second], scoring) && !Restores(fold, [q], [first, second], scoring)
  {
    PairApart(first, second);
    KeyOfSecond(fold, first, second);
    FirstListed(first, second);
    SectionLost(fold, q, first.id, [first, second], scoring);
  }

  lemma FirstListed(first: StoredSection, second: StoredSection)
    ensures InSections(Some(first.id), [first, second])
  {
    assert first in [first, second];
  }

  lemma SectionLost(fold: Fold, q: StoredQuestion, id: Id, sections: seq<StoredSection>, scoring: ScoringMethod)
    requires SectionsApart(sections) && |sections| <= MAX_SECTIONS && Kept(q, scoring)
    requires q.sectionId == Some(id) && InSections(q.sectionId, sections) && !FoundAgain(fold, sections, id)
    ensures Restorable([q], sections, scoring) && !Restores(fold, [q], sections, scoring)
  {
    OneLost(fold, q, sections, scoring);
  }

  /** There are such questions, and ones the columns can say. */
  lemma SomeQuestionMoves(sectionId: Id)
    ensures var q := Scale(Some(sectionId), ["", ""], [1, 2], 1);
      q.sectionId == Some(sectionId) && Kept(q, Alignment) && FitsColumns(q)
  {
    assert 1 == [1, 2][0];
    ScaleKept(Some(sectionId), ["", ""], [1, 2], 1);
  }

  lemma PairApart(first: StoredSection, second: StoredSection)
    requires first.id != second.id && |first.name| != |second.name| && Trimmed(first.name) && Trimmed(second.name)
    ensures SectionsApart([first, second])
  {
    assert |ToLower(first.name)| != |ToLower(second.name)|;
  }

  lemma KeyOfSecond(fold: Fold, first: StoredSection, second: StoredSection)
    requires first.name == "Item" && second.name == "\U{65E5}\U{672C}" == fold(second.name)
    ensures !FoundAgain(fold, [first, second], first.id)
  {
    ForeignKey(fold, second.name);
    assert ToLower("Item") == "item";
    assert [first, second][1] == second && SectionAt([first, second], first.id) == 0;
  }

  // ----- What the import then stores ------------------------------------------------------------

  /** The row holds the question's columns and options, under its section. */
  predicate SameContent(q: StoredQuestion, row: StoredQuestion) {
    ToCanonical(row, None).(media := None) == ToCanonical(q, None).(media := None) && row.sectionId == q.sectionId
  }

  lemma RowBack(fold: Fold, sections: seq<StoredSection>, library: Library, q: StoredQuestion,
    row: QuestionCsv.QuestionRow, stored: StoredQuestion, scoring: ScoringMethod)
    requires Kept(q, scoring) && BringsBack(fold, sections, q, row)
    requires SavedUnder(fold, sections, [], library)(row.question, stored)
    ensures SameContent(q, stored)
  {
    InFileNormal(q, sections);
    InFileSame(q, sections, scoring);
    LoadsBack(row.question, stored, q.sectionId, LookUp(library, row.question.media));
  }

  /**
   * The import that saves such a report leaves the test with the same sections, and each
   * question's content in its place.
   */
  lemma ReplacedAlike(fold: Fold, questions: seq<StoredQuestion>, sections: seq<StoredSection>, scoring: ScoringMethod,
    after: seq<StoredSection>, library: Library, stored: map<Id, StoredQuestion>, ids: seq<Id>)
    requires Restorable(questions, sections, scoring) && Restores(fold, questions, sections, scoring)
    requires var report := ReimportReport(fold, questions, sections, scoring);
      SavedAll(fold, sections, after, report.newSections, library, stored, ids, report.rows)
    ensures after == sections && |ids| == |questions|
    ensures forall k :: 0 <= k < |questions| ==> ids[k] in stored && SameContent(questions[k], stored[ids[k]])
  {
    var rows := ReimportReport(fold, questions, sections, scoring).rows;
    assert after[..|sections|] == after && after[|sections|..] == [];
    forall k | 0 <= k < |questions| ensures ids[k] in stored && SameContent(questions[k], stored[ids[k]]) {
      assert questions[k] in questions && SavedUnder(fold, sections, [], library)(rows[k].question, stored[ids[k]]);
      assert BringsBack(fold, sections, questions[k], rows[k]);
      RowBack(fold, sections, library, questions[k], rows[k], stored[ids[k]], scoring);
    }
  }

  // ----- Files --------------------------------------------------------------------------------------

  /** The file is the one its name stands for. */
  ghost predicate IsOneFor(library: Library, asset: Asset) {
    exists i :: 0 <= i < |library.assets| && library.assets[i] == asset
      && IsBest(library.assets, asset.originalName, library.favoured, i)
  }

  lemma OneBest(assets: seq<Asset>, file: string, favoured: set<string>, i: nat, j: nat)
    requires i < |assets| && j < |assets| && IsBest(assets, file, favoured, i) && IsBest(assets, file, favoured, j)
    ensures i == j
  {
    assert assets[i] in assets && assets[j] in assets;
  }

  lemma NamedFor(library: Library, asset: Asset)
    ensures Named(library.assets, asset.originalName, library.favoured) == Some(asset) <==> IsOneFor(library, asset)
  {
    var assets, file, favoured := library.assets, asset.originalName, library.favoured;
    NamedIsBest(assets, file, favoured);
    if IsOneFor(library, asset) {
      var i :| 0 <= i < |assets| && assets[i] == asset && IsBest(assets, file, favoured, i);
      assert assets[i] in assets;
      var found := Named(assets, file, favoured).value;
      var j :| 0 <= j < |assets| && assets[j] == found && IsBest(assets, file, favoured, j);
      OneBest(assets, file, favoured, i, j);
    }
  }

  /**
   * An uploaded file comes back exactly when it is the one its name stands for:
   * the newest file of that name the test uses.
   */
  lemma FileBack(sections: seq<StoredSection>, library: Library, q: StoredQuestion, stored: StoredQuestion,
    sectionId: Option<Id>)
    requires q.media.Some? && Trimmed(q.media.value.originalName) && q.media.value.originalName != ""
    requires q.media.value.originalName in library.files
    requires QuestionWritten(InFile(q, sections), stored, sectionId, library)
    ensures stored.media == q.media <==> IsOneFor(library, q.media.value)
  {
    MediaNamed(sections, library, q, stored, sectionId);
    NamedFor(library, q.media.value);
  }

  lemma MediaNamed(sections: seq<StoredSection>, library: Library, q: StoredQuestion, stored: StoredQuestion,
    sectionId: Option<Id>)
    requires q.media.Some? && Trimmed(q.media.value.originalName) && q.media.value.originalName != ""
    requires q.media.value.originalName in library.files
    requires QuestionWritten(InFile(q, sections), stored, sectionId, library)
    ensures stored.media == Named(library.assets, q.media.value.originalName, library.favoured)
  {
    InFileNormal(q, sections);
    InFileMedia(q, sections);
    LookUpByName(library, q.media.value.originalName);
  }

  lemma InFileMedia(q: StoredQuestion, sections: seq<StoredSection>)
    requires q.media.Some? && Trimmed(q.media.value.originalName) && q.media.value.originalName != ""
    ensures InFile(q, sections).media == Some(CanonicalMedia(Some(q.media.value.originalName), None))
  {
    assert Trim(q.media.value.originalName) == q.media.value.originalName;
  }

  lemma LookUpByName(library: Library, file: string)
    requires Trimmed(file) && file != "" && file in library.files
    ensures LookUp(library, Some(CanonicalMedia(Some(file), None))).media
      == Named(library.assets, file, library.favoured)
  {
    assert Trim(file) == file;
  }
}
