/**
 * What the import gate complains of, what an imported test holds of its
 * document, and which file each question is linked to.
 */
module DocumentLaws {
  import opened Basics
  import opened Text
  import opened Questions
  import opened QuestionLaws
  import opened Snapshots
  import opened SectionKeys
  import opened Content
  import opened Documents
  import opened Imports
  import opened Transfer
  import CopyLaws
  import Bands

  // ----- What is complained of --------------------------------------------------------------

  /** A section goes by its key and its name, in lower case. */
  predicate GoesBy(s: CanonicalSection, name: string) { name == ToLower(s.key) || name == ToLower(s.name) }

  predicate TwoGoBy(sections: seq<CanonicalSection>, name: string) {
    exists i, j :: 0 <= i < j < |sections| && GoesBy(sections[i], name) && GoesBy(sections[j], name)
  }

  /** When a document has this problem. */
  ghost predicate HasProblem(d: Document, p: DocumentProblem) {
    match p
    case TwoSections(name) => TwoGoBy(d.sections, name)
    case NoSuchSection(i, section) =>
      && i < |d.questions| && Normalize(d.questions[i]).section == Some(section)
      && forall s <- d.sections :: !GoesBy(s, ToLower(section))
    case BadQuestion(i, problem) =>
      i < |d.questions| && Has(Normalize(d.questions[i]), d.settings.scoringMethod, problem)
    case TwoBands => exists i, j :: 0 <= i < j < |d.bands| && d.bands[i].minScore == d.bands[j].minScore
  }

  lemma {:induction false} ClashListed(names: seq<string>, taken: set<string>, p: DocumentProblem)
    ensures p in Clashes(names, taken) <==> p.TwoSections? && p.name in names && p.name in taken
  {
    if names != [] {
      ClashListed(names[..|names| - 1], taken, p);
      SplitLast(names);
    }
  }

  lemma {:induction false} NamesListed(sections: seq<CanonicalSection>, name: string)
    ensures name in AllNames(sections) <==> exists i :: 0 <= i < |sections| && GoesBy(sections[i], name)
  {
    if sections != [] {
      var n := |sections| - 1;
      NamesListed(sections[..n], name);
      if i :| 0 <= i < n && GoesBy(sections[..n][i], name) { assert sections[i] == sections[..n][i]; }
      if i :| 0 <= i < |sections| && GoesBy(sections[i], name) && i < n { assert sections[i] == sections[..n][i]; }
    }
  }

  /** The last section shares a name with one before it. */
  lemma TwoMore(sections: seq<CanonicalSection>, name: string)
    requires sections != []
    ensures var n := |sections| - 1;
      TwoGoBy(sections, name) <==>
        TwoGoBy(sections[..n], name) || (name in CalledBy(sections[n]) && name in AllNames(sections[..n]))
  {
    var n := |sections| - 1;
    var init := sections[..n];
    NamesListed(init, name);
    assert forall i :: 0 <= i < n ==> init[i] == sections[i];
  }

  lemma {:induction false} SectionListed(sections: seq<CanonicalSection>, p: DocumentProblem)
    ensures p in SectionProblems(sections) <==> p.TwoSections? && TwoGoBy(sections, p.name)
  {
    if sections != [] {
      var n := |sections| - 1;
      SectionListed(sections[..n], p);
      ClashListed(CalledBy(sections[n]), AllNames(sections[..n]), p);
      if p.TwoSections? { TwoMore(sections, p.name); }
    }
  }

  lemma FoundListed(q: CanonicalQuestion, at: nat, scoring: ScoringMethod, p: DocumentProblem)
    ensures p in Map((x: Problem) => BadQuestion(at, x), QuestionProblems(q, scoring))
      <==> p.BadQuestion? && p.index == at && Has(q, scoring, p.problem)
  {
    var found := QuestionProblems(q, scoring);
    var listed := Map((x: Problem) => BadQuestion(at, x), found);
    if p.BadQuestion? {
      ProblemsMean(q, scoring, p.problem);
      if p.index == at && p.problem in found {
        var k :| 0 <= k < |found| && found[k] == p.problem;
        assert listed[k] == p;
      }
    }
  }

  lemma OneListed(raw: CanonicalQuestion, at: nat, names: set<string>, scoring: ScoringMethod, p: DocumentProblem)
    ensures p in ProblemsOf(raw, at, names, scoring) <==>
      || (p.NoSuchSection? && p.index == at
          && Normalize(raw).section == Some(p.section) && ToLower(p.section) !in names)
      || (p.BadQuestion? && p.index == at && Has(Normalize(raw), scoring, p.problem))
  {
    var q := Normalize(raw);
    FoundListed(q, at, scoring, p);
    assert q.section.Some? ==> q.section.value != "";
  }

  lemma {:induction false} QuestionListed(questions: seq<CanonicalQuestion>, names: set<string>, scoring: ScoringMethod,
    p: DocumentProblem)
    ensures p in QuestionsProblems(questions, names, scoring) <==>
      || (p.NoSuchSection? && p.index < |questions|
          && Normalize(questions[p.index]).section == Some(p.section) && ToLower(p.section) !in names)
      || (p.BadQuestion? && p.index < |questions| && Has(Normalize(questions[p.index]), scoring, p.problem))
  {
    if questions != [] {
      var n := |questions| - 1;
      QuestionListed(questions[..n], names, scoring, p);
      OneListed(questions[n], n, names, scoring, p);
    }
  }

  /** The gate complains of exactly the problems a document has. */
  lemma GateComplains(d: Document, p: DocumentProblem)
    ensures p in DocumentProblems(d) <==> HasProblem(d, p)
  {
    SectionListed(d.sections, p);
    QuestionListed(d.questions, AllNames(d.sections), d.settings.scoringMethod, p);
    if p.NoSuchSection? { NamesListed(d.sections, ToLower(p.section)); }
  }

  // ----- What stops a test from being published --------------------------------------------------

  /** When a test has this problem. */
  ghost predicate Stops(t: Test, p: PublishProblem) {
    match p
    case NoQuestions => t.questions == []
    case InQuestion(i, problem) =>
      i < |t.questions| && Has(Normalize(ToCanonical(t.questions[i], None)), t.settings.scoringMethod, problem)
    case MissingFile(i, file) =>
      i < |t.questions| && t.questions[i].media == None && t.questions[i].mediaFileName == Some(file) && file != ""
  }

  lemma {:induction false} IssueListed(questions: seq<StoredQuestion>, scoring: ScoringMethod, p: PublishProblem)
    ensures p in IssuesFrom(questions, scoring) <==> match p
      case NoQuestions => false
      case InQuestion(i, problem) =>
        i < |questions| && Has(Normalize(ToCanonical(questions[i], None)), scoring, problem)
      case MissingFile(i, file) =>
        i < |questions| && questions[i].media == None && questions[i].mediaFileName == Some(file) && file != ""
  {
    if questions != [] {
      var n := |questions| - 1;
      IssueListed(questions[..n], scoring, p);
      RowListed(questions[n], n, scoring, p);
    }
  }

  lemma RowListed(q: StoredQuestion, at: nat, scoring: ScoringMethod, p: PublishProblem)
    ensures p in QuestionIssues(q, at, scoring) <==> match p
      case NoQuestions => false
      case InQuestion(i, problem) => i == at && Has(Normalize(ToCanonical(q, None)), scoring, problem)
      case MissingFile(i, file) => i == at && q.media == None && q.mediaFileName == Some(file) && file != ""
  {
    var found := QuestionProblems(Normalize(ToCanonical(q, None)), scoring);
    var listed := Map((x: Problem) => InQuestion(at, x), found);
    if p.InQuestion? {
      ProblemsMean(Normalize(ToCanonical(q, None)), scoring, p.problem);
      if p.index == at && p.problem in found {
        var k :| 0 <= k < |found| && found[k] == p.problem;
        assert listed[k] == p;
      }
    }
  }

  /** A test is stopped by exactly the problems it has. */
  lemma PublishComplains(t: Test, p: PublishProblem)
    ensures p in PublishProblems(t) <==> Stops(t, p)
  {
    IssueListed(t.questions, t.settings.scoringMethod, p);
  }

  // ----- What an imported test holds -----------------------------------------------------------

  ghost predicate SectionFrom(c: CanonicalSection, s: StoredSection) {
    IsTrim(c.name, s.name) && IsTidy(c.description, s.description) && s.weight == c.weight
  }

  ghost predicate BandFrom(b: SnapshotBand, stored: SnapshotBand) {
    stored.minScore == b.minScore && IsTrim(b.name, stored.name) && IsTidy(b.interpretation, stored.interpretation)
    && IsTidy(b.recommendedAction, stored.recommendedAction)
  }

  /** The columns of a row are the normalized question's, its section and file aside. */
  predicate ColumnsFrom(q: CanonicalQuestion, row: StoredQuestion) {
    && row.ref == q.ref && row.kind == q.kind && row.instruction == q.instruction && row.context == q.context
    && row.stem == q.stem && row.employerPrompt == q.employerPrompt && row.employerValue == q.employerValue
    && row.difficulty == q.difficulty && row.rationale == q.rationale && row.transcript == q.transcript
    && row.shuffleOptions == q.shuffleOptions && row.keepLastOptionFixed == q.keepLastOptionFixed
    && |row.options| == |q.options|
    && forall i :: 0 <= i < |q.options| ==> CopyLaws.ExportedOption(q.options[i], row.options[i])
  }

  /** The first asset with the id a question gives, where the import knows that id. */
  predicate IsById(library: Library, id: Option<string>, at: nat) {
    && at < |library.assets| && id == Some(library.assets[at].id) && id != Some("")
    && library.assets[at].id in library.ids
    && forall k :: 0 <= k < at ==> library.assets[k].id != library.assets[at].id
  }

  ghost predicate IsNamed(library: Library, file: string, asset: Option<Asset>) {
    exists i :: 0 <= i < |library.assets| && asset == Some(library.assets[i])
      && IsBest(library.assets, file, library.favoured, i)
  }

  /** A question's file: the one with its id, or else the best of its name, or else a name to upload one under. */
  ghost predicate LinkedTo(library: Library, id: Option<string>, file: Option<string>, links: FileLinks) {
    if exists at: nat :: IsById(library, id, at) then
      links.mediaFileName == None
      && exists at: nat :: IsById(library, id, at) && links.media == Some(library.assets[at])
    else if file.Some? && file.value in library.files && exists a <- library.assets :: a.originalName == file.value then
      links.mediaFileName == None && IsNamed(library, file.value, links.media)
    else links == FileLinks(None, file)
  }

  lemma LookUpMeans(library: Library, media: CanonicalMedia)
    requires BlankToNull(media.file) == media.file
    ensures LinkedTo(library, media.assetId, media.file, LookUp(library, Some(media)))
  {
    var at := Find((a: Asset) => media.assetId == Some(a.id), library.assets);
    if at < |library.assets| { assert forall k: nat :: IsById(library, media.assetId, k) ==> k == at; }
    if media.file.Some? { NamedIsBest(library.assets, media.file.value, library.favoured); }
    assert (exists k: nat :: IsById(library, media.assetId, k)) <==> IsById(library, media.assetId, at);
  }

  lemma NothingLinked(library: Library)
    ensures LookUp(library, None) == FileLinks(None, None)
  {
  }

  /** What the test holds of its document. */
  ghost predicate HoldsAll(d: Document, t: Test) {
    && IsTrim(d.settings.name, t.settings.name) && t.settings == d.settings.(name := t.settings.name)
    && |t.sections| == |d.sections| && |t.questions| == |d.questions| && |t.bands| == |d.bands|
    && (forall i :: 0 <= i < |t.sections| ==> SectionFrom(d.sections[i], t.sections[i]))
    && (forall i :: 0 <= i < |t.questions| ==> ColumnsFrom(Normalize(d.questions[i]), t.questions[i]))
    && (forall i :: 0 <= i < |t.bands| ==> BandFrom(d.bands[i], t.bands[i]))
  }

  lemma OptionColumns(q: CanonicalQuestion, rows: seq<SnapshotOption>, i: nat)
    requires OptionsStored(Normalize(q).options, rows) && i < |rows|
    ensures CopyLaws.ExportedOption(Normalize(q).options[i], rows[i])
  {
    assert Normalize(q).options[i].caption.Some?;
  }

  lemma RowColumns(raw: CanonicalQuestion, row: StoredQuestion, sectionId: Option<Id>, library: Library)
    requires QuestionWritten(raw, row, sectionId, library)
    ensures ColumnsFrom(Normalize(raw), row)
  {
    forall i | 0 <= i < |row.options| ensures CopyLaws.ExportedOption(Normalize(raw).options[i], row.options[i]) {
      OptionColumns(raw, row.options, i);
    }
  }

  lemma BandHeld(b: SnapshotBand)
    ensures BandFrom(b, StoreBand(b))
  {
    Trims(b.name);
    Tidies(b.interpretation);
    Tidies(b.recommendedAction);
  }

  /** An import keeps all of the document: texts tidied, questions normalized, the rest as it is. */
  lemma ImportHolds(d: Document, t: Test, library: Library)
    requires Written(d, t, library)
    ensures HoldsAll(d, t)
  {
    Trims(d.settings.name);
    forall i | 0 <= i < |t.sections| ensures SectionFrom(d.sections[i], t.sections[i]) {
      assert t.sections[i] == StoreSection(d.sections[i], t.sections[i].id);
      Trims(d.sections[i].name);
      Tidies(d.sections[i].description);
    }
    forall i: nat | i < |t.questions| ensures ColumnsFrom(Normalize(d.questions[i]), t.questions[i]) {
      assert RowFor(d, t.sections, library)(i, t.questions[i]);
      RowColumns(d.questions[i], t.questions[i],
        SectionOf(Normalize(d.questions[i]), d.sections, t.sections), library);
    }
    forall i | 0 <= i < |t.bands| ensures BandFrom(d.bands[i], t.bands[i]) { BandHeld(d.bands[i]); }
  }

  /** And links each question to its file. */
  lemma ImportLinks(d: Document, t: Test, library: Library, i: nat)
    requires Written(d, t, library) && i < |d.questions|
    ensures var row := t.questions[i];
      match Normalize(d.questions[i]).media
      case None => LinkedTo(library, None, None, FileLinks(row.media, row.mediaFileName))
      case Some(m) => LinkedTo(library, m.assetId, m.file, FileLinks(row.media, row.mediaFileName))
  {
    var media := Normalize(d.questions[i]).media;
    assert RowFor(d, t.sections, library)(i, t.questions[i]);
    if media.Some? { LookUpMeans(library, media.value); } else { NothingLinked(library); }
  }

  lemma CopiedSection(fold: Fold, t: Test, name: string, copy: Test, library: Library, start: nat, next: nat, i: nat)
    requires IsCopy(fold, t, name, copy, library, start, next) && i < |t.sections|
    ensures |copy.sections| == |t.sections| && copy.sections[i] == t.sections[i].(id := copy.sections[i].id)
  {
    var d := Renamed(ToDocument(fold, t), name);
    assert copy.sections[i] == StoreSection(d.sections[i], copy.sections[i].id) && t.sections[i] in t.sections;
  }

  lemma CopiedBands(t: Test)
    requires forall b <- t.bands :: StoreBand(b) == b
    ensures Map(StoreBand, Bands.HighestFirst(t.bands)) == Bands.HighestFirst(t.bands)
  {
    var sorted := Bands.HighestFirst(t.bands);
    Bands.SortKeeps(t.bands);
    forall i | 0 <= i < |sorted| ensures StoreBand(sorted[i]) == sorted[i] { assert sorted[i] in multiset(t.bands); }
  }

  /** A copy's settings are the original's but for the name, and so are its sections and bands. */
  lemma CopyKeeps(fold: Fold, t: Test, name: string, copy: Test, library: Library, start: nat, next: nat)
    requires IsCopy(fold, t, name, copy, library, start, next)
    ensures IsTrim(name, copy.settings.name) && copy.settings == t.settings.(name := copy.settings.name)
    ensures |copy.sections| == |t.sections|
    ensures forall i :: 0 <= i < |t.sections| ==> copy.sections[i] == t.sections[i].(id := copy.sections[i].id)
    ensures SameItems(copy.bands, t.bands) && Bands.Descending(copy.bands)
  {
    Trims(name);
    CopiedBands(t);
    Bands.SortKeeps(t.bands);
    forall i | 0 <= i < |t.sections| ensures copy.sections[i] == t.sections[i].(id := copy.sections[i].id) {
      CopiedSection(fold, t, name, copy, library, start, next, i);
    }
  }
}
