/** When a test can be duplicated, and what every imported test is like. */
module CopyLaws {
  import opened Basics
  import opened Text
  import opened Questions
  import opened Snapshots
  import opened SectionKeys
  import opened Content
  import opened Documents
  import opened Imports
  import opened Scoring
  import opened ScoringLaws
  import opened Transfer
  import Bands
  import TakeView

  // ----- Which exports can be imported ---------------------------------------------------------

  /** No section's name, ignoring case, is another's name or the key made for another. */
  ghost predicate NamesFree(fold: Fold, sections: seq<StoredSection>) {
    var keys := Keys(fold, Names(sections));
    forall i, j :: 0 <= i < |sections| && 0 <= j < |sections| && i != j ==>
      ToLower(sections[i].name) != ToLower(sections[j].name) && ToLower(sections[i].name) != keys[j]
  }

  lemma KeysApart(keys: seq<string>, i: nat, j: nat)
    requires Distinct(keys) && i < |keys| && j < |keys| && i != j && forall k <- keys :: IsKeyText(k)
    ensures ToLower(keys[i]) == keys[i] != keys[j] == ToLower(keys[j])
  {
    assert keys[i] in keys && keys[j] in keys;
    KeyStays(keys[i]);
    KeyStays(keys[j]);
  }

  lemma ExportApart(fold: Fold, sections: seq<StoredSection>)
    ensures NamesApart(ExportSections(sections, Keys(fold, Names(sections)))) <==> NamesFree(fold, sections)
  {
    var keys := Keys(fold, Names(sections));
    var exported := ExportSections(sections, keys);
    SectionKeys.KeysDistinct(fold, Names(sections));
    forall i, j | 0 <= i < j < |sections|
      ensures Apart(exported[i], exported[j]) <==>
        && ToLower(sections[i].name) != ToLower(sections[j].name)
        && ToLower(sections[i].name) != keys[j] && ToLower(sections[j].name) != keys[i]
    {
      KeysApart(keys, i, j);
      ApartNames(exported[i], exported[j]);
    }
  }

  lemma ApartNames(a: CanonicalSection, b: CanonicalSection)
    ensures Apart(a, b) <==>
      ToLower(a.key) != ToLower(b.key) && ToLower(a.key) != ToLower(b.name)
      && ToLower(a.name) != ToLower(b.key) && ToLower(a.name) != ToLower(b.name)
  {
    assert ToLower(a.key) in CalledBy(a) && ToLower(a.name) in CalledBy(a);
  }

  /** An exported question passes the gate: kept, and filed under a key of the document. */
  lemma ExportFits(fold: Fold, t: Test, q: StoredQuestion)
    requires Stored(t) && q in t.questions
    ensures var keys := Keys(fold, Names(t.sections));
      var names := AllNames(ExportSections(t.sections, keys));
      Fits(ToCanonical(q, SectionKeyOf(q, t.sections, keys)), names, t.settings.scoringMethod)
  {
    var keys, scoring := Keys(fold, Names(t.sections)), t.settings.scoringMethod;
    var section := SectionKeyOf(q, t.sections, keys);
    var raw := ToCanonical(q, section);
    ExportNormal(q, section, scoring);
    SameRules(ToCanonical(q, None).(media := None), Normalize(raw), scoring);
    ProblemFree(Normalize(raw), scoring);
    if section.Some? {
      var at := SectionAt(t.sections, q.sectionId.value);
      assert keys[at] in keys;
      KeyStays(keys[at]);
      NameTaken(ExportSections(t.sections, keys), keys[at]);
      assert keys[at] in CalledBy(ExportSections(t.sections, keys)[at]);
    }
  }

  /** A test can be duplicated exactly when its section names and band minimums are free of clashes. */
  lemma CopiedWhenNamesFree(fold: Fold, t: Test, name: string)
    requires Stored(t)
    ensures DocumentProblems(Renamed(ToDocument(fold, t), name)) == []
      <==> NamesFree(fold, t.sections) && !BandsClash(Bands.HighestFirst(t.bands))
  {
    var d := Renamed(ToDocument(fold, t), name);
    GateLetsCleanThrough(d);
    ExportApart(fold, t.sections);
    forall c | c in d.questions ensures Fits(c, AllNames(d.sections), t.settings.scoringMethod) {
      var i :| 0 <= i < |d.questions| && d.questions[i] == c;
      assert t.questions[i] in t.questions;
      ExportFits(fold, t, t.questions[i]);
    }
  }

  lemma SlugOfA(fold: Fold, name: string)
    requires fold(name) == "a"
    ensures Slugify(fold, name, SECTION_FALLBACK) == "a"
  {
    assert DashRuns("a", false) == "a" by { assert DashRuns([], false) == []; assert "a"[1..] == ""; }
    assert StripLeft("a") == "a" && StripRight("a") == "a" && "a"[..1] == "a";
  }

  lemma FirstKey(fold: Fold, first: string, second: string)
    requires fold(first) == "a"
    ensures Keys(fold, [first, second])[0] == "a"
  {
    SlugOfA(fold, first);
    assert [first, second][..1] == [first] && [first][..0] == [];
    assert Keys(fold, [first]) == ["a"];
  }

  /** Two sections called "Á" and "a": the first one's key is the second one's name, so the copy is refused. */
  lemma AccentedNameRefused(fold: Fold, first: StoredSection, second: StoredSection)
    requires first.name == "\U{00C1}" && second.name == "a" && fold("\U{00C1}") == "a"
    ensures !NamesFree(fold, [first, second])
  {
    FirstKey(fold, first.name, second.name);
    assert Names([first, second]) == [first.name, second.name];
    assert ToLower("a") == "a";
  }

  // ----- What an import leaves -----------------------------------------------------------------

  /** A row written from a question the gate let through is kept. */
  lemma RowKept(raw: CanonicalQuestion, row: StoredQuestion, sectionId: Option<Id>, library: Library,
    scoring: ScoringMethod)
    requires QuestionWritten(raw, row, sectionId, library) && QuestionProblems(Normalize(raw), scoring) == []
    ensures Kept(row, scoring)
  {
    NormalizeIdempotent(raw);
    StoreKept(Normalize(raw), row, sectionId, LookUp(library, Normalize(raw).media), scoring);
  }

  lemma ImportedRowKept(d: Document, t: Test, library: Library, k: nat)
    requires Clean(d) && Written(d, t, library) && k < |t.questions|
    ensures Kept(t.questions[k], t.settings.scoringMethod)
  {
    var raw, row, scoring := d.questions[k], t.questions[k], t.settings.scoringMethod;
    assert RowFor(d, t.sections, library)(k, row);
    assert raw in d.questions;
    ProblemFree(Normalize(raw), scoring);
    RowKept(raw, row, row.sectionId, library, scoring);
  }

  lemma ImportKept(d: Document, t: Test, library: Library)
    requires DocumentProblems(d) == [] && Written(d, t, library)
    ensures AllKept(t)
  {
    GateLetsCleanThrough(d);
    forall k | 0 <= k < |t.questions| ensures Kept(t.questions[k], t.settings.scoringMethod) {
      ImportedRowKept(d, t, library, k);
    }
  }

  lemma BandsPlain(from: seq<SnapshotBand>)
    ensures forall b <- Map(StoreBand, from) :: StoreBand(b) == b
  {
  }

  /** Whatever document is imported, the test it becomes is stored as every later operation expects. */
  lemma ImportIsStored(d: Document, t: Test, library: Library, start: nat, next: nat)
    requires DocumentProblems(d) == [] && IsImport(d, t, library, start, next)
    ensures Stored(t)
  {
    ImportKept(d, t, library);
    BandsPlain(d.bands);
  }

  // ----- Files -----------------------------------------------------------------------------------

  /** What `mediaLookup` loads for a document's questions. */
  ghost function LibraryFor(assets: seq<Asset>, questions: seq<CanonicalQuestion>, favoured: set<string>): Library {
    Library(assets,
      set q | q in questions && q.media.Some? && q.media.value.assetId.Some? :: q.media.value.assetId.value,
      set q | q in questions && q.media.Some? && q.media.value.file.Some? :: q.media.value.file.value,
      favoured)
  }

  /** A question's uploaded file comes along. */
  lemma FileCopied(fold: Fold, t: Test, name: string, copy: Test, assets: seq<Asset>, start: nat, next: nat, k: nat)
    requires var d := Renamed(ToDocument(fold, t), name);
      IsCopy(fold, t, name, copy, LibraryFor(assets, d.questions, {}), start, next)
    requires k < |t.questions| && t.questions[k].media.Some? && t.questions[k].media.value in assets
    requires Trimmed(t.questions[k].media.value.id) && t.questions[k].media.value.id != ""
    requires forall i, j :: 0 <= i < j < |assets| ==> assets[i].id != assets[j].id
    ensures k < |copy.questions| && copy.questions[k].media == t.questions[k].media
  {
    var d := Renamed(ToDocument(fold, t), name);
    var library := LibraryFor(assets, d.questions, {});
    var asset := t.questions[k].media.value;
    assert RowFor(d, copy.sections, library)(k, copy.questions[k]);
    assert d.questions[k] in d.questions && d.questions[k].media == ExportMedia(t.questions[k]);
    MediaCopied(library, asset, d.questions[k], copy.questions[k], copy.questions[k].sectionId);
  }

  lemma MediaCopied(library: Library, asset: Asset, raw: CanonicalQuestion, row: StoredQuestion, sectionId: Option<Id>)
    requires QuestionWritten(raw, row, sectionId, library)
    requires raw.media.Some? && raw.media.value.assetId == Some(asset.id)
    requires Trimmed(asset.id) && asset.id != "" && asset in library.assets && asset.id in library.ids
    requires forall i, j :: 0 <= i < j < |library.assets| ==> library.assets[i].id != library.assets[j].id
    ensures row.media == Some(asset)
  {
    AssetFound(library, asset, NormalizeMedia(raw.media));
  }

  lemma AssetFound(library: Library, asset: Asset, media: Option<CanonicalMedia>)
    requires asset in library.assets && asset.id in library.ids && asset.id != ""
    requires media.Some? && media.value.assetId == Some(asset.id)
    requires forall i, j :: 0 <= i < j < |library.assets| ==> library.assets[i].id != library.assets[j].id
    ensures LookUp(library, media) == FileLinks(Some(asset), None)
  {
  }

  // ----- Publishing ----------------------------------------------------------------------------------

  predicate FileReady(q: StoredQuestion) {
    q.media.Some? || q.mediaFileName.None? || q.mediaFileName.value == ""
  }

  /** A kept question's only issue can be its file. */
  lemma OneIssue(q: StoredQuestion, index: nat, scoring: ScoringMethod)
    requires Kept(q, scoring)
    ensures QuestionIssues(q, index, scoring) ==
      if FileReady(q) then [] else [MissingFile(index, q.mediaFileName.value)]
  {
  }

  lemma {:induction false} IssuesAreFiles(questions: seq<StoredQuestion>, scoring: ScoringMethod)
    requires forall q <- questions :: Kept(q, scoring)
    ensures IssuesFrom(questions, scoring) == [] <==> forall q <- questions :: FileReady(q)
    ensures forall p <- IssuesFrom(questions, scoring) :: p.MissingFile?
  {
    if questions != [] {
      var n := |questions| - 1;
      IssuesAreFiles(questions[..n], scoring);
      SplitLast(questions);
      OneIssue(questions[n], n, scoring);
    }
  }

  /** With stored questions kept, a test can be published when it has questions and their files. */
  lemma PublishableWhen(t: Test)
    requires AllKept(t)
    ensures PublishProblems(t) == [] <==> t.questions != [] && forall q <- t.questions :: FileReady(q)
    ensures forall p <- PublishProblems(t) :: p.NoQuestions? || p.MissingFile?
  {
    IssuesAreFiles(t.questions, t.settings.scoringMethod);
  }

  // ----- What is sent and exported is the test's own ----------------------------------------------

  /** Options are shuffled on single-choice questions alone: as the question says, or the test when it says nothing. */
  predicate MayShuffle(q: StoredQuestion, test: bool) {
    q.kind == SingleChoice && (q.shuffleOptions == Some(true) || (q.shuffleOptions == None && test))
  }

  predicate FrozenFrom(f: SnapshotQuestion, q: StoredQuestion, shuffle: bool) {
    && f.id == q.id && f.ref == q.ref && f.sectionId == q.sectionId && f.kind == q.kind
    && f.instruction == q.instruction && f.context == q.context && f.stem == q.stem
    && f.media == (match q.media case None => None case Some(asset) => Some(asset.id))
    && f.employerPrompt == q.employerPrompt && f.employerValue == q.employerValue && f.difficulty == q.difficulty
    && f.rationale == q.rationale && f.transcript == q.transcript
    && (f.shuffleOptions <==> MayShuffle(q, shuffle))
    && f.keepLastOptionFixed == q.keepLastOptionFixed && f.options == q.options
  }

  predicate FrozenSection(f: SnapshotSection, s: StoredSection) {
    f.id == s.id && f.name == s.name && f.weight == s.weight
  }

  ghost predicate SnapshotOf(s: Snapshot, t: Test) {
    && s.name == t.settings.name && s.durationMinutes == t.settings.durationMinutes
    && s.scoringMethod == t.settings.scoringMethod && s.questionOrder == t.settings.questionOrder
    && s.allowBackNavigation == t.settings.allowBackNavigation && s.audioReplays == t.settings.audioReplays
    && |s.sections| == |t.sections| && |s.questions| == |t.questions|
    && (forall i :: 0 <= i < |s.sections| ==> FrozenSection(s.sections[i], t.sections[i]))
    && (forall i :: 0 <= i < |s.questions| ==> FrozenFrom(s.questions[i], t.questions[i], t.settings.shuffleOptions))
    && SameItems(s.bands, t.bands) && Bands.Descending(s.bands)
  }

  /** What is sent is the test as it stands: its settings, sections and questions, and its bands highest first. */
  lemma SentAsIs(t: Test)
    ensures SnapshotOf(BuildSnapshot(t), t)
  {
    Bands.SortKeeps(t.bands);
  }

  predicate ExportedOption(c: CanonicalOption, o: SnapshotOption) {
    c.caption == Some(o.caption) && c.text == o.text && c.employerText == o.employerText && c.value == o.value
    && c.correct == o.isCorrect
  }

  /** An uploaded file goes by its name and id, a pending one by its name alone. */
  predicate ExportedFile(media: Option<CanonicalMedia>, q: StoredQuestion) {
    match q.media
    case Some(asset) => media == Some(CanonicalMedia(Some(asset.originalName), Some(asset.id)))
    case None =>
      if q.mediaFileName == None || q.mediaFileName == Some("") then media == None
      else media == Some(CanonicalMedia(q.mediaFileName, None))
  }

  predicate ExportedFrom(c: CanonicalQuestion, q: StoredQuestion) {
    && c.ref == q.ref && c.kind == q.kind && c.instruction == q.instruction && c.context == q.context
    && c.stem == q.stem && ExportedFile(c.media, q)
    && c.employerPrompt == q.employerPrompt && c.employerValue == q.employerValue && c.difficulty == q.difficulty
    && c.rationale == q.rationale && c.transcript == q.transcript
    && c.shuffleOptions == q.shuffleOptions && c.keepLastOptionFixed == q.keepLastOptionFixed
    && |c.options| == |q.options| && forall i :: 0 <= i < |c.options| ==> ExportedOption(c.options[i], q.options[i])
  }

  /** The key of the first section with the question's id, or none when no section has it. */
  predicate ExportedUnder(c: CanonicalQuestion, q: StoredQuestion, sections: seq<StoredSection>,
    exported: seq<CanonicalSection>)
    requires |exported| == |sections|
  {
    match c.section
    case None => forall s <- sections :: q.sectionId != Some(s.id)
    case Some(key) => exists k :: 0 <= k < |sections| && FirstWith(sections, k, q.sectionId) && exported[k].key == key
  }

  predicate FirstWith(sections: seq<StoredSection>, k: nat, id: Option<Id>)
    requires k < |sections|
  {
    id == Some(sections[k].id) && forall j :: 0 <= j < k ==> id != Some(sections[j].id)
  }

  predicate ExportedSection(c: CanonicalSection, s: StoredSection) {
    c.name == s.name && c.description == s.description && c.weight == s.weight
  }

  ghost predicate DocumentOf(d: Document, t: Test) {
    && d.settings == t.settings
    && |d.sections| == |t.sections| && |d.questions| == |t.questions|
    && (forall i :: 0 <= i < |d.sections| ==> ExportedSection(d.sections[i], t.sections[i]))
    && (forall i :: 0 <= i < |d.questions| ==>
      ExportedFrom(d.questions[i], t.questions[i])
      && ExportedUnder(d.questions[i], t.questions[i], t.sections, d.sections))
    && SameItems(d.bands, t.bands) && Bands.Descending(d.bands)
  }

  lemma KeyIsFirst(q: StoredQuestion, sections: seq<StoredSection>, keys: seq<string>, exported: seq<CanonicalSection>)
    requires |keys| == |sections| && exported == ExportSections(sections, keys)
    ensures ExportedUnder(ToCanonical(q, SectionKeyOf(q, sections, keys)), q, sections, exported)
  {
    if q.sectionId.Some? {
      var at := SectionAt(sections, q.sectionId.value);
      if at < |sections| { assert FirstWith(sections, at, q.sectionId) && exported[at].key == keys[at]; }
    }
  }

  /** What is exported is the test as it stands, each question under its section's key. */
  lemma ExportedAsIs(fold: Fold, t: Test)
    ensures DocumentOf(ToDocument(fold, t), t)
  {
    var d, keys := ToDocument(fold, t), Keys(fold, Names(t.sections));
    Bands.SortKeeps(t.bands);
    forall i | 0 <= i < |t.questions|
      ensures ExportedFrom(d.questions[i], t.questions[i])
      ensures ExportedUnder(d.questions[i], t.questions[i], t.sections, d.sections)
    {
      KeyIsFirst(t.questions[i], t.sections, keys, d.sections);
    }
  }

  /** Sending a question and exporting it read the same columns. */
  lemma FrozenMatchesExport(q: StoredQuestion, shuffle: bool)
    ensures AsCanonical(FreezeQuestion(q, shuffle)) == ToCanonical(q, None).(media := None, shuffleOptions := None)
    ensures FreezeQuestion(q, shuffle).shuffleOptions <==> MayShuffle(q, shuffle)
  {
  }

  lemma FrozenReady(q: StoredQuestion, shuffle: bool, scoring: ScoringMethod)
    requires Kept(q, scoring)
    ensures QuestionProblems(AsCanonical(FreezeQuestion(q, shuffle)), scoring) == []
  {
    var c := ToCanonical(q, None).(media := None);
    assert AsCanonical(FreezeQuestion(q, shuffle)).options == c.options;
    SameRules(c, AsCanonical(FreezeQuestion(q, shuffle)), scoring);
  }

  /** A published test's own answer key scores full marks, every question answered and no flags. */
  lemma PublishedKeyScoresOne(t: Test)
    requires AllKept(t) && PublishProblems(t) == [] && KeysUnique(BuildSnapshot(t))
    ensures Sendable(BuildSnapshot(t))
    ensures var s := BuildSnapshot(t);
      var result := ScoreAttempt(s, KeyAnswers(TakeView.AnswerKey(s.questions)));
      result.score == 1.0 && result.answeredCount == |s.questions| && result.flags == []
  {
    var s := BuildSnapshot(t);
    forall q | q in s.questions ensures QuestionProblems(AsCanonical(q), s.scoringMethod) == [] {
      var i :| 0 <= i < |s.questions| && s.questions[i] == q;
      assert t.questions[i] in t.questions;
      FrozenReady(t.questions[i], t.settings.shuffleOptions, s.scoringMethod);
    }
    assert t.questions != [];
    AnswerKeyScoresOne(s);
  }
}
