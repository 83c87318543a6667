/**
 * Duplicating a test: export, the import gate and the import together give a
 * copy that scores every set of answers as the original does.
 */
module Transfer {
  import opened Basics
  import opened Text
  import opened Questions
  import opened Snapshots
  import opened SectionKeys
  import opened Content
  import opened Documents
  import opened Imports
  import opened Scoring
  import opened Twins
  import Bands

  // ----- The operation ------------------------------------------------------------------------

  datatype Copy = Copied(test: Test) | Refused(problems: seq<DocumentProblem>)

  method Export(fold: Fold, t: Test) returns (d: Document)
    ensures d == ToDocument(fold, t)
  {
    var keys := MakeKeys(fold, Names(t.sections));
    d := Document(t.settings, ExportSections(t.sections, keys),
      Map((q: StoredQuestion) => ToCanonical(q, SectionKeyOf(q, t.sections, keys)), t.questions),
      Bands.HighestFirst(t.bands));
  }

  /** Imports a document that passes the gate. */
  method Import(d: Document, library: Library, start: nat) returns (copy: Copy, next: nat)
    ensures copy.Copied? <==> DocumentProblems(d) == []
    ensures copy.Refused? ==> copy.problems == DocumentProblems(d) && next == start
    ensures copy.Copied? ==> IsImport(d, copy.test, library, start, next)
  {
    var problems := CheckDocument(d);
    if problems != [] { return Refused(problems), start; }
    var t, after := WriteContent(d, library, start);
    return Copied(t), after;
  }

  method Duplicate(fold: Fold, t: Test, name: string, library: Library, start: nat) returns (copy: Copy, next: nat)
    ensures copy.Copied? <==> DocumentProblems(Renamed(ToDocument(fold, t), name)) == []
    ensures copy.Copied? ==> IsImport(Renamed(ToDocument(fold, t), name), copy.test, library, start, next)
  {
    var d := Export(fold, t);
    copy, next := Import(Renamed(d, name), library, start);
  }

  function Renamed(d: Document, name: string): Document {
    d.(settings := d.settings.(name := name))
  }

  /** The test was written from the document, with ids no other row has. */
  ghost predicate IsImport(d: Document, t: Test, library: Library, start: nat, next: nat) {
    Written(d, t, library) && SectionIds(t.sections, start, next) && QuestionIds(t.questions, start, next)
  }

  // ----- What is stored -----------------------------------------------------------------------

  /** A test as every way of writing one leaves it: trimmed, kept questions, a row for each id. */
  ghost predicate Stored(t: Test) {
    && AllKept(t)
    && (forall s <- t.sections :: Trimmed(s.name) && Plain(s.description))
    && (forall b <- t.bands :: StoreBand(b) == b)
    && forall i, j :: 0 <= i < j < |t.sections| ==> t.sections[i].id != t.sections[j].id
  }

  // ----- Sections land in their place ------------------------------------------------------------

  /** With names apart, a name finds the one section that is called by it. */
  lemma FindsItsSection(from: seq<CanonicalSection>, to: seq<StoredSection>, i: nat, name: string)
    requires |from| == |to| && i < |from| && NamesApart(from) && name in CalledBy(from[i])
    requires forall s <- from :: Trimmed(s.name)
    ensures SectionFor(from, to, name) == Some(to[i].id)
  {
    forall j | i <= j < |from| ensures Matches(from[j], name) <==> j == i {
      assert from[j] in from;
      if i < j { assert Apart(from[i], from[j]); }
    }
  }

  /** A document whose names are apart puts each question in the section it names. */
  lemma ImportedSection(d: Document, t: Test, library: Library, k: nat, i: nat)
    requires DocumentProblems(d) == [] && Written(d, t, library) && (forall s <- d.sections :: Trimmed(s.name))
    requires k < |d.questions| && i < |d.sections|
    requires var section := Normalize(d.questions[k]).section;
      section.Some? && ToLower(section.value) in CalledBy(d.sections[i])
    ensures t.questions[k].sectionId == Some(t.sections[i].id)
  {
    GateLetsCleanThrough(d);
    assert RowFor(d, t.sections, library)(k, t.questions[k]);
    FindsItsSection(d.sections, t.sections, i, ToLower(Normalize(d.questions[k]).section.value));
  }

  // ----- Questions come back as they were ------------------------------------------------------------

  /** Exporting a kept question under a key and normalizing it changes at most its file. */
  lemma ExportNormal(q: StoredQuestion, section: Option<string>, scoring: ScoringMethod)
    requires Kept(q, scoring) && (section.Some? ==> IsKeyText(section.value))
    ensures var raw := ToCanonical(q, section);
      Normalize(raw) == raw.(media := NormalizeMedia(raw.media))
  {
    var raw := ToCanonical(q, section);
    var bare := ToCanonical(q, None).(media := None);
    if section.Some? { KeyStays(section.value); }
    assert Normalize(bare) == bare;
  }

  /** The row of the copy freezes to the same question, ids and file aside. */
  lemma QuestionBack(q: StoredQuestion, section: Option<string>, scoring: ScoringMethod, row: StoredQuestion,
    sectionId: Option<Id>, library: Library, shuffle: bool)
    requires Kept(q, scoring) && (section.Some? ==> IsKeyText(section.value))
    requires QuestionWritten(ToCanonical(q, section), row, sectionId, library)
    ensures SameQuestion(FreezeQuestion(q, shuffle), FreezeQuestion(row, shuffle)) && row.sectionId == sectionId
  {
  }

  // ----- The place of a question ------------------------------------------------------------------------

  lemma FrozenPlace(q: StoredQuestion, sections: seq<StoredSection>, shuffle: bool)
    ensures PlaceOf(FreezeQuestion(q, shuffle), Map(FreezeSection, sections))
      == if q.sectionId.None? then |sections| else SectionAt(sections, q.sectionId.value)
  {
  }

  lemma SectionFound(sections: seq<StoredSection>, i: nat, start: nat, next: nat)
    requires i < |sections| && SectionIds(sections, start, next)
    ensures SectionAt(sections, sections[i].id) == i
  {
  }

  ghost predicate IsCopy(fold: Fold, t: Test, name: string, copy: Test, library: Library, start: nat, next: nat) {
    var d := Renamed(ToDocument(fold, t), name);
    Stored(t) && DocumentProblems(d) == [] && IsImport(d, copy, library, start, next)
  }

  /** The document's names and keys, as the copy finds them. */
  lemma ExportedSections(fold: Fold, t: Test, name: string, copy: Test, library: Library, start: nat, next: nat)
    requires IsCopy(fold, t, name, copy, library, start, next)
    ensures var d := Renamed(ToDocument(fold, t), name);
      && NamesApart(d.sections) && (forall s <- d.sections :: Trimmed(s.name))
      && |copy.sections| == |d.sections| == |t.sections|
      && forall i :: 0 <= i < |t.sections| ==>
        SameSection(FreezeSection(t.sections[i]), FreezeSection(copy.sections[i]))
  {
    var d := Renamed(ToDocument(fold, t), name);
    GateLetsCleanThrough(d);
    forall i | 0 <= i < |t.sections|
      ensures Trimmed(d.sections[i].name) && SameSection(FreezeSection(t.sections[i]), FreezeSection(copy.sections[i]))
    {
      assert t.sections[i] in t.sections;
      assert copy.sections[i] == StoreSection(d.sections[i], copy.sections[i].id);
    }
  }

  /** The section a question is filed under in the copy is in the same place. */
  lemma FiledAlike(fold: Fold, t: Test, name: string, copy: Test, library: Library, start: nat, next: nat, k: nat)
    requires IsCopy(fold, t, name, copy, library, start, next) && k < |t.questions|
    requires copy.questions[k].sectionId ==
      SectionOf(ToCanonical(t.questions[k], SectionKeyOf(t.questions[k], t.sections, Keys(fold, Names(t.sections)))),
        Renamed(ToDocument(fold, t), name).sections, copy.sections)
    ensures PlaceOf(FreezeQuestion(t.questions[k], t.settings.shuffleOptions), Map(FreezeSection, t.sections))
      == PlaceOf(FreezeQuestion(copy.questions[k], t.settings.shuffleOptions), Map(FreezeSection, copy.sections))
  {
    var q, d := t.questions[k], Renamed(ToDocument(fold, t), name);
    var keys := Keys(fold, Names(t.sections));
    ExportedSections(fold, t, name, copy, library, start, next);
    FrozenPlace(q, t.sections, t.settings.shuffleOptions);
    FrozenPlace(copy.questions[k], copy.sections, t.settings.shuffleOptions);
    if q.sectionId.Some? {
      var at := SectionAt(t.sections, q.sectionId.value);
      if at < |t.sections| {
        assert keys[at] in keys;
        KeyStays(keys[at]);
        assert d.sections[at].key == keys[at];
        FindsItsSection(d.sections, copy.sections, at, keys[at]);
        SectionFound(copy.sections, at, start, next);
      }
    }
  }

  lemma QuestionCopied(fold: Fold, t: Test, name: string, copy: Test, library: Library, start: nat, next: nat, k: nat)
    requires IsCopy(fold, t, name, copy, library, start, next) && k < |t.questions|
    ensures |copy.questions| == |t.questions|
    ensures var shuffle := t.settings.shuffleOptions;
      TwinQuestions(FreezeQuestion(t.questions[k], shuffle), Map(FreezeSection, t.sections),
        FreezeQuestion(copy.questions[k], shuffle), Map(FreezeSection, copy.sections))
  {
    var q, row, d := t.questions[k], copy.questions[k], Renamed(ToDocument(fold, t), name);
    var section := SectionKeyOf(q, t.sections, Keys(fold, Names(t.sections)));
    assert q in t.questions;
    assert RowFor(d, copy.sections, library)(k, row);
    assert d.questions[k] == ToCanonical(q, section);
    ExportNormal(q, section, t.settings.scoringMethod);
    var sectionId := SectionOf(Normalize(d.questions[k]), d.sections, copy.sections);
    QuestionBack(q, section, t.settings.scoringMethod, row, sectionId, library, t.settings.shuffleOptions);
    FiledAlike(fold, t, name, copy, library, start, next, k);
  }

  lemma BandsBack(t: Test)
    requires forall b <- t.bands :: StoreBand(b) == b
    ensures Bands.HighestFirst(Map(StoreBand, Bands.HighestFirst(t.bands))) == Bands.HighestFirst(t.bands)
  {
    var sorted := Bands.HighestFirst(t.bands);
    Bands.SortKeeps(t.bands);
    forall i | 0 <= i < |sorted| ensures StoreBand(sorted[i]) == sorted[i] {
      assert sorted[i] in multiset(t.bands);
    }
    assert Map(StoreBand, sorted) == sorted;
    Bands.SortedStays(sorted);
  }

  /** The ids of a written test are unique, so its snapshot's are too. */
  lemma ImportKeysUnique(d: Document, t: Test, library: Library, start: nat, next: nat)
    requires IsImport(d, t, library, start, next)
    ensures KeysUnique(BuildSnapshot(t))
  {
  }

  /** Everything but the sections and the questions. */
  function Heading(s: Snapshot): Snapshot { s.(name := "", sections := [], questions := []) }

  lemma CopyHeading(fold: Fold, t: Test, name: string, copy: Test, library: Library, start: nat, next: nat)
    requires IsCopy(fold, t, name, copy, library, start, next)
    ensures Heading(BuildSnapshot(t)) == Heading(BuildSnapshot(copy))
  {
    BandsBack(t);
  }

  lemma CopySections(fold: Fold, t: Test, name: string, copy: Test, library: Library, start: nat, next: nat)
    requires IsCopy(fold, t, name, copy, library, start, next)
    ensures var from, to := Map(FreezeSection, t.sections), Map(FreezeSection, copy.sections);
      && DistinctSections(from) && DistinctSections(to) && |from| == |to|
      && forall i :: 0 <= i < |from| ==> SameSection(from[i], to[i])
  {
    ExportedSections(fold, t, name, copy, library, start, next);
  }

  /** The snapshot of a duplicate is the original's, up to renaming ids. */
  lemma CopyIsTwin(fold: Fold, t: Test, name: string, copy: Test, library: Library, start: nat, next: nat)
    requires IsCopy(fold, t, name, copy, library, start, next)
    ensures Twin(BuildSnapshot(t), BuildSnapshot(copy))
  {
    var s, u := BuildSnapshot(t), BuildSnapshot(copy);
    CopyHeading(fold, t, name, copy, library, start, next);
    CopySections(fold, t, name, copy, library, start, next);
    forall k | 0 <= k < |s.questions| ensures TwinQuestions(s.questions[k], s.sections, u.questions[k], u.sections) {
      QuestionCopied(fold, t, name, copy, library, start, next, k);
    }
  }

  /**
   * Duplicating preserves scoring: any answers to the original, and any to the
   * copy, score as the answers that choose the same options of the other.
   */
  lemma CopyScoresAlike(fold: Fold, t: Test, name: string, copy: Test, library: Library, start: nat, next: nat,
    answers: Answers)
    requires IsCopy(fold, t, name, copy, library, start, next)
    ensures var s, u := BuildSnapshot(t), BuildSnapshot(copy);
      && Twin(s, u)
      && SameResult(ScoreAttempt(s, answers), ScoreAttempt(u, Translate(s.questions, answers, u.questions)))
      && (KeysUnique(s) ==>
            SameResult(ScoreAttempt(u, answers), ScoreAttempt(s, Translate(u.questions, answers, s.questions))))
  {
    var s, u := BuildSnapshot(t), BuildSnapshot(copy);
    CopyIsTwin(fold, t, name, copy, library, start, next);
    ImportKeysUnique(Renamed(ToDocument(fold, t), name), copy, library, start, next);
    TwinScores(s, u);
    TranslatedAlike(s, answers, u);
    TwinsScoreAlike(s, answers, u, Translate(s.questions, answers, u.questions));
    if KeysUnique(s) {
      TwinFlipped(s, u);
      TwinScores(u, s);
      TranslatedAlike(u, answers, s);
      TwinsScoreAlike(u, answers, s, Translate(u.questions, answers, s.questions));
    }
  }
}
