/** What the table's invariant means for publishing, and why an imported or duplicated test starts with it. */
module AuthoringLaws {
  import opened Basics
  import opened Text
  import opened Questions
  import opened Snapshots
  import opened Content
  import opened Documents
  import opened OrderColumn
  import opened CsvImport
  import opened SectionList
  import opened Authoring
  import Imports
  import Transfer
  import CopyLaws
  import Bands
  import SectionKeys
  import ExportImport

  /** The questions as they are loaded: by ascending order. */
  function Listing(s: State, list: seq<Id>): seq<StoredQuestion>
    requires forall id <- list :: id in s.questions
  {
    seq(|list|, i requires 0 <= i < |list| => assert list[i] in list; s.questions[list[i]])
  }

  /**
   * Whatever staff did, every stored question is problem-free for the test's
   * current scoring method: publishing can only miss questions or files.
   */
  lemma OnlyFilesStopPublishing(keeps: Rule, s: State, list: seq<Id>, t: Test)
    requires IsKept(keeps) && Ok(keeps, s, list) && (forall id <- list :: id in s.questions)
    requires t.questions == Listing(s, list) && t.settings.scoringMethod == s.scoring
    ensures PublishProblems(t) == [] <==> list != [] && forall q <- t.questions :: CopyLaws.FileReady(q)
    ensures forall p <- PublishProblems(t) :: p.NoQuestions? || p.MissingFile?
  {
    CopyLaws.PublishableWhen(t);
  }

  /** A test loaded from the table. */
  ghost predicate Loaded(s: State, list: seq<Id>, t: Test)
    requires forall id <- list :: id in s.questions
  {
    && t.sections == s.sections && t.questions == Listing(s, list) && t.settings.scoringMethod == s.scoring
    && t.bands == s.bands
  }

  /**
   * Whatever staff did, the test is stored as duplicating expects, so the laws
   * of copies hold of edited tests too; and its questions as exporting expects.
   */
  lemma EditedIsStored(keeps: Rule, s: State, list: seq<Id>, t: Test)
    requires IsKept(keeps) && Ok(keeps, s, list) && (forall id <- list :: id in s.questions) && Loaded(s, list, t)
    ensures Transfer.Stored(t)
    ensures ExportImport.Restorable(t.questions, t.sections, t.settings.scoringMethod)
    ensures !BandsClash(Bands.HighestFirst(t.bands))
  {
    SortedBandsOk(t.bands);
    forall q | q in t.questions ensures Kept(q, t.settings.scoringMethod) && InSections(q.sectionId, t.sections) {
      var i :| 0 <= i < |list| && t.questions[i] == q;
      assert RowOk(keeps, list[i], q, s.sections, s.scoring, s.nextId);
    }
    assert forall x <- t.sections :: SectionOk(x, s.nextId);
  }

  /** So only a section's name or key can stop an edited test from being duplicated. */
  lemma EditedCopiedWhenNamesFree(keeps: Rule, fold: SectionKeys.Fold, s: State, list: seq<Id>, t: Test, name: string)
    requires IsKept(keeps) && Ok(keeps, s, list) && (forall id <- list :: id in s.questions) && Loaded(s, list, t)
    ensures DocumentProblems(Transfer.Renamed(ToDocument(fold, t), name)) == []
      <==> CopyLaws.NamesFree(fold, t.sections)
  {
    EditedIsStored(keeps, s, list, t);
    CopyLaws.CopiedWhenNamesFree(fold, t, name);
  }

  // ----- A test that was just imported ------------------------------------------------------------

  function RowIds(questions: seq<StoredQuestion>): (ids: seq<Id>)
    ensures |ids| == |questions| && forall i :: 0 <= i < |ids| ==> ids[i] == questions[i].id
  {
    Map((q: StoredQuestion) => q.id, questions)
  }

  /** The table an import writes: each row at its place in the document. */
  function Rows(questions: seq<StoredQuestion>): map<Id, StoredQuestion> {
    if questions == [] then map[]
    else
      var n := |questions| - 1;
      Rows(questions[..n])[questions[n].id := questions[n]]
  }

  function Places(questions: seq<StoredQuestion>): Orders {
    if questions == [] then map[]
    else
      var n := |questions| - 1;
      Places(questions[..n])[questions[n].id := n]
  }

  ghost predicate IdsApart(questions: seq<StoredQuestion>) {
    forall i, j :: 0 <= i < j < |questions| ==> questions[i].id != questions[j].id
  }

  lemma {:induction false} PlacesListed(questions: seq<StoredQuestion>)
    requires IdsApart(questions)
    ensures Represents(Places(questions), RowIds(questions)) && Above(Places(questions), |questions|)
  {
    if questions != [] {
      var n := |questions| - 1;
      PlacesListed(questions[..n]);
      LastIdNew(questions);
      Appended(Places(questions[..n]), RowIds(questions[..n]), questions[n].id, n);
    }
  }

  lemma LastIdNew(questions: seq<StoredQuestion>)
    requires questions != [] && IdsApart(questions)
    ensures var n := |questions| - 1;
      RowIds(questions) == RowIds(questions[..n]) + [questions[n].id] && questions[n].id !in RowIds(questions[..n])
  {
  }

  lemma {:induction false} SameKeys(questions: seq<StoredQuestion>)
    ensures Rows(questions).Keys == Places(questions).Keys
  {
    if questions != [] { SameKeys(questions[..|questions| - 1]); }
  }

  lemma {:induction false} RowsAre(questions: seq<StoredQuestion>)
    ensures forall id <- Rows(questions).Keys ::
      exists i :: 0 <= i < |questions| && questions[i].id == id && Rows(questions)[id] == questions[i]
  {
    if questions != [] {
      var n := |questions| - 1;
      RowsAre(questions[..n]);
      forall id | id in Rows(questions).Keys
        ensures exists i :: 0 <= i < |questions| && questions[i].id == id && Rows(questions)[id] == questions[i]
      {
        if id != questions[n].id {
          var i :| 0 <= i < n && questions[..n][i].id == id && Rows(questions[..n])[id] == questions[..n][i];
          assert questions[i].id == id;
        }
      }
    }
  }

  lemma SectionForListed(from: seq<CanonicalSection>, to: seq<StoredSection>, name: string)
    requires |from| == |to| && Imports.SectionFor(from, to, name).Some?
    ensures exists s <- to :: s.id == Imports.SectionFor(from, to, name).value
  {
    var at := FindLast((s: CanonicalSection) => Imports.Matches(s, name), from);
    assert to[at] in to;
  }

  /** An imported row satisfies what every later change relies on. */
  lemma ImportedRowOk(keeps: Rule, d: Document, t: Test, library: Imports.Library, start: nat, next: nat, k: nat)
    requires IsKept(keeps) && DocumentProblems(d) == [] && Transfer.IsImport(d, t, library, start, next)
    requires k < |t.questions|
    ensures RowOk(keeps, t.questions[k].id, t.questions[k], t.sections, t.settings.scoringMethod, next)
  {
    CopyLaws.ImportKept(d, t, library);
    var row := t.questions[k];
    assert row in t.questions && Kept(row, t.settings.scoringMethod);
    assert Imports.RowFor(d, t.sections, library)(k, row);
    var q := Normalize(d.questions[k]);
    if row.sectionId.Some? { SectionForListed(d.sections, t.sections, ToLower(q.section.value)); }
    assert Imports.OptionIds(row.options, start, next);
  }

  lemma ImportedNames(d: Document, t: Test)
    requires NamesApart(d.sections) && Imports.SectionsWritten(d.sections, t.sections)
    requires forall s <- d.sections :: Trimmed(s.name)
    ensures NamesDiffer(Names(t.sections))
  {
    forall i, j | 0 <= i < j < |t.sections| ensures ToLower(Names(t.sections)[i]) != ToLower(Names(t.sections)[j]) {
      assert d.sections[i] in d.sections && d.sections[j] in d.sections;
      assert Apart(d.sections[i], d.sections[j]) && ToLower(d.sections[i].name) in CalledBy(d.sections[i]);
    }
  }

  lemma ImportedSections(d: Document, t: Test, library: Imports.Library, start: nat, next: nat)
    requires DocumentProblems(d) == [] && Transfer.IsImport(d, t, library, start, next)
    requires |d.sections| <= MAX_SECTIONS && forall s <- d.sections :: Trimmed(s.name)
    ensures SectionsOk(t.sections, next)
  {
    GateLetsCleanThrough(d);
    ImportedNames(d, t);
    forall s | s in t.sections ensures SectionOk(s, next) {
      var i :| 0 <= i < |t.sections| && t.sections[i] == s;
      assert s == Imports.StoreSection(d.sections[i], s.id);
    }
  }

  lemma ImportedRows(keeps: Rule, d: Document, t: Test, library: Imports.Library, start: nat, next: nat)
    requires IsKept(keeps) && DocumentProblems(d) == [] && Transfer.IsImport(d, t, library, start, next)
    ensures RowsOk(keeps, Rows(t.questions), t.sections, t.settings.scoringMethod, next)
  {
    RowsAre(t.questions);
    forall id | id in Rows(t.questions).Keys
      ensures RowOk(keeps, id, Rows(t.questions)[id], t.sections, t.settings.scoringMethod, next)
    {
      var k :| 0 <= k < |t.questions| && t.questions[k].id == id && Rows(t.questions)[id] == t.questions[k];
      ImportedRowOk(keeps, d, t, library, start, next, k);
    }
  }

  /** An imported or duplicated test starts out as every staff operation keeps it. */
  lemma ImportedIsOk(keeps: Rule, d: Document, t: Test, library: Imports.Library, start: nat, next: nat)
    requires IsKept(keeps) && DocumentProblems(d) == [] && Transfer.IsImport(d, t, library, start, next)
    requires |d.questions| <= MAX_QUESTIONS && |d.sections| <= MAX_SECTIONS && forall s <- d.sections :: Trimmed(s.name)
    ensures var s := State(t.settings.scoringMethod, t.sections, Places(t.questions), Rows(t.questions), t.bands, next);
      Ok(keeps, s, RowIds(t.questions))
  {
    PlacesListed(t.questions);
    SameKeys(t.questions);
    ImportedSections(d, t, library, start, next);
    ImportedRows(keeps, d, t, library, start, next);
    ImportedBands(d, t);
  }

  lemma ImportedBands(d: Document, t: Test)
    requires DocumentProblems(d) == [] && t.bands == Map(Imports.StoreBand, d.bands)
    ensures BandsOk(t.bands)
  {
    GateLetsCleanThrough(d);
    CopyLaws.BandsPlain(d.bands);
  }
}
