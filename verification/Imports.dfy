/** Writing a document to the tables: sections first, then questions that look them up, then bands. */
module Imports {
  import opened Basics
  import opened Text
  import opened Questions
  import opened Snapshots
  import opened Content

  // ----- Files ----------------------------------------------------------------------------

  /** The uploaded file of a question, or the name of one still to upload. */
  datatype FileLinks = FileLinks(media: Option<Asset>, mediaFileName: Option<string>)

  /** The uploaded files a document's questions can refer to, newest first. */
  datatype Library = Library(assets: seq<Asset>, ids: set<string>, files: set<string>, favoured: set<string>)

  /** Whether an asset takes over from the one found so far under the same name. */
  predicate TakesOver(found: Option<Asset>, asset: Asset, favoured: set<string>) {
    found.None? || (asset.id in favoured && found.value.id !in favoured)
  }

  /** The asset a file name stands for: the newest favoured one, or else the newest. */
  function Named(assets: seq<Asset>, file: string, favoured: set<string>): Option<Asset> {
    if assets == [] then None
    else
      var n := |assets| - 1;
      var found := Named(assets[..n], file, favoured);
      if assets[n].originalName == file && TakesOver(found, assets[n], favoured) then Some(assets[n]) else found
  }

  method NameAssets(library: Library) returns (named: map<string, Asset>)
    ensures forall file :: file in library.files ==>
      Named(library.assets, file, library.favoured) == if file in named then Some(named[file]) else None
    ensures named.Keys <= library.files
  {
    named := map[];
    for i := 0 to |library.assets|
      invariant forall file :: file in library.files ==>
        Named(library.assets[..i], file, library.favoured) == if file in named then Some(named[file]) else None
      invariant named.Keys <= library.files
    {
      var asset := library.assets[i];
      assert library.assets[..i + 1][..i] == library.assets[..i];
      if asset.originalName in library.files {
        if asset.originalName !in named
          || (asset.id in library.favoured && named[asset.originalName].id !in library.favoured) {
          named := named[asset.originalName := asset];
        }
      }
    }
    assert library.assets[..|library.assets|] == library.assets;
  }

  function LookUp(library: Library, media: Option<CanonicalMedia>): FileLinks {
    var assetId := if media.Some? then media.value.assetId else None;
    var at := Find((a: Asset) => assetId == Some(a.id), library.assets);
    if assetId.Some? && assetId.value != "" && assetId.value in library.ids && at < |library.assets| then
      FileLinks(Some(library.assets[at]), None)
    else
      var file := if media.Some? then BlankToNull(media.value.file) else None;
      var matched := if file.Some? && file.value in library.files
                    then Named(library.assets, file.value, library.favoured) else None;
      if matched.Some? then FileLinks(matched, None) else FileLinks(None, file)
  }

  /** Asset i has the name; an earlier one has it only if i is favoured and the earlier ones are not. */
  ghost predicate IsBest(assets: seq<Asset>, file: string, favoured: set<string>, i: nat)
    requires i < |assets|
  {
    && assets[i].originalName == file
    && (forall k :: 0 <= k < i && assets[k].originalName == file ==>
          assets[k].id !in favoured && assets[i].id in favoured)
    && forall a <- assets :: a.originalName == file && assets[i].id !in favoured ==> a.id !in favoured
  }

  /** A file name stands for the first favoured asset of that name, or the first one when none is favoured. */
  lemma {:induction false} NamedIsBest(assets: seq<Asset>, file: string, favoured: set<string>)
    ensures Named(assets, file, favoured).None? <==> forall a <- assets :: a.originalName != file
    ensures Named(assets, file, favoured).Some? ==>
      var found := Named(assets, file, favoured).value;
      exists i :: 0 <= i < |assets| && assets[i] == found && IsBest(assets, file, favoured, i)
  {
    if assets != [] {
      var n := |assets| - 1;
      NamedIsBest(assets[..n], file, favoured);
      SplitLast(assets);
      var found := Named(assets[..n], file, favoured);
      if found.Some? {
        var i :| 0 <= i < n && assets[..n][i] == found.value && IsBest(assets[..n], file, favoured, i);
        assert forall k :: 0 <= k < n ==> assets[..n][k] == assets[k];
        if assets[n].originalName == file && TakesOver(found, assets[n], favoured) {
          assert IsBest(assets, file, favoured, n);
        } else {
          assert IsBest(assets, file, favoured, i);
        }
      } else if assets[n].originalName == file {
        assert IsBest(assets, file, favoured, n);
      }
    }
  }

  // ----- Rows ------------------------------------------------------------------------------

  /** A normalized option as a row. */
  function StoreOption(o: CanonicalOption, id: Id, order: nat): SnapshotOption {
    SnapshotOption(id, o.caption.GetOr(NumberText(order + 1)), o.text, o.employerText, o.value, o.correct)
  }

  function StoreOptions(options: seq<CanonicalOption>, ids: nat -> Id): (r: seq<SnapshotOption>)
    ensures |r| == |options| && forall i :: 0 <= i < |r| ==> r[i] == StoreOption(options[i], ids(i), i)
  {
    seq(|options|, i requires 0 <= i < |options| => StoreOption(options[i], ids(i), i))
  }

  /** A normalized question as a row. */
  function StoreQuestion(q: CanonicalQuestion, id: Id, sectionId: Option<Id>, links: FileLinks,
    options: seq<SnapshotOption>): StoredQuestion {
    StoredQuestion(id, sectionId, q.ref, q.kind, q.instruction, q.context, q.stem, links.media,
      if links.media.Some? then None else links.mediaFileName,
      q.employerPrompt, q.employerValue, q.difficulty, q.rationale, q.transcript,
      q.shuffleOptions, q.keepLastOptionFixed, options)
  }

  /** The rows of a question's options, whatever their ids. */
  predicate OptionsStored(options: seq<CanonicalOption>, rows: seq<SnapshotOption>) {
    |rows| == |options| && forall k :: 0 <= k < |options| ==> rows[k] == StoreOption(options[k], rows[k].id, k)
  }

  /** A stored question loads as it was, its section and file aside. */
  lemma LoadsBack(q: CanonicalQuestion, row: StoredQuestion, sectionId: Option<Id>, links: FileLinks)
    requires Normal(q) && row == StoreQuestion(q, row.id, sectionId, links, row.options)
    requires OptionsStored(q.options, row.options)
    ensures ToCanonical(row, None).(media := None) == q.(section := None, media := None)
  {
    forall k | 0 <= k < |q.options| ensures ExportOption(row.options[k]) == q.options[k] {
      assert q.options[k] == NormalizeOptions(q.kind, q.options)[k];
      assert q.options[k].caption.Some?;
    }
    assert Map(ExportOption, row.options) == q.options;
  }

  /** A normalized question without problems is stored as a kept row. */
  lemma StoreKept(q: CanonicalQuestion, row: StoredQuestion, sectionId: Option<Id>, links: FileLinks,
    scoring: ScoringMethod)
    requires Normal(q) && QuestionProblems(q, scoring) == []
    requires row == StoreQuestion(q, row.id, sectionId, links, row.options) && OptionsStored(q.options, row.options)
    ensures Kept(row, scoring)
  {
    LoadsBack(q, row, sectionId, links);
    SameRules(q, ToCanonical(row, None).(media := None), scoring);
  }

  function StoreSection(s: CanonicalSection, id: Id): StoredSection {
    StoredSection(id, Trim(s.name), BlankToNull(s.description), s.weight)
  }

  function StoreBand(b: SnapshotBand): SnapshotBand {
    SnapshotBand(b.minScore, Trim(b.name), BlankToNull(b.interpretation), BlankToNull(b.recommendedAction))
  }

  predicate Matches(s: CanonicalSection, name: string) {
    name == ToLower(s.key) || name == ToLower(Trim(s.name))
  }

  /** The section a name stands for: the last one with that key or name, in lower case. */
  function SectionFor(from: seq<CanonicalSection>, to: seq<StoredSection>, name: string): Option<Id>
    requires |from| == |to|
  {
    var at := FindLast((s: CanonicalSection) => Matches(s, name), from);
    if at < |from| then Some(to[at].id) else None
  }

  function SectionOf(q: CanonicalQuestion, from: seq<CanonicalSection>, to: seq<StoredSection>): Option<Id>
    requires |from| == |to|
  {
    if q.section.Some? && q.section.value != "" then SectionFor(from, to, ToLower(q.section.value)) else None
  }

  // ----- What is written --------------------------------------------------------------------

  ghost predicate SectionsWritten(from: seq<CanonicalSection>, to: seq<StoredSection>) {
    |to| == |from| && forall i :: 0 <= i < |from| ==> to[i] == StoreSection(from[i], to[i].id)
  }

  /** The row of a question, whatever ids its row and its options got. */
  ghost predicate QuestionWritten(raw: CanonicalQuestion, row: StoredQuestion, sectionId: Option<Id>,
    library: Library) {
    var q := Normalize(raw);
    && row == StoreQuestion(q, row.id, sectionId, LookUp(library, q.media), row.options)
    && OptionsStored(q.options, row.options)
  }

  /** Whether a row is what question i becomes. */
  ghost function RowFor(d: Document, sections: seq<StoredSection>, library: Library): (nat, StoredQuestion) -> bool
    requires |sections| == |d.sections|
  {
    (i: nat, row: StoredQuestion) => i < |d.questions|
      && QuestionWritten(d.questions[i], row, SectionOf(Normalize(d.questions[i]), d.sections, sections), library)
  }

  ghost predicate QuestionsWritten(d: Document, sections: seq<StoredSection>, questions: seq<StoredQuestion>,
    library: Library)
    requires |sections| == |d.sections|
  {
    forall i: nat :: i < |questions| ==> RowFor(d, sections, library)(i, questions[i])
  }

  /** The test a document becomes. */
  ghost predicate Written(d: Document, t: Test, library: Library) {
    && t.settings == d.settings.(name := Trim(d.settings.name))
    && SectionsWritten(d.sections, t.sections)
    && |t.questions| == |d.questions| && QuestionsWritten(d, t.sections, t.questions, library)
    && t.bands == Map(StoreBand, d.bands)
  }

  /** Ids handed out between two moments, each to one row. */
  ghost predicate SectionIds(sections: seq<StoredSection>, from: nat, to: nat) {
    && (forall i :: 0 <= i < |sections| ==> from <= sections[i].id < to)
    && forall i, j :: 0 <= i < j < |sections| ==> sections[i].id != sections[j].id
  }

  ghost predicate OptionIds(options: seq<SnapshotOption>, from: nat, to: nat) {
    && (forall i :: 0 <= i < |options| ==> from <= options[i].id < to)
    && DistinctOptions(options)
  }

  ghost predicate QuestionIds(questions: seq<StoredQuestion>, from: nat, to: nat) {
    && (forall i :: 0 <= i < |questions| ==> from <= questions[i].id < to && OptionIds(questions[i].options, from, to))
    && forall i, j :: 0 <= i < j < |questions| ==> questions[i].id != questions[j].id
  }

  /** The map holds what looking a name up should find. */
  ghost predicate Finds(sectionIds: map<string, Id>, from: seq<CanonicalSection>, rows: seq<StoredSection>)
    requires |from| == |rows|
  {
    forall name :: SectionFor(from, rows, name) == if name in sectionIds then Some(sectionIds[name]) else None
  }

  function AddNames(sectionIds: map<string, Id>, s: CanonicalSection, id: Id): map<string, Id> {
    sectionIds[ToLower(s.key) := id][ToLower(Trim(s.name)) := id]
  }

  /** The first i sections are written, under ids from `start`. */
  ghost predicate SectionsSoFar(from: seq<CanonicalSection>, i: nat, rows: seq<StoredSection>, start: nat)
    requires i <= |from|
  {
    |rows| == i && SectionsWritten(from[..i], rows) && SectionIds(rows, start, start + i)
  }

  /** The rows of the sections, and the map their questions look them up in. */
  method WriteSections(from: seq<CanonicalSection>, start: nat)
    returns (rows: seq<StoredSection>, sectionIds: map<string, Id>, next: nat)
    ensures SectionsWritten(from, rows) && next >= start && SectionIds(rows, start, next)
    ensures Finds(sectionIds, from, rows)
  {
    rows, sectionIds, next := [], map[], start;
    for i := 0 to |from|
      invariant next == start + i && SectionsSoFar(from, i, rows, start) && Finds(sectionIds, from[..i], rows)
    {
      var row := StoreSection(from[i], next);
      OneMoreSection(from, i, rows, start, row);
      FindsAdded(sectionIds, from, rows, i, row);
      rows, sectionIds, next := rows + [row], AddNames(sectionIds, from[i], next), next + 1;
    }
    assert from[..|from|] == from;
  }

  lemma OneMoreSection(from: seq<CanonicalSection>, i: nat, rows: seq<StoredSection>, start: nat, row: StoredSection)
    requires i < |from| && SectionsSoFar(from, i, rows, start) && row == StoreSection(from[i], start + i)
    ensures SectionsSoFar(from, i + 1, rows + [row], start)
  {
  }

  lemma NameFound(from: seq<CanonicalSection>, rows: seq<StoredSection>, i: nat, row: StoredSection, name: string)
    requires i < |from| && |rows| == i
    ensures var s := from[i];
      SectionFor(from[..i + 1], rows + [row], name)
        == if Matches(s, name) then Some(row.id) else SectionFor(from[..i], rows, name)
  {
    assert from[..i + 1][..i] == from[..i] && (rows + [row])[..i] == rows;
  }

  lemma FindsAdded(sectionIds: map<string, Id>, from: seq<CanonicalSection>, rows: seq<StoredSection>, i: nat,
    row: StoredSection)
    requires i < |from| && |rows| == i && Finds(sectionIds, from[..i], rows)
    ensures Finds(AddNames(sectionIds, from[i], row.id), from[..i + 1], rows + [row])
  {
    var more := AddNames(sectionIds, from[i], row.id);
    forall name
      ensures SectionFor(from[..i + 1], rows + [row], name) == if name in more then Some(more[name]) else None
    {
      NameFound(from, rows, i, row, name);
    }
  }

  method WriteQuestion(raw: CanonicalQuestion, from: seq<CanonicalSection>, ghost rows: seq<StoredSection>,
    sectionIds: map<string, Id>, library: Library, start: nat) returns (row: StoredQuestion, next: nat)
    requires |rows| == |from| && Finds(sectionIds, from, rows)
    ensures QuestionWritten(raw, row, SectionOf(Normalize(raw), from, rows), library)
    ensures start <= row.id < next && OptionIds(row.options, start, next)
  {
    var q := Normalize(raw);
    var sectionId := if q.section.Some? && q.section.value != "" && ToLower(q.section.value) in sectionIds
                     then Some(sectionIds[ToLower(q.section.value)]) else None;
    var options := StoreOptions(q.options, k => start + 1 + k);
    row := StoreQuestion(q, start, sectionId, LookUp(library, q.media), options);
    next := start + 1 + |options|;
  }

  method WriteContent(d: Document, library: Library, start: nat) returns (t: Test, next: nat)
    ensures Written(d, t, library)
    ensures next >= start && SectionIds(t.sections, start, next) && QuestionIds(t.questions, start, next)
  {
    var sections, sectionIds, id := WriteSections(d.sections, start);
    var questions: seq<StoredQuestion> := [];
    ghost var first := id;
    for i := 0 to |d.questions|
      invariant |questions| == i && QuestionsWritten(d, sections, questions, library)
      invariant id >= first && QuestionIds(questions, first, id)
    {
      var row, after := WriteQuestion(d.questions[i], d.sections, sections, sectionIds, library, id);
      IdsAdded(questions, row, first, id, after);
      questions := questions + [row];
      id := after;
    }
    t := Test(d.settings.(name := Trim(d.settings.name)), sections, questions, Map(StoreBand, d.bands));
    next := id;
  }

  lemma IdsAdded(questions: seq<StoredQuestion>, row: StoredQuestion, first: nat, id: nat, after: nat)
    requires first <= id && QuestionIds(questions, first, id)
    requires id <= row.id < after && OptionIds(row.options, id, after)
    ensures QuestionIds(questions + [row], first, after)
  {
  }
}
