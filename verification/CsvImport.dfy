/**
 * Reading a question CSV into a test: which sections its rows name, which are
 * new, and what a dry run reports. Sections are matched by name or key.
 */
module CsvImport {
  import opened Basics
  import opened Text
  import opened Questions
  import opened Snapshots
  import opened SectionKeys
  import opened Content
  import QuestionCsv

  const MAX_QUESTIONS := 100
  const MAX_SECTIONS := 20
  const SLUG_FALLBACK := "item"

  function SlugOf(fold: Fold, name: string): string {
    Slugify(fold, name, SLUG_FALLBACK)
  }

  // ----- Looking sections up ------------------------------------------------------------------

  predicate Answers(fold: Fold, section: StoredSection, x: string) {
    x == ToLower(section.name) || x == SlugOf(fold, section.name)
  }

  /** The last of the test's sections with this name or key. */
  function ExistingFor(fold: Fold, sections: seq<StoredSection>, x: string): Option<Id> {
    if sections == [] then None
    else
      var n := |sections| - 1;
      if Answers(fold, sections[n], x) then Some(sections[n].id) else ExistingFor(fold, sections[..n], x)
  }

  /** The last of the sections just created under this name. */
  function AddedFor(added: seq<StoredSection>, x: string): Option<Id> {
    if added == [] then None
    else
      var n := |added| - 1;
      if x == ToLower(added[n].name) then Some(added[n].id) else AddedFor(added[..n], x)
  }

  function LookFor(fold: Fold, sections: seq<StoredSection>, added: seq<StoredSection>, x: string): Option<Id> {
    if AddedFor(added, x).Some? then AddedFor(added, x) else ExistingFor(fold, sections, x)
  }

  /** `sectionFor`: by name first, then by key. */
  function SectionNamed(fold: Fold, sections: seq<StoredSection>, added: seq<StoredSection>, name: string): Option<Id> {
    var byName := LookFor(fold, sections, added, ToLower(name));
    if byName.Some? then byName else LookFor(fold, sections, added, SlugOf(fold, name))
  }

  predicate NamesSection(q: CanonicalQuestion) { q.section.Some? && q.section.value != "" }

  /** A row's section is new: no section answers to it, and no earlier new one has its name. */
  predicate IsNew(fold: Fold, sections: seq<StoredSection>, before: seq<string>, q: CanonicalQuestion) {
    NamesSection(q) && SectionNamed(fold, sections, [], q.section.value).None?
    && forall m <- before :: ToLower(m) != ToLower(q.section.value)
  }

  /** The sections an import creates, in the order its rows first name them. */
  function NewNames(fold: Fold, sections: seq<StoredSection>, rows: seq<QuestionCsv.QuestionRow>): seq<string> {
    if rows == [] then []
    else
      var n := |rows| - 1;
      var before := NewNames(fold, sections, rows[..n]);
      if IsNew(fold, sections, before, rows[n].question) then before + [rows[n].question.section.value] else before
  }

  /** The map finds what looking a name or key up should find. */
  ghost predicate FindsSections(sectionIds: map<string, Id>, fold: Fold, sections: seq<StoredSection>,
    added: seq<StoredSection>) {
    forall x :: LookFor(fold, sections, added, x) == if x in sectionIds then Some(sectionIds[x]) else None
  }

  function FindIn(sectionIds: map<string, Id>, fold: Fold, name: string): Option<Id> {
    if ToLower(name) in sectionIds then Some(sectionIds[ToLower(name)])
    else if SlugOf(fold, name) in sectionIds then Some(sectionIds[SlugOf(fold, name)])
    else None
  }

  lemma FindsNamed(sectionIds: map<string, Id>, fold: Fold, sections: seq<StoredSection>, added: seq<StoredSection>,
    name: string)
    requires FindsSections(sectionIds, fold, sections, added)
    ensures FindIn(sectionIds, fold, name) == SectionNamed(fold, sections, added, name)
  {
  }

  lemma ExistingGrows(fold: Fold, sections: seq<StoredSection>, i: nat, x: string)
    requires i < |sections|
    ensures ExistingFor(fold, sections[..i + 1], x)
      == if Answers(fold, sections[i], x) then Some(sections[i].id) else ExistingFor(fold, sections[..i], x)
  {
    assert sections[..i + 1][..i] == sections[..i];
  }

  method MapSections(fold: Fold, sections: seq<StoredSection>) returns (sectionIds: map<string, Id>)
    ensures FindsSections(sectionIds, fold, sections, [])
  {
    sectionIds := map[];
    for i := 0 to |sections|
      invariant FindsSections(sectionIds, fold, sections[..i], [])
    {
      var s := sections[i];
      forall x
        ensures LookFor(fold, sections[..i + 1], [], x)
          == if Answers(fold, s, x) then Some(s.id) else LookFor(fold, sections[..i], [], x)
      {
        ExistingGrows(fold, sections, i, x);
      }
      sectionIds := sectionIds[ToLower(s.name) := s.id];
      sectionIds := sectionIds[SlugOf(fold, s.name) := s.id];
    }
    assert sections[..|sections|] == sections;
  }

  lemma AddedGrows(fold: Fold, sections: seq<StoredSection>, added: seq<StoredSection>, row: StoredSection,
    sectionIds: map<string, Id>)
    requires FindsSections(sectionIds, fold, sections, added)
    ensures FindsSections(sectionIds[ToLower(row.name) := row.id], fold, sections, added + [row])
  {
  }

  method FindNewSections(fold: Fold, sectionIds: map<string, Id>, ghost sections: seq<StoredSection>,
    rows: seq<QuestionCsv.QuestionRow>) returns (names: seq<string>)
    requires FindsSections(sectionIds, fold, sections, [])
    ensures names == NewNames(fold, sections, rows)
  {
    names := [];
    for i := 0 to |rows|
      invariant names == NewNames(fold, sections, rows[..i])
    {
      assert rows[..i + 1][..i] == rows[..i];
      var q := rows[i].question;
      if NamesSection(q) {
        FindsNamed(sectionIds, fold, sections, [], q.section.value);
        if FindIn(sectionIds, fold, q.section.value).None?
          && forall m <- names :: ToLower(m) != ToLower(q.section.value) {
          names := names + [q.section.value];
        }
      }
    }
    assert rows[..|rows|] == rows;
  }

  lemma {:induction false} ExistingListed(fold: Fold, sections: seq<StoredSection>, x: string)
    requires ExistingFor(fold, sections, x).Some?
    ensures exists s <- sections :: s.id == ExistingFor(fold, sections, x).value
  {
    var n := |sections| - 1;
    if Answers(fold, sections[n], x) {
      assert sections[n] in sections;
    } else {
      ExistingListed(fold, sections[..n], x);
    }
  }

  lemma {:induction false} AddedListed(added: seq<StoredSection>, x: string)
    requires AddedFor(added, x).Some?
    ensures exists s <- added :: s.id == AddedFor(added, x).value
  {
    var n := |added| - 1;
    if x == ToLower(added[n].name) { assert added[n] in added; } else { AddedListed(added[..n], x); }
  }

  lemma LookListed(fold: Fold, sections: seq<StoredSection>, added: seq<StoredSection>, x: string)
    requires LookFor(fold, sections, added, x).Some?
    ensures exists s <- sections + added :: s.id == LookFor(fold, sections, added, x).value
  {
    if AddedFor(added, x).Some? {
      AddedListed(added, x);
      var s :| s in added && s.id == AddedFor(added, x).value;
      assert s in sections + added;
    } else {
      ExistingListed(fold, sections, x);
      var s :| s in sections && s.id == ExistingFor(fold, sections, x).value;
      assert s in sections + added;
    }
  }

  /** The section a row is filed under. */
  function FiledUnder(fold: Fold, sections: seq<StoredSection>, added: seq<StoredSection>,
    q: CanonicalQuestion): Option<Id> {
    if NamesSection(q) then SectionNamed(fold, sections, added, q.section.value) else None
  }

  /** A row is only ever filed under one of the test's sections. */
  lemma FiledInTest(fold: Fold, sections: seq<StoredSection>, added: seq<StoredSection>, q: CanonicalQuestion)
    ensures var id := FiledUnder(fold, sections, added, q);
      id.Some? ==> exists s <- sections + added :: s.id == id.value
  {
    if FiledUnder(fold, sections, added, q).Some? {
      var byName := LookFor(fold, sections, added, ToLower(q.section.value));
      if byName.Some? { LookListed(fold, sections, added, ToLower(q.section.value)); }
      else { LookListed(fold, sections, added, SlugOf(fold, q.section.value)); }
    }
  }

  // ----- The report --------------------------------------------------------------------------

  datatype ImportError =
    | InFile(issue: QuestionCsv.Issue)
    | TooManyQuestions(total: nat)
    | TooManySections(total: nat)

  datatype Report = Report(rows: seq<QuestionCsv.QuestionRow>, newSections: seq<string>, errors: seq<ImportError>)

  function ReportOf(fold: Fold, sections: seq<StoredSection>, kept: nat, parsed: QuestionCsv.ParsedCsv): Report {
    var names := NewNames(fold, sections, parsed.rows);
    var questions, total := kept + |parsed.rows|, |sections| + |names|;
    Report(parsed.rows, names,
      Map((issue: QuestionCsv.Issue) => InFile(issue), parsed.errors)
      + (if questions > MAX_QUESTIONS then [TooManyQuestions(questions)] else [])
      + (if total > MAX_SECTIONS then [TooManySections(total)] else []))
  }

  method MakeReport(fold: Fold, sectionIds: map<string, Id>, sections: seq<StoredSection>, kept: nat,
    parsed: QuestionCsv.ParsedCsv) returns (report: Report)
    requires FindsSections(sectionIds, fold, sections, [])
    ensures report == ReportOf(fold, sections, kept, parsed)
  {
    var names := FindNewSections(fold, sectionIds, sections, parsed.rows);
    var errors := Map((issue: QuestionCsv.Issue) => InFile(issue), parsed.errors);
    if kept + |parsed.rows| > MAX_QUESTIONS { errors := errors + [TooManyQuestions(kept + |parsed.rows|)]; }
    if |sections| + |names| > MAX_SECTIONS { errors := errors + [TooManySections(|sections| + |names|)]; }
    report := Report(parsed.rows, names, errors);
  }

  /** No errors means a clean file that fits, with at most 100 questions and 20 sections; each error has its cause. */
  lemma CleanReport(fold: Fold, sections: seq<StoredSection>, kept: nat, parsed: QuestionCsv.ParsedCsv)
    ensures var report := ReportOf(fold, sections, kept, parsed);
      var questions, total := kept + |parsed.rows|, |sections| + |report.newSections|;
      && (report.errors == [] <==> parsed.errors == [] && questions <= 100 && total <= 20)
      && report.rows == parsed.rows && (forall issue :: InFile(issue) in report.errors <==> issue in parsed.errors)
      && (forall n :: TooManyQuestions(n) in report.errors <==> n == questions > 100)
      && (forall n :: TooManySections(n) in report.errors <==> n == total > 20)
  {
    var issues := Map((issue: QuestionCsv.Issue) => InFile(issue), parsed.errors);
    forall issue ensures InFile(issue) in issues <==> issue in parsed.errors {
      if issue in parsed.errors {
        var k :| 0 <= k < |parsed.errors| && parsed.errors[k] == issue;
        assert issues[k] == InFile(issue);
      }
    }
  }

  // ----- What the lookups give ------------------------------------------------------------------

  /** No two names are the same, ignoring case. */
  ghost predicate NamesDiffer(names: seq<string>) {
    forall i, j :: 0 <= i < j < |names| ==> ToLower(names[i]) != ToLower(names[j])
  }

  lemma {:induction false} ExistingFound(fold: Fold, sections: seq<StoredSection>, i: nat, x: string)
    requires i < |sections| && Answers(fold, sections[i], x)
    ensures ExistingFor(fold, sections, x).Some?
  {
    var n := |sections| - 1;
    if i < n { ExistingFound(fold, sections[..n], i, x); }
  }

  lemma {:induction false} AddedFound(added: seq<StoredSection>, i: nat, x: string)
    requires i < |added| && ToLower(added[i].name) == x && NamesDiffer(Names(added))
    ensures AddedFor(added, x) == Some(added[i].id)
  {
    var n := |added| - 1;
    if i < n {
      assert Names(added)[i] == added[i].name && Names(added)[n] == added[n].name;
      assert NamesDiffer(Names(added[..n])) by {
        assert forall k :: 0 <= k < n ==> Names(added[..n])[k] == Names(added)[k];
      }
      AddedFound(added[..n], i, x);
    }
  }

  /** A new name differs from every name there is, and from the new names before it. */
  lemma NewDiffers(fold: Fold, sections: seq<StoredSection>, before: seq<string>, q: CanonicalQuestion)
    requires IsNew(fold, sections, before, q) && NamesDiffer(Names(sections) + before)
    ensures NamesDiffer(Names(sections) + before + [q.section.value])
  {
    var names := Names(sections) + before;
    forall i | 0 <= i < |names| ensures ToLower(names[i]) != ToLower(q.section.value) {
      if i < |sections| {
        if ToLower(sections[i].name) == ToLower(q.section.value) {
          ExistingFound(fold, sections, i, ToLower(q.section.value));
        }
      } else {
        assert before[i - |sections|] in before;
      }
    }
  }

  /** The sections keep names of their own, ignoring case, with the new ones among them. */
  lemma {:induction false} NewNamesDiffer(fold: Fold, sections: seq<StoredSection>, rows: seq<QuestionCsv.QuestionRow>)
    requires NamesDiffer(Names(sections))
    ensures NamesDiffer(Names(sections) + NewNames(fold, sections, rows))
  {
    if rows == [] {
      assert Names(sections) + [] == Names(sections);
    } else {
      var n := |rows| - 1;
      NewNamesDiffer(fold, sections, rows[..n]);
      var before := NewNames(fold, sections, rows[..n]);
      if IsNew(fold, sections, before, rows[n].question) {
        NewDiffers(fold, sections, before, rows[n].question);
        Associative(Names(sections), before, [rows[n].question.section.value]);
      }
    }
  }

  /** A row's section either answers already or has been named as new. */
  lemma {:induction false} NamedOrNew(fold: Fold, sections: seq<StoredSection>, rows: seq<QuestionCsv.QuestionRow>,
    k: nat)
    requires k < |rows| && NamesSection(rows[k].question)
    ensures var name := rows[k].question.section.value;
      SectionNamed(fold, sections, [], name).Some?
      || exists m <- NewNames(fold, sections, rows) :: ToLower(m) == ToLower(name)
  {
    var n := |rows| - 1;
    var before := NewNames(fold, sections, rows[..n]);
    if k < n {
      NamedOrNew(fold, sections, rows[..n], k);
      assert forall m <- before :: m in NewNames(fold, sections, rows);
    } else if IsNew(fold, sections, before, rows[n].question) {
      assert rows[n].question.section.value in NewNames(fold, sections, rows);
    } else {
      assert forall m <- before :: m in NewNames(fold, sections, rows);
    }
  }

  /** Every row that names a section gets one. */
  lemma EverySectionFound(fold: Fold, sections: seq<StoredSection>, added: seq<StoredSection>,
    rows: seq<QuestionCsv.QuestionRow>, k: nat)
    requires Names(added) == NewNames(fold, sections, rows) && NamesDiffer(Names(sections))
    requires k < |rows| && NamesSection(rows[k].question)
    ensures SectionNamed(fold, sections, added, rows[k].question.section.value).Some?
  {
    var name := rows[k].question.section.value;
    NamedOrNew(fold, sections, rows, k);
    NewNamesDiffer(fold, sections, rows);
    if m :| m in NewNames(fold, sections, rows) && ToLower(m) == ToLower(name) {
      var i :| 0 <= i < |added| && Names(added)[i] == m;
      AddedApart(sections, added);
      AddedFound(added, i, ToLower(name));
    }
  }

  lemma AddedApart(sections: seq<StoredSection>, added: seq<StoredSection>)
    requires NamesDiffer(Names(sections) + Names(added))
    ensures NamesDiffer(Names(added))
  {
    var all, n := Names(sections) + Names(added), |sections|;
    forall i, j | 0 <= i < j < |added| ensures ToLower(Names(added)[i]) != ToLower(Names(added)[j]) {
      assert all[n + i] == Names(added)[i] && all[n + j] == Names(added)[j];
    }
  }

  ghost predicate DistinctIds(sections: seq<StoredSection>) {
    forall a, b :: 0 <= a < b < |sections| ==> sections[a].id != sections[b].id
  }

  /** No section after place i has x for a key. */
  ghost predicate NoLaterKey(fold: Fold, sections: seq<StoredSection>, i: nat, x: string) {
    forall j :: i < j < |sections| ==> SlugOf(fold, sections[j].name) != x
  }

  lemma NoLaterSplit(fold: Fold, sections: seq<StoredSection>, i: nat, x: string)
    requires i < |sections| - 1
    ensures var n := |sections| - 1;
      NoLaterKey(fold, sections, i, x) <==> NoLaterKey(fold, sections[..n], i, x) && SlugOf(fold, sections[n].name) != x
  {
    var n := |sections| - 1;
    assert forall j :: 0 <= j < n ==> sections[..n][j] == sections[j];
  }

  lemma NamesDifferSplit(sections: seq<StoredSection>, i: nat)
    requires i < |sections| - 1 && NamesDiffer(Names(sections))
    ensures NamesDiffer(Names(sections[..|sections| - 1]))
    ensures ToLower(sections[i].name) != ToLower(sections[|sections| - 1].name)
  {
  }

  /** A section is found by its own name exactly when no later section has that name for a key. */
  lemma {:induction false} FoundByName(fold: Fold, sections: seq<StoredSection>, i: nat)
    requires i < |sections| && NamesDiffer(Names(sections)) && DistinctIds(sections)
    ensures ExistingFor(fold, sections, ToLower(sections[i].name)) == Some(sections[i].id)
      <==> NoLaterKey(fold, sections, i, ToLower(sections[i].name))
  {
    var n := |sections| - 1;
    if i < n {
      NamesDifferSplit(sections, i);
      NoLaterSplit(fold, sections, i, ToLower(sections[i].name));
      FoundByName(fold, sections[..n], i);
    }
  }

  lemma {:induction false} NotAdded(added: seq<StoredSection>, x: string)
    requires forall k :: 0 <= k < |added| ==> ToLower(added[k].name) != x
    ensures AddedFor(added, x).None?
  {
    if added != [] { NotAdded(added[..|added| - 1], x); }
  }

  /** A row that names a section, ignoring case, lands in it exactly when no later section has that name for a key. */
  lemma LandsInItsSection(fold: Fold, sections: seq<StoredSection>, added: seq<StoredSection>,
    rows: seq<QuestionCsv.QuestionRow>, i: nat, name: string)
    requires Names(added) == NewNames(fold, sections, rows) && NamesDiffer(Names(sections)) && DistinctIds(sections)
    requires i < |sections| && ToLower(name) == ToLower(sections[i].name)
    ensures SectionNamed(fold, sections, added, name) == Some(sections[i].id)
      <==> NoLaterKey(fold, sections, i, ToLower(name))
  {
    NewNamesDiffer(fold, sections, rows);
    var all := Names(sections) + Names(added);
    forall k | 0 <= k < |added| ensures ToLower(added[k].name) != ToLower(name) {
      assert all[i] == sections[i].name && all[|sections| + k] == added[k].name;
    }
    NotAdded(added, ToLower(name));
    FoundByName(fold, sections, i);
    ExistingFound(fold, sections, i, ToLower(name));
  }

  // ----- Rows that name a section the test does not have -------------------------------------------

  /** Folding does not tell capitals from small letters. */
  ghost predicate FoldsCase(fold: Fold) {
    forall a: string, b: string :: ToLower(a) == ToLower(b) ==> fold(a) == fold(b)
  }

  /** No section has this name or key, for its name or for its key. */
  predicate NoneAnswers(fold: Fold, sections: seq<StoredSection>, name: string) {
    forall s <- sections :: !Answers(fold, s, ToLower(name)) && !Answers(fold, s, SlugOf(fold, name))
  }

  lemma {:induction false} NoneFound(fold: Fold, sections: seq<StoredSection>, x: string)
    ensures ExistingFor(fold, sections, x).None? <==> forall s <- sections :: !Answers(fold, s, x)
  {
    if sections != [] {
      var n := |sections| - 1;
      NoneFound(fold, sections[..n], x);
      assert sections == sections[..n] + [sections[n]];
    }
  }

  lemma UnnamedWhen(fold: Fold, sections: seq<StoredSection>, name: string)
    ensures SectionNamed(fold, sections, [], name).None? <==> NoneAnswers(fold, sections, name)
  {
    NoneFound(fold, sections, ToLower(name));
    NoneFound(fold, sections, SlugOf(fold, name));
  }

  /** Row k gives a section's name that nothing answers to. */
  ghost predicate GivesNew(fold: Fold, sections: seq<StoredSection>, rows: seq<QuestionCsv.QuestionRow>, k: nat,
    name: string) {
    k < |rows| && rows[k].question.section == Some(name) && name != "" && NoneAnswers(fold, sections, name)
  }

  /** And it is the first to give it, whatever the case. */
  ghost predicate FirstToGive(fold: Fold, sections: seq<StoredSection>, rows: seq<QuestionCsv.QuestionRow>, k: nat,
    name: string) {
    && GivesNew(fold, sections, rows, k, name)
    && forall j: nat, other :: j < k && GivesNew(fold, sections, rows, j, other) ==> ToLower(other) != ToLower(name)
  }

  lemma GivenEarlier(fold: Fold, sections: seq<StoredSection>, rows: seq<QuestionCsv.QuestionRow>, k: nat,
    name: string)
    requires k < |rows| - 1
    ensures var init := rows[..|rows| - 1];
      && (GivesNew(fold, sections, rows, k, name) <==> GivesNew(fold, sections, init, k, name))
      && (FirstToGive(fold, sections, rows, k, name) <==> FirstToGive(fold, sections, init, k, name))
  {
    var init := rows[..|rows| - 1];
    forall j: nat, other | j <= k
      ensures GivesNew(fold, sections, rows, j, other) <==> GivesNew(fold, sections, init, j, other)
    {
      assert rows[j] == init[j];
    }
  }

  /** The new names, with the row each is taken from. */
  ghost predicate TakenFrom(fold: Fold, sections: seq<StoredSection>, rows: seq<QuestionCsv.QuestionRow>,
    names: seq<string>, at: seq<nat>) {
    && |at| == |names| && (forall i, j :: 0 <= i < j < |at| ==> at[i] < at[j])
    && (forall i :: 0 <= i < |at| ==> FirstToGive(fold, sections, rows, at[i], names[i]))
    && forall k: nat, name :: FirstToGive(fold, sections, rows, k, name) ==> k in at
  }

  /** The last row's name is new exactly when no row before gives it. */
  lemma LastGives(fold: Fold, sections: seq<StoredSection>, rows: seq<QuestionCsv.QuestionRow>, at: seq<nat>)
    requires rows != []
    requires var init := rows[..|rows| - 1]; TakenFrom(fold, sections, init, NewNames(fold, sections, init), at)
    ensures var n := |rows| - 1;
      IsNew(fold, sections, NewNames(fold, sections, rows[..n]), rows[n].question) <==>
        rows[n].question.section.Some? && FirstToGive(fold, sections, rows, n, rows[n].question.section.value)
  {
    var n := |rows| - 1;
    var init, q := rows[..n], rows[n].question;
    var before := NewNames(fold, sections, init);
    if NamesSection(q) {
      var name := q.section.value;
      UnnamedWhen(fold, sections, name);
      forall j: nat, other | j < n && GivesNew(fold, sections, rows, j, other) && ToLower(other) == ToLower(name)
        ensures exists m <- before :: ToLower(m) == ToLower(name)
      {
        UnnamedWhen(fold, sections, other);
        assert init[j] == rows[j];
        NamedOrNew(fold, sections, init, j);
      }
      forall m | m in before && FirstToGive(fold, sections, rows, n, name) ensures ToLower(m) != ToLower(name) {
        var i :| 0 <= i < |before| && before[i] == m;
        GivenEarlier(fold, sections, rows, at[i], m);
      }
    }
  }

  /** One more row, with its name if that is new. */
  lemma TakenMore(fold: Fold, sections: seq<StoredSection>, rows: seq<QuestionCsv.QuestionRow>, names: seq<string>,
    at: seq<nat>)
    requires rows != [] && TakenFrom(fold, sections, rows[..|rows| - 1], names, at)
    ensures var n, q := |rows| - 1, rows[|rows| - 1].question;
      if q.section.Some? && FirstToGive(fold, sections, rows, n, q.section.value)
      then TakenFrom(fold, sections, rows, names + [q.section.value], at + [n])
      else TakenFrom(fold, sections, rows, names, at)
  {
    var n := |rows| - 1;
    forall k: nat, name | k < n
      ensures FirstToGive(fold, sections, rows, k, name) <==> FirstToGive(fold, sections, rows[..n], k, name)
    {
      GivenEarlier(fold, sections, rows, k, name);
    }
    forall i | 0 <= i < |at| ensures at[i] < n { assert FirstToGive(fold, sections, rows[..n], at[i], names[i]); }
  }

  /** The new sections are the names given first, in the order of the rows that give them. */
  lemma {:induction false} NewNamesTaken(fold: Fold, sections: seq<StoredSection>,
    rows: seq<QuestionCsv.QuestionRow>) returns (at: seq<nat>)
    ensures TakenFrom(fold, sections, rows, NewNames(fold, sections, rows), at)
  {
    at := [];
    if rows != [] {
      var n := |rows| - 1;
      at := NewNamesTaken(fold, sections, rows[..n]);
      LastGives(fold, sections, rows, at);
      TakenMore(fold, sections, rows, NewNames(fold, sections, rows[..n]), at);
      if IsNew(fold, sections, NewNames(fold, sections, rows[..n]), rows[n].question) { at := at + [n]; }
    }
  }

  lemma {:induction false} NewAreUnanswered(fold: Fold, sections: seq<StoredSection>,
    rows: seq<QuestionCsv.QuestionRow>, m: string)
    requires m in NewNames(fold, sections, rows)
    ensures NoneAnswers(fold, sections, m)
  {
    var n := |rows| - 1;
    if m in NewNames(fold, sections, rows[..n]) {
      NewAreUnanswered(fold, sections, rows[..n], m);
    } else {
      UnnamedWhen(fold, sections, m);
    }
  }

  /** The row is filed under a section the import adds, of the name it gives. */
  ghost predicate LandsInNew(fold: Fold, sections: seq<StoredSection>, added: seq<StoredSection>, name: string) {
    exists a <- added :: ToLower(a.name) == ToLower(name) && SectionNamed(fold, sections, added, name) == Some(a.id)
  }

  /**
   * A row that names a section the test does not have lands in a new section of
   * that name exactly when no section of the test answers to the name or its key.
   */
  lemma LandsInNewSection(fold: Fold, sections: seq<StoredSection>, added: seq<StoredSection>,
    rows: seq<QuestionCsv.QuestionRow>, k: nat)
    requires Names(added) == NewNames(fold, sections, rows) && NamesDiffer(Names(sections)) && FoldsCase(fold)
    requires k < |rows| && NamesSection(rows[k].question)
    ensures var name := rows[k].question.section.value;
      LandsInNew(fold, sections, added, name) <==> NoneAnswers(fold, sections, name)
  {
    var name := rows[k].question.section.value;
    UnnamedWhen(fold, sections, name);
    if NoneAnswers(fold, sections, name) {
      NamedOrNew(fold, sections, rows, k);
      var m :| m in NewNames(fold, sections, rows) && ToLower(m) == ToLower(name);
      var i :| 0 <= i < |added| && Names(added)[i] == m;
      NewNamesDiffer(fold, sections, rows);
      AddedApart(sections, added);
      AddedFound(added, i, ToLower(name));
      assert added[i] in added;
    }
    if a :| a in added && ToLower(a.name) == ToLower(name) {
      assert a.name in Names(added);
      NewAreUnanswered(fold, sections, rows, a.name);
      assert fold(a.name) == fold(name);
    }
  }

  // ----- Rows that land elsewhere --------------------------------------------------------------------

  /** A name of letters no key can hold has the fallback for its key. */
  lemma ForeignKey(fold: Fold, name: string)
    requires |name| == 2 && fold(name) == name && !IsSlugChar(name[0]) && !IsSlugChar(name[1])
    ensures SlugOf(fold, name) == SLUG_FALLBACK
  {
    assert DashRuns(name[2..], true) == [] && DashRuns(name[1..], true) == [];
    assert DashRuns(name, false) == "-";
    assert StripLeft("-") == [] by { assert "-"[1..] == []; assert StripLeft([]) == []; }
  }

  /** So a name of letters no key can hold takes over the section called "Item". */
  lemma ForeignNameTakesOver(fold: Fold, first: StoredSection, second: StoredSection)
    requires first.name == "Item" && fold(second.name) == second.name == "\U{65E5}\U{672C}" && first.id != second.id
    ensures SectionNamed(fold, [first, second], [], "Item") == Some(second.id)
  {
    ForeignKey(fold, second.name);
    assert ToLower("Item") == "item";
    assert [first, second][1] == second;
  }

  lemma OnlyAnswers(fold: Fold, only: StoredSection, name: string)
    requires Answers(fold, only, SlugOf(fold, name))
    ensures SectionNamed(fold, [only], [], name) == Some(only.id)
  {
    forall x ensures ExistingFor(fold, [only], x) == if Answers(fold, only, x) then Some(only.id) else None {
      assert [only][..0] == [] && ExistingFor(fold, [], x) == None;
    }
  }

  lemma NothingNew(fold: Fold, sections: seq<StoredSection>, row: QuestionCsv.QuestionRow)
    requires NamesSection(row.question) ==> SectionNamed(fold, sections, [], row.question.section.value).Some?
    ensures NewNames(fold, sections, [row]) == []
  {
    assert [row][..0] == [] && NewNames(fold, sections, []) == [];
  }

  /** And a row naming one such section lands in another, while the section it names is never made. */
  lemma ForeignNameMisfiled(fold: Fold, only: StoredSection, row: QuestionCsv.QuestionRow)
    requires fold(only.name) == only.name == "\U{65E5}\U{672C}"
    requires row.question.section == Some("\U{4E2D}\U{56FD}")
    requires fold(row.question.section.value) == row.question.section.value
    ensures NewNames(fold, [only], [row]) == []
    ensures FiledUnder(fold, [only], [], row.question) == Some(only.id)
    ensures ToLower(only.name) != ToLower(row.question.section.value)
  {
    var name := row.question.section.value;
    ForeignKey(fold, only.name);
    ForeignKey(fold, name);
    assert ToLower(only.name)[0] != ToLower(name)[0];
    OnlyAnswers(fold, only, name);
    NothingNew(fold, [only], row);
  }
}
