/** The import gate: what stops a document from being imported. */
module Documents {
  import opened Basics
  import opened Text
  import opened Questions
  import opened Snapshots
  import opened Content

  datatype DocumentProblem =
    | TwoSections(name: string)
    | NoSuchSection(index: nat, section: string)
    | BadQuestion(index: nat, problem: Problem)
    | TwoBands

  /** What a section can be called by, in lower case, each once. */
  function CalledBy(s: CanonicalSection): (names: seq<string>)
    ensures 1 <= |names| <= 2 && (|names| == 2 ==> names[0] != names[1])
    ensures forall n :: n in names <==> n == ToLower(s.key) || n == ToLower(s.name)
  {
    if ToLower(s.key) == ToLower(s.name) then [ToLower(s.key)] else [ToLower(s.key), ToLower(s.name)]
  }

  function NamesOf(s: CanonicalSection): set<string> {
    {ToLower(s.key), ToLower(s.name)}
  }

  /** Everything the sections are called by. */
  function AllNames(sections: seq<CanonicalSection>): set<string> {
    if sections == [] then {} else AllNames(sections[..|sections| - 1]) + NamesOf(sections[|sections| - 1])
  }

  /** The names of one section that the sections before it have taken. */
  function Clashes(names: seq<string>, taken: set<string>): (r: seq<DocumentProblem>)
    ensures r == [] <==> forall n <- names :: n !in taken
  {
    if names == [] then []
    else
      var last := |names| - 1;
      Clashes(names[..last], taken) + (if names[last] in taken then [TwoSections(names[last])] else [])
  }

  function SectionProblems(sections: seq<CanonicalSection>): seq<DocumentProblem> {
    if sections == [] then []
    else
      var n := |sections| - 1;
      SectionProblems(sections[..n]) + Clashes(CalledBy(sections[n]), AllNames(sections[..n]))
  }

  predicate Unresolved(q: CanonicalQuestion, names: set<string>) {
    q.section.Some? && q.section.value != "" && ToLower(q.section.value) !in names
  }

  function ProblemsOf(raw: CanonicalQuestion, index: nat, names: set<string>,
    scoring: ScoringMethod): seq<DocumentProblem> {
    var q := Normalize(raw);
    Listed(q, index, names, QuestionProblems(q, scoring))
  }

  /** A normalized question's missing section, and then its own problems. */
  function Listed(q: CanonicalQuestion, index: nat, names: set<string>, found: seq<Problem>): seq<DocumentProblem> {
    (if Unresolved(q, names) then [NoSuchSection(index, q.section.value)] else [])
    + Map((p: Problem) => BadQuestion(index, p), found)
  }

  function QuestionsProblems(questions: seq<CanonicalQuestion>, names: set<string>,
    scoring: ScoringMethod): seq<DocumentProblem> {
    if questions == [] then []
    else
      var n := |questions| - 1;
      QuestionsProblems(questions[..n], names, scoring) + ProblemsOf(questions[n], n, names, scoring)
  }

  /** Two of the bands start at the same score. */
  predicate BandsClash(bands: seq<SnapshotBand>) {
    exists i, j :: 0 <= i < j < |bands| && bands[i].minScore == bands[j].minScore
  }

  function DocumentProblems(d: Document): seq<DocumentProblem> {
    SectionProblems(d.sections)
    + QuestionsProblems(d.questions, AllNames(d.sections), d.settings.scoringMethod)
    + (if BandsClash(d.bands) then [TwoBands] else [])
  }

  // ----- The loops that find them -----------------------------------------------------------

  method CheckSections(sections: seq<CanonicalSection>) returns (problems: seq<DocumentProblem>, keys: set<string>)
    ensures problems == SectionProblems(sections) && keys == AllNames(sections)
  {
    problems, keys := [], {};
    for i := 0 to |sections|
      invariant problems == SectionProblems(sections[..i]) && keys == AllNames(sections[..i])
    {
      SectionsGrow(sections, i);
      var found, more := CheckNames(CalledBy(sections[i]), keys);
      assert more == keys + NamesOf(sections[i]);
      problems, keys := problems + found, more;
    }
    assert sections[..|sections|] == sections;
  }

  lemma SectionsGrow(sections: seq<CanonicalSection>, i: nat)
    requires i < |sections|
    ensures SectionProblems(sections[..i + 1])
      == SectionProblems(sections[..i]) + Clashes(CalledBy(sections[i]), AllNames(sections[..i]))
    ensures AllNames(sections[..i + 1]) == AllNames(sections[..i]) + NamesOf(sections[i])
  {
    assert sections[..i + 1][..i] == sections[..i];
  }

  /** Adds each name as it goes; the names of one section differ, so none clashes with its own. */
  lemma ClashesGrow(names: seq<string>, taken: set<string>, i: nat)
    requires i < |names|
    ensures Clashes(names[..i + 1], taken)
      == Clashes(names[..i], taken) + (if names[i] in taken then [TwoSections(names[i])] else [])
    ensures names[..i + 1] == names[..i] + [names[i]]
  {
    assert names[..i + 1][..i] == names[..i];
  }

  method CheckNames(names: seq<string>, taken: set<string>) returns (found: seq<DocumentProblem>, keys: set<string>)
    requires Distinct(names)
    ensures found == Clashes(names, taken) && forall n :: n in keys <==> n in taken || n in names
  {
    found, keys := [], taken;
    for i := 0 to |names|
      invariant found == Clashes(names[..i], taken)
      invariant forall n :: n in keys <==> n in taken || n in names[..i]
    {
      ClashesGrow(names, taken, i);
      if names[i] in keys { found := found + [TwoSections(names[i])]; }
      keys := keys + {names[i]};
    }
    assert names[..|names|] == names;
  }

  method CheckDocument(d: Document) returns (problems: seq<DocumentProblem>)
    ensures problems == DocumentProblems(d)
  {
    var keys;
    problems, keys := CheckSections(d.sections);
    var found := CheckQuestions(d.questions, keys, d.settings.scoringMethod);
    problems := problems + found;
    if BandsClash(d.bands) { problems := problems + [TwoBands]; }
  }

  method CheckQuestions(questions: seq<CanonicalQuestion>, names: set<string>, scoring: ScoringMethod)
    returns (problems: seq<DocumentProblem>)
    ensures problems == QuestionsProblems(questions, names, scoring)
  {
    problems := [];
    for i := 0 to |questions|
      invariant problems == QuestionsProblems(questions[..i], names, scoring)
    {
      var found := CheckOne(questions[i], i, names, scoring);
      QuestionsGrow(questions, names, scoring, i);
      problems := problems + found;
    }
    assert questions[..|questions|] == questions;
  }

  lemma QuestionsGrow(questions: seq<CanonicalQuestion>, names: set<string>, scoring: ScoringMethod, i: nat)
    requires i < |questions|
    ensures QuestionsProblems(questions[..i + 1], names, scoring)
      == QuestionsProblems(questions[..i], names, scoring) + ProblemsOf(questions[i], i, names, scoring)
  {
    assert questions[..i + 1][..i] == questions[..i];
  }

  method CheckOne(raw: CanonicalQuestion, index: nat, names: set<string>, scoring: ScoringMethod)
    returns (problems: seq<DocumentProblem>)
    ensures problems == ProblemsOf(raw, index, names, scoring)
  {
    var q := Normalize(raw);
    var found := CheckQuestion(q, scoring);
    problems := ListProblems(q, index, names, found);
  }

  method ListProblems(q: CanonicalQuestion, index: nat, names: set<string>, found: seq<Problem>)
    returns (problems: seq<DocumentProblem>)
    ensures problems == Listed(q, index, names, found)
  {
    problems := [];
    if Unresolved(q, names) { problems := problems + [NoSuchSection(index, q.section.value)]; }
    problems := problems + Map((p: Problem) => BadQuestion(index, p), found);
  }

  // ----- What passes the gate ---------------------------------------------------------------

  /** No two sections share a name or key, ignoring case. */
  ghost predicate NamesApart(sections: seq<CanonicalSection>) {
    forall i, j :: 0 <= i < j < |sections| ==> Apart(sections[i], sections[j])
  }

  /** A question the document's test can hold, whose section is one of the document's. */
  ghost predicate Fits(raw: CanonicalQuestion, names: set<string>, scoring: ScoringMethod) {
    var q := Normalize(raw);
    Ready(q, scoring) && (q.section.Some? ==> ToLower(q.section.value) in names)
  }

  ghost predicate Clean(d: Document) {
    && NamesApart(d.sections)
    && (forall q <- d.questions :: Fits(q, AllNames(d.sections), d.settings.scoringMethod))
    && !BandsClash(d.bands)
  }

  lemma {:induction false} NameTaken(sections: seq<CanonicalSection>, name: string)
    ensures name in AllNames(sections) <==> exists i :: 0 <= i < |sections| && name in CalledBy(sections[i])
  {
    if sections != [] {
      var n := |sections| - 1;
      var init := sections[..n];
      NameTaken(init, name);
      assert forall i :: 0 <= i < n ==> init[i] == sections[i];
      if name in AllNames(init) {
        var i :| 0 <= i < n && name in CalledBy(init[i]);
        assert name in CalledBy(sections[i]);
      }
    }
  }

  ghost predicate Apart(a: CanonicalSection, b: CanonicalSection) {
    forall n <- CalledBy(a) :: n !in CalledBy(b)
  }

  /** The last section is apart from the others exactly when it takes none of their names. */
  lemma LastApart(sections: seq<CanonicalSection>, last: CanonicalSection)
    ensures (forall i :: 0 <= i < |sections| ==> Apart(sections[i], last))
      <==> Clashes(CalledBy(last), AllNames(sections)) == []
  {
    forall n | n in CalledBy(last)
      ensures n in AllNames(sections) <==> exists i :: 0 <= i < |sections| && n in CalledBy(sections[i])
    {
      NameTaken(sections, n);
    }
  }

  lemma {:induction false} SectionsClean(sections: seq<CanonicalSection>)
    ensures SectionProblems(sections) == [] <==> NamesApart(sections)
  {
    if sections != [] {
      var n := |sections| - 1;
      SectionsClean(sections[..n]);
      LastApart(sections[..n], sections[n]);
      ApartSplit(sections);
    }
  }

  lemma ApartSplit(sections: seq<CanonicalSection>)
    requires sections != []
    ensures var n := |sections| - 1;
      NamesApart(sections) <==>
        NamesApart(sections[..n]) && forall i :: 0 <= i < n ==> Apart(sections[..n][i], sections[n])
  {
  }

  lemma {:induction false} QuestionsClean(questions: seq<CanonicalQuestion>, names: set<string>, scoring: ScoringMethod)
    ensures QuestionsProblems(questions, names, scoring) == [] <==> forall q <- questions :: Fits(q, names, scoring)
  {
    if questions != [] {
      var n := |questions| - 1;
      QuestionsClean(questions[..n], names, scoring);
      OneClean(questions[n], n, names, scoring);
      SplitLast(questions);
    }
  }

  lemma OneClean(raw: CanonicalQuestion, index: nat, names: set<string>, scoring: ScoringMethod)
    ensures ProblemsOf(raw, index, names, scoring) == [] <==> Fits(raw, names, scoring)
  {
    var q := Normalize(raw);
    ProblemFree(q, scoring);
    assert |Map((p: Problem) => BadQuestion(index, p), QuestionProblems(q, scoring))| == |QuestionProblems(q, scoring)|;
  }

  /** Exactly the clean documents are imported. */
  lemma GateLetsCleanThrough(d: Document)
    ensures DocumentProblems(d) == [] <==> Clean(d)
  {
    SectionsClean(d.sections);
    QuestionsClean(d.questions, AllNames(d.sections), d.settings.scoringMethod);
  }
}
