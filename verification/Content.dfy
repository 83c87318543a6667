/** A test as it is stored, the document it is exported as, and the snapshot it is sent as. */
module Content {
  import opened Basics
  import opened Questions
  import opened Snapshots
  import opened SectionKeys
  import Bands

  /** An uploaded file. */
  datatype Asset = Asset(id: string, originalName: string)

  datatype StoredQuestion = StoredQuestion(
    id: Id,
    sectionId: Option<Id>,
    ref: Option<string>,
    kind: QuestionType,
    instruction: Option<string>,
    context: Option<string>,
    stem: string,
    media: Option<Asset>,
    mediaFileName: Option<string>,
    employerPrompt: Option<string>,
    employerValue: Option<int>,
    difficulty: Option<Difficulty>,
    rationale: Option<string>,
    transcript: Option<string>,
    shuffleOptions: Option<bool>,
    keepLastOptionFixed: bool,
    options: seq<SnapshotOption>
  )

  datatype StoredSection = StoredSection(id: Id, name: string, description: Option<string>, weight: Option<real>)

  datatype Settings = Settings(
    name: string,
    durationMinutes: nat,
    scoringMethod: ScoringMethod,
    questionOrder: QuestionOrder,
    shuffleOptions: bool,
    allowBackNavigation: bool,
    audioReplays: nat
  )

  /** A test with everything in it: `AssessmentWithContent`. */
  datatype Test = Test(
    settings: Settings,
    sections: seq<StoredSection>,
    questions: seq<StoredQuestion>,
    bands: seq<SnapshotBand>
  )

  datatype CanonicalSection = CanonicalSection(
    key: string,
    name: string,
    description: Option<string>,
    weight: Option<real>
  )

  /** One JSON document per test. */
  datatype Document = Document(
    settings: Settings,
    sections: seq<CanonicalSection>,
    questions: seq<CanonicalQuestion>,
    bands: seq<SnapshotBand>
  )

  // ----- Sending -------------------------------------------------------------------------

  function FreezeQuestion(q: StoredQuestion, shuffle: bool): SnapshotQuestion {
    SnapshotQuestion(q.id, q.ref, q.sectionId, q.kind, q.instruction, q.context, q.stem,
      if q.media.Some? then Some(q.media.value.id) else None,
      q.employerPrompt, q.employerValue, q.difficulty, q.rationale, q.transcript,
      ShufflesOptions(q.kind, q.shuffleOptions, shuffle), q.keepLastOptionFixed, q.options)
  }

  function FreezeSection(s: StoredSection): SnapshotSection {
    SnapshotSection(s.id, s.name, s.weight)
  }

  function BuildSnapshot(t: Test): Snapshot {
    Snapshot(t.settings.name, t.settings.durationMinutes, t.settings.scoringMethod, t.settings.questionOrder,
      t.settings.allowBackNavigation, t.settings.audioReplays,
      Map(FreezeSection, t.sections),
      Map((q: StoredQuestion) => FreezeQuestion(q, t.settings.shuffleOptions), t.questions),
      Bands.HighestFirst(t.bands))
  }

  // ----- Exporting -----------------------------------------------------------------------

  function ExportOption(o: SnapshotOption): CanonicalOption {
    CanonicalOption(Some(o.caption), o.text, o.employerText, o.value, o.isCorrect)
  }

  function ExportMedia(q: StoredQuestion): Option<CanonicalMedia> {
    if q.media.Some? then Some(CanonicalMedia(Some(q.media.value.originalName), Some(q.media.value.id)))
    else if q.mediaFileName.Some? && q.mediaFileName.value != "" then Some(CanonicalMedia(q.mediaFileName, None))
    else None
  }

  function ToCanonical(q: StoredQuestion, section: Option<string>): CanonicalQuestion {
    CanonicalQuestion(q.ref, section, q.kind, q.difficulty, q.instruction, q.context, q.stem, ExportMedia(q),
      Map(ExportOption, q.options), q.rationale, q.transcript, q.shuffleOptions, q.keepLastOptionFixed,
      q.employerPrompt, q.employerValue)
  }

  function Names(sections: seq<StoredSection>): seq<string> {
    Map((s: StoredSection) => s.name, sections)
  }

  /** The place of a section in the test, or its length when it is not there. */
  function SectionAt(sections: seq<StoredSection>, id: Id): nat {
    Find((s: StoredSection) => s.id == id, sections)
  }

  /** The key a question's section is exported under: none when it has no section in the test. */
  function SectionKeyOf(q: StoredQuestion, sections: seq<StoredSection>, keys: seq<string>): Option<string>
    requires |keys| == |sections|
  {
    if q.sectionId.None? then None
    else
      var at := SectionAt(sections, q.sectionId.value);
      if at < |sections| then Some(keys[at]) else None
  }

  function ExportSections(sections: seq<StoredSection>, keys: seq<string>): (r: seq<CanonicalSection>)
    requires |keys| == |sections|
    ensures |r| == |sections|
    ensures forall i :: 0 <= i < |r| ==>
      r[i] == CanonicalSection(keys[i], sections[i].name, sections[i].description, sections[i].weight)
  {
    seq(|sections|, i requires 0 <= i < |sections| =>
      CanonicalSection(keys[i], sections[i].name, sections[i].description, sections[i].weight))
  }

  /** The whole test as a document, for export and duplication. */
  function ToDocument(fold: Fold, t: Test): Document {
    var keys := Keys(fold, Names(t.sections));
    Document(t.settings, ExportSections(t.sections, keys),
      Map((q: StoredQuestion) => ToCanonical(q, SectionKeyOf(q, t.sections, keys)), t.questions),
      Bands.HighestFirst(t.bands))
  }

  // ----- Publishing ------------------------------------------------------------------------

  datatype PublishProblem =
    | NoQuestions
    | InQuestion(index: nat, problem: Problem)
    | MissingFile(index: nat, file: string)

  function QuestionIssues(q: StoredQuestion, index: nat, scoring: ScoringMethod): seq<PublishProblem> {
    Map((p: Problem) => InQuestion(index, p), QuestionProblems(Normalize(ToCanonical(q, None)), scoring))
    + (if q.media.None? && q.mediaFileName.Some? && q.mediaFileName.value != ""
       then [MissingFile(index, q.mediaFileName.value)] else [])
  }

  function IssuesFrom(questions: seq<StoredQuestion>, scoring: ScoringMethod): seq<PublishProblem> {
    if questions == [] then []
    else
      var n := |questions| - 1;
      IssuesFrom(questions[..n], scoring) + QuestionIssues(questions[n], n, scoring)
  }

  function PublishProblems(t: Test): seq<PublishProblem> {
    (if t.questions == [] then [NoQuestions] else []) + IssuesFrom(t.questions, t.settings.scoringMethod)
  }

  lemma IssuesGrow(questions: seq<StoredQuestion>, scoring: ScoringMethod, i: nat)
    requires i < |questions|
    ensures IssuesFrom(questions[..i + 1], scoring)
      == IssuesFrom(questions[..i], scoring) + QuestionIssues(questions[i], i, scoring)
  {
    assert questions[..i + 1][..i] == questions[..i];
  }

  method CheckPublishable(t: Test) returns (problems: seq<PublishProblem>)
    ensures problems == PublishProblems(t)
  {
    var scoring := t.settings.scoringMethod;
    problems := if |t.questions| == 0 then [NoQuestions] else [];
    ghost var start := problems;
    for i := 0 to |t.questions|
      invariant problems == start + IssuesFrom(t.questions[..i], scoring)
    {
      var issues := CheckStored(t.questions[i], i, scoring);
      IssuesGrow(t.questions, scoring, i);
      Associative(start, IssuesFrom(t.questions[..i], scoring), issues);
      problems := problems + issues;
    }
    assert t.questions[..|t.questions|] == t.questions;
  }

  method CheckStored(q: StoredQuestion, index: nat, scoring: ScoringMethod) returns (problems: seq<PublishProblem>)
    ensures problems == QuestionIssues(q, index, scoring)
  {
    var found := CheckQuestion(Normalize(ToCanonical(q, None)), scoring);
    problems := Map((p: Problem) => InQuestion(index, p), found);
    if q.media.None? && q.mediaFileName.Some? && q.mediaFileName.value != "" {
      problems := problems + [MissingFile(index, q.mediaFileName.value)];
    }
  }

  /** A stored question is what normalizing leaves alone, and the test can hold it. */
  predicate Kept(q: StoredQuestion, scoring: ScoringMethod) {
    var c := ToCanonical(q, None).(media := None);
    Normal(c) && QuestionProblems(c, scoring) == []
  }

  predicate AllKept(t: Test) {
    forall q <- t.questions :: Kept(q, t.settings.scoringMethod)
  }

  /** The rules do not look at a question's section or file. */
  lemma SameRules(q: CanonicalQuestion, r: CanonicalQuestion, scoring: ScoringMethod)
    requires q.stem == r.stem && q.kind == r.kind && q.options == r.options && q.employerValue == r.employerValue
    ensures QuestionProblems(q, scoring) == QuestionProblems(r, scoring)
  {
  }
}
