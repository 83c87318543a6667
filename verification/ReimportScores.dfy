/** When a clean re-import of a test's own CSV export changes how the test scores. */
module ReimportScores {
  import opened Basics
  import opened Questions
  import opened Snapshots
  import opened Scoring
  import opened ScoringLaws
  import opened ScoreMeaning
  import opened Twins
  import opened Content
  import opened Imports
  import opened ExportImport
  import opened Reimport
  import opened SectionList
  import SectionKeys
  import Authoring

  // ----- Scales numbered anew ----------------------------------------------------------------

  predicate NumberedValues(options: seq<SnapshotOption>) {
    forall i :: 0 <= i < |options| ==> options[i].value == Some(i + 1)
  }

  /** The same question to the scoring, but for a scale's values, which are now 1 to n. */
  predicate Renumbered(q: SnapshotQuestion, r: SnapshotQuestion) {
    && q.kind == r.kind && q.ref == r.ref && q.stem == r.stem && q.employerValue == r.employerValue
    && |q.options| == |r.options|
    && if IsScale(q.kind) then NumberedValues(r.options) && SameRights(q.options, r.options)
       else SameMarks(q.options, r.options)
  }

  predicate SameRights(os: seq<SnapshotOption>, ps: seq<SnapshotOption>) {
    |os| == |ps| && forall i :: 0 <= i < |os| ==> os[i].isCorrect == ps[i].isCorrect
  }

  /** The same test, with its scales numbered anew. */
  ghost predicate RenumberedTest(s: Snapshot, t: Snapshot) {
    && s.scoringMethod == t.scoringMethod && s.bands == t.bands && s.sections == t.sections
    && |s.questions| == |t.questions|
    && forall i :: 0 <= i < |s.questions| ==>
      Renumbered(s.questions[i], t.questions[i]) && s.questions[i].sectionId == t.questions[i].sectionId
  }

  /** Every scale has the values 1 to n already. */
  predicate AllNumbered(questions: seq<SnapshotQuestion>) {
    forall q <- questions :: IsScale(q.kind) ==> NumberedValues(q.options)
  }

  /** Whatever options are chosen, the two tests give the same result. */
  ghost predicate SameResults(s: Snapshot, t: Snapshot) {
    forall a: Answers, b: Answers :: SameChoices(s.questions, a, t.questions, b) ==>
      SameResult(ScoreAttempt(s, a), ScoreAttempt(t, b))
  }

  lemma NumberedAlike(s: Snapshot, t: Snapshot)
    requires RenumberedTest(s, t) && DistinctSections(s.sections) && AllNumbered(s.questions)
    ensures ScoreTwin(s, t)
  {
    forall i | 0 <= i < |s.questions| ensures ScoresSame(s.questions[i], s.sections, t.questions[i], t.sections) {
      assert s.questions[i] in s.questions && Renumbered(s.questions[i], t.questions[i]);
    }
  }

  // ----- One answer at a time ------------------------------------------------------------------

  /** Answering only this question, with its option k. */
  function Only(q: SnapshotQuestion, k: nat): Answers
    requires k < |q.options|
  {
    map[q.id := q.options[k].id]
  }

  lemma ChoiceOnly(q: SnapshotQuestion, k: nat, other: SnapshotQuestion)
    requires DistinctOptions(q.options) && k < |q.options|
    ensures ChoiceAt(q, Only(q, k)) == k
    ensures other.id != q.id ==> ChoiceAt(other, Only(q, k)) == |other.options|
  {
  }

  lemma SameOnly(s: Snapshot, t: Snapshot, i: nat, k: nat)
    requires RenumberedTest(s, t) && KeysUnique(s) && KeysUnique(t) && i < |s.questions| && k < |s.questions[i].options|
    ensures k < |t.questions[i].options|
    ensures SameChoices(s.questions, Only(s.questions[i], k), t.questions, Only(t.questions[i], k))
  {
    var q, r := s.questions[i], t.questions[i];
    assert Renumbered(q, r) && q in s.questions && r in t.questions;
    forall j | 0 <= j < |s.questions|
      ensures ChoiceAt(s.questions[j], Only(q, k)) == ChoiceAt(t.questions[j], Only(r, k))
    {
      var other, other' := s.questions[j], t.questions[j];
      assert Renumbered(other, other') && (j != i ==> other.id != q.id && other'.id != r.id);
      SameOnlyAt(q, r, k, other, other');
    }
  }

  lemma SameOnlyAt(q: SnapshotQuestion, r: SnapshotQuestion, k: nat, other: SnapshotQuestion, other': SnapshotQuestion)
    requires DistinctOptions(q.options) && DistinctOptions(r.options) && k < |q.options| == |r.options|
    requires |other.options| == |other'.options|
    requires (other == q && other' == r) || (other.id != q.id && other'.id != r.id)
    ensures ChoiceAt(other, Only(q, k)) == ChoiceAt(other', Only(r, k))
  {
    ChoiceOnly(q, k, other);
    ChoiceOnly(r, k, other');
  }

  /** A scale with the role's value among its own. */
  ghost predicate SoundScale(q: SnapshotQuestion) {
    && HasKeyValue(q) && DistinctOptions(q.options) && forall o <- q.options :: o.value.Some?
  }

  predicate HasKeyValue(q: SnapshotQuestion) {
    q.employerValue.Some? && exists o <- q.options :: o.value == q.employerValue
  }

  lemma SoundHasKey(q: SnapshotQuestion)
    requires SoundScale(q) && IsScale(q.kind)
    ensures HasKey(q, Alignment)
  {
  }

  lemma OnlyChosen(q: SnapshotQuestion, k: nat)
    requires SoundScale(q) && k < |q.options|
    ensures Compared(q, Only(q, k)) && ChosenValue(q, Only(q, k)) == q.options[k].value
  {
    ChosenById(q, Only(q, k), k);
    assert q.options[k] in q.options;
  }

  lemma NotChosen(q: SnapshotQuestion, k: nat, other: SnapshotQuestion)
    requires k < |q.options| && other.id != q.id
    ensures !Compared(other, Only(q, k)) && Earned(other, Only(q, k)) == 0.0 && !Wide(other, Only(q, k))
  {
  }

  // ----- Its flag -------------------------------------------------------------------------------

  lemma OnlyTold(s: Snapshot, i: nat, k: nat, f: AlignmentFlag)
    requires KeysUnique(s) && s.scoringMethod == Alignment && i < |s.questions| && k < |s.questions[i].options|
    requires f in ScoreAttempt(s, Only(s.questions[i], k)).flags
    ensures Tells(f, s.questions[i], Only(s.questions[i], k))
  {
    var q, a := s.questions[i], Only(s.questions[i], k);
    FlagsAreWideGaps(s, a, f);
    var r :| r in s.questions && Tells(f, r, a);
    if r.id != q.id { NotChosen(q, k, r); }
    OneOfId(s, q, r);
  }

  lemma OneOfId(s: Snapshot, q: SnapshotQuestion, r: SnapshotQuestion)
    requires KeysUnique(s) && q in s.questions && r in s.questions && q.id == r.id
    ensures q == r
  {
  }

  /** The only flag there can be is of the question answered. */
  lemma OnlyFlag(s: Snapshot, i: nat, k: nat)
    requires KeysUnique(s) && s.scoringMethod == Alignment && i < |s.questions| && SoundScale(s.questions[i])
    requires k < |s.questions[i].options|
    ensures var q := s.questions[i];
      var flags, a := ScoreAttempt(s, Only(q, k)).flags, Only(q, k);
      && (flags != [] <==> Wide(q, a))
      && (flags != [] ==> Some(flags[0].candidateValue) == q.options[k].value)
  {
    var q := s.questions[i];
    var a := Only(q, k);
    OnlyChosen(q, k);
    var flags := ScoreAttempt(s, a).flags;
    if flags != [] { OnlyTold(s, i, k, flags[0]); }
    if Wide(q, a) { WideIsFlagged(s, q, a); }
  }

  lemma WideIsFlagged(s: Snapshot, q: SnapshotQuestion, answers: Answers)
    requires s.scoringMethod == Alignment && DistinctSections(s.sections) && q in s.questions && Wide(q, answers)
    ensures ScoreAttempt(s, answers).flags != []
  {
    OneFlag(q, answers);
    var f := FlagsOf(q, answers)[0];
    FlagsAreWideGaps(s, answers, f);
    assert Tells(f, q, answers);
  }

  // ----- What it earns ----------------------------------------------------------------------------

  /** In a list of questions, only the one answered earns anything. */
  lemma {:induction false} OnlyEarns(questions: seq<SnapshotQuestion>, q: SnapshotQuestion, k: nat)
    requires k < |q.options| && SoundScale(q) && forall r <- questions :: r == q || r.id != q.id
    requires CountOf((r: SnapshotQuestion) => r == q, questions) <= 1
    ensures var n, a := CountOf((r: SnapshotQuestion) => r == q, questions), Only(q, k);
      TotalEarned(questions, a) == (if n == 1 then Earned(q, a) else 0.0) && CountCompared(questions, a) == n
  {
    if questions != [] {
      assert questions[0] in questions;
      OnlyEarns(questions[1..], q, k);
      if questions[0] == q { OnlyChosen(q, k); } else { NotChosen(q, k, questions[0]); }
    }
  }

  lemma OnlySection(g: Group, q: SnapshotQuestion, k: nat)
    requires k < |q.options| && SoundScale(q) && forall r <- g.questions :: r == q || r.id != q.id
    requires CountOf((r: SnapshotQuestion) => r == q, g.questions) <= 1
    ensures var n, a := CountOf((r: SnapshotQuestion) => r == q, g.questions), Only(q, k);
      AlignmentSection(g, a).score == if n == 1 then Earned(q, a) else 0.0
  {
    OnlyEarns(g.questions, q, k);
  }

  lemma {:induction false} OnlySections(groups: seq<Group>, q: SnapshotQuestion, k: nat, count: Group -> nat)
    requires k < |q.options| && SoundScale(q)
    requires forall g <- groups, r <- g.questions :: r == q || r.id != q.id
    requires forall g: Group :: count(g) == CountOf((r: SnapshotQuestion) => r == q, g.questions)
    requires SumNat(count, groups) <= 1
    ensures var a := Only(q, k);
      ScoreIn(AlignmentSections(groups, a)) == if SumNat(count, groups) == 1 then Earned(q, a) else 0.0
  {
    if groups != [] {
      var g := groups[0];
      assert g in groups;
      MapHead((x: Group) => AlignmentSection(x, Only(q, k)), groups);
      OnlySection(g, q, k);
      OnlySections(groups[1..], q, k, count);
    }
  }

  lemma {:induction false} OnceListed(questions: seq<SnapshotQuestion>, q: SnapshotQuestion)
    requires DistinctQuestions(questions)
    ensures CountOf((r: SnapshotQuestion) => r == q, questions) == if q in questions then 1 else 0
  {
    if questions != [] { OnceListed(questions[1..], q); }
  }

  lemma OthersDiffer(s: Snapshot, q: SnapshotQuestion)
    requires KeysUnique(s) && q in s.questions
    ensures forall g, r | g in Groups(s) && r in g.questions :: r == q || r.id != q.id
  {
    forall g, r | g in Groups(s) && r in g.questions ensures r == q || r.id != q.id { GroupMembers(s, g); }
  }

  /** With one answer, the section scores add up to what it earned. */
  lemma OnlyScores(s: Snapshot, i: nat, k: nat)
    requires KeysUnique(s) && s.scoringMethod == Alignment && i < |s.questions| && SoundScale(s.questions[i])
    requires k < |s.questions[i].options|
    ensures ScoreIn(ScoreAttempt(s, Only(s.questions[i], k)).sections)
      == Earned(s.questions[i], Only(s.questions[i], k))
  {
    var q := s.questions[i];
    var count := (g: Group) => CountOf((r: SnapshotQuestion) => r == q, g.questions);
    CountByGroup(s, (r: SnapshotQuestion) => r == q, count);
    OnceListed(s.questions, q);
    OthersDiffer(s, q);
    OnlySections(Groups(s), q, k, count);
  }

  // ----- Equal results mean equal values -------------------------------------------------------------

  /** The same result for one answer: the same distance from the role's value, as far as flags and full marks tell. */
  predicate TellsSame(v: int, w: int, role: int) {
    && (Abs(v - role) >= 2 <==> Abs(w - role) >= 2) && (Abs(v - role) >= 2 ==> v == w) && (v == role <==> w == role)
  }

  lemma WideByValue(q: SnapshotQuestion, k: nat)
    requires SoundScale(q) && k < |q.options|
    ensures Wide(q, Only(q, k)) <==> Abs(q.options[k].value.value - q.employerValue.value) >= 2
  {
    OnlyChosen(q, k);
  }

  lemma FullByValue(q: SnapshotQuestion, k: nat)
    requires SoundScale(q) && IsScale(q.kind) && k < |q.options|
    ensures Earned(q, Only(q, k)) == 1.0 <==> q.options[k].value == q.employerValue
  {
    OnlyChosen(q, k);
    SoundHasKey(q);
    EarnsAll(q, Only(q, k));
  }

  lemma OneResultTells(s: Snapshot, t: Snapshot, i: nat, k: nat)
    requires RenumberedTest(s, t) && KeysUnique(s) && KeysUnique(t) && s.scoringMethod == Alignment
    requires i < |s.questions| && IsScale(s.questions[i].kind) && SoundScale(s.questions[i])
    requires SoundScale(t.questions[i])
    requires k < |s.questions[i].options| && SameResults(s, t)
    ensures k < |t.questions[i].options|
    ensures TellsSame(s.questions[i].options[k].value.value, t.questions[i].options[k].value.value,
              s.questions[i].employerValue.value)
  {
    var q, r := s.questions[i], t.questions[i];
    assert Renumbered(q, r);
    SameOnly(s, t, i, k);
    var x, y := ScoreAttempt(s, Only(q, k)), ScoreAttempt(t, Only(r, k));
    assert SameResult(x, y);
    SumsInAlike(x.sections, y.sections);
    OnlyScores(s, i, k);
    OnlyScores(t, i, k);
    FullByValue(q, k);
    FullByValue(r, k);
    OnlyFlag(s, i, k);
    OnlyFlag(t, i, k);
    WideByValue(q, k);
    WideByValue(r, k);
    if x.flags != [] { assert SameFlag(x.flags[0], y.flags[0]); }
  }

  /** Climbing values that tell the same as 1 to n are 1 to n. */
  lemma SameAsNumbered(values: seq<int>, role: int, j: nat, k: nat)
    requires forall i, l :: 0 <= i < l < |values| ==> values[i] < values[l]
    requires forall i :: 0 <= i < |values| ==> TellsSame(values[i], i + 1, role)
    requires j < |values| && values[j] == role && k < |values|
    ensures values[k] == k + 1
  {
    assert TellsSame(values[j], j + 1, role) && TellsSame(values[k], k + 1, role);
  }

  /** The values of a scale, climbing. */
  ghost predicate ClimbingScale(q: SnapshotQuestion) {
    SoundScale(q) && forall i, j :: 0 <= i < j < |q.options| ==> q.options[i].value.value < q.options[j].value.value
  }

  lemma SameMeansNumbered(s: Snapshot, t: Snapshot, i: nat)
    requires RenumberedTest(s, t) && KeysUnique(s) && KeysUnique(t) && s.scoringMethod == Alignment
    requires i < |s.questions| && IsScale(s.questions[i].kind) && ClimbingScale(s.questions[i])
    requires SoundScale(t.questions[i])
    requires SameResults(s, t)
    ensures NumberedValues(s.questions[i].options)
  {
    var q, r := s.questions[i], t.questions[i];
    assert Renumbered(q, r);
    var values := seq(|q.options|, k requires 0 <= k < |q.options| =>
      assert q.options[k] in q.options; q.options[k].value.value);
    var role := q.employerValue.value;
    forall k | 0 <= k < |values| ensures TellsSame(values[k], k + 1, role) { OneResultTells(s, t, i, k); }
    var j :| 0 <= j < |q.options| && q.options[j].value == q.employerValue;
    forall k | 0 <= k < |q.options| ensures q.options[k].value == Some(k + 1) { SameAsNumbered(values, role, j, k); }
  }

  /** Renumbering changes no result exactly when there was nothing to renumber. */
  lemma SameResultsExactly(s: Snapshot, t: Snapshot)
    requires RenumberedTest(s, t) && KeysUnique(s) && KeysUnique(t)
    requires forall i :: 0 <= i < |s.questions| && IsScale(s.questions[i].kind) ==>
      s.scoringMethod == Alignment && ClimbingScale(s.questions[i]) && SoundScale(t.questions[i])
    ensures SameResults(s, t) <==> AllNumbered(s.questions)
  {
    if SameResults(s, t) {
      forall q | q in s.questions && IsScale(q.kind) ensures NumberedValues(q.options) {
        var i :| 0 <= i < |s.questions| && s.questions[i] == q;
        SameMeansNumbered(s, t, i);
      }
    }
    if AllNumbered(s.questions) {
      NumberedAlike(s, t);
      forall a: Answers, b: Answers | SameChoices(s.questions, a, t.questions, b)
        ensures SameResult(ScoreAttempt(s, a), ScoreAttempt(t, b))
      {
        TwinsScoreAlike(s, a, t, b);
      }
    }
  }

  // ----- A stored test ------------------------------------------------------------------------------

  /** The row is what a clean re-import stores for the question, under the same section. */
  ghost predicate Resaved(q: StoredQuestion, sections: seq<StoredSection>, row: StoredQuestion, library: Library) {
    && Rereads(ExportImport.InFile(q, sections)) && row.sectionId == q.sectionId
    && QuestionWritten(Reread(ExportImport.InFile(q, sections)), row, q.sectionId, library)
  }

  /** The columns of the row, and its options. */
  lemma ResavedAs(q: StoredQuestion, sections: seq<StoredSection>, row: StoredQuestion, library: Library,
    scoring: ScoringMethod)
    requires Kept(q, scoring) && Resaved(q, sections, row, library)
    ensures var c := ToCanonical(q, None).(media := None);
      ToCanonical(row, None).(media := None) == c.(options := ReadOptions(c))
  {
    var c := ExportImport.InFile(q, sections);
    InFileExportable(q, sections, scoring);
    RereadStays(c, scoring);
    InFileSame(q, sections, scoring);
    LoadsBack(Reread(c), row, q.sectionId, LookUp(library, Reread(c).media));
    SameReadOptions(c, ToCanonical(q, None).(media := None));
  }

  lemma SameReadOptions(c: CanonicalQuestion, d: CanonicalQuestion)
    requires c.kind == d.kind && c.options == d.options
    ensures ReadOptions(c) == ReadOptions(d)
  {
  }

  /** A scale's points are not right or wrong. */
  lemma ScaleUnmarked(q: StoredQuestion, scoring: ScoringMethod, i: nat)
    requires Kept(q, scoring) && IsScale(q.kind) && i < |q.options|
    ensures !q.options[i].isCorrect
  {
    var c := ToCanonical(q, None).(media := None);
    assert Normalize(c) == c;
    assert c.options[i] == NormalizeOptions(q.kind, c.options)[i];
  }

  lemma ResavedOption(q: StoredQuestion, row: StoredQuestion, scoring: ScoringMethod, i: nat)
    requires Kept(q, scoring) && |q.options| == |row.options| && i < |q.options|
    requires var c := ToCanonical(q, None).(media := None); Map(ExportOption, row.options) == ReadOptions(c)
    ensures row.options[i].isCorrect == q.options[i].isCorrect
    ensures row.options[i].value == if IsScale(q.kind) then Some(i + 1) else q.options[i].value
  {
    assert ExportOption(row.options[i]) == Map(ExportOption, row.options)[i];
    if IsScale(q.kind) { ScaleUnmarked(q, scoring, i); }
  }

  lemma ResavedRenumbers(q: StoredQuestion, sections: seq<StoredSection>, row: StoredQuestion, library: Library,
    scoring: ScoringMethod, shuffle: bool)
    requires Kept(q, scoring) && Resaved(q, sections, row, library)
    ensures Renumbered(FreezeQuestion(q, shuffle), FreezeQuestion(row, shuffle))
  {
    ResavedAs(q, sections, row, library, scoring);
    ResavedOptions(q, row, scoring);
  }

  lemma ResavedOptions(q: StoredQuestion, row: StoredQuestion, scoring: ScoringMethod)
    requires Kept(q, scoring)
    requires var c := ToCanonical(q, None).(media := None); Map(ExportOption, row.options) == ReadOptions(c)
    ensures |row.options| == |q.options| && SameRights(q.options, row.options)
    ensures if IsScale(q.kind) then NumberedValues(row.options) else SameMarks(q.options, row.options)
  {
    assert |Map(ExportOption, row.options)| == |q.options|;
    forall i | 0 <= i < |q.options|
      ensures row.options[i].isCorrect == q.options[i].isCorrect
      ensures row.options[i].value == if IsScale(q.kind) then Some(i + 1) else q.options[i].value
    {
      ResavedOption(q, row, scoring, i);
    }
  }

  lemma KeptClimbs(q: StoredQuestion, scoring: ScoringMethod, shuffle: bool)
    requires Kept(q, scoring) && IsScale(q.kind) && DistinctOptions(q.options)
    ensures scoring == Alignment && ClimbingScale(FreezeQuestion(q, shuffle))
  {
    var c := ToCanonical(q, None).(media := None);
    ProblemFree(c, scoring);
    ExportedClimbs(q.options, c.employerValue);
  }

  lemma ExportedClimbs(options: seq<SnapshotOption>, role: Option<int>)
    requires Climbing(Map(ExportOption, options)) && HasValue(Map(ExportOption, options), role)
    ensures (forall o <- options :: o.value.Some?) && exists o <- options :: o.value == role
    ensures forall i, j :: 0 <= i < j < |options| ==> options[i].value.value < options[j].value.value
  {
    var c := Map(ExportOption, options);
    forall i | 0 <= i < |options| ensures options[i].value.Some? { assert c[i] in c; }
    forall i, j | 0 <= i < j < |options| ensures options[i].value.value < options[j].value.value {
      assert c[i].value.value < c[j].value.value;
    }
    var i :| 0 <= i < |c| && c[i].value == role;
    assert options[i] in options;
  }

  lemma NumberedSound(r: SnapshotQuestion)
    requires NumberedValues(r.options) && DistinctOptions(r.options)
    requires r.employerValue.Some? && 1 <= r.employerValue.value <= |r.options|
    ensures SoundScale(r)
  {
    assert r.options[r.employerValue.value - 1] in r.options;
  }

  lemma RowResaved(fold: SectionKeys.Fold, sections: seq<StoredSection>, library: Library, q: StoredQuestion,
    row: StoredQuestion)
    requires SectionsApart(sections) && InSections(q.sectionId, sections) && Rereads(ExportImport.InFile(q, sections))
    requires q.sectionId.Some? ==> FoundAgain(fold, sections, q.sectionId.value)
    requires Authoring.SavedUnder(fold, sections, [], library)(Reread(ExportImport.InFile(q, sections)), row)
    ensures Resaved(q, sections, row, library)
  {
    FiledAgain(fold, sections, q);
  }

  /** The import that saves a clean report, each section found by its name, resaves every question. */
  lemma SavedResaves(fold: SectionKeys.Fold, questions: seq<StoredQuestion>, sections: seq<StoredSection>,
    scoring: ScoringMethod, after: seq<StoredSection>, library: Library, stored: map<Id, StoredQuestion>, ids: seq<Id>)
    requires Restorable(questions, sections, scoring) && questions != []
    requires forall q <- questions :: q.sectionId.Some? ==> FoundAgain(fold, sections, q.sectionId.value)
    requires var report := ReimportReport(fold, questions, sections, scoring);
      && report.errors == []
      && Authoring.SavedAll(fold, sections, after, report.newSections, library, stored, ids, report.rows)
    ensures after == sections && |ids| == |questions|
    ensures forall k :: 0 <= k < |questions| ==>
      ids[k] in stored && Resaved(questions[k], sections, stored[ids[k]], library)
  {
    CleanReimport(fold, questions, sections, scoring);
    var rows := RereadRows(questions, sections);
    assert after[..|sections|] == after && after[|sections|..] == [];
    forall k | 0 <= k < |questions|
      ensures ids[k] in stored && Resaved(questions[k], sections, stored[ids[k]], library)
    {
      assert questions[k] in questions && AllInFile(questions, sections)[k] in AllInFile(questions, sections);
      assert Authoring.SavedUnder(fold, sections, [], library)(rows[k].question, stored[ids[k]]);
      RowResaved(fold, sections, library, questions[k], stored[ids[k]]);
    }
  }

  /** The test after the import: the same settings, bands and sections, and each question as it was read back. */
  ghost predicate Reimported(t: Test, u: Test, library: Library) {
    && u.settings == t.settings && u.bands == t.bands && u.sections == t.sections && |u.questions| == |t.questions|
    && forall k :: 0 <= k < |t.questions| ==> Resaved(t.questions[k], t.sections, u.questions[k], library)
  }

  lemma QuestionRenumbered(t: Test, u: Test, library: Library, k: nat)
    requires AllKept(t) && Reimported(t, u, library) && k < |t.questions|
    requires DistinctOptions(t.questions[k].options) && DistinctOptions(u.questions[k].options)
    ensures var q, r := BuildSnapshot(t).questions[k], BuildSnapshot(u).questions[k];
      && Renumbered(q, r) && q.sectionId == r.sectionId
      && (IsScale(q.kind) ==> t.settings.scoringMethod == Alignment && ClimbingScale(q) && SoundScale(r))
  {
    var q, row, scoring, shuffle := t.questions[k], u.questions[k], t.settings.scoringMethod, t.settings.shuffleOptions;
    assert q in t.questions && Resaved(q, t.sections, row, library);
    ResavedRenumbers(q, t.sections, row, library, scoring, shuffle);
    if IsScale(q.kind) {
      KeptClimbs(q, scoring, shuffle);
      InFileSame(q, t.sections, scoring);
      NumberedSound(FreezeQuestion(row, shuffle));
    }
  }

  /**
   * A clean re-import keeps every result, whatever options are chosen, if and
   * only if every scale of the test has the values 1 to n.
   */
  lemma ReimportKeepsResults(t: Test, u: Test, library: Library)
    requires AllKept(t) && Reimported(t, u, library) && KeysUnique(BuildSnapshot(t)) && KeysUnique(BuildSnapshot(u))
    ensures SameResults(BuildSnapshot(t), BuildSnapshot(u))
      <==> forall q <- t.questions :: IsScale(q.kind) ==> NumberedValues(q.options)
  {
    var s, v := BuildSnapshot(t), BuildSnapshot(u);
    forall k | 0 <= k < |s.questions|
      ensures Renumbered(s.questions[k], v.questions[k]) && s.questions[k].sectionId == v.questions[k].sectionId
      ensures IsScale(s.questions[k].kind) ==>
        s.scoringMethod == Alignment && ClimbingScale(s.questions[k]) && SoundScale(v.questions[k])
    {
      assert s.questions[k] in s.questions && v.questions[k] in v.questions;
      QuestionRenumbered(t, u, library, k);
    }
    SameResultsExactly(s, v);
    FrozenNumbered(t);
  }

  lemma FrozenNumbered(t: Test)
    ensures AllNumbered(BuildSnapshot(t).questions)
      <==> forall q <- t.questions :: IsScale(q.kind) ==> NumberedValues(q.options)
  {
    var s := BuildSnapshot(t);
    forall k | 0 <= k < |t.questions|
      ensures s.questions[k].kind == t.questions[k].kind && s.questions[k].options == t.questions[k].options
      ensures s.questions[k] in s.questions && t.questions[k] in t.questions
    {
    }
  }

  /**
   * Points 2, 3 and 4 with the middle one for the role: read back without a word as 1, 2 and
   * 3 with the last one for it.
   */
  lemma RoleMoves()
    ensures var q := Scale(None, ["", "", ""], [2, 3, 4], 3);
      var c := ExportImport.InFile(q, []);
      && Kept(q, Alignment) && Rereads(c) && q.options[1].value == q.employerValue
      && Reread(c).employerValue == Some(3) == Reread(c).options[2].value
  {
    var q := Scale(None, ["", "", ""], [2, 3, 4], 3);
    assert [2, 3, 4][1] == 3;
    ScaleKept(None, ["", "", ""], [2, 3, 4], 3);
    InFileSame(q, [], Alignment);
  }
}
