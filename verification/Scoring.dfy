/**
 * Scoring an attempt from its snapshot: one point per right answer, or the
 * mean alignment with the role profile, section by section.
 */
module Scoring {
  import opened Basics
  import opened Questions
  import opened Snapshots
  import opened Bands

  /** Question id to chosen option id. */
  type Answers = map<Id, Id>

  datatype SectionScore = SectionScore(
    sectionId: Option<Id>,
    name: string,
    score: real,
    weight: Option<real>,
    correct: Option<nat>,
    answered: nat,
    total: nat
  )

  datatype AlignmentFlag = AlignmentFlag(
    questionId: Id,
    ref: Option<string>,
    stem: string,
    employerValue: int,
    candidateValue: int,
    gap: int,
    candidateWantsMore: bool
  )

  datatype ScoreResult = ScoreResult(
    score: real,
    bandName: Option<string>,
    correctCount: Option<nat>,
    answeredCount: nat,
    questionCount: nat,
    sections: seq<SectionScore>,
    flags: seq<AlignmentFlag>
  )

  datatype Group = Group(sectionId: Option<Id>, name: string, weight: Option<real>, questions: seq<SnapshotQuestion>)

  const UNSECTIONED_NAME := "Other questions"

  // ----- Groups ---------------------------------------------------------------------

  function AllGroups(s: Snapshot): seq<Group> {
    Map((sec: SnapshotSection) =>
        Group(Some(sec.id), sec.name, sec.weight, Block(s.questions, s.sections, Some(sec.id))), s.sections)
    + [Group(None, UNSECTIONED_NAME, None, Block(s.questions, s.sections, None))]
  }

  predicate HasQuestions(g: Group) { g.questions != [] }

  /** Questions by section, in section order, then any without one. Empty groups are left out. */
  function Groups(s: Snapshot): (r: seq<Group>)
    ensures forall g <- r :: HasQuestions(g)
  {
    Filter(HasQuestions, AllGroups(s))
  }

  method MakeGroups(s: Snapshot) returns (groups: seq<Group>)
    ensures groups == Groups(s)
  {
    var blocks, unsectioned := GroupQuestions(s.questions, s.sections);
    var all := seq(|s.sections|, i requires 0 <= i < |s.sections| && s.sections[i].id in blocks =>
      Group(Some(s.sections[i].id), s.sections[i].name, s.sections[i].weight, blocks[s.sections[i].id]))
      + [Group(None, UNSECTIONED_NAME, None, unsectioned)];
    assert all == AllGroups(s);
    groups := Filter(HasQuestions, all);
  }

  // ----- One question ------------------------------------------------------------------

  /** The option the answers choose for a question, if it is one of the question's. */
  function Chosen(q: SnapshotQuestion, answers: Answers): Option<SnapshotOption> {
    if q.id !in answers then None
    else
      var i := Find((o: SnapshotOption) => o.id == answers[q.id], q.options);
      if i < |q.options| then Some(q.options[i]) else None
  }

  predicate Answered(q: SnapshotQuestion, answers: Answers) { Chosen(q, answers).Some? }

  predicate Right(q: SnapshotQuestion, answers: Answers) {
    Chosen(q, answers).Some? && Chosen(q, answers).value.isCorrect
  }

  function Values(options: seq<SnapshotOption>): seq<int> {
    if options == [] then []
    else (if options[0].value.Some? then [options[0].value.value] else []) + Values(options[1..])
  }

  function MaxOf(values: seq<int>): (m: int)
    requires values != []
    ensures m in values && forall v <- values :: v <= m
  {
    if |values| == 1 then values[0]
    else
      var rest := MaxOf(values[1..]);
      assert forall v <- values :: v == values[0] || v in values[1..];
      if values[0] >= rest then values[0] else rest
  }

  function MinOf(values: seq<int>): (m: int)
    requires values != []
    ensures m in values && forall v <- values :: m <= v
  {
    if |values| == 1 then values[0]
    else
      var rest := MinOf(values[1..]);
      assert forall v <- values :: v == values[0] || v in values[1..];
      if values[0] <= rest then values[0] else rest
  }

  /** The largest value minus the smallest; without values it is not positive. */
  function Span(options: seq<SnapshotOption>): int {
    var values := Values(options);
    if values == [] then 0 else MaxOf(values) - MinOf(values)
  }

  function Abs(n: int): nat { if n < 0 then -n else n }

  /** How near a value is to the role's, from 0 to 1. */
  function Nearness(q: SnapshotQuestion, gap: nat): real {
    if q.kind == ChoiceScale then
      (if gap == 0 then 1.0 else if gap == 1 then 0.5 else 0.0)
    else
      var span := Span(q.options);
      if span > 0 then
        (var left := 1.0 - gap as real / span as real; if left > 0.0 then left else 0.0)
      else 1.0
  }

  function ItemAlignment(q: SnapshotQuestion, candidateValue: int): Option<real> {
    if q.employerValue.None? then None
    else Some(Nearness(q, Abs(candidateValue - q.employerValue.value)))
  }

  /** The value a candidate chose, where it can be compared with the role's. */
  function ChosenValue(q: SnapshotQuestion, answers: Answers): Option<int> {
    var option := Chosen(q, answers);
    if option.None? || q.employerValue.None? then None else option.value.value
  }

  predicate Compared(q: SnapshotQuestion, answers: Answers) { ChosenValue(q, answers).Some? }

  function Earned(q: SnapshotQuestion, answers: Answers): real {
    var value := ChosenValue(q, answers);
    if value.None? then 0.0 else ItemAlignment(q, value.value).GetOr(0.0)
  }

  function FlagsOf(q: SnapshotQuestion, answers: Answers): seq<AlignmentFlag> {
    var value := ChosenValue(q, answers);
    if value.None? || q.employerValue.None? then []
    else
      var gap := value.value - q.employerValue.value;
      if Abs(gap) >= ALIGNMENT_FLAG_GAP then
        [AlignmentFlag(q.id, q.ref, q.stem, q.employerValue.value, value.value, gap, gap > 0)]
      else []
  }

  // ----- A whole attempt ------------------------------------------------------------------

  function Ratio(part: nat, whole: nat): real {
    if whole > 0 then part as real / whole as real else 0.0
  }

  function CountAnswered(questions: seq<SnapshotQuestion>, answers: Answers): nat {
    CountOf((q: SnapshotQuestion) => Answered(q, answers), questions)
  }

  function CountRight(questions: seq<SnapshotQuestion>, answers: Answers): nat {
    CountOf((q: SnapshotQuestion) => Right(q, answers), questions)
  }

  function CountCompared(questions: seq<SnapshotQuestion>, answers: Answers): nat {
    CountOf((q: SnapshotQuestion) => Compared(q, answers), questions)
  }

  function TotalEarned(questions: seq<SnapshotQuestion>, answers: Answers): real {
    Sum((q: SnapshotQuestion) => Earned(q, answers), questions)
  }

  function AllFlags(questions: seq<SnapshotQuestion>, answers: Answers): seq<AlignmentFlag> {
    Flatten(Map((q: SnapshotQuestion) => FlagsOf(q, answers), questions))
  }

  function Mean(total: real, count: nat): real {
    if count > 0 then total / count as real else 0.0
  }

  function CorrectSection(g: Group, answers: Answers): SectionScore {
    var correct := CountRight(g.questions, answers);
    SectionScore(g.sectionId, g.name, Ratio(correct, |g.questions|), g.weight, Some(correct),
      CountAnswered(g.questions, answers), |g.questions|)
  }

  function AlignmentSection(g: Group, answers: Answers): SectionScore {
    var answered := CountCompared(g.questions, answers);
    SectionScore(g.sectionId, g.name, Mean(TotalEarned(g.questions, answers), answered), g.weight, None,
      answered, |g.questions|)
  }

  function CorrectSections(groups: seq<Group>, answers: Answers): seq<SectionScore> {
    Map((g: Group) => CorrectSection(g, answers), groups)
  }

  function AlignmentSections(groups: seq<Group>, answers: Answers): seq<SectionScore> {
    Map((g: Group) => AlignmentSection(g, answers), groups)
  }

  function AnsweredIn(sections: seq<SectionScore>): nat {
    SumNat((s: SectionScore) => s.answered, sections)
  }

  function CorrectIn(sections: seq<SectionScore>): nat {
    SumNat((s: SectionScore) => s.correct.GetOr(0), sections)
  }

  predicate Weighted(s: SectionScore) { s.weight.GetOr(0.0) > 0.0 }

  function Share(s: SectionScore): real { s.weight.GetOr(0.0) * s.score }

  function WeightedScore(sections: seq<SectionScore>): real {
    Sum(Share, sections)
  }

  function WeightIn(sections: seq<SectionScore>): real {
    Sum((s: SectionScore) => s.weight.GetOr(0.0), sections)
  }

  function ScoreIn(sections: seq<SectionScore>): real {
    Sum((s: SectionScore) => s.score, sections)
  }

  lemma {:induction false} WeightPositive(sections: seq<SectionScore>)
    requires forall s <- sections :: Weighted(s)
    ensures WeightIn(sections) >= 0.0 && (sections != [] ==> WeightIn(sections) > 0.0)
  {
    if sections != [] {
      assert sections[0] in sections;
      WeightPositive(sections[1..]);
    }
  }

  /** The weighted mean of the sections with a weight; without weights, the plain mean. */
  function AlignmentScore(sections: seq<SectionScore>): real {
    var weighted := Filter(Weighted, sections);
    WeightPositive(weighted);
    if weighted != [] then WeightedScore(weighted) / WeightIn(weighted)
    else Mean(ScoreIn(sections), |sections|)
  }

  function ScoreCorrectAnswers(s: Snapshot, answers: Answers): ScoreResult {
    var sections := CorrectSections(Groups(s), answers);
    var score := Ratio(CorrectIn(sections), |s.questions|);
    ScoreResult(score, BandName(s.bands, score), Some(CorrectIn(sections)), AnsweredIn(sections),
      |s.questions|, sections, [])
  }

  function GroupFlags(groups: seq<Group>, answers: Answers): seq<AlignmentFlag> {
    Flatten(Map((g: Group) => AllFlags(g.questions, answers), groups))
  }

  function ScoreAlignment(s: Snapshot, answers: Answers): ScoreResult {
    var sections := AlignmentSections(Groups(s), answers);
    var score := AlignmentScore(sections);
    ScoreResult(score, BandName(s.bands, score), None, AnsweredIn(sections),
      |s.questions|, sections, GroupFlags(Groups(s), answers))
  }

  function ScoreAttempt(s: Snapshot, answers: Answers): ScoreResult {
    if s.scoringMethod == Alignment then ScoreAlignment(s, answers) else ScoreCorrectAnswers(s, answers)
  }

  // ----- The loops that compute it ---------------------------------------------------------

  method RunCorrectAnswers(s: Snapshot, answers: Answers) returns (result: ScoreResult)
    ensures result == ScoreCorrectAnswers(s, answers)
  {
    var correctCount, answeredCount := 0, 0;
    var sections := [];
    var groups := MakeGroups(s);
    for k := 0 to |groups|
      invariant sections == CorrectSections(groups[..k], answers)
      invariant correctCount == CorrectIn(sections) && answeredCount == AnsweredIn(sections)
    {
      var group := groups[k];
      var correct, answered := 0, 0;
      for i := 0 to |group.questions|
        invariant correct == CountRight(group.questions[..i], answers)
        invariant answered == CountAnswered(group.questions[..i], answers)
      {
        var question := group.questions[i];
        CountUpTo((q: SnapshotQuestion) => Right(q, answers), group.questions, i);
        CountUpTo((q: SnapshotQuestion) => Answered(q, answers), group.questions, i);
        var option := Chosen(question, answers);
        if option.Some? {
          answered := answered + 1;
          if option.value.isCorrect { correct := correct + 1; }
        }
      }
      assert group.questions[..|group.questions|] == group.questions;
      var section := SectionScore(group.sectionId, group.name, Ratio(correct, |group.questions|), group.weight,
        Some(correct), answered, |group.questions|);
      SectionsGrow(sections, section);
      MapUpTo((g: Group) => CorrectSection(g, answers), groups, k);
      correctCount := correctCount + correct;
      answeredCount := answeredCount + answered;
      sections := sections + [section];
    }
    assert groups[..|groups|] == groups;
    var score := Ratio(correctCount, |s.questions|);
    result := ScoreResult(score, BandName(s.bands, score), Some(correctCount), answeredCount,
      |s.questions|, sections, []);
  }

  lemma CountUpTo<A>(p: A -> bool, s: seq<A>, i: nat)
    requires i < |s|
    ensures CountOf(p, s[..i + 1]) == CountOf(p, s[..i]) + (if p(s[i]) then 1 else 0)
  {
    assert s[..i + 1] == s[..i] + [s[i]];
    CountConcat(p, s[..i], [s[i]]);
  }

  lemma MapUpTo<A, B>(f: A -> B, s: seq<A>, i: nat)
    requires i < |s|
    ensures Map(f, s[..i + 1]) == Map(f, s[..i]) + [f(s[i])]
  {
  }

  lemma SectionsGrow(sections: seq<SectionScore>, section: SectionScore)
    ensures CorrectIn(sections + [section]) == CorrectIn(sections) + section.correct.GetOr(0)
    ensures AnsweredIn(sections + [section]) == AnsweredIn(sections) + section.answered
  {
    SumNatConcat((s: SectionScore) => s.correct.GetOr(0), sections, [section]);
    SumNatConcat((s: SectionScore) => s.answered, sections, [section]);
  }

  method RunAlignment(s: Snapshot, answers: Answers) returns (result: ScoreResult)
    ensures result == ScoreAlignment(s, answers)
  {
    var flags := [];
    var answeredCount := 0;
    var sections := [];
    var groups := MakeGroups(s);
    for k := 0 to |groups|
      invariant sections == AlignmentSections(groups[..k], answers)
      invariant answeredCount == AnsweredIn(sections)
      invariant flags == GroupFlags(groups[..k], answers)
    {
      var group := groups[k];
      var section, raised := RunAlignmentGroup(group, answers);
      SectionsGrow(sections, section);
      MapUpTo((g: Group) => AlignmentSection(g, answers), groups, k);
      FlattenUpTo((g: Group) => AllFlags(g.questions, answers), groups, k);
      flags := flags + raised;
      answeredCount := answeredCount + section.answered;
      sections := sections + [section];
    }
    assert groups[..|groups|] == groups;
    var score := AlignmentScore(sections);
    result := ScoreResult(score, BandName(s.bands, score), None, answeredCount, |s.questions|, sections, flags);
  }

  method RunAlignmentGroup(group: Group, answers: Answers) returns (section: SectionScore, raised: seq<AlignmentFlag>)
    ensures section == AlignmentSection(group, answers)
    ensures raised == AllFlags(group.questions, answers)
  {
    var total, answered := 0.0, 0;
    raised := [];
    for i := 0 to |group.questions|
      invariant total == TotalEarned(group.questions[..i], answers)
      invariant answered == CountCompared(group.questions[..i], answers)
      invariant raised == AllFlags(group.questions[..i], answers)
    {
      var question := group.questions[i];
      SumUpTo((q: SnapshotQuestion) => Earned(q, answers), group.questions, i);
      CountUpTo((q: SnapshotQuestion) => Compared(q, answers), group.questions, i);
      FlattenUpTo((q: SnapshotQuestion) => FlagsOf(q, answers), group.questions, i);
      var value := ChosenValue(question, answers);
      if value.Some? {
        var alignment := ItemAlignment(question, value.value);
        if alignment.Some? {
          total := total + alignment.value;
          answered := answered + 1;
          raised := raised + FlagsOf(question, answers);
        }
      }
    }
    assert group.questions[..|group.questions|] == group.questions;
    section := SectionScore(group.sectionId, group.name, Mean(total, answered), group.weight, None,
      answered, |group.questions|);
  }

  lemma SumUpTo<A>(f: A -> real, s: seq<A>, i: nat)
    requires i < |s|
    ensures Sum(f, s[..i + 1]) == Sum(f, s[..i]) + f(s[i])
  {
    assert s[..i + 1] == s[..i] + [s[i]];
    SumConcat(f, s[..i], [s[i]]);
  }

  lemma FlattenUpTo<A, B>(f: A -> seq<B>, s: seq<A>, i: nat)
    requires i < |s|
    ensures Flatten(Map(f, s[..i + 1])) == Flatten(Map(f, s[..i])) + f(s[i])
  {
    MapUpTo(f, s, i);
    FlattenConcat(Map(f, s[..i]), [f(s[i])]);
    assert Flatten([f(s[i])]) == f(s[i]);
  }
}
