/** What every score keeps: totals add up, scores are fractions, better answers never score less. */
module ScoringLaws {
  import opened Basics
  import opened Questions
  import opened Snapshots
  import opened Bands
  import opened Scoring
  import TakeView

  // ----- Conservation --------------------------------------------------------------------

  lemma GroupLists(s: Snapshot)
    ensures Map((g: Group) => g.questions, AllGroups(s)) == Blocks(s.questions, s.sections)
  {
  }

  lemma CountByAllGroups(s: Snapshot, p: SnapshotQuestion -> bool, f: Group -> nat)
    requires forall g <- AllGroups(s) :: f(g) == CountOf(p, g.questions)
    ensures SumNat(f, AllGroups(s)) == CountOf(p, Flatten(Blocks(s.questions, s.sections)))
  {
    var count := (l: seq<SnapshotQuestion>) => CountOf(p, l);
    SumNatMap(count, (g: Group) => g.questions, f, AllGroups(s));
    GroupLists(s);
    CountFlatten(p, Blocks(s.questions, s.sections), count);
  }

  /** Counting group by group counts every question once. */
  lemma CountByGroup(s: Snapshot, p: SnapshotQuestion -> bool, f: Group -> nat)
    requires DistinctSections(s.sections) && forall g: Group :: f(g) == CountOf(p, g.questions)
    ensures SumNat(f, Groups(s)) == CountOf(p, s.questions)
  {
    SumNatFilter(f, HasQuestions, AllGroups(s));
    CountByAllGroups(s, p, f);
    BlocksPartition(s.questions, s.sections);
    CountItems(p, Flatten(Blocks(s.questions, s.sections)), s.questions);
  }

  /** A sum over the sections' scores is a count over all the questions. */
  lemma SectionsCount(s: Snapshot, make: Group -> SectionScore, f: SectionScore -> nat, p: SnapshotQuestion -> bool)
    requires DistinctSections(s.sections)
    requires forall g: Group :: f(make(g)) == CountOf(p, g.questions)
    ensures SumNat(f, Map(make, Groups(s))) == CountOf(p, s.questions)
  {
    var count := (g: Group) => CountOf(p, g.questions);
    SumNatMap(f, make, count, Groups(s));
    CountByGroup(s, p, count);
  }

  function TotalIn(sections: seq<SectionScore>): nat {
    SumNat((x: SectionScore) => x.total, sections)
  }

  /** The sections' totals, answered and correct counts sum to the test's own. */
  lemma CountsAddUp(s: Snapshot, answers: Answers)
    requires DistinctSections(s.sections)
    ensures var r := ScoreAttempt(s, answers);
      && r.questionCount == TotalIn(r.sections) == |s.questions|
      && r.answeredCount == AnsweredIn(r.sections)
      && (s.scoringMethod == CorrectAnswer ==>
            && r.answeredCount == CountAnswered(s.questions, answers)
            && r.correctCount == Some(CountRight(s.questions, answers))
            && CorrectIn(r.sections) == CountRight(s.questions, answers))
      && (s.scoringMethod == Alignment ==> r.answeredCount == CountCompared(s.questions, answers))
  {
    var every := (q: SnapshotQuestion) => true;
    CountAll(every, s.questions);
    forall g: Group ensures CountOf(every, g.questions) == |g.questions| { CountAll(every, g.questions); }
    if s.scoringMethod == Alignment {
      var make := (g: Group) => AlignmentSection(g, answers);
      SectionsCount(s, make, (x: SectionScore) => x.total, every);
      SectionsCount(s, make, (x: SectionScore) => x.answered, (q: SnapshotQuestion) => Compared(q, answers));
    } else {
      var make := (g: Group) => CorrectSection(g, answers);
      SectionsCount(s, make, (x: SectionScore) => x.total, every);
      SectionsCount(s, make, (x: SectionScore) => x.answered, (q: SnapshotQuestion) => Answered(q, answers));
      SectionsCount(s, make, (x: SectionScore) => x.correct.GetOr(0), (q: SnapshotQuestion) => Right(q, answers));
    }
  }

  // ----- Fractions ---------------------------------------------------------------------------

  predicate Fraction(x: real) { 0.0 <= x <= 1.0 }

  lemma RatioFraction(part: nat, whole: nat)
    requires part <= whole
    ensures Fraction(Ratio(part, whole))
    ensures whole > 0 ==> Ratio(part, whole) * whole as real == part as real
  {
  }

  lemma {:induction false} EarnedAtMost(questions: seq<SnapshotQuestion>, answers: Answers)
    ensures 0.0 <= TotalEarned(questions, answers) <= CountCompared(questions, answers) as real
  {
    if questions != [] {
      EarnedAtMost(questions[1..], answers);
      var q := questions[0];
      if Compared(q, answers) {
      }
    }
  }

  lemma MeanFraction(total: real, count: nat)
    requires 0.0 <= total <= count as real
    ensures Fraction(Mean(total, count))
  {
  }

  lemma {:induction false} WeightedAtMost(sections: seq<SectionScore>)
    requires forall x <- sections :: Weighted(x) && Fraction(x.score)
    ensures 0.0 <= WeightedScore(sections) <= WeightIn(sections)
  {
    if sections != [] {
      var x := sections[0];
      assert x in sections;
      WeightedAtMost(sections[1..]);
    }
  }

  lemma {:induction false} ScoresAtMost(sections: seq<SectionScore>)
    requires forall x <- sections :: Fraction(x.score)
    ensures 0.0 <= ScoreIn(sections) <= |sections| as real
  {
    if sections != [] {
      assert sections[0] in sections;
      ScoresAtMost(sections[1..]);
    }
  }

  lemma AlignmentScoreFraction(sections: seq<SectionScore>)
    requires forall x <- sections :: Fraction(x.score)
    ensures Fraction(AlignmentScore(sections))
  {
    var weighted := Filter(Weighted, sections);
    WeightPositive(weighted);
    if weighted != [] {
      WeightedAtMost(weighted);
    } else {
      ScoresAtMost(sections);
      MeanFraction(ScoreIn(sections), |sections|);
    }
  }

  lemma SectionFraction(g: Group, answers: Answers)
    ensures Fraction(CorrectSection(g, answers).score) && Fraction(AlignmentSection(g, answers).score)
  {
    RatioFraction(CountRight(g.questions, answers), |g.questions|);
    EarnedAtMost(g.questions, answers);
    MeanFraction(TotalEarned(g.questions, answers), CountCompared(g.questions, answers));
  }

  /** Whatever the answers and the weights, every score is between 0 and 1. */
  lemma ScoresAreFractions(s: Snapshot, answers: Answers)
    requires DistinctSections(s.sections)
    ensures var r := ScoreAttempt(s, answers);
      Fraction(r.score) && forall x <- r.sections :: Fraction(x.score)
  {
    var groups, r := Groups(s), ScoreAttempt(s, answers);
    forall i | 0 <= i < |groups| ensures Fraction(r.sections[i].score) { SectionFraction(groups[i], answers); }
    if s.scoringMethod == Alignment {
      AlignmentScoreFraction(r.sections);
    } else {
      CountsAddUp(s, answers);
      RatioFraction(CountRight(s.questions, answers), |s.questions|);
    }
  }

  // ----- A right-answer score is the mean of its sections, weighted by size ---------------------

  function SizedScore(sections: seq<SectionScore>): real {
    Sum((x: SectionScore) => x.score * x.total as real, sections)
  }

  lemma {:induction false} SizedScoreIsCorrect(groups: seq<Group>, answers: Answers)
    requires forall g <- groups :: HasQuestions(g)
    ensures SizedScore(CorrectSections(groups, answers)) == CorrectIn(CorrectSections(groups, answers)) as real
  {
    if groups != [] {
      var g := groups[0];
      assert g in groups;
      MapHead((g: Group) => CorrectSection(g, answers), groups);
      SizedScoreIsCorrect(groups[1..], answers);
      RatioFraction(CountRight(g.questions, answers), |g.questions|);
    }
  }

  /** A score is the mean of the sections' scores, each counting for its questions. */
  ghost predicate IsSizedMean(score: real, sections: seq<SectionScore>) {
    score * TotalIn(sections) as real == SizedScore(sections)
  }

  lemma RatioIsSizedMean(part: nat, whole: nat, sections: seq<SectionScore>)
    requires part <= whole == TotalIn(sections) && whole > 0 && SizedScore(sections) == part as real
    ensures IsSizedMean(Ratio(part, whole), sections)
  {
  }

  lemma CorrectShape(s: Snapshot, answers: Answers) returns (correct: nat)
    requires DistinctSections(s.sections) && s.scoringMethod == CorrectAnswer
    ensures var r := ScoreAttempt(s, answers);
      && correct <= |s.questions| == TotalIn(r.sections)
      && r.score == Ratio(correct, |s.questions|) && SizedScore(r.sections) == correct as real
  {
    CountsAddUp(s, answers);
    SizedScoreIsCorrect(Groups(s), answers);
    correct := CountRight(s.questions, answers);
  }

  lemma CorrectScoreIsWeightedMean(s: Snapshot, answers: Answers)
    requires DistinctSections(s.sections) && s.scoringMethod == CorrectAnswer && s.questions != []
    ensures var r := ScoreAttempt(s, answers); IsSizedMean(r.score, r.sections)
  {
    var correct := CorrectShape(s, answers);
    RatioIsSizedMean(correct, |s.questions|, ScoreAttempt(s, answers).sections);
  }

  // ----- The answer key ------------------------------------------------------------------------

  /** A snapshot's question as the rules read it. */
  function AsCanonical(q: SnapshotQuestion): CanonicalQuestion {
    CanonicalQuestion(q.ref, None, q.kind, q.difficulty, q.instruction, q.context, q.stem, None,
      Map((o: SnapshotOption) => CanonicalOption(Some(o.caption), o.text, o.employerText, o.value, o.isCorrect),
        q.options),
      q.rationale, q.transcript, None, q.keepLastOptionFixed, q.employerPrompt, q.employerValue)
  }

  /** A test with questions, each ready to send. */
  ghost predicate Sendable(s: Snapshot) {
    && KeysUnique(s) && s.questions != []
    && forall q <- s.questions :: QuestionProblems(AsCanonical(q), s.scoringMethod) == []
  }

  /** The answers of an answer key: `new Map(key.map((k) => [k.questionId, k.optionId]))`. */
  function KeyAnswers(entries: seq<TakeView.KeyEntry>): Answers {
    if entries == [] then map[]
    else
      var n := |entries| - 1;
      KeyAnswers(entries[..n])[entries[n].questionId := entries[n].optionId]
  }

  /** The answers choose the key option of a question. */
  predicate ChoosesKey(q: SnapshotQuestion, answers: Answers) {
    var i := TakeView.KeyIndex(q);
    i < |q.options| && q.id in answers && answers[q.id] == q.options[i].id
  }

  lemma CanonicalCorrect(q: SnapshotQuestion)
    requires CorrectCount(AsCanonical(q).options) == 1
    ensures var at := Find((o: SnapshotOption) => o.isCorrect, q.options);
      at < |q.options| && forall i :: 0 <= i < |q.options| ==> q.options[i].isCorrect == (i == at)
  {
    var options := AsCanonical(q).options;
    OneCorrect(options);
    var at := Find((o: CanonicalOption) => o.correct, options);
    assert forall i :: 0 <= i < |options| ==> options[i].correct == q.options[i].isCorrect;
  }

  /** A question has a key option: the one right answer, or the role's own value. */
  ghost predicate HasKey(q: SnapshotQuestion, scoring: ScoringMethod) {
    var i := TakeView.KeyIndex(q);
    && DistinctOptions(q.options) && i < |q.options|
    && (scoring == CorrectAnswer ==> forall k :: 0 <= k < |q.options| ==> q.options[k].isCorrect == (k == i))
    && (scoring == Alignment ==> q.employerValue.Some? && q.options[i].value == q.employerValue)
  }

  lemma KeyExists(q: SnapshotQuestion, scoring: ScoringMethod)
    requires QuestionProblems(AsCanonical(q), scoring) == [] && DistinctOptions(q.options)
    ensures HasKey(q, scoring)
  {
    var c := AsCanonical(q);
    ProblemFree(c, scoring);
    if scoring == CorrectAnswer {
      if q.kind == TrueFalse { CorrectOfTwo(c.options); }
      CanonicalCorrect(q);
    } else {
      var o :| o in c.options && o.value == q.employerValue;
      var i :| 0 <= i < |c.options| && c.options[i] == o;
      assert q.options[i].value == q.employerValue;
    }
  }

  ghost predicate AllHaveKeys(s: Snapshot) {
    forall q <- s.questions :: HasKey(q, s.scoringMethod)
  }

  lemma SendableHasKeys(s: Snapshot)
    requires Sendable(s)
    ensures AllHaveKeys(s)
  {
    forall q | q in s.questions ensures HasKey(q, s.scoringMethod) { KeyExists(q, s.scoringMethod); }
  }

  lemma {:induction false} KeyIsChosen(questions: seq<SnapshotQuestion>, i: nat)
    requires i < |questions| && DistinctQuestions(questions)
    requires forall q <- questions :: TakeView.KeyIndex(q) < |q.options|
    ensures ChoosesKey(questions[i], KeyAnswers(TakeView.AnswerKey(questions)))
  {
    KeyEntries(questions);
    var entries := TakeView.AnswerKey(questions);
    LastEntryWins(entries, i);
  }

  lemma {:induction false} KeyEntries(questions: seq<SnapshotQuestion>)
    requires forall q <- questions :: TakeView.KeyIndex(q) < |q.options|
    ensures var entries := TakeView.AnswerKey(questions);
      |entries| == |questions| && forall i :: 0 <= i < |entries| ==>
        && entries[i].questionId == questions[i].id
        && entries[i].optionId == questions[i].options[TakeView.KeyIndex(questions[i])].id
  {
    if questions != [] {
      assert questions[0] in questions;
      KeyEntries(questions[1..]);
    }
  }

  lemma {:induction false} LastEntryWins(entries: seq<TakeView.KeyEntry>, i: nat)
    requires i < |entries| && forall j, k :: 0 <= j < k < |entries| ==> entries[j].questionId != entries[k].questionId
    ensures entries[i].questionId in KeyAnswers(entries)
    ensures KeyAnswers(entries)[entries[i].questionId] == entries[i].optionId
  {
    var n := |entries| - 1;
    if i < n { LastEntryWins(entries[..n], i); }
  }

  /** Choosing an option's id chooses that option. */
  lemma ChosenById(q: SnapshotQuestion, answers: Answers, i: nat)
    requires DistinctOptions(q.options) && i < |q.options|
    requires q.id in answers && answers[q.id] == q.options[i].id
    ensures Chosen(q, answers) == Some(q.options[i])
  {
  }

  lemma KeyIsNearest(q: SnapshotQuestion, answers: Answers)
    requires HasKey(q, Alignment) && ChoosesKey(q, answers)
    ensures Compared(q, answers) && Earned(q, answers) == 1.0 && FlagsOf(q, answers) == []
  {
  }

  // ----- The key scores 1 -----------------------------------------------------------------------

  ghost predicate AllChooseKey(questions: seq<SnapshotQuestion>, answers: Answers) {
    forall q <- questions :: ChoosesKey(q, answers)
  }

  lemma {:induction false} KeyEarnsAll(questions: seq<SnapshotQuestion>, answers: Answers)
    requires forall q <- questions :: Compared(q, answers) && Earned(q, answers) == 1.0 && FlagsOf(q, answers) == []
    ensures CountCompared(questions, answers) == |questions|
    ensures TotalEarned(questions, answers) == |questions| as real
    ensures AllFlags(questions, answers) == []
  {
    if questions != [] {
      assert questions[0] in questions;
      KeyEarnsAll(questions[1..], answers);
      MapHead((q: SnapshotQuestion) => FlagsOf(q, answers), questions);
    }
  }

  lemma GroupMembers(s: Snapshot, g: Group)
    requires g in Groups(s)
    ensures g.questions != [] && forall q <- g.questions :: q in s.questions
  {
  }

  lemma {:induction false} AllOnes(sections: seq<SectionScore>)
    requires forall x <- sections :: x.score == 1.0
    ensures WeightedScore(sections) == WeightIn(sections) && ScoreIn(sections) == |sections| as real
  {
    if sections != [] {
      assert sections[0] in sections;
      AllOnes(sections[1..]);
    }
  }

  lemma OnesScoreOne(sections: seq<SectionScore>)
    requires sections != [] && forall x <- sections :: x.score == 1.0
    ensures AlignmentScore(sections) == 1.0
  {
    var weighted := Filter(Weighted, sections);
    WeightPositive(weighted);
    AllOnes(weighted);
    AllOnes(sections);
    if weighted != [] {
      assert WeightIn(weighted) / WeightIn(weighted) == 1.0;
    } else {
      assert |sections| as real / |sections| as real == 1.0;
    }
  }

  lemma {:induction false} NoGroupFlags(groups: seq<Group>, answers: Answers)
    requires forall g <- groups :: AllFlags(g.questions, answers) == []
    ensures GroupFlags(groups, answers) == []
  {
    if groups != [] {
      assert groups[0] in groups;
      MapHead((g: Group) => AllFlags(g.questions, answers), groups);
      NoGroupFlags(groups[1..], answers);
    }
  }

  lemma SomeGroup(s: Snapshot)
    requires DistinctSections(s.sections) && s.questions != []
    ensures Groups(s) != []
  {
    if Groups(s) == [] {
      var every := (q: SnapshotQuestion) => true;
      CountByGroup(s, every, (g: Group) => CountOf(every, g.questions));
      CountAll(every, s.questions);
    }
  }

  lemma MeanOne(n: nat)
    requires n > 0
    ensures Mean(n as real, n) == 1.0
  {
  }

  lemma KeySection(g: Group, answers: Answers)
    requires g.questions != []
    requires forall q <- g.questions :: Compared(q, answers) && Earned(q, answers) == 1.0 && FlagsOf(q, answers) == []
    ensures AlignmentSection(g, answers).score == 1.0 && AllFlags(g.questions, answers) == []
  {
    KeyEarnsAll(g.questions, answers);
    MeanOne(|g.questions|);
  }

  lemma KeyGroup(s: Snapshot, g: Group, answers: Answers)
    requires AllHaveKeys(s) && s.scoringMethod == Alignment && AllChooseKey(s.questions, answers) && g in Groups(s)
    ensures AlignmentSection(g, answers).score == 1.0 && AllFlags(g.questions, answers) == []
  {
    GroupMembers(s, g);
    forall q | q in g.questions
      ensures Compared(q, answers) && Earned(q, answers) == 1.0 && FlagsOf(q, answers) == []
    {
      KeyIsNearest(q, answers);
    }
    KeySection(g, answers);
  }

  lemma KeyScoresAlignment(s: Snapshot, answers: Answers)
    requires KeysUnique(s) && s.questions != [] && AllHaveKeys(s)
    requires s.scoringMethod == Alignment && AllChooseKey(s.questions, answers)
    ensures var r := ScoreAttempt(s, answers);
      r.score == 1.0 && r.answeredCount == |s.questions| && r.flags == []
  {
    var groups := Groups(s);
    var sections := AlignmentSections(groups, answers);
    forall i | 0 <= i < |groups|
      ensures sections[i].score == 1.0 && AllFlags(groups[i].questions, answers) == []
    {
      KeyGroup(s, groups[i], answers);
    }
    SomeGroup(s);
    OnesScoreOne(sections);
    NoGroupFlags(groups, answers);
    CountsAddUp(s, answers);
    forall q | q in s.questions ensures Compared(q, answers) { KeyIsNearest(q, answers); }
    CountAll((q: SnapshotQuestion) => Compared(q, answers), s.questions);
  }

  lemma {:induction false} CountFull<A>(p: A -> bool, s: seq<A>)
    ensures CountOf(p, s) == |s| <==> forall x <- s :: p(x)
  {
    if s != [] {
      CountFull(p, s[1..]);
      assert forall x <- s :: x == s[0] || x in s[1..];
    }
  }

  lemma RatioOne(part: nat, whole: nat)
    requires part <= whole && whole > 0
    ensures Ratio(part, whole) == 1.0 <==> part == whole
  {
  }

  /** Every question is right exactly when the answers are the key. */
  lemma AllRight(s: Snapshot, answers: Answers)
    requires AllHaveKeys(s) && s.scoringMethod == CorrectAnswer
    ensures CountRight(s.questions, answers) == |s.questions| <==> AllChooseKey(s.questions, answers)
    ensures AllChooseKey(s.questions, answers) ==> CountAnswered(s.questions, answers) == |s.questions|
  {
    CountFull((q: SnapshotQuestion) => Right(q, answers), s.questions);
    CountFull((q: SnapshotQuestion) => Answered(q, answers), s.questions);
    forall q | q in s.questions ensures Right(q, answers) <==> ChoosesKey(q, answers) {}
  }

  /** Under right answers the score is 1 exactly for the key, which answers everything. */
  lemma KeyScoresCorrect(s: Snapshot, answers: Answers)
    requires Sendable(s) && s.scoringMethod == CorrectAnswer
    ensures ScoreAttempt(s, answers).score == 1.0 <==> AllChooseKey(s.questions, answers)
    ensures AllChooseKey(s.questions, answers) ==> ScoreAttempt(s, answers).answeredCount == |s.questions|
    ensures ScoreAttempt(s, answers).flags == []
  {
    SendableHasKeys(s);
    AllRight(s, answers);
    CountsAddUp(s, answers);
    RatioOne(CountRight(s.questions, answers), |s.questions|);
  }

  /** Under both methods, the answer key scores 1, answers everything and raises no flags. */
  lemma AnswerKeyScoresOne(s: Snapshot)
    requires Sendable(s)
    ensures var r := ScoreAttempt(s, KeyAnswers(TakeView.AnswerKey(s.questions)));
      r.score == 1.0 && r.answeredCount == |s.questions| && r.flags == []
  {
    var key := KeyAnswers(TakeView.AnswerKey(s.questions));
    SendableHasKeys(s);
    assert forall q <- s.questions :: HasKey(q, s.scoringMethod) && TakeView.KeyIndex(q) < |q.options|;
    forall q | q in s.questions ensures ChoosesKey(q, key) {
      var i :| 0 <= i < |s.questions| && s.questions[i] == q;
      KeyIsChosen(s.questions, i);
    }
    if s.scoringMethod == Alignment { KeyScoresAlignment(s, key); } else { KeyScoresCorrect(s, key); }
  }

  // ----- Better answers never score less ---------------------------------------------------------

  lemma {:induction false} CountOneMore(p: SnapshotQuestion -> bool, after: SnapshotQuestion -> bool,
    questions: seq<SnapshotQuestion>, i: nat)
    requires i < |questions| && !p(questions[i]) && after(questions[i])
    requires forall k :: 0 <= k < |questions| && k != i ==> p(questions[k]) == after(questions[k])
    ensures CountOf(after, questions) == CountOf(p, questions) + 1
  {
    if i == 0 {
      assert forall q <- questions[1..] :: p(q) == after(q);
      CountSame(p, after, questions[1..]);
    } else {
      CountOneMore(p, after, questions[1..], i - 1);
    }
  }

  lemma OneMoreCounted(s: Snapshot, answers: Answers, i: nat, optionIndex: nat)
    requires KeysUnique(s) && i < |s.questions| && optionIndex < |s.questions[i].options|
    requires s.questions[i].options[optionIndex].isCorrect && !Right(s.questions[i], answers)
    ensures var better := answers[s.questions[i].id := s.questions[i].options[optionIndex].id];
      CountRight(s.questions, better) == CountRight(s.questions, answers) + 1
  {
    var q := s.questions[i];
    var better := answers[q.id := q.options[optionIndex].id];
    assert q in s.questions;
    ChosenById(q, better, optionIndex);
    CountOneMore((q: SnapshotQuestion) => Right(q, answers), (q: SnapshotQuestion) => Right(q, better), s.questions, i);
  }

  /** A result with n right answers of `total`. */
  predicate HasRight(r: ScoreResult, n: nat, total: nat) {
    r.correctCount == Some(n) && r.score == Ratio(n, total)
  }

  lemma CorrectScore(s: Snapshot, answers: Answers)
    requires DistinctSections(s.sections) && s.scoringMethod == CorrectAnswer
    ensures HasRight(ScoreAttempt(s, answers), CountRight(s.questions, answers), |s.questions|)
  {
    CountsAddUp(s, answers);
  }

  /** Turning one wrong or blank answer right counts for exactly one more. */
  lemma OneMoreRight(s: Snapshot, answers: Answers, i: nat, optionIndex: nat)
    requires KeysUnique(s) && s.scoringMethod == CorrectAnswer
    requires i < |s.questions| && optionIndex < |s.questions[i].options|
    requires s.questions[i].options[optionIndex].isCorrect && !Right(s.questions[i], answers)
    ensures var better := answers[s.questions[i].id := s.questions[i].options[optionIndex].id];
      var n, total := CountRight(s.questions, answers), |s.questions|;
      HasRight(ScoreAttempt(s, answers), n, total) && HasRight(ScoreAttempt(s, better), n + 1, total)
  {
    OneMoreCounted(s, answers, i, optionIndex);
    CorrectScore(s, answers);
    CorrectScore(s, answers[s.questions[i].id := s.questions[i].options[optionIndex].id]);
  }

  /** The same questions are compared, and each earns at least as much. */
  ghost predicate AtLeastAsNear(questions: seq<SnapshotQuestion>, answers: Answers, better: Answers) {
    forall q <- questions :: Compared(q, answers) == Compared(q, better) && Earned(q, answers) <= Earned(q, better)
  }

  lemma NearerEarnsMore(q: SnapshotQuestion, near: nat, far: nat)
    requires near <= far
    ensures Nearness(q, far) <= Nearness(q, near)
  {
    if Span(q.options) > 0 { QuotientMonotone(near as real, far as real, Span(q.options) as real); }
  }

  lemma {:induction false} EarnsMore(questions: seq<SnapshotQuestion>, answers: Answers, better: Answers)
    requires AtLeastAsNear(questions, answers, better)
    ensures CountCompared(questions, answers) == CountCompared(questions, better)
    ensures TotalEarned(questions, answers) <= TotalEarned(questions, better)
  {
    if questions != [] {
      assert questions[0] in questions;
      EarnsMore(questions[1..], answers, better);
    }
  }

  lemma QuotientMonotone(x: real, y: real, d: real)
    requires d > 0.0 && x <= y
    ensures x / d <= y / d
  {
  }

  lemma SectionImproves(s: Snapshot, g: Group, answers: Answers, better: Answers)
    requires AtLeastAsNear(s.questions, answers, better) && g in Groups(s)
    ensures AlignmentSection(g, answers).score <= AlignmentSection(g, better).score
    ensures AlignmentSection(g, answers).weight == AlignmentSection(g, better).weight
  {
    GroupMembers(s, g);
    EarnsMore(g.questions, answers, better);
    var n := CountCompared(g.questions, answers);
    if n > 0 { QuotientMonotone(TotalEarned(g.questions, answers), TotalEarned(g.questions, better), n as real); }
  }

  /** The same sections, none scoring less. */
  ghost predicate Improves(xs: seq<SectionScore>, ys: seq<SectionScore>) {
    |xs| == |ys| && forall i :: 0 <= i < |xs| ==> xs[i].weight == ys[i].weight && xs[i].score <= ys[i].score
  }

  lemma ImprovesBoth(x: SectionScore, y: SectionScore, xs: seq<SectionScore>, ys: seq<SectionScore>)
    requires x.weight == y.weight && x.score <= y.score && Improves(xs, ys)
    ensures Weighted(x) == Weighted(y) && Improves([x] + xs, [y] + ys)
  {
  }

  lemma {:induction false} FilterImproves(xs: seq<SectionScore>, ys: seq<SectionScore>)
    requires Improves(xs, ys)
    ensures Improves(Filter(Weighted, xs), Filter(Weighted, ys))
  {
    if xs != [] {
      FilterImproves(xs[1..], ys[1..]);
      ImprovesBoth(xs[0], ys[0], Filter(Weighted, xs[1..]), Filter(Weighted, ys[1..]));
    }
  }

  lemma {:induction false} ScoresImprove(xs: seq<SectionScore>, ys: seq<SectionScore>)
    requires Improves(xs, ys)
    ensures ScoreIn(xs) <= ScoreIn(ys)
  {
    if xs != [] { ScoresImprove(xs[1..], ys[1..]); }
  }

  lemma ShareImproves(x: SectionScore, y: SectionScore)
    requires x.weight == y.weight && x.score <= y.score && Weighted(x)
    ensures Share(x) <= Share(y)
  {
  }

  lemma {:induction false} WeightedImprove(xs: seq<SectionScore>, ys: seq<SectionScore>)
    requires Improves(xs, ys) && forall x <- xs :: Weighted(x)
    ensures WeightIn(xs) == WeightIn(ys) && WeightedScore(xs) <= WeightedScore(ys)
  {
    if xs != [] {
      assert xs[0] in xs;
      WeightedImprove(xs[1..], ys[1..]);
      ShareImproves(xs[0], ys[0]);
    }
  }

  lemma AlignmentImproves(xs: seq<SectionScore>, ys: seq<SectionScore>)
    requires Improves(xs, ys)
    ensures AlignmentScore(xs) <= AlignmentScore(ys)
  {
    var wx, wy := Filter(Weighted, xs), Filter(Weighted, ys);
    FilterImproves(xs, ys);
    ScoresImprove(xs, ys);
    WeightedImprove(wx, wy);
    WeightPositive(wx);
    if wx != [] {
      QuotientMonotone(WeightedScore(wx), WeightedScore(wy), WeightIn(wx));
    } else if xs != [] {
      QuotientMonotone(ScoreIn(xs), ScoreIn(ys), |xs| as real);
    }
  }

  /** Answers that come nearer the role's values never lower the alignment score. */
  lemma NearerNeverLowers(s: Snapshot, answers: Answers, better: Answers)
    requires s.scoringMethod == Alignment && AtLeastAsNear(s.questions, answers, better)
    ensures ScoreAttempt(s, answers).score <= ScoreAttempt(s, better).score
  {
    var groups := Groups(s);
    var xs, ys := AlignmentSections(groups, answers), AlignmentSections(groups, better);
    forall i | 0 <= i < |groups|
      ensures xs[i].score <= ys[i].score && xs[i].weight == ys[i].weight
    {
      SectionImproves(s, groups[i], answers, better);
    }
    AlignmentImproves(xs, ys);
  }

  /** Moving one answered item nearer the role's value never lowers the score, nor the band. */
  lemma OneNearer(s: Snapshot, answers: Answers, i: nat, optionIndex: nat)
    requires KeysUnique(s) && s.scoringMethod == Alignment
    requires i < |s.questions| && optionIndex < |s.questions[i].options|
    requires var q := s.questions[i];
      && Compared(q, answers) && q.options[optionIndex].value.Some?
      && Abs(q.options[optionIndex].value.value - q.employerValue.value)
         <= Abs(ChosenValue(q, answers).value - q.employerValue.value)
    ensures var better := answers[s.questions[i].id := s.questions[i].options[optionIndex].id];
      var before, after := ScoreAttempt(s, answers), ScoreAttempt(s, better);
      && before.score <= after.score
      && (BandFor(s.bands, before.score).Some? ==>
            && BandFor(s.bands, after.score).Some?
            && BandFor(s.bands, before.score).value.minScore <= BandFor(s.bands, after.score).value.minScore)
  {
    var q := s.questions[i];
    var better := answers[q.id := q.options[optionIndex].id];
    assert q in s.questions;
    ChosenById(q, better, optionIndex);
    NearerEarnsMore(q, Abs(q.options[optionIndex].value.value - q.employerValue.value),
      Abs(ChosenValue(q, answers).value - q.employerValue.value));
    forall k | 0 <= k < |s.questions|
      ensures var x := s.questions[k];
        Compared(x, answers) == Compared(x, better) && Earned(x, answers) <= Earned(x, better)
    {
      if k != i { assert s.questions[k].id != q.id; }
    }
    NearerNeverLowers(s, answers, better);
    if BandFor(s.bands, ScoreAttempt(s, answers).score).Some? {
      BandMonotone(s.bands, ScoreAttempt(s, answers).score, ScoreAttempt(s, better).score);
    }
  }
}
