/**
 * Two snapshots that differ only in their ids score the same answers the same,
 * and so do any two that agree on what the scoring reads.
 */
module Twins {
  import opened Basics
  import opened Snapshots
  import opened Scoring

  // ----- The same test under other ids -----------------------------------------------------

  predicate SameOption(o: SnapshotOption, p: SnapshotOption) {
    o.(id := 0) == p.(id := 0)
  }

  predicate SameOptions(os: seq<SnapshotOption>, ps: seq<SnapshotOption>) {
    |os| == |ps| && forall i :: 0 <= i < |os| ==> SameOption(os[i], ps[i])
  }

  /** Everything but the ids, and the file a question plays. */
  predicate SameQuestion(q: SnapshotQuestion, r: SnapshotQuestion) {
    && q.(id := 0, sectionId := None, media := None, options := [])
       == r.(id := 0, sectionId := None, media := None, options := [])
    && SameOptions(q.options, r.options)
  }

  /** Which section a question counts under, by place: past the last for none. */
  function PlaceOf(q: SnapshotQuestion, sections: seq<SnapshotSection>): nat {
    if q.sectionId.None? then |sections| else Find((s: SnapshotSection) => s.id == q.sectionId.value, sections)
  }

  predicate SameSection(s: SnapshotSection, t: SnapshotSection) {
    s.name == t.name && s.weight == t.weight
  }

  /** The same test, up to renaming ids. */
  ghost predicate Twin(s: Snapshot, t: Snapshot) {
    && s.(name := "", sections := [], questions := []) == t.(name := "", sections := [], questions := [])
    && DistinctSections(s.sections) && DistinctSections(t.sections)
    && |s.sections| == |t.sections| && |s.questions| == |t.questions|
    && (forall i :: 0 <= i < |s.sections| ==> SameSection(s.sections[i], t.sections[i]))
    && forall i :: 0 <= i < |s.questions| ==> TwinQuestions(s.questions[i], s.sections, t.questions[i], t.sections)
  }

  // ----- What the scoring reads --------------------------------------------------------------

  predicate SameMarks(os: seq<SnapshotOption>, ps: seq<SnapshotOption>) {
    |os| == |ps| && forall i :: 0 <= i < |os| ==> os[i].value == ps[i].value && os[i].isCorrect == ps[i].isCorrect
  }

  /**
   * The same type, role value, reference and question, and options of the same values and
   * marks, whatever their texts.
   */
  predicate SameScoring(q: SnapshotQuestion, r: SnapshotQuestion) {
    && q.kind == r.kind && q.ref == r.ref && q.stem == r.stem && q.employerValue == r.employerValue
    && SameMarks(q.options, r.options)
  }

  /** The same test as far as the scoring goes. */
  ghost predicate ScoreTwin(s: Snapshot, t: Snapshot) {
    && s.scoringMethod == t.scoringMethod && s.bands == t.bands
    && DistinctSections(s.sections) && DistinctSections(t.sections)
    && |s.sections| == |t.sections| && |s.questions| == |t.questions|
    && (forall i :: 0 <= i < |s.sections| ==> SameSection(s.sections[i], t.sections[i]))
    && forall i :: 0 <= i < |s.questions| ==> ScoresSame(s.questions[i], s.sections, t.questions[i], t.sections)
  }

  predicate ScoresSame(q: SnapshotQuestion, from: seq<SnapshotSection>, r: SnapshotQuestion, to: seq<SnapshotSection>) {
    SameScoring(q, r) && PlaceOf(q, from) == PlaceOf(r, to)
  }

  lemma TwinScores(s: Snapshot, t: Snapshot)
    requires Twin(s, t)
    ensures ScoreTwin(s, t)
  {
    forall i | 0 <= i < |s.questions| ensures ScoresSame(s.questions[i], s.sections, t.questions[i], t.sections) {
      assert TwinQuestions(s.questions[i], s.sections, t.questions[i], t.sections);
      QuestionScores(s.questions[i], t.questions[i]);
    }
  }

  lemma QuestionScores(q: SnapshotQuestion, r: SnapshotQuestion)
    requires SameQuestion(q, r)
    ensures SameScoring(q, r)
  {
    forall i | 0 <= i < |q.options|
      ensures q.options[i].value == r.options[i].value && q.options[i].isCorrect == r.options[i].isCorrect
    {
      assert SameOption(q.options[i], r.options[i]);
    }
  }

  predicate TwinQuestions(q: SnapshotQuestion, from: seq<SnapshotSection>, r: SnapshotQuestion,
    to: seq<SnapshotSection>) {
    SameQuestion(q, r) && PlaceOf(q, from) == PlaceOf(r, to)
  }

  /** Which of a question's options the answers choose: past the last for none. */
  function ChoiceAt(q: SnapshotQuestion, answers: Answers): nat {
    if q.id !in answers then |q.options| else Find((o: SnapshotOption) => o.id == answers[q.id], q.options)
  }

  predicate SameChoices(questions: seq<SnapshotQuestion>, a: Answers, others: seq<SnapshotQuestion>, b: Answers) {
    |questions| == |others|
    && forall i :: 0 <= i < |questions| ==> ChoiceAt(questions[i], a) == ChoiceAt(others[i], b)
  }

  predicate SameSectionScore(x: SectionScore, y: SectionScore) { x.(sectionId := None) == y.(sectionId := None) }

  predicate SameFlag(x: AlignmentFlag, y: AlignmentFlag) { x.(questionId := 0) == y.(questionId := 0) }

  /** The same score, band, counts, section scores and flags. */
  ghost predicate SameResult(x: ScoreResult, y: ScoreResult) {
    && x.(sections := [], flags := []) == y.(sections := [], flags := [])
    && Pairs(SameSectionScore, x.sections, y.sections)
    && Pairs(SameFlag, x.flags, y.flags)
  }

  // ----- Lists side by side ------------------------------------------------------------------

  ghost predicate Pairs<A, B>(r: (A, B) -> bool, s: seq<A>, t: seq<B>) {
    |s| == |t| && forall i :: 0 <= i < |s| ==> r(s[i], t[i])
  }

  /** Filters that agree on each pair keep the pairing. */
  lemma {:induction false} FilterPairs<A, B>(r: (A, B) -> bool, p: A -> bool, q: B -> bool, s: seq<A>, t: seq<B>)
    requires Pairs((x: A, y: B) => r(x, y) && p(x) == q(y), s, t)
    ensures Pairs(r, Filter(p, s), Filter(q, t))
  {
    if s != [] {
      FilterPairs(r, p, q, s[1..], t[1..]);
    }
  }

  lemma KeyedPairs<A, B, K>(r: (A, B) -> bool, s: seq<A>, key: A -> K, k: K, t: seq<B>, other: B -> K, l: K)
    requires |s| == |t| && forall i :: 0 <= i < |s| ==> r(s[i], t[i]) && (key(s[i]) == k) == (other(t[i]) == l)
    ensures Pairs(r, Keyed(s, key, k), Keyed(t, other, l))
  {
    FilterPairs(r, (x: A) => key(x) == k, (y: B) => other(y) == l, s, t);
  }

  lemma {:induction false} CountPairs<A, B>(p: A -> bool, q: B -> bool, s: seq<A>, t: seq<B>)
    requires Pairs((x: A, y: B) => p(x) == q(y), s, t)
    ensures CountOf(p, s) == CountOf(q, t)
  {
    if s != [] {
      CountPairs(p, q, s[1..], t[1..]);
    }
  }

  lemma {:induction false} SumPairs<A, B>(f: A -> real, g: B -> real, s: seq<A>, t: seq<B>)
    requires Pairs((x: A, y: B) => f(x) == g(y), s, t)
    ensures Sum(f, s) == Sum(g, t)
  {
    if s != [] {
      SumPairs(f, g, s[1..], t[1..]);
    }
  }

  lemma {:induction false} SumNatPairs<A, B>(f: A -> nat, g: B -> nat, s: seq<A>, t: seq<B>)
    requires Pairs((x: A, y: B) => f(x) == g(y), s, t)
    ensures SumNat(f, s) == SumNat(g, t)
  {
    if s != [] {
      SumNatPairs(f, g, s[1..], t[1..]);
    }
  }

  lemma {:induction false} FlattenPairs<A, B, C, D>(r: (C, D) -> bool, f: A -> seq<C>, g: B -> seq<D>, s: seq<A>,
    t: seq<B>)
    requires |s| == |t| && forall i :: 0 <= i < |s| ==> Pairs(r, f(s[i]), g(t[i]))
    ensures Pairs(r, Flatten(Map(f, s)), Flatten(Map(g, t)))
  {
    if s != [] {
      MapHead(f, s);
      MapHead(g, t);
      FlattenPairs(r, f, g, s[1..], t[1..]);
    }
  }

  // ----- One question --------------------------------------------------------------------------

  /** The same question with the same choice. */
  predicate Alike(q: SnapshotQuestion, a: Answers, r: SnapshotQuestion, b: Answers) {
    SameScoring(q, r) && ChoiceAt(q, a) == ChoiceAt(r, b)
  }

  lemma {:induction false} ValuesAlike(os: seq<SnapshotOption>, ps: seq<SnapshotOption>)
    requires SameMarks(os, ps)
    ensures Values(os) == Values(ps)
  {
    if os != [] { ValuesAlike(os[1..], ps[1..]); }
  }

  lemma NearnessAlike(q: SnapshotQuestion, r: SnapshotQuestion, gap: nat)
    requires SameScoring(q, r)
    ensures Nearness(q, gap) == Nearness(r, gap)
  {
    ValuesAlike(q.options, r.options);
  }

  /** What scoring reads of a question does not depend on the ids. */
  lemma ReadAlike(q: SnapshotQuestion, a: Answers, r: SnapshotQuestion, b: Answers)
    requires Alike(q, a, r, b)
    ensures Answered(q, a) == Answered(r, b) && Right(q, a) == Right(r, b)
    ensures ChosenValue(q, a) == ChosenValue(r, b)
    ensures Compared(q, a) == Compared(r, b)
  {
  }

  lemma EarnedAlike(q: SnapshotQuestion, a: Answers, r: SnapshotQuestion, b: Answers)
    requires Alike(q, a, r, b)
    ensures Earned(q, a) == Earned(r, b)
  {
    ReadAlike(q, a, r, b);
    var value := ChosenValue(q, a);
    if value.Some? && q.employerValue.Some? {
      NearnessAlike(q, r, Abs(value.value - q.employerValue.value));
    }
  }

  lemma FlagsAlike(q: SnapshotQuestion, a: Answers, r: SnapshotQuestion, b: Answers)
    requires Alike(q, a, r, b)
    ensures Pairs(SameFlag, FlagsOf(q, a), FlagsOf(r, b))
  {
    ReadAlike(q, a, r, b);
  }

  // ----- One section ---------------------------------------------------------------------------

  ghost function AlikeUnder(a: Answers, b: Answers): (SnapshotQuestion, SnapshotQuestion) -> bool {
    (q: SnapshotQuestion, r: SnapshotQuestion) => Alike(q, a, r, b)
  }

  ghost predicate GroupsAlike(g: Group, a: Answers, h: Group, b: Answers) {
    g.name == h.name && g.weight == h.weight && Pairs(AlikeUnder(a, b), g.questions, h.questions)
  }

  lemma CountsAlike(g: seq<SnapshotQuestion>, a: Answers, h: seq<SnapshotQuestion>, b: Answers)
    requires Pairs(AlikeUnder(a, b), g, h)
    ensures CountRight(g, a) == CountRight(h, b) && CountAnswered(g, a) == CountAnswered(h, b)
    ensures CountCompared(g, a) == CountCompared(h, b)
  {
    forall i | 0 <= i < |g|
      ensures Answered(g[i], a) == Answered(h[i], b) && Right(g[i], a) == Right(h[i], b)
      ensures Compared(g[i], a) == Compared(h[i], b)
    {
      assert AlikeUnder(a, b)(g[i], h[i]);
      ReadAlike(g[i], a, h[i], b);
    }
    CountPairs((q: SnapshotQuestion) => Right(q, a), (q: SnapshotQuestion) => Right(q, b), g, h);
    CountPairs((q: SnapshotQuestion) => Answered(q, a), (q: SnapshotQuestion) => Answered(q, b), g, h);
    CountPairs((q: SnapshotQuestion) => Compared(q, a), (q: SnapshotQuestion) => Compared(q, b), g, h);
  }

  lemma TotalsAlike(g: seq<SnapshotQuestion>, a: Answers, h: seq<SnapshotQuestion>, b: Answers)
    requires Pairs(AlikeUnder(a, b), g, h)
    ensures TotalEarned(g, a) == TotalEarned(h, b) && Pairs(SameFlag, AllFlags(g, a), AllFlags(h, b))
  {
    forall i | 0 <= i < |g|
      ensures Earned(g[i], a) == Earned(h[i], b) && Pairs(SameFlag, FlagsOf(g[i], a), FlagsOf(h[i], b))
    {
      assert AlikeUnder(a, b)(g[i], h[i]);
      EarnedAlike(g[i], a, h[i], b);
      FlagsAlike(g[i], a, h[i], b);
    }
    SumPairs((q: SnapshotQuestion) => Earned(q, a), (q: SnapshotQuestion) => Earned(q, b), g, h);
    FlattenPairs(SameFlag, (q: SnapshotQuestion) => FlagsOf(q, a), (q: SnapshotQuestion) => FlagsOf(q, b), g, h);
  }

  lemma SectionsAlike(g: Group, a: Answers, h: Group, b: Answers)
    requires GroupsAlike(g, a, h, b)
    ensures SameSectionScore(CorrectSection(g, a), CorrectSection(h, b))
    ensures SameSectionScore(AlignmentSection(g, a), AlignmentSection(h, b))
    ensures Pairs(SameFlag, AllFlags(g.questions, a), AllFlags(h.questions, b))
  {
    CountsAlike(g.questions, a, h.questions, b);
    TotalsAlike(g.questions, a, h.questions, b);
  }

  // ----- The groups ---------------------------------------------------------------------------------

  ghost predicate AllAlike(s: Snapshot, a: Answers, t: Snapshot, b: Answers) {
    ScoreTwin(s, t) && SameChoices(s.questions, a, t.questions, b)
  }

  /** The key of the block at place k. */
  function KeyAt(sections: seq<SnapshotSection>, k: nat): Option<Id> {
    if k < |sections| then Some(sections[k].id) else None
  }

  /** A question's block is the one at its place. */
  lemma KeyIsPlace(q: SnapshotQuestion, sections: seq<SnapshotSection>, k: nat)
    requires DistinctSections(sections) && k <= |sections|
    ensures SectionKey(q, sections) == KeyAt(sections, k) <==> PlaceOf(q, sections) == k
  {
    if q.sectionId.Some? {
      var at := Find((s: SnapshotSection) => s.id == q.sectionId.value, sections);
      if at < |sections| { assert sections[at] in sections; }
    }
  }

  lemma BlocksAlike(s: Snapshot, a: Answers, t: Snapshot, b: Answers, k: nat)
    requires AllAlike(s, a, t, b) && k <= |s.sections|
    ensures Pairs(AlikeUnder(a, b), Block(s.questions, s.sections, KeyAt(s.sections, k)),
                  Block(t.questions, t.sections, KeyAt(t.sections, k)))
  {
    forall i | 0 <= i < |s.questions|
      ensures Alike(s.questions[i], a, t.questions[i], b)
      ensures (SectionKey(s.questions[i], s.sections) == KeyAt(s.sections, k))
        == (SectionKey(t.questions[i], t.sections) == KeyAt(t.sections, k))
    {
      assert ScoresSame(s.questions[i], s.sections, t.questions[i], t.sections);
      KeyIsPlace(s.questions[i], s.sections, k);
      KeyIsPlace(t.questions[i], t.sections, k);
    }
    KeyedAlike(s.questions, s.sections, KeyAt(s.sections, k), a, t.questions, t.sections, KeyAt(t.sections, k), b);
  }

  lemma KeyedAlike(s: seq<SnapshotQuestion>, from: seq<SnapshotSection>, key: Option<Id>, a: Answers,
    t: seq<SnapshotQuestion>, to: seq<SnapshotSection>, other: Option<Id>, b: Answers)
    requires |s| == |t| && forall i :: 0 <= i < |s| ==>
      Alike(s[i], a, t[i], b) && (SectionKey(s[i], from) == key) == (SectionKey(t[i], to) == other)
    ensures Pairs(AlikeUnder(a, b), Block(s, from, key), Block(t, to, other))
  {
    KeyedPairs(AlikeUnder(a, b), s, KeyIn(from), key, t, KeyIn(to), other);
  }

  ghost function GroupsAlikeUnder(a: Answers, b: Answers): (Group, Group) -> bool {
    (g: Group, h: Group) => GroupsAlike(g, a, h, b)
  }

  lemma AllGroupsAlike(s: Snapshot, a: Answers, t: Snapshot, b: Answers)
    requires AllAlike(s, a, t, b)
    ensures Pairs(GroupsAlikeUnder(a, b), AllGroups(s), AllGroups(t))
  {
    var n := |s.sections|;
    assert |AllGroups(s)| == n + 1 == |AllGroups(t)|;
    forall k | 0 <= k <= n ensures GroupsAlikeUnder(a, b)(AllGroups(s)[k], AllGroups(t)[k]) {
      GroupAlikeAt(s, a, t, b, k);
    }
  }

  lemma GroupAt(s: Snapshot, k: nat)
    requires k <= |s.sections|
    ensures AllGroups(s)[k].questions == Block(s.questions, s.sections, KeyAt(s.sections, k))
    ensures k < |s.sections| ==>
      AllGroups(s)[k].name == s.sections[k].name && AllGroups(s)[k].weight == s.sections[k].weight
    ensures k == |s.sections| ==> AllGroups(s)[k].name == UNSECTIONED_NAME && AllGroups(s)[k].weight == None
  {
  }

  lemma GroupAlikeAt(s: Snapshot, a: Answers, t: Snapshot, b: Answers, k: nat)
    requires AllAlike(s, a, t, b) && k <= |s.sections|
    ensures GroupsAlike(AllGroups(s)[k], a, AllGroups(t)[k], b)
  {
    GroupAt(s, k);
    GroupAt(t, k);
    BlocksAlike(s, a, t, b, k);
    if k < |s.sections| { assert SameSection(s.sections[k], t.sections[k]); }
  }

  lemma GroupListsAlike(s: Snapshot, a: Answers, t: Snapshot, b: Answers)
    requires AllAlike(s, a, t, b)
    ensures Pairs(GroupsAlikeUnder(a, b), Groups(s), Groups(t))
  {
    AllGroupsAlike(s, a, t, b);
    forall i | 0 <= i < |AllGroups(s)| ensures HasQuestions(AllGroups(s)[i]) == HasQuestions(AllGroups(t)[i]) {
      assert GroupsAlikeUnder(a, b)(AllGroups(s)[i], AllGroups(t)[i]);
    }
    FilterPairs(GroupsAlikeUnder(a, b), HasQuestions, HasQuestions, AllGroups(s), AllGroups(t));
  }

  // ----- The whole result ------------------------------------------------------------------------------

  lemma SectionListsAlike(s: Snapshot, a: Answers, t: Snapshot, b: Answers)
    requires AllAlike(s, a, t, b)
    ensures Pairs(SameSectionScore, CorrectSections(Groups(s), a), CorrectSections(Groups(t), b))
    ensures Pairs(SameSectionScore, AlignmentSections(Groups(s), a), AlignmentSections(Groups(t), b))
    ensures Pairs(SameFlag, GroupFlags(Groups(s), a), GroupFlags(Groups(t), b))
  {
    GroupListsAlike(s, a, t, b);
    var gs, hs := Groups(s), Groups(t);
    forall i | 0 <= i < |gs|
      ensures SameSectionScore(CorrectSection(gs[i], a), CorrectSection(hs[i], b))
      ensures SameSectionScore(AlignmentSection(gs[i], a), AlignmentSection(hs[i], b))
      ensures Pairs(SameFlag, AllFlags(gs[i].questions, a), AllFlags(hs[i].questions, b))
    {
      assert GroupsAlikeUnder(a, b)(gs[i], hs[i]);
      SectionsAlike(gs[i], a, hs[i], b);
    }
    FlattenPairs(SameFlag, (g: Group) => AllFlags(g.questions, a), (g: Group) => AllFlags(g.questions, b), gs, hs);
  }

  lemma CountsInAlike(xs: seq<SectionScore>, ys: seq<SectionScore>)
    requires Pairs(SameSectionScore, xs, ys)
    ensures CorrectIn(xs) == CorrectIn(ys) && AnsweredIn(xs) == AnsweredIn(ys)
  {
    SumNatPairs((s: SectionScore) => s.correct.GetOr(0), (s: SectionScore) => s.correct.GetOr(0), xs, ys);
    SumNatPairs((s: SectionScore) => s.answered, (s: SectionScore) => s.answered, xs, ys);
  }

  lemma SumsInAlike(xs: seq<SectionScore>, ys: seq<SectionScore>)
    requires Pairs(SameSectionScore, xs, ys)
    ensures WeightedScore(xs) == WeightedScore(ys) && WeightIn(xs) == WeightIn(ys) && ScoreIn(xs) == ScoreIn(ys)
  {
    forall i | 0 <= i < |xs| ensures Share(xs[i]) == Share(ys[i]) { assert SameSectionScore(xs[i], ys[i]); }
    SumPairs(Share, Share, xs, ys);
    SumPairs((s: SectionScore) => s.weight.GetOr(0.0), (s: SectionScore) => s.weight.GetOr(0.0), xs, ys);
    SumPairs((s: SectionScore) => s.score, (s: SectionScore) => s.score, xs, ys);
  }

  lemma AlignmentAlike(xs: seq<SectionScore>, ys: seq<SectionScore>)
    requires Pairs(SameSectionScore, xs, ys)
    ensures AlignmentScore(xs) == AlignmentScore(ys)
  {
    FilterPairs(SameSectionScore, Weighted, Weighted, xs, ys);
    SumsInAlike(Filter(Weighted, xs), Filter(Weighted, ys));
    SumsInAlike(xs, ys);
  }

  /** Tests the scoring reads alike give the same choices the same score, band, section scores and flags. */
  lemma TwinsScoreAlike(s: Snapshot, a: Answers, t: Snapshot, b: Answers)
    requires AllAlike(s, a, t, b)
    ensures SameResult(ScoreAttempt(s, a), ScoreAttempt(t, b))
  {
    SectionListsAlike(s, a, t, b);
    CountsInAlike(CorrectSections(Groups(s), a), CorrectSections(Groups(t), b));
    CountsInAlike(AlignmentSections(Groups(s), a), AlignmentSections(Groups(t), b));
    AlignmentAlike(AlignmentSections(Groups(s), a), AlignmentSections(Groups(t), b));
  }

  // ----- The same choices under the other ids --------------------------------------------------------------

  /** The answers to the twin that choose the same options. */
  function Translate(questions: seq<SnapshotQuestion>, a: Answers, others: seq<SnapshotQuestion>): Answers
    requires |questions| == |others|
  {
    if questions == [] then map[]
    else
      var n := |questions| - 1;
      var b := Translate(questions[..n], a, others[..n]);
      var k := ChoiceAt(questions[n], a);
      if k < |others[n].options| then b[others[n].id := others[n].options[k].id] else b
  }

  lemma {:induction false} TranslateKeys(questions: seq<SnapshotQuestion>, a: Answers, others: seq<SnapshotQuestion>)
    requires |questions| == |others|
    ensures forall id :: id in Translate(questions, a, others) ==> exists i :: 0 <= i < |others| && others[i].id == id
  {
    if questions != [] {
      var n := |questions| - 1;
      TranslateKeys(questions[..n], a, others[..n]);
      assert forall i :: 0 <= i < n ==> others[..n][i] == others[i];
    }
  }

  /** Translated answers make the same choice at every question. */
  lemma {:induction false} TranslatedChoice(questions: seq<SnapshotQuestion>, a: Answers,
    others: seq<SnapshotQuestion>, i: nat)
    requires |questions| == |others| && DistinctQuestions(others) && i < |others|
    requires |questions[i].options| == |others[i].options| && DistinctOptions(others[i].options)
    ensures ChoiceAt(others[i], Translate(questions, a, others)) == ChoiceAt(questions[i], a)
  {
    var n := |questions| - 1;
    var before := Translate(questions[..n], a, others[..n]);
    TranslateKeys(questions[..n], a, others[..n]);
    if i < n {
      TranslatedChoice(questions[..n], a, others[..n], i);
    } else {
      assert others[n].id !in before;
    }
  }

  lemma TranslatedAlike(s: Snapshot, a: Answers, t: Snapshot)
    requires ScoreTwin(s, t) && KeysUnique(t)
    ensures AllAlike(s, a, t, Translate(s.questions, a, t.questions))
  {
    forall i | 0 <= i < |s.questions|
      ensures ChoiceAt(s.questions[i], a) == ChoiceAt(t.questions[i], Translate(s.questions, a, t.questions))
    {
      assert ScoresSame(s.questions[i], s.sections, t.questions[i], t.sections);
      assert t.questions[i] in t.questions;
      TranslatedChoice(s.questions, a, t.questions, i);
    }
  }

  lemma TwinFlipped(s: Snapshot, t: Snapshot)
    requires Twin(s, t)
    ensures Twin(t, s)
  {
  }
}
