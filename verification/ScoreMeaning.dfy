/** What the parts of an alignment score say: its flags, its means, its items, and the band beside any score. */
module ScoreMeaning {
  import opened Basics
  import opened Questions
  import opened Snapshots
  import opened Bands
  import opened Scoring
  import opened ScoringLaws
  import TakeView

  // ----- Bands ------------------------------------------------------------------------------

  /** The result names the highest band its score reaches, or none when it reaches none. */
  lemma BandMatchesScore(s: Snapshot, answers: Answers)
    ensures var r := ScoreAttempt(s, answers);
      exists band: Option<SnapshotBand> :: IsBandFor(s.bands, r.score, band)
        && r.bandName == if band.Some? then Some(band.value.name) else None
  {
    var r := ScoreAttempt(s, answers);
    BandIsHighest(s.bands, r.score);
    assert IsBandFor(s.bands, r.score, BandFor(s.bands, r.score));
  }

  // ----- Flags ------------------------------------------------------------------------------

  /** The chosen value is two points or more from the role's. */
  predicate Wide(q: SnapshotQuestion, answers: Answers) {
    ChosenValue(q, answers).Some? && q.employerValue.Some?
    && (ChosenValue(q, answers).value >= q.employerValue.value + 2
        || q.employerValue.value >= ChosenValue(q, answers).value + 2)
  }

  /** A flag tells of one question's wide gap, and which way it goes. */
  predicate Tells(f: AlignmentFlag, q: SnapshotQuestion, answers: Answers) {
    && Wide(q, answers)
    && f.questionId == q.id && f.ref == q.ref && f.stem == q.stem
    && f.employerValue == q.employerValue.value && f.candidateValue == ChosenValue(q, answers).value
    && f.gap == f.candidateValue - f.employerValue
    && (f.candidateWantsMore <==> f.candidateValue > f.employerValue)
  }

  lemma OneFlag(q: SnapshotQuestion, answers: Answers)
    ensures |FlagsOf(q, answers)| == if Wide(q, answers) then 1 else 0
    ensures forall f :: f in FlagsOf(q, answers) <==> Tells(f, q, answers)
  {
  }

  lemma {:induction false} ListedFlags(questions: seq<SnapshotQuestion>, answers: Answers, f: AlignmentFlag)
    ensures f in AllFlags(questions, answers) <==> exists q <- questions :: Tells(f, q, answers)
    ensures |AllFlags(questions, answers)| == CountOf((q: SnapshotQuestion) => Wide(q, answers), questions)
  {
    if questions != [] {
      MapHead((q: SnapshotQuestion) => FlagsOf(q, answers), questions);
      OneFlag(questions[0], answers);
      ListedFlags(questions[1..], answers, f);
      SplitHead(questions);
    }
  }

  lemma {:induction false} ListedGroupFlags(groups: seq<Group>, answers: Answers, f: AlignmentFlag, count: Group -> nat)
    requires forall g: Group :: count(g) == CountOf((q: SnapshotQuestion) => Wide(q, answers), g.questions)
    ensures f in GroupFlags(groups, answers) <==> exists g <- groups :: f in AllFlags(g.questions, answers)
    ensures |GroupFlags(groups, answers)| == SumNat(count, groups)
  {
    if groups != [] {
      MapHead((g: Group) => AllFlags(g.questions, answers), groups);
      ListedFlags(groups[0].questions, answers, f);
      ListedGroupFlags(groups[1..], answers, f, count);
      SplitHead(groups);
    }
  }

  /** Every question is in one of the groups. */
  lemma Grouped(s: Snapshot, q: SnapshotQuestion)
    requires q in s.questions
    ensures exists g <- Groups(s) :: q in g.questions
  {
    KeyListed(q, s.sections);
    var keys := BlockKeys(s.sections);
    var k :| 0 <= k < |keys| && keys[k] == SectionKey(q, s.sections);
    var g := AllGroups(s)[k];
    assert g.questions == Block(s.questions, s.sections, keys[k]);
    assert KeyIn(s.sections)(q) == keys[k] && q in g.questions;
    assert HasQuestions(g) && g in AllGroups(s);
  }

  /** The flags are exactly the wide gaps, one for each. */
  lemma FlagsAreWideGaps(s: Snapshot, answers: Answers, f: AlignmentFlag)
    requires s.scoringMethod == Alignment && DistinctSections(s.sections)
    ensures f in ScoreAttempt(s, answers).flags <==> exists q <- s.questions :: Tells(f, q, answers)
    ensures |ScoreAttempt(s, answers).flags| == CountOf((q: SnapshotQuestion) => Wide(q, answers), s.questions)
  {
    var wide := (q: SnapshotQuestion) => Wide(q, answers);
    var count := (g: Group) => CountOf(wide, g.questions);
    ListedGroupFlags(Groups(s), answers, f, count);
    CountByGroup(s, wide, count);
    if q :| q in s.questions && Tells(f, q, answers) {
      Grouped(s, q);
      var g :| g in Groups(s) && q in g.questions;
      ListedFlags(g.questions, answers, f);
    }
    if g :| g in Groups(s) && f in AllFlags(g.questions, answers) {
      GroupMembers(s, g);
      ListedFlags(g.questions, answers, f);
    }
  }

  // ----- Items ------------------------------------------------------------------------------

  /** Choosing an option of a choice scale earns all for the role's value, half for the one next to it, or nothing. */
  lemma ChoiceEarns(q: SnapshotQuestion, answers: Answers, j: nat)
    requires q.kind == ChoiceScale && DistinctOptions(q.options) && j < |q.options|
    requires q.id in answers && answers[q.id] == q.options[j].id
    requires q.options[j].value.Some? && q.employerValue.Some?
    ensures var chosen, role, earned := q.options[j].value.value, q.employerValue.value, Earned(q, answers);
      && (earned == 1.0 <==> chosen == role)
      && (earned == 0.5 <==> chosen == role + 1 || role == chosen + 1)
      && (earned == 0.0 <==> chosen > role + 1 || role > chosen + 1)
  {
    ChosenById(q, answers, j);
  }

  lemma {:induction false} ValueListed(options: seq<SnapshotOption>, o: SnapshotOption)
    requires o in options && o.value.Some?
    ensures o.value.value in Values(options)
  {
    if o != options[0] { ValueListed(options[1..], o); }
  }

  lemma {:induction false} ValueHeld(options: seq<SnapshotOption>, v: int)
    requires v in Values(options)
    ensures exists o <- options :: o.value == Some(v)
  {
    if options[0].value != Some(v) { ValueHeld(options[1..], v); }
  }

  /** The options' values go from `low` to `high`. */
  predicate GoFrom(options: seq<SnapshotOption>, low: int, high: int) {
    && (exists o <- options :: o.value == Some(low)) && (exists o <- options :: o.value == Some(high))
    && forall o <- options :: o.value.Some? ==> low <= o.value.value <= high
  }

  lemma SpanIs(options: seq<SnapshotOption>, low: int, high: int)
    requires GoFrom(options, low, high)
    ensures Span(options) == high - low
  {
    var bottom :| bottom in options && bottom.value == Some(low);
    var top :| top in options && top.value == Some(high);
    ValueListed(options, bottom);
    ValueListed(options, top);
    var values := Values(options);
    ValueHeld(options, MaxOf(values));
    ValueHeld(options, MinOf(values));
  }

  /**
   * Choosing an option of a rating scale whose values go from `low` to `high`
   * earns one less its distance from the role's value as a part of the whole
   * scale, and never less than nothing; on a scale of one value it earns all.
   */
  lemma RatingEarns(q: SnapshotQuestion, answers: Answers, j: nat, low: int, high: int)
    requires q.kind == RatingScale && DistinctOptions(q.options) && j < |q.options| && GoFrom(q.options, low, high)
    requires q.id in answers && answers[q.id] == q.options[j].id
    requires q.options[j].value.Some? && q.employerValue.Some?
    ensures var chosen, role, earned := q.options[j].value.value, q.employerValue.value, Earned(q, answers);
      var away := if chosen < role then role - chosen else chosen - role;
      && (low == high ==> earned == 1.0)
      && (low < high && away <= high - low ==> earned == 1.0 - away as real / (high - low) as real)
      && (low < high && away >= high - low ==> earned == 0.0)
  {
    ChosenById(q, answers, j);
    SpanIs(q.options, low, high);
    var gap := Abs(q.options[j].value.value - q.employerValue.value);
    if low < high { PartOf(gap as real, (high - low) as real); }
  }

  lemma PartOf(part: real, whole: real)
    requires 0.0 <= part && whole > 0.0
    ensures part <= whole <==> part / whole <= 1.0
    ensures part == whole <==> part / whole == 1.0
  {
  }

  /** With values that climb, as every sendable scale's do, the first and last option are its ends. */
  lemma ClimbingGoes(options: seq<SnapshotOption>)
    requires options != [] && forall o <- options :: o.value.Some?
    requires forall i, j :: 0 <= i < j < |options| ==> options[i].value.value < options[j].value.value
    ensures GoFrom(options, options[0].value.value, options[|options| - 1].value.value)
  {
    forall o | o in options
      ensures options[0].value.value <= o.value.value <= options[|options| - 1].value.value
    {
      var i :| 0 <= i < |options| && options[i] == o;
    }
  }

  /** The two ends of a scale are worth nothing to each other. */
  lemma EndsApart(q: SnapshotQuestion, answers: Answers, first: bool)
    requires q.kind == RatingScale && DistinctOptions(q.options) && |q.options| > 1
    requires forall o <- q.options :: o.value.Some?
    requires forall i, j :: 0 <= i < j < |q.options| ==> q.options[i].value.value < q.options[j].value.value
    requires var n := |q.options| - 1;
      && q.id in answers && answers[q.id] == q.options[if first then 0 else n].id
      && q.employerValue == q.options[if first then n else 0].value
    ensures Earned(q, answers) == 0.0
  {
    var n := |q.options| - 1;
    ClimbingGoes(q.options);
    RatingEarns(q, answers, if first then 0 else n, q.options[0].value.value, q.options[n].value.value);
  }

  // ----- Means ------------------------------------------------------------------------------

  lemma MeanTimes(total: real, count: nat)
    ensures Mean(total, count) * count as real == if count > 0 then total else 0.0
  {
  }

  /** The questions under a section's id, or those of no section listed. */
  function Filed(s: Snapshot, id: Option<Id>): seq<SnapshotQuestion> {
    match id
    case Some(section) => Filter(InSection(section), s.questions)
    case None => Filter(InNone(s.sections), s.questions)
  }

  /** The result of a section goes by the section's name and weight. */
  predicate GoesBy(s: Snapshot, x: SectionScore) {
    match x.sectionId
    case Some(id) =>
      exists section <- s.sections :: section.id == id && x.name == section.name && x.weight == section.weight
    case None => x.name == "Other questions" && x.weight == None
  }

  lemma GroupIs(s: Snapshot, k: nat)
    requires k <= |s.sections|
    ensures |AllGroups(s)| == |s.sections| + 1
    ensures var g := AllGroups(s)[k];
      && g.questions == Filed(s, g.sectionId)
      && (k < |s.sections| ==>
        g == Group(Some(s.sections[k].id), s.sections[k].name, s.sections[k].weight, g.questions))
      && (k == |s.sections| ==> g == Group(None, "Other questions", None, g.questions))
  {
    BlocksAre(s.questions, s.sections, k);
  }

  lemma GroupGoesBy(s: Snapshot, g: Group)
    requires g in Groups(s)
    ensures g.questions == Filed(s, g.sectionId) != []
    ensures forall x: SectionScore ::
      x.sectionId == g.sectionId && x.name == g.name && x.weight == g.weight ==> GoesBy(s, x)
  {
    assert g in AllGroups(s) && HasQuestions(g);
    var k :| 0 <= k < |AllGroups(s)| && AllGroups(s)[k] == g;
    GroupIs(s, k);
    if k < |s.sections| { assert s.sections[k] in s.sections; }
  }

  /** What a section's result counts, of the questions filed under it. */
  ghost predicate CountsOf(x: SectionScore, questions: seq<SnapshotQuestion>, answers: Answers,
    scoring: ScoringMethod) {
    && x.total == |questions| > 0
    && match scoring
       case CorrectAnswer =>
         var correct := CountOf((q: SnapshotQuestion) => Right(q, answers), questions);
         && x.answered == CountOf((q: SnapshotQuestion) => Answered(q, answers), questions)
         && x.correct == Some(correct) && x.score * x.total as real == correct as real
       case Alignment =>
         && x.answered == CountOf((q: SnapshotQuestion) => Compared(q, answers), questions) && x.correct == None
         && x.score * x.answered as real == Sum((q: SnapshotQuestion) => Earned(q, answers), questions)
         && (x.answered == 0 ==> x.score == 0.0)
  }

  lemma {:induction false} NothingEarned(questions: seq<SnapshotQuestion>, answers: Answers)
    requires CountCompared(questions, answers) == 0
    ensures TotalEarned(questions, answers) == 0.0
  {
    if questions != [] { NothingEarned(questions[1..], answers); }
  }

  lemma CorrectCounts(g: Group, answers: Answers)
    requires HasQuestions(g)
    ensures CountsOf(CorrectSection(g, answers), g.questions, answers, CorrectAnswer)
  {
    ShareOf(CountRight(g.questions, answers), |g.questions|);
  }

  lemma ShareOf(part: nat, whole: nat)
    requires part <= whole && whole > 0
    ensures Ratio(part, whole) * whole as real == part as real
  {
  }

  lemma AlignmentCounts(g: Group, answers: Answers)
    requires HasQuestions(g)
    ensures CountsOf(AlignmentSection(g, answers), g.questions, answers, Alignment)
  {
    MeanOf(g.questions, answers);
  }

  lemma MeanOf(questions: seq<SnapshotQuestion>, answers: Answers)
    ensures var total, n := TotalEarned(questions, answers), CountCompared(questions, answers);
      Mean(total, n) * n as real == total && (n == 0 ==> Mean(total, n) == 0.0)
  {
    MeanTimes(TotalEarned(questions, answers), CountCompared(questions, answers));
    if CountCompared(questions, answers) == 0 { NothingEarned(questions, answers); }
  }

  /**
   * Every section's result is about the questions filed under it: how many
   * there are and were answered, and the share that was right, or the mean of
   * what those compared with the role's profile earned.
   */
  lemma SectionsCount(s: Snapshot, answers: Answers, x: SectionScore)
    requires x in ScoreAttempt(s, answers).sections
    ensures GoesBy(s, x) && CountsOf(x, Filed(s, x.sectionId), answers, s.scoringMethod)
  {
    var groups := Groups(s);
    var i :| 0 <= i < |groups| && ScoreAttempt(s, answers).sections[i] == x;
    GroupGoesBy(s, groups[i]);
    if s.scoringMethod == Alignment { AlignmentCounts(groups[i], answers); } else { CorrectCounts(groups[i], answers); }
  }

  function IdOf(x: SectionScore): Option<Id> { x.sectionId }

  lemma {:induction false} MapFilter<A, B>(f: A -> B, p: A -> bool, q: B -> bool, s: seq<A>)
    requires forall x <- s :: p(x) == q(f(x))
    ensures Map(f, Filter(p, s)) == Filter(q, Map(f, s))
  {
    if s != [] {
      MapFilter(f, p, q, s[1..]);
      MapHead(f, s);
      if p(s[0]) { MapHead(f, Filter(p, s)); }
    }
  }

  /** The results come in the order of the sections, the rest last, and those without questions are left out. */
  lemma SectionsInOrder(s: Snapshot, answers: Answers)
    ensures Map(IdOf, ScoreAttempt(s, answers).sections)
      == Filter((id: Option<Id>) => Filed(s, id) != [], Map((x: SnapshotSection) => Some(x.id), s.sections) + [None])
  {
    var id := (g: Group) => g.sectionId;
    var filed := (id: Option<Id>) => Filed(s, id) != [];
    var all := AllGroups(s);
    forall k | 0 <= k < |all| ensures HasQuestions(all[k]) == filed(id(all[k])) { GroupIs(s, k); }
    assert Map(id, all) == Map((x: SnapshotSection) => Some(x.id), s.sections) + [None];
    MapFilter(id, HasQuestions, filed, all);
    assert Map(IdOf, ScoreAttempt(s, answers).sections) == Map(id, Groups(s));
  }

  /** What a section with a weight above nothing counts for. */
  function Weight(x: SectionScore): real {
    if x.weight.Some? && x.weight.value > 0.0 then x.weight.value else 0.0
  }

  /** The mean of the sections by weight, or the plain mean when none has one. */
  ghost predicate IsMeanOf(score: real, sections: seq<SectionScore>) {
    var total := Sum(Weight, sections);
    if total > 0.0 then score * total == Sum((x: SectionScore) => Weight(x) * x.score, sections)
    else score * |sections| as real == Sum((x: SectionScore) => x.score, sections)
  }

  lemma {:induction false} WeightTotal(sections: seq<SectionScore>)
    ensures Sum(Weight, sections) == WeightIn(Filter(Weighted, sections)) >= 0.0
    ensures Filter(Weighted, sections) == [] <==> Sum(Weight, sections) == 0.0
  {
    if sections != [] { WeightTotal(sections[1..]); }
  }

  lemma {:induction false} WeightedTotal(sections: seq<SectionScore>)
    ensures Sum((x: SectionScore) => Weight(x) * x.score, sections) == WeightedScore(Filter(Weighted, sections))
  {
    if sections != [] { WeightedTotal(sections[1..]); }
  }

  lemma MeanOfSections(sections: seq<SectionScore>)
    ensures IsMeanOf(AlignmentScore(sections), sections)
  {
    WeightTotal(sections);
    WeightedTotal(sections);
    WeightPositive(Filter(Weighted, sections));
    if Filter(Weighted, sections) == [] { MeanTimes(ScoreIn(sections), |sections|); }
  }

  /** The overall alignment score is a mean of the section scores. */
  lemma AlignmentScoreIsMean(s: Snapshot, answers: Answers)
    requires s.scoringMethod == Alignment
    ensures IsMeanOf(ScoreAttempt(s, answers).score, ScoreAttempt(s, answers).sections)
  {
    MeanOfSections(AlignmentSections(Groups(s), answers));
  }

  predicate OffersValue(q: SnapshotQuestion, id: Id) { exists o <- q.options :: o.id == id && o.value.Some? }

  /** An answer counts when it is one of the question's options, and is compared when that and the role have a value. */
  lemma AnsweredWhen(q: SnapshotQuestion, answers: Answers)
    ensures Answered(q, answers) <==> q.id in answers && exists o <- q.options :: o.id == answers[q.id]
    ensures DistinctOptions(q.options) ==>
      && (Right(q, answers) <==> q.id in answers && exists o <- q.options :: o.id == answers[q.id] && o.isCorrect)
      && (Compared(q, answers)
        <==> q.id in answers && q.employerValue.Some? && OffersValue(q, answers[q.id]))
    ensures !Compared(q, answers) ==> Earned(q, answers) == 0.0
  {
    if q.id in answers {
      var at := Find((o: SnapshotOption) => o.id == answers[q.id], q.options);
      forall o | o in q.options && o.id == answers[q.id]
        ensures at < |q.options| && (DistinctOptions(q.options) ==> o == q.options[at])
      {
        var i :| 0 <= i < |q.options| && q.options[i] == o;
      }
    }
  }

  // ----- Full marks -------------------------------------------------------------------------

  lemma Whole(part: real, whole: real)
    requires 0.0 <= part && whole > 0.0
    ensures part / whole >= 0.0
    ensures part / whole == 0.0 <==> part == 0.0
    ensures part / whole == 1.0 <==> part == whole
  {
  }

  /** A compared item earns all exactly at the role's value. */
  lemma EarnsAll(q: SnapshotQuestion, answers: Answers)
    requires HasKey(q, Alignment) && Compared(q, answers)
    ensures Earned(q, answers) == 1.0 <==> ChosenValue(q, answers) == q.employerValue
  {
    var o, key := Chosen(q, answers).value, q.options[TakeView.KeyIndex(q)];
    ValueListed(q.options, o);
    ValueListed(q.options, key);
    var gap := Abs(o.value.value - key.value.value);
    if Span(q.options) > 0 { Whole(gap as real, Span(q.options) as real); }
  }

  /** Every compared item of the section is at the role's value, and there is one. */
  ghost predicate AtRole(g: Group, answers: Answers) {
    && (exists q <- g.questions :: Compared(q, answers))
    && forall q <- g.questions :: OnlyAtRole(q, answers)
  }

  /** What is compared is at the role's value. */
  predicate OnlyAtRole(q: SnapshotQuestion, answers: Answers) {
    Compared(q, answers) ==> ChosenValue(q, answers) == q.employerValue
  }

  lemma ItemFull(q: SnapshotQuestion, answers: Answers)
    requires HasKey(q, Alignment)
    ensures Earned(q, answers) <= (if Compared(q, answers) then 1.0 else 0.0)
    ensures Earned(q, answers) == (if Compared(q, answers) then 1.0 else 0.0) <==> OnlyAtRole(q, answers)
  {
    if Compared(q, answers) {
      EarnsAll(q, answers);
      EarnsAtMostOne(q, answers);
    }
  }

  lemma NearAtMostOne(q: SnapshotQuestion, gap: nat)
    ensures Nearness(q, gap) <= 1.0
  {
    if q.kind != ChoiceScale && Span(q.options) > 0 { Whole(gap as real, Span(q.options) as real); }
  }

  lemma EarnsAtMostOne(q: SnapshotQuestion, answers: Answers)
    ensures Earned(q, answers) <= 1.0
  {
    if Compared(q, answers) { NearAtMostOne(q, Abs(ChosenValue(q, answers).value - q.employerValue.value)); }
  }

  lemma {:induction false} EarnedFull(questions: seq<SnapshotQuestion>, answers: Answers)
    requires forall q <- questions :: HasKey(q, Alignment)
    ensures TotalEarned(questions, answers) == CountCompared(questions, answers) as real
      <==> forall q <- questions :: OnlyAtRole(q, answers)
  {
    if questions != [] {
      var q := questions[0];
      assert q in questions && forall x <- questions :: x == q || x in questions[1..];
      EarnedFull(questions[1..], answers);
      EarnedAtMost(questions[1..], answers);
      ItemFull(q, answers);
    }
  }

  lemma {:induction false} SomeCounted<A>(p: A -> bool, s: seq<A>)
    ensures CountOf(p, s) > 0 <==> exists x <- s :: p(x)
  {
    if s != [] { SomeCounted(p, s[1..]); }
  }

  lemma SectionFull(g: Group, answers: Answers)
    requires forall q <- g.questions :: HasKey(q, Alignment)
    ensures AlignmentSection(g, answers).score == 1.0 <==> AtRole(g, answers)
  {
    EarnedFull(g.questions, answers);
    SomeCounted((q: SnapshotQuestion) => Compared(q, answers), g.questions);
    EarnedAtMost(g.questions, answers);
    var count := CountCompared(g.questions, answers);
    if count > 0 { Whole(TotalEarned(g.questions, answers), count as real); }
  }

  lemma {:induction false} SumFull<A>(f: A -> real, g: A -> real, s: seq<A>)
    requires forall x <- s :: f(x) <= g(x)
    ensures Sum(f, s) <= Sum(g, s) && (Sum(f, s) == Sum(g, s) <==> forall x <- s :: f(x) == g(x))
  {
    if s != [] {
      SumFull(f, g, s[1..]);
      assert s[0] in s && forall x <- s :: x == s[0] || x in s[1..];
    }
  }

  lemma WeightedFull(sections: seq<SectionScore>)
    requires forall x <- sections :: Weighted(x) && Fraction(x.score)
    ensures WeightedScore(sections) == WeightIn(sections) <==> forall x <- sections :: x.score == 1.0
  {
    forall x | x in sections
      ensures Share(x) <= x.weight.GetOr(0.0) && (Share(x) == x.weight.GetOr(0.0) <==> x.score == 1.0)
    {
      Product(x.weight.GetOr(0.0), x.score);
    }
    SumFull(Share, (x: SectionScore) => x.weight.GetOr(0.0), sections);
  }

  lemma Product(weight: real, score: real)
    requires weight > 0.0 && Fraction(score)
    ensures weight * score <= weight && (weight * score == weight <==> score == 1.0)
  {
  }

  lemma {:induction false} PlainFull(sections: seq<SectionScore>)
    requires forall x <- sections :: Fraction(x.score)
    ensures ScoreIn(sections) == |sections| as real <==> forall x <- sections :: x.score == 1.0
  {
    if sections != [] {
      var x := sections[0];
      assert x in sections && forall y <- sections :: y == x || y in sections[1..];
      PlainFull(sections[1..]);
      ScoresAtMost(sections[1..]);
    }
  }

  /** A section counts towards the score: those with a weight, or all when none has one. */
  ghost predicate Counting(sections: seq<SectionScore>, x: SectionScore) {
    Weighted(x) || forall y <- sections :: !Weighted(y)
  }

  lemma MeanFull(sections: seq<SectionScore>)
    requires sections != [] && forall x <- sections :: Fraction(x.score)
    ensures AlignmentScore(sections) == 1.0 <==> forall x <- sections :: Counting(sections, x) ==> x.score == 1.0
  {
    var weighted := Filter(Weighted, sections);
    WeightPositive(weighted);
    if weighted != [] {
      assert weighted[0] in sections && Weighted(weighted[0]);
      assert forall x <- sections :: Counting(sections, x) <==> x in weighted;
      WeightedFull(weighted);
      WeightedAtMost(weighted);
      Whole(WeightedScore(weighted), WeightIn(weighted));
    } else {
      assert forall x <- sections :: Weighted(x) ==> x in weighted;
      PlainFull(sections);
      ScoresAtMost(sections);
      Whole(ScoreIn(sections), |sections| as real);
    }
  }

  /** A section counts towards the score: those with a weight, or all when none has one. */
  ghost predicate CountsIn(groups: seq<Group>, g: Group) {
    g.weight.GetOr(0.0) > 0.0 || forall h <- groups :: h.weight.GetOr(0.0) <= 0.0
  }

  lemma CountingGroup(groups: seq<Group>, answers: Answers, k: nat)
    requires k < |groups|
    ensures var sections := AlignmentSections(groups, answers);
      Counting(sections, sections[k]) <==> CountsIn(groups, groups[k])
  {
    var sections := AlignmentSections(groups, answers);
    if forall y <- sections :: !Weighted(y) {
      forall h | h in groups ensures h.weight.GetOr(0.0) <= 0.0 {
        var i :| 0 <= i < |groups| && groups[i] == h;
        assert sections[i] in sections && !Weighted(sections[i]);
      }
    }
    if forall h <- groups :: h.weight.GetOr(0.0) <= 0.0 {
      forall y | y in sections ensures !Weighted(y) {
        var i :| 0 <= i < |sections| && sections[i] == y;
        assert groups[i] in groups;
      }
    }
  }

  /**
   * The score is 1 exactly when every section that counts has a compared item, and all of
   * its compared items are at the role's value.
   */
  lemma FullMarks(s: Snapshot, answers: Answers)
    requires Sendable(s) && s.scoringMethod == Alignment
    ensures ScoreAttempt(s, answers).score == 1.0
      <==> forall g <- Groups(s) :: CountsIn(Groups(s), g) ==> AtRole(g, answers)
  {
    var groups := Groups(s);
    var sections := AlignmentSections(groups, answers);
    SomeGroup(s);
    ScoresAreFractions(s, answers);
    SendableHasKeys(s);
    MeanFull(sections);
    forall k | 0 <= k < |groups|
      ensures Counting(sections, sections[k]) <==> CountsIn(groups, groups[k])
      ensures sections[k].score == 1.0 <==> AtRole(groups[k], answers)
    {
      CountingGroup(groups, answers, k);
      GroupMembers(s, groups[k]);
      SectionFull(groups[k], answers);
    }
  }
}
