/** What normalizing makes of a question, and when each of its problems is listed. */
module QuestionLaws {
  import opened Basics
  import opened Text
  import opened Questions

  // ----- Normalizing ------------------------------------------------------------------

  /** The text without the white space at its ends. */
  ghost predicate IsTrim(raw: string, text: string) {
    Trimmed(text) && exists before, after :: raw == before + (text + after) && AllSpace(before) && AllSpace(after)
  }

  /** Optional text, trimmed, with text of white space alone as none. */
  ghost predicate IsTidy(raw: Option<string>, text: Option<string>) {
    match text
    case None => raw == None || AllSpace(raw.value)
    case Some(t) => t != "" && raw.Some? && IsTrim(raw.value, t)
  }

  lemma Trims(raw: string)
    ensures IsTrim(raw, Trim(raw))
  {
    var before, after := TrimParts(raw);
  }

  lemma Tidies(raw: Option<string>)
    ensures IsTidy(raw, BlankToNull(raw))
  {
    if raw.Some? {
      Trims(raw.value);
      TrimBlank(raw.value);
    }
  }

  /** Option i: on a scale it goes by its value, or by its place when it has none; otherwise by a letter. */
  ghost predicate IsNormalOption(scale: bool, raw: CanonicalOption, i: nat, option: CanonicalOption) {
    && IsTrim(raw.text, option.text)
    && (scale ==>
      && option.value == (match raw.value case None => Some(i + 1) case Some(v) => Some(v))
      && option.caption == Some(NumberText(option.value.value)) && !option.correct
      && IsTidy(raw.employerText, option.employerText))
    && (!scale ==>
      && option.value == None && option.correct == raw.correct && option.employerText == None
      && option.caption == Some(if i < 6 then ["ABCDEF"[i]] else NumberText(i + 1)))
  }

  /** A True/False question that lists no options has the two usual ones, neither of them marked. */
  ghost predicate AreNormalOptions(kind: QuestionType, raw: seq<CanonicalOption>, options: seq<CanonicalOption>) {
    var scale := kind == RatingScale || kind == ChoiceScale;
    if kind == TrueFalse && raw == [] then
      && |options| == 2 && options[0] == CanonicalOption(Some("A"), "True", None, None, false)
      && options[1] == CanonicalOption(Some("B"), "False", None, None, false)
    else |options| == |raw| && forall i :: 0 <= i < |raw| ==> IsNormalOption(scale, raw[i], i, options[i])
  }

  ghost predicate IsNormalMedia(raw: Option<CanonicalMedia>, media: Option<CanonicalMedia>) {
    match media
    case None => raw == None || (IsTidy(raw.value.file, None) && IsTidy(raw.value.assetId, None))
    case Some(m) =>
      && raw.Some? && IsTidy(raw.value.file, m.file) && IsTidy(raw.value.assetId, m.assetId)
      && (m.file.Some? || m.assetId.Some?)
  }

  /** All that normalizing does: it tidies the texts, settles the options, and drops what the type has no use for. */
  ghost predicate IsNormalOf(raw: CanonicalQuestion, q: CanonicalQuestion) {
    var scale := raw.kind == RatingScale || raw.kind == ChoiceScale;
    && IsTidy(raw.ref, q.ref) && IsTidy(raw.section, q.section) && q.kind == raw.kind && q.difficulty == raw.difficulty
    && IsTidy(raw.instruction, q.instruction) && IsTidy(raw.context, q.context) && IsTrim(raw.stem, q.stem)
    && IsNormalMedia(raw.media, q.media) && AreNormalOptions(raw.kind, raw.options, q.options)
    && IsTidy(raw.rationale, q.rationale) && IsTidy(raw.transcript, q.transcript)
    && q.shuffleOptions == raw.shuffleOptions && q.keepLastOptionFixed == raw.keepLastOptionFixed
    && (if scale then IsTidy(raw.employerPrompt, q.employerPrompt) else q.employerPrompt == None)
    && q.employerValue == if scale then raw.employerValue else None
  }

  lemma OptionNormal(scale: bool, raw: CanonicalOption, i: nat)
    ensures IsNormalOption(scale, raw, i, NormalizeOption(scale, raw, i))
  {
    Trims(raw.text);
    Tidies(raw.employerText);
  }

  lemma OptionsNormal(kind: QuestionType, raw: seq<CanonicalOption>)
    ensures AreNormalOptions(kind, raw, NormalizeOptions(kind, raw))
  {
    forall i | 0 <= i < |raw|
      ensures IsNormalOption(IsScale(kind), raw[i], i, NormalizeOption(IsScale(kind), raw[i], i))
    {
      OptionNormal(IsScale(kind), raw[i], i);
    }
    assert Trim("True") == "True" && Trim("False") == "False";
  }

  lemma MediaNormal(raw: Option<CanonicalMedia>)
    ensures IsNormalMedia(raw, NormalizeMedia(raw))
  {
    if raw.Some? {
      Tidies(raw.value.file);
      Tidies(raw.value.assetId);
    }
  }

  lemma NormalizeMeans(raw: CanonicalQuestion)
    ensures IsNormalOf(raw, Normalize(raw))
  {
    Tidies(raw.ref); Tidies(raw.section); Tidies(raw.instruction); Tidies(raw.context); Trims(raw.stem);
    Tidies(raw.rationale); Tidies(raw.transcript); Tidies(raw.employerPrompt);
    MediaNormal(raw.media);
    OptionsNormal(raw.kind, raw.options);
  }

  // ----- Problems ---------------------------------------------------------------------

  /** When a question has this problem. */
  ghost predicate Has(q: CanonicalQuestion, scoring: ScoringMethod, problem: Problem) {
    var n, single, scale := |q.options|, q.kind == SingleChoice, q.kind == RatingScale || q.kind == ChoiceScale;
    match problem
    case WriteTheQuestion => q.stem == ""
    case WrongMethod => if scoring == Alignment then !scale else scale
    case AddTwoOptions => single && n < 2
    case TooManyOptions => single && n > 6
    case BlankOption => single && exists o <- q.options :: o.text == ""
    case NotOneCorrect => single && CorrectCount(q.options) != 1
    case NotTwoOptions => q.kind == TrueFalse && n != 2
    case TrueFalseUnmarked => q.kind == TrueFalse && CorrectCount(q.options) != 1
    case WrongPointCount => scale && (n < 2 || n > if q.kind == RatingScale then 7 else 6)
    case BlankChoice => q.kind == ChoiceScale && exists o <- q.options :: o.text == ""
    case ValuesNotIncreasing => scale && !Climbing(q.options)
    case NoRoleAnswer => scale && (q.employerValue == None || forall o <- q.options :: o.value != q.employerValue)
  }

  /** Among the first problems, which any question can have. */
  function Common(q: CanonicalQuestion, scoring: ScoringMethod): seq<Problem> {
    Push(Push([], q.stem == "", WriteTheQuestion), q.kind !in QuestionTypesFor(scoring), WrongMethod)
  }

  lemma CommonMean(q: CanonicalQuestion, scoring: ScoringMethod, p: Problem)
    ensures p in Common(q, scoring) <==> (p.WriteTheQuestion? || p.WrongMethod?) && Has(q, scoring, p)
  {
  }

  lemma Pushed(problems: seq<Problem>, condition: bool, problem: Problem, p: Problem)
    ensures p in Push(problems, condition, problem) <==> p in problems || (condition && p == problem)
  {
  }

  lemma SingleMeans(q: CanonicalQuestion, scoring: ScoringMethod, p: Problem)
    requires q.kind == SingleChoice
    ensures p in QuestionProblems(q, scoring) <==> Has(q, scoring, p)
  {
    var n, common := |q.options|, Common(q, scoring);
    CommonMean(q, scoring, p);
    var few := Push(common, n < 2, AddTwoOptions);
    var sized := Push(few, n > MAX_CHOICE_OPTIONS, TooManyOptions);
    var worded := Push(sized, SomeBlank(q.options), BlankOption);
    Pushed(common, n < 2, AddTwoOptions, p);
    Pushed(few, n > MAX_CHOICE_OPTIONS, TooManyOptions, p);
    Pushed(sized, SomeBlank(q.options), BlankOption, p);
    Pushed(worded, CorrectCount(q.options) != 1, NotOneCorrect, p);
  }

  lemma TrueFalseMeans(q: CanonicalQuestion, scoring: ScoringMethod, p: Problem)
    requires q.kind == TrueFalse
    ensures p in QuestionProblems(q, scoring) <==> Has(q, scoring, p)
  {
    var common := Common(q, scoring);
    CommonMean(q, scoring, p);
    Pushed(common, |q.options| != 2, NotTwoOptions, p);
    Pushed(Push(common, |q.options| != 2, NotTwoOptions), CorrectCount(q.options) != 1, TrueFalseUnmarked, p);
  }

  /** The problems every scale is checked for, of which the last two are about its values. */
  lemma ScalePushed(common: seq<Problem>, sized: bool, worded: bool, climbs: bool, role: bool, p: Problem)
    ensures var valued :=
        Push(Push(Push(common, sized, WrongPointCount), worded, BlankChoice), climbs, ValuesNotIncreasing);
      p in Push(valued, role, NoRoleAnswer) <==>
        (p in common || (sized && p.WrongPointCount?) || (worded && p.BlankChoice?)
         || (climbs && p.ValuesNotIncreasing?) || (role && p.NoRoleAnswer?))
  {
    Pushed(Push(Push(common, sized, WrongPointCount), worded, BlankChoice), climbs, ValuesNotIncreasing, p);
  }

  lemma ScaleMeans(q: CanonicalQuestion, scoring: ScoringMethod, p: Problem)
    requires q.kind == RatingScale || q.kind == ChoiceScale
    ensures p in QuestionProblems(q, scoring) <==> Has(q, scoring, p)
  {
    var n, max, common := |q.options|, if q.kind == RatingScale then 7 else 6, Common(q, scoring);
    CommonMean(q, scoring, p);
    IncreasingClimbs(q.options);
    ScalePushed(common, n < 2 || n > max, q.kind == ChoiceScale && SomeBlank(q.options), !Increasing(q.options),
      !HasValue(q.options, q.employerValue), p);
  }

  /** Each problem is listed exactly when the question has it. */
  lemma ProblemsMean(q: CanonicalQuestion, scoring: ScoringMethod, p: Problem)
    ensures p in QuestionProblems(q, scoring) <==> Has(q, scoring, p)
  {
    match q.kind {
      case SingleChoice => SingleMeans(q, scoring, p);
      case TrueFalse => TrueFalseMeans(q, scoring, p);
      case _ => ScaleMeans(q, scoring, p);
    }
  }
}
