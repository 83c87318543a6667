/** Questions in the canonical format: what normalizing fills in, and what the rules refuse. */
module Questions {
  import opened Basics
  import opened Text

  datatype QuestionType = SingleChoice | TrueFalse | RatingScale | ChoiceScale
  datatype ScoringMethod = CorrectAnswer | Alignment
  datatype Difficulty = Easy | Medium | Hard

  datatype CanonicalOption = CanonicalOption(
    caption: Option<string>,
    text: string,
    employerText: Option<string>,
    value: Option<int>,
    correct: bool
  )

  datatype CanonicalMedia = CanonicalMedia(file: Option<string>, assetId: Option<string>)

  datatype CanonicalQuestion = CanonicalQuestion(
    ref: Option<string>,
    section: Option<string>,
    kind: QuestionType,
    difficulty: Option<Difficulty>,
    instruction: Option<string>,
    context: Option<string>,
    stem: string,
    media: Option<CanonicalMedia>,
    options: seq<CanonicalOption>,
    rationale: Option<string>,
    transcript: Option<string>,
    shuffleOptions: Option<bool>,
    keepLastOptionFixed: bool,
    employerPrompt: Option<string>,
    employerValue: Option<int>
  )

  const OPTION_LETTERS := "ABCDEF"
  const MAX_CHOICE_OPTIONS := 6
  const MIN_SCALE_POINTS := 2
  const MAX_SCALE_POINTS := 7
  const ALIGNMENT_FLAG_GAP := 2

  predicate IsScale(kind: QuestionType) {
    kind == RatingScale || kind == ChoiceScale
  }

  /** The question types a test can hold. */
  function QuestionTypesFor(scoring: ScoringMethod): set<QuestionType> {
    match scoring
    case CorrectAnswer => {SingleChoice, TrueFalse}
    case Alignment => {RatingScale, ChoiceScale}
  }

  function ShufflesOptions(kind: QuestionType, question: Option<bool>, test: bool): bool {
    if kind != SingleChoice then false else question.GetOr(test)
  }

  function BlankToNull(value: Option<string>): (r: Option<string>)
    ensures r.Some? ==> Trimmed(r.value) && r.value != ""
    ensures r == value <==> (value.Some? ==> Trimmed(value.value) && value.value != "")
  {
    match value
    case None => None
    case Some(text) => if Trim(text) == "" then None else Some(Trim(text))
  }

  /** Optional text as requests leave it: trimmed, with blank text as none. */
  predicate Plain(text: Option<string>) { BlankToNull(text) == text }

  function PlainOption(text: string): CanonicalOption {
    CanonicalOption(None, text, None, None, false)
  }

  const TRUE_FALSE_OPTIONS := [PlainOption("True"), PlainOption("False")]

  function LetterAt(index: nat): string {
    if index < |OPTION_LETTERS| then [OPTION_LETTERS[index]] else NumberText(index + 1)
  }

  function NormalizeOption(scale: bool, option: CanonicalOption, index: nat): CanonicalOption {
    if scale then
      var value := option.value.GetOr(index + 1);
      CanonicalOption(Some(NumberText(value)), Trim(option.text), BlankToNull(option.employerText), Some(value), false)
    else
      CanonicalOption(Some(LetterAt(index)), Trim(option.text), None, None, option.correct)
  }

  /** The options to normalize: True and False when a True/False question lists none. */
  function OptionSource(kind: QuestionType, options: seq<CanonicalOption>): seq<CanonicalOption> {
    if kind == TrueFalse && options == [] then TRUE_FALSE_OPTIONS else options
  }

  function NormalizeOptions(kind: QuestionType, options: seq<CanonicalOption>): (r: seq<CanonicalOption>)
    ensures |r| == |OptionSource(kind, options)|
    ensures forall i :: 0 <= i < |r| ==> r[i] == NormalizeOption(IsScale(kind), OptionSource(kind, options)[i], i)
  {
    var source := OptionSource(kind, options);
    seq(|source|, i requires 0 <= i < |source| => NormalizeOption(IsScale(kind), source[i], i))
  }

  function NormalizeMedia(media: Option<CanonicalMedia>): Option<CanonicalMedia> {
    match media
    case None => None
    case Some(m) =>
      var file, assetId := BlankToNull(m.file), BlankToNull(m.assetId);
      if file.Some? || assetId.Some? then Some(CanonicalMedia(file, assetId)) else None
  }

  function Normalize(q: CanonicalQuestion): CanonicalQuestion {
    var scale := IsScale(q.kind);
    CanonicalQuestion(
      BlankToNull(q.ref),
      BlankToNull(q.section),
      q.kind,
      q.difficulty,
      BlankToNull(q.instruction),
      BlankToNull(q.context),
      Trim(q.stem),
      NormalizeMedia(q.media),
      NormalizeOptions(q.kind, q.options),
      BlankToNull(q.rationale),
      BlankToNull(q.transcript),
      q.shuffleOptions,
      q.keepLastOptionFixed,
      if scale then BlankToNull(q.employerPrompt) else None,
      if scale then q.employerValue else None
    )
  }

  /** What normalizing leaves alone. */
  predicate Normal(q: CanonicalQuestion) { Normalize(q) == q }

  /** Normalizing is finished after one go, so a stored question survives every later save. */
  lemma NormalizeIdempotent(q: CanonicalQuestion)
    ensures Normal(Normalize(q))
  {
    var once, scale := NormalizeOptions(q.kind, q.options), IsScale(q.kind);
    var source := OptionSource(q.kind, q.options);
    forall i | 0 <= i < |once|
      ensures NormalizeOption(scale, once[i], i) == once[i]
    {
    }
    assert NormalizeOptions(q.kind, once) == once;
    assert NormalizeMedia(NormalizeMedia(q.media)) == NormalizeMedia(q.media);
  }

  // ----- The rules --------------------------------------------------------------

  datatype Problem =
    | WriteTheQuestion
    | WrongMethod
    | AddTwoOptions
    | TooManyOptions
    | BlankOption
    | NotOneCorrect
    | NotTwoOptions
    | TrueFalseUnmarked
    | WrongPointCount
    | BlankChoice
    | ValuesNotIncreasing
    | NoRoleAnswer

  function CorrectCount(options: seq<CanonicalOption>): nat {
    |Filter((o: CanonicalOption) => o.correct, options)|
  }

  predicate SomeBlank(options: seq<CanonicalOption>) {
    exists o <- options :: o.text == ""
  }

  /** Whole numbers, each above the one before. */
  predicate Increasing(options: seq<CanonicalOption>) {
    forall i :: 0 <= i < |options| ==>
      && options[i].value.Some?
      && (i == 0 || (options[i - 1].value.Some? && options[i].value.value > options[i - 1].value.value))
  }

  predicate HasValue(options: seq<CanonicalOption>, value: Option<int>) {
    value.Some? && exists o <- options :: o.value == value
  }

  function Push(problems: seq<Problem>, condition: bool, problem: Problem): (r: seq<Problem>)
    ensures r == [] <==> problems == [] && !condition
  {
    if condition then problems + [problem] else problems
  }

  function QuestionProblems(q: CanonicalQuestion, scoring: ScoringMethod): seq<Problem> {
    var n := |q.options|;
    var unmarked := CorrectCount(q.options) != 1;
    var p := Push(Push([], q.stem == "", WriteTheQuestion), q.kind !in QuestionTypesFor(scoring), WrongMethod);
    match q.kind
    case SingleChoice =>
      var sized := Push(Push(p, n < 2, AddTwoOptions), n > MAX_CHOICE_OPTIONS, TooManyOptions);
      Push(Push(sized, SomeBlank(q.options), BlankOption), unmarked, NotOneCorrect)
    case TrueFalse =>
      Push(Push(p, n != 2, NotTwoOptions), unmarked, TrueFalseUnmarked)
    case _ =>
      var max := if q.kind == RatingScale then MAX_SCALE_POINTS else MAX_CHOICE_OPTIONS;
      var sized := Push(p, n < MIN_SCALE_POINTS || n > max, WrongPointCount);
      var worded := Push(sized, q.kind == ChoiceScale && SomeBlank(q.options), BlankChoice);
      Push(Push(worded, !Increasing(q.options), ValuesNotIncreasing),
           !HasValue(q.options, q.employerValue), NoRoleAnswer)
  }

  method CheckQuestion(q: CanonicalQuestion, scoring: ScoringMethod) returns (problems: seq<Problem>)
    ensures problems == QuestionProblems(q, scoring)
  {
    problems := [];
    if q.stem == "" { problems := problems + [WriteTheQuestion]; }
    if q.kind !in QuestionTypesFor(scoring) { problems := problems + [WrongMethod]; }
    var n := |q.options|;
    match q.kind {
      case SingleChoice =>
        if n < 2 { problems := problems + [AddTwoOptions]; }
        if n > MAX_CHOICE_OPTIONS { problems := problems + [TooManyOptions]; }
        if SomeBlank(q.options) { problems := problems + [BlankOption]; }
        if CorrectCount(q.options) != 1 { problems := problems + [NotOneCorrect]; }
      case TrueFalse =>
        if n != 2 { problems := problems + [NotTwoOptions]; }
        if CorrectCount(q.options) != 1 { problems := problems + [TrueFalseUnmarked]; }
      case _ =>
        var rating := q.kind == RatingScale;
        var max := if rating then MAX_SCALE_POINTS else MAX_CHOICE_OPTIONS;
        if n < MIN_SCALE_POINTS || n > max { problems := problems + [WrongPointCount]; }
        if !rating && SomeBlank(q.options) { problems := problems + [BlankChoice]; }
        if !Increasing(q.options) { problems := problems + [ValuesNotIncreasing]; }
        if !HasValue(q.options, q.employerValue) { problems := problems + [NoRoleAnswer]; }
    }
  }

  /** A question a test scored by `scoring` can hold and send, said outright. */
  predicate Ready(q: CanonicalQuestion, scoring: ScoringMethod) {
    && q.stem != ""
    && (scoring == Alignment <==> IsScale(q.kind))
    && match q.kind
       case SingleChoice =>
         2 <= |q.options| <= 6 && !SomeBlank(q.options) && CorrectCount(q.options) == 1
       case TrueFalse =>
         |q.options| == 2 && q.options[0].correct != q.options[1].correct
       case RatingScale =>
         2 <= |q.options| <= 7 && Climbing(q.options) && HasValue(q.options, q.employerValue)
       case ChoiceScale =>
         2 <= |q.options| <= 6 && !SomeBlank(q.options) && Climbing(q.options)
         && HasValue(q.options, q.employerValue)
  }

  /** Every option has a value, and any later option has a larger one. */
  predicate Climbing(options: seq<CanonicalOption>) {
    && (forall o <- options :: o.value.Some?)
    && forall i, j :: 0 <= i < j < |options| ==> options[i].value.value < options[j].value.value
  }

  lemma {:induction false} IncreasingClimbs(options: seq<CanonicalOption>)
    ensures Increasing(options) <==> Climbing(options)
  {
    if options != [] {
      var last := |options| - 1;
      var init := options[..last];
      IncreasingClimbs(init);
      forall o | o in init ensures o in options {}
      if Increasing(options) {
        assert Increasing(init);
        forall i | 0 <= i < last
          ensures options[i].value.Some? && options[i].value.value < options[last].value.value
        {
          assert init[i] in init && init[last - 1] in init;
        }
      }
    }
  }

  lemma CorrectOfTwo(options: seq<CanonicalOption>)
    requires |options| == 2
    ensures CorrectCount(options) == 1 <==> options[0].correct != options[1].correct
  {
    var f := (o: CanonicalOption) => o.correct;
    assert options == [options[0], options[1]];
    assert Filter(f, options[1..]) == if options[1].correct then [options[1]] else [];
  }

  /** A count of one: the first marked option is the only one. */
  lemma {:induction false} OneCorrect(options: seq<CanonicalOption>)
    requires CorrectCount(options) == 1
    ensures var at := Find((o: CanonicalOption) => o.correct, options);
      at < |options| && forall i :: 0 <= i < |options| ==> options[i].correct == (i == at)
  {
    var f := (o: CanonicalOption) => o.correct;
    if options[0].correct {
      assert Filter(f, options[1..]) == [];
      forall i | 1 <= i < |options| ensures !options[i].correct {
        assert options[1..][i - 1] in options[1..];
      }
    } else {
      OneCorrect(options[1..]);
      forall i | 1 <= i < |options| ensures options[i] == options[1..][i - 1] {}
    }
  }

  /** No problems are reported exactly for the questions that are ready. */
  lemma ProblemFree(q: CanonicalQuestion, scoring: ScoringMethod)
    ensures QuestionProblems(q, scoring) == [] <==> Ready(q, scoring)
  {
    match q.kind {
      case SingleChoice =>
      case TrueFalse => if |q.options| == 2 { CorrectOfTwo(q.options); }
      case _ => IncreasingClimbs(q.options);
    }
  }

  /** A question without problems is of a kind its scoring method allows, and the other one does not. */
  lemma KindFits(q: CanonicalQuestion, scoring: ScoringMethod, other: ScoringMethod)
    requires QuestionProblems(q, scoring) == [] && other != scoring
    ensures q.kind in QuestionTypesFor(scoring) && q.kind !in QuestionTypesFor(other)
  {
  }

  /** A question that is ready for one scoring method is ready for no other. */
  lemma MethodsExclude(q: CanonicalQuestion)
    ensures !(QuestionProblems(q, CorrectAnswer) == [] && QuestionProblems(q, Alignment) == [])
  {
  }
}
