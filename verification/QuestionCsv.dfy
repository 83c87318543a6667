/**
 * The question CSV format: one row per question under a header row. Printing
 * fills a map of columns; reading maps the header, then rebuilds each question
 * from its cells.
 */
module QuestionCsv {
  import opened Basics
  import opened Text
  import opened Questions
  import Csv
  import CsvLaws

  datatype Column =
    | Ref | Section | Kind | Difficulty | Instruction | Context | Stem | Media
    | OptionA | OptionB | OptionC | OptionD | OptionE | OptionF
    | Correct | Rationale | Transcript | ShuffleOptions | KeepLast
    | ScaleSize | ScaleMin | ScaleMax
    | EmployerPrompt | EmployerMin | EmployerMax | EmployerValue

  const COLUMNS: seq<Column> := [
    Ref, Section, Kind, Difficulty, Instruction, Context, Stem, Media,
    OptionA, OptionB, OptionC, OptionD, OptionE, OptionF,
    Correct, Rationale, Transcript, ShuffleOptions, KeepLast,
    ScaleSize, ScaleMin, ScaleMax,
    EmployerPrompt, EmployerMin, EmployerMax, EmployerValue
  ]

  const OPTION_COLUMNS: seq<Column> := [OptionA, OptionB, OptionC, OptionD, OptionE, OptionF]
  const DEFAULT_SCALE_SIZE := 5

  function Name(column: Column): string {
    match column
    case Ref => "ref"
    case Section => "section"
    case Kind => "type"
    case Difficulty => "difficulty"
    case Instruction => "instruction"
    case Context => "context"
    case Stem => "stem"
    case Media => "media"
    case OptionA => "option_a"
    case OptionB => "option_b"
    case OptionC => "option_c"
    case OptionD => "option_d"
    case OptionE => "option_e"
    case OptionF => "option_f"
    case Correct => "correct"
    case Rationale => "rationale"
    case Transcript => "transcript"
    case ShuffleOptions => "shuffle_options"
    case KeepLast => "keep_last_option_fixed"
    case ScaleSize => "scale_size"
    case ScaleMin => "scale_min_label"
    case ScaleMax => "scale_max_label"
    case EmployerPrompt => "employer_prompt"
    case EmployerMin => "employer_min_label"
    case EmployerMax => "employer_max_label"
    case EmployerValue => "employer_value"
  }

  /** A column's place in the printed header. */
  function Index(column: Column): (i: nat)
    ensures i < |COLUMNS| && COLUMNS[i] == column
  {
    match column
    case Ref => 0 case Section => 1 case Kind => 2 case Difficulty => 3
    case Instruction => 4 case Context => 5 case Stem => 6 case Media => 7
    case OptionA => 8 case OptionB => 9 case OptionC => 10
    case OptionD => 11 case OptionE => 12 case OptionF => 13
    case Correct => 14 case Rationale => 15 case Transcript => 16
    case ShuffleOptions => 17 case KeepLast => 18
    case ScaleSize => 19 case ScaleMin => 20 case ScaleMax => 21
    case EmployerPrompt => 22 case EmployerMin => 23 case EmployerMax => 24
    case EmployerValue => 25
  }

  lemma IndexUnique(i: nat)
    requires i < |COLUMNS|
    ensures Index(COLUMNS[i]) == i
  {
  }

  /** Letters a to z and underscores: a name the header cleaning leaves alone. */
  predicate PlainName(name: string) {
    name != "" && forall c :: c in name ==> 'a' <= c <= 'z' || c == '_'
  }

  lemma NamesPlain(column: Column)
    ensures PlainName(Name(column))
  {
  }

  lemma NamesDistinct(a: Column, b: Column)
    requires Name(a) == Name(b)
    ensures a == b
  {
  }

  // ----- Reading single cells -------------------------------------------------------

  predicate IsLetter(c: char) { 'a' <= c <= 'z' }

  function SkipOthers(s: string): (r: string)
    ensures |r| <= |s|
  {
    if s != "" && !IsLetter(s[0]) then SkipOthers(s[1..]) else s
  }

  /** `s.replace(/[^a-z]+/g, ' ')`. */
  function Squash(s: string): string
    decreases |s|
  {
    if s == "" then ""
    else if IsLetter(s[0]) then [s[0]] + Squash(s[1..])
    else " " + Squash(SkipOthers(s[1..]))
  }

  function TypeOfWords(words: string): Option<QuestionType> {
    if words in {"single choice", "multiple choice", "mcq"} then Some(SingleChoice)
    else if words in {"true false", "true or false", "tf"} then Some(TrueFalse)
    else if "rating" <= words then Some(RatingScale)
    else if "choice" <= words then Some(ChoiceScale)
    else None
  }

  function ParseType(raw: string, scoring: ScoringMethod): Option<QuestionType> {
    if raw == "" then Some(if scoring == Alignment then RatingScale else SingleChoice)
    else TypeOfWords(Trim(Squash(ToLower(raw))))
  }

  /** None means the value is there but invalid; Some(None) means blank. */
  function ParseDifficulty(raw: string): Option<Option<Questions.Difficulty>> {
    var key := ToUpper(raw);
    if raw == "" then Some(None)
    else if key == "EASY" then Some(Some(Easy))
    else if key == "MEDIUM" then Some(Some(Medium))
    else if key == "HARD" then Some(Some(Hard))
    else None
  }

  function ParseBoolean(raw: string): Option<Option<bool>> {
    var key := ToLower(raw);
    if raw == "" then Some(None)
    else if key in {"y", "yes", "true", "1"} then Some(Some(true))
    else if key in {"n", "no", "false", "0"} then Some(Some(false))
    else None
  }

  function ParseInteger(raw: string): Option<Option<int>> {
    if raw == "" then Some(None)
    else match WholeNumber(raw)
      case None => None
      case Some(n) => Some(Some(n))
  }

  /** A letter, True/False, or the exact option text. */
  function CorrectIndex(raw: string, options: seq<CanonicalOption>, kind: QuestionType): Option<nat> {
    var key := ToLower(raw);
    if kind == TrueFalse && key in {"t", "true"} then Some(0)
    else if kind == TrueFalse && key in {"f", "false"} then Some(1)
    else if |key| == 1 && 'a' <= key[0] <= 'f' then
      var index := key[0] as int - 'a' as int;
      if index < |options| then Some(index) else None
    else
      var index := Find((o: CanonicalOption) => ToLower(o.text) == key, options);
      if index < |options| then Some(index) else None
  }

  // ----- Reading a row --------------------------------------------------------------

  datatype Message =
    | UnclosedQuote | FileEmpty | IgnoredColumn | DuplicateColumn | NeedsStemColumn | NoQuestions
    | NotAType | BadDifficulty | BadFlag | BadNumber | NeedsText | BadScaleSize
    | OptionsIgnored | OptionGap | CorrectIgnored | NeedsCorrect | UnknownCorrect
    | Refused(problem: Problem)

  /** A problem with a row, on a column or on the whole row. */
  datatype Note = Note(column: Option<Column>, message: Message)

  datatype Outcome = Outcome(options: seq<CanonicalOption>, errors: seq<Note>, warnings: seq<Note>)
  datatype RowResult = RowResult(question: Option<CanonicalQuestion>, errors: seq<Note>, warnings: seq<Note>)

  /** A row's cells, trimmed. A missing cell is blank. */
  datatype Cells = Cells(
    ref: string, section: string, kind: string, difficulty: string,
    instruction: string, context: string, stem: string, media: string,
    optionA: string, optionB: string, optionC: string, optionD: string, optionE: string, optionF: string,
    correct: string, rationale: string, transcript: string, shuffleOptions: string, keepLast: string,
    scaleSize: string, scaleMin: string, scaleMax: string,
    employerPrompt: string, employerMin: string, employerMax: string, employerValue: string)

  function FailIf(condition: bool, column: Column, message: Message): seq<Note> {
    if condition then [Note(Some(column), message)] else []
  }

  function TextOrNull(text: string): Option<string> {
    if text == "" then None else Some(text)
  }

  /** Point i of a rating scale of `size` points. */
  function RatingPoint(size: nat, cells: Cells, i: nat): CanonicalOption {
    var text := if i == 0 then cells.scaleMin else if i == size - 1 then cells.scaleMax else "";
    var employer := if i == 0 then cells.employerMin else if i == size - 1 then cells.employerMax else "";
    CanonicalOption(None, text, TextOrNull(employer), Some(i + 1), false)
  }

  /** The points of a rating scale, labelled at both ends. */
  function RatingPoints(size: nat, cells: Cells): (r: seq<CanonicalOption>)
    ensures |r| == size && forall i :: 0 <= i < size ==> r[i] == RatingPoint(size, cells, i)
  {
    seq(size, i requires 0 <= i < size => RatingPoint(size, cells, i))
  }

  function OptionTexts(cells: Cells): (r: seq<string>)
    ensures |r| == 6
  {
    [cells.optionA, cells.optionB, cells.optionC,
     cells.optionD, cells.optionE, cells.optionF]
  }

  function RatingOutcome(cells: Cells): Outcome {
    var raw := cells.scaleSize;
    var size: Option<Option<int>> := if raw == "" then Some(Some(DEFAULT_SCALE_SIZE)) else ParseInteger(raw);
    var warnings := FailIf(exists t <- OptionTexts(cells) :: t != "", OptionA, OptionsIgnored);
    match size
    case Some(Some(n)) =>
      if MIN_SCALE_POINTS <= n <= MAX_SCALE_POINTS then Outcome(RatingPoints(n, cells), [], warnings)
      else Outcome([], [Note(Some(ScaleSize), BadScaleSize)], warnings)
    case _ => Outcome([], [Note(Some(ScaleSize), BadScaleSize)], warnings)
  }

  /** How many texts remain once the blank ones at the end go. */
  function FilledCount(texts: seq<string>): (n: nat)
    ensures n <= |texts| && (n > 0 ==> texts[n - 1] != "")
    ensures forall k :: n <= k < |texts| ==> texts[k] == ""
  {
    if texts == [] then 0
    else if texts[|texts| - 1] != "" then |texts|
    else FilledCount(texts[..|texts| - 1])
  }

  function MarkCorrect(options: seq<CanonicalOption>, at: nat): (r: seq<CanonicalOption>)
    ensures |r| == |options|
  {
    seq(|options|, i requires 0 <= i < |options| => options[i].(correct := i == at))
  }

  /** The first option left blank before one with a text. */
  function GapErrors(texts: seq<string>): seq<Note>
    requires |texts| <= 6
  {
    var gap := Find((t: string) => t == "", texts);
    if gap < |texts| then [Note(Some(OPTION_COLUMNS[gap]), OptionGap)] else []
  }

  function ChoiceOutcome(kind: QuestionType, cells: Cells): Outcome {
    var texts := OptionTexts(cells);
    var filled := texts[..FilledCount(texts)];
    var gaps := GapErrors(filled);
    var options := if kind == TrueFalse && filled == [] then TRUE_FALSE_OPTIONS else Map(PlainOption, filled);
    var key := cells.correct;
    if IsScale(kind) then Outcome(options, gaps, FailIf(key != "", Correct, CorrectIgnored))
    else if key == "" then Outcome(options, gaps + [Note(Some(Correct), NeedsCorrect)], [])
    else match CorrectIndex(key, options, kind)
      case None => Outcome(options, gaps + [Note(Some(Correct), UnknownCorrect)], [])
      case Some(at) => Outcome(MarkCorrect(options, at), gaps, [])
  }

  function OptionsOutcome(kind: QuestionType, cells: Cells): Outcome {
    if kind == RatingScale then RatingOutcome(cells) else ChoiceOutcome(kind, cells)
  }

  /** The cells that hold one of a few words or a number. */
  datatype Flags = Flags(
    kind: Option<QuestionType>,
    difficulty: Option<Option<Questions.Difficulty>>,
    shuffle: Option<Option<bool>>,
    keepLast: Option<Option<bool>>,
    employerValue: Option<Option<int>>
  ) {
    predicate Valid() {
      kind.Some? && difficulty.Some? && shuffle.Some? && keepLast.Some? && employerValue.Some?
    }
  }

  function ParseFlags(cells: Cells, scoring: ScoringMethod): Flags {
    Flags(
      ParseType(cells.kind, scoring),
      ParseDifficulty(cells.difficulty),
      ParseBoolean(cells.shuffleOptions),
      ParseBoolean(cells.keepLast),
      ParseInteger(cells.employerValue))
  }

  function CellErrors(flags: Flags, stem: string): (r: seq<Note>)
    ensures r == [] <==> flags.Valid() && stem != ""
  {
    FailIf(flags.kind.None?, Kind, NotAType)
    + FailIf(flags.difficulty.None?, Difficulty, BadDifficulty)
    + FailIf(flags.shuffle.None?, ShuffleOptions, BadFlag)
    + FailIf(flags.keepLast.None?, KeepLast, BadFlag)
    + FailIf(flags.employerValue.None?, EmployerValue, BadNumber)
    + FailIf(stem == "", Stem, NeedsText)
  }

  /** The question the cells spell out, before normalizing. */
  function RawQuestion(cells: Cells, flags: Flags, options: seq<CanonicalOption>): CanonicalQuestion
    requires flags.Valid()
  {
    CanonicalQuestion(
      Some(cells.ref), Some(cells.section), flags.kind.value, flags.difficulty.value,
      Some(cells.instruction), Some(cells.context), cells.stem,
      Some(CanonicalMedia(Some(cells.media), None)), options,
      Some(cells.rationale), Some(cells.transcript),
      flags.shuffle.value, flags.keepLast.value.GetOr(false),
      Some(cells.employerPrompt), flags.employerValue.value)
  }

  /** The row's question, or what stops it from being one. */
  function ParseRow(cells: Cells, scoring: ScoringMethod): RowResult {
    var flags := ParseFlags(cells, scoring);
    var errors := CellErrors(flags, cells.stem);
    var body := if flags.kind.None? then Outcome([], [], []) else OptionsOutcome(flags.kind.value, cells);
    if errors + body.errors != [] then RowResult(None, errors + body.errors, body.warnings)
    else
      var q := Normalize(RawQuestion(cells, flags, body.options));
      var problems := QuestionProblems(q, scoring);
      if problems == [] then RowResult(Some(q), [], body.warnings)
      else RowResult(None, Map(p => Note(None, Refused(p)), problems), body.warnings)
  }

  // ----- Printing a row -------------------------------------------------------------

  function TypeName(kind: QuestionType): string {
    match kind
    case SingleChoice => "single_choice"
    case TrueFalse => "true_false"
    case RatingScale => "rating_scale"
    case ChoiceScale => "choice_scale"
  }

  function DifficultyName(difficulty: Option<Questions.Difficulty>): string {
    match difficulty
    case None => ""
    case Some(Easy) => "Easy"
    case Some(Medium) => "Medium"
    case Some(Hard) => "Hard"
  }

  function FlagText(flag: Option<bool>): string {
    match flag
    case None => ""
    case Some(yes) => if yes then "yes" else "no"
  }

  function IntegerText(value: Option<int>): string {
    match value
    case None => ""
    case Some(n) => NumberText(n)
  }

  function OptionCell(q: CanonicalQuestion, index: nat): string {
    if q.kind != RatingScale && index < |q.options| then q.options[index].text else ""
  }

  function CorrectCell(q: CanonicalQuestion): string {
    var at := Find((o: CanonicalOption) => o.correct, q.options);
    if at < |q.options| && !IsScale(q.kind) && at < |OPTION_LETTERS| then [OPTION_LETTERS[at]] else ""
  }

  /** The text of one end of a rating scale. */
  function EndCell(q: CanonicalQuestion, first: bool, employer: bool): string {
    if q.kind != RatingScale || q.options == [] then ""
    else
      var point := q.options[if first then 0 else |q.options| - 1];
      if employer then point.employerText.GetOr("") else point.text
  }

  /** What the export writes in a question's row. */
  function CellsOf(q: CanonicalQuestion): Cells {
    Cells(
      ref := q.ref.GetOr(""),
      section := q.section.GetOr(""),
      kind := TypeName(q.kind),
      difficulty := DifficultyName(q.difficulty),
      instruction := q.instruction.GetOr(""),
      context := q.context.GetOr(""),
      stem := q.stem,
      media := if q.media.Some? then q.media.value.file.GetOr("") else "",
      optionA := OptionCell(q, 0),
      optionB := OptionCell(q, 1),
      optionC := OptionCell(q, 2),
      optionD := OptionCell(q, 3),
      optionE := OptionCell(q, 4),
      optionF := OptionCell(q, 5),
      correct := CorrectCell(q),
      rationale := q.rationale.GetOr(""),
      transcript := q.transcript.GetOr(""),
      shuffleOptions := FlagText(q.shuffleOptions),
      keepLast := FlagText(if q.keepLastOptionFixed then Some(true) else None),
      scaleSize := if q.kind == RatingScale then NumberText(|q.options|) else "",
      scaleMin := EndCell(q, true, false),
      scaleMax := EndCell(q, false, false),
      employerPrompt := q.employerPrompt.GetOr(""),
      employerMin := EndCell(q, true, true),
      employerMax := EndCell(q, false, true),
      employerValue := IntegerText(q.employerValue))
  }

  function Field(cells: Cells, column: Column): string {
    match column
    case Ref => cells.ref
    case Section => cells.section
    case Kind => cells.kind
    case Difficulty => cells.difficulty
    case Instruction => cells.instruction
    case Context => cells.context
    case Stem => cells.stem
    case Media => cells.media
    case OptionA => cells.optionA
    case OptionB => cells.optionB
    case OptionC => cells.optionC
    case OptionD => cells.optionD
    case OptionE => cells.optionE
    case OptionF => cells.optionF
    case Correct => cells.correct
    case Rationale => cells.rationale
    case Transcript => cells.transcript
    case ShuffleOptions => cells.shuffleOptions
    case KeepLast => cells.keepLast
    case ScaleSize => cells.scaleSize
    case ScaleMin => cells.scaleMin
    case ScaleMax => cells.scaleMax
    case EmployerPrompt => cells.employerPrompt
    case EmployerMin => cells.employerMin
    case EmployerMax => cells.employerMax
    case EmployerValue => cells.employerValue
  }

  // ----- Each cell reads back ---------------------------------------------------------

  lemma {:induction false} SquashWord(word: string, rest: string)
    requires forall c :: c in word ==> IsLetter(c)
    ensures Squash(word + rest) == word + Squash(rest)
    decreases |word|
  {
    if word == "" {
      assert word + rest == rest;
    } else {
      ConcatHead(word, rest);
      SquashWord(word[1..], rest);
      Associative([word[0]], word[1..], Squash(rest));
    }
  }

  predicate IsWord(s: string) {
    s != "" && forall c :: c in s ==> IsLetter(c)
  }

  lemma LowerAlready(s: string)
    requires forall c :: c in s ==> !('A' <= c <= 'Z')
    ensures ToLower(s) == s
  {
    forall i | 0 <= i < |s| ensures ToLower(s)[i] == s[i] { assert s[i] in s; }
  }

  lemma SquashTwoWords(a: string, b: string)
    requires IsWord(a) && IsWord(b)
    ensures Squash(a + ("_" + b)) == a + (" " + b)
  {
    SquashWord(a, "_" + b);
    assert ("_" + b)[1..] == b && b[0] in b;
    SquashWord(b, "");
    assert b + "" == b;
  }

  lemma WordsTrimmed(a: string, b: string)
    requires IsWord(a) && IsWord(b)
    ensures Trimmed(a + (" " + b))
  {
    var s := a + (" " + b);
    assert a[0] in a && b[|b| - 1] in b;
    assert s[0] == a[0] && s[|s| - 1] == b[|b| - 1];
  }

  /** Two lower-case words joined by an underscore are two words to the type parser. */
  lemma TwoWords(a: string, b: string)
    requires IsWord(a) && IsWord(b)
    ensures Trim(Squash(ToLower(a + ("_" + b)))) == a + (" " + b)
  {
    LowerAlready(a + ("_" + b));
    SquashTwoWords(a, b);
    WordsTrimmed(a, b);
  }

  lemma TypeNameReads(raw: string, a: string, b: string, kind: QuestionType, scoring: ScoringMethod)
    requires IsWord(a) && IsWord(b)
    requires raw == a + ("_" + b) && TypeOfWords(a + (" " + b)) == Some(kind)
    ensures ParseType(raw, scoring) == Some(kind)
  {
    TwoWords(a, b);
  }

  lemma RightTypeRead(kind: QuestionType, scoring: ScoringMethod)
    requires !IsScale(kind)
    ensures ParseType(TypeName(kind), scoring) == Some(kind)
  {
    if kind == SingleChoice {
      assert "single" + (" " + "choice") == "single choice";
      TypeNameReads(TypeName(kind), "single", "choice", kind, scoring);
    } else {
      assert "true" + (" " + "false") == "true false";
      TypeNameReads(TypeName(kind), "true", "false", kind, scoring);
    }
  }

  lemma ScaleTypeRead(kind: QuestionType, scoring: ScoringMethod)
    requires IsScale(kind)
    ensures ParseType(TypeName(kind), scoring) == Some(kind)
  {
    if kind == RatingScale {
      TypeNameReads(TypeName(kind), "rating", "scale", kind, scoring);
    } else {
      assert "choice" + (" " + "scale") == "choice scale" && "choice scale"[0] == 'c';
      TypeNameReads(TypeName(kind), "choice", "scale", kind, scoring);
    }
  }

  lemma TypeReadsBack(kind: QuestionType, scoring: ScoringMethod)
    ensures ParseType(TypeName(kind), scoring) == Some(kind)
  {
    if IsScale(kind) { ScaleTypeRead(kind, scoring); } else { RightTypeRead(kind, scoring); }
  }

  lemma DifficultyReadsBack(difficulty: Option<Questions.Difficulty>)
    ensures ParseDifficulty(DifficultyName(difficulty)) == Some(difficulty)
  {
    assert ToUpper("Easy") == "EASY" && ToUpper("Medium") == "MEDIUM" && ToUpper("Hard") == "HARD";
  }

  lemma FlagReadsBack(flag: Option<bool>)
    ensures ParseBoolean(FlagText(flag)) == Some(flag)
  {
    LowerAlready("yes");
    LowerAlready("no");
  }

  lemma IntegerReadsBack(value: Option<int>)
    ensures ParseInteger(IntegerText(value)) == Some(value)
  {
    if value.Some? { NumberTextReadsBack(value.value); }
  }

  lemma TextReadsBack(text: Option<string>)
    requires BlankToNull(text) == text
    ensures BlankToNull(Some(text.GetOr(""))) == text
  {
  }

  // ----- Which questions a row can hold -------------------------------------------------

  /**
   * What the option columns can say: scale values 1 to n; on a rating scale,
   * wording at the ends only; on other types, no employer wording and, since a
   * blank cell ends the options, text everywhere.
   */
  predicate FromRow(kind: QuestionType, options: seq<CanonicalOption>) {
    && (IsScale(kind) ==> forall i :: 0 <= i < |options| ==> options[i].value == Some(i + 1))
    && (if kind == RatingScale then
          forall i :: 0 < i < |options| - 1 ==> options[i].text == "" && options[i].employerText == None
        else
          forall o <- options :: o.text != "" && o.employerText == None)
  }

  /** What a CSV row has columns for: a file name but no file id, and such options. */
  predicate CsvCanHold(q: CanonicalQuestion) {
    (q.media.Some? ==> q.media.value.assetId.None?) && FromRow(q.kind, q.options)
  }

  /** A question an import can produce for a test scored by `scoring`. */
  predicate Importable(q: CanonicalQuestion, scoring: ScoringMethod) {
    Normal(q) && Ready(q, scoring) && CsvCanHold(q)
  }

  lemma RatingSize(cells: Cells, n: nat)
    requires cells.scaleSize == NumberText(n) && MIN_SCALE_POINTS <= n <= MAX_SCALE_POINTS
    requires forall t <- OptionTexts(cells) :: t == ""
    ensures RatingOutcome(cells) == Outcome(RatingPoints(n, cells), [], [])
  {
  }

  /** The cells name the two ends of a scale of n points. */
  predicate EndsIn(cells: Cells, options: seq<CanonicalOption>)
    requires options != []
  {
    var first, last := options[0], options[|options| - 1];
    && cells.scaleMin == first.text && cells.scaleMax == last.text
    && cells.employerMin == first.employerText.GetOr("")
    && cells.employerMax == last.employerText.GetOr("")
  }

  /** The cells hold the points of a rating scale. */
  predicate PointsIn(cells: Cells, q: CanonicalQuestion) {
    && cells.scaleSize == NumberText(|q.options|)
    && (q.options != [] ==> EndsIn(cells, q.options))
    && forall t <- OptionTexts(cells) :: t == ""
  }

  lemma PointReadsBack(cells: Cells, options: seq<CanonicalOption>, i: nat)
    requires |options| > 1 && i < |options| && EndsIn(cells, options)
    requires options[i] == NormalizeOption(true, options[i], i)
    requires options[i].value == Some(i + 1)
    requires 0 < i < |options| - 1 ==> options[i].text == "" && options[i].employerText == None
    ensures NormalizeOption(true, RatingPoint(|options|, cells, i), i) == options[i]
  {
  }

  lemma RatingReadsBack(q: CanonicalQuestion, cells: Cells)
    requires q.kind == RatingScale && Normal(q) && CsvCanHold(q) && PointsIn(cells, q)
    requires MIN_SCALE_POINTS <= |q.options| <= MAX_SCALE_POINTS
    ensures var body := OptionsOutcome(q.kind, cells);
      body.errors == [] && body.warnings == [] && NormalizeOptions(q.kind, body.options) == q.options
  {
    var n := |q.options|;
    RatingSize(cells, n);
    forall i | 0 <= i < n
      ensures NormalizeOption(true, RatingPoints(n, cells)[i], i) == q.options[i]
    {
      PointReadsBack(cells, q.options, i);
    }
  }

  /** The cells hold the options of the other types. */
  predicate ChoicesIn(cells: Cells, q: CanonicalQuestion) {
    && (forall k :: 0 <= k < 6 ==>
          OptionTexts(cells)[k] == if k < |q.options| then q.options[k].text else "")
    && cells.correct == CorrectCell(q)
  }

  /** The options' cells stop at the last option, and none before it is blank. */
  lemma FilledIsOptions(cells: Cells, q: CanonicalQuestion)
    requires ChoicesIn(cells, q) && |q.options| <= 6
    requires forall o <- q.options :: o.text != ""
    ensures FilledCount(OptionTexts(cells)) == |q.options|
  {
    var texts := OptionTexts(cells);
    forall k | 0 <= k < |q.options| ensures texts[k] != "" { assert q.options[k] in q.options; }
    assert q.options != [] ==> texts[|q.options| - 1] != "";
  }

  lemma LetterReadsBack(options: seq<CanonicalOption>, at: nat, kind: QuestionType)
    requires at < |options| <= 6 && (kind == TrueFalse ==> |options| == 2)
    ensures CorrectIndex([OPTION_LETTERS[at]], options, kind) == Some(at)
  {
    var raw := [OPTION_LETTERS[at]];
    assert ToLower(raw) == [LowerChar(OPTION_LETTERS[at])];
  }

  /** What the choice columns of a printed row are read as. */
  lemma ChoiceCells(q: CanonicalQuestion, cells: Cells)
    requires q.kind != RatingScale && FromRow(q.kind, q.options) && ChoicesIn(cells, q)
    requires 2 <= |q.options| <= 6 && (q.kind == TrueFalse ==> |q.options| == 2)
    requires !IsScale(q.kind) ==> CorrectCount(q.options) == 1
    ensures var body := OptionsOutcome(q.kind, cells);
      && body.errors == [] && body.warnings == [] && |body.options| == |q.options|
      && forall i :: 0 <= i < |q.options| ==>
           body.options[i] == PlainOption(q.options[i].text).(correct := !IsScale(q.kind) && q.options[i].correct)
  {
    FilledIsOptions(cells, q);
    var filled := OptionTexts(cells)[..|q.options|];
    forall i | 0 <= i < |filled| ensures filled[i] != "" { assert q.options[i] in q.options; }
    assert Find((t: string) => t == "", filled) == |filled|;
    if !IsScale(q.kind) {
      OneCorrect(q.options);
      LetterReadsBack(Map(PlainOption, filled), Find((o: CanonicalOption) => o.correct, q.options), q.kind);
    }
  }

  lemma ChoicesNormalize(q: CanonicalQuestion, read: seq<CanonicalOption>)
    requires q.kind != RatingScale && Normal(q) && FromRow(q.kind, q.options) && q.options != []
    requires |read| == |q.options| && forall i :: 0 <= i < |read| ==>
      read[i] == PlainOption(q.options[i].text).(correct := !IsScale(q.kind) && q.options[i].correct)
    ensures NormalizeOptions(q.kind, read) == q.options
  {
  }

  /** The cells hold the texts of a question. */
  predicate TextsIn(cells: Cells, q: CanonicalQuestion) {
    && cells.ref == q.ref.GetOr("")
    && cells.section == q.section.GetOr("")
    && cells.instruction == q.instruction.GetOr("")
    && cells.context == q.context.GetOr("")
    && cells.stem == q.stem
    && cells.media == (if q.media.Some? then q.media.value.file.GetOr("") else "")
    && cells.rationale == q.rationale.GetOr("")
    && cells.transcript == q.transcript.GetOr("")
    && cells.employerPrompt == q.employerPrompt.GetOr("")
  }

  lemma MediaReadsBack(media: Option<CanonicalMedia>)
    requires NormalizeMedia(media) == media && (media.Some? ==> media.value.assetId.None?)
    ensures var file := if media.Some? then media.value.file.GetOr("") else "";
      NormalizeMedia(Some(CanonicalMedia(Some(file), None))) == media
  {
  }

  /** Every column outside the options reads back. */
  lemma RestReadsBack(q: CanonicalQuestion, cells: Cells, options: seq<CanonicalOption>)
    requires Normal(q) && TextsIn(cells, q) && NormalizeOptions(q.kind, options) == q.options
    requires q.media.Some? ==> q.media.value.assetId.None?
    ensures Normalize(RawQuestion(cells, FlagsOf(q), options)) == q
  {
    TextReadsBack(q.ref);
    TextReadsBack(q.section);
    TextReadsBack(q.instruction);
    TextReadsBack(q.context);
    TextReadsBack(q.rationale);
    TextReadsBack(q.transcript);
    MediaReadsBack(q.media);
    if IsScale(q.kind) { TextReadsBack(q.employerPrompt); }
  }

  function FlagsOf(q: CanonicalQuestion): (flags: Flags)
    ensures flags.Valid()
  {
    var keepLast := if q.keepLastOptionFixed then Some(true) else None;
    Flags(Some(q.kind), Some(q.difficulty), Some(q.shuffleOptions), Some(keepLast), Some(q.employerValue))
  }

  lemma PrintedTexts(q: CanonicalQuestion)
    ensures TextsIn(CellsOf(q), q)
  {
  }

  lemma PrintedPoints(q: CanonicalQuestion)
    requires q.kind == RatingScale
    ensures PointsIn(CellsOf(q), q)
  {
  }

  lemma PrintedChoices(q: CanonicalQuestion)
    requires q.kind != RatingScale
    ensures ChoicesIn(CellsOf(q), q)
  {
  }

  lemma PrintedFlags(q: CanonicalQuestion, scoring: ScoringMethod)
    ensures ParseFlags(CellsOf(q), scoring) == FlagsOf(q)
  {
    TypeReadsBack(q.kind, scoring);
    DifficultyReadsBack(q.difficulty);
    FlagReadsBack(q.shuffleOptions);
    FlagReadsBack(if q.keepLastOptionFixed then Some(true) else None);
    IntegerReadsBack(q.employerValue);
  }

  lemma PrintedOptions(q: CanonicalQuestion, scoring: ScoringMethod)
    requires Importable(q, scoring)
    ensures var body := OptionsOutcome(q.kind, CellsOf(q));
      body.errors == [] && body.warnings == [] && NormalizeOptions(q.kind, body.options) == q.options
  {
    if q.kind == RatingScale {
      PrintedPoints(q);
      RatingReadsBack(q, CellsOf(q));
    } else {
      PrintedChoices(q);
      if q.kind == TrueFalse { CorrectOfTwo(q.options); }
      ChoiceCells(q, CellsOf(q));
      ChoicesNormalize(q, OptionsOutcome(q.kind, CellsOf(q)).options);
    }
  }

  /** A question a row can hold reads back from its row as it was, with nothing to report. */
  lemma RowReadsBack(q: CanonicalQuestion, scoring: ScoringMethod)
    requires Importable(q, scoring)
    ensures ParseRow(CellsOf(q), scoring) == RowResult(Some(q), [], [])
  {
    PrintedFlags(q, scoring);
    PrintedTexts(q);
    PrintedOptions(q, scoring);
    RestReadsBack(q, CellsOf(q), OptionsOutcome(q.kind, CellsOf(q)).options);
    ProblemFree(q, scoring);
  }

  lemma ReadPoints(cells: Cells, size: nat)
    ensures FromRow(RatingScale, NormalizeOptions(RatingScale, RatingPoints(size, cells)))
  {
  }

  /** The texts of an option row are filled in order, without gaps. */
  lemma FilledTexts(texts: seq<string>)
    requires var filled := texts[..FilledCount(texts)]; Find((t: string) => t == "", filled) == |filled|
    requires forall t <- texts :: Trimmed(t)
    ensures forall t <- texts[..FilledCount(texts)] :: t != "" && Trimmed(t)
  {
  }

  predicate PlainChoice(option: CanonicalOption) {
    option.text != "" && Trimmed(option.text) && option.employerText == None && option.value == None
  }

  lemma MarkedPlain(options: seq<CanonicalOption>, at: nat)
    requires forall o <- options :: PlainChoice(o)
    ensures forall o <- MarkCorrect(options, at) :: PlainChoice(o)
  {
    var marked := MarkCorrect(options, at);
    forall i | 0 <= i < |marked| ensures PlainChoice(marked[i]) {
      assert options[i] in options && marked[i] == options[i].(correct := i == at);
    }
  }

  lemma TrueFalsePlain()
    ensures forall o <- TRUE_FALSE_OPTIONS :: PlainChoice(o)
  {
  }

  lemma FilledPlain(filled: seq<string>)
    requires forall t <- filled :: t != "" && Trimmed(t)
    ensures forall o <- Map(PlainOption, filled) :: PlainChoice(o)
  {
    var options := Map(PlainOption, filled);
    forall i | 0 <= i < |options| ensures PlainChoice(options[i]) { assert filled[i] in filled; }
  }

  lemma ReadChoices(kind: QuestionType, cells: Cells)
    requires ChoiceOutcome(kind, cells).errors == []
    requires forall t <- OptionTexts(cells) :: Trimmed(t)
    ensures forall o <- ChoiceOutcome(kind, cells).options :: PlainChoice(o)
  {
    var texts := OptionTexts(cells);
    var filled := texts[..FilledCount(texts)];
    FilledTexts(texts);
    FilledPlain(filled);
    TrueFalsePlain();
    var options := if kind == TrueFalse && filled == [] then TRUE_FALSE_OPTIONS else Map(PlainOption, filled);
    var at := CorrectIndex(cells.correct, options, kind);
    if at.Some? { MarkedPlain(options, at.value); }
  }

  lemma NormalizedChoices(kind: QuestionType, options: seq<CanonicalOption>)
    requires kind != RatingScale && forall o <- options :: PlainChoice(o)
    ensures FromRow(kind, NormalizeOptions(kind, options))
  {
    var source, normal := OptionSource(kind, options), NormalizeOptions(kind, options);
    forall i | 0 <= i < |normal|
      ensures normal[i].text != "" && normal[i].employerText == None
      ensures IsScale(kind) ==> normal[i].value == Some(i + 1)
    {
      assert source[i] in source && PlainChoice(source[i]);
    }
  }

  lemma ReadOptionsFit(kind: QuestionType, cells: Cells)
    requires OptionsOutcome(kind, cells).errors == []
    requires forall t <- OptionTexts(cells) :: Trimmed(t)
    ensures FromRow(kind, NormalizeOptions(kind, OptionsOutcome(kind, cells).options))
  {
    if kind == RatingScale {
      var size := ParseInteger(cells.scaleSize);
      ReadPoints(cells, if cells.scaleSize == "" then DEFAULT_SCALE_SIZE else size.value.value);
    } else {
      ReadChoices(kind, cells);
      NormalizedChoices(kind, OptionsOutcome(kind, cells).options);
    }
  }

  lemma QuestionOfRow(cells: Cells, scoring: ScoringMethod) returns (raw: CanonicalQuestion)
    requires ParseRow(cells, scoring).question.Some?
    ensures var q := ParseRow(cells, scoring).question.value;
      && q == Normalize(raw) && QuestionProblems(q, scoring) == [] && ParseFlags(cells, scoring).kind == Some(raw.kind)
      && OptionsOutcome(raw.kind, cells).errors == [] && raw.options == OptionsOutcome(raw.kind, cells).options
      && raw.media == Some(CanonicalMedia(Some(cells.media), None))
  {
    var flags := ParseFlags(cells, scoring);
    raw := RawQuestion(cells, flags, OptionsOutcome(flags.kind.value, cells).options);
  }

  lemma NormalizedFits(raw: CanonicalQuestion, scoring: ScoringMethod)
    requires QuestionProblems(Normalize(raw), scoring) == []
    requires FromRow(raw.kind, NormalizeOptions(raw.kind, raw.options))
    requires raw.media.Some? && raw.media.value.assetId.None?
    ensures Importable(Normalize(raw), scoring)
  {
    NormalizeIdempotent(raw);
    ProblemFree(Normalize(raw), scoring);
  }

  /** Whatever the cells say, a question read from them is one a row can hold. */
  lemma ReadIsImportable(cells: Cells, scoring: ScoringMethod)
    requires forall t <- OptionTexts(cells) :: Trimmed(t)
    ensures var q := ParseRow(cells, scoring).question;
      q.Some? ==> Importable(q.value, scoring)
  {
    if ParseRow(cells, scoring).question.Some? {
      var raw := QuestionOfRow(cells, scoring);
      ReadOptionsFit(raw.kind, cells);
      NormalizedFits(raw, scoring);
    }
  }

  // ----- Whole files ----------------------------------------------------------------------

  datatype Issue = CsvIssue(row: Option<nat>, column: Option<string>, message: Message)
  datatype QuestionRow = QuestionRow(row: nat, question: CanonicalQuestion)
  datatype ParsedCsv = ParsedCsv(rows: seq<QuestionRow>, errors: seq<Issue>, warnings: seq<Issue>)

  function SkipDashes(s: string): (r: string)
    ensures |r| <= |s|
  {
    if s != "" && (IsSpace(s[0]) || s[0] == '-') then SkipDashes(s[1..]) else s
  }

  /** `s.replace(/[\s-]+/g, '_')`. */
  function Underscored(s: string): string
    decreases |s|
  {
    if s == "" then ""
    else if IsSpace(s[0]) || s[0] == '-' then "_" + Underscored(SkipDashes(s[1..]))
    else [s[0]] + Underscored(s[1..])
  }

  /** The first of the columns with this name. */
  function ColumnIn(columns: seq<Column>, name: string): (r: Option<Column>)
    ensures r.Some? ==> Name(r.value) == name
  {
    var i := Find((c: Column) => Name(c) == name, columns);
    if i < |columns| then Some(columns[i]) else None
  }

  function ColumnNamed(name: string): Option<Column> { ColumnIn(COLUMNS, name) }

  datatype Header = Header(columns: map<Column, nat>, errors: seq<Issue>, warnings: seq<Issue>)

  function CleanName(raw: string): string { Underscored(ToLower(Trim(raw))) }

  function HeaderNames(header: seq<string>): seq<string> { Map(CleanName, header) }

  /** The column each cleaned name is. */
  function HeaderCells(names: seq<string>): seq<Option<Column>> { Map(ColumnNamed, names) }

  /** The header after its first n cells, with these names for these columns, and notes for those that are none. */
  function ReadCells(ignored: seq<Issue>, names: seq<string>, cells: seq<Option<Column>>, n: nat): (r: Header)
    requires n <= |ignored| == |names| == |cells|
  {
    if n == 0 then Header(map[], [], [])
    else
      var before, name, column := ReadCells(ignored, names, cells, n - 1), names[n - 1], cells[n - 1];
      if name == "" then before
      else if column.None? then before.(warnings := before.warnings + [ignored[n - 1]])
      else if column.value in before.columns then before.(errors := before.errors + [DuplicateOf(name)])
      else before.(columns := before.columns[column.value := n - 1])
  }

  function IgnoredOf(raw: string): Issue { CsvIssue(Some(1), Some(Trim(raw)), IgnoredColumn) }

  function DuplicateOf(name: string): Issue { CsvIssue(Some(1), Some(name), DuplicateColumn) }

  function ReadHeader(header: seq<string>, n: nat): Header
    requires n <= |header|
  {
    ReadCells(Map(IgnoredOf, header), HeaderNames(header), HeaderCells(HeaderNames(header)), n)
  }

  function CellText(record: seq<string>, columns: map<Column, nat>, column: Column): (r: string)
    ensures Trimmed(r)
  {
    if column in columns && columns[column] < |record| then Trim(record[columns[column]]) else ""
  }

  function BuildCells(text: Column -> string): Cells {
    Cells(
      ref := text(Ref),
      section := text(Section),
      kind := text(Kind),
      difficulty := text(Difficulty),
      instruction := text(Instruction),
      context := text(Context),
      stem := text(Stem),
      media := text(Media),
      optionA := text(OptionA),
      optionB := text(OptionB),
      optionC := text(OptionC),
      optionD := text(OptionD),
      optionE := text(OptionE),
      optionF := text(OptionF),
      correct := text(Correct),
      rationale := text(Rationale),
      transcript := text(Transcript),
      shuffleOptions := text(ShuffleOptions),
      keepLast := text(KeepLast),
      scaleSize := text(ScaleSize),
      scaleMin := text(ScaleMin),
      scaleMax := text(ScaleMax),
      employerPrompt := text(EmployerPrompt),
      employerMin := text(EmployerMin),
      employerMax := text(EmployerMax),
      employerValue := text(EmployerValue))
  }

  function RecordCells(record: seq<string>, columns: map<Column, nat>): Cells {
    BuildCells((column: Column) => CellText(record, columns, column))
  }

  predicate BlankRecord(record: seq<string>) {
    forall value <- record :: Trim(value) == ""
  }

  function OnRow(row: nat, notes: seq<Note>): seq<Issue> {
    Map((note: Note) =>
      CsvIssue(Some(row), if note.column.Some? then Some(Name(note.column.value)) else None, note.message), notes)
  }

  function AddRow(parsed: ParsedCsv, row: nat, result: RowResult): ParsedCsv {
    ParsedCsv(
      parsed.rows + (if result.question.Some? then [QuestionRow(row, result.question.value)] else []),
      parsed.errors + OnRow(row, result.errors),
      parsed.warnings + OnRow(row, result.warnings))
  }

  /** How one record of a file with these columns is read. */
  function RowReader(columns: map<Column, nat>, scoring: ScoringMethod): seq<string> -> RowResult {
    (record: seq<string>) => ParseRow(RecordCells(record, columns), scoring)
  }

  function Reader(scoring: ScoringMethod): map<Column, nat> -> seq<string> -> RowResult {
    (columns: map<Column, nat>) => RowReader(columns, scoring)
  }

  /** What the first n data records add. The header is row 1, so record k is row k + 2. */
  function ReadData(data: seq<seq<string>>, n: nat, read: seq<string> -> RowResult): ParsedCsv
    requires n <= |data|
  {
    if n == 0 then ParsedCsv([], [], [])
    else
      var before := ReadData(data, n - 1, read);
      if BlankRecord(data[n - 1]) then before else AddRow(before, n + 1, read(data[n - 1]))
  }

  function FileIssue(message: Message): Issue { CsvIssue(None, None, message) }

  /** The header's warnings come first, and a file without questions is an error. */
  function Summed(h: Header, body: ParsedCsv): ParsedCsv {
    var errors := if body.rows == [] && body.errors == [] then [FileIssue(NoQuestions)] else body.errors;
    ParsedCsv(body.rows, errors, h.warnings + body.warnings)
  }

  /** What stops a file from being read at all, once its header is. */
  function HeaderErrors(h: Header): seq<Issue> {
    if Stem in h.columns then h.errors else h.errors + [CsvIssue(Some(1), Some("stem"), NeedsStemColumn)]
  }

  function ReadBody(h: Header, data: seq<seq<string>>,
    reader: map<Column, nat> -> seq<string> -> RowResult): ParsedCsv {
    if HeaderErrors(h) != [] then ParsedCsv([], HeaderErrors(h), h.warnings)
    else Summed(h, ReadData(data, |data|, reader(h.columns)))
  }

  /** Reads the header, then each record with the reader for its columns. */
  function ReadRecords(records: seq<seq<string>>, reader: map<Column, nat> -> seq<string> -> RowResult): ParsedCsv {
    var header := if records == [] then [] else records[0];
    var data := if records == [] then [] else records[1..];
    if BlankRecord(header) then ParsedCsv([], [FileIssue(FileEmpty)], [])
    else ReadBody(ReadHeader(header, |header|), data, reader)
  }

  /** What reading a question CSV for a test scored by `scoring` gives. */
  function ReadText(text: string, scoring: ScoringMethod): ParsedCsv {
    match Csv.Parse(text)
    case CsvError(row) => ParsedCsv([], [CsvIssue(Some(row), None, UnclosedQuote)], [])
    case Records(records) => ReadRecords(records, Reader(scoring))
  }

  lemma CellAt(header: seq<string>, i: nat)
    requires i < |header|
    ensures var names := HeaderNames(header);
      && names[i] == CleanName(header[i]) && HeaderCells(names)[i] == ColumnNamed(names[i])
      && Map(IgnoredOf, header)[i] == IgnoredOf(header[i])
  {
  }

  method MapColumns(header: seq<string>) returns (h: Header)
    ensures h == ReadHeader(header, |header|)
  {
    var columns: map<Column, nat> := map[];
    var errors, warnings := [], [];
    for index := 0 to |header|
      invariant Header(columns, errors, warnings) == ReadHeader(header, index)
    {
      CellAt(header, index);
      var name := CleanName(header[index]);
      var column := ColumnNamed(name);
      if name != "" {
        if column.None? {
          warnings := warnings + [IgnoredOf(header[index])];
        } else if column.value in columns {
          errors := errors + [DuplicateOf(name)];
        } else {
          columns := columns[column.value := index];
        }
      }
    }
    h := Header(columns, errors, warnings);
  }

  method ReadRows(data: seq<seq<string>>, read: seq<string> -> RowResult) returns (parsed: ParsedCsv)
    ensures parsed == ReadData(data, |data|, read)
  {
    parsed := ParsedCsv([], [], []);
    for index := 0 to |data|
      invariant parsed == ReadData(data, index, read)
    {
      if !BlankRecord(data[index]) {
        parsed := AddRow(parsed, index + 2, read(data[index]));
      }
    }
  }

  method ReadTable(records: seq<seq<string>>, reader: map<Column, nat> -> seq<string> -> RowResult)
    returns (parsed: ParsedCsv)
    ensures parsed == ReadRecords(records, reader)
  {
    var header := if records == [] then [] else records[0];
    var data := if records == [] then [] else records[1..];
    if BlankRecord(header) {
      return ParsedCsv([], [FileIssue(FileEmpty)], []);
    }
    var h := MapColumns(header);
    if HeaderErrors(h) != [] { return ParsedCsv([], HeaderErrors(h), h.warnings); }
    var body := ReadRows(data, reader(h.columns));
    parsed := Summed(h, body);
  }

  method ParseQuestionCsv(text: string, scoring: ScoringMethod) returns (parsed: ParsedCsv)
    ensures parsed == ReadText(text, scoring)
  {
    var result := Csv.ParseCsv(text);
    match result {
      case CsvError(row) => parsed := ParsedCsv([], [CsvIssue(Some(row), None, UnclosedQuote)], []);
      case Records(records) => parsed := ReadTable(records, Reader(scoring));
    }
  }

  function HeaderRow(): seq<string> { Map(Name, COLUMNS) }

  function RowOf(cells: Cells): (r: seq<string>)
    ensures |r| == |COLUMNS|
    ensures forall i :: 0 <= i < |r| ==> r[i] == Field(cells, COLUMNS[i])
  {
    Map((column: Column) => Field(cells, column), COLUMNS)
  }

  function PrintedRow(q: CanonicalQuestion): seq<string> { RowOf(CellsOf(q)) }

  /** A header and one row per question. */
  function QuestionsToCsv(questions: seq<CanonicalQuestion>): string {
    Csv.ToCsv([HeaderRow()] + Map(PrintedRow, questions))
  }

  // ----- A printed file reads back ------------------------------------------------------------

  lemma {:induction false} PlainStays(name: string)
    requires forall i :: 0 <= i < |name| ==> 'a' <= name[i] <= 'z' || name[i] == '_'
    ensures Underscored(name) == name
  {
    if name != "" { PlainStays(name[1..]); }
  }

  /** The header cleaning leaves a plain name alone. */
  lemma PlainNameReads(name: string)
    requires PlainName(name)
    ensures Underscored(ToLower(Trim(name))) == name
  {
    assert name[0] in name && name[|name| - 1] in name;
    assert Trim(name) == name;
    LowerAlready(name);
    forall i | 0 <= i < |name| ensures 'a' <= name[i] <= 'z' || name[i] == '_' { assert name[i] in name; }
    PlainStays(name);
  }

  lemma FindsName(columns: seq<Column>, k: nat)
    requires k < |columns|
    ensures ColumnIn(columns, Name(columns[k])) == Some(columns[k])
  {
    var i := Find((c: Column) => Name(c) == Name(columns[k]), columns);
    NamesDistinct(columns[i], columns[k]);
  }

  lemma ColumnFound(column: Column)
    ensures ColumnNamed(Name(column)) == Some(column)
  {
    FindsName(COLUMNS, Index(column));
  }

  lemma NameRead(column: Column)
    ensures ColumnNamed(CleanName(Name(column))) == Some(column)
  {
    NamesPlain(column);
    PlainNameReads(Name(column));
    ColumnFound(column);
  }

  // ----- What any header gives ----------------------------------------------------------------

  /** One of the first n cells names the column. */
  ghost predicate Named(cells: seq<Option<Column>>, n: nat, column: Column)
    requires n <= |cells|
  {
    exists i :: 0 <= i < n && cells[i] == Some(column)
  }

  /** Each column named is mapped to the first cell that names it. */
  ghost predicate MapsFirst(cells: seq<Option<Column>>, n: nat, columns: map<Column, nat>)
    requires n <= |cells|
  {
    && (forall c :: c in columns <==> Named(cells, n, c))
    && forall c <- columns.Keys :: columns[c] < n && cells[columns[c]] == Some(c) && !Named(cells, columns[c], c)
  }

  /** Cell i names a column that an earlier cell names. */
  ghost predicate Repeats(cells: seq<Option<Column>>, i: nat) {
    i < |cells| && cells[i].Some? && Named(cells, i, cells[i].value)
  }

  ghost predicate RepeatAt(names: seq<string>, cells: seq<Option<Column>>, i: nat, e: Issue) {
    i < |names| && Repeats(cells, i) && e == DuplicateOf(names[i])
  }

  /** The errors are those of the repeated columns. */
  ghost predicate ReportsRepeats(names: seq<string>, cells: seq<Option<Column>>, n: nat, errors: seq<Issue>) {
    forall e :: e in errors <==> exists i :: 0 <= i < n && RepeatAt(names, cells, i, e)
  }

  /** Cell i is not blank and names no column. */
  predicate Unknown(names: seq<string>, cells: seq<Option<Column>>, i: nat) {
    i < |names| == |cells| && cells[i].None? && names[i] != ""
  }

  predicate UnknownAt(ignored: seq<Issue>, names: seq<string>, cells: seq<Option<Column>>, i: nat, w: Issue) {
    i < |ignored| && Unknown(names, cells, i) && w == ignored[i]
  }

  /** The warnings are those of the unknown names. */
  ghost predicate ReportsUnknown(ignored: seq<Issue>, names: seq<string>, cells: seq<Option<Column>>, n: nat,
    warnings: seq<Issue>)
  {
    forall w :: w in warnings <==> exists i :: 0 <= i < n && UnknownAt(ignored, names, cells, i, w)
  }

  lemma MapsNext(cells: seq<Option<Column>>, n: nat, before: map<Column, nat>, after: map<Column, nat>)
    requires 0 < n <= |cells| && MapsFirst(cells, n - 1, before)
    requires after == if cells[n - 1].None? || cells[n - 1].value in before then before
                      else before[cells[n - 1].value := n - 1]
    ensures MapsFirst(cells, n, after)
  {
    forall c ensures Named(cells, n, c) <==> Named(cells, n - 1, c) || cells[n - 1] == Some(c) {}
  }

  lemma RepeatsNext(names: seq<string>, cells: seq<Option<Column>>, n: nat, errors: seq<Issue>, more: seq<Issue>)
    requires 0 < n <= |cells| == |names| && ReportsRepeats(names, cells, n - 1, errors)
    requires more == if Repeats(cells, n - 1) then errors + [DuplicateOf(names[n - 1])] else errors
    ensures ReportsRepeats(names, cells, n, more)
  {
    assert forall e :: e in more <==> e in errors || RepeatAt(names, cells, n - 1, e);
  }

  lemma UnknownNext(ignored: seq<Issue>, names: seq<string>, cells: seq<Option<Column>>, n: nat, warnings: seq<Issue>,
    more: seq<Issue>)
    requires 0 < n <= |ignored| && ReportsUnknown(ignored, names, cells, n - 1, warnings)
    requires more == if Unknown(names, cells, n - 1) then warnings + [ignored[n - 1]] else warnings
    ensures ReportsUnknown(ignored, names, cells, n, more)
  {
    assert forall w :: w in more <==> w in warnings || UnknownAt(ignored, names, cells, n - 1, w);
  }

  /** Every column has the name the cell was cleaned to. */
  ghost predicate NamesFit(names: seq<string>, cells: seq<Option<Column>>) {
    |names| == |cells| && forall i :: 0 <= i < |cells| && cells[i].Some? ==> names[i] == Name(cells[i].value) != ""
  }

  ghost predicate Maps(ignored: seq<Issue>, names: seq<string>, cells: seq<Option<Column>>, n: nat, h: Header)
    requires n <= |cells|
  {
    && MapsFirst(cells, n, h.columns)
    && ReportsRepeats(names, cells, n, h.errors) && ReportsUnknown(ignored, names, cells, n, h.warnings)
  }

  lemma {:induction false} CellsMap(ignored: seq<Issue>, names: seq<string>, cells: seq<Option<Column>>, n: nat)
    requires n <= |ignored| == |cells| && NamesFit(names, cells)
    ensures Maps(ignored, names, cells, n, ReadCells(ignored, names, cells, n))
  {
    if n > 0 {
      CellsMap(ignored, names, cells, n - 1);
      var before, after := ReadCells(ignored, names, cells, n - 1), ReadCells(ignored, names, cells, n);
      MapsNext(cells, n, before.columns, after.columns);
      assert Repeats(cells, n - 1) <==> cells[n - 1].Some? && cells[n - 1].value in before.columns;
      RepeatsNext(names, cells, n, before.errors, after.errors);
      UnknownNext(ignored, names, cells, n, before.warnings, after.warnings);
    }
  }

  lemma HeaderFits(names: seq<string>)
    ensures NamesFit(names, HeaderCells(names))
  {
    forall i | 0 <= i < |names| && ColumnNamed(names[i]).Some?
      ensures names[i] == Name(ColumnNamed(names[i]).value) != ""
    {
      NamesPlain(ColumnNamed(names[i]).value);
    }
  }

  lemma NothingRepeats(names: seq<string>, cells: seq<Option<Column>>, errors: seq<Issue>)
    requires |names| == |cells| && ReportsRepeats(names, cells, |cells|, errors)
    ensures errors == [] <==> forall i: nat :: !Repeats(cells, i)
  {
    if errors != [] { assert errors[0] in errors; }
    if i: nat :| Repeats(cells, i) {
      var e := DuplicateOf(names[i]);
      assert RepeatAt(names, cells, i, e) && e in errors;
    }
  }

  /**
   * In any header each column maps to the first cell that names it; the repeats
   * are errors, the unknown names warnings, and nothing else is reported.
   */
  lemma HeaderMaps(header: seq<string>)
    ensures var h, names := ReadHeader(header, |header|), HeaderNames(header);
      var cells := HeaderCells(names);
      && Maps(Map(IgnoredOf, header), names, cells, |header|, h)
      && (h.errors == [] <==> forall i: nat :: !Repeats(cells, i))
  {
    var names := HeaderNames(header);
    HeaderFits(names);
    CellsMap(Map(IgnoredOf, header), names, HeaderCells(names), |header|);
    NothingRepeats(names, HeaderCells(names), ReadHeader(header, |header|).errors);
  }

  // ----- The printed header --------------------------------------------------------------------

  /** A header of the first n columns has been read, each where it stands. */
  ghost predicate HeaderSoFar(h: Header, columns: seq<Column>, n: nat)
    requires n <= |columns|
  {
    && h.errors == [] && h.warnings == []
    && (forall c <- h.columns.Keys :: c in columns[..n])
    && forall i :: 0 <= i < n ==> columns[i] in h.columns && h.columns[columns[i]] == i
  }

  lemma HeaderGrows(before: Header, columns: seq<Column>, n: nat)
    requires 0 < n <= |columns| && Distinct(columns) && HeaderSoFar(before, columns, n - 1)
    ensures columns[n - 1] !in before.columns
    ensures HeaderSoFar(before.(columns := before.columns[columns[n - 1] := n - 1]), columns, n)
  {
  }

  lemma {:induction false} NamedHeader(ignored: seq<Issue>, names: seq<string>, cells: seq<Option<Column>>,
    columns: seq<Column>, n: nat)
    requires n <= |columns| == |ignored| == |cells| && Distinct(columns) && NamesFit(names, cells)
    requires forall i :: 0 <= i < |cells| ==> cells[i] == Some(columns[i])
    ensures HeaderSoFar(ReadCells(ignored, names, cells, n), columns, n)
  {
    if n > 0 {
      NamedHeader(ignored, names, cells, columns, n - 1);
      HeaderGrows(ReadCells(ignored, names, cells, n - 1), columns, n);
    }
  }

  lemma NamesRead(columns: seq<Column>)
    requires Distinct(columns)
    ensures HeaderSoFar(ReadHeader(Map(Name, columns), |columns|), columns, |columns|)
  {
    var header := Map(Name, columns);
    var names := HeaderNames(header);
    forall i | 0 <= i < |header| ensures ColumnNamed(names[i]) == Some(columns[i]) { NameRead(columns[i]); }
    HeaderFits(names);
    NamedHeader(Map(IgnoredOf, header), names, HeaderCells(names), columns, |columns|);
  }

  lemma {:induction false} NoneUnquoted(row: seq<string>, c: char)
    requires forall cell <- row :: c !in cell
    ensures CsvLaws.UnquotedCount(row, c) == 0
  {
    if row != [] {
      assert row[0] in row;
      NoneUnquoted(row[1..], c);
    }
  }

  lemma HeaderIsCommaHeader()
    ensures CsvLaws.CommaHeader(HeaderRow())
  {
    forall cell | cell in HeaderRow() ensures ';' !in cell && '\t' !in cell {
      var i :| 0 <= i < |COLUMNS| && HeaderRow()[i] == cell;
      NamesPlain(COLUMNS[i]);
    }
    NoneUnquoted(HeaderRow(), ';');
    NoneUnquoted(HeaderRow(), '\t');
  }

  lemma NoEmptyRow(header: seq<string>, rows: seq<seq<string>>)
    requires header != [] && forall i :: 0 <= i < |rows| ==> rows[i] != []
    ensures forall row <- [header] + rows :: row != []
  {
  }

  /** The two layers meet: the printed text scans back to the printed rows. */
  lemma PrintedRecords(questions: seq<CanonicalQuestion>)
    ensures Csv.Parse(QuestionsToCsv(questions)) == Csv.Records([HeaderRow()] + Map(PrintedRow, questions))
  {
    var rows := Map(PrintedRow, questions);
    HeaderIsCommaHeader();
    NoEmptyRow(HeaderRow(), rows);
    CsvLaws.RoundTrip([HeaderRow()] + rows);
  }

  /** The column map of a printed header. */
  ghost predicate InOrder(columns: map<Column, nat>) {
    forall c: Column :: c in columns && columns[c] == Index(c)
  }

  lemma CellReads(cells: Cells, columns: map<Column, nat>, column: Column)
    requires InOrder(columns)
    ensures CellText(RowOf(cells), columns, column) == Trim(Field(cells, column))
  {
  }

  lemma OptionTrimmed(q: CanonicalQuestion)
    requires Normal(q)
    ensures forall k: nat :: Trimmed(OptionCell(q, k))
    ensures forall first, employer :: Trimmed(EndCell(q, first, employer))
  {
  }

  lemma NamesTrimmed(q: CanonicalQuestion)
    ensures Trimmed(TypeName(q.kind)) && Trimmed(DifficultyName(q.difficulty)) && Trimmed(CorrectCell(q))
    ensures forall flag :: Trimmed(FlagText(flag))
  {
  }

  lemma NumbersTrimmed(q: CanonicalQuestion)
    ensures Trimmed(NumberText(|q.options|)) && Trimmed(IntegerText(q.employerValue))
  {
    NumberTextReadsBack(|q.options|);
    if q.employerValue.Some? { NumberTextReadsBack(q.employerValue.value); }
  }

  lemma TextsTrimmed(q: CanonicalQuestion)
    requires Normal(q)
    ensures Trimmed(q.ref.GetOr("")) && Trimmed(q.section.GetOr("")) && Trimmed(q.instruction.GetOr(""))
    ensures Trimmed(q.context.GetOr("")) && Trimmed(q.stem) && Trimmed(q.rationale.GetOr(""))
    ensures Trimmed(q.transcript.GetOr("")) && Trimmed(q.employerPrompt.GetOr(""))
    ensures q.media.Some? ==> Trimmed(q.media.value.file.GetOr(""))
  {
  }

  /** No cell of a normal question has edge space to lose. */
  lemma CellsTrimmed(q: CanonicalQuestion, column: Column)
    requires Normal(q)
    ensures Trimmed(Field(CellsOf(q), column))
  {
    OptionTrimmed(q);
    NamesTrimmed(q);
    NumbersTrimmed(q);
    TextsTrimmed(q);
  }

  predicate SameTexts(text: Column -> string, cells: Cells) {
    && text(Ref) == cells.ref
    && text(Section) == cells.section
    && text(Kind) == cells.kind
    && text(Difficulty) == cells.difficulty
    && text(Instruction) == cells.instruction
    && text(Context) == cells.context
    && text(Stem) == cells.stem
    && text(Media) == cells.media
  }

  predicate SameOptions(text: Column -> string, cells: Cells) {
    && text(OptionA) == cells.optionA
    && text(OptionB) == cells.optionB
    && text(OptionC) == cells.optionC
    && text(OptionD) == cells.optionD
    && text(OptionE) == cells.optionE
    && text(OptionF) == cells.optionF
  }

  predicate SameMarks(text: Column -> string, cells: Cells) {
    && text(Correct) == cells.correct
    && text(Rationale) == cells.rationale
    && text(Transcript) == cells.transcript
    && text(ShuffleOptions) == cells.shuffleOptions
    && text(KeepLast) == cells.keepLast
  }

  predicate SameScales(text: Column -> string, cells: Cells) {
    && text(ScaleSize) == cells.scaleSize
    && text(ScaleMin) == cells.scaleMin
    && text(ScaleMax) == cells.scaleMax
    && text(EmployerPrompt) == cells.employerPrompt
    && text(EmployerMin) == cells.employerMin
    && text(EmployerMax) == cells.employerMax
    && text(EmployerValue) == cells.employerValue
  }

  lemma FieldTexts(text: Column -> string, cells: Cells)
    requires forall column: Column :: text(column) == Field(cells, column)
    ensures SameTexts(text, cells)
  {
  }

  lemma FieldOptions(text: Column -> string, cells: Cells)
    requires forall column: Column :: text(column) == Field(cells, column)
    ensures SameOptions(text, cells)
  {
  }

  lemma FieldMarks(text: Column -> string, cells: Cells)
    requires forall column: Column :: text(column) == Field(cells, column)
    ensures SameMarks(text, cells)
  {
  }

  lemma FieldScales(text: Column -> string, cells: Cells)
    requires forall column: Column :: text(column) == Field(cells, column)
    ensures SameScales(text, cells)
  {
  }

  lemma CellsFrom(text: Column -> string, cells: Cells)
    requires SameTexts(text, cells) && SameOptions(text, cells) && SameMarks(text, cells) && SameScales(text, cells)
    ensures BuildCells(text) == cells
  {
  }

  lemma RecordReads(q: CanonicalQuestion, columns: map<Column, nat>)
    requires InOrder(columns) && Normal(q)
    ensures RecordCells(PrintedRow(q), columns) == CellsOf(q)
  {
    var record, cells := PrintedRow(q), CellsOf(q);
    forall column: Column
      ensures CellText(record, columns, column) == Field(cells, column)
    {
      CellReads(cells, columns, column);
      CellsTrimmed(q, column);
    }
    var text := (column: Column) => CellText(record, columns, column);
    FieldTexts(text, cells);
    FieldOptions(text, cells);
    FieldMarks(text, cells);
    FieldScales(text, cells);
    CellsFrom(text, cells);
  }

  lemma StemPrinted(q: CanonicalQuestion)
    ensures q.stem in PrintedRow(q)
  {
    assert PrintedRow(q)[Index(Stem)] == q.stem;
  }

  lemma NotBlank(q: CanonicalQuestion)
    requires Normal(q) && q.stem != ""
    ensures !BlankRecord(PrintedRow(q))
  {
    StemPrinted(q);
    assert Trim(q.stem) == q.stem;
  }

  /** The questions at rows 2, 3, ... */
  function Numbered(questions: seq<CanonicalQuestion>): (r: seq<QuestionRow>)
    ensures |r| == |questions|
  {
    seq(|questions|, i requires 0 <= i < |questions| => QuestionRow(i + 2, questions[i]))
  }

  lemma AddClean(before: ParsedCsv, row: nat, q: CanonicalQuestion)
    ensures AddRow(before, row, RowResult(Some(q), [], [])) == before.(rows := before.rows + [QuestionRow(row, q)])
  {
  }

  lemma NumberedLast(questions: seq<CanonicalQuestion>, n: nat)
    requires 0 < n <= |questions|
    ensures Numbered(questions[..n]) == Numbered(questions[..n - 1]) + [QuestionRow(n + 1, questions[n - 1])]
  {
  }

  lemma {:induction false} DataReads(
    data: seq<seq<string>>, questions: seq<CanonicalQuestion>, n: nat, read: seq<string> -> RowResult)
    requires n <= |questions| == |data|
    requires forall i :: 0 <= i < |data| ==>
      !BlankRecord(data[i]) && read(data[i]) == RowResult(Some(questions[i]), [], [])
    ensures ReadData(data, n, read) == ParsedCsv(Numbered(questions[..n]), [], [])
  {
    if n > 0 {
      DataReads(data, questions, n - 1, read);
      AddClean(ReadData(data, n - 1, read), n + 1, questions[n - 1]);
      NumberedLast(questions, n);
    }
  }

  /** Whatever the records, what holds of every question read from one holds of them all. */
  lemma {:induction false} DataKeeps(
    data: seq<seq<string>>, n: nat, read: seq<string> -> RowResult, good: CanonicalQuestion -> bool)
    requires n <= |data|
    requires forall record :: read(record).question.Some? ==> good(read(record).question.value)
    ensures forall row <- ReadData(data, n, read).rows :: good(row.question)
  {
    if n > 0 { DataKeeps(data, n - 1, read, good); }
  }

  lemma RecordOptionsTrimmed(record: seq<string>, columns: map<Column, nat>)
    ensures forall t <- OptionTexts(RecordCells(record, columns)) :: Trimmed(t)
  {
  }

  lemma RecordGivesImportable(record: seq<string>, columns: map<Column, nat>, scoring: ScoringMethod)
    ensures var q := ParseRow(RecordCells(record, columns), scoring).question; q.Some? ==> Importable(q.value, scoring)
  {
    var cells := RecordCells(record, columns);
    RecordOptionsTrimmed(record, columns);
    ReadIsImportable(cells, scoring);
  }

  lemma TableKeeps(
    records: seq<seq<string>>, reader: map<Column, nat> -> seq<string> -> RowResult, good: CanonicalQuestion -> bool)
    requires forall columns, record ::
      var q := reader(columns)(record).question; q.Some? ==> good(q.value)
    ensures forall row <- ReadRecords(records, reader).rows :: good(row.question)
  {
    if records != [] {
      var h := ReadHeader(records[0], |records[0]|);
      DataKeeps(records[1..], |records[1..]|, reader(h.columns), good);
    }
  }

  /** Every imported question is normal, has no problems and could have come from an export. */
  lemma ImportsAreReady(text: string, scoring: ScoringMethod)
    ensures forall row <- ReadText(text, scoring).rows :: Importable(row.question, scoring)
  {
    match Csv.Parse(text) {
      case CsvError(_) =>
      case Records(records) =>
        var good := (q: CanonicalQuestion) => Importable(q, scoring);
        forall columns, record
          ensures var q := Reader(scoring)(columns)(record).question; q.Some? ==> good(q.value)
        {
          RecordGivesImportable(record, columns, scoring);
        }
        TableKeeps(records, Reader(scoring), good);
    }
  }

  // ----- No row goes missing ---------------------------------------------------------------------

  /** A row yields a question, or at least one error. */
  lemma RowOrErrors(cells: Cells, scoring: ScoringMethod)
    ensures ParseRow(cells, scoring).question.Some? <==> ParseRow(cells, scoring).errors == []
  {
  }

  lemma {:induction false} DataAccounted(data: seq<seq<string>>, n: nat, read: seq<string> -> RowResult)
    requires n <= |data| && forall record :: read(record).question.Some? <==> read(record).errors == []
    ensures var parsed := ReadData(data, n, read);
      parsed.errors == [] ==> |parsed.rows| == CountOf((r: seq<string>) => !BlankRecord(r), data[..n])
  {
    if n > 0 {
      DataAccounted(data, n - 1, read);
      assert data[..n] == data[..n - 1] + [data[n - 1]];
      CountConcat((r: seq<string>) => !BlankRecord(r), data[..n - 1], [data[n - 1]]);
    }
  }

  function Filled(records: seq<seq<string>>): nat {
    CountOf((r: seq<string>) => !BlankRecord(r), records)
  }

  lemma BodyAccounted(h: Header, data: seq<seq<string>>, reader: map<Column, nat> -> seq<string> -> RowResult)
    requires ReadBody(h, data, reader).errors == []
    requires forall record :: reader(h.columns)(record).question.Some? <==> reader(h.columns)(record).errors == []
    ensures |ReadBody(h, data, reader).rows| == Filled(data) > 0
  {
    DataAccounted(data, |data|, reader(h.columns));
    assert data[..|data|] == data;
  }

  lemma TableAccounted(records: seq<seq<string>>, reader: map<Column, nat> -> seq<string> -> RowResult)
    requires ReadRecords(records, reader).errors == []
    requires forall columns, record :: reader(columns)(record).question.Some? <==> reader(columns)(record).errors == []
    ensures records != [] && |ReadRecords(records, reader).rows| == Filled(records[1..]) > 0
  {
    assert records != [];
    BodyAccounted(ReadHeader(records[0], |records[0]|), records[1..], reader);
  }

  lemma ReaderRowOrErrors(scoring: ScoringMethod, columns: map<Column, nat>, record: seq<string>)
    ensures Reader(scoring)(columns)(record).question.Some? <==> Reader(scoring)(columns)(record).errors == []
  {
    RowOrErrors(RecordCells(record, columns), scoring);
  }

  /** A file read without errors gives one question for every row that is not blank, and at least one. */
  lemma EveryRowAccounted(text: string, scoring: ScoringMethod)
    requires ReadText(text, scoring).errors == []
    ensures Csv.Parse(text).Records? && Csv.Parse(text).records != []
    ensures |ReadText(text, scoring).rows| == Filled(Csv.Parse(text).records[1..]) > 0
  {
    var records := Csv.Parse(text).records;
    forall columns, record
      ensures Reader(scoring)(columns)(record).question.Some? <==> Reader(scoring)(columns)(record).errors == []
    {
      ReaderRowOrErrors(scoring, columns, record);
    }
    TableAccounted(records, Reader(scoring));
  }

  lemma HeaderNotBlank()
    ensures !BlankRecord(HeaderRow())
  {
    assert HeaderRow()[0] == Name(COLUMNS[0]) == "ref" && HeaderRow()[0] in HeaderRow();
    assert Trim("ref") == "ref";
  }

  lemma PrintedRowReads(q: CanonicalQuestion, columns: map<Column, nat>, scoring: ScoringMethod)
    requires InOrder(columns) && Importable(q, scoring)
    ensures RowReader(columns, scoring)(PrintedRow(q)) == RowResult(Some(q), [], [])
  {
    RecordReads(q, columns);
    RowReadsBack(q, scoring);
  }

  lemma PrintedHeader() returns (h: Header)
    ensures h == ReadHeader(HeaderRow(), |HeaderRow()|) && InOrder(h.columns)
    ensures HeaderErrors(h) == [] && h.warnings == []
  {
    h := ReadHeader(HeaderRow(), |HeaderRow()|);
    forall i, j | 0 <= i < j < |COLUMNS| ensures COLUMNS[i] != COLUMNS[j] {
      IndexUnique(i);
      IndexUnique(j);
    }
    NamesRead(COLUMNS);
    forall c: Column ensures c in h.columns && h.columns[c] == Index(c) {
      assert COLUMNS[Index(c)] == c;
    }
  }

  /** A table whose header is the printed one is read row by row. */
  lemma PrintedTable(records: seq<seq<string>>, reader: map<Column, nat> -> seq<string> -> RowResult)
    returns (columns: map<Column, nat>)
    requires records != [] && records[0] == HeaderRow()
    ensures InOrder(columns)
    ensures ReadRecords(records, reader)
      == ReadBody(Header(columns, [], []), records[1..], reader)
  {
    HeaderNotBlank();
    var h := PrintedHeader();
    columns := h.columns;
  }

  lemma PrintedData(questions: seq<CanonicalQuestion>, columns: map<Column, nat>, scoring: ScoringMethod)
    requires InOrder(columns) && forall q <- questions :: Importable(q, scoring)
    ensures ReadData(Map(PrintedRow, questions), |questions|, RowReader(columns, scoring))
      == ParsedCsv(Numbered(questions), [], [])
  {
    var data, read := Map(PrintedRow, questions), RowReader(columns, scoring);
    forall i | 0 <= i < |data|
      ensures !BlankRecord(data[i]) && read(data[i]) == RowResult(Some(questions[i]), [], [])
    {
      assert questions[i] in questions;
      NotBlank(questions[i]);
      PrintedRowReads(questions[i], columns, scoring);
    }
    DataReads(data, questions, |data|, read);
    assert questions[..|questions|] == questions;
  }

  lemma CleanBody(
    data: seq<seq<string>>, columns: map<Column, nat>, reader: map<Column, nat> -> seq<string> -> RowResult,
    questions: seq<CanonicalQuestion>)
    requires Stem in columns && questions != []
    requires ReadData(data, |data|, reader(columns)) == ParsedCsv(Numbered(questions), [], [])
    ensures ReadBody(Header(columns, [], []), data, reader) == ParsedCsv(Numbered(questions), [], [])
  {
  }

  lemma ImportableReadsBack(questions: seq<CanonicalQuestion>, scoring: ScoringMethod)
    requires questions != [] && forall q <- questions :: Importable(q, scoring)
    ensures ReadText(QuestionsToCsv(questions), scoring) == ParsedCsv(Numbered(questions), [], [])
  {
    var data, reader := Map(PrintedRow, questions), Reader(scoring);
    var records := [HeaderRow()] + data;
    PrintedRecords(questions);
    assert records[1..] == data;
    var columns := PrintedTable(records, reader);
    PrintedData(questions, columns, scoring);
    CleanBody(data, columns, reader, questions);
  }

  lemma NothingReadsBackEmpty(scoring: ScoringMethod)
    ensures ReadText(QuestionsToCsv([]), scoring).errors != []
  {
    PrintedRecords([]);
    var _ := PrintedTable([HeaderRow()] + Map(PrintedRow, []), Reader(scoring));
  }

  /**
   * An exported file imports as exactly the exported questions, at rows 2
   * onwards and with nothing to report, exactly when there are questions and
   * each is normal, problem-free and within what a row can hold.
   */
  lemma RoundTrip(questions: seq<CanonicalQuestion>, scoring: ScoringMethod)
    ensures ReadText(QuestionsToCsv(questions), scoring) == ParsedCsv(Numbered(questions), [], [])
      <==> questions != [] && forall q <- questions :: Importable(q, scoring)
  {
    var read := ReadText(QuestionsToCsv(questions), scoring);
    if questions == [] {
      NothingReadsBackEmpty(scoring);
    } else if forall q <- questions :: Importable(q, scoring) {
      ImportableReadsBack(questions, scoring);
    } else {
      ImportsAreReady(QuestionsToCsv(questions), scoring);
      if read == ParsedCsv(Numbered(questions), [], []) {
        forall i | 0 <= i < |questions| ensures Importable(questions[i], scoring) {
          assert Numbered(questions)[i] in read.rows;
        }
        assert false;
      }
    }
  }
}
