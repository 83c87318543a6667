/**
 * A question while someone edits it. The form's buttons bound what can happen
 * to a draft; a draft without problems is one the server accepts.
 */
module Editor {
  import opened Basics
  import opened Text
  import opened Questions
  import opened Snapshots
  import opened Content
  import Authoring

  const MAX_CHOICES := 6
  const MIN_POINTS := 2
  const MAX_POINTS := 7
  const DEFAULT_POINTS := 5

  /** A saved option's id, or a made-up key. */
  datatype Key = SavedKey(id: Id) | NewKey(n: nat)

  datatype OptionDraft = OptionDraft(
    key: Key,
    id: Option<Id>,
    text: string,
    employerText: string,
    value: Option<int>,
    isCorrect: bool
  )

  /** The parts of the form that stand on their own. */
  datatype Details = Details(
    sectionId: Option<Id>,
    ref: string,
    difficulty: Option<Difficulty>,
    instruction: string,
    context: string,
    stem: string,
    media: Option<Asset>,
    mediaFileName: Option<string>,
    rationale: string,
    transcript: string,
    shuffleOptions: Option<bool>,
    keepLastOptionFixed: bool,
    employerPrompt: string
  )

  datatype Draft = Draft(kind: QuestionType, details: Details, options: seq<OptionDraft>, employerKey: Option<Key>)

  function TypesByMethod(scoring: ScoringMethod): seq<QuestionType> {
    match scoring
    case CorrectAnswer => [SingleChoice, TrueFalse]
    case Alignment => [RatingScale, ChoiceScale]
  }

  // ----- Starting a draft -----------------------------------------------------------------------

  function Typed(text: Option<string>): string { text.GetOr("") }

  function OptionFromRow(o: SnapshotOption): OptionDraft {
    OptionDraft(SavedKey(o.id), Some(o.id), o.text, Typed(o.employerText), o.value, o.isCorrect)
  }

  function DraftFrom(row: StoredQuestion): Draft {
    var at := Find((o: SnapshotOption) => o.value.Some? && o.value == row.employerValue, row.options);
    Draft(row.kind,
      Details(row.sectionId, Typed(row.ref), row.difficulty, Typed(row.instruction), Typed(row.context), row.stem,
        row.media, row.mediaFileName, Typed(row.rationale), Typed(row.transcript), row.shuffleOptions,
        row.keepLastOptionFixed,
        Typed(row.employerPrompt)),
      Map(OptionFromRow, row.options),
      if at < |row.options| then Some(SavedKey(row.options[at].id)) else None)
  }

  const BLANK_DETAILS := Details(None, "", None, "", "", "", None, None, "", "", None, false, "")

  // ----- Changing the options ----------------------------------------------------------------------

  function Blank(n: nat, text: string): OptionDraft {
    OptionDraft(NewKey(n), None, text, "", None, false)
  }

  predicate Written(o: OptionDraft) { Trim(o.text) != "" }

  /** The written options that still fit. */
  function Carried(current: seq<OptionDraft>): (r: seq<OptionDraft>)
    ensures |r| <= MAX_CHOICES
  {
    var written := Filter(Written, current);
    if |written| > MAX_CHOICES then written[..MAX_CHOICES] else written
  }

  function AsChoice(o: OptionDraft): OptionDraft { o.(employerText := "", value := None) }

  function AsScaleChoice(o: OptionDraft): OptionDraft { o.(isCorrect := false, value := None) }

  function Unvalued(o: OptionDraft): OptionDraft { o.(value := None) }

  /** The option that reads like a word, whatever its case. */
  function Reading(current: seq<OptionDraft>, word: string): nat {
    Find((o: OptionDraft) => ToLower(Trim(o.text)) == ToLower(word), current)
  }

  // ----- What is sent ---------------------------------------------------------------------------------

  predicate Climbs(values: seq<Option<int>>) {
    forall i :: 0 <= i < |values| ==>
      values[i].Some? && (i == 0 || (values[i - 1].Some? && values[i].value > values[i - 1].value))
  }

  function StoredValues(options: seq<OptionDraft>): seq<Option<int>> {
    Map((o: OptionDraft) => o.value, options)
  }

  /** The values a scale saves: the stored ones while they still climb, otherwise 1 to n. */
  function ScaleValues(options: seq<OptionDraft>): (values: seq<int>)
    ensures |values| == |options|
  {
    var stored := StoredValues(options);
    if Climbs(stored) then seq(|options|, i requires 0 <= i < |options| => stored[i].GetOr(i + 1))
    else seq(|options|, i => i + 1)
  }

  function SentOption(kind: QuestionType, o: OptionDraft, value: int): Authoring.InputOption {
    Authoring.InputOption(o.id, Trim(o.text),
      if IsScale(kind) then BlankToNull(Some(o.employerText)) else None,
      if IsScale(kind) then Some(value) else None,
      if IsScale(kind) then false else o.isCorrect)
  }

  function SentOptions(d: Draft): (r: seq<Authoring.InputOption>)
    ensures |r| == |d.options|
    ensures forall i :: 0 <= i < |r| ==> r[i] == SentOption(d.kind, d.options[i], ScaleValues(d.options)[i])
  {
    var values := ScaleValues(d.options);
    seq(|d.options|, i requires 0 <= i < |d.options| => SentOption(d.kind, d.options[i], values[i]))
  }

  function EmployerIndex(d: Draft): nat {
    Find((o: OptionDraft) => d.employerKey == Some(o.key), d.options)
  }

  function EmployerValue(d: Draft): Option<int> {
    if IsScale(d.kind) && EmployerIndex(d) < |d.options| then Some(ScaleValues(d.options)[EmployerIndex(d)]) else None
  }

  /** What the API receives when the question is saved. */
  function ToInput(d: Draft): Authoring.QuestionInput {
    var scale, choice, x := IsScale(d.kind), d.kind == SingleChoice, d.details;
    Authoring.QuestionInput(
      x.sectionId,
      if x.media.Some? then Some(x.media.value.id) else None,
      if x.media.Some? then None else x.mediaFileName,
      BlankToNull(Some(x.ref)), d.kind, x.difficulty,
      BlankToNull(Some(x.instruction)), BlankToNull(Some(x.context)), Trim(x.stem),
      SentOptions(d),
      BlankToNull(Some(x.rationale)), BlankToNull(Some(x.transcript)),
      if choice then x.shuffleOptions else None,
      if choice then x.keepLastOptionFixed else false,
      if scale then BlankToNull(Some(x.employerPrompt)) else None,
      EmployerValue(d))
  }

  // ----- What stops it from saving -------------------------------------------------------------------------

  datatype OptionProblem = TooFew | SomeBlankText | NoRightAnswer

  datatype DraftProblems = DraftProblems(kind: bool, stem: bool, options: Option<OptionProblem>, employer: bool)

  const NO_PROBLEMS := DraftProblems(false, false, None, false)

  predicate BlankText(options: seq<OptionDraft>) {
    exists o <- options :: Trim(o.text) == ""
  }

  function MarkedCount(options: seq<OptionDraft>): nat {
    |Filter((o: OptionDraft) => o.isCorrect, options)|
  }

  predicate Picked(d: Draft) {
    exists o <- d.options :: d.employerKey == Some(o.key)
  }

  method CheckDraft(d: Draft, scoring: ScoringMethod) returns (problems: DraftProblems)
    ensures problems == NO_PROBLEMS <==> Saveable(d, scoring)
    ensures problems.kind <==> d.kind !in TypesByMethod(scoring)
    ensures problems.stem <==> Trim(d.details.stem) == ""
    ensures problems.employer <==> IsScale(d.kind) && !Picked(d)
    ensures problems.options.Some? <==> !OptionsDone(d)
    ensures problems.options == Some(TooFew) <==> (d.kind == SingleChoice || d.kind == ChoiceScale) && |d.options| < 2
    ensures problems.options == Some(SomeBlankText) <==>
      (d.kind == SingleChoice || d.kind == ChoiceScale) && |d.options| >= 2
      && exists o <- d.options :: Trim(o.text) == ""
  {
    problems := NO_PROBLEMS;
    if d.kind !in TypesByMethod(scoring) { problems := problems.(kind := true); }
    if Trim(d.details.stem) == "" { problems := problems.(stem := true); }
    match d.kind {
      case SingleChoice =>
        if |d.options| < 2 { problems := problems.(options := Some(TooFew)); }
        else if BlankText(d.options) { problems := problems.(options := Some(SomeBlankText)); }
        else if MarkedCount(d.options) != 1 { problems := problems.(options := Some(NoRightAnswer)); }
      case TrueFalse =>
        if MarkedCount(d.options) != 1 { problems := problems.(options := Some(NoRightAnswer)); }
      case ChoiceScale =>
        if |d.options| < 2 { problems := problems.(options := Some(TooFew)); }
        else if BlankText(d.options) { problems := problems.(options := Some(SomeBlankText)); }
        if !Picked(d) { problems := problems.(employer := true); }
      case RatingScale =>
        if !Picked(d) { problems := problems.(employer := true); }
    }
  }

  /** The form has no complaint about the options. */
  predicate OptionsDone(d: Draft) {
    match d.kind
    case SingleChoice => |d.options| >= 2 && !BlankText(d.options) && MarkedCount(d.options) == 1
    case TrueFalse => MarkedCount(d.options) == 1
    case ChoiceScale => |d.options| >= 2 && !BlankText(d.options)
    case RatingScale => true
  }

  predicate Saveable(d: Draft, scoring: ScoringMethod) {
    && d.kind in TypesByMethod(scoring) && Trim(d.details.stem) != ""
    && OptionsDone(d) && (IsScale(d.kind) ==> Picked(d))
  }

  // ----- What the form's buttons keep -----------------------------------------------------------------------

  predicate SizeOk(kind: QuestionType, n: nat) {
    match kind
    case SingleChoice => 2 <= n <= MAX_CHOICES
    case TrueFalse => n == 2
    case ChoiceScale => 2 <= n <= MAX_CHOICES
    case RatingScale => MIN_POINTS <= n <= MAX_POINTS
  }

  /** Made-up keys come from the counter, and only saved options have an id. */
  predicate KeyOk(o: OptionDraft, lastKey: nat) {
    match o.key
    case SavedKey(id) => o.id == Some(id)
    case NewKey(n) => o.id == None && n <= lastKey
  }

  ghost predicate KeysOk(options: seq<OptionDraft>, lastKey: nat) {
    && (forall i :: 0 <= i < |options| ==> KeyOk(options[i], lastKey))
    && forall i, j :: 0 <= i < j < |options| ==> options[i].key != options[j].key
  }

  ghost predicate DraftOk(d: Draft, lastKey: nat) {
    SizeOk(d.kind, |d.options|) && KeysOk(d.options, lastKey)
  }

  // ----- What the server makes of it ----------------------------------------------------------------------------

  function SentQuestion(d: Draft): CanonicalQuestion {
    Normalize(Authoring.InputQuestion(ToInput(d)))
  }

  /** The option the server checks, from the draft's. */
  lemma SentOptionIs(d: Draft, i: nat)
    requires i < |d.options|
    ensures |SentQuestion(d).options| == |d.options|
    ensures var o, x := SentQuestion(d).options[i], d.options[i];
      && o.text == Trim(x.text)
      && o.correct == (!IsScale(d.kind) && x.isCorrect)
      && o.value == (if IsScale(d.kind) then Some(ScaleValues(d.options)[i]) else None)
  {
  }

  /** The values a scale sends are whole numbers, each above the one before. */
  lemma ValuesClimb(options: seq<OptionDraft>, i: nat, j: nat)
    requires i < j < |options|
    ensures ScaleValues(options)[i] < ScaleValues(options)[j]
    decreases j
  {
    var stored := StoredValues(options);
    if Climbs(stored) {
      assert stored[j].Some? && stored[j - 1].Some? && stored[i].Some?;
      if i < j - 1 { ValuesClimb(options, i, j - 1); }
    }
  }

  lemma {:induction false} SameSizes<A, B>(p: A -> bool, q: B -> bool, s: seq<A>, t: seq<B>)
    requires |s| == |t| && forall i :: 0 <= i < |s| ==> p(s[i]) == q(t[i])
    ensures |Filter(p, s)| == |Filter(q, t)|
  {
    if s != [] { SameSizes(p, q, s[1..], t[1..]); }
  }

  lemma SentMarks(d: Draft)
    requires d.options != [] && !IsScale(d.kind)
    ensures CorrectCount(SentQuestion(d).options) == MarkedCount(d.options)
  {
    var options := SentQuestion(d).options;
    SentOptionIs(d, 0);
    forall i | 0 <= i < |d.options| ensures options[i].correct == d.options[i].isCorrect { SentOptionIs(d, i); }
    SameSizes((o: CanonicalOption) => o.correct, (o: OptionDraft) => o.isCorrect, options, d.options);
  }

  lemma SentBlanks(d: Draft)
    requires d.options != []
    ensures SomeBlank(SentQuestion(d).options) <==> BlankText(d.options)
  {
    var options := SentQuestion(d).options;
    SentOptionIs(d, 0);
    forall i | 0 <= i < |d.options| ensures options[i].text == Trim(d.options[i].text) { SentOptionIs(d, i); }
    if SomeBlank(options) {
      var i :| 0 <= i < |options| && options[i].text == "";
      assert d.options[i] in d.options;
    }
    if BlankText(d.options) {
      var i :| 0 <= i < |d.options| && Trim(d.options[i].text) == "";
      assert options[i] in options;
    }
  }

  lemma SentClimbs(d: Draft)
    requires d.options != [] && IsScale(d.kind)
    ensures Climbing(SentQuestion(d).options)
  {
    var options := SentQuestion(d).options;
    SentOptionIs(d, 0);
    forall i | 0 <= i < |options| ensures options[i].value == Some(ScaleValues(d.options)[i]) { SentOptionIs(d, i); }
    forall o | o in options ensures o.value.Some? {
      var i :| 0 <= i < |options| && options[i] == o;
    }
    forall i, j | 0 <= i < j < |options| ensures options[i].value.value < options[j].value.value {
      ValuesClimb(d.options, i, j);
    }
  }

  /** The role's answer is among the values sent exactly when an option was picked for it. */
  lemma SentRole(d: Draft)
    requires d.options != [] && IsScale(d.kind)
    ensures HasValue(SentQuestion(d).options, EmployerValue(d)) <==> Picked(d)
  {
    var at := EmployerIndex(d);
    if Picked(d) {
      var i :| 0 <= i < |d.options| && d.employerKey == Some(d.options[i].key);
      SentOptionIs(d, at);
      assert SentQuestion(d).options[at] in SentQuestion(d).options;
    }
  }

  lemma KindAllowed(kind: QuestionType, scoring: ScoringMethod)
    ensures kind in TypesByMethod(scoring) <==> (scoring == Alignment <==> IsScale(kind))
  {
  }

  /** The server accepts exactly the drafts the form has no complaint about. */
  lemma AcceptedWhenSaveable(d: Draft, scoring: ScoringMethod)
    requires SizeOk(d.kind, |d.options|)
    ensures QuestionProblems(SentQuestion(d), scoring) == [] <==> Saveable(d, scoring)
  {
    var q := SentQuestion(d);
    SentOptionIs(d, 0);
    KindAllowed(d.kind, scoring);
    ProblemFree(q, scoring);
    if IsScale(d.kind) {
      SentClimbs(d);
      SentRole(d);
    } else {
      SentMarks(d);
      if d.kind == TrueFalse { CorrectOfTwo(q.options); }
    }
    if d.kind == SingleChoice || d.kind == ChoiceScale { SentBlanks(d); }
  }
}
