/** The form itself: each button with the guard that enables it, and what no sequence of them can break. */
module DraftEditor {
  import opened Basics
  import opened Questions
  import opened Snapshots
  import opened Content
  import opened OrderColumn
  import opened Editor
  import Authoring

  // ----- Keys ---------------------------------------------------------------------------------

  lemma {:induction false} FilterKeys(p: OptionDraft -> bool, options: seq<OptionDraft>, lastKey: nat)
    requires KeysOk(options, lastKey)
    ensures KeysOk(Filter(p, options), lastKey)
  {
    if options != [] {
      var rest := Filter(p, options[1..]);
      FilterKeys(p, options[1..], lastKey);
      forall i | 0 <= i < |rest| ensures rest[i].key != options[0].key {
        assert rest[i] in options[1..];
        var k :| 0 <= k < |options[1..]| && options[1..][k] == rest[i];
        assert options[k + 1] == rest[i];
      }
    }
  }

  /** Changing options but not their keys keeps the keys in order. */
  lemma SameKeys(options: seq<OptionDraft>, changed: seq<OptionDraft>, lastKey: nat)
    requires KeysOk(options, lastKey) && |changed| <= |options|
    requires forall i :: 0 <= i < |changed| ==> changed[i].key == options[i].key && changed[i].id == options[i].id
    ensures KeysOk(changed, lastKey)
  {
  }

  lemma CarriedKeys(current: seq<OptionDraft>, f: OptionDraft -> OptionDraft, lastKey: nat)
    requires KeysOk(current, lastKey) && forall o: OptionDraft :: f(o).key == o.key && f(o).id == o.id
    ensures KeysOk(Map(f, Carried(current)), lastKey)
  {
    FilterKeys(Written, current, lastKey);
    SameKeys(Filter(Written, current), Map(f, Carried(current)), lastKey);
  }

  /** The option at a place under a fixed text, or a new one. */
  function FixedAt(current: seq<OptionDraft>, at: nat, word: string, lastKey: nat): OptionDraft {
    if at < |current| then AsChoice(current[at]).(text := word) else Blank(lastKey + 1, word)
  }

  function KeyAfter(current: seq<OptionDraft>, at: nat, lastKey: nat): nat {
    if at < |current| then lastKey else lastKey + 1
  }

  lemma FixedKeys(current: seq<OptionDraft>, lastKey: nat, a: nat, b: nat, yes: string, no: string)
    requires KeysOk(current, lastKey) && (a < |current| ==> a != b)
    ensures var middle := KeyAfter(current, a, lastKey);
      KeysOk([FixedAt(current, a, yes, lastKey), FixedAt(current, b, no, middle)], KeyAfter(current, b, middle))
  {
  }

  lemma {:induction false} SentListed(options: seq<Authoring.InputOption>, id: Id)
    requires id in Authoring.SentIds(options)
    ensures exists i :: 0 <= i < |options| && options[i].id == Some(id)
  {
    var n := |options| - 1;
    if id in Authoring.SentIds(options[..n]) {
      SentListed(options[..n], id);
      var i :| 0 <= i < n && options[..n][i].id == Some(id);
      assert options[i].id == Some(id);
    } else {
      assert options[n].id == Some(id);
    }
  }

  lemma {:induction false} SentDistinct(options: seq<Authoring.InputOption>)
    requires forall i, j :: 0 <= i < j < |options| && options[i].id.Some? ==> options[i].id != options[j].id
    ensures Distinct(Authoring.SentIds(options))
  {
    if options != [] {
      var n := |options| - 1;
      var before := Authoring.SentIds(options[..n]);
      SentDistinct(options[..n]);
      if options[n].id.Some? {
        forall id | id in before ensures id != options[n].id.value {
          SentListed(options[..n], id);
          var i :| 0 <= i < n && options[..n][i].id == Some(id);
          assert options[i].id == Some(id);
        }
        assert (before + [options[n].id.value])[..|before|] == before;
        LastNew(before + [options[n].id.value]);
      }
    }
  }

  /** No draft sends an option id twice. */
  lemma IdsSentOnce(d: Draft, lastKey: nat)
    requires KeysOk(d.options, lastKey)
    ensures Distinct(Authoring.SentIds(ToInput(d).options))
  {
    var sent := SentOptions(d);
    forall i, j | 0 <= i < j < |sent| && sent[i].id.Some? ensures sent[i].id != sent[j].id {
      assert KeyOk(d.options[i], lastKey) && KeyOk(d.options[j], lastKey);
    }
    SentDistinct(sent);
  }

  /** The next made-up options. */
  function Blanks(lastKey: nat, n: nat): (r: seq<OptionDraft>)
    ensures |r| == n && forall i :: 0 <= i < n ==> r[i] == Blank(lastKey + 1 + i, "")
  {
    seq(n, i requires 0 <= i < n => Blank(lastKey + 1 + i, ""))
  }

  lemma BlanksGrow(options: seq<OptionDraft>, lastKey: nat, n: nat)
    ensures options + Blanks(lastKey, n) + [Blank(lastKey + n + 1, "")] == options + Blanks(lastKey, n + 1)
  {
  }

  /** The end label goes back to the end: it is none of the others. */
  lemma LastKept(options: seq<OptionDraft>, lastKey: nat, kept: nat, missing: nat)
    requires KeysOk(options, lastKey) && kept < |options|
    ensures var last := Unvalued(options[|options| - 1]);
      KeysOk(Map(Unvalued, options[..kept]) + Blanks(lastKey, missing) + [last], lastKey + missing)
  {
  }

  /** A fixed answer: the option that reads like the word keeps its key, id and mark; without one it is new. */
  predicate FixedFrom(current: seq<OptionDraft>, word: string, option: OptionDraft) {
    var at := Reading(current, word);
    && option.text == word && option.employerText == "" && option.value == None
    && if at < |current| then
         option.key == current[at].key && option.id == current[at].id && option.isCorrect == current[at].isCorrect
       else option.key.NewKey? && option.id == None && !option.isCorrect
  }

  /** The options kept, with blank ones after them up to n. */
  predicate PaddedTo(kept: seq<OptionDraft>, n: nat, options: seq<OptionDraft>) {
    && kept <= options && |options| == (if |kept| < n then n else |kept|)
    && forall i :: |kept| <= i < |options| ==>
      options[i].key.NewKey? && options[i] == Blank(options[i].key.n, "")
  }

  /** What is carried over when a question's type changes. */
  ghost predicate OptionsFollow(kind: QuestionType, current: seq<OptionDraft>, options: seq<OptionDraft>) {
    match kind
    case SingleChoice => PaddedTo(Map(AsChoice, Carried(current)), 4, options)
    case ChoiceScale => PaddedTo(Map(AsScaleChoice, Carried(current)), 3, options)
    case RatingScale => PaddedTo([], DEFAULT_POINTS, options)
    case TrueFalse =>
      |options| == 2 && FixedFrom(current, "True", options[0]) && FixedFrom(current, "False", options[1])
  }

  /** A scale of another size: the first points stay first and the end label last, with blank points between. */
  predicate Resized(options: seq<OptionDraft>, size: nat, resized: seq<OptionDraft>) {
    |resized| == size && forall i :: 0 <= i < size ==>
      if i == size - 1 && |options| > 1 then resized[i] == Unvalued(options[|options| - 1])
      else if i < |options| - 1 then resized[i] == Unvalued(options[i])
      else resized[i].key.NewKey? && resized[i] == Blank(resized[i].key.n, "")
  }

  /** What saving does: the form complains, has nothing to save, or sends. */
  datatype Saving = HeldBack | Unchanged | Sent(input: Authoring.QuestionInput)

  /** A saved question of a kind the test allows makes a draft the form can hold. */
  lemma SavedDraftOk(row: StoredQuestion, scoring: ScoringMethod, lastKey: nat)
    requires Kept(row, scoring) && DistinctOptions(row.options)
    ensures DraftOk(DraftFrom(row), lastKey)
  {
    ProblemFree(ToCanonical(row, None).(media := None), scoring);
  }

  // ----- The form ------------------------------------------------------------------------------

  class Form {
    var lastKey: nat
    var draft: Draft
    /** The draft the form opened with, and whether that was a saved question. */
    var original: Draft
    var saved: bool

    ghost predicate Valid() reads this { DraftOk(draft, lastKey) }

    /** A new question of the method's first kind. */
    constructor Empty(scoring: ScoringMethod, sectionId: Option<Id>, lastKey: nat)
      ensures Valid() && draft.kind == (if scoring == Alignment then RatingScale else SingleChoice)
      ensures draft.details == Details(sectionId, "", None, "", "", "", None, None, "", "", None, false, "")
      ensures draft.employerKey == None && OptionsFollow(draft.kind, [], draft.options) && original == draft && !saved
    {
      this.lastKey, saved := lastKey, false;
      draft := Draft(TypesByMethod(scoring)[0], BLANK_DETAILS.(sectionId := sectionId), [], None);
      new;
      var options := OptionsFor(draft.kind, []);
      draft := draft.(options := options);
      original := draft;
    }

    /** A saved question. */
    constructor FromQuestion(row: StoredQuestion, scoring: ScoringMethod, lastKey: nat)
      requires Kept(row, scoring) && DistinctOptions(row.options)
      ensures Valid() && original == draft == DraftFrom(row) && saved
    {
      SavedDraftOk(row, scoring, lastKey);
      this.lastKey, draft, original, saved := lastKey, DraftFrom(row), DraftFrom(row), true;
    }

    method BlankOption(text: string) returns (option: OptionDraft)
      modifies this`lastKey
      ensures lastKey == old(lastKey) + 1 && option == Blank(lastKey, text)
    {
      lastKey := lastKey + 1;
      option := Blank(lastKey, text);
    }

    method PadTo(options: seq<OptionDraft>, length: nat) returns (padded: seq<OptionDraft>)
      requires KeysOk(options, lastKey)
      modifies this`lastKey
      ensures KeysOk(padded, lastKey)
      ensures var missing := if |options| < length then length - |options| else 0;
        padded == options + Blanks(old(lastKey), missing) && lastKey == old(lastKey) + missing
    {
      padded := options;
      while |padded| < length
        invariant KeysOk(padded, lastKey) && lastKey >= old(lastKey)
        invariant lastKey == old(lastKey) + |padded| - |options| && (|padded| <= length || padded == options)
        invariant padded == options + Blanks(old(lastKey), lastKey - old(lastKey))
      {
        BlanksGrow(options, old(lastKey), lastKey - old(lastKey));
        var option := BlankOption("");
        padded := padded + [option];
      }
    }

    /** One of the two fixed answers: the option that reads like it, or a new one. */
    method FixedAnswer(current: seq<OptionDraft>, word: string) returns (option: OptionDraft)
      modifies this`lastKey
      ensures option == FixedAt(current, Reading(current, word), word, old(lastKey))
      ensures lastKey == KeyAfter(current, Reading(current, word), old(lastKey))
    {
      var at := Reading(current, word);
      if at < |current| { return AsChoice(current[at]).(text := word); }
      option := BlankOption(word);
    }

    /** The two answers of a True/False question. */
    method FixedAnswers(current: seq<OptionDraft>) returns (options: seq<OptionDraft>)
      requires KeysOk(current, lastKey)
      modifies this`lastKey
      ensures KeysOk(options, lastKey) && OptionsFollow(TrueFalse, current, options)
    {
      FixedKeys(current, lastKey, Reading(current, "True"), Reading(current, "False"), "True", "False");
      var yes := FixedAnswer(current, "True");
      var no := FixedAnswer(current, "False");
      options := [yes, no];
    }

    /** The options after the question's type changes, keeping the text that still fits. */
    method OptionsFor(kind: QuestionType, current: seq<OptionDraft>) returns (options: seq<OptionDraft>)
      requires KeysOk(current, lastKey)
      modifies this`lastKey
      ensures KeysOk(options, lastKey) && SizeOk(kind, |options|) && OptionsFollow(kind, current, options)
    {
      match kind {
        case TrueFalse =>
          options := FixedAnswers(current);
        case SingleChoice =>
          CarriedKeys(current, AsChoice, lastKey);
          options := PadTo(Map(AsChoice, Carried(current)), 4);
        case ChoiceScale =>
          CarriedKeys(current, AsScaleChoice, lastKey);
          options := PadTo(Map(AsScaleChoice, Carried(current)), 3);
        case RatingScale =>
          options := PadTo([], DEFAULT_POINTS);
      }
    }

    /** A rating scale with `size` points. The end labels stay at the ends. */
    method ResizeScale(options: seq<OptionDraft>, size: nat) returns (resized: seq<OptionDraft>)
      requires KeysOk(options, lastKey) && size > 0
      modifies this`lastKey
      ensures KeysOk(resized, lastKey) && Resized(options, size, resized)
    {
      var kept := if |options| == 0 then 0 else if |options| - 1 < size - 1 then |options| - 1 else size - 1;
      var start := Map(Unvalued, options[..kept]);
      SameKeys(options, start, lastKey);
      if |options| > 1 {
        resized := PadTo(start, size - 1);
        LastKept(options, old(lastKey), kept, size - 1 - kept);
        resized := resized + [Unvalued(options[|options| - 1])];
      } else {
        resized := PadTo(start, size);
      }
    }

    // ----- What the buttons do ---------------------------------------------------------------------

    method ChangeType(kind: QuestionType)
      requires Valid()
      modifies this`lastKey, this`draft
      ensures Valid() && draft.kind == kind && draft.details == old(draft.details)
      ensures OptionsFollow(kind, old(draft.options), draft.options)
      ensures draft.employerKey ==
        if Picked(draft.(employerKey := old(draft.employerKey))) then old(draft.employerKey) else None
    {
      var options := OptionsFor(kind, draft.options);
      var moved := Draft(kind, draft.details, options, draft.employerKey);
      draft := if Picked(moved) then moved else moved.(employerKey := None);
    }

    method SetDetails(details: Details)
      requires Valid()
      modifies this`draft
      ensures Valid() && draft == old(draft).(details := details)
    {
      draft := draft.(details := details);
    }

    /** Rewords one option, for the candidate or for the role. */
    method SetText(key: Key, text: string, forRole: bool)
      requires Valid()
      modifies this`draft
      ensures Valid() && draft == old(draft).(options := draft.options) && |draft.options| == |old(draft.options)|
      ensures forall i :: 0 <= i < |draft.options| ==>
        var o := old(draft.options)[i];
        draft.options[i] ==
          if o.key != key then o else if forRole then o.(employerText := text) else o.(text := text)
    {
      var options := Map((o: OptionDraft) =>
        if o.key != key then o else if forRole then o.(employerText := text) else o.(text := text), draft.options);
      SameKeys(draft.options, options, lastKey);
      draft := draft.(options := options);
    }

    /** Marks the right answer, on the types that have one. */
    method MarkRight(key: Key)
      requires Valid() && !IsScale(draft.kind)
      modifies this`draft
      ensures Valid()
      ensures draft == old(draft).(options :=
        Map((o: OptionDraft) => o.(isCorrect := o.key == key), old(draft.options)))
    {
      var options := Map((o: OptionDraft) => o.(isCorrect := o.key == key), draft.options);
      SameKeys(draft.options, options, lastKey);
      draft := draft.(options := options);
    }

    /** Picks the answer that fits the role, on a scale. */
    method PickForRole(key: Key)
      requires Valid() && IsScale(draft.kind)
      modifies this`draft
      ensures Valid() && draft == old(draft).(employerKey := Some(key))
    {
      draft := draft.(employerKey := Some(key));
    }

    /** Adds an option at the end, while there is room. */
    method AddOption()
      requires Valid() && (draft.kind == SingleChoice || draft.kind == ChoiceScale) && |draft.options| < MAX_CHOICES
      modifies this`lastKey, this`draft
      ensures Valid() && lastKey == old(lastKey) + 1
      ensures draft == old(draft).(options := old(draft.options) + [Blank(lastKey, "")])
    {
      var option := BlankOption("");
      draft := draft.(options := draft.options + [option]);
    }

    /** Removes an option while more than two are left. A scale is renumbered, and forgets a removed pick. */
    method RemoveOption(key: Key)
      requires Valid() && (draft.kind == SingleChoice || draft.kind == ChoiceScale) && |draft.options| > 2
      modifies this`draft
      ensures Valid() && draft == WithoutOption(old(draft), key)
    {
      RemovedDraftOk(draft, lastKey, key);
      draft := WithoutOption(draft, key);
    }

    method Resize(size: nat)
      requires Valid() && draft.kind == RatingScale && MIN_POINTS <= size <= MAX_POINTS
      modifies this`lastKey, this`draft
      ensures Valid() && draft.kind == RatingScale && draft.details == old(draft.details)
      ensures Resized(old(draft.options), size, draft.options)
      ensures draft.employerKey ==
        if Picked(draft.(employerKey := old(draft.employerKey))) then old(draft.employerKey) else None
    {
      var options := ResizeScale(draft.options, size);
      var resized := draft.(options := options);
      draft := if Picked(resized) then resized else resized.(employerKey := None);
    }

    /**
     * Saving: the form complains, or closes when a saved question was not changed,
     * or sends. Whatever was done before, the server accepts what is sent.
     */
    method Submit(scoring: ScoringMethod) returns (saving: Saving)
      requires Valid()
      ensures saving.HeldBack? <==> !Saveable(draft, scoring)
      ensures saving.Unchanged? <==> Saveable(draft, scoring) && saved && ToInput(draft) == ToInput(original)
      ensures saving.Sent? ==>
        && saving.input == ToInput(draft)
        && QuestionProblems(Normalize(Authoring.InputQuestion(saving.input)), scoring) == []
        && Distinct(Authoring.SentIds(saving.input.options))
      ensures saving.HeldBack? ==> QuestionProblems(SentQuestion(draft), scoring) != []
    {
      var problems := CheckDraft(draft, scoring);
      AcceptedWhenSaveable(draft, scoring);
      if problems != NO_PROBLEMS { return HeldBack; }
      if saved && ToInput(draft) == ToInput(original) { return Unchanged; }
      IdsSentOnce(draft, lastKey);
      saving := Sent(ToInput(draft));
    }
  }

  function WithoutOption(d: Draft, key: Key): Draft {
    var left := Filter((o: OptionDraft) => o.key != key, d.options);
    if IsScale(d.kind) then
      d.(options := Map(Unvalued, left), employerKey := if d.employerKey == Some(key) then None else d.employerKey)
    else d.(options := left)
  }

  /** Keys are distinct, so at most one option goes. */
  lemma {:induction false} OneRemoved(options: seq<OptionDraft>, lastKey: nat, key: Key)
    requires KeysOk(options, lastKey)
    ensures |Filter((o: OptionDraft) => o.key != key, options)| >= |options| - 1
  {
    if options != [] {
      if options[0].key == key {
        FilterAll((o: OptionDraft) => o.key != key, options[1..]);
      } else {
        OneRemoved(options[1..], lastKey, key);
      }
    }
  }

  lemma {:induction false} FilterSize(p: OptionDraft -> bool, options: seq<OptionDraft>)
    ensures |Filter(p, options)| <= |options|
  {
    if options != [] { FilterSize(p, options[1..]); }
  }

  lemma RemovedDraftOk(d: Draft, lastKey: nat, key: Key)
    requires DraftOk(d, lastKey) && (d.kind == SingleChoice || d.kind == ChoiceScale) && |d.options| > 2
    ensures DraftOk(WithoutOption(d, key), lastKey)
  {
    var left := Filter((o: OptionDraft) => o.key != key, d.options);
    OneRemoved(d.options, lastKey, key);
    FilterSize((o: OptionDraft) => o.key != key, d.options);
    FilterKeys((o: OptionDraft) => o.key != key, d.options, lastKey);
    SameKeys(left, Map(Unvalued, left), lastKey);
  }

  // ----- Saving ----------------------------------------------------------------------------------

  /** What `Prepare` checks, one by one. */
  lemma PassesChecks(dto: Authoring.QuestionInput, sections: seq<StoredSection>, scoring: ScoringMethod,
    assets: seq<Asset>)
    requires dto.sectionId.Some? ==> exists s <- sections :: s.id == dto.sectionId.value
    requires Distinct(Authoring.SentIds(dto.options))
    requires dto.mediaId.Some? ==> exists a <- assets :: a.id == dto.mediaId.value
    requires QuestionProblems(Normalize(Authoring.InputQuestion(dto)), scoring) == []
    ensures Authoring.Prepare(dto, sections, scoring, assets).Fine?
  {
    DistinctCounts(Authoring.SentIds(dto.options));
    if dto.mediaId.Some? {
      var i :| 0 <= i < |assets| && assets[i].id == dto.mediaId.value;
    }
  }

  /** A saveable draft gets past every check of the server, if its section and file are still there. */
  lemma ServerTakesIt(d: Draft, lastKey: nat, scoring: ScoringMethod, sections: seq<StoredSection>, assets: seq<Asset>)
    requires DraftOk(d, lastKey) && Saveable(d, scoring)
    requires d.details.sectionId.Some? ==> exists s <- sections :: s.id == d.details.sectionId.value
    requires d.details.media.Some? ==> d.details.media.value in assets
    ensures Authoring.Prepare(ToInput(d), sections, scoring, assets).Fine?
  {
    AcceptedWhenSaveable(d, scoring);
    IdsSentOnce(d, lastKey);
    PassesChecks(ToInput(d), sections, scoring, assets);
  }

  /** The stored question with only what its type uses of the shuffle settings. */
  function Settled(row: StoredQuestion): CanonicalQuestion {
    var choice := row.kind == SingleChoice;
    ToCanonical(row, None).(media := None,
      shuffleOptions := if choice then row.shuffleOptions else None,
      keepLastOptionFixed := choice && row.keepLastOptionFixed)
  }

  lemma PlainTyped(text: Option<string>)
    requires BlankToNull(text) == text
    ensures BlankToNull(BlankToNull(Some(Typed(text)))) == text
  {
  }

  /** A kept scale's values climb, and one of them is the role's. */
  lemma KeptScale(row: StoredQuestion, scoring: ScoringMethod)
    requires Kept(row, scoring) && IsScale(row.kind)
    ensures Increasing(Map(ExportOption, row.options)) && HasValue(Map(ExportOption, row.options), row.employerValue)
  {
  }

  lemma ClimbingStays(options: seq<SnapshotOption>, i: nat)
    requires Increasing(Map(ExportOption, options)) && i < |options|
    ensures Some(ScaleValues(Map(OptionFromRow, options))[i]) == options[i].value
  {
  }

  /** So they are sent as they are. */
  lemma KeptValues(row: StoredQuestion, scoring: ScoringMethod, i: nat)
    requires Kept(row, scoring) && IsScale(row.kind) && i < |row.options|
    ensures Some(ScaleValues(DraftFrom(row).options)[i]) == row.options[i].value
  {
    KeptScale(row, scoring);
    ClimbingStays(row.options, i);
  }

  lemma UntouchedOption(row: StoredQuestion, scoring: ScoringMethod, i: nat)
    requires Kept(row, scoring) && i < |row.options|
    ensures var d := DraftFrom(row);
      var sent := SentOption(d.kind, d.options[i], ScaleValues(d.options)[i]);
      NormalizeOption(IsScale(row.kind), Authoring.AsOption(sent), i)
        == ExportOption(row.options[i])
  {
    if IsScale(row.kind) { KeptValues(row, scoring, i); }
  }

  /** The option picked when a question is opened is the one with the role's value. */
  lemma OpenedPick(row: StoredQuestion) returns (at: nat)
    requires DistinctOptions(row.options) && HasValue(Map(ExportOption, row.options), row.employerValue)
    ensures at < |row.options| && row.options[at].value == row.employerValue && EmployerIndex(DraftFrom(row)) == at
  {
    var d := DraftFrom(row);
    at := Find((o: SnapshotOption) => o.value.Some? && o.value == row.employerValue, row.options);
    var i :| 0 <= i < |row.options| && Map(ExportOption, row.options)[i].value == row.employerValue;
    assert row.options[i].value == row.employerValue;
    assert d.employerKey == Some(d.options[at].key);
  }

  lemma UntouchedRole(row: StoredQuestion, scoring: ScoringMethod)
    requires Kept(row, scoring) && DistinctOptions(row.options)
    ensures EmployerValue(DraftFrom(row)) == if IsScale(row.kind) then row.employerValue else None
  {
    if IsScale(row.kind) {
      KeptScale(row, scoring);
      var at := OpenedPick(row);
      ClimbingStays(row.options, at);
    }
  }

  /** Opening a saved question and saving it again changes nothing its type uses. */
  lemma UntouchedDraft(row: StoredQuestion, scoring: ScoringMethod)
    requires Kept(row, scoring) && DistinctOptions(row.options)
    ensures SentQuestion(DraftFrom(row)) == Settled(row)
  {
    var c, d := ToCanonical(row, None).(media := None), DraftFrom(row);
    ProblemFree(c, scoring);
    var q := SentQuestion(d);
    UntouchedRole(row, scoring);
    UntouchedOptions(row, scoring);
    UntouchedTexts(row, scoring);
  }

  /** So a form that closes without saving had nothing to save: sending its draft would change nothing either. */
  lemma UnchangedLosesNothing(row: StoredQuestion, scoring: ScoringMethod, d: Draft)
    requires Kept(row, scoring) && DistinctOptions(row.options) && ToInput(d) == ToInput(DraftFrom(row))
    ensures SentQuestion(d) == Settled(row)
  {
    UntouchedDraft(row, scoring);
  }

  lemma UntouchedOptions(row: StoredQuestion, scoring: ScoringMethod)
    requires Kept(row, scoring) && row.options != []
    ensures SentQuestion(DraftFrom(row)).options == Map(ExportOption, row.options)
  {
    var d := DraftFrom(row);
    var q := SentQuestion(d);
    SentOptionIs(d, 0);
    var sent := Authoring.InputQuestion(ToInput(d)).options;
    forall i | 0 <= i < |row.options| ensures q.options[i] == ExportOption(row.options[i]) {
      UntouchedOption(row, scoring, i);
      assert sent[i] == Authoring.AsOption(SentOption(d.kind, d.options[i], ScaleValues(d.options)[i]));
    }
  }

  lemma UntouchedTexts(row: StoredQuestion, scoring: ScoringMethod)
    requires Kept(row, scoring)
    ensures var q := SentQuestion(DraftFrom(row));
      && q.ref == row.ref && q.instruction == row.instruction && q.context == row.context && q.stem == row.stem
      && q.rationale == row.rationale && q.transcript == row.transcript && q.employerPrompt == row.employerPrompt
  {
    var c := ToCanonical(row, None).(media := None);
    assert Normalize(c) == c;
    PlainTyped(row.ref);
    PlainTyped(row.instruction);
    PlainTyped(row.context);
    PlainTyped(row.rationale);
    PlainTyped(row.transcript);
    if IsScale(row.kind) { PlainTyped(row.employerPrompt); }
  }
}
