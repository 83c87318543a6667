/** What the editor and the forms do to a question, said of its parts alone. */
module EditLaws {
  import opened Basics
  import opened Text
  import opened Questions
  import opened QuestionLaws
  import opened Snapshots
  import opened Content
  import opened Imports
  import opened SectionList
  import opened Editor
  import opened DraftEditor
  import Authoring
  import DocumentLaws
  import OrderColumn
  import CellLaws

  // ----- What the server makes of a question it is sent ---------------------------------------

  predicate SentOptionAs(o: Authoring.InputOption, c: CanonicalOption) {
    c.caption == None && c.text == o.text && c.employerText == o.employerText && c.value == o.value
    && c.correct == o.isCorrect
  }

  /** The question as it is sent: its section and file are dealt with apart. */
  predicate SentQuestionAs(dto: Authoring.QuestionInput, c: CanonicalQuestion) {
    && c.ref == dto.ref && c.section == None && c.kind == dto.kind && c.difficulty == dto.difficulty
    && c.instruction == dto.instruction && c.context == dto.context && c.stem == dto.stem && c.media == None
    && c.rationale == dto.rationale && c.transcript == dto.transcript
    && c.shuffleOptions == dto.shuffleOptions && c.keepLastOptionFixed == dto.keepLastOptionFixed
    && c.employerPrompt == dto.employerPrompt && c.employerValue == dto.employerValue
    && |c.options| == |dto.options| && forall i :: 0 <= i < |c.options| ==> SentOptionAs(dto.options[i], c.options[i])
  }

  /** No option id is sent twice. */
  predicate IdsApart(options: seq<Authoring.InputOption>) {
    forall i, j :: 0 <= i < j < |options| && options[i].id.Some? ==> options[i].id != options[j].id
  }

  predicate SectionThere(dto: Authoring.QuestionInput, sections: seq<StoredSection>) {
    dto.sectionId.Some? ==> exists s <- sections :: s.id == dto.sectionId.value
  }

  predicate FileThere(dto: Authoring.QuestionInput, assets: seq<Asset>) {
    dto.mediaId.Some? ==> exists a <- assets :: a.id == dto.mediaId.value
  }

  lemma IdsApartWhen(options: seq<Authoring.InputOption>)
    ensures IdsApart(options) <==> |OrderColumn.ItemSet(Authoring.SentIds(options))| == |Authoring.SentIds(options)|
  {
    if IdsApart(options) {
      SentDistinct(options);
      OrderColumn.DistinctCounts(Authoring.SentIds(options));
    }
    if |OrderColumn.ItemSet(Authoring.SentIds(options))| == |Authoring.SentIds(options)| {
      OrderColumn.CountsDistinct(Authoring.SentIds(options));
      forall i, j | 0 <= i < j < |options| && options[i].id.Some? ensures options[i].id != options[j].id {
        if options[j].id.Some? { Authoring.SentApart(options, i, j); }
      }
    }
  }

  lemma InputMeansSent(dto: Authoring.QuestionInput)
    ensures SentQuestionAs(dto, Authoring.InputQuestion(dto))
  {
  }

  lemma FileFound(dto: Authoring.QuestionInput, assets: seq<Asset>)
    ensures FileThere(dto, assets) <==>
      (dto.mediaId.Some? ==> Find((a: Asset) => dto.mediaId == Some(a.id), assets) < |assets|)
  {
    var at := Find((a: Asset) => dto.mediaId == Some(a.id), assets);
    if dto.mediaId.Some? && at == |assets| {
      forall a | a in assets ensures a.id != dto.mediaId.value {
        var i :| 0 <= i < |assets| && assets[i] == a;
      }
    }
  }

  /** The question and the file, or the name of one to upload, that are taken. */
  predicate Takes(dto: Authoring.QuestionInput, assets: seq<Asset>, q: CanonicalQuestion, checked: Authoring.Checked) {
    && checked.Fine? && checked.question == q && checked.links.mediaFileName == dto.mediaFileName
    && match checked.links.media
       case None => dto.mediaId == None
       case Some(file) => file in assets && dto.mediaId == Some(file.id)
  }

  /**
   * A question is taken exactly when its section and file are there, its option
   * ids differ, and it is ready once normalized; otherwise the first of these
   * that fails is the reason.
   */
  lemma PrepareMeans(dto: Authoring.QuestionInput, sections: seq<StoredSection>, scoring: ScoringMethod,
    assets: seq<Asset>)
    ensures var q := Normalize(Authoring.InputQuestion(dto));
      var checked := Authoring.Prepare(dto, sections, scoring, assets);
      if !SectionThere(dto, sections) then checked == Authoring.Refused(Authoring.SectionNotFound)
      else if !IdsApart(dto.options) then checked == Authoring.Refused(Authoring.OptionIdTwice)
      else if !FileThere(dto, assets) then checked == Authoring.Refused(Authoring.FileNotFound)
      else if !Ready(q, scoring) then checked == Authoring.Refused(Authoring.NotReady(QuestionProblems(q, scoring)))
      else Takes(dto, assets, q, checked)
  {
    IdsApartWhen(dto.options);
    FileFound(dto, assets);
    ProblemFree(Normalize(Authoring.InputQuestion(dto)), scoring);
  }

  /** And its row holds just what was taken: a file takes the place of a name to upload one under. */
  lemma RowHolds(row: StoredQuestion, q: CanonicalQuestion, links: FileLinks, id: Id, sectionId: Option<Id>)
    requires Authoring.StoredFrom(row, Authoring.Fine(q, links), id, sectionId) && Normal(q)
    ensures row.id == id && row.sectionId == sectionId && DocumentLaws.ColumnsFrom(q, row)
    ensures row.media == links.media && row.mediaFileName == if links.media == None then links.mediaFileName else None
  {
    forall i | 0 <= i < |row.options|
      ensures q.options[i].caption.Some? && row.options[i].caption == q.options[i].caption.value
    {
      assert q.options[i] == NormalizeOptions(q.kind, q.options)[i];
    }
  }

  // ----- Sections -------------------------------------------------------------------------------

  /** Only the parts that are sent change, and only of the one section. */
  lemma EditMeans(sections: seq<StoredSection>, id: Id, edit: SectionEdit, i: nat)
    requires i < |sections|
    ensures var s, r := sections[i], WithEdit(sections, id, edit)[i];
      if s.id != id then r == s
      else
        && r.id == id && r.name == (match edit.name case None => s.name case Some(name) => name)
        && r.description == (match edit.description case None => s.description case Some(text) => text)
        && r.weight == (match edit.weight case None => s.weight case Some(weight) => weight)
  {
  }

  /** The questions of a section that goes stay as they are, but for their section. */
  lemma UnfiledMeans(questions: map<Id, StoredQuestion>, id: Id)
    ensures AllUnfiled(questions, id).Keys == questions.Keys
    ensures forall k <- questions.Keys ::
      var q, r := questions[k], AllUnfiled(questions, id)[k];
      r == q.(sectionId := r.sectionId) && r.sectionId == if q.sectionId == Some(id) then None else q.sectionId
  {
  }

  // ----- What a form sends ------------------------------------------------------------------------

  predicate ValuesClimb(options: seq<OptionDraft>) {
    && (forall o <- options :: o.value.Some?)
    && forall i, j :: 0 <= i < j < |options| ==> options[i].value.value < options[j].value.value
  }

  lemma {:induction false} ClimbsMeans(options: seq<OptionDraft>)
    ensures Climbs(StoredValues(options)) <==> ValuesClimb(options)
  {
    if options != [] {
      var last := |options| - 1;
      var init := options[..last];
      ClimbsMeans(init);
      forall o | o in init ensures o in options {}
      assert forall i :: 0 <= i < last ==> StoredValues(init)[i] == StoredValues(options)[i] == options[i].value;
      if Climbs(StoredValues(options)) {
        assert Climbs(StoredValues(init));
        forall i | 0 <= i < last ensures options[i].value.value < options[last].value.value {
          assert init[i] in init && init[last - 1] in init;
        }
      }
      if ValuesClimb(options) { assert options[last] in options; }
    }
  }

  /** A scale sends the values its options had while each had one and they climb, and otherwise 1 to n. */
  lemma ScaleValuesMean(options: seq<OptionDraft>, i: nat)
    requires i < |options|
    ensures ScaleValues(options)[i] == if ValuesClimb(options) then options[i].value.value else i + 1
  {
    ClimbsMeans(options);
    assert options[i] in options;
  }

  ghost predicate SendsOption(d: Draft, i: nat, o: Authoring.InputOption)
    requires i < |d.options|
  {
    var draft, scale := d.options[i], d.kind == RatingScale || d.kind == ChoiceScale;
    && o.id == draft.id && IsTrim(draft.text, o.text)
    && (if scale then IsTidy(Some(draft.employerText), o.employerText) else o.employerText == None)
    && o.value == (if scale then Some(if ValuesClimb(d.options) then draft.value.GetOr(0) else i + 1) else None)
    && o.isCorrect == (!scale && draft.isCorrect)
  }

  /** The role's answer is the value sent for the option picked, and a test without scales has none. */
  ghost predicate SendsRole(d: Draft, options: seq<Authoring.InputOption>, value: Option<int>)
    requires |options| == |d.options|
  {
    if (d.kind == RatingScale || d.kind == ChoiceScale) && Picked(d)
    then exists i :: 0 <= i < |d.options| && d.employerKey == Some(d.options[i].key) && value == options[i].value
    else value == None
  }

  /** All that a form sends of its draft. */
  ghost predicate Sends(d: Draft, dto: Authoring.QuestionInput) {
    var x, scale, choice := d.details, d.kind == RatingScale || d.kind == ChoiceScale, d.kind == SingleChoice;
    && dto.sectionId == x.sectionId && dto.kind == d.kind && dto.difficulty == x.difficulty
    && dto.mediaId == (match x.media case None => None case Some(file) => Some(file.id))
    && dto.mediaFileName == (match x.media case None => x.mediaFileName case Some(_) => None)
    && IsTidy(Some(x.ref), dto.ref) && IsTidy(Some(x.instruction), dto.instruction)
    && IsTidy(Some(x.context), dto.context) && IsTrim(x.stem, dto.stem)
    && IsTidy(Some(x.rationale), dto.rationale) && IsTidy(Some(x.transcript), dto.transcript)
    && dto.shuffleOptions == (if choice then x.shuffleOptions else None)
    && dto.keepLastOptionFixed == (choice && x.keepLastOptionFixed)
    && (if scale then IsTidy(Some(x.employerPrompt), dto.employerPrompt) else dto.employerPrompt == None)
    && |dto.options| == |d.options| && (forall i :: 0 <= i < |d.options| ==> SendsOption(d, i, dto.options[i]))
    && SendsRole(d, dto.options, dto.employerValue)
  }

  lemma SendsEach(d: Draft, i: nat)
    requires i < |d.options|
    ensures SendsOption(d, i, SentOptions(d)[i])
  {
    Trims(d.options[i].text);
    Tidies(Some(d.options[i].employerText));
    ScaleValuesMean(d.options, i);
    assert d.options[i] in d.options;
  }

  lemma RoleSent(d: Draft)
    ensures SendsRole(d, SentOptions(d), EmployerValue(d))
  {
    var at := EmployerIndex(d);
    if at < |d.options| { assert d.employerKey == Some(d.options[at].key); }
    if i :| 0 <= i < |d.options| && d.employerKey == Some(d.options[i].key) { assert at <= i; }
  }

  lemma InputMeans(d: Draft)
    ensures Sends(d, ToInput(d))
  {
    var x := d.details;
    Tidies(Some(x.ref)); Tidies(Some(x.instruction)); Tidies(Some(x.context)); Trims(x.stem);
    Tidies(Some(x.rationale)); Tidies(Some(x.transcript)); Tidies(Some(x.employerPrompt));
    forall i | 0 <= i < |d.options| ensures SendsOption(d, i, ToInput(d).options[i]) { SendsEach(d, i); }
    RoleSent(d);
  }

  // ----- What a stored question opens as -------------------------------------------------------------

  predicate OpensOption(o: SnapshotOption, d: OptionDraft) {
    d == OptionDraft(SavedKey(o.id), Some(o.id), o.text, o.employerText.GetOr(""), o.value, o.isCorrect)
  }

  /** The option picked for the role is one with its value. */
  predicate OpensPick(row: StoredQuestion, pick: Option<Key>) {
    match pick
    case None => forall o <- row.options :: o.value == None || o.value != row.employerValue
    case Some(key) =>
      exists o <- row.options :: key == SavedKey(o.id) && o.value.Some? && o.value == row.employerValue
  }

  /** A stored question opens as it is, with no text as blank text. */
  lemma OpenedMeans(row: StoredQuestion)
    ensures var d := DraftFrom(row);
      && d.kind == row.kind && |d.options| == |row.options| && OpensPick(row, d.employerKey)
      && (forall i :: 0 <= i < |d.options| ==> OpensOption(row.options[i], d.options[i]))
      && d.details == Details(row.sectionId, row.ref.GetOr(""), row.difficulty, row.instruction.GetOr(""),
        row.context.GetOr(""), row.stem, row.media, row.mediaFileName, row.rationale.GetOr(""),
        row.transcript.GetOr(""), row.shuffleOptions, row.keepLastOptionFixed, row.employerPrompt.GetOr(""))
  {
    var at := Find((o: SnapshotOption) => o.value.Some? && o.value == row.employerValue, row.options);
    if at < |row.options| {
      assert row.options[at] in row.options;
    } else {
      forall o | o in row.options ensures o.value == None || o.value != row.employerValue {
        var i :| 0 <= i < |row.options| && row.options[i] == o;
      }
    }
  }

  // ----- What a change of type carries over ---------------------------------------------------------

  predicate IsBlank(o: OptionDraft) {
    o.key.NewKey? && o.id == None && o.text == "" && o.employerText == "" && o.value == None && !o.isCorrect
  }

  /** The options with some text in them. */
  predicate HasText(o: OptionDraft) { !AllSpace(o.text) }

  /** Option i after the change, from the one it was. */
  predicate CarriedTo(kind: QuestionType, from: OptionDraft, to: OptionDraft) {
    && to.key == from.key && to.id == from.id && to.text == from.text && to.value == None
    && (kind == SingleChoice ==> to.employerText == "" && to.isCorrect == from.isCorrect)
    && (kind == ChoiceScale ==> to.employerText == from.employerText && !to.isCorrect)
  }

  lemma {:induction false} FilterSame(current: seq<OptionDraft>)
    ensures Filter(HasText, current) == Filter(Editor.Written, current)
  {
    if current != [] {
      TrimBlank(current[0].text);
      FilterSame(current[1..]);
    }
  }

  /** On a choice type, the first six options with text, and blank ones up to four, or three on a scale. */
  lemma ChoicesCarried(kind: QuestionType, current: seq<OptionDraft>, options: seq<OptionDraft>)
    requires OptionsFollow(kind, current, options) && (kind == SingleChoice || kind == ChoiceScale)
    ensures var kept, least := Filter(HasText, current), if kind == SingleChoice then 4 else 3;
      var n := if |kept| > 6 then 6 else |kept|;
      && |options| == (if n < least then least else n)
      && forall i :: 0 <= i < |options| ==> if i < n then CarriedTo(kind, kept[i], options[i]) else IsBlank(options[i])
  {
    FilterSame(current);
    var carried := Carried(current);
    var start := if kind == SingleChoice then Map(AsChoice, carried) else Map(AsScaleChoice, carried);
    forall i | 0 <= i < |start| ensures options[i] == start[i] {}
  }

  /** A rating scale starts over with five blank points. */
  lemma PointsBlank(current: seq<OptionDraft>, options: seq<OptionDraft>)
    requires OptionsFollow(RatingScale, current, options)
    ensures |options| == 5 && forall o <- options :: IsBlank(o)
  {
  }

  predicate ReadsAs(o: OptionDraft, word: string) { CellLaws.SameText(Trim(o.text), word) }

  predicate FirstReading(current: seq<OptionDraft>, word: string, at: nat) {
    at < |current| && ReadsAs(current[at], word) && forall j :: 0 <= j < at ==> !ReadsAs(current[j], word)
  }

  /** The first option that reads like the word, ignoring case and edge space, or a new one when none does. */
  predicate IsFixed(current: seq<OptionDraft>, word: string, o: OptionDraft) {
    && o.text == word && o.employerText == "" && o.value == None
    && if exists at :: 0 <= at < |current| && FirstReading(current, word, at) then
         exists at :: 0 <= at < |current| && FirstReading(current, word, at)
           && o.key == current[at].key && o.id == current[at].id && o.isCorrect == current[at].isCorrect
       else o.key.NewKey? && o.id == None && !o.isCorrect
  }

  lemma FixedMeans(current: seq<OptionDraft>, word: string, o: OptionDraft)
    requires FixedFrom(current, word, o)
    ensures IsFixed(current, word, o)
  {
    var at := Reading(current, word);
    forall i | 0 <= i < |current|
      ensures ReadsAs(current[i], word) <==> ToLower(Trim(current[i].text)) == ToLower(word)
    {
      CellLaws.SameIsLower(Trim(current[i].text), word);
    }
    if at < |current| { assert FirstReading(current, word, at); }
    if k :| 0 <= k < |current| && FirstReading(current, word, k) { assert at == k; }
  }

  /** On True/False, the two fixed answers, each taken from the option that reads like it. */
  lemma AnswersFixed(current: seq<OptionDraft>, options: seq<OptionDraft>)
    requires OptionsFollow(TrueFalse, current, options)
    ensures |options| == 2 && IsFixed(current, "True", options[0]) && IsFixed(current, "False", options[1])
  {
    FixedMeans(current, "True", options[0]);
    FixedMeans(current, "False", options[1]);
  }

  // ----- One option at a time -------------------------------------------------------------------------

  /** Removing an option leaves the others, in order; a scale's are valued anew, and a removed pick is forgotten. */
  lemma RemovedMeans(d: Draft, lastKey: nat, key: Key, at: nat)
    requires KeysOk(d.options, lastKey) && at < |d.options| && d.options[at].key == key
    ensures var r, scale := WithoutOption(d, key), d.kind == RatingScale || d.kind == ChoiceScale;
      && r.kind == d.kind && r.details == d.details && |r.options| == |d.options| - 1
      && r.employerKey == (if scale && d.employerKey == Some(key) then None else d.employerKey)
      && forall i :: 0 <= i < |r.options| ==>
        var o := d.options[if i < at then i else i + 1]; r.options[i] == if scale then o.(value := None) else o
  {
    FilterAt(d.options, at, key);
  }

  lemma {:induction false} FilterAt(options: seq<OptionDraft>, at: nat, key: Key)
    requires at < |options| && options[at].key == key
    requires forall i :: 0 <= i < |options| && i != at ==> options[i].key != key
    ensures Filter((o: OptionDraft) => o.key != key, options) == options[..at] + options[at + 1..]
  {
    var keep := (o: OptionDraft) => o.key != key;
    if at == 0 {
      FilterAll(keep, options[1..]);
    } else {
      FilterAt(options[1..], at - 1, key);
      SplitAt(options, at);
    }
  }

  lemma SplitAt(options: seq<OptionDraft>, at: nat)
    requires 0 < at < |options|
    ensures options[..at] + options[at + 1..] == [options[0]] + (options[1..][..at - 1] + options[1..][at..])
  {
  }
}
