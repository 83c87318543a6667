/**
 * A test as staff change it: questions in a table with an `order` column,
 * sections, and the scoring method. The list the column stands for is kept
 * beside it, and every stored question stays one the test can hold.
 */
module Authoring {
  import opened Basics
  import opened Text
  import opened Questions
  import opened Snapshots
  import opened SectionKeys
  import opened Content
  import opened Imports
  import opened OrderColumn
  import opened CsvImport
  import opened SectionList
  import opened Documents
  import Bands
  import Shuffle
  import QuestionCsv

  // ----- What the editor sends ----------------------------------------------------------------

  datatype InputOption = InputOption(
    id: Option<Id>,
    text: string,
    employerText: Option<string>,
    value: Option<int>,
    isCorrect: bool
  )

  datatype QuestionInput = QuestionInput(
    sectionId: Option<Id>,
    mediaId: Option<string>,
    mediaFileName: Option<string>,
    ref: Option<string>,
    kind: QuestionType,
    difficulty: Option<Difficulty>,
    instruction: Option<string>,
    context: Option<string>,
    stem: string,
    options: seq<InputOption>,
    rationale: Option<string>,
    transcript: Option<string>,
    shuffleOptions: Option<bool>,
    keepLastOptionFixed: bool,
    employerPrompt: Option<string>,
    employerValue: Option<int>
  )

  function AsOption(o: InputOption): CanonicalOption {
    CanonicalOption(None, o.text, o.employerText, o.value, o.isCorrect)
  }

  /** The question as the rules read it. */
  function InputQuestion(dto: QuestionInput): CanonicalQuestion {
    CanonicalQuestion(dto.ref, None, dto.kind, dto.difficulty, dto.instruction, dto.context, dto.stem, None,
      Map(AsOption, dto.options), dto.rationale, dto.transcript, dto.shuffleOptions, dto.keepLastOptionFixed,
      dto.employerPrompt, dto.employerValue)
  }

  function SentIds(options: seq<InputOption>): seq<Id> {
    if options == [] then []
    else
      var n := |options| - 1;
      SentIds(options[..n]) + (if options[n].id.Some? then [options[n].id.value] else [])
  }

  datatype Refusal =
    | QuestionNotFound
    | SectionNotFound
    | OptionIdTwice
    | FileNotFound
    | NotReady(problems: seq<Problem>)
    | TestFull
    | NotSameIds
    | Misfits(kinds: set<QuestionType>)
    | SectionsFull
    | NameTaken
    | SameMinimum

  /** What a question from the editor is stored as, or why it is refused. */
  datatype Checked = Fine(question: CanonicalQuestion, links: FileLinks) | Refused(why: Refusal)

  function Prepare(dto: QuestionInput, sections: seq<StoredSection>, scoring: ScoringMethod,
    assets: seq<Asset>): Checked {
    var file := Find((a: Asset) => dto.mediaId == Some(a.id), assets);
    var question := Normalize(InputQuestion(dto));
    if dto.sectionId.Some? && !exists s <- sections :: s.id == dto.sectionId.value then Refused(SectionNotFound)
    else if |ItemSet(SentIds(dto.options))| != |SentIds(dto.options)| then Refused(OptionIdTwice)
    else if dto.mediaId.Some? && file == |assets| then Refused(FileNotFound)
    else if QuestionProblems(question, scoring) != [] then Refused(NotReady(QuestionProblems(question, scoring)))
    else Fine(question, FileLinks(if dto.mediaId.Some? then Some(assets[file]) else None, dto.mediaFileName))
  }

  lemma PreparedFits(dto: QuestionInput, sections: seq<StoredSection>, scoring: ScoringMethod, assets: seq<Asset>)
    requires Prepare(dto, sections, scoring, assets).Fine?
    ensures var q := Prepare(dto, sections, scoring, assets).question;
      Normal(q) && QuestionProblems(q, scoring) == [] && q == Normalize(InputQuestion(dto))
    ensures dto.sectionId.Some? ==> exists s <- sections :: s.id == dto.sectionId.value
    ensures Distinct(SentIds(dto.options))
  {
    NormalizeIdempotent(InputQuestion(dto));
    CountsDistinct(SentIds(dto.options));
  }

  // ----- What every change keeps ------------------------------------------------------------------

  /** What a stored question must satisfy for a scoring method. The table holds rows to any one such rule. */
  type Rule = (StoredQuestion, ScoringMethod) -> bool

  /** The rule is that rows are kept. */
  ghost predicate IsKept(keeps: Rule) {
    forall row: StoredQuestion, scoring: ScoringMethod {:trigger Kept(row, scoring)} ::
      keeps(row, scoring) <==> Kept(row, scoring)
  }

  /** A row: kept for the scoring method, filed under a section of the test, with ids handed out before `next`. */
  ghost predicate RowOk(keeps: Rule, id: Id, row: StoredQuestion, sections: seq<StoredSection>,
    scoring: ScoringMethod, next: nat) {
    && row.id == id < next && Imports.OptionIds(row.options, 0, next)
    && keeps(row, scoring) && InSections(row.sectionId, sections)
  }

  ghost predicate RowsOk(keeps: Rule, questions: map<Id, StoredQuestion>, sections: seq<StoredSection>,
    scoring: ScoringMethod, next: nat) {
    forall id <- questions.Keys :: RowOk(keeps, id, questions[id], sections, scoring, next)
  }

  lemma RowsLater(keeps: Rule, questions: map<Id, StoredQuestion>, sections: seq<StoredSection>,
    more: seq<StoredSection>, scoring: ScoringMethod, next: nat, later: nat)
    requires RowsOk(keeps, questions, sections, scoring, next) && next <= later
    requires AllListed(sections, more)
    ensures RowsOk(keeps, questions, more, scoring, later)
  {
  }

  lemma RowAdded(keeps: Rule, questions: map<Id, StoredQuestion>, row: StoredQuestion, sections: seq<StoredSection>,
    scoring: ScoringMethod, next: nat, later: nat)
    requires RowsOk(keeps, questions, sections, scoring, next) && next <= later
    requires RowOk(keeps, row.id, row, sections, scoring, later)
    ensures RowsOk(keeps, questions[row.id := row], sections, scoring, later)
  {
  }

  /** A prepared question's row is kept. */
  lemma NewRowOk(keeps: Rule, q: CanonicalQuestion, row: StoredQuestion, links: FileLinks, sections: seq<StoredSection>,
    scoring: ScoringMethod, next: nat)
    requires IsKept(keeps) && Normal(q) && QuestionProblems(q, scoring) == [] && OptionsStored(q.options, row.options)
    requires row == StoreQuestion(q, row.id, row.sectionId, links, row.options)
    requires row.id < next && Imports.OptionIds(row.options, 0, next) && InSections(row.sectionId, sections)
    ensures RowOk(keeps, row.id, row, sections, scoring, next)
  {
    StoreKept(q, row, row.sectionId, links, scoring);
  }

  /** The copy a duplicate is made from. */
  function CopyOf(row: StoredQuestion): CanonicalQuestion {
    Normalize(ToCanonical(row, None).(ref := None))
  }

  /** A kept question's copy is kept too, although nothing checks it again. */
  lemma CopyFits(row: StoredQuestion, scoring: ScoringMethod)
    requires Kept(row, scoring)
    ensures Normal(CopyOf(row)) && QuestionProblems(CopyOf(row), scoring) == []
    ensures CopyOf(row).(media := None) == ToCanonical(row, None).(ref := None, media := None)
  {
  }

  // ----- Option ids -----------------------------------------------------------------------------

  /** Two options sent with ids have different ones. */
  lemma {:induction false} SentApart(options: seq<InputOption>, i: nat, j: nat)
    requires i < j < |options| && options[i].id.Some? && options[j].id.Some? && Distinct(SentIds(options))
    ensures options[i].id != options[j].id
  {
    var n := |options| - 1;
    var before := SentIds(options[..n]);
    var last := if options[n].id.Some? then [options[n].id.value] else [];
    assert SentIds(options) == before + last;
    assert Distinct(before) by { assert forall k :: 0 <= k < |before| ==> SentIds(options)[k] == before[k]; }
    if j < n {
      SentApart(options[..n], i, j);
    } else {
      SentListed(options[..n], i);
      var k :| 0 <= k < |before| && before[k] == options[i].id.value;
      assert SentIds(options)[k] == before[k] && SentIds(options)[|before|] == options[n].id.value;
    }
  }

  lemma {:induction false} SentListed(options: seq<InputOption>, i: nat)
    requires i < |options| && options[i].id.Some?
    ensures options[i].id.value in SentIds(options)
  {
    var n := |options| - 1;
    if i < n { SentListed(options[..n], i); }
  }

  /** An option sent with an id of the question keeps it; any other gets a new one. */
  function OptionIdFor(options: seq<InputOption>, known: set<Id>, next: nat, k: nat): Id {
    if k < |options| && options[k].id.Some? && options[k].id.value in known then options[k].id.value else next + k
  }

  /** The ids of the options after an edit: all different, and all handed out. */
  lemma EditedIds(options: seq<InputOption>, known: set<Id>, next: nat, rows: seq<SnapshotOption>)
    requires Distinct(SentIds(options)) && forall id <- known :: id < next
    requires forall k :: 0 <= k < |rows| ==> rows[k].id == OptionIdFor(options, known, next, k)
    ensures Imports.OptionIds(rows, 0, next + |rows|)
  {
    forall i, j | 0 <= i < j < |rows| ensures rows[i].id != rows[j].id {
      if i < |options| && j < |options| && options[i].id.Some? && options[j].id.Some? { SentApart(options, i, j); }
    }
  }

  function IdsOf(options: seq<SnapshotOption>): (ids: set<Id>)
    ensures forall id :: id in ids <==> exists o <- options :: o.id == id
  {
    set o | o in options :: o.id
  }

  lemma KnownIds(row: StoredQuestion, next: nat)
    requires Imports.OptionIds(row.options, 0, next)
    ensures forall id <- IdsOf(row.options) :: id < next
  {
  }

  // ----- The state ---------------------------------------------------------------------------------

  /** The rows of a test: ids below `nextId` have been handed out. */
  datatype State = State(
    scoring: ScoringMethod,
    sections: seq<StoredSection>,
    orders: Orders,
    questions: map<Id, StoredQuestion>,
    bands: seq<SnapshotBand>,
    nextId: nat
  )

  /** Bands as requests leave them, each with a minimum of its own. */
  predicate BandsOk(bands: seq<SnapshotBand>) {
    (forall b <- bands :: StoreBand(b) == b) && !BandsClash(bands)
  }

  /** The state stands for this list of questions, and every row is in order. */
  ghost predicate Ok(keeps: Rule, s: State, list: seq<Id>) {
    && Represents(s.orders, list) && s.questions.Keys == s.orders.Keys && |list| <= MAX_QUESTIONS
    && SectionsOk(s.sections, s.nextId) && RowsOk(keeps, s.questions, s.sections, s.scoring, s.nextId)
    && BandsOk(s.bands)
  }

  /** The next order is past every one in use. */
  ghost predicate Above(orders: Orders, order: int) {
    forall id <- orders.Keys :: orders[id] < order
  }

  function AddRow(s: State, row: StoredQuestion, order: int, later: nat): State {
    s.(orders := s.orders[row.id := order], questions := s.questions[row.id := row], nextId := later)
  }

  lemma IdUnused(keeps: Rule, s: State, list: seq<Id>)
    requires Ok(keeps, s, list)
    ensures s.nextId !in s.questions && s.nextId !in s.orders
  {
  }

  lemma AddRowOk(keeps: Rule, s: State, list: seq<Id>, row: StoredQuestion, order: int, later: nat)
    requires Ok(keeps, s, list) && |list| < MAX_QUESTIONS && row.id == s.nextId < later
    requires RowOk(keeps, row.id, row, s.sections, s.scoring, later) && Above(s.orders, order)
    ensures Ok(keeps, AddRow(s, row, order, later), list + [row.id])
  {
    IdUnused(keeps, s, list);
    RowAdded(keeps, s.questions, row, s.sections, s.scoring, s.nextId, later);
    SectionsLater(s.sections, s.nextId, later);
    Appended(s.orders, list, row.id, order);
  }

  /** Makes room above a row, and adds another there. */
  function InsertRow(s: State, order: int, row: StoredQuestion, later: nat): State {
    s.(orders := MakeRoom(s.orders, order)[row.id := order + 1],
       questions := s.questions[row.id := row], nextId := later)
  }

  lemma InsertRowOk(keeps: Rule, s: State, list: seq<Id>, at: nat, row: StoredQuestion, later: nat)
    requires Ok(keeps, s, list) && |list| < MAX_QUESTIONS && row.id == s.nextId < later
    requires RowOk(keeps, row.id, row, s.sections, s.scoring, later) && at < |list| && list[at] in s.orders
    ensures Ok(keeps, InsertRow(s, s.orders[list[at]], row, later), InsertAfter(list, at, row.id))
  {
    IdUnused(keeps, s, list);
    RowAdded(keeps, s.questions, row, s.sections, s.scoring, s.nextId, later);
    SectionsLater(s.sections, s.nextId, later);
    RoomInserted(s.orders, list, at, row.id);
  }

  function DropRow(s: State, id: Id): State {
    s.(orders := s.orders - {id}, questions := s.questions - {id})
  }

  lemma DropRowOk(keeps: Rule, s: State, list: seq<Id>, at: nat)
    requires Ok(keeps, s, list) && at < |list|
    ensures Ok(keeps, DropRow(s, list[at]), RemoveAt(list, at))
  {
    Removed(s.orders, list, at);
  }

  lemma SetRowOk(keeps: Rule, s: State, list: seq<Id>, row: StoredQuestion, later: nat)
    requires Ok(keeps, s, list) && row.id in s.questions && s.nextId <= later
    requires RowOk(keeps, row.id, row, s.sections, s.scoring, later)
    ensures Ok(keeps, s.(questions := s.questions[row.id := row], nextId := later), list)
  {
  }

  lemma RenumberedOk(keeps: Rule, s: State, list: seq<Id>, orders: Orders, ids: seq<Id>)
    requires Ok(keeps, s, list) && Represents(orders, ids) && orders.Keys == s.orders.Keys && |ids| == |list|
    ensures Ok(keeps, s.(orders := orders), ids)
  {
  }

  lemma AddSectionOk(keeps: Rule, s: State, list: seq<Id>, section: StoredSection)
    requires Ok(keeps, s, list) && |s.sections| < MAX_SECTIONS && SectionOk(section, s.nextId + 1)
    requires section.id == s.nextId && forall t <- s.sections :: ToLower(t.name) != ToLower(section.name)
    ensures Ok(keeps, s.(sections := s.sections + [section], nextId := s.nextId + 1), list)
  {
    SectionAppended(s.sections, section, s.nextId);
    SectionKept(s.sections, section);
    RowsLater(keeps, s.questions, s.sections, s.sections + [section], s.scoring, s.nextId, s.nextId + 1);
  }

  lemma EditSectionOk(keeps: Rule, s: State, list: seq<Id>, id: Id, edit: SectionEdit)
    requires Ok(keeps, s, list) && EditOk(edit)
    requires edit.name.Some? ==> !NameUsed(s.sections, id, edit.name.value)
    ensures Ok(keeps, s.(sections := WithEdit(s.sections, id, edit)), list)
  {
    EditedOk(s.sections, id, edit, s.nextId);
    RowsLater(keeps, s.questions, s.sections, WithEdit(s.sections, id, edit), s.scoring, s.nextId, s.nextId);
  }

  function DropSection(s: State, at: nat): State
    requires at < |s.sections|
  {
    s.(sections := Without(s.sections, at), questions := AllUnfiled(s.questions, s.sections[at].id))
  }

  /** The rules do not look at a question's section. */
  lemma UnfiledKept(row: StoredQuestion, id: Id, scoring: ScoringMethod)
    requires Kept(row, scoring)
    ensures Kept(Unfiled(row, id), scoring)
  {
  }

  lemma UnfiledOk(keeps: Rule, s: State, list: seq<Id>, at: nat, k: Id)
    requires IsKept(keeps) && Ok(keeps, s, list) && at < |s.sections| && k in s.questions
    ensures var id := s.sections[at].id;
      RowOk(keeps, k, Unfiled(s.questions[k], id), Without(s.sections, at), s.scoring, s.nextId)
  {
    var id := s.sections[at].id;
    assert RowOk(keeps, k, s.questions[k], s.sections, s.scoring, s.nextId);
    assert Kept(s.questions[k], s.scoring);
    UnfiledKept(s.questions[k], id, s.scoring);
    WithoutOk(s.sections, at, s.nextId);
    StillFiled(s.sections, Without(s.sections, at), s.questions[k], id);
  }

  lemma DropSectionOk(keeps: Rule, s: State, list: seq<Id>, at: nat)
    requires IsKept(keeps) && Ok(keeps, s, list) && at < |s.sections|
    ensures Ok(keeps, DropSection(s, at), list)
  {
    WithoutOk(s.sections, at, s.nextId);
    forall k | k in s.questions
      ensures RowOk(keeps, k, DropSection(s, at).questions[k], Without(s.sections, at), s.scoring, s.nextId)
    {
      UnfiledOk(keeps, s, list, at, k);
    }
  }

  lemma ArrangeSectionsOk(keeps: Rule, s: State, list: seq<Id>, ids: seq<Id>, arranged: seq<StoredSection>)
    requires Ok(keeps, s, list) && IsArranged(s.sections, ids, arranged)
    requires multiset(ids) == multiset(IdsOfSections(s.sections))
    ensures Ok(keeps, s.(sections := arranged), list)
  {
    ArrangedOk(s.sections, ids, arranged, s.nextId);
    RowsLater(keeps, s.questions, s.sections, arranged, s.scoring, s.nextId, s.nextId);
  }

  /** Sorting the bands leaves them in order. */
  lemma SortedBandsOk(bands: seq<SnapshotBand>)
    requires BandsOk(bands)
    ensures BandsOk(Bands.HighestFirst(bands))
  {
    var sorted := Bands.HighestFirst(bands);
    Bands.SortKeeps(bands);
    forall b | b in sorted ensures StoreBand(b) == b { assert b in multiset(bands); }
    NoClash(bands, sorted);
  }

  /** Rearranged bands clash no more than before. */
  lemma NoClash(bands: seq<SnapshotBand>, others: seq<SnapshotBand>)
    requires SameItems(bands, others) && !BandsClash(bands)
    ensures !BandsClash(others)
  {
    var minimum := (b: SnapshotBand) => b.minScore;
    MapItems(minimum, bands, others);
    var before, after := Map(minimum, bands), Map(minimum, others);
    forall i, j | 0 <= i < j < |before| ensures before[i] != before[j] {}
    Shuffle.DistinctFromItems(before, after);
    forall i, j | 0 <= i < j < |others| ensures others[i].minScore != others[j].minScore {
      assert after[i] != after[j];
    }
  }

  /** A question of a test that scores one way is a misfit for the other. */
  lemma MisfitFound(keeps: Rule, s: State, list: seq<Id>, to: ScoringMethod)
    requires IsKept(keeps) && Ok(keeps, s, list) && list != [] && to != s.scoring
    ensures list[0] in s.questions && s.questions[list[0]].kind !in QuestionTypesFor(to)
  {
    assert list[0] in list;
    assert RowOk(keeps, list[0], s.questions[list[0]], s.sections, s.scoring, s.nextId);
    assert Kept(s.questions[list[0]], s.scoring);
    OtherMethod(s.questions[list[0]], s.scoring, to);
  }

  lemma RowOfList(keeps: Rule, s: State, list: seq<Id>, id: Id)
    requires Ok(keeps, s, list)
    ensures id in s.questions <==> id in list
    ensures |s.questions| == |list|
    ensures id in s.questions ==> RowOk(keeps, id, s.questions[id], s.sections, s.scoring, s.nextId)
  {
    ListsRows(s.orders, list);
    assert |s.questions| == |s.questions.Keys| == |s.orders.Keys| == |s.orders|;
  }

  // ----- Rows to store -------------------------------------------------------------------------------

  /** The row of a new question, and the first id after its own. */
  method NewRow(ghost keeps: Rule, q: CanonicalQuestion, sectionId: Option<Id>, links: FileLinks,
    ghost sections: seq<StoredSection>,
    ghost scoring: ScoringMethod, first: nat) returns (row: StoredQuestion, later: nat)
    requires IsKept(keeps) && Normal(q) && QuestionProblems(q, scoring) == [] && InSections(sectionId, sections)
    ensures row == StoreQuestion(q, first, sectionId, links, row.options) && OptionsStored(q.options, row.options)
    ensures first < later && RowOk(keeps, first, row, sections, scoring, later)
  {
    var options := StoreOptions(q.options, k => first + 1 + k);
    row := StoreQuestion(q, first, sectionId, links, options);
    later := first + 1 + |options|;
    NewRowOk(keeps, q, row, links, sections, scoring, later);
  }

  /** The row of a question's copy. */
  method CopiedRow(ghost keeps: Rule, original: StoredQuestion, ghost sections: seq<StoredSection>,
    ghost scoring: ScoringMethod, first: nat) returns (row: StoredQuestion, later: nat)
    requires IsKept(keeps) && keeps(original, scoring) && InSections(original.sectionId, sections)
    ensures IsCopyOf(row, original) && first < later && row.id == first
    ensures RowOk(keeps, first, row, sections, scoring, later)
  {
    assert Kept(original, scoring);
    CopyFits(original, scoring);
    var links := FileLinks(original.media, original.mediaFileName);
    row, later := NewRow(keeps, CopyOf(original), original.sectionId, links, sections, scoring, first);
    CopyStored(original, row, links, scoring);
  }

  method EditedRow(ghost keeps: Rule, q: CanonicalQuestion, dto: QuestionInput, links: FileLinks,
    before: StoredQuestion, ghost sections: seq<StoredSection>, ghost scoring: ScoringMethod, next: nat)
    returns (row: StoredQuestion, later: nat)
    requires IsKept(keeps) && Normal(q) && QuestionProblems(q, scoring) == [] && InSections(dto.sectionId, sections)
    requires Distinct(SentIds(dto.options)) && before.id < next && Imports.OptionIds(before.options, 0, next)
    ensures row == StoreQuestion(q, before.id, dto.sectionId, links, row.options)
    ensures OptionsStored(q.options, row.options)
    ensures forall k :: 0 <= k < |row.options| ==>
      row.options[k].id == OptionIdFor(dto.options, IdsOf(before.options), next, k)
    ensures next <= later && RowOk(keeps, before.id, row, sections, scoring, later)
  {
    KnownIds(before, next);
    var known := IdsOf(before.options);
    var options := StoreOptions(q.options, k => OptionIdFor(dto.options, known, next, k));
    EditedIds(dto.options, known, next, options);
    row := StoreQuestion(q, before.id, dto.sectionId, links, options);
    later := next + |options|;
    NewRowOk(keeps, q, row, links, sections, scoring, later);
  }

  /** The row an edit leaves, or why it is refused. */
  method PrepareEdit(ghost keeps: Rule, dto: QuestionInput, sections: seq<StoredSection>, scoring: ScoringMethod,
    assets: seq<Asset>, before: StoredQuestion, next: nat)
    returns (why: Option<Refusal>, row: Option<StoredQuestion>, later: nat)
    requires IsKept(keeps) && before.id < next && Imports.OptionIds(before.options, 0, next)
    ensures why.None? <==> Prepare(dto, sections, scoring, assets).Fine?
    ensures why.None? ==>
      && row.Some? && StoredFrom(row.value, Prepare(dto, sections, scoring, assets), before.id, dto.sectionId)
      && next <= later && RowOk(keeps, before.id, row.value, sections, scoring, later)
      && forall k :: 0 <= k < |row.value.options| ==>
           row.value.options[k].id == OptionIdFor(dto.options, IdsOf(before.options), next, k)
  {
    var checked := Prepare(dto, sections, scoring, assets);
    if checked.Refused? { return Some(checked.why), None, next; }
    PreparedFits(dto, sections, scoring, assets);
    var edited;
    edited, later := EditedRow(keeps, checked.question, dto, checked.links, before, sections, scoring, next);
    why, row := None, Some(edited);
  }

  // ----- The table ---------------------------------------------------------------------------------

  class TestTable {
    var scoring: ScoringMethod
    var sections: seq<StoredSection>
    var orders: Orders
    var questions: map<Id, StoredQuestion>
    var bands: seq<SnapshotBand>
    var nextId: nat
    ghost const keeps: Rule
    /** The questions by ascending order. */
    ghost var list: seq<Id>

    function View(): State reads this { State(scoring, sections, orders, questions, bands, nextId) }

    ghost predicate Valid() reads this { IsKept(keeps) && Ok(keeps, View(), list) }

    constructor (scoring: ScoringMethod, bands: seq<SnapshotBand>, nextId: nat)
      requires BandsOk(bands)
      ensures Valid() && list == [] && View() == State(scoring, [], map[], map[], bands, nextId)
    {
      keeps := (row: StoredQuestion, s: ScoringMethod) => Kept(row, s);
      this.scoring, this.sections, this.bands, this.nextId := scoring, [], bands, nextId;
      orders, questions, list := map[], map[], [];
    }

    /** Adds a row after all the others. */
    method AddLast(row: StoredQuestion, order: int, later: nat)
      requires Valid() && |list| < MAX_QUESTIONS && row.id == nextId < later
      requires RowOk(keeps, row.id, row, sections, scoring, later) && Above(orders, order)
      modifies this`orders, this`questions, this`nextId, this`list
      ensures Valid() && list == old(list) + [row.id] && View() == AddRow(old(View()), row, order, later)
      ensures Above(orders, order + 1)
    {
      AddRowOk(keeps, View(), list, row, order, later);
      orders, questions, nextId := orders[row.id := order], questions[row.id := row], later;
      list := list + [row.id];
      assert View() == AddRow(old(View()), row, order, later);
    }

    /** Moves later rows down by one, and adds a row right after another. */
    method AddAfter(id: Id, row: StoredQuestion, later: nat) returns (ghost at: nat)
      requires Valid() && id in list && |list| < MAX_QUESTIONS && row.id == nextId < later && id in orders
      requires RowOk(keeps, row.id, row, sections, scoring, later)
      modifies this`orders, this`questions, this`nextId, this`list
      ensures Valid() && at < |old(list)| && old(list)[at] == id && list == InsertAfter(old(list), at, row.id)
      ensures View() == InsertRow(old(View()), old(orders)[id], row, later)
    {
      at := PlaceIn(list, id);
      AddAt(id, row, later, at);
    }

    method AddAt(id: Id, row: StoredQuestion, later: nat, ghost at: nat)
      requires Valid() && at < |list| < MAX_QUESTIONS && list[at] == id && row.id == nextId < later && id in orders
      requires RowOk(keeps, row.id, row, sections, scoring, later)
      modifies this`orders, this`questions, this`nextId, this`list
      ensures Valid() && list == InsertAfter(old(list), at, row.id)
      ensures View() == InsertRow(old(View()), old(orders)[id], row, later)
    {
      InsertRowOk(keeps, View(), list, at, row, later);
      var after := InsertRow(View(), orders[id], row, later);
      orders, questions, nextId := after.orders, after.questions, after.nextId;
      list := InsertAfter(list, at, row.id);
      assert View() == after;
    }

    method SetRow(row: StoredQuestion, later: nat)
      requires Valid() && row.id in questions && nextId <= later
      requires RowOk(keeps, row.id, row, sections, scoring, later)
      modifies this`questions, this`nextId
      ensures Valid() && questions == old(questions)[row.id := row] && nextId == later
    {
      var after := View().(questions := questions[row.id := row], nextId := later);
      SetRowOk(keeps, View(), list, row, later);
      questions, nextId := after.questions, after.nextId;
      assert View() == after;
    }

    method IsFull() returns (full: bool)
      requires Valid()
      ensures full <==> |list| >= MAX_QUESTIONS
    {
      RowOfList(keeps, View(), list, 0);
      full := |questions| >= MAX_QUESTIONS;
    }

    /** A new question, at the end. */
    method Create(dto: QuestionInput, assets: seq<Asset>) returns (why: Option<Refusal>, row: Option<StoredQuestion>)
      requires Valid()
      modifies this`orders, this`questions, this`nextId, this`list
      ensures Valid()
      ensures why.None? <==> |old(list)| < MAX_QUESTIONS && Prepare(dto, sections, scoring, assets).Fine?
      ensures why.Some? ==> list == old(list) && View() == old(View())
      ensures why.None? ==>
        && row.Some? && StoredFrom(row.value, Prepare(dto, sections, scoring, assets), old(nextId), dto.sectionId)
        && list == old(list) + [old(nextId)] && questions == old(questions)[old(nextId) := row.value]
    {
      var full := IsFull();
      if full { return Some(TestFull), None; }
      var checked := Prepare(dto, sections, scoring, assets);
      if checked.Refused? { return Some(checked.why), None; }
      PreparedFits(dto, sections, scoring, assets);
      var stored, later := NewRow(keeps, checked.question, dto.sectionId, checked.links, sections, scoring, nextId);
      var order := NextOrder(orders);
      AddLast(stored, order, later);
      return None, Some(stored);
    }

    /** Replaces a question in place. Options sent with an id of its own keep it. */
    method Update(id: Id, dto: QuestionInput, assets: seq<Asset>)
      returns (why: Option<Refusal>, row: Option<StoredQuestion>)
      requires Valid()
      modifies this`questions, this`nextId
      ensures Valid()
      ensures why.None? <==> id in old(questions) && Prepare(dto, sections, scoring, assets).Fine?
      ensures why.Some? ==> View() == old(View())
      ensures why.None? ==>
        && row.Some? && StoredFrom(row.value, Prepare(dto, sections, scoring, assets), id, dto.sectionId)
        && questions == old(questions)[id := row.value]
        && forall k :: 0 <= k < |row.value.options| ==>
             if k < |dto.options| && dto.options[k].id.Some?
               && dto.options[k].id.value in IdsOf(old(questions)[id].options)
             then row.value.options[k].id == dto.options[k].id.value else row.value.options[k].id >= old(nextId)
    {
      if id !in questions { return Some(QuestionNotFound), None; }
      RowOfList(keeps, View(), list, id);
      var later;
      why, row, later := PrepareEdit(keeps, dto, sections, scoring, assets, questions[id], nextId);
      if why.None? { SetRow(row.value, later); }
    }

    /** A copy straight after the original. */
    method Duplicate(id: Id) returns (why: Option<Refusal>, row: Option<StoredQuestion>, ghost at: nat)
      requires Valid()
      modifies this`orders, this`questions, this`nextId, this`list
      ensures Valid()
      ensures why.None? <==> id in old(questions) && |old(list)| < MAX_QUESTIONS
      ensures why.Some? ==> list == old(list) && View() == old(View())
      ensures why.None? ==>
        && row.Some? && IsCopyOf(row.value, old(questions)[id]) && questions == old(questions)[old(nextId) := row.value]
        && at < |old(list)| && old(list)[at] == id && list == InsertAfter(old(list), at, old(nextId))
    {
      at := 0;
      if id !in questions { return Some(QuestionNotFound), None, at; }
      var full := IsFull();
      if full { return Some(TestFull), None, at; }
      RowOfList(keeps, View(), list, id);
      var copy, later := CopiedRow(keeps, questions[id], sections, scoring, nextId);
      at := AddAfter(id, copy, later);
      return None, Some(copy), at;
    }

    method Remove(id: Id) returns (why: Option<Refusal>, ghost at: nat)
      requires Valid()
      modifies this`orders, this`questions, this`list
      ensures Valid()
      ensures why.None? <==> id in old(questions)
      ensures why.Some? ==> list == old(list) && View() == old(View())
      ensures why.None? ==>
        && at < |old(list)| && old(list)[at] == id && list == RemoveAt(old(list), at)
        && View() == DropRow(old(View()), id)
    {
      at := 0;
      RowOfList(keeps, View(), list, id);
      if id !in questions { return Some(QuestionNotFound), at; }
      at := PlaceIn(list, id);
      DropAt(id, at);
      why := None;
    }

    method DropAt(id: Id, ghost at: nat)
      requires Valid() && at < |list| && list[at] == id
      modifies this`orders, this`questions, this`list
      ensures Valid() && list == RemoveAt(old(list), at) && View() == DropRow(old(View()), id)
    {
      DropRowOk(keeps, View(), list, at);
      var after := DropRow(View(), id);
      orders, questions := after.orders, after.questions;
      list := RemoveAt(list, at);
      assert View() == after;
    }

    /** Puts the questions in the order sent, when that is every question once. */
    method Reorder(ids: seq<Id>) returns (why: Option<Refusal>)
      requires Valid()
      modifies this`orders, this`list
      ensures Valid()
      ensures why.None? <==> multiset(ids) == multiset(old(list))
      ensures list == if why.None? then ids else old(list)
    {
      var renumbered := NewOrder(orders, list, ids);
      if renumbered.None? { return Some(NotSameIds); }
      RenumberedOk(keeps, View(), list, renumbered.value, ids);
      orders, list := renumbered.value, ids;
      why := None;
    }

    /** Switches the scoring method, refused while questions of the other kind remain. */
    method ChangeMethod(to: ScoringMethod) returns (why: Option<Refusal>)
      requires Valid()
      modifies this`scoring
      ensures Valid()
      ensures why.None? <==> to == old(scoring) || list == []
      ensures scoring == if why.None? then to else old(scoring)
    {
      if to == scoring { return None; }
      var misfits := set id | id in questions && questions[id].kind !in QuestionTypesFor(to) :: questions[id].kind;
      if list != [] {
        MisfitFound(keeps, View(), list, to);
        assert questions[list[0]].kind in misfits;
      }
      if misfits != {} { return Some(Misfits(misfits)); }
      scoring := to;
      why := None;
    }

    method AddSection(section: StoredSection)
      requires Valid() && |sections| < MAX_SECTIONS && section.id == nextId && SectionOk(section, nextId + 1)
      requires forall s <- sections :: ToLower(s.name) != ToLower(section.name)
      modifies this`sections, this`nextId
      ensures Valid() && sections == old(sections) + [section] && nextId == old(nextId) + 1
    {
      AddSectionOk(keeps, View(), list, section);
      sections, nextId := sections + [section], nextId + 1;
    }

    /** The sections an import creates, found by name from then on. */
    method AddSections(fold: Fold, names: seq<string>, sectionIds: map<string, Id>)
      returns (added: seq<StoredSection>, more: map<string, Id>)
      requires Valid() && |sections| + |names| <= MAX_SECTIONS && NamesDiffer(Names(sections) + names)
      requires (forall n <- names :: Trimmed(n)) && FindsSections(sectionIds, fold, sections, [])
      modifies this`sections, this`nextId
      ensures Valid() && sections == old(sections) + added && Names(added) == names && NothingElse(added)
      ensures FindsSections(more, fold, old(sections), added)
    {
      added, more := [], sectionIds;
      ghost var before := sections;
      for i := 0 to |names|
        invariant Valid() && sections == before + added && Names(added) == names[..i] && NothingElse(added)
        invariant FindsSections(more, fold, before, added)
      {
        var section := StoredSection(nextId, names[i], None, None);
        NameUnused(before, added, names, i);
        AddedGrows(fold, before, added, section, more);
        NamesGrow(added, section);
        Associative(before, added, [section]);
        assert names[i] in names && names[..i + 1] == names[..i] + [names[i]];
        AddSection(section);
        more := more[ToLower(section.name) := section.id];
        added := added + [section];
      }
      assert names[..|names|] == names;
    }

    /** Stores one row of the file, after the rows there are. */
    method AddImported(fold: Fold, q: CanonicalQuestion, sectionIds: map<string, Id>, library: Library, order: int,
      ghost before: seq<StoredSection>, ghost added: seq<StoredSection>) returns (ghost row: StoredQuestion)
      requires Valid() && |list| < MAX_QUESTIONS && Above(orders, order) && QuestionCsv.Importable(q, scoring)
      requires sections == before + added && FindsSections(sectionIds, fold, before, added)
      modifies this`orders, this`questions, this`nextId, this`list
      ensures Valid() && Above(orders, order + 1) && SavedUnder(fold, before, added, library)(q, row)
      ensures row.id !in old(questions) && questions == old(questions)[row.id := row] && list == old(list) + [row.id]
    {
      var stored, later := ImportedRow(keeps, fold, q, sectionIds, before, added, scoring, library, nextId);
      IdUnused(keeps, View(), list);
      AddLast(stored, order, later);
      row := stored;
    }

    /** Stores the rows of the file, in order, after the rows there are. */
    method AddRows(fold: Fold, rows: seq<QuestionCsv.QuestionRow>, sectionIds: map<string, Id>, library: Library,
      start: int, ghost before: seq<StoredSection>, ghost added: seq<StoredSection>) returns (ghost ids: seq<Id>)
      requires Valid() && |list| + |rows| <= MAX_QUESTIONS && Above(orders, start)
      requires sections == before + added && FindsSections(sectionIds, fold, before, added)
      requires forall row <- rows :: QuestionCsv.Importable(row.question, scoring)
      modifies this`orders, this`questions, this`nextId, this`list
      ensures Valid() && list == old(list) + ids && |ids| == |rows| && Extends(old(questions), questions)
      ensures RowsSaved(SavedUnder(fold, before, added, library), questions, ids, rows)
    {
      ids := [];
      ghost var there, first := questions, list;
      for i := 0 to |rows|
        invariant Valid() && |ids| == i && list == first + ids && Above(orders, start + i) && Extends(there, questions)
        invariant RowsSaved(SavedUnder(fold, before, added, library), questions, ids, rows)
      {
        assert rows[i] in rows;
        ghost var now := questions;
        ghost var row := AddImported(fold, rows[i].question, sectionIds, library, start + i, before, added);
        OneMoreSaved(SavedUnder(fold, before, added, library), now, ids, rows, row);
        ExtendsOn(there, now, row);
        Associative(first, ids, [row.id]);
        ids := ids + [row.id];
      }
    }

    /** The import's transaction. */
    method Save(fold: Fold, rows: seq<QuestionCsv.QuestionRow>, names: seq<string>, sectionIds: map<string, Id>,
      append: bool, library: Library) returns (ghost ids: seq<Id>)
      requires Valid() && CanSave(scoring, sections, if append then |list| else 0, rows, names)
      requires FindsSections(sectionIds, fold, sections, [])
      modifies this`sections, this`orders, this`questions, this`nextId, this`list
      ensures Valid() && SavedAll(fold, old(sections), sections, names, library, questions, ids, rows)
      ensures list == (if append then old(list) else []) + ids
      ensures append ==> Extends(old(questions), questions)
    {
      if !append { Clear(); }
      ids := SaveMore(fold, rows, names, sectionIds, library);
    }

    /** Adds the sections and the rows. */
    method SaveMore(fold: Fold, rows: seq<QuestionCsv.QuestionRow>, names: seq<string>, sectionIds: map<string, Id>,
      library: Library) returns (ghost ids: seq<Id>)
      requires Valid() && CanSave(scoring, sections, |list|, rows, names)
      requires FindsSections(sectionIds, fold, sections, [])
      modifies this`sections, this`orders, this`questions, this`nextId, this`list
      ensures Valid() && SavedAll(fold, old(sections), sections, names, library, questions, ids, rows)
      ensures list == old(list) + ids && Extends(old(questions), questions)
    {
      ghost var before := sections;
      var added, more := AddSections(fold, names, sectionIds);
      var start := NextOrder(orders);
      ids := AddRows(fold, rows, more, library, start, before, added);
      SavedTogether(fold, before, added, library, questions, ids, rows);
    }

    /** What importing the file would do, and the sections its rows are looked up in. */
    method Preview(fold: Fold, text: string, append: bool) returns (report: Report, sectionIds: map<string, Id>)
      requires Valid()
      ensures report ==
        ReportOf(fold, sections, if append then |list| else 0, QuestionCsv.ReadText(text, scoring))
      ensures FindsSections(sectionIds, fold, sections, [])
      ensures report.errors == [] ==>
        CanSave(scoring, sections, if append then |list| else 0, report.rows, report.newSections)
    {
      var parsed := QuestionCsv.ParseQuestionCsv(text, scoring);
      sectionIds := MapSections(fold, sections);
      RowOfList(keeps, View(), list, 0);
      var kept := if append then |questions| else 0;
      report := MakeReport(fold, sectionIds, sections, kept, parsed);
      if report.errors == [] { CleanCanSave(fold, sections, scoring, kept, text); }
    }

    /**
     * Reads a question CSV into the test, unless it is a dry run or has errors.
     * A dry run's report is the real one's, and says what will be saved.
     */
    method ImportCsv(fold: Fold, text: string, append: bool, dryRun: bool, library: Library)
      returns (report: Report, imported: bool, ghost ids: seq<Id>)
      requires Valid()
      modifies this`sections, this`orders, this`questions, this`nextId, this`list
      ensures Valid()
      ensures report ==
        ReportOf(fold, old(sections), if append then |old(list)| else 0, QuestionCsv.ReadText(text, scoring))
      ensures imported <==> !dryRun && report.errors == []
      ensures !imported ==> View() == old(View()) && list == old(list)
      ensures imported ==>
        && SavedAll(fold, old(sections), sections, report.newSections, library, questions, ids, report.rows)
        && list == (if append then old(list) else []) + ids
        && (append ==> Extends(old(questions), questions))
    {
      ids := [];
      var sectionIds;
      report, sectionIds := Preview(fold, text, append);
      if dryRun || report.errors != [] { return report, false, ids; }
      ids := Save(fold, report.rows, report.newSections, sectionIds, append, library);
      imported := true;
    }

    method Clear()
      requires Valid()
      modifies this`orders, this`questions, this`list
      ensures Valid() && list == [] && questions == map[]
    {
      orders, questions, list := map[], map[], [];
    }

    /** A new section, at the end. */
    method CreateSection(name: string, description: Option<string>, weight: Option<real>) returns (why: Option<Refusal>)
      requires Valid() && Trimmed(name) && Plain(description)
      modifies this`sections, this`nextId
      ensures Valid()
      ensures why.None? <==>
        |old(sections)| < MAX_SECTIONS && forall s <- old(sections) :: ToLower(s.name) != ToLower(name)
      ensures sections ==
        if why.None? then old(sections) + [StoredSection(old(nextId), name, description, weight)] else old(sections)
    {
      if |sections| >= MAX_SECTIONS { return Some(SectionsFull); }
      if exists s <- sections :: ToLower(s.name) == ToLower(name) { return Some(NameTaken); }
      var section := StoredSection(nextId, name, description, weight);
      AddSectionOk(keeps, View(), list, section);
      sections, nextId := sections + [section], nextId + 1;
      why := None;
    }

    /** Changes the parts of a section that are sent. */
    method UpdateSection(id: Id, edit: SectionEdit) returns (why: Option<Refusal>)
      requires Valid() && EditOk(edit)
      modifies this`sections
      ensures Valid()
      ensures why == Some(SectionNotFound) <==> !InSections(Some(id), old(sections))
      ensures why.None? <==>
        InSections(Some(id), old(sections)) && (edit.name.Some? ==> !NameUsed(old(sections), id, edit.name.value))
      ensures sections == if why.None? then WithEdit(old(sections), id, edit) else old(sections)
    {
      if !exists s <- sections :: s.id == id { return Some(SectionNotFound); }
      if edit.name.Some? && NameUsed(sections, id, edit.name.value) { return Some(NameTaken); }
      EditSectionOk(keeps, View(), list, id, edit);
      sections := WithEdit(sections, id, edit);
      why := None;
    }

    /** Deletes a section. Its questions stay in the test, in their places, without one. */
    method RemoveSection(id: Id) returns (why: Option<Refusal>)
      requires Valid()
      modifies this`sections, this`questions
      ensures Valid()
      ensures why.None? <==> InSections(Some(id), old(sections))
      ensures why.Some? ==> View() == old(View())
      ensures why.None? ==>
        var at := SectionAt(old(sections), id);
        && at < |old(sections)| && old(sections)[at].id == id
        && sections == Without(old(sections), at) && questions == AllUnfiled(old(questions), id)
    {
      var at := SectionAt(sections, id);
      if at == |sections| { return Some(SectionNotFound); }
      assert sections[at] in sections;
      DropSectionOk(keeps, View(), list, at);
      sections, questions := Without(sections, at), AllUnfiled(questions, id);
      why := None;
    }

    /** Puts the sections in the order sent, when that is every section once. */
    method ReorderSections(ids: seq<Id>) returns (why: Option<Refusal>)
      requires Valid()
      modifies this`sections
      ensures Valid()
      ensures why.None? <==> multiset(ids) == multiset(IdsOfSections(old(sections)))
      ensures if why.None? then IsArranged(old(sections), ids, sections) else sections == old(sections)
    {
      var arranged := ArrangeSections(sections, ids);
      if arranged.None? { return Some(NotSameIds); }
      ArrangeSectionsOk(keeps, View(), list, ids, arranged.value);
      sections := arranged.value;
      why := None;
    }

    /** Sets the score bands, highest first, unless two start at the same score. */
    method ReplaceBands(sent: seq<SnapshotBand>) returns (why: Option<Refusal>)
      requires Valid() && forall b <- sent :: StoreBand(b) == b
      modifies this`bands
      ensures Valid()
      ensures why.None? <==> !BandsClash(sent)
      ensures bands == if why.None? then Bands.HighestFirst(sent) else old(bands)
    {
      if BandsClash(sent) { return Some(SameMinimum); }
      SortedBandsOk(sent);
      bands := Bands.HighestFirst(sent);
      why := None;
    }
  }

  ghost function PlaceIn(list: seq<Id>, id: Id): (at: nat)
    requires id in list
    ensures at < |list| && list[at] == id
  {
    Find((x: Id) => x == id, list)
  }

  // ----- CSV import ------------------------------------------------------------------------------------

  /** Whether a row is what an imported question is stored as. */
  ghost function SavedUnder(fold: Fold, sections: seq<StoredSection>, added: seq<StoredSection>, library: Library):
    (CanonicalQuestion, StoredQuestion) -> bool
  {
    (q: CanonicalQuestion, row: StoredQuestion) =>
      QuestionWritten(q, row, FiledUnder(fold, sections, added, q), library)
  }

  /** The first rows of the file are stored under these ids. */
  ghost predicate RowsSaved(saved: (CanonicalQuestion, StoredQuestion) -> bool, questions: map<Id, StoredQuestion>,
    ids: seq<Id>, rows: seq<QuestionCsv.QuestionRow>)
  {
    |ids| <= |rows| && forall k :: 0 <= k < |ids| ==> ids[k] in questions && saved(rows[k].question, questions[ids[k]])
  }

  lemma OneMoreSaved(saved: (CanonicalQuestion, StoredQuestion) -> bool, questions: map<Id, StoredQuestion>,
    ids: seq<Id>, rows: seq<QuestionCsv.QuestionRow>, row: StoredQuestion)
    requires RowsSaved(saved, questions, ids, rows) && |ids| < |rows| && row.id !in questions
    requires saved(rows[|ids|].question, row)
    ensures RowsSaved(saved, questions[row.id := row], ids + [row.id], rows)
  {
  }

  /** Everything that was there is still there. */
  ghost predicate Extends(before: map<Id, StoredQuestion>, after: map<Id, StoredQuestion>) {
    forall id <- before.Keys :: id in after && after[id] == before[id]
  }

  lemma ExtendsOn(before: map<Id, StoredQuestion>, questions: map<Id, StoredQuestion>, row: StoredQuestion)
    requires Extends(before, questions) && row.id !in questions
    ensures Extends(before, questions[row.id := row])
  {
  }

  /** The rows and new sections of a file that fits the test. */
  ghost predicate CanSave(scoring: ScoringMethod, sections: seq<StoredSection>, kept: nat,
    rows: seq<QuestionCsv.QuestionRow>, names: seq<string>)
  {
    && kept + |rows| <= MAX_QUESTIONS && |sections| + |names| <= MAX_SECTIONS
    && NamesDiffer(Names(sections) + names) && (forall n <- names :: Trimmed(n))
    && forall row <- rows :: QuestionCsv.Importable(row.question, scoring)
  }

  /** A report without errors is about a file that fits. */
  lemma CleanCanSave(fold: Fold, sections: seq<StoredSection>, scoring: ScoringMethod, kept: nat, text: string)
    requires NamesDiffer(Names(sections))
    requires ReportOf(fold, sections, kept, QuestionCsv.ReadText(text, scoring)).errors == []
    ensures var report := ReportOf(fold, sections, kept, QuestionCsv.ReadText(text, scoring));
      CanSave(scoring, sections, kept, report.rows, report.newSections)
  {
    var parsed := QuestionCsv.ReadText(text, scoring);
    CleanReport(fold, sections, kept, parsed);
    QuestionCsv.ImportsAreReady(text, scoring);
    NewNamesTrimmed(fold, sections, parsed.rows, scoring);
    NewNamesDiffer(fold, sections, parsed.rows);
  }

  /** Sections with nothing but a name. */
  predicate NothingElse(sections: seq<StoredSection>) {
    forall i :: 0 <= i < |sections| ==> sections[i].description == None && sections[i].weight == None
  }

  /** The new sections are there under their names, and every row of the file under an id. */
  ghost predicate SavedAll(fold: Fold, before: seq<StoredSection>, after: seq<StoredSection>, names: seq<string>,
    library: Library, questions: map<Id, StoredQuestion>, ids: seq<Id>, rows: seq<QuestionCsv.QuestionRow>)
  {
    && |after| == |before| + |names| && after[..|before|] == before && Names(after[|before|..]) == names
    && NothingElse(after[|before|..])
    && |ids| == |rows| && RowsSaved(SavedUnder(fold, before, after[|before|..], library), questions, ids, rows)
  }

  lemma SavedTogether(fold: Fold, before: seq<StoredSection>, added: seq<StoredSection>, library: Library,
    questions: map<Id, StoredQuestion>, ids: seq<Id>, rows: seq<QuestionCsv.QuestionRow>)
    requires |ids| == |rows| && RowsSaved(SavedUnder(fold, before, added, library), questions, ids, rows)
    requires NothingElse(added)
    ensures SavedAll(fold, before, before + added, Names(added), library, questions, ids, rows)
  {
    assert (before + added)[..|before|] == before && (before + added)[|before|..] == added;
  }

  /** After an import, every row that names a section is filed under one of the test's. */
  lemma RowsFiled(fold: Fold, before: seq<StoredSection>, after: seq<StoredSection>, library: Library,
    questions: map<Id, StoredQuestion>, ids: seq<Id>, rows: seq<QuestionCsv.QuestionRow>, k: nat)
    requires SavedAll(fold, before, after, NewNames(fold, before, rows), library, questions, ids, rows)
    requires NamesDiffer(Names(before)) && k < |rows| && NamesSection(rows[k].question)
    ensures NamesDiffer(Names(after))
    ensures ids[k] in questions && questions[ids[k]].sectionId.Some?
    ensures exists s <- after :: s.id == questions[ids[k]].sectionId.value
  {
    var added := after[|before|..];
    assert after == before + added;
    NewNamesDiffer(fold, before, rows);
    NamesConcat(before, added);
    assert SavedUnder(fold, before, added, library)(rows[k].question, questions[ids[k]]);
    EverySectionFound(fold, before, added, rows, k);
    FiledInTest(fold, before, added, rows[k].question);
  }

  lemma NamesConcat(a: seq<StoredSection>, b: seq<StoredSection>)
    ensures Names(a + b) == Names(a) + Names(b)
  {
  }

  method ImportedRow(ghost keeps: Rule, fold: Fold, q: CanonicalQuestion, sectionIds: map<string, Id>,
    ghost sections: seq<StoredSection>,
    ghost added: seq<StoredSection>, ghost scoring: ScoringMethod, library: Library, first: nat)
    returns (row: StoredQuestion, later: nat)
    requires IsKept(keeps) && QuestionCsv.Importable(q, scoring) && FindsSections(sectionIds, fold, sections, added)
    ensures SavedUnder(fold, sections, added, library)(q, row) && row.id == first < later
    ensures RowOk(keeps, first, row, sections + added, scoring, later)
  {
    ProblemFree(q, scoring);
    var sectionId := None;
    if NamesSection(q) {
      FindsNamed(sectionIds, fold, sections, added, q.section.value);
      sectionId := FindIn(sectionIds, fold, q.section.value);
    }
    FiledInTest(fold, sections, added, q);
    row, later := NewRow(keeps, q, sectionId, LookUp(library, q.media), sections + added, scoring, first);
  }

  lemma NameUnused(before: seq<StoredSection>, added: seq<StoredSection>, names: seq<string>, i: nat)
    requires i < |names| && NamesDiffer(Names(before) + names) && Names(added) == names[..i]
    ensures forall s <- before + added :: ToLower(s.name) != ToLower(names[i])
  {
    var all, n := Names(before) + names, |before|;
    assert all[n + i] == names[i];
    forall k | 0 <= k < |before + added| ensures ToLower((before + added)[k].name) != ToLower(names[i]) {
      if k < n { assert all[k] == before[k].name; } else { assert all[k] == names[k - n] == Names(added)[k - n]; }
    }
  }

  lemma NamesGrow(added: seq<StoredSection>, section: StoredSection)
    ensures Names(added + [section]) == Names(added) + [section.name]
  {
  }

  lemma {:induction false} NewNamesTrimmed(fold: Fold, sections: seq<StoredSection>,
    rows: seq<QuestionCsv.QuestionRow>, scoring: ScoringMethod)
    requires forall row <- rows :: QuestionCsv.Importable(row.question, scoring)
    ensures forall n <- NewNames(fold, sections, rows) :: Trimmed(n)
  {
    if rows != [] {
      var n := |rows| - 1;
      NewNamesTrimmed(fold, sections, rows[..n], scoring);
      assert rows[n] in rows;
      SectionTrimmed(rows[n].question);
    }
  }

  lemma SectionTrimmed(q: CanonicalQuestion)
    requires Normal(q)
    ensures q.section.Some? ==> Trimmed(q.section.value)
  {
  }

  lemma CopyStored(original: StoredQuestion, row: StoredQuestion, links: FileLinks, scoring: ScoringMethod)
    requires Kept(original, scoring) && links == FileLinks(original.media, original.mediaFileName)
    requires row == StoreQuestion(CopyOf(original), row.id, original.sectionId, links, row.options)
    requires OptionsStored(CopyOf(original).options, row.options)
    ensures IsCopyOf(row, original)
  {
  }

  /** A row stored from a prepared question, whatever ids it got. */
  ghost predicate StoredFrom(row: StoredQuestion, checked: Checked, id: Id, sectionId: Option<Id>)
    requires checked.Fine?
  {
    row == StoreQuestion(checked.question, id, sectionId, checked.links, row.options)
    && OptionsStored(checked.question.options, row.options)
  }

  /** The same question under other ids and without the reference; a file still to upload keeps its name. */
  ghost predicate IsCopyOf(copy: StoredQuestion, row: StoredQuestion) {
    && copy.sectionId == row.sectionId && copy.media == row.media
    && copy.mediaFileName == (if row.media.Some? then None else row.mediaFileName)
    && ToCanonical(copy, None).(media := None) == ToCanonical(row, None).(ref := None, media := None)
  }

  /** A question kept for one scoring method is of no kind the other can hold. */
  lemma OtherMethod(row: StoredQuestion, scoring: ScoringMethod, to: ScoringMethod)
    requires Kept(row, scoring) && scoring != to
    ensures row.kind !in QuestionTypesFor(to)
  {
  }
}
