/** What a candidate is shown of a snapshot, and the answer key staff see beside it. */
module TakeView {
  import opened Basics
  import opened Questions
  import opened Snapshots
  import opened Layout

  datatype TakeOption = TakeOption(id: Id, text: string)

  datatype TakeQuestion = TakeQuestion(
    id: Id,
    number: nat,
    kind: QuestionType,
    instruction: Option<string>,
    context: Option<string>,
    stem: string,
    media: Option<string>,
    options: seq<TakeOption>
  )

  /** `new Map(questions.map((q) => [q.id, q]))`. */
  function QuestionsById(questions: seq<SnapshotQuestion>): map<Id, SnapshotQuestion> {
    if questions == [] then map[]
    else
      var last := questions[|questions| - 1];
      QuestionsById(questions[..|questions| - 1])[last.id := last]
  }

  function OptionsById(options: seq<SnapshotOption>): map<Id, SnapshotOption> {
    if options == [] then map[]
    else
      var last := options[|options| - 1];
      OptionsById(options[..|options| - 1])[last.id := last]
  }

  function TakeOptions(ids: seq<Id>, byId: map<Id, SnapshotOption>): seq<TakeOption> {
    if ids == [] then []
    else
      var shown := if ids[0] in byId then [TakeOption(byId[ids[0]].id, byId[ids[0]].text)] else [];
      shown + TakeOptions(ids[1..], byId)
  }

  function TakeEntry(q: SnapshotQuestion, number: nat, optionIds: seq<Id>): TakeQuestion {
    TakeQuestion(q.id, number, q.kind, q.instruction, q.context, q.stem, q.media,
      TakeOptions(optionIds, OptionsById(q.options)))
  }

  /** One entry's question; an entry whose question is gone is skipped. */
  function TakeOne(byId: map<Id, SnapshotQuestion>): (LayoutEntry, nat) -> seq<TakeQuestion> {
    (entry: LayoutEntry, index: nat) =>
      if entry.questionId in byId then [TakeEntry(byId[entry.questionId], index + 1, entry.optionIds)] else []
  }

  function TakeQuestions(s: Snapshot, layout: seq<LayoutEntry>): seq<TakeQuestion> {
    FlatMap(TakeOne(QuestionsById(s.questions)), layout, 0)
  }

  lemma {:induction false} FoundQuestion(questions: seq<SnapshotQuestion>, i: nat)
    requires i < |questions| && DistinctQuestions(questions)
    ensures var byId := QuestionsById(questions); questions[i].id in byId && byId[questions[i].id] == questions[i]
  {
    var n := |questions| - 1;
    if i < n { FoundQuestion(questions[..n], i); }
  }

  lemma {:induction false} FoundOption(options: seq<SnapshotOption>, i: nat)
    requires i < |options| && DistinctOptions(options)
    ensures var byId := OptionsById(options); options[i].id in byId && byId[options[i].id] == options[i]
  {
    var n := |options| - 1;
    if i < n { FoundOption(options[..n], i); }
  }

  function Shown(options: seq<SnapshotOption>): seq<TakeOption> {
    Map((o: SnapshotOption) => TakeOption(o.id, o.text), options)
  }

  lemma {:induction false} OptionsShown(ids: seq<Id>, byId: map<Id, SnapshotOption>, show: Id -> TakeOption)
    requires forall id <- ids :: id in byId && show(id) == TakeOption(byId[id].id, byId[id].text)
    ensures TakeOptions(ids, byId) == Map(show, ids)
  {
    if ids != [] {
      OptionsShown(ids[1..], byId, show);
      MapHead(show, ids);
      assert ids[0] in ids;
    }
  }

  /** The options shown are those with these ids, in this order. */
  predicate IdsShown(options: seq<TakeOption>, ids: seq<Id>) {
    |options| == |ids| && forall k :: 0 <= k < |ids| ==> options[k].id == ids[k]
  }

  /** Whatever the order of the ids, the candidate sees every option, each once. */
  lemma EveryOptionShown(ids: seq<Id>, options: seq<SnapshotOption>)
    requires DistinctOptions(options) && SameItems(ids, OptionIds(options))
    ensures SameItems(TakeOptions(ids, OptionsById(options)), Shown(options))
    ensures IdsShown(TakeOptions(ids, OptionsById(options)), ids)
  {
    var byId := OptionsById(options);
    var show := (id: Id) => if id in byId then TakeOption(byId[id].id, byId[id].text) else TakeOption(0, "");
    forall i | 0 <= i < |options| ensures options[i].id in byId && byId[options[i].id] == options[i] {
      FoundOption(options, i);
    }
    forall id | id in ids ensures id in byId && byId[id].id == id {
      assert id in multiset(OptionIds(options));
      var i :| 0 <= i < |options| && OptionIds(options)[i] == id;
    }
    OptionsShown(ids, byId, show);
    MapItems(show, ids, OptionIds(options));
    assert Map(show, OptionIds(options)) == Shown(options);
  }

  lemma OrderFound(s: Snapshot, q: SnapshotQuestion)
    requires KeysUnique(s) && q in s.questions
    ensures var byId := QuestionsById(s.questions); q.id in byId && byId[q.id] == q
    ensures DistinctOptions(q.options)
  {
    var i :| 0 <= i < |s.questions| && s.questions[i] == q;
    FoundQuestion(s.questions, i);
  }

  /** What the candidate sees of an entry for question q, as number k + 1. */
  ghost predicate ShownAs(t: TakeQuestion, entry: LayoutEntry, q: SnapshotQuestion, k: nat) {
    && entry.questionId == q.id && IdsShown(t.options, entry.optionIds)
    && t.id == q.id && t.number == k + 1 && t.kind == q.kind
    && t.instruction == q.instruction && t.context == q.context && t.stem == q.stem && t.media == q.media
    && SameItems(t.options, Shown(q.options))
  }

  lemma OneShown(s: Snapshot, entry: LayoutEntry, q: SnapshotQuestion, k: nat)
    requires KeysUnique(s) && q in s.questions && EntryFor(entry, q)
    ensures var t := TakeOne(QuestionsById(s.questions))(entry, k); |t| == 1 && ShownAs(t[0], entry, q, k)
  {
    OrderFound(s, q);
    EveryOptionShown(entry.optionIds, q.options);
    assert TakeOne(QuestionsById(s.questions))(entry, k) == [TakeEntry(q, k + 1, entry.optionIds)];
  }

  lemma LayoutOrder(s: Snapshot, layout: seq<LayoutEntry>) returns (order: seq<SnapshotQuestion>)
    requires LayoutFor(layout, s) && DistinctSections(s.sections)
    ensures SameItems(order, s.questions) && |layout| == |order|
    ensures forall k :: 0 <= k < |order| ==> EntryFor(layout[k], order[k]) && order[k] in s.questions
  {
    order :| OrderFor(order, s) && EntriesFor(layout, order);
    OrderForItems(order, s);
    forall k | 0 <= k < |order| ensures order[k] in s.questions {
      assert order[k] in multiset(s.questions);
    }
  }

  ghost predicate EachShown(f: (LayoutEntry, nat) -> seq<TakeQuestion>, layout: seq<LayoutEntry>,
    order: seq<SnapshotQuestion>)
    requires |layout| == |order|
  {
    forall k :: 0 <= k < |layout| ==> |f(layout[k], k)| == 1 && ShownAs(f(layout[k], k)[0], layout[k], order[k], k)
  }

  lemma EntriesShown(s: Snapshot, layout: seq<LayoutEntry>, order: seq<SnapshotQuestion>)
    requires KeysUnique(s) && |layout| == |order|
    requires forall k :: 0 <= k < |order| ==> EntryFor(layout[k], order[k]) && order[k] in s.questions
    ensures EachShown(TakeOne(QuestionsById(s.questions)), layout, order)
  {
    forall k | 0 <= k < |layout|
      ensures var t := TakeOne(QuestionsById(s.questions))(layout[k], k);
        |t| == 1 && ShownAs(t[0], layout[k], order[k], k)
    {
      OneShown(s, layout[k], order[k], k);
    }
  }

  /** Entries that each show one question make a view with one question each, in order. */
  lemma {:induction false} ViewAt(f: (LayoutEntry, nat) -> seq<TakeQuestion>, layout: seq<LayoutEntry>, index: nat,
    k: nat)
    requires index <= |layout| && forall i :: 0 <= i < |layout| ==> |f(layout[i], i)| == 1
    ensures |FlatMap(f, layout, index)| == |layout| - index
    ensures index <= k < |layout| ==> FlatMap(f, layout, index)[k - index] == f(layout[k], k)[0]
    decreases |layout| - index
  {
    if index < |layout| { ViewAt(f, layout, index + 1, k); }
  }

  lemma ViewFollows(f: (LayoutEntry, nat) -> seq<TakeQuestion>, layout: seq<LayoutEntry>, order: seq<SnapshotQuestion>)
    requires |layout| == |order| && EachShown(f, layout, order)
    ensures ShownInOrder(FlatMap(f, layout, 0), layout, order)
  {
    ViewAt(f, layout, 0, 0);
    forall k | 0 <= k < |order| ensures ShownAs(FlatMap(f, layout, 0)[k], layout[k], order[k], k) {
      ViewAt(f, layout, 0, k);
    }
  }

  /**
   * On a layout for the test, the candidate is shown every question once,
   * numbered 1 to n in the layout's order, with every one of its options, in
   * the layout's order too.
   */
  lemma EverythingShown(s: Snapshot, layout: seq<LayoutEntry>)
    requires KeysUnique(s) && LayoutFor(layout, s)
    ensures exists order: seq<SnapshotQuestion> ::
      SameItems(order, s.questions) && ShownInOrder(TakeQuestions(s, layout), layout, order)
  {
    var order := LayoutOrder(s, layout);
    EntriesShown(s, layout, order);
    ViewFollows(TakeOne(QuestionsById(s.questions)), layout, order);
    assert ShownInOrder(TakeQuestions(s, layout), layout, order);
  }

  ghost predicate ShownInOrder(view: seq<TakeQuestion>, layout: seq<LayoutEntry>, order: seq<SnapshotQuestion>) {
    |view| == |layout| == |order| && forall k :: 0 <= k < |order| ==> ShownAs(view[k], layout[k], order[k], k)
  }

  // ----- The answer key ----------------------------------------------------------------

  datatype KeyEntry = KeyEntry(questionId: Id, optionId: Id, roleProfile: bool)

  /** The right option, or the role profile's option on a scale. */
  function KeyIndex(q: SnapshotQuestion): (i: nat)
    ensures i <= |q.options|
  {
    if IsScale(q.kind) then Find((o: SnapshotOption) => o.value == q.employerValue, q.options)
    else Find((o: SnapshotOption) => o.isCorrect, q.options)
  }

  function AnswerKey(questions: seq<SnapshotQuestion>): seq<KeyEntry> {
    if questions == [] then []
    else
      var q := questions[0];
      (if KeyIndex(q) < |q.options| then [KeyEntry(q.id, q.options[KeyIndex(q)].id, IsScale(q.kind))] else [])
      + AnswerKey(questions[1..])
  }
}
