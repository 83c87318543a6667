/**
 * The order one candidate sees: questions, and the options of each, drawn once
 * when the attempt starts. A source of numbers is read from position `at`, and
 * every step says where it stops reading.
 */
module Layout {
  import opened Basics
  import opened Questions
  import opened Shuffle
  import opened Snapshots

  datatype LayoutEntry = LayoutEntry(questionId: Id, optionIds: seq<Id>)

  /** A shuffled copy. */
  function Mixed<T>(items: seq<T>, random: Random, at: nat): (r: seq<T>)
    requires IsRandom(random)
    ensures |r| == |items|
  {
    DrawsValid(random, at, |items|);
    Shuffled(items, Draws(random, at, |items|))
  }

  method ShuffledCopy<T>(items: seq<T>, random: Random, at: nat) returns (copy: seq<T>, next: nat)
    requires IsRandom(random)
    ensures copy == Mixed(items, random, at) && next == at + DrawCount(|items|)
  {
    var a := new T[|items|](i requires 0 <= i < |items| => items[i]);
    assert a[..] == items;
    next := ShuffleInPlace(a, random, at);
    copy := a[..];
  }

  lemma MixedItems<T>(items: seq<T>, random: Random, at: nat)
    requires IsRandom(random)
    ensures SameItems(Mixed(items, random, at), items)
  {
    DrawsValid(random, at, |items|);
    ShuffledItems(items, Draws(random, at, |items|));
  }

  /** Each block shuffled on its own, the blocks in order. */
  function MixedBlocks<T>(blocks: seq<seq<T>>, random: Random, at: nat): (r: (seq<T>, nat))
    requires IsRandom(random)
  {
    if blocks == [] then ([], at)
    else
      var rest := MixedBlocks(blocks[1..], random, at + DrawCount(|blocks[0]|));
      (Mixed(blocks[0], random, at) + rest.0, rest.1)
  }

  /** Alignment items are shuffled within their section, never across sections. */
  function EffectiveOrder(s: Snapshot): QuestionOrder {
    if s.questionOrder == ShuffleAll && s.scoringMethod == Alignment then ShuffleWithinSection else s.questionOrder
  }

  function OrderQuestions(s: Snapshot, random: Random, at: nat): (r: (seq<SnapshotQuestion>, nat))
    requires IsRandom(random)
  {
    match EffectiveOrder(s)
    case FixedOrder => (s.questions, at)
    case ShuffleAll => (Mixed(s.questions, random, at), at + DrawCount(|s.questions|))
    case ShuffleWithinSection => MixedBlocks(Blocks(s.questions, s.sections), random, at)
  }

  function OrderOptions(q: SnapshotQuestion, random: Random, at: nat): (r: (seq<SnapshotOption>, nat))
    requires IsRandom(random)
  {
    var n := |q.options|;
    if !q.shuffleOptions then (q.options, at)
    else if q.keepLastOptionFixed && n > 1 then
      (Mixed(q.options[..n - 1], random, at) + [q.options[n - 1]], at + DrawCount(n - 1))
    else (Mixed(q.options, random, at), at + DrawCount(n))
  }

  function OptionIds(options: seq<SnapshotOption>): seq<Id> {
    Map((o: SnapshotOption) => o.id, options)
  }

  function Entries(questions: seq<SnapshotQuestion>, random: Random, at: nat): (r: seq<LayoutEntry>)
    requires IsRandom(random)
    ensures |r| == |questions|
  {
    if questions == [] then []
    else
      var (options, next) := OrderOptions(questions[0], random, at);
      [LayoutEntry(questions[0].id, OptionIds(options))] + Entries(questions[1..], random, next)
  }

  function BuildLayout(s: Snapshot, random: Random, at: nat): seq<LayoutEntry>
    requires IsRandom(random)
  {
    var (questions, next) := OrderQuestions(s, random, at);
    Entries(questions, random, next)
  }

  // ----- Nothing is lost, and everything stays in its place -----------------------------

  /** `r` is the blocks in order, each in some order of its own. */
  ghost predicate BlockwiseShuffle<T(!new)>(r: seq<T>, blocks: seq<seq<T>>) {
    exists mixed: seq<seq<T>> :: MixOf(mixed, blocks) && r == Flatten(mixed)
  }

  ghost predicate MixOf<T>(mixed: seq<seq<T>>, blocks: seq<seq<T>>) {
    |mixed| == |blocks| && forall k :: 0 <= k < |blocks| ==> SameItems(mixed[k], blocks[k])
  }

  lemma {:induction false} MixedBlocksKeep<T(!new)>(blocks: seq<seq<T>>, random: Random, at: nat)
    requires IsRandom(random)
    ensures BlockwiseShuffle(MixedBlocks(blocks, random, at).0, blocks)
  {
    if blocks == [] {
      assert MixOf([], blocks) && Flatten<T>([]) == [];
    } else {
      var next := at + DrawCount(|blocks[0]|);
      MixedBlocksKeep(blocks[1..], random, next);
      var rest :| MixOf(rest, blocks[1..]) && MixedBlocks(blocks[1..], random, next).0 == Flatten(rest);
      MixedItems(blocks[0], random, at);
      var mixed := [Mixed(blocks[0], random, at)] + rest;
      assert mixed[1..] == rest && MixOf(mixed, blocks);
    }
  }

  lemma {:induction false} MixOfItems<T>(mixed: seq<seq<T>>, blocks: seq<seq<T>>)
    requires MixOf(mixed, blocks)
    ensures SameItems(Flatten(mixed), Flatten(blocks))
  {
    if mixed != [] { MixOfItems(mixed[1..], blocks[1..]); }
  }

  /**
   * An order of the questions the rules allow: their own when it is fixed, each
   * section's questions mixed among themselves when it is shuffled by section,
   * and any order at all when it is shuffled throughout; but alignment items
   * never leave their section.
   */
  ghost predicate OrderFor(order: seq<SnapshotQuestion>, s: Snapshot) {
    match s.questionOrder
    case FixedOrder => order == s.questions
    case ShuffleWithinSection => BlockwiseShuffle(order, Blocks(s.questions, s.sections))
    case ShuffleAll =>
      match s.scoringMethod
      case Alignment => BlockwiseShuffle(order, Blocks(s.questions, s.sections))
      case CorrectAnswer => SameItems(order, s.questions)
  }

  lemma OrderForItems(order: seq<SnapshotQuestion>, s: Snapshot)
    requires OrderFor(order, s) && DistinctSections(s.sections)
    ensures SameItems(order, s.questions)
  {
    var blocks := Blocks(s.questions, s.sections);
    if BlockwiseShuffle(order, blocks) {
      var mixed :| MixOf(mixed, blocks) && order == Flatten(mixed);
      MixOfItems(mixed, blocks);
      BlocksPartition(s.questions, s.sections);
    }
  }

  /** The questions keep their number, and stand in an order the rules allow. */
  lemma QuestionsKept(s: Snapshot, random: Random, at: nat)
    requires IsRandom(random) && DistinctSections(s.sections)
    ensures OrderFor(OrderQuestions(s, random, at).0, s)
    ensures SameItems(OrderQuestions(s, random, at).0, s.questions)
  {
    match EffectiveOrder(s) {
      case FixedOrder =>
      case ShuffleAll => MixedItems(s.questions, random, at);
      case ShuffleWithinSection => MixedBlocksKeep(Blocks(s.questions, s.sections), random, at);
    }
    OrderForItems(OrderQuestions(s, random, at).0, s);
  }

  /** A question's options are all there once, in place unless shuffled, a pinned last one last. */
  lemma OptionsKept(q: SnapshotQuestion, random: Random, at: nat)
    requires IsRandom(random)
    ensures var options := OrderOptions(q, random, at).0;
      && SameItems(options, q.options)
      && (!q.shuffleOptions ==> options == q.options)
      && (q.keepLastOptionFixed && q.options != [] ==>
            options != [] && options[|options| - 1] == q.options[|q.options| - 1])
  {
    var n := |q.options|;
    if q.shuffleOptions && q.keepLastOptionFixed && n > 1 {
      MixedItems(q.options[..n - 1], random, at);
      SplitLast(q.options);
    } else if q.shuffleOptions {
      MixedItems(q.options, random, at);
      if n == 1 { OneItem(Mixed(q.options, random, at), q.options); }
    }
  }

  lemma OneItem<T>(s: seq<T>, t: seq<T>)
    requires |s| == |t| == 1 && SameItems(s, t)
    ensures s == t
  {
    assert s[0] in multiset(t);
  }

  /** An entry lists its question's options, each once, in an order the rules allow. */
  ghost predicate EntryFor(entry: LayoutEntry, q: SnapshotQuestion) {
    var ids, n := OptionIds(q.options), |q.options|;
    && entry.questionId == q.id
    && SameItems(entry.optionIds, ids)
    && (!q.shuffleOptions ==> entry.optionIds == ids)
    && (q.keepLastOptionFixed && n > 0 ==>
          entry.optionIds != [] && entry.optionIds[|entry.optionIds| - 1] == ids[n - 1])
  }

  lemma OneEntry(q: SnapshotQuestion, random: Random, at: nat)
    requires IsRandom(random)
    ensures EntryFor(LayoutEntry(q.id, OptionIds(OrderOptions(q, random, at).0)), q)
  {
    OptionsKept(q, random, at);
    MapItems((o: SnapshotOption) => o.id, OrderOptions(q, random, at).0, q.options);
  }

  lemma {:induction false} EntriesFollow(questions: seq<SnapshotQuestion>, random: Random, at: nat)
    requires IsRandom(random)
    ensures forall k :: 0 <= k < |questions| ==> EntryFor(Entries(questions, random, at)[k], questions[k])
  {
    if questions != [] {
      OneEntry(questions[0], random, at);
      EntriesFollow(questions[1..], random, OrderOptions(questions[0], random, at).1);
    }
  }

  ghost predicate EntriesFor(layout: seq<LayoutEntry>, order: seq<SnapshotQuestion>) {
    |layout| == |order| && forall k :: 0 <= k < |order| ==> EntryFor(layout[k], order[k])
  }

  /** The layout shows some order of the questions the rules allow, and each one's options. */
  ghost predicate LayoutFor(layout: seq<LayoutEntry>, s: Snapshot) {
    exists order: seq<SnapshotQuestion> :: OrderFor(order, s) && EntriesFor(layout, order)
  }

  /** Whatever the source draws, the layout is one for the test. */
  lemma LayoutIsForTest(s: Snapshot, random: Random, at: nat)
    requires IsRandom(random) && DistinctSections(s.sections)
    ensures LayoutFor(BuildLayout(s, random, at), s)
  {
    var (order, next) := OrderQuestions(s, random, at);
    QuestionsKept(s, random, at);
    EntriesFollow(order, random, next);
    assert OrderFor(order, s) && EntriesFor(BuildLayout(s, random, at), order);
  }

  // ----- Every layout for the test can be drawn ---------------------------------------------

  /** The two sources hand out the same numbers from a position on. */
  ghost predicate AgreeFrom(random: Random, other: Random, at: nat) {
    forall k :: k >= at ==> random(k) == other(k)
  }

  /** The same numbers for n items. */
  ghost predicate AgreeOn(random: Random, other: Random, at: nat, n: nat) {
    forall k :: at <= k < at + DrawCount(n) ==> random(k) == other(k)
  }

  lemma MixedAgrees<T>(items: seq<T>, random: Random, other: Random, at: nat)
    requires IsRandom(random) && IsRandom(other) && AgreeOn(random, other, at, |items|)
    ensures Mixed(items, random, at) == Mixed(items, other, at)
  {
    assert Draws(random, at, |items|) == Draws(other, at, |items|);
  }

  /** How many numbers a question's options take. */
  function OptionDraws(q: SnapshotQuestion): nat {
    var n := |q.options|;
    if !q.shuffleOptions then 0 else if q.keepLastOptionFixed && n > 1 then DrawCount(n - 1) else DrawCount(n)
  }

  lemma OptionsAgree(q: SnapshotQuestion, random: Random, other: Random, at: nat)
    requires IsRandom(random) && IsRandom(other)
    requires forall k :: at <= k < at + OptionDraws(q) ==> random(k) == other(k)
    ensures OrderOptions(q, random, at) == OrderOptions(q, other, at)
    ensures OrderOptions(q, random, at).1 == at + OptionDraws(q)
  {
    var n := |q.options|;
    if q.shuffleOptions && q.keepLastOptionFixed && n > 1 {
      MixedAgrees(q.options[..n - 1], random, other, at);
    } else if q.shuffleOptions {
      MixedAgrees(q.options, random, other, at);
    }
  }

  lemma {:induction false} EntriesAgree(questions: seq<SnapshotQuestion>, random: Random, other: Random, at: nat)
    requires IsRandom(random) && IsRandom(other) && AgreeFrom(random, other, at)
    ensures Entries(questions, random, at) == Entries(questions, other, at)
  {
    if questions != [] {
      var next := at + OptionDraws(questions[0]);
      OptionsAgree(questions[0], random, other, at);
      assert AgreeFrom(random, other, next);
      EntriesAgree(questions[1..], random, other, next);
    }
  }

  /** The numbers of one source up to a position, and of another from there on. */
  function Spliced(first: Random, next: nat, rest: Random): Random {
    (k: nat) => if k < next then first(k) else rest(k)
  }

  lemma SplicedIsRandom(first: Random, next: nat, rest: Random)
    requires IsRandom(first) && IsRandom(rest)
    ensures IsRandom(Spliced(first, next, rest)) && AgreeFrom(Spliced(first, next, rest), rest, next)
  {
  }

  /** Some source shuffles the items into any order of them. */
  lemma MixedReach<T>(items: seq<T>, order: seq<T>, at: nat) returns (random: Random)
    requires SameItems(items, order)
    ensures IsRandom(random) && Mixed(items, random, at) == order
  {
    Shuffle.SameLength(items, order);
    var js := StepsReach(items, order, DrawCount(|items|));
    EveryDrawPossible(js, at);
    random := SourceOf(js, at);
  }

  lemma OneLess<B>(s: seq<B>, fewer: seq<B>, t: seq<B>)
    requires SameItems(s, t) && t != [] && multiset(s) == multiset(fewer) + multiset{t[0]}
    ensures SameItems(fewer, t[1..])
  {
    SplitHead(t);
    assert multiset(t) == multiset{t[0]} + multiset(t[1..]);
    assert multiset(fewer) == multiset(s) - multiset{t[0]};
  }

  /** Any arrangement of what f makes of the items is what f makes of an arrangement of them. */
  lemma {:induction false} Unmapped<A, B>(f: A -> B, s: seq<A>, t: seq<B>) returns (p: seq<A>)
    requires SameItems(Map(f, s), t)
    ensures SameItems(s, p) && Map(f, p) == t
    decreases |t|
  {
    if t == [] {
      assert |multiset(Map(f, s))| == |s|;
      p := [];
    } else {
      assert t[0] in multiset(Map(f, s));
      var i :| 0 <= i < |s| && f(s[i]) == t[0];
      var fewer := TakeOut(f, s, i);
      OneLess(Map(f, s), Map(f, fewer), t);
      var rest := Unmapped(f, fewer, t[1..]);
      p := [s[i]] + rest;
    }
  }

  /** The ids before a pinned last one are those of the options before it. */
  lemma BeforeLast(q: SnapshotQuestion, ids: seq<Id>)
    requires q.options != [] && SameItems(ids, OptionIds(q.options)) && ids != []
    requires ids[|ids| - 1] == q.options[|q.options| - 1].id
    ensures SameItems(OptionIds(q.options[..|q.options| - 1]), ids[..|ids| - 1])
  {
    var n, m := |q.options| - 1, |ids| - 1;
    assert OptionIds(q.options) == OptionIds(q.options[..n]) + [q.options[n].id];
    SplitLast(ids);
    assert multiset(ids[..m]) == multiset(ids) - multiset{ids[m]};
    assert multiset(OptionIds(q.options[..n])) == multiset(OptionIds(q.options)) - multiset{q.options[n].id};
  }

  lemma OptionsReach(q: SnapshotQuestion, entry: LayoutEntry, at: nat) returns (random: Random)
    requires EntryFor(entry, q)
    ensures IsRandom(random) && OptionIds(OrderOptions(q, random, at).0) == entry.optionIds
  {
    var n, ids, idOf := |q.options|, entry.optionIds, (o: SnapshotOption) => o.id;
    random := k => 0.0;
    if q.shuffleOptions && q.keepLastOptionFixed && n > 1 {
      BeforeLast(q, ids);
      var p := Unmapped(idOf, q.options[..n - 1], ids[..|ids| - 1]);
      random := MixedReach(q.options[..n - 1], p, at);
      assert OptionIds(p + [q.options[n - 1]]) == ids[..|ids| - 1] + [ids[|ids| - 1]];
    } else if q.shuffleOptions {
      var p := Unmapped(idOf, q.options, ids);
      random := MixedReach(q.options, p, at);
    }
  }

  /** The first question's entry is drawn from one source, and the others from another. */
  lemma EntriesJoin(order: seq<SnapshotQuestion>, random: Random, at: nat, next: nat, entry: LayoutEntry,
    layout: seq<LayoutEntry>)
    requires order != [] && IsRandom(random) && OrderOptions(order[0], random, at).1 == next
    requires entry == LayoutEntry(order[0].id, OptionIds(OrderOptions(order[0], random, at).0))
    requires Entries(order[1..], random, next) == layout
    ensures Entries(order, random, at) == [entry] + layout
  {
  }

  lemma {:induction false} EntriesReach(order: seq<SnapshotQuestion>, layout: seq<LayoutEntry>, at: nat)
    returns (random: Random)
    requires EntriesFor(layout, order)
    ensures IsRandom(random) && Entries(order, random, at) == layout
  {
    if order == [] {
      random := k => 0.0;
    } else {
      var next := at + OptionDraws(order[0]);
      var rest := EntriesReach(order[1..], layout[1..], next);
      random := OptionsThen(order[0], layout[0], at, rest);
      EntriesAgree(order[1..], random, rest, next);
      EntriesJoin(order, random, at, next, layout[0], layout[1..]);
      assert layout == [layout[0]] + layout[1..];
    }
  }

  /** A source for one question's options that goes on as another. */
  lemma OptionsThen(q: SnapshotQuestion, entry: LayoutEntry, at: nat, rest: Random) returns (random: Random)
    requires EntryFor(entry, q) && IsRandom(rest)
    ensures IsRandom(random) && AgreeFrom(random, rest, at + OptionDraws(q))
    ensures OrderOptions(q, random, at).1 == at + OptionDraws(q)
    ensures entry == LayoutEntry(q.id, OptionIds(OrderOptions(q, random, at).0))
  {
    var next := at + OptionDraws(q);
    var first := OptionsReach(q, entry, at);
    random := Spliced(first, next, rest);
    SplicedIsRandom(first, next, rest);
    OptionsAgree(q, random, first, at);
  }

  /** How many numbers shuffling each block takes. */
  function BlockDraws<T>(blocks: seq<seq<T>>): nat {
    if blocks == [] then 0 else DrawCount(|blocks[0]|) + BlockDraws(blocks[1..])
  }

  lemma {:induction false} BlocksAgree<T>(blocks: seq<seq<T>>, random: Random, other: Random, at: nat)
    requires IsRandom(random) && IsRandom(other)
    requires forall k :: at <= k < at + BlockDraws(blocks) ==> random(k) == other(k)
    ensures MixedBlocks(blocks, random, at) == MixedBlocks(blocks, other, at)
    ensures MixedBlocks(blocks, random, at).1 == at + BlockDraws(blocks)
  {
    if blocks != [] {
      MixedAgrees(blocks[0], random, other, at);
      BlocksAgree(blocks[1..], random, other, at + DrawCount(|blocks[0]|));
    }
  }

  lemma {:induction false} BlocksReach<T(!new)>(blocks: seq<seq<T>>, mixed: seq<seq<T>>, at: nat)
    returns (random: Random)
    requires MixOf(mixed, blocks)
    ensures IsRandom(random) && MixedBlocks(blocks, random, at).0 == Flatten(mixed)
  {
    if blocks == [] {
      random := k => 0.0;
    } else {
      var next := at + DrawCount(|blocks[0]|);
      assert MixOf(mixed[1..], blocks[1..]) && SameItems(blocks[0], mixed[0]);
      var rest := BlocksReach(blocks[1..], mixed[1..], next);
      var first := MixedReach(blocks[0], mixed[0], at);
      random := Spliced(first, next, rest);
      SplicedIsRandom(first, next, rest);
      MixedAgrees(blocks[0], random, first, at);
      BlocksAgree(blocks[1..], random, rest, next);
    }
  }

  /** How many numbers the order of the questions takes. */
  function OrderDraws(s: Snapshot): nat {
    match EffectiveOrder(s)
    case FixedOrder => 0
    case ShuffleAll => DrawCount(|s.questions|)
    case ShuffleWithinSection => BlockDraws(Blocks(s.questions, s.sections))
  }

  lemma OrderAgrees(s: Snapshot, random: Random, other: Random, at: nat)
    requires IsRandom(random) && IsRandom(other)
    requires forall k :: at <= k < at + OrderDraws(s) ==> random(k) == other(k)
    ensures OrderQuestions(s, random, at) == OrderQuestions(s, other, at)
    ensures OrderQuestions(s, random, at).1 == at + OrderDraws(s)
  {
    match EffectiveOrder(s) {
      case FixedOrder =>
      case ShuffleAll => MixedAgrees(s.questions, random, other, at);
      case ShuffleWithinSection => BlocksAgree(Blocks(s.questions, s.sections), random, other, at);
    }
  }

  lemma OrderReach(s: Snapshot, order: seq<SnapshotQuestion>, at: nat) returns (random: Random)
    requires OrderFor(order, s)
    ensures IsRandom(random) && OrderQuestions(s, random, at).0 == order
  {
    random := k => 0.0;
    match EffectiveOrder(s) {
      case FixedOrder =>
      case ShuffleAll => random := MixedReach(s.questions, order, at);
      case ShuffleWithinSection =>
        var blocks := Blocks(s.questions, s.sections);
        var mixed :| MixOf(mixed, blocks) && order == Flatten(mixed);
        random := BlocksReach(blocks, mixed, at);
    }
  }

  lemma LayoutReach(s: Snapshot, layout: seq<LayoutEntry>, order: seq<SnapshotQuestion>, at: nat)
    returns (random: Random)
    requires OrderFor(order, s) && EntriesFor(layout, order)
    ensures IsRandom(random) && BuildLayout(s, random, at) == layout
  {
    var next := at + OrderDraws(s);
    var first := OrderReach(s, order, at);
    var rest := EntriesReach(order, layout, next);
    random := Spliced(first, next, rest);
    SplicedIsRandom(first, next, rest);
    OrderAgrees(s, random, first, at);
    EntriesAgree(order, random, rest, next);
    LayoutIs(s, random, at, order, next);
  }

  lemma LayoutIs(s: Snapshot, random: Random, at: nat, order: seq<SnapshotQuestion>, next: nat)
    requires IsRandom(random) && OrderQuestions(s, random, at) == (order, next)
    ensures BuildLayout(s, random, at) == Entries(order, random, next)
  {
  }

  /** The layouts a test can be given are exactly those its settings allow: none is out of reach. */
  lemma DrawnExactly(s: Snapshot, layout: seq<LayoutEntry>, at: nat)
    requires DistinctSections(s.sections)
    ensures LayoutFor(layout, s) <==> exists random: Random :: IsRandom(random) && BuildLayout(s, random, at) == layout
  {
    if LayoutFor(layout, s) {
      var order: seq<SnapshotQuestion> :| OrderFor(order, s) && EntriesFor(layout, order);
      var random := LayoutReach(s, layout, order, at);
    }
    if random: Random :| IsRandom(random) && BuildLayout(s, random, at) == layout {
      LayoutIsForTest(s, random, at);
    }
  }
}
