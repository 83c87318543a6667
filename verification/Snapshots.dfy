/**
 * A test frozen for one attempt, and its questions in section blocks: the
 * grouping that both the question order and the section scores are built on.
 */
module Snapshots {
  import opened Basics
  import opened Questions

  /** A database key. Only equality matters. */
  type Id = nat

  datatype QuestionOrder = FixedOrder | ShuffleWithinSection | ShuffleAll

  datatype SnapshotSection = SnapshotSection(id: Id, name: string, weight: Option<real>)

  datatype SnapshotOption = SnapshotOption(
    id: Id,
    caption: string,
    text: string,
    employerText: Option<string>,
    value: Option<int>,
    isCorrect: bool
  )

  datatype SnapshotQuestion = SnapshotQuestion(
    id: Id,
    ref: Option<string>,
    sectionId: Option<Id>,
    kind: QuestionType,
    instruction: Option<string>,
    context: Option<string>,
    stem: string,
    media: Option<string>,
    employerPrompt: Option<string>,
    employerValue: Option<int>,
    difficulty: Option<Difficulty>,
    rationale: Option<string>,
    transcript: Option<string>,
    shuffleOptions: bool,
    keepLastOptionFixed: bool,
    options: seq<SnapshotOption>
  )

  datatype SnapshotBand = SnapshotBand(
    minScore: real,
    name: string,
    interpretation: Option<string>,
    recommendedAction: Option<string>
  )

  datatype Snapshot = Snapshot(
    name: string,
    durationMinutes: nat,
    scoringMethod: ScoringMethod,
    questionOrder: QuestionOrder,
    allowBackNavigation: bool,
    audioReplays: nat,
    sections: seq<SnapshotSection>,
    questions: seq<SnapshotQuestion>,
    bands: seq<SnapshotBand>
  )

  // ----- Keys -------------------------------------------------------------------

  ghost predicate DistinctSections(sections: seq<SnapshotSection>) {
    forall i, j :: 0 <= i < j < |sections| ==> sections[i].id != sections[j].id
  }

  ghost predicate DistinctQuestions(questions: seq<SnapshotQuestion>) {
    forall i, j :: 0 <= i < j < |questions| ==> questions[i].id != questions[j].id
  }

  ghost predicate DistinctOptions(options: seq<SnapshotOption>) {
    forall i, j :: 0 <= i < j < |options| ==> options[i].id != options[j].id
  }

  /** The keys of a snapshot are unique, as they are in the tables it is taken from. */
  ghost predicate KeysUnique(s: Snapshot) {
    && DistinctSections(s.sections)
    && DistinctQuestions(s.questions)
    && forall q <- s.questions :: DistinctOptions(q.options)
  }

  // ----- Section blocks ------------------------------------------------------------

  predicate HasSection(sections: seq<SnapshotSection>, id: Id) {
    exists s <- sections :: s.id == id
  }

  /** The section a question counts under: none when its section is not in the test. */
  function SectionKey(q: SnapshotQuestion, sections: seq<SnapshotSection>): Option<Id> {
    if q.sectionId.Some? && HasSection(sections, q.sectionId.value) then q.sectionId else None
  }

  function KeyIn(sections: seq<SnapshotSection>): SnapshotQuestion -> Option<Id> {
    (q: SnapshotQuestion) => SectionKey(q, sections)
  }

  function Block(questions: seq<SnapshotQuestion>, sections: seq<SnapshotSection>,
    key: Option<Id>): seq<SnapshotQuestion> {
    Keyed(questions, KeyIn(sections), key)
  }

  /** The sections in order, then the questions without one. */
  function BlockKeys(sections: seq<SnapshotSection>): seq<Option<Id>> {
    Map((s: SnapshotSection) => Some(s.id), sections) + [None]
  }

  function Blocks(questions: seq<SnapshotQuestion>, sections: seq<SnapshotSection>): seq<seq<SnapshotQuestion>> {
    KeyedBlocks(questions, KeyIn(sections), BlockKeys(sections))
  }

  /** Pushes each question onto its section's list, or onto the list of the rest. */
  method GroupQuestions(questions: seq<SnapshotQuestion>, sections: seq<SnapshotSection>)
    returns (blocks: map<Id, seq<SnapshotQuestion>>, unsectioned: seq<SnapshotQuestion>)
    ensures blocks.Keys == (set s <- sections :: s.id)
    ensures forall id <- blocks.Keys :: blocks[id] == Block(questions, sections, Some(id))
    ensures unsectioned == Block(questions, sections, None)
  {
    blocks := map[];
    for i := 0 to |sections|
      invariant blocks.Keys == (set s <- sections[..i] :: s.id)
      invariant forall id <- blocks.Keys :: blocks[id] == []
    {
      assert sections[..i + 1] == sections[..i] + [sections[i]];
      blocks := blocks[sections[i].id := []];
    }
    assert sections[..|sections|] == sections;
    unsectioned := [];
    for i := 0 to |questions|
      invariant blocks.Keys == (set s <- sections :: s.id)
      invariant forall id <- blocks.Keys :: blocks[id] == Block(questions[..i], sections, Some(id))
      invariant unsectioned == Block(questions[..i], sections, None)
    {
      var q := questions[i];
      BlockGrows(questions, sections, i);
      if q.sectionId.Some? && q.sectionId.value in blocks {
        blocks := blocks[q.sectionId.value := blocks[q.sectionId.value] + [q]];
      } else {
        unsectioned := unsectioned + [q];
      }
    }
    assert questions[..|questions|] == questions;
  }

  lemma BlockGrows(questions: seq<SnapshotQuestion>, sections: seq<SnapshotSection>, i: nat)
    requires i < |questions|
    ensures forall key: Option<Id> ::
      Block(questions[..i + 1], sections, key)
        == Block(questions[..i], sections, key)
           + (if SectionKey(questions[i], sections) == key then [questions[i]] else [])
  {
    assert questions[..i + 1] == questions[..i] + [questions[i]];
    forall key: Option<Id>
      ensures Block(questions[..i + 1], sections, key)
        == Block(questions[..i], sections, key)
           + (if SectionKey(questions[i], sections) == key then [questions[i]] else [])
    {
      KeyedLast(questions[..i], questions[i], KeyIn(sections), key);
    }
  }

  /** The questions that name this section. */
  function InSection(id: Id): SnapshotQuestion -> bool { (q: SnapshotQuestion) => q.sectionId == Some(id) }

  /** The questions that name none of the sections. */
  function InNone(sections: seq<SnapshotSection>): SnapshotQuestion -> bool {
    (q: SnapshotQuestion) => forall s <- sections :: q.sectionId != Some(s.id)
  }

  lemma {:induction false} KeyedIs<A, K>(s: seq<A>, key: A -> K, k: K, p: A -> bool)
    requires forall x <- s :: p(x) <==> key(x) == k
    ensures Keyed(s, key, k) == Filter(p, s)
  {
    if s != [] { KeyedIs(s[1..], key, k, p); }
  }

  /** Block k holds the questions of section k, as they stand, and the last one those of no section listed. */
  lemma BlocksAre(questions: seq<SnapshotQuestion>, sections: seq<SnapshotSection>, k: nat)
    requires k <= |sections|
    ensures |Blocks(questions, sections)| == |sections| + 1
    ensures k < |sections| ==> Blocks(questions, sections)[k] == Filter(InSection(sections[k].id), questions)
    ensures k == |sections| ==> Blocks(questions, sections)[k] == Filter(InNone(sections), questions)
  {
    if k < |sections| {
      KeyedIs(questions, KeyIn(sections), Some(sections[k].id), InSection(sections[k].id));
    } else {
      KeyedIs(questions, KeyIn(sections), None, InNone(sections));
    }
  }

  // ----- The blocks are a partition ---------------------------------------------------

  lemma KeysDistinct(sections: seq<SnapshotSection>)
    requires DistinctSections(sections)
    ensures Distinct(BlockKeys(sections))
  {
  }

  lemma KeyListed(q: SnapshotQuestion, sections: seq<SnapshotSection>)
    ensures SectionKey(q, sections) in BlockKeys(sections)
  {
  }

  /** Every question is in exactly one block, once. */
  lemma BlocksPartition(questions: seq<SnapshotQuestion>, sections: seq<SnapshotSection>)
    requires DistinctSections(sections)
    ensures SameItems(Flatten(Blocks(questions, sections)), questions)
  {
    KeysDistinct(sections);
    forall q | q in questions ensures KeyIn(sections)(q) in BlockKeys(sections) { KeyListed(q, sections); }
    KeyedPartition(questions, KeyIn(sections), BlockKeys(sections));
  }
}
