/** A test's sections as staff change them, and the questions filed under them. */
module SectionList {
  import opened Basics
  import opened Text
  import opened Questions
  import opened Snapshots
  import opened Content
  import opened OrderColumn
  import opened CsvImport

  predicate SectionOk(s: StoredSection, next: nat) { Trimmed(s.name) && Plain(s.description) && s.id < next }

  ghost predicate SectionsOk(sections: seq<StoredSection>, next: nat) {
    && |sections| <= MAX_SECTIONS && NamesDiffer(Names(sections)) && DistinctIds(sections)
    && forall s <- sections :: SectionOk(s, next)
  }

  predicate InSections(sectionId: Option<Id>, sections: seq<StoredSection>) {
    sectionId.Some? ==> exists s <- sections :: s.id == sectionId.value
  }

  /** Whatever is filed under one list's sections can be filed under the other's. */
  ghost predicate AllListed(sections: seq<StoredSection>, more: seq<StoredSection>) {
    forall s <- sections :: exists t <- more :: t.id == s.id
  }

  lemma SectionsLater(sections: seq<StoredSection>, next: nat, later: nat)
    requires SectionsOk(sections, next) && next <= later
    ensures SectionsOk(sections, later)
  {
  }

  // ----- Adding one ----------------------------------------------------------------------------

  lemma SectionAppended(sections: seq<StoredSection>, section: StoredSection, next: nat)
    requires SectionsOk(sections, next) && |sections| < MAX_SECTIONS && section.id == next
    requires SectionOk(section, next + 1)
    requires forall s <- sections :: ToLower(s.name) != ToLower(section.name)
    ensures SectionsOk(sections + [section], next + 1)
  {
    var more := sections + [section];
    forall i | 0 <= i < |sections| ensures ToLower(Names(more)[i]) != ToLower(section.name) && more[i].id < next {
      assert sections[i] in sections && SectionOk(sections[i], next);
    }
    forall i, j | 0 <= i < j < |more|
      ensures ToLower(Names(more)[i]) != ToLower(Names(more)[j]) && more[i].id != more[j].id
    {
      if j < |sections| { assert Names(sections)[i] == Names(more)[i] && Names(sections)[j] == Names(more)[j]; }
    }
    forall s | s in more ensures SectionOk(s, next + 1) {
      if s in sections { assert SectionOk(s, next); }
    }
  }

  lemma SectionKept(sections: seq<StoredSection>, section: StoredSection)
    ensures AllListed(sections, sections + [section])
  {
  }

  // ----- Changing one --------------------------------------------------------------------------

  /** What a request sends of a section: none for a part it leaves out. */
  datatype SectionEdit = SectionEdit(
    name: Option<string>,
    description: Option<Option<string>>,
    weight: Option<Option<real>>
  )

  /** The parts as request validation leaves them. */
  predicate EditOk(edit: SectionEdit) {
    (edit.name.Some? ==> Trimmed(edit.name.value)) && (edit.description.Some? ==> Plain(edit.description.value))
  }

  function Edited(s: StoredSection, edit: SectionEdit): StoredSection {
    StoredSection(s.id, edit.name.GetOr(s.name), edit.description.GetOr(s.description), edit.weight.GetOr(s.weight))
  }

  /** The sections with one of them edited. */
  function WithEdit(sections: seq<StoredSection>, id: Id, edit: SectionEdit): (r: seq<StoredSection>)
    ensures |r| == |sections|
  {
    Map((s: StoredSection) => if s.id == id then Edited(s, edit) else s, sections)
  }

  /** Another section has the name, ignoring case. */
  predicate NameUsed(sections: seq<StoredSection>, id: Id, name: string) {
    exists s <- sections :: s.id != id && ToLower(s.name) == ToLower(name)
  }

  lemma EditedOne(sections: seq<StoredSection>, id: Id, edit: SectionEdit, i: nat)
    requires i < |sections|
    ensures WithEdit(sections, id, edit)[i].id == sections[i].id
    ensures WithEdit(sections, id, edit)[i] == if sections[i].id == id then Edited(sections[i], edit) else sections[i]
  {
  }

  lemma EditApart(sections: seq<StoredSection>, id: Id, edit: SectionEdit, i: nat, j: nat)
    requires NamesDiffer(Names(sections)) && DistinctIds(sections) && i < j < |sections|
    requires edit.name.Some? ==> !NameUsed(sections, id, edit.name.value)
    ensures ToLower(WithEdit(sections, id, edit)[i].name) != ToLower(WithEdit(sections, id, edit)[j].name)
  {
    EditedOne(sections, id, edit, i);
    EditedOne(sections, id, edit, j);
    assert Names(sections)[i] == sections[i].name && Names(sections)[j] == sections[j].name;
    assert sections[i] in sections && sections[j] in sections;
  }

  lemma EditedOk(sections: seq<StoredSection>, id: Id, edit: SectionEdit, next: nat)
    requires SectionsOk(sections, next) && EditOk(edit)
    requires edit.name.Some? ==> !NameUsed(sections, id, edit.name.value)
    ensures SectionsOk(WithEdit(sections, id, edit), next) && AllListed(sections, WithEdit(sections, id, edit))
  {
    var more := WithEdit(sections, id, edit);
    forall i, j | 0 <= i < j < |more| ensures ToLower(Names(more)[i]) != ToLower(Names(more)[j]) {
      EditApart(sections, id, edit, i, j);
    }
    forall i | 0 <= i < |more| ensures SectionOk(more[i], next) && more[i].id == sections[i].id {
      assert sections[i] in sections && SectionOk(sections[i], next);
      EditedOne(sections, id, edit, i);
    }
    forall s | s in sections ensures exists t <- more :: t.id == s.id {
      var i :| 0 <= i < |sections| && sections[i] == s;
      assert more[i] in more;
    }
  }

  // ----- Removing one ----------------------------------------------------------------------------

  function Without(sections: seq<StoredSection>, at: nat): seq<StoredSection>
    requires at < |sections|
  {
    sections[..at] + sections[at + 1..]
  }

  lemma WithoutOk(sections: seq<StoredSection>, at: nat, next: nat)
    requires SectionsOk(sections, next) && at < |sections|
    ensures SectionsOk(Without(sections, at), next)
    ensures forall s :: s in Without(sections, at) <==> s in sections && s.id != sections[at].id
  {
    var left := Without(sections, at);
    forall i | 0 <= i < |left| ensures left[i] == sections[if i < at then i else i + 1] && left[i] in sections {}
    forall i, j | 0 <= i < j < |left|
      ensures ToLower(Names(left)[i]) != ToLower(Names(left)[j]) && left[i].id != left[j].id
    {
      OwnNames(sections, left[i], left[j]);
    }
    forall s | s in sections && s.id != sections[at].id ensures s in left {
      var i :| 0 <= i < |sections| && sections[i] == s;
      assert left[if i < at then i else i - 1] == s;
    }
  }

  /** A question that loses its section, if that was the one. */
  function Unfiled(row: StoredQuestion, id: Id): StoredQuestion {
    if row.sectionId == Some(id) then row.(sectionId := None) else row
  }

  function AllUnfiled(questions: map<Id, StoredQuestion>, id: Id): map<Id, StoredQuestion> {
    map k | k in questions :: Unfiled(questions[k], id)
  }

  lemma StillFiled(sections: seq<StoredSection>, left: seq<StoredSection>, row: StoredQuestion, id: Id)
    requires InSections(row.sectionId, sections)
    requires forall s :: s in left <==> s in sections && s.id != id
    ensures InSections(Unfiled(row, id).sectionId, left)
  {
  }

  // ----- Another order ------------------------------------------------------------------------------

  function IdsOfSections(sections: seq<StoredSection>): (ids: seq<Id>)
    ensures |ids| == |sections| && forall i :: 0 <= i < |ids| ==> ids[i] == sections[i].id
  {
    Map((s: StoredSection) => s.id, sections)
  }

  /** The sections in the order of these ids, each of which is one's. */
  function Arranged(sections: seq<StoredSection>, ids: seq<Id>): (r: seq<StoredSection>)
    requires forall id <- ids :: SectionAt(sections, id) < |sections|
    ensures |r| == |ids|
    ensures forall i :: 0 <= i < |r| ==> r[i] in sections && r[i].id == ids[i]
  {
    seq(|ids|, i requires 0 <= i < |ids| => assert ids[i] in ids; sections[SectionAt(sections, ids[i])])
  }

  function PlacesOf(ids: seq<Id>): Orders
    requires Distinct(ids)
  {
    map id | id in ids :: Find((x: Id) => x == id, ids)
  }

  lemma PlacesList(ids: seq<Id>)
    requires Distinct(ids)
    ensures Represents(PlacesOf(ids), ids) && PlacesOf(ids).Keys == ItemSet(ids)
  {
    forall i | 0 <= i < |ids| ensures ids[i] in PlacesOf(ids) && PlacesOf(ids)[ids[i]] == i {
      assert ids[i] in ids;
    }
  }

  /** A new order of sections is accepted exactly when it rearranges their ids. */
  lemma SectionOrderAccepted(sections: seq<StoredSection>, ids: seq<Id>)
    requires DistinctIds(sections)
    ensures SameIds(ItemSet(IdsOfSections(sections)), ids) <==> multiset(ids) == multiset(IdsOfSections(sections))
  {
    var list := IdsOfSections(sections);
    PlacesList(list);
    AcceptedWhenRearranged(PlacesOf(list), list, ids);
  }

  lemma AllFound(sections: seq<StoredSection>, ids: seq<Id>)
    requires SameIds(ItemSet(IdsOfSections(sections)), ids)
    ensures forall id <- ids :: SectionAt(sections, id) < |sections|
  {
    var list := IdsOfSections(sections);
    forall id | id in ids ensures SectionAt(sections, id) < |sections| {
      var i :| 0 <= i < |list| && list[i] == id;
      assert sections[i].id == id;
    }
  }

  lemma ArrangedAll(sections: seq<StoredSection>, ids: seq<Id>, i: nat)
    requires DistinctIds(sections) && i < |sections| && sections[i].id in ids
    requires forall id <- ids :: SectionAt(sections, id) < |sections|
    ensures sections[i] in Arranged(sections, ids)
  {
    var k :| 0 <= k < |ids| && ids[k] == sections[i].id;
    assert ids[k] in ids;
    assert Arranged(sections, ids)[k] == sections[i];
  }

  /** The same sections, in the order of these ids. */
  ghost predicate IsArranged(sections: seq<StoredSection>, ids: seq<Id>, arranged: seq<StoredSection>) {
    IdsOfSections(arranged) == ids && forall s :: s in arranged <==> s in sections
  }

  lemma {:induction false} MultisetDistinct(list: seq<Id>, ids: seq<Id>)
    requires Distinct(list) && multiset(ids) == multiset(list)
    ensures Distinct(ids) && |ids| == |list|
  {
    PlacesList(list);
    AcceptedWhenRearranged(PlacesOf(list), list, ids);
    CountsDistinct(ids);
    assert |multiset(ids)| == |ids| && |multiset(list)| == |list|;
  }

  lemma AllArranged(sections: seq<StoredSection>, ids: seq<Id>)
    requires DistinctIds(sections) && multiset(ids) == multiset(IdsOfSections(sections))
    requires forall id <- ids :: SectionAt(sections, id) < |sections|
    ensures IsArranged(sections, ids, Arranged(sections, ids))
  {
    forall s | s in sections ensures s in Arranged(sections, ids) {
      var i :| 0 <= i < |sections| && sections[i] == s;
      assert IdsOfSections(sections)[i] in multiset(ids);
      ArrangedAll(sections, ids, i);
    }
  }

  lemma ArrangedOk(sections: seq<StoredSection>, ids: seq<Id>, arranged: seq<StoredSection>, next: nat)
    requires SectionsOk(sections, next) && IsArranged(sections, ids, arranged)
    requires multiset(ids) == multiset(IdsOfSections(sections))
    ensures SectionsOk(arranged, next) && AllListed(sections, arranged)
  {
    MultisetDistinct(IdsOfSections(sections), ids);
    forall i, j | 0 <= i < j < |arranged|
      ensures ToLower(Names(arranged)[i]) != ToLower(Names(arranged)[j]) && arranged[i].id != arranged[j].id
    {
      assert ids[i] != ids[j];
      OwnNames(sections, arranged[i], arranged[j]);
    }
  }

  /** Puts the sections in the order of the ids, when those are theirs. */
  method ArrangeSections(sections: seq<StoredSection>, ids: seq<Id>) returns (arranged: Option<seq<StoredSection>>)
    requires DistinctIds(sections)
    ensures arranged.Some? <==> multiset(ids) == multiset(IdsOfSections(sections))
    ensures arranged.Some? ==> IsArranged(sections, ids, arranged.value)
  {
    SectionOrderAccepted(sections, ids);
    if !SameIds(ItemSet(IdsOfSections(sections)), ids) { return None; }
    AllFound(sections, ids);
    AllArranged(sections, ids);
    arranged := Some(Arranged(sections, ids));
  }

  /** Two different sections have different names. */
  lemma OwnNames(sections: seq<StoredSection>, s: StoredSection, t: StoredSection)
    requires NamesDiffer(Names(sections)) && s in sections && t in sections && s.id != t.id
    ensures ToLower(s.name) != ToLower(t.name)
  {
    var k :| 0 <= k < |sections| && sections[k] == s;
    var l :| 0 <= l < |sections| && sections[l] == t;
    assert Names(sections)[k] == s.name && Names(sections)[l] == t.name;
  }
}
