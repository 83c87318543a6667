/** The band a score falls in. */
module Bands {
  import opened Basics
  import opened Snapshots

  /** Guards the threshold checks against floating-point noise. */
  const EPSILON: real := 0.000000001

  predicate Reaches(score: real, band: SnapshotBand) {
    score + EPSILON >= band.minScore
  }

  /** Puts a band after the ones with the same or a higher minimum. */
  function Insert(sorted: seq<SnapshotBand>, band: SnapshotBand): seq<SnapshotBand> {
    if sorted == [] || sorted[|sorted| - 1].minScore >= band.minScore then sorted + [band]
    else Insert(sorted[..|sorted| - 1], band) + [sorted[|sorted| - 1]]
  }

  /** `[...bands].sort((a, b) => b.minScore - a.minScore)`: stable, highest first. */
  function HighestFirst(bands: seq<SnapshotBand>): seq<SnapshotBand> {
    if bands == [] then [] else Insert(HighestFirst(bands[..|bands| - 1]), bands[|bands| - 1])
  }

  function BandFor(bands: seq<SnapshotBand>, score: real): Option<SnapshotBand> {
    var sorted := HighestFirst(bands);
    var i := Find((band: SnapshotBand) => Reaches(score, band), sorted);
    if i < |sorted| then Some(sorted[i]) else None
  }

  function BandName(bands: seq<SnapshotBand>, score: real): Option<string> {
    match BandFor(bands, score)
    case None => None
    case Some(band) => Some(band.name)
  }

  predicate Descending(bands: seq<SnapshotBand>) {
    forall i, j :: 0 <= i < j < |bands| ==> bands[i].minScore >= bands[j].minScore
  }

  lemma {:induction false} InsertItems(sorted: seq<SnapshotBand>, band: SnapshotBand)
    ensures SameItems(Insert(sorted, band), sorted + [band])
    decreases |sorted|
  {
    if sorted != [] && sorted[|sorted| - 1].minScore < band.minScore {
      var n := |sorted| - 1;
      InsertItems(sorted[..n], band);
      SplitLast(sorted);
    }
  }

  lemma {:induction false} InsertDescending(sorted: seq<SnapshotBand>, band: SnapshotBand)
    requires Descending(sorted)
    ensures Descending(Insert(sorted, band))
    decreases |sorted|
  {
    var n := |sorted| - 1;
    if sorted == [] || sorted[n].minScore >= band.minScore {
    } else {
      InsertDescending(sorted[..n], band);
      InsertItems(sorted[..n], band);
      forall b | b in Insert(sorted[..n], band) ensures b.minScore >= sorted[n].minScore {
        assert b in multiset(sorted[..n] + [band]);
      }
    }
  }

  lemma {:induction false} SortKeeps(bands: seq<SnapshotBand>)
    ensures SameItems(HighestFirst(bands), bands) && Descending(HighestFirst(bands))
  {
    if bands != [] {
      var n := |bands| - 1;
      SortKeeps(bands[..n]);
      InsertItems(HighestFirst(bands[..n]), bands[n]);
      InsertDescending(HighestFirst(bands[..n]), bands[n]);
      SplitLast(bands);
    }
  }

  /** Sorting what is sorted changes nothing. */
  lemma {:induction false} SortedStays(bands: seq<SnapshotBand>)
    requires Descending(bands)
    ensures HighestFirst(bands) == bands
  {
    if bands != [] {
      var n := |bands| - 1;
      SortedStays(bands[..n]);
      SplitLast(bands);
    }
  }

  /** The score is at the band's minimum or above, give or take a billionth. */
  predicate Within(score: real, band: SnapshotBand) { band.minScore <= score + 0.000000001 }

  /** The band has the highest minimum the score reaches; there is none when it reaches none. */
  ghost predicate IsBandFor(bands: seq<SnapshotBand>, score: real, band: Option<SnapshotBand>) {
    match band
    case None => forall b <- bands :: !Within(score, b)
    case Some(best) =>
      best in bands && Within(score, best) && forall b <- bands :: Within(score, b) ==> b.minScore <= best.minScore
  }

  lemma BandIsHighest(bands: seq<SnapshotBand>, score: real)
    ensures IsBandFor(bands, score, BandFor(bands, score))
  {
    SortKeeps(bands);
    var sorted := HighestFirst(bands);
    var i := Find((band: SnapshotBand) => Reaches(score, band), sorted);
    forall b | b in bands && Reaches(score, b)
      ensures i < |sorted| && b.minScore <= sorted[i].minScore
    {
      assert b in multiset(sorted);
      var k :| 0 <= k < |sorted| && sorted[k] == b;
    }
    if i < |sorted| { assert sorted[i] in multiset(bands); }
  }

  ghost predicate DistinctMinimums(bands: seq<SnapshotBand>) {
    forall a, b :: a in bands && b in bands && a.minScore == b.minScore ==> a == b
  }

  /** With a minimum of its own for each band, the order the bands are listed in changes nothing. */
  lemma BandOrderIrrelevant(bands: seq<SnapshotBand>, others: seq<SnapshotBand>, score: real)
    requires SameItems(bands, others) && DistinctMinimums(bands)
    ensures BandFor(bands, score) == BandFor(others, score)
  {
    BandIsHighest(bands, score);
    BandIsHighest(others, score);
    forall b ensures b in bands <==> b in others {
      assert b in multiset(bands) <==> b in multiset(others);
    }
  }

  /** A higher score never falls into a lower band. */
  lemma BandMonotone(bands: seq<SnapshotBand>, low: real, high: real)
    requires low <= high && BandFor(bands, low).Some?
    ensures BandFor(bands, high).Some?
    ensures BandFor(bands, low).value.minScore <= BandFor(bands, high).value.minScore
  {
  }
}
