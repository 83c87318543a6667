/**
 * The in-place Fisher–Yates shuffle, over any source of numbers in [0, 1).
 * Step i swaps position i with a drawn position j <= i, for i from the last
 * index down to 1; `Shuffled` is what a whole sequence of draws does.
 */
module Shuffle {
  import opened Basics

  /** The numbers a random source hands out, one after the other. */
  type Random = nat -> real

  ghost predicate IsRandom(random: Random) {
    forall k :: 0.0 <= random(k) < 1.0
  }

  /** `Math.floor(random() * (i + 1))`. */
  function Draw(r: real, i: nat): int {
    (r * (i + 1) as real).Floor
  }

  lemma DrawInRange(r: real, i: nat)
    requires 0.0 <= r < 1.0
    ensures 0 <= Draw(r, i) <= i
  {
    assert 0.0 <= r * (i + 1) as real < (i + 1) as real;
  }

  /** Draws for n items: the one at index i is for step i, so the last is drawn first. */
  predicate ValidDraws(js: seq<int>, n: nat) {
    |js| == n && forall i :: 0 <= i < n ==> 0 <= js[i] <= i
  }

  /** The draws that start at position `at` of the source. Index 0 draws nothing. */
  function Draws(random: Random, at: nat, n: nat): (js: seq<int>)
    ensures |js| == n
  {
    seq(n, i requires 0 <= i < n => if i == 0 then 0 else Draw(random(at + n - 1 - i), i))
  }

  lemma DrawAt(random: Random, at: nat, n: nat, i: nat)
    requires 0 < i < n
    ensures Draws(random, at, n)[i] == Draw(random(at + n - 1 - i), i)
  {
  }

  lemma DrawsValid(random: Random, at: nat, n: nat)
    requires IsRandom(random)
    ensures ValidDraws(Draws(random, at, n), n)
  {
    forall i | 0 < i < n ensures 0 <= Draws(random, at, n)[i] <= i {
      DrawInRange(random(at + n - 1 - i), i);
    }
  }

  /** How many numbers a shuffle of n items takes from the source. */
  function DrawCount(n: nat): nat { if n == 0 then 0 else n - 1 }

  function Swap<T>(s: seq<T>, i: nat, j: nat): (r: seq<T>)
    requires i < |s| && j < |s|
    ensures |r| == |s|
  {
    s[i := s[j]][j := s[i]]
  }

  lemma SwapItems<T>(s: seq<T>, i: nat, j: nat)
    requires i < |s| && j < |s|
    ensures multiset(Swap(s, i, j)) == multiset(s)
  {
  }

  /** Steps i down to 1 of the shuffle. */
  function Steps<T>(s: seq<T>, js: seq<int>, i: nat): (r: seq<T>)
    requires ValidDraws(js, |s|) && (i < |s| || i == 0)
    ensures |r| == |s|
    ensures forall k :: i < k < |s| ==> r[k] == s[k]
    decreases i
  {
    if i == 0 then s else Steps(Swap(s, i, js[i]), js, i - 1)
  }

  function Shuffled<T>(s: seq<T>, js: seq<int>): (r: seq<T>)
    requires ValidDraws(js, |s|)
    ensures |r| == |s|
  {
    Steps(s, js, DrawCount(|s|))
  }

  /** Step i swaps, and leaves the steps below it. */
  lemma OneStep<T>(s: seq<T>, js: seq<int>, i: nat)
    requires ValidDraws(js, |s|) && 0 < i < |s|
    ensures Steps(Swap(s, i, js[i]), js, i - 1) == Steps(s, js, i)
  {
  }

  method SwapInPlace<T>(a: array<T>, i: nat, j: nat)
    requires i < a.Length && j < a.Length
    modifies a
    ensures a[..] == Swap(old(a[..]), i, j)
  {
    a[i], a[j] := a[j], a[i];
  }

  method ShuffleInPlace<T>(a: array<T>, random: Random, at: nat) returns (next: nat)
    requires IsRandom(random)
    modifies a
    ensures ValidDraws(Draws(random, at, a.Length), a.Length)
    ensures a[..] == Shuffled(old(a[..]), Draws(random, at, a.Length))
    ensures next == at + DrawCount(a.Length)
  {
    ghost var js := Draws(random, at, a.Length);
    DrawsValid(random, at, a.Length);
    next := at;
    var i := a.Length - 1;
    while i > 0
      invariant -1 <= i < a.Length && (a.Length > 0 ==> i >= 0)
      invariant next == at + a.Length - 1 - i
      invariant a.Length > 0 ==> Steps(a[..], js, i) == Shuffled(old(a[..]), js)
    {
      var j := Draw(random(next), i);
      next := next + 1;
      DrawAt(random, at, a.Length, i);
      ghost var now := a[..];
      OneStep(now, js, i);
      SwapInPlace(a, i, j);
      assert a[..] == Swap(now, i, js[i]);
      i := i - 1;
    }
  }

  lemma {:induction false} StepsItems<T>(s: seq<T>, js: seq<int>, i: nat)
    requires ValidDraws(js, |s|) && (i < |s| || i == 0)
    ensures multiset(Steps(s, js, i)) == multiset(s)
    decreases i
  {
    if i > 0 {
      SwapItems(s, i, js[i]);
      StepsItems(Swap(s, i, js[i]), js, i - 1);
    }
  }

  /** A shuffle loses and repeats nothing. */
  lemma ShuffledItems<T>(s: seq<T>, js: seq<int>)
    requires ValidDraws(js, |s|)
    ensures SameItems(Shuffled(s, js), s)
  {
    StepsItems(s, js, DrawCount(|s|));
  }

  // ----- One order for each sequence of draws -----------------------------------------

  lemma DistinctFromItems<T>(s: seq<T>, t: seq<T>)
    requires Distinct(s) && SameItems(s, t)
    ensures Distinct(t)
  {
    forall i, j | 0 <= i < j < |t| ensures t[i] != t[j] {
      if t[i] == t[j] {
        assert t == t[..i] + [t[i]] + t[i + 1..j] + [t[j]] + t[j + 1..];
        assert multiset(t)[t[i]] >= 2;
        OnceInDistinct(s, t[i]);
        assert false;
      }
    }
  }

  lemma {:induction false} OnceInDistinct<T>(s: seq<T>, x: T)
    requires Distinct(s)
    ensures multiset(s)[x] <= 1
  {
    if s != [] {
      OnceInDistinct(s[1..], x);
      SplitHead(s);
      if s[0] == x {
        assert x !in s[1..];
        assert multiset(s[1..])[x] == 0;
      }
    }
  }

  lemma {:induction false} StepsDetermined<T>(s: seq<T>, js: seq<int>, ks: seq<int>, i: nat)
    requires Distinct(s) && ValidDraws(js, |s|) && ValidDraws(ks, |s|) && (i < |s| || i == 0)
    requires Steps(s, js, i) == Steps(s, ks, i)
    ensures forall k :: 0 < k <= i ==> js[k] == ks[k]
    decreases i
  {
    if i > 0 {
      var t, u := Swap(s, i, js[i]), Swap(s, i, ks[i]);
      assert t[i] == Steps(s, js, i)[i] && u[i] == Steps(s, ks, i)[i];
      assert js[i] == ks[i];
      SwapItems(s, i, js[i]);
      DistinctFromItems(s, t);
      StepsDetermined(t, js, ks, i - 1);
    }
  }

  /** Distinct items: different draws give different orders. */
  lemma DrawsAreDetermined<T>(s: seq<T>, js: seq<int>, ks: seq<int>)
    requires Distinct(s) && ValidDraws(js, |s|) && ValidDraws(ks, |s|)
    requires Shuffled(s, js) == Shuffled(s, ks)
    ensures js == ks
  {
    StepsDetermined(s, js, ks, DrawCount(|s|));
  }

  /** The item p wants at position i is among the ones not settled yet. */
  lemma FindUnsettled<T>(s: seq<T>, p: seq<T>, i: nat) returns (j: nat)
    requires SameItems(s, p) && i < |s| == |p| && forall k :: i < k < |s| ==> s[k] == p[k]
    ensures j <= i && s[j] == p[i]
  {
    var head, tail := s[..i + 1], s[i + 1..];
    assert s == head + tail && p == p[..i + 1] + tail;
    assert multiset(head) == multiset(s) - multiset(tail);
    assert multiset(p[..i + 1]) == multiset(p) - multiset(tail);
    assert p[..i + 1][i] in multiset(head);
    j :| 0 <= j < |head| && head[j] == p[i];
  }

  lemma AllSettled<T>(s: seq<T>, p: seq<T>)
    requires SameItems(s, p) && |s| == |p| && forall k :: 0 < k < |s| ==> s[k] == p[k]
    ensures s == p
  {
    if s != [] { var _ := FindUnsettled(s, p, 0); }
  }

  lemma {:induction false} StepsReach<T>(s: seq<T>, p: seq<T>, i: nat) returns (js: seq<int>)
    requires SameItems(s, p) && |s| == |p| && (i < |s| || i == 0)
    requires forall k :: i < k < |s| ==> s[k] == p[k]
    ensures ValidDraws(js, |s|) && Steps(s, js, i) == p
    decreases i
  {
    if i == 0 {
      js := seq(|s|, _ => 0);
      AllSettled(s, p);
    } else {
      var j := FindUnsettled(s, p, i);
      var t := Swap(s, i, j);
      SwapItems(s, i, j);
      var below := StepsReach(t, p, i - 1);
      StepsExtend(s, below, i, j);
      js := below[i := j];
    }
  }

  lemma StepsExtend<T>(s: seq<T>, below: seq<int>, i: nat, j: nat)
    requires 0 < i < |s| && j <= i && ValidDraws(below, |s|)
    ensures ValidDraws(below[i := j], |s|)
    ensures Steps(s, below[i := j], i) == Steps(Swap(s, i, j), below, i - 1)
  {
    StepsIgnore(Swap(s, i, j), below, below[i := j], i - 1);
  }

  lemma {:induction false} StepsIgnore<T>(s: seq<T>, js: seq<int>, ks: seq<int>, i: nat)
    requires ValidDraws(js, |s|) && ValidDraws(ks, |s|) && (i < |s| || i == 0)
    requires forall k :: 0 < k <= i ==> js[k] == ks[k]
    ensures Steps(s, js, i) == Steps(s, ks, i)
    decreases i
  {
    if i > 0 { StepsIgnore(Swap(s, i, js[i]), js, ks, i - 1); }
  }

  lemma SameLength<T>(s: seq<T>, t: seq<T>)
    requires SameItems(s, t)
    ensures |s| == |t|
  {
    assert |multiset(s)| == |s| && |multiset(t)| == |t|;
  }

  /** Valid draws and orders of distinct items correspond one to one. */
  lemma OneDrawSequencePerOrder<T>(s: seq<T>, p: seq<T>)
    requires Distinct(s) && SameItems(s, p)
    ensures exists js ::
      && ValidDraws(js, |s|) && Shuffled(s, js) == p
      && forall ks :: ValidDraws(ks, |s|) && Shuffled(s, ks) == p ==> ks == js
  {
    SameLength(s, p);
    var js := StepsReach(s, p, DrawCount(|s|));
    forall ks | ValidDraws(ks, |s|) && Shuffled(s, ks) == p ensures ks == js {
      DrawsAreDetermined(s, js, ks);
    }
  }

  function SourceOf(js: seq<int>, at: nat): Random {
    (k: nat) =>
      var i := at + |js| - 1 - k;
      if 0 < i < |js| && 0 <= js[i] <= i then js[i] as real / (i + 1) as real else 0.0
  }

  lemma Quotient(j: nat, n: nat)
    requires j < n
    ensures 0.0 <= j as real / n as real < 1.0
    ensures (j as real / n as real) * n as real == j as real
  {
  }

  /** No valid draws are out of a random source's reach. */
  lemma EveryDrawPossible(js: seq<int>, at: nat)
    requires ValidDraws(js, |js|)
    ensures IsRandom(SourceOf(js, at)) && Draws(SourceOf(js, at), at, |js|) == js
  {
    var random := SourceOf(js, at);
    forall k ensures 0.0 <= random(k) < 1.0 {
      var i := at + |js| - 1 - k;
      if 0 < i < |js| { Quotient(js[i], i + 1); }
    }
    forall i | 0 <= i < |js| ensures Draws(random, at, |js|)[i] == js[i] {
      if i > 0 {
        Quotient(js[i], i + 1);
        var r := random(at + |js| - 1 - i);
        assert r == js[i] as real / (i + 1) as real;
        assert r * (i + 1) as real == js[i] as real;
        assert Draw(r, i) == js[i];
      }
    }
  }
}
