/** Option values and the few sequence operations every other module uses. */
module Basics {

  datatype Option<+T> = None | Some(value: T) {
    function GetOr(default: T): T {
      match this
      case None => default
      case Some(v) => v
    }
  }

  /** `array.map(f)`. */
  function Map<A, B>(f: A -> B, s: seq<A>): (r: seq<B>)
    ensures |r| == |s|
    ensures forall i :: 0 <= i < |s| ==> r[i] == f(s[i])
  {
    seq(|s|, i requires 0 <= i < |s| => f(s[i]))
  }

  /** `array.filter(p)`. */
  function Filter<A>(p: A -> bool, s: seq<A>): (r: seq<A>)
    ensures forall x | x in s :: x in r <==> p(x)
    ensures forall x | x in r :: x in s
  {
    if s == [] then []
    else if p(s[0]) then [s[0]] + Filter(p, s[1..])
    else Filter(p, s[1..])
  }

  /** `array.findIndex(p)`, with the length standing for "not found". */
  function Find<A>(p: A -> bool, s: seq<A>): (i: nat)
    ensures i <= |s|
    ensures i < |s| ==> p(s[i])
    ensures forall k :: 0 <= k < i ==> !p(s[k])
  {
    if s == [] || p(s[0]) then 0 else 1 + Find(p, s[1..])
  }

  /** The last index with p, and the length when there is none. */
  function FindLast<A>(p: A -> bool, s: seq<A>): (i: nat)
    ensures i <= |s|
    ensures i < |s| ==> p(s[i])
    ensures forall k :: 0 <= k < |s| && (k > i || i == |s|) ==> !p(s[k])
  {
    if s == [] then 0
    else
      var n := |s| - 1;
      if p(s[n]) then n
      else
        var i := FindLast(p, s[..n]);
        if i < n then i else |s|
  }

  /** `array.flat()`. */
  function Flatten<A>(s: seq<seq<A>>): seq<A> {
    if s == [] then [] else s[0] + Flatten(s[1..])
  }

  /** No value appears twice. */
  ghost predicate Distinct<A>(s: seq<A>) {
    forall i, j :: 0 <= i < j < |s| ==> s[i] != s[j]
  }

  ghost predicate SameItems<A>(s: seq<A>, t: seq<A>) {
    multiset(s) == multiset(t)
  }

  lemma Associative<A>(a: seq<A>, b: seq<A>, c: seq<A>)
    ensures (a + b) + c == a + (b + c)
  {
  }

  lemma ConcatHead<A>(s: seq<A>, t: seq<A>)
    requires s != []
    ensures (s + t)[0] == s[0] && (s + t)[1..] == s[1..] + t
  {
  }

  lemma MapHead<A, B>(f: A -> B, s: seq<A>)
    requires s != []
    ensures Map(f, s) == [f(s[0])] + Map(f, s[1..])
  {
  }

  lemma SplitHead<A>(s: seq<A>)
    requires s != []
    ensures s == [s[0]] + s[1..]
  {
  }

  lemma SplitLast<A>(s: seq<A>)
    requires s != []
    ensures s == s[..|s| - 1] + [s[|s| - 1]]
  {
  }

  lemma {:induction false} FlattenConcat<A>(s: seq<seq<A>>, t: seq<seq<A>>)
    ensures Flatten(s + t) == Flatten(s) + Flatten(t)
  {
    if s == [] {
      assert s + t == t;
    } else {
      FlattenConcat(s[1..], t);
      ConcatHead(s, t);
      Associative(s[0], Flatten(s[1..]), Flatten(t));
    }
  }

  lemma {:induction false} FilterConcat<A>(p: A -> bool, s: seq<A>, t: seq<A>)
    ensures Filter(p, s + t) == Filter(p, s) + Filter(p, t)
  {
    if s == [] {
      assert s + t == t;
    } else {
      FilterConcat(p, s[1..], t);
      ConcatHead(s, t);
      Associative([s[0]], Filter(p, s[1..]), Filter(p, t));
    }
  }

  /** The items with one key, in order. */
  function Keyed<A, K(==)>(s: seq<A>, key: A -> K, k: K): seq<A> {
    Filter((x: A) => key(x) == k, s)
  }

  /** The items under each of the keys. */
  function KeyedBlocks<A, K(==)>(s: seq<A>, key: A -> K, keys: seq<K>): seq<seq<A>> {
    Map((k: K) => Keyed(s, key, k), keys)
  }

  lemma {:induction false} FilterSplit<A>(p: A -> bool, q: A -> bool, both: A -> bool, s: seq<A>)
    requires forall x <- s :: !(p(x) && q(x)) && (both(x) <==> p(x) || q(x))
    ensures multiset(Filter(both, s)) == multiset(Filter(p, s)) + multiset(Filter(q, s))
  {
    if s != [] {
      FilterSplit(p, q, both, s[1..]);
      assert s[0] in s;
    }
  }

  lemma {:induction false} FilterAll<A>(p: A -> bool, s: seq<A>)
    requires forall x <- s :: p(x)
    ensures Filter(p, s) == s
  {
    if s != [] {
      FilterAll(p, s[1..]);
      SplitHead(s);
    }
  }

  lemma {:induction false} FilterNone<A>(p: A -> bool, s: seq<A>)
    requires forall x <- s :: !p(x)
    ensures Filter(p, s) == []
  {
    if s != [] { FilterNone(p, s[1..]); }
  }

  /** Blocks over distinct keys split what has one of the keys. */
  lemma {:induction false} KeyedSplit<A, K>(s: seq<A>, key: A -> K, keys: seq<K>)
    requires Distinct(keys)
    ensures multiset(Flatten(KeyedBlocks(s, key, keys))) == multiset(Filter((x: A) => key(x) in keys, s))
  {
    if keys == [] {
      FilterNone((x: A) => key(x) in keys, s);
    } else {
      KeyedSplit(s, key, keys[1..]);
      MapHead((k: K) => Keyed(s, key, k), keys);
      FilterSplit((x: A) => key(x) == keys[0], (x: A) => key(x) in keys[1..], (x: A) => key(x) in keys, s);
    }
  }

  lemma KeyedLast<A, K>(s: seq<A>, x: A, key: A -> K, k: K)
    ensures Keyed(s + [x], key, k) == Keyed(s, key, k) + (if key(x) == k then [x] else [])
  {
    FilterConcat((y: A) => key(y) == k, s, [x]);
  }

  /** Blocks over distinct keys that cover the items are a partition of them. */
  lemma KeyedPartition<A, K>(s: seq<A>, key: A -> K, keys: seq<K>)
    requires Distinct(keys) && forall x <- s :: key(x) in keys
    ensures SameItems(Flatten(KeyedBlocks(s, key, keys)), s)
  {
    KeyedSplit(s, key, keys);
    FilterAll((x: A) => key(x) in keys, s);
  }

  lemma TakeOut<A, B>(f: A -> B, s: seq<A>, i: nat) returns (rest: seq<A>)
    requires i < |s|
    ensures |rest| == |s| - 1
    ensures multiset(s) == multiset(rest) + multiset{s[i]}
    ensures multiset(Map(f, s)) == multiset(Map(f, rest)) + multiset{f(s[i])}
  {
    rest := s[..i] + s[i + 1..];
    assert s == s[..i] + [s[i]] + s[i + 1..];
    assert Map(f, rest) == Map(f, s[..i]) + Map(f, s[i + 1..]);
    assert Map(f, s) == Map(f, s[..i]) + [f(s[i])] + Map(f, s[i + 1..]);
  }

  /** The same items map to the same items. */
  lemma {:induction false} MapItems<A, B>(f: A -> B, s: seq<A>, t: seq<A>)
    requires SameItems(s, t)
    ensures SameItems(Map(f, s), Map(f, t))
    decreases |s|
  {
    if s == [] {
      assert |multiset(t)| == 0;
    } else {
      assert s[0] in multiset(t);
      var i :| 0 <= i < |t| && t[i] == s[0];
      var s' := TakeOut(f, s, 0);
      var t' := TakeOut(f, t, i);
      assert multiset(s') == multiset(s) - multiset{s[0]};
      MapItems(f, s', t');
    }
  }

  /** `array.flatMap(f)`, from `index` on. */
  function FlatMap<A, B>(f: (A, nat) -> seq<B>, s: seq<A>, index: nat): seq<B>
    requires index <= |s|
    decreases |s| - index
  {
    if index == |s| then [] else f(s[index], index) + FlatMap(f, s, index + 1)
  }

  // ----- Counting and adding up -------------------------------------------------------

  function CountOf<A>(p: A -> bool, s: seq<A>): (n: nat)
    ensures n <= |s|
  {
    if s == [] then 0 else (if p(s[0]) then 1 else 0) + CountOf(p, s[1..])
  }

  function SumNat<A>(f: A -> nat, s: seq<A>): nat {
    if s == [] then 0 else f(s[0]) + SumNat(f, s[1..])
  }

  function Sum<A>(f: A -> real, s: seq<A>): real {
    if s == [] then 0.0 else f(s[0]) + Sum(f, s[1..])
  }

  lemma {:induction false} CountConcat<A>(p: A -> bool, s: seq<A>, t: seq<A>)
    ensures CountOf(p, s + t) == CountOf(p, s) + CountOf(p, t)
  {
    if s == [] {
      assert s + t == t;
    } else {
      CountConcat(p, s[1..], t);
      ConcatHead(s, t);
    }
  }

  lemma {:induction false} SumConcat<A>(f: A -> real, s: seq<A>, t: seq<A>)
    ensures Sum(f, s + t) == Sum(f, s) + Sum(f, t)
  {
    if s == [] {
      assert s + t == t;
    } else {
      SumConcat(f, s[1..], t);
      ConcatHead(s, t);
    }
  }

  lemma {:induction false} SumNatConcat<A>(f: A -> nat, s: seq<A>, t: seq<A>)
    ensures SumNat(f, s + t) == SumNat(f, s) + SumNat(f, t)
  {
    if s == [] {
      assert s + t == t;
    } else {
      SumNatConcat(f, s[1..], t);
      ConcatHead(s, t);
    }
  }

  lemma {:induction false} CountSame<A>(p: A -> bool, q: A -> bool, s: seq<A>)
    requires forall x <- s :: p(x) == q(x)
    ensures CountOf(p, s) == CountOf(q, s)
  {
    if s != [] {
      assert s[0] in s;
      CountSame(p, q, s[1..]);
    }
  }

  lemma {:induction false} CountAll<A>(p: A -> bool, s: seq<A>)
    requires forall x <- s :: p(x)
    ensures CountOf(p, s) == |s|
  {
    if s != [] {
      assert s[0] in s;
      CountAll(p, s[1..]);
    }
  }

  /** Adding up what a map gives is adding up what it would give. */
  lemma {:induction false} SumNatMap<A, B>(f: B -> nat, h: A -> B, g: A -> nat, s: seq<A>)
    requires forall x <- s :: g(x) == f(h(x))
    ensures SumNat(f, Map(h, s)) == SumNat(g, s)
  {
    if s != [] {
      assert s[0] in s;
      MapHead(h, s);
      SumNatMap(f, h, g, s[1..]);
    }
  }

  lemma {:induction false} CountWithout<A>(p: A -> bool, s: seq<A>, i: nat)
    requires i < |s|
    ensures CountOf(p, s) == CountOf(p, s[..i] + s[i + 1..]) + (if p(s[i]) then 1 else 0)
  {
    if i == 0 {
      assert s[..0] + s[1..] == s[1..];
    } else {
      var rest := s[..i] + s[i + 1..];
      CountWithout(p, s[1..], i - 1);
      assert rest[0] == s[0] && rest[1..] == s[1..][..i - 1] + s[1..][i..];
    }
  }

  lemma ItemsWithout<A>(s: seq<A>, i: nat)
    requires i < |s|
    ensures multiset(s[..i] + s[i + 1..]) == multiset(s) - multiset{s[i]}
  {
    assert s == s[..i] + [s[i]] + s[i + 1..];
  }

  /** Counting does not depend on the order. */
  lemma {:induction false} CountItems<A>(p: A -> bool, s: seq<A>, t: seq<A>)
    requires SameItems(s, t)
    ensures CountOf(p, s) == CountOf(p, t)
    decreases |s|
  {
    if s == [] {
      assert |multiset(t)| == 0;
    } else {
      assert s[0] in multiset(t);
      var i :| 0 <= i < |t| && t[i] == s[0];
      ItemsWithout(s, 0);
      ItemsWithout(t, i);
      CountWithout(p, s, 0);
      CountWithout(p, t, i);
      CountItems(p, s[..0] + s[1..], t[..i] + t[i + 1..]);
    }
  }

  /** A count over a list of lists is the sum of the lists' counts. */
  lemma {:induction false} CountFlatten<A>(p: A -> bool, lists: seq<seq<A>>, f: seq<A> -> nat)
    requires forall l <- lists :: f(l) == CountOf(p, l)
    ensures CountOf(p, Flatten(lists)) == SumNat(f, lists)
  {
    if lists != [] {
      assert lists[0] in lists;
      CountFlatten(p, lists[1..], f);
      CountConcat(p, lists[0], Flatten(lists[1..]));
    }
  }

  /** Leaving out what adds nothing leaves the sum. */
  lemma {:induction false} SumNatFilter<A>(f: A -> nat, keep: A -> bool, s: seq<A>)
    requires forall x <- s :: !keep(x) ==> f(x) == 0
    ensures SumNat(f, Filter(keep, s)) == SumNat(f, s)
  {
    if s != [] {
      assert s[0] in s;
      SumNatFilter(f, keep, s[1..]);
    }
  }
}
