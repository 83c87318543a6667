/** Section keys: a slug of each name, made unique within the test. */
module SectionKeys {
  import opened Basics
  import opened Text

  /** `normalize('NFKD')`, without accents, in lower case: what it does to a letter is left open. */
  type Fold = string -> string

  const MAX_SLUG := 80

  predicate IsSlugChar(c: char) { 'a' <= c <= 'z' || IsDigit(c) }

  predicate IsKeyText(s: string) {
    s != [] && forall c <- s :: IsSlugChar(c) || c == '-'
  }

  /** Letters, digits and single dashes. */
  predicate Dashed(s: string) {
    && (forall c <- s :: IsSlugChar(c) || c == '-')
    && forall i :: 0 <= i < |s| - 1 ==> !(s[i] == '-' && s[i + 1] == '-')
  }

  /** Single dashes between letters and digits, none at either end. */
  predicate IsSlug(s: string) {
    s != [] && Dashed(s) && s[0] != '-' && s[|s| - 1] != '-'
  }

  /** `replace(/[^a-z0-9]+/g, '-')`; `inRun` is whether the run's dash is already written. */
  function DashRuns(s: string, inRun: bool): (r: string)
    ensures Dashed(r) && (inRun && r != [] ==> r[0] != '-')
  {
    if s == [] then []
    else if IsSlugChar(s[0]) then [s[0]] + DashRuns(s[1..], false)
    else (if inRun then [] else "-") + DashRuns(s[1..], true)
  }

  function StripLeft(s: string): (r: string)
    requires Dashed(s)
    ensures Dashed(r) && (r != [] ==> r[0] != '-')
  {
    if s != [] && s[0] == '-' then
      StripLeft(s[1..])
    else s
  }

  /** The text up to its last letter or digit. */
  function StripRight(s: string): (r: string)
    requires Dashed(s)
    ensures Dashed(r) && |r| <= |s| && r == s[..|r|] && (r != [] ==> r[|r| - 1] != '-')
  {
    if s != [] && s[|s| - 1] == '-' then
      StripRight(s[..|s| - 1])
    else s
  }

  function Slugify(fold: Fold, text: string, fallback: string): (slug: string)
    requires IsSlug(fallback)
    ensures IsSlug(slug) && (slug == fallback || |slug| <= MAX_SLUG)
  {
    var dashed := StripRight(StripLeft(DashRuns(fold(text), false)));
    var cut := if |dashed| > MAX_SLUG then MAX_SLUG else |dashed|;
    var short := StripRight(dashed[..cut]);
    if short == [] then fallback else short
  }

  function Numbered(base: string, n: nat): string { base + "-" + NumberText(n) }

  lemma NumberedDiffer(base: string, m: nat, n: nat)
    requires Numbered(base, m) == Numbered(base, n)
    ensures m == n
  {
    var k := |base| + 1;
    assert Numbered(base, m)[k..] == NumberText(m) && Numbered(base, n)[k..] == NumberText(n);
    NumberTextReadsBack(m);
    NumberTextReadsBack(n);
  }

  /** The keys `base-2` to `base-(n-1)` are all taken. */
  predicate TriedUpTo(base: string, used: set<string>, n: nat) {
    forall k :: 2 <= k < n ==> Numbered(base, k) in used
  }

  function Tried(base: string, n: nat): (s: set<string>)
  {
    set k | 2 <= k < n :: Numbered(base, k)
  }

  lemma {:induction false} TriedCount(base: string, n: nat)
    requires n >= 2
    ensures |Tried(base, n)| == n - 2
  {
    if n == 2 {
      assert Tried(base, n) == {};
    } else {
      TriedCount(base, n - 1);
      var last := Numbered(base, n - 1);
      if last in Tried(base, n - 1) {
        var k :| 2 <= k < n - 1 && Numbered(base, k) == last;
        NumberedDiffer(base, k, n - 1);
      }
      assert Tried(base, n) == Tried(base, n - 1) + {last};
    }
  }

  /** Only so many numbers can be taken, so the search ends. */
  lemma TriedFits(base: string, used: set<string>, n: nat)
    requires n >= 2 && TriedUpTo(base, used, n)
    ensures n - 2 <= |used|
  {
    TriedCount(base, n);
    Contained(Tried(base, n), used);
  }

  lemma {:induction false} Contained(s: set<string>, t: set<string>)
    requires s <= t
    ensures |s| <= |t|
    decreases s
  {
    if s != {} {
      var x :| x in s;
      Contained(s - {x}, t - {x});
    }
  }

  /** The first of `base-n`, `base-(n+1)`… that is free. */
  function FreeFrom(base: string, used: set<string>, n: nat): (key: string)
    requires n >= 2 && TriedUpTo(base, used, n)
    ensures key !in used && (IsKeyText(base) ==> IsKeyText(key))
    decreases |used| + 2 - n
  {
    TriedFits(base, used, n);
    if Numbered(base, n) in used then
      assert TriedUpTo(base, used, n + 1);
      TriedFits(base, used, n + 1);
      FreeFrom(base, used, n + 1)
    else Numbered(base, n)
  }

  function FreeKey(base: string, used: set<string>): (key: string)
    ensures key !in used && (IsKeyText(base) ==> IsKeyText(key))
    ensures base !in used ==> key == base
  {
    if base in used then FreeFrom(base, used, 2) else base
  }

  const SECTION_FALLBACK := "section"

  function SetOf(keys: seq<string>): (s: set<string>)
    ensures forall k :: k in s <==> k in keys
  {
    set k | k in keys
  }

  /** The key a section's name gets after those before it. */
  function NextOf(fold: Fold, before: seq<string>, name: string): (key: string)
    ensures IsKeyText(key) && key !in before
  {
    FreeKey(Slugify(fold, name, SECTION_FALLBACK), SetOf(before))
  }

  /** The key of each section, in order. */
  function Keys(fold: Fold, names: seq<string>): (keys: seq<string>)
    ensures |keys| == |names|
    ensures forall k <- keys :: IsKeyText(k)
  {
    if names == [] then []
    else
      var before := Keys(fold, names[..|names| - 1]);
      before + [NextOf(fold, before, names[|names| - 1])]
  }

  /** No two sections share a key. */
  lemma {:induction false} KeysDistinct(fold: Fold, names: seq<string>)
    ensures Distinct(Keys(fold, names))
  {
    if names != [] {
      var n := |names| - 1;
      KeysDistinct(fold, names[..n]);
      var before := Keys(fold, names[..n]);
      forall i | 0 <= i < n ensures Keys(fold, names)[i] != Keys(fold, names)[n] {
        assert Keys(fold, names)[i] == before[i];
      }
    }
  }

  lemma KeysGrow(fold: Fold, names: seq<string>, i: nat, used: set<string>, key: string)
    requires i < |names| && used == SetOf(Keys(fold, names[..i]))
    requires key == FreeKey(Slugify(fold, names[i], SECTION_FALLBACK), used)
    ensures Keys(fold, names[..i + 1]) == Keys(fold, names[..i]) + [key]
    ensures SetOf(Keys(fold, names[..i + 1])) == used + {key}
  {
    assert names[..i + 1][..i] == names[..i];
    SetGrows(Keys(fold, names[..i]), key);
  }

  lemma SetGrows(keys: seq<string>, key: string)
    ensures SetOf(keys + [key]) == SetOf(keys) + {key}
  {
  }

  /** Walks the sections, counting up past the keys already used. */
  method MakeKeys(fold: Fold, names: seq<string>) returns (keys: seq<string>)
    ensures keys == Keys(fold, names)
  {
    var used: set<string> := {};
    keys := [];
    for i := 0 to |names|
      invariant keys == Keys(fold, names[..i]) && used == SetOf(Keys(fold, names[..i]))
    {
      var key := NextKey(Slugify(fold, names[i], SECTION_FALLBACK), used);
      KeysGrow(fold, names, i, used, key);
      used, keys := used + {key}, keys + [key];
    }
    assert names[..|names|] == names;
  }

  method NextKey(base: string, used: set<string>) returns (key: string)
    ensures key == FreeKey(base, used)
  {
    key := base;
    var n := 2;
    while key in used
      invariant n >= 2 && TriedUpTo(base, used, n - 1) && (key == if n == 2 then base else Numbered(base, n - 1))
      invariant n > 2 ==> base in used && FreeKey(base, used) == FreeFrom(base, used, n - 1)
      decreases |used| + 3 - n
    {
      assert n > 2 ==> TriedUpTo(base, used, n);
      TriedFits(base, used, n);
      key := Numbered(base, n);
      n := n + 1;
    }
  }

  /** A key is already trimmed and in lower case, so every lookup finds it as it is. */
  lemma KeyStays(key: string)
    requires IsKeyText(key)
    ensures Trimmed(key) && ToLower(key) == key && Trim(key) == key
  {
    assert key[0] in key && key[|key| - 1] in key;
    forall i | 0 <= i < |key| ensures LowerChar(key[i]) == key[i] { assert key[i] in key; }
  }
}
