/** What a section's slug and key are, told from its name apart from how they are worked out. */
module SlugLaws {
  import opened Text
  import opened SectionKeys

  // ----- Runs of letters and digits ---------------------------------------------------------

  predicate NoSlugChars(s: string) { forall c <- s :: !IsSlugChar(c) }

  predicate AllSlugChars(s: string) { s != "" && forall c <- s :: IsSlugChar(c) }

  /** The first run of letters and digits is `run`, and stands from `i` to `j`. */
  predicate RunAt(s: string, i: nat, j: nat, run: string)
    requires i < j <= |s|
  {
    NoSlugChars(s[..i]) && AllSlugChars(run) && s[i..j] == run && (j < |s| ==> !IsSlugChar(s[j]))
  }

  /** The text's runs of letters and digits are these. */
  ghost predicate HasRuns(s: string, runs: seq<string>)
    decreases |runs|
  {
    if runs == [] then NoSlugChars(s)
    else exists i, j :: 0 <= i < j <= |s| && RunAt(s, i, j, runs[0]) && HasRuns(s[j..], runs[1..])
  }

  lemma {:induction false} DashRun(run: string, rest: string, inRun: bool)
    requires AllSlugChars(run)
    ensures DashRuns(run + rest, inRun) == run + DashRuns(rest, false)
  {
    assert (run + rest)[1..] == run[1..] + rest && run[0] in run;
    if |run| == 1 {
      assert run[1..] + rest == rest;
    } else {
      DashRun(run[1..], rest, false);
    }
  }

  lemma {:induction false} DashGap(gap: string, rest: string, inRun: bool)
    requires gap != "" && NoSlugChars(gap)
    ensures DashRuns(gap + rest, inRun) == (if inRun then "" else "-") + DashRuns(rest, true)
  {
    assert (gap + rest)[1..] == gap[1..] + rest && gap[0] in gap;
    if |gap| == 1 {
      assert gap[1..] + rest == rest;
    } else {
      DashGap(gap[1..], rest, true);
    }
  }

  function Dash(there: bool): string { if there then "-" else "" }

  lemma DashFirst(s: string, i: nat, j: nat, run: string, rest: string)
    requires i < j <= |s| && RunAt(s, i, j, run) && rest == s[j..]
    ensures DashRuns(s, false) == Dash(i > 0) + (run + DashRuns(rest, false))
  {
    assert s == s[..i] + (run + rest);
    DashRun(run, rest, false);
    DashRun(run, rest, true);
    if i > 0 { DashGap(s[..i], run + rest, false); } else { assert s[..i] + (run + rest) == run + rest; }
  }

  lemma DashNone(s: string)
    requires NoSlugChars(s)
    ensures DashRuns(s, false) == Dash(s != "")
  {
    if s != "" {
      DashGap(s, "", false);
      assert s + "" == s;
    }
  }

  /** The runs with a dash between each two, and one at an end where something else stands. */
  function Ends(s: string, runs: string): string
    requires s != ""
  {
    Dash(!IsSlugChar(s[0])) + (runs + Dash(runs != "" && !IsSlugChar(s[|s| - 1])))
  }

  lemma RunEnds(s: string, i: nat, j: nat, run: string)
    requires i < j <= |s| && RunAt(s, i, j, run)
    ensures IsSlugChar(s[0]) <==> i == 0
    ensures IsSlugChar(s[j - 1])
  {
    assert s[i..j][0] in run && s[i..j][j - i - 1] in run;
    if i > 0 { assert s[..i][0] in s[..i]; }
  }

  lemma EndsLast(s: string, run: string, i: nat, j: nat)
    requires i < j <= |s| && RunAt(s, i, j, run) && NoSlugChars(s[j..])
    ensures DashRuns(s, false) == Ends(s, Join([run], "-"))
  {
    var rest := s[j..];
    DashFirst(s, i, j, run, rest);
    RunEnds(s, i, j, run);
    DashNone(rest);
    LastOf(s, j);
    assert rest == "" <==> IsSlugChar(s[|s| - 1]);
    assert Join([run], "-") == run;
  }

  lemma LastOf(s: string, j: nat)
    requires 0 < j <= |s| && NoSlugChars(s[j..]) && IsSlugChar(s[j - 1])
    ensures IsSlugChar(s[|s| - 1]) <==> j == |s|
  {
    if j < |s| { assert s[j..][|s| - 1 - j] in s[j..]; }
  }

  lemma EndsJoin(s: string, runs: seq<string>, i: nat, j: nat)
    requires |runs| > 1 && 0 < j < |s| && !IsSlugChar(s[j]) && runs[1] != ""
    requires i > 0 <==> !IsSlugChar(s[0])
    ensures Dash(i > 0) + (runs[0] + Ends(s[j..], Join(runs[1..], "-"))) == Ends(s, Join(runs, "-"))
  {
    var rest := s[j..];
    var more, end := Join(runs[1..], "-"), Dash(!IsSlugChar(s[|s| - 1]));
    assert rest[0] == s[j] && rest[|rest| - 1] == s[|s| - 1];
    Regroup(runs[0], "-", more, end);
  }

  lemma Regroup(a: string, b: string, c: string, d: string)
    ensures a + (b + (c + d)) == (a + b + c) + d
  {
  }

  lemma RunsNeedText(s: string, runs: seq<string>)
    requires HasRuns(s, runs) && runs != []
    ensures s != ""
  {
  }

  lemma {:induction false} DashedRuns(s: string, runs: seq<string>)
    requires s != "" && HasRuns(s, runs)
    ensures (forall r <- runs :: AllSlugChars(r)) && DashRuns(s, false) == Ends(s, Join(runs, "-"))
    decreases |runs|
  {
    if runs == [] {
      DashNone(s);
      assert s[0] in s;
    } else {
      var i, j :| 0 <= i < j <= |s| && RunAt(s, i, j, runs[0]) && HasRuns(s[j..], runs[1..]);
      if |runs| == 1 {
        assert runs == [runs[0]];
        EndsLast(s, runs[0], i, j);
      } else {
        RunsNeedText(s[j..], runs[1..]);
        DashedRuns(s[j..], runs[1..]);
        DashFirst(s, i, j, runs[0], s[j..]);
        RunEnds(s, i, j, runs[0]);
        assert runs[1] in runs[1..];
        EndsJoin(s, runs, i, j);
        assert forall r <- runs :: r == runs[0] || r in runs[1..];
      }
    }
  }

  lemma {:induction false} JoinedRuns(runs: seq<string>)
    requires runs != [] && forall r <- runs :: AllSlugChars(r)
    ensures var joined := Join(runs, "-"); joined != "" && IsSlugChar(joined[0]) && IsSlugChar(joined[|joined| - 1])
  {
    var r := runs[0];
    assert r in runs && r[0] in r && r[|r| - 1] in r;
    if |runs| > 1 {
      forall q | q in runs[1..] ensures AllSlugChars(q) { assert q in runs; }
      JoinedRuns(runs[1..]);
    }
  }

  lemma StripsRight(text: string, after: bool)
    requires text != "" && text[|text| - 1] != '-' && Dashed(text + Dash(after))
    ensures StripRight(text + Dash(after)) == text
  {
    assert after ==> (text + "-")[..|text|] == text && Dashed(text);
    assert text + "" == text;
  }

  lemma DashedRest(s: string)
    requires Dashed(s) && s != ""
    ensures Dashed(s[1..])
  {
    forall c | c in s[1..] ensures IsSlugChar(c) || c == '-' { assert c in s; }
    forall i | 0 <= i < |s| - 2 ensures !(s[1..][i] == '-' && s[1..][i + 1] == '-') {
      assert s[i + 1] == s[1..][i] && s[i + 2] == s[1..][i + 1];
    }
  }

  lemma StripsLeft(before: bool, text: string)
    requires (text != "" ==> text[0] != '-') && Dashed(Dash(before) + text)
    ensures Dashed(text) && StripLeft(Dash(before) + text) == text
  {
    if before {
      DashedRest("-" + text);
      assert ("-" + text)[1..] == text;
    } else {
      assert "" + text == text;
    }
  }

  lemma RunsJoined(s: string, runs: seq<string>)
    requires HasRuns(s, runs)
    ensures StripRight(StripLeft(DashRuns(s, false))) == Join(runs, "-")
    ensures runs != [] ==> IsSlugChar(Join(runs, "-")[|Join(runs, "-")| - 1])
  {
    if s == "" {
      if runs != [] { RunsNeedText(s, runs); }
    } else {
      DashedRuns(s, runs);
      var joined := Join(runs, "-");
      if runs == [] {
        StripsLeft(!IsSlugChar(s[0]), "");
        assert joined + "" == "" && Dash(!IsSlugChar(s[0])) + "" == Dash(!IsSlugChar(s[0]));
      } else {
        JoinedRuns(runs);
        var after := !IsSlugChar(s[|s| - 1]);
        StripsLeft(!IsSlugChar(s[0]), joined + Dash(after));
        StripsRight(joined, after);
      }
    }
  }

  /** Every text has runs. */
  lemma {:induction false} RunsOf(s: string) returns (runs: seq<string>)
    ensures HasRuns(s, runs)
    decreases |s|
  {
    if NoSlugChars(s) {
      runs := [];
    } else {
      var i := FirstSlugChar(s);
      var j := RunEnd(s, i);
      var rest := RunsOf(s[j..]);
      runs := [s[i..j]] + rest;
      assert runs[1..] == rest;
      forall c | c in s[i..j] ensures IsSlugChar(c) {
        var k :| 0 <= k < j - i && s[i..j][k] == c;
        assert s[i + k] == c;
      }
      assert RunAt(s, i, j, runs[0]);
    }
  }

  lemma {:induction false} FirstSlugChar(s: string) returns (i: nat)
    requires !NoSlugChars(s)
    ensures i < |s| && NoSlugChars(s[..i]) && IsSlugChar(s[i])
  {
    if IsSlugChar(s[0]) {
      i := 0;
    } else {
      assert forall c <- s :: c == s[0] || c in s[1..];
      i := FirstSlugChar(s[1..]);
      assert s[..i + 1] == [s[0]] + s[1..][..i];
      i := i + 1;
    }
  }

  lemma RunEnd(s: string, i: nat) returns (j: nat)
    requires i < |s| && IsSlugChar(s[i])
    ensures i < j <= |s| && (j < |s| ==> !IsSlugChar(s[j])) && forall k :: i <= k < j ==> IsSlugChar(s[k])
    decreases |s| - i
  {
    j := i + 1;
    if j < |s| && IsSlugChar(s[j]) { j := RunEnd(s, j); }
  }

  // ----- Slugs --------------------------------------------------------------------------------

  /** The text up to 80 characters, and not up to a dash. */
  function Cut(text: string): string {
    if |text| <= 80 then text else if text[79] == '-' then text[..79] else text[..80]
  }

  /** The folded name's runs of letters and digits, joined by dashes and cut, or the fallback when there are none. */
  ghost predicate IsSlugOf(folded: string, fallback: string, slug: string) {
    exists runs :: HasRuns(folded, runs) && slug == if runs == [] then fallback else Cut(Join(runs, "-"))
  }

  lemma CutStrips(text: string)
    requires Dashed(text) && text != "" && text[|text| - 1] != '-'
    ensures var cut := if |text| > 80 then 80 else |text|;
      Dashed(text[..cut]) && StripRight(text[..cut]) == Cut(text) != ""
  {
    var cut := if |text| > 80 then 80 else |text|;
    var short := text[..cut];
    forall c | c in short ensures IsSlugChar(c) || c == '-' { assert c in text; }
    forall i | 0 <= i < cut - 1 ensures !(short[i] == '-' && short[i + 1] == '-') {
      assert text[i] == short[i] && text[i + 1] == short[i + 1];
    }
    if cut == 80 && short[79] == '-' {
      assert text[78] != '-' && short[..79] == text[..79] && short[78] == text[78];
    } else {
      assert short == text || short[cut - 1] != '-';
    }
  }

  lemma SlugMeans(fold: Fold, name: string, fallback: string)
    requires IsSlug(fallback)
    ensures IsSlugOf(fold(name), fallback, Slugify(fold, name, fallback))
  {
    var runs := RunsOf(fold(name));
    RunsJoined(fold(name), runs);
    if runs != [] { CutStrips(Join(runs, "-")); }
  }

  // ----- Keys ---------------------------------------------------------------------------------

  /** The key for a slug: the slug itself, or the slug with the first number from 2 up that is free. */
  ghost predicate IsKeyFor(slug: string, before: seq<string>, key: string) {
    if slug !in before then key == slug
    else exists n: nat :: 2 <= n && key == slug + "-" + NumberText(n) && key !in before && TakenUpTo(slug, before, n)
  }

  predicate TakenUpTo(slug: string, before: seq<string>, n: nat) {
    forall k :: 2 <= k < n ==> slug + "-" + NumberText(k) in before
  }

  lemma {:induction false} FirstFree(base: string, used: set<string>, n: nat) returns (k: nat)
    requires n >= 2 && TriedUpTo(base, used, n)
    ensures k >= n && FreeFrom(base, used, n) == Numbered(base, k) && TriedUpTo(base, used, k)
    decreases |used| + 2 - n
  {
    TriedFits(base, used, n);
    if Numbered(base, n) in used {
      TriedFits(base, used, n + 1);
      k := FirstFree(base, used, n + 1);
    } else {
      k := n;
    }
  }

  lemma FreeMeans(base: string, before: seq<string>)
    ensures IsKeyFor(base, before, FreeKey(base, SetOf(before)))
  {
    var used := SetOf(before);
    if base in before {
      var n := FirstFree(base, used, 2);
      forall k | 2 <= k < n ensures base + "-" + NumberText(k) in before { assert Numbered(base, k) in used; }
      assert TakenUpTo(base, before, n);
    }
  }

  /** Each name has its slug, and each key is for its slug after the keys before it. */
  ghost predicate KeysFor(fold: Fold, names: seq<string>, slugs: seq<string>, keys: seq<string>) {
    && |slugs| == |keys| == |names|
    && forall i :: 0 <= i < |keys| ==>
      IsSlugOf(fold(names[i]), "section", slugs[i]) && IsKeyFor(slugs[i], keys[..i], keys[i])
  }

  lemma KeysForMore(fold: Fold, names: seq<string>, slugs: seq<string>, keys: seq<string>, name: string, slug: string,
    key: string)
    requires KeysFor(fold, names, slugs, keys) && IsSlugOf(fold(name), "section", slug) && IsKeyFor(slug, keys, key)
    ensures KeysFor(fold, names + [name], slugs + [slug], keys + [key])
  {
    var more, n := keys + [key], |keys|;
    assert more[..n] == keys;
    forall i | 0 <= i < n ensures more[..i] == keys[..i] {}
  }

  /** The key of each section is worked out from its own name and the keys before it. */
  lemma {:induction false} KeysMean(fold: Fold, names: seq<string>) returns (slugs: seq<string>)
    ensures KeysFor(fold, names, slugs, Keys(fold, names))
  {
    slugs := [];
    if names != [] {
      var init, name := names[..|names| - 1], names[|names| - 1];
      var before, slug := Keys(fold, init), Slugify(fold, name, SECTION_FALLBACK);
      var rest := KeysMean(fold, init);
      SlugMeans(fold, name, SECTION_FALLBACK);
      FreeMeans(slug, before);
      KeysForMore(fold, init, rest, before, name, slug, NextOf(fold, before, name));
      assert names == init + [name];
      slugs := rest + [slug];
    }
  }
}
