/**
 * What a hand-written row says, cell by cell, and that a row is read as a
 * question exactly when its cells say that question and it is ready to send.
 */
module CellLaws {
  import opened Basics
  import opened Text
  import opened Questions
  import opened QuestionCsv
  import Csv

  // ----- Words ------------------------------------------------------------------------

  predicate SameLetter(a: char, b: char) {
    || a == b
    || ('a' <= a <= 'z' && b as int == a as int - 32)
    || ('A' <= a <= 'Z' && b as int == a as int + 32)
  }

  /** Equal, ignoring the case of the letters A to Z. */
  predicate SameText(a: string, b: string) {
    |a| == |b| && forall i :: 0 <= i < |a| ==> SameLetter(a[i], b[i])
  }

  lemma SameIsLower(a: string, b: string)
    ensures SameText(a, b) <==> ToLower(a) == ToLower(b)
  {
    if ToLower(a) == ToLower(b) {
      forall i | 0 <= i < |a| ensures SameLetter(a[i], b[i]) {
        assert ToLower(a)[i] == ToLower(b)[i];
      }
    }
  }

  lemma SameIsUpper(a: string, b: string)
    ensures SameText(a, b) <==> ToUpper(a) == ToUpper(b)
  {
    if ToUpper(a) == ToUpper(b) {
      forall i | 0 <= i < |a| ensures SameLetter(a[i], b[i]) {
        assert ToUpper(a)[i] == ToUpper(b)[i];
      }
    }
  }

  predicate AnyLetter(c: char) { 'a' <= c <= 'z' || 'A' <= c <= 'Z' }

  predicate NoLetters(s: string) { forall c <- s :: !AnyLetter(c) }

  predicate Word(w: string) { w != "" && forall c <- w :: IsLetter(c) }

  /** The text's runs of letters, in lower case, are these words. */
  ghost predicate Spells(raw: string, words: seq<string>)
    decreases |words|
  {
    if words == [] then NoLetters(raw)
    else exists i, j :: 0 <= i < j <= |raw| && WordAt(raw, i, j, words[0]) && Spells(raw[j..], words[1..])
  }

  /** The first run of letters is `word`, and stands from `i` to `j`. */
  predicate WordAt(raw: string, i: nat, j: nat, word: string)
    requires i < j <= |raw|
  {
    && NoLetters(raw[..i]) && (j < |raw| ==> !AnyLetter(raw[j]))
    && Word(word) && SameText(raw[i..j], word)
  }

  // ----- What a cell says ---------------------------------------------------------------

  predicate NamesType(words: string, kind: QuestionType) {
    match kind
    case SingleChoice => words == "single choice" || words == "multiple choice" || words == "mcq"
    case TrueFalse => words == "true false" || words == "true or false" || words == "tf"
    case RatingScale => "rating" <= words
    case ChoiceScale => "choice" <= words
  }

  /** The type: by its words, whatever stands between them; a blank cell means the method's usual one. */
  ghost predicate SaysType(raw: string, scoring: ScoringMethod, kind: QuestionType) {
    if raw == "" then kind == (match scoring case Alignment => RatingScale case CorrectAnswer => SingleChoice)
    else exists words :: Spells(raw, words) && NamesType(Join(words, " "), kind)
  }

  predicate SaysDifficulty(raw: string, difficulty: Option<Questions.Difficulty>) {
    match difficulty
    case None => raw == ""
    case Some(Easy) => SameText(raw, "easy")
    case Some(Medium) => SameText(raw, "medium")
    case Some(Hard) => SameText(raw, "hard")
  }

  predicate SaysFlag(raw: string, flag: Option<bool>) {
    match flag
    case None => raw == ""
    case Some(true) => SameText(raw, "y") || SameText(raw, "yes") || SameText(raw, "true") || raw == "1"
    case Some(false) => SameText(raw, "n") || SameText(raw, "no") || SameText(raw, "false") || raw == "0"
  }

  predicate Zeros(s: string) { forall c <- s :: c == '0' }

  function Size(n: int): nat { if n < 0 then -n else n }

  /** A whole number in decimal digits: a minus sign and zeros may stand in front. */
  ghost predicate SaysNumber(raw: string, n: int) {
    exists sign, zeros :: Zeros(zeros) && raw == sign + (zeros + Digits(Size(n)))
      && (if sign == "" then n >= 0 else sign == "-" && n <= 0)
  }

  ghost predicate SaysInteger(raw: string, value: Option<int>) {
    match value
    case None => raw == ""
    case Some(n) => SaysNumber(raw, n)
  }

  /** The option texts a row lists: those filled in, or True and False when a True/False row fills in none. */
  predicate ListsOptions(cells: Cells, kind: QuestionType, texts: seq<string>) {
    if kind == TrueFalse && (forall t <- OptionTexts(cells) :: t == "") then texts == ["True", "False"]
    else
      && |texts| <= 6 && texts == OptionTexts(cells)[..|texts|]
      && (texts != [] ==> texts[|texts| - 1] != "")
      && forall t <- OptionTexts(cells)[|texts|..] :: t == ""
  }

  predicate IsOptionLetter(raw: string) {
    exists k :: 0 <= k < |OPTION_LETTERS| && SameText(raw, [OPTION_LETTERS[k]])
  }

  /** The right option: true or false, a letter, or the first text that reads the same. */
  predicate SaysCorrect(raw: string, texts: seq<string>, kind: QuestionType, at: nat) {
    if kind == TrueFalse && (SameText(raw, "t") || SameText(raw, "true")) then at == 0
    else if kind == TrueFalse && (SameText(raw, "f") || SameText(raw, "false")) then at == 1
    else
      && at < |texts|
      && if IsOptionLetter(raw) then at < |OPTION_LETTERS| && SameText(raw, [OPTION_LETTERS[at]])
         else SameText(texts[at], raw) && forall j :: 0 <= j < at ==> !SameText(texts[j], raw)
  }

  predicate SaysText(raw: string, text: Option<string>) {
    match text
    case None => raw == ""
    case Some(t) => t == raw != ""
  }

  predicate SaysMedia(raw: string, media: Option<CanonicalMedia>) {
    match media
    case None => raw == ""
    case Some(m) => raw != "" && m == CanonicalMedia(Some(raw), None)
  }

  /** What stands at point i of a scale of n points: the labels at the ends, nothing between. */
  function EndLabel(first: string, last: string, n: nat, i: nat): string {
    if i == 0 then first else if i == n - 1 then last else ""
  }

  predicate SaysPoint(cells: Cells, n: nat, i: nat, option: CanonicalOption) {
    && option.caption == Some(NumberText(i + 1)) && option.value == Some(i + 1) && !option.correct
    && option.text == EndLabel(cells.scaleMin, cells.scaleMax, n, i)
    && SaysText(EndLabel(cells.employerMin, cells.employerMax, n, i), option.employerText)
  }

  ghost predicate SaysSize(raw: string, n: int) {
    if raw == "" then n == 5 else SaysNumber(raw, n)
  }

  /** A rating scale: of five points when its size is blank, valued from 1 up. */
  ghost predicate SaysScale(cells: Cells, options: seq<CanonicalOption>) {
    && 2 <= |options| <= 7 && SaysSize(cells.scaleSize, |options|)
    && forall i :: 0 <= i < |options| ==> SaysPoint(cells, |options|, i, options[i])
  }

  /** Option i: its text, and its mark, or its value from 1 up on a scale. */
  predicate SaysChoice(cells: Cells, kind: QuestionType, texts: seq<string>, i: nat, option: CanonicalOption)
    requires i < |texts|
  {
    && option.text == texts[i] != "" && option.employerText == None
    && (kind == ChoiceScale ==>
      option.caption == Some(NumberText(i + 1)) && option.value == Some(i + 1) && !option.correct)
    && (kind != ChoiceScale ==>
      && i < |OPTION_LETTERS| && option.caption == Some([OPTION_LETTERS[i]]) && option.value == None
      && option.correct == SaysCorrect(cells.correct, texts, kind, i))
  }

  predicate SaysChoices(cells: Cells, kind: QuestionType, texts: seq<string>, options: seq<CanonicalOption>) {
    |options| == |texts| && forall i :: 0 <= i < |options| ==> SaysChoice(cells, kind, texts, i, options[i])
  }

  /** Where one option has to be right, the row says which. */
  ghost predicate SaysOne(raw: string, texts: seq<string>, kind: QuestionType) {
    kind != ChoiceScale ==> raw != "" && exists at: nat :: SaysCorrect(raw, texts, kind, at)
  }

  ghost predicate SaysListed(cells: Cells, kind: QuestionType, texts: seq<string>, options: seq<CanonicalOption>) {
    SaysChoices(cells, kind, texts, options) && SaysOne(cells.correct, texts, kind)
  }

  ghost predicate SaysOptions(cells: Cells, kind: QuestionType, options: seq<CanonicalOption>) {
    if kind == RatingScale then SaysScale(cells, options)
    else exists texts :: ListsOptions(cells, kind, texts) && SaysListed(cells, kind, texts, options)
  }

  ghost predicate SaysKeepLast(raw: string, keep: bool) {
    exists flag :: SaysFlag(raw, flag) && keep == (flag == Some(true))
  }

  /** The value the role wants: a whole number or blank, and of no use but on a scale. */
  ghost predicate SaysRoleValue(raw: string, scale: bool, value: Option<int>) {
    exists n :: SaysInteger(raw, n) && value == if scale then n else None
  }

  predicate TextsSaid(cells: Cells, q: CanonicalQuestion) {
    && SaysText(cells.ref, q.ref) && SaysText(cells.section, q.section) && SaysText(cells.instruction, q.instruction)
    && SaysText(cells.context, q.context) && q.stem == cells.stem && SaysMedia(cells.media, q.media)
    && SaysText(cells.rationale, q.rationale) && SaysText(cells.transcript, q.transcript)
    && (if IsScale(q.kind) then SaysText(cells.employerPrompt, q.employerPrompt) else q.employerPrompt == None)
  }

  /** All that a row says of its question. */
  ghost predicate RowSays(cells: Cells, scoring: ScoringMethod, q: CanonicalQuestion) {
    && SaysType(cells.kind, scoring, q.kind) && SaysDifficulty(cells.difficulty, q.difficulty)
    && SaysFlag(cells.shuffleOptions, q.shuffleOptions) && SaysKeepLast(cells.keepLast, q.keepLastOptionFixed)
    && TextsSaid(cells, q) && SaysOptions(cells, q.kind, q.options)
    && SaysRoleValue(cells.employerValue, IsScale(q.kind), q.employerValue)
  }

  // ----- The cells are read as what they say -----------------------------------------------

  lemma FlagRead(raw: string, flag: Option<bool>)
    ensures SaysFlag(raw, flag) <==> ParseBoolean(raw) == Some(flag)
  {
    SameIsLower(raw, "y"); SameIsLower(raw, "yes"); SameIsLower(raw, "true"); SameIsLower(raw, "1");
    SameIsLower(raw, "n"); SameIsLower(raw, "no"); SameIsLower(raw, "false"); SameIsLower(raw, "0");
    assert ToLower("y") == "y" && ToLower("yes") == "yes" && ToLower("true") == "true" && ToLower("1") == "1";
    assert ToLower("n") == "n" && ToLower("no") == "no" && ToLower("false") == "false" && ToLower("0") == "0";
    assert raw == "" ==> ToLower(raw) == "";
    assert |raw| == 1 ==> ToLower(raw)[0] == LowerChar(raw[0]);
  }

  lemma DifficultyRead(raw: string, difficulty: Option<Questions.Difficulty>)
    ensures SaysDifficulty(raw, difficulty) <==> ParseDifficulty(raw) == Some(difficulty)
  {
    SameIsUpper(raw, "easy"); SameIsUpper(raw, "medium"); SameIsUpper(raw, "hard");
    assert ToUpper("easy") == "EASY" && ToUpper("medium") == "MEDIUM" && ToUpper("hard") == "HARD";
  }

  lemma {:induction false} ZerosAddNothing(zeros: string, digits: string)
    requires Zeros(zeros) && IsDigits(digits)
    ensures IsDigits(zeros + digits) && DigitsValue(zeros + digits) == DigitsValue(digits)
    decreases |zeros| + |digits|
  {
    var s, n := zeros + digits, |digits| - 1;
    forall c | c in s ensures IsDigit(c) {}
    if zeros == "" {
      assert s == digits;
    } else if n > 0 {
      assert s[..|s| - 1] == zeros + digits[..n] && digits[0] in digits[..n];
      ZerosAddNothing(zeros, digits[..n]);
    } else {
      var k := |zeros| - 1;
      assert s[..|s| - 1] == zeros == zeros[..k] + [zeros[k]] && zeros[k] in zeros && zeros[k] == '0';
      assert forall c <- zeros[..k] :: c in zeros;
      ZerosAddNothing(zeros[..k], "0");
    }
  }

  lemma DigitAdded(front: string, v: nat, c: char) returns (zeros: string)
    requires Zeros(front) && IsDigit(c)
    ensures Zeros(zeros) && front + Digits(v) + [c] == zeros + Digits(10 * v + DigitValue(c))
  {
    if v == 0 {
      zeros := front + "0";
      assert Digits(v) == "0";
    } else {
      zeros := front;
      Associative(front, Digits(v), [c]);
    }
  }

  lemma {:induction false} DigitsAfterZeros(s: string) returns (zeros: string)
    requires IsDigits(s)
    ensures Zeros(zeros) && s == zeros + Digits(DigitsValue(s))
    decreases |s|
  {
    var n := |s| - 1;
    var front, c := s[..n], s[n];
    assert s == front + [c] && c in s;
    if n == 0 {
      zeros := "";
    } else {
      forall d | d in front ensures IsDigit(d) { assert d in s; }
      zeros := DigitsAfterZeros(front);
      zeros := DigitAdded(zeros, DigitsValue(front), c);
    }
  }

  lemma SignedReads(sign: string, digits: string, n: int)
    requires IsDigits(digits) && DigitsValue(digits) == Size(n)
    requires if sign == "" then n >= 0 else sign == "-" && n <= 0
    ensures WholeNumber(sign + digits) == Some(n)
  {
    var raw := sign + digits;
    if sign == "" {
      assert raw == digits;
    } else {
      assert raw[0] == '-' && raw[1..] == digits && raw[0] in raw && !IsDigit('-');
    }
  }

  lemma NumberParts(raw: string, n: int) returns (sign: string, digits: string)
    requires WholeNumber(raw) == Some(n)
    ensures raw == sign + digits && IsDigits(digits) && DigitsValue(digits) == Size(n)
    ensures if sign == "" then n >= 0 else sign == "-" && n <= 0
  {
    if IsDigits(raw) {
      sign, digits := "", raw;
    } else {
      sign, digits := "-", raw[1..];
    }
  }

  lemma NumberRead(raw: string, n: int)
    ensures SaysNumber(raw, n) <==> WholeNumber(raw) == Some(n)
  {
    if SaysNumber(raw, n) {
      var sign, zeros :| Zeros(zeros) && raw == sign + (zeros + Digits(Size(n)))
        && (if sign == "" then n >= 0 else sign == "-" && n <= 0);
      ZerosAddNothing(zeros, Digits(Size(n)));
      SignedReads(sign, zeros + Digits(Size(n)), n);
    }
    if WholeNumber(raw) == Some(n) {
      var sign, digits := NumberParts(raw, n);
      var zeros := DigitsAfterZeros(digits);
    }
  }

  lemma IntegerRead(raw: string, value: Option<int>)
    ensures SaysInteger(raw, value) <==> ParseInteger(raw) == Some(value)
  {
    if value.Some? {
      NumberRead(raw, value.value);
      assert WholeNumber("") == None;
    }
  }

  // ----- The words of a type ---------------------------------------------------------------

  lemma {:induction false} SkipGap(gap: string, rest: string)
    requires (forall c <- gap :: !IsLetter(c)) && (rest != "" ==> IsLetter(rest[0]))
    ensures SkipOthers(gap + rest) == rest
  {
    if gap == "" {
      assert gap + rest == rest;
    } else {
      assert (gap + rest)[1..] == gap[1..] + rest && gap[0] in gap;
      SkipGap(gap[1..], rest);
    }
  }

  lemma SquashGap(gap: string, rest: string)
    requires gap != "" && (forall c <- gap :: !IsLetter(c)) && (rest != "" ==> IsLetter(rest[0]))
    ensures Squash(gap + rest) == " " + Squash(rest)
  {
    assert (gap + rest)[1..] == gap[1..] + rest && gap[0] in gap;
    SkipGap(gap[1..], rest);
  }

  lemma {:induction false} SquashWord(word: string, rest: string)
    requires forall c <- word :: IsLetter(c)
    ensures Squash(word + rest) == word + Squash(rest)
  {
    if word == "" {
      assert word + rest == rest;
    } else {
      assert (word + rest)[1..] == word[1..] + rest && word[0] in word;
      SquashWord(word[1..], rest);
    }
  }

  lemma LowerLetters(s: string)
    ensures NoLetters(s) ==> forall c <- ToLower(s) :: !IsLetter(c)
    ensures Word(s) ==> ToLower(s) == s
  {
    forall c | NoLetters(s) && c in ToLower(s) ensures !IsLetter(c) {
      var i :| 0 <= i < |s| && ToLower(s)[i] == c;
      assert s[i] in s;
    }
    if Word(s) {
      forall i | 0 <= i < |s| ensures ToLower(s)[i] == s[i] { assert s[i] in s; }
    }
  }

  function Gap(there: bool): string { if there then " " else "" }

  lemma SquashParts(gap: string, word: string, rest: string)
    requires (forall c <- gap :: !IsLetter(c)) && Word(word)
    ensures Squash(gap + (word + rest)) == Gap(gap != "") + (word + Squash(rest))
  {
    assert word[0] in word;
    if gap != "" { SquashGap(gap, word + rest); } else { assert gap + (word + rest) == word + rest; }
    SquashWord(word, rest);
  }

  lemma LowerParts(raw: string, i: nat, j: nat)
    requires i <= j <= |raw|
    ensures ToLower(raw) == ToLower(raw[..i]) + (ToLower(raw[i..j]) + ToLower(raw[j..]))
  {
  }

  /** The first word, with what stands before it as one space. */
  lemma SquashFirst(raw: string, i: nat, j: nat, word: string)
    requires i < j <= |raw| && WordAt(raw, i, j, word)
    ensures Squash(ToLower(raw)) == Gap(i > 0) + (word + Squash(ToLower(raw[j..])))
  {
    SameIsLower(raw[i..j], word);
    LowerLetters(word);
    LowerLetters(raw[..i]);
    LowerParts(raw, i, j);
    SquashParts(ToLower(raw[..i]), word, ToLower(raw[j..]));
  }

  /** A text without letters. */
  lemma SquashNone(raw: string)
    requires NoLetters(raw)
    ensures Squash(ToLower(raw)) == Gap(raw != "")
  {
    LowerLetters(raw);
    if raw != "" {
      SquashGap(ToLower(raw), "");
      assert ToLower(raw) + "" == ToLower(raw);
    }
  }

  function Edges(raw: string, words: string): string
    requires raw != ""
  {
    Gap(!AnyLetter(raw[0])) + (words + Gap(words != "" && !AnyLetter(raw[|raw| - 1])))
  }

  /** A run of letters starts the text exactly when nothing stands before it, and may end it. */
  lemma WordEnds(raw: string, i: nat, j: nat, word: string)
    requires i < j <= |raw| && WordAt(raw, i, j, word)
    ensures AnyLetter(raw[0]) <==> i == 0
    ensures AnyLetter(raw[j - 1])
  {
    var run := raw[i..j];
    assert SameLetter(run[0], word[0]) && word[0] in word;
    assert SameLetter(run[|run| - 1], word[|run| - 1]) && word[|run| - 1] in word;
    if i > 0 { assert raw[..i][0] in raw[..i]; }
  }

  lemma EdgesJoin(raw: string, words: seq<string>, i: nat, j: nat)
    requires |words| > 1 && 0 < j < |raw| && !AnyLetter(raw[j]) && words[1] != ""
    requires i > 0 <==> !AnyLetter(raw[0])
    ensures Gap(i > 0) + (words[0] + Edges(raw[j..], Join(words[1..], " "))) == Edges(raw, Join(words, " "))
  {
    var rest := raw[j..];
    var more, end := Join(words[1..], " "), Gap(!AnyLetter(raw[|raw| - 1]));
    assert rest[0] == raw[j] && rest[|rest| - 1] == raw[|raw| - 1];
    assert words[0] + (" " + (more + end)) == (words[0] + " " + more) + end;
  }

  lemma EdgesLast(raw: string, word: string, i: nat, j: nat)
    requires i < j <= |raw| && WordAt(raw, i, j, word) && NoLetters(raw[j..])
    ensures Squash(ToLower(raw)) == Edges(raw, Join([word], " "))
  {
    SquashFirst(raw, i, j, word);
    WordEnds(raw, i, j, word);
    SquashNone(raw[j..]);
    if j < |raw| { assert raw[j..][|raw[j..]| - 1] in raw[j..]; }
  }

  lemma {:induction false} Squashed(raw: string, words: seq<string>)
    requires raw != "" && Spells(raw, words)
    ensures (forall w <- words :: Word(w)) && Squash(ToLower(raw)) == Edges(raw, Join(words, " "))
    decreases |words|
  {
    if words == [] {
      SquashNone(raw);
      assert raw[0] in raw;
    } else {
      var i, j :| 0 <= i < j <= |raw| && WordAt(raw, i, j, words[0]) && Spells(raw[j..], words[1..]);
      if |words| == 1 {
        assert words == [words[0]];
        EdgesLast(raw, words[0], i, j);
      } else {
        SpeltLetters(raw[j..], words[1..]);
        Squashed(raw[j..], words[1..]);
        SquashFirst(raw, i, j, words[0]);
        WordEnds(raw, i, j, words[0]);
        assert words[1] in words[1..];
        EdgesJoin(raw, words, i, j);
        assert forall w <- words :: w == words[0] || w in words[1..];
      }
    }
  }

  lemma SpeltLetters(raw: string, words: seq<string>)
    requires Spells(raw, words) && words != []
    ensures raw != ""
  {
  }

  lemma {:induction false} JoinedWords(words: seq<string>)
    requires words != [] && forall w <- words :: Word(w)
    ensures var key := Join(words, " "); key != "" && IsLetter(key[0]) && IsLetter(key[|key| - 1])
  {
    var w := words[0];
    assert w in words && w[0] in w && w[|w| - 1] in w;
    if |words| > 1 {
      forall v | v in words[1..] ensures Word(v) { assert v in words; }
      JoinedWords(words[1..]);
    }
  }

  lemma TrimGaps(before: bool, text: string, after: bool)
    requires text != "" ==> !IsSpace(text[0]) && !IsSpace(text[|text| - 1])
    requires text == "" ==> !after
    ensures Trim(Gap(before) + (text + Gap(after))) == text
  {
    var s := Gap(before) + (text + Gap(after));
    SkipsGaps(s, |Gap(before)|, |Gap(before)| + |text|);
    assert s[|Gap(before)|..|Gap(before)| + |text|] == text;
  }

  /** One space at most before `start`, and one at most from `end` on. */
  lemma SkipsGaps(s: string, start: nat, end: nat)
    requires start <= 1 && start <= end <= |s| <= end + 1 && (start == end ==> end == |s|)
    requires forall i :: 0 <= i < start || end <= i < |s| ==> s[i] == ' '
    requires start < end ==> !IsSpace(s[start]) && !IsSpace(s[end - 1])
    ensures Trim(s) == s[start..end]
  {
    assert start == 1 ==> SkipSpace(s, 0) == SkipSpace(s, 1);
    assert SkipSpace(s, 0) == start;
    assert end < |s| ==> SkipSpaceBack(s, start, |s|) == SkipSpaceBack(s, start, end);
  }

  lemma EdgesTrim(raw: string, key: string)
    requires raw != "" && (key != "" ==> IsLetter(key[0]) && IsLetter(key[|key| - 1]))
    ensures Trim(Edges(raw, key)) == key
  {
    TrimGaps(!AnyLetter(raw[0]), key, key != "" && !AnyLetter(raw[|raw| - 1]));
  }

  /** The words in lower case, one space between them. */
  lemma TypeWords(raw: string, words: seq<string>)
    requires raw != "" && Spells(raw, words)
    ensures Trim(Squash(ToLower(raw))) == Join(words, " ")
  {
    Squashed(raw, words);
    if words != [] { JoinedWords(words); }
    EdgesTrim(raw, Join(words, " "));
  }

  lemma {:induction false} FirstLetter(raw: string) returns (i: nat)
    requires !NoLetters(raw)
    ensures i < |raw| && NoLetters(raw[..i]) && AnyLetter(raw[i])
  {
    if AnyLetter(raw[0]) {
      i := 0;
    } else {
      assert forall c <- raw :: c == raw[0] || c in raw[1..];
      i := FirstLetter(raw[1..]);
      assert raw[..i + 1] == [raw[0]] + raw[1..][..i];
      i := i + 1;
    }
  }

  lemma RunEnd(raw: string, i: nat) returns (j: nat)
    requires i < |raw| && AnyLetter(raw[i])
    ensures i < j <= |raw| && (j < |raw| ==> !AnyLetter(raw[j])) && forall k :: i <= k < j ==> AnyLetter(raw[k])
    decreases |raw| - i
  {
    j := i + 1;
    if j < |raw| && AnyLetter(raw[j]) { j := RunEnd(raw, j); }
  }

  /** Every text spells some words. */
  lemma {:induction false} WordsOf(raw: string) returns (words: seq<string>)
    ensures Spells(raw, words)
    decreases |raw|
  {
    if NoLetters(raw) {
      words := [];
    } else {
      var i := FirstLetter(raw);
      var j := RunEnd(raw, i);
      var rest := WordsOf(raw[j..]);
      var word := ToLower(raw[i..j]);
      words := [word] + rest;
      assert words[1..] == rest;
      forall k | 0 <= k < |word| ensures IsLetter(word[k]) && SameLetter(raw[i..j][k], word[k]) {
        assert AnyLetter(raw[i + k]);
      }
      assert WordAt(raw, i, j, words[0]);
    }
  }

  lemma TypeRead(raw: string, scoring: ScoringMethod, kind: QuestionType)
    ensures SaysType(raw, scoring, kind) <==> ParseType(raw, scoring) == Some(kind)
  {
    if raw != "" {
      var words := WordsOf(raw);
      TypeWords(raw, words);
      TypeNamed(Join(words, " "), kind);
      forall other | Spells(raw, other) ensures Join(other, " ") == Join(words, " ") { TypeWords(raw, other); }
    }
  }

  lemma TypeNamed(words: string, kind: QuestionType)
    ensures NamesType(words, kind) <==> TypeOfWords(words) == Some(kind)
  {
    if "rating" <= words { assert words[0] == "rating"[0] == 'r'; }
    if "choice" <= words { assert words[0] == "choice"[0] == 'c'; }
  }

  // ----- The options of a row ----------------------------------------------------------------

  predicate AllTrimmed(cells: Cells) { forall column: Column :: Trimmed(Field(cells, column)) }

  lemma LetterRead(raw: string, k: nat)
    requires k < |OPTION_LETTERS|
    ensures SameText(raw, [OPTION_LETTERS[k]]) <==> |raw| == 1 && ToLower(raw)[0] as int == 'a' as int + k
  {
    SameIsLower(raw, [OPTION_LETTERS[k]]);
    var letter := ToLower([OPTION_LETTERS[k]]);
    assert letter[0] == LowerChar(OPTION_LETTERS[k]);
    assert OPTION_LETTERS[k] as int == 'A' as int + k;
    if |raw| == 1 && ToLower(raw)[0] as int == 'a' as int + k { assert ToLower(raw) == letter; }
  }

  lemma AnyOptionLetter(raw: string)
    ensures IsOptionLetter(raw) <==> |raw| == 1 && 'a' <= ToLower(raw)[0] <= 'f'
  {
    forall k: nat | k < |OPTION_LETTERS|
      ensures SameText(raw, [OPTION_LETTERS[k]]) <==> |raw| == 1 && ToLower(raw)[0] as int == 'a' as int + k
    {
      LetterRead(raw, k);
    }
    if |raw| == 1 && 'a' <= ToLower(raw)[0] <= 'f' {
      var k := ToLower(raw)[0] as int - 'a' as int;
      assert SameText(raw, [OPTION_LETTERS[k]]);
    }
  }

  lemma TruthRead(raw: string)
    ensures SameText(raw, "t") || SameText(raw, "true") <==> ToLower(raw) in {"t", "true"}
    ensures SameText(raw, "f") || SameText(raw, "false") <==> ToLower(raw) in {"f", "false"}
  {
    SameIsLower(raw, "t"); SameIsLower(raw, "true"); SameIsLower(raw, "f"); SameIsLower(raw, "false");
    assert ToLower("t") == "t" && ToLower("true") == "true" && ToLower("f") == "f" && ToLower("false") == "false";
  }

  lemma TextFound(raw: string, options: seq<CanonicalOption>, texts: seq<string>, at: nat)
    requires |texts| == |options| && forall i :: 0 <= i < |options| ==> options[i].text == texts[i]
    ensures (at < |texts| && SameText(texts[at], raw) && forall j :: 0 <= j < at ==> !SameText(texts[j], raw))
      <==> at < |options| && Find((o: CanonicalOption) => ToLower(o.text) == ToLower(raw), options) == at
  {
    var p := (o: CanonicalOption) => ToLower(o.text) == ToLower(raw);
    forall i | 0 <= i < |texts| ensures SameText(texts[i], raw) <==> p(options[i]) { SameIsLower(texts[i], raw); }
    var k := Find(p, options);
    if at < |texts| && SameText(texts[at], raw) && forall j :: 0 <= j < at ==> !SameText(texts[j], raw) {
      assert p(options[at]) && k <= at;
    }
  }

  lemma CorrectRead(raw: string, options: seq<CanonicalOption>, texts: seq<string>, kind: QuestionType, at: nat)
    requires |texts| == |options| && forall i :: 0 <= i < |options| ==> options[i].text == texts[i]
    ensures SaysCorrect(raw, texts, kind, at) <==> CorrectIndex(raw, options, kind) == Some(at)
  {
    TruthRead(raw);
    AnyOptionLetter(raw);
    TextFound(raw, options, texts, at);
    if at < |OPTION_LETTERS| { LetterRead(raw, at); }
  }

  lemma TextSaid(raw: string, text: Option<string>)
    requires Trimmed(raw)
    ensures SaysText(raw, text) <==> BlankToNull(Some(raw)) == text
    ensures SaysText(raw, text) <==> BlankToNull(TextOrNull(raw)) == text
  {
  }

  lemma LabelsTrimmed(cells: Cells, n: nat, i: nat)
    requires AllTrimmed(cells)
    ensures Trimmed(EndLabel(cells.scaleMin, cells.scaleMax, n, i))
    ensures Trimmed(EndLabel(cells.employerMin, cells.employerMax, n, i))
  {
    assert Trimmed(Field(cells, ScaleMin)) && Trimmed(Field(cells, ScaleMax));
    assert Trimmed(Field(cells, EmployerMin)) && Trimmed(Field(cells, EmployerMax));
  }

  lemma PointRead(cells: Cells, n: nat, i: nat, option: CanonicalOption)
    requires AllTrimmed(cells)
    ensures SaysPoint(cells, n, i, option) <==> option == NormalizeOption(true, RatingPoint(n, cells, i), i)
  {
    LabelsTrimmed(cells, n, i);
    TextSaid(EndLabel(cells.employerMin, cells.employerMax, n, i), option.employerText);
  }

  lemma ScaleRead(cells: Cells, options: seq<CanonicalOption>)
    requires AllTrimmed(cells)
    ensures SaysScale(cells, options) <==>
      RatingOutcome(cells).errors == [] && NormalizeOptions(RatingScale, RatingOutcome(cells).options) == options
  {
    var n := |options|;
    SizeRead(cells, n);
    forall i | 0 <= i < n
      ensures SaysPoint(cells, n, i, options[i]) <==> options[i] == NormalizeOption(true, RatingPoint(n, cells, i), i)
    {
      PointRead(cells, n, i, options[i]);
    }
  }

  /** The points are read exactly when the size is one from 2 to 7. */
  lemma SizeRead(cells: Cells, n: nat)
    ensures 2 <= n <= 7 && SaysSize(cells.scaleSize, n) <==>
      RatingOutcome(cells).errors == [] && RatingOutcome(cells).options == RatingPoints(n, cells)
  {
    if cells.scaleSize != "" { NumberRead(cells.scaleSize, n); }
  }

  /** The texts a row lists. */
  function Listed(cells: Cells, kind: QuestionType): seq<string> {
    var texts := OptionTexts(cells);
    var filled := texts[..FilledCount(texts)];
    if kind == TrueFalse && filled == [] then ["True", "False"] else filled
  }

  lemma FilledIs(texts: seq<string>, n: nat)
    ensures n <= |texts| && (n > 0 ==> texts[n - 1] != "") && (forall t <- texts[n..] :: t == "")
      <==> n == FilledCount(texts)
  {
    var k := FilledCount(texts);
    forall i | n <= i < |texts| ensures texts[i] in texts[n..] { assert texts[n..][i - n] == texts[i]; }
  }

  lemma ListsRead(cells: Cells, kind: QuestionType, texts: seq<string>)
    ensures ListsOptions(cells, kind, texts) <==> texts == Listed(cells, kind)
  {
    var all := OptionTexts(cells);
    FilledIs(all, |texts|);
    var n := FilledCount(all);
    if n > 0 { assert all[n - 1] in all; }
    if |texts| == n { assert texts != [] ==> texts == all[..n] ==> texts[n - 1] == all[n - 1]; }
  }

  function PlainOptions(cells: Cells, kind: QuestionType): (r: seq<CanonicalOption>) {
    Map(PlainOption, Listed(cells, kind))
  }

  /** What reading the options finds, by the texts listed. */
  lemma ChoiceOutcomeIs(cells: Cells, kind: QuestionType)
    requires kind != RatingScale
    ensures var body, options := ChoiceOutcome(kind, cells), PlainOptions(cells, kind);
      if "" in Listed(cells, kind) then body.errors != []
      else if kind == ChoiceScale then body.errors == [] && body.options == options
      else
        var at := CorrectIndex(cells.correct, options, kind);
        && (body.errors == [] <==> cells.correct != "" && at.Some?)
        && (body.errors == [] ==> body.options == MarkCorrect(options, at.value))
  {
    var texts := OptionTexts(cells);
    var filled := texts[..FilledCount(texts)];
    assert Map(PlainOption, ["True", "False"]) == TRUE_FALSE_OPTIONS;
  }

  lemma OptionsTrimmed(cells: Cells)
    requires AllTrimmed(cells)
    ensures forall t <- OptionTexts(cells) :: Trimmed(t)
  {
    assert Trimmed(Field(cells, OptionA)) && Trimmed(Field(cells, OptionB)) && Trimmed(Field(cells, OptionC));
    assert Trimmed(Field(cells, OptionD)) && Trimmed(Field(cells, OptionE)) && Trimmed(Field(cells, OptionF));
  }

  lemma ListedTrimmed(cells: Cells, kind: QuestionType)
    requires AllTrimmed(cells)
    ensures forall t <- Listed(cells, kind) :: Trimmed(t)
    ensures |Listed(cells, kind)| <= 6 && (kind == TrueFalse ==> Listed(cells, kind) != [])
  {
    OptionsTrimmed(cells);
  }

  lemma ChoiceRead(cells: Cells, kind: QuestionType, i: nat, option: CanonicalOption)
    requires AllTrimmed(cells) && kind != RatingScale && i < |Listed(cells, kind)|
    requires "" !in Listed(cells, kind)
    ensures var plain := PlainOption(Listed(cells, kind)[i]);
      var read := if kind == ChoiceScale then plain
        else plain.(correct := CorrectIndex(cells.correct, PlainOptions(cells, kind), kind) == Some(i));
      SaysChoice(cells, kind, Listed(cells, kind), i, option) <==> option == NormalizeOption(IsScale(kind), read, i)
  {
    var texts := Listed(cells, kind);
    ListedTrimmed(cells, kind);
    assert texts[i] in texts;
    CorrectRead(cells.correct, PlainOptions(cells, kind), texts, kind, i);
  }

  lemma OptionsListed(cells: Cells, kind: QuestionType, options: seq<CanonicalOption>)
    requires kind != RatingScale
    ensures SaysOptions(cells, kind, options) <==> SaysListed(cells, kind, Listed(cells, kind), options)
  {
    forall other ensures ListsOptions(cells, kind, other) <==> other == Listed(cells, kind) {
      ListsRead(cells, kind, other);
    }
  }

  lemma ChoicesRead(cells: Cells, kind: QuestionType, options: seq<CanonicalOption>)
    requires AllTrimmed(cells) && kind != RatingScale
    ensures SaysOptions(cells, kind, options) <==>
      ChoiceOutcome(kind, cells).errors == [] && NormalizeOptions(kind, ChoiceOutcome(kind, cells).options) == options
  {
    var texts, body := Listed(cells, kind), ChoiceOutcome(kind, cells);
    OptionsListed(cells, kind, options);
    ChoiceOutcomeIs(cells, kind);
    if "" in texts {
      var i :| 0 <= i < |texts| && texts[i] == "";
      assert |options| == |texts| ==> !SaysChoice(cells, kind, texts, i, options[i]);
    } else {
      OneSaid(cells, kind, texts);
      if body.errors == [] { EachRead(cells, kind, options); }
    }
  }

  lemma EachRead(cells: Cells, kind: QuestionType, options: seq<CanonicalOption>)
    requires AllTrimmed(cells) && kind != RatingScale && "" !in Listed(cells, kind)
    requires ChoiceOutcome(kind, cells).errors == []
    ensures SaysChoices(cells, kind, Listed(cells, kind), options)
      <==> NormalizeOptions(kind, ChoiceOutcome(kind, cells).options) == options
  {
    var texts, normal := Listed(cells, kind), NormalizeOptions(kind, ChoiceOutcome(kind, cells).options);
    ListedTrimmed(cells, kind);
    ChoiceOutcomeIs(cells, kind);
    forall i | 0 <= i < |options| && |options| == |texts|
      ensures SaysChoice(cells, kind, texts, i, options[i]) <==> options[i] == normal[i]
    {
      ChoiceRead(cells, kind, i, options[i]);
    }
  }

  lemma OneSaid(cells: Cells, kind: QuestionType, texts: seq<string>)
    requires kind != RatingScale && texts == Listed(cells, kind)
    ensures SaysOne(cells.correct, texts, kind) <==>
      kind == ChoiceScale || (cells.correct != "" && CorrectIndex(cells.correct, PlainOptions(cells, kind), kind).Some?)
  {
    var index := CorrectIndex(cells.correct, PlainOptions(cells, kind), kind);
    forall at: nat ensures SaysCorrect(cells.correct, texts, kind, at) <==> index == Some(at) {
      CorrectRead(cells.correct, PlainOptions(cells, kind), texts, kind, at);
    }
    if index.Some? { assert SaysCorrect(cells.correct, texts, kind, index.value); }
  }

  lemma OptionsRead(cells: Cells, kind: QuestionType, options: seq<CanonicalOption>)
    requires AllTrimmed(cells)
    ensures SaysOptions(cells, kind, options) <==>
      OptionsOutcome(kind, cells).errors == [] && NormalizeOptions(kind, OptionsOutcome(kind, cells).options) == options
  {
    if kind == RatingScale { ScaleRead(cells, options); } else { ChoicesRead(cells, kind, options); }
  }

  // ----- Main results ------------------------------------------------------------------------

  lemma TextsTrimmed(cells: Cells)
    requires AllTrimmed(cells)
    ensures Trimmed(cells.ref) && Trimmed(cells.section) && Trimmed(cells.instruction) && Trimmed(cells.context)
    ensures Trimmed(cells.stem) && Trimmed(cells.media) && Trimmed(cells.rationale) && Trimmed(cells.transcript)
    ensures Trimmed(cells.employerPrompt)
  {
    assert Trimmed(Field(cells, Ref)) && Trimmed(Field(cells, Section)) && Trimmed(Field(cells, Instruction));
    assert Trimmed(Field(cells, Context)) && Trimmed(Field(cells, Stem)) && Trimmed(Field(cells, Media));
    assert Trimmed(Field(cells, Rationale)) && Trimmed(Field(cells, Transcript));
    assert Trimmed(Field(cells, EmployerPrompt));
  }

  /** The texts of a question as normalizing the cells leaves them. */
  predicate TextsRead(cells: Cells, q: CanonicalQuestion) {
    && q.ref == BlankToNull(Some(cells.ref)) && q.section == BlankToNull(Some(cells.section))
    && q.instruction == BlankToNull(Some(cells.instruction)) && q.context == BlankToNull(Some(cells.context))
    && q.stem == cells.stem && q.media == NormalizeMedia(Some(CanonicalMedia(Some(cells.media), None)))
    && q.rationale == BlankToNull(Some(cells.rationale)) && q.transcript == BlankToNull(Some(cells.transcript))
    && q.employerPrompt == if IsScale(q.kind) then BlankToNull(Some(cells.employerPrompt)) else None
  }

  lemma TextsAgree(cells: Cells, q: CanonicalQuestion)
    requires AllTrimmed(cells)
    ensures TextsSaid(cells, q) <==> TextsRead(cells, q)
  {
    TextsTrimmed(cells);
    TextSaid(cells.ref, q.ref); TextSaid(cells.section, q.section); TextSaid(cells.instruction, q.instruction);
    TextSaid(cells.context, q.context); TextSaid(cells.rationale, q.rationale);
    TextSaid(cells.transcript, q.transcript); TextSaid(cells.employerPrompt, q.employerPrompt);
    MediaSaid(cells.media, q.media);
  }

  predicate FlagsRead(flags: Flags, q: CanonicalQuestion) {
    && flags.Valid() && q.kind == flags.kind.value && q.difficulty == flags.difficulty.value
    && q.shuffleOptions == flags.shuffle.value && q.keepLastOptionFixed == (flags.keepLast.value == Some(true))
    && q.employerValue == if IsScale(q.kind) then flags.employerValue.value else None
  }

  lemma FlagsSaid(cells: Cells, scoring: ScoringMethod, q: CanonicalQuestion)
    ensures FlagsRead(ParseFlags(cells, scoring), q) <==>
      && SaysType(cells.kind, scoring, q.kind) && SaysDifficulty(cells.difficulty, q.difficulty)
      && SaysFlag(cells.shuffleOptions, q.shuffleOptions) && SaysKeepLast(cells.keepLast, q.keepLastOptionFixed)
      && SaysRoleValue(cells.employerValue, IsScale(q.kind), q.employerValue)
  {
    TypeRead(cells.kind, scoring, q.kind);
    DifficultyRead(cells.difficulty, q.difficulty);
    FlagRead(cells.shuffleOptions, q.shuffleOptions);
    KeepLastSaid(cells.keepLast, q.keepLastOptionFixed);
    RoleValueSaid(cells.employerValue, IsScale(q.kind), q.employerValue);
  }

  lemma KeepLastSaid(raw: string, keep: bool)
    ensures SaysKeepLast(raw, keep) <==> ParseBoolean(raw).Some? && keep == (ParseBoolean(raw).value == Some(true))
  {
    forall flag ensures SaysFlag(raw, flag) <==> ParseBoolean(raw) == Some(flag) { FlagRead(raw, flag); }
    if ParseBoolean(raw).Some? { assert SaysFlag(raw, ParseBoolean(raw).value); }
  }

  lemma RoleValueSaid(raw: string, scale: bool, value: Option<int>)
    ensures SaysRoleValue(raw, scale, value)
      <==> ParseInteger(raw).Some? && value == if scale then ParseInteger(raw).value else None
  {
    forall n ensures SaysInteger(raw, n) <==> ParseInteger(raw) == Some(n) { IntegerRead(raw, n); }
    if ParseInteger(raw).Some? { assert SaysInteger(raw, ParseInteger(raw).value); }
  }

  lemma MediaSaid(raw: string, media: Option<CanonicalMedia>)
    requires Trimmed(raw)
    ensures SaysMedia(raw, media) <==> media == NormalizeMedia(Some(CanonicalMedia(Some(raw), None)))
  {
  }

  lemma SaidIsRead(cells: Cells, scoring: ScoringMethod, q: CanonicalQuestion)
    requires AllTrimmed(cells)
    ensures RowSays(cells, scoring, q) <==>
      && FlagsRead(ParseFlags(cells, scoring), q) && TextsRead(cells, q)
      && OptionsOutcome(q.kind, cells).errors == []
      && NormalizeOptions(q.kind, OptionsOutcome(q.kind, cells).options) == q.options
  {
    FlagsSaid(cells, scoring, q);
    TextsAgree(cells, q);
    OptionsRead(cells, q.kind, q.options);
  }

  lemma NormalizedIs(cells: Cells, flags: Flags, options: seq<CanonicalOption>, q: CanonicalQuestion)
    requires Trim(cells.stem) == cells.stem && flags.Valid()
    ensures Normalize(RawQuestion(cells, flags, options)) == q
      <==> FlagsRead(flags, q) && TextsRead(cells, q) && NormalizeOptions(q.kind, options) == q.options
  {
    var raw := RawQuestion(cells, flags, options);
    assert raw.kind == flags.kind.value && raw.stem == cells.stem && raw.options == options;
    NormalIs(raw, q);
  }

  lemma NormalIs(raw: CanonicalQuestion, q: CanonicalQuestion)
    ensures var scale := IsScale(raw.kind);
      Normalize(raw) == q <==>
        && q.ref == BlankToNull(raw.ref) && q.section == BlankToNull(raw.section) && q.kind == raw.kind
        && q.difficulty == raw.difficulty && q.instruction == BlankToNull(raw.instruction)
        && q.context == BlankToNull(raw.context) && q.stem == Trim(raw.stem) && q.media == NormalizeMedia(raw.media)
        && q.options == NormalizeOptions(raw.kind, raw.options) && q.rationale == BlankToNull(raw.rationale)
        && q.transcript == BlankToNull(raw.transcript) && q.shuffleOptions == raw.shuffleOptions
        && q.keepLastOptionFixed == raw.keepLastOptionFixed
        && q.employerPrompt == (if scale then BlankToNull(raw.employerPrompt) else None)
        && q.employerValue == if scale then raw.employerValue else None
  {
  }

  lemma ParsedIs(cells: Cells, scoring: ScoringMethod, q: CanonicalQuestion)
    ensures var flags := ParseFlags(cells, scoring);
      ParseRow(cells, scoring).question == Some(q) <==>
        && flags.Valid() && cells.stem != "" && OptionsOutcome(flags.kind.value, cells).errors == []
        && Normalize(RawQuestion(cells, flags, OptionsOutcome(flags.kind.value, cells).options)) == q
        && QuestionProblems(q, scoring) == []
  {
    var errors := CellErrors(ParseFlags(cells, scoring), cells.stem);
    assert errors + [] == errors;
  }

  /**
   * A row is read as a question exactly when its cells say that question and
   * it is one that can be sent; a row that says none is refused.
   */
  lemma RowReads(cells: Cells, scoring: ScoringMethod, q: CanonicalQuestion)
    requires AllTrimmed(cells)
    ensures ParseRow(cells, scoring).question == Some(q) <==> RowSays(cells, scoring, q) && Ready(q, scoring)
  {
    var flags := ParseFlags(cells, scoring);
    ParsedIs(cells, scoring, q);
    SaidIsRead(cells, scoring, q);
    ProblemFree(q, scoring);
    TextsTrimmed(cells);
    if flags.Valid() { NormalizedIs(cells, flags, OptionsOutcome(flags.kind.value, cells).options, q); }
  }

  lemma BuiltField(text: Column -> string, column: Column)
    ensures Field(BuildCells(text), column) == text(column)
  {
  }

  function CellUnder(record: seq<string>, columns: map<Column, nat>, column: Column): string {
    if column in columns && columns[column] < |record| then Trim(record[columns[column]]) else ""
  }

  /** Every cell the reader takes from a record is the one under its column, trimmed, or blank when there is none. */
  lemma CellsTaken(record: seq<string>, columns: map<Column, nat>)
    ensures AllTrimmed(RecordCells(record, columns))
    ensures forall column :: Field(RecordCells(record, columns), column) == CellUnder(record, columns, column)
  {
    var text := column => CellText(record, columns, column);
    forall column: Column
      ensures Field(RecordCells(record, columns), column) == CellText(record, columns, column)
    {
      BuiltField(text, column);
    }
  }

  /** Some cell of the record holds more than white space. */
  predicate HoldsText(record: seq<string>) { exists cell <- record :: !AllSpace(cell) }

  lemma HoldsOrBlank(record: seq<string>)
    ensures HoldsText(record) <==> !BlankRecord(record)
  {
    forall cell ensures Trim(cell) == "" <==> AllSpace(cell) { TrimBlank(cell); }
  }

  lemma RowAdded(parsed: ParsedCsv, at: nat, result: RowResult, r: QuestionRow)
    ensures r in AddRow(parsed, at, result).rows
      <==> r in parsed.rows || (r.row == at && result.question == Some(r.question))
  {
  }

  /** Record `row` of the file, the header being the first, is in the result just when it holds text and reads. */
  lemma {:induction false} DataRows(
    data: seq<seq<string>>, n: nat, read: seq<string> -> RowResult, r: QuestionRow)
    requires n <= |data|
    ensures r in ReadData(data, n, read).rows
      <==> 2 <= r.row < n + 2 && !BlankRecord(data[r.row - 2]) && read(data[r.row - 2]).question == Some(r.question)
  {
    if n > 0 {
      DataRows(data, n - 1, read, r);
      RowAdded(ReadData(data, n - 1, read), n + 1, read(data[n - 1]), r);
    }
  }

  /** A note as it is reported on a row. */
  function IssueOf(row: nat, note: Note): Issue {
    CsvIssue(Some(row), if note.column.Some? then Some(Name(note.column.value)) else None, note.message)
  }

  lemma IssueAdded(notes: seq<Note>, at: nat, row: nat, note: Note)
    ensures IssueOf(row, note) in OnRow(at, notes) <==> row == at && note in notes
  {
    var issues := OnRow(at, notes);
    forall i | 0 <= i < |notes| ensures issues[i] == IssueOf(row, note) <==> row == at && note == notes[i] {
      if note.column.Some? && notes[i].column.Some? && Name(note.column.value) == Name(notes[i].column.value) {
        NamesDistinct(note.column.value, notes[i].column.value);
      }
    }
    if row == at && note in notes {
      var i :| 0 <= i < |notes| && notes[i] == note;
      assert issues[i] == IssueOf(row, note);
    }
  }

  /** And what is said of it is reported under its number. */
  lemma {:induction false} DataIssues(
    data: seq<seq<string>>, n: nat, read: seq<string> -> RowResult, row: nat, note: Note)
    requires n <= |data|
    ensures var parsed, there := ReadData(data, n, read), 2 <= row < n + 2 && !BlankRecord(data[row - 2]);
      && (IssueOf(row, note) in parsed.errors <==> there && note in read(data[row - 2]).errors)
      && (IssueOf(row, note) in parsed.warnings <==> there && note in read(data[row - 2]).warnings)
  {
    if n > 0 {
      DataIssues(data, n - 1, read, row, note);
      IssueAdded(read(data[n - 1]).errors, n + 1, row, note);
      IssueAdded(read(data[n - 1]).warnings, n + 1, row, note);
    }
  }

  predicate Climbs(rows: seq<QuestionRow>) { forall i, j :: 0 <= i < j < |rows| ==> rows[i].row < rows[j].row }

  lemma {:induction false} DataClimbs(data: seq<seq<string>>, n: nat, read: seq<string> -> RowResult)
    requires n <= |data|
    ensures var rows := ReadData(data, n, read).rows; Climbs(rows) && forall r <- rows :: r.row < n + 2
  {
    if n > 0 { DataClimbs(data, n - 1, read); }
  }

  /** The header can be used: it names the stem's column, and no column twice. */
  predicate Usable(header: seq<string>) {
    HoldsText(header) && Stem in HeaderOf(header).columns && HeaderOf(header).errors == []
  }

  function HeaderOf(header: seq<string>): Header { ReadHeader(header, |header|) }

  predicate Totals(parsed: ParsedCsv, h: Header, body: ParsedCsv) {
    && parsed.rows == body.rows && parsed.warnings == h.warnings + body.warnings
    && (parsed.errors == body.errors
      || (body.errors == [] && body.rows == [] && parsed.errors == [FileIssue(NoQuestions)]))
  }

  lemma BodyIs(h: Header, data: seq<seq<string>>, reader: map<Column, nat> -> seq<string> -> RowResult)
    ensures var parsed := ReadBody(h, data, reader);
      if Stem !in h.columns || h.errors != [] then parsed.rows == [] && parsed.errors != []
      else Totals(parsed, h, ReadData(data, |data|, reader(h.columns)))
  {
  }

  lemma TableIs(records: seq<seq<string>>, reader: map<Column, nat> -> seq<string> -> RowResult)
    requires records != []
    ensures var parsed, h, data := ReadRecords(records, reader), HeaderOf(records[0]), records[1..];
      if !Usable(records[0]) then parsed.rows == [] && parsed.errors != []
      else Totals(parsed, h, ReadData(data, |data|, reader(h.columns)))
  {
    HoldsOrBlank(records[0]);
    BodyIs(HeaderOf(records[0]), records[1..], reader);
  }

  /** What the file's records give: nothing, unless the header can be used. */
  lemma ReadTextIs(text: string, scoring: ScoringMethod, records: seq<seq<string>>)
    requires Csv.Parse(text) == Csv.Records(records) && records != []
    ensures var parsed, h, data := ReadText(text, scoring), HeaderOf(records[0]), records[1..];
      if !Usable(records[0]) then parsed.rows == [] && parsed.errors != []
      else Totals(parsed, h, ReadData(data, |data|, RowReader(h.columns, scoring)))
  {
    TableIs(records, Reader(scoring));
  }

  lemma RecordSays(record: seq<string>, columns: map<Column, nat>, scoring: ScoringMethod, q: CanonicalQuestion)
    ensures !BlankRecord(record) && RowReader(columns, scoring)(record).question == Some(q)
      <==> HoldsText(record) && RowSays(RecordCells(record, columns), scoring, q) && Ready(q, scoring)
  {
    HoldsOrBlank(record);
    CellsTaken(record, columns);
    RowReads(RecordCells(record, columns), scoring, q);
  }

  lemma DataSays(data: seq<seq<string>>, columns: map<Column, nat>, scoring: ScoringMethod, r: QuestionRow)
    ensures r in ReadData(data, |data|, RowReader(columns, scoring)).rows <==>
      && 2 <= r.row < |data| + 2 && HoldsText(data[r.row - 2])
      && RowSays(RecordCells(data[r.row - 2], columns), scoring, r.question) && Ready(r.question, scoring)
  {
    DataRows(data, |data|, RowReader(columns, scoring), r);
    if 2 <= r.row < |data| + 2 { RecordSays(data[r.row - 2], columns, scoring, r.question); }
  }

  /**
   * A whole file: with a header that can be used, the questions are just those
   * its rows say, each under the row's number and in the order of the file;
   * with any other header there are none.
   */
  lemma FileReads(text: string, scoring: ScoringMethod, records: seq<seq<string>>, r: QuestionRow)
    requires Csv.Parse(text) == Csv.Records(records) && records != []
    ensures Climbs(ReadText(text, scoring).rows)
    ensures r in ReadText(text, scoring).rows <==>
      && Usable(records[0]) && 1 < r.row <= |records| && HoldsText(records[r.row - 1])
      && RowSays(RecordCells(records[r.row - 1], HeaderOf(records[0]).columns), scoring, r.question)
      && Ready(r.question, scoring)
  {
    var columns, data := HeaderOf(records[0]).columns, records[1..];
    ReadTextIs(text, scoring, records);
    DataSays(data, columns, scoring, r);
    DataClimbs(data, |data|, RowReader(columns, scoring));
    assert 1 < r.row <= |records| ==> data[r.row - 2] == records[r.row - 1];
  }

  /** And what is complained of in it is just what is complained of in its rows, under their numbers. */
  lemma FileComplains(text: string, scoring: ScoringMethod, records: seq<seq<string>>, row: nat, note: Note)
    requires Csv.Parse(text) == Csv.Records(records) && records != [] && Usable(records[0])
    ensures IssueOf(row, note) in ReadText(text, scoring).errors <==>
      && 1 < row <= |records| && HoldsText(records[row - 1])
      && note in ParseRow(RecordCells(records[row - 1], HeaderOf(records[0]).columns), scoring).errors
  {
    var columns, data := HeaderOf(records[0]).columns, records[1..];
    ReadTextIs(text, scoring, records);
    DataIssues(data, |data|, RowReader(columns, scoring), row, note);
    if 1 < row <= |records| { HoldsOrBlank(records[row - 1]); }
  }

  // ----- What is complained of ---------------------------------------------------------------

  /** Each cell of its own kind is complained of exactly when it says nothing. */
  lemma CellComplaints(cells: Cells, scoring: ScoringMethod)
    ensures var errors := ParseRow(cells, scoring).errors;
      && (Note(Some(Kind), NotAType) in errors <==> !exists kind :: SaysType(cells.kind, scoring, kind))
      && (Note(Some(Difficulty), BadDifficulty) in errors <==> !exists d :: SaysDifficulty(cells.difficulty, d))
      && (Note(Some(ShuffleOptions), BadFlag) in errors <==> !exists flag :: SaysFlag(cells.shuffleOptions, flag))
      && (Note(Some(KeepLast), BadFlag) in errors <==> !exists flag :: SaysFlag(cells.keepLast, flag))
      && (Note(Some(EmployerValue), BadNumber) in errors <==> !exists n :: SaysInteger(cells.employerValue, n))
      && (Note(Some(Stem), NeedsText) in errors <==> cells.stem == "")
  {
    TypeSaid(cells.kind, scoring);
    DifficultySaid(cells.difficulty);
    FlagSaid(cells.shuffleOptions);
    FlagSaid(cells.keepLast);
    IntegerSaid(cells.employerValue);
    CellNotes(cells, scoring);
  }

  lemma TypeSaid(raw: string, scoring: ScoringMethod)
    ensures (exists kind :: SaysType(raw, scoring, kind)) <==> ParseType(raw, scoring).Some?
  {
    forall kind ensures SaysType(raw, scoring, kind) <==> ParseType(raw, scoring) == Some(kind) {
      TypeRead(raw, scoring, kind);
    }
    if ParseType(raw, scoring).Some? { assert SaysType(raw, scoring, ParseType(raw, scoring).value); }
  }

  lemma DifficultySaid(raw: string)
    ensures (exists d :: SaysDifficulty(raw, d)) <==> ParseDifficulty(raw).Some?
  {
    forall d ensures SaysDifficulty(raw, d) <==> ParseDifficulty(raw) == Some(d) { DifficultyRead(raw, d); }
    if ParseDifficulty(raw).Some? { assert SaysDifficulty(raw, ParseDifficulty(raw).value); }
  }

  lemma FlagSaid(raw: string)
    ensures (exists flag :: SaysFlag(raw, flag)) <==> ParseBoolean(raw).Some?
  {
    forall flag ensures SaysFlag(raw, flag) <==> ParseBoolean(raw) == Some(flag) { FlagRead(raw, flag); }
    if ParseBoolean(raw).Some? { assert SaysFlag(raw, ParseBoolean(raw).value); }
  }

  lemma IntegerSaid(raw: string)
    ensures (exists n :: SaysInteger(raw, n)) <==> ParseInteger(raw).Some?
  {
    forall n ensures SaysInteger(raw, n) <==> ParseInteger(raw) == Some(n) { IntegerRead(raw, n); }
    if ParseInteger(raw).Some? { assert SaysInteger(raw, ParseInteger(raw).value); }
  }

  /** A complaint on a column is one about a cell of its own kind, or one about the options. */
  lemma ErrorsOf(cells: Cells, scoring: ScoringMethod)
    ensures var flags := ParseFlags(cells, scoring);
      var body := if flags.kind.None? then Outcome([], [], []) else OptionsOutcome(flags.kind.value, cells);
      forall column, message :: Note(Some(column), message) in ParseRow(cells, scoring).errors
        <==> Note(Some(column), message) in CellErrors(flags, cells.stem) + body.errors
  {
  }

  predicate OptionMessage(message: Message) { message in {BadScaleSize, OptionGap, NeedsCorrect, UnknownCorrect} }

  lemma GapsOnly(texts: seq<string>)
    requires |texts| <= 6
    ensures forall note <- GapErrors(texts) :: note.message == OptionGap
  {
  }


  lemma OptionNotes(kind: QuestionType, cells: Cells)
    ensures forall note <- OptionsOutcome(kind, cells).errors :: OptionMessage(note.message)
  {
    var texts := OptionTexts(cells);
    GapsOnly(texts[..FilledCount(texts)]);
  }

  lemma NotesOf(flags: Flags, stem: string, note: Note)
    ensures note in CellErrors(flags, stem) <==>
      || (flags.kind.None? && note == Note(Some(Kind), NotAType))
      || (flags.difficulty.None? && note == Note(Some(Difficulty), BadDifficulty))
      || (flags.shuffle.None? && note == Note(Some(ShuffleOptions), BadFlag))
      || (flags.keepLast.None? && note == Note(Some(KeepLast), BadFlag))
      || (flags.employerValue.None? && note == Note(Some(EmployerValue), BadNumber))
      || (stem == "" && note == Note(Some(Stem), NeedsText))
  {
  }

  lemma CellNote(cells: Cells, scoring: ScoringMethod, column: Column, message: Message)
    requires !OptionMessage(message)
    ensures var note := Note(Some(column), message);
      note in ParseRow(cells, scoring).errors <==> note in CellErrors(ParseFlags(cells, scoring), cells.stem)
  {
    var kind := ParseFlags(cells, scoring).kind;
    if kind.Some? { OptionNotes(kind.value, cells); }
    ErrorsOf(cells, scoring);
  }

  lemma OptionNote(cells: Cells, scoring: ScoringMethod, kind: QuestionType, column: Column, message: Message)
    requires OptionMessage(message) && ParseType(cells.kind, scoring) == Some(kind)
    ensures var note := Note(Some(column), message);
      note in ParseRow(cells, scoring).errors <==> note in OptionsOutcome(kind, cells).errors
  {
    NotesOf(ParseFlags(cells, scoring), cells.stem, Note(Some(column), message));
    ErrorsOf(cells, scoring);
  }

  lemma CellNotes(cells: Cells, scoring: ScoringMethod)
    ensures var flags, errors := ParseFlags(cells, scoring), ParseRow(cells, scoring).errors;
      && (Note(Some(Kind), NotAType) in errors <==> flags.kind.None?)
      && (Note(Some(Difficulty), BadDifficulty) in errors <==> flags.difficulty.None?)
      && (Note(Some(ShuffleOptions), BadFlag) in errors <==> flags.shuffle.None?)
      && (Note(Some(KeepLast), BadFlag) in errors <==> flags.keepLast.None?)
      && (Note(Some(EmployerValue), BadNumber) in errors <==> flags.employerValue.None?)
      && (Note(Some(Stem), NeedsText) in errors <==> cells.stem == "")
  {
    var flags := ParseFlags(cells, scoring);
    CellNote(cells, scoring, Kind, NotAType); NotesOf(flags, cells.stem, Note(Some(Kind), NotAType));
    CellNote(cells, scoring, Difficulty, BadDifficulty);
    NotesOf(flags, cells.stem, Note(Some(Difficulty), BadDifficulty));
    CellNote(cells, scoring, ShuffleOptions, BadFlag); NotesOf(flags, cells.stem, Note(Some(ShuffleOptions), BadFlag));
    CellNote(cells, scoring, KeepLast, BadFlag); NotesOf(flags, cells.stem, Note(Some(KeepLast), BadFlag));
    CellNote(cells, scoring, EmployerValue, BadNumber);
    NotesOf(flags, cells.stem, Note(Some(EmployerValue), BadNumber));
    CellNote(cells, scoring, Stem, NeedsText); NotesOf(flags, cells.stem, Note(Some(Stem), NeedsText));
  }

  lemma WarningsOf(cells: Cells, scoring: ScoringMethod, kind: QuestionType)
    requires ParseType(cells.kind, scoring) == Some(kind)
    ensures ParseRow(cells, scoring).warnings == OptionsOutcome(kind, cells).warnings
  {
  }

  /** Of a rating scale's row: its size, when that says none from 2 to 7; option columns it does not use are noted. */
  lemma ScaleComplaints(cells: Cells, scoring: ScoringMethod)
    requires SaysType(cells.kind, scoring, RatingScale)
    ensures var r := ParseRow(cells, scoring);
      && (Note(Some(ScaleSize), BadScaleSize) in r.errors
        <==> !exists n: nat :: 2 <= n <= 7 && SaysSize(cells.scaleSize, n))
      && r.warnings == if forall t <- OptionTexts(cells) :: t == "" then [] else [Note(Some(OptionA), OptionsIgnored)]
  {
    TypeRead(cells.kind, scoring, RatingScale);
    OptionNote(cells, scoring, RatingScale, ScaleSize, BadScaleSize);
    WarningsOf(cells, scoring, RatingScale);
    forall n: nat ensures 2 <= n <= 7 && SaysSize(cells.scaleSize, n) <==>
      RatingOutcome(cells).errors == [] && RatingOutcome(cells).options == RatingPoints(n, cells)
    {
      SizeRead(cells, n);
    }
  }

  /** The first blank option that one with a text follows. */
  predicate FirstGap(texts: seq<string>, k: nat) {
    && k < |texts| && texts[k] == "" && (forall j :: 0 <= j < k ==> texts[j] != "")
    && exists j :: k < j < |texts| && texts[j] != ""
  }

  lemma OptionColumn(k: nat)
    requires k < 6
    ensures Index(OPTION_COLUMNS[k]) == 8 + k
  {
  }

  lemma GapFound(texts: seq<string>, k: nat)
    ensures var filled := texts[..FilledCount(texts)];
      k < |filled| && Find((t: string) => t == "", filled) == k <==> FirstGap(texts, k)
  {
    var n := FilledCount(texts);
    if FirstGap(texts, k) {
      var j :| k < j < |texts| && texts[j] != "";
      assert j < n;
    }
  }

  lemma GapRead(texts: seq<string>, k: nat)
    requires |texts| == 6 && k < 6
    ensures Note(Some(OPTION_COLUMNS[k]), OptionGap) in GapErrors(texts[..FilledCount(texts)]) <==> FirstGap(texts, k)
  {
    GapFound(texts, k);
    OptionColumn(k);
    var gap := Find((t: string) => t == "", texts[..FilledCount(texts)]);
    if gap < 6 { OptionColumn(gap); }
  }

  lemma GapNote(cells: Cells, kind: QuestionType, k: nat)
    requires kind != RatingScale && k < 6
    ensures Note(Some(OPTION_COLUMNS[k]), OptionGap) in ChoiceOutcome(kind, cells).errors
      <==> FirstGap(OptionTexts(cells), k)
  {
    GapRead(OptionTexts(cells), k);
  }

  lemma CorrectNotes(cells: Cells, kind: QuestionType)
    requires kind != RatingScale
    ensures var errors := ChoiceOutcome(kind, cells).errors;
      var at := CorrectIndex(cells.correct, PlainOptions(cells, kind), kind);
      && (Note(Some(Correct), NeedsCorrect) in errors <==> kind != ChoiceScale && cells.correct == "")
      && (Note(Some(Correct), UnknownCorrect) in errors <==> kind != ChoiceScale && cells.correct != "" && at.None?)
  {
    var texts := OptionTexts(cells);
    GapsOnly(texts[..FilledCount(texts)]);
    assert Map(PlainOption, ["True", "False"]) == TRUE_FALSE_OPTIONS;
  }

  /** Of a choice row: the first gap among its options, and a right answer that is missing or names no option. */
  lemma ChoiceComplaints(cells: Cells, scoring: ScoringMethod, kind: QuestionType, texts: seq<string>)
    requires SaysType(cells.kind, scoring, kind) && kind != RatingScale && ListsOptions(cells, kind, texts)
    ensures var r := ParseRow(cells, scoring);
      && (forall k: nat :: k < 6 ==>
        (Note(Some(OPTION_COLUMNS[k]), OptionGap) in r.errors <==> FirstGap(OptionTexts(cells), k)))
      && (Note(Some(Correct), NeedsCorrect) in r.errors <==> kind != ChoiceScale && cells.correct == "")
      && (Note(Some(Correct), UnknownCorrect) in r.errors
        <==> kind != ChoiceScale && cells.correct != "" && !SaysOne(cells.correct, texts, kind))
      && r.warnings == if kind == ChoiceScale && cells.correct != "" then [Note(Some(Correct), CorrectIgnored)] else []
  {
    TypeRead(cells.kind, scoring, kind);
    ListsRead(cells, kind, texts);
    OneSaid(cells, kind, texts);
    CorrectNotes(cells, kind);
    OptionNote(cells, scoring, kind, Correct, NeedsCorrect);
    OptionNote(cells, scoring, kind, Correct, UnknownCorrect);
    WarningsOf(cells, scoring, kind);
    forall k: nat | k < 6
      ensures Note(Some(OPTION_COLUMNS[k]), OptionGap) in ParseRow(cells, scoring).errors
        <==> FirstGap(OptionTexts(cells), k)
    {
      OptionNote(cells, scoring, kind, OPTION_COLUMNS[k], OptionGap);
      GapNote(cells, kind, k);
    }
  }
}
