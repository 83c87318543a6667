/** The string operations the source takes from JavaScript. */
module Text {
  import opened Basics

  const BOM: char := '\U{FEFF}'

  /** What `String.prototype.trim` removes: white space and line terminators. */
  predicate IsSpace(c: char) {
    || '\t' <= c <= '\r'
    || c == ' '
    || c == '\U{00A0}'
    || c == '\U{1680}'
    || '\U{2000}' <= c <= '\U{200A}'
    || c == '\U{2028}'
    || c == '\U{2029}'
    || c == '\U{202F}'
    || c == '\U{205F}'
    || c == '\U{3000}'
    || c == BOM
  }

  predicate Trimmed(s: string) {
    s == [] || (!IsSpace(s[0]) && !IsSpace(s[|s| - 1]))
  }

  /** The first index at or after `i` that holds no white space. */
  function SkipSpace(s: string, i: nat): (k: nat)
    requires i <= |s|
    ensures i <= k <= |s| && (k < |s| ==> !IsSpace(s[k]))
    ensures !(i < |s| && IsSpace(s[i])) ==> k == i
    decreases |s| - i
  {
    if i < |s| && IsSpace(s[i]) then SkipSpace(s, i + 1) else i
  }

  /** The end of the text before `j`, without the white space that closes it. */
  function SkipSpaceBack(s: string, i: nat, j: nat): (k: nat)
    requires i <= j <= |s|
    ensures i <= k <= j && (i < k ==> !IsSpace(s[k - 1]))
    ensures !(i < j && IsSpace(s[j - 1])) ==> k == j
    decreases j
  {
    if i < j && IsSpace(s[j - 1]) then SkipSpaceBack(s, i, j - 1) else j
  }

  /** `s.trim()`. */
  function Trim(s: string): (r: string)
    ensures Trimmed(r)
    ensures r == s <==> Trimmed(s)
  {
    var start := SkipSpace(s, 0);
    s[start..SkipSpaceBack(s, start, |s|)]
  }

  predicate AllSpace(s: string) { forall c <- s :: IsSpace(c) }

  lemma {:induction false} SkippedSpace(s: string, i: nat)
    requires i <= |s|
    ensures AllSpace(s[i..SkipSpace(s, i)])
    decreases |s| - i
  {
    var k := SkipSpace(s, i);
    if i < k {
      SkippedSpace(s, i + 1);
      assert s[i..k] == [s[i]] + s[i + 1..k];
    }
  }

  lemma {:induction false} SkippedSpaceBack(s: string, i: nat, j: nat)
    requires i <= j <= |s|
    ensures AllSpace(s[SkipSpaceBack(s, i, j)..j])
    decreases j
  {
    var k := SkipSpaceBack(s, i, j);
    if k < j {
      SkippedSpaceBack(s, i, j - 1);
      assert s[k..j] == s[k..j - 1] + [s[j - 1]];
    }
  }

  /** Only white space goes, and only at the ends. */
  lemma TrimParts(s: string) returns (before: string, after: string)
    ensures s == before + (Trim(s) + after) && AllSpace(before) && AllSpace(after)
  {
    var start := SkipSpace(s, 0);
    var end := SkipSpaceBack(s, start, |s|);
    before, after := s[..start], s[end..];
    SkippedSpace(s, 0);
    SkippedSpaceBack(s, start, |s|);
    assert s[0..start] == before && s[end..|s|] == after && Trim(s) == s[start..end];
    InThree(s, start, end);
  }

  lemma InThree(s: string, i: nat, j: nat)
    requires i <= j <= |s|
    ensures s == s[..i] + (s[i..j] + s[j..])
  {
  }

  /** Text of white space alone is blank, and no other. */
  lemma TrimBlank(s: string)
    ensures Trim(s) == "" <==> AllSpace(s)
  {
    var before, after := TrimParts(s);
    if Trim(s) != "" {
      assert s[|before|] == Trim(s)[0];
    }
  }

  function LowerChar(c: char): char {
    if 'A' <= c <= 'Z' then ((c as int) + 32) as char else c
  }

  function UpperChar(c: char): char {
    if 'a' <= c <= 'z' then ((c as int) - 32) as char else c
  }

  /** Lower case, for the letters A to Z. */
  function ToLower(s: string): (r: string)
    ensures |r| == |s|
  {
    Map(LowerChar, s)
  }

  /** Upper case, for the letters a to z. */
  function ToUpper(s: string): (r: string)
    ensures |r| == |s|
  {
    Map(UpperChar, s)
  }

  /** `array.join(separator)`. */
  function Join(parts: seq<string>, separator: string): string {
    if parts == [] then []
    else if |parts| == 1 then parts[0]
    else parts[0] + separator + Join(parts[1..], separator)
  }

  predicate IsDigit(c: char) { '0' <= c <= '9' }

  /** `/^\d+$/`. */
  predicate IsDigits(s: string) {
    s != [] && forall c :: c in s ==> IsDigit(c)
  }

  function DigitValue(c: char): (d: nat)
    requires IsDigit(c)
    ensures d <= 9
  {
    c as int - '0' as int
  }

  function Digit(d: nat): (c: char)
    requires d <= 9
    ensures IsDigit(c) && DigitValue(c) == d
  {
    (d + '0' as int) as char
  }

  /** `Number(s)` on a string of digits. */
  function DigitsValue(s: string): nat
    requires IsDigits(s)
  {
    if |s| == 1 then DigitValue(s[0])
    else 10 * DigitsValue(s[..|s| - 1]) + DigitValue(s[|s| - 1])
  }

  /** The decimal digits of n, without leading zeros. */
  function Digits(n: nat): (s: string)
    ensures IsDigits(s)
    ensures DigitsValue(s) == n
  {
    if n < 10 then [Digit(n)] else Digits(n / 10) + [Digit(n % 10)]
  }

  /** `String(n)` on a whole number. */
  function NumberText(n: int): string {
    if n < 0 then "-" + Digits(-n) else Digits(n)
  }

  /** `/^-?\d+$/`, with its value: what `parseInteger` accepts. */
  function WholeNumber(s: string): Option<int> {
    if IsDigits(s) then Some(DigitsValue(s))
    else if s != [] && s[0] == '-' && IsDigits(s[1..]) then Some(-(DigitsValue(s[1..]) as int))
    else None
  }

  /** A whole number's text has no edge space and reads back as the number. */
  lemma NumberTextReadsBack(n: int)
    ensures Trimmed(NumberText(n)) && NumberText(n) != ""
    ensures WholeNumber(NumberText(n)) == Some(n)
  {
    if n < 0 {
      var d := Digits(-n);
      var s := NumberText(n);
      assert s[0] == '-' && s[1..] == d;
      assert '-' in s && !IsDigit('-');
      assert s[|s| - 1] == d[|d| - 1] && d[|d| - 1] in d;
    } else {
      var d := Digits(n);
      assert d[0] in d && d[|d| - 1] in d;
    }
  }
}
