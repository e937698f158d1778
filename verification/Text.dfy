/** ASCII case folding, trimming, substring search and decimal numerals. */
module Text {
  import opened Outcomes

  // ----- case and blanks -----

  function LowerChar(c: char): char {
    if 'A' <= c <= 'Z' then (c as int + 32) as char else c
  }

  /** `toLowerCase` on ASCII text. */
  function Lower(s: string): (r: string)
    ensures |r| == |s|
    ensures forall i :: 0 <= i < |s| ==> r[i] == LowerChar(s[i])
  {
    seq(|s|, i requires 0 <= i < |s| => LowerChar(s[i]))
  }

  /** What `trim` removes: white space and line ends, Unicode ones included. */
  predicate Blank(c: char) {
    || '\U{0009}' <= c <= '\U{000D}' || c == ' ' || c == '\U{00A0}' || c == '\U{1680}'
    || '\U{2000}' <= c <= '\U{200A}' || c == '\U{2028}' || c == '\U{2029}'
    || c == '\U{202F}' || c == '\U{205F}' || c == '\U{3000}' || c == '\U{FEFF}'
  }

  /** `trim`: blanks at either end removed. */
  function Trim(s: string): (r: string)
    ensures |r| <= |s| && (|r| == |s| ==> r == s)
    ensures r == s <==> s == "" || (!Blank(s[0]) && !Blank(s[|s| - 1]))
  {
    if s == "" then ""
    else if Blank(s[0]) then Trim(s[1..])
    else if Blank(s[|s| - 1]) then Trim(s[..|s| - 1])
    else s
  }

  ghost predicate AllBlank(s: string) {
    forall i :: 0 <= i < |s| ==> Blank(s[i])
  }

  lemma BlankToo(a: string, b: string)
    requires AllBlank(a) && AllBlank(b)
    ensures AllBlank(a + b)
  {
    hide Blank;
  }

  /** What is trimmed off is blank, and what is left does not begin or end with a blank. */
  lemma {:induction false} TrimExactly(s: string) returns (before: string, after: string)
    ensures s == before + Trim(s) + after && AllBlank(before) && AllBlank(after)
    ensures Trim(s) != "" ==> !Blank(Trim(s)[0]) && !Blank(Trim(s)[|Trim(s)| - 1])
    decreases |s|
  {
    before, after := "", "";
    if s != "" {
      var n := |s| - 1;
      if Blank(s[0]) {
        before, after := TrimExactly(s[1..]);
        assert Trim(s) == Trim(s[1..]);
        hide *;
        assert s == [s[0]] + s[1..] == ([s[0]] + before) + Trim(s) + after;
        BlankToo([s[0]], before);
        before := [s[0]] + before;
      } else if Blank(s[n]) {
        before, after := TrimExactly(s[..n]);
        assert Trim(s) == Trim(s[..n]);
        hide *;
        assert s == s[..n] + [s[n]] == before + Trim(s) + (after + [s[n]]);
        BlankToo(after, [s[n]]);
        after := after + [s[n]];
      }
    }
  }

  /** Lower-casing and trimming commute, so a trimmed address is judged by its ends alone. */
  lemma TrimmedLowerMatches(s: string)
    ensures Lower(Trim(s)) == Lower(s) <==> Trim(s) == s
  {
    assert |Lower(s)| == |s| && |Lower(Trim(s))| == |Trim(s)|;
  }

  // ----- substrings -----

  predicate At(text: string, word: string, i: int) {
    0 <= i <= |text| - |word| && text[i..i + |word|] == word
  }

  /** `text.includes(word)`. */
  predicate Includes(text: string, word: string) {
    exists i | 0 <= i <= |text| :: At(text, word, i)
  }

  lemma IncludesTransitive(text: string, mid: string, word: string)
    requires Includes(text, mid) && Includes(mid, word)
    ensures Includes(text, word)
  {
    var i :| 0 <= i <= |text| && At(text, mid, i);
    var j :| 0 <= j <= |mid| && At(mid, word, j);
    forall k | 0 <= k < |word| ensures text[i + j..i + j + |word|][k] == word[k] {
      assert word[k] == mid[j..j + |word|][k] == mid[j + k];
      assert mid[j + k] == text[i..i + |mid|][j + k];
    }
    assert At(text, word, i + j);
  }

  /** Equal but for the case of an ASCII letter. */
  predicate SameLetter(a: char, b: char) {
    || a == b
    || ('A' <= a <= 'Z' && b as int == a as int + 32)
    || ('A' <= b <= 'Z' && a as int == b as int + 32)
  }

  predicate SpelledAt(text: string, word: string, i: int) {
    0 <= i <= |text| - |word| && forall k | 0 <= k < |word| :: SameLetter(text[i + k], word[k])
  }

  /** The word stands in the text, in whatever case. */
  predicate Mentions(text: string, word: string) {
    exists i | 0 <= i <= |text| :: SpelledAt(text, word, i)
  }

  lemma SpelledExactly(text: string, word: string, i: int)
    ensures At(Lower(text), Lower(word), i) <==> SpelledAt(text, word, i)
  {
    var t, w := Lower(text), Lower(word);
    if 0 <= i <= |text| - |word| {
      if At(t, w, i) {
        forall k | 0 <= k < |word| ensures SameLetter(text[i + k], word[k]) {
          assert t[i..i + |w|][k] == w[k];
        }
      }
      if SpelledAt(text, word, i) {
        forall k | 0 <= k < |w| ensures t[i..i + |w|][k] == w[k] {
          assert SameLetter(text[i + k], word[k]);
        }
      }
    }
  }

  lemma MentionsExactly(text: string, word: string)
    ensures Includes(Lower(text), Lower(word)) <==> Mentions(text, word)
  {
    forall i ensures At(Lower(text), Lower(word), i) <==> SpelledAt(text, word, i) {
      SpelledExactly(text, word, i);
    }
    hide At;
    hide SpelledAt;
  }

  // ----- numerals -----

  predicate IsDigit(c: char) {
    '0' <= c <= '9'
  }

  predicate AllDigits(s: string) {
    forall i :: 0 <= i < |s| ==> IsDigit(s[i])
  }

  function DigitChar(d: nat): (c: char)
    requires d < 10
    ensures IsDigit(c)
  {
    ('0' as int + d) as char
  }

  function DigitValue(c: char): (d: nat)
    requires IsDigit(c)
    ensures d < 10 && DigitChar(d) == c
  {
    c as int - '0' as int
  }

  /** The number a string of digits denotes. */
  function NatOf(s: string): nat
    requires AllDigits(s)
  {
    if s == "" then 0 else 10 * NatOf(s[..|s| - 1]) + DigitValue(s[|s| - 1])
  }

  /** The decimal numeral of `n`, without leading zeros. */
  function Digits(n: nat): (s: string)
    ensures s != "" && AllDigits(s)
    ensures NatOf(s) == n
    ensures s[0] == '0' ==> s == "0"
  {
    if n < 10 then
      assert [DigitChar(n)][..0] == "";
      [DigitChar(n)]
    else
      var high := Digits(n / 10);
      assert (high + [DigitChar(n % 10)])[..|high|] == high;
      high + [DigitChar(n % 10)]
  }

  lemma DigitsInjective(m: nat, n: nat)
    requires Digits(m) == Digits(n)
    ensures m == n
  {
    assert NatOf(Digits(m)) == NatOf(Digits(n));
  }

  function Pow10(n: nat): (p: nat)
    ensures p >= 1
  {
    if n == 0 then 1 else 10 * Pow10(n - 1)
  }

  /** The place of the first '.', or the length of `s` when there is none. */
  function DotAt(s: string): (i: nat)
    ensures i <= |s| && '.' !in s[..i]
    ensures i < |s| ==> s[i] == '.'
  {
    if s == "" || s[0] == '.' then 0
    else
      var i := DotAt(s[1..]);
      assert s[..i + 1] == [s[0]] + s[1..][..i];
      i + 1
  }

  lemma DotAtIsFirst(s: string, i: nat)
    requires i <= |s| && '.' !in s[..i] && (i < |s| ==> s[i] == '.')
    ensures DotAt(s) == i
  {
  }

  /** The number with whole part `n` and a fraction of `f` parts in `scale`. */
  function Decimal(n: nat, f: nat, scale: nat): real
    requires scale >= 1
  {
    n as real + f as real / scale as real
  }

  /** A plain decimal read as an exact number; anything else is not a number. */
  function ParseDecimal(s: string): Option<real> {
    var dot := DotAt(s);
    var whole := s[..dot];
    var fraction := if dot < |s| then s[dot + 1..] else "";
    if AllDigits(whole) && AllDigits(fraction) && (whole != "" || fraction != "") then
      Some(Decimal(NatOf(whole), NatOf(fraction), Pow10(|fraction|)))
    else
      None
  }

  lemma ReadParts(s: string, whole: string, fraction: string)
    requires AllDigits(whole) && s == whole + ['.'] + fraction
    ensures DotAt(s) == |whole| && s[..|whole|] == whole && s[|whole| + 1..] == fraction
  {
    DotAtIsFirst(s, |whole|);
  }

  lemma ReadDecimal(whole: string, fraction: string)
    requires AllDigits(whole) && AllDigits(fraction) && whole + fraction != ""
    ensures ParseDecimal(whole + ['.'] + fraction)
         == Some(Decimal(NatOf(whole), NatOf(fraction), Pow10(|fraction|)))
  {
    var s := whole + ['.'] + fraction;
    ReadParts(s, whole, fraction);
    ParseAtDot(s);
    hide *;
  }

  /** What `ParseDecimal` makes of the parts around the point. */
  lemma ParseAtDot(s: string)
    requires DotAt(s) < |s| && |s| > 1 && AllDigits(s[..DotAt(s)]) && AllDigits(s[DotAt(s) + 1..])
    ensures var d := DotAt(s);
            ParseDecimal(s) == Some(Decimal(NatOf(s[..d]), NatOf(s[d + 1..]), Pow10(|s[d + 1..]|)))
  {
    hide DotAt;
    hide NatOf;
    hide Pow10;
    hide AllDigits;
    hide Decimal;
  }

  lemma NatOfAppend(s: string, c: char)
    requires AllDigits(s) && IsDigit(c)
    ensures NatOf(s + [c]) == 10 * NatOf(s) + DigitValue(c)
  {
    assert (s + [c])[..|s|] == s;
  }

  lemma TenTimes(x: nat, p: nat)
    ensures 10 * (x * p) == x * (10 * p)
  {
  }

  lemma {:induction false} NatOfConcat(a: string, b: string)
    requires AllDigits(a) && AllDigits(b)
    ensures NatOf(a + b) == NatOf(a) * Pow10(|b|) + NatOf(b)
  {
    if b == "" {
      assert a + b == a;
    } else {
      var n := |b| - 1;
      assert a + b == (a + b[..n]) + [b[n]] && b == b[..n] + [b[n]];
      NatOfConcat(a, b[..n]);
      NatOfAppend(a + b[..n], b[n]);
      NatOfAppend(b[..n], b[n]);
      assert Pow10(|b|) == 10 * Pow10(n);
      hide NatOf;
      hide Pow10;
      TenTimes(NatOf(a), Pow10(n));
    }
  }

  /** Digits, with or without a point before, among or behind them. */
  ghost predicate Numeral(s: string, whole: string, fraction: string) {
    && AllDigits(whole) && AllDigits(fraction) && whole + fraction != ""
    && (s == whole + "." + fraction || (s == whole && fraction == ""))
  }

  lemma NumeralParses(s: string, whole: string, fraction: string)
    requires Numeral(s, whole, fraction)
    ensures ParseDecimal(s).Some?
  {
    if s == whole + "." + fraction {
      Parses(whole, fraction);
    } else {
      DotAtIsFirst(s, |s|);
    }
  }

  lemma PartsOfNumeral(s: string) returns (whole: string, fraction: string)
    requires ParseDecimal(s).Some?
    ensures Numeral(s, whole, fraction)
  {
    var dot := DotAt(s);
    whole, fraction := s[..dot], if dot < |s| then s[dot + 1..] else "";
    if dot < |s| { assert s == whole + "." + fraction; }
    hide DotAt;
    hide AllDigits;
    hide NatOf;
  }

  /** Exactly such texts are numbers. */
  lemma ParsesExactly(s: string)
    ensures ParseDecimal(s).Some? <==> exists whole, fraction :: Numeral(s, whole, fraction)
  {
    if ParseDecimal(s).Some? { var whole, fraction := PartsOfNumeral(s); }
    if whole, fraction :| Numeral(s, whole, fraction) { NumeralParses(s, whole, fraction); }
    hide *;
  }

  /** And the number is the one the digits denote, with as many decimals as there are digits behind the point. */
  lemma Parses(whole: string, fraction: string)
    requires AllDigits(whole) && AllDigits(fraction) && whole + fraction != ""
    ensures ParseDecimal(whole + "." + fraction).Some?
    ensures ParseDecimal(whole + "." + fraction).value * Pow10(|fraction|) as real == NatOf(whole + fraction) as real
  {
    hide *;
    assert whole + "." + fraction == whole + ['.'] + fraction;
    ReadDecimal(whole, fraction);
    NatOfConcat(whole, fraction);
    DecimalTimes(NatOf(whole), NatOf(fraction), Pow10(|fraction|));
  }

  lemma DecimalTimes(n: nat, f: nat, scale: nat)
    requires scale >= 1
    ensures Decimal(n, f, scale) * scale as real == (n * scale + f) as real
  {
    assert f as real / scale as real * scale as real == f as real;
    assert (n * scale) as real == n as real * scale as real;
  }
}
