/** What the money reader makes of a printed number with something around it: a
    letter for thousands, millions or billions behind it, another word, cents,
    another number, or a minus sign in front. */
module MoneyLaws {
  import opened Common
  import opened Pieces
  import opened Text
  import opened Money

  predicate IsLetter(c: char) {
    'a' <= c <= 'z' || 'A' <= c <= 'Z'
  }

  // A word behind the number, without digits and trimmed.
  predicate IsWord(suffix: string) {
    && suffix != "" && IsLetter(suffix[0]) && !IsSpace(suffix[|suffix| - 1])
    && forall k :: 0 <= k < |suffix| ==> !('0' <= suffix[k] <= '9')
  }

  // The letter counts unless another letter follows it.
  function Times(suffix: string): real
    requires suffix != ""
  {
    if |suffix| > 1 && IsLetter(suffix[1]) then 1.0
    else if suffix[0] in "kK" then 1_000.0
    else if suffix[0] in "mM" then 1_000_000.0
    else if suffix[0] in "bB" then 1_000_000_000.0
    else 1.0
  }

  lemma SliceOfSlice(s: string, i: nat, j: nat, a: nat, b: nat)
    requires i <= j <= |s| && a <= b <= j - i
    ensures s[i..j][a..b] == s[i + a..i + b]
  {
    var x, y := s[i..j][a..b], s[i + a..i + b];
    assert |x| == |y| && forall k :: 0 <= k < |x| ==> x[k] == y[k];
  }

  lemma {:induction false} ScanTailTo(s: string, i: nat, j: nat)
    requires i <= j <= |s| && GroupTail(s[i..j]) && (j < |s| ==> !IsDigit(s[j]) && s[j] != ',')
    ensures GroupsEnd(s, i) == j
    decreases j - i
  {
    if i < j {
      var tail := s[i..j];
      assert tail != "" && |tail| >= 4 && tail[0] == s[i];
      SliceOfSlice(s, i, j, 1, 4);
      SliceOfSlice(s, i, j, 4, j - i);
      assert tail[4..] == tail[4..j - i];
      assert forall k :: i + 1 <= k < i + 4 ==> s[k] == s[i + 1..i + 4][k - i - 1];
      assert i + 4 < j ==> s[i + 4] == s[i + 4..j][0];
      ScanDigitsTo(s, i + 1, i + 4);
      ScanTailTo(s, i + 4, j);
    }
  }

  // The number ends where the word begins.
  lemma TokenBeforeWord(prefix: string, d: string, g: string, suffix: string)
    requires AllDigits(d) && |d| <= 3 && GroupTail(g) && suffix != "" && IsLetter(suffix[0])
    ensures var s := prefix + d + g + suffix; IsDigit(s[|prefix|]) && TokenEnd(s, |prefix|) == |prefix + d + g|
  {
    var s, whole, end := prefix + d + g + suffix, |prefix| + |d|, |prefix + d + g|;
    assert s[whole..end] == g && s[end] == suffix[0] && (whole < end ==> s[whole] == g[0]);
    assert forall k :: |prefix| <= k < whole ==> s[k] == d[k - |prefix|];
    ScanDigitsTo(s, |prefix|, whole);
    ScanTailTo(s, whole, end);
  }

  lemma {:induction false} NoDigitFrom(s: string, i: nat)
    requires i <= |s| && forall k :: i <= k < |s| ==> !IsDigit(s[k])
    ensures NextDigit(s, i) == |s|
    decreases |s| - i
  {
    if i < |s| { NoDigitFrom(s, i + 1); }
  }

  // A text that is a printed number and this behind it.
  ghost predicate Follows(text: string, printed: string, suffix: string) {
    text == "$" + printed + suffix && suffix != "" && IsLetter(suffix[0]) && !IsSpace(suffix[|suffix| - 1])
  }

  // The number begins behind the sign and ends before the suffix.
  lemma NumberBeforeWord(text: string, printed: string, h: nat, suffix: string)
    requires h <= |printed| && h <= 3 && AllDigits(printed[..h]) && GroupTail(printed[h..])
    requires Follows(text, printed, suffix)
    ensures NextDigit(text, 0) == 1 && TokenEnd(text, 1) == 1 + |printed| < |text| && TrimSpace(text) == text
  {
    var d, g := printed[..h], printed[h..];
    SameText(text, printed, h, suffix);
    TokenBeforeWord("$", d, g, suffix);
    FirstDigit(text, "$" + d + g, suffix);
    Trimmed(text, printed, suffix);
  }

  lemma SameText(text: string, printed: string, h: nat, suffix: string)
    requires h <= |printed| && text == "$" + printed + suffix
    ensures text == "$" + printed[..h] + printed[h..] + suffix && |"$" + printed[..h] + printed[h..]| == 1 + |printed|
  {
    assert printed == printed[..h] + printed[h..];
  }

  lemma FirstDigit(text: string, number: string, suffix: string)
    requires text == number + suffix && |text| > 1 && text[0] == '$' && IsDigit(text[1])
    ensures NextDigit(text, 0) == 1
  {
    NextDigitAt(text, 0, 1);
  }

  lemma Trimmed(text: string, printed: string, suffix: string)
    requires Follows(text, printed, suffix)
    ensures TrimSpace(text) == text && |text| > 1 + |printed|
  {
    assert text[|text| - 1] == suffix[|suffix| - 1];
    TrimKeeps(text);
  }

  lemma PrintedBefore(n: nat, suffix: string, text: string)
    requires text == FormatMoney(Some(n), "") + suffix
    requires suffix != "" && IsLetter(suffix[0]) && !IsSpace(suffix[|suffix| - 1])
    ensures var printed := Commas(Decimal(n));
            && Follows(text, printed, suffix) && Normalize(printed) == Some(Decimal(n)) && AllDigits(Decimal(n))
            && NextDigit(text, 0) == 1 && TokenEnd(text, 1) == 1 + |printed| < |text| && TrimSpace(text) == text
  {
    var digits := Decimal(n);
    DecimalDigits(n);
    CommasShape(digits);
    var printed, h := Commas(digits), HeadLength(digits);
    NumberBeforeWord(text, printed, h, suffix);
    Halves(printed, h);
    PrintedNormalizes(printed[..h], printed[h..], digits);
  }

  lemma Behind(text: string, printed: string, suffix: string)
    requires Follows(text, printed, suffix)
    ensures text[1..1 + |printed|] == printed && text[..1] == "$" && |text| == 1 + |printed| + |suffix|
    ensures forall k {:trigger text[k]} :: 1 + |printed| <= k < |text| ==> text[k] == suffix[k - 1 - |printed|]
  {
  }

  // The value read, to the nearest whole number, if it is in range.
  function Rounded(x: Option<real>, times: real, round: Rounding): Option<int> {
    if x.None? || x.value < 0.0 then None
    else
      var scaled := round(x.value * times);
      if scaled.None? || scaled.value >= 9_223_372_036_854_775_808.0 then None else Some((scaled.value + 0.5).Floor)
  }

  lemma ParseIs(text: string, start: nat, end: nat, number: string, round: Rounding)
    requires text != "" && TrimSpace(text) == text && OneToken(text) == Some((start, end))
    requires !NegativeSign(text[..start]) && Normalize(text[start..end]) == Some(number)
    ensures ParseMoney(text, round) == Scale(round(ExactValue(number)), Multiplier(text, end), round)
  {
  }

  lemma MultiplierIs(text: string, end: nat, suffix: string)
    requires |text| == end + |suffix| && suffix != "" && text[end] == suffix[0]
    requires |suffix| > 1 ==> text[end + 1] == suffix[1] && !('0' <= suffix[1] <= '9')
    ensures Multiplier(text, end) == Times(suffix)
  {
  }

  lemma ReadWithWord(text: string, printed: string, digits: string, suffix: string, round: Rounding)
    requires Follows(text, printed, suffix) && AllDigits(digits) && Normalize(printed) == Some(digits)
    requires OneToken(text) == Some((1, 1 + |printed|)) && TrimSpace(text) == text && IsWord(suffix)
    ensures ParseMoney(text, round) == Rounded(round(ValueOf(digits) as real), Times(suffix), round)
  {
    Behind(text, printed, suffix);
    DollarPrefix("$");
    NoPoint(digits);
    MultiplierIs(text, 1 + |printed|, suffix);
    ParseIs(text, 1, 1 + |printed|, digits, round);
  }

  lemma OneNumber(text: string, printed: string, suffix: string)
    requires Follows(text, printed, suffix) && IsWord(suffix)
    requires NextDigit(text, 0) == 1 && TokenEnd(text, 1) == 1 + |printed|
    ensures OneToken(text) == Some((1, 1 + |printed|))
  {
    Behind(text, printed, suffix);
    NoDigitFrom(text, 1 + |printed|);
  }

  // A printed number with a word behind it is read as so many times the
  // number; `Times` tells how many, and only for a letter that stands alone.
  lemma WordLaw(n: nat, suffix: string, round: Rounding)
    requires IsWord(suffix)
    ensures ParseMoney(FormatMoney(Some(n), "") + suffix, round) == Rounded(round(n as real), Times(suffix), round)
  {
    var text, printed := FormatMoney(Some(n), "") + suffix, Commas(Decimal(n));
    PrintedBefore(n, suffix, text);
    OneNumber(text, printed, suffix);
    DecimalDigits(n);
    ReadWithWord(text, printed, Decimal(n), suffix, round);
  }

  lemma Product(n: nat, unit: nat)
    ensures n as real * unit as real == (n * unit) as real
  {
  }

  lemma ScaledExactly(n: nat, unit: nat, round: Rounding)
    requires IsFloat64(round) && unit >= 1 && n * unit <= TWO_TO_THE_53
    ensures Rounded(round(n as real), unit as real, round) == Some(n * unit)
  {
    var m := n * unit;
    assert n <= m;
    Product(n, unit);
    assert round(n as real) == Some(n as real);
    assert round(m as real) == Some(m as real);
    WholeIsRounded(m);
    RoundedWhole(round(n as real), unit as real, m, round);
  }

  lemma RoundedWhole(x: Option<real>, times: real, m: nat, round: Rounding)
    requires x.Some? && x.value >= 0.0 && x.value * times == m as real
    requires round(m as real) == Some(m as real) && m <= TWO_TO_THE_53
    ensures Rounded(x, times, round) == Some((m as real + 0.5).Floor)
  {
  }

  lemma WholeIsRounded(m: nat)
    ensures (m as real + 0.5).Floor == m
  {
  }

  // Thousands, millions and billions are read exactly as far as floats reach.
  lemma UnitRoundTrip(n: nat, unit: nat, letter: char, round: Rounding)
    requires IsFloat64(round) && n * unit <= TWO_TO_THE_53
    requires (letter in "kK" && unit == 1_000) || (letter in "mM" && unit == 1_000_000)
             || (letter in "bB" && unit == 1_000_000_000)
    ensures ParseMoney(FormatMoney(Some(n), "") + [letter], round) == Some(n * unit)
  {
    WordLaw(n, [letter], round);
    ScaledExactly(n, unit, round);
    assert Times([letter]) == unit as real;
  }

  // A second number anywhere behind the first is refused.
  lemma TwoNumbersAreRefused(n: nat, suffix: string, k: nat, round: Rounding)
    requires suffix != "" && IsLetter(suffix[0]) && k < |suffix| && '0' <= suffix[k] <= '9'
    requires !IsSpace(suffix[|suffix| - 1])
    ensures ParseMoney(FormatMoney(Some(n), "") + suffix, round) == None
  {
    var text, printed := FormatMoney(Some(n), "") + suffix, Commas(Decimal(n));
    PrintedBefore(n, suffix, text);
    SecondInSuffix(text, printed, suffix, k);
    NoTokenNoMoney(text, round);
  }

  lemma NoTokenNoMoney(text: string, round: Rounding)
    requires TrimSpace(text) == text && OneToken(text) == None
    ensures ParseMoney(text, round) == None
  {
  }

  lemma SecondInSuffix(text: string, printed: string, suffix: string, k: nat)
    requires Follows(text, printed, suffix) && k < |suffix| && '0' <= suffix[k] <= '9' && TrimSpace(text) == text
    requires NextDigit(text, 0) == 1 && TokenEnd(text, 1) == 1 + |printed| < |text|
    ensures OneToken(text) == None
  {
    var at := 1 + |printed| + k;
    assert text[at] == suffix[k];
    SecondNumber(text, at);
  }

  lemma SecondNumber(text: string, at: nat)
    requires at < |text| && IsDigit(text[at]) && TrimSpace(text) == text
    requires NextDigit(text, 0) < |text| && TokenEnd(text, NextDigit(text, 0)) <= at
    ensures OneToken(text) == None
  {
    assert NextDigit(text, TokenEnd(text, NextDigit(text, 0))) <= at;
  }

  // ----- Cents -----

  // The number with its fraction is one token, to the end.
  lemma TokenWithFraction(s: string, prefix: string, d: string, g: string, f: string)
    requires s == prefix + d + g + "." + f && AllDigits(d) && |d| <= 3 && GroupTail(g) && AllDigits(f)
    ensures |prefix| < |s| && IsDigit(s[|prefix|]) && TokenEnd(s, |prefix|) == |s|
  {
    var whole, end := |prefix| + |d|, |prefix| + |d| + |g|;
    assert s[whole..end] == g && s[end] == '.' && (whole < end ==> s[whole] == g[0]);
    assert forall k {:trigger s[k]} :: |prefix| <= k < whole ==> s[k] == d[k - |prefix|];
    assert forall k {:trigger s[k]} :: end < k < |s| ==> s[k] == f[k - end - 1];
    ScanDigitsTo(s, |prefix|, whole);
    ScanTailTo(s, whole, end);
    ScanDigitsTo(s, end + 1, |s|);
  }

  // The value of n.f.
  function WithCents(n: nat, f: string): real {
    n as real + ValueOf(f) as real / PowerOfTen(|f|) as real
  }

  lemma TwoParts(number: string, a: string, b: string)
    requires Split(number, '.') == [a, b]
    ensures ExactValue(number) == WithCents(ValueOf(a), b)
  {
  }

  lemma SplitsAtPoint(digits: string, f: string)
    requires AllDigits(digits) && AllDigits(f)
    ensures Split(digits + "." + f, '.') == [digits, f]
  {
    assert '.' !in digits && '.' !in f;
    SplitAt(digits, '.', f);
    SplitWithout(f, '.');
    assert digits + ['.'] + f == digits + "." + f;
  }

  lemma NormalizedCents(d: string, g: string, f: string, digits: string)
    requires AllDigits(d) && |d| <= 3 && GroupTail(g) && AllDigits(f) && d + TailDigits(g) == digits
    ensures Normalize(d + g + "." + f) == Some(digits + "." + f)
  {
    var point := "." + f;
    assert point[1..] == f;
    NormalizeShaped(d, g, point);
    assert d + g + point == d + g + "." + f;
    assert d + TailDigits(g) + point == digits + "." + f;
  }

  lemma ScanCents(text: string, d: string, g: string, f: string)
    requires text == "$" + d + g + "." + f && AllDigits(d) && |d| <= 3 && GroupTail(g) && AllDigits(f)
    ensures OneToken(text) == Some((1, |text|)) && TrimSpace(text) == text
    ensures text[1..|text|] == d + g + "." + f && text[..1] == "$"
  {
    TokenWithFraction(text, "$", d, g, f);
    NextDigitAt(text, 0, 1);
    assert text[0] == '$' && text[|text| - 1] == f[|f| - 1];
    TrimKeeps(text);
  }

  lemma ReadCents(text: string, d: string, g: string, f: string, digits: string, round: Rounding)
    requires text == "$" + d + g + "." + f && AllDigits(d) && |d| <= 3 && GroupTail(g) && AllDigits(f)
    requires d + TailDigits(g) == digits && AllDigits(digits)
    ensures ParseMoney(text, round) == Scale(round(WithCents(ValueOf(digits), f)), 1.0, round)
  {
    ScanCents(text, d, g, f);
    DollarPrefix("$");
    NormalizedCents(d, g, f, digits);
    ParseIs(text, 1, |text|, digits + "." + f, round);
    SplitsAtPoint(digits, f);
    TwoParts(digits + "." + f, digits, f);
  }

  // A printed number with decimals is read as the nearest float to it, rounded
  // to the nearest whole number.
  lemma CentsLaw(n: nat, f: string, text: string, round: Rounding)
    requires AllDigits(f) && text == FormatMoney(Some(n), "") + "." + f
    ensures ParseMoney(text, round) == Rounded(round(WithCents(n, f)), 1.0, round)
  {
    var digits := Decimal(n);
    DecimalDigits(n);
    CommasShape(digits);
    var printed, h := Commas(digits), HeadLength(digits);
    FractionText(printed, h, f);
    ReadCents(text, printed[..h], printed[h..], f, digits, round);
  }

  lemma FractionText(printed: string, h: nat, f: string)
    requires h <= |printed|
    ensures "$" + printed + "." + f == "$" + printed[..h] + printed[h..] + "." + f
  {
    assert printed == printed[..h] + printed[h..];
  }

  // ----- A minus sign in front -----

  lemma MinusPrefix(minus: char, prefix: string)
    requires (minus == '-' || minus as int == 0x2212) && prefix == [minus] + "$"
    ensures NegativeSign(prefix) && !IsSpace(minus) && forall k :: 0 <= k < |prefix| ==> !IsDigit(prefix[k])
  {
    assert prefix[|prefix| - 1] == '$' && prefix[..|prefix| - 1] == [minus] && TrimRight(prefix) == prefix;
    assert TrimRight([minus]) == [minus] && IsMinus([minus][0]);
    assert NegativeSign([minus]);
  }

  lemma ReadMinus(text: string, minus: char, d: string, g: string, round: Rounding)
    requires minus == '-' || minus as int == 0x2212
    requires text == [minus] + "$" + d + g && AllDigits(d) && |d| <= 3 && GroupTail(g)
    ensures ParseMoney(text, round) == None
  {
    MinusPrefix(minus, [minus] + "$");
    ScanPrinted([minus] + "$", d, g);
    LastIsDigit(d, g);
    assert text[0] == minus && text[|text| - 1] == (d + g)[|d + g| - 1];
    TrimKeeps(text);
    assert text[..2] == [minus] + "$";
    NegativeNoMoney(text, 2, |text|, round);
  }

  lemma NegativeNoMoney(text: string, start: nat, end: nat, round: Rounding)
    requires text != "" && TrimSpace(text) == text && OneToken(text) == Some((start, end))
    requires NegativeSign(text[..start])
    ensures ParseMoney(text, round) == None
  {
  }

  // A minus sign before the currency symbol is refused too, whichever minus.
  lemma MinusIsRefused(n: nat, minus: char, round: Rounding)
    requires minus == '-' || minus as int == 0x2212
    ensures ParseMoney([minus] + FormatMoney(Some(n), ""), round) == None
  {
    var digits := Decimal(n);
    DecimalDigits(n);
    CommasShape(digits);
    var printed, h := Commas(digits), HeadLength(digits);
    MinusText(minus, printed, h);
    ReadMinus([minus] + ("$" + printed), minus, printed[..h], printed[h..], round);
  }

  lemma MinusText(minus: char, printed: string, h: nat)
    requires h <= |printed|
    ensures [minus] + ("$" + printed) == [minus] + "$" + printed[..h] + printed[h..]
  {
    assert printed == printed[..h] + printed[h..];
  }
}
