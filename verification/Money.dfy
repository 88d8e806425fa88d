/** The money printer of the command line and the money reader of the Zillow
    client: reading what was printed gives the number back. Text is a sequence
    of Unicode characters; 64-bit integers wrap as in Go. */
module Money {
  import opened Common
  import opened Pieces
  import opened Text

  // ----- Printing -----

  const MIN_INT64 := -0x8000_0000_0000_0000
  const MAX_INT64 := 0x7FFF_FFFF_FFFF_FFFF

  // Negation on 64 bits: the smallest value is its own negative.
  function Negate64(n: int): int {
    if n == MIN_INT64 then n else -n
  }

  // strconv.FormatInt in base 10.
  function FormatInt(n: int): (r: string)
    ensures r != []
  {
    if n < 0 then "-" + Decimal(-n) else Decimal(n)
  }

  // Commas between groups of three, counted from the right.
  function Commas(digits: string): string {
    if |digits| <= 3 then digits else Commas(digits[..|digits| - 3]) + "," + digits[|digits| - 3..]
  }

  function CommaInt(n: int): string {
    if n < 0 then "-" + Commas(FormatInt(Negate64(n))) else Commas(FormatInt(n))
  }

  function FormatMoney(value: Option<int>, fallback: string): string {
    match value
    case None => fallback
    case Some(n) => "$" + CommaInt(n)
  }

  // The loop that inserts the commas, from the last group to the first.
  method InsertCommas(s: string) returns (digits: string)
    ensures digits == Commas(s)
  {
    digits := s;
    var index := |digits| - 3;
    ghost var rest := "";
    assert s[..|s|] == s;
    while index > 0
      invariant index + 3 <= |s| && (|s| > 0 ==> index + 3 > 0) && (|s| == 0 ==> index + 3 == 0)
      invariant digits == s[..index + 3] + rest && Commas(s) == Commas(s[..index + 3]) + rest
    {
      assert s[..index + 3][..index] == s[..index] && s[..index + 3][index..] == s[index..index + 3];
      assert digits[..index] == s[..index] && digits[index..] == s[index..index + 3] + rest;
      rest := "," + s[index..index + 3] + rest;
      digits := digits[..index] + "," + digits[index..];
      index := index - 3;
    }
  }

  method CommaIntLoop(value: int) returns (text: string)
    requires MIN_INT64 <= value <= MAX_INT64
    ensures text == CommaInt(value)
  {
    var sign, magnitude := "", value;
    if value < 0 {
      sign := "-";
      magnitude := Negate64(value);
    }
    text := InsertCommas(FormatInt(magnitude));
    text := sign + text;
  }

  // ----- Reading: finding the number -----

  predicate IsDigit(c: char) {
    '0' <= c <= '9'
  }

  predicate AllDigits(s: string) {
    s != "" && forall i :: 0 <= i < |s| ==> IsDigit(s[i])
  }

  // The end of the run of digits that starts at i.
  function DigitsEnd(s: string, i: nat): (r: nat)
    requires i <= |s|
    ensures i <= r <= |s|
    ensures forall k :: i <= k < r ==> IsDigit(s[k])
    ensures r < |s| ==> !IsDigit(s[r])
    decreases |s| - i
  {
    if i < |s| && IsDigit(s[i]) then DigitsEnd(s, i + 1) else i
  }

  // The end of the ",ddd" groups that start at i.
  function GroupsEnd(s: string, i: nat): (r: nat)
    requires i <= |s|
    ensures i <= r <= |s|
    decreases |s| - i
  {
    if i < |s| && s[i] == ',' && DigitsEnd(s, i + 1) == i + 4 then GroupsEnd(s, i + 4) else i
  }

  // The end of the fraction that starts at i.
  function FractionEnd(s: string, i: nat): (r: nat)
    requires i <= |s|
    ensures i <= r <= |s|
  {
    if i + 1 < |s| && s[i] == '.' && IsDigit(s[i + 1]) then DigitsEnd(s, i + 1) else i
  }

  // The end of the number that starts with the digit at i.
  function TokenEnd(s: string, i: nat): (r: nat)
    requires i < |s| && IsDigit(s[i])
    ensures i < r <= |s|
  {
    var whole := DigitsEnd(s, i);
    FractionEnd(s, if whole - i <= 3 then GroupsEnd(s, whole) else whole)
  }

  function NextDigit(s: string, i: nat): (r: nat)
    requires i <= |s|
    ensures i <= r <= |s|
    ensures forall k :: i <= k < r ==> !IsDigit(s[k])
    ensures r < |s| ==> IsDigit(s[r])
    decreases |s| - i
  {
    if i < |s| && !IsDigit(s[i]) then NextDigit(s, i + 1) else i
  }

  // The only number in the text, if there is exactly one.
  function OneToken(s: string): (r: Option<(nat, nat)>)
    ensures r.Some? ==> r.value.0 < r.value.1 <= |s|
  {
    var start := NextDigit(s, 0);
    if start == |s| then None
    else
      var end := TokenEnd(s, start);
      if NextDigit(s, end) < |s| then None else Some((start, end))
  }

  method ScanDigits(s: string, start: nat) returns (index: nat)
    requires start <= |s|
    ensures index == DigitsEnd(s, start)
  {
    index := start;
    while index < |s| && IsDigit(s[index])
      invariant start <= index <= |s| && DigitsEnd(s, start) == DigitsEnd(s, index)
    {
      index := index + 1;
    }
  }

  method ScanNumericToken(s: string, start: nat) returns (index: nat)
    requires start < |s| && IsDigit(s[start])
    ensures index == TokenEnd(s, start)
  {
    index := ScanDigits(s, start);
    if index - start <= 3 {
      ghost var whole := index;
      while index < |s| && s[index] == ','
        invariant whole <= index <= |s| && GroupsEnd(s, whole) == GroupsEnd(s, index)
      {
        var groupEnd := ScanDigits(s, index + 1);
        if groupEnd - (index + 1) != 3 { break; }
        index := groupEnd;
      }
    }
    if index + 1 < |s| && s[index] == '.' && IsDigit(s[index + 1]) {
      index := ScanDigits(s, index + 2);
    }
  }

  method OneNumericToken(s: string) returns (token: Option<(nat, nat)>)
    ensures token == OneToken(s)
  {
    token := None;
    var index := 0;
    while index < |s|
      invariant index <= |s|
      invariant token.None? ==> NextDigit(s, 0) == NextDigit(s, index)
      invariant token.Some? ==>
                  NextDigit(s, 0) == token.value.0 < |s| && TokenEnd(s, token.value.0) == token.value.1 <= index
                                && NextDigit(s, token.value.1) == NextDigit(s, index)
      decreases |s| - index
    {
      if !IsDigit(s[index]) {
        index := index + 1;
        continue;
      }
      if token.Some? { return None; }
      var start := index;
      index := ScanNumericToken(s, index);
      token := Some((start, index));
    }
  }

  // ----- Reading: the number itself -----

  function Without(s: string, c: char): string {
    if s == "" then "" else (if s[0] == c then "" else [s[0]]) + Without(s[1..], c)
  }

  predicate GroupedDigits(groups: seq<string>) {
    && groups != [] && 1 <= |groups[0]| <= 3 && AllDigits(groups[0])
    && forall i :: 1 <= i < |groups| ==> |groups[i]| == 3 && AllDigits(groups[i])
  }

  // The token without its commas, when it is well formed.
  function Normalize(token: string): Option<string> {
    var parts := Split(token, '.');
    if |parts| > 2 || parts[0] == "" then None
    else if |parts| == 2 && !AllDigits(parts[1]) then None
    else
      var integer := parts[0];
      if ',' in integer && !GroupedDigits(Split(integer, ',')) then None
      else if ',' !in integer && !AllDigits(integer) then None
      else Some(Without(integer, ',') + if |parts| == 2 then "." + parts[1] else "")
  }

  lemma {:induction false} WithoutNone(s: string, c: char)
    requires c !in s
    ensures Without(s, c) == s
  {
    if s != "" {
      WithoutNone(s[1..], c);
      assert [s[0]] + s[1..] == s;
    }
  }

  lemma {:induction false} WithoutAt(a: string, c: char, b: string)
    requires c !in a
    ensures Without(a + [c] + b, c) == a + Without(b, c)
  {
    var s := a + [c] + b;
    if a == "" {
      assert s[1..] == b;
    } else {
      WithoutAt(a[1..], c, b);
      assert s[1..] == a[1..] + [c] + b;
      assert [a[0]] + a[1..] == a;
    }
  }

  // ",ddd,ddd…"
  predicate GroupTail(g: string) {
    g == "" || (|g| >= 4 && g[0] == ',' && AllDigits(g[1..4]) && GroupTail(g[4..]))
  }

  lemma {:induction false} GroupsAreTail(s: string, i: nat)
    requires i <= |s|
    ensures GroupTail(s[i..GroupsEnd(s, i)])
    decreases |s| - i
  {
    var g := s[i..GroupsEnd(s, i)];
    if g != "" {
      GroupsAreTail(s, i + 4);
      assert forall k :: 0 <= k < 3 ==> g[1..4][k] == s[i + 1 + k];
      assert g[4..] == s[i + 4..GroupsEnd(s, i + 4)];
    }
  }

  // The digits of a group tail, commas left out.
  function TailDigits(g: string): string
    requires GroupTail(g)
  {
    if g == "" then "" else g[1..4] + TailDigits(g[4..])
  }

  lemma {:induction false} SplitTail(d: string, g: string)
    requires AllDigits(d) && GroupTail(g)
    ensures var groups := Split(d + g, ',');
            groups[0] == d && forall i :: 1 <= i < |groups| ==> |groups[i]| == 3 && AllDigits(groups[i])
    ensures Without(d + g, ',') == d + TailDigits(g)
    ensures '.' !in d + g && (',' in d + g <==> g != "")
    decreases |g|
  {
    assert ',' !in d && '.' !in d;
    if g == "" {
      assert d + g == d;
      SplitWithout(d, ',');
      WithoutNone(d, ',');
    } else {
      SplitTail(g[1..4], g[4..]);
      assert g[1..] == g[1..4] + g[4..];
      assert d + g == d + [','] + g[1..];
      SplitAt(d, ',', g[1..]);
      WithoutAt(d, ',', g[1..]);
    }
  }

  // A whole number in groups, with or without a fraction, is well formed.
  lemma NormalizeShaped(d: string, g: string, f: string)
    requires AllDigits(d) && GroupTail(g) && (g != "" ==> |d| <= 3)
    requires f == "" || (f[0] == '.' && AllDigits(f[1..]))
    ensures Normalize(d + g + f) == Some(d + TailDigits(g) + f)
  {
    var integer := d + g;
    SplitTail(d, g);
    if f == "" {
      assert integer + f == integer;
      SplitWithout(integer, '.');
    } else {
      assert integer + f == integer + ['.'] + f[1..];
      SplitAt(integer, '.', f[1..]);
      SplitWithout(f[1..], '.');
      assert "." + f[1..] == f;
    }
    if g == "" {
      assert integer == d;
    } else {
      assert GroupedDigits(Split(integer, ','));
    }
  }

  lemma {:induction false} LongRunHasNoGroups(s: string, i: nat)
    requires i < |s| && IsDigit(s[i])
    ensures var whole := DigitsEnd(s, i); var g := s[whole..if whole - i <= 3 then GroupsEnd(s, whole) else whole];
            AllDigits(s[i..whole]) && GroupTail(g) && (g != "" ==> whole - i <= 3)
  {
    var whole := DigitsEnd(s, i);
    GroupsAreTail(s, whole);
    assert forall k :: 0 <= k < whole - i ==> s[i..whole][k] == s[i + k];
  }

  lemma FractionShape(s: string, i: nat)
    requires i <= |s|
    ensures var f := s[i..FractionEnd(s, i)]; f == "" || (f[0] == '.' && AllDigits(f[1..]))
  {
    var f := s[i..FractionEnd(s, i)];
    assert forall k :: 0 <= k < |f| - 1 ==> f[1..][k] == s[i + 1 + k];
  }

  // The three parts of a token: digits, groups, fraction.
  lemma TokenParts(s: string, i: nat)
    requires i < |s| && IsDigit(s[i])
    ensures var whole := DigitsEnd(s, i); var groups := if whole - i <= 3 then GroupsEnd(s, whole) else whole;
            var f := s[groups..FractionEnd(s, groups)];
            && s[i..TokenEnd(s, i)] == s[i..whole] + s[whole..groups] + f
            && (f == "" || (f[0] == '.' && AllDigits(f[1..])))
  {
    var whole := DigitsEnd(s, i);
    var groups := if whole - i <= 3 then GroupsEnd(s, whole) else whole;
    FractionShape(s, groups);
    SliceInTwo(s, i, whole, groups);
    SliceInTwo(s, i, groups, FractionEnd(s, groups));
  }

  // Whatever the scanner finds, in any text, the normaliser accepts: the
  // branch that rejects a token is never taken.
  lemma ScannedTokenIsWellFormed(s: string)
    ensures OneToken(s).Some? ==> Normalize(s[OneToken(s).value.0..OneToken(s).value.1]).Some?
  {
    var start := NextDigit(s, 0);
    if start < |s| { TokenIsWellFormed(s, start); }
  }

  lemma TokenIsWellFormed(s: string, i: nat)
    requires i < |s| && IsDigit(s[i])
    ensures Normalize(s[i..TokenEnd(s, i)]).Some?
  {
    var whole := DigitsEnd(s, i);
    var groups := if whole - i <= 3 then GroupsEnd(s, whole) else whole;
    TokenParts(s, i);
    LongRunHasNoGroups(s, i);
    NormalizeShaped(s[i..whole], s[whole..groups], s[groups..FractionEnd(s, groups)]);
  }

  // ----- Reading: signs, suffixes and the value -----

  // unicode.Sc, the currency symbols.
  predicate IsCurrency(c: char) {
    var u := c as int;
    || u == 0x24 || 0xA2 <= u <= 0xA5 || u == 0x58F || u == 0x60B || 0x7FE <= u <= 0x7FF || 0x9F2 <= u <= 0x9F3
    || u == 0x9FB
    || u == 0xAF1 || u == 0xBF9 || u == 0xE3F || u == 0x17DB || 0x20A0 <= u <= 0x20C0 || u == 0xA838 || u == 0xFDFC
    || u == 0xFE69
    || u == 0xFF04 || 0xFFE0 <= u <= 0xFFE1 || 0xFFE5 <= u <= 0xFFE6 || 0x11FDD <= u <= 0x11FE0 || u == 0x1E2FF
    || u == 0x1ECB0
  }

  predicate IsMinus(c: char) {
    c == '-' || c as int == 0x2212
  }

  // Whether a minus sign stands before the number, currency symbols and white
  // space aside.
  predicate NegativeSign(prefix: string)
    decreases |prefix|
  {
    var p := TrimRight(prefix);
    p != "" &&
      var last := p[|p| - 1];
      IsMinus(last) || (IsCurrency(last) && NegativeSign(p[..|p| - 1]))
  }

  method HasNegativeMoneySign(text: string) returns (negative: bool)
    ensures negative == NegativeSign(text)
  {
    var prefix := TrimRight(text);
    while prefix != ""
      invariant NegativeSign(text) == NegativeSign(prefix) && TrimRight(prefix) == prefix
      decreases |prefix|
    {
      var last := prefix[|prefix| - 1];
      if IsMinus(last) { return true; }
      if !IsCurrency(last) { return false; }
      TrimRightTwice(prefix[..|prefix| - 1]);
      prefix := TrimRight(prefix[..|prefix| - 1]);
    }
    return false;
  }

  lemma {:induction false} TrimRightTwice(s: string)
    ensures TrimRight(TrimRight(s)) == TrimRight(s)
  {
    if s != "" && IsSpace(s[|s| - 1]) { TrimRightTwice(s[..|s| - 1]); }
  }

  predicate IsAlphaNumeric(c: char) {
    IsDigit(c) || 'a' <= c <= 'z' || 'A' <= c <= 'Z'
  }

  function Multiplier(s: string, end: nat): real
    requires end <= |s|
  {
    if end < |s| && (end + 1 == |s| || !IsAlphaNumeric(s[end + 1])) then
      if s[end] == 'k' || s[end] == 'K' then 1_000.0
      else if s[end] == 'm' || s[end] == 'M' then 1_000_000.0
      else if s[end] == 'b' || s[end] == 'B' then 1_000_000_000.0
      else 1.0
    else 1.0
  }

  function ValueOf(digits: string): nat {
    if digits == "" then 0 else
      var last := digits[|digits| - 1];
      10 * ValueOf(digits[..|digits| - 1]) + if IsDigit(last) then last as int - '0' as int else 0
  }

  function PowerOfTen(n: nat): (r: nat)
    ensures r >= 1
  {
    if n == 0 then 1 else 10 * PowerOfTen(n - 1)
  }

  // The exact value of a normalised token.
  function ExactValue(number: string): real {
    var parts := Split(number, '.');
    if |parts| == 1 then ValueOf(parts[0]) as real
    else ValueOf(parts[0]) as real + ValueOf(parts[1]) as real / PowerOfTen(|parts[1]|) as real
  }

  // Rounding to a 64-bit float; None when the value is out of range.
  type Rounding = real -> Option<real>

  const TWO_TO_THE_53 := 0x20_0000_0000_0000
  const TWO_TO_THE_63 := 0x8000_0000_0000_0000

  // What is known of rounding: floats are kept, and whole numbers up to 2^53
  // are floats.
  ghost predicate IsFloat64(round: Rounding) {
    && (forall n: nat {:trigger round(n as real)} :: n <= TWO_TO_THE_53 ==> round(n as real) == Some(n as real))
    && (forall x: real {:trigger round(x)} :: round(x).Some? ==> round(round(x).value) == round(x))
  }

  function ParseMoney(text: string, round: Rounding): Option<int> {
    var value := TrimSpace(text);
    if value == "" then None
    else
      match OneToken(value)
      case None => None
      case Some((start, end)) =>
        if NegativeSign(value[..start]) then None
        else
          match Normalize(value[start..end])
          case None => None
          case Some(number) => Scale(round(ExactValue(number)), Multiplier(value, end), round)
  }

  function Scale(parsed: Option<real>, multiplier: real, round: Rounding): Option<int> {
    if parsed.None? || parsed.value < 0.0 then None
    else
      var scaled := round(parsed.value * multiplier);
      if scaled.None? || scaled.value >= TWO_TO_THE_63 as real then None else Some((scaled.value + 0.5).Floor)
  }

  // ----- The round trip -----

  lemma {:induction false} DecimalDigits(n: nat)
    ensures AllDigits(Decimal(n)) && ValueOf(Decimal(n)) == n
  {
    if n >= 10 { DecimalDigits(n / 10); }
    var d := Decimal(n);
    assert d[..|d| - 1] == if n < 10 then [] else Decimal(n / 10);
    assert d[|d| - 1] == '0' + (n % 10) as char;
  }

  // The length of the first group.
  function HeadLength(digits: string): nat
    requires digits != ""
  {
    (|digits| - 1) % 3 + 1
  }

  lemma {:induction false} TailAppend(g: string, d: string)
    requires GroupTail(g) && |d| == 3 && AllDigits(d)
    ensures GroupTail(g + "," + d) && TailDigits(g + "," + d) == TailDigits(g) + d
  {
    var h := g + "," + d;
    if g == "" {
      assert h[1..4] == d && h[4..] == "";
    } else {
      TailAppend(g[4..], d);
      assert h[1..4] == g[1..4] && h[4..] == g[4..] + "," + d;
    }
  }

  // What Commas does to one more group, seen from the first group.
  lemma OneMoreGroup(before: string, h: nat, group: string)
    requires h <= |before|
    ensures var printed := before + "," + group;
            printed[..h] == before[..h] && printed[h..] == before[h..] + "," + group
  {
  }

  // Printed numbers are a first group of one to three digits and a tail.
  lemma {:induction false} CommasShape(digits: string)
    requires AllDigits(digits)
    ensures var h := HeadLength(digits); var printed := Commas(digits);
            && h <= |digits| && h <= |printed| && printed[..h] == digits[..h] && AllDigits(digits[..h])
            && GroupTail(printed[h..]) && digits[..h] + TailDigits(printed[h..]) == digits
  {
    var h, n := HeadLength(digits), |digits|;
    if n <= 3 {
      assert digits[..n] == digits && digits[n..] == "";
    } else {
      var first, group := digits[..n - 3], digits[n - 3..];
      CommasShape(first);
      OneMoreGroup(Commas(first), h, group);
      TailAppend(Commas(first)[h..], group);
      Halves(digits, n - 3);
      assert first[..h] == digits[..h];
      ConcatAssociates(first[..h], TailDigits(Commas(first)[h..]), group);
    }
  }

  lemma Halves(s: string, n: nat)
    requires n <= |s|
    ensures s == s[..n] + s[n..]
  {
  }

  lemma {:induction false} ScanDigitsTo(s: string, i: nat, j: nat)
    requires i <= j <= |s| && (forall k :: i <= k < j ==> IsDigit(s[k])) && (j < |s| ==> !IsDigit(s[j]))
    ensures DigitsEnd(s, i) == j
    decreases j - i
  {
    if i < j { ScanDigitsTo(s, i + 1, j); }
  }

  lemma {:induction false} ScanTailToEnd(s: string, i: nat)
    requires i <= |s| && GroupTail(s[i..])
    ensures GroupsEnd(s, i) == |s|
    decreases |s| - i
  {
    if i < |s| {
      assert s[i..][1..4] == s[i + 1..i + 4] && s[i..][4..] == s[i + 4..];
      assert forall k :: i + 1 <= k < i + 4 ==> s[k] == s[i + 1..i + 4][k - i - 1];
      assert i + 4 < |s| ==> s[i + 4] == s[i + 4..][0];
      ScanDigitsTo(s, i + 1, i + 4);
      ScanTailToEnd(s, i + 4);
    }
  }

  // The scanner takes a printed number as one token, to its end.
  lemma ScanPrinted(prefix: string, d: string, g: string)
    requires (forall k :: 0 <= k < |prefix| ==> !IsDigit(prefix[k])) && AllDigits(d) && |d| <= 3 && GroupTail(g)
    ensures OneToken(prefix + d + g) == Some((|prefix|, |prefix + d + g|))
  {
    var s := prefix + d + g;
    NextDigitAt(s, 0, |prefix|);
    var whole := |prefix| + |d|;
    assert s[whole..] == g && (whole < |s| ==> s[whole] == g[0]);
    ScanDigitsTo(s, |prefix|, whole);
    ScanTailToEnd(s, whole);
  }

  lemma {:induction false} NextDigitAt(s: string, i: nat, j: nat)
    requires i <= j < |s| && (forall k :: i <= k < j ==> !IsDigit(s[k])) && IsDigit(s[j])
    ensures NextDigit(s, i) == j
    decreases j - i
  {
    if i < j { NextDigitAt(s, i + 1, j); }
  }

  lemma {:induction false} TrimKeeps(s: string)
    requires s != "" && !IsSpace(s[0]) && !IsSpace(s[|s| - 1])
    ensures TrimSpace(s) == s
  {
    assert TrimLeft(s) == s && TrimRight(s) == s;
  }

  // A number as printed, behind what is printed before it.
  lemma PrintedIsOneToken(prefix: string, digits: string, text: string)
    requires AllDigits(digits) && prefix != "" && prefix[0] == '$'
             && forall k :: 0 <= k < |prefix| ==> !IsDigit(prefix[k])
    requires text == prefix + Commas(digits)
    ensures OneToken(text) == Some((|prefix|, |text|)) && TrimSpace(text) == text && text[..|prefix|] == prefix
    ensures Normalize(text[|prefix|..]) == Some(digits)
  {
    CommasShape(digits);
    Halves(Commas(digits), HeadLength(digits));
    Halves(text, |prefix|);
    PrintedParts(prefix, Commas(digits), HeadLength(digits), digits, text);
  }

  lemma PrintedParts(prefix: string, printed: string, h: nat, digits: string, text: string)
    requires prefix != "" && prefix[0] == '$' && forall k :: 0 <= k < |prefix| ==> !IsDigit(prefix[k])
    requires h <= |printed| && h <= 3 && AllDigits(printed[..h]) && GroupTail(printed[h..])
             && printed[..h] + TailDigits(printed[h..]) == digits
    requires text == prefix + printed
    ensures OneToken(text) == Some((|prefix|, |text|)) && TrimSpace(text) == text && text[..|prefix|] == prefix
    ensures Normalize(text[|prefix|..]) == Some(digits)
  {
    Halves(printed, h);
    PrintedScans(prefix, printed[..h], printed[h..], text);
    PrintedNormalizes(printed[..h], printed[h..], digits);
    assert text[|prefix|..] == printed;
  }

  lemma PrintedScans(prefix: string, d: string, g: string, text: string)
    requires prefix != "" && prefix[0] == '$' && forall k :: 0 <= k < |prefix| ==> !IsDigit(prefix[k])
    requires AllDigits(d) && |d| <= 3 && GroupTail(g) && text == prefix + (d + g)
    ensures OneToken(text) == Some((|prefix|, |text|)) && TrimSpace(text) == text
  {
    assert text == prefix + d + g;
    ScanPrinted(prefix, d, g);
    LastIsDigit(d, g);
    assert text[|text| - 1] == (d + g)[|d + g| - 1] && text[0] == '$';
    TrimKeeps(text);
  }

  lemma PrintedNormalizes(d: string, g: string, digits: string)
    requires AllDigits(d) && GroupTail(g) && |d| <= 3 && d + TailDigits(g) == digits
    ensures Normalize(d + g) == Some(digits)
  {
    NormalizeShaped(d, g, "");
    assert d + g + "" == d + g && d + TailDigits(g) + "" == digits;
  }

  lemma {:induction false} LastIsDigit(d: string, g: string)
    requires AllDigits(d) && GroupTail(g)
    ensures IsDigit((d + g)[|d + g| - 1])
    decreases |g|
  {
    if g != "" {
      LastIsDigit(g[1..4], g[4..]);
      assert g[1..4] + g[4..] == g[1..];
      assert (d + g)[|d + g| - 1] == g[1..][|g| - 2];
    }
  }

  lemma {:induction false} NoPoint(digits: string)
    requires AllDigits(digits)
    ensures ExactValue(digits) == ValueOf(digits) as real
  {
    assert '.' !in digits;
    SplitWithout(digits, '.');
  }

  // A text that is one token to its end, with nothing negative before it.
  lemma ReadToken(text: string, start: nat, digits: string, round: Rounding)
    requires text != "" && TrimSpace(text) == text && OneToken(text) == Some((start, |text|))
    requires Normalize(text[start..]) == Some(digits) && AllDigits(digits)
    ensures ParseMoney(text, round) == if NegativeSign(text[..start]) then None
            else Scale(round(ValueOf(digits) as real), 1.0, round)
  {
    NoPoint(digits);
    assert text[start..|text|] == text[start..];
  }

  lemma DollarPrefix(prefix: string)
    requires prefix == "$"
    ensures !NegativeSign(prefix) && prefix[0] == '$' && !IsDigit(prefix[0])
  {
    assert prefix[..0] == "" && TrimRight(prefix) == prefix;
  }

  lemma PrintedReads(prefix: string, digits: string, text: string, round: Rounding)
    requires AllDigits(digits) && prefix == "$" && text == prefix + Commas(digits)
    ensures ParseMoney(text, round) == Scale(round(ValueOf(digits) as real), 1.0, round)
  {
    DollarPrefix(prefix);
    PrintedIsOneToken(prefix, digits, text);
    ReadToken(text, 1, digits, round);
  }

  lemma ScaleByOne(parsed: Option<real>, round: Rounding)
    requires parsed.Some? ==> round(parsed.value) == parsed
    ensures Scale(parsed, 1.0, round)
         == if parsed.None? || parsed.value < 0.0 || parsed.value >= TWO_TO_THE_63 as real then None
            else Some((parsed.value + 0.5).Floor)
  {
    if parsed.Some? { assert parsed.value * 1.0 == parsed.value; }
  }

  // Reading what was printed gives the number as a float holds it.
  lemma ReadPrinted(n: nat, text: string, round: Rounding)
    requires IsFloat64(round) && text == FormatMoney(Some(n), "")
    ensures ParseMoney(text, round)
         == (if round(n as real).None? || round(n as real).value < 0.0
             || round(n as real).value >= TWO_TO_THE_63 as real then None
             else Some((round(n as real).value + 0.5).Floor))
  {
    DecimalDigits(n);
    PrintedReads("$", Decimal(n), text, round);
    ScaleByOne(round(n as real), round);
  }

  // The round trip: every whole number up to 2^53 is read back as printed.
  lemma MoneyRoundTrip(n: nat, round: Rounding)
    requires IsFloat64(round) && n <= TWO_TO_THE_53
    ensures ParseMoney(FormatMoney(Some(n), ""), round) == Some(n)
  {
    assert round(n as real) == Some(n as real);
    ReadPrinted(n, FormatMoney(Some(n), ""), round);
    assert (n as real + 0.5).Floor == n;
  }

  // Beyond that, exactly the numbers a float can hold are read back.
  lemma RoundTripIffFloat(n: nat, round: Rounding)
    requires IsFloat64(round) && n <= MAX_INT64
    requires round(n as real).Some? && round(n as real).value >= 0.0
             && round(n as real).value == round(n as real).value.Floor as real
    ensures ParseMoney(FormatMoney(Some(n), ""), round) == Some(n) <==> round(n as real) == Some(n as real)
  {
    var x := round(n as real).value;
    ReadPrinted(n, FormatMoney(Some(n), ""), round);
    assert (x + 0.5).Floor == x.Floor;
  }

  lemma NegativePrefix(prefix: string)
    requires prefix == "$-" || prefix == "$--"
    ensures NegativeSign(prefix) && prefix[0] == '$' && forall k :: 0 <= k < |prefix| ==> !IsDigit(prefix[k])
  {
    assert IsMinus(prefix[|prefix| - 1]) && TrimRight(prefix) == prefix;
  }

  lemma NegativeIsRead(prefix: string, digits: string, text: string, round: Rounding)
    requires AllDigits(digits) && (prefix == "$-" || prefix == "$--") && text == prefix + Commas(digits)
    ensures ParseMoney(text, round) == None
  {
    NegativePrefix(prefix);
    PrintedIsOneToken(prefix, digits, text);
    ReadToken(text, |prefix|, digits, round);
  }

  // Printed negative numbers are refused, the smallest one too.
  lemma NegativeIsRefused(n: int, round: Rounding)
    requires MIN_INT64 <= n < 0
    ensures ParseMoney(FormatMoney(Some(n), ""), round) == None
  {
    DecimalDigits(-n);
    NegativePrint(n);
    NegativeIsRead(if n == MIN_INT64 then "$--" else "$-", Decimal(-n), FormatMoney(Some(n), ""), round);
  }

  lemma Signs(s: string)
    ensures "-" + ("-" + s) == "--" + s && "$" + ("-" + s) == "$-" + s && "$" + ("--" + s) == "$--" + s
  {
  }

  lemma NegativePrint(n: int)
    requires MIN_INT64 <= n < 0
    ensures FormatMoney(Some(n), "") == (if n == MIN_INT64 then "$--" else "$-") + Commas(Decimal(-n))
  {
    Signs(Commas(Decimal(-n)));
    if n == MIN_INT64 { SmallestPrint(-n); }
  }

  lemma SmallestPrint(m: nat)
    requires m == -MIN_INT64
    ensures Commas("-" + Decimal(m)) == "-" + Commas(Decimal(m))
  {
    PowerOfTenAdd(6, 12);
    PowerOfTenAdd(6, 6);
    assert PowerOfTen(2) == 100 && PowerOfTen(4) == 10_000 && PowerOfTen(6) == 1_000_000;
    DecimalLength(m, 19);
    SignedCommas(Decimal(m));
  }

  lemma {:induction false} PowerOfTenAdd(a: nat, b: nat)
    ensures PowerOfTen(a + b) == PowerOfTen(a) * PowerOfTen(b)
  {
    if a > 0 { PowerOfTenAdd(a - 1, b); }
  }

  lemma {:induction false} DecimalLength(n: nat, k: nat)
    requires k >= 1 && n < PowerOfTen(k) && (k > 1 ==> n >= PowerOfTen(k - 1))
    ensures |Decimal(n)| == k
  {
    if k > 1 {
      assert PowerOfTen(k - 1) >= 10 || k == 2;
      DecimalLength(n / 10, k - 1);
    }
  }

  lemma SignedSplit(s: string)
    requires |s| > 3
    ensures ("-" + s)[..|s| - 2] == "-" + s[..|s| - 3] && ("-" + s)[|s| - 2..] == s[|s| - 3..]
  {
  }

  lemma {:induction false} SignedCommas(s: string)
    requires |s| % 3 != 0
    ensures Commas("-" + s) == "-" + Commas(s)
  {
    if |s| > 3 {
      var t := "-" + s;
      SignedCommas(s[..|s| - 3]);
      SignedSplit(s);
      ConcatAssociates("-", Commas(s[..|s| - 3]), ",");
      ConcatAssociates("-", Commas(s[..|s| - 3]) + ",", s[|s| - 3..]);
    }
  }
}
