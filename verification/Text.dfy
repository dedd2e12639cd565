/** Characters and strings as Go's `unicode`, `utf8` and `strings` packages see them. */
module Text {
  /** unicode.IsControl */
  predicate IsControl(c: char) {
    c <= '\U{1F}' || '\U{7F}' <= c <= '\U{9F}'
  }

  /** unicode.IsSpace */
  predicate IsSpace(c: char) {
    '\t' <= c <= '\r' || c == ' ' || c == '\U{85}' || c == '\U{A0}' || c == '\U{1680}' ||
    '\U{2000}' <= c <= '\U{200A}' || c == '\U{2028}' || c == '\U{2029}' || c == '\U{202F}' ||
    c == '\U{205F}' || c == '\U{3000}'
  }

  predicate IsDigit(c: char) {
    '0' <= c <= '9'
  }

  /** The bytes one rune takes in UTF-8. */
  function Utf8Width(c: char): (n: nat)
    ensures 1 <= n <= 4
  {
    if c < '\U{80}' then 1 else if c < '\U{800}' then 2 else if c < '\U{10000}' then 3 else 4
  }

  /** len(s) */
  function Utf8Length(s: string): nat {
    if s == "" then 0 else Utf8Width(s[0]) + Utf8Length(s[1..])
  }

  lemma {:induction false} Utf8LengthConcat(s: string, t: string)
    ensures Utf8Length(s + t) == Utf8Length(s) + Utf8Length(t)
  {
    if s == "" {
      assert s + t == t;
    } else {
      Utf8LengthConcat(s[1..], t);
      assert (s + t)[1..] == s[1..] + t;
    }
  }

  lemma {:induction false} AsciiLength(s: string)
    requires forall k :: 0 <= k < |s| ==> s[k] < '\U{80}'
    ensures Utf8Length(s) == |s|
  {
    if s != "" {
      AsciiLength(s[1..]);
    }
  }

  function Digit(d: nat): (c: char)
    requires d < 10
    ensures IsDigit(c) && DigitValue(c) == d
  {
    '0' + d as char
  }

  function DigitValue(c: char): (d: nat)
    requires IsDigit(c)
    ensures d < 10
  {
    (c - '0') as nat
  }

  /** The decimal notation of a number, without sign or leading zeros. */
  function Decimal(n: nat): (s: string)
    ensures s != "" && forall k :: 0 <= k < |s| ==> IsDigit(s[k])
    ensures n > 0 ==> s[0] != '0'
  {
    if n < 10 then [Digit(n)] else Decimal(n / 10) + [Digit(n % 10)]
  }

  predicate AllDigits(s: string) {
    forall k :: 0 <= k < |s| ==> IsDigit(s[k])
  }

  function DecimalValue(s: string): nat
    requires AllDigits(s)
  {
    if s == "" then 0 else 10 * DecimalValue(s[..|s| - 1]) + DigitValue(s[|s| - 1])
  }

  lemma {:induction false} PositiveIff(digits: string)
    requires AllDigits(digits)
    ensures DecimalValue(digits) > 0 <==> exists k :: 0 <= k < |digits| && digits[k] != '0'
  {
    if digits != "" {
      var front, last := digits[..|digits| - 1], |digits| - 1;
      PositiveIff(front);
      assert DigitValue(digits[last]) > 0 <==> digits[last] != '0';
      assert forall k :: 0 <= k < last ==> front[k] == digits[k];
    }
  }

  lemma {:induction false} DecimalRoundTrip(n: nat)
    ensures DecimalValue(Decimal(n)) == n
  {
    if n >= 10 {
      DecimalRoundTrip(n / 10);
      assert Decimal(n)[..|Decimal(n)| - 1] == Decimal(n / 10);
    }
  }

  // ---------------------------------------------------------------------------------------
  // Trimming, case and containment

  function TrimLeft(s: string): string {
    if s != "" && IsSpace(s[0]) then TrimLeft(s[1..]) else s
  }

  function TrimRight(s: string): string {
    if s != "" && IsSpace(s[|s| - 1]) then TrimRight(s[..|s| - 1]) else s
  }

  /** strings.TrimSpace */
  function TrimSpace(s: string): string {
    TrimRight(TrimLeft(s))
  }

  /** unicode.ToLower, as far as its results are ASCII; these two runes are the only ones outside
      ASCII whose lower case is inside. */
  function LowerRune(c: char): char {
    if 'A' <= c <= 'Z' then c - 'A' + 'a'
    else if c == '\U{130}' then 'i'
    else if c == '\U{212A}' then 'k'
    else c
  }

  /** strings.ToLower, for comparison with ASCII text. */
  function Lower(s: string): (l: string)
    ensures |l| == |s| && forall k :: 0 <= k < |s| ==> l[k] == LowerRune(s[k])
  {
    seq(|s|, k requires 0 <= k < |s| => LowerRune(s[k]))
  }

  predicate OccursAt(s: string, part: string, i: nat) {
    i + |part| <= |s| && s[i..i + |part|] == part
  }

  lemma SliceOfSlice(s: string, a: nat, b: nat, i: nat, j: nat)
    requires a <= b <= |s| && i <= j <= b - a
    ensures s[a..b][i..j] == s[a + i..a + j]
  {
    assert forall k :: 0 <= k < j - i ==> s[a..b][i..j][k] == s[a + i..a + j][k];
  }

  /** strings.Contains */
  predicate Contains(s: string, part: string) {
    exists i :: 0 <= i <= |s| && OccursAt(s, part, i)
  }

  lemma ContainsInPrefix(s: string, longer: string, part: string)
    requires s <= longer && Contains(s, part)
    ensures Contains(longer, part)
  {
    var i :| 0 <= i <= |s| && OccursAt(s, part, i);
    assert s[i..i + |part|] == longer[i..i + |part|];
    assert OccursAt(longer, part, i);
  }

  lemma ContainedRunes(s: string, part: string, c: char)
    requires Contains(s, part) && c in part
    ensures c in s
  {
    var k :| 0 <= k < |part| && part[k] == c;
    var i :| 0 <= i <= |s| && OccursAt(s, part, i);
    assert s[i + k] == s[i..i + |part|][k];
  }

  lemma {:induction false} TrimLeftOfPrefix(s: string, longer: string)
    requires s <= longer
    ensures TrimLeft(s) <= TrimLeft(longer)
  {
    if s != "" && IsSpace(s[0]) {
      TrimLeftOfPrefix(s[1..], longer[1..]);
    }
  }

  lemma {:induction false} TrimRightIsPrefix(s: string)
    ensures TrimRight(s) <= s
  {
    if s != "" && IsSpace(s[|s| - 1]) {
      TrimRightIsPrefix(s[..|s| - 1]);
    }
  }

  lemma {:induction false} TrimRightOfPrefix(s: string, longer: string)
    requires s <= longer
    ensures TrimRight(s) <= TrimRight(longer)
    decreases |longer|
  {
    if |s| == |longer| {
      assert s == longer;
    } else if IsSpace(longer[|longer| - 1]) {
      TrimRightOfPrefix(s, longer[..|longer| - 1]);
    } else {
      TrimRightIsPrefix(s);
    }
  }

  lemma TrimOfPrefix(s: string, longer: string)
    requires s <= longer
    ensures TrimSpace(s) <= TrimSpace(longer)
  {
    TrimLeftOfPrefix(s, longer);
    TrimRightOfPrefix(TrimLeft(s), TrimLeft(longer));
  }

  /** Trimming leaves the stretch between the first and the last rune that is not a space. */
  lemma TrimmedSpan(s: string) returns (a: nat, b: nat)
    ensures a <= b <= |s| && TrimSpace(s) == s[a..b]
    ensures forall k :: 0 <= k < a || b <= k < |s| ==> IsSpace(s[k])
    ensures a < b ==> !IsSpace(s[a]) && !IsSpace(s[b - 1])
  {
    a := TrimmedLeft(s);
    var c := TrimmedRight(s[a..]);
    b := a + c;
    assert s[a..][..c] == s[a..b];
    forall k | b <= k < |s|
      ensures IsSpace(s[k])
    {
      assert s[k] == s[a..][k - a];
    }
  }

  lemma {:induction false} TrimmedLeft(s: string) returns (a: nat)
    ensures a <= |s| && TrimLeft(s) == s[a..] && (a < |s| ==> !IsSpace(s[a]))
    ensures forall k :: 0 <= k < a ==> IsSpace(s[k])
  {
    a := 0;
    if s != "" && IsSpace(s[0]) {
      var rest := TrimmedLeft(s[1..]);
      a := rest + 1;
      assert s[1..][rest..] == s[a..];
      assert forall k :: 1 <= k < a ==> s[k] == s[1..][k - 1];
    }
  }

  lemma {:induction false} TrimmedRight(s: string) returns (b: nat)
    ensures b <= |s| && TrimRight(s) == s[..b] && (b > 0 ==> !IsSpace(s[b - 1]))
    ensures forall k :: b <= k < |s| ==> IsSpace(s[k])
  {
    b := |s|;
    if s != "" && IsSpace(s[|s| - 1]) {
      b := TrimmedRight(s[..|s| - 1]);
    }
  }
}
