/** The selectivity bound on search patterns, against what patterns match.

    The syntax tree is that of Go's regexp/syntax package.  A match is a stretch `text[from..upto]`,
    together with the number of its runes that are pinned: consumed by a literal or by a class of
    at most 40 code points. */
module Regex {
  type Rune = int

  const MIN_SPECIFICITY := 2
  const MAX_NARROW_CLASS_RUNES := 40

  datatype Anchor = BeginLine | EndLine | BeginText | EndText | WordBoundary | NoWordBoundary

  datatype Regexp =
    | NoMatch
    | EmptyMatch
    | Literal(runes: seq<Rune>)
    // Pairs of a lowest and a highest code point.
    | CharClass(ranges: seq<Rune>)
    | AnyChar
    | AnyCharNotNL
    | Assertion(anchor: Anchor)
    | Capture(sub: Regexp)
    | Star(sub: Regexp)
    | Plus(sub: Regexp)
    | Quest(sub: Regexp)
    | Repeat(sub: Regexp, min: nat, max: int)
    | Concat(subs: seq<Regexp>)
    | Alternate(subs: seq<Regexp>)

  // ---------------------------------------------------------------------------------------
  // Character classes

  function Span(low: Rune, high: Rune): (runes: set<Rune>)
    ensures forall c :: c in runes <==> low <= c <= high
    ensures |runes| == if low <= high then high - low + 1 else 0
    decreases high - low
  {
    if low > high then {} else {low} + Span(low + 1, high)
  }

  function Covered(ranges: seq<Rune>): set<Rune> {
    if |ranges| < 2 then {} else Span(ranges[0], ranges[1]) + Covered(ranges[2..])
  }

  /** The form in which the parser leaves a class: its ranges are not empty, apart and ascending. */
  predicate Canonical(ranges: seq<Rune>) {
    |ranges| % 2 == 0 && forall i :: 0 <= i < |ranges| - 1 ==>
      if i % 2 == 0 then ranges[i] <= ranges[i + 1] else ranges[i] < ranges[i + 1]
  }

  predicate Narrow(ranges: seq<Rune>) {
    Size(ranges) <= MAX_NARROW_CLASS_RUNES
  }

  /** The running count, which stops as soon as it is over the limit. */
  function CountFrom(ranges: seq<Rune>, total: int): int {
    if |ranges| < 2 then total
    else
      var next := total + (ranges[1] - ranges[0]) + 1;
      if next > MAX_NARROW_CLASS_RUNES then next else CountFrom(ranges[2..], next)
  }

  lemma {:induction false} CoveredAbove(ranges: seq<Rune>, c: Rune)
    requires Canonical(ranges) && c in Covered(ranges)
    ensures |ranges| >= 2 && ranges[0] <= c
    decreases |ranges|
  {
    if c !in Span(ranges[0], ranges[1]) {
      CanonicalRest(ranges);
      CoveredAbove(ranges[2..], c);
      assert ranges[0] <= ranges[1] < ranges[2];
    }
  }

  lemma CanonicalRest(ranges: seq<Rune>)
    requires Canonical(ranges) && |ranges| >= 2
    ensures Canonical(ranges[2..])
  {
    forall i | 0 <= i < |ranges[2..]| - 1
      ensures if i % 2 == 0 then ranges[2..][i] <= ranges[2..][i + 1] else ranges[2..][i] < ranges[2..][i + 1]
    {
      assert ranges[2..][i] == ranges[i + 2] && ranges[2..][i + 1] == ranges[i + 3] && i % 2 == (i + 2) % 2;
    }
  }

  function Size(ranges: seq<Rune>): nat {
    |Covered(ranges)|
  }

  lemma SizeAdds(ranges: seq<Rune>)
    requires Canonical(ranges)
    ensures |ranges| < 2 ==> Size(ranges) == 0
    ensures |ranges| >= 2 ==> Canonical(ranges[2..]) && ranges[0] <= ranges[1]
    ensures |ranges| >= 2 ==> Size(ranges) == ranges[1] - ranges[0] + 1 + Size(ranges[2..])
  {
    if |ranges| >= 2 {
      var first, rest := Span(ranges[0], ranges[1]), Covered(ranges[2..]);
      CanonicalRest(ranges);
      assert ranges[0] <= ranges[1];
      if |ranges| > 2 {
        assert ranges[1] < ranges[2];
      }
      forall c | c in rest
        ensures c !in first
      {
        CoveredAbove(ranges[2..], c);
      }
      assert first !! rest;
    }
  }

  /** The count is exact up to the limit, and over the limit exactly for wide classes. */
  lemma {:induction false} CountIsCardinality(ranges: seq<Rune>, total: nat)
    requires Canonical(ranges) && total <= MAX_NARROW_CLASS_RUNES
    ensures var all := total + Size(ranges);
            if all <= MAX_NARROW_CLASS_RUNES then CountFrom(ranges, total) == all
            else CountFrom(ranges, total) > MAX_NARROW_CLASS_RUNES
    decreases |ranges|
  {
    hide Canonical, Size;
    SizeAdds(ranges);
    if |ranges| >= 2 {
      var next := total + (ranges[1] - ranges[0]) + 1;
      if next <= MAX_NARROW_CLASS_RUNES {
        CountIsCardinality(ranges[2..], next);
      }
    }
  }

  lemma NarrowCount(ranges: seq<Rune>)
    requires Canonical(ranges)
    ensures CountFrom(ranges, 0) <= MAX_NARROW_CLASS_RUNES <==> Narrow(ranges)
  {
    CountIsCardinality(ranges, 0);
  }

  method ClassRuneCount(ranges: seq<Rune>) returns (total: int)
    ensures total == CountFrom(ranges, 0)
    ensures Canonical(ranges) ==> (total <= MAX_NARROW_CLASS_RUNES <==> Narrow(ranges))
    ensures Canonical(ranges) && Narrow(ranges) ==> total == Size(ranges)
  {
    if Canonical(ranges) {
      CountIsCardinality(ranges, 0);
    }
    total := 0;
    var i := 0;
    assert ranges[0..] == ranges;
    while i + 1 < |ranges|
      invariant 0 <= i <= |ranges|
      invariant CountFrom(ranges, 0) == CountFrom(ranges[i..], total)
    {
      assert ranges[i..][2..] == ranges[i + 2..];
      total := total + (ranges[i + 1] - ranges[i]) + 1;
      if total > MAX_NARROW_CLASS_RUNES {
        return;
      }
      i := i + 2;
    }
  }

  // ---------------------------------------------------------------------------------------
  // The bound

  function Specificity(re: Regexp): nat {
    match re
    case Literal(runes) => |runes|
    case CharClass(ranges) => if CountFrom(ranges, 0) <= MAX_NARROW_CLASS_RUNES then 1 else 0
    case Capture(sub) => Specificity(sub)
    case Concat(subs) => Total(subs)
    case Alternate(subs) => if subs == [] then 0 else Weakest(subs)
    case Plus(sub) => Specificity(sub)
    case Repeat(sub, min, _) => if min < 1 then 0 else Specificity(sub) * min
    case NoMatch => MIN_SPECIFICITY
    case _ => 0
  }

  function Total(subs: seq<Regexp>): nat {
    if subs == [] then 0 else Specificity(subs[0]) + Total(subs[1..])
  }

  function Weakest(subs: seq<Regexp>): nat
    requires subs != []
  {
    var first := Specificity(subs[0]);
    if |subs| == 1 then first
    else
      var rest := Weakest(subs[1..]);
      if rest < first then rest else first
  }

  // What the parser builds.
  predicate WellFormed(re: Regexp) {
    match re
    case CharClass(ranges) => Canonical(ranges)
    case Capture(sub) => WellFormed(sub)
    case Star(sub) => WellFormed(sub)
    case Plus(sub) => WellFormed(sub)
    case Quest(sub) => WellFormed(sub)
    case Repeat(sub, min, max) => WellFormed(sub) && (max == -1 || min <= max)
    case Concat(subs) => forall k :: 0 <= k < |subs| ==> WellFormed(subs[k])
    case Alternate(subs) => forall k :: 0 <= k < |subs| ==> WellFormed(subs[k])
    case _ => true
  }

  // ---------------------------------------------------------------------------------------
  // What a pattern matches

  predicate WordRune(c: Rune) {
    'A' as int <= c <= 'Z' as int || 'a' as int <= c <= 'z' as int || '0' as int <= c <= '9' as int || c == '_' as int
  }

  predicate AtBoundary(text: seq<Rune>, at: nat)
    requires at <= |text|
  {
    (at > 0 && WordRune(text[at - 1])) != (at < |text| && WordRune(text[at]))
  }

  predicate AnchorHolds(anchor: Anchor, text: seq<Rune>, at: nat)
    requires at <= |text|
  {
    match anchor
    case BeginText => at == 0
    case EndText => at == |text|
    case BeginLine => at == 0 || text[at - 1] == 10
    case EndLine => at == |text| || text[at] == 10
    case WordBoundary => AtBoundary(text, at)
    case NoWordBoundary => !AtBoundary(text, at)
  }

  /** `same` tells when a rune of the text is a given rune of a literal up to case. */
  ghost predicate Matches(re: Regexp, same: (Rune, Rune) -> bool, text: seq<Rune>, from: nat, upto: nat, pins: nat)
    decreases re, 1, 0
  {
    from <= upto <= |text| &&
    match re
    case NoMatch => false
    case EmptyMatch => from == upto && pins == 0
    case Literal(runes) =>
      upto - from == |runes| == pins && forall k :: 0 <= k < |runes| ==> same(runes[k], text[from + k])
    case CharClass(ranges) =>
      upto == from + 1 && text[from] in Covered(ranges) && pins == if Narrow(ranges) then 1 else 0
    case AnyChar => upto == from + 1 && pins == 0
    case AnyCharNotNL => upto == from + 1 && text[from] != 10 && pins == 0
    case Assertion(anchor) => from == upto && pins == 0 && AnchorHolds(anchor, text, from)
    case Capture(sub) => Matches(sub, same, text, from, upto, pins)
    case Star(sub) => exists n: nat :: MatchesTimes(sub, n, same, text, from, upto, pins)
    case Plus(sub) => exists n: nat :: n >= 1 && MatchesTimes(sub, n, same, text, from, upto, pins)
    case Quest(sub) => (from == upto && pins == 0) || Matches(sub, same, text, from, upto, pins)
    case Repeat(sub, min, max) =>
      exists n: nat :: min <= n && (max == -1 || n <= max) && MatchesTimes(sub, n, same, text, from, upto, pins)
    case Concat(subs) => MatchesInTurn(subs, same, text, from, upto, pins)
    case Alternate(subs) => exists k :: 0 <= k < |subs| && Matches(subs[k], same, text, from, upto, pins)
  }

  ghost predicate MatchesTimes(re: Regexp, n: nat, same: (Rune, Rune) -> bool, text: seq<Rune>, from: nat, upto: nat, pins: nat)
    decreases re, 2, n
  {
    if n == 0 then from == upto && pins == 0
    else
      exists mid: nat, p: nat ::
        p <= pins && Matches(re, same, text, from, mid, p) && MatchesTimes(re, n - 1, same, text, mid, upto, pins - p)
  }

  ghost predicate MatchesInTurn(subs: seq<Regexp>, same: (Rune, Rune) -> bool, text: seq<Rune>, from: nat, upto: nat, pins: nat)
    decreases subs, 0, 0
  {
    if subs == [] then from == upto && pins == 0
    else
      exists mid: nat, p: nat ::
        p <= pins && Matches(subs[0], same, text, from, mid, p) && MatchesInTurn(subs[1..], same, text, mid, upto, pins - p)
  }

  // ---------------------------------------------------------------------------------------
  // Soundness: every match pins at least as many runes as the bound says

  lemma {:induction false} WeakestIsLeast(subs: seq<Regexp>, k: nat)
    requires k < |subs|
    ensures Weakest(subs) <= Specificity(subs[k])
  {
    if k > 0 {
      WeakestIsLeast(subs[1..], k - 1);
    }
  }

  lemma MoreTimes(s: nat, min: nat, n: nat)
    requires min <= n
    ensures s * min <= s * n
  {
  }

  lemma {:induction false} SpecificityIsSound(
      re: Regexp, same: (Rune, Rune) -> bool, text: seq<Rune>, from: nat, upto: nat, pins: nat)
    requires WellFormed(re) && Matches(re, same, text, from, upto, pins)
    ensures Specificity(re) <= pins <= upto - from
    decreases re, 1, 0
  {
    hide Covered, Canonical, CountFrom, Narrow, MatchesTimes, MatchesInTurn, Total, Weakest, AnchorHolds;
    match re {
      case CharClass(ranges) => NarrowCount(ranges);
      case Capture(sub) => SpecificityIsSound(sub, same, text, from, upto, pins);
      case Quest(sub) =>
        if !(from == upto && pins == 0) {
          SpecificityIsSound(sub, same, text, from, upto, pins);
        }
      case Star(sub) =>
        var n: nat :| MatchesTimes(sub, n, same, text, from, upto, pins);
        TimesIsSound(sub, n, same, text, from, upto, pins);
      case Plus(sub) =>
        var n: nat :| n >= 1 && MatchesTimes(sub, n, same, text, from, upto, pins);
        TimesIsSound(sub, n, same, text, from, upto, pins);
      case Repeat(sub, min, max) =>
        var n: nat :| min <= n && (max == -1 || n <= max) && MatchesTimes(sub, n, same, text, from, upto, pins);
        TimesIsSound(sub, n, same, text, from, upto, pins);
        if min >= 1 {
          MoreTimes(Specificity(sub), min, n);
        }
      case Concat(subs) => InTurnIsSound(subs, same, text, from, upto, pins);
      case Alternate(subs) =>
        var k :| 0 <= k < |subs| && Matches(subs[k], same, text, from, upto, pins);
        SpecificityIsSound(subs[k], same, text, from, upto, pins);
        WeakestIsLeast(subs, k);
      case _ =>
    }
  }

  lemma {:induction false} TimesIsSound(
      re: Regexp, n: nat, same: (Rune, Rune) -> bool, text: seq<Rune>, from: nat, upto: nat, pins: nat)
    requires WellFormed(re) && MatchesTimes(re, n, same, text, from, upto, pins)
    ensures from <= upto && Specificity(re) * n <= pins <= upto - from
    decreases re, 2, n
  {
    if n > 0 {
      var mid: nat, p: nat :| p <= pins && Matches(re, same, text, from, mid, p) &&
                              MatchesTimes(re, n - 1, same, text, mid, upto, pins - p);
      SpecificityIsSound(re, same, text, from, mid, p);
      TimesIsSound(re, n - 1, same, text, mid, upto, pins - p);
      assert Specificity(re) * n == Specificity(re) * (n - 1) + Specificity(re);
    }
  }

  lemma {:induction false} InTurnIsSound(
      subs: seq<Regexp>, same: (Rune, Rune) -> bool, text: seq<Rune>, from: nat, upto: nat, pins: nat)
    requires (forall k :: 0 <= k < |subs| ==> WellFormed(subs[k])) && MatchesInTurn(subs, same, text, from, upto, pins)
    ensures from <= upto && Total(subs) <= pins <= upto - from
    decreases subs, 0, 0
  {
    if subs != [] {
      var mid: nat, p: nat :| p <= pins && Matches(subs[0], same, text, from, mid, p) &&
                              MatchesInTurn(subs[1..], same, text, mid, upto, pins - p);
      SpecificityIsSound(subs[0], same, text, from, mid, p);
      InTurnIsSound(subs[1..], same, text, mid, upto, pins - p);
    }
  }

  /** An accepted pattern, case folded or not, never matches through fewer than two pinned runes. */
  lemma AcceptedMatchesAreLong(re: Regexp, same: (Rune, Rune) -> bool, text: seq<Rune>, from: nat, upto: nat, pins: nat)
    requires WellFormed(re) && Specificity(re) >= MIN_SPECIFICITY && Matches(re, same, text, from, upto, pins)
    ensures MIN_SPECIFICITY <= pins <= upto - from
  {
    SpecificityIsSound(re, same, text, from, upto, pins);
  }

  // ---------------------------------------------------------------------------------------
  // Tightness: some match pins no more than the bound says

  /** A word matched with as few pinned runes as possible. */
  function WeakestWord(re: Regexp): seq<Rune>
    decreases re, 1, 0
  {
    match re
    case Literal(runes) => runes
    case CharClass(ranges) => if ranges == [] then [] else [ranges[0]]
    case AnyChar => [0]
    case AnyCharNotNL => [0]
    case Capture(sub) => WeakestWord(sub)
    case Plus(sub) => WeakestWord(sub)
    case Repeat(sub, min, _) => Times(WeakestWord(sub), min)
    case Concat(subs) => InTurn(subs)
    case Alternate(subs) => if subs == [] then [] else WeakestWord(subs[WeakestBranch(subs)])
    case _ => []
  }

  function Times(word: seq<Rune>, n: nat): seq<Rune> {
    if n == 0 then [] else word + Times(word, n - 1)
  }

  function InTurn(subs: seq<Regexp>): seq<Rune>
    decreases subs, 0, 0
  {
    if subs == [] then [] else WeakestWord(subs[0]) + InTurn(subs[1..])
  }

  function WeakestBranch(subs: seq<Regexp>): (k: nat)
    requires subs != []
    ensures k < |subs| && Specificity(subs[k]) == Weakest(subs)
  {
    if |subs| == 1 || Weakest(subs[1..]) >= Specificity(subs[0]) then 0 else 1 + WeakestBranch(subs[1..])
  }

  /** The word stands in the text, from the given position on. */
  predicate StandsAt(word: seq<Rune>, text: seq<Rune>, from: nat) {
    from + |word| <= |text| && text[from..from + |word|] == word
  }

  /** The pattern matches its weakest word, where `atStart` and `atEnd` tell that the word stands at
      the start and at the end of the text.  Text and line anchors hold there; word boundaries, which
      look at the runes around, are left aside. */
  predicate InhabitedAt(re: Regexp, atStart: bool, atEnd: bool)
    decreases re, 1, 0
  {
    match re
    case NoMatch => false
    case Assertion(anchor) =>
      (atStart && (anchor == BeginText || anchor == BeginLine)) || (atEnd && (anchor == EndText || anchor == EndLine))
    case CharClass(ranges) => ranges != []
    case Capture(sub) => InhabitedAt(sub, atStart, atEnd)
    case Plus(sub) => InhabitedAt(sub, atStart, atEnd)
    case Repeat(sub, min, _) => InhabitedTimes(sub, min, atStart, atEnd)
    case Concat(subs) => InhabitedInTurn(subs, atStart, atEnd)
    case Alternate(subs) => subs != [] && InhabitedAt(subs[WeakestBranch(subs)], atStart, atEnd)
    case _ => true
  }

  predicate InhabitedTimes(re: Regexp, n: nat, atStart: bool, atEnd: bool)
    decreases re, 2, n
  {
    n == 0 ||
    (InhabitedAt(re, atStart, atEnd && Times(WeakestWord(re), n - 1) == []) &&
     InhabitedTimes(re, n - 1, atStart && WeakestWord(re) == [], atEnd))
  }

  predicate InhabitedInTurn(subs: seq<Regexp>, atStart: bool, atEnd: bool)
    decreases subs, 0, 0
  {
    subs == [] ||
    (InhabitedAt(subs[0], atStart, atEnd && InTurn(subs[1..]) == []) &&
     InhabitedInTurn(subs[1..], atStart && WeakestWord(subs[0]) == [], atEnd))
  }

  /** No part that the weakest match needs is unable to match, anchors at the ends of the text included. */
  predicate Inhabited(re: Regexp) {
    InhabitedAt(re, true, true)
  }

  /** The word stands in the text, at its start and at its end if so required. */
  predicate Placed(word: seq<Rune>, text: seq<Rune>, from: nat, atStart: bool, atEnd: bool) {
    StandsAt(word, text, from) && (atStart ==> from == 0) && (atEnd ==> from + |word| == |text|)
  }

  lemma StandsSplit(left: seq<Rune>, right: seq<Rune>, text: seq<Rune>, from: nat)
    requires StandsAt(left + right, text, from)
    ensures StandsAt(left, text, from) && StandsAt(right, text, from + |left|)
  {
    var whole := text[from..from + |left| + |right|];
    assert left == whole[..|left|] && right == whole[|left|..];
    assert text[from..from + |left|] == whole[..|left|];
    assert text[from + |left|..from + |left| + |right|] == whole[|left|..];
  }

  lemma WordStands(word: seq<Rune>, text: seq<Rune>, from: nat)
    requires StandsAt(word, text, from)
    ensures forall k :: 0 <= k < |word| ==> text[from + k] == word[k]
  {
    forall k | 0 <= k < |word|
      ensures text[from + k] == word[k]
    {
      assert text[from..from + |word|][k] == word[k];
    }
  }

  lemma FirstIsCovered(ranges: seq<Rune>)
    requires Canonical(ranges) && ranges != []
    ensures ranges[0] in Covered(ranges)
  {
    assert ranges[0] <= ranges[1];
  }

  predicate Leaf(re: Regexp) {
    re.EmptyMatch? || re.Literal? || re.CharClass? || re.AnyChar? || re.AnyCharNotNL?
  }

  lemma LeafIsAttained(re: Regexp, same: (Rune, Rune) -> bool, text: seq<Rune>, from: nat)
    requires WellFormed(re) && Leaf(re) && (re.CharClass? ==> re.ranges != []) && (forall c :: same(c, c))
    requires StandsAt(WeakestWord(re), text, from)
    ensures Matches(re, same, text, from, from + |WeakestWord(re)|, Specificity(re))
  {
    hide Covered, Canonical, CountFrom, Narrow;
    WordStands(WeakestWord(re), text, from);
    if re.CharClass? {
      FirstIsCovered(re.ranges);
      NarrowCount(re.ranges);
    }
  }

  lemma PlacedSplit(left: seq<Rune>, right: seq<Rune>, text: seq<Rune>, from: nat, atStart: bool, atEnd: bool)
    requires Placed(left + right, text, from, atStart, atEnd)
    ensures Placed(left, text, from, atStart, atEnd && right == [])
    ensures Placed(right, text, from + |left|, atStart && left == [], atEnd)
  {
    StandsSplit(left, right, text, from);
  }

  lemma PlacedStands(word: seq<Rune>, text: seq<Rune>, from: nat, atStart: bool, atEnd: bool)
    requires Placed(word, text, from, atStart, atEnd)
    ensures StandsAt(word, text, from) && from + |word| <= |text|
  {
  }

  lemma AnchorIsAttained(anchor: Anchor, same: (Rune, Rune) -> bool, text: seq<Rune>, from: nat, atStart: bool, atEnd: bool)
    requires Placed([], text, from, atStart, atEnd) && InhabitedAt(Assertion(anchor), atStart, atEnd)
    ensures Matches(Assertion(anchor), same, text, from, from, 0)
  {
  }

  lemma {:induction false} SpecificityIsAttained(
      re: Regexp, same: (Rune, Rune) -> bool, text: seq<Rune>, from: nat, atStart: bool, atEnd: bool)
    requires WellFormed(re) && InhabitedAt(re, atStart, atEnd) && (forall c :: same(c, c))
    requires Placed(WeakestWord(re), text, from, atStart, atEnd)
    ensures Matches(re, same, text, from, from + |WeakestWord(re)|, Specificity(re))
    decreases re, 1, 0
  {
    hide StandsAt, Covered, Canonical, CountFrom, Narrow, MatchesInTurn, MatchesTimes, Placed, InhabitedInTurn, InhabitedTimes;
    hide Times, InTurn, Total, Weakest, AnchorHolds;
    PlacedStands(WeakestWord(re), text, from, atStart, atEnd);
    if Leaf(re) {
      LeafIsAttained(re, same, text, from);
      return;
    }
    match re {
      case Assertion(anchor) => AnchorIsAttained(anchor, same, text, from, atStart, atEnd);
      case Capture(sub) => SpecificityIsAttained(sub, same, text, from, atStart, atEnd);
      case Plus(sub) =>
        SpecificityIsAttained(sub, same, text, from, atStart, atEnd);
        OnceIsTimes(sub, same, text, from, from + |WeakestWord(re)|, Specificity(sub));
      case Star(sub) => NoTimes(sub, same, text, from);
      case Repeat(sub, min, _) => TimesAttained(sub, min, same, text, from, atStart, atEnd);
      case Concat(subs) => InTurnAttained(subs, same, text, from, atStart, atEnd);
      case Alternate(subs) =>
        var k := WeakestBranch(subs);
        SpecificityIsAttained(subs[k], same, text, from, atStart, atEnd);
      case _ =>
    }
  }

  lemma NoTimes(re: Regexp, same: (Rune, Rune) -> bool, text: seq<Rune>, from: nat)
    ensures MatchesTimes(re, 0, same, text, from, from, 0)
  {
  }

  lemma OneMoreTime(re: Regexp, n: nat, same: (Rune, Rune) -> bool, text: seq<Rune>, from: nat, mid: nat, upto: nat, p: nat, q: nat)
    requires Matches(re, same, text, from, mid, p) && MatchesTimes(re, n, same, text, mid, upto, q)
    ensures MatchesTimes(re, n + 1, same, text, from, upto, p + q)
  {
    assert p + q - p == q;
  }

  lemma OneMoreInTurn(subs: seq<Regexp>, same: (Rune, Rune) -> bool, text: seq<Rune>, from: nat, mid: nat, upto: nat, p: nat, q: nat)
    requires subs != [] && Matches(subs[0], same, text, from, mid, p)
    requires MatchesInTurn(subs[1..], same, text, mid, upto, q)
    ensures MatchesInTurn(subs, same, text, from, upto, p + q)
  {
    assert p + q - p == q;
  }

  lemma OnceIsTimes(re: Regexp, same: (Rune, Rune) -> bool, text: seq<Rune>, from: nat, upto: nat, pins: nat)
    requires Matches(re, same, text, from, upto, pins)
    ensures MatchesTimes(re, 1, same, text, from, upto, pins)
  {
    assert MatchesTimes(re, 0, same, text, upto, upto, pins - pins);
  }

  function Product(s: nat, n: nat): nat {
    s * n
  }

  lemma ProductNext(s: nat, n: nat)
    ensures Product(s, n) == if n == 0 then 0 else s + Product(s, n - 1)
  {
  }

  lemma {:induction false} TimesAttained(
      re: Regexp, n: nat, same: (Rune, Rune) -> bool, text: seq<Rune>, from: nat, atStart: bool, atEnd: bool)
    requires WellFormed(re) && InhabitedTimes(re, n, atStart, atEnd) && (forall c :: same(c, c))
    requires Placed(Times(WeakestWord(re), n), text, from, atStart, atEnd)
    ensures MatchesTimes(re, n, same, text, from, from + |Times(WeakestWord(re), n)|, Product(Specificity(re), n))
    decreases re, 2, n
  {
    hide Matches, StandsAt, WellFormed, InhabitedAt, Specificity, WeakestWord, Placed, Product;
    ProductNext(Specificity(re), n);
    PlacedStands(Times(WeakestWord(re), n), text, from, atStart, atEnd);
    if n > 0 {
      var word := WeakestWord(re);
      PlacedSplit(word, Times(word, n - 1), text, from, atStart, atEnd);
      SpecificityIsAttained(re, same, text, from, atStart, atEnd && Times(word, n - 1) == []);
      TimesAttained(re, n - 1, same, text, from + |word|, atStart && word == [], atEnd);
      var upto := from + |Times(word, n)|;
      OneMoreTime(re, n - 1, same, text, from, from + |word|, upto, Specificity(re), Product(Specificity(re), n - 1));
    }
  }

  lemma {:induction false} InTurnAttained(
      subs: seq<Regexp>, same: (Rune, Rune) -> bool, text: seq<Rune>, from: nat, atStart: bool, atEnd: bool)
    requires (forall k :: 0 <= k < |subs| ==> WellFormed(subs[k])) && InhabitedInTurn(subs, atStart, atEnd)
    requires (forall c :: same(c, c)) && Placed(InTurn(subs), text, from, atStart, atEnd)
    ensures MatchesInTurn(subs, same, text, from, from + |InTurn(subs)|, Total(subs))
    decreases subs, 0, 0
  {
    hide Matches, StandsAt, WellFormed, InhabitedAt, Specificity, WeakestWord, Placed;
    PlacedStands(InTurn(subs), text, from, atStart, atEnd);
    if subs != [] {
      var word, rest := WeakestWord(subs[0]), InTurn(subs[1..]);
      PlacedSplit(word, rest, text, from, atStart, atEnd);
      SpecificityIsAttained(subs[0], same, text, from, atStart, atEnd && rest == []);
      var mid, upto := from + |word|, from + |InTurn(subs)|;
      InTurnAttained(subs[1..], same, text, mid, atStart && word == [], atEnd);
      OneMoreInTurn(subs, same, text, from, mid, upto, Specificity(subs[0]), Total(subs[1..]));
    }
  }

  /** The bound is the least number of pinned runes over all matches of the pattern in any text. */
  lemma SpecificityIsExact(re: Regexp, same: (Rune, Rune) -> bool)
    requires WellFormed(re) && Inhabited(re) && forall c :: same(c, c)
    ensures Matches(re, same, WeakestWord(re), 0, |WeakestWord(re)|, Specificity(re))
    ensures forall text, from: nat, upto: nat, pins: nat ::
              Matches(re, same, text, from, upto, pins) ==> Specificity(re) <= pins
  {
    assert WeakestWord(re)[0..|WeakestWord(re)|] == WeakestWord(re);
    SpecificityIsAttained(re, same, WeakestWord(re), 0, true, true);
    forall text, from: nat, upto: nat, pins: nat | Matches(re, same, text, from, upto, pins)
      ensures Specificity(re) <= pins
    {
      SpecificityIsSound(re, same, text, from, upto, pins);
    }
  }

  /** A pattern that can match is accepted exactly when all its matches pin at least two runes. */
  lemma AcceptedIffSelective(re: Regexp, same: (Rune, Rune) -> bool)
    requires WellFormed(re) && Inhabited(re) && forall c :: same(c, c)
    ensures Specificity(re) >= MIN_SPECIFICITY <==>
            forall text, from: nat, upto: nat, pins: nat ::
              Matches(re, same, text, from, upto, pins) ==> pins >= MIN_SPECIFICITY
  {
    hide Matches, Specificity, Inhabited, WellFormed;
    SpecificityIsExact(re, same);
    var word := WeakestWord(re);
    assert Matches(re, same, word, 0, |word|, Specificity(re));
  }

  /** Anchored patterns are covered: `^ab$` pins two runes at least, and exactly two in `ab`. */
  lemma AnchoredPatternExample(same: (Rune, Rune) -> bool)
    requires forall c :: same(c, c)
    ensures var re := Concat([Assertion(BeginText), Literal([97, 98]), Assertion(EndText)]);
            Inhabited(re) && Specificity(re) == 2 && Matches(re, same, [97, 98], 0, 2, 2)
  {
    hide InhabitedAt, InhabitedInTurn, InTurn, Total, WeakestWord, Matches;
    var begin, word, end := Assertion(BeginText), Literal([97, 98]), Assertion(EndText);
    LiteralIsInhabited([97, 98], true, true);
    AnchorIsInhabited(BeginText, true, false);
    AnchorIsInhabited(EndText, false, true);
    NothingInTurn(false, true);
    Prepend(end, [], false, true);
    Prepend(word, [end], true, true);
    Prepend(begin, [word, end], true, true);
    var subs := [begin, word, end];
    assert [end] + [] == [end] && [word] + [end] == [word, end] && [begin] + [word, end] == subs;
    ConcatIs(subs);
    assert WeakestWord(Concat(subs)) == [97, 98];
    SpecificityIsExact(Concat(subs), same);
  }

  lemma NothingInTurn(atStart: bool, atEnd: bool)
    ensures InTurn([]) == [] && Total([]) == 0 && InhabitedInTurn([], atStart, atEnd)
  {
  }

  lemma Prepend(re: Regexp, rest: seq<Regexp>, atStart: bool, atEnd: bool)
    ensures var subs := [re] + rest;
            InTurn(subs) == WeakestWord(re) + InTurn(rest) && Total(subs) == Specificity(re) + Total(rest) &&
            (InhabitedInTurn(subs, atStart, atEnd) <==>
              InhabitedAt(re, atStart, atEnd && InTurn(rest) == []) && InhabitedInTurn(rest, atStart && WeakestWord(re) == [], atEnd))
  {
    assert ([re] + rest)[1..] == rest;
  }

  lemma ConcatIs(subs: seq<Regexp>)
    ensures WeakestWord(Concat(subs)) == InTurn(subs) && Specificity(Concat(subs)) == Total(subs)
    ensures Inhabited(Concat(subs)) <==> InhabitedInTurn(subs, true, true)
  {
  }

  lemma LiteralIsInhabited(runes: seq<Rune>, atStart: bool, atEnd: bool)
    ensures InhabitedAt(Literal(runes), atStart, atEnd) && WeakestWord(Literal(runes)) == runes
  {
  }

  lemma AnchorIsInhabited(anchor: Anchor, atStart: bool, atEnd: bool)
    requires (atStart && anchor == BeginText) || (atEnd && anchor == EndText)
    ensures InhabitedAt(Assertion(anchor), atStart, atEnd) && WeakestWord(Assertion(anchor)) == []
  {
  }
}
