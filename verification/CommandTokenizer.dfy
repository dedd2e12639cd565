/** Splitting a command message into tokens, and how quoting undoes it. */
module CommandTokenizer {
  import opened Wrappers
  import opened Text

  const WIDE_SPACE := '\U{3000}'

  // The scanner: the tokens so far, the token being read, the open quote, and the two flags.
  datatype Scan = Scan(tokens: seq<string>, current: string, quote: Option<char>, escaped: bool, started: bool)

  const START := Scan([], "", None, false, false)

  function Flush(s: Scan): Scan {
    if s.started then s.(tokens := s.tokens + [s.current], current := "", started := false) else s
  }

  function Next(s: Scan, c: char): Scan {
    if s.escaped then s.(current := s.current + [c], escaped := false, started := true)
    else if c == '\\' && s.quote.Some? then s.(escaped := true)
    else if s.quote.Some? then
      if c == s.quote.value then s.(quote := None) else s.(current := s.current + [c])
    else if c == '\'' || c == '"' then s.(quote := Some(c), started := true)
    else if IsSpace(c) then Flush(s)
    else s.(current := s.current + [c], started := true)
  }

  /** The state after reading all of `text` from state `s`. */
  function Read(s: Scan, text: string): Scan
    decreases |text|
  {
    if text == "" then s else Read(Next(s, text[0]), text[1..])
  }

  function Narrow(c: char): char {
    if c == WIDE_SPACE then ' ' else c
  }

  function ReplaceWide(text: string): (r: string)
    ensures |r| == |text| && forall k :: 0 <= k < |text| ==> r[k] == Narrow(text[k])
  {
    seq(|text|, k requires 0 <= k < |text| => Narrow(text[k]))
  }

  function Finish(s: Scan): Option<seq<string>> {
    if s.escaped || s.quote.Some? then None else Some(Flush(s).tokens)
  }

  /** The tokens of a message; None for an unterminated quote. */
  function Tokens(message: string): Option<seq<string>> {
    Finish(Read(START, ReplaceWide(TrimSpace(message))))
  }

  method Tokenize(message: string) returns (r: Option<seq<string>>)
    ensures r == Tokens(message)
  {
    var value := ReplaceWide(TrimSpace(message));
    var tokens: seq<string>, current, quote, escaped, started := [], "", None, false, false;
    var i := 0;
    assert value[0..] == value;
    while i < |value|
      invariant i <= |value|
      invariant Read(Scan(tokens, current, quote, escaped, started), value[i..]) == Read(START, value)
    {
      var c := value[i];
      assert value[i..][1..] == value[i + 1..];
      i := i + 1;
      if escaped {
        current, escaped, started := current + [c], false, true;
        continue;
      }
      if c == '\\' && quote.Some? {
        escaped := true;
        continue;
      }
      if quote.Some? {
        if c == quote.value {
          quote := None;
        } else {
          current := current + [c];
        }
        continue;
      }
      if c == '\'' || c == '"' {
        quote, started := Some(c), true;
        continue;
      }
      if IsSpace(c) {
        if started {
          tokens, current, started := tokens + [current], "", false;
        }
        continue;
      }
      current, started := current + [c], true;
    }
    if escaped || quote.Some? {
      return None;
    }
    if started {
      tokens := tokens + [current];
    }
    r := Some(tokens);
  }

  lemma {:induction false} ReadConcat(s: Scan, a: string, b: string)
    ensures Read(s, a + b) == Read(Read(s, a), b)
    decreases |a|
  {
    if a == "" {
      assert a + b == b;
    } else {
      ReadConcat(Next(s, a[0]), a[1..], b);
      assert (a + b)[1..] == a[1..] + b;
    }
  }

  // ---------------------------------------------------------------------------------------
  // Quoting

  // How a command line spells a word: stretches of bare runes and of quoted runes, some of them
  // escaped, up to the gap before the next word.
  datatype Piece = Plain(c: char) | Escaped(c: char)
  datatype Segment = Bare(text: string) | Quoted(mark: char, body: seq<Piece>)
  datatype Spelling = Spelling(segments: seq<Segment>, gap: string)

  function SpellBody(body: seq<Piece>): string {
    if body == [] then ""
    else (if body[0].Escaped? then ['\\', body[0].c] else [body[0].c]) + SpellBody(body[1..])
  }

  function Spell(s: Segment): string {
    match s
    case Bare(text) => text
    case Quoted(mark, body) => [mark] + SpellBody(body) + [mark]
  }

  function SpellAll(segments: seq<Segment>): string {
    if segments == [] then "" else Spell(segments[0]) + SpellAll(segments[1..])
  }

  /** The words, each with the gap after it. */
  function Gapped(words: seq<Spelling>): string {
    if words == [] then "" else SpellAll(words[0].segments) + words[0].gap + Gapped(words[1..])
  }

  /** The words, with the gaps between them. */
  function Line(words: seq<Spelling>): string {
    if words == [] then "" else Gapped(words[..|words| - 1]) + SpellAll(words[|words| - 1].segments)
  }

  function BodyText(body: seq<Piece>): string {
    seq(|body|, k requires 0 <= k < |body| => body[k].c)
  }

  function WordText(segments: seq<Segment>): string {
    if segments == [] then ""
    else (match segments[0] case Bare(text) => text case Quoted(_, body) => BodyText(body)) + WordText(segments[1..])
  }

  function Texts(words: seq<Spelling>): seq<string> {
    seq(|words|, k requires 0 <= k < |words| => WordText(words[k].segments))
  }

  predicate IsMark(c: char) {
    c == '"' || c == '\''
  }

  predicate PlainRune(c: char) {
    !IsSpace(c) && !IsMark(c)
  }

  predicate ValidBody(mark: char, body: seq<Piece>) {
    IsMark(mark) && forall k :: 0 <= k < |body| && body[k].Plain? ==> body[k].c != mark && body[k].c != '\\'
  }

  predicate ValidSegment(s: Segment) {
    match s
    case Bare(text) => text != "" && forall k :: 0 <= k < |text| ==> PlainRune(text[k])
    case Quoted(mark, body) => ValidBody(mark, body)
  }

  predicate ValidSegments(segments: seq<Segment>) {
    forall k :: 0 <= k < |segments| ==> ValidSegment(segments[k])
  }

  predicate ValidSpelling(w: Spelling) {
    w.segments != [] && ValidSegments(w.segments) && w.gap != "" && forall k :: 0 <= k < |w.gap| ==> IsSpace(w.gap[k])
  }

  lemma ReadOne(s: Scan, c: char)
    ensures Read(s, [c]) == Next(s, c)
  {
    assert [c][1..] == "";
  }

  lemma {:induction false} ReadPlain(s: Scan, text: string)
    requires s.quote.None? && !s.escaped && forall k :: 0 <= k < |text| ==> PlainRune(text[k])
    ensures Read(s, text) == s.(current := s.current + text, started := s.started || text != "")
    decreases |text|
  {
    if text == "" {
      assert s.current + text == s.current;
    } else {
      var t := Next(s, text[0]);
      ReadPlain(t, text[1..]);
      assert s.current + text == s.current + [text[0]] + text[1..];
    }
  }

  lemma {:induction false} ReadBody(s: Scan, body: seq<Piece>)
    requires s.quote.Some? && ValidBody(s.quote.value, body) && !s.escaped && s.started
    ensures Read(s, SpellBody(body)) == s.(current := s.current + BodyText(body))
    decreases |body|
  {
    if body == [] {
      assert s.current + BodyText(body) == s.current;
    } else {
      var c := body[0].c;
      var next := s.(current := s.current + [c]);
      if body[0].Escaped? {
        ReadConcat(s, ['\\', c], SpellBody(body[1..]));
        ReadConcat(s, ['\\'], [c]);
        assert ['\\', c] == ['\\'] + [c];
        ReadOne(s, '\\');
        ReadOne(Next(s, '\\'), c);
      } else {
        ReadConcat(s, [c], SpellBody(body[1..]));
        ReadOne(s, c);
      }
      ReadBody(next, body[1..]);
      assert s.current + BodyText(body) == next.current + BodyText(body[1..]);
    }
  }

  lemma ReadOpened(s: Scan, mark: char, body: seq<Piece>)
    requires s.quote.None? && !s.escaped && ValidBody(mark, body)
    ensures Read(s, [mark] + SpellBody(body)) == s.(current := s.current + BodyText(body), quote := Some(mark), started := true)
  {
    ReadConcat(s, [mark], SpellBody(body));
    ReadOne(s, mark);
    assert !IsSpace(mark);
    ReadBody(s.(quote := Some(mark), started := true), body);
  }

  lemma {:induction false} ReadSegments(s: Scan, segments: seq<Segment>)
    requires s.quote.None? && !s.escaped && ValidSegments(segments)
    ensures Read(s, SpellAll(segments)) == s.(current := s.current + WordText(segments), started := s.started || segments != [])
    decreases |segments|
  {
    hide Next, Read, Spell, ValidSegment;
    if segments == [] {
      assert s.current + WordText(segments) == s.current;
      NothingToRead(s);
    } else {
      var text := WordText([segments[0]]);
      var next := s.(current := s.current + text, started := true);
      ReadConcat(s, Spell(segments[0]), SpellAll(segments[1..]));
      ReadSegment(s, segments[0]);
      ReadSegments(next, segments[1..]);
      WordTextStep(segments);
      assert s.current + WordText(segments) == next.current + WordText(segments[1..]);
    }
  }

  lemma WordTextStep(segments: seq<Segment>)
    requires segments != []
    ensures WordText(segments) == WordText([segments[0]]) + WordText(segments[1..])
  {
    assert [segments[0]][1..] == [];
  }

  lemma ReadSegment(s: Scan, segment: Segment)
    requires s.quote.None? && !s.escaped && ValidSegment(segment)
    ensures Read(s, Spell(segment)) == s.(current := s.current + WordText([segment]), started := true)
  {
    hide Read;
    var text := match segment case Bare(text) => text case Quoted(_, body) => BodyText(body);
    assert WordText([segment]) == text + WordText([segment][1..]) == text;
    match segment
    case Bare(text) => ReadPlain(s, text);
    case Quoted(mark, body) =>
      ReadOpened(s, mark, body);
      ReadConcat(s, [mark] + SpellBody(body), [mark]);
      ReadOne(Read(s, [mark] + SpellBody(body)), mark);
  }

  lemma NothingToRead(s: Scan)
    ensures Read(s, "") == s
  {
  }

  lemma {:induction false} ReadSpaces(s: Scan, gap: string)
    requires s.quote.None? && !s.escaped && !s.started && forall k :: 0 <= k < |gap| ==> IsSpace(gap[k])
    ensures Read(s, gap) == s
    decreases |gap|
  {
    if gap != "" {
      ReadSpaces(s, gap[1..]);
    }
  }

  lemma ReadGap(before: seq<string>, token: string, gap: string)
    requires gap != "" && forall k :: 0 <= k < |gap| ==> IsSpace(gap[k])
    ensures Read(Scan(before, token, None, false, true), gap) == Scan(before + [token], "", None, false, false)
  {
    ReadSpaces(Scan(before + [token], "", None, false, false), gap[1..]);
  }

  lemma {:induction false} ReadGapped(before: seq<string>, words: seq<Spelling>)
    requires forall k :: 0 <= k < |words| ==> ValidSpelling(words[k])
    ensures Read(Scan(before, "", None, false, false), Gapped(words)) == Scan(before + Texts(words), "", None, false, false)
    decreases |words|
  {
    hide Read, SpellAll;
    var s := Scan(before, "", None, false, false);
    if words == [] {
      assert before + Texts(words) == before;
      NothingToRead(s);
    } else {
      var w := words[0];
      assert ValidSpelling(w);
      var token := WordText(w.segments);
      ReadConcat(s, SpellAll(w.segments) + w.gap, Gapped(words[1..]));
      ReadConcat(s, SpellAll(w.segments), w.gap);
      ReadSegments(s, w.segments);
      assert "" + token == token;
      ReadGap(before, token, w.gap);
      ReadGapped(before + [token], words[1..]);
      assert before + Texts(words) == before + [token] + Texts(words[1..]);
    }
  }

  /** A message that spells words is split into these words: quotes of either kind, escapes and
      bare runes may be mixed within one word, and any spaces separate two. */
  lemma TokensOfSpelling(message: string, words: seq<Spelling>)
    requires ReplaceWide(TrimSpace(message)) == Line(words) && forall k :: 0 <= k < |words| ==> ValidSpelling(words[k])
    ensures Tokens(message) == Some(Texts(words))
  {
    hide Read, SpellAll, Gapped;
    if words == [] {
      NothingToRead(START);
    } else {
      var front, last := words[..|words| - 1], words[|words| - 1];
      assert ValidSpelling(last);
      ReadConcat(START, Gapped(front), SpellAll(last.segments));
      ReadGapped([], front);
      assert [] + Texts(front) == Texts(front);
      ReadSegments(Scan(Texts(front), "", None, false, false), last.segments);
      assert "" + WordText(last.segments) == WordText(last.segments);
      assert Texts(words) == Texts(front) + [WordText(last.segments)];
    }
  }

  /** A message that ends inside a quote, perhaps right after a backslash, is refused. */
  lemma UnterminatedIsRefused(message: string, words: seq<Spelling>, segments: seq<Segment>, mark: char, body: seq<Piece>, tail: string)
    requires forall k :: 0 <= k < |words| ==> ValidSpelling(words[k])
    requires ValidSegments(segments) && ValidBody(mark, body) && (tail == "" || tail == "\\")
    requires ReplaceWide(TrimSpace(message)) == Gapped(words) + SpellAll(segments) + ([mark] + SpellBody(body)) + tail
    ensures Tokens(message) == None
  {
    hide Read, SpellAll, SpellBody, Gapped;
    var head := Gapped(words) + SpellAll(segments);
    ReadConcat(START, head + ([mark] + SpellBody(body)), tail);
    ReadConcat(START, head, [mark] + SpellBody(body));
    ReadConcat(START, Gapped(words), SpellAll(segments));
    ReadGapped([], words);
    var s := Read(START, Gapped(words));
    ReadSegments(s, segments);
    ReadOpened(Read(START, head), mark, body);
    var open := Read(START, head + ([mark] + SpellBody(body)));
    if tail == "" {
      NothingToRead(open);
    } else {
      ReadOne(open, '\\');
    }
  }

  // ---------------------------------------------------------------------------------------
  // The round trip

  function Escape(token: string, mark: char): seq<Piece> {
    seq(|token|, k requires 0 <= k < |token| => if token[k] == mark || token[k] == '\\' then Escaped(token[k]) else Plain(token[k]))
  }

  /** Every token in quotes, with the marks given. */
  function Quote(tokens: seq<string>, marks: string): (words: seq<Spelling>)
    requires |marks| == |tokens|
  {
    seq(|tokens|, k requires 0 <= k < |tokens| => Spelling([Quoted(marks[k], Escape(tokens[k], marks[k]))], " "))
  }

  predicate AreMarks(marks: string) {
    forall k :: 0 <= k < |marks| ==> IsMark(marks[k])
  }

  function ReplaceWideAll(tokens: seq<string>): (r: seq<string>)
    ensures |r| == |tokens|
  {
    seq(|tokens|, k requires 0 <= k < |tokens| => ReplaceWide(tokens[k]))
  }

  lemma ReplaceWideConcat(a: string, b: string)
    ensures ReplaceWide(a + b) == ReplaceWide(a) + ReplaceWide(b)
  {
  }

  lemma {:induction false} ReplaceWideBody(token: string, mark: char)
    requires IsMark(mark)
    ensures ReplaceWide(SpellBody(Escape(token, mark))) == SpellBody(Escape(ReplaceWide(token), mark))
    decreases |token|
  {
    if token != "" {
      var piece := Escape(token, mark)[0];
      var first := if piece.Escaped? then ['\\', piece.c] else [piece.c];
      ReplaceWideConcat(first, SpellBody(Escape(token[1..], mark)));
      ReplaceWideBody(token[1..], mark);
      assert Escape(token, mark)[1..] == Escape(token[1..], mark);
      assert Escape(ReplaceWide(token), mark)[1..] == Escape(ReplaceWide(token[1..]), mark);
    }
  }

  function Spelled(token: string, mark: char): string {
    [mark] + SpellBody(Escape(token, mark)) + [mark]
  }

  lemma SpelledIs(token: string, mark: char)
    ensures SpellAll([Quoted(mark, Escape(token, mark))]) == Spelled(token, mark)
  {
    var segments := [Quoted(mark, Escape(token, mark))];
    assert SpellAll(segments) == Spell(segments[0]) + SpellAll(segments[1..]) == Spell(segments[0]);
  }

  lemma ReplaceWideSpelled(token: string, mark: char)
    requires IsMark(mark)
    ensures ReplaceWide(Spelled(token, mark)) == Spelled(ReplaceWide(token), mark)
  {
    ReplaceWideBody(token, mark);
    ReplaceWideConcat([mark] + SpellBody(Escape(token, mark)), [mark]);
    ReplaceWideConcat([mark], SpellBody(Escape(token, mark)));
    assert ReplaceWide([mark]) == [mark];
  }

  lemma {:induction false} ReplaceWideGapped(tokens: seq<string>, marks: string)
    requires |marks| == |tokens| && AreMarks(marks)
    ensures ReplaceWide(Gapped(Quote(tokens, marks))) == Gapped(Quote(ReplaceWideAll(tokens), marks))
    decreases |tokens|
  {
    hide SpellAll, Spelled;
    if tokens != [] {
      var first, mark := tokens[0], marks[0];
      SpelledIs(first, mark);
      SpelledIs(ReplaceWide(first), mark);
      ReplaceWideSpelled(first, mark);
      ReplaceWideGapped(tokens[1..], marks[1..]);
      assert Quote(tokens, marks)[1..] == Quote(tokens[1..], marks[1..]);
      assert Quote(ReplaceWideAll(tokens), marks)[1..] == Quote(ReplaceWideAll(tokens[1..]), marks[1..]);
      ReplaceWideConcat(Spelled(first, mark) + " ", Gapped(Quote(tokens[1..], marks[1..])));
      ReplaceWideConcat(Spelled(first, mark), " ");
      assert ReplaceWide(" ") == " ";
    }
  }

  lemma LineOfQuote(tokens: seq<string>, marks: string)
    requires |marks| == |tokens| > 0
    ensures var n := |tokens| - 1;
            Line(Quote(tokens, marks)) == Gapped(Quote(tokens[..n], marks[..n])) + Spelled(tokens[n], marks[n])
  {
    var n := |tokens| - 1;
    assert Quote(tokens, marks)[..n] == Quote(tokens[..n], marks[..n]);
    SpelledIs(tokens[n], marks[n]);
  }

  lemma ReplaceWideLine(tokens: seq<string>, marks: string)
    requires |marks| == |tokens| && AreMarks(marks)
    ensures ReplaceWide(Line(Quote(tokens, marks))) == Line(Quote(ReplaceWideAll(tokens), marks))
  {
    hide Gapped, Spelled, Line;
    if tokens == [] {
      assert Line(Quote(tokens, marks)) == "" by {
        LineOfNothing(Quote(tokens, marks));
      }
      LineOfNothing(Quote(ReplaceWideAll(tokens), marks));
    } else {
      var n := |tokens| - 1;
      LineOfQuote(tokens, marks);
      LineOfQuote(ReplaceWideAll(tokens), marks);
      ReplaceWideGapped(tokens[..n], marks[..n]);
      ReplaceWideSpelled(tokens[n], marks[n]);
      ReplaceWideConcat(Gapped(Quote(tokens[..n], marks[..n])), Spelled(tokens[n], marks[n]));
      assert ReplaceWideAll(tokens)[..n] == ReplaceWideAll(tokens[..n]);
    }
  }

  lemma LineOfNothing(words: seq<Spelling>)
    requires words == []
    ensures Line(words) == ""
  {
  }

  lemma LineIsTrimmed(tokens: seq<string>, marks: string)
    requires |marks| == |tokens| && AreMarks(marks)
    ensures TrimSpace(Line(Quote(tokens, marks))) == Line(Quote(tokens, marks))
  {
    hide SpellBody;
    var line := Line(Quote(tokens, marks));
    if tokens != [] {
      var n := |tokens| - 1;
      LineOfQuote(tokens, marks);
      assert line[|line| - 1] == marks[n];
      assert line[0] == marks[0] by {
        SpelledIs(tokens[0], marks[0]);
      }
      assert IsMark(marks[0]) && IsMark(marks[n]);
    }
  }

  /** Tokenizing undoes quoting, up to wide spaces, for every list of tokens and either kind of quote. */
  lemma TokensOfLine(tokens: seq<string>, marks: string)
    requires |marks| == |tokens| && AreMarks(marks)
    ensures Tokens(Line(Quote(tokens, marks))) == Some(ReplaceWideAll(tokens))
  {
    hide Tokens, Line, ValidSegments, WordText;
    var replaced := ReplaceWideAll(tokens);
    LineIsTrimmed(tokens, marks);
    ReplaceWideLine(tokens, marks);
    forall k | 0 <= k < |tokens|
      ensures ValidSpelling(Quote(replaced, marks)[k]) && WordText(Quote(replaced, marks)[k].segments) == replaced[k]
    {
      QuotedIsValid(replaced[k], marks[k]);
    }
    TokensOfSpelling(Line(Quote(tokens, marks)), Quote(replaced, marks));
    assert Texts(Quote(replaced, marks)) == replaced;
  }

  lemma QuotedIsValid(token: string, mark: char)
    requires IsMark(mark)
    ensures var w := Spelling([Quoted(mark, Escape(token, mark))], " "); ValidSpelling(w) && WordText(w.segments) == token
  {
    var segments := [Quoted(mark, Escape(token, mark))];
    assert BodyText(Escape(token, mark)) == token;
    assert WordText(segments) == token + WordText(segments[1..]) == token;
  }

  predicate NoWideSpace(tokens: seq<string>) {
    forall k :: 0 <= k < |tokens| ==> WIDE_SPACE !in tokens[k]
  }

  /** The tokens come back unchanged exactly when none of them holds a wide space. */
  lemma TokensComeBackIff(tokens: seq<string>, marks: string)
    requires |marks| == |tokens| && AreMarks(marks)
    ensures Tokens(Line(Quote(tokens, marks))) == Some(tokens) <==> NoWideSpace(tokens)
  {
    hide Tokens, Line, Quote;
    TokensOfLine(tokens, marks);
    var replaced := ReplaceWideAll(tokens);
    if replaced == tokens {
      forall k | 0 <= k < |tokens|
        ensures WIDE_SPACE !in tokens[k]
      {
        assert ReplaceWide(tokens[k]) == replaced[k] == tokens[k];
        forall i | 0 <= i < |tokens[k]|
          ensures tokens[k][i] != WIDE_SPACE
        {
          assert ReplaceWide(tokens[k])[i] == Narrow(tokens[k][i]);
        }
      }
    }
    if NoWideSpace(tokens) {
      forall k | 0 <= k < |tokens|
        ensures replaced[k] == tokens[k]
      {
        assert forall i :: 0 <= i < |tokens[k]| ==> tokens[k][i] in tokens[k];
      }
    }
  }

  // ---------------------------------------------------------------------------------------
  // The router's view of the message

  function Word(text: string): (w: string)
    ensures w <= text
  {
    if text == "" || IsSpace(text[0]) then "" else [text[0]] + Word(text[1..])
  }

  /** strings.Fields */
  function Fields(text: string): seq<string>
    decreases |text|
  {
    if text == "" then []
    else if IsSpace(text[0]) then Fields(text[1..])
    else [Word(text)] + Fields(text[|Word(text)|..])
  }

  function RoutedFields(message: string): seq<string> {
    Fields(ReplaceWide(TrimSpace(message)))
  }

  lemma {:induction false} ReadKeepsTokens(s: Scan, text: string)
    ensures s.tokens <= Read(s, text).tokens
    decreases |text|
  {
    if text != "" {
      ReadKeepsTokens(Next(s, text[0]), text[1..]);
    }
  }

  lemma {:induction false} WordEnds(text: string)
    ensures |Word(text)| < |text| ==> IsSpace(text[|Word(text)|])
  {
    if text != "" && !IsSpace(text[0]) {
      WordEnds(text[1..]);
    }
  }

  /** A text whose first word is plain is tokenized with that word as its first token. */
  lemma FirstWordIsFirstToken(text: string, tokens: seq<string>)
    requires Word(text) != "" && Finish(Read(START, text)) == Some(tokens)
    requires forall k :: 0 <= k < |Word(text)| ==> PlainRune(Word(text)[k])
    ensures tokens != [] && tokens[0] == Word(text)
  {
    var word := Word(text);
    var rest := text[|word|..];
    assert text == word + rest;
    ReadConcat(START, word, rest);
    ReadPlain(START, word);
    assert START.current + word == word;
    var s := Scan([], word, None, false, true);
    if rest != "" {
      WordEnds(text);
      assert IsSpace(rest[0]);
      ReadKeepsTokens(Next(s, rest[0]), rest[1..]);
    }
  }

  lemma {:induction false} TrimmedStart(text: string)
    ensures TrimSpace(text) != "" ==> !IsSpace(TrimSpace(text)[0])
  {
    TrimLeftStart(text);
    TrimRightIsPrefix(TrimLeft(text));
  }

  lemma {:induction false} TrimLeftStart(text: string)
    ensures TrimLeft(text) != "" ==> !IsSpace(TrimLeft(text)[0])
  {
    if text != "" && IsSpace(text[0]) {
      TrimLeftStart(text[1..]);
    }
  }

  /** Router and parser agree: a plain name found as the first field is the first token. */
  lemma RoutedNameIsFirstToken(message: string, name: string)
    requires RoutedFields(message) != [] && RoutedFields(message)[0] == name
    requires forall k :: 0 <= k < |name| ==> PlainRune(name[k])
    requires Tokens(message).Some?
    ensures Tokens(message).value != [] && Tokens(message).value[0] == name
  {
    var text := ReplaceWide(TrimSpace(message));
    TrimmedStart(message);
    assert text != "" && !IsSpace(text[0]);
    FirstWordIsFirstToken(text, Tokens(message).value);
  }
}
