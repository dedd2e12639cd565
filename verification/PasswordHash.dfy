/** Printing and parsing of password hashes in the PHC string format, and the base64 and splitting
    that it rests on. */
module PasswordHash {
  import opened Wrappers
  import opened Text

  const MAX_MEMORY_KIB := 262144
  const MAX_ITERATIONS := 10
  const MAX_PARALLEL := 8
  const MIN_SALT_BYTES := 16
  const MAX_SALT_BYTES := 32
  const MIN_KEY_BYTES := 16
  const MAX_KEY_BYTES := 64
  const MAX_PHC_LENGTH := 512

  type Byte = b: int | 0 <= b < 256

  type Sextet = b: int | 0 <= b < 64

  // ---------------------------------------------------------------------------------------
  // Base64 without padding (RFC 4648, section 4 with section 3.2)

  function Letter(v: Sextet): (c: char)
    ensures LetterValue(c) == Some(v) && c != '$' && c != '\r' && c != '\n' && c < '\U{80}'
  {
    if v < 26 then 'A' + v as char
    else if v < 52 then 'a' + (v - 26) as char
    else if v < 62 then '0' + (v - 52) as char
    else if v == 62 then '+'
    else '/'
  }

  function LetterValue(c: char): Option<Sextet> {
    if 'A' <= c <= 'Z' then Some((c - 'A') as int)
    else if 'a' <= c <= 'z' then Some((c - 'a') as int + 26)
    else if '0' <= c <= '9' then Some((c - '0') as int + 52)
    else if c == '+' then Some(62)
    else if c == '/' then Some(63)
    else None
  }

  /** EncodeToString: groups of three bytes, and a shorter last group. */
  function Encode(bytes: seq<Byte>): string {
    if bytes == [] then ""
    else if |bytes| == 1 then [Letter(bytes[0] / 4), Letter(bytes[0] % 4 * 16)]
    else if |bytes| == 2 then
      [Letter(bytes[0] / 4), Letter(bytes[0] % 4 * 16 + bytes[1] / 16), Letter(bytes[1] % 16 * 4)]
    else
      [Letter(bytes[0] / 4), Letter(bytes[0] % 4 * 16 + bytes[1] / 16),
       Letter(bytes[1] % 16 * 4 + bytes[2] / 64), Letter(bytes[2] % 64)] + Encode(bytes[3..])
  }

  // EncodedLen
  function EncodedLength(n: nat): nat {
    n / 3 * 4 + (n % 3 * 8 + 5) / 6
  }

  /** The values of the letters, where line breaks are skipped. */
  function Sextets(s: string): Option<seq<Sextet>> {
    if s == "" then Some([])
    else if s[0] == '\r' || s[0] == '\n' then Sextets(s[1..])
    else
      match (LetterValue(s[0]), Sextets(s[1..]))
      case (Some(v), Some(rest)) => Some([v] + rest)
      case _ => None
  }

  predicate IsSextet(v: int) {
    0 <= v < 64
  }

  // The three bytes of a group of four sextets.
  function FirstByte(v: int, w: int): Byte
    requires IsSextet(v) && IsSextet(w)
  {
    v * 4 + w / 16
  }

  function SecondByte(w: int, x: int): Byte
    requires IsSextet(w) && IsSextet(x)
  {
    w % 16 * 16 + x / 4
  }

  function ThirdByte(x: int, y: int): Byte
    requires IsSextet(x) && IsSextet(y)
  {
    x % 4 * 64 + y
  }

  /** The bytes of whole and shorter groups; bits left over in a shorter group are ignored. */
  function Regroup(v: seq<Sextet>): Option<seq<Byte>> {
    if v == [] then Some([])
    else if |v| == 1 then None
    else
      var first := FirstByte(v[0], v[1]);
      if |v| == 2 then Some([first])
      else
        var second := SecondByte(v[1], v[2]);
        if |v| == 3 then Some([first, second])
        else
          var third := ThirdByte(v[2], v[3]);
          match Regroup(v[4..])
          case None => None
          case Some(rest) => Some([first, second, third] + rest)
  }

  /** DecodeString */
  function Decode(s: string): Option<seq<Byte>> {
    match Sextets(s)
    case None => None
    case Some(v) => Regroup(v)
  }

  /** A line break anywhere in the text is skipped. */
  lemma {:induction false} LineBreaksAreSkipped(before: string, c: char, after: string)
    requires c == '\r' || c == '\n'
    ensures Sextets(before + [c] + after) == Sextets(before + after) && Decode(before + [c] + after) == Decode(before + after)
  {
    if before == "" {
      assert (before + [c] + after)[1..] == after == before + after;
    } else {
      LineBreaksAreSkipped(before[1..], c, after);
      assert (before + [c] + after)[1..] == before[1..] + [c] + after;
      assert (before + after)[1..] == before[1..] + after;
    }
  }

  lemma SextetsOfLetter(v: Sextet, s: string)
    ensures Sextets([Letter(v)] + s) == match Sextets(s) case Some(rest) => Some([v] + rest) case None => None
  {
    assert ([Letter(v)] + s)[1..] == s;
  }

  lemma {:induction false} SextetsOfLetters(values: seq<Sextet>, letters: string, s: string)
    requires |letters| == |values| && forall k :: 0 <= k < |values| ==> letters[k] == Letter(values[k])
    requires Sextets(s).Some?
    ensures Sextets(letters + s) == Some(values + Sextets(s).value)
  {
    if values == [] {
      assert letters + s == s;
      assert values + Sextets(s).value == Sextets(s).value;
    } else {
      SextetsOfLetters(values[1..], letters[1..], s);
      SextetsOfLetter(values[0], letters[1..] + s);
      assert letters + s == [letters[0]] + (letters[1..] + s);
      assert values + Sextets(s).value == [values[0]] + (values[1..] + Sextets(s).value);
    }
  }

  /** A group of sextets holds the bytes it was made from. */
  lemma GroupOfBytes(a: Byte, b: Byte, c: Byte)
    ensures FirstByte(a / 4, a % 4 * 16 + b / 16) == a
    ensures SecondByte(a % 4 * 16 + b / 16, b % 16 * 4 + c / 64) == b
    ensures ThirdByte(b % 16 * 4 + c / 64, c % 64) == c
  {
  }

  lemma ShorterGroups(a: Byte, b: Byte)
    ensures FirstByte(a / 4, a % 4 * 16) == a
    ensures FirstByte(a / 4, a % 4 * 16 + b / 16) == a && SecondByte(a % 4 * 16 + b / 16, b % 16 * 4) == b
  {
  }

  lemma RegroupOne(a: Byte)
    ensures Regroup([a / 4, a % 4 * 16]) == Some([a])
  {
    hide FirstByte;
    ShorterGroups(a, 0);
  }

  lemma RegroupTwo(a: Byte, b: Byte)
    ensures Regroup([a / 4, a % 4 * 16 + b / 16, b % 16 * 4]) == Some([a, b])
  {
    hide FirstByte, SecondByte;
    ShorterGroups(a, b);
  }

  /** Decoding undoes encoding. */
  lemma {:induction false} DecodeOfEncode(bytes: seq<Byte>)
    ensures Sextets(Encode(bytes)).Some? && Decode(Encode(bytes)) == Some(bytes)
    decreases |bytes|, 1
  {
    hide Regroup, FirstByte, SecondByte, ThirdByte, Letter;
    if bytes == [] {
      NoSextets();
      assert Sextets("") == Some([]);
    } else if |bytes| == 1 {
      var v: seq<Sextet> := [bytes[0] / 4, bytes[0] % 4 * 16];
      SextetsOfLetters(v, Encode(bytes), "");
      assert Encode(bytes) + "" == Encode(bytes) && v + [] == v && bytes == [bytes[0]];
      RegroupOne(bytes[0]);
    } else if |bytes| == 2 {
      var v: seq<Sextet> := [bytes[0] / 4, bytes[0] % 4 * 16 + bytes[1] / 16, bytes[1] % 16 * 4];
      SextetsOfLetters(v, Encode(bytes), "");
      assert Encode(bytes) + "" == Encode(bytes) && v + [] == v && bytes == [bytes[0], bytes[1]];
      RegroupTwo(bytes[0], bytes[1]);
    } else {
      DecodeOfGroup(bytes);
    }
  }

  lemma NoSextets()
    ensures Decode("") == Some([])
  {
  }

  // The four letters of a group of three bytes.
  function GroupSextets(a: Byte, b: Byte, c: Byte): seq<Sextet> {
    [a / 4, a % 4 * 16 + b / 16, b % 16 * 4 + c / 64, c % 64]
  }

  function GroupLetters(a: Byte, b: Byte, c: Byte): string {
    [Letter(a / 4), Letter(a % 4 * 16 + b / 16), Letter(b % 16 * 4 + c / 64), Letter(c % 64)]
  }

  lemma EncodeGroup(bytes: seq<Byte>)
    requires |bytes| >= 3
    ensures Encode(bytes) == GroupLetters(bytes[0], bytes[1], bytes[2]) + Encode(bytes[3..])
  {
  }

  lemma RegroupGroup(a: Byte, b: Byte, c: Byte, rest: seq<Sextet>)
    ensures Regroup(GroupSextets(a, b, c) + rest) ==
            match Regroup(rest) case Some(more) => Some([a, b, c] + more) case None => None
  {
    hide FirstByte, SecondByte, ThirdByte;
    GroupOfBytes(a, b, c);
    assert (GroupSextets(a, b, c) + rest)[4..] == rest;
  }

  lemma {:induction false} DecodeOfGroup(bytes: seq<Byte>)
    requires |bytes| >= 3
    ensures Sextets(Encode(bytes)).Some? && Decode(Encode(bytes)) == Some(bytes)
    decreases |bytes|, 0
  {
    hide Encode, Sextets, Regroup;
    var a, b, c, tail := bytes[0], bytes[1], bytes[2], bytes[3..];
    DecodeOfEncode(tail);
    EncodeGroup(bytes);
    SextetsOfLetters(GroupSextets(a, b, c), GroupLetters(a, b, c), Encode(tail));
    RegroupGroup(a, b, c, Sextets(Encode(tail)).value);
    assert bytes == [a, b, c] + tail;
  }

  lemma {:induction false} LengthOfEncode(bytes: seq<Byte>)
    ensures |Encode(bytes)| == EncodedLength(|bytes|)
    ensures forall k :: 0 <= k < |Encode(bytes)| ==> Encode(bytes)[k] != '$' && Encode(bytes)[k] < '\U{80}'
  {
    if |bytes| >= 3 {
      LengthOfEncode(bytes[3..]);
    }
  }

  // ---------------------------------------------------------------------------------------
  // Splitting

  /** strings.Split by one separator. */
  function Split(s: string, sep: char): (parts: seq<string>)
    ensures parts != []
  {
    if s == "" then [""]
    else
      var rest := Split(s[1..], sep);
      if s[0] == sep then [""] + rest else [[s[0]] + rest[0]] + rest[1..]
  }

  function Join(parts: seq<string>, sep: char): string
    requires parts != []
  {
    if |parts| == 1 then parts[0] else parts[0] + [sep] + Join(parts[1..], sep)
  }

  lemma {:induction false} SplitOfPart(part: string, sep: char, rest: string)
    requires sep !in part
    ensures Split(part + [sep] + rest, sep) == [part] + Split(rest, sep)
  {
    var s := part + [sep] + rest;
    if part == "" {
      assert s[1..] == rest;
    } else {
      SplitOfPart(part[1..], sep, rest);
      assert s[1..] == part[1..] + [sep] + rest;
      assert [part[0]] + part[1..] == part;
    }
  }

  lemma {:induction false} SplitOfLast(part: string, sep: char)
    requires sep !in part
    ensures Split(part, sep) == [part]
  {
    if part != "" {
      SplitOfLast(part[1..], sep);
      assert [part[0]] + part[1..] == part;
    }
  }

  /** Splitting undoes joining parts without the separator. */
  lemma {:induction false} SplitOfJoin(parts: seq<string>, sep: char)
    requires parts != [] && forall k :: 0 <= k < |parts| ==> sep !in parts[k]
    ensures Split(Join(parts, sep), sep) == parts
  {
    if |parts| == 1 {
      SplitOfLast(parts[0], sep);
    } else {
      SplitOfJoin(parts[1..], sep);
      SplitOfPart(parts[0], sep, Join(parts[1..], sep));
    }
  }

  /** Joining undoes splitting, and no part holds the separator. */
  lemma {:induction false} JoinOfSplit(s: string, sep: char)
    ensures Join(Split(s, sep), sep) == s
    ensures forall k :: 0 <= k < |Split(s, sep)| ==> sep !in Split(s, sep)[k]
  {
    if s != "" {
      var rest := Split(s[1..], sep);
      JoinOfSplit(s[1..], sep);
      if s[0] == sep {
        assert ([""] + rest)[1..] == rest;
      } else {
        JoinOfFirst([s[0]] + rest[0], rest, sep);
        assert s == [s[0]] + s[1..];
      }
    }
  }

  lemma JoinOfFirst(first: string, parts: seq<string>, sep: char)
    requires parts != [] && |first| > 0 && first[1..] == parts[0]
    ensures Join([first] + parts[1..], sep) == [first[0]] + Join(parts, sep)
  {
    assert first == [first[0]] + parts[0];
    assert ([first] + parts[1..])[1..] == parts[1..];
  }

  // ---------------------------------------------------------------------------------------
  // The hash string

  datatype Params = Params(memoryKiB: nat, iterations: nat, parallelism: nat, saltLength: nat, keyLength: nat)

  // m >= 8p is section 3.1 of RFC 9106.
  predicate ValidParams(p: Params) {
    8 * p.parallelism <= p.memoryKiB <= MAX_MEMORY_KIB && 1 <= p.iterations <= MAX_ITERATIONS && 1 <= p.parallelism <= MAX_PARALLEL &&
    MIN_SALT_BYTES <= p.saltLength <= MAX_SALT_BYTES && MIN_KEY_BYTES <= p.keyLength <= MAX_KEY_BYTES
  }

  datatype Parsed = Parsed(params: Params, salt: seq<Byte>, key: seq<Byte>)

  function PrintParams(p: Params): string {
    Join(["m=" + Decimal(p.memoryKiB), "t=" + Decimal(p.iterations), "p=" + Decimal(p.parallelism)], ',')
  }

  /** What Hash prints. */
  function Print(p: Params, salt: seq<Byte>, key: seq<Byte>): string {
    Join(["", "argon2id", "v=19", PrintParams(p), Encode(salt), Encode(key)], '$')
  }

  /** strconv.ParseUint(s, 10, bits), for values below `limit`. */
  function ParseUint(s: string, limit: nat): Option<nat> {
    if s == "" || !AllDigits(s) || DecimalValue(s) >= limit then None else Some(DecimalValue(s))
  }

  function ParsePHCUnsigned(s: string, prefix: string, limit: nat): Option<nat> {
    if !(prefix <= s) || |s| == |prefix| then None else ParseUint(s[|prefix|..], limit)
  }

  // The first three parameters, with the lengths still unset.
  function ParseParams(s: string): Option<Params> {
    var parts := Split(s, ',');
    if |parts| != 3 then None
    else
      match (ParsePHCUnsigned(parts[0], "m=", 0x1_0000_0000), ParsePHCUnsigned(parts[1], "t=", 0x1_0000_0000),
             ParsePHCUnsigned(parts[2], "p=", 256))
      case (Some(m), Some(t), Some(p)) =>
        if m == 0 || m > MAX_MEMORY_KIB || t == 0 || t > MAX_ITERATIONS || p == 0 || p > MAX_PARALLEL || m < 8 * p then None
        else Some(Params(m, t, p, 0, 0))
      case _ => None
  }

  function Parse(s: string): Option<Parsed> {
    var parts := Split(s, '$');
    if s == "" || Utf8Length(s) > MAX_PHC_LENGTH then None
    else if |parts| != 6 || parts[0] != "" || parts[1] != "argon2id" || parts[2] != "v=19" then None
    else
      match ParseParams(parts[3])
      case None => None
      case Some(p) =>
        if Utf8Length(parts[4]) > EncodedLength(MAX_SALT_BYTES) || Utf8Length(parts[5]) > EncodedLength(MAX_KEY_BYTES) then None
        else
          match (Decode(parts[4]), Decode(parts[5]))
          case (Some(salt), Some(key)) =>
            if |salt| < MIN_SALT_BYTES || |salt| > MAX_SALT_BYTES || |key| < MIN_KEY_BYTES || |key| > MAX_KEY_BYTES then None
            else
              var params := p.(saltLength := |salt|, keyLength := |key|);
              if ValidParams(params) then Some(Parsed(params, salt, key)) else None
          case _ => None
  }

  lemma {:induction false} DecimalLength(n: nat, k: nat, bound: nat)
    requires k >= 1 && n < bound && bound == Power10(k)
    ensures |Decimal(n)| <= k
    decreases k
  {
    if n >= 10 {
      DecimalLength(n / 10, k - 1, Power10(k - 1));
    }
  }

  function Power10(k: nat): nat {
    if k == 0 then 1 else 10 * Power10(k - 1)
  }

  lemma DigitsAreAscii(n: nat)
    ensures AllDigits(Decimal(n)) && ',' !in Decimal(n) && '$' !in Decimal(n)
    ensures forall k :: 0 <= k < |Decimal(n)| ==> Decimal(n)[k] < '\U{80}'
  {
  }

  lemma PrefixedNumber(prefix: string, n: nat, limit: nat)
    requires n < limit
    ensures ParsePHCUnsigned(prefix + Decimal(n), prefix, limit) == Some(n)
  {
    DecimalRoundTrip(n);
    assert (prefix + Decimal(n))[|prefix|..] == Decimal(n);
  }

  lemma JoinThree(a: string, b: string, c: string, sep: char)
    ensures Join([a, b, c], sep) == a + [sep] + (b + [sep] + c)
  {
    assert [a, b, c][1..] == [b, c] && [b, c][1..] == [c];
    assert Join([b, c], sep) == b + [sep] + Join([c], sep);
  }

  predicate AsciiWithout(s: string, sep: char) {
    forall k :: 0 <= k < |s| ==> s[k] < '\U{80}' && s[k] != sep
  }

  lemma PrintedParamsText(p: Params)
    requires ValidParams(p)
    ensures AsciiWithout(PrintParams(p), '$') && |PrintParams(p)| <= 17
  {
    hide Decimal, Join;
    DigitsAreAscii(p.memoryKiB);
    DigitsAreAscii(p.iterations);
    DigitsAreAscii(p.parallelism);
    Lengths(p);
    JoinThree("m=" + Decimal(p.memoryKiB), "t=" + Decimal(p.iterations), "p=" + Decimal(p.parallelism), ',');
  }

  lemma ParseOfPrintedParams(p: Params)
    requires ValidParams(p)
    ensures ParseParams(PrintParams(p)) == Some(p.(saltLength := 0, keyLength := 0))
  {
    hide Decimal, ParsePHCUnsigned, Join, Split;
    var parts := ["m=" + Decimal(p.memoryKiB), "t=" + Decimal(p.iterations), "p=" + Decimal(p.parallelism)];
    DigitsAreAscii(p.memoryKiB);
    DigitsAreAscii(p.iterations);
    DigitsAreAscii(p.parallelism);
    SplitOfJoin(parts, ',');
    PrefixedNumber("m=", p.memoryKiB, 0x1_0000_0000);
    PrefixedNumber("t=", p.iterations, 0x1_0000_0000);
    PrefixedNumber("p=", p.parallelism, 256);
  }

  lemma Lengths(p: Params)
    requires ValidParams(p)
    ensures |Decimal(p.memoryKiB)| <= 6 && |Decimal(p.iterations)| <= 2 && |Decimal(p.parallelism)| <= 1
  {
    assert Power10(1) == 10 && Power10(2) == 100 && Power10(6) == 1000000;
    DecimalLength(p.memoryKiB, 6, 1000000);
    DecimalLength(p.iterations, 2, 100);
    DecimalLength(p.parallelism, 1, 10);
  }

  /** The printed hash, spelled out. */
  lemma PrintedText(p: Params, salt: seq<Byte>, key: seq<Byte>)
    requires ValidParams(p) && |salt| == p.saltLength && |key| == p.keyLength
    ensures Split(Print(p, salt, key), '$') == ["", "argon2id", "v=19", PrintParams(p), Encode(salt), Encode(key)]
    ensures Utf8Length(Print(p, salt, key)) <= MAX_PHC_LENGTH && Print(p, salt, key) != ""
  {
    hide PrintParams, Encode, Split;
    PrintedParamsText(p);
    LengthOfEncode(salt);
    LengthOfEncode(key);
    EncodedLengths(salt, key);
    SplitOfJoin(["", "argon2id", "v=19", PrintParams(p), Encode(salt), Encode(key)], '$');
    JoinSix("", "argon2id", "v=19", PrintParams(p), Encode(salt), Encode(key), '$');
    AsciiLength(Print(p, salt, key));
  }

  lemma EncodedLengths(salt: seq<Byte>, key: seq<Byte>)
    requires |salt| <= MAX_SALT_BYTES && |key| <= MAX_KEY_BYTES
    ensures EncodedLength(|salt|) <= EncodedLength(MAX_SALT_BYTES) <= 43 && EncodedLength(|key|) <= EncodedLength(MAX_KEY_BYTES) <= 86
  {
  }

  lemma JoinSix(a: string, b: string, c: string, d: string, e: string, f: string, sep: char)
    ensures Join([a, b, c, d, e, f], sep) == a + [sep] + (b + [sep] + (c + [sep] + (d + [sep] + (e + [sep] + f))))
  {
    JoinThree(d, e, f, sep);
    assert [a, b, c, d, e, f][1..] == [b, c, d, e, f] && [b, c, d, e, f][1..] == [c, d, e, f] && [c, d, e, f][1..] == [d, e, f];
    assert Join([c, d, e, f], sep) == c + [sep] + Join([d, e, f], sep);
    assert Join([b, c, d, e, f], sep) == b + [sep] + Join([c, d, e, f], sep);
  }

  /** Parsing undoes printing, for all valid parameters, salts and keys. */
  lemma ParseOfPrint(p: Params, salt: seq<Byte>, key: seq<Byte>)
    requires ValidParams(p) && |salt| == p.saltLength && |key| == p.keyLength
    ensures Parse(Print(p, salt, key)) == Some(Parsed(p, salt, key))
  {
    hide Print, PrintParams, Split, Encode, Decode, ParseParams, EncodedLength;
    PrintedText(p, salt, key);
    ParseOfPrintedParams(p);
    DecodeOfEncode(salt);
    DecodeOfEncode(key);
    LengthOfEncode(salt);
    LengthOfEncode(key);
    EncodedLengths(salt, key);
    AsciiLength(Encode(salt));
    AsciiLength(Encode(key));
  }

  predicate Numeral(text: string, n: nat) {
    text != "" && AllDigits(text) && DecimalValue(text) == n
  }

  // The variable parts of a hash string, as text.
  datatype Fields = Fields(memory: string, iterations: string, parallelism: string, salt: string, key: string)

  function ParamsText(f: Fields): string {
    Join(["m=" + f.memory, "t=" + f.iterations, "p=" + f.parallelism], ',')
  }

  function HashText(f: Fields): string {
    Join(["", "argon2id", "v=19", ParamsText(f), f.salt, f.key], '$')
  }

  /** The fields denote the parameters, the salt and the key. */
  predicate Denotes(f: Fields, r: Parsed) {
    Numeral(f.memory, r.params.memoryKiB) && Numeral(f.iterations, r.params.iterations) &&
    Numeral(f.parallelism, r.params.parallelism) && Decode(f.salt) == Some(r.salt) && Decode(f.key) == Some(r.key) &&
    Utf8Length(f.salt) <= EncodedLength(MAX_SALT_BYTES) && Utf8Length(f.key) <= EncodedLength(MAX_KEY_BYTES)
  }

  /** Exactly the strings of this form are accepted, and they are read as what they denote. */
  lemma AcceptedIff(s: string, r: Parsed)
    ensures Parse(s) == Some(r) <==>
            Utf8Length(s) <= MAX_PHC_LENGTH && ValidParams(r.params) && |r.salt| == r.params.saltLength &&
            |r.key| == r.params.keyLength && exists f :: s == HashText(f) && Denotes(f, r)
  {
    hide HashText, Denotes, Utf8Length, ValidParams, Parse;
    if Parse(s) == Some(r) {
      AcceptedText(s, r);
    }
    if Utf8Length(s) <= MAX_PHC_LENGTH && ValidParams(r.params) && |r.salt| == r.params.saltLength && |r.key| == r.params.keyLength {
      forall f | s == HashText(f) && Denotes(f, r)
        ensures Parse(s) == Some(r)
      {
        DenotedIsAccepted(f, r);
      }
    }
  }

  lemma AcceptedText(s: string, r: Parsed)
    requires Parse(s) == Some(r)
    ensures Utf8Length(s) <= MAX_PHC_LENGTH && ValidParams(r.params)
    ensures |r.salt| == r.params.saltLength && |r.key| == r.params.keyLength
    ensures exists f :: s == HashText(f) && Denotes(f, r)
  {
    hide Split, Join, ParseParams, Decode, Utf8Length, EncodedLength, Numeral;
    var parts := Split(s, '$');
    JoinOfSplit(s, '$');
    var memory, iterations, parallelism := AcceptedParams(parts[3], ParseParams(parts[3]).value);
    var f := Fields(memory, iterations, parallelism, parts[4], parts[5]);
    assert parts == ["", "argon2id", "v=19", ParamsText(f), f.salt, f.key];
    assert Denotes(f, r);
  }

  lemma AcceptedParams(s: string, p: Params) returns (memory: string, iterations: string, parallelism: string)
    requires ParseParams(s) == Some(p)
    ensures s == Join(["m=" + memory, "t=" + iterations, "p=" + parallelism], ',')
    ensures Numeral(memory, p.memoryKiB) && Numeral(iterations, p.iterations) && Numeral(parallelism, p.parallelism)
  {
    hide Split, Join, DecimalValue, ParsePHCUnsigned;
    var parts := Split(s, ',');
    JoinOfSplit(s, ',');
    memory := NumberText(parts[0], "m=", 0x1_0000_0000);
    iterations := NumberText(parts[1], "t=", 0x1_0000_0000);
    parallelism := NumberText(parts[2], "p=", 256);
    assert parts == ["m=" + memory, "t=" + iterations, "p=" + parallelism];
  }

  lemma NumberText(s: string, prefix: string, limit: nat) returns (text: string)
    requires ParsePHCUnsigned(s, prefix, limit).Some?
    ensures s == prefix + text && Numeral(text, ParsePHCUnsigned(s, prefix, limit).value)
  {
    text := s[|prefix|..];
  }

  lemma NumeralParses(prefix: string, text: string, n: nat, limit: nat)
    requires Numeral(text, n) && n < limit
    ensures ParsePHCUnsigned(prefix + text, prefix, limit) == Some(n)
  {
    assert (prefix + text)[|prefix|..] == text;
  }

  lemma {:induction false} DecodedHasNoDollar(s: string)
    requires Sextets(s).Some?
    ensures '$' !in s
  {
    if s != "" {
      DecodedHasNoDollar(s[1..]);
    }
  }

  lemma ParamsTextParses(f: Fields, p: Params)
    requires ValidParams(p) && Numeral(f.memory, p.memoryKiB) && Numeral(f.iterations, p.iterations) && Numeral(f.parallelism, p.parallelism)
    ensures ParseParams(ParamsText(f)) == Some(p.(saltLength := 0, keyLength := 0)) && '$' !in ParamsText(f)
  {
    hide ParsePHCUnsigned, Join, Split, DecimalValue;
    SplitOfJoin(["m=" + f.memory, "t=" + f.iterations, "p=" + f.parallelism], ',');
    NumeralParses("m=", f.memory, p.memoryKiB, 0x1_0000_0000);
    NumeralParses("t=", f.iterations, p.iterations, 0x1_0000_0000);
    NumeralParses("p=", f.parallelism, p.parallelism, 256);
    JoinThree("m=" + f.memory, "t=" + f.iterations, "p=" + f.parallelism, ',');
  }

  lemma DenotedIsAccepted(f: Fields, r: Parsed)
    requires Denotes(f, r) && Utf8Length(HashText(f)) <= MAX_PHC_LENGTH && ValidParams(r.params)
    requires |r.salt| == r.params.saltLength && |r.key| == r.params.keyLength
    ensures Parse(HashText(f)) == Some(r)
  {
    hide ParamsText, Split, Join, ParseParams, Utf8Length, EncodedLength, Numeral, Sextets, Regroup;
    ParamsTextParses(f, r.params);
    DecodedHasNoDollar(f.salt);
    DecodedHasNoDollar(f.key);
    SplitOfJoin(["", "argon2id", "v=19", ParamsText(f), f.salt, f.key], '$');
    JoinSix("", "argon2id", "v=19", ParamsText(f), f.salt, f.key, '$');
    assert HashText(f) != "";
  }

  // ---------------------------------------------------------------------------------------
  // The hasher

  datatype VerifyError = InvalidParams | InvalidHash | NoRandomness

  datatype Verification = Verification(matched: bool, needsUpgrade: bool)

  /** `derive` is Argon2id, of which only the length of its result matters. */
  ghost predicate Derives(derive: (seq<Byte>, seq<Byte>, Params) -> seq<Byte>) {
    forall password, salt, p: Params :: |derive(password, salt, p)| == p.keyLength
  }

  /** Hash; `random` are the bytes read, None if reading failed. */
  function Hash(derive: (seq<Byte>, seq<Byte>, Params) -> seq<Byte>, p: Params, password: seq<Byte>, random: Option<seq<Byte>>):
      (r: Result<string, VerifyError>)
    ensures r == Err(InvalidParams) <==> !ValidParams(p)
    ensures r == Err(NoRandomness) <==> ValidParams(p) && (random.None? || |random.value| != p.saltLength)
    ensures r.Err? ==> r.error != InvalidHash
  {
    if !ValidParams(p) then Err(InvalidParams)
    else if random.None? || |random.value| != p.saltLength then Err(NoRandomness)
    else Ok(Print(p, random.value, derive(password, random.value, p)))
  }

  function Verify(derive: (seq<Byte>, seq<Byte>, Params) -> seq<Byte>, p: Params, password: seq<Byte>, encoded: string):
      (r: Result<Verification, VerifyError>)
    ensures r == Err(InvalidParams) <==> !ValidParams(p)
    ensures r == Err(InvalidHash) <==> ValidParams(p) && Parse(encoded).None?
    ensures r.Err? ==> r.error != NoRandomness
  {
    if !ValidParams(p) then Err(InvalidParams)
    else
      match Parse(encoded)
      case None => Err(InvalidHash)
      case Some(parsed) =>
        var matched := derive(password, parsed.salt, parsed.params) == parsed.key;
        Ok(Verification(matched, matched && parsed.params != p))
  }

  /** A hasher accepts its own hash of the same password and asks for no upgrade; a hasher with
      other parameters asks for one. */
  lemma OwnHashVerifies(derive: (seq<Byte>, seq<Byte>, Params) -> seq<Byte>, p: Params, q: Params,
                        password: seq<Byte>, random: Option<seq<Byte>>)
    requires Derives(derive) && Hash(derive, p, password, random).Ok? && ValidParams(q)
    ensures Verify(derive, q, password, Hash(derive, p, password, random).value) == Ok(Verification(true, p != q))
  {
    hide Print, Parse;
    ParseOfPrint(p, random.value, derive(password, random.value, p));
  }

  /** Another password verifies exactly when it derives the same key. */
  lemma OtherPasswordVerifiesIff(derive: (seq<Byte>, seq<Byte>, Params) -> seq<Byte>, p: Params,
                                 password: seq<Byte>, other: seq<Byte>, random: Option<seq<Byte>>)
    requires Derives(derive) && Hash(derive, p, password, random).Ok?
    ensures Verify(derive, p, other, Hash(derive, p, password, random).value) ==
            Ok(Verification(derive(other, random.value, p) == derive(password, random.value, p), false))
  {
    hide Print, Parse;
    ParseOfPrint(p, random.value, derive(password, random.value, p));
  }
}
