/** Redaction of audit payloads.

    An object is a sequence of entries in the order in which the map happens to be iterated, so that
    every statement holds for any map order.  Text is a sequence of runes; text that is not valid
    UTF-8 is kept apart. */
module Redactor {
  import opened Wrappers
  import opened Text

  const REDACTED_TEXT: string := "[redacted]"
  const MAX_VALUE_STRING := 2000
  const MAX_KEY_RUNES := 128
  const MAX_OBJECT_BYTES := 65536
  const MAX_DEPTH := 32
  const MAX_COLLECTION_ITEMS := 512

  // `Invalid` keys are not UTF-8; whether they name something sensitive depends on their bytes.
  datatype Key = Name(text: string) | Invalid(sensitive: bool)

  datatype Entry = Entry(key: Key, value: Value)

  datatype Value =
    | Null
    | Bool(b: bool)
    // A number with its JSON notation.
    | Number(text: string)
    // A number that JSON cannot express.
    | Unencodable
    | Str(text: string)
    | InvalidStr
    | NilObj
    | Obj(entries: seq<Entry>)
    | Arr(items: seq<Value>)
    // Any other Go value, with the JSON tree it decodes to, if it can be encoded within the limit.
    | Opaque(normalized: Option<Value>)

  const REDACTED := Str(REDACTED_TEXT)

  // ---------------------------------------------------------------------------------------
  // Sensitive text

  const KEY_FRAGMENTS := [
    "password", "token", "digest", "secret", "key", "authorization", "cookie", "verification",
    "upstream", "raw_response", "private_key", "api_key", "wps_sid", "dsn"]

  const VALUE_MARKERS := ["bearer ", "$argon2", "password=", "token=", "secret=", "authorization:", "cookie:"]

  predicate ContainsAny(s: string, parts: seq<string>) {
    exists k :: 0 <= k < |parts| && Contains(s, parts[k])
  }

  predicate SensitiveKey(key: Key) {
    match key
    case Invalid(sensitive) => sensitive
    case Name(text) => ContainsAny(Lower(text), KEY_FRAGMENTS)
  }

  predicate SensitiveValue(text: string) {
    ContainsAny(Lower(TrimSpace(text)), VALUE_MARKERS)
  }

  function TruncateRunes(text: string, limit: nat): (cut: string)
    ensures cut <= text && (|cut| == |text| || |cut| == limit) && |cut| <= limit
  {
    if |text| <= limit then text else text[..limit]
  }

  function SafeKey(key: Key): (safe: string)
    ensures key.Invalid? ==> safe == ""
    ensures key.Name? ==> safe <= key.text && (safe == key.text || |safe| == MAX_KEY_RUNES) && |safe| <= MAX_KEY_RUNES
  {
    match key
    case Invalid(_) => ""
    case Name(text) => TruncateRunes(text, MAX_KEY_RUNES)
  }

  predicate Blank(s: string) {
    forall k :: 0 <= k < |s| ==> IsSpace(s[k])
  }

  lemma ContainsAnyIff(text: string, parts: seq<string>)
    ensures ContainsAny(Lower(text), parts) <==> exists i, j :: 0 <= i <= j <= |text| && Lower(text[i..j]) in parts
  {
    if ContainsAny(Lower(text), parts) {
      var k :| 0 <= k < |parts| && Contains(Lower(text), parts[k]);
      var i :| 0 <= i <= |text| && OccursAt(Lower(text), parts[k], i);
      var j := i + |parts[k]|;
      assert Lower(text[i..j]) == Lower(text)[i..j];
    }
    if i, j :| 0 <= i <= j <= |text| && Lower(text[i..j]) in parts {
      assert Lower(text[i..j]) == Lower(text)[i..j];
      assert OccursAt(Lower(text), Lower(text[i..j]), i);
    }
  }

  /** A key is sensitive exactly if a stretch of it spells a fragment, in any letter case. */
  lemma SensitiveKeyIff(text: string)
    ensures SensitiveKey(Name(text)) <==> exists i, j :: 0 <= i <= j <= |text| && Lower(text[i..j]) in KEY_FRAGMENTS
  {
    ContainsAnyIff(text, KEY_FRAGMENTS);
  }

  lemma MarkerStartsVisibly(s: string)
    requires Lower(s) in VALUE_MARKERS
    ensures s != "" && !IsSpace(s[0])
  {
    assert forall k :: 0 <= k < |VALUE_MARKERS| ==> |VALUE_MARKERS[k]| > 0 && !IsSpace(VALUE_MARKERS[k][0]);
    var k :| 0 <= k < |VALUE_MARKERS| && VALUE_MARKERS[k] == Lower(s);
    assert Lower(s)[0] == LowerRune(s[0]);
  }

  /** A text is sensitive exactly if a stretch of it spells a marker, in any letter case, and does
      not end in the blanks at the end of the text. */
  lemma SensitiveValueIff(text: string)
    ensures SensitiveValue(text) <==>
            exists i, j :: 0 <= i < j <= |text| && Lower(text[i..j]) in VALUE_MARKERS && !Blank(text[j - 1..])
  {
    hide SensitiveValue;
    if SensitiveValue(text) {
      MarkerOfSensitive(text);
    }
    if i, j :| 0 <= i < j <= |text| && Lower(text[i..j]) in VALUE_MARKERS && !Blank(text[j - 1..]) {
      MarkerIsSensitive(text, i, j);
    }
  }

  lemma MarkerOfSensitive(text: string)
    requires SensitiveValue(text)
    ensures exists i, j :: 0 <= i < j <= |text| && Lower(text[i..j]) in VALUE_MARKERS && !Blank(text[j - 1..])
  {
    hide IsSpace, VALUE_MARKERS, LowerRune, Contains;
    var a, b := TrimmedSpan(text);
    ContainsAnyIff(text[a..b], VALUE_MARKERS);
    var i, j :| 0 <= i <= j <= |text[a..b]| && Lower(text[a..b][i..j]) in VALUE_MARKERS;
    SliceOfSlice(text, a, b, i, j);
    MarkerStartsVisibly(text[a + i..a + j]);
    assert text[a + j - 1..][b - a - j] == text[b - 1];
  }

  lemma MarkerIsSensitive(text: string, i: nat, j: nat)
    requires i < j <= |text| && Lower(text[i..j]) in VALUE_MARKERS && !Blank(text[j - 1..])
    ensures SensitiveValue(text)
  {
    hide IsSpace, VALUE_MARKERS, LowerRune, Contains;
    var a, b := TrimmedSpan(text);
    ContainsAnyIff(text[a..b], VALUE_MARKERS);
    MarkerStartsVisibly(text[i..j]);
    var m :| 0 <= m < |text[j - 1..]| && !IsSpace(text[j - 1..][m]);
    assert a <= i && j - 1 + m < b;
    SliceOfSlice(text, a, b, i - a, j - a);
  }

  lemma AnyInPrefix(s: string, longer: string, parts: seq<string>)
    requires s <= longer && ContainsAny(s, parts)
    ensures ContainsAny(longer, parts)
  {
    var k :| 0 <= k < |parts| && Contains(s, parts[k]);
    ContainsInPrefix(s, longer, parts[k]);
  }

  /** Cutting a text short never makes it sensitive. */
  lemma TruncationStaysHarmless(text: string, limit: nat)
    ensures SensitiveValue(TruncateRunes(text, limit)) ==> SensitiveValue(text)
    ensures SensitiveKey(Name(TruncateRunes(text, limit))) ==> SensitiveKey(Name(text))
  {
    var cut := TruncateRunes(text, limit);
    TrimOfPrefix(cut, text);
    assert Lower(TrimSpace(cut)) <= Lower(TrimSpace(text));
    assert Lower(cut) <= Lower(text);
    if SensitiveValue(cut) {
      AnyInPrefix(Lower(TrimSpace(cut)), Lower(TrimSpace(text)), VALUE_MARKERS);
    }
    if SensitiveKey(Name(cut)) {
      AnyInPrefix(Lower(cut), Lower(text), KEY_FRAGMENTS);
    }
  }

  /** Every marker has a space, a `$`, a `=` or a `:`, which the placeholder has not. */
  lemma PlaceholderIsHarmless()
    ensures !SensitiveValue(REDACTED_TEXT)
  {
    var s := REDACTED_TEXT;
    assert TrimLeft(s) == s && TrimRight(s) == s;
    assert Lower(s) == s;
    forall k | 0 <= k < |VALUE_MARKERS|
      ensures !Contains(s, VALUE_MARKERS[k])
    {
      var c := if k == 0 then ' ' else if k == 1 then '$' else if k <= 4 then '=' else ':';
      assert VALUE_MARKERS[k][if k == 0 then 6 else if k == 1 then 0 else |VALUE_MARKERS[k]| - 1] == c;
      if Contains(s, VALUE_MARKERS[k]) {
        ContainedRunes(s, VALUE_MARKERS[k], c);
      }
    }
  }

  // ---------------------------------------------------------------------------------------
  // The length of JSON text

  /** The bytes of one rune inside a JSON string, as encoding/json escapes it for HTML. */
  function RuneBytes(c: char): (n: nat)
    ensures 1 <= n <= 6
  {
    if c == '"' || c == '\\' || c == '\n' || c == '\r' || c == '\t' || c == '\U{8}' || c == '\U{C}' then 2
    else if c < ' ' || c == '<' || c == '>' || c == '&' || c == '\U{2028}' || c == '\U{2029}' then 6
    else Utf8Width(c)
  }

  function TextBytes(s: string): nat {
    if s == "" then 0 else RuneBytes(s[0]) + TextBytes(s[1..])
  }

  function StringBytes(s: string): nat {
    2 + TextBytes(s)
  }

  function Commas(n: nat): nat {
    if n == 0 then 0 else n - 1
  }

  function KeyBytes(key: Key): nat {
    StringBytes(match key case Name(text) => text case Invalid(_) => "")
  }

  /** len(json.Marshal(v)), for a value that can be encoded. */
  function JSONBytes(v: Value): nat
    decreases v, 1, 0
  {
    match v
    case Null => 4
    case Bool(b) => if b then 4 else 5
    case Number(text) => Utf8Length(text)
    case Str(text) => StringBytes(text)
    case NilObj => 4
    case Obj(entries) => 2 + EntriesBytes(entries) + Commas(|entries|)
    case Arr(items) => 2 + ItemsBytes(items) + Commas(|items|)
    case Unencodable => 0
    case InvalidStr => 0
    case Opaque(_) => 0
  }

  function EntriesBytes(entries: seq<Entry>): nat
    decreases entries, 0, 0
  {
    if entries == [] then 0
    else EntryBytes(entries[0]) + EntriesBytes(entries[1..])
  }

  function EntryBytes(e: Entry): nat
    decreases e, 2, 0
  {
    KeyBytes(e.key) + 1 + JSONBytes(e.value)
  }

  function ItemsBytes(items: seq<Value>): nat
    decreases items, 0, 0
  {
    if items == [] then 0 else JSONBytes(items[0]) + ItemsBytes(items[1..])
  }

  predicate Encodable(v: Value) {
    match v
    case Unencodable => false
    case InvalidStr => false
    case Opaque(_) => false
    case Obj(entries) => forall k :: 0 <= k < |entries| ==> Encodable(entries[k].value)
    case Arr(items) => forall k :: 0 <= k < |items| ==> Encodable(items[k])
    case _ => true
  }

  // auditEncodedBytes: the value can be encoded within the limit.
  predicate Fits(v: Value) {
    Encodable(v) && JSONBytes(v) <= MAX_OBJECT_BYTES
  }

  function HexDigit(d: nat): char
    requires d < 16
  {
    if d < 10 then '0' + d as char else 'a' + (d - 10) as char
  }

  /** One rune as encoding/json writes it. */
  function EscapedRune(c: char): string {
    if c == '"' then "\\\""
    else if c == '\\' then "\\\\"
    else if c == '\n' then "\\n"
    else if c == '\r' then "\\r"
    else if c == '\t' then "\\t"
    else if c == '\U{8}' then "\\b"
    else if c == '\U{C}' then "\\f"
    else if c < ' ' || c == '<' || c == '>' || c == '&' then "\\u00" + [HexDigit(c as nat / 16), HexDigit(c as nat % 16)]
    else if c == '\U{2028}' then "\\u2028"
    else if c == '\U{2029}' then "\\u2029"
    else [c]
  }

  function Escaped(s: string): string {
    if s == "" then "" else EscapedRune(s[0]) + Escaped(s[1..])
  }

  function Quoted(s: string): string {
    ['"'] + Escaped(s) + ['"']
  }

  /** json.Marshal(v) */
  function JSONText(v: Value): string
    decreases v, 1, 0
  {
    match v
    case Null => "null"
    case Bool(b) => if b then "true" else "false"
    case Number(text) => text
    case Str(text) => Quoted(text)
    case NilObj => "null"
    case Obj(entries) => ['{'] + EntriesText(entries) + ['}']
    case Arr(items) => ['['] + ItemsText(items) + [']']
    case Unencodable => ""
    case InvalidStr => ""
    case Opaque(_) => ""
  }

  function EntriesText(entries: seq<Entry>): string
    decreases entries, 0, 0
  {
    if entries == [] then ""
    else EntryText(entries[0]) + (if |entries| > 1 then [','] else "") + EntriesText(entries[1..])
  }

  function EntryText(e: Entry): string
    decreases e, 2, 0
  {
    Quoted(match e.key case Name(text) => text case Invalid(_) => "") + [':'] + JSONText(e.value)
  }

  function ItemsText(items: seq<Value>): string
    decreases items, 0, 0
  {
    if items == [] then ""
    else JSONText(items[0]) + (if |items| > 1 then [','] else "") + ItemsText(items[1..])
  }

  lemma {:induction false} QuotedLength(s: string)
    ensures Utf8Length(Quoted(s)) == StringBytes(s)
  {
    Utf8LengthConcat(['"'] + Escaped(s), ['"']);
    Utf8LengthConcat(['"'], Escaped(s));
    EscapedLength(s);
  }

  lemma {:induction false} EscapedLength(s: string)
    ensures Utf8Length(Escaped(s)) == TextBytes(s)
  {
    if s != "" {
      Utf8LengthConcat(EscapedRune(s[0]), Escaped(s[1..]));
      EscapedLength(s[1..]);
      RuneLength(s[0]);
    }
  }

  lemma RuneLength(c: char)
    ensures Utf8Length(EscapedRune(c)) == RuneBytes(c)
  {
    var e := EscapedRune(c);
    if e != [c] {
      AsciiLength(e);
    }
  }

  /** The byte count of a value is the length of its JSON text. */
  lemma {:induction false} JSONBytesIsLength(v: Value)
    ensures Utf8Length(JSONText(v)) == JSONBytes(v)
    decreases v, 1, 0
  {
    match v
    case Str(text) => QuotedLength(text);
    case Obj(entries) =>
      Utf8LengthConcat(['{'] + EntriesText(entries), ['}']);
      Utf8LengthConcat(['{'], EntriesText(entries));
      EntriesBytesIsLength(entries);
    case Arr(items) =>
      Utf8LengthConcat(['['] + ItemsText(items), [']']);
      Utf8LengthConcat(['['], ItemsText(items));
      ItemsBytesIsLength(items);
    case Number(_) =>
    case _ => AsciiLength(JSONText(v));
  }

  lemma {:induction false} EntriesBytesIsLength(entries: seq<Entry>)
    ensures Utf8Length(EntriesText(entries)) == EntriesBytes(entries) + Commas(|entries|)
    decreases entries, 0, 0
  {
    if entries != [] {
      var first, comma := EntryText(entries[0]), if |entries| > 1 then [','] else "";
      Utf8LengthConcat(first + comma, EntriesText(entries[1..]));
      Utf8LengthConcat(first, comma);
      EntryBytesIsLength(entries[0]);
      EntriesBytesIsLength(entries[1..]);
    }
  }

  lemma {:induction false} EntryBytesIsLength(e: Entry)
    ensures Utf8Length(EntryText(e)) == EntryBytes(e)
    decreases e, 2, 0
  {
    var key := match e.key case Name(text) => text case Invalid(_) => "";
    Utf8LengthConcat(Quoted(key) + [':'], JSONText(e.value));
    Utf8LengthConcat(Quoted(key), [':']);
    QuotedLength(key);
    JSONBytesIsLength(e.value);
  }

  lemma {:induction false} ItemsBytesIsLength(items: seq<Value>)
    ensures Utf8Length(ItemsText(items)) == ItemsBytes(items) + Commas(|items|)
    decreases items, 0, 0
  {
    if items != [] {
      var first, comma := JSONText(items[0]), if |items| > 1 then [','] else "";
      Utf8LengthConcat(first + comma, ItemsText(items[1..]));
      Utf8LengthConcat(first, comma);
      JSONBytesIsLength(items[0]);
      ItemsBytesIsLength(items[1..]);
    }
  }

  // ---------------------------------------------------------------------------------------
  // Redaction

  datatype Outcome = Outcome(value: Value, changed: bool)

  // An object or an array under construction, with its running byte count.
  datatype ObjectBuild = ObjectBuild(entries: seq<Entry>, bytes: nat, changed: bool)
  datatype ArrayBuild = ArrayBuild(items: seq<Value>, bytes: nat, changed: bool, full: bool)

  function RedactValue(v: Value, force: bool, depth: nat): Outcome
    decreases v, 1, 0
  {
    if depth >= MAX_DEPTH then Outcome(REDACTED, true)
    else if v.NilObj? then Outcome(NilObj, false)
    else if v.Obj? then
      var b := RedactEntries(v.entries, Kept(|v.entries|), force, depth);
      Outcome(Obj(b.entries), b.changed || |v.entries| > MAX_COLLECTION_ITEMS)
    else if v.Arr? then
      var b := RedactItems(v.items, Kept(|v.items|), force, depth);
      Outcome(Arr(b.items), b.changed || |v.items| > MAX_COLLECTION_ITEMS)
    else if force then Outcome(REDACTED, true)
    else
      match v
      case Str(text) => RedactText(text)
      case InvalidStr => Outcome(REDACTED, true)
      case Opaque(None) => Outcome(REDACTED, true)
      case Opaque(Some(normalized)) => RedactValue(normalized, false, depth + 1)
      case _ => Outcome(v, false)
  }

  function Kept(count: nat): nat {
    if count > MAX_COLLECTION_ITEMS then MAX_COLLECTION_ITEMS else count
  }

  function RedactText(text: string): Outcome {
    if SensitiveValue(text) then Outcome(REDACTED, true)
    else
      var cut := TruncateRunes(text, MAX_VALUE_STRING);
      Outcome(Str(cut), cut != text)
  }

  function RedactEntry(e: Entry, force: bool, depth: nat): Outcome
    decreases e, 2, 0
  {
    if SensitiveKey(e.key) then Outcome(REDACTED, true) else RedactValue(e.value, force, depth + 1)
  }

  function RedactEntries(entries: seq<Entry>, n: nat, force: bool, depth: nat): ObjectBuild
    requires n <= |entries|
    decreases entries, 0, n
  {
    if n == 0 then ObjectBuild([], 2, force)
    else
      AddEntry(RedactEntries(entries, n - 1, force, depth), entries[n - 1].key, RedactEntry(entries[n - 1], force, depth))
  }

  function RedactItems(items: seq<Value>, n: nat, force: bool, depth: nat): ArrayBuild
    requires n <= |items|
    decreases items, 0, n
  {
    if n == 0 then ArrayBuild([], 2, force, false)
    else AddItem(RedactItems(items, n - 1, force, depth), RedactValue(items[n - 1], force, depth + 1))
  }

  predicate HasKey(entries: seq<Entry>, key: string) {
    exists k :: 0 <= k < |entries| && entries[k].key == Name(key)
  }

  function Comma(n: nat): nat {
    if n > 0 then 1 else 0
  }

  /** One entry of an object: skipped if its safe key is taken, replaced if it does not fit, and
      dropped if not even the placeholder fits. */
  function AddEntry(b: ObjectBuild, key: Key, o: Outcome): ObjectBuild {
    var safe := SafeKey(key);
    var whole, short := Entry(Name(safe), o.value), Entry(Name(safe), REDACTED);
    var comma := Comma(|b.entries|);
    if HasKey(b.entries, safe) then b.(changed := true)
    else if Fits(o.value) && b.bytes + EntryBytes(whole) + comma <= MAX_OBJECT_BYTES then
      ObjectBuild(b.entries + [whole], b.bytes + EntryBytes(whole) + comma, b.changed || key != Name(safe) || o.changed)
    else if b.bytes + EntryBytes(short) + comma <= MAX_OBJECT_BYTES then
      ObjectBuild(b.entries + [short], b.bytes + EntryBytes(short) + comma, true)
    else b.(changed := true)
  }

  /** One item of an array: replaced if it does not fit; if not even the placeholder does, the
      array ends there. */
  function AddItem(b: ArrayBuild, o: Outcome): ArrayBuild {
    var comma := Comma(|b.items|);
    if b.full then b
    else if Fits(o.value) && b.bytes + JSONBytes(o.value) + comma <= MAX_OBJECT_BYTES then
      ArrayBuild(b.items + [o.value], b.bytes + JSONBytes(o.value) + comma, b.changed || o.changed, false)
    else if b.bytes + JSONBytes(REDACTED) + comma <= MAX_OBJECT_BYTES then
      ArrayBuild(b.items + [REDACTED], b.bytes + JSONBytes(REDACTED) + comma, true, false)
    else b.(changed := true, full := true)
  }

  // ---------------------------------------------------------------------------------------
  // What redacted values look like, whatever the order of their entries

  predicate DistinctKeys(entries: seq<Entry>) {
    forall i, j :: 0 <= i < j < |entries| ==> entries[i].key != entries[j].key
  }

  predicate CleanKey(e: Entry) {
    e.key.Name? && |e.key.text| <= MAX_KEY_RUNES && (SensitiveKey(e.key) ==> e.value == REDACTED)
  }

  ghost predicate Clean(v: Value, depth: nat)
    decreases v, 1, 0
  {
    if depth >= MAX_DEPTH then v == REDACTED
    else
      match v
      case Str(text) => |text| <= MAX_VALUE_STRING && !SensitiveValue(text)
      case InvalidStr => false
      case Opaque(_) => false
      case Obj(entries) =>
        |entries| <= MAX_COLLECTION_ITEMS && DistinctKeys(entries) && JSONBytes(v) <= MAX_OBJECT_BYTES &&
        forall k :: 0 <= k < |entries| ==> CleanEntry(entries[k], depth)
      case Arr(items) =>
        |items| <= MAX_COLLECTION_ITEMS && JSONBytes(v) <= MAX_OBJECT_BYTES &&
        forall k :: 0 <= k < |items| ==> Encodable(items[k]) && Clean(items[k], depth + 1)
      case _ => true
  }

  ghost predicate CleanEntry(e: Entry, depth: nat)
    decreases e, 2, 0
  {
    CleanKey(e) && Encodable(e.value) && Clean(e.value, depth + 1)
  }

  /** Nothing but placeholders and empty objects at the leaves. */
  ghost predicate Forced(v: Value) {
    match v
    case NilObj => true
    case Obj(entries) => forall k :: 0 <= k < |entries| ==> Forced(entries[k].value)
    case Arr(items) => forall k :: 0 <= k < |items| ==> Forced(items[k])
    case _ => v == REDACTED
  }

  // ---------------------------------------------------------------------------------------
  // Byte counts of concatenations

  lemma {:induction false} EntriesBytesConcat(a: seq<Entry>, b: seq<Entry>)
    ensures EntriesBytes(a + b) == EntriesBytes(a) + EntriesBytes(b)
  {
    if a == [] {
      assert a + b == b;
    } else {
      EntriesBytesConcat(a[1..], b);
      assert (a + b)[1..] == a[1..] + b;
    }
  }

  lemma EntriesBytesSnoc(entries: seq<Entry>, e: Entry)
    ensures EntriesBytes(entries + [e]) == EntriesBytes(entries) + EntryBytes(e)
  {
    EntriesBytesConcat(entries, [e]);
  }

  lemma {:induction false} ItemsBytesConcat(a: seq<Value>, b: seq<Value>)
    ensures ItemsBytes(a + b) == ItemsBytes(a) + ItemsBytes(b)
  {
    if a == [] {
      assert a + b == b;
    } else {
      ItemsBytesConcat(a[1..], b);
      assert (a + b)[1..] == a[1..] + b;
    }
  }

  lemma ItemsBytesSnoc(items: seq<Value>, v: Value)
    ensures ItemsBytes(items + [v]) == ItemsBytes(items) + JSONBytes(v)
  {
    ItemsBytesConcat(items, [v]);
    assert ItemsBytes([v]) == JSONBytes(v) + ItemsBytes([v][1..]);
  }

  // ---------------------------------------------------------------------------------------
  // Redaction cleans

  /** The running count is the length of the JSON text so far. */
  ghost predicate Counted(b: ObjectBuild) {
    b.bytes == 2 + EntriesBytes(b.entries) + Commas(|b.entries|) && b.bytes <= MAX_OBJECT_BYTES
  }

  ghost predicate CleanObject(b: ObjectBuild, n: nat, depth: nat) {
    Counted(b) && |b.entries| <= n && DistinctKeys(b.entries) &&
    forall k :: 0 <= k < |b.entries| ==> CleanEntry(b.entries[k], depth)
  }

  lemma PlaceholderIsClean(depth: nat)
    ensures Clean(REDACTED, depth) && Encodable(REDACTED)
  {
    PlaceholderIsHarmless();
  }

  lemma OneMoreEntry(b: ObjectBuild, n: nat, e: Entry, depth: nat, changed: bool)
    requires CleanObject(b, n, depth) && CleanEntry(e, depth) && !HasKey(b.entries, e.key.text)
    requires b.bytes + EntryBytes(e) + Comma(|b.entries|) <= MAX_OBJECT_BYTES
    ensures CleanObject(ObjectBuild(b.entries + [e], b.bytes + EntryBytes(e) + Comma(|b.entries|), changed), n + 1, depth)
  {
    hide EntriesBytes, EntryBytes, CleanEntry;
    NameOf(e, depth);
    EntriesBytesSnoc(b.entries, e);
  }

  lemma NameOf(e: Entry, depth: nat)
    requires CleanEntry(e, depth)
    ensures e.key == Name(e.key.text)
  {
  }

  lemma SafeEntryIsClean(key: Key, value: Value, depth: nat)
    requires Encodable(value) && Clean(value, depth + 1) && (SensitiveKey(key) ==> value == REDACTED)
    ensures CleanEntry(Entry(Name(SafeKey(key)), value), depth)
  {
    if key.Name? {
      TruncationStaysHarmless(key.text, MAX_KEY_RUNES);
    }
    EmptyKeyIsHarmless();
  }

  lemma AddEntryKeepsClean(b: ObjectBuild, n: nat, key: Key, o: Outcome, depth: nat)
    requires CleanObject(b, n, depth) && Clean(o.value, depth + 1) && (SensitiveKey(key) ==> o.value == REDACTED)
    ensures CleanObject(AddEntry(b, key, o), n + 1, depth)
  {
    hide SensitiveKey, Clean, EntryBytes, EntriesBytes, JSONBytes, CleanEntry, Encodable, SafeKey, HasKey;
    var safe := SafeKey(key);
    if !HasKey(b.entries, safe) {
      var after := AddEntry(b, key, o);
      PlaceholderIsClean(depth + 1);
      SafeEntryIsClean(key, REDACTED, depth);
      if Fits(o.value) {
        SafeEntryIsClean(key, o.value, depth);
      }
      if |after.entries| > |b.entries| {
        OneMoreEntry(b, n, after.entries[|b.entries|], depth, after.changed);
      }
    }
  }

  lemma EmptyKeyIsHarmless()
    ensures !SensitiveKey(Name(""))
  {
    assert forall k :: 0 <= k < |KEY_FRAGMENTS| ==> |KEY_FRAGMENTS[k]| > 0;
  }

  ghost predicate CleanArray(b: ArrayBuild, n: nat, depth: nat) {
    b.bytes == 2 + ItemsBytes(b.items) + Commas(|b.items|) && b.bytes <= MAX_OBJECT_BYTES && |b.items| <= n &&
    forall k :: 0 <= k < |b.items| ==> Encodable(b.items[k]) && Clean(b.items[k], depth + 1)
  }

  lemma AddItemKeepsClean(b: ArrayBuild, n: nat, o: Outcome, depth: nat)
    requires CleanArray(b, n, depth) && Clean(o.value, depth + 1)
    ensures CleanArray(AddItem(b, o), n + 1, depth)
  {
    hide Clean, JSONBytes, ItemsBytes, Encodable;
    var after := AddItem(b, o);
    if |after.items| > |b.items| {
      PlaceholderIsClean(depth + 1);
      ItemsBytesSnoc(b.items, after.items[|b.items|]);
    }
  }

  lemma {:induction false} ShallowerIsClean(v: Value, depth: nat)
    requires Clean(v, depth + 1)
    ensures Clean(v, depth)
    decreases v, 1
  {
    if depth + 1 >= MAX_DEPTH {
      PlaceholderIsClean(depth);
    } else {
      match v
      case Obj(entries) =>
        forall k | 0 <= k < |entries|
          ensures CleanEntry(entries[k], depth)
        {
          assert CleanEntry(entries[k], depth + 1);
          ShallowerEntryIsClean(entries[k], depth);
        }
      case Arr(items) =>
        forall k | 0 <= k < |items|
          ensures Clean(items[k], depth + 1)
        {
          ShallowerIsClean(items[k], depth + 1);
        }
      case _ =>
    }
  }

  lemma {:induction false} ShallowerEntryIsClean(e: Entry, depth: nat)
    requires CleanEntry(e, depth + 1)
    ensures CleanEntry(e, depth)
    decreases e, 2
  {
    ShallowerIsClean(e.value, depth + 1);
  }

  /** Whatever goes in, what comes out is clean at its depth. */
  lemma {:induction false} RedactedIsClean(v: Value, force: bool, depth: nat)
    ensures Clean(RedactValue(v, force, depth).value, depth)
    decreases v, 1, 0
  {
    hide CleanEntry, SensitiveValue, Encodable;
    PlaceholderIsClean(depth);
    if depth < MAX_DEPTH {
      match v
      case Obj(entries) =>
        EntriesAreClean(entries, Kept(|entries|), force, depth);
      case Arr(items) =>
        ItemsAreClean(items, Kept(|items|), force, depth);
      case Str(text) => TruncationStaysHarmless(text, MAX_VALUE_STRING);
      case Opaque(Some(normalized)) =>
        RedactedIsClean(normalized, false, depth + 1);
        ShallowerIsClean(RedactValue(normalized, false, depth + 1).value, depth);
      case _ =>
    }
  }

  lemma {:induction false} RedactedEntryIsClean(e: Entry, force: bool, depth: nat)
    ensures Clean(RedactEntry(e, force, depth).value, depth + 1)
    decreases e, 2, 0
  {
    PlaceholderIsClean(depth + 1);
    RedactedIsClean(e.value, force, depth + 1);
  }

  lemma {:induction false} EntriesAreClean(entries: seq<Entry>, n: nat, force: bool, depth: nat)
    requires n <= |entries|
    ensures CleanObject(RedactEntries(entries, n, force, depth), n, depth)
    decreases entries, 0, n
  {
    if n > 0 {
      var e := entries[n - 1];
      EntriesAreClean(entries, n - 1, force, depth);
      RedactedEntryIsClean(e, force, depth);
      AddEntryKeepsClean(RedactEntries(entries, n - 1, force, depth), n - 1, e.key, RedactEntry(e, force, depth), depth);
    }
  }

  lemma {:induction false} ItemsAreClean(items: seq<Value>, n: nat, force: bool, depth: nat)
    requires n <= |items|
    ensures CleanArray(RedactItems(items, n, force, depth), n, depth)
    decreases items, 0, n
  {
    if n > 0 {
      ItemsAreClean(items, n - 1, force, depth);
      RedactedIsClean(items[n - 1], force, depth + 1);
      AddItemKeepsClean(RedactItems(items, n - 1, force, depth), n - 1, RedactValue(items[n - 1], force, depth + 1), depth);
    }
  }

  // ---------------------------------------------------------------------------------------
  // Redaction keeps what is clean

  lemma ValueBytesWithin(entries: seq<Entry>, n: nat)
    requires n < |entries|
    ensures EntriesBytes(entries[..n + 1]) == EntriesBytes(entries[..n]) + EntryBytes(entries[n]) <= EntriesBytes(entries)
    ensures JSONBytes(entries[n].value) <= EntryBytes(entries[n])
  {
    hide EntriesBytes, JSONBytes, KeyBytes;
    assert entries[..n + 1] == entries[..n] + [entries[n]];
    EntriesBytesSnoc(entries[..n], entries[n]);
    assert entries == entries[..n + 1] + entries[n + 1..];
    EntriesBytesConcat(entries[..n + 1], entries[n + 1..]);
  }

  lemma ItemBytesWithin(items: seq<Value>, n: nat)
    requires n < |items|
    ensures ItemsBytes(items[..n + 1]) == ItemsBytes(items[..n]) + JSONBytes(items[n]) <= ItemsBytes(items)
  {
    hide ItemsBytes, JSONBytes;
    assert items[..n + 1] == items[..n] + [items[n]];
    ItemsBytesSnoc(items[..n], items[n]);
    assert items == items[..n + 1] + items[n + 1..];
    ItemsBytesConcat(items[..n + 1], items[n + 1..]);
  }

  lemma {:induction false} CleanIsKept(v: Value, force: bool, depth: nat)
    requires Clean(v, depth) && (force ==> Forced(v))
    ensures RedactValue(v, force, depth).value == v
    decreases v, 1, 0
  {
    if depth < MAX_DEPTH {
      match v
      case Obj(entries) =>
        EntriesAreKept(entries, |entries|, force, depth);
        assert entries[..|entries|] == entries;
      case Arr(items) =>
        ItemsAreKept(items, |items|, force, depth);
        assert items[..|items|] == items;
      case _ =>
    }
  }

  lemma {:induction false} EntryIsKept(e: Entry, force: bool, depth: nat)
    requires CleanEntry(e, depth) && (force ==> Forced(e.value))
    ensures RedactEntry(e, force, depth).value == e.value
    decreases e, 2, 0
  {
    CleanIsKept(e.value, force, depth + 1);
  }

  lemma {:induction false} EntriesAreKept(entries: seq<Entry>, n: nat, force: bool, depth: nat)
    requires n <= |entries| <= MAX_COLLECTION_ITEMS && DistinctKeys(entries)
    requires 2 + EntriesBytes(entries) + Commas(|entries|) <= MAX_OBJECT_BYTES
    requires forall k :: 0 <= k < |entries| ==> CleanEntry(entries[k], depth) && (force ==> Forced(entries[k].value))
    ensures var b := RedactEntries(entries, n, force, depth);
            b.entries == entries[..n] && b.bytes == 2 + EntriesBytes(entries[..n]) + Commas(n)
    decreases entries, 0, n
  {
    hide EntriesBytes, EntryBytes, JSONBytes, Clean, Encodable, Forced, AddEntry, RedactEntry, HasKey, SafeKey;
    if n == 0 {
      assert entries[..0] == [];
      NoBytes();
    } else {
      var e := entries[n - 1];
      EntriesAreKept(entries, n - 1, force, depth);
      assert CleanEntry(e, depth);
      EntryIsKept(e, force, depth);
      ValueBytesWithin(entries, n - 1);
      KeyIsFree(entries, n - 1);
      CleanKeyIsSafe(e, depth);
      AddFitting(RedactEntries(entries, n - 1, force, depth), e, RedactEntry(e, force, depth));
      assert entries[..n] == entries[..n - 1] + [e];
    }
  }

  lemma AddFitting(b: ObjectBuild, e: Entry, o: Outcome)
    requires e.key == Name(SafeKey(e.key)) && o.value == e.value && !HasKey(b.entries, e.key.text) && Fits(e.value)
    requires b.bytes + EntryBytes(e) + Comma(|b.entries|) <= MAX_OBJECT_BYTES
    ensures var after := AddEntry(b, e.key, o);
            after.entries == b.entries + [e] && after.bytes == b.bytes + EntryBytes(e) + Comma(|b.entries|)
  {
    hide Fits, EntryBytes, HasKey, SafeKey;
  }

  lemma NoBytes()
    ensures EntriesBytes([]) == 0 && ItemsBytes([]) == 0
  {
  }

  lemma KeyIsFree(entries: seq<Entry>, n: nat)
    requires n < |entries| && DistinctKeys(entries) && entries[n].key.Name?
    ensures !HasKey(entries[..n], entries[n].key.text)
  {
  }

  lemma CleanKeyIsSafe(e: Entry, depth: nat)
    requires CleanEntry(e, depth)
    ensures e == Entry(Name(SafeKey(e.key)), e.value) && e.key == Name(SafeKey(e.key)) && Encodable(e.value)
  {
  }

  lemma {:induction false} ItemsAreKept(items: seq<Value>, n: nat, force: bool, depth: nat)
    requires n <= |items| <= MAX_COLLECTION_ITEMS && 2 + ItemsBytes(items) + Commas(|items|) <= MAX_OBJECT_BYTES
    requires forall k :: 0 <= k < |items| ==>
      Encodable(items[k]) && Clean(items[k], depth + 1) && (force ==> Forced(items[k]))
    ensures var b := RedactItems(items, n, force, depth);
            b.items == items[..n] && b.bytes == 2 + ItemsBytes(items[..n]) + Commas(n) && !b.full
    decreases items, 0, n
  {
    hide ItemsBytes, JSONBytes, Clean, Encodable, Forced;
    if n == 0 {
      assert items[..0] == [];
      NoBytes();
    } else {
      ItemsAreKept(items, n - 1, force, depth);
      CleanIsKept(items[n - 1], force, depth + 1);
      ItemBytesWithin(items, n - 1);
      assert items[..n] == items[..n - 1] + [items[n - 1]];
    }
  }

  // ---------------------------------------------------------------------------------------
  // Under force

  lemma {:induction false} ForcedRedaction(v: Value, force: bool, depth: nat)
    requires force
    ensures Forced(RedactValue(v, force, depth).value)
    decreases v, 1, 0
  {
    if depth < MAX_DEPTH {
      match v
      case Obj(entries) =>
        ForcedEntries(entries, Kept(|entries|), force, depth);
      case Arr(items) =>
        ForcedItems(items, Kept(|items|), force, depth);
      case _ =>
    }
  }

  lemma {:induction false} ForcedEntry(e: Entry, force: bool, depth: nat)
    requires force
    ensures Forced(RedactEntry(e, force, depth).value)
    decreases e, 2, 0
  {
    ForcedRedaction(e.value, force, depth + 1);
  }

  lemma {:induction false} ForcedEntries(entries: seq<Entry>, n: nat, force: bool, depth: nat)
    requires n <= |entries| && force
    ensures Forced(Obj(RedactEntries(entries, n, force, depth).entries))
    decreases entries, 0, n
  {
    if n > 0 {
      ForcedEntries(entries, n - 1, force, depth);
      ForcedEntry(entries[n - 1], force, depth);
      AddEntryKeepsForced(RedactEntries(entries, n - 1, force, depth), entries[n - 1].key, RedactEntry(entries[n - 1], force, depth));
    }
  }

  lemma AddEntryKeepsForced(b: ObjectBuild, key: Key, o: Outcome)
    requires Forced(Obj(b.entries)) && Forced(o.value)
    ensures Forced(Obj(AddEntry(b, key, o).entries))
  {
    hide EntryBytes, JSONBytes, Encodable, HasKey, Fits;
  }

  lemma {:induction false} ForcedItems(items: seq<Value>, n: nat, force: bool, depth: nat)
    requires n <= |items| && force
    ensures Forced(Arr(RedactItems(items, n, force, depth).items))
    decreases items, 0, n
  {
    if n > 0 {
      ForcedItems(items, n - 1, force, depth);
      ForcedRedaction(items[n - 1], force, depth + 1);
      AddItemKeepsForced(RedactItems(items, n - 1, force, depth), RedactValue(items[n - 1], force, depth + 1));
    }
  }

  lemma AddItemKeepsForced(b: ArrayBuild, o: Outcome)
    requires Forced(Arr(b.items)) && Forced(o.value)
    ensures Forced(Arr(AddItem(b, o).items))
  {
    hide JSONBytes, Encodable, Fits;
  }

  // ---------------------------------------------------------------------------------------
  // Any order of the entries

  /** The same value with the entries of its objects, at every level, in any other order. */
  ghost predicate Reorders(v: Value, w: Value)
    decreases v, 1, 0
  {
    match v
    case Obj(entries) => w.Obj? && ReordersEntries(entries, w.entries)
    case Arr(items) => w.Arr? && |items| == |w.items| && forall k :: 0 <= k < |items| ==> Reorders(items[k], w.items[k])
    case _ => v == w
  }

  ghost predicate ReordersEntries(entries: seq<Entry>, others: seq<Entry>)
    decreases entries, 0, 0
  {
    if entries == [] then others == []
    else
      exists k :: 0 <= k < |others| && ReordersEntry(entries[0], others[k]) && ReordersEntries(entries[1..], Without(others, k))
  }

  ghost predicate ReordersEntry(e: Entry, other: Entry)
    decreases e, 2, 0
  {
    e.key == other.key && Reorders(e.value, other.value)
  }

  function Without(entries: seq<Entry>, k: nat): seq<Entry>
    requires k < |entries|
  {
    entries[..k] + entries[k + 1..]
  }

  lemma BytesWithout(entries: seq<Entry>, k: nat)
    requires k < |entries|
    ensures EntriesBytes(entries) == EntryBytes(entries[k]) + EntriesBytes(Without(entries, k))
  {
    EntriesBytesConcat(entries[..k], entries[k + 1..]);
    EntriesBytesConcat(entries[..k], entries[k..]);
    assert entries == entries[..k] + entries[k..];
    assert entries[k..][1..] == entries[k + 1..];
  }

  /** Every entry of the reordered object is one of the original's. */
  lemma {:induction false} EveryEntryIsMatched(entries: seq<Entry>, others: seq<Entry>, i: nat)
    requires ReordersEntries(entries, others) && i < |others|
    ensures exists j :: 0 <= j < |entries| && ReordersEntry(entries[j], others[i])
    decreases |entries|
  {
    var k :| 0 <= k < |others| && ReordersEntry(entries[0], others[k]) && ReordersEntries(entries[1..], Without(others, k));
    if i != k {
      var m := if i < k then i else i - 1;
      assert Without(others, k)[m] == others[i];
      EveryEntryIsMatched(entries[1..], Without(others, k), m);
      var j :| 0 <= j < |entries[1..]| && ReordersEntry(entries[1..][j], Without(others, k)[m]);
      assert ReordersEntry(entries[j + 1], others[i]);
    }
  }

  lemma {:induction false} ReorderingKeepsDistinct(entries: seq<Entry>, others: seq<Entry>)
    requires ReordersEntries(entries, others) && DistinctKeys(entries)
    ensures |entries| == |others| && DistinctKeys(others)
    decreases |entries|
  {
    if entries != [] {
      var k :| 0 <= k < |others| && ReordersEntry(entries[0], others[k]) && ReordersEntries(entries[1..], Without(others, k));
      var rest := Without(others, k);
      ReorderingKeepsDistinct(entries[1..], rest);
      forall m | 0 <= m < |rest|
        ensures rest[m].key != others[k].key
      {
        EveryEntryIsMatched(entries[1..], rest, m);
        var j :| 0 <= j < |entries[1..]| && ReordersEntry(entries[1..][j], rest[m]);
        assert entries[0].key != entries[j + 1].key;
      }
      DistinctWith(others, k);
    }
  }

  lemma DistinctWith(entries: seq<Entry>, k: nat)
    requires k < |entries| && DistinctKeys(Without(entries, k))
    requires forall m :: 0 <= m < |Without(entries, k)| ==> Without(entries, k)[m].key != entries[k].key
    ensures DistinctKeys(entries)
  {
    var rest := Without(entries, k);
    forall i, j | 0 <= i < j < |entries|
      ensures entries[i].key != entries[j].key
    {
      var m, n := if i < k then i else i - 1, if j < k then j else j - 1;
      assert i != k ==> rest[m] == entries[i];
      assert j != k ==> rest[n] == entries[j];
    }
  }

  lemma {:induction false} ReorderingKeepsBytes(v: Value, w: Value)
    requires Reorders(v, w)
    ensures JSONBytes(w) == JSONBytes(v)
    decreases v, 1, 0
  {
    match v
    case Obj(entries) => ReorderingKeepsEntriesBytes(entries, w.entries);
    case Arr(items) => ReorderingKeepsItemsBytes(items, w.items);
    case _ =>
  }

  lemma {:induction false} ReorderingKeepsEntriesBytes(entries: seq<Entry>, others: seq<Entry>)
    requires ReordersEntries(entries, others)
    ensures |entries| == |others| && EntriesBytes(others) == EntriesBytes(entries)
    decreases entries, 0, 0
  {
    if entries != [] {
      var k :| 0 <= k < |others| && ReordersEntry(entries[0], others[k]) && ReordersEntries(entries[1..], Without(others, k));
      ReorderingKeepsEntryBytes(entries[0], others[k]);
      ReorderingKeepsEntriesBytes(entries[1..], Without(others, k));
      BytesWithout(others, k);
    }
  }

  lemma {:induction false} ReorderingKeepsEntryBytes(e: Entry, other: Entry)
    requires ReordersEntry(e, other)
    ensures EntryBytes(other) == EntryBytes(e)
    decreases e, 2, 0
  {
    ReorderingKeepsBytes(e.value, other.value);
  }

  lemma {:induction false} ReorderingKeepsItemsBytes(items: seq<Value>, others: seq<Value>)
    requires |items| == |others| && forall k :: 0 <= k < |items| ==> Reorders(items[k], others[k])
    ensures ItemsBytes(others) == ItemsBytes(items)
    decreases items, 0, 0
  {
    if items != [] {
      ReorderingKeepsBytes(items[0], others[0]);
      ReorderingKeepsItemsBytes(items[1..], others[1..]);
    }
  }

  lemma {:induction false} ReorderingKeepsClean(v: Value, w: Value, depth: nat)
    requires Reorders(v, w) && Clean(v, depth)
    ensures Clean(w, depth) && (Encodable(v) ==> Encodable(w)) && (Forced(v) ==> Forced(w))
    decreases v, 1, 0
  {
    if depth < MAX_DEPTH {
      ReorderingKeepsBytes(v, w);
      match v
      case Obj(entries) =>
        ReorderingKeepsDistinct(entries, w.entries);
        forall i | 0 <= i < |w.entries|
          ensures CleanEntry(w.entries[i], depth) && Encodable(w.entries[i].value)
          ensures Forced(v) ==> Forced(w.entries[i].value)
        {
          EveryEntryIsMatched(entries, w.entries, i);
          var j :| 0 <= j < |entries| && ReordersEntry(entries[j], w.entries[i]);
          ReorderingKeepsCleanEntry(entries[j], w.entries[i], depth);
        }
      case Arr(items) =>
        forall k | 0 <= k < |items|
          ensures Clean(w.items[k], depth + 1) && Encodable(w.items[k]) && (Forced(v) ==> Forced(w.items[k]))
        {
          ReorderingKeepsClean(items[k], w.items[k], depth + 1);
        }
      case _ =>
    }
  }

  lemma {:induction false} ReorderingKeepsCleanEntry(e: Entry, other: Entry, depth: nat)
    requires ReordersEntry(e, other) && CleanEntry(e, depth)
    ensures CleanEntry(other, depth) && (Forced(e.value) ==> Forced(other.value))
    decreases e, 2, 0
  {
    ReorderingKeepsClean(e.value, other.value, depth + 1);
  }

  /** Redaction is idempotent: a second pass over the result, in whatever order it meets the
      entries, changes nothing. */
  lemma RedactionIsIdempotent(v: Value, force: bool, depth: nat, w: Value, again: bool)
    requires Reorders(RedactValue(v, force, depth).value, w) && (again ==> force)
    ensures RedactValue(w, again, depth).value == w
  {
    var r := RedactValue(v, force, depth).value;
    RedactedIsClean(v, force, depth);
    if force {
      ForcedRedaction(v, force, depth);
    }
    ReorderingKeepsClean(r, w, depth);
    CleanIsKept(w, again, depth);
  }

  // ---------------------------------------------------------------------------------------
  // What clean means

  predicate NestsWithin(v: Value, levels: nat) {
    match v
    case Obj(entries) => levels > 0 && forall k :: 0 <= k < |entries| ==> NestsWithin(entries[k].value, levels - 1)
    case Arr(items) => levels > 0 && forall k :: 0 <= k < |items| ==> NestsWithin(items[k], levels - 1)
    case _ => true
  }

  lemma {:induction false} CleanNests(v: Value, depth: nat)
    requires Clean(v, depth) && depth <= MAX_DEPTH
    ensures NestsWithin(v, MAX_DEPTH - depth)
    decreases v, 1
  {
    if depth < MAX_DEPTH {
      match v
      case Obj(entries) =>
        forall k | 0 <= k < |entries|
          ensures NestsWithin(entries[k].value, MAX_DEPTH - depth - 1)
        {
          assert CleanEntry(entries[k], depth);
          CleanEntryNests(entries[k], depth);
        }
      case Arr(items) =>
        forall k | 0 <= k < |items|
          ensures NestsWithin(items[k], MAX_DEPTH - depth - 1)
        {
          CleanNests(items[k], depth + 1);
        }
      case _ =>
    }
  }

  lemma {:induction false} CleanEntryNests(e: Entry, depth: nat)
    requires CleanEntry(e, depth) && depth < MAX_DEPTH
    ensures NestsWithin(e.value, MAX_DEPTH - depth - 1)
    decreases e, 2
  {
    CleanNests(e.value, depth + 1);
  }

  /** A redacted object or array, as stored: its byte count, its size, its nesting and its leaves. */
  lemma RedactedIsBounded(v: Value, force: bool)
    requires v.Obj? || v.Arr?
    ensures var r := RedactValue(v, force, 0).value;
            JSONBytes(r) <= MAX_OBJECT_BYTES && NestsWithin(r, MAX_DEPTH) &&
            (r.Obj? ==> |r.entries| <= MAX_COLLECTION_ITEMS) && (r.Arr? ==> |r.items| <= MAX_COLLECTION_ITEMS) &&
            Harmless(r)
  {
    var r := RedactValue(v, force, 0).value;
    RedactedIsClean(v, force, 0);
    CleanNests(r, 0);
    CleanIsHarmless(r, 0);
  }

  /** No text is sensitive or overlong, and nothing stands under a sensitive key. */
  predicate Harmless(v: Value) {
    match v
    case Str(text) => |text| <= MAX_VALUE_STRING && !SensitiveValue(text)
    case Obj(entries) => forall k :: 0 <= k < |entries| ==> CleanKey(entries[k]) && Harmless(entries[k].value)
    case Arr(items) => forall k :: 0 <= k < |items| ==> Harmless(items[k])
    case _ => !v.InvalidStr? && !v.Opaque?
  }

  lemma {:induction false} CleanIsHarmless(v: Value, depth: nat)
    requires Clean(v, depth)
    ensures Harmless(v)
    decreases v, 1
  {
    PlaceholderIsHarmless();
    if depth < MAX_DEPTH {
      match v
      case Obj(entries) =>
        forall k | 0 <= k < |entries|
          ensures CleanKey(entries[k]) && Harmless(entries[k].value)
        {
          assert CleanEntry(entries[k], depth);
          CleanEntryIsHarmless(entries[k], depth);
        }
      case Arr(items) =>
        forall k | 0 <= k < |items|
          ensures Harmless(items[k])
        {
          CleanIsHarmless(items[k], depth + 1);
        }
      case _ =>
    }
  }

  lemma {:induction false} CleanEntryIsHarmless(e: Entry, depth: nat)
    requires CleanEntry(e, depth)
    ensures Harmless(e.value)
    decreases e, 2
  {
    CleanIsHarmless(e.value, depth + 1);
  }

  // ---------------------------------------------------------------------------------------
  // Where redacted entries come from, and what the flag means

  /** An entry of the result is the redaction of an input entry with that safe key, or a
      placeholder; it is a placeholder whenever the input's own key is sensitive. */
  ghost predicate ComesFrom(e: Entry, entries: seq<Entry>, n: nat, force: bool, depth: nat)
    requires n <= |entries|
  {
    exists i :: 0 <= i < n && e.key == Name(SafeKey(entries[i].key)) && (e.value == REDACTED ||
      (!SensitiveKey(entries[i].key) && e.value == RedactValue(entries[i].value, force, depth + 1).value))
  }

  lemma UnfoldEntries(entries: seq<Entry>, n: nat, force: bool, depth: nat)
    requires n <= |entries|
    ensures RedactEntries(entries, n, force, depth) ==
            if n == 0 then ObjectBuild([], 2, force)
            else AddEntry(RedactEntries(entries, n - 1, force, depth), entries[n - 1].key, RedactEntry(entries[n - 1], force, depth))
  {
  }

  lemma UnfoldItems(items: seq<Value>, n: nat, force: bool, depth: nat)
    requires n <= |items|
    ensures RedactItems(items, n, force, depth) ==
            if n == 0 then ArrayBuild([], 2, force, false)
            else AddItem(RedactItems(items, n - 1, force, depth), RedactValue(items[n - 1], force, depth + 1))
  {
  }

  lemma AddEntryAdds(b: ObjectBuild, key: Key, o: Outcome)
    ensures var out := AddEntry(b, key, o).entries;
            out == b.entries || out == b.entries + [Entry(Name(SafeKey(key)), o.value)] ||
            out == b.entries + [Entry(Name(SafeKey(key)), REDACTED)]
  {
    hide Fits, EntryBytes, HasKey;
  }

  lemma RedactedEntryIs(e: Entry, force: bool, depth: nat)
    ensures RedactEntry(e, force, depth).value ==
            if SensitiveKey(e.key) then REDACTED else RedactValue(e.value, force, depth + 1).value
  {
  }

  lemma {:induction false} EntriesComeFrom(entries: seq<Entry>, n: nat, force: bool, depth: nat)
    requires n <= |entries|
    ensures var out := RedactEntries(entries, n, force, depth).entries;
            forall k :: 0 <= k < |out| ==> ComesFrom(out[k], entries, n, force, depth)
    decreases n
  {
    hide AddEntry, RedactEntries, RedactEntry, RedactValue;
    UnfoldEntries(entries, n, force, depth);
    if n > 0 {
      var before := RedactEntries(entries, n - 1, force, depth);
      var out := RedactEntries(entries, n, force, depth).entries;
      EntriesComeFrom(entries, n - 1, force, depth);
      var o := RedactEntry(entries[n - 1], force, depth);
      AddEntryAdds(before, entries[n - 1].key, o);
      RedactedEntryIs(entries[n - 1], force, depth);
      forall k | 0 <= k < |out|
        ensures ComesFrom(out[k], entries, n, force, depth)
      {
        if k < |before.entries| {
          assert out[k] == before.entries[k];
          assert ComesFrom(before.entries[k], entries, n - 1, force, depth);
        } else {
          assert out[k].key == Name(SafeKey(entries[n - 1].key));
        }
      }
    }
  }

  // ---------------------------------------------------------------------------------------
  // What survives of the input

  /** Without force and above the depth limit: numbers, booleans and nulls stay, a harmless text
      keeps its first runes, and another Go value becomes the redaction of its JSON tree. */
  lemma LeavesSurvive(v: Value, depth: nat)
    requires depth < MAX_DEPTH && !v.Obj? && !v.Arr?
    ensures var o := RedactValue(v, false, depth);
            match v
            case Str(text) =>
              if SensitiveValue(text) then o == Outcome(REDACTED, true)
              else o.value.Str? && o.value.text <= text && (o.changed <==> |text| > MAX_VALUE_STRING) &&
                   |o.value.text| == if |text| > MAX_VALUE_STRING then MAX_VALUE_STRING else |text|
            case InvalidStr => o == Outcome(REDACTED, true)
            case Opaque(None) => o == Outcome(REDACTED, true)
            case Opaque(Some(tree)) => o == RedactValue(tree, false, depth + 1)
            case _ => o.value == v && !o.changed
  {
  }

  /** The entry that redaction makes of an entry when there is room for it. */
  function WholeEntry(e: Entry, force: bool, depth: nat): Entry {
    Entry(Name(SafeKey(e.key)), if SensitiveKey(e.key) then REDACTED else RedactValue(e.value, force, depth + 1).value)
  }

  /** What becomes of the entry after the first `n`, in terms of JSON lengths: it is left out if its
      safe key is taken, it is there whole if the object still fits with it, and with a placeholder
      if only that fits. */
  lemma EntryFate(entries: seq<Entry>, n: nat, force: bool, depth: nat)
    requires n < |entries|
    ensures var before := RedactEntries(entries, n, force, depth).entries;
            var after := RedactEntries(entries, n + 1, force, depth).entries;
            var e := WholeEntry(entries[n], force, depth);
            after ==
              if exists k :: 0 <= k < |before| && before[k].key == e.key then before
              else if Encodable(e.value) && JSONBytes(Obj(before + [e])) <= MAX_OBJECT_BYTES then before + [e]
              else if JSONBytes(Obj(before + [e.(value := REDACTED)])) <= MAX_OBJECT_BYTES then before + [e.(value := REDACTED)]
              else before
  {
    hide RedactEntries, RedactEntry, RedactValue, AddEntry, CleanEntry, SafeKey, SensitiveKey, Encodable, JSONBytes;
    UnfoldEntries(entries, n + 1, force, depth);
    EntriesAreClean(entries, n, force, depth);
    RedactedEntryIs(entries[n], force, depth);
    AddFate(RedactEntries(entries, n, force, depth), entries[n].key, RedactEntry(entries[n], force, depth));
  }

  lemma AddFate(b: ObjectBuild, key: Key, o: Outcome)
    requires Counted(b)
    ensures var e := Entry(Name(SafeKey(key)), o.value);
            AddEntry(b, key, o).entries ==
              if exists k :: 0 <= k < |b.entries| && b.entries[k].key == e.key then b.entries
              else if Encodable(e.value) && JSONBytes(Obj(b.entries + [e])) <= MAX_OBJECT_BYTES then b.entries + [e]
              else if JSONBytes(Obj(b.entries + [e.(value := REDACTED)])) <= MAX_OBJECT_BYTES then b.entries + [e.(value := REDACTED)]
              else b.entries
  {
    hide SafeKey, Encodable, JSONBytes, EntryBytes, EntriesBytes;
    var e := Entry(Name(SafeKey(key)), o.value);
    ObjectBytesSnoc(b.entries, e);
    ObjectBytesSnoc(b.entries, e.(value := REDACTED));
  }

  lemma ObjectBytesSnoc(entries: seq<Entry>, e: Entry)
    ensures JSONBytes(Obj(entries + [e])) == 2 + EntriesBytes(entries) + Commas(|entries|) + EntryBytes(e) + Comma(|entries|)
    ensures JSONBytes(e.value) < EntryBytes(e)
  {
    EntriesBytesSnoc(entries, e);
  }

  lemma {:induction false} ObjectGrows(entries: seq<Entry>, n: nat, m: nat, force: bool, depth: nat)
    requires n <= m <= |entries|
    ensures RedactEntries(entries, n, force, depth).entries <= RedactEntries(entries, m, force, depth).entries
    decreases m
  {
    hide AddEntry, RedactEntry, RedactEntries;
    if n < m {
      ObjectGrows(entries, n, m - 1, force, depth);
      UnfoldEntries(entries, m, force, depth);
      AddEntryAdds(RedactEntries(entries, m - 1, force, depth), entries[m - 1].key, RedactEntry(entries[m - 1], force, depth));
    }
  }

  /** As long as the safe keys are distinct and the JSON text fits, every entry is there, redacted
      and in its place; only what comes after it can be lost. */
  lemma ObjectSurvives(entries: seq<Entry>, out: seq<Entry>, force: bool, depth: nat)
    requires depth < MAX_DEPTH && |out| <= |entries| && |out| <= MAX_COLLECTION_ITEMS
    requires forall k :: 0 <= k < |out| ==> out[k] == WholeEntry(entries[k], force, depth)
    requires DistinctKeys(out) && Encodable(Obj(out)) && JSONBytes(Obj(out)) <= MAX_OBJECT_BYTES
    ensures var r := RedactValue(Obj(entries), force, depth).value;
            r.Obj? && out <= r.entries && (|out| == |entries| ==> r.entries == out)
  {
    hide RedactEntries, WholeEntry, EntriesBytes, DistinctKeys;
    EntriesSurvive(entries, out, |out|, force, depth);
    assert out[..|out|] == out;
    ObjectGrows(entries, |out|, Kept(|entries|), force, depth);
  }

  lemma {:induction false} EntriesSurvive(entries: seq<Entry>, out: seq<Entry>, n: nat, force: bool, depth: nat)
    requires n <= |out| <= |entries| && forall k :: 0 <= k < |out| ==> out[k] == WholeEntry(entries[k], force, depth)
    requires DistinctKeys(out) && Encodable(Obj(out)) && JSONBytes(Obj(out)) <= MAX_OBJECT_BYTES
    ensures RedactEntries(entries, n, force, depth).entries == out[..n]
    decreases n
  {
    hide RedactEntries, AddEntry, WholeEntry, JSONBytes, DistinctKeys, Encodable;
    if n == 0 {
      UnfoldEntries(entries, 0, force, depth);
    } else {
      EntriesSurvive(entries, out, n - 1, force, depth);
      EntryFate(entries, n - 1, force, depth);
      PrefixFits(out, n);
    }
  }

  lemma PrefixFits(out: seq<Entry>, n: nat)
    requires 0 < n <= |out| && DistinctKeys(out) && Encodable(Obj(out)) && JSONBytes(Obj(out)) <= MAX_OBJECT_BYTES
    ensures out[..n] == out[..n - 1] + [out[n - 1]] && JSONBytes(Obj(out[..n - 1] + [out[n - 1]])) <= MAX_OBJECT_BYTES
    ensures Encodable(out[n - 1].value) && forall k :: 0 <= k < n - 1 ==> out[k].key != out[n - 1].key
  {
    hide EntriesBytes, EntryBytes;
    assert out[..n] == out[..n - 1] + [out[n - 1]];
    ValueBytesWithin(out, n - 1);
  }

  /** What becomes of the item after the first `n`: the array has ended, or the item is there whole
      if the array still fits with it, or as a placeholder if only that fits. */
  lemma ItemFate(items: seq<Value>, n: nat, force: bool, depth: nat)
    requires n < |items|
    ensures var before := RedactItems(items, n, force, depth).items;
            var after := RedactItems(items, n + 1, force, depth).items;
            var v := RedactValue(items[n], force, depth + 1).value;
            after ==
              if |before| < n then before
              else if Encodable(v) && JSONBytes(Arr(before + [v])) <= MAX_OBJECT_BYTES then before + [v]
              else if JSONBytes(Arr(before + [REDACTED])) <= MAX_OBJECT_BYTES then before + [REDACTED]
              else before
  {
    hide RedactItems, RedactValue, AddItem, Clean, Encodable, JSONBytes;
    UnfoldItems(items, n + 1, force, depth);
    ItemsAreClean(items, n, force, depth);
    EndedIffShort(items, n, force, depth);
    AddItemFate(RedactItems(items, n, force, depth), RedactValue(items[n], force, depth + 1));
  }

  lemma AddItemFate(b: ArrayBuild, o: Outcome)
    requires b.bytes == 2 + ItemsBytes(b.items) + Commas(|b.items|)
    ensures AddItem(b, o).items ==
              if b.full then b.items
              else if Encodable(o.value) && JSONBytes(Arr(b.items + [o.value])) <= MAX_OBJECT_BYTES then b.items + [o.value]
              else if JSONBytes(Arr(b.items + [REDACTED])) <= MAX_OBJECT_BYTES then b.items + [REDACTED]
              else b.items
  {
    hide Encodable, JSONBytes, ItemsBytes;
    ArrayBytesSnoc(b.items, o.value);
    ArrayBytesSnoc(b.items, REDACTED);
  }

  lemma ArrayBytesSnoc(items: seq<Value>, v: Value)
    ensures JSONBytes(Arr(items + [v])) == 2 + ItemsBytes(items) + Commas(|items|) + JSONBytes(v) + Comma(|items|)
  {
    ItemsBytesSnoc(items, v);
  }

  lemma {:induction false} EndedIffShort(items: seq<Value>, n: nat, force: bool, depth: nat)
    requires n <= |items|
    ensures var b := RedactItems(items, n, force, depth); |b.items| <= n && (b.full <==> |b.items| < n)
    decreases n
  {
    hide RedactItems, RedactValue, Fits, JSONBytes;
    UnfoldItems(items, n, force, depth);
    if n > 0 {
      EndedIffShort(items, n - 1, force, depth);
    }
  }

  lemma {:induction false} ArrayGrows(items: seq<Value>, n: nat, m: nat, force: bool, depth: nat)
    requires n <= m <= |items|
    ensures RedactItems(items, n, force, depth).items <= RedactItems(items, m, force, depth).items
    decreases m
  {
    hide RedactValue, RedactItems, Fits, JSONBytes;
    if n < m {
      ArrayGrows(items, n, m - 1, force, depth);
      UnfoldItems(items, m, force, depth);
    }
  }

  /** As long as the JSON text fits, every item is there, redacted and in its place. */
  lemma ArraySurvives(items: seq<Value>, out: seq<Value>, force: bool, depth: nat)
    requires depth < MAX_DEPTH && |out| <= |items| && |out| <= MAX_COLLECTION_ITEMS
    requires forall k :: 0 <= k < |out| ==> out[k] == RedactValue(items[k], force, depth + 1).value
    requires Encodable(Arr(out)) && JSONBytes(Arr(out)) <= MAX_OBJECT_BYTES
    ensures var r := RedactValue(Arr(items), force, depth).value;
            r.Arr? && out <= r.items && (|out| == |items| ==> r.items == out)
  {
    hide RedactItems, ItemsBytes;
    ItemsSurvive(items, out, |out|, force, depth);
    assert out[..|out|] == out;
    ArrayGrows(items, |out|, Kept(|items|), force, depth);
  }

  lemma {:induction false} ItemsSurvive(items: seq<Value>, out: seq<Value>, n: nat, force: bool, depth: nat)
    requires n <= |out| <= |items| && forall k :: 0 <= k < |out| ==> out[k] == RedactValue(items[k], force, depth + 1).value
    requires Encodable(Arr(out)) && JSONBytes(Arr(out)) <= MAX_OBJECT_BYTES
    ensures RedactItems(items, n, force, depth).items == out[..n]
    decreases n
  {
    hide RedactItems, RedactValue, AddItem, ItemsBytes;
    if n == 0 {
      UnfoldItems(items, 0, force, depth);
    } else {
      ItemsSurvive(items, out, n - 1, force, depth);
      ItemFate(items, n - 1, force, depth);
      ItemBytesWithin(out, n - 1);
      assert out[..n] == out[..n - 1] + [out[n - 1]];
    }
  }

  // A JSON tree holds no other Go values.
  predicate JSONTree(v: Value) {
    match v
    case Opaque(_) => false
    case Obj(entries) => forall k :: 0 <= k < |entries| ==> JSONTree(entries[k].value)
    case Arr(items) => forall k :: 0 <= k < |items| ==> JSONTree(items[k])
    case _ => true
  }

  /** When redaction reports no change, nothing was changed. */
  lemma {:induction false} UnchangedIsIdentity(v: Value, force: bool, depth: nat)
    requires JSONTree(v) && !RedactValue(v, force, depth).changed
    ensures RedactValue(v, force, depth).value == v
    decreases v, 1, 0
  {
    match v
    case Obj(entries) =>
      UnchangedEntries(entries, |entries|, force, depth);
      assert entries[..|entries|] == entries;
    case Arr(items) =>
      UnchangedItems(items, |items|, force, depth);
      assert items[..|items|] == items;
    case _ =>
  }

  lemma {:induction false} UnchangedEntry(e: Entry, force: bool, depth: nat)
    requires JSONTree(e.value) && !RedactEntry(e, force, depth).changed
    ensures RedactEntry(e, force, depth).value == e.value
    decreases e, 2, 0
  {
    UnchangedIsIdentity(e.value, force, depth + 1);
  }

  lemma UnchangedAdd(b: ObjectBuild, key: Key, o: Outcome)
    requires !AddEntry(b, key, o).changed
    ensures !b.changed && !o.changed && AddEntry(b, key, o).entries == b.entries + [Entry(key, o.value)]
  {
    hide Fits, EntryBytes, HasKey;
  }

  lemma {:induction false} UnchangedEntries(entries: seq<Entry>, n: nat, force: bool, depth: nat)
    requires n <= |entries| && !RedactEntries(entries, n, force, depth).changed
    requires forall k :: 0 <= k < |entries| ==> JSONTree(entries[k].value)
    ensures RedactEntries(entries, n, force, depth).entries == entries[..n]
    decreases entries, 0, n
  {
    hide AddEntry, RedactEntry, RedactEntries, JSONTree;
    UnfoldEntries(entries, n, force, depth);
    if n > 0 {
      UnchangedAdd(RedactEntries(entries, n - 1, force, depth), entries[n - 1].key, RedactEntry(entries[n - 1], force, depth));
      UnchangedEntries(entries, n - 1, force, depth);
      UnchangedEntry(entries[n - 1], force, depth);
      assert entries[..n] == entries[..n - 1] + [entries[n - 1]];
    }
  }

  lemma UnchangedAddItem(b: ArrayBuild, o: Outcome)
    requires !b.full && !AddItem(b, o).changed
    ensures !b.changed && !o.changed && !AddItem(b, o).full && AddItem(b, o).items == b.items + [o.value]
  {
    hide Fits, JSONBytes;
  }

  // Once full, an array has changed.
  lemma {:induction false} FullMeansChanged(items: seq<Value>, n: nat, force: bool, depth: nat)
    requires n <= |items| && RedactItems(items, n, force, depth).full
    ensures RedactItems(items, n, force, depth).changed
    decreases n
  {
    hide RedactValue, Fits, JSONBytes;
    if n > 0 && RedactItems(items, n - 1, force, depth).full {
      FullMeansChanged(items, n - 1, force, depth);
    }
  }

  lemma {:induction false} UnchangedItems(items: seq<Value>, n: nat, force: bool, depth: nat)
    requires n <= |items| && !RedactItems(items, n, force, depth).changed
    requires forall k :: 0 <= k < |items| ==> JSONTree(items[k])
    ensures RedactItems(items, n, force, depth).items == items[..n] && !RedactItems(items, n, force, depth).full
    decreases items, 0, n
  {
    hide AddItem, RedactValue, RedactItems, JSONTree;
    UnfoldItems(items, n, force, depth);
    if n > 0 {
      if RedactItems(items, n - 1, force, depth).full {
        FullMeansChanged(items, n - 1, force, depth);
        FullStaysFull(items, n - 1, n, force, depth);
      }
      UnchangedAddItem(RedactItems(items, n - 1, force, depth), RedactValue(items[n - 1], force, depth + 1));
      UnchangedItems(items, n - 1, force, depth);
      UnchangedIsIdentity(items[n - 1], force, depth + 1);
      assert items[..n] == items[..n - 1] + [items[n - 1]];
    }
  }

  /** No key is sensitive, and nothing lies at the depth limit. */
  predicate Open(v: Value, depth: nat) {
    depth < MAX_DEPTH &&
    match v
    case Obj(entries) => forall k :: 0 <= k < |entries| ==> !SensitiveKey(entries[k].key) && Open(entries[k].value, depth + 1)
    case Arr(items) => forall k :: 0 <= k < |items| ==> Open(items[k], depth + 1)
    case _ => true
  }

  /** The flag is exact: without force no change is reported exactly for clean values without
      sensitive keys, above the depth limit. */
  lemma UnchangedIff(v: Value, depth: nat)
    requires JSONTree(v)
    ensures !RedactValue(v, false, depth).changed <==> Clean(v, depth) && Open(v, depth)
  {
    hide Open;
    if !RedactValue(v, false, depth).changed {
      RedactedIsClean(v, false, depth);
      UnchangedIsIdentity(v, false, depth);
      UnchangedIsOpen(v, depth);
    } else if Clean(v, depth) && Open(v, depth) {
      OpenIsUnchanged(v, depth);
    }
  }

  lemma {:induction false} UnchangedIsOpen(v: Value, depth: nat)
    requires !RedactValue(v, false, depth).changed && JSONTree(v)
    ensures Open(v, depth)
    decreases v, 1
  {
    hide RedactEntry;
    match v
    case Obj(entries) =>
      forall k | 0 <= k < |entries|
        ensures !SensitiveKey(entries[k].key) && Open(entries[k].value, depth + 1)
      {
        EntryUnchanged(entries, |entries|, k, depth);
        OpenEntry(entries[k], depth);
      }
    case Arr(items) =>
      forall k | 0 <= k < |items|
        ensures Open(items[k], depth + 1)
      {
        ItemUnchanged(items, |items|, k, depth);
        UnchangedIsOpen(items[k], depth + 1);
      }
    case _ =>
  }

  lemma {:induction false} OpenEntry(e: Entry, depth: nat)
    requires !RedactEntry(e, false, depth).changed && JSONTree(e.value)
    ensures !SensitiveKey(e.key) && Open(e.value, depth + 1)
    decreases e, 2
  {
    UnchangedIsOpen(e.value, depth + 1);
  }

  lemma {:induction false} EntryUnchanged(entries: seq<Entry>, n: nat, k: nat, depth: nat)
    requires k < n <= |entries| && !RedactEntries(entries, n, false, depth).changed
    ensures !RedactEntry(entries[k], false, depth).changed
    decreases n
  {
    hide AddEntry, RedactEntry, RedactEntries;
    UnfoldEntries(entries, n, false, depth);
    UnchangedAdd(RedactEntries(entries, n - 1, false, depth), entries[n - 1].key, RedactEntry(entries[n - 1], false, depth));
    if k < n - 1 {
      EntryUnchanged(entries, n - 1, k, depth);
    }
  }

  lemma {:induction false} ItemUnchanged(items: seq<Value>, n: nat, k: nat, depth: nat)
    requires k < n <= |items| && !RedactItems(items, n, false, depth).changed
    ensures !RedactValue(items[k], false, depth + 1).changed
    decreases n
  {
    hide AddItem, RedactValue, RedactItems;
    UnfoldItems(items, n, false, depth);
    if RedactItems(items, n - 1, false, depth).full {
      FullMeansChanged(items, n - 1, false, depth);
      FullStaysFull(items, n - 1, n, false, depth);
    }
    UnchangedAddItem(RedactItems(items, n - 1, false, depth), RedactValue(items[n - 1], false, depth + 1));
    if k < n - 1 {
      ItemUnchanged(items, n - 1, k, depth);
    }
  }

  lemma {:induction false} OpenIsUnchanged(v: Value, depth: nat)
    requires Clean(v, depth) && Open(v, depth)
    ensures !RedactValue(v, false, depth).changed
    decreases v, 1, 0
  {
    match v
    case Obj(entries) => OpenObject(entries, |entries|, depth);
    case Arr(items) => OpenArray(items, |items|, depth);
    case _ =>
  }

  lemma {:induction false} OpenEntryIsUnchanged(e: Entry, depth: nat)
    requires CleanEntry(e, depth) && Open(e.value, depth + 1) && !SensitiveKey(e.key)
    ensures !RedactEntry(e, false, depth).changed
    decreases e, 2, 0
  {
    OpenIsUnchanged(e.value, depth + 1);
  }

  lemma {:induction false} OpenObject(entries: seq<Entry>, n: nat, depth: nat)
    requires n <= |entries| && Clean(Obj(entries), depth) && Open(Obj(entries), depth)
    ensures !RedactEntries(entries, n, false, depth).changed
    decreases entries, 0, n
  {
    hide EntriesBytes, EntryBytes, AddEntry, RedactEntry, RedactEntries, HasKey, SafeKey, CleanEntry, SensitiveKey, Encodable;
    UnfoldEntries(entries, n, false, depth);
    if n > 0 {
      var e := entries[n - 1];
      OpenObject(entries, n - 1, depth);
      EntriesAreKept(entries, n - 1, false, depth);
      assert CleanEntry(e, depth);
      OpenEntryIsUnchanged(e, depth);
      EntryIsKept(e, false, depth);
      ValueBytesWithin(entries, n - 1);
      CleanKeyIsSafe(e, depth);
      KeyIsFree(entries, n - 1);
      AddUnchanged(RedactEntries(entries, n - 1, false, depth), e, RedactEntry(e, false, depth));
    }
  }

  lemma AddUnchanged(b: ObjectBuild, e: Entry, o: Outcome)
    requires e.key == Name(SafeKey(e.key)) && o == Outcome(e.value, false) && !HasKey(b.entries, e.key.text) && Fits(e.value)
    requires b.bytes + EntryBytes(e) + Comma(|b.entries|) <= MAX_OBJECT_BYTES && !b.changed
    ensures !AddEntry(b, e.key, o).changed
  {
    hide Fits, EntryBytes, HasKey, SafeKey;
  }

  lemma {:induction false} OpenArray(items: seq<Value>, n: nat, depth: nat)
    requires n <= |items| && Clean(Arr(items), depth) && Open(Arr(items), depth)
    ensures !RedactItems(items, n, false, depth).changed
    decreases items, 0, n
  {
    hide ItemsBytes, RedactValue, RedactItems, Encodable, AddItem;
    UnfoldItems(items, n, false, depth);
    if n > 0 {
      OpenArray(items, n - 1, depth);
      ItemsAreKept(items, n - 1, false, depth);
      OpenIsUnchanged(items[n - 1], depth + 1);
      CleanIsKept(items[n - 1], false, depth + 1);
      ItemBytesWithin(items, n - 1);
      AddItemUnchanged(RedactItems(items, n - 1, false, depth), RedactValue(items[n - 1], false, depth + 1));
    }
  }

  lemma AddItemUnchanged(b: ArrayBuild, o: Outcome)
    requires !b.full && !b.changed && !o.changed && Encodable(o.value)
    requires b.bytes + JSONBytes(o.value) + Comma(|b.items|) <= MAX_OBJECT_BYTES
    ensures !AddItem(b, o).changed
  {
    hide Encodable, JSONBytes;
  }

  /** Under force only an absent object above the depth limit counts as unchanged. */
  lemma ForceIsChange(v: Value, depth: nat)
    ensures !RedactValue(v, true, depth).changed <==> v.NilObj? && depth < MAX_DEPTH
  {
    if depth < MAX_DEPTH && v.Obj? {
      ForcedEntriesChange(v.entries, Kept(|v.entries|), depth);
    } else if depth < MAX_DEPTH && v.Arr? {
      ForcedItemsChange(v.items, Kept(|v.items|), depth);
    }
  }

  lemma {:induction false} ForcedEntriesChange(entries: seq<Entry>, n: nat, depth: nat)
    requires n <= |entries|
    ensures RedactEntries(entries, n, true, depth).changed
    decreases n
  {
    hide RedactEntry, RedactEntries, Fits, EntryBytes, HasKey;
    UnfoldEntries(entries, n, true, depth);
    if n > 0 {
      ForcedEntriesChange(entries, n - 1, depth);
    }
  }

  lemma {:induction false} ForcedItemsChange(items: seq<Value>, n: nat, depth: nat)
    requires n <= |items|
    ensures RedactItems(items, n, true, depth).changed
    decreases n
  {
    hide RedactValue, RedactItems, Fits, JSONBytes;
    UnfoldItems(items, n, true, depth);
    if n > 0 {
      ForcedItemsChange(items, n - 1, depth);
    }
  }

  // ---------------------------------------------------------------------------------------
  // The loops

  method RedactValueAtDepth(v: Value, force: bool, depth: nat) returns (r: Value, changed: bool)
    ensures Outcome(r, changed) == RedactValue(v, force, depth)
    decreases v, 1, 0
  {
    if depth >= MAX_DEPTH {
      return REDACTED, true;
    }
    if v.Obj? {
      var entries, c := RedactObjectAtDepth(v.entries, force, depth);
      return Obj(entries), c;
    }
    if v.Arr? {
      var items, c := RedactSliceAtDepth(v.items, force, depth);
      return Arr(items), c;
    }
    if v.Opaque? && v.normalized.Some? && !force {
      r, changed := RedactValueAtDepth(v.normalized.value, false, depth + 1);
      return;
    }
    var o := RedactValue(v, force, depth);
    r, changed := o.value, o.changed;
  }

  method RedactMember(e: Entry, force: bool, depth: nat) returns (r: Value, changed: bool)
    ensures Outcome(r, changed) == RedactEntry(e, force, depth)
    decreases e, 2, 0
  {
    if SensitiveKey(e.key) {
      r, changed := REDACTED, true;
    } else {
      r, changed := RedactValueAtDepth(e.value, force, depth + 1);
    }
  }

  method RedactObjectAtDepth(entries: seq<Entry>, force: bool, depth: nat) returns (result: seq<Entry>, changed: bool)
    ensures var b := RedactEntries(entries, Kept(|entries|), force, depth);
            result == b.entries && changed == (b.changed || |entries| > MAX_COLLECTION_ITEMS)
    decreases entries, 0, 0
  {
    hide SensitiveKey, Fits, EntryBytes, HasKey, RedactEntry;
    result, changed := [], force;
    var encodedBytes: nat := 2;
    var processed := 0;
    while processed < |entries|
      invariant processed <= |entries| && processed <= MAX_COLLECTION_ITEMS
      invariant ObjectBuild(result, encodedBytes, changed) == RedactEntries(entries, processed, force, depth)
    {
      if processed >= MAX_COLLECTION_ITEMS {
        changed := true;
        return;
      }
      var e := entries[processed];
      processed := processed + 1;
      var safeKey := SafeKey(e.key);
      if e.key != Name(safeKey) {
        changed := true;
      }
      if HasKey(result, safeKey) {
        changed := true;
        continue;
      }
      var redacted, itemChanged := RedactMember(e, force, depth);
      changed := changed || itemChanged;
      var entry := Entry(Name(safeKey), redacted);
      if !Fits(redacted) || encodedBytes + EntryBytes(entry) + Comma(|result|) > MAX_OBJECT_BYTES {
        changed := true;
        entry := Entry(Name(safeKey), REDACTED);
        if encodedBytes + EntryBytes(entry) + Comma(|result|) > MAX_OBJECT_BYTES {
          continue;
        }
      }
      encodedBytes := encodedBytes + EntryBytes(entry) + Comma(|result|);
      result := result + [entry];
    }
  }

  method RedactSliceAtDepth(items: seq<Value>, force: bool, depth: nat) returns (result: seq<Value>, changed: bool)
    ensures var b := RedactItems(items, Kept(|items|), force, depth);
            result == b.items && changed == (b.changed || |items| > MAX_COLLECTION_ITEMS)
    decreases items, 0, 0
  {
    hide Fits, JSONBytes, RedactValue;
    result, changed := [], force;
    var encodedBytes: nat := 2;
    var index := 0;
    while index < |items|
      invariant index <= |items| && index <= MAX_COLLECTION_ITEMS
      invariant ArrayBuild(result, encodedBytes, changed, false) == RedactItems(items, index, force, depth)
    {
      if index >= MAX_COLLECTION_ITEMS {
        changed := true;
        return;
      }
      var redacted, itemChanged := RedactValueAtDepth(items[index], force, depth + 1);
      changed := changed || itemChanged;
      index := index + 1;
      if !Fits(redacted) || encodedBytes + JSONBytes(redacted) + Comma(|result|) > MAX_OBJECT_BYTES {
        changed := true;
        redacted := REDACTED;
        if encodedBytes + JSONBytes(redacted) + Comma(|result|) > MAX_OBJECT_BYTES {
          FullStaysFull(items, index, Kept(|items|), force, depth);
          return;
        }
      }
      encodedBytes := encodedBytes + JSONBytes(redacted) + Comma(|result|);
      result := result + [redacted];
    }
  }

  lemma {:induction false} FullStaysFull(items: seq<Value>, n: nat, m: nat, force: bool, depth: nat)
    requires n <= m <= |items| && RedactItems(items, n, force, depth).full
    ensures RedactItems(items, m, force, depth) == RedactItems(items, n, force, depth)
    decreases m
  {
    hide RedactValue, Fits, JSONBytes;
    if n < m {
      FullStaysFull(items, n, m - 1, force, depth);
    }
  }
}
