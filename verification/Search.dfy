/** Knowledge search: at most ten answers, and at most 12000 runes of them. */
module Search {
  import opened Wrappers
  import opened Text
  import Regex

  const DEFAULT_SEARCH_LIMIT := 5
  const MAX_SEARCH_LIMIT := 10
  const MAX_SEARCH_QUERY_RUNES := 200
  const MAX_SEARCH_RESULT_RUNES := 12000
  const MAX_REGEX_PATTERN_RUNES := 120

  datatype Entry = Entry(
    sourceKey: string, keyword: string, path: string, category: string, answer: string,
    // The text that queries are matched against, already in lower case.
    content: string,
    enabled: bool, aiEnabled: bool)

  datatype SearchResult = SearchResult(sourceKey: string, keyword: string, path: string, category: string, answer: string)

  datatype SearchError = QueryEmpty | QueryTooLong | PatternRefused | UnsupportedMode

  // A query that passed its checks: all or one of the terms, or a pattern and its compiled matcher.
  datatype Matcher = Terms(all: bool, terms: seq<string>) | Pattern(re: Regex.Regexp, accepts: string -> bool)

  predicate Selects(m: Matcher, content: string) {
    match m
    case Pattern(_, accepts) => accepts(content)
    case Terms(all, terms) =>
      if all then forall k :: 0 <= k < |terms| ==> Contains(content, terms[k])
      else exists k :: 0 <= k < |terms| && Contains(content, terms[k])
  }

  method MatchContent(m: Matcher, content: string) returns (found: bool)
    ensures found == Selects(m, content)
  {
    if m.Pattern? {
      return m.accepts(content);
    }
    for k := 0 to |m.terms|
      invariant forall j :: 0 <= j < k ==> Contains(content, m.terms[j]) == m.all
    {
      var contains := Contains(content, m.terms[k]);
      if m.all && !contains {
        return false;
      }
      if !m.all && contains {
        return true;
      }
    }
    found := m.all;
  }

  // ---------------------------------------------------------------------------------------
  // The specification of a result page

  predicate Wanted(m: Matcher, e: Entry) {
    e.enabled && e.aiEnabled && Selects(m, e.content)
  }

  function Hits(m: Matcher, entries: seq<Entry>): seq<Entry> {
    if entries == [] then []
    else
      var e := entries[|entries| - 1];
      Hits(m, entries[..|entries| - 1]) + if Wanted(m, e) then [e] else []
  }

  /** `plain` is the text left of a message once its markup is parsed away. */
  function Full(plain: string -> string, e: Entry): SearchResult {
    SearchResult(e.sourceKey, plain(e.keyword), plain(e.path), plain(e.category), plain(e.answer))
  }

  function MetadataRunes(r: SearchResult): nat {
    |r.sourceKey| + |r.keyword| + |r.path| + |r.category|
  }

  function Runes(r: SearchResult): nat {
    MetadataRunes(r) + |r.answer|
  }

  function TotalRunes(results: seq<SearchResult>): nat {
    if results == [] then 0 else TotalRunes(results[..|results| - 1]) + Runes(results[|results| - 1])
  }

  /** A hit's result, its answer cut if need be. */
  predicate ShortOf(r: SearchResult, full: SearchResult) {
    r == full.(answer := r.answer) && r.answer <= full.answer
  }

  /** The page shows the hits in order from the first one on, whole but for the last answer, which
      is cut only where the budget ends; and it ends only at the limit, with the last hit, or where
      the budget leaves no rune for an answer. */
  ghost predicate Page(hits: seq<SearchResult>, limit: nat, results: seq<SearchResult>) {
    |results| <= |hits| && |results| <= limit && TotalRunes(results) <= MAX_SEARCH_RESULT_RUNES &&
    (forall k :: 0 <= k < |results| ==> ShortOf(results[k], hits[k])) &&
    (forall k :: 0 <= k < |results| && results[k] != hits[k] ==>
      k == |results| - 1 && TotalRunes(results) == MAX_SEARCH_RESULT_RUNES) &&
    (|results| < |hits| && |results| < limit ==>
      TotalRunes(results) + MetadataRunes(hits[|results|]) >= MAX_SEARCH_RESULT_RUNES) &&
    (forall k :: 0 <= k < |results| ==>
      TotalRunes(results[..k]) + MetadataRunes(hits[k]) < MAX_SEARCH_RESULT_RUNES)
  }

  function Fulls(plain: string -> string, hits: seq<Entry>): seq<SearchResult> {
    seq(|hits|, k requires 0 <= k < |hits| => Full(plain, hits[k]))
  }

  lemma {:induction false} HitsPrefix(m: Matcher, entries: seq<Entry>, i: nat)
    requires i <= |entries|
    ensures Hits(m, entries[..i]) <= Hits(m, entries)
  {
    if i < |entries| {
      var front := entries[..|entries| - 1];
      HitsPrefix(m, front, i);
      assert front[..i] == entries[..i];
    } else {
      assert entries[..i] == entries;
    }
  }

  lemma HitsNext(m: Matcher, entries: seq<Entry>, i: nat)
    requires i < |entries|
    ensures Hits(m, entries[..i + 1]) == Hits(m, entries[..i]) + if Wanted(m, entries[i]) then [entries[i]] else []
  {
    assert entries[..i + 1][..i] == entries[..i];
  }

  lemma {:induction false} TotalGrows(results: seq<SearchResult>, k: nat)
    requires k <= |results|
    ensures TotalRunes(results[..k]) <= TotalRunes(results)
  {
    if k < |results| {
      var front := results[..|results| - 1];
      TotalGrows(front, k);
      assert front[..k] == results[..k];
    } else {
      assert results[..k] == results;
    }
  }

  lemma TotalNext(results: seq<SearchResult>, k: nat)
    requires k < |results|
    ensures TotalRunes(results[..k + 1]) == TotalRunes(results[..k]) + Runes(results[k])
    ensures TotalRunes(results[..k + 1]) <= TotalRunes(results)
  {
    assert results[..k + 1][..k] == results[..k];
    TotalGrows(results, k + 1);
  }

  /** The specification leaves no choice: two pages over the same hits are equal. */
  lemma PageIsUnique(hits: seq<SearchResult>, limit: nat, r: seq<SearchResult>, q: seq<SearchResult>)
    requires Page(hits, limit, r) && Page(hits, limit, q)
    ensures r == q
  {
    PagesAgree(hits, limit, r, q, |r|);
    PagesAgree(hits, limit, q, r, |q|);
    assert r[..|r|] == r && q[..|q|] == q;
  }

  lemma {:induction false} PagesAgree(hits: seq<SearchResult>, limit: nat, r: seq<SearchResult>, q: seq<SearchResult>, k: nat)
    requires Page(hits, limit, r) && Page(hits, limit, q) && k <= |r|
    ensures k <= |q| && r[..k] == q[..k]
    decreases k
  {
    hide TotalRunes, MetadataRunes, Runes;
    if k > 0 {
      var j := k - 1;
      PagesAgree(hits, limit, r, q, j);
      NextIsOnBoth(hits, limit, r, q, j);
      assert r[..k] == r[..j] + [r[j]] && q[..k] == q[..j] + [q[j]];
    }
  }

  lemma NextIsOnBoth(hits: seq<SearchResult>, limit: nat, r: seq<SearchResult>, q: seq<SearchResult>, j: nat)
    requires Page(hits, limit, r) && Page(hits, limit, q) && j < |r| && j <= |q| && r[..j] == q[..j]
    ensures j < |q| && r[j] == q[j]
  {
    hide TotalRunes, MetadataRunes, Runes;
    assert q[..|q|] == q && r[..|r|] == r;
    assert j < |q|;
    TotalNext(r, j);
    TotalNext(q, j);
    assert ShortOf(r[j], hits[j]) && ShortOf(q[j], hits[j]);
    assert r[j] != hits[j] ==> TotalRunes(r[..j + 1]) == MAX_SEARCH_RESULT_RUNES;
    assert q[j] != hits[j] ==> TotalRunes(q[..j + 1]) == MAX_SEARCH_RESULT_RUNES;
    ShortOfSame(r[j], q[j], hits[j]);
  }

  lemma ShortOfSame(a: SearchResult, b: SearchResult, full: SearchResult)
    requires ShortOf(a, full) && ShortOf(b, full)
    ensures Runes(a) == Runes(b) ==> a == b
    ensures Runes(a) <= Runes(full) && (Runes(a) == Runes(full) ==> a == full)
    ensures Runes(b) <= Runes(full) && (Runes(b) == Runes(full) ==> b == full)
  {
  }

  // ---------------------------------------------------------------------------------------
  // The search

  // The library functions that search calls: `parse` and `run` are the regular-expression parser
  // and engine, both told to fold case.
  datatype Library = Library(
    trim: string -> string, lower: string -> string, fields: string -> seq<string>, plain: string -> string,
    parse: string -> Option<Regex.Regexp>, run: (Regex.Regexp, string) -> bool)

  /** The pattern, if it is short enough, parses, and is selective. */
  function ValidateRegexPattern(lib: Library, pattern: string): Option<Regex.Regexp> {
    if |pattern| > MAX_REGEX_PATTERN_RUNES then None
    else
      match lib.parse(pattern)
      case None => None
      case Some(re) => if Regex.Specificity(re) < Regex.MIN_SPECIFICITY then None else Some(re)
  }

  function SearchMatcher(lib: Library, mode: string, query: string): Result<Matcher, SearchError> {
    var named := lib.lower(lib.trim(mode));
    if named == "" || named == "and" then Ok(Terms(true, lib.fields(lib.lower(query))))
    else if named == "or" then Ok(Terms(false, lib.fields(lib.lower(query))))
    else if named == "regex" then
      match ValidateRegexPattern(lib, query)
      case None => Err(PatternRefused)
      case Some(re) => Ok(Pattern(re, (content: string) => lib.run(re, content)))
    else Err(UnsupportedMode)
  }

  function CheckedMatcher(lib: Library, mode: string, query: string): Result<Matcher, SearchError> {
    var trimmed := lib.trim(query);
    if trimmed == "" then Err(QueryEmpty)
    else if |trimmed| > MAX_SEARCH_QUERY_RUNES then Err(QueryTooLong)
    else SearchMatcher(lib, mode, trimmed)
  }

  predicate AcceptedPattern(lib: Library, pattern: string) {
    |pattern| <= MAX_REGEX_PATTERN_RUNES && lib.parse(pattern).Some? &&
    Regex.Specificity(lib.parse(pattern).value) >= Regex.MIN_SPECIFICITY
  }

  /** What a query asks for: an enabled AI entry that contains all words of the query, or one of
      them, or in which the engine finds the pattern. */
  predicate Answers(lib: Library, mode: string, query: string, e: Entry) {
    var name, words := lib.lower(lib.trim(mode)), lib.fields(lib.lower(lib.trim(query)));
    e.enabled && e.aiEnabled &&
    (name == "" || name == "and" ==> forall word :: word in words ==> Contains(e.content, word)) &&
    (name == "or" ==> exists word :: word in words && Contains(e.content, word)) &&
    (name == "regex" ==> lib.parse(lib.trim(query)).Some? && lib.run(lib.parse(lib.trim(query)).value, e.content))
  }

  /** The entries that answer a query, in the order of the knowledge base. */
  function Answering(lib: Library, mode: string, query: string, entries: seq<Entry>): seq<Entry> {
    if entries == [] then []
    else
      var front, last := entries[..|entries| - 1], entries[|entries| - 1];
      Answering(lib, mode, query, front) + if Answers(lib, mode, query, last) then [last] else []
  }

  /** The matcher made of a query selects exactly what the query asks for. */
  lemma MatcherAnswers(lib: Library, mode: string, query: string, e: Entry)
    requires CheckedMatcher(lib, mode, query).Ok?
    ensures Wanted(CheckedMatcher(lib, mode, query).value, e) <==> Answers(lib, mode, query, e)
  {
    hide Contains;
    var words := lib.fields(lib.lower(lib.trim(query)));
    assert forall word :: word in words ==> exists k :: 0 <= k < |words| && words[k] == word;
  }

  lemma {:induction false} HitsAnswer(lib: Library, mode: string, query: string, entries: seq<Entry>)
    requires CheckedMatcher(lib, mode, query).Ok?
    ensures Hits(CheckedMatcher(lib, mode, query).value, entries) == Answering(lib, mode, query, entries)
  {
    hide CheckedMatcher, Wanted, Answers;
    if entries != [] {
      HitsAnswer(lib, mode, query, entries[..|entries| - 1]);
      MatcherAnswers(lib, mode, query, entries[|entries| - 1]);
    }
  }

  function EffectiveLimit(limit: int): (l: nat)
    ensures 1 <= l <= MAX_SEARCH_LIMIT
    ensures limit <= 0 ==> l == DEFAULT_SEARCH_LIMIT
    ensures limit > 0 ==> l == if limit <= MAX_SEARCH_LIMIT then limit else MAX_SEARCH_LIMIT
  {
    if limit <= 0 then DEFAULT_SEARCH_LIMIT else if limit > MAX_SEARCH_LIMIT then MAX_SEARCH_LIMIT else limit
  }

  function TruncateRunes(value: string, limit: int): string {
    if limit <= 0 then "" else if |value| <= limit then value else value[..limit]
  }

  method Search(lib: Library, entries: seq<Entry>, query: string, mode: string, limit: int)
    returns (r: Result<seq<SearchResult>, SearchError>)
    ensures r == Err(QueryEmpty) <==> lib.trim(query) == ""
    ensures r == Err(QueryTooLong) <==> |lib.trim(query)| > MAX_SEARCH_QUERY_RUNES
    ensures r == Err(PatternRefused) <==>
      1 <= |lib.trim(query)| <= MAX_SEARCH_QUERY_RUNES && lib.lower(lib.trim(mode)) == "regex" &&
      !AcceptedPattern(lib, lib.trim(query))
    ensures r == Err(UnsupportedMode) <==>
      1 <= |lib.trim(query)| <= MAX_SEARCH_QUERY_RUNES && lib.lower(lib.trim(mode)) !in {"", "and", "or", "regex"}
    ensures r.Ok? ==> Page(Fulls(lib.plain, Answering(lib, mode, query, entries)), EffectiveLimit(limit), r.value)
  {
    var checked := CheckedMatcher(lib, mode, query);
    if checked.Err? {
      return Err(checked.error);
    }
    var m := checked.value;
    HitsAnswer(lib, mode, query, entries);
    var results := SearchEntries(m, lib.plain, entries, EffectiveLimit(limit));
    r := Ok(results);
  }

  method SearchEntries(m: Matcher, plain: string -> string, entries: seq<Entry>, limit: nat)
    returns (results: seq<SearchResult>)
    requires 1 <= limit
    ensures Page(Fulls(plain, Hits(m, entries)), limit, results)
  {
    hide TotalRunes, Page, Selects, Fitting, ShortOf, TruncateRunes;
    ghost var all := Fulls(plain, Hits(m, entries));
    results := [];
    var usedRunes := 0;
    NothingShown();
    assert entries[..0] == [];
    for i := 0 to |entries|
      invariant results == Fulls(plain, Hits(m, entries[..i]))
      invariant usedRunes == TotalRunes(results) < MAX_SEARCH_RESULT_RUNES && |results| < limit
      invariant Fitting(results)
    {
      HitsNext(m, entries, i);
      HitsPrefix(m, entries, i + 1);
      var found := MatchContent(m, entries[i].content);
      if entries[i].enabled && entries[i].aiEnabled && found {
        var e := entries[i];
        var result := SearchResult(e.sourceKey, plain(e.keyword), plain(e.path), plain(e.category), plain(e.answer));
        assert all[|results|] == result && results <= all;
        var metadataRunes := |result.sourceKey + result.keyword + result.path + result.category|;
        var remaining := MAX_SEARCH_RESULT_RUNES - usedRunes - metadataRunes;
        if remaining <= 0 {
          EndsBeforeMetadata(all, limit, results);
          return;
        }
        var shown := Shown(result, remaining);
        ShownFits(result, remaining);
        usedRunes := usedRunes + metadataRunes + |shown.answer|;
        OneMore(results, shown);
        if |results| + 1 == limit || usedRunes >= MAX_SEARCH_RESULT_RUNES {
          EndsFull(all, limit, results, shown);
          results := results + [shown];
          return;
        }
        results := results + [shown];
      }
    }
    assert entries[..|entries|] == entries;
    EndsWithLastHit(all, limit);
  }

  /** All results so far fit whole, each with room for its answer. */
  ghost predicate Fitting(results: seq<SearchResult>) {
    forall k :: 0 <= k < |results| ==> TotalRunes(results[..k]) + MetadataRunes(results[k]) < MAX_SEARCH_RESULT_RUNES
  }

  lemma NothingShown()
    ensures TotalRunes([]) == 0 && Fitting([])
  {
  }

  function Shown(full: SearchResult, room: int): SearchResult {
    full.(answer := TruncateRunes(full.answer, room))
  }

  lemma ShownFits(full: SearchResult, room: int)
    requires room > 0
    ensures var r := Shown(full, room);
            ShortOf(r, full) && MetadataRunes(r) == MetadataRunes(full) && Runes(r) <= MetadataRunes(full) + room &&
            (r != full ==> Runes(r) == MetadataRunes(full) + room)
  {
  }

  lemma OneMore(results: seq<SearchResult>, r: SearchResult)
    requires Fitting(results) && TotalRunes(results) + MetadataRunes(r) < MAX_SEARCH_RESULT_RUNES
    ensures TotalRunes(results + [r]) == TotalRunes(results) + Runes(r) && Fitting(results + [r])
  {
    var more := results + [r];
    assert more[..|results|] == results;
    forall k | 0 <= k < |more|
      ensures TotalRunes(more[..k]) + MetadataRunes(more[k]) < MAX_SEARCH_RESULT_RUNES
    {
      if k < |results| {
        assert more[..k] == results[..k];
      }
    }
  }

  lemma EndsBeforeMetadata(all: seq<SearchResult>, limit: nat, results: seq<SearchResult>)
    requires results < all && |results| < limit && Fitting(results) && TotalRunes(results) < MAX_SEARCH_RESULT_RUNES
    requires TotalRunes(results) + MetadataRunes(all[|results|]) >= MAX_SEARCH_RESULT_RUNES
    ensures Page(all, limit, results)
  {
    hide TotalRunes, MetadataRunes, Runes;
  }

  lemma EndsFull(all: seq<SearchResult>, limit: nat, results: seq<SearchResult>, shown: SearchResult)
    requires results < all && |results| < limit && Fitting(results + [shown]) && ShortOf(shown, all[|results|])
    requires TotalRunes(results + [shown]) <= MAX_SEARCH_RESULT_RUNES
    requires shown != all[|results|] ==> TotalRunes(results + [shown]) == MAX_SEARCH_RESULT_RUNES
    requires |results| + 1 == limit || TotalRunes(results + [shown]) == MAX_SEARCH_RESULT_RUNES
    ensures Page(all, limit, results + [shown])
  {
    hide TotalRunes, MetadataRunes, Runes, ShortOf, Fitting;
    var page := results + [shown];
    forall k | 0 <= k < |page|
      ensures ShortOf(page[k], all[k]) && TotalRunes(page[..k]) + MetadataRunes(all[k]) < MAX_SEARCH_RESULT_RUNES
      ensures page[k] != all[k] ==> k == |page| - 1 && TotalRunes(page) == MAX_SEARCH_RESULT_RUNES
    {
      FullAt(all, results, shown, k);
    }
    NoRoom(all, limit, page);
  }

  lemma FullAt(all: seq<SearchResult>, results: seq<SearchResult>, shown: SearchResult, k: nat)
    requires results < all && Fitting(results + [shown]) && ShortOf(shown, all[|results|]) && k <= |results|
    ensures var page := results + [shown];
            ShortOf(page[k], all[k]) && TotalRunes(page[..k]) + MetadataRunes(all[k]) < MAX_SEARCH_RESULT_RUNES &&
            (page[k] != all[k] ==> k == |results|)
  {
    hide TotalRunes, Runes;
    var page := results + [shown];
    assert page[k] == if k < |results| then all[k] else shown;
    SameMetadata(page[k], all[k]);
  }

  lemma NoRoom(all: seq<SearchResult>, limit: nat, page: seq<SearchResult>)
    requires |page| == limit || TotalRunes(page) == MAX_SEARCH_RESULT_RUNES
    ensures |page| < |all| && |page| < limit ==> TotalRunes(page) + MetadataRunes(all[|page|]) >= MAX_SEARCH_RESULT_RUNES
  {
  }

  lemma SameMetadata(r: SearchResult, full: SearchResult)
    requires ShortOf(r, full)
    ensures MetadataRunes(r) == MetadataRunes(full)
  {
  }

  lemma EndsWithLastHit(all: seq<SearchResult>, limit: nat)
    requires |all| < limit && Fitting(all) && TotalRunes(all) < MAX_SEARCH_RESULT_RUNES
    ensures Page(all, limit, all)
  {
    hide TotalRunes, MetadataRunes, Runes;
  }

  // ---------------------------------------------------------------------------------------
  // Search by pattern is selective

  function CodePoints(content: string): seq<Regex.Rune> {
    seq(|content|, k requires 0 <= k < |content| => content[k] as int)
  }

  /** The parser builds well-formed trees and the engine finds exactly their matches. */
  ghost predicate Engine(lib: Library, same: (Regex.Rune, Regex.Rune) -> bool) {
    (forall pattern :: lib.parse(pattern).Some? ==> Regex.WellFormed(lib.parse(pattern).value)) &&
    forall re, content :: lib.run(re, content) <==> Found(re, same, content, 0)
  }

  /** Somewhere in the content the pattern matches with at least so many runes pinned. */
  ghost predicate Found(re: Regex.Regexp, same: (Regex.Rune, Regex.Rune) -> bool, content: string, least: nat) {
    exists from: nat, upto: nat, pins: nat :: least <= pins && Regex.Matches(re, same, CodePoints(content), from, upto, pins)
  }

  lemma PatternIsSelective(lib: Library, same: (Regex.Rune, Regex.Rune) -> bool, pattern: string, content: string)
    requires Engine(lib, same) && AcceptedPattern(lib, pattern) && lib.run(lib.parse(pattern).value, content)
    ensures Found(lib.parse(pattern).value, same, content, Regex.MIN_SPECIFICITY)
  {
    hide Regex.Matches, Regex.Specificity, Regex.WellFormed;
    var re := lib.parse(pattern).value;
    assert Found(re, same, content, 0);
    var from: nat, upto: nat, pins: nat :| Regex.Matches(re, same, CodePoints(content), from, upto, pins);
    Regex.AcceptedMatchesAreLong(re, same, CodePoints(content), from, upto, pins);
  }

  lemma {:induction false} AnsweringEntry(lib: Library, mode: string, query: string, entries: seq<Entry>, k: nat)
    requires k < |Answering(lib, mode, query, entries)|
    ensures Answering(lib, mode, query, entries)[k] in entries
    ensures Answers(lib, mode, query, Answering(lib, mode, query, entries)[k])
  {
    hide Answers;
    var front := entries[..|entries| - 1];
    if k < |Answering(lib, mode, query, front)| {
      AnsweringEntry(lib, mode, query, front, k);
    }
  }

  /** Whatever a search by pattern returns comes from an enabled entry that the pattern matches
      through at least two pinned runes: no accepted pattern drags the knowledge base along. */
  lemma ResultsAreSelective(lib: Library, same: (Regex.Rune, Regex.Rune) -> bool, entries: seq<Entry>, query: string, mode: string,
                            limit: nat, results: seq<SearchResult>, k: nat)
    requires Engine(lib, same) && lib.lower(lib.trim(mode)) == "regex" && AcceptedPattern(lib, lib.trim(query))
    requires Page(Fulls(lib.plain, Answering(lib, mode, query, entries)), limit, results) && k < |results|
    ensures exists e :: e in entries && e.enabled && e.aiEnabled && ShortOf(results[k], Full(lib.plain, e)) &&
              Found(lib.parse(lib.trim(query)).value, same, e.content, Regex.MIN_SPECIFICITY)
  {
    hide Found, Engine, AcceptedPattern, Full, ShortOf;
    var e := Answering(lib, mode, query, entries)[k];
    AnsweringEntry(lib, mode, query, entries, k);
    PatternIsSelective(lib, same, lib.trim(query), e.content);
    assert ShortOf(results[k], Full(lib.plain, e));
  }
}
