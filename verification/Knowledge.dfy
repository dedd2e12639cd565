/** Exact lookup in the knowledge base: candidate ids, the parser's conflict report and the runtime
    index.  Lookup keys and answers are compared after normalization, which is a parameter. */
module Knowledge {
  import opened Wrappers
  import opened Text

  datatype Entry = Entry(
    id: string, row: nat, sourceKey: string, keyword: string, aliases: seq<string>, answer: string,
    enabled: bool, exactReply: bool)

  datatype Norm = Norm(lookup: string -> string, text: string -> string)

  // ---------------------------------------------------------------------------------------
  // The linear scan

  function Names(e: Entry): seq<string> {
    [e.keyword] + e.aliases
  }

  predicate NamedWithin(norm: Norm, e: Entry, key: string, j: nat)
    requires j <= |Names(e)|
  {
    key != "" && exists k :: 0 <= k < j && norm.lookup(Names(e)[k]) == key
  }

  predicate AnswersKey(norm: Norm, e: Entry, key: string) {
    e.enabled && e.exactReply && NamedWithin(norm, e, key, |Names(e)|)
  }

  /** The rows that a key selects, in row order. */
  function Scan(norm: Norm, entries: seq<Entry>, key: string): (rows: seq<nat>)
    ensures forall k :: 0 <= k < |rows| ==> rows[k] < |entries|
  {
    if entries == [] then []
    else
      var n := |entries| - 1;
      Scan(norm, entries[..n], key) + if AnswersKey(norm, entries[n], key) then [n] else []
  }

  lemma {:induction false} ScanHas(norm: Norm, entries: seq<Entry>, key: string, i: nat)
    requires i < |entries|
    ensures i in Scan(norm, entries, key) <==> AnswersKey(norm, entries[i], key)
  {
    hide AnswersKey;
    var n := |entries| - 1;
    var front := Scan(norm, entries[..n], key);
    assert forall k :: 0 <= k < |front| ==> front[k] < n;
    if i < n {
      ScanHas(norm, entries[..n], key, i);
    }
  }

  predicate Ascending(rows: seq<nat>) {
    forall j, k :: 0 <= j < k < |rows| ==> rows[j] < rows[k]
  }

  lemma {:induction false} ScanAscends(norm: Norm, entries: seq<Entry>, key: string)
    ensures Ascending(Scan(norm, entries, key))
  {
    if entries != [] {
      ScanAscends(norm, entries[..|entries| - 1], key);
    }
  }

  /** A key selects an entry that is enabled for exact replies if its keyword or one of its aliases
      normalizes to it. */
  lemma AnswersKeyIff(norm: Norm, e: Entry, key: string)
    ensures AnswersKey(norm, e, key) <==>
            e.enabled && e.exactReply && key != "" &&
            (norm.lookup(e.keyword) == key || exists alias :: alias in e.aliases && norm.lookup(alias) == key)
  {
    assert Names(e)[0] == e.keyword;
    assert forall k :: 0 <= k < |e.aliases| ==> Names(e)[k + 1] == e.aliases[k];
    assert forall k :: 1 <= k < |Names(e)| ==> Names(e)[k] == e.aliases[k - 1];
  }

  /** The scan lists exactly the rows that answer the key, each once, in ascending order. */
  lemma ScanIsExact(norm: Norm, entries: seq<Entry>, key: string)
    ensures forall i :: 0 <= i < |entries| ==> (i in Scan(norm, entries, key) <==> AnswersKey(norm, entries[i], key))
    ensures forall j, k :: 0 <= j < k < |Scan(norm, entries, key)| ==> Scan(norm, entries, key)[j] < Scan(norm, entries, key)[k]
  {
    hide AnswersKey, Scan;
    ScanAscends(norm, entries, key);
    forall i | 0 <= i < |entries|
      ensures i in Scan(norm, entries, key) <==> AnswersKey(norm, entries[i], key)
    {
      ScanHas(norm, entries, key, i);
    }
  }

  predicate SameAnswers(norm: Norm, entries: seq<Entry>, rows: seq<nat>)
    requires forall k :: 0 <= k < |rows| ==> rows[k] < |entries|
  {
    forall k :: 0 <= k < |rows| ==> norm.text(entries[rows[k]].answer) == norm.text(entries[rows[0]].answer)
  }

  // ---------------------------------------------------------------------------------------
  // The runtime index

  datatype ConflictEntry = ConflictEntry(row: nat, keyword: string, sourceKey: string)

  datatype ExactConflict = ExactConflict(key: string, entries: seq<ConflictEntry>)

  datatype Index = Index(entries: seq<Entry>, exact: map<string, nat>, exactConflict: map<string, ExactConflict>)

  function ListOf<T>(m: map<string, seq<T>>, key: string): seq<T> {
    if key in m then m[key] else []
  }

  /** The candidate lists after the entries before `i` and the first `j` names of entry `i`. */
  ghost predicate Collected(norm: Norm, entries: seq<Entry>, i: nat, j: nat, candidates: map<string, seq<nat>>)
    requires i < |entries| && j <= |Names(entries[i])|
  {
    forall key :: ListOf(candidates, key) == ScanPart(norm, entries, i, j, key)
  }

  function ScanPart(norm: Norm, entries: seq<Entry>, i: nat, j: nat, key: string): seq<nat>
    requires i < |entries| && j <= |Names(entries[i])|
  {
    Scan(norm, entries[..i], key) + if NamedWithin(norm, entries[i], key, j) then [i] else []
  }

  ghost predicate CollectedAll(norm: Norm, entries: seq<Entry>, candidates: map<string, seq<nat>>) {
    forall key :: ListOf(candidates, key) == Scan(norm, entries, key)
  }

  /** Every key in use has candidates and a display form. */
  ghost predicate Displayed<T>(norm: Norm, candidates: map<string, seq<T>>, display: map<string, string>) {
    (forall key :: key in candidates ==> candidates[key] != [] && key in display) &&
    forall key :: key in display ==> norm.lookup(display[key]) == key
  }

  method AddLookupCandidate(norm: Norm, candidates: map<string, seq<nat>>, display: map<string, string>, value: string, entryIndex: nat)
    returns (c: map<string, seq<nat>>, d: map<string, string>)
    ensures var key := norm.lookup(value);
            c == (if key == "" || entryIndex in ListOf(candidates, key) then candidates
                  else candidates[key := ListOf(candidates, key) + [entryIndex]])
    ensures Displayed(norm, candidates, display) ==> Displayed(norm, c, d)
  {
    c, d := candidates, display;
    var key := norm.lookup(value);
    if key == "" {
      return;
    }
    var existing := ListOf(candidates, key);
    for k := 0 to |existing|
      invariant entryIndex !in existing[..k]
    {
      if existing[k] == entryIndex {
        return;
      }
    }
    assert existing[..|existing|] == existing;
    c := candidates[key := existing + [entryIndex]];
    if key !in display {
      d := display[key := value];
    }
  }

  lemma ScanPartNext(norm: Norm, entries: seq<Entry>, i: nat, j: nat, key: string)
    requires i < |entries| && j < |Names(entries[i])|
    ensures var part := ScanPart(norm, entries, i, j, key);
            (i in part <==> NamedWithin(norm, entries[i], key, j)) &&
            ScanPart(norm, entries, i, j + 1, key) ==
            if key != "" && norm.lookup(Names(entries[i])[j]) == key && i !in part then part + [i] else part
  {
    var scanned := Scan(norm, entries[..i], key);
    assert forall k :: 0 <= k < |scanned| ==> scanned[k] < i;
  }

  lemma CollectedNext(norm: Norm, entries: seq<Entry>, i: nat, j: nat, before: map<string, seq<nat>>, after: map<string, seq<nat>>)
    requires i < |entries| && j < |Names(entries[i])| && Collected(norm, entries, i, j, before)
    requires var key := norm.lookup(Names(entries[i])[j]);
             after == (if key == "" || i in ListOf(before, key) then before else before[key := ListOf(before, key) + [i]])
    ensures Collected(norm, entries, i, j + 1, after)
  {
    hide ScanPart, Names;
    forall key
      ensures ListOf(after, key) == ScanPart(norm, entries, i, j + 1, key)
    {
      ScanPartNext(norm, entries, i, j, key);
    }
  }

  lemma ScanNext(norm: Norm, entries: seq<Entry>, i: nat, key: string)
    requires i < |entries|
    ensures Scan(norm, entries[..i + 1], key) ==
            Scan(norm, entries[..i], key) + if AnswersKey(norm, entries[i], key) then [i] else []
  {
    assert entries[..i + 1][..i] == entries[..i];
  }

  lemma CollectedEntry(norm: Norm, entries: seq<Entry>, i: nat, j: nat, candidates: map<string, seq<nat>>)
    requires i < |entries| && j <= |Names(entries[i])| && Collected(norm, entries, i, j, candidates)
    requires if entries[i].enabled && entries[i].exactReply then j == |Names(entries[i])| else j == 0
    ensures CollectedAll(norm, entries[..i + 1], candidates)
  {
    forall key
      ensures ListOf(candidates, key) == Scan(norm, entries[..i + 1], key)
    {
      ScanNext(norm, entries, i, key);
    }
  }

  method CollectCandidates(norm: Norm, entries: seq<Entry>)
    returns (candidates: map<string, seq<nat>>, display: map<string, string>)
    ensures CollectedAll(norm, entries, candidates) && Displayed(norm, candidates, display)
  {
    hide Collected, Displayed, CollectedAll;
    candidates, display := map[], map[];
    NothingCollected(norm, entries);
    for i := 0 to |entries|
      invariant CollectedAll(norm, entries[..i], candidates) && Displayed(norm, candidates, display)
    {
      CollectedNone(norm, entries, i, candidates);
      if entries[i].enabled && entries[i].exactReply {
        var names := Names(entries[i]);
        for j := 0 to |names|
          invariant Collected(norm, entries, i, j, candidates) && Displayed(norm, candidates, display)
        {
          var c, d := AddLookupCandidate(norm, candidates, display, names[j], i);
          CollectedNext(norm, entries, i, j, candidates, c);
          candidates, display := c, d;
        }
        CollectedEntry(norm, entries, i, |names|, candidates);
      } else {
        CollectedEntry(norm, entries, i, 0, candidates);
      }
    }
    assert entries[..|entries|] == entries;
  }

  lemma NothingCollected(norm: Norm, entries: seq<Entry>)
    ensures CollectedAll(norm, entries[..0], map[]) && Displayed<nat>(norm, map[], map[])
  {
    assert entries[..0] == [];
  }

  lemma CollectedNone(norm: Norm, entries: seq<Entry>, i: nat, candidates: map<string, seq<nat>>)
    requires i < |entries| && CollectedAll(norm, entries[..i], candidates)
    ensures Collected(norm, entries, i, 0, candidates)
  {
  }

  method LookupAnswersConflict(norm: Norm, entries: seq<Entry>, rows: seq<nat>) returns (conflict: bool)
    requires rows != [] && forall k :: 0 <= k < |rows| ==> rows[k] < |entries|
    ensures conflict == !SameAnswers(norm, entries, rows)
  {
    if |rows| < 2 {
      return false;
    }
    var answer := norm.text(entries[rows[0]].answer);
    for k := 1 to |rows|
      invariant forall j :: 0 <= j < k ==> norm.text(entries[rows[j]].answer) == answer
    {
      if norm.text(entries[rows[k]].answer) != answer {
        return true;
      }
    }
    conflict := false;
  }

  function ConflictEntries(entries: seq<Entry>, rows: seq<nat>): (c: seq<ConflictEntry>)
    requires forall k :: 0 <= k < |rows| ==> rows[k] < |entries|
    ensures |c| == |rows|
    ensures forall k :: 0 <= k < |rows| ==>
      var e := entries[rows[k]]; c[k] == ConflictEntry(e.row, e.keyword, e.sourceKey)
  {
    seq(|rows|, k requires 0 <= k < |rows| =>
      ConflictEntry(entries[rows[k]].row, entries[rows[k]].keyword, entries[rows[k]].sourceKey))
  }

  /** What the index holds for one key is what the scan says. */
  ghost predicate IndexedKey(norm: Norm, idx: Index, key: string) {
    var rows := Scan(norm, idx.entries, key);
    if rows == [] then key !in idx.exact && key !in idx.exactConflict
    else if SameAnswers(norm, idx.entries, rows) then
      key in idx.exact && idx.exact[key] == rows[0] && key !in idx.exactConflict
    else
      key !in idx.exact && key in idx.exactConflict && norm.lookup(idx.exactConflict[key].key) == key &&
      idx.exactConflict[key].entries == ConflictEntries(idx.entries, rows)
  }

  // Every row in the index exists.
  predicate RowsExist(idx: Index) {
    forall key :: key in idx.exact ==> idx.exact[key] < |idx.entries|
  }

  method NewIndex(norm: Norm, entries: seq<Entry>) returns (idx: Index)
    ensures idx.entries == entries && RowsExist(idx) && forall key :: IndexedKey(norm, idx, key)
  {
    hide IndexedKey, CollectedAll, Displayed;
    var candidates, display := CollectCandidates(norm, entries);
    idx := Index(entries, map[], map[]);
    var left := candidates.Keys;
    NothingIndexed(norm, entries, candidates, display);
    while left != {}
      invariant left <= candidates.Keys && idx.entries == entries && RowsExist(idx)
      invariant forall key :: key !in left ==> IndexedKey(norm, idx, key)
      invariant forall key :: key in left ==> key !in idx.exact && key !in idx.exactConflict
      decreases |left|
    {
      var key :| key in left;
      ghost var before := idx;
      idx := IndexKey(norm, candidates, display, idx, key);
      left := left - {key};
      forall other | other !in left
        ensures IndexedKey(norm, idx, other)
      {
        if other != key {
          OtherKeysStay(norm, before, idx, key, other);
        }
      }
    }
  }

  lemma NothingIndexed(norm: Norm, entries: seq<Entry>, candidates: map<string, seq<nat>>, display: map<string, string>)
    requires CollectedAll(norm, entries, candidates) && Displayed(norm, candidates, display)
    ensures forall key :: key !in candidates ==> IndexedKey(norm, Index(entries, map[], map[]), key)
  {
    forall key | key !in candidates
      ensures IndexedKey(norm, Index(entries, map[], map[]), key)
    {
      assert ListOf(candidates, key) == Scan(norm, entries, key);
    }
  }

  lemma OtherKeysStay(norm: Norm, idx: Index, later: Index, key: string, other: string)
    requires other != key && IndexedKey(norm, idx, other) && later.entries == idx.entries
    requires later.exact - {key} == idx.exact - {key} && later.exactConflict - {key} == idx.exactConflict - {key}
    ensures IndexedKey(norm, later, other)
  {
    assert other in later.exact <==> other in later.exact - {key};
    assert other in idx.exact <==> other in idx.exact - {key};
    assert other in later.exactConflict <==> other in later.exactConflict - {key};
    assert other in idx.exactConflict <==> other in idx.exactConflict - {key};
    assert other in idx.exact ==> (later.exact - {key})[other] == (idx.exact - {key})[other];
    assert other in idx.exactConflict ==> (later.exactConflict - {key})[other] == (idx.exactConflict - {key})[other];
  }

  method IndexKey(norm: Norm, candidates: map<string, seq<nat>>, display: map<string, string>, before: Index, key: string)
    returns (idx: Index)
    requires CollectedAll(norm, before.entries, candidates) && Displayed(norm, candidates, display)
    requires key in candidates && RowsExist(before) && key !in before.exact && key !in before.exactConflict
    ensures idx.entries == before.entries && RowsExist(idx) && IndexedKey(norm, idx, key)
    ensures idx.exact - {key} == before.exact - {key} && idx.exactConflict - {key} == before.exactConflict - {key}
    ensures idx.exact.Keys <= before.exact.Keys + {key} && idx.exactConflict.Keys <= before.exactConflict.Keys + {key}
  {
    hide SameAnswers, ConflictEntries;
    var rows := candidates[key];
    assert rows == ListOf(candidates, key) == Scan(norm, before.entries, key);
    var conflict := LookupAnswersConflict(norm, before.entries, rows);
    if conflict {
      idx := before.(exactConflict := before.exactConflict[key := ExactConflict(display[key], ConflictEntries(before.entries, rows))]);
    } else {
      idx := before.(exact := before.exact[key := rows[0]]);
    }
  }

  function Lookup(norm: Norm, idx: Index, message: string): Option<Entry>
    requires RowsExist(idx)
  {
    var key := norm.lookup(message);
    if key in idx.exact then Some(idx.entries[idx.exact[key]]) else None
  }

  function LookupConflict(norm: Norm, idx: Index, message: string): Option<ExactConflict> {
    var key := norm.lookup(message);
    if key in idx.exactConflict then Some(idx.exactConflict[key]) else None
  }

  /** The index answers every message as the linear scan does: it misses without candidates, gives
      the first candidate when all answers agree, and otherwise lists every candidate in row order. */
  lemma IndexRefinesScan(norm: Norm, idx: Index, message: string)
    requires RowsExist(idx) && IndexedKey(norm, idx, norm.lookup(message))
    ensures var rows := Scan(norm, idx.entries, norm.lookup(message));
            var found, conflict := Lookup(norm, idx, message), LookupConflict(norm, idx, message);
            if rows == [] then found == None && conflict == None
            else if SameAnswers(norm, idx.entries, rows) then found == Some(idx.entries[rows[0]]) && conflict == None
            else found == None && conflict.Some? && conflict.value.entries == ConflictEntries(idx.entries, rows)
  {
  }

  // ---------------------------------------------------------------------------------------
  // The parser's report: exact lookup

  datatype ConflictType = SourceKeyConflict | KeywordConflict | AliasConflict

  datatype ParseConflict = ParseConflict(kind: ConflictType, key: string, ids: seq<string>)

  datatype ExactCandidate = ExactCandidate(row: nat, id: string, isAlias: bool)

  function CandidatesOf(norm: Norm, entries: seq<Entry>, rows: seq<nat>, key: string): (c: seq<ExactCandidate>)
    requires forall k :: 0 <= k < |rows| ==> rows[k] < |entries|
    ensures |c| == |rows|
  {
    seq(|rows|, k requires 0 <= k < |rows| =>
      ExactCandidate(rows[k], entries[rows[k]].id, norm.lookup(entries[rows[k]].keyword) != key))
  }

  function IDs(entries: seq<Entry>, rows: seq<nat>): seq<string>
    requires forall k :: 0 <= k < |rows| ==> rows[k] < |entries|
  {
    seq(|rows|, k requires 0 <= k < |rows| => entries[rows[k]].id)
  }

  predicate DistinctIDs(entries: seq<Entry>) {
    forall i, j :: 0 <= i < j < |entries| ==> entries[i].id != entries[j].id
  }

  /** Adding a candidate: one with the same id is merged, and stays an alias only if both are. */
  function Merge(list: seq<ExactCandidate>, c: ExactCandidate): seq<ExactCandidate> {
    if list == [] then [c]
    else if list[0].id == c.id then [list[0].(isAlias := list[0].isAlias && c.isAlias)] + list[1..]
    else [list[0]] + Merge(list[1..], c)
  }

  predicate RowsBelow(list: seq<ExactCandidate>, n: nat) {
    forall k :: 0 <= k < |list| ==> list[k].row < n
  }

  ghost predicate AllRowsBelow(byKey: map<string, seq<ExactCandidate>>, n: nat) {
    forall key :: key in byKey ==> RowsBelow(byKey[key], n)
  }

  method MergeCandidate(list: seq<ExactCandidate>, c: ExactCandidate) returns (merged: seq<ExactCandidate>, added: bool)
    ensures merged == Merge(list, c) && merged != [] && (!added ==> list != [])
  {
    hide Merge;
    for k := 0 to |list|
      invariant forall n :: 0 <= n < k ==> list[n].id != c.id
    {
      if list[k].id == c.id {
        MergeAt(list, k, c);
        return list[k := list[k].(isAlias := list[k].isAlias && c.isAlias)], false;
      }
    }
    MergeNew(list, c);
    merged, added := list + [c], true;
  }

  lemma {:induction false} MergeAt(list: seq<ExactCandidate>, k: nat, c: ExactCandidate)
    requires k < |list| && list[k].id == c.id && forall n :: 0 <= n < k ==> list[n].id != c.id
    ensures Merge(list, c) == list[k := list[k].(isAlias := list[k].isAlias && c.isAlias)]
  {
    if k > 0 {
      MergeAt(list[1..], k - 1, c);
    }
  }

  lemma {:induction false} MergeRowsBelow(list: seq<ExactCandidate>, c: ExactCandidate, n: nat)
    requires RowsBelow(list, n) && c.row < n
    ensures RowsBelow(Merge(list, c), n)
  {
    if list != [] && list[0].id != c.id {
      MergeRowsBelow(list[1..], c, n);
    }
  }

  method AddExactCandidate(norm: Norm, byKey: map<string, seq<ExactCandidate>>, display: map<string, string>,
                           value: string, candidate: ExactCandidate)
    returns (b: map<string, seq<ExactCandidate>>, d: map<string, string>)
    ensures var key := norm.lookup(value);
            b == (if key == "" then byKey else byKey[key := Merge(ListOf(byKey, key), candidate)])
    ensures Displayed(norm, byKey, display) ==> Displayed(norm, b, d)
    ensures forall n :: AllRowsBelow(byKey, n) && candidate.row < n ==> AllRowsBelow(b, n)
  {
    hide Merge;
    b, d := byKey, display;
    var key := norm.lookup(value);
    if key == "" {
      return;
    }
    var merged, added := MergeCandidate(ListOf(byKey, key), candidate);
    b := byKey[key := merged];
    forall n | AllRowsBelow(byKey, n) && candidate.row < n
      ensures AllRowsBelow(b, n)
    {
      MergeRowsBelow(ListOf(byKey, key), candidate, n);
    }
    if added {
      d := display[key := value];
    }
  }

  lemma {:induction false} MergeNew(list: seq<ExactCandidate>, c: ExactCandidate)
    requires forall k :: 0 <= k < |list| ==> list[k].id != c.id
    ensures Merge(list, c) == list + [c]
  {
    if list != [] {
      MergeNew(list[1..], c);
    }
  }

  lemma {:induction false} MergeLast(list: seq<ExactCandidate>, last: ExactCandidate, c: ExactCandidate)
    requires forall k :: 0 <= k < |list| ==> list[k].id != c.id
    requires last.id == c.id
    ensures Merge(list + [last], c) == list + [last.(isAlias := last.isAlias && c.isAlias)]
  {
    if list != [] {
      MergeLast(list[1..], last, c);
      assert (list + [last])[1..] == list[1..] + [last];
    }
  }

  function CandidatesPart(norm: Norm, entries: seq<Entry>, i: nat, j: nat, key: string): seq<ExactCandidate>
    requires i < |entries| && j <= |Names(entries[i])|
  {
    CandidatesOf(norm, entries, ScanPart(norm, entries, i, j, key), key)
  }

  lemma CandidatesPartNext(norm: Norm, entries: seq<Entry>, i: nat, j: nat, key: string)
    requires i < |entries| && j < |Names(entries[i])| && DistinctIDs(entries)
    ensures var part := CandidatesPart(norm, entries, i, j, key);
            CandidatesPart(norm, entries, i, j + 1, key) ==
            if key != "" && norm.lookup(Names(entries[i])[j]) == key
            then Merge(part, ExactCandidate(i, entries[i].id, j > 0)) else part
  {
    hide NamedWithin, AnswersKey, Names, Merge;
    var scanned := Scan(norm, entries[..i], key);
    var list := CandidatesOf(norm, entries, scanned, key);
    var added := ExactCandidate(i, entries[i].id, j > 0);
    var own := added.(isAlias := norm.lookup(entries[i].keyword) != key);
    CandidatesSnoc(norm, entries, scanned, i, key);
    ScanPartNext(norm, entries, i, j, key);
    FirstNameIsKeyword(norm, entries[i], key, j);
    if key != "" && norm.lookup(Names(entries[i])[j]) == key {
      if NamedWithin(norm, entries[i], key, j) {
        MergeLast(list, own, added);
        assert own.(isAlias := own.isAlias && added.isAlias) == own;
      } else {
        MergeNew(list, added);
        assert own == added;
        assert ScanPart(norm, entries, i, j, key) == scanned;
        assert ScanPart(norm, entries, i, j + 1, key) == scanned + [i];
        assert CandidatesPart(norm, entries, i, j, key) == list;
        assert CandidatesPart(norm, entries, i, j + 1, key) == list + [own];
        assert Merge(list, ExactCandidate(i, entries[i].id, j > 0)) == list + [own];
      }
    }
  }

  lemma CandidatesSnoc(norm: Norm, entries: seq<Entry>, rows: seq<nat>, i: nat, key: string)
    requires i < |entries| && forall k :: 0 <= k < |rows| ==> rows[k] < i
    ensures CandidatesOf(norm, entries, rows + [i], key) ==
            CandidatesOf(norm, entries, rows, key) + [ExactCandidate(i, entries[i].id, norm.lookup(entries[i].keyword) != key)]
    ensures DistinctIDs(entries) ==> forall k :: 0 <= k < |rows| ==>
              CandidatesOf(norm, entries, rows, key)[k].id != entries[i].id
  {
  }

  lemma FirstNameIsKeyword(norm: Norm, e: Entry, key: string, j: nat)
    requires j < |Names(e)|
    ensures Names(e)[0] == e.keyword && (NamedWithin(norm, e, key, j) ==> j > 0)
    ensures key != "" && j > 0 && !NamedWithin(norm, e, key, j) ==> norm.lookup(e.keyword) != key
  {
    if j > 0 {
      assert norm.lookup(Names(e)[0]) == norm.lookup(e.keyword);
    }
  }

  ghost predicate Grouped(norm: Norm, entries: seq<Entry>, i: nat, j: nat, byKey: map<string, seq<ExactCandidate>>)
    requires i < |entries| && j <= |Names(entries[i])|
  {
    forall key :: ListOf(byKey, key) == CandidatesPart(norm, entries, i, j, key)
  }

  ghost predicate GroupedAll(norm: Norm, entries: seq<Entry>, i: nat, byKey: map<string, seq<ExactCandidate>>)
    requires i <= |entries|
  {
    forall key :: ListOf(byKey, key) == CandidatesOf(norm, entries, Scan(norm, entries[..i], key), key)
  }

  lemma GroupedNext(norm: Norm, entries: seq<Entry>, i: nat, j: nat,
                    before: map<string, seq<ExactCandidate>>, after: map<string, seq<ExactCandidate>>)
    requires i < |entries| && j < |Names(entries[i])| && DistinctIDs(entries) && Grouped(norm, entries, i, j, before)
    requires var key := norm.lookup(Names(entries[i])[j]);
             after == (if key == "" then before
                       else before[key := Merge(ListOf(before, key), ExactCandidate(i, entries[i].id, j > 0))])
    ensures Grouped(norm, entries, i, j + 1, after)
  {
    hide CandidatesPart, Names, Merge;
    forall key
      ensures ListOf(after, key) == CandidatesPart(norm, entries, i, j + 1, key)
    {
      CandidatesPartNext(norm, entries, i, j, key);
    }
  }

  lemma GroupedEntry(norm: Norm, entries: seq<Entry>, i: nat, j: nat, byKey: map<string, seq<ExactCandidate>>)
    requires i < |entries| && j <= |Names(entries[i])| && Grouped(norm, entries, i, j, byKey)
    requires if entries[i].enabled && entries[i].exactReply then j == |Names(entries[i])| else j == 0
    ensures GroupedAll(norm, entries, i + 1, byKey)
  {
    forall key
      ensures ListOf(byKey, key) == CandidatesOf(norm, entries, Scan(norm, entries[..i + 1], key), key)
    {
      ScanNext(norm, entries, i, key);
      assert ScanPart(norm, entries, i, j, key) == Scan(norm, entries[..i + 1], key);
    }
  }

  lemma GroupedNone(norm: Norm, entries: seq<Entry>, i: nat, byKey: map<string, seq<ExactCandidate>>)
    requires i < |entries| && GroupedAll(norm, entries, i, byKey)
    ensures Grouped(norm, entries, i, 0, byKey)
  {
    forall key
      ensures ListOf(byKey, key) == CandidatesPart(norm, entries, i, 0, key)
    {
      assert ScanPart(norm, entries, i, 0, key) == Scan(norm, entries[..i], key);
    }
  }

  lemma NothingGrouped(norm: Norm, entries: seq<Entry>)
    ensures GroupedAll(norm, entries, 0, map[]) && Displayed<ExactCandidate>(norm, map[], map[])
    ensures AllRowsBelow(map[], |entries|)
  {
    assert entries[..0] == [];
  }

  method GroupExactCandidates(norm: Norm, entries: seq<Entry>)
    returns (byKey: map<string, seq<ExactCandidate>>, display: map<string, string>)
    ensures DistinctIDs(entries) ==> GroupedAll(norm, entries, |entries|, byKey)
    ensures Displayed(norm, byKey, display) && AllRowsBelow(byKey, |entries|)
  {
    hide Grouped, Displayed, GroupedAll, Merge, AllRowsBelow;
    byKey, display := map[], map[];
    NothingGrouped(norm, entries);
    for i := 0 to |entries|
      invariant DistinctIDs(entries) ==> GroupedAll(norm, entries, i, byKey)
      invariant Displayed(norm, byKey, display) && AllRowsBelow(byKey, |entries|)
    {
      if DistinctIDs(entries) {
        GroupedNone(norm, entries, i, byKey);
      }
      if entries[i].enabled && entries[i].exactReply {
        var names := Names(entries[i]);
        for j := 0 to |names|
          invariant DistinctIDs(entries) ==> Grouped(norm, entries, i, j, byKey)
          invariant Displayed(norm, byKey, display) && AllRowsBelow(byKey, |entries|)
        {
          var b, d := AddExactCandidate(norm, byKey, display, names[j], ExactCandidate(i, entries[i].id, j > 0));
          if DistinctIDs(entries) {
            GroupedNext(norm, entries, i, j, byKey, b);
          }
          byKey, display := b, d;
        }
        if DistinctIDs(entries) {
          GroupedEntry(norm, entries, i, |names|, byKey);
        }
      } else if DistinctIDs(entries) {
        GroupedEntry(norm, entries, i, 0, byKey);
      }
    }
  }

  // sort.Strings: by code points, a prefix first.
  predicate Below(a: string, b: string) {
    b != "" && (a == "" || a[0] < b[0] || (a[0] == b[0] && Below(a[1..], b[1..])))
  }

  lemma {:induction false} BelowIsTotal(a: string, b: string)
    ensures a == b || Below(a, b) || Below(b, a)
  {
    if a != "" && b != "" && a[0] == b[0] {
      BelowIsTotal(a[1..], b[1..]);
      assert a == [a[0]] + a[1..] && b == [b[0]] + b[1..];
    }
  }

  lemma {:induction false} BelowIsTransitive(a: string, b: string, c: string)
    requires Below(a, b) && Below(b, c)
    ensures Below(a, c)
  {
    if a != "" && a[0] == b[0] == c[0] {
      BelowIsTransitive(a[1..], b[1..], c[1..]);
    }
  }

  predicate IsLeast(keys: set<string>, least: string) {
    least in keys && forall key :: key in keys ==> key == least || Below(least, key)
  }

  lemma {:induction false} LeastExists(keys: set<string>)
    requires keys != {}
    ensures exists least :: IsLeast(keys, least)
    decreases |keys|
  {
    var key :| key in keys;
    var rest := keys - {key};
    if rest == {} {
      forall other | other in keys
        ensures other == key
      {
        assert other in rest || other == key;
      }
      assert IsLeast(keys, key);
    } else {
      LeastExists(rest);
      var least :| IsLeast(rest, least);
      BelowIsTotal(key, least);
      if Below(least, key) {
        forall other | other in keys && other != least
          ensures Below(least, other)
        {
          assert other in rest || other == key;
        }
        assert IsLeast(keys, least);
      } else {
        forall other | other in keys && other != key
          ensures Below(key, other)
        {
          assert other in rest;
          if other != least {
            BelowIsTransitive(key, least, other);
          }
        }
        assert IsLeast(keys, key);
      }
    }
  }

  predicate ShareSource(entries: seq<Entry>, rows: seq<nat>)
    requires forall k :: 0 <= k < |rows| ==> rows[k] < |entries|
  {
    forall k :: 0 <= k < |rows| ==> entries[rows[k]].sourceKey == entries[rows[0]].sourceKey
  }

  /** The keys the parser reports: ambiguous, and not already covered by one source key. */
  predicate Reportable(norm: Norm, entries: seq<Entry>, key: string) {
    var rows := Scan(norm, entries, key);
    !SameAnswers(norm, entries, rows) && !ShareSource(entries, rows)
  }

  predicate OnlyAliases(norm: Norm, entries: seq<Entry>, rows: seq<nat>, key: string)
    requires forall k :: 0 <= k < |rows| ==> rows[k] < |entries|
  {
    forall k :: 0 <= k < |rows| ==> norm.lookup(entries[rows[k]].keyword) != key
  }

  /** The report on a key lists the ids of exactly its rows. */
  predicate ReportsKey(norm: Norm, entries: seq<Entry>, c: ParseConflict, key: string) {
    var rows := Scan(norm, entries, key);
    norm.lookup(c.key) == key && c.ids == IDs(entries, rows) &&
    c.kind == if OnlyAliases(norm, entries, rows, key) then AliasConflict else KeywordConflict
  }

  /** One report for each reportable key, in ascending order of the keys. */
  ghost predicate ExactReport(norm: Norm, entries: seq<Entry>, conflicts: seq<ParseConflict>, keys: seq<string>) {
    |conflicts| == |keys| &&
    (forall k :: 0 <= k < |keys| ==> ReportsKey(norm, entries, conflicts[k], keys[k])) &&
    (forall key :: key in keys <==> Reportable(norm, entries, key)) &&
    forall j, k :: 0 <= j < k < |keys| ==> Below(keys[j], keys[k])
  }

  method ExactCandidateAnswersIdentical(norm: Norm, entries: seq<Entry>, candidates: seq<ExactCandidate>, ghost rows: seq<nat>)
    returns (identical: bool)
    requires candidates != [] && RowsOf(entries, candidates, rows)
    ensures identical == SameAnswers(norm, entries, rows)
  {
    var answer := norm.text(entries[candidates[0].row].answer);
    for k := 1 to |candidates|
      invariant forall j :: 0 <= j < k ==> norm.text(entries[rows[j]].answer) == answer
    {
      if norm.text(entries[candidates[k].row].answer) != answer {
        return false;
      }
    }
    identical := true;
  }

  method ExactCandidatesShareSource(entries: seq<Entry>, candidates: seq<ExactCandidate>, ghost rows: seq<nat>)
    returns (shared: bool)
    requires candidates != [] && RowsOf(entries, candidates, rows)
    ensures shared == ShareSource(entries, rows)
  {
    var sourceKey := entries[candidates[0].row].sourceKey;
    for k := 1 to |candidates|
      invariant forall j :: 0 <= j < k ==> entries[rows[j]].sourceKey == sourceKey
    {
      if entries[candidates[k].row].sourceKey != sourceKey {
        return false;
      }
    }
    shared := true;
  }

  ghost predicate RowsOf(entries: seq<Entry>, candidates: seq<ExactCandidate>, rows: seq<nat>) {
    |candidates| == |rows| && forall k :: 0 <= k < |rows| ==> rows[k] < |entries| && candidates[k].row == rows[k]
  }

  /** The report on one key, if any; what it says is stated for candidates that match the scan. */
  method ExactConflictOf(norm: Norm, entries: seq<Entry>, candidates: seq<ExactCandidate>, shown: string, ghost key: string)
    returns (c: Option<ParseConflict>)
    requires RowsBelow(candidates, |entries|) && candidates != [] && norm.lookup(shown) == key
    ensures candidates == CandidatesOf(norm, entries, Scan(norm, entries, key), key) ==>
      (c.Some? <==> Reportable(norm, entries, key)) && (c.Some? ==> ReportsKey(norm, entries, c.value, key))
  {
    hide Scan, SameAnswers, ShareSource;
    ghost var rows := seq(|candidates|, k requires 0 <= k < |candidates| => candidates[k].row);
    if candidates == CandidatesOf(norm, entries, Scan(norm, entries, key), key) {
      assert rows == Scan(norm, entries, key);
    }
    if |candidates| < 2 {
      OneAnswer(norm, entries, rows);
      return None;
    }
    var identical := ExactCandidateAnswersIdentical(norm, entries, candidates, rows);
    if identical {
      return None;
    }
    var shared := ExactCandidatesShareSource(entries, candidates, rows);
    if shared {
      return None;
    }
    var allAliases, ids := true, [];
    for k := 0 to |candidates|
      invariant allAliases == forall j :: 0 <= j < k ==> candidates[j].isAlias
      invariant |ids| == k && forall j :: 0 <= j < k ==> ids[j] == candidates[j].id
    {
      allAliases := allAliases && candidates[k].isAlias;
      ids := ids + [candidates[k].id];
    }
    if candidates == CandidatesOf(norm, entries, Scan(norm, entries, key), key) {
      assert ids == IDs(entries, rows);
      AliasesOnly(norm, entries, rows, key, candidates);
    }
    c := Some(ParseConflict(if allAliases then AliasConflict else KeywordConflict, shown, ids));
  }

  lemma AliasesOnly(norm: Norm, entries: seq<Entry>, rows: seq<nat>, key: string, candidates: seq<ExactCandidate>)
    requires (forall k :: 0 <= k < |rows| ==> rows[k] < |entries|) && candidates == CandidatesOf(norm, entries, rows, key)
    ensures OnlyAliases(norm, entries, rows, key) <==> forall k :: 0 <= k < |candidates| ==> candidates[k].isAlias
  {
    assert forall k :: 0 <= k < |rows| ==> candidates[k].isAlias == (norm.lookup(entries[rows[k]].keyword) != key);
  }

  lemma OneAnswer(norm: Norm, entries: seq<Entry>, rows: seq<nat>)
    requires |rows| < 2 && forall k :: 0 <= k < |rows| ==> rows[k] < |entries|
    ensures SameAnswers(norm, entries, rows)
  {
  }

  /** The report after the keys above, all of them below the keys in `left`. */
  ghost predicate ReportedSoFar(norm: Norm, entries: seq<Entry>, conflicts: seq<ParseConflict>, keys: seq<string>, left: set<string>) {
    |conflicts| == |keys| &&
    (forall k :: 0 <= k < |keys| ==> ReportsKey(norm, entries, conflicts[k], keys[k])) &&
    (forall key :: key !in left ==> (key in keys <==> Reportable(norm, entries, key))) &&
    (forall j, k :: 0 <= j < k < |keys| ==> Below(keys[j], keys[k])) &&
    forall k, key :: 0 <= k < |keys| && key in left ==> Below(keys[k], key)
  }

  lemma ReportsNext(norm: Norm, entries: seq<Entry>, conflicts: seq<ParseConflict>, keys: seq<string>, left: set<string>,
                    key: string, c: Option<ParseConflict>)
    requires ReportedSoFar(norm, entries, conflicts, keys, left) && IsLeast(left, key)
    requires (c.Some? <==> Reportable(norm, entries, key)) && (c.Some? ==> ReportsKey(norm, entries, c.value, key))
    ensures c.None? ==> ReportedSoFar(norm, entries, conflicts, keys, left - {key})
    ensures c.Some? ==> ReportedSoFar(norm, entries, conflicts + [c.value], keys + [key], left - {key})
  {
    hide Reportable, ReportsKey;
    forall k | 0 <= k < |keys|
      ensures keys[k] != key
    {
      assert Below(keys[k], key);
      BelowIsIrreflexive(key);
    }
    assert c.Some? ==> (keys + [key])[|keys|] == key;
    assert forall other :: other in left - {key} ==> other in left && Below(key, other);
  }

  lemma {:induction false} BelowIsIrreflexive(a: string)
    ensures !Below(a, a)
  {
    if a != "" {
      BelowIsIrreflexive(a[1..]);
    }
  }

  lemma NothingReported(norm: Norm, entries: seq<Entry>, byKey: map<string, seq<ExactCandidate>>)
    requires GroupedAll(norm, entries, |entries|, byKey)
    ensures ReportedSoFar(norm, entries, [], [], byKey.Keys)
  {
    assert entries[..|entries|] == entries;
    forall key | key !in byKey
      ensures !Reportable(norm, entries, key)
    {
      assert ListOf(byKey, key) == CandidatesOf(norm, entries, Scan(norm, entries, key), key);
    }
  }

  lemma GroupOfKey(norm: Norm, entries: seq<Entry>, byKey: map<string, seq<ExactCandidate>>, key: string)
    requires GroupedAll(norm, entries, |entries|, byKey) && key in byKey
    ensures byKey[key] == CandidatesOf(norm, entries, Scan(norm, entries, key), key)
  {
    assert entries[..|entries|] == entries;
    assert ListOf(byKey, key) == byKey[key];
  }

  method ResolveExactConflicts(norm: Norm, entries: seq<Entry>) returns (conflicts: seq<ParseConflict>, keys: seq<string>)
    ensures DistinctIDs(entries) ==> ExactReport(norm, entries, conflicts, keys)
  {
    hide GroupedAll, Displayed, Reportable, ReportsKey, Below, IsLeast, ReportedSoFar, RowsBelow, DistinctIDs;
    var byKey, display := GroupExactCandidates(norm, entries);
    conflicts, keys := [], [];
    var left := byKey.Keys;
    if DistinctIDs(entries) {
      NothingReported(norm, entries, byKey);
    }
    while left != {}
      invariant left <= byKey.Keys
      invariant DistinctIDs(entries) ==> ReportedSoFar(norm, entries, conflicts, keys, left)
      decreases |left|
    {
      LeastExists(left);
      var key :| IsLeast(left, key);
      LeastIsIn(left, key);
      DisplayedKey(norm, byKey, display, key);
      var c := ExactConflictOf(norm, entries, byKey[key], display[key], key);
      if DistinctIDs(entries) {
        GroupOfKey(norm, entries, byKey, key);
        ReportsNext(norm, entries, conflicts, keys, left, key, c);
      }
      if c.Some? {
        conflicts, keys := conflicts + [c.value], keys + [key];
      }
      left := left - {key};
    }
    if DistinctIDs(entries) {
      AllReported(norm, entries, conflicts, keys);
    }
  }

  lemma LeastIsIn(keys: set<string>, least: string)
    requires IsLeast(keys, least)
    ensures least in keys
  {
  }

  lemma DisplayedKey(norm: Norm, byKey: map<string, seq<ExactCandidate>>, display: map<string, string>, key: string)
    requires Displayed(norm, byKey, display) && key in byKey
    ensures byKey[key] != [] && key in display && norm.lookup(display[key]) == key
  {
  }

  lemma AllReported(norm: Norm, entries: seq<Entry>, conflicts: seq<ParseConflict>, keys: seq<string>)
    requires ReportedSoFar(norm, entries, conflicts, keys, {})
    ensures ExactReport(norm, entries, conflicts, keys)
  {
  }

  // ---------------------------------------------------------------------------------------
  // The parser's report: source keys

  function SourceScan(entries: seq<Entry>, source: string): (rows: seq<nat>)
    ensures forall k :: 0 <= k < |rows| ==> rows[k] < |entries| && entries[rows[k]].sourceKey == source
  {
    if entries == [] then []
    else
      var n := |entries| - 1;
      SourceScan(entries[..n], source) + if entries[n].sourceKey == source then [n] else []
  }

  lemma {:induction false} SourceScanHas(entries: seq<Entry>, i: nat)
    requires i < |entries|
    ensures i in SourceScan(entries, entries[i].sourceKey)
  {
    if i < |entries| - 1 {
      SourceScanHas(entries[..|entries| - 1], i);
    }
  }

  predicate ReportsSource(norm: Norm, entries: seq<Entry>, c: ParseConflict) {
    var rows := SourceScan(entries, c.key);
    c.kind == SourceKeyConflict && !SameAnswers(norm, entries, rows) && c.ids == IDs(entries, rows)
  }

  /** The first `n` source keys in `order` are reported, exactly those with more than one answer. */
  ghost predicate SourceReport(norm: Norm, entries: seq<Entry>, order: seq<string>, n: nat, conflicts: seq<ParseConflict>)
    requires n <= |order|
  {
    (forall k :: 0 <= k < |conflicts| ==> ReportsSource(norm, entries, conflicts[k])) &&
    forall k :: 0 <= k < n && !SameAnswers(norm, entries, SourceScan(entries, order[k])) ==>
      exists c :: c in conflicts && c.key == order[k]
  }

  /** The rows of each source key, and the keys in the order of their first rows. */
  ghost predicate BySource(entries: seq<Entry>, i: nat, bySource: map<string, seq<nat>>, order: seq<string>)
    requires i <= |entries|
  {
    (forall source :: ListOf(bySource, source) == SourceScan(entries[..i], source)) &&
    (forall source :: source in bySource <==> source in order) &&
    (forall source :: source in bySource ==> bySource[source] != []) &&
    forall j, k :: 0 <= j < k < |order| ==> order[j] != order[k]
  }

  lemma BySourceNext(entries: seq<Entry>, i: nat, bySource: map<string, seq<nat>>, order: seq<string>)
    requires i < |entries| && BySource(entries, i, bySource, order)
    ensures var source := entries[i].sourceKey;
            BySource(entries, i + 1, bySource[source := ListOf(bySource, source) + [i]],
                     if source in bySource then order else order + [source])
  {
    var own := entries[i].sourceKey;
    var after := bySource[own := ListOf(bySource, own) + [i]];
    forall source
      ensures ListOf(after, source) == SourceScan(entries[..i + 1], source)
    {
      SourceScanNext(entries, i, source);
    }
    assert forall source :: source in order + [own] <==> source in order || source == own;
  }

  lemma SourceScanNext(entries: seq<Entry>, i: nat, source: string)
    requires i < |entries|
    ensures SourceScan(entries[..i + 1], source) ==
            SourceScan(entries[..i], source) + if entries[i].sourceKey == source then [i] else []
  {
    assert entries[..i + 1][..i] == entries[..i];
  }

  method GroupBySource(entries: seq<Entry>) returns (bySource: map<string, seq<nat>>, order: seq<string>)
    ensures BySource(entries, |entries|, bySource, order)
  {
    hide BySource;
    bySource, order := map[], [];
    NoSources(entries);
    for i := 0 to |entries|
      invariant BySource(entries, i, bySource, order)
    {
      BySourceNext(entries, i, bySource, order);
      var source := entries[i].sourceKey;
      order := if source in bySource then order else order + [source];
      bySource := bySource[source := ListOf(bySource, source) + [i]];
    }
  }

  lemma NoSources(entries: seq<Entry>)
    ensures BySource(entries, 0, map[], [])
  {
    assert entries[..0] == [];
  }

  method SourceConflictOf(norm: Norm, entries: seq<Entry>, source: string, rows: seq<nat>) returns (c: Option<ParseConflict>)
    requires rows == SourceScan(entries, source) && rows != []
    ensures c.Some? <==> !SameAnswers(norm, entries, rows)
    ensures c.Some? ==> ReportsSource(norm, entries, c.value) && c.value.key == source
  {
    var identical, ids := true, [];
    for k := 0 to |rows|
      invariant identical == forall j :: 0 <= j < k ==> norm.text(entries[rows[j]].answer) == norm.text(entries[rows[0]].answer)
      invariant |ids| == k && forall j :: 0 <= j < k ==> ids[j] == entries[rows[j]].id
    {
      ids := ids + [entries[rows[k]].id];
      if norm.text(entries[rows[k]].answer) != norm.text(entries[rows[0]].answer) {
        identical := false;
      }
    }
    c := if identical then None else Some(ParseConflict(SourceKeyConflict, source, ids));
  }

  lemma NoSourceReports(norm: Norm, entries: seq<Entry>, order: seq<string>)
    ensures SourceReport(norm, entries, order, 0, [])
  {
  }

  lemma SourceReportNext(norm: Norm, entries: seq<Entry>, order: seq<string>, n: nat, conflicts: seq<ParseConflict>, c: Option<ParseConflict>)
    requires n < |order| && SourceReport(norm, entries, order, n, conflicts)
    requires c.Some? <==> !SameAnswers(norm, entries, SourceScan(entries, order[n]))
    requires c.Some? ==> ReportsSource(norm, entries, c.value) && c.value.key == order[n]
    ensures SourceReport(norm, entries, order, n + 1, if c.Some? then conflicts + [c.value] else conflicts)
  {
    hide ReportsSource, SameAnswers, SourceScan;
    var after := if c.Some? then conflicts + [c.value] else conflicts;
    forall k | 0 <= k < n + 1 && !SameAnswers(norm, entries, SourceScan(entries, order[k]))
      ensures exists other :: other in after && other.key == order[k]
    {
      if k < n {
        var other :| other in conflicts && other.key == order[k];
        assert other in after;
      } else {
        assert c.value in after;
      }
    }
  }

  method ResolveSourceConflicts(norm: Norm, entries: seq<Entry>) returns (conflicts: seq<ParseConflict>, order: seq<string>)
    ensures forall i :: 0 <= i < |entries| ==> entries[i].sourceKey in order
    ensures SourceReport(norm, entries, order, |order|, conflicts)
  {
    hide BySource, ReportsSource, SameAnswers, SourceReport, SourceScan;
    var bySource, sources := GroupBySource(entries);
    conflicts, order := [], sources;
    NoSourceReports(norm, entries, order);
    for n := 0 to |order|
      invariant SourceReport(norm, entries, order, n, conflicts)
    {
      SourceRows(entries, bySource, order, n);
      var c := SourceConflictOf(norm, entries, order[n], bySource[order[n]]);
      SourceReportNext(norm, entries, order, n, conflicts, c);
      conflicts := if c.Some? then conflicts + [c.value] else conflicts;
    }
    forall i | 0 <= i < |entries|
      ensures entries[i].sourceKey in order
    {
      SourceListed(entries, bySource, order, i);
    }
  }

  lemma SourceRows(entries: seq<Entry>, bySource: map<string, seq<nat>>, order: seq<string>, n: nat)
    requires BySource(entries, |entries|, bySource, order) && n < |order|
    ensures order[n] in bySource && bySource[order[n]] == SourceScan(entries, order[n]) != []
  {
    assert entries[..|entries|] == entries;
    assert order[n] in order;
    assert ListOf(bySource, order[n]) == SourceScan(entries, order[n]);
  }

  lemma SourceListed(entries: seq<Entry>, bySource: map<string, seq<nat>>, order: seq<string>, i: nat)
    requires BySource(entries, |entries|, bySource, order) && i < |entries|
    ensures entries[i].sourceKey in order
  {
    assert entries[..|entries|] == entries;
    SourceScanHas(entries, i);
    assert ListOf(bySource, entries[i].sourceKey) != [];
  }

  // ---------------------------------------------------------------------------------------
  // The two detectors agree

  /** A reported key is a runtime conflict over the rows it lists. */
  lemma ReportedIsRuntimeConflict(norm: Norm, idx: Index, exact: seq<ParseConflict>, keys: seq<string>, k: nat)
    requires ExactReport(norm, idx.entries, exact, keys) && k < |exact| && IndexedKey(norm, idx, keys[k])
    ensures var rows := Scan(norm, idx.entries, keys[k]);
            var conflict := LookupConflict(norm, idx, exact[k].key);
            conflict.Some? && conflict.value.entries == ConflictEntries(idx.entries, rows) &&
            exact[k].ids == IDs(idx.entries, rows)
  {
    assert ReportsKey(norm, idx.entries, exact[k], keys[k]);
    assert keys[k] in keys;
  }

  /** A runtime conflict is reported with exactly its rows, or lies within a reported source key. */
  lemma RuntimeConflictIsReported(norm: Norm, idx: Index, exact: seq<ParseConflict>, keys: seq<string>,
                                  source: seq<ParseConflict>, order: seq<string>, message: string)
    requires ExactReport(norm, idx.entries, exact, keys) && SourceReport(norm, idx.entries, order, |order|, source)
    requires forall i :: 0 <= i < |idx.entries| ==> idx.entries[i].sourceKey in order
    requires IndexedKey(norm, idx, norm.lookup(message)) && LookupConflict(norm, idx, message).Some?
    ensures var rows := Scan(norm, idx.entries, norm.lookup(message));
            LookupConflict(norm, idx, message).value.entries == ConflictEntries(idx.entries, rows) &&
            ((exists k :: 0 <= k < |exact| && norm.lookup(exact[k].key) == norm.lookup(message) && exact[k].ids == IDs(idx.entries, rows)) ||
             (exists c :: c in source && forall k :: 0 <= k < |rows| ==>
                idx.entries[rows[k]].sourceKey == c.key && idx.entries[rows[k]].id in c.ids))
  {
    var key := norm.lookup(message);
    var rows := Scan(norm, idx.entries, key);
    if Reportable(norm, idx.entries, key) {
      assert key in keys;
      var k :| 0 <= k < |keys| && keys[k] == key;
      assert ReportsKey(norm, idx.entries, exact[k], keys[k]);
      assert exact[k].ids == IDs(idx.entries, rows);
    } else {
      SharedRowsAreReported(norm, idx.entries, rows, source, order);
    }
  }

  lemma SharedRowsAreReported(norm: Norm, entries: seq<Entry>, rows: seq<nat>, source: seq<ParseConflict>, order: seq<string>)
    requires (forall k :: 0 <= k < |rows| ==> rows[k] < |entries|) && !SameAnswers(norm, entries, rows) && ShareSource(entries, rows)
    requires SourceReport(norm, entries, order, |order|, source)
    requires forall i :: 0 <= i < |entries| ==> entries[i].sourceKey in order
    ensures exists c :: c in source && forall k :: 0 <= k < |rows| ==>
              entries[rows[k]].sourceKey == c.key && entries[rows[k]].id in c.ids
  {
    var key := entries[rows[0]].sourceKey;
    var all := SourceScan(entries, key);
    forall k | 0 <= k < |rows|
      ensures rows[k] in all
    {
      SourceScanHas(entries, rows[k]);
    }
    var j :| 0 <= j < |order| && order[j] == key;
    if SameAnswers(norm, entries, all) {
      RowsWithinScan(norm, entries, rows, all);
      assert false;
    }
    var c :| c in source && c.key == order[j];
    assert ReportsSource(norm, entries, c);
    forall k | 0 <= k < |rows|
      ensures entries[rows[k]].id in c.ids
    {
      var m :| 0 <= m < |all| && all[m] == rows[k];
      assert c.ids[m] == entries[rows[k]].id;
    }
  }

  lemma RowsWithinScan(norm: Norm, entries: seq<Entry>, rows: seq<nat>, all: seq<nat>)
    requires (forall k :: 0 <= k < |all| ==> all[k] < |entries|) && forall k :: 0 <= k < |rows| ==> rows[k] in all
    requires SameAnswers(norm, entries, all)
    ensures SameAnswers(norm, entries, rows)
  {
  }

  // ---------------------------------------------------------------------------------------
  // Candidate ids

  function Base(e: Entry): string {
    e.sourceKey + "\0" + e.keyword
  }

  function Bases(entries: seq<Entry>): seq<string> {
    seq(|entries|, k requires 0 <= k < |entries| => Base(entries[k]))
  }

  function RowMark(row: nat): string {
    "\0row:" + Decimal(row)
  }

  predicate Repeated(bases: seq<string>, i: nat)
    requires i < |bases|
  {
    exists j :: 0 <= j < |bases| && j != i && bases[j] == bases[i]
  }

  /** The text whose digest becomes the id: repeated rows are told apart by their row numbers. */
  function IDText(entries: seq<Entry>, i: nat): string
    requires i < |entries|
  {
    Base(entries[i]) + if Repeated(Bases(entries), i) then RowMark(entries[i].row) else ""
  }

  lemma MultiplicityOf(bases: seq<string>, i: nat)
    requires i < |bases|
    ensures multiset(bases)[bases[i]] > 1 <==> Repeated(bases, i)
  {
    var rest := bases[..i] + bases[i + 1..];
    assert bases == bases[..i] + [bases[i]] + bases[i + 1..];
    assert multiset(bases) == multiset(rest) + multiset{bases[i]};
    if Repeated(bases, i) {
      var j :| 0 <= j < |bases| && j != i && bases[j] == bases[i];
      assert rest[if j < i then j else j - 1] == bases[i];
      assert bases[i] in rest;
    }
    if bases[i] in rest {
      var k :| 0 <= k < |rest| && rest[k] == bases[i];
      assert bases[if k < i then k else k + 1] == bases[i];
    }
  }

  method CountBases(entries: seq<Entry>) returns (counts: map<string, nat>)
    ensures forall i :: 0 <= i < |entries| ==> Base(entries[i]) in counts
    ensures forall i :: 0 <= i < |entries| ==> (counts[Base(entries[i])] > 1 <==> Repeated(Bases(entries), i))
  {
    ghost var bases := Bases(entries);
    counts := map[];
    for i := 0 to |entries|
      invariant forall base :: multiset(bases[..i])[base] == if base in counts then counts[base] else 0
    {
      var base := Base(entries[i]);
      assert bases[..i + 1] == bases[..i] + [base];
      counts := counts[base := (if base in counts then counts[base] else 0) + 1];
    }
    assert bases[..|entries|] == bases;
    forall i | 0 <= i < |entries|
      ensures Base(entries[i]) in counts && (counts[Base(entries[i])] > 1 <==> Repeated(bases, i))
    {
      assert bases[i] in multiset(bases);
      MultiplicityOf(bases, i);
    }
  }

  method AssignCandidateIDs(entries: array<Entry>, digest: string -> string)
    modifies entries
    ensures forall i :: 0 <= i < entries.Length ==>
      entries[i] == old(entries[i]).(id := digest(IDText(old(entries[..]), i)))
  {
    ghost var was := entries[..];
    var counts := CountBases(entries[..]);
    for i := 0 to entries.Length
      invariant forall k :: 0 <= k < i ==> entries[k] == was[k].(id := digest(IDText(was, k)))
      invariant forall k :: i <= k < entries.Length ==> entries[k] == was[k]
    {
      var value := Base(entries[i]);
      if counts[value] > 1 {
        value := value + RowMark(entries[i].row);
      } else {
        assert value + "" == value;
      }
      entries[i] := entries[i].(id := digest(value));
    }
  }

  predicate DistinctRows(entries: seq<Entry>) {
    forall i, j :: 0 <= i < j < |entries| ==> entries[i].row != entries[j].row
  }

  predicate DistinctIDTexts(entries: seq<Entry>) {
    forall i, j :: 0 <= i < j < |entries| ==> IDText(entries, i) != IDText(entries, j)
  }

  /** A row whose key and keyword alone read like those of a repeated row with its mark. */
  predicate Imitates(entries: seq<Entry>, i: nat, j: nat)
    requires i < |entries| && j < |entries|
  {
    !Repeated(Bases(entries), i) && Repeated(Bases(entries), j) && Base(entries[i]) == Base(entries[j]) + RowMark(entries[j].row)
  }

  lemma LastNul(a: string, x: string)
    requires '\0' !in x
    ensures var s := a + "\0" + x; s[|a|] == '\0' && forall k :: |a| < k < |s| ==> s[k] != '\0'
  {
    var s := a + "\0" + x;
    forall k | |a| < k < |s|
      ensures s[k] != '\0'
    {
      assert s[k] == x[k - |a| - 1];
    }
  }

  lemma NoNulAfter(a: string, b: string, x: string, y: string)
    requires a + "\0" + x == b + "\0" + y && '\0' !in x && '\0' !in y
    ensures a == b && x == y
  {
    LastNul(a, x);
    LastNul(b, y);
    assert |a| == |b|;
    assert a == (a + "\0" + x)[..|a|] && b == (b + "\0" + y)[..|b|];
    assert x == (a + "\0" + x)[|a| + 1..] && y == (b + "\0" + y)[|b| + 1..];
  }

  lemma MarkHasOneNul(a: string, row: nat)
    ensures var mark := "row:" + Decimal(row); '\0' !in mark && a + RowMark(row) == a + "\0" + mark
  {
    var mark := "row:" + Decimal(row);
    forall k | 0 <= k < |mark|
      ensures mark[k] != '\0'
    {
      assert k >= 4 ==> mark[k] == Decimal(row)[k - 4];
    }
  }

  lemma MarksDiffer(a: string, b: string, m: nat, n: nat)
    requires a + RowMark(m) == b + RowMark(n)
    ensures m == n
  {
    var x, y := "row:" + Decimal(m), "row:" + Decimal(n);
    MarkHasOneNul(a, m);
    MarkHasOneNul(b, n);
    NoNulAfter(a, b, x, y);
    assert x[4..] == Decimal(m) && y[4..] == Decimal(n);
    DecimalRoundTrip(m);
    DecimalRoundTrip(n);
  }

  /** For rows with distinct numbers the digested texts are distinct exactly when no row imitates another. */
  lemma IDTextsDistinctIff(entries: seq<Entry>)
    requires DistinctRows(entries)
    ensures DistinctIDTexts(entries) <==> forall i, j :: 0 <= i < |entries| && 0 <= j < |entries| ==> !Imitates(entries, i, j)
  {
    var bases := Bases(entries);
    if i, j :| 0 <= i < |entries| && 0 <= j < |entries| && Imitates(entries, i, j) {
      assert IDText(entries, i) == IDText(entries, j);
      assert i != j;
    }
    if i, j :| 0 <= i < j < |entries| && IDText(entries, i) == IDText(entries, j) {
      SameTextImitates(entries, i, j);
    }
  }

  lemma SameTextImitates(entries: seq<Entry>, i: nat, j: nat)
    requires DistinctRows(entries) && i < j < |entries| && IDText(entries, i) == IDText(entries, j)
    ensures Imitates(entries, i, j) || Imitates(entries, j, i)
  {
    var bases := Bases(entries);
    assert bases[i] == Base(entries[i]) && bases[j] == Base(entries[j]);
    assert bases[i] + "" == bases[i] && bases[j] + "" == bases[j];
    if Repeated(bases, i) && Repeated(bases, j) {
      MarksDiffer(bases[i], bases[j], entries[i].row, entries[j].row);
    }
  }

  lemma CleanRowsDoNotImitate(e: Entry, f: Entry)
    requires '\0' !in e.keyword && '\0' !in e.sourceKey
    ensures Base(e) != Base(f) + RowMark(f.row)
  {
    assert Base(f)[|f.sourceKey|] == '\0';
    if Base(e) == Base(f) + RowMark(f.row) {
      MarkHasOneNul(Base(f), f.row);
      NoNulAfter(e.sourceKey, Base(f), e.keyword, "row:" + Decimal(f.row));
    }
  }

  /** Without NUL in keywords the ids are distinct, for a digest without collisions on these texts. */
  lemma KeywordsWithoutNulGiveDistinctIDs(entries: seq<Entry>, named: seq<Entry>, digest: string -> string)
    requires DistinctRows(entries)
    requires forall i :: 0 <= i < |entries| ==> '\0' !in entries[i].keyword && '\0' !in entries[i].sourceKey
    requires forall i, j :: 0 <= i < j < |entries| && digest(IDText(entries, i)) == digest(IDText(entries, j)) ==>
      IDText(entries, i) == IDText(entries, j)
    requires |named| == |entries|
    requires forall i :: 0 <= i < |entries| ==> named[i] == entries[i].(id := digest(IDText(entries, i)))
    ensures DistinctIDs(named)
  {
    forall i, j | 0 <= i < |entries| && 0 <= j < |entries|
      ensures !Imitates(entries, i, j)
    {
      if Imitates(entries, i, j) {
        CleanRowsDoNotImitate(entries[i], entries[j]);
      }
    }
    IDTextsDistinctIff(entries);
  }

  // Two rows with the same source key and keyword, and one that reads like the first with its mark.
  const TWIN := Entry("", 3, "x", "y", [], "", true, true)
  const IMITATED_ROWS := [TWIN, TWIN.(row := 4), TWIN.(row := 5, keyword := "y\0row:3")]

  /** A keyword with NUL collides with a repeated row. */
  lemma NulKeywordExample()
    ensures DistinctRows(IMITATED_ROWS) && IDText(IMITATED_ROWS, 0) == IDText(IMITATED_ROWS, 2)
    ensures !DistinctIDTexts(IMITATED_ROWS)
  {
    var entries := IMITATED_ROWS;
    assert Decimal(3) == "3";
    assert Bases(entries)[0] == Bases(entries)[1];
    assert Base(entries[2]) == Base(entries[0]) + RowMark(3);
    assert Bases(entries)[2] != Bases(entries)[0];
    assert Bases(entries)[2] != Bases(entries)[1];
    assert Imitates(entries, 2, 0);
    assert Base(entries[2]) + "" == Base(entries[2]);
    IDTextsDistinctIff(entries);
  }
}
