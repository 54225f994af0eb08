/** The aggregation stages of `crawlSite` in services/crawler/pageCrawler.js:
    analysing the targets in batches of five, grouping result pages by title,
    appending a `duplicate_title` issue to every page of a shared title, the
    per-type issue summary and the site-wide health score, and `crawlSite`
    itself. */
module Crawl {
  import opened Wrappers
  import opened Strings
  import opened Numeric
  import opened Issues
  import opened Sorting
  import opened PageCrawler

  /** The outcome of fetching each URL (the fetch itself is not modelled). */
  type Fetcher = string -> FetchOutcome

  /** `analyzePage` as a function of the URL alone. */
  type Analyzer = string -> PageResult

  function Analysis(fetch: Fetcher): Analyzer {
    u => AnalyzePage(u, fetch(u))
  }

  // -------------------------------------------------------------- batches

  /** The slices `pages.slice(i, i + BATCH_SIZE)` for `i = 0, 5, 10, ...`. */
  function Batches(pages: seq<string>): seq<seq<string>>
    decreases |pages|
  {
    if pages == [] then []
    else if |pages| <= BatchSize then [pages]
    else [pages[..BatchSize]] + Batches(pages[BatchSize..])
  }

  function Flatten(bs: seq<seq<string>>): seq<string> {
    if bs == [] then [] else bs[0] + Flatten(bs[1..])
  }

  /** The batches are consecutive, cover the targets exactly once and in
      order, hold one to five targets each, and all but the last hold five. */
  lemma {:induction false} BatchesFacts(pages: seq<string>)
    ensures var bs := Batches(pages);
      Flatten(bs) == pages
      && |bs| == (|pages| + BatchSize - 1) / BatchSize
      && (forall b :: 0 <= b < |bs| ==> 1 <= |bs[b]| <= BatchSize)
      && (forall b :: 0 <= b < |bs| - 1 ==> |bs[b]| == BatchSize)
    decreases |pages|
  {
    if |pages| > BatchSize {
      var rest := pages[BatchSize..];
      BatchesFacts(rest);
      var bs := Batches(pages);
      assert bs[1..] == Batches(rest);
      assert pages == pages[..BatchSize] + rest;
    }
  }

  /** `Promise.allSettled(batch.map(analyzePage))`. `analyzePage` catches
      every error itself, so each promise settles as fulfilled. */
  function SettleBatch(batch: seq<string>, analyze: Analyzer): seq<Option<PageResult>> {
    seq(|batch|, k requires 0 <= k < |batch| => Some(analyze(batch[k])))
  }

  /** `results` holds the analyses of the first `|results|` targets. */
  predicate AnalysedPrefix(results: seq<PageResult>, pages: seq<string>, analyze: Analyzer) {
    |results| <= |pages| && forall k :: 0 <= k < |results| ==> results[k] == analyze(pages[k])
  }

  lemma {:induction false} BatchesStep(pages: seq<string>, i: nat)
    requires i < |pages|
    ensures Batches(pages[i..]) == [pages[i..Min(i + BatchSize, |pages|)]] + Batches(pages[Min(i + BatchSize, |pages|)..])
  {
    var hi := Min(i + BatchSize, |pages|);
    if |pages[i..]| > BatchSize {
      assert pages[i..][..BatchSize] == pages[i..hi];
      assert pages[i..][BatchSize..] == pages[hi..];
    } else {
      assert pages[i..] == pages[i..hi];
      assert pages[hi..] == [];
    }
  }

  lemma {:induction false} SettledAnalysis(results: seq<PageResult>, pages: seq<string>, analyze: Analyzer, i: nat, hi: nat, j: nat)
    requires AnalysedPrefix(results, pages, analyze) && |results| == i + j && i <= hi <= |pages| && j < hi - i
    ensures SettleBatch(pages[i..hi], analyze)[j].Some?
    ensures AnalysedPrefix(results + [SettleBatch(pages[i..hi], analyze)[j].value], pages, analyze)
  {
    assert pages[i..hi][j] == pages[i + j];
  }

  /** The batch loop of `crawlSite`: the results are the analyses of the
      targets, one per target and in target order, and the batches run are
      exactly `Batches(pages)`. */
  method AnalyzeInBatches(pages: seq<string>, analyze: Analyzer) returns (results: seq<PageResult>, ghost ran: seq<seq<string>>)
    ensures |results| == |pages|
    ensures forall k :: 0 <= k < |pages| ==> results[k] == analyze(pages[k])
    ensures ran == Batches(pages)
  {
    results := [];
    ran := [];
    var i := 0;
    while i < |pages|
      invariant |results| == Min(i, |pages|)
      invariant AnalysedPrefix(results, pages, analyze)
      invariant ran + Batches(pages[|results|..]) == Batches(pages)
      invariant i < |pages| ==> i == |results|
      decreases |pages| - i
    {
      var hi := Min(i + BatchSize, |pages|);
      var batch := pages[i..hi];
      BatchesStep(pages, i);
      var settled := SettleBatch(batch, analyze);
      var j := 0;
      while j < |settled|
        invariant 0 <= j <= |settled|
        invariant |results| == i + j
        invariant AnalysedPrefix(results, pages, analyze)
      {
        SettledAnalysis(results, pages, analyze, i, hi, j);
        if settled[j].Some? {
          results := results + [settled[j].value];
        }
        j := j + 1;
      }
      ran := ran + [batch];
      i := i + BatchSize;
    }
  }

  /** Every target's analysis, in target order. */
  function AnalyzeAll(pages: seq<string>, analyze: Analyzer): seq<PageResult> {
    seq(|pages|, k requires 0 <= k < |pages| => analyze(pages[k]))
  }

  // ------------------------------------------------------ duplicate titles

  /** One entry of `titleMap` and of `duplicateTitles`. */
  datatype TitleGroup = TitleGroup(title: string, pages: seq<string>)

  /** Where key `x` sits in an insertion-ordered list of entries (its
      length if absent): the lookup `titleMap[p.title]` and
      `grouped[issue.type]` make in their object. */
  function FindKey<T, K(==)>(entries: seq<T>, key: T -> K, x: K): (k: nat)
    ensures k <= |entries|
    ensures k < |entries| ==> key(entries[k]) == x
    ensures forall j :: 0 <= j < k ==> key(entries[j]) != x
  {
    if entries == [] || key(entries[0]) == x then 0
    else
      var k := FindKey(entries[1..], key, x);
      assert forall j :: 1 <= j < k + 1 ==> entries[j] == entries[1..][j - 1];
      k + 1
  }

  /** A lookup in a longer list finds what the shorter one had, else the
      new last entry, else nothing. */
  lemma {:induction false} FindKeySnoc<T, K>(s: seq<T>, x: T, key: T -> K, k: K)
    ensures FindKey(s + [x], key, k) ==
      (if FindKey(s, key, k) < |s| then FindKey(s, key, k) else if key(x) == k then |s| else |s| + 1)
  {
    if s != [] {
      assert (s + [x])[1..] == s[1..] + [x];
      FindKeySnoc(s[1..], x, key, k);
    }
  }

  function TitleOfGroup(g: TitleGroup): string {
    g.title
  }

  /** Where `title` sits in the title map. */
  function FindTitle(groups: seq<TitleGroup>, title: string): nat {
    FindKey(groups, TitleOfGroup, title)
  }

  /** One round of the title-map loop. */
  function AddTitle(groups: seq<TitleGroup>, p: PageResult): seq<TitleGroup> {
    var t := Title(p);
    if t == "" then groups
    else
      var k := FindTitle(groups, t);
      if k == |groups| then groups + [TitleGroup(t, [p.url])]
      else groups[k := TitleGroup(t, groups[k].pages + [p.url])]
  }

  /** `titleMap` after the loop over `results`. */
  function TitleMap(results: seq<PageResult>): seq<TitleGroup> {
    if results == [] then [] else AddTitle(TitleMap(results[..|results| - 1]), results[|results| - 1])
  }

  /** The URLs of the results that carry `title`, in result order. */
  function UrlsWithTitle(results: seq<PageResult>, title: string): seq<string> {
    if results == [] then []
    else
      var p := results[|results| - 1];
      UrlsWithTitle(results[..|results| - 1], title) + (if Title(p) == title then [p.url] else [])
  }

  /** `e` lists exactly the results carrying its non-empty title. */
  predicate TitleEntry(results: seq<PageResult>, e: TitleGroup) {
    e.title != "" && e.pages == UrlsWithTitle(results, e.title)
  }

  predicate DistinctTitles(groups: seq<TitleGroup>) {
    forall i, j :: 0 <= i < j < |groups| ==> groups[i].title != groups[j].title
  }

  /** `groups` holds one entry per non-empty title of `results`, listing the
      URLs of exactly the results with that title. */
  ghost predicate GroupsTitlesOf(results: seq<PageResult>, groups: seq<TitleGroup>) {
    DistinctTitles(groups)
    && (forall i :: 0 <= i < |groups| ==> TitleEntry(results, groups[i]))
    && (forall t :: t != "" && UrlsWithTitle(results, t) != [] ==> exists i :: 0 <= i < |groups| && groups[i].title == t)
  }

  lemma {:induction false} UrlsWithTitleSnoc(prev: seq<PageResult>, p: PageResult, x: string)
    ensures UrlsWithTitle(prev + [p], x) == UrlsWithTitle(prev, x) + (if Title(p) == x then [p.url] else [])
  {
    assert (prev + [p])[..|prev|] == prev;
  }

  lemma {:induction false} TitleEntrySnoc(prev: seq<PageResult>, p: PageResult, e: TitleGroup)
    requires TitleEntry(prev, e) && e.title != Title(p)
    ensures TitleEntry(prev + [p], e)
  {
    UrlsWithTitleSnoc(prev, p, e.title);
  }

  /** A page without a title leaves the title map alone. */
  lemma {:induction false} AddUntitled(prev: seq<PageResult>, g0: seq<TitleGroup>, p: PageResult)
    requires GroupsTitlesOf(prev, g0) && Title(p) == ""
    ensures GroupsTitlesOf(prev + [p], g0)
  {
    forall i | 0 <= i < |g0|
      ensures TitleEntry(prev + [p], g0[i])
    {
      TitleEntrySnoc(prev, p, g0[i]);
    }
    forall x | x != "" && UrlsWithTitle(prev + [p], x) != []
      ensures exists i :: 0 <= i < |g0| && g0[i].title == x
    {
      UrlsWithTitleSnoc(prev, p, x);
    }
  }

  /** A new entry at the end keeps every entry exact. */
  lemma {:induction false} AddNewTitleEntries(prev: seq<PageResult>, g0: seq<TitleGroup>, p: PageResult)
    requires GroupsTitlesOf(prev, g0) && Title(p) != "" && FindTitle(g0, Title(p)) == |g0|
    ensures var g := g0 + [TitleGroup(Title(p), [p.url])];
      forall i :: 0 <= i < |g| ==> TitleEntry(prev + [p], g[i])
  {
    var results, t := prev + [p], Title(p);
    var g := g0 + [TitleGroup(t, [p.url])];
    UrlsWithTitleSnoc(prev, p, t);
    assert UrlsWithTitle(prev, t) == [];
    forall i | 0 <= i < |g|
      ensures TitleEntry(results, g[i])
    {
      if i < |g0| {
        assert g[i] == g0[i];
        TitleEntrySnoc(prev, p, g0[i]);
      }
    }
  }

  /** A new entry at the end keeps every non-empty title listed. */
  lemma {:induction false} AddNewTitleCovers(prev: seq<PageResult>, g0: seq<TitleGroup>, p: PageResult)
    requires GroupsTitlesOf(prev, g0) && Title(p) != ""
    ensures var g := g0 + [TitleGroup(Title(p), [p.url])];
      forall x :: x != "" && UrlsWithTitle(prev + [p], x) != [] ==> exists i :: 0 <= i < |g| && g[i].title == x
  {
    var results, t := prev + [p], Title(p);
    var g := g0 + [TitleGroup(t, [p.url])];
    forall x | x != "" && UrlsWithTitle(results, x) != []
      ensures exists i :: 0 <= i < |g| && g[i].title == x
    {
      UrlsWithTitleSnoc(prev, p, x);
      if x == t {
        assert g[|g0|].title == x;
      } else {
        var i :| 0 <= i < |g0| && g0[i].title == x;
        assert g[i].title == x;
      }
    }
  }

  /** A page with a title not seen before opens a new entry at the end. */
  lemma AddNewTitle(prev: seq<PageResult>, g0: seq<TitleGroup>, p: PageResult)
    requires GroupsTitlesOf(prev, g0) && Title(p) != "" && FindTitle(g0, Title(p)) == |g0|
    ensures GroupsTitlesOf(prev + [p], g0 + [TitleGroup(Title(p), [p.url])])
  {
    AddNewTitleEntries(prev, g0, p);
    AddNewTitleCovers(prev, g0, p);
  }

  /** A page with a known title is appended to that title's entry. */
  lemma {:induction false} AddKnownTitle(prev: seq<PageResult>, g0: seq<TitleGroup>, p: PageResult, k: nat)
    requires GroupsTitlesOf(prev, g0) && Title(p) != "" && k < |g0| && g0[k].title == Title(p)
    ensures GroupsTitlesOf(prev + [p], g0[k := TitleGroup(Title(p), g0[k].pages + [p.url])])
  {
    var results, t := prev + [p], Title(p);
    var g := g0[k := TitleGroup(t, g0[k].pages + [p.url])];
    UrlsWithTitleSnoc(prev, p, t);
    forall i | 0 <= i < |g|
      ensures TitleEntry(results, g[i])
    {
      if i != k {
        assert g[i] == g0[i] && g0[i].title != t;
        TitleEntrySnoc(prev, p, g0[i]);
      }
    }
    forall x | x != "" && UrlsWithTitle(results, x) != []
      ensures exists i :: 0 <= i < |g| && g[i].title == x
    {
      UrlsWithTitleSnoc(prev, p, x);
      if x == t {
        assert g[k].title == x;
      } else {
        var i :| 0 <= i < |g0| && g0[i].title == x;
        assert g[i].title == x;
      }
    }
  }

  /** The title-map loop groups the results by non-empty title. */
  lemma {:induction false} TitleMapFacts(results: seq<PageResult>)
    ensures GroupsTitlesOf(results, TitleMap(results))
  {
    if results != [] {
      var n := |results| - 1;
      var prev, p := results[..n], results[n];
      assert results == prev + [p];
      TitleMapFacts(prev);
      var g0 := TitleMap(prev);
      var t := Title(p);
      if t == "" {
        AddUntitled(prev, g0, p);
      } else {
        var k := FindTitle(g0, t);
        if k == |g0| {
          AddNewTitle(prev, g0, p);
        } else {
          AddKnownTitle(prev, g0, p, k);
        }
      }
    }
  }

  /** Where the first result with title `t` sits (`|results|` if none). */
  function FirstSeen(results: seq<PageResult>, t: string): nat {
    FindKey(results, Title, t)
  }

  /** The insertion order of `titleMap`: where an entry's title first occurs. */
  function SeenRank(results: seq<PageResult>): TitleGroup -> int {
    (g: TitleGroup) => FirstSeen(results, g.title)
  }

  /** Every entry's title occurs among `results`. */
  predicate TitlesOccur(results: seq<PageResult>, groups: seq<TitleGroup>) {
    forall i :: 0 <= i < |groups| ==> FirstSeen(results, groups[i].title) < |results|
  }

  lemma {:induction false} FirstSeenFound(results: seq<PageResult>, t: string)
    ensures UrlsWithTitle(results, t) != [] <==> FirstSeen(results, t) < |results|
  {
    if results != [] {
      var n := |results| - 1;
      var prev, p := results[..n], results[n];
      assert results == prev + [p];
      FirstSeenFound(prev, t);
      UrlsWithTitleSnoc(prev, p, t);
      FindKeySnoc(prev, p, Title, t);
    }
  }

  /** One more result keeps the first occurrence of every title seen already. */
  lemma TitlesOccurSnoc(prev: seq<PageResult>, p: PageResult, groups: seq<TitleGroup>)
    requires TitlesOccur(prev, groups)
    ensures TitlesOccur(prev + [p], groups)
    ensures forall i :: 0 <= i < |groups| ==> FirstSeen(prev + [p], groups[i].title) == FirstSeen(prev, groups[i].title)
  {
    forall i | 0 <= i < |groups|
      ensures FirstSeen(prev + [p], groups[i].title) == FirstSeen(prev, groups[i].title)
    {
      FindKeySnoc(prev, p, Title, groups[i].title);
    }
  }

  /** A title not seen before first occurs at the new result. */
  lemma NewTitleSeenLast(prev: seq<PageResult>, g0: seq<TitleGroup>, p: PageResult)
    requires GroupsTitlesOf(prev, g0) && Title(p) != "" && FindTitle(g0, Title(p)) == |g0|
    ensures FirstSeen(prev + [p], Title(p)) == |prev|
  {
    var t := Title(p);
    forall i | 0 <= i < |g0|
      ensures g0[i].title != t
    {
      assert TitleOfGroup(g0[i]) != t;
    }
    FirstSeenFound(prev, t);
    FindKeySnoc(prev, p, Title, t);
  }

  /** One round of the title-map loop keeps the entries in first-seen order. */
  lemma TitleOrderStep(prev: seq<PageResult>, g0: seq<TitleGroup>, p: PageResult)
    requires GroupsTitlesOf(prev, g0) && TitlesOccur(prev, g0) && IncreasingBy(g0, SeenRank(prev))
    ensures TitlesOccur(prev + [p], AddTitle(g0, p)) && IncreasingBy(AddTitle(g0, p), SeenRank(prev + [p]))
  {
    var t := Title(p);
    TitlesOccurSnoc(prev, p, g0);
    if t != "" {
      if FindTitle(g0, t) == |g0| {
        NewTitleSeenLast(prev, g0, p);
        NewTitleInOrder(prev, g0, p);
      } else {
        var g := AddTitle(g0, p);
        forall i | 0 <= i < |g|
          ensures g[i].title == g0[i].title
        {
        }
      }
    }
  }

  /** A new title's entry goes last, and its title occurs last. */
  lemma NewTitleInOrder(prev: seq<PageResult>, g0: seq<TitleGroup>, p: PageResult)
    requires Title(p) != "" && FindTitle(g0, Title(p)) == |g0| && FirstSeen(prev + [p], Title(p)) == |prev|
    requires TitlesOccur(prev, g0) && IncreasingBy(g0, SeenRank(prev))
    requires forall i :: 0 <= i < |g0| ==> FirstSeen(prev + [p], g0[i].title) == FirstSeen(prev, g0[i].title)
    ensures TitlesOccur(prev + [p], AddTitle(g0, p)) && IncreasingBy(AddTitle(g0, p), SeenRank(prev + [p]))
  {
    var results := prev + [p];
    var g := AddTitle(g0, p);
    forall i | 0 <= i < |g|
      ensures FirstSeen(results, g[i].title) < |results|
      ensures i < |g0| ==> FirstSeen(results, g[i].title) < |prev|
    {
      if i < |g0| {
        assert g[i] == g0[i];
      }
    }
  }

  /** `titleMap` lists its titles in the order they first occur. */
  lemma {:induction false} TitleMapInOrder(results: seq<PageResult>)
    ensures TitlesOccur(results, TitleMap(results)) && IncreasingBy(TitleMap(results), SeenRank(results))
  {
    if results != [] {
      var n := |results| - 1;
      var prev, p := results[..n], results[n];
      assert results == prev + [p];
      TitleMapFacts(prev);
      TitleMapInOrder(prev);
      TitleOrderStep(prev, TitleMap(prev), p);
    }
  }

  /** The names every plain object inherits from `Object.prototype`. For such
      a title `titleMap[p.title]` is already truthy, so no array is made and
      `.push` is not a function. */
  const ObjectPrototypeNames: set<string> := {"constructor", "__defineGetter__", "__defineSetter__",
    "hasOwnProperty", "__lookupGetter__", "__lookupSetter__", "isPrototypeOf", "propertyIsEnumerable",
    "toString", "valueOf", "__proto__", "toLocaleString"}

  /** The message of the `TypeError` the push then throws. */
  const PushFailure := "titleMap[p.title].push is not a function"

  /** Some result carries an inherited name as its title, so the title-map
      loop throws. */
  predicate TitleMapThrows(results: seq<PageResult>) {
    exists k :: 0 <= k < |results| && Title(results[k]) in ObjectPrototypeNames
  }

  /** The title-map loop, with its `continue` for pages without a title; it
      throws at the first page whose title is an inherited name. */
  method GroupTitles(results: seq<PageResult>) returns (r: Result<seq<TitleGroup>, string>)
    ensures TitleMapThrows(results) ==> r == Err(PushFailure)
    ensures !TitleMapThrows(results) ==> r == Ok(TitleMap(results))
  {
    var groups := [];
    for n := 0 to |results|
      invariant groups == TitleMap(results[..n])
      invariant forall k :: 0 <= k < n ==> Title(results[k]) !in ObjectPrototypeNames
    {
      assert results[..n + 1][..n] == results[..n];
      var p := results[n];
      var t := Title(p);
      if t == "" {
        continue;
      }
      if t in ObjectPrototypeNames {
        return Err(PushFailure);
      }
      ghost var before := groups;
      var k := FindTitle(groups, t);
      if k == |groups| {
        groups := groups + [TitleGroup(t, [])];
        assert [] + [p.url] == [p.url];
      }
      groups := groups[k := TitleGroup(t, groups[k].pages + [p.url])];
      assert groups == AddTitle(before, p);
    }
    assert results[..|results|] == results;
    return Ok(groups);
  }

  /** A canonical array index: the decimal rendering of an integer below
      2^32 - 1, with no sign and no leading zero. */
  predicate IsArrayIndex(s: string) {
    AllDigits(s) && 0 <= DigitsValue(s) < 0xFFFF_FFFF && NatToString(DigitsValue(s)) == s
  }

  /** Different array indices have different values. */
  lemma ArrayIndexDistinct(a: string, b: string)
    requires a != b
    ensures IsArrayIndex(a) && IsArrayIndex(b) ==> DigitsValue(a) != DigitsValue(b)
  {
  }

  /** How `Object.entries` orders the own keys of a plain object: array
      indices first, by value; the other keys after them, in insertion order. */
  function EntryKey(g: TitleGroup): Key {
    if IsArrayIndex(g.title) then Key(0, DigitsValue(g.title)) else Key(1, 0)
  }

  /** `Object.entries(titleMap)`: a stable sort of the insertion-ordered
      entries by `EntryKey`. */
  function Entries(groups: seq<TitleGroup>): seq<TitleGroup> {
    SortBy(groups, EntryKey)
  }

  /** Where `Object.entries` lists an entry of the title map of `results`:
      an array index at its value, any other title from 2^32 on, at the
      place where it first occurs. */
  function EntryRank(results: seq<PageResult>): TitleGroup -> int {
    (g: TitleGroup) => if IsArrayIndex(g.title) then DigitsValue(g.title) else 0x1_0000_0000 + FirstSeen(results, g.title)
  }

  /** Issue types are plain keys of `grouped`: none is inherited and none
      is an array index, so its insertion order is its listing order. */
  lemma KindNamesArePlainKeys(k: IssueKind)
    ensures KindName(k) !in ObjectPrototypeNames && !IsArrayIndex(KindName(k))
  {
    assert !AllDigits(KindName(k)) by {
      assert !('0' <= KindName(k)[0] <= '9');
    }
  }

  /** A reordering of a title grouping is still one. */
  lemma {:induction false} GroupsPermuted(results: seq<PageResult>, g: seq<TitleGroup>, s: seq<TitleGroup>)
    requires GroupsTitlesOf(results, g) && multiset(s) == multiset(g)
    ensures GroupsTitlesOf(results, s)
  {
    assert DistinctBy(g, TitleOfGroup) by {
      forall i, j | 0 <= i < |g| && 0 <= j < |g| && i != j
        ensures TitleOfGroup(g[i]) != TitleOfGroup(g[j])
      {
        if i < j {
          assert g[i].title != g[j].title;
        } else {
          assert g[j].title != g[i].title;
        }
      }
    }
    PermutationKeepsDistinctBy(g, s, TitleOfGroup);
    forall i, j | 0 <= i < j < |s|
      ensures s[i].title != s[j].title
    {
      assert TitleOfGroup(s[i]) != TitleOfGroup(s[j]);
    }
    forall i | 0 <= i < |s|
      ensures TitleEntry(results, s[i])
    {
      assert s[i] in multiset(g);
    }
    forall t | t != "" && UrlsWithTitle(results, t) != []
      ensures exists i :: 0 <= i < |s| && s[i].title == t
    {
      var a :| 0 <= a < |g| && g[a].title == t;
      assert g[a] in multiset(s);
    }
  }

  /** In insertion order, two entries sharing a key are other titles, the
      earlier one first seen earlier. */
  lemma TitleMapWithinKeys(results: seq<PageResult>)
    ensures IncreasingWithinKeys(TitleMap(results), EntryKey, EntryRank(results))
  {
    var g := TitleMap(results);
    TitleMapFacts(results);
    TitleMapInOrder(results);
    forall i, j | 0 <= i < j < |g| && EntryKey(g[i]) == EntryKey(g[j])
      ensures EntryRank(results)(g[i]) < EntryRank(results)(g[j])
    {
      ArrayIndexDistinct(g[i].title, g[j].title);
      assert SeenRank(results)(g[i]) < SeenRank(results)(g[j]);
    }
  }

  /** Sorted by key with ties in first-seen order, distinct titles are in
      rank order. */
  lemma SortedEntriesRanked(results: seq<PageResult>, s: seq<TitleGroup>)
    requires SortedBy(s, EntryKey) && IncreasingWithinKeys(s, EntryKey, EntryRank(results)) && DistinctTitles(s)
    ensures IncreasingBy(s, EntryRank(results))
  {
    forall i, j | 0 <= i < j < |s|
      ensures EntryRank(results)(s[i]) < EntryRank(results)(s[j])
    {
      assert KeyLe(EntryKey(s[i]), EntryKey(s[j]));
      ArrayIndexDistinct(s[i].title, s[j].title);
    }
  }

  /** `Object.entries(titleMap)` holds the same groups. */
  lemma EntriesGroupTitles(results: seq<PageResult>)
    ensures GroupsTitlesOf(results, Entries(TitleMap(results)))
  {
    var g := TitleMap(results);
    TitleMapFacts(results);
    SortByPermutes(g, EntryKey);
    GroupsPermuted(results, g, Entries(g));
  }

  /** `Object.entries(titleMap)` lists array indices first by value, then the
      other titles in first-seen order. */
  lemma EntriesInOrder(results: seq<PageResult>)
    ensures IncreasingBy(Entries(TitleMap(results)), EntryRank(results))
  {
    var g := TitleMap(results);
    var s := Entries(g);
    EntriesGroupTitles(results);
    TitleMapWithinKeys(results);
    SortByKeepsIncreasingWithinKeys(g, EntryKey, EntryRank(results));
    SortByIsSorted(g, EntryKey);
    SortedEntriesRanked(results, s);
  }

  /** `Object.entries(titleMap).filter(([, pages]) => pages.length > 1)`. */
  function SharedTitles(groups: seq<TitleGroup>): (r: seq<TitleGroup>)
    ensures forall g :: g in r ==> g in groups && |g.pages| > 1
    ensures forall g :: g in groups && |g.pages| > 1 ==> g in r
  {
    if groups == [] then []
    else (if |groups[0].pages| > 1 then [groups[0]] else []) + SharedTitles(groups[1..])
  }

  /** Filtering keeps the titles distinct. */
  lemma {:induction false} SharedTitlesDistinct(groups: seq<TitleGroup>)
    requires DistinctTitles(groups)
    ensures DistinctTitles(SharedTitles(groups))
  {
    if groups != [] {
      var rest := groups[1..];
      assert DistinctTitles(rest) by {
        forall i, j | 0 <= i < j < |rest|
          ensures rest[i].title != rest[j].title
        {
          assert rest[i] == groups[i + 1] && rest[j] == groups[j + 1];
        }
      }
      SharedTitlesDistinct(rest);
      var r := SharedTitles(rest);
      forall g | g in r
        ensures g.title != groups[0].title
      {
        var j :| 0 <= j < |rest| && rest[j] == g;
        assert groups[j + 1] == g;
      }
      if |groups[0].pages| > 1 {
        PrependDistinctTitle(groups[0], r);
      }
    }
  }

  /** A group whose title no group of `r` has can go in front of `r`. */
  lemma PrependDistinctTitle(x: TitleGroup, r: seq<TitleGroup>)
    requires DistinctTitles(r)
    requires forall g :: g in r ==> g.title != x.title
    ensures DistinctTitles([x] + r)
  {
    forall i, j | 0 <= i < j < |[x] + r|
      ensures ([x] + r)[i].title != ([x] + r)[j].title
    {
      assert ([x] + r)[j] == r[j - 1];
      if i == 0 {
        assert r[j - 1] in r;
      } else {
        assert ([x] + r)[i] == r[i - 1];
      }
    }
  }

  /** Filtering keeps the order of what it keeps. */
  lemma {:induction false} SharedTitlesKeepsOrder(groups: seq<TitleGroup>, f: TitleGroup -> int)
    requires IncreasingBy(groups, f)
    ensures IncreasingBy(SharedTitles(groups), f)
  {
    if groups != [] {
      var rest := groups[1..];
      assert IncreasingBy(rest, f) by {
        forall i, j | 0 <= i < j < |rest|
          ensures f(rest[i]) < f(rest[j])
        {
          assert rest[i] == groups[i + 1] && rest[j] == groups[j + 1];
        }
      }
      SharedTitlesKeepsOrder(rest, f);
      var r := SharedTitles(rest);
      if |groups[0].pages| > 1 {
        forall z | z in r
          ensures f(groups[0]) < f(z)
        {
          var m :| 0 <= m < |rest| && rest[m] == z;
          assert groups[m + 1] == z;
        }
        PrependIncreasing(groups[0], r, f);
      }
    }
  }

  /** `duplicateTitles` of a crawl whose results are `results`. */
  function DuplicateTitles(results: seq<PageResult>): seq<TitleGroup> {
    SharedTitles(Entries(TitleMap(results)))
  }

  /** The duplicates come in `Object.entries` order: titles that are array
      indices first, by value, then the other titles in first-seen order. */
  lemma DuplicateTitlesInOrder(results: seq<PageResult>)
    ensures IncreasingBy(DuplicateTitles(results), EntryRank(results))
  {
    EntriesInOrder(results);
    SharedTitlesKeepsOrder(Entries(TitleMap(results)), EntryRank(results));
  }

  /** A title has an entry among the duplicates exactly when it is non-empty
      and carried by more than one result. */
  lemma {:induction false} DuplicateTitleIff(results: seq<PageResult>, t: string)
    ensures var d := DuplicateTitles(results);
      (exists i :: 0 <= i < |d| && d[i].title == t) <==> t != "" && |UrlsWithTitle(results, t)| > 1
  {
    var g := Entries(TitleMap(results));
    var d := DuplicateTitles(results);
    EntriesGroupTitles(results);
    if t != "" && |UrlsWithTitle(results, t)| > 1 {
      var i :| 0 <= i < |g| && g[i].title == t;
      assert g[i] in d;
      var j :| 0 <= j < |d| && d[j] == g[i];
    }
    if exists i :: 0 <= i < |d| && d[i].title == t {
      var i :| 0 <= i < |d| && d[i].title == t;
      assert d[i] in g;
    }
  }

  lemma {:induction false} DuplicateTitlesFacts(results: seq<PageResult>)
    ensures var d := DuplicateTitles(results);
      DistinctTitles(d)
      && (forall i :: 0 <= i < |d| ==> d[i].title != "" && d[i].pages == UrlsWithTitle(results, d[i].title))
      && (forall t :: (exists i :: 0 <= i < |d| && d[i].title == t) <==> t != "" && |UrlsWithTitle(results, t)| > 1)
  {
    var g := Entries(TitleMap(results));
    var d := DuplicateTitles(results);
    EntriesGroupTitles(results);
    SharedTitlesDistinct(g);
    forall i | 0 <= i < |d|
      ensures TitleEntry(results, d[i])
    {
      assert d[i] in g;
    }
    forall t
      ensures (exists i :: 0 <= i < |d| && d[i].title == t) <==> t != "" && |UrlsWithTitle(results, t)| > 1
    {
      DuplicateTitleIff(results, t);
    }
  }

  predicate DistinctUrls(results: seq<PageResult>) {
    forall i, j :: 0 <= i < j < |results| ==> results[i].url != results[j].url
  }

  lemma {:induction false} UrlsWithTitleFrom(results: seq<PageResult>, t: string)
    ensures forall u :: u in UrlsWithTitle(results, t) ==> exists i :: 0 <= i < |results| && results[i].url == u
  {
    if results != [] {
      var n := |results| - 1;
      UrlsWithTitleFrom(results[..n], t);
      forall u | u in UrlsWithTitle(results, t)
        ensures exists i :: 0 <= i < |results| && results[i].url == u
      {
        if u in UrlsWithTitle(results[..n], t) {
          var i :| 0 <= i < n && results[..n][i].url == u;
          assert results[i].url == u;
        } else {
          assert results[n].url == u;
        }
      }
    }
  }

  /** With distinct URLs, a result's URL is listed under a title exactly
      when the result carries that title. */
  lemma {:induction false} UrlInTitleGroup(results: seq<PageResult>, k: nat, t: string)
    requires DistinctUrls(results) && k < |results|
    ensures results[k].url in UrlsWithTitle(results, t) <==> Title(results[k]) == t
  {
    var n := |results| - 1;
    var prev := results[..n];
    assert DistinctUrls(prev);
    if k < n {
      assert prev[k] == results[k];
      UrlInTitleGroup(prev, k, t);
      assert results[k].url != results[n].url;
    } else {
      UrlsWithTitleFrom(prev, t);
      forall i | 0 <= i < n
        ensures prev[i].url != results[k].url
      {
        assert prev[i] == results[i];
      }
    }
  }

  /** The issue appended to a page of a shared title; the message quotes
      `title.slice(0, 50)`: the longest prefix of the title that fits in 50
      UTF-16 code units, the whole title when it fits. */
  function DuplicateIssue(p: PageResult): (i: Issue)
    ensures i.kind == DuplicateTitle && i.severity == Critical
    ensures exists q :: Utf16Cut(Title(p), q, 50) && i.message == "Duplicate title: \"" + q + "\""
  {
    var q := Utf16Prefix(Title(p), 50);
    Issue(DuplicateTitle, Critical, "Duplicate title: \"" + q + "\"")
  }

  function WithIssue(p: PageResult, i: Issue): PageResult {
    p.(issues := p.issues + [i])
  }

  /** One pass of the inner injection loop over all results. */
  function InjectGroup(results: seq<PageResult>, dup: TitleGroup): seq<PageResult> {
    seq(|results|, k requires 0 <= k < |results| =>
      if results[k].url in dup.pages then WithIssue(results[k], DuplicateIssue(results[k])) else results[k])
  }

  /** The pages after the injection loop has run over `dups`. */
  function InjectAll(results: seq<PageResult>, dups: seq<TitleGroup>): (r: seq<PageResult>)
    ensures |r| == |results|
  {
    if dups == [] then results else InjectGroup(InjectAll(results, dups[..|dups| - 1]), dups[|dups| - 1])
  }

  /** The inner injection loop for one group. */
  method InjectGroupInPlace(pages: seq<PageResult>, dup: TitleGroup) returns (r: seq<PageResult>)
    ensures r == InjectGroup(pages, dup)
  {
    r := pages;
    for j := 0 to |r|
      invariant |r| == |pages|
      invariant forall k :: 0 <= k < j ==> r[k] == InjectGroup(pages, dup)[k]
      invariant forall k :: j <= k < |r| ==> r[k] == pages[k]
    {
      if r[j].url in dup.pages {
        r := r[j := WithIssue(r[j], DuplicateIssue(r[j]))];
      }
    }
  }

  /** The injection loops, appending to the pages in place. */
  method InjectDuplicateIssues(results: seq<PageResult>, dups: seq<TitleGroup>) returns (pages: seq<PageResult>)
    ensures pages == InjectAll(results, dups)
  {
    pages := results;
    for d := 0 to |dups|
      invariant pages == InjectAll(results, dups[..d])
    {
      assert dups[..d + 1][..d] == dups[..d];
      pages := InjectGroupInPlace(pages, dups[d]);
    }
    assert dups[..|dups|] == dups;
  }

  predicate InSomeGroup(url: string, dups: seq<TitleGroup>) {
    exists i :: 0 <= i < |dups| && url in dups[i].pages
  }

  predicate AtMostOneGroup(url: string, dups: seq<TitleGroup>) {
    forall i, j :: 0 <= i < j < |dups| ==> !(url in dups[i].pages && url in dups[j].pages)
  }

  /** A page listed in at most one group gets the issue once if listed and
      is left alone otherwise. */
  lemma {:induction false} InjectAllShape(results: seq<PageResult>, dups: seq<TitleGroup>)
    requires forall k :: 0 <= k < |results| ==> AtMostOneGroup(results[k].url, dups)
    ensures forall k :: 0 <= k < |results| ==>
      InjectAll(results, dups)[k] == (if InSomeGroup(results[k].url, dups) then WithIssue(results[k], DuplicateIssue(results[k])) else results[k])
  {
    if dups != [] {
      var n := |dups| - 1;
      var d0 := dups[..n];
      forall k | 0 <= k < |results|
        ensures AtMostOneGroup(results[k].url, d0)
      {
        forall i, j | 0 <= i < j < |d0|
          ensures !(results[k].url in d0[i].pages && results[k].url in d0[j].pages)
        {
          assert d0[i] == dups[i] && d0[j] == dups[j];
        }
      }
      InjectAllShape(results, d0);
      var mid := InjectAll(results, d0);
      forall k | 0 <= k < |results|
        ensures InjectAll(results, dups)[k] ==
          if InSomeGroup(results[k].url, dups) then WithIssue(results[k], DuplicateIssue(results[k])) else results[k]
      {
        var u := results[k].url;
        assert mid[k].url == u && Title(mid[k]) == Title(results[k]);
        if u in dups[n].pages {
          forall i | 0 <= i < |d0|
            ensures u !in d0[i].pages
          {
            assert d0[i] == dups[i];
          }
        } else if InSomeGroup(u, dups) {
          var i :| 0 <= i < |dups| && u in dups[i].pages;
          assert d0[i] == dups[i];
        } else {
          forall i | 0 <= i < |d0|
            ensures u !in d0[i].pages
          {
            assert d0[i] == dups[i];
          }
        }
      }
    }
  }

  /** A result whose non-empty title is shared by another result. */
  predicate HasSharedTitle(results: seq<PageResult>, k: int)
    requires 0 <= k < |results|
  {
    Title(results[k]) != "" && |UrlsWithTitle(results, Title(results[k]))| > 1
  }

  /** With distinct URLs, a result is in some duplicate group exactly when it
      has a shared title, and in no more than one. */
  lemma {:induction false} DuplicateGroupOfPage(results: seq<PageResult>, k: nat)
    requires DistinctUrls(results) && k < |results|
    ensures AtMostOneGroup(results[k].url, DuplicateTitles(results))
    ensures InSomeGroup(results[k].url, DuplicateTitles(results)) <==> HasSharedTitle(results, k)
  {
    var dups := DuplicateTitles(results);
    DuplicateTitlesFacts(results);
    var u := results[k].url;
    forall i | 0 <= i < |dups|
      ensures u in dups[i].pages <==> Title(results[k]) == dups[i].title
    {
      UrlInTitleGroup(results, k, dups[i].title);
    }
    if HasSharedTitle(results, k) {
      var i :| 0 <= i < |dups| && dups[i].title == Title(results[k]);
      assert u in dups[i].pages;
    }
  }

  /** Over results with distinct URLs (as the crawl targets are), every page
      of a shared title gets exactly one `duplicate_title` issue appended and
      every other page is unchanged. */
  lemma {:induction false} DuplicateInjectionFacts(results: seq<PageResult>)
    requires DistinctUrls(results)
    ensures var pages := InjectAll(results, DuplicateTitles(results));
      |pages| == |results|
      && (forall k :: 0 <= k < |results| ==>
            pages[k] == (if HasSharedTitle(results, k) then WithIssue(results[k], DuplicateIssue(results[k])) else results[k]))
  {
    forall k | 0 <= k < |results|
      ensures AtMostOneGroup(results[k].url, DuplicateTitles(results))
      ensures InSomeGroup(results[k].url, DuplicateTitles(results)) <==> HasSharedTitle(results, k)
    {
      DuplicateGroupOfPage(results, k);
    }
    InjectAllShape(results, DuplicateTitles(results));
  }

  /** Injection appends issues and changes nothing else: URL, status,
      load time, details and health score stay as they were. */
  lemma {:induction false} InjectionKeepsScores(results: seq<PageResult>, dups: seq<TitleGroup>)
    ensures var pages := InjectAll(results, dups);
      forall k :: 0 <= k < |results| ==>
        pages[k].url == results[k].url && pages[k].status == results[k].status
        && pages[k].loadTime == results[k].loadTime && pages[k].details == results[k].details
        && pages[k].healthScore == results[k].healthScore
  {
    if dups != [] {
      InjectionKeepsScores(results, dups[..|dups| - 1]);
    }
  }

  // --------------------------------------------------------- issue summary

  /** One visit of the nested loop of `summarizeIssues`: an issue of a page. */
  datatype Occurrence = Occurrence(url: string, issue: Issue)

  function PageOccurrences(p: PageResult): (r: seq<Occurrence>)
    ensures |r| == |p.issues|
  {
    seq(|p.issues|, k requires 0 <= k < |p.issues| => Occurrence(p.url, p.issues[k]))
  }

  /** Every issue of every page, page by page. */
  function Occurrences(pages: seq<PageResult>): seq<Occurrence> {
    if pages == [] then [] else Occurrences(pages[..|pages| - 1]) + PageOccurrences(pages[|pages| - 1])
  }

  function KindOfSummary(g: IssueSummary): IssueKind {
    g.kind
  }

  /** Where `kind` sits in the grouping. */
  function FindKind(groups: seq<IssueSummary>, kind: IssueKind): nat {
    FindKey(groups, KindOfSummary, kind)
  }

  /** One round of the inner loop: a new type opens an entry with the
      occurrence's severity and message; every occurrence counts once. */
  function AddOccurrence(groups: seq<IssueSummary>, o: Occurrence): seq<IssueSummary> {
    var k := FindKind(groups, o.issue.kind);
    if k == |groups| then groups + [IssueSummary(o.issue.kind, o.issue.severity, o.issue.message, 1, [o.url])]
    else groups[k := groups[k].(count := groups[k].count + 1, pages := groups[k].pages + [o.url])]
  }

  /** `grouped` after the nested loop has visited `occs`. */
  function Grouped(occs: seq<Occurrence>): seq<IssueSummary> {
    if occs == [] then [] else AddOccurrence(Grouped(occs[..|occs| - 1]), occs[|occs| - 1])
  }

  /** The pages of the occurrences of type `kind`, in visiting order. */
  function UrlsOfKind(occs: seq<Occurrence>, kind: IssueKind): seq<string> {
    if occs == [] then []
    else
      var o := occs[|occs| - 1];
      UrlsOfKind(occs[..|occs| - 1], kind) + (if o.issue.kind == kind then [o.url] else [])
  }

  /** The first occurrence of type `kind`, if any. */
  function FirstOfKind(occs: seq<Occurrence>, kind: IssueKind): Option<Issue> {
    if occs == [] then None
    else
      var f := FirstOfKind(occs[..|occs| - 1], kind);
      var o := occs[|occs| - 1];
      if f.Some? then f else if o.issue.kind == kind then Some(o.issue) else None
  }

  /** `e` lists the pages of exactly the occurrences of its type, counts
      them, and carries the first one's severity and message. */
  predicate KindEntry(occs: seq<Occurrence>, e: IssueSummary) {
    e.pages == UrlsOfKind(occs, e.kind) && e.count == |e.pages|
    && FirstOfKind(occs, e.kind) == Some(Issue(e.kind, e.severity, e.message))
  }

  predicate DistinctKinds(groups: seq<IssueSummary>) {
    forall i, j :: 0 <= i < j < |groups| ==> groups[i].kind != groups[j].kind
  }

  /** `groups` summarises `occs`: one entry per issue type that occurs, whose
      pages are the pages of that type's occurrences, whose count is their
      number, and whose severity and message are the first occurrence's. */
  ghost predicate Summarizes(occs: seq<Occurrence>, groups: seq<IssueSummary>) {
    DistinctKinds(groups)
    && (forall i :: 0 <= i < |groups| ==> KindEntry(occs, groups[i]))
    && (forall kind :: FirstOfKind(occs, kind).Some? ==> exists i :: 0 <= i < |groups| && groups[i].kind == kind)
  }

  lemma {:induction false} FirstOfKindFound(occs: seq<Occurrence>, kind: IssueKind)
    ensures FirstOfKind(occs, kind).Some? <==> UrlsOfKind(occs, kind) != []
    ensures FirstOfKind(occs, kind).Some? ==> FirstOfKind(occs, kind).value.kind == kind
  {
    if occs != [] {
      FirstOfKindFound(occs[..|occs| - 1], kind);
    }
  }

  lemma {:induction false} OccurrenceSnoc(prev: seq<Occurrence>, o: Occurrence, x: IssueKind)
    ensures UrlsOfKind(prev + [o], x) == UrlsOfKind(prev, x) + (if o.issue.kind == x then [o.url] else [])
    ensures FirstOfKind(prev + [o], x) ==
      (if FirstOfKind(prev, x).Some? then FirstOfKind(prev, x) else if o.issue.kind == x then Some(o.issue) else None)
    ensures Grouped(prev + [o]) == AddOccurrence(Grouped(prev), o)
  {
    assert (prev + [o])[..|prev|] == prev;
  }

  lemma {:induction false} KindEntrySnoc(prev: seq<Occurrence>, o: Occurrence, e: IssueSummary)
    requires KindEntry(prev, e) && e.kind != o.issue.kind
    ensures KindEntry(prev + [o], e)
  {
    OccurrenceSnoc(prev, o, e.kind);
  }

  /** An occurrence of a type not seen before opens an entry at the end. */
  lemma {:induction false} AddNewKind(prev: seq<Occurrence>, g0: seq<IssueSummary>, o: Occurrence)
    requires Summarizes(prev, g0) && FindKind(g0, o.issue.kind) == |g0|
    ensures Summarizes(prev + [o], g0 + [IssueSummary(o.issue.kind, o.issue.severity, o.issue.message, 1, [o.url])])
  {
    var occs, kind := prev + [o], o.issue.kind;
    var g := g0 + [IssueSummary(kind, o.issue.severity, o.issue.message, 1, [o.url])];
    OccurrenceSnoc(prev, o, kind);
    FirstOfKindFound(prev, kind);
    forall i | 0 <= i < |g|
      ensures KindEntry(occs, g[i])
    {
      if i < |g0| {
        assert g[i] == g0[i];
        KindEntrySnoc(prev, o, g0[i]);
      }
    }
    forall x | FirstOfKind(occs, x).Some?
      ensures exists i :: 0 <= i < |g| && g[i].kind == x
    {
      OccurrenceSnoc(prev, o, x);
      if x == kind {
        assert g[|g0|].kind == x;
      } else {
        var i :| 0 <= i < |g0| && g0[i].kind == x;
        assert g[i].kind == x;
      }
    }
  }

  /** Another occurrence of a known type joins that type's entry. */
  lemma {:induction false} AddKnownKind(prev: seq<Occurrence>, g0: seq<IssueSummary>, o: Occurrence, k: nat)
    requires Summarizes(prev, g0) && k < |g0| && g0[k].kind == o.issue.kind
    ensures Summarizes(prev + [o], g0[k := g0[k].(count := g0[k].count + 1, pages := g0[k].pages + [o.url])])
  {
    var occs, kind := prev + [o], o.issue.kind;
    var g := g0[k := g0[k].(count := g0[k].count + 1, pages := g0[k].pages + [o.url])];
    OccurrenceSnoc(prev, o, kind);
    forall i | 0 <= i < |g|
      ensures KindEntry(occs, g[i])
    {
      if i != k {
        assert g[i] == g0[i] && g0[i].kind != kind;
        KindEntrySnoc(prev, o, g0[i]);
      }
    }
    forall x | FirstOfKind(occs, x).Some?
      ensures exists i :: 0 <= i < |g| && g[i].kind == x
    {
      OccurrenceSnoc(prev, o, x);
      if x == kind {
        assert g[k].kind == x;
      } else {
        var i :| 0 <= i < |g0| && g0[i].kind == x;
        assert g[i].kind == x;
      }
    }
  }

  /** The nested loop builds a summary of the occurrences it visits. */
  lemma {:induction false} GroupedFacts(occs: seq<Occurrence>)
    ensures Summarizes(occs, Grouped(occs))
  {
    if occs != [] {
      var n := |occs| - 1;
      var prev, o := occs[..n], occs[n];
      assert occs == prev + [o];
      GroupedFacts(prev);
      var g0 := Grouped(prev);
      OccurrenceSnoc(prev, o, o.issue.kind);
      var k := FindKind(g0, o.issue.kind);
      if k == |g0| {
        AddNewKind(prev, g0, o);
      } else {
        AddKnownKind(prev, g0, o, k);
      }
    }
  }

  function KindOfOccurrence(o: Occurrence): IssueKind {
    o.issue.kind
  }

  /** Where type `kind` first occurs among `occs` (`|occs|` if never). */
  function FirstOccurrence(occs: seq<Occurrence>, kind: IssueKind): nat {
    FindKey(occs, KindOfOccurrence, kind)
  }

  /** The insertion order of `grouped`: where an entry's type first occurs. */
  function OccurrenceRank(occs: seq<Occurrence>): IssueSummary -> int {
    (g: IssueSummary) => FirstOccurrence(occs, g.kind)
  }

  /** Every entry's type occurs among `occs`. */
  predicate KindsOccur(occs: seq<Occurrence>, groups: seq<IssueSummary>) {
    forall i :: 0 <= i < |groups| ==> FirstOccurrence(occs, groups[i].kind) < |occs|
  }

  /** `FirstOfKind` finds the occurrence at `FirstOccurrence`. */
  lemma {:induction false} FirstOfKindAt(occs: seq<Occurrence>, kind: IssueKind)
    ensures FirstOfKind(occs, kind).Some? <==> FirstOccurrence(occs, kind) < |occs|
    ensures FirstOfKind(occs, kind).Some? ==> FirstOfKind(occs, kind).value == occs[FirstOccurrence(occs, kind)].issue
  {
    if occs != [] {
      var n := |occs| - 1;
      var prev, o := occs[..n], occs[n];
      assert occs == prev + [o];
      FirstOfKindAt(prev, kind);
      FindKeySnoc(prev, o, KindOfOccurrence, kind);
      if FirstOccurrence(prev, kind) < n {
        assert occs[FirstOccurrence(prev, kind)] == prev[FirstOccurrence(prev, kind)];
      }
    }
  }

  /** One more occurrence keeps the first occurrence of every type seen already. */
  lemma KindsOccurSnoc(prev: seq<Occurrence>, o: Occurrence, groups: seq<IssueSummary>)
    requires KindsOccur(prev, groups)
    ensures KindsOccur(prev + [o], groups)
    ensures forall i :: 0 <= i < |groups| ==> FirstOccurrence(prev + [o], groups[i].kind) == FirstOccurrence(prev, groups[i].kind)
  {
    forall i | 0 <= i < |groups|
      ensures FirstOccurrence(prev + [o], groups[i].kind) == FirstOccurrence(prev, groups[i].kind)
    {
      FindKeySnoc(prev, o, KindOfOccurrence, groups[i].kind);
    }
  }

  /** A type not seen before first occurs at the new occurrence. */
  lemma NewKindSeenLast(prev: seq<Occurrence>, g0: seq<IssueSummary>, o: Occurrence)
    requires Summarizes(prev, g0) && FindKind(g0, o.issue.kind) == |g0|
    ensures FirstOccurrence(prev + [o], o.issue.kind) == |prev|
  {
    var kind := o.issue.kind;
    forall i | 0 <= i < |g0|
      ensures g0[i].kind != kind
    {
      assert KindOfSummary(g0[i]) != kind;
    }
    FirstOfKindAt(prev, kind);
    FindKeySnoc(prev, o, KindOfOccurrence, kind);
  }

  /** One round of the inner loop keeps the entries in first-occurrence order. */
  lemma KindOrderStep(prev: seq<Occurrence>, g0: seq<IssueSummary>, o: Occurrence)
    requires Summarizes(prev, g0) && KindsOccur(prev, g0) && IncreasingBy(g0, OccurrenceRank(prev))
    ensures KindsOccur(prev + [o], AddOccurrence(g0, o)) && IncreasingBy(AddOccurrence(g0, o), OccurrenceRank(prev + [o]))
  {
    KindsOccurSnoc(prev, o, g0);
    if FindKind(g0, o.issue.kind) == |g0| {
      NewKindSeenLast(prev, g0, o);
      NewKindInOrder(prev, g0, o);
    } else {
      var g := AddOccurrence(g0, o);
      forall i | 0 <= i < |g|
        ensures g[i].kind == g0[i].kind
      {
      }
    }
  }

  /** A new type's entry goes last, and its type occurs last. */
  lemma NewKindInOrder(prev: seq<Occurrence>, g0: seq<IssueSummary>, o: Occurrence)
    requires FindKind(g0, o.issue.kind) == |g0| && FirstOccurrence(prev + [o], o.issue.kind) == |prev|
    requires KindsOccur(prev, g0) && IncreasingBy(g0, OccurrenceRank(prev))
    requires forall i :: 0 <= i < |g0| ==> FirstOccurrence(prev + [o], g0[i].kind) == FirstOccurrence(prev, g0[i].kind)
    ensures KindsOccur(prev + [o], AddOccurrence(g0, o)) && IncreasingBy(AddOccurrence(g0, o), OccurrenceRank(prev + [o]))
  {
    var occs := prev + [o];
    var g := AddOccurrence(g0, o);
    forall i | 0 <= i < |g|
      ensures FirstOccurrence(occs, g[i].kind) < |occs|
      ensures i < |g0| ==> FirstOccurrence(occs, g[i].kind) < |prev|
    {
      if i < |g0| {
        assert g[i] == g0[i];
      }
    }
  }

  /** `grouped` lists the types in the order they first occur. */
  lemma {:induction false} GroupedInOrder(occs: seq<Occurrence>)
    ensures KindsOccur(occs, Grouped(occs)) && IncreasingBy(Grouped(occs), OccurrenceRank(occs))
  {
    if occs != [] {
      var n := |occs| - 1;
      var prev, o := occs[..n], occs[n];
      assert occs == prev + [o];
      GroupedFacts(prev);
      GroupedInOrder(prev);
      KindOrderStep(prev, Grouped(prev), o);
    }
  }

  /** `order[a.severity] - order[b.severity] || b.count - a.count`. */
  function SummaryKey(s: IssueSummary): Key {
    Key(SeverityRank(s.severity), -(s.count as int))
  }

  /** `summarizeIssues(pages)`. */
  function Summary(pages: seq<PageResult>): seq<IssueSummary> {
    SortBy(Grouped(Occurrences(pages)), SummaryKey)
  }

  lemma {:induction false} OccurrencesSnoc(pages: seq<PageResult>, p: nat)
    requires p < |pages|
    ensures Occurrences(pages[..p + 1]) == Occurrences(pages[..p]) + PageOccurrences(pages[p])
  {
    assert pages[..p + 1][..p] == pages[..p];
  }

  lemma {:induction false} VisitedSnoc(before: seq<Occurrence>, page: PageResult, j: nat)
    requires j < |page.issues|
    ensures before + PageOccurrences(page)[..j + 1] == (before + PageOccurrences(page)[..j]) + [Occurrence(page.url, page.issues[j])]
  {
  }

  /** The body of the inner loop: open the type's entry with count 0 if it
      is new, then count the occurrence and record its page. */
  method CountIssue(grouped: seq<IssueSummary>, url: string, issue: Issue) returns (r: seq<IssueSummary>)
    ensures r == AddOccurrence(grouped, Occurrence(url, issue))
  {
    r := grouped;
    var k := FindKind(r, issue.kind);
    if k == |r| {
      r := r + [IssueSummary(issue.kind, issue.severity, issue.message, 0, [])];
      assert [] + [url] == [url];
    }
    r := r[k := r[k].(count := r[k].count + 1, pages := r[k].pages + [url])];
  }

  /** The inner loop over the issues of one page. */
  method CountPageIssues(grouped: seq<IssueSummary>, ghost before: seq<Occurrence>, page: PageResult) returns (r: seq<IssueSummary>)
    requires grouped == Grouped(before)
    ensures r == Grouped(before + PageOccurrences(page))
  {
    r := grouped;
    assert before + PageOccurrences(page)[..0] == before;
    for j := 0 to |page.issues|
      invariant r == Grouped(before + PageOccurrences(page)[..j])
    {
      VisitedSnoc(before, page, j);
      OccurrenceSnoc(before + PageOccurrences(page)[..j], Occurrence(page.url, page.issues[j]), page.issues[j].kind);
      r := CountIssue(r, page.url, page.issues[j]);
    }
    assert PageOccurrences(page)[..|page.issues|] == PageOccurrences(page);
  }

  /** `summarizeIssues`: the nested loop over pages and their issues, then the sort. */
  method SummarizeIssues(pages: seq<PageResult>) returns (summary: seq<IssueSummary>)
    ensures summary == Summary(pages)
  {
    var grouped: seq<IssueSummary> := [];
    for p := 0 to |pages|
      invariant grouped == Grouped(Occurrences(pages[..p]))
    {
      grouped := CountPageIssues(grouped, Occurrences(pages[..p]), pages[p]);
      OccurrencesSnoc(pages, p);
    }
    assert pages[..|pages|] == pages;
    summary := SortBy(grouped, SummaryKey);
  }

  /** A reordering of a summary is still a summary. */
  lemma {:induction false} SummarizesPermuted(occs: seq<Occurrence>, g: seq<IssueSummary>, s: seq<IssueSummary>)
    requires Summarizes(occs, g) && multiset(s) == multiset(g)
    ensures Summarizes(occs, s)
  {
    forall i | 0 <= i < |s|
      ensures s[i] in g
    {
      assert s[i] in multiset(s);
    }
    DistinctKindsPermuted(g, s);
    forall kind | FirstOfKind(occs, kind).Some?
      ensures exists i :: 0 <= i < |s| && s[i].kind == kind
    {
      var a :| 0 <= a < |g| && g[a].kind == kind;
      assert g[a] in multiset(s);
    }
  }

  lemma {:induction false} DistinctKindsPermuted(g: seq<IssueSummary>, s: seq<IssueSummary>)
    requires DistinctKinds(g) && multiset(s) == multiset(g)
    ensures DistinctKinds(s)
  {
    forall i, j | 0 <= i < j < |s|
      ensures s[i].kind != s[j].kind
    {
      assert s[i] in multiset(g) && s[j] in multiset(g);
      var a :| 0 <= a < |g| && g[a] == s[i];
      var b :| 0 <= b < |g| && g[b] == s[j];
      if a == b {
        SameEntryTwice(s, i, j);
        OnceInDistinct(g, a);
      }
    }
  }

  /** An entry of a list with distinct types occurs in it once. */
  lemma {:induction false} OnceInDistinct(g: seq<IssueSummary>, a: int)
    requires DistinctKinds(g) && 0 <= a < |g|
    ensures multiset(g)[g[a]] == 1
  {
    var n := |g| - 1;
    assert g == g[..n] + [g[n]];
    assert DistinctKinds(g[..n]);
    if a < n {
      assert g[..n][a] == g[a];
      OnceInDistinct(g[..n], a);
      assert g[n] != g[a];
    } else {
      forall i | 0 <= i < n
        ensures g[..n][i] != g[a]
      {
      }
      assert g[a] !in multiset(g[..n]);
    }
  }

  /** The summary describes every issue type of the pages once, ordered
      critical, warning, info and then by falling count; the entries of each
      severity and count are those of the grouping, in the grouping's order. */
  lemma {:induction false} SummaryFacts(pages: seq<PageResult>)
    ensures var occs := Occurrences(pages);
      var s := Summary(pages);
      Summarizes(occs, s)
      && SortedBy(s, SummaryKey)
      && multiset(s) == multiset(Grouped(occs))
      && (forall k :: WithKey(s, SummaryKey, k) == WithKey(Grouped(occs), SummaryKey, k))
  {
    var occs := Occurrences(pages);
    var g := Grouped(occs);
    GroupedFacts(occs);
    SortByIsSorted(g, SummaryKey);
    SortByPermutes(g, SummaryKey);
    forall k {
      SortByIsStable(g, SummaryKey, k);
    }
    SummarizesPermuted(occs, g, Summary(pages));
  }

  /** Entries of equal severity and count keep the order in which their
      types first occur. */
  lemma SummaryTiesInOrder(pages: seq<PageResult>)
    ensures IncreasingWithinKeys(Summary(pages), SummaryKey, OccurrenceRank(Occurrences(pages)))
  {
    var occs := Occurrences(pages);
    var g := Grouped(occs);
    GroupedInOrder(occs);
    SortByKeepsIncreasingWithinKeys(g, SummaryKey, OccurrenceRank(occs));
  }

  /** One grouped entry cannot be sorted into two places, because the
      grouped entries have distinct types and hence each occurs once. */
  lemma {:induction false} SameEntryTwice(s: seq<IssueSummary>, i: int, j: int)
    requires 0 <= i < j < |s| && s[i] == s[j]
    ensures multiset(s)[s[i]] >= 2
  {
    var a, b, c := s[..i], s[i..j], s[j..];
    assert s == a + b + c;
    assert s[i] in b && s[j] in c;
  }

  // ------------------------------------------------------ site-wide score

  function SumHealth(pages: seq<PageResult>): int {
    if pages == [] then 0 else SumHealth(pages[..|pages| - 1]) + pages[|pages| - 1].healthScore
  }

  predicate ScoresInRange(pages: seq<PageResult>) {
    forall k :: 0 <= k < |pages| ==> 0 <= pages[k].healthScore <= 100
  }

  lemma {:induction false} SumHealthBounds(pages: seq<PageResult>)
    requires ScoresInRange(pages)
    ensures 0 <= SumHealth(pages) <= 100 * |pages|
  {
    if pages != [] {
      SumHealthBounds(pages[..|pages| - 1]);
    }
  }

  /** `computeOverallHealth`: 0 for no pages, else the rounded mean score,
      which stays in [0, 100] when every page score does. */
  function OverallHealth(pages: seq<PageResult>): (r: int)
    ensures pages == [] ==> r == 0
    ensures ScoresInRange(pages) ==> 0 <= r <= 100
  {
    if pages == [] then 0
    else
      MeanInRange(pages);
      Round(SumHealth(pages) as real / |pages| as real)
  }

  lemma {:induction false} MeanInRange(pages: seq<PageResult>)
    requires pages != []
    ensures ScoresInRange(pages) ==> 0 <= Round(SumHealth(pages) as real / |pages| as real) <= 100
  {
    if ScoresInRange(pages) {
      SumHealthBounds(pages);
      RoundWithin(SumHealth(pages) as real / |pages| as real, 0, 100);
    }
  }

  lemma {:induction false} SumHealthConstant(pages: seq<PageResult>, h: int)
    requires forall k :: 0 <= k < |pages| ==> pages[k].healthScore == h
    ensures SumHealth(pages) == h * |pages|
  {
    if pages != [] {
      SumHealthConstant(pages[..|pages| - 1], h);
    }
  }

  /** Pages that all score `h` give a site score of `h`. */
  lemma {:induction false} OverallHealthConstant(pages: seq<PageResult>, h: int)
    requires pages != []
    requires forall k :: 0 <= k < |pages| ==> pages[k].healthScore == h
    ensures OverallHealth(pages) == h
  {
    SumHealthConstant(pages, h);
    assert SumHealth(pages) as real / |pages| as real == h as real;
    RoundOfInteger(h);
  }

  // ------------------------------------------------------------ crawlSite

  /** The object `crawlSite` resolves to. */
  datatype CrawlReport = CrawlReport(
    pagesChecked: nat,
    pages: seq<PageResult>,
    issues: seq<IssueSummary>,
    duplicateTitles: seq<TitleGroup>,
    overallHealthScore: int)

  /** The analysed pages of a crawl whose homepage links are `hrefs`. */
  function CrawlResults(url: string, origin: string, hrefs: seq<string>, resolve: Resolver, fetch: Fetcher): seq<PageResult> {
    AnalyzeAll(Targets(url, origin, hrefs, resolve), Analysis(fetch))
  }

  /** The report for a homepage whose links are `hrefs`, when no title is an
      inherited name. */
  function Report(url: string, origin: string, hrefs: seq<string>, resolve: Resolver, fetch: Fetcher): CrawlReport {
    var results := CrawlResults(url, origin, hrefs, resolve, fetch);
    var dups := DuplicateTitles(results);
    var pages := InjectAll(results, dups);
    CrawlReport(|pages|, pages, Summary(pages), dups, OverallHealth(pages))
  }

  /** `crawlSite(url)` with `origin` for `base.origin`. The homepage fetch is
      given as the list of its link targets or the error's message. */
  method CrawlSite(url: string, origin: string, homepage: Result<seq<string>, string>, resolve: Resolver, fetch: Fetcher)
    returns (r: Result<CrawlReport, string>)
    ensures homepage.Err? ==> r == Err("Cannot fetch homepage: " + homepage.error)
    ensures homepage.Ok? && TitleMapThrows(CrawlResults(url, origin, homepage.value, resolve, fetch)) ==>
      r == Err(PushFailure)
    ensures homepage.Ok? && !TitleMapThrows(CrawlResults(url, origin, homepage.value, resolve, fetch)) ==>
      r == Ok(Report(url, origin, homepage.value, resolve, fetch))
  {
    if homepage.Err? {
      return Err("Cannot fetch homepage: " + homepage.error);
    }
    var hrefs := homepage.value;
    var seen := CollectTargets(url, origin, hrefs, resolve);
    var targets := seen[..Min(MaxPages, |seen|)];
    var results, ran := AnalyzeInBatches(targets, Analysis(fetch));
    assert results == AnalyzeAll(targets, Analysis(fetch));
    var grouped := GroupTitles(results);
    if grouped.Err? {
      return Err(grouped.error);
    }
    var entries := SortBy(grouped.value, EntryKey);
    var dups := SharedTitles(entries);
    var pages := InjectDuplicateIssues(results, dups);
    var issues := SummarizeIssues(pages);
    return Ok(CrawlReport(|pages|, pages, issues, dups, OverallHealth(pages)));
  }

  /** A crawl checks every target once, starting with the seed; it checks
      between 1 and 25 pages, keeps every page's URL and health score, and
      gives a site score in [0, 100]. */
  lemma {:induction false} ReportFacts(url: string, origin: string, hrefs: seq<string>, resolve: Resolver, fetch: Fetcher)
    ensures var rep := Report(url, origin, hrefs, resolve, fetch);
      var ts := Targets(url, origin, hrefs, resolve);
      rep.pagesChecked == |ts| == |rep.pages|
      && 1 <= rep.pagesChecked <= MaxPages
      && rep.pages[0].url == url
      && (forall k :: 0 <= k < |ts| ==>
            rep.pages[k].url == ts[k] && rep.pages[k].healthScore == AnalyzePage(ts[k], fetch(ts[k])).healthScore)
      && ScoresInRange(rep.pages)
      && 0 <= rep.overallHealthScore <= 100
  {
    var ts := Targets(url, origin, hrefs, resolve);
    TargetsFacts(url, origin, hrefs, resolve);
    var results := AnalyzeAll(ts, Analysis(fetch));
    var pages := InjectAll(results, DuplicateTitles(results));
    InjectionKeepsScores(results, DuplicateTitles(results));
    forall k | 0 <= k < |ts|
      ensures pages[k].url == ts[k] && pages[k].healthScore == AnalyzePage(ts[k], fetch(ts[k])).healthScore
      ensures 0 <= pages[k].healthScore <= 100
    {
      assert results[k] == AnalyzePage(ts[k], fetch(ts[k]));
    }
  }

  /** The pages of a crawl have distinct URLs, so the duplicate-title facts
      apply to every crawl. */
  lemma {:induction false} ReportDuplicates(url: string, origin: string, hrefs: seq<string>, resolve: Resolver, fetch: Fetcher)
    ensures var results := AnalyzeAll(Targets(url, origin, hrefs, resolve), Analysis(fetch));
      var rep := Report(url, origin, hrefs, resolve, fetch);
      rep.duplicateTitles == DuplicateTitles(results)
      && forall k :: 0 <= k < |results| ==>
           rep.pages[k] == (if HasSharedTitle(results, k) then WithIssue(results[k], DuplicateIssue(results[k])) else results[k])
  {
    var ts := Targets(url, origin, hrefs, resolve);
    TargetsFacts(url, origin, hrefs, resolve);
    var results := AnalyzeAll(ts, Analysis(fetch));
    forall i, j | 0 <= i < j < |results|
      ensures results[i].url != results[j].url
    {
      assert results[i] == AnalyzePage(ts[i], fetch(ts[i])) && results[j] == AnalyzePage(ts[j], fetch(ts[j]));
    }
    DuplicateInjectionFacts(results);
  }
}
