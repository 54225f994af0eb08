/** The multi-page crawler of services/crawler/pageCrawler.js: link discovery
    on the homepage, a bounded target list analysed in batches of five, the
    per-page issue rules and health score, duplicate-title detection, the
    issue summary and the site-wide health score.

    The network and the HTML parser are not modelled: the homepage is given
    as the list of its `a[href]` attribute values, each page's fetch as a
    `FetchOutcome` carrying what the parser would extract, and URL
    resolution (`new URL(href, base).href`) as a function parameter that
    answers `None` where the constructor throws. */
module PageCrawler {
  import opened Wrappers
  import opened Strings
  import opened Numeric
  import opened Issues
  import opened Sorting

  const BatchSize: nat := 5
  const MaxPages: nat := 25
  const MaxUrlLength: nat := 200
  /** The alternatives of the `SKIP_EXT` pattern. */
  const SkipExtensions: seq<string> :=
    ["pdf", "jpg", "jpeg", "png", "gif", "svg", "webp", "avif", "zip", "css", "js", "woff", "ico", "xml", "json"]

  /** `new URL(href, base).href`, or `None` where that throws. */
  type Resolver = (string, string) -> Option<string>

  // ---------------------------------------------------------------- links

  /** `SKIP_EXT.test(u)`: `u` ends, ignoring ASCII case, in a dot and one of
      the skipped extensions (the pattern is anchored at the end only). */
  predicate HasSkipExtension(u: string) {
    exists k :: 0 <= k < |SkipExtensions| && EndsWith(Lower(u), "." + SkipExtensions[k])
  }

  /** `abs.split("#")[0].split("?")[0]`. */
  function StripFragmentAndQuery(abs: string): (r: string)
    ensures '#' !in r && '?' !in r
    ensures |r| <= |abs| && r == abs[..|r|]
    ensures '#' !in abs && '?' !in abs ==> r == abs
  {
    CutAt(CutAt(abs, '#'), '?')
  }

  /** What the source keeps as a crawl target besides the seed. */
  predicate IsCrawlable(t: string, origin: string) {
    '#' !in t && '?' !in t
    && StartsWith(t, origin)
    && !HasSkipExtension(t)
    && Utf16Len(t) < MaxUrlLength
  }

  predicate IsSkippedScheme(href: string) {
    href == [] || StartsWith(href, "mailto:") || StartsWith(href, "tel:")
  }

  /** The body of the `$("a[href]").each` callback for one attribute value:
      the target it adds to `seen`, if any. */
  function LinkTarget(href: string, origin: string, resolve: Resolver): (r: Option<string>)
    ensures r.Some? ==> IsCrawlable(r.value, origin)
    ensures IsSkippedScheme(href) || resolve(href, origin).None? ==> r.None?
    ensures r.Some? <==>
      !IsSkippedScheme(href) && resolve(href, origin).Some?
      && IsCrawlable(StripFragmentAndQuery(resolve(href, origin).value), origin)
    ensures r.Some? ==> r.value == StripFragmentAndQuery(resolve(href, origin).value)
  {
    if IsSkippedScheme(href) then None
    else match resolve(href, origin)
      case None => None
      case Some(abs) =>
        var t := StripFragmentAndQuery(abs);
        if StartsWith(t, origin) && !HasSkipExtension(t) && Utf16Len(t) < MaxUrlLength then Some(t) else None
  }

  predicate NoDuplicates<T(==)>(s: seq<T>) {
    forall i, j :: 0 <= i < j < |s| ==> s[i] != s[j]
  }

  /** `seen.add(x)` on an insertion-ordered set. */
  function AddTarget(seen: seq<string>, t: Option<string>): seq<string> {
    if t.Some? && t.value !in seen then seen + [t.value] else seen
  }

  /** The contents of `seen`, in insertion order, after the callback has run
      on every attribute value of `hrefs`. */
  function Discover(url: string, origin: string, hrefs: seq<string>, resolve: Resolver): seq<string>
    decreases |hrefs|
  {
    if hrefs == [] then [url]
    else AddTarget(Discover(url, origin, hrefs[..|hrefs| - 1], resolve), LinkTarget(hrefs[|hrefs| - 1], origin, resolve))
  }

  /** The seed comes first, nothing is listed twice, every other entry is an
      accepted link of the page, and every accepted link is listed. */
  lemma {:induction false} DiscoverFacts(url: string, origin: string, hrefs: seq<string>, resolve: Resolver)
    ensures var d := Discover(url, origin, hrefs, resolve);
      |d| >= 1 && d[0] == url && NoDuplicates(d)
      && (forall i :: 1 <= i < |d| ==> IsCrawlable(d[i], origin))
      && (forall i :: 1 <= i < |d| ==> exists j :: 0 <= j < |hrefs| && LinkTarget(hrefs[j], origin, resolve) == Some(d[i]))
      && (forall j :: 0 <= j < |hrefs| && LinkTarget(hrefs[j], origin, resolve).Some? ==>
            LinkTarget(hrefs[j], origin, resolve).value in d)
  {
    DiscoverShape(url, origin, hrefs, resolve);
    DiscoverSources(url, origin, hrefs, resolve);
  }

  /** The seed comes first, nothing is listed twice and every other entry
      is a crawlable target. */
  lemma {:induction false} DiscoverShape(url: string, origin: string, hrefs: seq<string>, resolve: Resolver)
    ensures var d := Discover(url, origin, hrefs, resolve);
      |d| >= 1 && d[0] == url && NoDuplicates(d)
      && (forall i :: 1 <= i < |d| ==> IsCrawlable(d[i], origin))
    decreases |hrefs|
  {
    if hrefs != [] {
      var n := |hrefs| - 1;
      DiscoverShape(url, origin, hrefs[..n], resolve);
      var d0 := Discover(url, origin, hrefs[..n], resolve);
      assert Discover(url, origin, hrefs, resolve) == AddTarget(d0, LinkTarget(hrefs[n], origin, resolve));
    }
  }

  /** The accepted target of each attribute value, in order. */
  function LinkTargets(origin: string, hrefs: seq<string>, resolve: Resolver): (ts: seq<Option<string>>)
    ensures |ts| == |hrefs| && forall j :: 0 <= j < |hrefs| ==> ts[j] == LinkTarget(hrefs[j], origin, resolve)
  {
    seq(|hrefs|, j requires 0 <= j < |hrefs| => LinkTarget(hrefs[j], origin, resolve))
  }

  /** `seen` after adding each of the targets `ts` in turn. */
  function Gather(seen: seq<string>, ts: seq<Option<string>>): seq<string> {
    if ts == [] then seen else AddTarget(Gather(seen, ts[..|ts| - 1]), ts[|ts| - 1])
  }

  lemma {:induction false} DiscoverIsGather(url: string, origin: string, hrefs: seq<string>, resolve: Resolver)
    ensures Discover(url, origin, hrefs, resolve) == Gather([url], LinkTargets(origin, hrefs, resolve))
    decreases |hrefs|
  {
    if hrefs != [] {
      var n := |hrefs| - 1;
      DiscoverIsGather(url, origin, hrefs[..n], resolve);
      assert LinkTargets(origin, hrefs, resolve)[..n] == LinkTargets(origin, hrefs[..n], resolve);
    }
  }

  /** Every entry after the first ones is one of the targets, and every
      target is listed. */
  lemma {:induction false} GatherSources(seen: seq<string>, ts: seq<Option<string>>)
    ensures var d := Gather(seen, ts);
      |d| >= |seen| && d[..|seen|] == seen
      && (forall i :: |seen| <= i < |d| ==> exists j :: 0 <= j < |ts| && ts[j] == Some(d[i]))
      && (forall j :: 0 <= j < |ts| && ts[j].Some? ==> ts[j].value in d)
    decreases |ts|
  {
    if ts != [] {
      var n := |ts| - 1;
      var prev := ts[..n];
      GatherSources(seen, prev);
      var d0 := Gather(seen, prev);
      var d := Gather(seen, ts);
      assert d == AddTarget(d0, ts[n]);
      forall i | |seen| <= i < |d|
        ensures exists j :: 0 <= j < |ts| && ts[j] == Some(d[i])
      {
        if i < |d0| {
          var j :| 0 <= j < |prev| && prev[j] == Some(d0[i]);
          assert ts[j] == prev[j];
        } else {
          assert ts[n] == Some(d[i]);
        }
      }
      forall j | 0 <= j < |ts| && ts[j].Some?
        ensures ts[j].value in d
      {
        if j < n {
          assert ts[j] == prev[j];
        }
      }
    }
  }

  /** Every entry after the seed is the target of some link, and every
      link's target is listed. */
  lemma {:induction false} DiscoverSources(url: string, origin: string, hrefs: seq<string>, resolve: Resolver)
    ensures var d := Discover(url, origin, hrefs, resolve);
      (forall i :: 1 <= i < |d| ==> exists j :: 0 <= j < |hrefs| && LinkTarget(hrefs[j], origin, resolve) == Some(d[i]))
      && (forall j :: 0 <= j < |hrefs| && LinkTarget(hrefs[j], origin, resolve).Some? ==>
            LinkTarget(hrefs[j], origin, resolve).value in d)
  {
    DiscoverIsGather(url, origin, hrefs, resolve);
    GatherSources([url], LinkTargets(origin, hrefs, resolve));
  }



  /** The `$("a[href]").each` loop: fills `seen` starting from the seed. */
  method CollectTargets(url: string, origin: string, hrefs: seq<string>, resolve: Resolver) returns (seen: seq<string>)
    ensures seen == Discover(url, origin, hrefs, resolve)
  {
    seen := [url];
    var k := 0;
    while k < |hrefs|
      invariant 0 <= k <= |hrefs|
      invariant seen == Discover(url, origin, hrefs[..k], resolve)
    {
      var t := LinkTarget(hrefs[k], origin, resolve);
      if t.Some? && t.value !in seen {
        seen := seen + [t.value];
      }
      k := k + 1;
      assert hrefs[..k][..k - 1] == hrefs[..k - 1];
    }
    assert hrefs[..|hrefs|] == hrefs;
  }

  /** `Array.from(seen).slice(0, MAX_PAGES)`. */
  function Targets(url: string, origin: string, hrefs: seq<string>, resolve: Resolver): seq<string> {
    var d := Discover(url, origin, hrefs, resolve);
    d[..Min(MaxPages, |d|)]
  }

  /** The target list starts with the seed, has no duplicates and at most 25
      entries; every other entry is crawlable; and the list is the first 25
      discovered targets. */
  lemma TargetsFacts(url: string, origin: string, hrefs: seq<string>, resolve: Resolver)
    ensures var ts := Targets(url, origin, hrefs, resolve);
      1 <= |ts| <= MaxPages && ts[0] == url && NoDuplicates(ts)
      && (forall i :: 1 <= i < |ts| ==> IsCrawlable(ts[i], origin))
      && (|Discover(url, origin, hrefs, resolve)| <= MaxPages ==> ts == Discover(url, origin, hrefs, resolve))
  {
    DiscoverFacts(url, origin, hrefs, resolve);
  }

  /** A `mailto:`/`tel:` link, an empty one, or one whose resolution throws is
      skipped and the scan goes on. */
  lemma SkippedLinkLeavesTargets(url: string, origin: string, hrefs: seq<string>, href: string, resolve: Resolver)
    requires IsSkippedScheme(href) || resolve(href, origin).None?
    ensures Discover(url, origin, hrefs + [href], resolve) == Discover(url, origin, hrefs, resolve)
  {
    assert (hrefs + [href])[..|hrefs|] == hrefs;
  }

  // ------------------------------------------------------- page analysis

  /** What the HTML parser extracts from a fetched page (after removing
      `script`, `style`, `nav` and `footer`). */
  datatype PageFeatures = PageFeatures(
    titleText: string,              // `$("title").text()`, untrimmed
    metaContent: Option<string>,    // the `content` attribute of the description meta tag
    h1Count: nat,                   // number of `h1` elements
    bodyText: string,               // `$("body").text()`
    canonicalHref: Option<string>,  // the `href` of the canonical link
    images: nat,                    // `img`
    imagesWithoutAlt: nat,          // `img:not([alt])`
    imagesWithoutSize: nat,         // `img:not([width]):not([height])`
    modernImages: nat)              // images whose `src` mentions `.webp` or `.avif`

  /** What one GET of a page gives: a response with any status (the request
      accepts every status), or a thrown error. */
  datatype FetchOutcome =
    | Response(status: int, loadTime: nat, page: PageFeatures)
    | Failed(loadTime: nat, message: string)

  /** The on-page fields of a parsed page's result. */
  datatype PageDetails = PageDetails(title: string, metaDescription: string, h1Count: nat, wordCount: nat, canonical: Option<string>)

  /** One analysed page; `details` is absent for error results, which carry
      no title, meta description, H1 count, word count or canonical. */
  datatype PageResult = PageResult(url: string, status: int, loadTime: nat, details: Option<PageDetails>, healthScore: int, issues: seq<Issue>)

  /** `p.title`, where an absent title reads as the falsy empty string. */
  function Title(p: PageResult): string {
    if p.details.Some? then p.details.value.title else ""
  }

  /** `max(0, 100 - 25 per critical - 10 per warning - 3 per info)`. */
  function HealthScore(issues: seq<Issue>): (r: int)
    ensures 0 <= r <= 100
  {
    Max(0, 100 - 25 * CountSeverity(issues, Critical) - 10 * CountSeverity(issues, Warning) - 3 * CountSeverity(issues, Info))
  }

  /** Adding issues never raises the score. */
  lemma HealthScoreAntitone(issues: seq<Issue>, more: seq<Issue>)
    ensures HealthScore(issues + more) <= HealthScore(issues)
  {
    CountSeverityAppend(issues, more, Critical);
    CountSeverityAppend(issues, more, Warning);
    CountSeverityAppend(issues, more, Info);
  }

  /** A page scores 100 exactly when it has no issue. */
  lemma HealthScorePerfect(issues: seq<Issue>)
    ensures HealthScore(issues) == 100 <==> issues == []
  {
    CountSeveritiesSum(issues);
  }

  /** One critical issue and nothing else costs exactly 25 points. */
  lemma HealthScoreOneCritical(i: Issue)
    requires i.severity == Critical
    ensures HealthScore([i]) == 75
  {
    assert [i][..0] == [];
  }

  /** One conditional push of the rule list. */
  datatype Rule = Rule(fires: bool, issue: Issue)

  /** The issues of the rules that fire, in rule order. */
  function Fired(rules: seq<Rule>): (r: seq<Issue>)
    ensures |r| <= |rules|
    ensures forall k :: 0 <= k < |rules| && rules[k].fires ==> rules[k].issue in r
    ensures forall x :: x in r ==> exists k :: 0 <= k < |rules| && rules[k].fires && rules[k].issue == x
  {
    if rules == [] then []
    else
      var rest := Fired(rules[1..]);
      var r := (if rules[0].fires then [rules[0].issue] else []) + rest;
      assert forall k :: 1 <= k < |rules| ==> rules[k] == rules[1..][k - 1];
      r
  }

  const RuleKinds: seq<IssueKind> :=
    [MissingTitle, MissingMeta, MissingH1, MultipleH1, ThinContent, MissingCanonical, ImgNoAlt, ImgFormat, ImgNoSize]

  /** Position of an issue type in the rule list (9 for every other type). */
  function KindRank(kind: IssueKind): (r: nat)
    ensures r <= |RuleKinds|
    ensures r < |RuleKinds| ==> RuleKinds[r] == kind
  {
    match kind
    case MissingTitle => 0
    case MissingMeta => 1
    case MissingH1 => 2
    case MultipleH1 => 3
    case ThinContent => 4
    case MissingCanonical => 5
    case ImgNoAlt => 6
    case ImgFormat => 7
    case ImgNoSize => 8
    case _ => 9
  }

  function Plural(n: nat): string {
    if n > 1 then "s" else ""
  }

  /** The condition under which a rule pushes an issue of type `kind`
      (no rule pushes the other types). */
  function Fires(kind: IssueKind, d: PageDetails, f: PageFeatures): bool {
    match kind
    case MissingTitle => d.title == ""
    case MissingMeta => d.metaDescription == ""
    case MissingH1 => d.h1Count == 0
    case MultipleH1 => d.h1Count > 1
    case ThinContent => d.wordCount < 300
    case MissingCanonical => d.canonical.None?
    case ImgNoAlt => f.imagesWithoutAlt > 0
    case ImgFormat => f.images > 0 && f.modernImages == 0
    case ImgNoSize => f.imagesWithoutSize > 2
    case _ => false
  }

  /** The issue the rule for `kind` pushes, with the source's severity and message. */
  function RuleIssue(kind: IssueKind, d: PageDetails, f: PageFeatures): (i: Issue)
    requires KindRank(kind) < |RuleKinds|
    ensures i.kind == kind
  {
    match kind
    case MissingTitle => Issue(MissingTitle, Critical, "Missing page title")
    case MissingMeta => Issue(MissingMeta, Warning, "Missing meta description")
    case MissingH1 => Issue(MissingH1, Critical, "Missing H1 tag")
    case MultipleH1 => Issue(MultipleH1, Warning, "Multiple H1 tags (" + NatToString(d.h1Count) + ")")
    case ThinContent => Issue(ThinContent, Warning, "Thin content (" + NatToString(d.wordCount) + " words)")
    case MissingCanonical => Issue(MissingCanonical, Info, "Missing canonical tag")
    case ImgNoAlt => Issue(ImgNoAlt, Warning,
      NatToString(f.imagesWithoutAlt) + " image" + Plural(f.imagesWithoutAlt) + " missing alt text")
    case ImgFormat => Issue(ImgFormat, Info, "No WebP/AVIF images detected")
    case ImgNoSize => Issue(ImgNoSize, Info,
      NatToString(f.imagesWithoutSize) + " images missing width/height (layout shift risk)")
  }

  lemma RuleKindsRanked()
    ensures forall k :: 0 <= k < |RuleKinds| ==> KindRank(RuleKinds[k]) == k
  {
    assert RuleKinds[0] == MissingTitle && RuleKinds[1] == MissingMeta && RuleKinds[2] == MissingH1;
    assert RuleKinds[3] == MultipleH1 && RuleKinds[4] == ThinContent && RuleKinds[5] == MissingCanonical;
    assert RuleKinds[6] == ImgNoAlt && RuleKinds[7] == ImgFormat && RuleKinds[8] == ImgNoSize;
  }

  /** The nine conditional pushes of a parsed page, in the source's order. */
  function PageRules(d: PageDetails, f: PageFeatures): (rules: seq<Rule>)
    ensures |rules| == |RuleKinds|
  {
    RuleKindsRanked();
    seq(|RuleKinds|, k requires 0 <= k < |RuleKinds| => Rule(Fires(RuleKinds[k], d, f), RuleIssue(RuleKinds[k], d, f)))
  }

  /** The rules' issue types strictly follow the rule-list order. */
  predicate RulesInOrder(rules: seq<Rule>) {
    forall i, j :: 0 <= i < j < |rules| ==> KindRank(rules[i].issue.kind) < KindRank(rules[j].issue.kind)
  }

  /** The issue types strictly follow the rule-list order. */
  predicate IssuesInOrder(issues: seq<Issue>) {
    forall i, j :: 0 <= i < j < |issues| ==> KindRank(issues[i].kind) < KindRank(issues[j].kind)
  }

  lemma PrependInOrder(x: Issue, t: seq<Issue>)
    requires IssuesInOrder(t)
    requires forall y :: y in t ==> KindRank(x.kind) < KindRank(y.kind)
    ensures IssuesInOrder([x] + t)
  {
    forall i, j | 0 <= i < j < |[x] + t|
      ensures KindRank(([x] + t)[i].kind) < KindRank(([x] + t)[j].kind)
    {
      assert ([x] + t)[j] == t[j - 1];
      if i > 0 {
        assert ([x] + t)[i] == t[i - 1];
      } else {
        assert t[j - 1] in t;
      }
    }
  }

  /** Firing keeps the rule order. */
  lemma {:induction false} FiredOrdered(rules: seq<Rule>)
    requires RulesInOrder(rules)
    ensures IssuesInOrder(Fired(rules))
  {
    if rules != [] {
      var rest := rules[1..];
      assert RulesInOrder(rest) by {
        forall i, j | 0 <= i < j < |rest|
          ensures KindRank(rest[i].issue.kind) < KindRank(rest[j].issue.kind)
        {
          assert rest[i] == rules[i + 1] && rest[j] == rules[j + 1];
        }
      }
      FiredOrdered(rest);
      if rules[0].fires {
        var t := Fired(rest);
        var x := rules[0].issue;
        forall y | y in t
          ensures KindRank(x.kind) < KindRank(y.kind)
        {
          var k :| 0 <= k < |rest| && rest[k].fires && rest[k].issue == y;
          assert rest[k] == rules[k + 1];
        }
        assert Fired(rules) == [x] + t;
        PrependInOrder(x, t);
      }
    }
  }

  predicate HasKind(issues: seq<Issue>, kind: IssueKind) {
    exists i :: 0 <= i < |issues| && issues[i].kind == kind
  }

  /** A parsed page's issues (the conditional pushes). */
  function ParsedPageIssues(d: PageDetails, f: PageFeatures): seq<Issue> {
    Fired(PageRules(d, f))
  }

  /** Each rule fires exactly when its condition holds, on its own, at most
      once, and the issues appear in rule order, each being its rule's issue. */
  lemma ParsedPageIssuesFacts(d: PageDetails, f: PageFeatures)
    ensures var issues := ParsedPageIssues(d, f);
      IssuesInOrder(issues)
      && (forall k :: 0 <= k < |RuleKinds| ==> (HasKind(issues, RuleKinds[k]) <==> Fires(RuleKinds[k], d, f)))
      && (forall x :: x in issues ==> KindRank(x.kind) < |RuleKinds| && x == RuleIssue(x.kind, d, f))
  {
    var rules := PageRules(d, f);
    var issues := Fired(rules);
    RuleKindsRanked();
    assert RulesInOrder(rules);
    FiredOrdered(rules);
    forall k | 0 <= k < |RuleKinds|
      ensures HasKind(issues, RuleKinds[k]) <==> rules[k].fires
    {
      if rules[k].fires {
        var i :| 0 <= i < |issues| && issues[i] == rules[k].issue;
      }
      if HasKind(issues, RuleKinds[k]) {
        var i :| 0 <= i < |issues| && issues[i].kind == RuleKinds[k];
        assert issues[i] in issues;
        var m :| 0 <= m < |rules| && rules[m].fires && rules[m].issue == issues[i];
      }
    }
  }

  /** The rule conditions in the source's own terms. */
  lemma ParsedPageRuleConditions(d: PageDetails, f: PageFeatures)
    ensures var issues := ParsedPageIssues(d, f);
      (HasKind(issues, MissingTitle) <==> d.title == "")
      && (HasKind(issues, MissingMeta) <==> d.metaDescription == "")
      && (HasKind(issues, MissingH1) <==> d.h1Count == 0)
      && (HasKind(issues, MultipleH1) <==> d.h1Count > 1)
      && (HasKind(issues, ThinContent) <==> d.wordCount < 300)
      && (HasKind(issues, MissingCanonical) <==> d.canonical.None?)
      && (HasKind(issues, ImgNoAlt) <==> f.imagesWithoutAlt > 0)
      && (HasKind(issues, ImgFormat) <==> f.images > 0 && f.modernImages == 0)
      && (HasKind(issues, ImgNoSize) <==> f.imagesWithoutSize > 2)
      && !(HasKind(issues, MissingH1) && HasKind(issues, MultipleH1))
  {
    ParsedPageIssuesFacts(d, f);
    assert RuleKinds[0] == MissingTitle && RuleKinds[1] == MissingMeta && RuleKinds[2] == MissingH1;
    assert RuleKinds[3] == MultipleH1 && RuleKinds[4] == ThinContent && RuleKinds[5] == MissingCanonical;
    assert RuleKinds[6] == ImgNoAlt && RuleKinds[7] == ImgFormat && RuleKinds[8] == ImgNoSize;
  }

  /** `attr || ""`: an absent or empty attribute reads as the empty string. */
  function OrEmpty(attr: Option<string>): (r: string)
    ensures r == "" <==> attr.None? || attr.value == ""
    ensures attr.Some? ==> r == attr.value
  {
    if attr.Some? then attr.value else ""
  }

  /** `attr || null`: an absent or empty attribute reads as no value. */
  function OrNull(attr: Option<string>): (r: Option<string>)
    ensures r.None? <==> attr.None? || attr.value == ""
    ensures r.Some? ==> r == attr
  {
    if attr.Some? && attr.value != "" then attr else None
  }

  /** The fields the parser reads off a page below status 400. */
  function Details(f: PageFeatures): PageDetails {
    PageDetails(Trim(f.titleText), OrEmpty(f.metaContent), f.h1Count, WordCount(f.bodyText), OrNull(f.canonicalHref))
  }

  /** `analyzePage`: never throws; every failure becomes a result. */
  function AnalyzePage(url: string, outcome: FetchOutcome): (r: PageResult)
    ensures r.url == url && r.loadTime == outcome.loadTime
    ensures 0 <= r.healthScore <= 100
    ensures outcome.Failed? ==>
      r.status == 0 && r.healthScore == 0 && r.details.None?
      && r.issues == [Issue(FetchError, Critical, outcome.message)]
    ensures outcome.Response? && outcome.status >= 400 ==>
      r.status == outcome.status && r.healthScore == 0 && r.details.None?
      && r.issues == [Issue(BrokenPage, Critical, "HTTP " + IntToString(outcome.status))]
    ensures outcome.Response? && outcome.status < 400 ==>
      r.status == outcome.status && r.details == Some(Details(outcome.page))
      && r.issues == ParsedPageIssues(Details(outcome.page), outcome.page)
      && r.healthScore == HealthScore(r.issues)
  {
    match outcome
    case Failed(loadTime, message) =>
      PageResult(url, 0, loadTime, None, 0, [Issue(FetchError, Critical, message)])
    case Response(status, loadTime, f) =>
      if status >= 400 then
        PageResult(url, status, loadTime, None, 0, [Issue(BrokenPage, Critical, "HTTP " + IntToString(status))])
      else
        var d := Details(f);
        var issues := ParsedPageIssues(d, f);
        PageResult(url, status, loadTime, Some(d), HealthScore(issues), issues)
  }

  /** An error status is reported without looking at the body. */
  lemma ErrorStatusIgnoresBody(url: string, status: int, loadTime: nat, f1: PageFeatures, f2: PageFeatures)
    requires status >= 400
    ensures AnalyzePage(url, Response(status, loadTime, f1)) == AnalyzePage(url, Response(status, loadTime, f2))
  {
  }
}
