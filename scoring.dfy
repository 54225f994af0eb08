/** The score formulas of `utils/scoring.js`: weighted averages, capped
    sums and threshold ladders. Weighted sums are computed over exact
    rationals and rounded with `Numeric.Round`. A parameter the caller leaves
    out takes the default of the destructuring pattern; callers in this model
    build the input records with those defaults written out. */
module Scoring {
  import opened Wrappers
  import opened Numeric
  import opened Issues

  // ------------------------------------------------------ authority score

  /** The five named parameters of `calculateAuthorityScore`. */
  datatype AuthorityInputs = AuthorityInputs(
    technicalHealth: int,
    searchVisibility: int,
    contentDepth: int,
    backlinkAuthority: int,
    brandSignals: int)

  predicate InPercent(x: int) {
    0 <= x <= 100
  }

  predicate AuthorityInRange(a: AuthorityInputs) {
    InPercent(a.technicalHealth) && InPercent(a.searchVisibility) && InPercent(a.contentDepth)
    && InPercent(a.backlinkAuthority) && InPercent(a.brandSignals)
  }

  /** The unrounded weighted sum. */
  function AuthorityWeighted(a: AuthorityInputs): real {
    a.technicalHealth as real * 0.25 + a.searchVisibility as real * 0.25 + a.contentDepth as real * 0.2
    + a.backlinkAuthority as real * 0.2 + a.brandSignals as real * 0.1
  }

  /** `calculateAuthorityScore`: the weights add up to one, so components in
      `[0, 100]` give a score in `[0, 100]`, and with every component equal
      the score is that value. */
  function CalculateAuthorityScore(a: AuthorityInputs): (r: int)
    ensures AuthorityInRange(a) ==> InPercent(r)
    ensures a.technicalHealth == a.searchVisibility == a.contentDepth == a.backlinkAuthority == a.brandSignals
            ==> r == a.technicalHealth
  {
    var w := AuthorityWeighted(a);
    RoundOfInteger(a.technicalHealth);
    RoundWithinWhen(w, 0, 100, AuthorityInRange(a));
    Round(w)
  }

  /** Raising one component never lowers the authority score. */
  lemma AuthorityMonotone(a: AuthorityInputs, b: AuthorityInputs)
    requires a.technicalHealth <= b.technicalHealth && a.searchVisibility <= b.searchVisibility
    requires a.contentDepth <= b.contentDepth && a.backlinkAuthority <= b.backlinkAuthority
    requires a.brandSignals <= b.brandSignals
    ensures CalculateAuthorityScore(a) <= CalculateAuthorityScore(b)
  {
    RoundMonotone(AuthorityWeighted(a), AuthorityWeighted(b));
  }

  /** The parameter object as JavaScript sees it: only the keys the caller
      wrote. A key that is absent takes the default 0. */
  function Param(args: map<string, int>, name: string): int {
    if name in args then args[name] else 0
  }

  /** Destructuring a call's argument object into the five named parameters. */
  function AuthorityArgs(args: map<string, int>): (a: AuthorityInputs)
    ensures a.technicalHealth == Param(args, "technicalHealth")
    ensures a.searchVisibility == Param(args, "searchVisibility")
    ensures a.contentDepth == Param(args, "contentDepth")
    ensures a.backlinkAuthority == Param(args, "backlinkAuthority")
    ensures a.brandSignals == Param(args, "brandSignals")
  {
    AuthorityInputs(Param(args, "technicalHealth"), Param(args, "searchVisibility"), Param(args, "contentDepth"),
                    Param(args, "backlinkAuthority"), Param(args, "brandSignals"))
  }

  /** An argument object that names none of the five parameters scores 0. */
  lemma AuthorityOfUnknownKeys(args: map<string, int>)
    requires "technicalHealth" !in args && "searchVisibility" !in args && "contentDepth" !in args
    requires "backlinkAuthority" !in args && "brandSignals" !in args
    ensures CalculateAuthorityScore(AuthorityArgs(args)) == 0
  {
    RoundOfInteger(0);
  }

  // ---------------------------------------------------- technical health

  /** The named parameters of `getTechnicalHealth`; `ttfb == None` is `null`. */
  datatype TechnicalInputs = TechnicalInputs(
    performance: int,
    accessibility: int,
    bestPractices: int,
    securityScore: int,
    hasSitemap: bool,
    hasRobots: bool,
    ttfb: Option<int>,
    redirectCount: int)

  /** The defaults for every parameter after the four scores. */
  function TechnicalDefaults(performance: int, accessibility: int, bestPractices: int, securityScore: int): TechnicalInputs {
    TechnicalInputs(performance, accessibility, bestPractices, securityScore, false, false, None, 0)
  }

  function TechnicalMean(t: TechnicalInputs): real {
    (t.performance + t.accessibility + t.bestPractices + t.securityScore) as real / 4.0
  }

  /** `score = Math.min(100, score + n)`. */
  function Bonus(score: real, n: real): (r: real)
    ensures r <= 100.0 && r <= score + n && (r == 100.0 || r == score + n)
  {
    if score + n <= 100.0 then score + n else 100.0
  }

  /** `score = Math.max(0, score - n)`. */
  function Penalty(score: real, n: real): (r: real)
    ensures r >= 0.0 && r >= score - n && (r == 0.0 || r == score - n)
  {
    if score - n >= 0.0 then score - n else 0.0
  }

  function TtfbAdjusted(score: real, ttfb: Option<int>): real {
    if ttfb.None? then score
    else if ttfb.value < 200 then Bonus(score, 4.0)
    else if ttfb.value > 800 then Penalty(score, 8.0)
    else score
  }

  function RedirectAdjusted(score: real, redirectCount: int): real {
    if redirectCount > 1 then Penalty(score, (redirectCount * 3) as real) else score
  }

  /** The unrounded score after the bonuses and penalties, in source order. */
  function TechnicalUnrounded(t: TechnicalInputs): real {
    var s0 := TechnicalMean(t);
    var s1 := if t.hasSitemap then Bonus(s0, 4.0) else s0;
    var s2 := if t.hasRobots then Bonus(s1, 2.0) else s1;
    var s3 := TtfbAdjusted(s2, t.ttfb);
    RedirectAdjusted(s3, t.redirectCount)
  }

  predicate TechnicalInRange(t: TechnicalInputs) {
    InPercent(t.performance) && InPercent(t.accessibility) && InPercent(t.bestPractices) && InPercent(t.securityScore)
  }

  /** A bonus or penalty keeps a score in `[0, 100]`. */
  lemma AdjustmentsKeepRange(s: real, t: TechnicalInputs)
    requires 0.0 <= s <= 100.0
    ensures 0.0 <= (if t.hasSitemap then Bonus(s, 4.0) else s) <= 100.0
    ensures 0.0 <= (if t.hasRobots then Bonus(s, 2.0) else s) <= 100.0
    ensures 0.0 <= TtfbAdjusted(s, t.ttfb) <= 100.0
    ensures 0.0 <= RedirectAdjusted(s, t.redirectCount) <= 100.0
  {
  }

  /** `getTechnicalHealth`: the rounded mean of the four scores, moved up by
      capped bonuses and down by floored penalties. With the four scores in
      `[0, 100]` the result is in `[0, 100]`; with the defaults for the other
      parameters it is the rounded mean. */
  function GetTechnicalHealth(t: TechnicalInputs): (r: int)
    ensures TechnicalInRange(t) ==> InPercent(r)
    ensures !t.hasSitemap && !t.hasRobots && t.ttfb.None? && t.redirectCount <= 1 ==> r == Round(TechnicalMean(t))
  {
    var s0 := TechnicalMean(t);
    if TechnicalInRange(t) then
      var s1 := if t.hasSitemap then Bonus(s0, 4.0) else s0;
      var s2 := if t.hasRobots then Bonus(s1, 2.0) else s1;
      var s3 := TtfbAdjusted(s2, t.ttfb);
      AdjustmentsKeepRange(s0, t);
      AdjustmentsKeepRange(s1, t);
      AdjustmentsKeepRange(s2, t);
      AdjustmentsKeepRange(s3, t);
      RoundWithin(TechnicalUnrounded(t), 0, 100);
      Round(TechnicalUnrounded(t))
    else
      Round(TechnicalUnrounded(t))
  }

  /** A time to first byte of `null` or within 200–800 ms changes nothing, and
      at most one redirect costs nothing. */
  lemma TechnicalHealthNeutral(t: TechnicalInputs)
    requires t.ttfb.None? || 200 <= t.ttfb.value <= 800
    requires t.redirectCount <= 1
    ensures GetTechnicalHealth(t) == GetTechnicalHealth(t.(ttfb := None, redirectCount := 0))
  {
  }

  lemma RedirectAdjustedMonotone(a: real, b: real, redirectCount: int)
    requires a <= b
    ensures RedirectAdjusted(a, redirectCount) <= RedirectAdjusted(b, redirectCount)
  {
  }

  /** A fast first byte never lowers the score and a slow one never raises it,
      for scores in range. */
  lemma TechnicalHealthTtfbDirection(t: TechnicalInputs, ms: int)
    requires TechnicalInRange(t) && t.ttfb.None?
    ensures ms < 200 ==> GetTechnicalHealth(t.(ttfb := Some(ms))) >= GetTechnicalHealth(t)
    ensures ms > 800 ==> GetTechnicalHealth(t.(ttfb := Some(ms))) <= GetTechnicalHealth(t)
  {
    var t' := t.(ttfb := Some(ms));
    var s0 := TechnicalMean(t);
    var s1 := if t.hasSitemap then Bonus(s0, 4.0) else s0;
    var s2 := if t.hasRobots then Bonus(s1, 2.0) else s1;
    AdjustmentsKeepRange(s0, t);
    AdjustmentsKeepRange(s1, t);
    assert TechnicalUnrounded(t) == RedirectAdjusted(s2, t.redirectCount);
    assert TechnicalUnrounded(t') == RedirectAdjusted(TtfbAdjusted(s2, Some(ms)), t.redirectCount);
    if ms < 200 {
      RedirectAdjustedMonotone(s2, TtfbAdjusted(s2, Some(ms)), t.redirectCount);
      RoundMonotone(TechnicalUnrounded(t), TechnicalUnrounded(t'));
    } else if ms > 800 {
      RedirectAdjustedMonotone(TtfbAdjusted(s2, Some(ms)), s2, t.redirectCount);
      RoundMonotone(TechnicalUnrounded(t'), TechnicalUnrounded(t));
    }
  }

  // ------------------------------------------------------ search visibility

  /** `Math.max(0, Math.round(100 - (avgKeywordRank - 1) * 5.3))`. */
  function RankScore(avgRank: real): (r: int)
    ensures r >= 0
    ensures avgRank >= 1.0 ==> r <= 100
  {
    RoundAtMostWhen(100.0 - (avgRank - 1.0) * 5.3, 100, avgRank >= 1.0);
    Max(0, Round(100.0 - (avgRank - 1.0) * 5.3))
  }

  /** The comment's calibration: rank 1 scores 100 and rank 20 scores 0. */
  lemma RankScoreCalibration()
    ensures RankScore(1.0) == 100
    ensures RankScore(20.0) == 0
  {
    RoundOfInteger(100);
    assert 100.0 - (20.0 - 1.0) * 5.3 == -0.7;
    assert Round(-0.7) == -1;
  }

  /** A better (smaller) average rank never scores lower. */
  lemma RankScoreAntitone(a: real, b: real)
    requires a <= b
    ensures RankScore(b) <= RankScore(a)
  {
    RoundMonotone(100.0 - (b - 1.0) * 5.3, 100.0 - (a - 1.0) * 5.3);
  }

  /** `getSearchVisibility`: `seo` unchanged when there is no average rank,
      otherwise a 60/40 blend with the rank score, in `[0, 100]` when `seo`
      is and the rank is at least 1. */
  function GetSearchVisibility(seo: int, avgKeywordRank: Option<real>): (r: int)
    ensures avgKeywordRank.None? ==> r == seo
    ensures avgKeywordRank.Some? && avgKeywordRank.value >= 1.0 && InPercent(seo) ==> InPercent(r)
  {
    if avgKeywordRank.None? then seo
    else
      var rs := RankScore(avgKeywordRank.value);
      var w := seo as real * 0.6 + rs as real * 0.4;
      RoundWithinWhen(w, 0, 100, avgKeywordRank.value >= 1.0 && InPercent(seo));
      Round(w)
  }

  // --------------------------------------------------------- brand signals

  function BrandUnrounded(domainAgeScore: int, schemaDetected: bool, ogTagsDetected: bool): real {
    domainAgeScore as real * 0.5 + (if schemaDetected then 30.0 else 0.0) + (if ogTagsDetected then 20.0 else 0.0)
  }

  /** `getBrandSignals`: half the domain-age score plus 30 for structured data
      and 20 for Open Graph tags, rounded and capped at 100. */
  function GetBrandSignals(domainAgeScore: int, schemaDetected: bool, ogTagsDetected: bool): (r: int)
    ensures r <= 100
    ensures domainAgeScore >= 0 ==> r >= 0
    ensures !schemaDetected && !ogTagsDetected ==> r == Min(100, Round(domainAgeScore as real / 2.0))
  {
    var w := BrandUnrounded(domainAgeScore, schemaDetected, ogTagsDetected);
    RoundWithinWhen(w, 0, 100 + domainAgeScore, domainAgeScore >= 0);
    Min(100, Round(w))
  }

  /** Each detected signal never lowers the brand score. */
  lemma BrandSignalsMonotone(d: int, s1: bool, o1: bool, s2: bool, o2: bool)
    requires (s1 ==> s2) && (o1 ==> o2)
    ensures GetBrandSignals(d, s1, o1) <= GetBrandSignals(d, s2, o2)
  {
    RoundMonotone(BrandUnrounded(d, s1, o1), BrandUnrounded(d, s2, o2));
  }

  // ------------------------------------------------------------ domain age

  /** `getDomainAgeScore`, with the age in years (the clock read done by the
      caller); `None` is a missing creation date. */
  function GetDomainAgeScore(years: Option<real>): (r: int)
    ensures r == 40 || r == 60 || r == 80 || r == 100
    ensures years.None? ==> r == 40
    ensures years.Some? ==> (r == 100 <==> years.value > 10.0)
    ensures years.Some? ==> (r == 40 <==> years.value <= 1.0)
  {
    if years.None? then 40
    else if years.value > 10.0 then 100
    else if years.value > 5.0 then 80
    else if years.value > 1.0 then 60
    else 40
  }

  /** An older domain never scores lower. */
  lemma DomainAgeMonotone(a: real, b: real)
    requires a <= b
    ensures GetDomainAgeScore(Some(a)) <= GetDomainAgeScore(Some(b))
  {
  }

  // ----------------------------------------------------- security headers

  /** The six response headers both score formulas check, in source order. */
  const SecurityHeaderNames: seq<string> := [
    "strict-transport-security",
    "x-frame-options",
    "x-content-type-options",
    "content-security-policy",
    "referrer-policy",
    "permissions-policy"
  ]

  /** `headers[h]` is truthy: the header is there with a non-empty value. */
  predicate HasHeader(headers: map<string, string>, h: string) {
    h in headers && headers[h] != ""
  }

  /** `checks.filter((h) => headers[h])`, in list order. */
  function PresentHeaders(names: seq<string>, headers: map<string, string>): (r: seq<string>)
    ensures |r| <= |names|
    ensures forall h :: h in r <==> h in names && HasHeader(headers, h)
  {
    if names == [] then []
    else (if HasHeader(headers, names[0]) then [names[0]] else []) + PresentHeaders(names[1..], headers)
  }

  /** `Math.round((present / 6) * 100)`. */
  function PercentOfSix(present: int): (r: int)
    ensures 0 <= present <= 6 ==> InPercent(r)
  {
    RoundWithinWhen(present as real / 6.0 * 100.0, 0, 100, 0 <= present <= 6);
    Round(present as real / 6.0 * 100.0)
  }

  /** The seven values a header count can score. */
  lemma PercentOfSixTable()
    ensures PercentOfSix(0) == 0 && PercentOfSix(1) == 17 && PercentOfSix(2) == 33 && PercentOfSix(3) == 50
    ensures PercentOfSix(4) == 67 && PercentOfSix(5) == 83 && PercentOfSix(6) == 100
  {
    assert Round(100.0 / 6.0) == 17;
    assert Round(200.0 / 6.0) == 33;
    assert Round(300.0 / 6.0) == 50;
    assert Round(400.0 / 6.0) == 67;
    assert Round(500.0 / 6.0) == 83;
    assert Round(600.0 / 6.0) == 100;
  }

  /** `getSecurityScore`: the share of the six headers that are present, as
      a rounded percentage. */
  function GetSecurityScore(headers: map<string, string>): (r: int)
    ensures InPercent(r)
  {
    PercentOfSix(|PresentHeaders(SecurityHeaderNames, headers)|)
  }

  /** No checked header present scores 0; all six score 100. */
  lemma SecurityScoreExtremes(headers: map<string, string>)
    ensures (forall h :: h in SecurityHeaderNames ==> !HasHeader(headers, h)) ==> GetSecurityScore(headers) == 0
    ensures (forall h :: h in SecurityHeaderNames ==> HasHeader(headers, h)) ==> GetSecurityScore(headers) == 100
  {
    var present := PresentHeaders(SecurityHeaderNames, headers);
    PercentOfSixTable();
    if forall h :: h in SecurityHeaderNames ==> !HasHeader(headers, h) {
      NonePresent(SecurityHeaderNames, headers);
    }
    if forall h :: h in SecurityHeaderNames ==> HasHeader(headers, h) {
      AllPresent(SecurityHeaderNames, headers);
    }
  }

  lemma {:induction false} NonePresent(names: seq<string>, headers: map<string, string>)
    requires forall h :: h in names ==> !HasHeader(headers, h)
    ensures PresentHeaders(names, headers) == []
  {
    if names != [] {
      NonePresent(names[1..], headers);
    }
  }

  lemma {:induction false} AllPresent(names: seq<string>, headers: map<string, string>)
    requires forall h :: h in names ==> HasHeader(headers, h)
    ensures PresentHeaders(names, headers) == names
  {
    if names != [] {
      AllPresent(names[1..], headers);
    }
  }

  // --------------------------------------------------------- content score

  /** The named parameters of `getContentScore`. */
  datatype ContentSignals = ContentSignals(
    wordCount: int,
    h1Count: int,
    schemaDetected: bool,
    ogTagsDetected: bool,
    canonicalDetected: bool,
    headingDepth: int)

  function WordPoints(words: int): (r: int)
    ensures 0 <= r <= 25
  {
    if words > 1000 then 25 else if words > 500 then 15 else if words > 200 then 8 else 0
  }

  function H1Points(h1s: int): (r: int)
    ensures 0 <= r <= 20
  {
    if h1s == 1 then 20 else if h1s > 1 then 10 else 0
  }

  function DepthPoints(depth: int): (r: int)
    ensures 0 <= r <= 15
  {
    if depth >= 3 then 15 else if depth >= 2 then 8 else 0
  }

  /** The uncapped sum of the bucket bonuses. */
  function ContentPoints(c: ContentSignals): int {
    WordPoints(c.wordCount) + H1Points(c.h1Count) + DepthPoints(c.headingDepth)
    + (if c.schemaDetected then 20 else 0) + (if c.ogTagsDetected then 10 else 0) + (if c.canonicalDetected then 10 else 0)
  }

  /** `getContentScore`: the bonuses summed and capped at 100. The largest
      possible sum is exactly 100, so the cap never changes the result. */
  function GetContentScore(c: ContentSignals): (r: int)
    ensures InPercent(r)
    ensures r == ContentPoints(c)
  {
    Min(ContentPoints(c), 100)
  }

  /** The maximum is reached: every bonus at its top bucket sums to 100. */
  lemma ContentScoreMaximum(c: ContentSignals)
    requires c.wordCount > 1000 && c.h1Count == 1 && c.headingDepth >= 3
    requires c.schemaDetected && c.ogTagsDetected && c.canonicalDetected
    ensures GetContentScore(c) == 100
  {
  }

  /** More words never lower the content score. */
  lemma ContentScoreWordsMonotone(c: ContentSignals, more: int)
    requires c.wordCount <= more
    ensures GetContentScore(c) <= GetContentScore(c.(wordCount := more))
  {
  }

  // ---------------------------------------------------- crawl health score

  /** The per-occurrence weight: critical 20, warning 8, anything else 3. */
  function SeverityWeight(s: Severity): (w: int)
    ensures w == 20 <==> s == Critical
    ensures w == 8 <==> s == Warning
    ensures w == 3 <==> s == Info
  {
    match s
    case Critical => 20
    case Warning => 8
    case Info => 3
  }

  /** The `reduce`: each summary entry costs its weight times its count,
      counting at most five occurrences. */
  function CrawlPenalties(issues: seq<IssueSummary>): (p: int)
    ensures 0 <= p <= 100 * |issues|
  {
    if issues == [] then 0
    else
      var last := issues[|issues| - 1];
      CrawlPenalties(issues[..|issues| - 1]) + SeverityWeight(last.severity) * Min(last.count, 5)
  }

  /** `getCrawlHealthScore`: 100 minus the penalties, floored at 0. */
  function GetCrawlHealthScore(issues: seq<IssueSummary>): (r: int)
    ensures InPercent(r)
    ensures issues == [] ==> r == 100
  {
    Max(0, 100 - CrawlPenalties(issues))
  }

  /** One more summary entry never raises the crawl health score. */
  lemma CrawlHealthAntitone(issues: seq<IssueSummary>, more: IssueSummary)
    ensures GetCrawlHealthScore(issues + [more]) <= GetCrawlHealthScore(issues)
  {
    assert (issues + [more])[..|issues|] == issues;
  }

  /** Five or more occurrences of one critical type already bring the score
      down to 0. */
  lemma CrawlHealthOfFiveCriticals(s: IssueSummary)
    requires s.severity == Critical && s.count >= 5
    ensures GetCrawlHealthScore([s]) == 0
  {
    assert [s][..0] == [];
  }

  // ------------------------------------------------------------- themes

  datatype ScoreLabel = Excellent | Good | NeedsWork

  /** The colour set `scoreTheme` returns for a score. */
  datatype Theme = Theme(tier: ScoreLabel, name: string, textClass: string, bgClass: string, borderClass: string, barClass: string, ring: string)

  /** `scoreTheme`: at least 80 is excellent, at least 60 good, anything else
      needs work. */
  function ScoreTheme(score: int): (t: Theme)
    ensures t.tier == Excellent <==> score >= 80
    ensures t.tier == Good <==> 60 <= score < 80
    ensures t.tier == NeedsWork <==> score < 60
  {
    if score >= 80 then
      Theme(Excellent, "Excellent", "text-emerald-400", "bg-emerald-500/10", "border-emerald-500/25", "bg-emerald-400", "#34d399")
    else if score >= 60 then
      Theme(Good, "Good", "text-yellow-400", "bg-yellow-500/10", "border-yellow-500/25", "bg-yellow-400", "#facc15")
    else
      Theme(NeedsWork, "Needs Work", "text-red-400", "bg-red-500/10", "border-red-500/25", "bg-red-400", "#f87171")
  }

  function LabelRank(l: ScoreLabel): nat {
    match l
    case Excellent => 0
    case Good => 1
    case NeedsWork => 2
  }

  /** A higher score never gets a worse label. */
  lemma ScoreThemeMonotone(a: int, b: int)
    requires a <= b
    ensures LabelRank(ScoreTheme(b).tier) <= LabelRank(ScoreTheme(a).tier)
  {
  }
}
