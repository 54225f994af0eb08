/** The recommendation engine of `utils/recommendations.js`: a fixed list of
    rules, one per audited area, each firing at most one priority-tagged
    record; the records sorted stably by priority and then effort; the gain
    estimate; the score tiers; and the top-issue and service-plan choices of
    the sales script. */
module Recommendations {
  import opened Wrappers
  import opened Numeric
  import opened Strings
  import opened Sorting

  // ---------------------------------------------------------- score tiers

  datatype Tier = Strong | Moderate | Developing | Weak | CriticalTier

  /** The part of a tier the rest of the program reads. */
  datatype ScoreRange = ScoreRange(tier: Tier, name: string, tagline: string, color: string)

  /** The ladder of `getScoreRange`: at least 85 strong, 70 moderate, 50
      developing, 30 weak, anything else critical. */
  function TierOf(score: int): (t: Tier)
    ensures t == Strong <==> score >= 85
    ensures t == Moderate <==> 70 <= score < 85
    ensures t == Developing <==> 50 <= score < 70
    ensures t == Weak <==> 30 <= score < 50
    ensures t == CriticalTier <==> score < 30
  {
    if score >= 85 then Strong
    else if score >= 70 then Moderate
    else if score >= 50 then Developing
    else if score >= 30 then Weak
    else CriticalTier
  }

  function TierName(t: Tier): string {
    match t
    case Strong => "Strong Authority"
    case Moderate => "Moderate Authority"
    case Developing => "Developing Authority"
    case Weak => "Weak Authority"
    case CriticalTier => "Critical Authority"
  }

  function Tagline(t: Tier): string {
    match t
    case Strong => "Your site has strong fundamentals. Focus on fine-tuning and staying ahead of competitors."
    case Moderate => "Solid foundation with clear room to grow. Targeted improvements will push you into the top tier."
    case Developing => "Multiple gaps are limiting your visibility. A structured improvement plan will deliver fast gains."
    case Weak => "Significant issues across multiple areas. Immediate action needed to compete in search."
    case CriticalTier => "Fundamental problems are preventing this site from ranking. Emergency fixes required."
  }

  function TierColor(t: Tier): string {
    match t
    case Strong => "emerald"
    case Moderate => "blue"
    case Developing => "yellow"
    case Weak => "orange"
    case CriticalTier => "red"
  }

  /** `getScoreRange`: the tier of the score with its texts. */
  function GetScoreRange(score: int): (r: ScoreRange)
    ensures r.tier == TierOf(score) && r.name == TierName(r.tier)
  {
    var t := TierOf(score);
    ScoreRange(t, TierName(t), Tagline(t), TierColor(t))
  }

  function TierRank(t: Tier): nat {
    match t
    case Strong => 0
    case Moderate => 1
    case Developing => 2
    case Weak => 3
    case CriticalTier => 4
  }

  /** A higher score never lands in a worse tier. */
  lemma ScoreRangeMonotone(a: int, b: int)
    requires a <= b
    ensures TierRank(TierOf(b)) <= TierRank(TierOf(a))
  {
  }

  // --------------------------------------------------------------- records

  datatype Priority = Critical | High | Medium | Low
  datatype Effort = Quick | MediumEffort | LongTerm
  datatype Tab = Technical | Overview

  /** The audited areas, one per rule, in the order the rules run. */
  datatype Area =
    | PageSpeed | ServerResponse | OnPageSeo | TitleTag | MetaDescription | H1Heading
    | CanonicalTags | SchemaMarkup | OpenGraph | ImageAlt | ContentDepth | WordCount
    | SecurityHeaders | RobotsTxt | XmlSitemap | RedirectChains | BacklinkAuthority | DomainAge

  const AreaOrder: seq<Area> := [
    PageSpeed, ServerResponse, OnPageSeo, TitleTag, MetaDescription, H1Heading,
    CanonicalTags, SchemaMarkup, OpenGraph, ImageAlt, ContentDepth, WordCount,
    SecurityHeaders, RobotsTxt, XmlSitemap, RedirectChains, BacklinkAuthority, DomainAge
  ]

  function AreaRank(a: Area): nat {
    match a
    case PageSpeed => 0
    case ServerResponse => 1
    case OnPageSeo => 2
    case TitleTag => 3
    case MetaDescription => 4
    case H1Heading => 5
    case CanonicalTags => 6
    case SchemaMarkup => 7
    case OpenGraph => 8
    case ImageAlt => 9
    case ContentDepth => 10
    case WordCount => 11
    case SecurityHeaders => 12
    case RobotsTxt => 13
    case XmlSitemap => 14
    case RedirectChains => 15
    case BacklinkAuthority => 16
    case DomainAge => 17
  }

  /** The `area` string of each rule. */
  function AreaName(a: Area): string {
    match a
    case PageSpeed => "Page Speed"
    case ServerResponse => "Server Response Time"
    case OnPageSeo => "On-Page SEO"
    case TitleTag => "Page Title Tag"
    case MetaDescription => "Meta Description"
    case H1Heading => "H1 Heading Tag"
    case CanonicalTags => "Canonical Tags"
    case SchemaMarkup => "Schema Markup"
    case OpenGraph => "Open Graph / Social Tags"
    case ImageAlt => "Image Alt Text"
    case ContentDepth => "Content Depth"
    case WordCount => "Word Count"
    case SecurityHeaders => "Security Headers"
    case RobotsTxt => "Robots.txt"
    case XmlSitemap => "XML Sitemap"
    case RedirectChains => "Redirect Chains"
    case BacklinkAuthority => "Backlink Authority"
    case DomainAge => "Domain Age"
  }

  /** One pushed record; `area` is the rule that produced it. */
  datatype Rec = Rec(
    priority: Priority, area: Area, issue: string, impact: string, service: string,
    effort: Effort, scoreEffect: string, minGain: nat, maxGain: nat, tab: Tab)

  /** The audit fields the rules read. A JavaScript falsy string is `""`; a
      `null` time to first byte is `None`, which no threshold exceeds. */
  datatype Report = Report(
    performance: int, ttfb: Option<int>, seo: int, title: string, metaDescription: string,
    h1Count: int, canonicalDetected: bool, schemaDetected: bool, ogTagsDetected: bool,
    imageWithoutAlt: int, contentScore: int, wordCount: int, securityScore: int,
    securityGrade: string, securityHeadersPresent: int, securityHeadersTotal: int,
    robotsDisallowAll: bool, hasRobots: bool, hasSitemap: bool, redirectCount: int,
    domainAgeScore: int, domainAge: Option<string>)

  /** The `scoreEffect` text `+min–max pts`. */
  function ScoreEffect(minGain: nat, maxGain: nat): string {
    "+" + NatToString(minGain) + "\U{2013}" + NatToString(maxGain) + " pts"
  }

  /** Which branch of a rule fires, named by its priority (within one rule the
      branches have distinct priorities); `None` when no branch fires. Each
      rule is an if/else-if chain, so at most one branch fires. */
  function Branch(a: Area, r: Report): Option<Priority> {
    match a
    case PageSpeed =>
      if r.performance < 50 then Some(Critical)
      else if r.performance < 75 then Some(High)
      else if r.performance < 90 then Some(Medium)
      else None
    case ServerResponse =>
      if r.ttfb.Some? && r.ttfb.value > 1500 then Some(Critical)
      else if r.ttfb.Some? && r.ttfb.value > 800 then Some(High)
      else None
    case OnPageSeo =>
      if r.seo < 60 then Some(Critical) else if r.seo < 80 then Some(High) else None
    case TitleTag =>
      if r.title == "" then Some(Critical) else None
    case MetaDescription =>
      if r.metaDescription == "" then Some(High) else None
    case H1Heading =>
      if r.h1Count == 0 then Some(Critical) else if r.h1Count > 1 then Some(Medium) else None
    case CanonicalTags =>
      if !r.canonicalDetected then Some(Medium) else None
    case SchemaMarkup =>
      if !r.schemaDetected then Some(High) else None
    case OpenGraph =>
      if !r.ogTagsDetected then Some(Medium) else None
    case ImageAlt =>
      if r.imageWithoutAlt > 0 then Some(Medium) else None
    case ContentDepth =>
      if r.contentScore < 40 then Some(Critical) else if r.contentScore < 65 then Some(High) else None
    case WordCount =>
      if r.wordCount < 300 then Some(Critical) else if r.wordCount < 600 then Some(Medium) else None
    case SecurityHeaders =>
      if r.securityScore < 20 then Some(Critical)
      else if r.securityScore < 50 then Some(High)
      else if r.securityScore < 80 then Some(Medium)
      else None
    case RobotsTxt =>
      if r.robotsDisallowAll then Some(Critical) else if !r.hasRobots then Some(Medium) else None
    case XmlSitemap =>
      if !r.hasSitemap then Some(High) else None
    case RedirectChains =>
      if r.redirectCount > 2 then Some(High) else None
    case BacklinkAuthority =>
      Some(High)
    case DomainAge =>
      if r.domainAgeScore < 60 then Some(Low) else None
  }

  /** The `minGain` and `maxGain` of the branch of rule `a` with priority `p`;
      pairs no rule has get a placeholder. */
  function Gains(a: Area, p: Priority): (g: (nat, nat))
    ensures g.0 < g.1
  {
    match (a, p)
    case (PageSpeed, Critical) => (8, 12)
    case (PageSpeed, High) => (5, 8)
    case (PageSpeed, Medium) => (2, 5)
    case (ServerResponse, Critical) => (5, 10)
    case (ServerResponse, High) => (3, 6)
    case (OnPageSeo, Critical) => (12, 20)
    case (OnPageSeo, High) => (8, 12)
    case (TitleTag, Critical) => (3, 6)
    case (MetaDescription, High) => (2, 4)
    case (H1Heading, Critical) => (3, 5)
    case (H1Heading, Medium) => (1, 3)
    case (CanonicalTags, Medium) => (1, 3)
    case (SchemaMarkup, High) => (3, 6)
    case (OpenGraph, Medium) => (1, 2)
    case (ImageAlt, Medium) => (1, 3)
    case (ContentDepth, Critical) => (8, 15)
    case (ContentDepth, High) => (5, 10)
    case (WordCount, Critical) => (4, 8)
    case (WordCount, Medium) => (2, 4)
    case (SecurityHeaders, Critical) => (6, 10)
    case (SecurityHeaders, High) => (4, 7)
    case (SecurityHeaders, Medium) => (2, 4)
    case (RobotsTxt, Critical) => (20, 30)
    case (RobotsTxt, Medium) => (1, 2)
    case (XmlSitemap, High) => (2, 4)
    case (RedirectChains, High) => (2, 5)
    case (BacklinkAuthority, High) => (10, 20)
    case (DomainAge, Low) => (3, 8)
    case _ => (0, 1)
  }


  /** The `effort` of each branch. */
  function EffortOf(a: Area, p: Priority): Effort
  {
    match (a, p)
    case (PageSpeed, Critical) => MediumEffort
    case (PageSpeed, High) => MediumEffort
    case (PageSpeed, Medium) => Quick
    case (ServerResponse, Critical) => Quick
    case (ServerResponse, High) => Quick
    case (OnPageSeo, Critical) => MediumEffort
    case (OnPageSeo, High) => MediumEffort
    case (TitleTag, Critical) => Quick
    case (MetaDescription, High) => Quick
    case (H1Heading, Critical) => Quick
    case (H1Heading, Medium) => Quick
    case (CanonicalTags, Medium) => Quick
    case (SchemaMarkup, High) => MediumEffort
    case (OpenGraph, Medium) => Quick
    case (ImageAlt, Medium) => Quick
    case (ContentDepth, Critical) => LongTerm
    case (ContentDepth, High) => MediumEffort
    case (WordCount, Critical) => MediumEffort
    case (WordCount, Medium) => MediumEffort
    case (SecurityHeaders, Critical) => Quick
    case (SecurityHeaders, High) => Quick
    case (SecurityHeaders, Medium) => Quick
    case (RobotsTxt, Critical) => Quick
    case (RobotsTxt, Medium) => Quick
    case (XmlSitemap, High) => Quick
    case (RedirectChains, High) => Quick
    case (BacklinkAuthority, High) => LongTerm
    case (DomainAge, Low) => LongTerm
    case _ => Quick
  }


  /** The `tab` of each branch. */
  function TabOf(a: Area, p: Priority): Tab
  {
    match (a, p)
    case (PageSpeed, Critical) => Technical
    case (PageSpeed, High) => Technical
    case (PageSpeed, Medium) => Technical
    case (ServerResponse, Critical) => Technical
    case (ServerResponse, High) => Technical
    case (OnPageSeo, Critical) => Overview
    case (OnPageSeo, High) => Overview
    case (TitleTag, Critical) => Overview
    case (MetaDescription, High) => Overview
    case (H1Heading, Critical) => Overview
    case (H1Heading, Medium) => Overview
    case (CanonicalTags, Medium) => Overview
    case (SchemaMarkup, High) => Overview
    case (OpenGraph, Medium) => Overview
    case (ImageAlt, Medium) => Overview
    case (ContentDepth, Critical) => Overview
    case (ContentDepth, High) => Overview
    case (WordCount, Critical) => Overview
    case (WordCount, Medium) => Overview
    case (SecurityHeaders, Critical) => Technical
    case (SecurityHeaders, High) => Technical
    case (SecurityHeaders, Medium) => Technical
    case (RobotsTxt, Critical) => Technical
    case (RobotsTxt, Medium) => Technical
    case (XmlSitemap, High) => Technical
    case (RedirectChains, High) => Technical
    case (BacklinkAuthority, High) => Overview
    case (DomainAge, Low) => Overview
    case _ => Overview
  }


  /** The `service` text of each branch. */
  function Service(a: Area, p: Priority): string
  {
    match (a, p)
    case (PageSpeed, Critical) => 
      "Page Speed & Core Web Vitals Optimization"
    case (PageSpeed, High) => 
      "Performance Optimization Package"
    case (PageSpeed, Medium) => 
      "Core Web Vitals Tuning"
    case (ServerResponse, Critical) => 
      "Hosting Upgrade + Server-Side Optimization"
    case (ServerResponse, High) => 
      "Server Performance Optimization"
    case (OnPageSeo, Critical) => 
      "Full On-Page SEO Audit & Implementation"
    case (OnPageSeo, High) => 
      "On-Page SEO Optimization Package"
    case (TitleTag, Critical) => 
      "Technical SEO Fix (same-day turnaround)"
    case (MetaDescription, High) => 
      "Meta Tag Copywriting Service"
    case (H1Heading, Critical) => 
      "Content Structure Optimization"
    case (H1Heading, Medium) => 
      "On-Page Content Restructure"
    case (CanonicalTags, Medium) => 
      "Technical SEO Implementation"
    case (SchemaMarkup, High) => 
      "Schema Markup Implementation"
    case (OpenGraph, Medium) => 
      "Social Meta Tag Setup"
    case (ImageAlt, Medium) => 
      "Image SEO Optimization"
    case (ContentDepth, Critical) => 
      "Content Strategy & Writing Package"
    case (ContentDepth, High) => 
      "Content Optimization & Expansion"
    case (WordCount, Critical) => 
      "Homepage Content Rewrite (1,000+ words)"
    case (WordCount, Medium) => 
      "Content Expansion Service"
    case (SecurityHeaders, Critical) => 
      "Security Hardening Package"
    case (SecurityHeaders, High) => 
      "Security Headers Implementation"
    case (SecurityHeaders, Medium) => 
      "Security Audit & Header Fix"
    case (RobotsTxt, Critical) => 
      "Emergency Robots.txt Fix (same-day)"
    case (RobotsTxt, Medium) => 
      "Robots.txt Setup & Configuration"
    case (XmlSitemap, High) => 
      "Sitemap Creation & Search Console Submission"
    case (RedirectChains, High) => 
      "Redirect Chain Cleanup & 301 Audit"
    case (BacklinkAuthority, High) => 
      "Monthly Link Building Campaign"
    case (DomainAge, Low) => 
      "Accelerated Authority Building Package"
    case _ => ""
  }

  /** The `impact` text of each branch. */
  function Impact(a: Area, p: Priority): string
  {
    match (a, p)
    case (PageSpeed, Critical) => 
      "Pages load too slowly \U{2014} Google uses Core Web Vitals as a ranking signal and users abandon slow sites."
    case (PageSpeed, High) => 
      "Slow load times cost you rankings and reduce conversions by up to 7% per second of delay."
    case (PageSpeed, Medium) => 
      "Fine-tuning Core Web Vitals improves conversion rates and maintains ranking advantage."
    case (ServerResponse, Critical) => 
      "Server response time is the first bottleneck affecting every page \U{2014} Google and users both penalize it."
    case (ServerResponse, High) => 
      "Slow server response compounds all other speed issues and tanks Core Web Vitals scores."
    case (OnPageSeo, Critical) => 
      "Major on-page issues are blocking search engine visibility across all target keywords."
    case (OnPageSeo, High) => 
      "Missing optimizations are limiting keyword rankings and organic traffic potential."
    case (TitleTag, Critical) => 
      "Title tags are the single most important on-page SEO element \U{2014} Google will auto-generate a poor substitute."
    case (MetaDescription, High) => 
      "Missing meta descriptions reduce click-through rates from search results by up to 30%."
    case (H1Heading, Critical) => 
      "H1 is the primary on-page keyword signal for Google \U{2014} its absence directly hurts rankings."
    case (H1Heading, Medium) => 
      "Multiple H1s dilute keyword focus and confuse search engines about your primary topic."
    case (CanonicalTags, Medium) => 
      "Without canonicals, duplicate content can split link equity and cause indexing confusion."
    case (SchemaMarkup, High) => 
      "Schema enables rich snippets in Google search results \U{2014} proven to increase click-through rates by 20\U{2013}30%."
    case (OpenGraph, Medium) => 
      "Missing OG tags create unprofessional link previews on social media \U{2014} hurts brand trust and traffic."
    case (ImageAlt, Medium) => 
      "Alt text is used by Google for image search ranking and accessibility \U{2014} missing it loses traffic."
    case (ContentDepth, Critical) => 
      "Thin content is a major Google ranking factor \U{2014} sites with comprehensive content dominate SERPs."
    case (ContentDepth, High) => 
      "More comprehensive content signals expertise and authority to Google \U{2014} a key ranking factor."
    case (WordCount, Critical) => 
      "Pages under 300 words rarely rank in competitive niches. Competitors with 1,000+ words outrank thin pages."
    case (WordCount, Medium) => 
      "More content gives Google more signals to accurately rank your page for target keywords."
    case (SecurityHeaders, Critical) => 
      "Severe security gaps expose visitors to attacks and can trigger Google 'Not Secure' warnings that kill conversions."
    case (SecurityHeaders, High) => 
      "Missing security headers leave the site vulnerable to clickjacking and cross-site scripting attacks."
    case (SecurityHeaders, Medium) => 
      "Incomplete security headers are checked by Google as part of the Best Practices score."
    case (RobotsTxt, Critical) => 
      "This site is completely invisible to Google \U{2014} it cannot rank for any keyword."
    case (RobotsTxt, Medium) => 
      "Missing robots.txt means uncontrolled crawler access \U{2014} sensitive pages may get indexed."
    case (XmlSitemap, High) => 
      "Without a sitemap, Google may miss important pages \U{2014} especially critical for sites with 10+ pages."
    case (RedirectChains, High) => 
      "Each redirect in the chain adds load time, dilutes link equity, and can cause crawl budget waste."
    case (BacklinkAuthority, High) => 
      "Backlinks are Google's #1 ranking signal \U{2014} 20% of your Authority Score is untapped. Competitors with strong link profiles will always outrank you regardless of on-page work."
    case (DomainAge, Low) => 
      "Newer domains have lower inherent trust with Google \U{2014} aggressive link building can accelerate authority building."
    case _ => ""
  }

  /** The `issue` text of the branch, with the report's numbers interpolated. */
  function IssueText(a: Area, p: Priority, r: Report): string {
    match (a, p)
    case (PageSpeed, Critical) => "Critical performance score (" + IntToString(r.performance) + "/100)"
    case (PageSpeed, High) => "Below-average performance score (" + IntToString(r.performance) + "/100)"
    case (PageSpeed, _) => "Performance score could be stronger (" + IntToString(r.performance) + "/100)"
    case (ServerResponse, Critical) =>
      "TTFB is " + IntToString(r.ttfb.GetOr(0)) + "ms \U{2014} critically slow (target: <200ms)"
    case (ServerResponse, _) => "TTFB is " + IntToString(r.ttfb.GetOr(0)) + "ms \U{2014} above 800ms warning threshold"
    case (OnPageSeo, Critical) => "SEO score is critically low (" + IntToString(r.seo) + "/100)"
    case (OnPageSeo, _) => "SEO score has significant gaps (" + IntToString(r.seo) + "/100)"
    case (TitleTag, _) => "Homepage has no <title> tag"
    case (MetaDescription, _) => "No meta description detected"
    case (H1Heading, Critical) => "No H1 heading found on the homepage"
    case (H1Heading, _) => IntToString(r.h1Count) + " H1 tags detected (should be exactly 1)"
    case (CanonicalTags, _) => "No canonical tag on homepage"
    case (SchemaMarkup, _) => "No structured data (JSON-LD) detected"
    case (OpenGraph, _) => "No Open Graph tags found"
    case (ImageAlt, _) =>
      IntToString(r.imageWithoutAlt) + " image" + (if r.imageWithoutAlt > 1 then "s" else "") + " missing alt text"
    case (ContentDepth, Critical) => "Content score is very low (" + IntToString(r.contentScore) + "/100)"
    case (ContentDepth, _) => "Content score needs improvement (" + IntToString(r.contentScore) + "/100)"
    case (WordCount, Critical) =>
      "Homepage has only " + IntToString(r.wordCount) + " words \U{2014} Google calls this \"thin content\""
    case (WordCount, _) =>
      "Homepage word count (" + IntToString(r.wordCount) + ") is below the recommended 600+ minimum"
    case (SecurityHeaders, Critical) =>
      "Security grade: " + r.securityGrade + " \U{2014} only " + IntToString(r.securityHeadersPresent) + "/"
      + IntToString(r.securityHeadersTotal) + " headers present"
    case (SecurityHeaders, High) => "Security grade: " + r.securityGrade + " \U{2014} missing critical headers"
    case (SecurityHeaders, _) => "Security score is " + IntToString(r.securityScore) + "/100 \U{2014} some headers missing"
    case (RobotsTxt, Critical) => "robots.txt is blocking ALL search engine crawlers (Disallow: /)"
    case (RobotsTxt, _) => "No robots.txt file detected"
    case (XmlSitemap, _) => "No sitemap.xml found"
    case (RedirectChains, _) => IntToString(r.redirectCount) + " redirect hops detected"
    case (BacklinkAuthority, _) => "Backlinks are contributing 0% to your Authority Score"
    case (DomainAge, _) =>
      "Domain is relatively new ("
      + (if r.domainAge.Some? && r.domainAge.value != "" then r.domainAge.value + " years" else "age unknown") + ")"
  }

  /** The `add` closure. */
  function MakeRec(a: Area, p: Priority, issue: string): (x: Rec)
    ensures x.area == a && x.priority == p && x.issue == issue
    ensures x.minGain < x.maxGain && x.scoreEffect == ScoreEffect(x.minGain, x.maxGain)
  {
    var g := Gains(a, p);
    Rec(p, a, issue, Impact(a, p), Service(a, p), EffortOf(a, p), ScoreEffect(g.0, g.1), g.0, g.1, TabOf(a, p))
  }

  /** What rule `a` pushes, if anything. */
  function AreaRec(a: Area, r: Report): Option<Rec> {
    match Branch(a, r)
    case None => None
    case Some(p) => Some(MakeRec(a, p, IssueText(a, p, r)))
  }

  /** Each rule's record is about the rule's own area. */
  lemma AreaRecArea(r: Report)
    ensures forall a :: AreaRec(a, r).Some? ==> AreaRec(a, r).value.area == a
  {
  }

  /** The records pushed by the rules of `areas`, in push order, where `rule`
      gives what each rule pushes. */
  function PushedBy(areas: seq<Area>, rule: Area -> Option<Rec>): seq<Rec>
    decreases |areas|
  {
    if areas == [] then []
    else
      var n := |areas| - 1;
      PushedBy(areas[..n], rule) + (match rule(areas[n]) case None => [] case Some(x) => [x])
  }

  /** The rules for report `r`, as a function of the area. */
  function Rule(r: Report): Area -> Option<Rec> {
    a => AreaRec(a, r)
  }

  /** The records pushed by the rules of `areas` for report `r`. */
  function Pushed(areas: seq<Area>, r: Report): seq<Rec> {
    PushedBy(areas, Rule(r))
  }

  /** The `priorityOrder`/`effortOrder` comparator as a key. */
  function PriorityRank(p: Priority): (n: nat)
    ensures n <= 3 && (n == 0 <==> p == Critical) && (n == 1 <==> p == High)
    ensures n == 2 <==> p == Medium
  {
    match p
    case Critical => 0
    case High => 1
    case Medium => 2
    case Low => 3
  }

  function EffortRank(e: Effort): (n: nat)
    ensures n <= 2 && (n == 0 <==> e == Quick) && (n == 1 <==> e == MediumEffort)
  {
    match e
    case Quick => 0
    case MediumEffort => 1
    case LongTerm => 2
  }

  function AreaOf(x: Rec): Area {
    x.area
  }

  function RecKey(x: Rec): Key {
    Key(PriorityRank(x.priority), EffortRank(x.effort))
  }

  /** `generateRecommendations`: the pushed records, sorted stably. */
  function GenerateRecommendations(r: Report): seq<Rec> {
    SortBy(Pushed(AreaOrder, r), RecKey)
  }

  // ------------------------------------------------------ rule properties

  lemma AreaOrderRanked()
    ensures |AreaOrder| == 18
    ensures forall k :: 0 <= k < 18 ==> AreaRank(AreaOrder[k]) == k
  {
  }

  predicate AreasDistinct(areas: seq<Area>) {
    forall i, j :: 0 <= i < |areas| && 0 <= j < |areas| && i != j ==> areas[i] != areas[j]
  }

  /** A rule function whose records are about their own areas. */
  predicate AreaFaithful(rule: Area -> Option<Rec>) {
    forall a :: rule(a).Some? ==> rule(a).value.area == a
  }

  /** Each pushed record is what its own rule gives. */
  lemma {:induction false} PushedByMembers(areas: seq<Area>, rule: Area -> Option<Rec>)
    requires AreaFaithful(rule)
    ensures forall x :: x in PushedBy(areas, rule) ==> x.area in areas && rule(x.area) == Some(x)
    decreases |areas|
  {
    if areas != [] {
      var n := |areas| - 1;
      PushedByMembers(areas[..n], rule);
      assert forall a :: a in areas[..n] ==> a in areas;
    }
  }

  /** Every rule that fires is represented. */
  lemma {:induction false} PushedByComplete(areas: seq<Area>, rule: Area -> Option<Rec>)
    ensures forall a :: a in areas && rule(a).Some? ==> rule(a).value in PushedBy(areas, rule)
    decreases |areas|
  {
    if areas != [] {
      var n := |areas| - 1;
      PushedByComplete(areas[..n], rule);
      assert forall a :: a in areas ==> a in areas[..n] || a == areas[n];
    }
  }

  /** Over distinct rules no two pushed records share an area. */
  lemma {:induction false} PushedByDistinct(areas: seq<Area>, rule: Area -> Option<Rec>)
    requires AreasDistinct(areas) && AreaFaithful(rule)
    ensures DistinctBy(PushedBy(areas, rule), AreaOf)
    decreases |areas|
  {
    if areas != [] {
      var n := |areas| - 1;
      var prev := areas[..n];
      assert AreasDistinct(prev) by {
        forall i, j | 0 <= i < |prev| && 0 <= j < |prev| && i != j
          ensures prev[i] != prev[j]
        {
          assert prev[i] == areas[i] && prev[j] == areas[j];
        }
      }
      PushedByDistinct(prev, rule);
      PushedByMembers(prev, rule);
      var p := PushedBy(prev, rule);
      var tail: seq<Rec> := match rule(areas[n]) case None => [] case Some(x) => [x];
      var q := p + tail;
      assert PushedBy(areas, rule) == q;
      forall x | x in p
        ensures x.area != areas[n]
      {
        var i :| 0 <= i < n && prev[i] == x.area;
        assert areas[i] == x.area;
      }
      forall i, j | 0 <= i < |q| && 0 <= j < |q| && i != j
        ensures q[i].area != q[j].area
      {
        if i < |p| && j < |p| {
          assert q[i] == p[i] && q[j] == p[j];
        } else if i < |p| {
          assert q[i] == p[i] && q[i] in p;
        } else if j < |p| {
          assert q[j] == p[j] && q[j] in p;
        }
      }
    }
  }

  /** The pushed records, sorted by `RecKey`: sorted, a permutation, stable
      among equal keys, one record per area, each its own rule's record. */
  lemma SortedPushFacts(areas: seq<Area>, rule: Area -> Option<Rec>)
    requires AreasDistinct(areas) && AreaFaithful(rule)
    ensures var pushed := PushedBy(areas, rule);
      var out := SortBy(pushed, RecKey);
      SortedBy(out, RecKey)
      && multiset(out) == multiset(pushed)
      && (forall k: Key :: WithKey(out, RecKey, k) == WithKey(pushed, RecKey, k))
      && DistinctBy(out, AreaOf)
      && (forall x :: x in out <==> x in pushed)
      && (forall x :: x in out ==> x.area in areas && rule(x.area) == Some(x))
      && (forall a :: a in areas && rule(a).Some? ==> rule(a).value in out)
  {
    var pushed := PushedBy(areas, rule);
    var key := RecKey;
    var out := SortBy(pushed, key);
    PushedByMembers(areas, rule);
    PushedByComplete(areas, rule);
    PushedByDistinct(areas, rule);
    SortByIsSorted(pushed, key);
    SortByPermutes(pushed, key);
    forall k
      ensures WithKey(out, key, k) == WithKey(pushed, key, k)
    {
      SortByIsStable(pushed, key, k);
    }
    PermutationKeepsDistinctBy(pushed, out, AreaOf);
    forall x
      ensures x in out <==> x in pushed
    {
      assert x in multiset(out) <==> x in multiset(pushed);
    }
  }

  /** The rule order has each of the 18 rules once. */
  lemma AreaOrderDistinct()
    ensures AreasDistinct(AreaOrder)
  {
    AreaOrderRanked();
    forall i, j | 0 <= i < |AreaOrder| && 0 <= j < |AreaOrder| && i != j
      ensures AreaOrder[i] != AreaOrder[j]
    {
      assert AreaRank(AreaOrder[i]) == i && AreaRank(AreaOrder[j]) == j;
    }
  }

  /** The rules of `AreaOrder` for any report, as the generic lemmas need
      them. */
  lemma RulesWellFormed(r: Report)
    ensures AreasDistinct(AreaOrder) && AreaFaithful(Rule(r))
    ensures forall a :: a in AreaOrder
  {
    AreaRecArea(r);
    AreaOrderDistinct();
    AreaOrderRanked();
    forall a
      ensures a in AreaOrder
    {
      assert AreaOrder[AreaRank(a)] == a;
    }
  }

  /** The output is sorted by priority then effort, is a permutation of the
      pushed records, keeps rule order among equal keys, and has at most one
      record per area. */
  lemma RecommendationsOrder(r: Report)
    ensures var out := GenerateRecommendations(r);
      var pushed := Pushed(AreaOrder, r);
      SortedBy(out, RecKey)
      && multiset(out) == multiset(pushed)
      && (forall k: Key :: WithKey(out, RecKey, k) == WithKey(pushed, RecKey, k))
      && DistinctBy(out, AreaOf)
  {
    RulesWellFormed(r);
    SortedPushFacts(AreaOrder, Rule(r));
  }

  /** Each output record is its own rule's record, and every rule that fires
      is in the output. */
  lemma RecommendationsMembers(r: Report)
    ensures forall x :: x in GenerateRecommendations(r) ==> Rule(r)(x.area) == Some(x)
    ensures forall a :: Rule(r)(a).Some? ==> Rule(r)(a).value in GenerateRecommendations(r)
  {
    RulesWellFormed(r);
    SortedPushFacts(AreaOrder, Rule(r));
  }

  /** The backlink rule always fires, at high priority. */
  lemma BacklinkRule(r: Report)
    ensures Rule(r)(BacklinkAuthority).Some? && Rule(r)(BacklinkAuthority).value.priority == High
    ensures Rule(r)(BacklinkAuthority).value.area == BacklinkAuthority
  {
    assert Branch(BacklinkAuthority, r) == Some(High);
  }

  /** At least one record, and exactly one for backlinks, which is high
      priority. */
  lemma BacklinkAlwaysPresent(r: Report)
    ensures var out := GenerateRecommendations(r);
      |out| >= 1
      && (exists i :: 0 <= i < |out| && out[i].area == BacklinkAuthority && out[i].priority == High)
      && (forall i, j ::
            (0 <= i < |out| && 0 <= j < |out| && out[i].area == BacklinkAuthority && out[j].area == BacklinkAuthority)
            ==> i == j)
  {
    var out := GenerateRecommendations(r);
    BacklinkRule(r);
    RecommendationsMembers(r);
    RecommendationsOrder(r);
    var b := Rule(r)(BacklinkAuthority).value;
    assert b in out;
    var i :| 0 <= i < |out| && out[i] == b;
    forall i, j | 0 <= i < |out| && 0 <= j < |out| && out[i].area == BacklinkAuthority && out[j].area == BacklinkAuthority
      ensures i == j
    {
      assert AreaOf(out[i]) == AreaOf(out[j]);
    }
  }

  /** With a disallow-all robots.txt the robots rule fires critically. */
  lemma RobotsRule(r: Report)
    requires r.robotsDisallowAll
    ensures Rule(r)(RobotsTxt).Some? && Rule(r)(RobotsTxt).value.priority == Critical
  {
    assert Branch(RobotsTxt, r) == Some(Critical);
  }

  /** A robots.txt that disallows everything gets the critical record and
      never the "missing robots.txt" one. */
  lemma DisallowAllSuppressesMissingRobots(r: Report)
    requires r.robotsDisallowAll
    ensures forall x :: x in GenerateRecommendations(r) && x.area == RobotsTxt ==> x.priority == Critical
    ensures exists x :: x in GenerateRecommendations(r) && x.area == RobotsTxt
  {
    RobotsRule(r);
    RecommendationsMembers(r);
    var x := Rule(r)(RobotsTxt).value;
    AreaRecArea(r);
    assert x.area == RobotsTxt;
    assert x in GenerateRecommendations(r);
  }

  // --------------------------------------------------------- gain estimate

  datatype Gain = Gain(min: int, max: int, count: nat)

  /** `recs.filter((r) => priorities.includes(r.priority))`: the first
      record kept is the first record with a listed priority. */
  function Selected(recs: seq<Rec>, priorities: seq<Priority>): (s: seq<Rec>)
    ensures |s| <= |recs|
    ensures forall x :: x in s <==> x in recs && x.priority in priorities
    ensures s != [] ==> exists k :: 0 <= k < |recs| && s[0] == recs[k] && recs[k].priority in priorities
                                && forall j :: 0 <= j < k ==> recs[j].priority !in priorities
    decreases |recs|
  {
    if recs == [] then []
    else
      var n := |recs| - 1;
      var pre := Selected(recs[..n], priorities);
      assert forall j :: 0 <= j < n ==> recs[..n][j] == recs[j];
      assert pre == [] ==> forall j :: 0 <= j < n ==> recs[j].priority !in priorities by {
        if pre == [] {
          forall j | 0 <= j < n ensures recs[j].priority !in priorities {
            assert recs[..n][j] in recs[..n];
          }
        }
      }
      pre + (if recs[n].priority in priorities then [recs[n]] else [])
  }

  function SumMin(recs: seq<Rec>): nat {
    if recs == [] then 0 else SumMin(recs[..|recs| - 1]) + recs[|recs| - 1].minGain
  }

  function SumMax(recs: seq<Rec>): nat {
    if recs == [] then 0 else SumMax(recs[..|recs| - 1]) + recs[|recs| - 1].maxGain
  }

  lemma {:induction false} SumMinAtMostSumMax(recs: seq<Rec>)
    requires forall x :: x in recs ==> x.minGain <= x.maxGain
    ensures SumMin(recs) <= SumMax(recs)
  {
    if recs != [] {
      var n := |recs| - 1;
      assert forall x :: x in recs[..n] ==> x in recs;
      SumMinAtMostSumMax(recs[..n]);
      assert recs[n] in recs;
    }
  }

  /** The minimum and maximum gains of the records with a listed priority,
      summed over the whole list without filtering it first. */
  function MinGainWith(recs: seq<Rec>, priorities: seq<Priority>): nat {
    if recs == [] then 0
    else MinGainWith(recs[..|recs| - 1], priorities) + (if recs[|recs| - 1].priority in priorities then recs[|recs| - 1].minGain else 0)
  }

  function MaxGainWith(recs: seq<Rec>, priorities: seq<Priority>): nat {
    if recs == [] then 0
    else MaxGainWith(recs[..|recs| - 1], priorities) + (if recs[|recs| - 1].priority in priorities then recs[|recs| - 1].maxGain else 0)
  }

  /** Summing the filtered list is summing the listed records' gains. */
  lemma {:induction false} SelectedSums(recs: seq<Rec>, priorities: seq<Priority>)
    ensures SumMin(Selected(recs, priorities)) == MinGainWith(recs, priorities)
    ensures SumMax(Selected(recs, priorities)) == MaxGainWith(recs, priorities)
    decreases |recs|
  {
    if recs != [] {
      var n := |recs| - 1;
      var pre := Selected(recs[..n], priorities);
      SelectedSums(recs[..n], priorities);
      if recs[n].priority in priorities {
        assert (pre + [recs[n]])[..|pre|] == pre;
      } else {
        assert pre + [] == pre;
      }
    }
  }

  /** The default priority list. */
  const DefaultPriorities: seq<Priority> := [Critical, High]

  /** `estimateTotalGain`: the summed gains of the selected records, capped
      at 45 and 65; `count` is the number of selected records. */
  function EstimateTotalGain(recs: seq<Rec>, priorities: seq<Priority>): (g: Gain)
    ensures g.min == Min(45, MinGainWith(recs, priorities)) && g.max == Min(65, MaxGainWith(recs, priorities))
    ensures 0 <= g.min <= 45 && 0 <= g.max <= 65
    ensures g.count <= |recs|
    ensures (forall x :: x in recs ==> x.minGain <= x.maxGain) ==> g.min <= g.max
  {
    var s := Selected(recs, priorities);
    SelectedKeepsGainOrder(recs, priorities);
    SelectedSums(recs, priorities);
    Gain(Min(SumMin(s), 45), Min(SumMax(s), 65), |s|)
  }

  lemma SelectedKeepsGainOrder(recs: seq<Rec>, priorities: seq<Priority>)
    ensures (forall x :: x in recs ==> x.minGain <= x.maxGain) ==> SumMin(Selected(recs, priorities)) <= SumMax(Selected(recs, priorities))
  {
    if forall x :: x in recs ==> x.minGain <= x.maxGain {
      SumMinAtMostSumMax(Selected(recs, priorities));
    }
  }

  /** The count is exactly the number of records with a listed priority. */
  lemma {:induction false} GainCountsSelected(recs: seq<Rec>, priorities: seq<Priority>)
    ensures EstimateTotalGain(recs, priorities).count == CountWith(recs, priorities)
    decreases |recs|
  {
    if recs != [] {
      GainCountsSelected(recs[..|recs| - 1], priorities);
    }
  }

  function CountWith(recs: seq<Rec>, priorities: seq<Priority>): nat {
    if recs == [] then 0
    else CountWith(recs[..|recs| - 1], priorities) + (if recs[|recs| - 1].priority in priorities then 1 else 0)
  }

  // --------------------------------------------------- sales-script choices

  /** `recs.filter((r) => r.priority === p)[0]`: the first record with
      priority `p`, if any. */
  function FirstWith(recs: seq<Rec>, p: Priority): (o: Option<Rec>)
    ensures o.Some? ==> exists k :: 0 <= k < |recs| && recs[k] == o.value && o.value.priority == p
                                && forall j :: 0 <= j < k ==> recs[j].priority != p
    ensures o.None? <==> forall x :: x in recs ==> x.priority != p
  {
    if recs == [] then None
    else if recs[0].priority == p then Some(recs[0])
    else
      assert forall x :: x in recs ==> x == recs[0] || x in recs[1..];
      var o := FirstWith(recs[1..], p);
      assert o.Some? ==> exists k :: 0 <= k < |recs| && recs[k] == o.value && o.value.priority == p
                                  && forall j :: 0 <= j < k ==> recs[j].priority != p
      by {
        if o.Some? {
          var k :| 0 <= k < |recs[1..]| && recs[1..][k] == o.value && o.value.priority == p
            && forall j :: 0 <= j < k ==> recs[1..][j].priority != p;
          assert forall j :: 1 <= j < k + 1 ==> recs[j] == recs[1..][j - 1];
          assert recs[k + 1] == o.value;
        }
      }
      o
  }

  /** `criticals[0] || highs[0] || recs[0]`: the first critical record;
      failing that the first high one; failing that the first record. */
  function TopIssue(recs: seq<Rec>): (o: Option<Rec>)
    ensures o.None? <==> recs == []
    ensures o.Some? ==> o.value in recs
    ensures (exists x :: x in recs && x.priority == Critical) ==> o == FirstWith(recs, Critical)
    ensures (forall x :: x in recs ==> x.priority != Critical) && (exists x :: x in recs && x.priority == High)
      ==> o == FirstWith(recs, High)
    ensures recs != [] && (forall x :: x in recs ==> x.priority != Critical && x.priority != High)
      ==> o == Some(recs[0])
  {
    var c := FirstWith(recs, Critical);
    if c.Some? then c
    else
      var h := FirstWith(recs, High);
      if h.Some? then h
      else if recs == [] then None
      else Some(recs[0])
  }

  /** Over sorted records the top issue is simply the first record. */
  lemma TopIssueOfSorted(recs: seq<Rec>)
    requires SortedBy(recs, RecKey) && recs != []
    ensures TopIssue(recs) == Some(recs[0])
  {
    var key := RecKey;
    if recs[0].priority != Critical {
      forall i | 0 <= i < |recs|
        ensures recs[i].priority != Critical
      {
        if i > 0 {
          assert KeyLe(key(recs[0]), key(recs[i]));
        }
      }
      if recs[0].priority != High {
        forall i | 0 <= i < |recs|
          ensures recs[i].priority != High
        {
          if i > 0 {
            assert KeyLe(key(recs[0]), key(recs[i]));
          }
        }
      }
    }
  }

  /** The position of the first occurrence of `x` in `ss`, or `|ss|`. */
  function FirstIndex(ss: seq<string>, x: string): (k: nat)
    ensures k <= |ss|
    ensures k < |ss| <==> x in ss
    ensures k < |ss| ==> ss[k] == x
    ensures forall j :: 0 <= j < k ==> ss[j] != x
  {
    if ss == [] then 0
    else if ss[0] == x then 0
    else
      var k := FirstIndex(ss[1..], x);
      assert forall j :: 1 <= j < k + 1 ==> ss[j] == ss[1..][j - 1];
      assert x in ss <==> x in ss[1..];
      k + 1
  }

  /** Extending a list does not move the first occurrence of a value it
      already has. */
  lemma FirstIndexOfPrefix(ss: seq<string>, n: nat, x: string)
    requires n <= |ss| && x in ss[..n]
    ensures FirstIndex(ss, x) == FirstIndex(ss[..n], x)
  {
    var k := FirstIndex(ss[..n], x);
    assert ss[k] == ss[..n][k];
    assert forall j :: 0 <= j < k ==> ss[j] == ss[..n][j];
  }

  /** `[...new Set(values)]`: each value once, in the order of its first
      occurrence. */
  function Dedup(ss: seq<string>): (r: seq<string>)
    ensures forall x :: x in r <==> x in ss
    ensures NoRepeats(r)
    ensures forall i, j :: 0 <= i < j < |r| ==> FirstIndex(ss, r[i]) < FirstIndex(ss, r[j])
    decreases |ss|
  {
    if ss == [] then []
    else
      var n := |ss| - 1;
      var prev := Dedup(ss[..n]);
      var last := ss[n];
      assert forall x :: x in ss <==> x in ss[..n] || x == last;
      forall i | 0 <= i < |prev|
        ensures FirstIndex(ss, prev[i]) == FirstIndex(ss[..n], prev[i]) < n
      {
        FirstIndexOfPrefix(ss, n, prev[i]);
      }
      if last in prev then prev else prev + [last]
  }

  /** The first value of the deduplicated list is the first value. */
  lemma DedupHead(ss: seq<string>)
    requires ss != []
    ensures Dedup(ss) != [] && Dedup(ss)[0] == ss[0]
  {
    var r := Dedup(ss);
    assert ss[0] in r;
    var m :| 0 <= m < |r| && r[m] == ss[0];
    assert FirstIndex(ss, ss[0]) == 0;
  }

  predicate NoRepeats(s: seq<string>) {
    forall i, j :: 0 <= i < j < |s| ==> s[i] != s[j]
  }

  function Services(recs: seq<Rec>): (r: seq<string>)
    ensures |r| == |recs| && forall k :: 0 <= k < |r| ==> r[k] == recs[k].service
  {
    seq(|recs|, k requires 0 <= k < |recs| => recs[k].service)
  }

  /** `recs.filter((r) => r.priority === p)`; it starts with the first such
      record. */
  function Only(recs: seq<Rec>, p: Priority): (s: seq<Rec>)
    ensures forall x :: x in s <==> x in recs && x.priority == p
    ensures s != [] ==> FirstWith(recs, p) == Some(s[0])
  {
    Selected(recs, [p])
  }

  /** The services of the critical records followed by those of the high
      records, each list in record order. */
  function PlanPool(recs: seq<Rec>): seq<string> {
    Services(Only(recs, Critical) + Only(recs, High))
  }

  /** The service plan: the first three distinct services of the pool, or
      all of them when there are fewer. */
  function PlanServices(recs: seq<Rec>): (r: seq<string>)
    ensures |r| == Min(3, |Dedup(PlanPool(recs))|) && r == Dedup(PlanPool(recs))[..|r|]
    ensures |r| <= 3 && NoRepeats(r)
    ensures forall s :: s in r ==> exists x :: x in recs && (x.priority == Critical || x.priority == High) && x.service == s
  {
    var pool := Only(recs, Critical) + Only(recs, High);
    var d := Dedup(Services(pool));
    var r := d[..Min(3, |d|)];
    forall s | s in r
      ensures exists x :: x in recs && (x.priority == Critical || x.priority == High) && x.service == s
    {
      assert s in d;
      var k :| 0 <= k < |pool| && Services(pool)[k] == s;
      assert pool[k] in pool;
    }
    r
  }

  /** The plan opens with the service of the top issue when some record is
      critical or high, and is empty otherwise. */
  lemma PlanLeadsWithTopIssue(recs: seq<Rec>)
    ensures (exists x :: x in recs && (x.priority == Critical || x.priority == High))
      ==> PlanServices(recs) != [] && PlanServices(recs)[0] == TopIssue(recs).value.service
    ensures (forall x :: x in recs ==> x.priority != Critical && x.priority != High) ==> PlanServices(recs) == []
  {
    var c := Only(recs, Critical);
    var h := Only(recs, High);
    var pool := c + h;
    if c != [] {
      assert c[0] in c;
      assert pool[0] == c[0];
      DedupHead(Services(pool));
    } else if h != [] {
      assert h[0] in h;
      assert pool == h;
      DedupHead(Services(pool));
    } else {
      assert pool == [];
      forall x | x in recs
        ensures x.priority != Critical && x.priority != High
      {
        assert x !in c && x !in h;
      }
    }
  }
}
