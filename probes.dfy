/** The four probes both `services/auditService.js` and
    `services/competitorService.js` run side by side (PageSpeed, security
    headers, WHOIS, page content), and the fixed record each uses in place of
    a probe that rejected. A probe's outcome is `Some(value)` when it
    fulfilled and `None` when it rejected; the fan-out itself is sequential
    here. */
module Probes {
  import opened Wrappers
  import opened Scoring
  import opened Security
  import opened Content

  /** What `fetchPageSpeed` resolves to. */
  datatype PageSpeedScores = PageSpeedScores(performance: int, accessibility: int, seo: int, bestPractices: int)

  /** What `fetchWhoisData` resolves to; `ageYears` is the `toFixed(1)`
      string and `None` is `null`. */
  datatype WhoisData = WhoisData(createdDate: Option<string>, domainAgeScore: int, ageYears: Option<string>)

  /** The settled outcomes of the four probes. */
  datatype Outcomes = Outcomes(
    ps: Option<PageSpeedScores>,
    sec: Option<SecurityReport>,
    whois: Option<WhoisData>,
    content: Option<ContentData>)

  /** The four values the composition reads, defaults put in. */
  datatype Settled = Settled(ps: PageSpeedScores, sec: SecurityReport, whois: WhoisData, content: ContentData)

  /** Every PageSpeed category scores 0. */
  const PageSpeedDefault: PageSpeedScores := PageSpeedScores(0, 0, 0, 0)

  /** Score 0, grade F, no headers, none of the six present. */
  const SecurityDefault: SecurityReport := SecurityReport(map[], 0, 6, 0, F, None)

  /** No creation date, age score 40, no age. */
  const WhoisDefault: WhoisData := WhoisData(None, 40, None)

  /** Empty title and description, every count 0, no flag set, score 0. */
  const ContentDefault: ContentData := ContentData("", "", 0, 0, 0, 0, false, false, false, 0)

  /** The `status === "fulfilled" ? value : default` choice for each probe. */
  function Settle(o: Outcomes): (s: Settled)
    ensures o.ps.Some? ==> s.ps == o.ps.value
    ensures o.ps.None? ==> s.ps == PageSpeedDefault
    ensures o.sec.Some? ==> s.sec == o.sec.value
    ensures o.sec.None? ==> s.sec.score == 0 && s.sec.grade == F && s.sec.headers == map[]
                            && s.sec.presentCount == 0 && s.sec.totalChecks == 6
    ensures o.whois.Some? ==> s.whois == o.whois.value
    ensures o.whois.None? ==> s.whois.domainAgeScore == 40 && s.whois.createdDate.None? && s.whois.ageYears.None?
    ensures o.content.Some? ==> s.content == o.content.value
    ensures o.content.None? ==> s.content.contentScore == 0 && !s.content.schemaDetected
                                && !s.content.ogTagsDetected && !s.content.canonicalDetected
                                && s.content.title == "" && s.content.metaDescription == ""
                                && s.content.h1Count == 0 && s.content.imageWithoutAlt == 0
                                && s.content.wordCount == 0 && s.content.headingDepth == 0
  {
    Settled(o.ps.GetOr(PageSpeedDefault), o.sec.GetOr(SecurityDefault),
            o.whois.GetOr(WhoisDefault), o.content.GetOr(ContentDefault))
  }

  /** The scores the probes report lie in `[0, 100]`, as each probe's own
      formula guarantees. */
  predicate InRange(s: Settled) {
    InPercent(s.ps.performance) && InPercent(s.ps.accessibility) && InPercent(s.ps.seo)
    && InPercent(s.ps.bestPractices) && InPercent(s.sec.score) && InPercent(s.whois.domainAgeScore)
    && InPercent(s.content.contentScore)
  }

  /** Every default is in range, so settling outcomes that are in range
      gives values in range. */
  lemma SettleKeepsRange(o: Outcomes)
    requires o.ps.Some? ==> InPercent(o.ps.value.performance) && InPercent(o.ps.value.accessibility)
                            && InPercent(o.ps.value.seo) && InPercent(o.ps.value.bestPractices)
    requires o.sec.Some? ==> InPercent(o.sec.value.score)
    requires o.whois.Some? ==> InPercent(o.whois.value.domainAgeScore)
    requires o.content.Some? ==> InPercent(o.content.value.contentScore)
    ensures InRange(Settle(o))
  {
  }
}
