/** The full audit of `services/auditService.js`: the four probes with their
    defaults, the authority score, and the report that copies the probes'
    fields. The hostname (`new URL(url).hostname`) is an input. */
module AuditService {
  import opened Wrappers
  import opened Numeric
  import opened Scoring
  import opened Security
  import opened Content
  import opened Probes
  import opened CompetitorService

  /** What `runFullAudit` resolves to; `None` is `null`. */
  datatype AuditReport = AuditReport(
    url: string,
    domain: string,
    performance: int,
    accessibility: int,
    seo: int,
    bestPractices: int,
    securityScore: int,
    securityGrade: Grade,
    securityHeaders: map<string, string>,
    securityHeadersPresent: nat,
    securityHeadersTotal: nat,
    domainAge: Option<string>,
    domainAgeScore: int,
    domainCreatedDate: Option<string>,
    backlinkScore: int,
    backlinkCount: Option<int>,
    indexedPages: Option<int>,
    title: string,
    metaDescription: string,
    h1Count: nat,
    imageWithoutAlt: nat,
    wordCount: nat,
    headingDepth: nat,
    schemaDetected: bool,
    ogTagsDetected: bool,
    canonicalDetected: bool,
    contentScore: int,
    authorityScore: int)

  /** The object passed to `calculateAuthorityScore`, key by key. */
  function AuthorityCallArgs(s: Settled): map<string, int> {
    map["seo" := s.ps.seo, "performance" := s.ps.performance, "domainAgeScore" := s.whois.domainAgeScore,
        "securityScore" := s.sec.score, "backlinkScore" := 0, "contentScore" := s.content.contentScore]
  }

  /** The report for settled probes and a given authority score. */
  function Report(url: string, domain: string, s: Settled, authority: int): AuditReport {
    AuditReport(url, domain, s.ps.performance, s.ps.accessibility, s.ps.seo, s.ps.bestPractices,
                s.sec.score, s.sec.grade, s.sec.headers, s.sec.presentCount, s.sec.totalChecks,
                s.whois.ageYears, s.whois.domainAgeScore, s.whois.createdDate,
                0, None, None,
                s.content.title, s.content.metaDescription, s.content.h1Count, s.content.imageWithoutAlt,
                s.content.wordCount, s.content.headingDepth, s.content.schemaDetected,
                s.content.ogTagsDetected, s.content.canonicalDetected, s.content.contentScore,
                authority)
  }

  /** `runFullAudit` as written: the authority score is computed from the
      argument object above, destructured by parameter name. */
  function RunFullAudit(url: string, domain: string, o: Outcomes): (r: AuditReport)
    ensures r.backlinkScore == 0 && r.backlinkCount.None? && r.indexedPages.None?
  {
    var s := Settle(o);
    Report(url, domain, s, CalculateAuthorityScore(AuthorityArgs(AuthorityCallArgs(s))))
  }

  /** Every other field is the settled probe's own: PageSpeed's four scores,
      the security report, the WHOIS record and the content record; a
      rejected probe shows its default (age score 40, grade F and six checks,
      content score 0). */
  lemma FullAuditCopiesProbes(url: string, domain: string, o: Outcomes)
    ensures var r := RunFullAudit(url, domain, o);
      var s := Settle(o);
      r.url == url && r.domain == domain
      && r.performance == s.ps.performance && r.accessibility == s.ps.accessibility
      && r.seo == s.ps.seo && r.bestPractices == s.ps.bestPractices
      && r.securityScore == s.sec.score && r.securityGrade == s.sec.grade && r.securityHeaders == s.sec.headers
      && r.securityHeadersPresent == s.sec.presentCount && r.securityHeadersTotal == s.sec.totalChecks
      && r.domainAge == s.whois.ageYears && r.domainAgeScore == s.whois.domainAgeScore
      && r.domainCreatedDate == s.whois.createdDate
      && r.title == s.content.title && r.metaDescription == s.content.metaDescription
      && r.h1Count == s.content.h1Count && r.imageWithoutAlt == s.content.imageWithoutAlt
      && r.wordCount == s.content.wordCount && r.headingDepth == s.content.headingDepth
      && r.schemaDetected == s.content.schemaDetected && r.ogTagsDetected == s.content.ogTagsDetected
      && r.canonicalDetected == s.content.canonicalDetected && r.contentScore == s.content.contentScore
    ensures var r := RunFullAudit(url, domain, o);
      (o.whois.None? ==> r.domainAgeScore == 40 && r.domainAge.None? && r.domainCreatedDate.None?)
      && (o.sec.None? ==> r.securityScore == 0 && r.securityGrade == F && r.securityHeadersTotal == 6)
      && (o.content.None? ==> r.contentScore == 0 && r.wordCount == 0 && !r.schemaDetected)
  {
  }

  /** None of the keys passed is a parameter name of
      `calculateAuthorityScore`, so every component takes its default 0 and
      the full audit's authority score is 0 whatever the probes report. */
  lemma FullAuditAuthorityZero(url: string, domain: string, o: Outcomes)
    ensures RunFullAudit(url, domain, o).authorityScore == 0
  {
    AuthorityOfUnknownKeys(AuthorityCallArgs(Settle(o)));
  }

  /** The evidently intended full audit: the authority score composed from
      the probes as the competitor audit composes it. */
  function RunFullAuditCorrected(url: string, domain: string, o: Outcomes): (r: AuditReport)
    ensures r.authorityScore == RunCompetitorAudit(url, domain, o).authorityScore
  {
    var s := Settle(o);
    Report(url, domain, s, CalculateAuthorityScore(AuthorityInputsOf(s)))
  }

  /** The corrected report differs from the as-written one only in the
      authority score, which is in `[0, 80]` for probe scores in range. */
  lemma CorrectedAuthority(url: string, domain: string, o: Outcomes)
    ensures RunFullAuditCorrected(url, domain, o).(authorityScore := 0) == RunFullAudit(url, domain, o)
    ensures InRange(Settle(o)) ==> 0 <= RunFullAuditCorrected(url, domain, o).authorityScore <= 80
  {
    FullAuditAuthorityZero(url, domain, o);
    if InRange(Settle(o)) {
      CompetitorScoresBounded(url, domain, o);
    }
  }

  /** A site that scores 100 on every probe and carries both markup flags
      gets 0 from the as-written audit and 80, the top of the scale without
      backlinks, from the corrected one. */
  lemma PerfectSiteAuthority(url: string, domain: string, o: Outcomes)
    requires o.ps == Some(PageSpeedScores(100, 100, 100, 100))
    requires o.sec.Some? && o.sec.value.score == 100
    requires o.whois.Some? && o.whois.value.domainAgeScore == 100
    requires o.content.Some? && o.content.value.contentScore == 100
    requires o.content.value.schemaDetected && o.content.value.ogTagsDetected
    ensures RunFullAudit(url, domain, o).authorityScore == 0
    ensures RunFullAuditCorrected(url, domain, o).authorityScore == 80
  {
    FullAuditAuthorityZero(url, domain, o);
    var s := Settle(o);
    RoundOfInteger(100);
    assert TechnicalHealthOf(s) == 100;
    assert BrandUnrounded(100, true, true) == 100.0;
    assert BrandSignalsOf(s) == 100;
    RoundOfInteger(80);
    assert AuthorityWeighted(AuthorityInputsOf(s)) == 80.0;
  }
}
