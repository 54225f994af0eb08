/** The competitor audit of `services/competitorService.js`: the four probes
    with their defaults, then the sub-scores and the authority score built
    from them. The hostname (`new URL(url).hostname`) is an input. */
module CompetitorService {
  import opened Wrappers
  import opened Numeric
  import opened Scoring
  import opened Security
  import opened Content
  import opened Probes

  /** What `runCompetitorAudit` resolves to. */
  datatype CompetitorReport = CompetitorReport(
    url: string,
    domain: string,
    performance: int,
    accessibility: int,
    seo: int,
    bestPractices: int,
    securityScore: int,
    securityGrade: Grade,
    contentScore: int,
    domainAgeScore: int,
    domainAge: Option<string>,
    technicalHealth: int,
    searchVisibility: int,
    brandSignals: int,
    authorityScore: int)

  /** The sub-scores from settled probes: technical health with only the
      four scores passed, search visibility with only `seo`, brand signals
      from the age score and the two markup flags. */
  function TechnicalHealthOf(s: Settled): int {
    GetTechnicalHealth(TechnicalDefaults(s.ps.performance, s.ps.accessibility, s.ps.bestPractices, s.sec.score))
  }

  function SearchVisibilityOf(s: Settled): int {
    GetSearchVisibility(s.ps.seo, None)
  }

  function BrandSignalsOf(s: Settled): int {
    GetBrandSignals(s.whois.domainAgeScore, s.content.schemaDetected, s.content.ogTagsDetected)
  }

  /** The authority inputs: backlink authority is the literal 0. */
  function AuthorityInputsOf(s: Settled): AuthorityInputs {
    AuthorityInputs(TechnicalHealthOf(s), SearchVisibilityOf(s), s.content.contentScore, 0, BrandSignalsOf(s))
  }

  /** `runCompetitorAudit` once the probes have settled. */
  function RunCompetitorAudit(url: string, domain: string, o: Outcomes): (r: CompetitorReport)
    ensures var s := Settle(o);
      r.url == url && r.domain == domain
      && r.performance == s.ps.performance && r.accessibility == s.ps.accessibility
      && r.seo == s.ps.seo && r.bestPractices == s.ps.bestPractices
      && r.securityScore == s.sec.score && r.securityGrade == s.sec.grade
      && r.contentScore == s.content.contentScore
      && r.domainAgeScore == s.whois.domainAgeScore && r.domainAge == s.whois.ageYears
  {
    var s := Settle(o);
    CompetitorReport(url, domain, s.ps.performance, s.ps.accessibility, s.ps.seo, s.ps.bestPractices,
                     s.sec.score, s.sec.grade, s.content.contentScore, s.whois.domainAgeScore, s.whois.ageYears,
                     TechnicalHealthOf(s), SearchVisibilityOf(s), BrandSignalsOf(s),
                     CalculateAuthorityScore(AuthorityInputsOf(s)))
  }

  /** With only the four scores passed, technical health is the rounded mean
      of performance, accessibility, best practices and security; search
      visibility is `seo` itself. */
  lemma CompetitorSubScores(url: string, domain: string, o: Outcomes)
    ensures var r := RunCompetitorAudit(url, domain, o);
      r.technicalHealth == Round((r.performance + r.accessibility + r.bestPractices + r.securityScore) as real / 4.0)
      && r.searchVisibility == r.seo
  {
  }

  /** The weighted sum without its backlink term: at most 80 when every
      other component is at most 100. */
  lemma AuthorityWithoutBacklinks(a: AuthorityInputs)
    requires a.backlinkAuthority == 0
    requires a.technicalHealth <= 100 && a.searchVisibility <= 100 && a.contentDepth <= 100 && a.brandSignals <= 100
    ensures CalculateAuthorityScore(a) <= 80
  {
    RoundAtMostWhen(AuthorityWeighted(a), 80, true);
  }

  /** Backlink authority is fixed at 0, so the competitor's authority score
      never exceeds 80 when the probes report scores in range; every
      composed score is then in `[0, 100]`. */
  lemma CompetitorScoresBounded(url: string, domain: string, o: Outcomes)
    requires InRange(Settle(o))
    ensures var r := RunCompetitorAudit(url, domain, o);
      InPercent(r.technicalHealth) && InPercent(r.searchVisibility) && InPercent(r.brandSignals)
      && 0 <= r.authorityScore <= 80
  {
    var s := Settle(o);
    var a := AuthorityInputsOf(s);
    assert TechnicalInRange(TechnicalDefaults(s.ps.performance, s.ps.accessibility, s.ps.bestPractices, s.sec.score));
    assert AuthorityInRange(a);
    AuthorityWithoutBacklinks(a);
  }

  /** A rejected content probe scores content 0 and leaves brand signals
      at half the age score, rounded. */
  lemma FailedContentProbe(url: string, domain: string, o: Outcomes)
    requires o.content.None?
    ensures var r := RunCompetitorAudit(url, domain, o);
      r.contentScore == 0
      && r.brandSignals == Min(100, Round(r.domainAgeScore as real / 2.0))
  {
  }

  /** With a content probe that is the as-written `fetchContentData`, schema
      markup never adds its 30 points to brand signals. */
  lemma BrandSignalsMissSchema(url: string, domain: string, o: Outcomes, page: Page)
    requires o.content == Some(FetchContentData(page))
    ensures RunCompetitorAudit(url, domain, o).brandSignals
         == GetBrandSignals(Settle(o).whois.domainAgeScore, false, FetchContentData(page).ogTagsDetected)
  {
    SchemaNeverDetected(page);
  }
}
