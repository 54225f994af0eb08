/** The issue records the crawler attaches to pages and aggregates per type. */
module Issues {

  datatype Severity = Critical | Warning | Info

  /** The `order` table of the issue summary: critical first. */
  function SeverityRank(s: Severity): (r: nat)
    ensures r <= 2
    ensures r == 0 <==> s == Critical
    ensures r == 2 <==> s == Info
  {
    match s
    case Critical => 0
    case Warning => 1
    case Info => 2
  }

  /** The issue types the crawler reports; the source's `type` strings are
      given by `KindName`. */
  datatype IssueKind =
    | MissingTitle | MissingMeta | MissingH1 | MultipleH1 | ThinContent | MissingCanonical
    | ImgNoAlt | ImgFormat | ImgNoSize | BrokenPage | FetchError | DuplicateTitle

  function KindName(k: IssueKind): (r: string)
    ensures |r| >= 6
  {
    match k
    case MissingTitle => "missing_title"
    case MissingMeta => "missing_meta"
    case MissingH1 => "missing_h1"
    case MultipleH1 => "multiple_h1"
    case ThinContent => "thin_content"
    case MissingCanonical => "missing_canonical"
    case ImgNoAlt => "img_no_alt"
    case ImgFormat => "img_format"
    case ImgNoSize => "img_no_size"
    case BrokenPage => "broken_page"
    case FetchError => "fetch_error"
    case DuplicateTitle => "duplicate_title"
  }

  /** One defect found on one page; `kind` is the source's `type` field. */
  datatype Issue = Issue(kind: IssueKind, severity: Severity, message: string)

  /** One entry of the crawl's issue summary: every occurrence of one issue type. */
  datatype IssueSummary = IssueSummary(kind: IssueKind, severity: Severity, message: string, count: nat, pages: seq<string>)

  function CountSeverity(issues: seq<Issue>, s: Severity): (n: nat)
    ensures n <= |issues|
  {
    if issues == [] then 0
    else CountSeverity(issues[..|issues| - 1], s) + (if issues[|issues| - 1].severity == s then 1 else 0)
  }

  /** Counting distributes over concatenation. */
  lemma {:induction false} CountSeverityAppend(a: seq<Issue>, b: seq<Issue>, s: Severity)
    ensures CountSeverity(a + b, s) == CountSeverity(a, s) + CountSeverity(b, s)
    decreases |b|
  {
    if b == [] {
      assert a + b == a;
    } else {
      var b' := b[..|b| - 1];
      assert (a + b)[..|a + b| - 1] == a + b';
      CountSeverityAppend(a, b', s);
    }
  }

  /** Every issue has exactly one of the three severities. */
  lemma {:induction false} CountSeveritiesSum(issues: seq<Issue>)
    ensures CountSeverity(issues, Critical) + CountSeverity(issues, Warning) + CountSeverity(issues, Info) == |issues|
  {
    if issues != [] {
      CountSeveritiesSum(issues[..|issues| - 1]);
    }
  }
}
