/** The technical probes of `services/seo/technicalAudit.js`: the sitemap
    candidates, the robots.txt text analysis, the redirect-chain walk and the
    merge of the four probe outcomes. The HTTP requests are function-typed
    parameters (`None` when the request throws), `base.origin` is a
    parameter, and the TTFB probe's outcome is an input. */
module TechnicalAudit {
  import opened Wrappers
  import opened Numeric
  import opened Strings

  datatype SitemapResult = SitemapMissing | SitemapFound(url: string)

  datatype RobotsResult =
    | RobotsMissing
    | RobotsFound(disallowAll: bool, sitemapUrl: Option<string>, preview: string)

  datatype Hop = Hop(url: string, status: int)

  datatype RedirectResult = RedirectResult(count: nat, chain: seq<Hop>)

  datatype TechnicalResult = TechnicalResult(
    sitemap: SitemapResult,
    robots: RobotsResult,
    ttfb: Option<int>,
    redirects: RedirectResult)

  /** A response to a redirect probe: its status and `Location` header. */
  datatype HopResponse = HopResponse(status: int, location: Option<string>)

  // ------------------------------------------------------------ merge

  /** `runTechnicalAudit`'s merge: each rejected probe (`None`) is replaced by
      its fixed default, each fulfilled one is kept as it is. */
  function MergeProbes(sitemap: Option<SitemapResult>, robots: Option<RobotsResult>, ttfb: Option<int>,
                       redirects: Option<RedirectResult>): (r: TechnicalResult)
    ensures sitemap.None? ==> r.sitemap == SitemapMissing
    ensures robots.None? ==> r.robots == RobotsMissing
    ensures ttfb.None? ==> r.ttfb.None?
    ensures redirects.None? ==> r.redirects == RedirectResult(0, [])
    ensures sitemap.Some? ==> r.sitemap == sitemap.value
    ensures robots.Some? ==> r.robots == robots.value
    ensures ttfb.Some? ==> r.ttfb == ttfb
    ensures redirects.Some? ==> r.redirects == redirects.value
  {
    TechnicalResult(
      sitemap.GetOr(SitemapMissing),
      robots.GetOr(RobotsMissing),
      ttfb,
      redirects.GetOr(RedirectResult(0, [])))
  }

  // ---------------------------------------------------------- sitemap

  /** The three candidate locations, in probe order. */
  function Candidates(origin: string): seq<string> {
    [origin + "/sitemap.xml", origin + "/sitemap_index.xml", origin + "/sitemap/"]
  }

  /** The first of `cands` whose HEAD request answers 200, if any. */
  function FirstFound(cands: seq<string>, head: string -> Option<int>): (r: SitemapResult)
    ensures r.SitemapFound? <==> exists k :: 0 <= k < |cands| && head(cands[k]) == Some(200)
    ensures r.SitemapFound? ==>
      exists k :: 0 <= k < |cands| && cands[k] == r.url && head(cands[k]) == Some(200)
        && forall j :: 0 <= j < k ==> head(cands[j]) != Some(200)
    decreases |cands|
  {
    if cands == [] then SitemapMissing
    else if head(cands[0]) == Some(200) then SitemapFound(cands[0])
    else
      var rest := FirstFound(cands[1..], head);
      assert forall k :: 1 <= k < |cands| ==> cands[k] == cands[1..][k - 1];
      assert rest.SitemapFound? ==>
        (exists k :: 1 <= k < |cands| && cands[k] == rest.url && head(cands[k]) == Some(200)
          && forall j :: 0 <= j < k ==> head(cands[j]) != Some(200)) by {
        if rest.SitemapFound? {
          var k :| 0 <= k < |cands[1..]| && cands[1..][k] == rest.url && head(cands[1..][k]) == Some(200)
            && forall j :: 0 <= j < k ==> head(cands[1..][j]) != Some(200);
          assert forall j :: 1 <= j < k + 1 ==> cands[j] == cands[1..][j - 1];
        }
      }
      rest
  }

  /** `checkSitemap`: the candidates in order, returning at the first 200; a
      request that throws moves on to the next candidate. */
  method CheckSitemap(origin: string, head: string -> Option<int>) returns (r: SitemapResult)
    ensures r == FirstFound(Candidates(origin), head)
  {
    var cands := Candidates(origin);
    var k := 0;
    while k < |cands|
      invariant 0 <= k <= |cands|
      invariant FirstFound(cands[k..], head) == FirstFound(cands, head)
    {
      var u := cands[k];
      if head(u) == Some(200) {
        return SitemapFound(u);
      }
      assert cands[k..][1..] == cands[k + 1..];
      k := k + 1;
    }
    assert cands[k..] == [];
    return SitemapMissing;
  }

  /** The sitemap is found exactly when one candidate answers 200, and then
      it is the first such candidate. */
  lemma SitemapCandidateOrder(origin: string, head: string -> Option<int>)
    ensures var r := FirstFound(Candidates(origin), head);
      (head(origin + "/sitemap.xml") == Some(200) ==> r == SitemapFound(origin + "/sitemap.xml"))
      && (head(origin + "/sitemap.xml") != Some(200) && head(origin + "/sitemap_index.xml") == Some(200)
          ==> r == SitemapFound(origin + "/sitemap_index.xml"))
      && (r == SitemapMissing <==>
            head(origin + "/sitemap.xml") != Some(200) && head(origin + "/sitemap_index.xml") != Some(200)
            && head(origin + "/sitemap/") != Some(200))
  {
    var c := Candidates(origin);
    assert c[0] == origin + "/sitemap.xml" && c[1] == origin + "/sitemap_index.xml" && c[2] == origin + "/sitemap/";
  }

  // ----------------------------------------------------- robots: Disallow

  /** The regex `/Disallow:\s*\/\s*$/` (no `m` flag, case-sensitive) matches
      `text` with "Disallow:" starting at `i` and the slash at `j`: only white
      space between them, and only white space after the slash to the end. */
  predicate DisallowMatch(text: string, i: int, j: int) {
    0 <= i && i + 9 <= j < |text| && text[i..i + 9] == "Disallow:"
    && SpaceRange(text, i + 9, j) && text[j] == '/' && SpaceRange(text, j + 1, |text|)
  }

  /** The `disallowAll` test, computed by trimming: the text without its
      trailing white space ends in a slash, and what precedes the slash, again
      without trailing white space, ends in "Disallow:". */
  function DisallowAll(text: string): bool {
    var t := TrimEnd(text);
    |t| >= 1 && t[|t| - 1] == '/' && EndsWith(TrimEnd(t[..|t| - 1]), "Disallow:")
  }

  /** `TrimEnd` stops at the last character that is not white space. */
  lemma TrimEndAt(s: string, k: int)
    requires 0 <= k <= |s| && SpaceRange(s, k, |s|) && (k == 0 || !IsSpace(s[k - 1]))
    ensures TrimEnd(s) == s[..k]
  {
    var r := TrimEnd(s);
    assert |r| == k;
  }

  /** White space in a prefix of `s` is white space in `s`. */
  lemma SpaceInPrefix(s: string, k: int, lo: int, hi: int)
    requires 0 <= lo <= hi <= k <= |s| && SpaceRange(s[..k], lo, hi)
    ensures SpaceRange(s, lo, hi)
  {
    forall x | lo <= x < hi
      ensures IsSpace(s[x])
    {
      assert s[..k][x] == s[x];
    }
  }

  /** White space in `s` below `k` is white space in its prefix of length `k`. */
  lemma SpaceToPrefix(s: string, k: int, lo: int, hi: int)
    requires 0 <= lo <= hi <= k <= |s| && SpaceRange(s, lo, hi)
    ensures SpaceRange(s[..k], lo, hi)
  {
    forall x | lo <= x < hi
      ensures IsSpace(s[..k][x])
    {
      assert s[..k][x] == s[x];
    }
  }

  /** A text the trimming test accepts matches the regex. */
  lemma DisallowAllSound(text: string)
    requires DisallowAll(text)
    ensures exists i, j :: DisallowMatch(text, i, j)
  {
    var t := TrimEnd(text);
    var j := |t| - 1;
    var u := TrimEnd(t[..j]);
    var i := |u| - 9;
    assert t[..j] == text[..j];
    assert u == text[..|u|];
    assert text[i..i + 9] == u[i..];
    SpaceInPrefix(text, j, i + 9, j);
    assert DisallowMatch(text, i, j);
  }

  /** A text the regex matches passes the trimming test. */
  lemma DisallowAllComplete(text: string, i: int, j: int)
    requires DisallowMatch(text, i, j)
    ensures DisallowAll(text)
  {
    TrimEndAt(text, j + 1);
    var t := TrimEnd(text);
    assert t[..|t| - 1] == text[..j];
    SpaceToPrefix(text, j, i + 9, j);
    assert text[..j][i + 8] == ':';
    TrimEndAt(text[..j], i + 9);
    assert TrimEnd(text[..j]) == text[..i + 9];
    assert text[..i + 9][i..] == text[i..i + 9];
  }

  /** The trimming test agrees with the regex, in both directions. */
  lemma DisallowAllMeans(text: string)
    ensures DisallowAll(text) <==> exists i, j :: DisallowMatch(text, i, j)
  {
    if DisallowAll(text) {
      DisallowAllSound(text);
    }
    if exists i, j :: DisallowMatch(text, i, j) {
      var i, j :| DisallowMatch(text, i, j);
      DisallowAllComplete(text, i, j);
    }
  }

  // ---------------------------------------------------- robots: Sitemap

  /** Case-insensitive "Sitemap:" of `/…/i` (ASCII folding) at `i`. */
  predicate SitemapAt(text: string, i: int) {
    0 <= i && i + 8 <= |text| && Lower(text[i..i + 8]) == "sitemap:"
  }

  /** No line terminator in `[lo, hi)`: what `.` accepts. */
  predicate NoTerminator(text: string, lo: int, hi: int)
    requires 0 <= lo && hi <= |text|
  {
    forall k :: lo <= k < hi ==> !IsLineTerminator(text[k])
  }

  /** `/Sitemap:\s*(.+)/i` matches at `i` with `\s*` taking `n` characters
      and `(.+)` taking `m`. */
  predicate SitemapMatch(text: string, i: int, n: int, m: int) {
    SitemapAt(text, i) && n >= 0 && m >= 1 && i + 8 + n + m <= |text|
    && SpaceRange(text, i + 8, i + 8 + n) && NoTerminator(text, i + 8 + n, i + 8 + n + m)
  }

  /** The length of the run of non-terminators that starts `s`. */
  function LineLength(s: string): (n: nat)
    ensures n <= |s| && (n == |s| || IsLineTerminator(s[n]))
    ensures forall k :: 0 <= k < n ==> !IsLineTerminator(s[k])
  {
    if s == [] || IsLineTerminator(s[0]) then 0
    else
      var m := LineLength(s[1..]);
      assert forall k :: 1 <= k < m + 1 ==> s[k] == s[1..][k - 1];
      m + 1
  }

  /** The largest `p` in `[lo, hi)` with `text[p]` not a line terminator. */
  function LastNonTerminator(text: string, lo: int, hi: int): (p: Option<int>)
    requires 0 <= lo && hi <= |text|
    ensures p.Some? ==> lo <= p.value < hi && !IsLineTerminator(text[p.value])
    ensures p.Some? ==> forall k :: p.value < k < hi ==> IsLineTerminator(text[k])
    ensures p.None? ==> forall k :: lo <= k < hi ==> IsLineTerminator(text[k])
    decreases hi - lo
  {
    if hi <= lo then None
    else if !IsLineTerminator(text[hi - 1]) then Some(hi - 1)
    else LastNonTerminator(text, lo, hi - 1)
  }

  /** The capture of the regex at `i` under backtracking: `\s*` first takes
      the whole white-space run, then gives characters back until `.` can
      match one; `(.+)` then runs to the next line terminator. */
  function CaptureAt(text: string, i: int): Option<(int, int)>
    requires SitemapAt(text, i)
  {
    var j := i + 8 + LeadingSpace(text[i + 8..]);
    match LastNonTerminator(text, i + 8, Min(j + 1, |text|))
    case None => None
    case Some(p) => Some((p - (i + 8), LineLength(text[p..])))
  }

  lemma LeadingSpaceOfSuffix(text: string, lo: int)
    requires 0 <= lo <= |text|
    ensures var j := lo + LeadingSpace(text[lo..]);
      j <= |text| && SpaceRange(text, lo, j) && (j == |text| || !IsSpace(text[j]))
  {
    var s := text[lo..];
    var n := LeadingSpace(s);
    assert forall k :: lo <= k < lo + n ==> text[k] == s[k - lo];
    assert lo + n < |text| ==> text[lo + n] == s[n];
  }

  lemma LineLengthOfSuffix(text: string, p: int)
    requires 0 <= p <= |text|
    ensures var m := LineLength(text[p..]);
      p + m <= |text| && NoTerminator(text, p, p + m) && (p + m == |text| || IsLineTerminator(text[p + m]))
  {
    var s := text[p..];
    var m := LineLength(s);
    assert forall k :: p <= k < p + m ==> text[k] == s[k - p];
    assert p + m < |text| ==> text[p + m] == s[m];
  }

  /** A white-space run from `lo` cannot pass the first non-space at `j`. */
  lemma SpaceRunEnds(text: string, lo: int, j: int, q: int)
    requires 0 <= lo <= j <= |text| && lo <= q <= |text|
    requires SpaceRange(text, lo, q) && (j == |text| || !IsSpace(text[j]))
    ensures q <= j
  {
  }

  /** A run without terminators from `p` cannot pass the terminator at `p + m`. */
  lemma LineRunEnds(text: string, p: int, m: int, m': int)
    requires 0 <= p && 0 <= m && 0 <= m' && p + m <= |text| && p + m' <= |text|
    requires (p + m == |text| || IsLineTerminator(text[p + m])) && NoTerminator(text, p, p + m')
    ensures m' <= m
  {
  }

  /** Every match at `i` puts the start of `(.+)` at a non-terminator no
      later than the end of the white-space run. */
  lemma MatchStartBounded(text: string, i: int, n: int, m: int)
    requires SitemapMatch(text, i, n, m)
    ensures var j := i + 8 + LeadingSpace(text[i + 8..]);
      i + 8 + n < Min(j + 1, |text|) && !IsLineTerminator(text[i + 8 + n])
  {
    LeadingSpaceOfSuffix(text, i + 8);
    var j := i + 8 + LeadingSpace(text[i + 8..]);
    SpaceRunEnds(text, i + 8, j, i + 8 + n);
  }

  /** Every match at `i` starts `(.+)` inside the range `CaptureAt` scans. */
  lemma MatchesInScannedRange(text: string, i: int)
    requires SitemapAt(text, i)
    ensures var lo := i + 8;
      var hi := Min(lo + LeadingSpace(text[lo..]) + 1, |text|);
      forall n', m' :: SitemapMatch(text, i, n', m') ==> lo + n' < hi && !IsLineTerminator(text[lo + n'])
  {
    forall n', m' | SitemapMatch(text, i, n', m')
      ensures var j := i + 8 + LeadingSpace(text[i + 8..]);
        i + 8 + n' < Min(j + 1, |text|) && !IsLineTerminator(text[i + 8 + n'])
    {
      MatchStartBounded(text, i, n', m');
    }
  }

  /** Where `CaptureAt` gives nothing, the regex does not match at `i`. */
  lemma CaptureNoneMeansNoMatch(text: string, i: int)
    requires SitemapAt(text, i) && CaptureAt(text, i).None?
    ensures forall n, m :: !SitemapMatch(text, i, n, m)
  {
    MatchesInScannedRange(text, i);
  }

  /** Where `CaptureAt` gives a split, it is a match of the regex. */
  lemma CaptureSomeMatches(text: string, i: int)
    requires SitemapAt(text, i) && CaptureAt(text, i).Some?
    ensures var (n, m) := CaptureAt(text, i).value;
      SitemapMatch(text, i, n, m)
  {
    var lo := i + 8;
    LeadingSpaceOfSuffix(text, lo);
    var j := lo + LeadingSpace(text[lo..]);
    var p := LastNonTerminator(text, lo, Min(j + 1, |text|)).value;
    LineLengthOfSuffix(text, p);
    assert text[p..][0] == text[p];
    assert SpaceRange(text, lo, p);
  }

  /** The split `CaptureAt` gives is the one backtracking picks: no match
      has a longer `\s*`, or the same `\s*` and a longer `.+`. */
  lemma CaptureSomeIsGreedy(text: string, i: int)
    requires SitemapAt(text, i) && CaptureAt(text, i).Some?
    ensures var (n, m) := CaptureAt(text, i).value;
      forall n', m' :: SitemapMatch(text, i, n', m') ==> n' < n || (n' == n && m' <= m)
  {
    var lo := i + 8;
    var p := LastNonTerminator(text, lo, Min(lo + LeadingSpace(text[lo..]) + 1, |text|)).value;
    var m := LineLength(text[p..]);
    LineLengthOfSuffix(text, p);
    MatchesInScannedRange(text, i);
    forall n', m' | SitemapMatch(text, i, n', m') && n' == p - lo
      ensures m' <= m
    {
      LineRunEnds(text, p, m, m');
    }
  }

  /** At every position where the regex can match, `CaptureAt` gives the
      match the regex engine picks: the longest `\s*`, then the longest `.+`;
      where it gives nothing, there is no match. */
  lemma CaptureAtIsGreedy(text: string, i: int)
    requires SitemapAt(text, i)
    ensures CaptureAt(text, i).None? ==> forall n, m :: !SitemapMatch(text, i, n, m)
    ensures CaptureAt(text, i).Some? ==>
      var (n, m) := CaptureAt(text, i).value;
      SitemapMatch(text, i, n, m)
      && forall n', m' :: SitemapMatch(text, i, n', m') ==> n' < n || (n' == n && m' <= m)
  {
    if CaptureAt(text, i).None? {
      CaptureNoneMeansNoMatch(text, i);
    } else {
      CaptureSomeMatches(text, i);
      CaptureSomeIsGreedy(text, i);
    }
  }

  /** The capture of the first matching position at or after `i`: the
      position, and the capture's start and length. */
  function FirstCapture(text: string, i: nat): (r: Option<(int, int, int)>)
    ensures r.Some? ==>
      i <= r.value.0 && SitemapAt(text, r.value.0) && CaptureAt(text, r.value.0) == Some((r.value.1, r.value.2))
    ensures r.Some? ==> forall k :: i <= k < r.value.0 && SitemapAt(text, k) ==> CaptureAt(text, k).None?
    ensures r.None? ==> forall k :: i <= k && SitemapAt(text, k) ==> CaptureAt(text, k).None?
    decreases |text| - i
  {
    if i + 8 > |text| then None
    else if SitemapAt(text, i) && CaptureAt(text, i).Some? then
      var (n, m) := CaptureAt(text, i).value;
      Some((i, n, m))
    else FirstCapture(text, i + 1)
  }

  /** `text.match(/Sitemap:\s*(.+)/i)`: the first capture, trimmed, or
      `None` when the regex matches nowhere. */
  function SitemapUrl(text: string): Option<string> {
    var c := FirstCapture(text, 0);
    if c.None? then None
    else
      assert SitemapMatch(text, c.value.0, c.value.1, c.value.2) by { CaptureAtIsGreedy(text, c.value.0); }
      Some(Trim(Captured(text, c.value.0, c.value.1, c.value.2)))
  }

  /** The text `(.+)` took in the match at `i` split as `n`, `m`. */
  function Captured(text: string, i: int, n: int, m: int): string
    requires SitemapMatch(text, i, n, m)
  {
    text[i + 8 + n..i + 8 + n + m]
  }

  /** No match lies left of the first capture. */
  lemma FirstCaptureLeftmost(text: string, i: int, n: int, m: int)
    requires SitemapMatch(text, i, n, m) && FirstCapture(text, 0).Some?
    ensures FirstCapture(text, 0).value.0 <= i
  {
    CaptureAtIsGreedy(text, i);
  }

  /** `SitemapUrl` is `None` exactly when the regex matches nowhere. */
  lemma SitemapUrlNone(text: string)
    ensures SitemapUrl(text).None? <==> forall i, n, m :: !SitemapMatch(text, i, n, m)
  {
    var r := FirstCapture(text, 0);
    if r.None? {
      forall i, n, m
        ensures !SitemapMatch(text, i, n, m)
      {
        if SitemapAt(text, i) {
          CaptureAtIsGreedy(text, i);
        }
      }
    } else {
      CaptureAtIsGreedy(text, r.value.0);
    }
  }

  /** The match the regex engine reports: `(.+)` starting at `i + 8 + n`
      with length `m`, at the leftmost position that matches, with the
      longest `\s*` there and then the longest `(.+)`. */
  ghost predicate ReportedMatch(text: string, i: int, n: int, m: int) {
    SitemapMatch(text, i, n, m)
    && (forall i', n', m' :: SitemapMatch(text, i', n', m') ==> i <= i')
    && (forall n', m' :: SitemapMatch(text, i, n', m') ==> n' < n || (n' == n && m' <= m))
  }

  /** When the regex matches, `SitemapUrl` is the trimmed capture of the
      match the engine reports. */
  lemma SitemapUrlSome(text: string)
    requires SitemapUrl(text).Some?
    ensures exists i, n, m ::
      ReportedMatch(text, i, n, m) && SitemapUrl(text) == Some(Trim(Captured(text, i, n, m)))
  {
    var c := FirstCapture(text, 0).value;
    var i, n, m := c.0, c.1, c.2;
    assert ReportedMatch(text, i, n, m) by {
      CaptureAtIsGreedy(text, i);
      forall i', n', m' | SitemapMatch(text, i', n', m')
        ensures i <= i'
      {
        FirstCaptureLeftmost(text, i', n', m');
      }
    }
    assert SitemapUrl(text) == Some(Trim(Captured(text, i, n, m)));
  }

  /** `checkRobots` given the GET outcome (status and body, `None` when it
      throws): anything but 200 is "not found"; otherwise the disallow test,
      the sitemap line and `text.slice(0, 400)`, the longest prefix that
      fits in 400 UTF-16 code units. */
  function CheckRobots(response: Option<(int, string)>): (r: RobotsResult)
    ensures (response.None? || response.value.0 != 200) <==> r == RobotsMissing
    ensures r.RobotsFound? ==>
      var text := response.value.1;
      (r.disallowAll <==> exists i, j :: DisallowMatch(text, i, j))
      && r.sitemapUrl == SitemapUrl(text)
      && Utf16Cut(text, r.preview, 400)
  {
    match response
    case None => RobotsMissing
    case Some((status, text)) =>
      if status != 200 then RobotsMissing
      else
        DisallowAllMeans(text);
        RobotsFound(DisallowAll(text), SitemapUrl(text), Utf16Prefix(text, 400))
  }

  // ------------------------------------------------------- redirects

  /** Whether a response sends the walk on: a 3xx status with a non-empty
      `Location`. */
  predicate Redirects(res: HopResponse) {
    300 <= res.status < 400 && res.location.Some? && res.location.value != ""
  }

  /** What one request of the walk leads to: nothing recorded when it
      throws; otherwise its hop, and the resolved target when the answer is
      a redirect whose `Location` resolves against `current`. */
  datatype Step = Stop | Record(hop: Hop) | GoOn(hop: Hop, next: string)

  function StepAt(current: string, get: string -> Option<HopResponse>,
                  resolve: (string, string) -> Option<string>): Step
  {
    match get(current)
    case None => Stop
    case Some(res) =>
      if !Redirects(res) then Record(Hop(current, res.status))
      else match resolve(res.location.value, current)
        case None => Record(Hop(current, res.status))
        case Some(next) => GoOn(Hop(current, res.status), next)
  }

  /** The hops recorded from `current` with `fuel` requests left. */
  function Chain(current: string, get: string -> Option<HopResponse>, resolve: (string, string) -> Option<string>,
                 fuel: nat): (hops: seq<Hop>)
    ensures |hops| <= fuel
    decreases fuel
  {
    if fuel == 0 then []
    else
      match StepAt(current, get, resolve)
      case Stop => []
      case Record(hop) => [hop]
      case GoOn(hop, next) => [hop] + Chain(next, get, resolve, fuel - 1)
  }

  /** The shape of a chain: it starts at `current`, every hop records the
      status its own request answered, and every hop but the last is a
      redirect whose target is the next hop. */
  lemma {:induction false} ChainShape(current: string, get: string -> Option<HopResponse>,
                                      resolve: (string, string) -> Option<string>, fuel: nat)
    ensures var hops := Chain(current, get, resolve, fuel);
      (hops != [] ==> hops[0].url == current)
      && (forall k :: 0 <= k < |hops| ==> get(hops[k].url).Some? && get(hops[k].url).value.status == hops[k].status)
      && (forall k :: 0 <= k < |hops| - 1 ==>
            Redirects(get(hops[k].url).value) && resolve(get(hops[k].url).value.location.value, hops[k].url) == Some(hops[k + 1].url))
    decreases fuel
  {
    if fuel > 0 {
      var st := StepAt(current, get, resolve);
      if st.GoOn? {
        ChainShape(st.next, get, resolve, fuel - 1);
        var rest := Chain(st.next, get, resolve, fuel - 1);
        var hops := Chain(current, get, resolve, fuel);
        assert hops == [st.hop] + rest;
        assert forall k :: 1 <= k < |hops| ==> hops[k] == rest[k - 1];
      }
    }
  }

  /** A request that goes on: its hop joins the recorded ones and the rest
      of the walk starts from the target with one request fewer. */
  lemma ChainGoesOn(chain: seq<Hop>, current: string, get: string -> Option<HopResponse>,
                    resolve: (string, string) -> Option<string>, fuel: nat, whole: seq<Hop>)
    requires fuel > 0 && chain + Chain(current, get, resolve, fuel) == whole
    requires StepAt(current, get, resolve).GoOn?
    ensures var st := StepAt(current, get, resolve);
      (chain + [st.hop]) + Chain(st.next, get, resolve, fuel - 1) == whole
  {
    var st := StepAt(current, get, resolve);
    var rest := Chain(st.next, get, resolve, fuel - 1);
    assert chain + ([st.hop] + rest) == (chain + [st.hop]) + rest;
  }

  /** `detectRedirectChain`: at most eight requests, `count` the hops after
      the first. */
  method DetectRedirectChain(url: string, get: string -> Option<HopResponse>,
                             resolve: (string, string) -> Option<string>) returns (r: RedirectResult)
    ensures r.chain == Chain(url, get, resolve, 8)
    ensures r.count == Max(0, |r.chain| - 1) && r.count <= 7
  {
    var chain: seq<Hop> := [];
    var current := url;
    var fuel: nat := 8;
    ghost var whole := Chain(url, get, resolve, fuel);
    while fuel > 0
      invariant chain + Chain(current, get, resolve, fuel) == whole
    {
      var res := get(current);
      if res.None? {
        assert StepAt(current, get, resolve) == Stop;
        assert chain + [] == chain;
        break;
      }
      var hop := Hop(current, res.value.status);
      var next := if Redirects(res.value) then resolve(res.value.location.value, current) else None;
      if next.None? {
        assert StepAt(current, get, resolve) == Record(hop);
        chain := chain + [hop];
        break;
      }
      assert StepAt(current, get, resolve) == GoOn(hop, next.value);
      ChainGoesOn(chain, current, get, resolve, fuel, whole);
      chain := chain + [hop];
      current := next.value;
      fuel := fuel - 1;
    }
    if fuel == 0 {
      assert chain + [] == chain;
    }
    r := RedirectResult(Max(0, |chain| - 1), chain);
  }

  // ------------------------------------------------------------ audit

  /** `runTechnicalAudit` with the probes run in turn. The sitemap, robots
      and redirect probes catch their own errors and always fulfil; the TTFB
      probe's outcome is given. */
  method RunTechnicalAudit(origin: string, url: string, head: string -> Option<int>,
                           robots: Option<(int, string)>, ttfb: Option<int>,
                           get: string -> Option<HopResponse>, resolve: (string, string) -> Option<string>)
    returns (r: TechnicalResult)
    ensures r.sitemap == FirstFound(Candidates(origin), head)
    ensures r.robots == CheckRobots(robots)
    ensures r.ttfb == ttfb
    ensures r.redirects.chain == Chain(url, get, resolve, 8)
    ensures r.redirects.count == Max(0, |r.redirects.chain| - 1) && r.redirects.count <= 7
  {
    var sitemap := CheckSitemap(origin, head);
    var redirects := DetectRedirectChain(url, get, resolve);
    r := MergeProbes(Some(sitemap), Some(CheckRobots(robots)), ttfb, Some(redirects));
  }
}
