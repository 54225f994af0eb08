# Website authority audit: a Dafny model

This project models the computational core of a website audit service. The
service crawls a site and reports broken pages, on-page issues and duplicate
titles. It probes PageSpeed, the security headers, WHOIS and the page content,
and folds them into a 0–100 Authority Score. It checks the sitemap, robots.txt
and redirect chains, and looks up keyword rankings. It turns a report into
prioritised recommendations and a sales pitch, and limits each client IP to
five requests per minute. The History and Keywords tabs of the dashboard also
hold logic: score-drop alerts, row deltas, the trend series, keyword parsing
and the rank colour and status ladders.

There is one Dafny module per source file:

- `PageCrawler`: `analyzePage` and link discovery in `crawlSite`.
- `Crawl`: the rest of `crawlSite`, `summarizeIssues` and `computeOverallHealth`.
- `Scoring`: `utils/scoring.js`.
- `Security`: `lib/api/security.js`.
- `Content`: `lib/api/content.js`.
- `Probes`: the probe outcomes and their defaults, shared by the two audits.
- `AuditService`: `services/auditService.js`.
- `CompetitorService`: `services/competitorService.js`.
- `TechnicalAudit`: `services/seo/technicalAudit.js`.
- `KeywordService`: `services/ranking/keywordService.js`.
- `Recommendations`: `utils/recommendations.js`.
- `RateLimit`: `lib/rateLimit.js`, with the module-level store as a field of the class `RateLimiter`.
- `KeywordsTab` and `HistoryTab`: the logic of the two dashboard tabs.

Some modules are shared:

- `Strings`: the JavaScript whitespace class, whitespace runs, `trim`, `split`, `includes`, and integer to decimal.
- `Sorting`: a stable insertion sort by a two-level key. It stands in for `Array.prototype.sort`, which is stable.
- `Issues`: issue kinds and severities.
- `Numeric`: `Math.round`, `min` and `max`.
- `Wrappers`: `Option` and `Result`.

Loops in the source are methods with loop invariants, proved against
specification functions, for example:

- `CollectTargets` (link collection);
- `AnalyzeInBatches`;
- `GroupTitles` (the title map);
- `InjectDuplicateIssues`;
- `SummarizeIssues`;
- `CollectHeaders`;
- `CheckSitemap`;
- `DetectRedirectChain`;
- `FetchOneKeyword`;
- `ScoreDropAlerts`.

Pure computations are functions with lemmas.

Fractional arithmetic (`Math.round` of weighted sums) uses Dafny's exact
`real`. `Round(x)` is `floor(x + 0.5)`, which is what `Math.round` does,
including halves rounding up.

## Model

| member | source | states |
|---|---|---|
| Numeric.Round | utils/scoring.js:39 | the result is the integer `r` with `r <= x + 0.5 < r + 1`, i.e. `Math.round` rounding halves up |
| Numeric.RoundMonotone | utils/scoring.js:10-16 | rounding preserves order |
| Numeric.RoundWithin | utils/scoring.js:39 | a value between two integers rounds to a value between them |
| Numeric.RoundOfInteger | utils/scoring.js:39 | an integer rounds to itself |
| Strings.Trim | services/crawler/pageCrawler.js:112 | the result is a contiguous slice of the input with only whitespace cut on either side and no whitespace at either end |
| Strings.TrimOfTrimmed | services/crawler/pageCrawler.js:112 | trimming a string with no edge whitespace leaves it unchanged |
| Strings.CutAt | services/crawler/pageCrawler.js:33 | `split(c)[0]`: the longest prefix without `c`, followed in the input by `c` unless it is all of it |
| Strings.ContainsMeans | services/ranking/keywordService.js:37 | `includes` holds exactly when the needle occurs at some index |
| Strings.SplitOn | components/tabs/KeywordsTab.js:23 | at least one piece; no piece contains a separator; every piece is made of the input's characters |
| Strings.SplitOnLosesOnlySeparators | components/tabs/KeywordsTab.js:23 | concatenating the pieces gives the input without its separators, and there is one piece more than there are separators |
| Strings.CollapseSpaces | services/crawler/pageCrawler.js:117 | `replace(/\s+/g, " ")`: the result uses only plain spaces as whitespace, is no longer than the input, and is empty exactly when the input is |
| Strings.CollapseSpacesKeepsRuns | services/crawler/pageCrawler.js:117 | after `replace(/\s+/g, " ")`, splitting at the plain space gives the same first piece as splitting the original at every whitespace character, and the same non-empty pieces: the runs |
| Strings.RunsFacts | services/crawler/pageCrawler.js:115-120 | the runs (the non-empty pieces between whitespace characters) are non-empty and free of whitespace, and together they are the text's other characters in order |
| Strings.WordsAreLongRuns | services/crawler/pageCrawler.js:115-120 | the counted words are exactly the whitespace-free runs of the text longer than two UTF-16 code units, in order |
| Strings.WordsAreSpaceFree | services/crawler/pageCrawler.js:115-120 | every counted word is longer than two UTF-16 code units and contains no whitespace |
| Strings.LongTokens | services/crawler/pageCrawler.js:120 | `filter(w => w.length > 2)`: the kept tokens are exactly the input's tokens longer than two UTF-16 code units |
| Strings.Utf16Len | services/crawler/pageCrawler.js:37 | `length` counts UTF-16 code units: at least one and at most two per character |
| Strings.BmpUtf16Len | services/crawler/pageCrawler.js:37 | for text without characters above U+FFFF, `length` is the number of characters |
| Strings.Utf16Prefix | services/crawler/pageCrawler.js:74 | `slice(0, n)`: a prefix within `n` code units that cannot take one more character, and the whole string when it fits |
| Strings.Utf16LenOfPrefix | services/crawler/pageCrawler.js:74 | a prefix takes no more code units than the whole string |
| Strings.Utf16CutLongest | services/crawler/pageCrawler.js:74 | no prefix within the budget is longer than the cut |
| Strings.Utf16CutUnique | services/crawler/pageCrawler.js:74 | any prefix with the cut's properties is the cut itself, so the properties determine `slice(0, n)` |
| Strings.Utf16PrefixOfBmp | services/crawler/pageCrawler.js:74 | over text without characters above U+FFFF, `slice(0, n)` keeps the first `min(n, length)` characters |
| Strings.NatToStringRoundTrip | services/crawler/pageCrawler.js:104 | the decimal digits written for `n` read back as `n` |
| Strings.IntToString | services/crawler/pageCrawler.js:104 | non-empty, and starts with `-` exactly for a negative number |
| Sorting.SortByIsSorted | utils/recommendations.js:231-235 | the sort's output is ordered by the key |
| Sorting.SortByPermutes | utils/recommendations.js:231-235 | the sort's output is a permutation of its input |
| Sorting.SortByIsStable | utils/recommendations.js:231-235 | the elements with any one key keep their relative order (stability) |
| Sorting.SortByKeepsIncreasingWithinKeys | services/crawler/pageCrawler.js:167 | the stable sort keeps, between any two elements of equal key, whatever order held in the input |
| Sorting.PrependIncreasing | services/crawler/pageCrawler.js:63-64 | an element below all others can lead a strictly increasing sequence |
| Sorting.PermutationKeepsDistinctBy | services/crawler/pageCrawler.js:167 | a permutation of a sequence that is distinct under a projection is also distinct |
| Issues.SeverityRank | services/crawler/pageCrawler.js:166 | critical ranks 0, info 2, warning in between |
| Issues.CountSeveritiesSum | services/crawler/pageCrawler.js:138-140 | the critical, warning and info counts add up to the number of issues |
| Issues.CountSeverityAppend | services/crawler/pageCrawler.js:138-140 | counting severities distributes over concatenation |
| PageCrawler.StripFragmentAndQuery | services/crawler/pageCrawler.js:33 | the result has no `#` or `?`, is a prefix of the URL, and is the URL itself when it has neither |
| PageCrawler.LinkTarget | services/crawler/pageCrawler.js:31-40 | a link is added exactly when its scheme is not skipped, it resolves, and the stripped URL is crawlable (same origin, not a skipped extension, under 200 UTF-16 code units); the added URL is the stripped one |
| PageCrawler.DiscoverFacts | services/crawler/pageCrawler.js:27-42 | the seen set starts with the crawl URL, has no duplicates, holds only crawlable URLs after it, and each comes from some link |
| PageCrawler.DiscoverShape | services/crawler/pageCrawler.js:27-42 | the seen set starts with the crawl URL, has no duplicates and holds only crawlable URLs after it |
| PageCrawler.LinkTargets | services/crawler/pageCrawler.js:31-40 | one accepted target (or none) per link, in link order |
| PageCrawler.DiscoverIsGather | services/crawler/pageCrawler.js:27-42 | the callback run over the links is adding each link's target in turn |
| PageCrawler.GatherSources | services/crawler/pageCrawler.js:27-42 | adding targets keeps what was seen as a prefix; each new entry is one of the targets, and every target is listed |
| PageCrawler.DiscoverSources | services/crawler/pageCrawler.js:27-42 | every URL after the crawl URL comes from some link, and every link's target is listed |
| PageCrawler.CollectTargets | services/crawler/pageCrawler.js:27-42 | the link loop builds exactly the discovered set |
| PageCrawler.TargetsFacts | services/crawler/pageCrawler.js:44 | between 1 and 25 targets, the first is the crawl URL, no duplicates, a prefix of the discovered set that is all of it when it has at most 25 entries |
| PageCrawler.SkippedLinkLeavesTargets | services/crawler/pageCrawler.js:32 | a `mailto:`/`tel:` link or one that does not resolve changes nothing |
| PageCrawler.HealthScore | services/crawler/pageCrawler.js:138-141 | the health score is in `[0, 100]` |
| PageCrawler.HealthScoreAntitone | services/crawler/pageCrawler.js:141 | more issues never raise the health score |
| PageCrawler.HealthScorePerfect | services/crawler/pageCrawler.js:141 | the score is 100 exactly when there are no issues |
| PageCrawler.HealthScoreOneCritical | services/crawler/pageCrawler.js:141 | one critical issue scores 75 |
| PageCrawler.Fired | services/crawler/pageCrawler.js:127-136 | the issues pushed are exactly those of the rules that fire |
| PageCrawler.FiredOrdered | services/crawler/pageCrawler.js:127-136 | issues come out in rule order |
| PageCrawler.ParsedPageIssuesFacts | services/crawler/pageCrawler.js:127-136 | a parsed page's issues are in rule order, each rule's kind appears exactly when that rule's condition holds, and each issue is its rule's record (kind, severity, message) |
| PageCrawler.ParsedPageRuleConditions | services/crawler/pageCrawler.js:128-136 | each of the nine conditions spelled out: missing title, missing meta, no H1, several H1s, under 300 words, no canonical, images without alt, no WebP/AVIF, more than two unsized images |
| PageCrawler.OrEmpty | services/crawler/pageCrawler.js:113 | `attr(...) \|\| ""` is empty exactly when the attribute is missing or empty |
| PageCrawler.OrNull | services/crawler/pageCrawler.js:121 | `attr(...) \|\| null` is null exactly when the attribute is missing or empty |
| PageCrawler.AnalyzePage | services/crawler/pageCrawler.js:86-153 | a failed fetch gives status 0, score 0 and one critical fetch error; status 400 or more gives score 0 and one critical `HTTP <status>` issue; otherwise the parsed details, the rule issues and their health score |
| PageCrawler.ErrorStatusIgnoresBody | services/crawler/pageCrawler.js:97-106 | for an error status the body does not matter |
| Crawl.BatchesFacts | services/crawler/pageCrawler.js:48-49 | the batches concatenate back to the pages; there are ⌈n/5⌉ of them, each 1 to 5 pages, all but the last exactly 5 |
| Crawl.AnalyzeInBatches | services/crawler/pageCrawler.js:48-54 | the batched loop yields one result per page, in page order, each the page's own analysis |
| Crawl.FindKey | services/crawler/pageCrawler.js:60 | the lookup `titleMap[p.title]` (and `grouped[issue.type]` at line 159): the index of the first entry with the key, or the entry count when none has it |
| Crawl.FindKeySnoc | services/crawler/pageCrawler.js:60 | a lookup in a longer list finds the earlier entry when there is one, else the new last entry, else nothing |
| Crawl.AddUntitled | services/crawler/pageCrawler.js:59 | a page without a title leaves the title map correct |
| Crawl.AddNewTitle | services/crawler/pageCrawler.js:60-61 | a first page with a new title opens a group and keeps the map correct |
| Crawl.AddKnownTitle | services/crawler/pageCrawler.js:61 | a page with a known title is appended to its group and keeps the map correct |
| Crawl.TitleMapFacts | services/crawler/pageCrawler.js:57-62 | the title map has one group per non-empty title, each listing the URLs of the pages with that title |
| Crawl.FirstSeenFound | services/crawler/pageCrawler.js:57-61 | a title is carried by some result exactly when its first occurrence lies within the results |
| Crawl.TitleOrderStep | services/crawler/pageCrawler.js:59-61 | one loop round keeps the groups in the order their titles first occur, each title occurring |
| Crawl.TitleMapInOrder | services/crawler/pageCrawler.js:57-62 | the title map's insertion order is first-seen order: each group's title occurs, and earlier groups' titles occur first earlier |
| Crawl.GroupTitles | services/crawler/pageCrawler.js:57-62 | the loop throws `titleMap[p.title].push is not a function` exactly when some result's title is an `Object.prototype` name, and otherwise builds exactly the title map |
| Crawl.ArrayIndexDistinct | services/crawler/pageCrawler.js:63 | distinct canonical array-index keys have distinct numeric values |
| Crawl.KindNamesArePlainKeys | services/crawler/pageCrawler.js:159 | no issue type is an `Object.prototype` name or an array index |
| Crawl.GroupsPermuted | services/crawler/pageCrawler.js:63 | any reordering of a correct title grouping is correct |
| Crawl.TitleMapWithinKeys | services/crawler/pageCrawler.js:57-63 | in the title map, two groups with the same `Object.entries` key are non-index titles, the earlier first seen earlier |
| Crawl.SortedEntriesRanked | services/crawler/pageCrawler.js:63 | groups sorted by `Object.entries` key, ties in first-seen order, are strictly ordered by rank: array indices by value, then the others by first occurrence |
| Crawl.EntriesGroupTitles | services/crawler/pageCrawler.js:57-63 | `Object.entries(titleMap)` holds exactly the title map's groups |
| Crawl.EntriesInOrder | services/crawler/pageCrawler.js:57-63 | `Object.entries(titleMap)` lists array-index titles first, ascending by value, then all other titles in first-seen order |
| Crawl.SharedTitlesKeepsOrder | services/crawler/pageCrawler.js:63-64 | the length filter keeps the relative order of the groups it keeps |
| Crawl.DuplicateTitlesInOrder | services/crawler/pageCrawler.js:57-65 | the duplicates come in `Object.entries` order: array-index titles ascending, then the others in first-seen order |
| Crawl.SharedTitles | services/crawler/pageCrawler.js:63-64 | the groups kept are exactly those with more than one page |
| Crawl.SharedTitlesDistinct | services/crawler/pageCrawler.js:63-65 | filtering keeps titles distinct |
| Crawl.DuplicateTitleIff | services/crawler/pageCrawler.js:57-65 | a title is reported as duplicated exactly when it is non-empty and more than one page has it |
| Crawl.DuplicateTitlesFacts | services/crawler/pageCrawler.js:57-65 | duplicate groups have distinct non-empty titles, and each lists exactly the pages with that title |
| Crawl.UrlInTitleGroup | services/crawler/pageCrawler.js:70 | for distinct URLs, a page's URL is in a title's group exactly when the page has that title |
| Crawl.DuplicateIssue | services/crawler/pageCrawler.js:71-75 | a critical `duplicate_title` issue whose message quotes `title.slice(0, 50)`: the longest prefix of the title within 50 UTF-16 code units |
| Crawl.InjectGroupInPlace | services/crawler/pageCrawler.js:69-77 | the inner loop adds the issue to exactly the pages of one group |
| Crawl.InjectDuplicateIssues | services/crawler/pageCrawler.js:68-78 | the nested loop gives the injection function's result |
| Crawl.InjectAllShape | services/crawler/pageCrawler.js:68-78 | each page gains the duplicate issue if its URL is in some group and is otherwise unchanged |
| Crawl.DuplicateGroupOfPage | services/crawler/pageCrawler.js:68-78 | each page is in at most one duplicate group, and is in one exactly when its title is shared |
| Crawl.DuplicateInjectionFacts | services/crawler/pageCrawler.js:68-78 | with distinct URLs, exactly the pages with a shared title get one duplicate issue appended |
| Crawl.InjectionKeepsScores | services/crawler/pageCrawler.js:68-78 | injection changes neither URL, status, load time nor health score |
| Crawl.FirstOfKindFound | services/crawler/pageCrawler.js:159-160 | a kind has a first occurrence exactly when it occurs, and that occurrence has the kind |
| Crawl.AddNewKind | services/crawler/pageCrawler.js:159-163 | the first occurrence of a kind opens a summary with count 1 and keeps the grouping correct |
| Crawl.AddKnownKind | services/crawler/pageCrawler.js:162-163 | a later occurrence increments its summary's count, appends its page, and keeps the grouping correct |
| Crawl.GroupedFacts | services/crawler/pageCrawler.js:156-165 | the grouping has one summary per issue kind, with the first occurrence's severity and message, the number of occurrences, and their pages in order |
| Crawl.FirstOfKindAt | services/crawler/pageCrawler.js:159-160 | a kind has a first occurrence exactly when its first index lies within the occurrences, and the recorded issue is the one at that index |
| Crawl.KindOrderStep | services/crawler/pageCrawler.js:159-163 | one inner-loop round keeps the summaries in the order their kinds first occur |
| Crawl.GroupedInOrder | services/crawler/pageCrawler.js:156-165 | the grouping's insertion order is first-occurrence order: each kind occurs, and earlier summaries' kinds occur first earlier |
| Crawl.CountIssue | services/crawler/pageCrawler.js:159-163 | one inner-loop step adds one occurrence to the grouping |
| Crawl.CountPageIssues | services/crawler/pageCrawler.js:158-164 | the inner loop adds a page's occurrences |
| Crawl.SummarizeIssues | services/crawler/pageCrawler.js:155-170 | the nested loop and the sort give the summary function |
| Crawl.SummaryFacts | services/crawler/pageCrawler.js:155-170 | the summary groups the occurrences correctly; it is sorted by severity and then by count descending, is a stable permutation of the grouping, and has distinct kinds |
| Crawl.SummaryTiesInOrder | services/crawler/pageCrawler.js:155-170 | summaries of equal severity and count stay in the order their kinds first occur |
| Crawl.SumHealthBounds | services/crawler/pageCrawler.js:174 | the sum of in-range scores is between 0 and 100 per page |
| Crawl.OverallHealth | services/crawler/pageCrawler.js:172-175 | 0 for no pages; in `[0, 100]` when every page score is |
| Crawl.OverallHealthConstant | services/crawler/pageCrawler.js:174 | pages that all score `h` average to `h` |
| Crawl.CrawlSite | services/crawler/pageCrawler.js:10-84 | a homepage failure gives the `Cannot fetch homepage: ` error; a result titled with an `Object.prototype` name gives the `push` `TypeError`; otherwise the report |
| Crawl.ReportFacts | services/crawler/pageCrawler.js:44-83 | pages checked equals the number of targets and of pages, is between 1 and 25; the first page is the crawl URL; the i-th page is the i-th target with that target's own health score; the overall health is in `[0, 100]` |
| Crawl.ReportDuplicates | services/crawler/pageCrawler.js:63-83 | the report's duplicate titles are those of the analysed results, and each page carries the duplicate issue exactly when its title is shared |
| Scoring.CalculateAuthorityScore | utils/scoring.js:3-17 | in `[0, 100]` when every component is; equal components give that value (the weights add to 1) |
| Scoring.AuthorityMonotone | utils/scoring.js:10-16 | raising any component never lowers the score |
| Scoring.AuthorityArgs | utils/scoring.js:3-9 | each parameter is its key's value in the argument object, or 0 when the key is absent |
| Scoring.AuthorityOfUnknownKeys | utils/scoring.js:3-17 | an argument object with none of the five keys scores 0 |
| Scoring.GetTechnicalHealth | utils/scoring.js:21-40 | in `[0, 100]` for inputs in range; without sitemap, robots, TTFB or redirects it is the rounded mean of the four scores |
| Scoring.TechnicalHealthNeutral | utils/scoring.js:34-38 | a TTFB from 200 to 800 ms, or at most one redirect, changes nothing |
| Scoring.TechnicalHealthTtfbDirection | utils/scoring.js:34-37 | a TTFB under 200 ms never lowers the score; one over 800 ms never raises it |
| Scoring.RedirectAdjustedMonotone | utils/scoring.js:38 | the redirect penalty preserves order |
| Scoring.RankScore | utils/scoring.js:45 | non-negative, and at most 100 for an average rank of at least 1 |
| Scoring.RankScoreCalibration | utils/scoring.js:44-45 | rank 1 maps to 100 and rank 20 to 0, as the comment says |
| Scoring.RankScoreAntitone | utils/scoring.js:45 | a worse average rank never scores more |
| Scoring.GetSearchVisibility | utils/scoring.js:42-47 | without a rank it is `seo`; with a rank of at least 1 it stays in `[0, 100]` |
| Scoring.GetBrandSignals | utils/scoring.js:49-58 | at most 100; non-negative for a non-negative age score; without markup it is half the age score, rounded |
| Scoring.BrandSignalsMonotone | utils/scoring.js:54-57 | more markup never lowers the signal |
| Scoring.GetDomainAgeScore | utils/scoring.js:62-71 | one of 40/60/80/100; 40 when no date is known; 100 exactly above 10 years; 40 exactly at 1 year or less |
| Scoring.DomainAgeMonotone | utils/scoring.js:67-70 | an older domain never scores less |
| Scoring.PresentHeaders | utils/scoring.js:82 | the present headers are exactly the checked names with a truthy header value |
| Scoring.PercentOfSix | utils/scoring.js:83 | in `[0, 100]` for 0 to 6 present headers |
| Scoring.PercentOfSixTable | utils/scoring.js:83 | 0, 17, 33, 50, 67, 83 and 100, for 0 to 6 headers |
| Scoring.GetSecurityScore | utils/scoring.js:73-84 | the score is in `[0, 100]` |
| Scoring.SecurityScoreExtremes | utils/scoring.js:73-84 | no header present scores 0; all six score 100 |
| Scoring.GetContentScore | utils/scoring.js:86-106 | in `[0, 100]`, and equal to the sum of the word, H1, depth and markup points |
| Scoring.WordPoints | utils/scoring.js:95-97 | word points are in `[0, 25]` |
| Scoring.H1Points | utils/scoring.js:98-99 | H1 points are in `[0, 20]` |
| Scoring.DepthPoints | utils/scoring.js:100-101 | depth points are in `[0, 15]` |
| Scoring.ContentScoreMaximum | utils/scoring.js:86-106 | a page with every signal at its best scores exactly 100 |
| Scoring.ContentScoreWordsMonotone | utils/scoring.js:95-97 | more words never lower the content score |
| Scoring.SeverityWeight | utils/scoring.js:110 | the weights are 20, 8 and 3 for critical, warning and info |
| Scoring.CrawlPenalties | utils/scoring.js:109-112 | the penalty is non-negative and at most 100 per summary |
| Scoring.GetCrawlHealthScore | utils/scoring.js:108-114 | in `[0, 100]`, and 100 for no issues |
| Scoring.CrawlHealthAntitone | utils/scoring.js:108-114 | another issue summary never raises the score |
| Scoring.CrawlHealthOfFiveCriticals | utils/scoring.js:111 | a critical issue on five or more pages alone scores 0 (the count is capped at 5) |
| Scoring.ScoreTheme | utils/scoring.js:118-145 | Excellent exactly from 80, Good exactly from 60 to 79, Needs Work below 60 |
| Scoring.ScoreThemeMonotone | utils/scoring.js:118-145 | a higher score never gets a lower label |
| Security.GradeOf | lib/api/security.js:28-37 | the grade ladder: A from 83, B from 66, C from 50, D from 33, otherwise F, each in both directions |
| Security.GradeByCount | lib/api/security.js:27-37 | five or six headers grade A, four B, three C, two D, fewer F |
| Security.FoundAmong | lib/api/security.js:21-24 | the found map holds exactly the checked headers with truthy values, each with the response's value |
| Security.FoundAmongCount | lib/api/security.js:26 | for distinct names, the found map's size is the number of present headers, at most the number of names |
| Security.CollectHeaders | lib/api/security.js:21-24 | the loop builds exactly the found map |
| Security.FailedReport | lib/api/security.js:46-54 | a failed request reports no headers, score 0, grade F, six checks and the error message |
| Security.FetchSecurityData | lib/api/security.js:12-56 | six checks; score in `[0, 100]` with the grade of the ladder; present count equals the found map's size, at most 6; a failure gives the failed report; otherwise the found headers are exactly the present checked ones, with their values |
| Content.Strip | lib/api/content.js:15 | exactly the elements that are not `script`, `style`, `nav`, `footer`, `header` or `noscript` remain |
| Content.Select | lib/api/content.js:24-36 | a selector picks exactly the matching elements |
| Content.FirstMatchAt | lib/api/content.js:22-23 | the position of the first matching element, or the length when none matches |
| Content.SelectFirst | lib/api/content.js:22-23 | the first selected element is the first matching element of the document |
| Content.CountPositive | lib/api/content.js:33-36 | `length > 0` exactly when some element matches |
| Content.MetaDescriptionOf | lib/api/content.js:22-23 | `""` when no `meta[name="description"]` exists; otherwise the `content` of the first one, or `""` when it has none |
| Content.DepthAfter | lib/api/content.js:28-31 | the reduce gives 0 exactly when no level is present, and otherwise the deepest level present |
| Content.HeadingDepthMeans | lib/api/content.js:28-31 | heading depth is 0 exactly when no `h1`–`h6` occurs, and otherwise the deepest level that occurs |
| Content.FetchContentData | lib/api/content.js:33-34 | schema detection is computed on the stripped page |
| Content.FetchContentDataMeans | lib/api/content.js:15-58 | each field is what it measures on the stripped page (trimmed title, word count, H1 and alt-less image counts, heading depth at most 6, Open Graph and canonical flags), and the score is `getContentScore` of them, in `[0, 100]` |
| Content.ScriptIsRemoved | lib/api/content.js:15 | every `script` element is removed |
| Content.SchemaNeverDetected | lib/api/content.js:15-34 | as written, schema markup is never detected |
| Content.FetchContentDataCorrected | lib/api/content.js:33-34 | schema detection is computed on the unstripped page |
| Content.CorrectedDetectsSchema | lib/api/content.js:33-34 | the corrected probe detects schema exactly when a JSON-LD script is present, agrees with the as-written probe on every other field, and scores 20 more when it detects schema |
| Probes.Settle | services/auditService.js:19-48 | a fulfilled probe gives its value; a rejected one gives the source's default (all-zero PageSpeed; score 0, grade F, six checks; age score 40 with no dates; empty content scoring 0) |
| Probes.SettleKeepsRange | services/auditService.js:19-48 | probe scores in `[0, 100]` stay there after settling |
| AuditService.RunFullAudit | services/auditService.js:59-88 | the backlink score is 0, and the backlink count and indexed pages are null |
| AuditService.FullAuditCopiesProbes | services/auditService.js:59-88 | every other report field is the settled probe's own field, and a rejected probe shows its default |
| AuditService.FullAuditAuthorityZero | services/auditService.js:50-57 | as written, the authority score is 0 for every input |
| AuditService.RunFullAuditCorrected | services/auditService.js:50-57 | the corrected authority score is the one the competitor audit composes from the same probes |
| AuditService.CorrectedAuthority | services/auditService.js:50-57 | the corrected report differs from the as-written one only in the authority score, which is in `[0, 80]` for in-range probes |
| AuditService.PerfectSiteAuthority | services/auditService.js:50-57 | a site perfect on every probe gets 0 as written and 80 when corrected |
| CompetitorService.RunCompetitorAudit | services/competitorService.js:61-78 | the report copies the URL, domain, PageSpeed scores, security score and grade, content score and domain age from the settled probes |
| CompetitorService.CompetitorSubScores | services/competitorService.js:40-46 | technical health is the rounded mean of the four scores passed; search visibility is `seo` |
| CompetitorService.AuthorityWithoutBacklinks | services/competitorService.js:53-59 | with backlinks fixed at 0, the authority score is at most 80 |
| CompetitorService.CompetitorScoresBounded | services/competitorService.js:40-59 | for in-range probes every sub-score is in `[0, 100]`, and the authority score is in `[0, 80]` |
| CompetitorService.FailedContentProbe | services/competitorService.js:35-51 | a rejected content probe gives content 0 and brand signals of half the age score |
| CompetitorService.BrandSignalsMissSchema | services/competitorService.js:47-51 | fed the as-written content probe, brand signals never get the schema points |
| TechnicalAudit.MergeProbes | services/seo/technicalAudit.js:15-20 | each settled probe is its value; a rejected one gives `found: false`, a null TTFB, or the empty chain |
| TechnicalAudit.FirstFound | services/seo/technicalAudit.js:29-39 | found exactly when some candidate answers 200; the URL reported is the first such candidate |
| TechnicalAudit.CheckSitemap | services/seo/technicalAudit.js:23-40 | the loop gives the first-found result over the three candidates |
| TechnicalAudit.SitemapCandidateOrder | services/seo/technicalAudit.js:24-28 | `sitemap.xml` before `sitemap_index.xml` before `sitemap/`, and none found when none answers 200 |
| TechnicalAudit.DisallowAllMeans | services/seo/technicalAudit.js:52 | `/Disallow:\s*\/\s*$/` (no `m` flag) holds exactly when some `Disallow:` is followed by optional whitespace, `/`, and whitespace to the end of the text |
| TechnicalAudit.LineLength | services/seo/technicalAudit.js:53 | the length of the text before its first line terminator |
| TechnicalAudit.CaptureAtIsGreedy | services/seo/technicalAudit.js:53 | at a `Sitemap:` position, the match captured follows the regex's backtracking order: the most whitespace, then the longest capture, or no match at all |
| TechnicalAudit.FirstCapture | services/seo/technicalAudit.js:53 | the leftmost position with a match, and no match before it |
| TechnicalAudit.FirstCaptureLeftmost | services/seo/technicalAudit.js:53 | no match starts before the reported one |
| TechnicalAudit.SitemapUrlNone | services/seo/technicalAudit.js:53-58 | `sitemapUrl` is null exactly when the regex has no match |
| TechnicalAudit.SitemapUrlSome | services/seo/technicalAudit.js:53-58 | otherwise it is the trimmed capture of the reported match |
| TechnicalAudit.CheckRobots | services/seo/technicalAudit.js:42-64 | not found exactly when the request fails or the status is not 200; otherwise disallow-all as its regex means, the sitemap URL, and as preview `text.slice(0, 400)`, the longest prefix within 400 UTF-16 code units |
| TechnicalAudit.Chain | services/seo/technicalAudit.js:84 | at most as many hops as the fuel (8) |
| TechnicalAudit.ChainShape | services/seo/technicalAudit.js:84-100 | the chain starts at the given URL; each hop records the status its URL answered; each hop but the last is a 3xx with a location that resolves to the next hop |
| TechnicalAudit.DetectRedirectChain | services/seo/technicalAudit.js:80-104 | the loop yields the specified chain, and the count is the hop count less one (0 for none), at most 7 |
| TechnicalAudit.RunTechnicalAudit | services/seo/technicalAudit.js:5-21 | the sitemap, robots, TTFB and redirect results are those of the respective checks; the redirect count is the chain length minus one (0 for an empty chain), at most 7 |
| KeywordService.FirstMatch | services/ranking/keywordService.js:35-42 | the first organic result whose link contains the domain, or none when none does |
| KeywordService.RankOfMeans | services/ranking/keywordService.js:31-44 | rank and URL are null together, exactly when no link contains the domain; otherwise the rank is the 1-based position of the first match and the URL its link |
| KeywordService.FetchOneKeyword | services/ranking/keywordService.js:18-45 | the loop gives the rank for the organic results, or for none when they are missing |
| KeywordService.FulfilledMembers | services/ranking/keywordService.js:13-15 | every fulfilled result belongs to a searched keyword whose search succeeded, and is its rank |
| KeywordService.FulfilledAll | services/ranking/keywordService.js:9-15 | when every search succeeds, there is one result per keyword, in order |
| KeywordService.Answered | services/ranking/keywordService.js:13-15 | the keywords whose search fulfilled, exactly, in list order |
| KeywordService.FulfilledInOrder | services/ranking/keywordService.js:13-15 | the fulfilled results are the records of the answered keywords, one each, in keyword order |
| KeywordService.FulfilledComplete | services/ranking/keywordService.js:13-15 | every keyword whose search fulfilled has its record among the results |
| KeywordService.FetchKeywordRankings | services/ranking/keywordService.js:5-16 | null exactly without an API key; `[]` for no keywords; otherwise one record per fulfilled keyword among the first 20, in keyword order, every such keyword included and no other |
| KeywordService.OnlyFirstTwenty | services/ranking/keywordService.js:10 | keywords past the twentieth change nothing |
| Recommendations.TierOf | utils/recommendations.js:3-63 | the tier ladder, strong from 85 down to critical below 30, each in both directions |
| Recommendations.GetScoreRange | utils/recommendations.js:3-63 | the range carries the tier of the ladder and that tier's name |
| Recommendations.ScoreRangeMonotone | utils/recommendations.js:3-63 | a higher score never gets a lower tier |
| Recommendations.MakeRec | utils/recommendations.js:70-72 | the record has the given area, priority and issue, a gain range with `min < max`, and `scoreEffect` formatted from the two |
| Recommendations.AreaRecArea | utils/recommendations.js:75-225 | each rule's record is about its own area |
| Recommendations.PriorityRank | utils/recommendations.js:228 | critical 0, high 1, medium 2, low 3 |
| Recommendations.EffortRank | utils/recommendations.js:229 | quick 0, medium 1, long-term 2 |
| Recommendations.PushedByMembers | utils/recommendations.js:70-225 | each pushed record is its rule's record for an area in the list |
| Recommendations.PushedByComplete | utils/recommendations.js:70-225 | each rule that fires has its record pushed |
| Recommendations.RecommendationsOrder | utils/recommendations.js:227-235 | the output is sorted by priority then effort, is a permutation of the pushed records, keeps push order among equal keys, and has one record per area |
| Recommendations.RecommendationsMembers | utils/recommendations.js:67-236 | the output holds exactly the records of the rules that fire |
| Recommendations.BacklinkAlwaysPresent | utils/recommendations.js:215-218 | every report gets exactly one high-priority backlink record |
| Recommendations.DisallowAllSuppressesMissingRobots | utils/recommendations.js:193-201 | when robots.txt disallows everything there is a robots record, and every robots record is critical |
| Recommendations.Selected | utils/recommendations.js:241 | the filter keeps exactly the records whose priority is listed, starting with the first such record |
| Recommendations.SumMinAtMostSumMax | utils/recommendations.js:242-243 | when each record's minimum gain is at most its maximum, so are the sums |
| Recommendations.SelectedSums | utils/recommendations.js:241-243 | summing the filtered records' gains is summing the gains of the records with a listed priority |
| Recommendations.EstimateTotalGain | utils/recommendations.js:240-245 | min is the selected records' summed minimum gain capped at 45, max their summed maximum gain capped at 65; the count is at most the number of records; `min <= max` when each record's gains are ordered |
| Recommendations.GainCountsSelected | utils/recommendations.js:244 | the count is the number of records with a listed priority |
| Recommendations.FirstWith | utils/recommendations.js:251-252 | `filter(...)[0]`: the record with the priority that no earlier record has; none exactly when there is none |
| Recommendations.TopIssue | utils/recommendations.js:255 | the first critical record; with none, the first high one; with neither, the first record; none exactly for no records |
| Recommendations.TopIssueOfSorted | utils/recommendations.js:255 | for sorted records, the top issue is the first record |
| Recommendations.FirstIndex | utils/recommendations.js:271 | the position of a value's first occurrence, or the length when it does not occur |
| Recommendations.FirstIndexOfPrefix | utils/recommendations.js:271 | extending a list does not move the first occurrence of a value it already has |
| Recommendations.Dedup | utils/recommendations.js:271 | `new Set`: the same members with no repeats, ordered by first occurrence |
| Recommendations.DedupHead | utils/recommendations.js:271 | the deduplicated list starts with the first value |
| Recommendations.Only | utils/recommendations.js:251-252 | the records with the priority, starting with the first of them |
| Recommendations.PlanServices | utils/recommendations.js:271 | the first three (or fewer) distinct services of the critical records' services followed by the high ones'; each of a critical or high record |
| Recommendations.PlanLeadsWithTopIssue | utils/recommendations.js:255-271 | the plan opens with the top issue's service when some record is critical or high, and is empty otherwise |
| RateLimit.Recent | lib/rateLimit.js:9-10 | the kept timestamps are exactly those after the window start |
| RateLimit.RateLimiter.constructor | lib/rateLimit.js:3 | the store starts empty |
| RateLimit.RateLimiter.Check | lib/rateLimit.js:7-19 | the new store and the verdict are one step of the limiter; allowed exactly when fewer than 5 timestamps are in the last 60 s |
| RateLimit.StepDecision | lib/rateLimit.js:12-14 | allowed exactly below 5 recent calls; a denial has 0 remaining and leaves the store unchanged |
| RateLimit.StepAllowed | lib/rateLimit.js:16-18 | an allowed call stores the pruned timestamps plus `now`, and reports `5 - stored` remaining, in `[0, 4]` |
| RateLimit.StepOtherIps | lib/rateLimit.js:7-19 | a call for one IP leaves every other IP's entry as it was |
| RateLimit.RecentTwice | lib/rateLimit.js:9-10 | pruning twice equals pruning once at the later window start |
| RateLimit.StepKeeps | lib/rateLimit.js:7-19 | one call preserves the trace invariant: the store tracks the granted calls, and no IP has more than 5 granted calls in any minute |
| RateLimit.RunWindowBounded | lib/rateLimit.js:1-19 | over any time-ordered run of calls, no IP has more than five granted calls in any 60 s window |
| RateLimit.FivePerMinute | lib/rateLimit.js:1 | five requests per minute per IP, as the header promises |
| KeywordsTab.ParsedKeywordsAreClean | components/tabs/KeywordsTab.js:22-26 | the list is the first at most 20 trimmed, non-empty pieces, and each is clean (trimmed, non-empty, without separators) |
| KeywordsTab.ParseJoinedRoundTrip | components/tabs/KeywordsTab.js:22-26 | parsing clean keywords joined by commas gives them back |
| KeywordsTab.ParseKeywords | components/tabs/KeywordsTab.js:26 | at most 20 keywords |
| KeywordsTab.StartFetch | components/tabs/KeywordsTab.js:21-39 | nothing is sent and the state is unchanged exactly when the list is empty; otherwise loading is set, errors cleared, and the request carries the domain and the list |
| KeywordsTab.BlankInputSendsNothing | components/tabs/KeywordsTab.js:28 | a box holding only separators and whitespace sends nothing |
| KeywordsTab.RankColor | components/tabs/KeywordsTab.js:56-61 | muted for no rank; emerald for rank ≤ 3; yellow for ≤ 10; red above, each in both directions |
| KeywordsTab.StatusLabel | components/tabs/KeywordsTab.js:124-134 | "Not in top 100" exactly for no rank, "Top 3" exactly for rank ≤ 3 |
| KeywordsTab.StatusIsResultsPage | components/tabs/KeywordsTab.js:128-133 | above 3, the label is the results page `⌈rank/10⌉`, the Page 1 and Page 2 branches included |
| KeywordsTab.ColorMatchesStatus | components/tabs/KeywordsTab.js:124-134 | colour and label agree: muted with "Not in top 100", emerald with "Top 3", yellow with "Page 1" |
| HistoryTab.DropIndices | components/tabs/HistoryTab.js:50-52 | the alerted indices are increasing, in range, each with a drop of at least 5, and include every such index |
| HistoryTab.AlertsAt | components/tabs/HistoryTab.js:53-58 | one alert per index, each the record for that index |
| HistoryTab.ScoreDropAlerts | components/tabs/HistoryTab.js:49-60 | the loop yields the specified alerts |
| HistoryTab.AlertsBelowAreAtIndices | components/tabs/HistoryTab.js:49-60 | the alerts are the records for the drop indices |
| HistoryTab.DropIndicesMeans | components/tabs/HistoryTab.js:50-52 | an index is alerted exactly when the older score exceeds the newer by at least 5; at most one alert per adjacent pair |
| HistoryTab.DropAlertsMeans | components/tabs/HistoryTab.js:53-58 | each alert has the older score as `from`, the newer as `to`, their difference (at least 5) as `drop`, and the newer audit's date |
| HistoryTab.RowDelta | components/tabs/HistoryTab.js:122-123 | only the last row has no delta |
| HistoryTab.DeltaMatchesAlert | components/tabs/HistoryTab.js:123 | an alert's drop is the negated delta of the newer row; an alert is raised exactly where that delta is `-5` or less |
| HistoryTab.DeltasTelescope | components/tabs/HistoryTab.js:123 | the deltas from a row down add up to that row's score minus the oldest score |
| HistoryTab.TrendData | components/tabs/HistoryTab.js:39-46 | the chart has one point per audit, in reverse (oldest first) order |
| HistoryTab.TrendDataReversed | components/tabs/HistoryTab.js:39-46 | reading the chart backwards gives the rows in table order |

## Left out

- Network, HTTP and HTML parsing are not modelled. A fetch outcome is an input: a status, a failure message, and the features a parsed page yields. These are the element list with tags and attributes, the body text and the title text. URL resolution (`new URL(href, base)`), `new URL(url).hostname` and `origin` are inputs or function parameters.
- The element list is flat. Selector matching covers only the selectors the source uses. Prefixes such as `og:` and substrings such as `.webp` are checked on attribute values. `PageCrawler` takes its parsed features abstractly rather than recomputing them from the element list. Its removal list (`script, style, nav, footer`) differs from the one in `lib/api/content.js`.
- `Promise.allSettled` is sequential composition. Tasks that cannot reject in the source (`analyzePage`, `checkSitemap`, `checkRobots`) are total functions. A probe that can reject is an `Option` input. Concurrency, timeouts and ordering between tasks are not modelled.
- Clocks are not modelled. `Date.now()`, the page load time, `checkedAt` and the domain's age in years are inputs. `measureTTFB` is entirely a clock reading, so its result is an input.
- `fetchPageSpeed` and `fetchWhoisData` are not part of this model. Their results are records given as inputs. `ageYears` is the string `toFixed` produced.
- Floating point is not modelled. Weighted sums are exact rationals. The `0.25/0.25/0.2/0.2/0.1` weights, `5.3` and `/ 4` are exact, so results can differ from IEEE doubles only at halves that doubles represent inexactly.
- `getKeywordHistory` and `getKeywordTrend` are database reads. They and the MongoDB models are not modelled.
- `generateSalesScript`: only the top issue, the gain estimate and the deduplicated service plan are modelled. The text lines are assembled from these with template strings and `toLowerCase`, and are left out.
- The human-readable texts of the recommendation and issue records (`Impact`, `Service`, `IssueText`, `Tagline`, the fixed issue messages of `PageCrawler.RuleIssue`) are modelled as the source writes them, but no contract states them. Contracts do state the areas, priorities, efforts, gains and the message forms that carry data (`HTTP <status>`, `Duplicate title: "<up to 50 code units>"`, the redirect hop count).
- `Strings.Utf16Prefix`: Dafny strings are sequences of Unicode scalar values, while JavaScript strings are UTF-16 code units, so lengths are counted in code units (`Strings.Utf16Len`). A `slice` that would cut a surrogate pair in half keeps a lone high surrogate in JavaScript. A Dafny `char` cannot hold one, so the model stops before the pair, one code unit short of the source in that case only.
- React rendering, `useState`, `toLocaleDateString` and the response handling after the `/api/keywords` request in the Keywords tab are left out. Dates stay as stored timestamps.
- The competitor content default (services/competitorService.js:38) has only three fields. The model settles it to the full default of services/auditService.js:34-48. They agree on every field the competitor audit reads.
- The comment at components/tabs/HistoryTab.js:48 says "drops > 5". The code tests `drop >= 5`, and the model follows the code.
- `TechnicalAudit.Chain`: the redirect loop's bound of 8 is the recursion's fuel, as in the source. No other bound is imposed.
- `RateLimit.RateLimiter.Check`: the store is a module-level `Map` shared by all requests. The model is one object whose calls are sequential.
- `Crawl.GroupTitles`: `titleMap` is a plain object. The model covers the two ways this changes the result: an inherited name as a title makes the loop throw, and `Object.entries` lists array-index titles first. An issue type is one of the fixed names of `Issues`, none of them an inherited name or an array index (`Crawl.KindNamesArePlainKeys`), so `grouped` needs neither.
- `Crawl.AnalyzeInBatches`: the batch loop also returns the batches as a ghost value. Each batch runs its pages one after another, not concurrently.

## Findings

| source | as written | input that shows it | evidently intended | confidence | as-written member | corrected member |
|---|---|---|---|---|---|---|
| lib/api/content.js:15-34 | every `script` element is removed before `script[type="application/ld+json"]` is counted, so `schemaDetected` is always false | any page with a JSON-LD script | detect schema markup on the page as fetched | not executed | Content.SchemaNeverDetected | Content.CorrectedDetectsSchema |
| services/auditService.js:50-57 | `calculateAuthorityScore` is called with the keys `seo`, `performance`, `domainAgeScore`, `securityScore`, `backlinkScore` and `contentScore`. None is one of its parameters, so every component defaults to 0 and the authority score is always 0 | a site scoring 100 on every probe with schema and Open Graph markup, which gets 0 | compose the sub-scores as services/competitorService.js:40-59 does (80 for that site) | not executed | AuditService.FullAuditAuthorityZero | AuditService.CorrectedAuthority |
