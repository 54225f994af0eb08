/** The rank search of `services/ranking/keywordService.js`: where the
    audited domain first appears among a keyword's organic search results,
    and the fan-out over the first twenty keywords. The search request is a
    function-typed parameter (`None` when it rejects); the API-key check is a
    flag; the `checkedAt` timestamp is left out. */
module KeywordService {
  import opened Wrappers
  import opened Numeric
  import opened Strings

  /** A search response: its `organic_results`, each with its `link` if any. */
  datatype SerpResponse = SerpResponse(organicResults: Option<seq<Option<string>>>)

  /** What `fetchOneKeyword` resolves to. */
  datatype KeywordRank = KeywordRank(keyword: string, rank: Option<nat>, url: Option<string>)

  const MaxKeywords: nat := 20

  /** `organic[i].link || ""`. */
  function LinkOf(link: Option<string>): string {
    if link.Some? then link.value else ""
  }

  /** The index of the first result whose link contains `domain`. */
  function FirstMatch(organic: seq<Option<string>>, domain: string): (r: Option<nat>)
    ensures r.Some? ==> r.value < |organic| && Contains(LinkOf(organic[r.value]), domain)
    ensures r.Some? ==> forall j :: 0 <= j < r.value ==> !Contains(LinkOf(organic[j]), domain)
    ensures r.None? ==> forall j :: 0 <= j < |organic| ==> !Contains(LinkOf(organic[j]), domain)
    decreases |organic|
  {
    if organic == [] then None
    else if Contains(LinkOf(organic[0]), domain) then Some(0)
    else
      var rest := FirstMatch(organic[1..], domain);
      assert forall j :: 1 <= j < |organic| ==> organic[j] == organic[1..][j - 1];
      if rest.None? then None else Some(rest.value + 1)
  }

  /** The record for `keyword` given its organic results. */
  function RankOf(keyword: string, domain: string, organic: seq<Option<string>>): (r: KeywordRank)
    ensures r.keyword == keyword
  {
    match FirstMatch(organic, domain)
    case None => KeywordRank(keyword, None, None)
    case Some(k) => KeywordRank(keyword, Some(k + 1), Some(LinkOf(organic[k])))
  }

  /** `rank` is the 1-based position of the first link containing the
      domain and `url` is that link; both are absent exactly when no link
      contains it; the keyword is the one asked for. */
  lemma RankOfMeans(keyword: string, domain: string, organic: seq<Option<string>>)
    ensures var r := RankOf(keyword, domain, organic);
      r.keyword == keyword
      && (r.rank.None? <==> r.url.None?)
      && (r.rank.None? <==> forall j :: 0 <= j < |organic| ==> !Contains(LinkOf(organic[j]), domain))
      && (r.rank.Some? ==>
            1 <= r.rank.value <= |organic|
            && r.url == Some(LinkOf(organic[r.rank.value - 1]))
            && Contains(r.url.value, domain)
            && forall j :: 0 <= j < r.rank.value - 1 ==> !Contains(LinkOf(organic[j]), domain))
  {
    var m := FirstMatch(organic, domain);
    if m.None? && |organic| > 0 {
      assert !Contains(LinkOf(organic[0]), domain);
    }
  }

  /** `fetchOneKeyword` once the search has answered: the loop that stops at
      the first link containing the domain. */
  method FetchOneKeyword(domain: string, keyword: string, response: SerpResponse) returns (r: KeywordRank)
    ensures r == RankOf(keyword, domain, response.organicResults.GetOr([]))
  {
    var organic := response.organicResults.GetOr([]);
    var rank: Option<nat> := None;
    var rankUrl: Option<string> := None;
    var i := 0;
    while i < |organic|
      invariant 0 <= i <= |organic|
      invariant forall j :: 0 <= j < i ==> !Contains(LinkOf(organic[j]), domain)
    {
      var link := LinkOf(organic[i]);
      if Contains(link, domain) {
        rank := Some(i + 1);
        rankUrl := Some(link);
        break;
      }
      i := i + 1;
    }
    r := KeywordRank(keyword, rank, rankUrl);
  }

  /** The records of the keywords whose search fulfilled, in keyword order. */
  function Fulfilled(domain: string, keywords: seq<string>, search: string -> Option<SerpResponse>): (r: seq<KeywordRank>)
    ensures |r| <= |keywords|
    decreases |keywords|
  {
    if keywords == [] then []
    else
      var n := |keywords| - 1;
      var kw := keywords[n];
      Fulfilled(domain, keywords[..n], search)
      + (match search(kw)
         case None => []
         case Some(res) => [RankOf(kw, domain, res.organicResults.GetOr([]))])
  }

  /** Every record belongs to a keyword of the list whose search fulfilled,
      and is that keyword's rank record. */
  lemma {:induction false} FulfilledMembers(domain: string, keywords: seq<string>, search: string -> Option<SerpResponse>)
    ensures forall x :: x in Fulfilled(domain, keywords, search) ==>
      x.keyword in keywords && search(x.keyword).Some?
      && x == RankOf(x.keyword, domain, search(x.keyword).value.organicResults.GetOr([]))
    decreases |keywords|
  {
    if keywords != [] {
      var n := |keywords| - 1;
      FulfilledMembers(domain, keywords[..n], search);
      assert forall x :: x in keywords[..n] ==> x in keywords;
    }
  }

  /** When every search fulfils, there is one record per keyword, in order. */
  lemma {:induction false} FulfilledAll(domain: string, keywords: seq<string>, search: string -> Option<SerpResponse>)
    requires forall k :: 0 <= k < |keywords| ==> search(keywords[k]).Some?
    ensures |Fulfilled(domain, keywords, search)| == |keywords|
    ensures forall k :: 0 <= k < |keywords| ==> Fulfilled(domain, keywords, search)[k].keyword == keywords[k]
    decreases |keywords|
  {
    if keywords != [] {
      var n := |keywords| - 1;
      var pre := keywords[..n];
      assert forall k :: 0 <= k < n ==> pre[k] == keywords[k];
      FulfilledAll(domain, pre, search);
      var res := search(keywords[n]).value;
      var x := RankOf(keywords[n], domain, res.organicResults.GetOr([]));
      assert Fulfilled(domain, keywords, search) == Fulfilled(domain, pre, search) + [x];
    }
  }

  /** The keywords whose search fulfilled, in list order. */
  function Answered(keywords: seq<string>, search: string -> Option<SerpResponse>): (r: seq<string>)
    ensures forall kw :: kw in r <==> kw in keywords && search(kw).Some?
    decreases |keywords|
  {
    if keywords == [] then []
    else
      var n := |keywords| - 1;
      assert forall kw :: kw in keywords <==> kw in keywords[..n] || kw == keywords[n];
      Answered(keywords[..n], search) + (if search(keywords[n]).Some? then [keywords[n]] else [])
  }

  /** The record of a keyword whose search fulfilled. */
  function RecordOf(kw: string, domain: string, search: string -> Option<SerpResponse>): KeywordRank
    requires search(kw).Some?
  {
    RankOf(kw, domain, search(kw).value.organicResults.GetOr([]))
  }

  /** The fulfilled records are those of the answered keywords, one each,
      in keyword order. */
  lemma {:induction false} FulfilledInOrder(domain: string, keywords: seq<string>, search: string -> Option<SerpResponse>)
    ensures var r := Fulfilled(domain, keywords, search);
      var a := Answered(keywords, search);
      |r| == |a| && forall k :: 0 <= k < |a| ==> r[k] == RecordOf(a[k], domain, search)
    decreases |keywords|
  {
    if keywords != [] {
      var n := |keywords| - 1;
      FulfilledInOrder(domain, keywords[..n], search);
    }
  }

  /** Every keyword whose search fulfilled has its record in the result. */
  lemma {:induction false} FulfilledComplete(domain: string, keywords: seq<string>, search: string -> Option<SerpResponse>, kw: string)
    requires kw in keywords && search(kw).Some?
    ensures RecordOf(kw, domain, search) in Fulfilled(domain, keywords, search)
  {
    FulfilledInOrder(domain, keywords, search);
    var a := Answered(keywords, search);
    var k :| 0 <= k < |a| && a[k] == kw;
    assert Fulfilled(domain, keywords, search)[k] == RecordOf(kw, domain, search);
  }

  /** `fetchKeywordRankings`: nothing without an API key, an empty list for
      no keywords, otherwise the fulfilled records of the first twenty
      keywords. */
  function FetchKeywordRankings(hasKey: bool, domain: string, keywords: seq<string>,
                                search: string -> Option<SerpResponse>): (r: Option<seq<KeywordRank>>)
    ensures !hasKey <==> r.None?
    ensures hasKey && keywords == [] ==> r == Some([])
    ensures r.Some? ==> |r.value| <= Min(MaxKeywords, |keywords|)
    ensures r.Some? ==> forall x :: x in r.value ==>
      x.keyword in keywords[..Min(MaxKeywords, |keywords|)] && search(x.keyword).Some?
    ensures r.Some? ==> forall kw :: kw in keywords[..Min(MaxKeywords, |keywords|)] && search(kw).Some? ==>
      RecordOf(kw, domain, search) in r.value
    ensures r.Some? ==>
      var a := Answered(keywords[..Min(MaxKeywords, |keywords|)], search);
      |r.value| == |a| && forall k :: 0 <= k < |a| ==> r.value[k] == RecordOf(a[k], domain, search)
  {
    var first := keywords[..Min(MaxKeywords, |keywords|)];
    if !hasKey then None
    else if keywords == [] then Some([])
    else
      FulfilledMembers(domain, first, search);
      FulfilledInOrder(domain, first, search);
      assert forall kw :: kw in first && search(kw).Some? ==> RecordOf(kw, domain, search) in Fulfilled(domain, first, search) by {
        forall kw | kw in first && search(kw).Some?
          ensures RecordOf(kw, domain, search) in Fulfilled(domain, first, search)
        {
          FulfilledComplete(domain, first, search, kw);
        }
      }
      Some(Fulfilled(domain, first, search))
  }

  /** Only the first twenty keywords are searched: later ones never change
      the result. */
  lemma OnlyFirstTwenty(hasKey: bool, domain: string, keywords: seq<string>, more: seq<string>,
                        search: string -> Option<SerpResponse>)
    requires |keywords| >= MaxKeywords
    ensures FetchKeywordRankings(hasKey, domain, keywords + more, search)
         == FetchKeywordRankings(hasKey, domain, keywords, search)
  {
    assert (keywords + more)[..MaxKeywords] == keywords[..MaxKeywords];
  }
}
