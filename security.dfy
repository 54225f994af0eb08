/** The security-header probe of `lib/api/security.js`: which of the six
    checked headers the response carries, the share present as a percentage,
    and a letter grade. The HTTP request is left out; its outcome (the
    response headers or the error message) is an input. */
module Security {
  import opened Wrappers
  import opened Scoring

  datatype Grade = A | B | C | D | F

  /** What `fetchSecurityData` resolves to. */
  datatype SecurityReport = SecurityReport(
    headers: map<string, string>,
    presentCount: nat,
    totalChecks: nat,
    score: int,
    grade: Grade,
    error: Option<string>)

  /** The grade ladder: at least 83 is A, 66 B, 50 C, 33 D, anything else F. */
  function GradeOf(score: int): (g: Grade)
    ensures g == A <==> score >= 83
    ensures g == B <==> 66 <= score < 83
    ensures g == C <==> 50 <= score < 66
    ensures g == D <==> 33 <= score < 50
    ensures g == F <==> score < 33
  {
    if score >= 83 then A
    else if score >= 66 then B
    else if score >= 50 then C
    else if score >= 33 then D
    else F
  }

  /** The grade by number of headers present: five or six give A, four B,
      three C, two D, one or none F. */
  lemma GradeByCount(n: int)
    requires 0 <= n <= 6
    ensures GradeOf(PercentOfSix(n)) == (if n >= 5 then A else if n == 4 then B else if n == 3 then C else if n == 2 then D else F)
  {
    PercentOfSixTable();
  }

  /** The headers among `names` that the response carries, with its values. */
  function FoundAmong(names: seq<string>, response: map<string, string>): (found: map<string, string>)
    ensures forall h :: h in found <==> h in names && HasHeader(response, h)
    ensures forall h :: h in found ==> h in response && found[h] == response[h]
    decreases |names|
  {
    if names == [] then map[]
    else
      var n := |names| - 1;
      var prev := FoundAmong(names[..n], response);
      assert forall h :: h in names <==> h in names[..n] || h == names[n];
      if HasHeader(response, names[n]) then prev[names[n] := response[names[n]]] else prev
  }

  /** The header names are pairwise distinct. */
  lemma SecurityHeaderNamesDistinct()
    ensures forall i, j :: 0 <= i < j < |SecurityHeaderNames| ==> SecurityHeaderNames[i] != SecurityHeaderNames[j]
  {
  }

  /** Over distinct names, the number of keys found is the number of names
      present, which is at most the number of names. */
  lemma {:induction false} FoundAmongCount(names: seq<string>, response: map<string, string>)
    requires forall i, j :: 0 <= i < j < |names| ==> names[i] != names[j]
    ensures |FoundAmong(names, response)| == |PresentHeaders(names, response)| <= |names|
    decreases |names|
  {
    if names != [] {
      var n := |names| - 1;
      var rest := names[..n];
      FoundAmongCount(rest, response);
      assert names[n] !in rest;
      PresentHeadersSnoc(rest, names[n], response);
      assert rest + [names[n]] == names;
    }
  }

  lemma {:induction false} PresentHeadersSnoc(names: seq<string>, h: string, response: map<string, string>)
    ensures PresentHeaders(names + [h], response) == PresentHeaders(names, response) + (if HasHeader(response, h) then [h] else [])
    decreases |names|
  {
    if names == [] {
      assert [h][1..] == [];
    } else {
      assert (names + [h])[1..] == names[1..] + [h];
      PresentHeadersSnoc(names[1..], h, response);
    }
  }

  /** The `for (const h of SECURITY_HEADERS)` loop filling `found`. */
  method CollectHeaders(names: seq<string>, response: map<string, string>) returns (found: map<string, string>)
    ensures found == FoundAmong(names, response)
  {
    found := map[];
    var k := 0;
    while k < |names|
      invariant 0 <= k <= |names|
      invariant found == FoundAmong(names[..k], response)
    {
      var h := names[k];
      if HasHeader(response, h) {
        found := found[h := response[h]];
      }
      k := k + 1;
      assert names[..k][..k - 1] == names[..k - 1];
    }
    assert names[..k] == names;
  }

  /** The report for a failed request: nothing present, score 0, grade F. */
  function FailedReport(message: string): (r: SecurityReport)
    ensures r.headers == map[] && r.presentCount == 0 && r.score == 0 && r.grade == F
    ensures r.totalChecks == |SecurityHeaderNames| == 6 && r.error == Some(message)
  {
    SecurityReport(map[], 0, |SecurityHeaderNames|, 0, F, Some(message))
  }

  /** `fetchSecurityData` given the request's outcome: the response headers,
      or the message of the error it threw. `found` holds exactly the checked
      headers that are present, with their values; the count is at most six;
      the score is the one `getSecurityScore` gives for the same headers; the
      grade follows the score. */
  method FetchSecurityData(response: Result<map<string, string>, string>) returns (r: SecurityReport)
    ensures r.totalChecks == 6
    ensures 0 <= r.score <= 100 && r.grade == GradeOf(r.score)
    ensures r.presentCount == |r.headers| <= 6
    ensures response.Err? ==> r == FailedReport(response.error)
    ensures response.Ok? ==>
              (forall h :: h in r.headers <==> h in SecurityHeaderNames && HasHeader(response.value, h))
              && (forall h :: h in r.headers ==> r.headers[h] == response.value[h])
              && r.score == GetSecurityScore(response.value) && r.error.None?
  {
    if response.Err? {
      return FailedReport(response.error);
    }
    var found := CollectHeaders(SecurityHeaderNames, response.value);
    SecurityHeaderNamesDistinct();
    FoundAmongCount(SecurityHeaderNames, response.value);
    var presentCount := |found|;
    var score := PercentOfSix(presentCount);
    r := SecurityReport(found, presentCount, |SecurityHeaderNames|, score, GradeOf(score), None);
  }
}
