/** The logic embedded in `components/tabs/KeywordsTab.js`: parsing the
    keyword box into the list that is sent, the guard that sends nothing for
    an empty list, and the colour and status ladders a rank is shown with.
    The rendering and the request itself are left out. */
module KeywordsTab {
  import opened Wrappers
  import opened Numeric
  import opened Strings

  /** The characters of `/[\n,]/`. */
  const Separators: set<char> := {'\n', ','}

  /** `.slice(0, 20)`. */
  const MaxKeywords: nat := 20

  /** A keyword as the parser leaves it: not empty, no white space at
      either end, no separator inside. */
  predicate Clean(w: string) {
    w != [] && !IsSpace(w[0]) && !IsSpace(w[|w| - 1]) && Avoids(w, Separators)
  }

  /** `.map(f).filter(Boolean)`: the images of the pieces under `f` that
      are not empty, in order. */
  function NonEmptyImages(pieces: seq<string>, f: string -> string): (r: seq<string>)
    ensures |r| <= |pieces|
  {
    if pieces == [] then []
    else (if f(pieces[0]) == [] then [] else [f(pieces[0])]) + NonEmptyImages(pieces[1..], f)
  }

  /** `.map((k) => k.trim()).filter(Boolean)`. */
  function Cleaned(pieces: seq<string>): (r: seq<string>)
    ensures |r| <= |pieces|
  {
    NonEmptyImages(pieces, Trim)
  }

  lemma {:induction false} ImagesMembers(pieces: seq<string>, f: string -> string)
    ensures forall w :: w in NonEmptyImages(pieces, f) ==> exists k :: 0 <= k < |pieces| && w == f(pieces[k]) && w != []
    ensures forall k :: 0 <= k < |pieces| && f(pieces[k]) != [] ==> f(pieces[k]) in NonEmptyImages(pieces, f)
    decreases |pieces|
  {
    if pieces != [] {
      ImagesMembers(pieces[1..], f);
      assert forall k :: 1 <= k < |pieces| ==> pieces[k] == pieces[1..][k - 1];
    }
  }

  /** The cleaned list holds exactly the non-empty trims of the pieces. */
  lemma CleanedMembers(pieces: seq<string>)
    ensures forall w :: w in Cleaned(pieces) ==> exists k :: 0 <= k < |pieces| && w == Trim(pieces[k]) && w != []
    ensures forall k :: 0 <= k < |pieces| && Trim(pieces[k]) != [] ==> Trim(pieces[k]) in Cleaned(pieces)
  {
    ImagesMembers(pieces, Trim);
  }

  lemma {:induction false} ImagesCons(p: string, rest: seq<string>, f: string -> string)
    ensures NonEmptyImages([p] + rest, f) == (if f(p) == [] then [] else [f(p)]) + NonEmptyImages(rest, f)
  {
    assert ([p] + rest)[0] == p && ([p] + rest)[1..] == rest;
  }

  lemma {:induction false} ImagesAppend(a: seq<string>, b: seq<string>, f: string -> string)
    ensures NonEmptyImages(a + b, f) == NonEmptyImages(a, f) + NonEmptyImages(b, f)
    decreases |a|
  {
    if a == [] {
      assert a + b == b;
    } else {
      var p := a[0];
      var rest := a[1..];
      assert a == [p] + rest;
      assert a + b == [p] + (rest + b);
      ImagesCons(p, rest + b, f);
      ImagesCons(p, rest, f);
      ImagesAppend(rest, b, f);
    }
  }

  /** Cleaning keeps the order of the pieces: cleaning two runs of pieces
      one after the other is cleaning each. */
  lemma CleanedAppend(a: seq<string>, b: seq<string>)
    ensures Cleaned(a + b) == Cleaned(a) + Cleaned(b)
  {
    ImagesAppend(a, b, Trim);
  }

  /** The `kwList` of `fetchRankings`. */
  function ParseKeywords(input: string): (r: seq<string>)
    ensures |r| <= MaxKeywords
  {
    var c := Cleaned(SplitOn(input, Separators));
    c[..Min(MaxKeywords, |c|)]
  }

  /** Trimming keeps a piece free of separators. */
  lemma TrimAvoids(w: string, seps: set<char>)
    requires Avoids(w, seps)
    ensures Avoids(Trim(w), seps)
  {
    var t := Trim(w);
    var i :| 0 <= i <= |w| - |t| && t == w[i..i + |t|] && SpaceRange(w, 0, i) && SpaceRange(w, i + |t|, |w|);
    forall j | 0 <= j < |t|
      ensures t[j] !in seps
    {
      assert t[j] == w[i + j];
    }
  }

  /** Every parsed keyword is clean and is the trim of one of the pieces
      between separators; at most twenty are kept, the first ones. */
  lemma ParsedKeywordsAreClean(input: string)
    ensures var r := ParseKeywords(input);
      var c := Cleaned(SplitOn(input, Separators));
      |r| <= MaxKeywords && r == c[..|r|] && (|r| < MaxKeywords ==> r == c)
      && forall w :: w in r ==> Clean(w)
  {
    var pieces := SplitOn(input, Separators);
    var c := Cleaned(pieces);
    var r := ParseKeywords(input);
    CleanedMembers(pieces);
    forall w | w in r
      ensures Clean(w)
    {
      assert w in c;
      var k :| 0 <= k < |pieces| && w == Trim(pieces[k]) && w != [];
      TrimAvoids(pieces[k], Separators);
    }
  }

  /** `keywords.join(",")`: the keywords with a comma between each two. */
  function JoinWithCommas(ws: seq<string>): string {
    if ws == [] then []
    else if |ws| == 1 then ws[0]
    else ws[0] + [','] + JoinWithCommas(ws[1..])
  }

  /** A piece without separators splits into itself. */
  lemma {:induction false} SplitOnPlain(w: string, seps: set<char>)
    requires Avoids(w, seps)
    ensures SplitOn(w, seps) == [w]
    decreases |w|
  {
    if w != [] {
      var t := w[1..];
      assert Avoids(t, seps) by {
        forall j | 0 <= j < |t|
          ensures t[j] !in seps
        {
          assert t[j] == w[j + 1];
        }
      }
      SplitOnPlain(t, seps);
      assert w[0] !in seps;
      SplitOnStep(w, seps);
      assert SplitOn(t, seps)[0] == t && SplitOn(t, seps)[1..] == [];
      assert [w[0]] + t == w;
    }
  }

  /** A piece without separators followed by a separator splits off whole. */
  lemma {:induction false} SplitOnFirst(w: string, c: char, rest: string, seps: set<char>)
    requires Avoids(w, seps) && c in seps
    ensures SplitOn(w + [c] + rest, seps) == [w] + SplitOn(rest, seps)
    decreases |w|
  {
    var s := w + [c] + rest;
    if w == [] {
      assert s == [c] + rest && s[1..] == rest;
      SplitOnStep(s, seps);
    } else {
      assert s[1..] == w[1..] + [c] + rest;
      SplitOnFirst(w[1..], c, rest, seps);
      SplitOnStep(s, seps);
      assert [w[0]] + w[1..] == w;
    }
  }

  /** Splitting a comma-joined list of separator-free keywords gives the
      keywords back. */
  lemma {:induction false} SplitJoined(ws: seq<string>)
    requires ws != []
    requires forall k :: 0 <= k < |ws| ==> Avoids(ws[k], Separators)
    ensures SplitOn(JoinWithCommas(ws), Separators) == ws
    decreases |ws|
  {
    if |ws| == 1 {
      SplitOnPlain(ws[0], Separators);
    } else {
      assert forall k :: 0 <= k < |ws| - 1 ==> ws[1..][k] == ws[k + 1];
      SplitJoined(ws[1..]);
      SplitOnFirst(ws[0], ',', JoinWithCommas(ws[1..]), Separators);
      assert [ws[0]] + ws[1..] == ws;
    }
  }

  lemma {:induction false} ImagesOfFixed(ws: seq<string>, f: string -> string)
    requires forall k :: 0 <= k < |ws| ==> ws[k] != [] && f(ws[k]) == ws[k]
    ensures NonEmptyImages(ws, f) == ws
    decreases |ws|
  {
    if ws != [] {
      assert forall k :: 0 <= k < |ws| - 1 ==> ws[1..][k] == ws[k + 1];
      ImagesOfFixed(ws[1..], f);
      assert [ws[0]] + ws[1..] == ws;
    }
  }

  /** Cleaning clean keywords changes nothing. */
  lemma CleanedOfClean(ws: seq<string>)
    requires forall k :: 0 <= k < |ws| ==> Clean(ws[k])
    ensures Cleaned(ws) == ws
  {
    forall k | 0 <= k < |ws|
      ensures ws[k] != [] && Trim(ws[k]) == ws[k]
    {
      TrimOfTrimmed(ws[k]);
    }
    ImagesOfFixed(ws, Trim);
  }

  /** The round trip: up to twenty clean keywords, typed in separated by
      commas, parse back to exactly that list. */
  lemma ParseJoinedRoundTrip(ws: seq<string>)
    requires |ws| <= MaxKeywords
    requires forall k :: 0 <= k < |ws| ==> Clean(ws[k])
    ensures ParseKeywords(JoinWithCommas(ws)) == ws
  {
    var input := JoinWithCommas(ws);
    if ws == [] {
      assert SplitOn([], Separators) == [[]];
      assert Trim([]) == [];
      ImagesOfBlank([[]], Trim);
    } else {
      SplitJoined(ws);
      CleanedOfClean(ws);
    }
    ParseOfCleaned(input, ws);
  }

  /** Parsing keeps the whole cleaned list when it has at most twenty
      keywords. */
  lemma ParseOfCleaned(input: string, ws: seq<string>)
    requires |ws| <= MaxKeywords
    requires Cleaned(SplitOn(input, Separators)) == ws
    ensures ParseKeywords(input) == ws
  {
    assert ws[..|ws|] == ws;
  }

  /** The body of the request, `{ domain, keywords: kwList }`. */
  datatype KeywordsRequest = KeywordsRequest(domain: string, keywords: seq<string>)

  /** The flags `fetchRankings` sets before the request. */
  datatype TabState = TabState(loading: bool, error: Option<string>, noKey: bool)

  /** The start of `fetchRankings`: with nothing to look up it returns at
      once, leaving the state as it was and sending nothing; otherwise it
      sets loading, clears the error and the no-key notice, and sends the
      parsed list. */
  function StartFetch(domain: string, input: string, st: TabState): (r: (TabState, Option<KeywordsRequest>))
    ensures r.1.None? <==> ParseKeywords(input) == []
    ensures r.1.None? ==> r.0 == st
    ensures r.1.Some? ==> r.0 == TabState(true, None, false) && r.1.value == KeywordsRequest(domain, ParseKeywords(input))
  {
    var kws := ParseKeywords(input);
    if |kws| == 0 then (st, None)
    else (TabState(true, None, false), Some(KeywordsRequest(domain, kws)))
  }

  /** A box holding only separators and white space sends nothing. */
  lemma BlankInputSendsNothing(domain: string, input: string, st: TabState)
    requires forall j :: 0 <= j < |input| ==> input[j] in Separators || IsSpace(input[j])
    ensures StartFetch(domain, input, st) == (st, None)
  {
    var pieces := SplitOn(input, Separators);
    var c := Cleaned(pieces);
    forall k | 0 <= k < |pieces|
      ensures Trim(pieces[k]) == []
    {
      var p := pieces[k];
      assert CharsFrom(p, input) && Avoids(p, Separators);
      assert forall j :: 0 <= j < |p| ==> IsSpace(p[j]) by {
        forall j | 0 <= j < |p|
          ensures IsSpace(p[j])
        {
          var m :| 0 <= m < |input| && input[m] == p[j];
        }
      }
    }
    ImagesOfBlank(pieces, Trim);
  }

  lemma {:induction false} ImagesOfBlank(pieces: seq<string>, f: string -> string)
    requires forall k :: 0 <= k < |pieces| ==> f(pieces[k]) == []
    ensures NonEmptyImages(pieces, f) == []
    decreases |pieces|
  {
    if pieces != [] {
      assert forall k :: 0 <= k < |pieces| - 1 ==> pieces[1..][k] == pieces[k + 1];
      ImagesOfBlank(pieces[1..], f);
    }
  }

  /** The tone a rank is shown in. */
  datatype Tone = Muted | Emerald | Yellow | Orange | Red

  /** `!rank`: a missing rank or 0. */
  predicate Falsy(rank: Option<int>) {
    rank.None? || rank.value == 0
  }

  /** `rankColor`: muted with no rank, emerald for the top three, yellow for
      the rest of page one, red beyond. */
  function RankColor(rank: Option<int>): (t: Tone)
    ensures t == Muted <==> Falsy(rank)
    ensures t == Emerald <==> !Falsy(rank) && rank.value <= 3
    ensures t == Yellow <==> !Falsy(rank) && 3 < rank.value <= 10
    ensures t == Red <==> !Falsy(rank) && rank.value > 10
  {
    if Falsy(rank) then Muted
    else if rank.value <= 3 then Emerald
    else if rank.value <= 10 then Yellow
    else Red
  }

  /** The status cell's label. */
  datatype Status = NotInTop100 | Top3 | Page(n: int)

  /** The status ladder of the results table. */
  function StatusLabel(rank: Option<int>): (s: Status)
    ensures s == NotInTop100 <==> Falsy(rank)
    ensures s == Top3 <==> !Falsy(rank) && rank.value <= 3
  {
    if Falsy(rank) then NotInTop100
    else if rank.value <= 3 then Top3
    else if rank.value <= 10 then Page(1)
    else if rank.value <= 20 then Page(2)
    else Page(CeilDiv(rank.value, 10))
  }

  /** `Math.ceil(n / d)` for `n >= 0` and `d > 0`. */
  function CeilDiv(n: int, d: int): (q: int)
    requires n >= 0 && d > 0
    ensures (q - 1) * d < n <= q * d
  {
    (n + d - 1) / d
  }

  /** Beyond the top three, every label names the results page the rank
      falls on, ten results to a page: the two fixed rungs agree with the
      general formula. */
  lemma StatusIsResultsPage(rank: int)
    requires rank > 3
    ensures StatusLabel(Some(rank)) == Page(CeilDiv(rank, 10))
    ensures StatusLabel(Some(rank)).n >= 1
  {
  }

  /** The colour and the status agree on the top three and on page one;
      only beyond page one does the status split orange from red. */
  lemma ColorMatchesStatus(rank: Option<int>)
    ensures RankColor(rank) == Muted <==> StatusLabel(rank) == NotInTop100
    ensures RankColor(rank) == Emerald <==> StatusLabel(rank) == Top3
    ensures !Falsy(rank) && rank.value > 3 ==> (RankColor(rank) == Yellow <==> StatusLabel(rank) == Page(1))
  {
  }
}
