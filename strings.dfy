/** String helpers in the exact sense the JavaScript runtime gives them:
    the whitespace class of `\s` and `String.prototype.trim`, `split`,
    `includes`, `startsWith`/`endsWith`, ASCII case folding for `/i`
    regexes, and decimal rendering of numbers in template literals. */
module Strings {

  import opened Numeric

  /** The characters JavaScript's `\s` and `trim()` treat as white space
      (WhiteSpace plus LineTerminator of ECMA-262). */
  predicate IsSpace(c: char) {
    c == '\t' || c == '\n' || c == '\U{000B}' || c == '\U{000C}' || c == '\r' || c == ' '
    || c == '\U{00A0}' || c == '\U{1680}' || ('\U{2000}' <= c <= '\U{200A}')
    || c == '\U{2028}' || c == '\U{2029}' || c == '\U{202F}' || c == '\U{205F}'
    || c == '\U{3000}' || c == '\U{FEFF}'
  }

  /** The characters that regex `.` refuses to match. */
  predicate IsLineTerminator(c: char) {
    c == '\n' || c == '\r' || c == '\U{2028}' || c == '\U{2029}'
  }

  lemma LineTerminatorIsSpace(c: char)
    requires IsLineTerminator(c)
    ensures IsSpace(c)
  {
  }

  /** Every character of `s` in the index range `[lo, hi)` is white space. */
  predicate SpaceRange(s: string, lo: int, hi: int)
    requires 0 <= lo && hi <= |s|
  {
    forall k :: lo <= k < hi ==> IsSpace(s[k])
  }

  predicate NoSpace(s: string) {
    forall k :: 0 <= k < |s| ==> !IsSpace(s[k])
  }

  predicate StartsWith(s: string, prefix: string) {
    |prefix| <= |s| && s[..|prefix|] == prefix
  }

  /** The UTF-16 code units a character takes: JavaScript's `length` counts
      a character above U+FFFF as a surrogate pair. */
  function Units(c: char): nat {
    if c as int > 0xFFFF then 2 else 1
  }

  /** `s.length` in JavaScript: the number of UTF-16 code units. */
  function Utf16Len(s: string): (n: nat)
    ensures |s| <= n <= 2 * |s|
  {
    if s == [] then 0 else Utf16Len(s[..|s| - 1]) + Units(s[|s| - 1])
  }

  /** A string of Basic Multilingual Plane characters has as many code
      units as characters. */
  lemma {:induction false} BmpUtf16Len(s: string)
    requires forall k :: 0 <= k < |s| ==> s[k] as int <= 0xFFFF
    ensures Utf16Len(s) == |s|
  {
    if s != [] {
      var n := |s| - 1;
      assert forall k :: 0 <= k < n ==> s[..n][k] == s[k];
      BmpUtf16Len(s[..n]);
    }
  }

  /** `q` is what `s.slice(0, n)` keeps: a prefix of `s` within `n` code
      units that cannot take one more character. */
  predicate Utf16Cut(s: string, q: string, n: nat) {
    StartsWith(s, q) && Utf16Len(q) <= n && (|q| < |s| ==> Utf16Len(s[..|q| + 1]) > n)
  }

  /** `s.slice(0, n)`: the longest prefix of `s` that takes at most `n`
      code units. A cut through a surrogate pair leaves the whole pair out. */
  function Utf16Prefix(s: string, n: nat): (r: string)
    ensures Utf16Cut(s, r, n)
    ensures Utf16Len(s) <= n ==> r == s
  {
    if Utf16Len(s) <= n then s
    else
      var m := |s| - 1;
      var r := Utf16Prefix(s[..m], n);
      assert s[..m][..|r|] == s[..|r|];
      assert |r| < m ==> s[..m][..|r| + 1] == s[..|r| + 1];
      assert |r| == m ==> s[..|r| + 1] == s;
      r
  }

  /** A prefix takes no more code units than the whole string. */
  lemma {:induction false} Utf16LenOfPrefix(s: string, m: nat)
    requires m <= |s|
    ensures Utf16Len(s[..m]) <= Utf16Len(s)
    decreases |s|
  {
    if m == |s| {
      assert s[..m] == s;
    } else {
      var n := |s| - 1;
      assert s[..n][..m] == s[..m];
      Utf16LenOfPrefix(s[..n], m);
    }
  }

  /** No prefix within the budget is longer than the cut. */
  lemma Utf16CutLongest(s: string, q: string, r: string, n: nat)
    requires Utf16Cut(s, q, n) && StartsWith(s, r) && Utf16Len(r) <= n
    ensures |r| <= |q|
  {
    if |q| < |r| {
      var m := |q| + 1;
      assert r[..m] == s[..m];
      Utf16LenOfPrefix(r, m);
    }
  }

  /** The cut is unique: it is exactly `Utf16Prefix`. */
  lemma Utf16CutUnique(s: string, q: string, n: nat)
    requires Utf16Cut(s, q, n)
    ensures q == Utf16Prefix(s, n)
  {
    var r := Utf16Prefix(s, n);
    Utf16CutLongest(s, q, r, n);
    Utf16CutLongest(s, r, q, n);
    assert q == s[..|q|] && r == s[..|r|];
  }

  /** A string within the budget is kept whole, and over Basic Multilingual
      Plane text the cut is the plain `min(n, |s|)`-character prefix. */
  lemma {:induction false} Utf16PrefixOfBmp(s: string, n: nat)
    requires forall k :: 0 <= k < |s| ==> s[k] as int <= 0xFFFF
    ensures Utf16Prefix(s, n) == s[..Min(n, |s|)]
  {
    var q := s[..Min(n, |s|)];
    assert forall k :: 0 <= k < |q| ==> q[k] == s[k];
    BmpUtf16Len(q);
    if |q| < |s| {
      var t := s[..|q| + 1];
      assert forall k :: 0 <= k < |t| ==> t[k] == s[k];
      BmpUtf16Len(t);
    }
    Utf16CutUnique(s, q, n);
  }

  predicate EndsWith(s: string, suffix: string) {
    |suffix| <= |s| && s[|s| - |suffix|..] == suffix
  }

  /** The length of the white-space run that starts `s`. */
  function LeadingSpace(s: string): (n: nat)
    ensures n <= |s| && SpaceRange(s, 0, n)
    ensures n == |s| || !IsSpace(s[n])
  {
    if s == [] || !IsSpace(s[0]) then 0
    else
      var m := LeadingSpace(s[1..]);
      assert forall k :: 1 <= k < m + 1 ==> s[k] == s[1..][k - 1];
      m + 1
  }

  /** The length of the white-space run that ends `s`. */
  function TrailingSpace(s: string): (n: nat)
    ensures n <= |s| && SpaceRange(s, |s| - n, |s|)
    ensures n == |s| || !IsSpace(s[|s| - n - 1])
  {
    if s == [] || !IsSpace(s[|s| - 1]) then 0
    else
      var m := TrailingSpace(s[..|s| - 1]);
      assert forall k :: |s| - 1 - m <= k < |s| - 1 ==> s[k] == s[..|s| - 1][k];
      m + 1
  }

  /** `s.trimStart()`: the leading white space removed, nothing else. */
  function TrimStart(s: string): (r: string)
    ensures |r| <= |s| && r == s[|s| - |r|..]
    ensures SpaceRange(s, 0, |s| - |r|)
    ensures r == [] || !IsSpace(r[0])
  {
    s[LeadingSpace(s)..]
  }

  /** `s.trimEnd()`: the trailing white space removed, nothing else. */
  function TrimEnd(s: string): (r: string)
    ensures |r| <= |s| && r == s[..|r|]
    ensures SpaceRange(s, |r|, |s|)
    ensures r == [] || !IsSpace(r[|r| - 1])
  {
    s[..|s| - TrailingSpace(s)]
  }

  /** `s.trim()`: a middle slice of `s` with only white space around it, and
      no white space at either of its ends. */
  function Trim(s: string): (r: string)
    ensures |r| <= |s|
    ensures r == [] || (!IsSpace(r[0]) && !IsSpace(r[|r| - 1]))
    ensures exists i :: 0 <= i <= |s| - |r| && r == s[i..i + |r|] && SpaceRange(s, 0, i) && SpaceRange(s, i + |r|, |s|)
  {
    var i := LeadingSpace(s);
    var j := if i == |s| then i else |s| - TrailingSpace(s);
    assert SpaceRange(s, 0, i) && SpaceRange(s, j, |s|);
    s[i..j]
  }

  lemma TrimOfTrimmed(s: string)
    requires s == [] || (!IsSpace(s[0]) && !IsSpace(s[|s| - 1]))
    ensures Trim(s) == s
  {
  }

  /** `s.split(c)[0]`: everything before the first `c` (all of `s` when there is none). */
  function CutAt(s: string, c: char): (r: string)
    ensures |r| <= |s| && r == s[..|r|]
    ensures c !in r
    ensures |r| < |s| ==> s[|r|] == c
  {
    if s == [] then []
    else if s[0] == c then []
    else [s[0]] + CutAt(s[1..], c)
  }

  lemma CutAtNoop(s: string, c: char)
    requires c !in s
    ensures CutAt(s, c) == s
  {
  }

  /** `sub` occurs in `s` starting at index `i`. */
  predicate OccursAt(s: string, sub: string, i: int) {
    0 <= i <= |s| - |sub| && s[i..i + |sub|] == sub
  }

  /** `s.includes(sub)`, searched left to right. */
  function Contains(s: string, sub: string): bool
  {
    StartsWith(s, sub) || (s != [] && Contains(s[1..], sub))
  }

  /** The search agrees with the definition "some slice of `s` equals `sub`". */
  lemma {:induction false} ContainsMeans(s: string, sub: string)
    ensures Contains(s, sub) <==> exists i :: OccursAt(s, sub, i)
  {
    if StartsWith(s, sub) {
      assert OccursAt(s, sub, 0);
    } else if s == [] {
    } else {
      ContainsMeans(s[1..], sub);
      if Contains(s[1..], sub) {
        var i :| OccursAt(s[1..], sub, i);
        assert s[1..][i..i + |sub|] == s[i + 1..i + 1 + |sub|];
        assert OccursAt(s, sub, i + 1);
      } else {
        forall i | OccursAt(s, sub, i)
          ensures false
        {
          if i != 0 {
            var a, b := s[i..i + |sub|], s[1..][i - 1..i - 1 + |sub|];
            assert forall m :: 0 <= m < |a| ==> a[m] == b[m];
            assert a == b;
            assert OccursAt(s[1..], sub, i - 1);
          }
        }
      }
    }
  }

  function LowerAscii(c: char): (r: char)
    ensures ('A' <= c <= 'Z') ==> r as int == c as int + 32
    ensures !('A' <= c <= 'Z') ==> r == c
  {
    if 'A' <= c <= 'Z' then (c as int + 32) as char else c
  }

  /** Case folding of a regex with the `i` flag and without `u`, as far as it
      concerns patterns made of ASCII letters and punctuation. */
  function Lower(s: string): (r: string)
    ensures |r| == |s|
    ensures forall k :: 0 <= k < |s| ==> r[k] == LowerAscii(s[k])
  {
    if s == [] then [] else [LowerAscii(s[0])] + Lower(s[1..])
  }

  /** No character of `w` is one of `seps`. */
  predicate Avoids(w: string, seps: set<char>) {
    forall j :: 0 <= j < |w| ==> w[j] !in seps
  }

  /** Every character of `w` occurs in `s`. */
  predicate CharsFrom(w: string, s: string) {
    forall j :: 0 <= j < |w| ==> w[j] in s
  }

  /** `s.split(sep)` for a single-character separator set: the pieces between
      separators, possibly empty, and always at least one. */
  function SplitOn(s: string, seps: set<char>): (r: seq<string>)
    ensures |r| >= 1
    ensures forall k :: 0 <= k < |r| ==> Avoids(r[k], seps) && CharsFrom(r[k], s)
  {
    if s == [] then [[]]
    else
      var rest := SplitOn(s[1..], seps);
      assert forall k :: 0 <= k < |rest| ==> CharsFrom(rest[k], s);
      if s[0] in seps then [[]] + rest
      else
        var head := [s[0]] + rest[0];
        assert Avoids(head, seps) && CharsFrom(head, s);
        [head] + rest[1..]
  }

  function Concat(ss: seq<string>): string {
    if ss == [] then [] else ss[0] + Concat(ss[1..])
  }

  /** The characters of `s` other than separators, in order. */
  function WithoutSeps(s: string, seps: set<char>): string {
    if s == [] then [] else (if s[0] in seps then [] else [s[0]]) + WithoutSeps(s[1..], seps)
  }

  /** One step of `SplitOn`: a separator opens a new piece, any other
      character joins the first piece. */
  lemma SplitOnStep(s: string, seps: set<char>)
    requires s != []
    ensures s[0] in seps ==> SplitOn(s, seps) == [[]] + SplitOn(s[1..], seps)
    ensures s[0] !in seps ==> SplitOn(s, seps) == [[s[0]] + SplitOn(s[1..], seps)[0]] + SplitOn(s[1..], seps)[1..]
  {
  }

  /** Splitting loses nothing but the separators, and there is one more piece
      than there are separators. */
  lemma {:induction false} SplitOnLosesOnlySeparators(s: string, seps: set<char>)
    ensures Concat(SplitOn(s, seps)) == WithoutSeps(s, seps)
    ensures |SplitOn(s, seps)| == 1 + |s| - |WithoutSeps(s, seps)|
  {
    if s != [] {
      SplitOnLosesOnlySeparators(s[1..], seps);
      SplitOnStep(s, seps);
      var rest := SplitOn(s[1..], seps);
      if s[0] !in seps {
        var tail := rest[1..];
        assert rest == [rest[0]] + tail;
        ConcatCons(rest[0], tail);
        ConcatCons([s[0]] + rest[0], tail);
      } else {
        ConcatCons([], rest);
      }
    }
  }

  lemma ConcatCons(x: string, xs: seq<string>)
    ensures Concat([x] + xs) == x + Concat(xs)
  {
    assert ([x] + xs)[1..] == xs;
  }

  /** The only white space in `s`, if any, is the plain space. */
  predicate PlainSpaced(s: string) {
    forall k :: 0 <= k < |s| ==> IsSpace(s[k]) ==> s[k] == ' '
  }

  /** `s.replace(/\s+/g, " ")`: every maximal run of white space becomes one space. */
  function CollapseSpaces(s: string): (r: string)
    ensures PlainSpaced(r)
    ensures |r| <= |s|
    ensures s == [] <==> r == []
    decreases |s|
  {
    if s == [] then []
    else
      var space := IsSpace(s[0]);
      var c := if space then ' ' else s[0];
      var t := if space then CollapseSpaces(TrimStart(s[1..])) else CollapseSpaces(s[1..]);
      PlainSpacedCons(c, t);
      [c] + t
  }

  lemma PlainSpacedCons(c: char, t: string)
    requires IsSpace(c) ==> c == ' '
    requires PlainSpaced(t)
    ensures PlainSpaced([c] + t)
  {
    forall k | 0 <= k < |[c] + t|
      ensures IsSpace(([c] + t)[k]) ==> ([c] + t)[k] == ' '
    {
      if k > 0 {
        assert ([c] + t)[k] == t[k - 1];
      }
    }
  }

  /** The tokens the source counts as words: `text.replace(/\s+/g, " ").trim().split(" ")`
      keeping only those longer than two characters. */
  function Words(text: string): seq<string> {
    LongTokens(SplitOn(Trim(CollapseSpaces(text)), {' '}))
  }

  /** `filter((w) => w.length > 2)`, with `length` in UTF-16 code units. */
  function LongTokens(ts: seq<string>): (r: seq<string>)
    ensures |r| <= |ts|
    ensures forall k :: 0 <= k < |r| ==> r[k] in ts && Utf16Len(r[k]) > 2
    ensures forall t :: t in ts && Utf16Len(t) > 2 ==> t in r
  {
    if ts == [] then [] else (if Utf16Len(ts[0]) > 2 then [ts[0]] else []) + LongTokens(ts[1..])
  }

  function WordCount(text: string): nat {
    |Words(text)|
  }

  lemma TrimKeepsPlainSpaced(c: string)
    requires PlainSpaced(c)
    ensures PlainSpaced(Trim(c))
  {
    var t := Trim(c);
    var i :| 0 <= i <= |c| - |t| && t == c[i..i + |t|] && SpaceRange(c, 0, i) && SpaceRange(c, i + |t|, |c|);
    forall m | 0 <= m < |t|
      ensures IsSpace(t[m]) ==> t[m] == ' '
    {
      assert t[m] == c[i + m];
    }
  }

  lemma PiecesOfPlainSpacedHaveNoSpace(t: string)
    requires PlainSpaced(t)
    ensures forall w :: w in SplitOn(t, {' '}) ==> NoSpace(w)
  {
    var ts := SplitOn(t, {' '});
    forall w | w in ts
      ensures NoSpace(w)
    {
      var k :| 0 <= k < |ts| && ts[k] == w;
      forall j | 0 <= j < |w|
        ensures !IsSpace(w[j])
      {
        assert w[j] in t && w[j] != ' ';
      }
    }
  }

  /** Every counted word is more than two code units long and has no white
      space in it. */
  lemma WordsAreSpaceFree(text: string)
    ensures forall w :: w in Words(text) ==> Utf16Len(w) > 2 && NoSpace(w)
  {
    var c := CollapseSpaces(text);
    TrimKeepsPlainSpaced(c);
    PiecesOfPlainSpacedHaveNoSpace(Trim(c));
  }

  /** The white-space class as a set, for splitting. */
  const WhiteSpace: set<char> := {'\t', '\n', '\U{000B}', '\U{000C}', '\r', ' ', '\U{00A0}', '\U{1680}',
    '\U{2000}', '\U{2001}', '\U{2002}', '\U{2003}', '\U{2004}', '\U{2005}', '\U{2006}', '\U{2007}',
    '\U{2008}', '\U{2009}', '\U{200A}', '\U{2028}', '\U{2029}', '\U{202F}', '\U{205F}', '\U{3000}', '\U{FEFF}'}

  lemma WhiteSpaceIsSpace(c: char)
    ensures c in WhiteSpace <==> IsSpace(c)
  {
    if '\U{2000}' <= c <= '\U{200A}' {
      assert 0x2000 <= c as int <= 0x200A;
    }
  }

  /** The pieces of `ts` other than the empty one, in order. */
  function NonEmpty(ts: seq<string>): (r: seq<string>)
    ensures forall k :: 0 <= k < |r| ==> r[k] != []
  {
    if ts == [] then [] else (if ts[0] == [] then [] else [ts[0]]) + NonEmpty(ts[1..])
  }

  lemma {:induction false} NonEmptyFrom(ts: seq<string>)
    ensures forall t :: t in NonEmpty(ts) ==> t in ts
  {
    if ts != [] {
      NonEmptyFrom(ts[1..]);
    }
  }

  /** The maximal runs of characters other than white space in `s`, in
      order: the non-empty pieces left when `s` is cut at every white-space
      character. */
  function Runs(s: string): seq<string> {
    NonEmpty(SplitOn(s, WhiteSpace))
  }

  lemma NonEmptyCons(t: string, ts: seq<string>)
    ensures NonEmpty([t] + ts) == (if t == [] then [] else [t]) + NonEmpty(ts)
  {
    assert ([t] + ts)[1..] == ts;
  }

  lemma {:induction false} NonEmptyAppend(a: seq<string>, b: seq<string>)
    ensures NonEmpty(a + b) == NonEmpty(a) + NonEmpty(b)
  {
    if a == [] {
      assert a + b == b;
    } else {
      var h: seq<string> := if a[0] == [] then [] else [a[0]];
      NonEmptyAppend(a[1..], b);
      assert a + b == [a[0]] + (a[1..] + b);
      assert a == [a[0]] + a[1..];
      NonEmptyCons(a[0], a[1..] + b);
      NonEmptyCons(a[0], a[1..]);
      assert NonEmpty(a + b) == h + (NonEmpty(a[1..]) + NonEmpty(b));
      assert NonEmpty(a) == h + NonEmpty(a[1..]);
    }
  }

  lemma LongTokensCons(t: string, ts: seq<string>)
    ensures LongTokens([t] + ts) == (if Utf16Len(t) > 2 then [t] else []) + LongTokens(ts)
  {
    assert ([t] + ts)[1..] == ts;
  }

  /** Dropping empty pieces changes no filter on length. */
  lemma {:induction false} LongTokensOfNonEmpty(ts: seq<string>)
    ensures LongTokens(NonEmpty(ts)) == LongTokens(ts)
  {
    if ts != [] {
      var t, rest := ts[0], ts[1..];
      assert ts == [t] + rest;
      LongTokensOfNonEmpty(rest);
      NonEmptyCons(t, rest);
      LongTokensCons(t, rest);
      if t == [] {
        assert NonEmpty(ts) == NonEmpty(rest);
      } else {
        assert NonEmpty(ts) == [t] + NonEmpty(rest);
        LongTokensCons(t, NonEmpty(rest));
      }
    }
  }

  /** Separators in front of `y` only add empty pieces. */
  lemma {:induction false} SplitOnSepsBefore(x: string, y: string, seps: set<char>)
    requires forall k :: 0 <= k < |x| ==> x[k] in seps
    ensures NonEmpty(SplitOn(x + y, seps)) == NonEmpty(SplitOn(y, seps))
  {
    if x != [] {
      assert (x + y)[1..] == x[1..] + y;
      SplitOnSepsBefore(x[1..], y, seps);
      NonEmptyCons([], SplitOn(x[1..] + y, seps));
    } else {
      assert x + y == y;
    }
  }

  /** A separator at the end adds one empty piece. */
  lemma {:induction false} SplitOnSepAfter(y: string, c: char, seps: set<char>)
    requires c in seps
    ensures SplitOn(y + [c], seps) == SplitOn(y, seps) + [[]]
  {
    if y != [] {
      assert (y + [c])[1..] == y[1..] + [c];
      SplitOnSepAfter(y[1..], c, seps);
    } else {
      assert y + [c] == [c];
      assert [c][1..] == [];
    }
  }

  /** Separators after `y` only add empty pieces. */
  lemma {:induction false} SplitOnSepsAfter(y: string, x: string, seps: set<char>)
    requires forall k :: 0 <= k < |x| ==> x[k] in seps
    ensures NonEmpty(SplitOn(y + x, seps)) == NonEmpty(SplitOn(y, seps))
    decreases |x|
  {
    if x == [] {
      assert y + x == y;
    } else {
      var n := |x| - 1;
      SplitOnSepsAfter(y, x[..n], seps);
      assert y + x == (y + x[..n]) + [x[n]];
      SplitOnSepAfter(y + x[..n], x[n], seps);
      NonEmptyAppend(SplitOn(y + x[..n], seps), [[]]);
      NonEmptyCons([], []);
    }
  }

  /** Collapsing white space keeps the runs of `s`: the first piece is the
      same, and so are the non-empty pieces. */
  predicate KeepsRuns(s: string) {
    SplitOn(CollapseSpaces(s), {' '})[0] == SplitOn(s, WhiteSpace)[0]
    && NonEmpty(SplitOn(CollapseSpaces(s), {' '})) == Runs(s)
  }

  lemma {:induction false} CollapseSpacesKeepsRuns(s: string)
    ensures KeepsRuns(s)
    decreases |s|
  {
    if s != [] {
      if IsSpace(s[0]) {
        CollapseSpacesKeepsRuns(TrimStart(s[1..]));
        KeepsRunsAfterSpace(s);
      } else {
        CollapseSpacesKeepsRuns(s[1..]);
        KeepsRunsAfterChar(s);
      }
    }
  }

  /** A white-space character opens an empty piece on both sides, and the
      rest of the white-space run opens only more empty pieces. */
  lemma KeepsRunsAfterSpace(s: string)
    requires s != [] && IsSpace(s[0]) && KeepsRuns(TrimStart(s[1..]))
    ensures KeepsRuns(s)
  {
    WhiteSpaceIsSpace(s[0]);
    SplitOnStep(s, WhiteSpace);
    var c := CollapseSpaces(s);
    SplitOnStep(c, {' '});
    var t := TrimStart(s[1..]);
    assert c[1..] == CollapseSpaces(t);
    NonEmptyCons([], SplitOn(c[1..], {' '}));
    NonEmptyCons([], SplitOn(s[1..], WhiteSpace));
    var lead := s[1..][..|s[1..]| - |t|];
    assert s[1..] == lead + t;
    forall k | 0 <= k < |lead|
      ensures lead[k] in WhiteSpace
    {
      WhiteSpaceIsSpace(lead[k]);
    }
    SplitOnSepsBefore(lead, t, WhiteSpace);
  }

  /** Any other character joins the first piece on both sides. */
  lemma KeepsRunsAfterChar(s: string)
    requires s != [] && !IsSpace(s[0]) && KeepsRuns(s[1..])
    ensures KeepsRuns(s)
  {
    WhiteSpaceIsSpace(s[0]);
    SplitOnStep(s, WhiteSpace);
    var c := CollapseSpaces(s);
    SplitOnStep(c, {' '});
    assert c[1..] == CollapseSpaces(s[1..]);
    var a, b := SplitOn(c[1..], {' '}), SplitOn(s[1..], WhiteSpace);
    assert a == [a[0]] + a[1..] && b == [b[0]] + b[1..];
    NonEmptyCons(a[0], a[1..]);
    NonEmptyCons(b[0], b[1..]);
    NonEmptyCons([s[0]] + a[0], a[1..]);
    NonEmptyCons([s[0]] + b[0], b[1..]);
    var h: seq<string> := if a[0] == [] then [] else [a[0]];
    assert NonEmpty(a[1..]) == (h + NonEmpty(a[1..]))[|h|..];
    assert NonEmpty(b[1..]) == (h + NonEmpty(b[1..]))[|h|..];
  }

  /** Trimming a string whose only white space is the plain space drops
      only empty pieces. */
  lemma TrimKeepsNonEmptyPieces(c: string)
    requires PlainSpaced(c)
    ensures NonEmpty(SplitOn(Trim(c), {' '})) == NonEmpty(SplitOn(c, {' '}))
  {
    var i, j := TrimBounds(c);
    PlainSpacesAreSpaces(c, 0, i);
    PlainSpacesAreSpaces(c, j, |c|);
    SplitOnSepsAround(c[..i], c[i..j], c[j..], {' '});
  }

  /** Where `Trim` cuts `s`. */
  lemma TrimBounds(s: string) returns (i: nat, j: nat)
    ensures i <= j <= |s| && Trim(s) == s[i..j] && SpaceRange(s, 0, i) && SpaceRange(s, j, |s|)
    ensures s == s[..i] + (s[i..j] + s[j..])
  {
    i := LeadingSpace(s);
    j := if i == |s| then i else |s| - TrailingSpace(s);
    assert s == s[..i] + (s[i..j] + s[j..]);
  }

  lemma PlainSpacesAreSpaces(c: string, lo: nat, hi: nat)
    requires lo <= hi <= |c| && PlainSpaced(c) && SpaceRange(c, lo, hi)
    ensures forall k :: 0 <= k < |c[lo..hi]| ==> c[lo..hi][k] in {' '}
  {
    forall k | 0 <= k < |c[lo..hi]|
      ensures c[lo..hi][k] in {' '}
    {
      assert c[lo..hi][k] == c[lo + k] && IsSpace(c[lo + k]);
    }
  }

  lemma SplitOnSepsAround(lead: string, t: string, trail: string, seps: set<char>)
    requires forall k :: 0 <= k < |lead| ==> lead[k] in seps
    requires forall k :: 0 <= k < |trail| ==> trail[k] in seps
    ensures NonEmpty(SplitOn(lead + (t + trail), seps)) == NonEmpty(SplitOn(t, seps))
  {
    SplitOnSepsBefore(lead, t + trail, seps);
    SplitOnSepsAfter(t, trail, seps);
  }

  /** The counted words are exactly the runs longer than two code units. */
  lemma WordsAreLongRuns(text: string)
    ensures Words(text) == LongTokens(Runs(text))
  {
    var c := CollapseSpaces(text);
    CollapseSpacesKeepsRuns(text);
    TrimKeepsNonEmptyPieces(c);
    LongTokensOfNonEmpty(SplitOn(Trim(c), {' '}));
    LongTokensOfNonEmpty(SplitOn(c, {' '}));
  }

  /** The runs are non-empty, free of white space, and together they are
      the text's other characters in order. */
  lemma {:induction false} RunsFacts(s: string)
    ensures forall k :: 0 <= k < |Runs(s)| ==> Runs(s)[k] != [] && NoSpace(Runs(s)[k])
    ensures Concat(Runs(s)) == WithoutSeps(s, WhiteSpace)
  {
    var ps := SplitOn(s, WhiteSpace);
    NonEmptyFrom(ps);
    forall k | 0 <= k < |Runs(s)|
      ensures NoSpace(Runs(s)[k])
    {
      var w := Runs(s)[k];
      assert w in NonEmpty(ps);
      var m :| 0 <= m < |ps| && ps[m] == w;
      forall j | 0 <= j < |w|
        ensures !IsSpace(w[j])
      {
        WhiteSpaceIsSpace(w[j]);
      }
    }
    SplitOnLosesOnlySeparators(s, WhiteSpace);
    ConcatOfNonEmpty(ps);
  }

  lemma {:induction false} ConcatOfNonEmpty(ts: seq<string>)
    ensures Concat(NonEmpty(ts)) == Concat(ts)
  {
    if ts != [] {
      ConcatOfNonEmpty(ts[1..]);
      NonEmptyCons(ts[0], ts[1..]);
      if ts[0] == [] {
        assert NonEmpty(ts) == NonEmpty(ts[1..]);
        assert Concat(ts) == ts[0] + Concat(ts[1..]) == Concat(ts[1..]);
      } else {
        ConcatCons(ts[0], NonEmpty(ts[1..]));
      }
    }
  }

  function DigitChar(d: nat): (c: char)
    requires d < 10
    ensures '0' <= c <= '9'
  {
    "0123456789"[d]
  }

  /** How a non-negative integer prints in a template literal. */
  function NatToString(n: nat): (r: string)
    ensures |r| >= 1
    ensures AllDigits(r)
    ensures r[0] == '0' ==> n == 0
    decreases n
  {
    if n < 10 then [DigitChar(n)] else NatToString(n / 10) + [DigitChar(n % 10)]
  }

  /** How an integer prints in a template literal. */
  function IntToString(i: int): (r: string)
    ensures |r| >= 1
    ensures i < 0 <==> r[0] == '-'
  {
    if i < 0 then "-" + NatToString(-i) else NatToString(i)
  }

  predicate AllDigits(s: string) {
    forall k :: 0 <= k < |s| ==> '0' <= s[k] <= '9'
  }

  function DigitsValue(s: string): int
    requires AllDigits(s)
  {
    if s == [] then 0 else DigitsValue(s[..|s| - 1]) * 10 + (s[|s| - 1] as int - '0' as int)
  }

  /** Reading the printed digits back gives the number. */
  lemma {:induction false} NatToStringRoundTrip(n: nat)
    ensures DigitsValue(NatToString(n)) == n
    decreases n
  {
    var r := NatToString(n);
    if n >= 10 {
      NatToStringRoundTrip(n / 10);
      assert r[..|r| - 1] == NatToString(n / 10);
    }
  }
}
