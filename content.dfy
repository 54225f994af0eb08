/** The content probe of `lib/api/content.js`: word count, title and meta
    description, element counts, the deepest heading level and the three
    markup flags, scored with `getContentScore`.

    The HTML parser is not modelled. A page is the flat list of its elements
    in document order, each with its tag, its attributes and whether it sits
    inside an element the probe strips, together with the body and title text
    the parser reads from the stripped tree. Selector queries are filters over
    that list. */
module Content {
  import opened Wrappers
  import opened Strings
  import opened Scoring

  /** One element: `insideStripped` says whether an ancestor is one of the
      stripped tags (and so goes with it). */
  datatype Element = Element(tag: string, attrs: map<string, string>, insideStripped: bool)

  /** A fetched page: its elements and the text of `body` and of `title` in
      the tree that is left once the stripped elements are gone. */
  datatype Page = Page(elements: seq<Element>, bodyText: string, titleText: string)

  /** What `fetchContentData` resolves to. */
  datatype ContentData = ContentData(
    title: string,
    metaDescription: string,
    h1Count: nat,
    imageWithoutAlt: nat,
    wordCount: nat,
    headingDepth: nat,
    schemaDetected: bool,
    ogTagsDetected: bool,
    canonicalDetected: bool,
    contentScore: int)

  /** The tags of `$("script, style, nav, footer, header, noscript").remove()`. */
  const StrippedTags: set<string> := {"script", "style", "nav", "footer", "header", "noscript"}

  /** The heading tags in the order the depth fold visits them. */
  const HeadingTags: seq<string> := ["h1", "h2", "h3", "h4", "h5", "h6"]

  /** An element the removal takes away: a stripped tag or anything inside one. */
  predicate Removed(e: Element) {
    e.tag in StrippedTags || e.insideStripped
  }

  /** The element list after the removal, in document order. */
  function Strip(es: seq<Element>): (r: seq<Element>)
    ensures |r| <= |es|
    ensures forall e :: e in r <==> e in es && !Removed(e)
  {
    if es == [] then []
    else (if Removed(es[0]) then [] else [es[0]]) + Strip(es[1..])
  }

  /** An attribute's value, when the element carries it. */
  function Attr(e: Element, name: string): Option<string> {
    if name in e.attrs then Some(e.attrs[name]) else None
  }

  /** The selectors the probe queries. */
  datatype Selector =
    | TagIs(name: string)   // `h1`, ..., `h6`
    | MetaDescription       // `meta[name="description"]`
    | ImgWithoutAlt         // `img:not([alt])`
    | JsonLdScript          // `script[type="application/ld+json"]`
    | OgMeta                // `meta[property^="og:"]`
    | CanonicalLink         // `link[rel="canonical"]`

  predicate Matches(e: Element, sel: Selector) {
    match sel
    case TagIs(name) => e.tag == name
    case MetaDescription => e.tag == "meta" && Attr(e, "name") == Some("description")
    case ImgWithoutAlt => e.tag == "img" && "alt" !in e.attrs
    case JsonLdScript => e.tag == "script" && Attr(e, "type") == Some("application/ld+json")
    case OgMeta => e.tag == "meta" && "property" in e.attrs && StartsWith(e.attrs["property"], "og:")
    case CanonicalLink => e.tag == "link" && Attr(e, "rel") == Some("canonical")
  }

  /** `$(sel)`: the matching elements in document order. */
  function Select(es: seq<Element>, sel: Selector): (r: seq<Element>)
    ensures |r| <= |es|
    ensures forall e :: e in r <==> e in es && Matches(e, sel)
  {
    if es == [] then []
    else (if Matches(es[0], sel) then [es[0]] else []) + Select(es[1..], sel)
  }

  /** The position of the first element matching `sel`, or `|es|`. */
  function FirstMatchAt(es: seq<Element>, sel: Selector): (k: nat)
    ensures k <= |es|
    ensures k < |es| ==> Matches(es[k], sel)
    ensures forall j :: 0 <= j < k ==> !Matches(es[j], sel)
  {
    if es == [] || Matches(es[0], sel) then 0
    else
      var k := FirstMatchAt(es[1..], sel);
      assert forall j :: 1 <= j < k + 1 ==> es[j] == es[1..][j - 1];
      k + 1
  }

  /** The first selected element is the first matching element. */
  lemma {:induction false} SelectFirst(es: seq<Element>, sel: Selector)
    requires Select(es, sel) != []
    ensures FirstMatchAt(es, sel) < |es| && Select(es, sel)[0] == es[FirstMatchAt(es, sel)]
  {
    if !Matches(es[0], sel) {
      assert Select(es, sel) == [] + Select(es[1..], sel);
      SelectFirst(es[1..], sel);
    }
  }

  /** `$(sel).length`. */
  function Count(es: seq<Element>, sel: Selector): nat {
    |Select(es, sel)|
  }

  /** `$(sel).length > 0` holds exactly when some element matches. */
  lemma CountPositive(es: seq<Element>, sel: Selector)
    ensures Count(es, sel) > 0 <==> exists e :: e in es && Matches(e, sel)
  {
    var s := Select(es, sel);
    if |s| > 0 {
      assert s[0] in s;
    }
  }

  /** `$('meta[name="description"]').attr("content") || ""`: the `content`
      of the first description meta tag, or the empty string when there is
      none or it has no `content`. */
  function MetaDescriptionOf(es: seq<Element>): (r: string)
    ensures (forall e :: e in es ==> !Matches(e, MetaDescription)) ==> r == ""
    ensures (exists e :: e in es && Matches(e, MetaDescription)) ==>
              exists k :: 0 <= k < |es| && Matches(es[k], MetaDescription)
                && (forall j :: 0 <= j < k ==> !Matches(es[j], MetaDescription))
                && r == Attr(es[k], "content").GetOr("")
    ensures r != "" ==> exists e :: e in es && Matches(e, MetaDescription) && Attr(e, "content") == Some(r)
  {
    var metas := Select(es, MetaDescription);
    if metas == [] then ""
    else
      assert metas[0] in metas;
      SelectFirst(es, MetaDescription);
      Attr(metas[0], "content").GetOr("")
  }

  /** For each of the six heading tags, whether some element has it. */
  function Levels(es: seq<Element>): (p: seq<bool>)
    ensures |p| == 6
  {
    seq(6, i requires 0 <= i < 6 => Count(es, TagIs(HeadingTags[i])) > 0)
  }

  /** Whether some element has the heading tag of level `n` (1 to 6). */
  predicate HasLevel(es: seq<Element>, n: nat)
    requires 1 <= n <= 6
  {
    Levels(es)[n - 1]
  }

  /** The `headingDepth` reduce after its first `n` tags, over which of them
      are present: each present level replaces the depth found so far. The
      result is the deepest present level up to `n`, whatever levels are
      missing below it, and 0 when none is. */
  function DepthAfter(present: seq<bool>, n: nat): (d: nat)
    requires n <= |present|
    ensures d <= n
    ensures d == 0 <==> forall k :: 0 <= k < n ==> !present[k]
    ensures d > 0 ==> present[d - 1] && forall k :: d <= k < n ==> !present[k]
  {
    if n == 0 then 0
    else if present[n - 1] then n
    else DepthAfter(present, n - 1)
  }

  /** `headingDepth`: the reduce over all six tags. */
  function HeadingDepth(es: seq<Element>): (d: nat)
    ensures d <= 6
  {
    DepthAfter(Levels(es), 6)
  }

  /** The heading depth is the deepest level present, whatever levels are
      missing below it, and 0 exactly when the page has no heading. */
  lemma HeadingDepthMeans(es: seq<Element>)
    ensures var d := HeadingDepth(es);
      (d == 0 <==> forall k :: 1 <= k <= 6 ==> !HasLevel(es, k))
      && (d > 0 ==> HasLevel(es, d) && forall k :: d < k <= 6 ==> !HasLevel(es, k))
  {
    var p := Levels(es);
    var d := DepthAfter(p, 6);
    if d == 0 {
      forall k | 1 <= k <= 6
        ensures !HasLevel(es, k)
      {
        assert !p[k - 1];
      }
    } else {
      assert HasLevel(es, d);
      forall k | d < k <= 6
        ensures !HasLevel(es, k)
      {
        assert !p[k - 1];
      }
    }
  }

  /** The score inputs taken from a result record. */
  function SignalsOf(r: ContentData): ContentSignals {
    ContentSignals(r.wordCount, r.h1Count, r.schemaDetected, r.ogTagsDetected, r.canonicalDetected, r.headingDepth)
  }

  /** The result record for given flags, with every query else run on the
      stripped element list. */
  function Assemble(page: Page, schemaDetected: bool): ContentData {
    var es := Strip(page.elements);
    var words := WordCount(page.bodyText);
    var h1s := Count(es, TagIs("h1"));
    var depth := HeadingDepth(es);
    var og := Count(es, OgMeta) > 0;
    var canonical := Count(es, CanonicalLink) > 0;
    ContentData(Trim(page.titleText), MetaDescriptionOf(es), h1s, Count(es, ImgWithoutAlt), words, depth,
                schemaDetected, og, canonical,
                GetContentScore(ContentSignals(words, h1s, schemaDetected, og, canonical, depth)))
  }

  /** `fetchContentData` as written: every query, the JSON-LD one included,
      runs after the removal. */
  function FetchContentData(page: Page): (r: ContentData)
    ensures r.schemaDetected == (Count(Strip(page.elements), JsonLdScript) > 0)
  {
    Assemble(page, Count(Strip(page.elements), JsonLdScript) > 0)
  }

  /** What the result means: the word count is the number of tokens longer
      than two characters in the stripped body text; the heading depth is
      the deepest level present; the og and canonical flags hold exactly
      when such an element survives the removal; the score is the content
      score of exactly these fields and lies in `[0, 100]`. */
  lemma FetchContentDataMeans(page: Page)
    ensures var r := FetchContentData(page);
      var es := Strip(page.elements);
      r.title == Trim(page.titleText)
      && r.wordCount == |Words(page.bodyText)|
      && r.h1Count == |Select(es, TagIs("h1"))|
      && r.imageWithoutAlt == |Select(es, ImgWithoutAlt)|
      && r.headingDepth <= 6
      && (r.ogTagsDetected <==> exists e :: e in page.elements && !Removed(e) && Matches(e, OgMeta))
      && (r.canonicalDetected <==> exists e :: e in page.elements && !Removed(e) && Matches(e, CanonicalLink))
      && r.contentScore == GetContentScore(SignalsOf(r))
      && InPercent(r.contentScore)
  {
    var es := Strip(page.elements);
    CountPositive(es, OgMeta);
    CountPositive(es, CanonicalLink);
  }

  /** The JSON-LD query runs after every `script` element has been removed,
      so it never finds one: the as-written probe never detects schema
      markup, whatever the page holds. */
  lemma SchemaNeverDetected(page: Page)
    ensures !FetchContentData(page).schemaDetected
  {
    var es := Strip(page.elements);
    forall e | e in es
      ensures !Matches(e, JsonLdScript)
    {
      ScriptIsRemoved(e);
    }
    CountPositive(es, JsonLdScript);
  }

  lemma ScriptIsRemoved(e: Element)
    ensures e.tag == "script" ==> Removed(e)
  {
  }

  /** The evidently intended probe: structured data is looked for in the
      page as fetched, before the removal meant for the word count. */
  function FetchContentDataCorrected(page: Page): (r: ContentData)
    ensures r.schemaDetected == (Count(page.elements, JsonLdScript) > 0)
  {
    Assemble(page, Count(page.elements, JsonLdScript) > 0)
  }

  /** The corrected probe detects schema markup exactly when the page has a
      JSON-LD script; every other field is the as-written one, and the score
      is 20 points higher when it detects it. */
  lemma CorrectedDetectsSchema(page: Page)
    ensures var c := FetchContentDataCorrected(page);
      var w := FetchContentData(page);
      (c.schemaDetected <==> exists e :: e in page.elements && Matches(e, JsonLdScript))
      && c.(schemaDetected := false, contentScore := 0) == w.(schemaDetected := false, contentScore := 0)
      && c.contentScore == w.contentScore + (if c.schemaDetected then 20 else 0)
  {
    CountPositive(page.elements, JsonLdScript);
    SchemaNeverDetected(page);
  }
}
