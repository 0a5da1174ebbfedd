/**
 * `_extract_design_elements` (backend/app/scraper.py): heading counts, the
 * colour and font vocabularies of a page, and its layout flags.
 *
 * The regular expressions that find `font-family`, colour and `@font-face`
 * declarations in CSS text are not modelled: their captures arrive as inputs,
 * and what the code does with each capture is modelled exactly.
 */
module Design {
  import opened Wrappers
  import opened Strings
  import opened Dom
  import opened Ranking

  // ---------------------------------------------------------------- font tokens

  const Quotes: set<char> := {'\'', '"'}

  /** `font.strip().strip('\'"').strip()`. */
  function CleanFont(t: string): (r: string)
    ensures Unpadded(r)
  {
    StripSetEnds(Unquote(t), Whitespace);
    Strip(Unquote(t))
  }

  /** `font.strip().strip('\'"')`. */
  function Unquote(t: string): string
  {
    StripSet(Strip(t), Quotes)
  }

  /**
   * Whether a cleaned token is kept: non-empty, and, in the style-tag and inline
   * passes (`skipKeywords`), not `inherit` or `initial` in any letter case.
   */
  predicate Kept(f: string, skipKeywords: bool)
  {
    f != "" && (skipKeywords ==> !CssKeyword(f))
  }

  /** `inherit` or `initial`, in any letter case. */
  predicate CssKeyword(f: string)
  {
    Lower(f) == "inherit" || Lower(f) == "initial"
  }

  /** The kept tokens of the comma-separated parts of one capture. */
  function TokensOf(parts: seq<string>, skipKeywords: bool): set<string>
  {
    if parts == [] then {}
    else
      var f := CleanFont(parts[|parts| - 1]);
      TokensOf(parts[..|parts| - 1], skipKeywords) + (if Kept(f, skipKeywords) then {f} else {})
  }

  lemma {:induction false} TokensOfSnoc(parts: seq<string>, j: nat, skipKeywords: bool)
    requires j < |parts|
    ensures var f := CleanFont(parts[j]);
      TokensOf(parts[..j + 1], skipKeywords) == TokensOf(parts[..j], skipKeywords) + (if Kept(f, skipKeywords) then {f} else {})
  {
    assert parts[..j + 1][..j] == parts[..j];
  }

  /** The fonts a pass adds for its `font-family` captures. */
  function DeclaredFonts(captures: seq<string>, skipKeywords: bool): set<string>
  {
    if captures == [] then {}
    else
      DeclaredFonts(captures[..|captures| - 1], skipKeywords)
        + TokensOf(Split(captures[|captures| - 1], ','), skipKeywords)
  }

  /** A kept token is non-empty, has no surrounding whitespace, and is no CSS keyword where those are skipped. */
  predicate CleanToken(f: string, skipKeywords: bool)
  {
    && f != []
    && Unpadded(f)
    && (skipKeywords ==> !CssKeyword(f))
  }

  lemma {:induction false} TokensOfClean(parts: seq<string>, skipKeywords: bool)
    ensures forall f | f in TokensOf(parts, skipKeywords) :: CleanToken(f, skipKeywords)
  {
    if parts != [] {
      TokensOfClean(parts[..|parts| - 1], skipKeywords);
    }
  }

  /** Every font token the declaration passes collect is clean. */
  lemma {:induction false} DeclaredFontsClean(captures: seq<string>, skipKeywords: bool)
    ensures forall f | f in DeclaredFonts(captures, skipKeywords) :: CleanToken(f, skipKeywords)
  {
    if captures != [] {
      DeclaredFontsClean(captures[..|captures| - 1], skipKeywords);
      TokensOfClean(Split(captures[|captures| - 1], ','), skipKeywords);
    }
  }

  /** One declaration pass: each capture split at commas, each part cleaned and kept or dropped. */
  method AddDeclaredFonts(fonts0: set<string>, captures: seq<string>, skipKeywords: bool) returns (fonts: set<string>)
    ensures fonts == fonts0 + DeclaredFonts(captures, skipKeywords)
  {
    fonts := fonts0;
    var i := 0;
    while i < |captures|
      invariant 0 <= i <= |captures|
      invariant fonts == fonts0 + DeclaredFonts(captures[..i], skipKeywords)
    {
      DeclaredFontsSnoc(captures, i, skipKeywords);
      fonts := AddTokens(fonts, Split(captures[i], ','), skipKeywords);
      i := i + 1;
    }
    assert captures[..i] == captures;
  }

  lemma {:induction false} DeclaredFontsSnoc(captures: seq<string>, i: nat, skipKeywords: bool)
    requires i < |captures|
    ensures DeclaredFonts(captures[..i + 1], skipKeywords)
      == DeclaredFonts(captures[..i], skipKeywords) + TokensOf(Split(captures[i], ','), skipKeywords)
  {
    assert captures[..i + 1][..i] == captures[..i];
  }

  /** The inner loop of a pass, over the comma-separated parts of one capture. */
  method AddTokens(fonts0: set<string>, parts: seq<string>, skipKeywords: bool) returns (fonts: set<string>)
    ensures fonts == fonts0 + TokensOf(parts, skipKeywords)
  {
    fonts := fonts0;
    var j := 0;
    while j < |parts|
      invariant 0 <= j <= |parts|
      invariant fonts == fonts0 + TokensOf(parts[..j], skipKeywords)
    {
      TokensOfSnoc(parts, j, skipKeywords);
      var cleaned := CleanFont(parts[j]);
      if Kept(cleaned, skipKeywords) {
        fonts := fonts + {cleaned};
      }
      j := j + 1;
    }
    assert parts[..j] == parts;
  }

  // ---------------------------------------------------------------- Google Fonts links

  /**
   * `re.search(r'family=([^&]+)', href)` from index `from`: the first `family=`
   * followed by at least one character other than `&`, and that run.
   */
  function FamilyParamFrom(href: string, from: nat): (r: Option<string>)
    ensures r.Some? ==> r.value != [] && '&' !in r.value && Contains(href, "family=" + r.value)
    decreases |href| - from
  {
    var k := FindFrom(href, "family=", from);
    if k == -1 then None
    else
      var rest := href[k + 7..];
      var n := SpanOutside(rest, {'&'});
      if n > 0 then
        assert href[k..k + 7 + n] == "family=" + rest[..n];
        assert OccursAt(href, "family=" + rest[..n], k);
        Some(rest[..n])
      else FamilyParamFrom(href, k + 1)
  }

  function FamilyParam(href: string): Option<string>
  {
    FamilyParamFrom(href, 0)
  }

  /** `s.replace('+', ' ')`. */
  function PlusToSpace(s: string): (r: string)
    ensures |r| == |s| && forall i | 0 <= i < |s| :: r[i] == if s[i] == '+' then ' ' else s[i]
  {
    seq(|s|, i requires 0 <= i < |s| => if s[i] == '+' then ' ' else s[i])
  }

  /** The base family names of a `family=` value: `+` read as space, split at `|`, each cut at its first `:`. */
  function GoogleFamilies(param: string): (r: set<string>)
    ensures forall f | f in r :: ':' !in f && '|' !in f
    ensures forall f | f in r :: exists fam | fam in Split(PlusToSpace(param), '|') :: StartsWith(fam, f)
  {
    var pieces := Split(PlusToSpace(param), '|');
    forall fam | fam in pieces
      ensures ':' !in Split(fam, ':')[0] && '|' !in Split(fam, ':')[0] && StartsWith(fam, Split(fam, ':')[0])
    {
      SplitFirst(fam, ':');
      assert Split(fam, ':')[0] in Split(fam, ':');
    }
    set fam | fam in pieces :: Split(fam, ':')[0]
  }

  /** A stylesheet link to Google Fonts. */
  predicate GoogleFontsLink(e: Element)
  {
    IsStylesheetLink(e) && Contains(Attr(e, "href").GetOr(""), "fonts.googleapis.com")
  }

  /** The families the Google Fonts links of the listed elements name (neither stripped nor checked for emptiness). */
  function LinkedFonts(ls: seq<Located>): set<string>
  {
    if ls == [] then {}
    else
      var e := ls[|ls| - 1].element;
      var param := FamilyParam(Attr(e, "href").GetOr(""));
      LinkedFonts(ls[..|ls| - 1]) + (if GoogleFontsLink(e) && param.Some? then GoogleFamilies(param.value) else {})
  }

  method AddLinkedFonts(fonts0: set<string>, all: seq<Located>) returns (fonts: set<string>)
    ensures fonts == fonts0 + LinkedFonts(all)
  {
    fonts := fonts0;
    var i := 0;
    while i < |all|
      invariant 0 <= i <= |all|
      invariant fonts == fonts0 + LinkedFonts(all[..i])
    {
      assert all[..i + 1][..i] == all[..i];
      var link := all[i].element;
      if IsStylesheetLink(link) {
        var href := Attr(link, "href").GetOr("");
        if Contains(href, "fonts.googleapis.com") {
          var m := FamilyParam(href);
          if m.Some? {
            fonts := fonts + GoogleFamilies(m.value);
          }
        }
      }
      i := i + 1;
    }
    assert all[..i] == all;
  }

  // ---------------------------------------------------------------- serif detection and defaults

  const SerifIndicators: seq<string> := ["serif", "times", "georgia", "cambria", "palatino", "garamond"]

  /** A `font-family` value naming one of the serif indicators, in any letter case. */
  predicate SerifFamily(v: string)
  {
    exists ind | ind in SerifIndicators :: Contains(Lower(v), ind)
  }

  /** "serif" is a part of "sans-serif", so a sans-serif declaration reads as serif. */
  lemma SansSerifReadsAsSerif()
    ensures SerifFamily("Arial, sans-serif")
  {
    var v := "Arial, sans-serif";
    assert Lower(v)[12..17] == "serif";
    assert "serif" == SerifIndicators[0];
    assert OccursAt(Lower(v), "serif", 12);
    assert Contains(Lower(v), SerifIndicators[0]);
    assert SerifIndicators[0] in SerifIndicators;
  }

  /** The `p`, `div`, `span`, `h1`, `h2` and `h3` elements inside the first `body`, in document order. */
  function TextElements(doc: Element): seq<Located>
  {
    var bodies := Filter(AllElements(doc), (l: Located) => l.element.tag == "body");
    if bodies == [] then []
    else
      Filter(Descendants(bodies[0].element, bodies[0].ancestors),
        (l: Located) => l.element.tag in ["p", "div", "span", "h1", "h2", "h3"])
  }

  /**
   * Some of the first twenty text elements has a style whose first `font-family`
   * value (`familyOf`, the capture of `font-family:\s*([^;]+);`) names a serif indicator.
   */
  predicate SerifDominant(doc: Element, familyOf: string -> Option<string>)
  {
    exists l | l in Take(TextElements(doc), 20) ::
      && Truthy(Attr(l.element, "style"))
      && familyOf(Attr(l.element, "style").value).Some?
      && SerifFamily(familyOf(Attr(l.element, "style").value).value)
  }

  const SerifStack: set<string> := {"Times New Roman", "Georgia", "Cambria", "serif", "Palatino", "Garamond"}
  const SansStack: set<string> := {"Arial", "Helvetica", "Verdana", "sans-serif", "Segoe UI", "Roboto"}

  /** What the page's CSS yields for the font and colour passes, as captured by the regular expressions. */
  datatype CssCaptures = CssCaptures(
    styleFontFamilies: seq<string>,   // `font-family:\s*([^;}]+)[;}]` over the style tags
    inlineFontFamilies: seq<string>,  // the same over the inline `style` attributes
    fontFaceFamilies: seq<string>,    // the first such capture inside each `@font-face` body
    colors: seq<string>)              // the colour-declaration captures, style tags then inline styles

  /** The fonts found by all four passes. */
  function FoundFonts(doc: Element, caps: CssCaptures): set<string>
  {
    DeclaredFonts(caps.styleFontFamilies, true) + DeclaredFonts(caps.inlineFontFamilies, true)
      + DeclaredFonts(caps.fontFaceFamilies, false) + LinkedFonts(AllElements(doc))
  }

  /** The `fonts` of the design summary: what was found, or a six-font stack chosen by the serif check. */
  function Fonts(doc: Element, caps: CssCaptures, familyOf: string -> Option<string>): (r: set<string>)
    ensures r != {}
    ensures FoundFonts(doc, caps) != {} ==> r == FoundFonts(doc, caps)
    ensures FoundFonts(doc, caps) == {} ==> r == (if SerifDominant(doc, familyOf) then SerifStack else SansStack)
  {
    var found := FoundFonts(doc, caps);
    if found != {} then found
    else
      assert "serif" in SerifStack && "Arial" in SansStack;
      if SerifDominant(doc, familyOf) then SerifStack else SansStack
  }

  /** The font collection: the four passes in the source's order, then the fallback. */
  method ExtractFonts(doc: Element, caps: CssCaptures, familyOf: string -> Option<string>) returns (fonts: set<string>)
    ensures fonts == Fonts(doc, caps, familyOf)
  {
    fonts := AddDeclaredFonts({}, caps.styleFontFamilies, true);
    fonts := AddDeclaredFonts(fonts, caps.inlineFontFamilies, true);
    fonts := AddDeclaredFonts(fonts, caps.fontFaceFamilies, false);
    fonts := AddLinkedFonts(fonts, AllElements(doc));
    if fonts == {} {
      fonts := if SerifDominant(doc, familyOf) then SerifStack else SansStack;
    }
  }

  /** Every font the three declaration passes find is clean. */
  lemma {:induction false} DeclaredFontTokensClean(caps: CssCaptures)
    ensures forall f | f in DeclaredFonts(caps.styleFontFamilies, true) + DeclaredFonts(caps.inlineFontFamilies, true) ::
      CleanToken(f, true)
    ensures forall f | f in DeclaredFonts(caps.fontFaceFamilies, false) :: CleanToken(f, false)
  {
    DeclaredFontsClean(caps.styleFontFamilies, true);
    DeclaredFontsClean(caps.inlineFontFamilies, true);
    DeclaredFontsClean(caps.fontFaceFamilies, false);
  }

  // ---------------------------------------------------------------- colours and headings

  /** The colour vocabulary: every capture, stripped. */
  function Colors(caps: CssCaptures): (r: set<string>)
    ensures forall c | c in r :: Unpadded(c)
    ensures |caps.colors| == 0 ==> r == {}
  {
    set c | c in caps.colors :: CleanColor(c)
  }

  function CleanColor(c: string): (r: string)
    ensures Unpadded(r)
  {
    StripSetEnds(c, Whitespace);
    Strip(c)
  }

  const HeadingTags: seq<string> := ["h1", "h2", "h3", "h4", "h5", "h6"]

  /** The heading levels present, each with its number of elements. */
  function Headings(doc: Element): (r: map<string, nat>)
    ensures forall h :: h in r <==> h in HeadingTags && h in Tags(AllElements(doc))
    ensures forall h | h in r :: r[h] == multiset(Tags(AllElements(doc)))[h] > 0
  {
    var tags := Tags(AllElements(doc));
    map h | h in HeadingTags && h in tags :: multiset(tags)[h]
  }

  // ---------------------------------------------------------------- layout flags

  datatype LayoutFlags = LayoutFlags(containers: nat, gridSystems: bool, flexboxUsage: bool)

  /** The lower-cased, space-joined class list contains one of `terms`. */
  predicate JoinedClassMentions(e: Element, terms: seq<string>)
  {
    exists t | t in terms :: Contains(Lower(Join(e.classes, " ")), t)
  }

  const GridTerms: seq<string> := ["grid", "row", "col", "container"]
  const FlexTerms: seq<string> := ["flex", "flex-container"]

  /** The number of elements with a class attribute one of whose classes is exactly `container`. */
  function ContainerCount(ls: seq<Located>): nat
  {
    if ls == [] then 0
    else
      var e := ls[|ls| - 1].element;
      ContainerCount(ls[..|ls| - 1]) + (if e.classes != [] && "container" in e.classes then 1 else 0)
  }

  /** An element with a class attribute whose joined, lower-cased classes mention a grid term. */
  predicate GridClasses(e: Element)
  {
    e.classes != [] && JoinedClassMentions(e, GridTerms)
  }

  /** An element with a class attribute whose joined, lower-cased classes mention a flex term. */
  predicate FlexClasses(e: Element)
  {
    e.classes != [] && JoinedClassMentions(e, FlexTerms)
  }

  /** Some listed element satisfies `p`, scanned from the end. */
  function AnyElement(ls: seq<Located>, p: Element -> bool): (b: bool)
    ensures b <==> exists l | l in ls :: p(l.element)
  {
    if ls == [] then false
    else
      assert forall l | l in ls :: l in ls[..|ls| - 1] || l == ls[|ls| - 1];
      AnyElement(ls[..|ls| - 1], p) || p(ls[|ls| - 1].element)
  }

  /** The layout flags of the listed elements. */
  function LayoutOf(ls: seq<Located>): LayoutFlags
  {
    LayoutFlags(ContainerCount(ls), AnyElement(ls, GridClasses), AnyElement(ls, FlexClasses))
  }

  /** The layout loop over the elements with a class attribute. */
  method DetectLayout(doc: Element) returns (flags: LayoutFlags)
    ensures flags == LayoutOf(AllElements(doc))
    ensures flags.gridSystems <==> exists l | l in AllElements(doc) :: GridClasses(l.element)
    ensures flags.flexboxUsage <==> exists l | l in AllElements(doc) :: FlexClasses(l.element)
  {
    var all := AllElements(doc);
    flags := LayoutFlags(0, false, false);
    var i := 0;
    while i < |all|
      invariant 0 <= i <= |all|
      invariant flags == LayoutOf(all[..i])
    {
      LayoutOfStep(all, i);
      var element := all[i].element;
      if element.classes != [] {
        if "container" in element.classes {
          flags := flags.(containers := flags.containers + 1);
        }
        if JoinedClassMentions(element, GridTerms) {
          flags := flags.(gridSystems := true);
        }
        if JoinedClassMentions(element, FlexTerms) {
          flags := flags.(flexboxUsage := true);
        }
      }
      i := i + 1;
    }
    assert all[..i] == all;
  }

  /** One more element extends the layout flags by that element's classes. */
  lemma {:induction false} LayoutOfStep(ls: seq<Located>, i: int)
    requires 0 <= i < |ls|
    ensures var f := LayoutOf(ls[..i]); var e := ls[i].element;
      LayoutOf(ls[..i + 1]) ==
        LayoutFlags(f.containers + (if e.classes != [] && "container" in e.classes then 1 else 0),
                    f.gridSystems || GridClasses(e), f.flexboxUsage || FlexClasses(e))
  {
    assert ls[..i + 1][..i] == ls[..i];
  }

  /** A joined class list contains each of its classes. */
  lemma {:induction false} JoinContainsPart(parts: seq<string>, i: int)
    requires 0 <= i < |parts|
    ensures Contains(Join(parts, " "), parts[i])
  {
    if |parts| == 1 {
      assert OccursAt(Join(parts, " "), parts[0], 0);
    } else if i == 0 {
      assert OccursAt(Join(parts, " "), parts[0], 0);
    } else {
      JoinContainsPart(parts[1..], i - 1);
      ContainsConcat(parts[0] + " ", Join(parts[1..], " "), parts[i]);
    }
  }

  /** Lower-casing keeps an occurrence of an already lower-case term. */
  lemma {:induction false} LowerKeepsContains(s: string, t: string)
    requires Contains(s, t) && Lower(t) == t
    ensures Contains(Lower(s), t)
  {
    var i :| 0 <= i <= |s| - |t| && OccursAt(s, t, i);
    forall k | 0 <= k < |t| ensures Lower(s)[i + k] == t[k] {
      assert s[i + k] == t[k];
      assert Lower(t)[k] == t[k];
    }
    assert Lower(s)[i..i + |t|] == t;
    assert OccursAt(Lower(s), t, i);
  }

  /** A page with a `container` class always reports a grid system. */
  lemma {:induction false} ContainersImplyGrid(doc: Element)
    requires ContainerCount(AllElements(doc)) > 0
    ensures LayoutOf(AllElements(doc)).gridSystems
  {
    var l := ContainerWitness(AllElements(doc));
    var e := l.element;
    var i :| 0 <= i < |e.classes| && e.classes[i] == "container";
    JoinContainsPart(e.classes, i);
    LowerKeepsContains(Join(e.classes, " "), "container");
    assert "container" in GridTerms;
  }

  lemma {:induction false} ContainerWitness(ls: seq<Located>) returns (l: Located)
    requires ContainerCount(ls) > 0
    ensures l in ls && l.element.classes != [] && "container" in l.element.classes
  {
    var last := ls[|ls| - 1];
    if last.element.classes != [] && "container" in last.element.classes {
      l := last;
    } else {
      l := ContainerWitness(ls[..|ls| - 1]);
    }
  }

  // ---------------------------------------------------------------- the whole summary

  datatype DesignElements = DesignElements(
    headings: map<string, nat>, colors: set<string>, fonts: set<string>, layout: LayoutFlags)

  method ExtractDesignElements(doc: Element, caps: CssCaptures, familyOf: string -> Option<string>)
    returns (d: DesignElements)
    ensures d.headings == Headings(doc)
    ensures d.colors == Colors(caps)
    ensures d.fonts == Fonts(doc, caps, familyOf) && d.fonts != {}
    ensures d.layout == LayoutOf(AllElements(doc))
    ensures d.layout.gridSystems <==> exists l | l in AllElements(doc) :: GridClasses(l.element)
    ensures d.layout.flexboxUsage <==> exists l | l in AllElements(doc) :: FlexClasses(l.element)
  {
    var fonts := ExtractFonts(doc, caps, familyOf);
    var layout := DetectLayout(doc);
    d := DesignElements(Headings(doc), Colors(caps), fonts, layout);
  }
}
