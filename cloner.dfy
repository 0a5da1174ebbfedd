/**
 * `WebsiteCloner` (backend/app/llm.py) without the model it talks to: how a
 * scrape is cut down before it goes into the prompt, which colours, fonts and
 * CSS the prompt is given, how the model's answer is repaired into an HTML
 * document, and how a failed call is reported.
 */
module Cloner {
  import opened Wrappers
  import opened Strings

  // ---------------------------------------------------------------- the scrape dictionary

  /** An entry of an asset or script list; the cloner only counts and cuts these lists. */
  datatype Entry = Entry(fields: map<string, string>)

  /** A value of the `assets` dictionary: one of the asset lists, or the `summary` counts. */
  datatype AssetValue = Listing(entries: seq<Entry>) | Counts(counts: map<string, int>)

  /** A `css` entry: its `type`, `content` and `url` keys, each of which may be missing. */
  datatype CssItem = CssItem(kind: Option<string>, content: Option<string>, url: Option<string>)

  /**
   * The keys of the scrape dictionary the cloner reads or rewrites; `None` is a
   * missing key. `colors`, `fonts` and `structure` are read at the top level.
   */
  datatype Payload = Payload(
    url: Option<string>,
    html: Option<string>,
    css: Option<seq<CssItem>>,
    js: Option<seq<Entry>>,
    assets: Option<map<string, AssetValue>>,
    colors: Option<seq<string>>,
    fonts: Option<seq<string>>,
    structure: Option<map<string, string>>)

  /**
   * The dictionary the scraper returns: it has `url`, `html`, `css`, `js` and
   * `assets`, and keeps its colours and fonts under `design`, so it has no
   * top-level `colors`, `fonts` or `structure`.
   */
  function ScraperPayload(url: string, html: string, css: seq<CssItem>, js: seq<Entry>,
                          assets: map<string, AssetValue>): (p: Payload)
    ensures p.colors.None? && p.fonts.None? && p.structure.None?
  {
    Payload(Some(url), Some(html), Some(css), Some(js), Some(assets), None, None, None)
  }

  // ---------------------------------------------------------------- the budget

  /** The asset lists that are cut; `summary` is not among them. */
  const AssetKinds: seq<string> := ["images", "icons", "svgs", "videos", "audio", "fonts", "other_media"]
  const AssetCap: nat := 10
  const HtmlLimit: nat := 20000
  const HtmlKeep: nat := 10000
  const Elision: string := "\n...\n"
  const CssCap: nat := 5
  const JsCap: nat := 2

  /** Python's `s[:n]` applied only when `len(s) > n`. */
  function Cap<T>(s: seq<T>, n: nat): seq<T>
  {
    if |s| > n then s[..n] else s
  }

  /** A capped list is the longest prefix of at most `n` entries, and capping twice changes nothing. */
  lemma {:induction false} CapFacts<T>(s: seq<T>, n: nat)
    ensures |Cap(s, n)| == if |s| > n then n else |s|
    ensures Cap(s, n) == s[..|Cap(s, n)|]
    ensures Cap(Cap(s, n), n) == Cap(s, n)
  {
  }

  /** The HTML kept for the prompt: the first and last 10,000 characters around a marker. */
  function TrimHtml(h: string): string
  {
    if |h| > HtmlLimit then h[..HtmlKeep] + Elision + h[|h| - HtmlKeep..] else h
  }

  /** Long HTML becomes exactly 20,005 characters, keeping its head and tail; short HTML is untouched. */
  lemma {:induction false} TrimHtmlFacts(h: string)
    ensures |h| > 20000 ==>
      && |TrimHtml(h)| == 20005
      && StartsWith(TrimHtml(h), h[..10000])
      && EndsWith(TrimHtml(h), h[|h| - 10000..])
      && TrimHtml(h)[10000..10005] == "\n...\n"
    ensures |h| <= 20000 ==> TrimHtml(h) == h
  {
  }

  /** Trimmed HTML trims to itself: the 20,005-character result is cut back into the same pieces. */
  lemma {:induction false} TrimHtmlIdempotent(h: string)
    ensures TrimHtml(TrimHtml(h)) == TrimHtml(h)
  {
    if |h| > HtmlLimit {
      var t := TrimHtml(h);
      assert |t| == 20005;
      assert t[..HtmlKeep] == h[..HtmlKeep];
      assert t[|t| - HtmlKeep..] == h[|h| - HtmlKeep..];
      assert t == t[..HtmlKeep] + Elision + t[|t| - HtmlKeep..];
    }
  }

  /** One asset list cut to 10 entries when it is longer. */
  function CapKind(a: map<string, AssetValue>, kind: string): map<string, AssetValue>
  {
    if kind in a && a[kind].Listing? && |a[kind].entries| > AssetCap
    then a[kind := Listing(a[kind].entries[..AssetCap])]
    else a
  }

  /** The asset lists of `kinds`, each cut in turn. */
  function CapAssets(a: map<string, AssetValue>, kinds: seq<string>): map<string, AssetValue>
  {
    if kinds == [] then a
    else CapKind(CapAssets(a, kinds[..|kinds| - 1]), kinds[|kinds| - 1])
  }

  /** What happens to one value of the `assets` dictionary. */
  function CappedValue(v: AssetValue, capped: bool): AssetValue
  {
    if capped && v.Listing? then Listing(Cap(v.entries, AssetCap)) else v
  }

  /**
   * Cutting keeps the keys, cuts each listed asset list to its first 10 entries
   * and leaves every other value, `summary` included, as it was.
   */
  lemma {:induction false} CapAssetsFacts(a: map<string, AssetValue>, kinds: seq<string>)
    ensures CapAssets(a, kinds).Keys == a.Keys
    ensures forall k | k in a :: CapAssets(a, kinds)[k] == CappedValue(a[k], k in kinds)
  {
    if kinds != [] {
      var init := kinds[..|kinds| - 1];
      var kind := kinds[|kinds| - 1];
      CapAssetsFacts(a, init);
      forall k | k in a
        ensures CapAssets(a, kinds)[k] == CappedValue(a[k], k in kinds)
      {
        assert k in kinds <==> k in init || k == kind;
        if a[k].Listing? {
          CapFacts(a[k].entries, AssetCap);
        }
      }
    }
  }

  /** The scrape after `_optimize_scrape_data`. */
  function Optimized(p: Payload): Payload
  {
    p.(assets := if p.assets.Some? then Some(CapAssets(p.assets.value, AssetKinds)) else None,
       html := if p.html.Some? then Some(TrimHtml(p.html.value)) else None,
       css := if p.css.Some? then Some(Cap(p.css.value, CssCap)) else None,
       js := if p.js.Some? then Some(Cap(p.js.value, JsCap)) else None)
  }

  /**
   * After optimising: the same keys are present; asset lists hold at most 10
   * entries, `css` at most 5 and `js` at most 2, each a prefix of the original;
   * HTML is at most 20,005 characters; nothing else changes.
   */
  lemma {:induction false} OptimizedFacts(p: Payload)
    ensures var q := Optimized(p);
      && q.url == p.url && q.colors == p.colors && q.fonts == p.fonts && q.structure == p.structure
      && q.html.Some? == p.html.Some? && q.css.Some? == p.css.Some? && q.js.Some? == p.js.Some?
      && q.assets.Some? == p.assets.Some?
      && (q.html.Some? ==> |q.html.value| <= 20005)
      && (q.css.Some? ==> |q.css.value| <= 5 && q.css.value == p.css.value[..|q.css.value|])
      && (q.js.Some? ==> |q.js.value| <= 2 && q.js.value == p.js.value[..|q.js.value|])
      && (q.assets.Some? ==> q.assets.value.Keys == p.assets.value.Keys)
      && (q.assets.Some? ==> forall k | k in p.assets.value && k in AssetKinds && p.assets.value[k].Listing? ::
            && k in q.assets.value && q.assets.value[k].Listing?
            && |q.assets.value[k].entries| <= 10
            && |q.assets.value[k].entries| <= |p.assets.value[k].entries|
            && q.assets.value[k].entries == p.assets.value[k].entries[..|q.assets.value[k].entries|])
      && (q.assets.Some? ==> forall k | k in q.assets.value && k !in AssetKinds ::
            q.assets.value[k] == p.assets.value[k])
  {
    if p.html.Some? {
      TrimHtmlFacts(p.html.value);
    }
    if p.css.Some? {
      CapFacts(p.css.value, CssCap);
    }
    if p.js.Some? {
      CapFacts(p.js.value, JsCap);
    }
    if p.assets.Some? {
      var a := p.assets.value;
      CapAssetsFacts(a, AssetKinds);
      forall k | k in a && a[k].Listing?
        ensures |Cap(a[k].entries, AssetCap)| <= 10
        ensures Cap(a[k].entries, AssetCap) == a[k].entries[..|Cap(a[k].entries, AssetCap)|]
      {
        CapFacts(a[k].entries, AssetCap);
      }
    }
  }

  /** Optimising an optimised scrape changes nothing. */
  lemma {:induction false} OptimizedIdempotent(p: Payload)
    ensures Optimized(Optimized(p)) == Optimized(p)
  {
    var q := Optimized(p);
    if p.html.Some? {
      TrimHtmlIdempotent(p.html.value);
    }
    if p.css.Some? {
      CapFacts(p.css.value, CssCap);
    }
    if p.js.Some? {
      CapFacts(p.js.value, JsCap);
    }
    if p.assets.Some? {
      var a := p.assets.value;
      var b := q.assets.value;
      CapAssetsFacts(a, AssetKinds);
      CapAssetsFacts(b, AssetKinds);
      forall k | k in b
        ensures CapAssets(b, AssetKinds)[k] == b[k]
      {
        if a[k].Listing? {
          CapFacts(a[k].entries, AssetCap);
        }
      }
      assert CapAssets(b, AssetKinds) == b;
    }
  }

  /** The scrape dictionary, which `_optimize_scrape_data` rewrites in place. */
  class ScrapeData {
    var url: Option<string>
    var html: Option<string>
    var css: Option<seq<CssItem>>
    var js: Option<seq<Entry>>
    var assets: Option<map<string, AssetValue>>
    var colors: Option<seq<string>>
    var fonts: Option<seq<string>>
    var structure: Option<map<string, string>>

    constructor (p: Payload)
      ensures Contents() == p
    {
      url, html, css, js := p.url, p.html, p.css, p.js;
      assets, colors, fonts, structure := p.assets, p.colors, p.fonts, p.structure;
    }

    function Contents(): Payload
      reads this
    {
      Payload(url, html, css, js, assets, colors, fonts, structure)
    }

    /** `_optimize_scrape_data`: cut the asset lists, the HTML, `css` and `js` in place. */
    method Optimize()
      modifies this
      ensures Contents() == Optimized(old(Contents()))
    {
      if assets.Some? {
        var a := assets.value;
        var i := 0;
        while i < |AssetKinds|
          invariant 0 <= i <= |AssetKinds|
          invariant a == CapAssets(assets.value, AssetKinds[..i])
        {
          assert AssetKinds[..i + 1][..i] == AssetKinds[..i];
          var kind := AssetKinds[i];
          if kind in a && a[kind].Listing? && |a[kind].entries| > AssetCap {
            a := a[kind := Listing(a[kind].entries[..AssetCap])];
          }
          i := i + 1;
        }
        assert AssetKinds[..i] == AssetKinds;
        assets := Some(a);
      }
      if html.Some? && |html.value| > HtmlLimit {
        html := Some(html.value[..HtmlKeep] + Elision + html.value[|html.value| - HtmlKeep..]);
      }
      if css.Some? && |css.value| > CssCap {
        css := Some(css.value[..CssCap]);
      }
      if js.Some? && |js.value| > JsCap {
        js := Some(js.value[..JsCap]);
      }
    }

    /**
     * `_create_prompt` up to the prompt text: optimise the scrape in place, then
     * read the selections the prompt is written from.
     */
    method CreatePromptInputs() returns (inputs: PromptInputs)
      modifies this
      ensures Contents() == Optimized(old(Contents()))
      ensures inputs == PromptInputsOf(old(Contents()))
    {
      Optimize();
      var inline, external := CompileCss(css.GetOr([]));
      var colorList := colors.GetOr([]);
      var fontList := fonts.GetOr([]);
      inputs := PromptInputs(url.GetOr(""), html.GetOr(""), Cap(inline + "\n" + external, CssBlockLimit),
        ColorTiersOf(colorList), FontListOf(fontList), FontRolesOf(fontList));
    }
  }

  // ---------------------------------------------------------------- what the prompt is given

  /** Python's `s[lo:hi]` for `0 <= lo`, `0 <= hi`: both bounds clamped to the length. */
  function Slice<T>(s: seq<T>, lo: nat, hi: nat): seq<T>
  {
    var h := if hi < |s| then hi else |s|;
    var l := if lo < h then lo else h;
    s[l..h]
  }

  /** The primary, secondary and accent colour lists. */
  datatype ColorTiers = ColorTiers(primary: seq<string>, secondary: seq<string>, accent: seq<string>)

  function ColorTiersOf(colors: seq<string>): ColorTiers
  {
    ColorTiers(
      if colors != [] then Slice(colors, 0, 10) else ["#000000", "#ffffff"],
      if |colors| > 10 then Slice(colors, 10, 30) else ["#cccccc", "#f0f0f0"],
      if |colors| > 30 then Slice(colors, 30, 50) else ["#3366cc", "#ff9900"])
  }

  /**
   * No tier is ever empty. A tier drawn from the colours is a window of the list
   * (10, 20 and 20 wide); with more than 30 colours the three tiers together are
   * the first 50; otherwise the fixed two-colour defaults fill in.
   */
  lemma {:induction false} ColorTiersFacts(colors: seq<string>)
    ensures var t := ColorTiersOf(colors);
      && t.primary != [] && t.secondary != [] && t.accent != []
      && |t.primary| <= 10 && |t.secondary| <= 20 && |t.accent| <= 20
      && (colors == [] ==> t.primary == ["#000000", "#ffffff"])
      && (|colors| <= 10 ==> t.secondary == ["#cccccc", "#f0f0f0"])
      && (|colors| <= 30 ==> t.accent == ["#3366cc", "#ff9900"])
      && (0 < |colors| <= 10 ==> t.primary == colors)
      && (10 < |colors| <= 30 ==> t.primary + t.secondary == colors)
      && (|colors| > 30 ==> t.primary + t.secondary + t.accent == colors[..if |colors| < 50 then |colors| else 50])
  {
    var t := ColorTiersOf(colors);
    if 10 < |colors| <= 30 {
      assert colors == colors[..10] + colors[10..];
    }
    if |colors| > 30 {
      var n := if |colors| < 50 then |colors| else 50;
      assert colors[..n] == colors[..10] + colors[10..30] + colors[30..n];
    }
  }

  /** The listed fonts, or `Arial, sans-serif` when there are none. */
  function FontListOf(fonts: seq<string>): (r: seq<string>)
    ensures r != []
  {
    if fonts != [] then fonts else ["Arial", "sans-serif"]
  }

  const DefaultFont: string := "Arial, sans-serif"

  /** The primary, heading and accent fonts. */
  datatype FontRoles = FontRoles(primary: string, heading: string, accent: string)

  function FontRolesOf(fonts: seq<string>): FontRoles
  {
    FontRoles(
      if fonts != [] then fonts[0] else DefaultFont,
      if |fonts| > 1 then fonts[1] else if fonts != [] then fonts[0] else DefaultFont,
      if |fonts| > 2 then fonts[2] else if fonts != [] then fonts[0] else DefaultFont)
  }

  /**
   * With fonts listed, every role is one of them: the first three in order,
   * the first font standing in for any that are missing. Without fonts every
   * role is the default, which is the listed default stack joined by ", ".
   */
  lemma {:induction false} FontRolesFacts(fonts: seq<string>)
    ensures var r := FontRolesOf(fonts);
      && (fonts != [] ==> r.primary == fonts[0] && r.heading in fonts && r.accent in fonts)
      && (|fonts| >= 3 ==> [r.primary, r.heading, r.accent] == fonts[..3])
      && (|fonts| == 2 ==> [r.primary, r.heading, r.accent] == fonts + [fonts[0]])
      && (|fonts| == 1 ==> r.primary == r.heading == r.accent == fonts[0])
      && (fonts == [] ==> r.primary == r.heading == r.accent == Join(FontListOf(fonts), ", "))
  {
    if fonts == [] {
      assert FontListOf(fonts) == ["Arial"] + ["sans-serif"];
      assert Join(["sans-serif"], ", ") == "sans-serif";
    }
  }

  /** An inline item with content, and an external one with content. */
  predicate InlineWithContent(c: CssItem)
  {
    c.kind == Some("inline") && c.content.Some?
  }

  predicate ExternalWithContent(c: CssItem)
  {
    c.kind == Some("external") && c.content.Some?
  }

  /** The text an external item adds, headed by a comment naming its source. */
  function ExternalText(c: CssItem): string
    requires c.content.Some?
  {
    "/* From " + c.url.GetOr("external") + " */\n" + c.content.value + "\n\n"
  }

  /** The inline CSS text: each inline item's content followed by a blank line. */
  function InlineCss(items: seq<CssItem>): string
  {
    if items == [] then ""
    else
      var c := items[|items| - 1];
      InlineCss(items[..|items| - 1]) + (if InlineWithContent(c) then c.content.value + "\n\n" else "")
  }

  /** The external CSS text. */
  function ExternalCss(items: seq<CssItem>): string
  {
    if items == [] then ""
    else
      var c := items[|items| - 1];
      ExternalCss(items[..|items| - 1]) + (if ExternalWithContent(c) then ExternalText(c) else "")
  }

  /** The CSS loop of the prompt: inline and external texts accumulated item by item. */
  method CompileCss(items: seq<CssItem>) returns (inline: string, external: string)
    ensures inline == InlineCss(items) && external == ExternalCss(items)
  {
    inline, external := "", "";
    var i := 0;
    while i < |items|
      invariant 0 <= i <= |items|
      invariant inline == InlineCss(items[..i]) && external == ExternalCss(items[..i])
    {
      assert items[..i + 1][..i] == items[..i];
      var item := items[i];
      if item.kind == Some("inline") && item.content.Some? {
        inline := inline + item.content.value + "\n\n";
      } else if item.kind == Some("external") && item.content.Some? {
        external := external + "/* From " + item.url.GetOr("external") + " */\n" + item.content.value + "\n\n";
      }
      i := i + 1;
    }
    assert items[..i] == items;
  }

  const CssBlockLimit: nat := 10000

  /** The CSS the prompt shows: inline first, then external, cut to 10,000 characters. */
  function CssBlock(items: seq<CssItem>): string
  {
    Cap(InlineCss(items) + "\n" + ExternalCss(items), CssBlockLimit)
  }

  /** The block is a prefix of the combined CSS of at most 10,000 characters, and all of it when it fits. */
  lemma {:induction false} CssBlockFacts(items: seq<CssItem>)
    ensures |CssBlock(items)| <= 10000
    ensures StartsWith(InlineCss(items) + "\n" + ExternalCss(items), CssBlock(items))
    ensures |InlineCss(items) + "\n" + ExternalCss(items)| <= 10000 ==>
      CssBlock(items) == InlineCss(items) + "\n" + ExternalCss(items)
  {
    CapFacts(InlineCss(items) + "\n" + ExternalCss(items), CssBlockLimit);
  }

  /** Every inline item's content, with its blank line, is in the inline CSS. */
  lemma {:induction false} InlineCssHoldsContents(items: seq<CssItem>)
    ensures forall i | 0 <= i < |items| && InlineWithContent(items[i]) ::
      Contains(InlineCss(items), items[i].content.value + "\n\n")
  {
    if items != [] {
      var init := items[..|items| - 1];
      var c := items[|items| - 1];
      InlineCssHoldsContents(init);
      var tail := if InlineWithContent(c) then c.content.value + "\n\n" else "";
      assert InlineCss(items) == InlineCss(init) + tail;
      forall i | 0 <= i < |items| && InlineWithContent(items[i])
        ensures Contains(InlineCss(init) + tail, items[i].content.value + "\n\n")
      {
        if i < |init| {
          assert items[i] == init[i];
          ContainsConcat(InlineCss(init), tail, items[i].content.value + "\n\n");
        } else {
          TailContained(InlineCss(init), tail);
        }
      }
    }
  }

  lemma {:induction false} TailContained(a: string, t: string)
    ensures Contains(a + t, t)
  {
    assert OccursAt(a + t, t, |a|);
  }

  /** External items without content, as the scraper records stylesheet links, add nothing. */
  lemma {:induction false} ExternalCssWithoutContent(items: seq<CssItem>)
    requires forall i | 0 <= i < |items| && items[i].kind == Some("external") :: items[i].content.None?
    ensures ExternalCss(items) == ""
  {
    if items != [] {
      ExternalCssWithoutContent(items[..|items| - 1]);
    }
  }

  /** What the prompt is written from. */
  datatype PromptInputs = PromptInputs(
    url: string, html: string, css: string, colors: ColorTiers, fonts: seq<string>, roles: FontRoles)

  /** The selections made from the optimised scrape. */
  function PromptInputsOf(p: Payload): PromptInputs
  {
    var q := Optimized(p);
    PromptInputs(q.url.GetOr(""), q.html.GetOr(""), CssBlock(q.css.GetOr([])),
      ColorTiersOf(q.colors.GetOr([])), FontListOf(q.fonts.GetOr([])), FontRolesOf(q.fonts.GetOr([])))
  }

  /**
   * For the scraper's own dictionary the prompt always gets the default colours
   * and fonts, its CSS block holds only inline styles, and its HTML is the
   * trimmed page.
   */
  lemma {:induction false} ScrapePromptUsesDefaults(url: string, html: string, css: seq<CssItem>, js: seq<Entry>,
                                 assets: map<string, AssetValue>)
    requires forall i | 0 <= i < |css| && css[i].kind == Some("external") :: css[i].content.None?
    ensures var inputs := PromptInputsOf(ScraperPayload(url, html, css, js, assets));
      && inputs.colors == ColorTiers(["#000000", "#ffffff"], ["#cccccc", "#f0f0f0"], ["#3366cc", "#ff9900"])
      && inputs.fonts == ["Arial", "sans-serif"]
      && inputs.roles == FontRoles(DefaultFont, DefaultFont, DefaultFont)
      && inputs.css == Cap(InlineCss(Cap(css, 5)) + "\n", 10000)
      && inputs.html == TrimHtml(html)
  {
    var shown := Cap(css, CssCap);
    CapFacts(css, CssCap);
    assert forall i | 0 <= i < |shown| :: shown[i] == css[i];
    ExternalCssWithoutContent(shown);
  }

  // ---------------------------------------------------------------- repairing the answer

  const Doctype: string := "<!DOCTYPE html>"
  const ViewportMeta: string := "<meta" + " name=\"viewport\" content=\"width=device-width, initial-scale=1.0\">"

  /** The document a bare answer is wrapped in. */
  function Wrapped(text: string): string
  {
    "<!DOCTYPE html>\n<html>\n<head>\n" + ViewportMeta + "\n</head>\n<body>\n" + text + "\n</body>\n</html>"
  }

  /** The answer as it stands, from its first doctype or `<html`, or wrapped. */
  function LocateHtml(text: string): string
  {
    if StartsWith(Strip(text), Doctype) || StartsWith(Strip(text), "<html") then text
    else
      var start := if Find(text, Doctype) != -1 then Find(text, Doctype) else Find(text, "<html");
      if start == -1 then Wrapped(text) else text[start..]
  }

  /** `</html>`, or `</body></html>`, appended to a document that opens but never closes. */
  function CloseTags(h: string): string
  {
    if !Contains(h, "</html>") then
      if Contains(h, "<html") && Contains(h, "</body>") then h + "</html>"
      else if Contains(h, "<html") then h + "</body></html>"
      else h
    else h
  }

  /** The viewport meta added after each `<head>` when the document has no meta tag. */
  function InjectViewport(h: string): string
  {
    if !Contains(h, "<meta") && Contains(h, "<head>") then ReplaceAll(h, "<head>", "<head>\n    " + ViewportMeta)
    else h
  }

  /** A `<body>` opened after each `</head>` when the document has no body tag. */
  function EnsureBody(h: string): string
  {
    if !Contains(h, "<body") && Contains(h, "<html") then ReplaceAll(h, "</head>", "</head>\n<body>")
    else h
  }

  /** The answer before the final reparse. */
  function Repaired(text: string): string
  {
    EnsureBody(InjectViewport(CloseTags(LocateHtml(text))))
  }

  /**
   * `_extract_html_from_response`: the repaired answer, passed through the HTML
   * parser; `reparse` is the parser's serialisation, `None` where it raises, in
   * which case the repaired text is kept.
   */
  function ExtractHtml(text: string, reparse: string -> Option<string>): (r: string)
    ensures reparse(Repaired(text)).None? ==> r == Repaired(text)
  {
    var h := Repaired(text);
    match reparse(h)
    case Some(parsed) => parsed
    case None => h
  }

  /** What is found at the start of a stripped string is found in the string. */
  lemma {:induction false} StrippedStartFound(text: string, p: string)
    requires StartsWith(Strip(text), p)
    ensures Contains(text, p)
  {
    StripSetTrimmed(text, Whitespace);
    var r := Strip(text);
    var i :| 0 <= i <= |text| - |r| && OccursAt(text, r, i);
    ContainsAt(text, r, i);
    ContainsPrefix(r, p);
    ContainsTransitive(text, r, p);
  }

  /**
   * An answer with neither a doctype nor `<html` is wrapped whole; otherwise it
   * is kept from the start, or from its first doctype, or failing that from its
   * first `<html`. Either way the located document holds a doctype or `<html`.
   */
  lemma {:induction false} LocateHtmlCases(text: string)
    ensures !Contains(text, Doctype) && !Contains(text, "<html") ==> LocateHtml(text) == Wrapped(text)
    ensures Contains(text, Doctype) ==>
      LocateHtml(text) == text || LocateHtml(text) == text[Find(text, Doctype)..]
    ensures !Contains(text, Doctype) && Contains(text, "<html") ==>
      LocateHtml(text) == text || LocateHtml(text) == text[Find(text, "<html")..]
    ensures Contains(LocateHtml(text), Doctype) || Contains(LocateHtml(text), "<html")
  {
    if StartsWith(Strip(text), Doctype) || StartsWith(Strip(text), "<html") {
      LocateKept(text);
    } else {
      LocateFound(text);
    }
  }

  /** An answer starting with a marker, once stripped, is kept whole and contains that marker. */
  lemma {:induction false} LocateKept(text: string)
    requires StartsWith(Strip(text), Doctype) || StartsWith(Strip(text), "<html")
    ensures LocateHtml(text) == text
    ensures Contains(text, Doctype) || Contains(text, "<html")
  {
    if StartsWith(Strip(text), Doctype) {
      StrippedStartFound(text, Doctype);
    } else {
      StrippedStartFound(text, "<html");
    }
  }

  /** Otherwise the answer is cut at its first doctype, or its first `<html`, or wrapped. */
  lemma {:induction false} LocateFound(text: string)
    requires !(StartsWith(Strip(text), Doctype) || StartsWith(Strip(text), "<html"))
    ensures Contains(text, Doctype) ==> LocateHtml(text) == text[Find(text, Doctype)..]
    ensures !Contains(text, Doctype) && Contains(text, "<html") ==> LocateHtml(text) == text[Find(text, "<html")..]
    ensures !Contains(text, Doctype) && !Contains(text, "<html") ==> LocateHtml(text) == Wrapped(text)
    ensures Contains(LocateHtml(text), Doctype) || Contains(LocateHtml(text), "<html")
  {
    var r := LocateHtml(text);
    if Find(text, Doctype) != -1 {
      assert OccursAt(r, Doctype, 0);
    } else if Find(text, "<html") != -1 {
      assert OccursAt(r, "<html", 0);
    } else {
      assert OccursAt(Wrapped(text), Doctype, 0);
    }
  }

  /** A bare answer (no doctype, no `<html`) is repaired into exactly the wrapper, which the later steps leave alone. */
  lemma {:induction false} RepairedBareIsWrapped(text: string)
    requires !Contains(text, Doctype) && !Contains(text, "<html")
    ensures Repaired(text) == Wrapped(text)
  {
    LocateHtmlCases(text);
    var pre := "<!DOCTYPE html>\n<html>\n<head>\n";
    var head := pre + ViewportMeta + "\n</head>\n<body>\n";
    var w := Wrapped(text);
    assert w == head + text + "\n</body>\n</html>";
    assert OccursAt(w, "</html>", |w| - 7);
    assert ViewportMeta[..5] == "<meta";
    assert w[|pre|..|pre| + 5] == ViewportMeta[..5];
    assert OccursAt(w, "<meta", |pre|);
    assert OccursAt(w, "<body", |head| - 7);
  }

  /**
   * Closing only appends, and afterwards a document that opens `<html` also
   * closes it; a closed document is left alone.
   */
  lemma {:induction false} CloseTagsFacts(h: string)
    ensures StartsWith(CloseTags(h), h)
    ensures Contains(h, "<html") ==> Contains(CloseTags(h), "</html>")
    ensures Contains(h, "</html>") || !Contains(h, "<html") ==> CloseTags(h) == h
    ensures !Contains(h, "</html>") && Contains(h, "<html") && !Contains(h, "</body>") ==>
      Contains(CloseTags(h), "</body>")
  {
    var r := CloseTags(h);
    if r != h {
      assert r[..|h|] == h;
      if Contains(h, "</body>") {
        assert OccursAt(r, "</html>", |h|);
      } else {
        assert OccursAt(r, "</html>", |h| + 7);
        assert OccursAt(r, "</body>", |h|);
      }
    }
  }

  /**
   * The viewport meta is added only to a document with `<head>` and no meta tag,
   * and such a document then holds it.
   */
  lemma {:induction false} InjectViewportFacts(h: string)
    ensures InjectViewport(h) != h ==> !Contains(h, "<meta") && Contains(h, "<head>")
    ensures !Contains(h, "<meta") && Contains(h, "<head>") ==> Contains(InjectViewport(h), ViewportMeta)
  {
    if !Contains(h, "<meta") && Contains(h, "<head>") {
      var rep := "<head>\n    " + ViewportMeta;
      ReplaceAllPresent(h, "<head>", rep);
      assert OccursAt(ViewportMeta, ViewportMeta, 0);
      ContainsConcat("<head>\n    ", ViewportMeta, ViewportMeta);
      ContainsTransitive(InjectViewport(h), rep, ViewportMeta);
    }
  }

  /**
   * A body is opened only in a document with `<html`, `</head>` and no body
   * tag, and such a document then holds one.
   */
  lemma {:induction false} EnsureBodyFacts(h: string)
    ensures EnsureBody(h) != h ==> !Contains(h, "<body") && Contains(h, "<html") && Contains(h, "</head>")
    ensures !Contains(h, "<body") && Contains(h, "<html") && Contains(h, "</head>") ==>
      Contains(EnsureBody(h), "<body>")
  {
    if !Contains(h, "<body") && Contains(h, "<html") {
      if Contains(h, "</head>") {
        var rep := "</head>\n<body>";
        ReplaceAllPresent(h, "</head>", rep);
        assert OccursAt(rep, "<body>", 8);
        ContainsTransitive(EnsureBody(h), rep, "<body>");
      } else {
        ReplaceAllAbsent(h, "</head>", "</head>\n<body>");
      }
    }
  }

  // ---------------------------------------------------------------- reporting a failed call

  // Each text is written as its first word followed by the rest, which lets the proofs read the first word.
  const QuotaDetails: string := "Quota" + " exceeded or rate limit reached. Please try again later or upgrade your API plan."
  const AuthDetails: string := "Authentication" + " error. Please check your API key or service account credentials."
  const ConfigDetails: string :=
    "Authentication" + " configuration error: client_options.api_key and credentials are mutually exclusive"
  const FailurePrefix: string := "Failed to generate content: "
  const TimeoutMessage: string := "API call timed out. The request may be too complex or the model may be overloaded."

  predicate QuotaError(msg: string)
  {
    Contains(msg, "429") || Contains(Lower(msg), "quota") || Contains(Lower(msg), "rate limit")
  }

  predicate AuthError(msg: string)
  {
    || Contains(msg, "403") || Contains(Lower(msg), "authentication")
    || Contains(Lower(msg), "permission") || Contains(Lower(msg), "denied")
  }

  predicate ConfigError(msg: string)
  {
    Contains(Lower(msg), "mutually exclusive")
  }

  /** The explanation reported for a raised error message. */
  function ErrorDetails(msg: string): (d: string)
    ensures d == QuotaDetails || d == AuthDetails || d == ConfigDetails || d == msg
  {
    if QuotaError(msg) then QuotaDetails
    else if AuthError(msg) then AuthDetails
    else if ConfigError(msg) then ConfigDetails
    else msg
  }

  /** The `error` text of a failed generation. */
  function ErrorReport(msg: string): (r: string)
    ensures StartsWith(r, FailurePrefix)
  {
    FailurePrefix + ErrorDetails(msg)
  }

  lemma {:induction false} LowerPrefix(s: string, n: nat)
    requires n <= |s|
    ensures Lower(s)[..n] == Lower(s[..n])
  {
  }

  /** The fixed texts name their own category. */
  lemma DetailsNameTheirCategory()
    ensures QuotaError(QuotaDetails) && AuthError(AuthDetails) && AuthError(ConfigDetails)
  {
    LowerPrefix(QuotaDetails, 5);
    assert QuotaDetails[..5] == "Quota";
    assert Lower("Quota") == "quota";
    assert OccursAt(Lower(QuotaDetails), "quota", 0);
    LowerPrefix(AuthDetails, 14);
    LowerPrefix(ConfigDetails, 14);
    assert AuthDetails[..14] == ConfigDetails[..14] == "Authentication";
    assert Lower("Authentication") == "authentication";
    assert OccursAt(Lower(AuthDetails), "authentication", 0);
    assert OccursAt(Lower(ConfigDetails), "authentication", 0);
  }

  /**
   * The categories are tried in order: a message is reported as a quota problem
   * exactly when it mentions one, as an authentication problem exactly when it
   * mentions one and no quota problem, as the configuration clash exactly when
   * it mentions that alone, and a message mentioning none is passed on as it is.
   */
  lemma {:induction false} ErrorCategories(msg: string)
    ensures ErrorDetails(msg) == QuotaDetails <==> QuotaError(msg)
    ensures ErrorDetails(msg) == AuthDetails <==> !QuotaError(msg) && AuthError(msg)
    ensures ErrorDetails(msg) == ConfigDetails <==> !QuotaError(msg) && !AuthError(msg) && ConfigError(msg)
    ensures !QuotaError(msg) && !AuthError(msg) && !ConfigError(msg) ==> ErrorReport(msg) == FailurePrefix + msg
  {
    DetailsNameTheirCategory();
    assert QuotaDetails != AuthDetails && QuotaDetails != ConfigDetails && AuthDetails != ConfigDetails;
  }

  /** What the model call gives back: its text, a raised error's message, or the 60-second timeout. */
  datatype Generation = Generated(text: string) | Raised(message: string) | TimedOut

  /** The dictionary `clone_website` returns. */
  datatype CloneResult =
    | Cloned(url: string, clonedHtml: string, originalUrl: string, cloningMethod: string,
             originalStructure: map<string, string>)
    | CloneError(error: string)

  /** The outcome of one generation; a timeout is raised as a message and reported like any other. */
  function CloneOutcome(p: Payload, g: Generation, reparse: string -> Option<string>): (r: CloneResult)
    ensures g.Generated? <==> r.Cloned?
    ensures r.CloneError? ==> StartsWith(r.error, FailurePrefix)
    ensures g.TimedOut? ==> r == CloneError(ErrorReport(TimeoutMessage))
  {
    match g
    case Generated(text) =>
      var url := p.url.GetOr("");
      Cloned(url, ExtractHtml(text, reparse), url, "gemini-2.5-pro", p.structure.GetOr(map[]))
    case Raised(m) => CloneError(ErrorReport(m))
    case TimedOut => CloneError(ErrorReport(TimeoutMessage))
  }

  /**
   * `clone_website`: build the prompt (optimising the scrape in place), ask the
   * model, and report. `promptFailure` is an exception raised while the prompt
   * is built, reported bare; `generate` stands for the model.
   */
  method CloneWebsite(data: ScrapeData, promptFailure: Option<string>, generate: PromptInputs -> Generation,
                      reparse: string -> Option<string>) returns (r: CloneResult)
    modifies data
    ensures data.Contents() == Optimized(old(data.Contents()))
    ensures promptFailure.Some? ==> r == CloneError(promptFailure.value)
    ensures promptFailure.None? ==>
      r == CloneOutcome(old(data.Contents()), generate(PromptInputsOf(old(data.Contents()))), reparse)
  {
    var inputs := data.CreatePromptInputs();
    if promptFailure.Some? {
      return CloneError(promptFailure.value);
    }
    var g := generate(inputs);
    match g {
      case Generated(text) =>
        var url := data.url.GetOr("");
        r := Cloned(url, ExtractHtml(text, reparse), url, "gemini-2.5-pro", data.structure.GetOr(map[]));
      case Raised(m) =>
        r := CloneError(FailurePrefix + ErrorDetails(m));
      case TimedOut =>
        r := CloneError(FailurePrefix + ErrorDetails(TimeoutMessage));
    }
  }

  // ---------------------------------------------------------------- truncation

  const TruncationNote: string := "\n<!-- HTML truncated due to length -->"

  /**
   * `_truncate_html`: HTML within `maxLength` is returned as it is; longer HTML
   * is cut to `maxLength` and reparsed, with the note appended when the parser
   * raises.
   */
  function TruncateHtml(html: string, maxLength: nat, reparse: string -> Option<string>): string
  {
    if |html| <= maxLength then html
    else
      match reparse(html[..maxLength])
      case Some(parsed) => parsed
      case None => html[..maxLength] + TruncationNote
  }

  /** Short HTML is untouched; without the parser, long HTML keeps exactly its first `maxLength` characters and ends with the note. */
  lemma {:induction false} TruncateHtmlFacts(html: string, maxLength: nat, reparse: string -> Option<string>)
    ensures |html| <= maxLength ==> TruncateHtml(html, maxLength, reparse) == html
    ensures |html| > maxLength && reparse(html[..maxLength]).None? ==>
      var r := TruncateHtml(html, maxLength, reparse);
      && |r| == maxLength + |TruncationNote|
      && StartsWith(r, html[..maxLength])
      && EndsWith(r, TruncationNote)
  {
  }
}
