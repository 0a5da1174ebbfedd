/**
 * `_catalog_assets` and `_estimate_size_category` (backend/app/scraper.py):
 * the inventory of images, icons, inline SVGs, video and audio sources, font
 * files and downloadable documents of a page.
 */
module Assets {
  import opened Wrappers
  import opened Strings
  import opened Dom

  // ---------------------------------------------------------------- size category

  datatype SizeCategory = Unknown | Icon | Thumbnail | Medium | Large | ExtraLarge

  /** The bands in increasing order of area; `Unknown` sits outside the order. */
  function BandRank(c: SizeCategory): nat
  {
    match c
    case Unknown => 0
    case Icon => 1
    case Thumbnail => 2
    case Medium => 3
    case Large => 4
    case ExtraLarge => 5
  }

  /** The band of a pixel area. */
  function AreaCategory(area: int): SizeCategory
  {
    if area == 0 then Unknown
    else if area <= 1024 then Icon
    else if area <= 40000 then Thumbnail
    else if area <= 250000 then Medium
    else if area <= 1000000 then Large
    else ExtraLarge
  }

  /** `int(v) if v else 0`, with `None` where `int` raises. */
  function Dimension(v: Option<string>): Option<int>
  {
    if Truthy(v) then ParseInt(v.value) else Some(0)
  }

  /** `_estimate_size_category(width, height)`. */
  function EstimateSizeCategory(width: Option<string>, height: Option<string>): SizeCategory
  {
    var w := Dimension(width);
    var h := Dimension(height);
    if w.None? || h.None? then Unknown else AreaCategory(w.value * h.value)
  }

  /** A larger positive area never falls in a smaller band. */
  lemma {:induction false} AreaCategoryMonotone(a1: int, a2: int)
    requires 0 < a1 <= a2
    ensures 1 <= BandRank(AreaCategory(a1)) <= BandRank(AreaCategory(a2))
  {
  }

  /**
   * The category is unknown exactly when a dimension does not parse as an
   * integer, or one of them is missing, empty or zero.
   */
  lemma {:induction false} EstimateSizeCategoryUnknown(width: Option<string>, height: Option<string>)
    ensures EstimateSizeCategory(width, height) == Unknown <==>
      || Dimension(width).None? || Dimension(height).None?
      || Dimension(width).value == 0 || Dimension(height).value == 0
  {
    var w, h := Dimension(width), Dimension(height);
    if w.Some? && h.Some? && w.value != 0 && h.value != 0 {
      ProductNonZero(w.value, h.value);
    }
  }

  lemma {:induction false} ProductNonZero(a: int, b: int)
    requires a != 0 && b != 0
    ensures a * b != 0
  {
    var x: nat := if a > 0 then a else -a;
    var y: nat := if b > 0 then b else -b;
    PositiveProduct(x, y);
    assert a * b == x * y || a * b == -(x * y);
  }

  lemma {:induction false} PositiveProduct(a: nat, b: nat)
    requires a > 0 && b > 0
    ensures a * b > 0
  {
    if a > 1 {
      PositiveProduct(a - 1, b);
      assert a * b == (a - 1) * b + b;
    }
  }

  // ---------------------------------------------------------------- classification

  const IconTerms: seq<string> := ["icon", "logo", "avatar", "symbol"]

  /** Both dimensions present, both integers, and neither above 64. */
  predicate SmallBySize(e: Element)
  {
    var w := Attr(e, "width");
    var h := Attr(e, "height");
    && Truthy(w) && Truthy(h)
    && ParseInt(w.value).Some? && ParseInt(h.value).Some?
    && ParseInt(w.value).value <= 64 && ParseInt(h.value).value <= 64
  }

  /** An image is filed as an icon when it is small by its attributes or a class names an icon-like role. */
  predicate IsIconImage(e: Element)
  {
    SmallBySize(e) || ClassMentions(e, IconTerms)
  }

  /** An `img` with a non-empty `src`: the images the catalog records. */
  predicate IsSourcedImage(e: Element)
  {
    e.tag == "img" && Truthy(Attr(e, "src"))
  }

  datatype SvgPurpose = IconSvg | Illustration | UnknownPurpose

  /** Icon-like classes win over illustration-like ones. */
  function SvgPurposeOf(e: Element): (p: SvgPurpose)
    ensures p == IconSvg <==> ClassMentions(e, ["icon", "logo", "symbol"])
    ensures p == Illustration <==>
      !ClassMentions(e, ["icon", "logo", "symbol"]) && ClassMentions(e, ["illustration", "diagram", "chart"])
  {
    if e.classes == [] then UnknownPurpose
    else if ClassMentions(e, ["icon", "logo", "symbol"]) then IconSvg
    else if ClassMentions(e, ["illustration", "diagram", "chart"]) then Illustration
    else UnknownPurpose
  }

  const MediaExtensions: seq<string> := ["pdf", "doc", "docx", "xls", "xlsx", "ppt", "pptx", "zip", "rar"]

  /** The lower-cased link ends with a dot and one of the document extensions. */
  predicate HasMediaExtension(href: string)
  {
    exists ext | ext in MediaExtensions :: EndsWith(Lower(href), "." + ext)
  }

  /** `href.split('.')[-1].lower()`. */
  function MediaType(href: string): string
  {
    Lower(LastPart(href, '.'))
  }

  /** The type recorded for a document link is the extension that admitted it. */
  lemma {:induction false} MediaTypeIsExtension(href: string)
    requires HasMediaExtension(href)
    ensures MediaType(href) in MediaExtensions
    ensures EndsWith(Lower(href), "." + MediaType(href))
  {
    var ext :| ext in MediaExtensions && EndsWith(Lower(href), "." + ext);
    assert forall i | 0 <= i < |ext| :: ext[i] != '.';
    LowerLastPart(href, ext);
  }

  /** When the lower-cased text ends with a dot and a dot-free tail, its last dot-part lowers to that tail. */
  lemma {:induction false} LowerLastPart(href: string, ext: string)
    requires EndsWith(Lower(href), "." + ext)
    requires forall i | 0 <= i < |ext| :: ext[i] != '.'
    ensures Lower(LastPart(href, '.')) == ext
  {
    var n := |href| - |ext| - 1;
    var low := Lower(href);
    assert low[n..] == "." + ext;
    var a, t := href[..n], href[n + 1..];
    assert low[n] == '.';
    assert href == a + ['.'] + t;
    forall i | 0 <= i < |t| ensures LowerChar(t[i]) == ext[i] {
      assert low[n + 1 + i] == ext[i];
    }
    assert '.' !in t by {
      forall i | 0 <= i < |t| ensures t[i] != '.' {
        assert LowerChar(t[i]) == ext[i];
      }
    }
    LastPartAfterSep(a, t, '.');
  }

  /** `font_url.split('.')[-1] if '.' in font_url else "unknown"`. */
  function FontFormat(url: string): string
  {
    if '.' in url then LastPart(url, '.') else "unknown"
  }

  // ---------------------------------------------------------------- records

  datatype ImageInfo = ImageInfo(
    url: string, altText: string, width: Option<string>, height: Option<string>,
    loading: string, classes: seq<string>, elementPath: string, sizeCategory: SizeCategory)

  datatype SvgInfo = SvgInfo(
    purpose: SvgPurpose, width: Option<string>, height: Option<string>, viewBox: Option<string>,
    classes: seq<string>, elementPath: string)

  datatype VideoInfo = VideoInfo(
    url: string, mediaType: string, controls: bool, autoplay: bool, muted: bool, loop: bool, elementPath: string)

  datatype AudioInfo = AudioInfo(url: string, mediaType: string, controls: bool, autoplay: bool, elementPath: string)

  datatype FontSource = FontFace | GoogleFonts

  datatype FontFile = FontFile(url: string, source: FontSource, format: string)

  datatype MediaLink = MediaLink(url: string, mediaType: string, text: string, elementPath: string)

  datatype Summary = Summary(
    images: nat, icons: nat, svgs: nat, videos: nat, audio: nat, fonts: nat, otherMedia: nat, all: nat)

  datatype Catalog = Catalog(
    images: seq<ImageInfo>, icons: seq<ImageInfo>, svgs: seq<SvgInfo>, videos: seq<VideoInfo>,
    audio: seq<AudioInfo>, fonts: seq<FontFile>, otherMedia: seq<MediaLink>, summary: Summary)

  predicate HasAttr(e: Element, name: string)
  {
    name in e.attrs
  }

  function ImageInfoOf(l: Located, resolve: string -> string): ImageInfo
    requires IsSourcedImage(l.element)
  {
    var e := l.element;
    ImageInfo(resolve(Attr(e, "src").value), Attr(e, "alt").GetOr(""), Attr(e, "width"), Attr(e, "height"),
      Attr(e, "loading").GetOr("eager"), e.classes, PathOf(l),
      EstimateSizeCategory(Attr(e, "width"), Attr(e, "height")))
  }

  // ---------------------------------------------------------------- what each pass collects

  /** The records the image pass files under icons (`icons`) or under images (`!icons`). */
  function ImagesOf(ls: seq<Located>, resolve: string -> string, icons: bool): seq<ImageInfo>
  {
    if ls == [] then []
    else
      var l := ls[|ls| - 1];
      ImagesOf(ls[..|ls| - 1], resolve, icons)
        + (if IsSourcedImage(l.element) && IsIconImage(l.element) == icons then [ImageInfoOf(l, resolve)] else [])
  }

  function SvgsOf(ls: seq<Located>): seq<SvgInfo>
  {
    if ls == [] then []
    else
      var e := ls[|ls| - 1].element;
      SvgsOf(ls[..|ls| - 1])
        + (if e.tag == "svg"
           then [SvgInfo(SvgPurposeOf(e), Attr(e, "width"), Attr(e, "height"), Attr(e, "viewBox"), e.classes, PathOf(ls[|ls| - 1]))]
           else [])
  }

  /** A `video` or `source` with a non-empty `src`. */
  predicate IsVideoSource(e: Element)
  {
    e.tag in ["video", "source"] && Truthy(Attr(e, "src"))
  }

  function VideosOf(ls: seq<Located>, resolve: string -> string): seq<VideoInfo>
  {
    if ls == [] then []
    else
      var l := ls[|ls| - 1];
      var e := l.element;
      VideosOf(ls[..|ls| - 1], resolve)
        + (if IsVideoSource(e)
           then [VideoInfo(resolve(Attr(e, "src").value), Attr(e, "type").GetOr(""), HasAttr(e, "controls"),
                           HasAttr(e, "autoplay"), HasAttr(e, "muted"), HasAttr(e, "loop"), PathOf(l))]
           else [])
  }

  /** An `audio`, or a `source` whose parent is an `audio`, with a non-empty `src`. */
  predicate IsAudioSource(l: Located)
  {
    var e := l.element;
    && (e.tag == "audio" || (e.tag == "source" && |l.ancestors| > 0 && l.ancestors[0].tag == "audio"))
    && Truthy(Attr(e, "src"))
  }

  function AudioOf(ls: seq<Located>, resolve: string -> string): seq<AudioInfo>
  {
    if ls == [] then []
    else
      var l := ls[|ls| - 1];
      var e := l.element;
      AudioOf(ls[..|ls| - 1], resolve)
        + (if IsAudioSource(l)
           then
             // a `source` reports the playback flags of its `audio` parent
             var owner := if e.tag == "audio" then e else l.ancestors[0];
             [AudioInfo(resolve(Attr(e, "src").value), Attr(e, "type").GetOr(""),
                        HasAttr(owner, "controls"), HasAttr(owner, "autoplay"), PathOf(l))]
           else [])
  }

  /** A `<source>` with a `src` inside an `<audio>` is listed among the videos and among the audio. */
  lemma {:induction false} AudioSourceListedTwice(l: Located, resolve: string -> string)
    requires l.element.tag == "source" && |l.ancestors| > 0 && l.ancestors[0].tag == "audio"
    requires Truthy(Attr(l.element, "src"))
    ensures |VideosOf([l], resolve)| == 1 && |AudioOf([l], resolve)| == 1
    ensures VideosOf([l], resolve)[0].url == AudioOf([l], resolve)[0].url
  {
    assert [l][..0] == [];
  }

  function FontFaceFiles(urls: seq<string>, resolve: string -> string): seq<FontFile>
  {
    if urls == [] then []
    else
      var u := urls[|urls| - 1];
      FontFaceFiles(urls[..|urls| - 1], resolve) + [FontFile(resolve(u), FontFace, FontFormat(u))]
  }

  /** A stylesheet link to Google Fonts is recorded with its `href` as written. */
  function GoogleFontFiles(ls: seq<Located>): seq<FontFile>
  {
    if ls == [] then []
    else
      var e := ls[|ls| - 1].element;
      var href := Attr(e, "href").GetOr("");
      GoogleFontFiles(ls[..|ls| - 1])
        + (if IsStylesheetLink(e) && Contains(href, "fonts.googleapis.com") then [FontFile(href, GoogleFonts, "css")] else [])
  }

  /** An `a` whose `href` names a document file. */
  predicate IsMediaLink(e: Element)
  {
    e.tag == "a" && Truthy(Attr(e, "href")) && HasMediaExtension(Attr(e, "href").value)
  }

  function MediaOf(ls: seq<Located>, resolve: string -> string): seq<MediaLink>
  {
    if ls == [] then []
    else
      var l := ls[|ls| - 1];
      var e := l.element;
      MediaOf(ls[..|ls| - 1], resolve)
        + (if IsMediaLink(e)
           then [MediaLink(resolve(Attr(e, "href").value), MediaType(Attr(e, "href").value), GetText(e), PathOf(l))]
           else [])
  }

  // ---------------------------------------------------------------- properties of the passes

  /** The number of sourced images among the listed elements. */
  function SourcedImageCount(ls: seq<Located>): nat
  {
    if ls == [] then 0
    else SourcedImageCount(ls[..|ls| - 1]) + (if IsSourcedImage(ls[|ls| - 1].element) then 1 else 0)
  }

  /** Every sourced image lands in exactly one of the two lists. */
  lemma {:induction false} ImagesPartition(ls: seq<Located>, resolve: string -> string)
    ensures |ImagesOf(ls, resolve, false)| + |ImagesOf(ls, resolve, true)| == SourcedImageCount(ls)
  {
    if ls != [] {
      ImagesPartition(ls[..|ls| - 1], resolve);
    }
  }

  /** Every image filed as an icon is icon-like, every image filed under images is not, and each comes from the page. */
  lemma {:induction false} ImagesClassified(ls: seq<Located>, resolve: string -> string, icons: bool)
    ensures forall i | 0 <= i < |ImagesOf(ls, resolve, icons)| ::
      exists l | l in ls ::
        && IsSourcedImage(l.element)
        && IsIconImage(l.element) == icons
        && ImagesOf(ls, resolve, icons)[i] == ImageInfoOf(l, resolve)
  {
    if ls != [] {
      var init := ls[..|ls| - 1];
      ImagesClassified(init, resolve, icons);
      var last := ls[|ls| - 1];
      var tail := if IsSourcedImage(last.element) && IsIconImage(last.element) == icons then [ImageInfoOf(last, resolve)] else [];
      assert ImagesOf(ls, resolve, icons) == ImagesOf(init, resolve, icons) + tail;
      forall i | 0 <= i < |ImagesOf(ls, resolve, icons)|
        ensures exists l | l in ls ::
          && IsSourcedImage(l.element)
          && IsIconImage(l.element) == icons
          && ImagesOf(ls, resolve, icons)[i] == ImageInfoOf(l, resolve)
      {
        if i < |ImagesOf(init, resolve, icons)| {
          var l :| l in init && IsSourcedImage(l.element) && IsIconImage(l.element) == icons
            && ImagesOf(init, resolve, icons)[i] == ImageInfoOf(l, resolve);
          assert l in ls;
        } else {
          assert last in ls;
        }
      }
    } else {
      assert ImagesOf(ls, resolve, icons) == [];
    }
  }

  // ---------------------------------------------------------------- the catalog

  function SummaryOf(images: seq<ImageInfo>, icons: seq<ImageInfo>, svgs: seq<SvgInfo>, videos: seq<VideoInfo>,
                     audio: seq<AudioInfo>, fonts: seq<FontFile>, media: seq<MediaLink>): (s: Summary)
    ensures s.all == s.images + s.icons + s.svgs + s.videos + s.audio + s.fonts + s.otherMedia
  {
    Summary(|images|, |icons|, |svgs|, |videos|, |audio|, |fonts|, |media|,
      |images| + |icons| + |svgs| + |videos| + |audio| + |fonts| + |media|)
  }

  /**
   * The catalog passes, in the source's order, each a loop over the document's
   * elements. `resolve` stands for `urljoin(base_url, ·)`; `fontFaceUrls` are the
   * `url('…')` captures of the `@font-face` rules of the style tags, in order.
   */
  method CatalogAssets(doc: Element, resolve: string -> string, fontFaceUrls: seq<string>) returns (c: Catalog)
    ensures c.images == ImagesOf(AllElements(doc), resolve, false)
    ensures c.icons == ImagesOf(AllElements(doc), resolve, true)
    ensures c.svgs == SvgsOf(AllElements(doc))
    ensures c.videos == VideosOf(AllElements(doc), resolve)
    ensures c.audio == AudioOf(AllElements(doc), resolve)
    ensures c.fonts == FontFaceFiles(fontFaceUrls, resolve) + GoogleFontFiles(AllElements(doc))
    ensures c.otherMedia == MediaOf(AllElements(doc), resolve)
    ensures c.summary == SummaryOf(c.images, c.icons, c.svgs, c.videos, c.audio, c.fonts, c.otherMedia)
  {
    var all := AllElements(doc);
    var images, icons := ImagePass(all, resolve);
    var svgs := SvgPass(all);
    var videos := VideoPass(all, resolve);
    var audio := AudioPass(all, resolve);
    var fonts := FontPass(all, resolve, fontFaceUrls);
    var media := MediaPass(all, resolve);
    c := Catalog(images, icons, svgs, videos, audio, fonts, media,
      SummaryOf(images, icons, svgs, videos, audio, fonts, media));
  }

  method ImagePass(all: seq<Located>, resolve: string -> string) returns (images: seq<ImageInfo>, icons: seq<ImageInfo>)
    ensures images == ImagesOf(all, resolve, false) && icons == ImagesOf(all, resolve, true)
  {
    images, icons := [], [];
    var i := 0;
    while i < |all|
      invariant 0 <= i <= |all|
      invariant images == ImagesOf(all[..i], resolve, false) && icons == ImagesOf(all[..i], resolve, true)
    {
      assert all[..i + 1][..i] == all[..i];
      var img := all[i].element;
      if img.tag == "img" && Truthy(Attr(img, "src")) {
        var isIcon := false;
        var width, height := Attr(img, "width"), Attr(img, "height");
        if Truthy(width) && Truthy(height) {
          var w, h := ParseInt(width.value), ParseInt(height.value);
          if w.Some? && h.Some? {
            isIcon := w.value <= 64 && h.value <= 64;
          }
        }
        if !isIcon && img.classes != [] {
          isIcon := ClassMentions(img, IconTerms);
        }
        var info := ImageInfoOf(all[i], resolve);
        if isIcon {
          icons := icons + [info];
        } else {
          images := images + [info];
        }
      }
      i := i + 1;
    }
    assert all[..i] == all;
  }

  method SvgPass(all: seq<Located>) returns (svgs: seq<SvgInfo>)
    ensures svgs == SvgsOf(all)
  {
    svgs := [];
    var i := 0;
    while i < |all|
      invariant 0 <= i <= |all|
      invariant svgs == SvgsOf(all[..i])
    {
      assert all[..i + 1][..i] == all[..i];
      var svg := all[i].element;
      if svg.tag == "svg" {
        var purpose := SvgPurposeOf(svg);
        svgs := svgs + [SvgInfo(purpose, Attr(svg, "width"), Attr(svg, "height"), Attr(svg, "viewBox"), svg.classes, PathOf(all[i]))];
      }
      i := i + 1;
    }
    assert all[..i] == all;
  }

  method VideoPass(all: seq<Located>, resolve: string -> string) returns (videos: seq<VideoInfo>)
    ensures videos == VideosOf(all, resolve)
  {
    videos := [];
    var i := 0;
    while i < |all|
      invariant 0 <= i <= |all|
      invariant videos == VideosOf(all[..i], resolve)
    {
      assert all[..i + 1][..i] == all[..i];
      var video := all[i].element;
      if video.tag in ["video", "source"] {
        var src := Attr(video, "src");
        if Truthy(src) {
          videos := videos + [VideoInfo(resolve(src.value), Attr(video, "type").GetOr(""), HasAttr(video, "controls"),
            HasAttr(video, "autoplay"), HasAttr(video, "muted"), HasAttr(video, "loop"), PathOf(all[i]))];
        }
      }
      i := i + 1;
    }
    assert all[..i] == all;
  }

  method AudioPass(all: seq<Located>, resolve: string -> string) returns (audio: seq<AudioInfo>)
    ensures audio == AudioOf(all, resolve)
  {
    audio := [];
    var i := 0;
    while i < |all|
      invariant 0 <= i <= |all|
      invariant audio == AudioOf(all[..i], resolve)
    {
      assert all[..i + 1][..i] == all[..i];
      var l := all[i];
      var a := l.element;
      var skip := a.tag == "source" && !(|l.ancestors| > 0 && l.ancestors[0].tag == "audio");
      if a.tag in ["audio", "source"] && !skip {
        var src := Attr(a, "src");
        if Truthy(src) {
          var owner := if a.tag == "audio" then a else l.ancestors[0];
          audio := audio + [AudioInfo(resolve(src.value), Attr(a, "type").GetOr(""),
            HasAttr(owner, "controls"), HasAttr(owner, "autoplay"), PathOf(l))];
        }
      }
      i := i + 1;
    }
    assert all[..i] == all;
  }

  method FontPass(all: seq<Located>, resolve: string -> string, fontFaceUrls: seq<string>) returns (fonts: seq<FontFile>)
    ensures fonts == FontFaceFiles(fontFaceUrls, resolve) + GoogleFontFiles(all)
  {
    var faces := FontFacePass(resolve, fontFaceUrls);
    var linked := GoogleFontPass(all);
    fonts := faces + linked;
  }

  /** The `@font-face` loop: one record per URL, in order. */
  method FontFacePass(resolve: string -> string, fontFaceUrls: seq<string>) returns (fonts: seq<FontFile>)
    ensures fonts == FontFaceFiles(fontFaceUrls, resolve)
  {
    fonts := [];
    var j := 0;
    while j < |fontFaceUrls|
      invariant 0 <= j <= |fontFaceUrls|
      invariant fonts == FontFaceFiles(fontFaceUrls[..j], resolve)
    {
      assert fontFaceUrls[..j + 1][..j] == fontFaceUrls[..j];
      var u := fontFaceUrls[j];
      fonts := fonts + [FontFile(resolve(u), FontFace, FontFormat(u))];
      j := j + 1;
    }
    assert fontFaceUrls[..j] == fontFaceUrls;
  }

  /** The stylesheet-link loop: one record per Google Fonts link, in document order. */
  method GoogleFontPass(all: seq<Located>) returns (fonts: seq<FontFile>)
    ensures fonts == GoogleFontFiles(all)
  {
    fonts := [];
    var i := 0;
    while i < |all|
      invariant 0 <= i <= |all|
      invariant fonts == GoogleFontFiles(all[..i])
    {
      GoogleFontFilesStep(all, i);
      var link := all[i].element;
      if IsStylesheetLink(link) {
        var href := Attr(link, "href").GetOr("");
        if Contains(href, "fonts.googleapis.com") {
          fonts := fonts + [FontFile(href, GoogleFonts, "css")];
        }
      }
      i := i + 1;
    }
    assert all[..i] == all;
  }

  lemma {:induction false} GoogleFontFilesStep(ls: seq<Located>, i: nat)
    requires i < |ls|
    ensures var e := ls[i].element;
      var href := Attr(e, "href").GetOr("");
      GoogleFontFiles(ls[..i + 1]) == GoogleFontFiles(ls[..i])
        + (if IsStylesheetLink(e) && Contains(href, "fonts.googleapis.com") then [FontFile(href, GoogleFonts, "css")] else [])
  {
    assert ls[..i + 1][..i] == ls[..i];
  }

  method MediaPass(all: seq<Located>, resolve: string -> string) returns (media: seq<MediaLink>)
    ensures media == MediaOf(all, resolve)
  {
    media := [];
    var i := 0;
    while i < |all|
      invariant 0 <= i <= |all|
      invariant media == MediaOf(all[..i], resolve)
    {
      assert all[..i + 1][..i] == all[..i];
      var link := all[i].element;
      if link.tag == "a" {
        var href := Attr(link, "href");
        if Truthy(href) && HasMediaExtension(href.value) {
          media := media + [MediaLink(resolve(href.value), MediaType(href.value), GetText(link), PathOf(all[i]))];
        }
      }
      i := i + 1;
    }
    assert all[..i] == all;
  }
}
