/**
 * The parsed page as the extractors in backend/app/scraper.py see it through
 * BeautifulSoup: a tree of elements and text runs, searched in document order.
 */
module Dom {
  import opened Wrappers
  import opened Strings

  /**
   * An element: its tag name, its `id` and `class` attributes (BeautifulSoup
   * splits `class` into a list), its other attributes, and its children.
   */
  datatype Element = Element(
    tag: string,
    id: Option<string>,
    classes: seq<string>,
    attrs: map<string, string>,
    children: seq<Content>)

  /** A child of an element: another element, or a run of text. */
  datatype Content = Child(element: Element) | Chars(text: string)

  /** The name BeautifulSoup gives the document object at the root of every parse. */
  const DocumentTag := "[document]"

  /** `tag.get(name)`. */
  function Attr(e: Element, name: string): Option<string>
  {
    if name in e.attrs then Some(e.attrs[name]) else None
  }

  /** Python truthiness of an optional string: present and non-empty. */
  predicate Truthy(v: Option<string>)
  {
    v.Some? && v.value != ""
  }

  /** Some class of `e` contains one of `terms` (a `class_=lambda c: any(t in c ...)` filter). */
  predicate ClassMentions(e: Element, terms: seq<string>)
  {
    exists c, t | c in e.classes && t in terms :: Contains(c, t)
  }

  /** A `link` whose `rel` lists `stylesheet` (bs4 matches the multi-valued `rel` word by word). */
  predicate IsStylesheetLink(e: Element)
  {
    e.tag == "link" && "stylesheet" in Words(Attr(e, "rel").GetOr(""))
  }

  /** An element together with its ancestors, innermost (its parent) first, as `.parents` yields them. */
  datatype Located = Located(element: Element, ancestors: seq<Element>)

  /**
   * `e.find_all()`: every element strictly below `e`, in document order, each with
   * its ancestors; `above` holds the ancestors of `e` itself.
   */
  function Descendants(e: Element, above: seq<Element>): (r: seq<Located>)
    ensures forall l | l in r :: |l.ancestors| > |above| && l.ancestors[|l.ancestors| - |above|..] == above
    ensures forall l | l in r :: l.ancestors[|l.ancestors| - |above| - 1] == e
    decreases e, 1
  {
    DescendantsOf(e.children, [e] + above)
  }

  function DescendantsOf(cs: seq<Content>, above: seq<Element>): (r: seq<Located>)
    ensures forall l | l in r :: |l.ancestors| >= |above| && l.ancestors[|l.ancestors| - |above|..] == above
    decreases cs, 0
  {
    if cs == [] then []
    else
      var first := match cs[0]
        case Child(c) => assert c < cs[0]; [Located(c, above)] + Descendants(c, above)
        case Chars(_) => [];
      first + DescendantsOf(cs[1..], above)
  }

  /** `soup.find_all()`: every element of the document in document order. */
  function AllElements(doc: Element): seq<Located>
  {
    Descendants(doc, [])
  }

  /** The elements of `s` that satisfy `p`, in order. */
  function Filter<T>(s: seq<T>, p: T -> bool): (r: seq<T>)
    ensures |r| <= |s|
    ensures forall x | x in r :: x in s && p(x)
    ensures forall x | x in s && p(x) :: x in r
  {
    if s == [] then [] else (if p(s[0]) then [s[0]] else []) + Filter(s[1..], p)
  }

  /** The tags of a list of located elements. */
  function Tags(ls: seq<Located>): (r: seq<string>)
    ensures |r| == |ls| && forall i | 0 <= i < |ls| :: r[i] == ls[i].element.tag
  {
    seq(|ls|, i requires 0 <= i < |ls| => ls[i].element.tag)
  }

  /** The direct element children of `e` (`e.find_all(recursive=False)`). */
  function ElementChildren(cs: seq<Content>): (r: seq<Element>)
    ensures |r| <= |cs|
    ensures forall c | c in r :: Child(c) in cs
  {
    if cs == [] then []
    else (if cs[0].Child? then [cs[0].element] else []) + ElementChildren(cs[1..])
  }

  /** bs4's `.string`: the text of the only child, looking through a single child element. */
  function StringOf(e: Element): Option<string>
  {
    if |e.children| != 1 then None
    else match e.children[0]
      case Chars(t) => Some(t)
      case Child(c) => assert c < e.children[0]; StringOf(c)
  }

  /**
   * The tags whose strings BeautifulSoup's HTML builders give their own string
   * classes (script, stylesheet, template and ruby strings), which `get_text`
   * called on any other element passes over.
   */
  const StringContainers: seq<string> := ["script", "style", "template", "rt", "rp"]

  /**
   * `get_text(strip=True)`: every text run below `e` in document order, stripped and
   * concatenated, leaving out everything inside a script, style, template, rt or rp element.
   */
  function GetText(e: Element): string
    decreases e, 1
  {
    TextOf(e.children)
  }

  function TextOf(cs: seq<Content>): string
    decreases cs, 0
  {
    if cs == [] then []
    else
      var first := match cs[0]
        case Chars(t) => Strip(t)
        case Child(c) => assert c < cs[0]; if c.tag in StringContainers then [] else GetText(c);
      first + TextOf(cs[1..])
  }

  /** A script inside an element adds nothing to the element's text, however long it is. */
  lemma {:induction false} ScriptTextSkipped(e: Element, code: string, rest: seq<Content>)
    requires e.children == [Child(Element("script", None, [], map[], [Chars(code)]))] + rest
    ensures GetText(e) == TextOf(rest)
  {
    assert e.children[1..] == rest;
  }

  // ---------------------------------------------------------------- nesting depth

  function Max(a: int, b: int): int
  {
    if a >= b then a else b
  }

  /**
   * `get_depth(element, current_depth)` of `_analyze_dom_structure`: `d` for an
   * element without children, else the largest `get_depth(child, d + 1)` over its
   * element children, or `d` when it has none.
   */
  function GetDepth(e: Element, d: nat): nat
    decreases e, 1
  {
    if e.children == [] then d else ChildDepths(e.children, d)
  }

  function ChildDepths(cs: seq<Content>, d: nat): nat
    decreases cs, 0
  {
    if cs == [] then d
    else
      var here := match cs[0] case Child(c) => assert c < cs[0]; GetDepth(c, d + 1) case Chars(_) => d;
      Max(here, ChildDepths(cs[1..], d))
  }

  /** The height of the element tree below `e`: edges on the longest downward path of elements. */
  function Height(e: Element): nat
    decreases e, 1
  {
    ChildrenHeight(e.children)
  }

  function ChildrenHeight(cs: seq<Content>): nat
    decreases cs, 0
  {
    if cs == [] then 0
    else
      var here := match cs[0] case Child(c) => assert c < cs[0]; 1 + Height(c) case Chars(_) => 0;
      Max(here, ChildrenHeight(cs[1..]))
  }

  /** `get_depth(e, d)` is `d` plus the height of the element tree below `e`. */
  lemma {:induction false} GetDepthIsHeight(e: Element, d: nat)
    ensures GetDepth(e, d) == d + Height(e)
    decreases e, 1
  {
    ChildDepthsIsHeight(e.children, d);
  }

  lemma {:induction false} ChildDepthsIsHeight(cs: seq<Content>, d: nat)
    ensures ChildDepths(cs, d) == d + ChildrenHeight(cs)
    decreases cs, 0
  {
    if cs != [] {
      ChildDepthsIsHeight(cs[1..], d);
      if cs[0].Child? {
        var c := cs[0].element;
        assert c < cs[0];
        GetDepthIsHeight(c, d + 1);
      }
    }
  }

  /** No element below `e` is nested deeper than the height of `e`. */
  lemma {:induction false} HeightBoundsNesting(e: Element, above: seq<Element>)
    ensures forall l | l in Descendants(e, above) :: |l.ancestors| <= |above| + Height(e)
    decreases e, 1
  {
    ChildrenHeightBoundsNesting(e.children, [e] + above);
  }

  lemma {:induction false} ChildrenHeightBoundsNesting(cs: seq<Content>, above: seq<Element>)
    ensures forall l | l in DescendantsOf(cs, above) :: |l.ancestors| + 1 <= |above| + ChildrenHeight(cs)
    decreases cs, 0
  {
    if cs != [] {
      ChildrenHeightBoundsNesting(cs[1..], above);
      if cs[0].Child? {
        var c := cs[0].element;
        assert c < cs[0];
        HeightBoundsNesting(c, above);
      }
    }
  }

  /** Some element below `e` is nested exactly as deep as the height of `e`. */
  lemma {:induction false} HeightIsAttained(e: Element, above: seq<Element>)
    requires Height(e) > 0
    ensures exists l | l in Descendants(e, above) :: |l.ancestors| == |above| + Height(e)
    decreases e, 1
  {
    ChildrenHeightIsAttained(e.children, [e] + above);
  }

  lemma {:induction false} ChildrenHeightIsAttained(cs: seq<Content>, above: seq<Element>)
    requires ChildrenHeight(cs) > 0
    ensures exists l | l in DescendantsOf(cs, above) :: |l.ancestors| + 1 == |above| + ChildrenHeight(cs)
    decreases cs, 0
  {
    var rest := DescendantsOf(cs[1..], above);
    if ChildrenHeight(cs[1..]) == ChildrenHeight(cs) {
      ChildrenHeightIsAttained(cs[1..], above);
      var l :| l in rest && |l.ancestors| + 1 == |above| + ChildrenHeight(cs);
      assert l in DescendantsOf(cs, above);
    } else {
      var c := cs[0].element;
      var here := [Located(c, above)] + Descendants(c, above);
      assert DescendantsOf(cs, above) == here + rest;
      if Height(c) == 0 {
        assert Located(c, above) in DescendantsOf(cs, above);
      } else {
        assert c < cs[0];
        HeightIsAttained(c, above);
        var l :| l in Descendants(c, above) && |l.ancestors| == |above| + Height(c);
        assert l in DescendantsOf(cs, above);
      }
    }
  }

  /** The document's `hierarchy_depth` is the deepest nesting of any of its elements. */
  lemma {:induction false} HierarchyDepthIsDeepestNesting(doc: Element)
    ensures forall l | l in AllElements(doc) :: |l.ancestors| <= GetDepth(doc, 0)
    ensures GetDepth(doc, 0) > 0 ==> exists l | l in AllElements(doc) :: |l.ancestors| == GetDepth(doc, 0)
  {
    GetDepthIsHeight(doc, 0);
    HeightBoundsNesting(doc, []);
    if Height(doc) > 0 {
      HeightIsAttained(doc, []);
    }
  }

  // ---------------------------------------------------------------- element paths

  /** One segment of an element path: `tag`, `tag#id` when the id is non-empty, else `tag.c1.c2` when it has classes. */
  function Selector(e: Element): string
  {
    e.tag + (if Truthy(e.id) then "#" + e.id.value
             else if e.classes != [] then "." + Join(e.classes, ".")
             else "")
  }

  /** How many ancestors the path walk visits: those before the first `html`, innermost first. */
  function BelowHtml(ancestors: seq<Element>): (k: nat)
    ensures k <= |ancestors|
    ensures forall j | 0 <= j < k :: ancestors[j].tag != "html"
    ensures k < |ancestors| ==> ancestors[k].tag == "html"
  {
    if ancestors == [] || ancestors[0].tag == "html" then 0 else 1 + BelowHtml(ancestors[1..])
  }

  /** The selectors of the ancestors below `html`, outermost first. */
  function AncestorSegments(ancestors: seq<Element>): (r: seq<string>)
    ensures |r| == BelowHtml(ancestors)
  {
    var k := BelowHtml(ancestors);
    seq(k, j requires 0 <= j < k => Selector(ancestors[k - 1 - j]))
  }

  /** The intended selector path: ancestors below `html` outermost first, then the element itself. */
  function PathSegments(e: Element, ancestors: seq<Element>): seq<string>
  {
    AncestorSegments(ancestors) + [Selector(e)]
  }

  /** The element path stored in the asset and component records. */
  function PathOf(l: Located): string
  {
    Join(PathSegments(l.element, l.ancestors), " > ")
  }

  /** Python's `list.reverse()`, as a value. */
  function Reversed<T>(s: seq<T>): (r: seq<T>)
    ensures |r| == |s|
  {
    if s == [] then [] else Reversed(s[1..]) + [s[0]]
  }

  lemma {:induction false} ReversedIndex<T>(s: seq<T>, i: int)
    requires 0 <= i < |s|
    ensures Reversed(s)[i] == s[|s| - 1 - i]
  {
    if i < |s| - 1 {
      ReversedIndex(s[1..], i);
    }
  }

  /** The selectors collected innermost first, reversed, are the ancestor segments. */
  lemma {:induction false} InnerSelectorsReversed(ancestors: seq<Element>, inner: seq<string>)
    requires |inner| == BelowHtml(ancestors)
    requires forall j | 0 <= j < |inner| :: inner[j] == Selector(ancestors[j])
    ensures Reversed(inner) == AncestorSegments(ancestors)
  {
    forall i | 0 <= i < |inner| ensures Reversed(inner)[i] == AncestorSegments(ancestors)[i] {
      ReversedIndex(inner, i);
    }
  }

  /**
   * `_get_element_path` as written: the ancestors' selectors innermost first, the
   * element's own selector appended last, then the whole list reversed, so the
   * element's own selector comes out first.
   */
  method ElementPathAsWritten(e: Element, ancestors: seq<Element>) returns (path: string)
    ensures path == Join([Selector(e)] + AncestorSegments(ancestors), " > ")
  {
    var segments: seq<string> := [];
    var i := 0;
    while i < |ancestors| && ancestors[i].tag != "html"
      invariant 0 <= i <= BelowHtml(ancestors)
      invariant |segments| == i
      invariant forall j | 0 <= j < i :: segments[j] == Selector(ancestors[j])
    {
      segments := segments + [Selector(ancestors[i])];
      i := i + 1;
    }
    InnerSelectorsReversed(ancestors, segments);
    ReversedSnoc(segments, Selector(e));
    segments := Reversed(segments + [Selector(e)]);
    path := Join(segments, " > ");
  }

  lemma {:induction false} ReversedSnoc<T>(s: seq<T>, x: T)
    ensures Reversed(s + [x]) == [x] + Reversed(s)
  {
    if s != [] {
      assert (s + [x])[1..] == s[1..] + [x];
      ReversedSnoc(s[1..], x);
    }
  }

  /**
   * The element path with the order the walk evidently intends: the ancestors'
   * selectors collected innermost first and reversed, then the element's own selector.
   */
  method ElementPath(e: Element, ancestors: seq<Element>) returns (path: string)
    ensures path == PathOf(Located(e, ancestors))
  {
    var segments: seq<string> := [];
    var i := 0;
    while i < |ancestors| && ancestors[i].tag != "html"
      invariant 0 <= i <= BelowHtml(ancestors)
      invariant |segments| == i
      invariant forall j | 0 <= j < i :: segments[j] == Selector(ancestors[j])
    {
      segments := segments + [Selector(ancestors[i])];
      i := i + 1;
    }
    InnerSelectorsReversed(ancestors, segments);
    segments := Reversed(segments) + [Selector(e)];
    path := Join(segments, " > ");
  }

  lemma {:induction false} JoinSnoc(parts: seq<string>, x: string, sep: string)
    requires parts != []
    ensures Join(parts + [x], sep) == Join(parts, sep) + sep + x
  {
    if |parts| > 1 {
      assert (parts + [x])[1..] == parts[1..] + [x];
      JoinSnoc(parts[1..], x, sep);
    }
  }

  lemma {:induction false} JoinCons(x: string, parts: seq<string>, sep: string)
    requires parts != []
    ensures Join([x] + parts, sep) == x + sep + Join(parts, sep)
  {
    assert ([x] + parts)[1..] == parts;
  }

  /**
   * The intended path ends with the element's own selector, after one " > " per
   * ancestor below `html`; the as-written path starts with it instead.
   */
  lemma {:induction false} OwnSelectorPlacement(e: Element, ancestors: seq<Element>)
    ensures EndsWith(PathOf(Located(e, ancestors)), Selector(e))
    ensures StartsWith(Join([Selector(e)] + AncestorSegments(ancestors), " > "), Selector(e))
  {
    var segs := AncestorSegments(ancestors);
    if segs != [] {
      JoinSnoc(segs, Selector(e), " > ");
      JoinCons(Selector(e), segs, " > ");
    }
  }

  /**
   * A link inside `html > body > div`: the code as written yields "a > body > div",
   * where the walk evidently intends "body > div > a".
   */
  lemma ElementPathAsWrittenExample()
    ensures var a := Element("a", None, [], map[], []);
      var div := Element("div", None, [], map[], [Child(a)]);
      var body := Element("body", None, [], map[], [Child(div)]);
      var html := Element("html", None, [], map[], [Child(body)]);
      var ancestors := [div, body, html];
      && Join([Selector(a)] + AncestorSegments(ancestors), " > ") == "a > body > div"
      && PathOf(Located(a, ancestors)) == "body > div > a"
  {
    var a := Element("a", None, [], map[], []);
    var div := Element("div", None, [], map[], [Child(a)]);
    var body := Element("body", None, [], map[], [Child(div)]);
    var html := Element("html", None, [], map[], [Child(body)]);
    var ancestors := [div, body, html];
    ExampleSegments(a, div, body, html);
    assert Selector(a) == "a";
    JoinCons("a", ["body", "div"], " > ");
    JoinCons("body", ["div"], " > ");
    assert ["a"] + ["body", "div"] == ["a", "body", "div"];
    assert ["body"] + ["div"] == ["body", "div"];
    JoinSnoc(["body", "div"], "a", " > ");
    assert ["body", "div"] + ["a"] == ["body", "div", "a"];
  }

  lemma {:induction false} ExampleSegments(a: Element, div: Element, body: Element, html: Element)
    requires a == Element("a", None, [], map[], [])
    requires div == Element("div", None, [], map[], [Child(a)])
    requires body == Element("body", None, [], map[], [Child(div)])
    requires html == Element("html", None, [], map[], [Child(body)])
    ensures AncestorSegments([div, body, html]) == ["body", "div"]
  {
    var ancestors := [div, body, html];
    assert ancestors[1..] == [body, html] && [body, html][1..] == [html];
    assert BelowHtml([html]) == 0;
    assert BelowHtml([body, html]) == 1;
    assert BelowHtml(ancestors) == 2;
    assert Selector(div) == "div" && Selector(body) == "body";
  }
}
