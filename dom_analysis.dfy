/**
 * `_analyze_dom_structure` (backend/app/scraper.py): element frequencies,
 * nesting depth, the main content area, the navigation pattern, repeating
 * sibling structures and the semantic landmarks of a page.
 */
module DomAnalysis {
  import opened Wrappers
  import opened Strings
  import opened Dom
  import opened Ranking

  /** The tags of every element of the document, in document order. */
  function DocumentTags(doc: Element): seq<string>
  {
    Tags(AllElements(doc))
  }

  // ---------------------------------------------------------------- element counts

  /**
   * The `element_counts` loop and its ranking: one increment per element into a
   * dict in first-seen key order, then the 20 most frequent tags.
   */
  method ElementCounts(doc: Element) returns (top: seq<(string, nat)>)
    ensures top == MostCommon(DocumentTags(doc), 20)
  {
    var tags := DocumentTags(doc);
    var order, counts := CountTags(tags);
    var items := seq(|order|, j requires 0 <= j < |order| && order[j] in counts => (order[j], counts[order[j]]));
    TallyOfCounts(tags, order, counts, items);
    top := Take(SortDesc(items), 20);
  }

  /** The counting loop: a dict of occurrences per tag, keys in first-seen order. */
  method CountTags(tags: seq<string>) returns (order: seq<string>, counts: map<string, nat>)
    ensures CountsOf(tags, order, counts)
  {
    counts := map[];
    order := [];
    var i := 0;
    while i < |tags|
      invariant 0 <= i <= |tags|
      invariant CountsOf(tags[..i], order, counts)
    {
      var tag := tags[i];
      assert tags[..i + 1] == tags[..i] + [tag];
      CountStep(tags[..i], tag, order, counts);
      if tag in counts {
        counts := counts[tag := counts[tag] + 1];
      } else {
        counts := counts[tag := 1];
        order := order + [tag];
      }
      i := i + 1;
    }
    assert tags[..i] == tags;
  }

  /** The dict's items in key order are the tally of the tags. */
  lemma {:induction false} TallyOfCounts<K>(xs: seq<K>, order: seq<K>, counts: map<K, nat>, items: seq<(K, nat)>)
    requires CountsOf(xs, order, counts)
    requires |items| == |order| && forall j | 0 <= j < |order| :: items[j] == (order[j], counts[order[j]])
    ensures items == Tally(xs)
  {
  }

  /** `order` and `counts` are the key order and the counts of a dict tallying `xs`. */
  predicate CountsOf<K>(xs: seq<K>, order: seq<K>, counts: map<K, nat>)
  {
    && order == FirstSeen(xs)
    && (forall k | k in order :: k in counts && counts[k] == multiset(xs)[k])
    && (forall k | k in counts :: k in order)
  }

  /** One more occurrence: a new key goes to the end of the key order, and only its count grows. */
  lemma {:induction false} CountStep<K>(xs: seq<K>, x: K, order: seq<K>, counts: map<K, nat>)
    requires CountsOf(xs, order, counts)
    ensures x in counts ==> CountsOf(xs + [x], order, counts[x := counts[x] + 1])
    ensures x !in counts ==> CountsOf(xs + [x], order + [x], counts[x := 1])
  {
    FirstSeenSnoc(xs, x);
    assert multiset(xs + [x]) == multiset(xs) + multiset{x};
    if x in counts {
      CountOld(xs, x, order, counts);
    } else {
      CountNew(xs, x, order, counts);
    }
  }

  lemma {:induction false} FirstSeenSnoc<K>(xs: seq<K>, x: K)
    ensures FirstSeen(xs + [x]) == if x in FirstSeen(xs) then FirstSeen(xs) else FirstSeen(xs) + [x]
  {
    assert (xs + [x])[..|xs + [x]| - 1] == xs;
  }

  lemma {:induction false} CountOld<K>(xs: seq<K>, x: K, order: seq<K>, counts: map<K, nat>)
    requires CountsOf(xs, order, counts) && x in counts
    requires FirstSeen(xs + [x]) == order
    requires multiset(xs + [x]) == multiset(xs) + multiset{x}
    ensures CountsOf(xs + [x], order, counts[x := counts[x] + 1])
  {
    var c := counts[x := counts[x] + 1];
    forall k | k in order
      ensures k in c && c[k] == multiset(xs + [x])[k]
    {
    }
  }

  lemma {:induction false} CountNew<K>(xs: seq<K>, x: K, order: seq<K>, counts: map<K, nat>)
    requires CountsOf(xs, order, counts) && x !in counts
    requires FirstSeen(xs + [x]) == order + [x]
    requires multiset(xs + [x]) == multiset(xs) + multiset{x}
    ensures CountsOf(xs + [x], order + [x], counts[x := 1])
  {
    var c := counts[x := 1];
    assert x !in multiset(xs);
    forall k | k in order + [x]
      ensures k in c && c[k] == multiset(xs + [x])[k]
    {
    }
  }

  // ---------------------------------------------------------------- main content area

  /** The index of the first largest weight: what Python's `max(xs, key=...)` picks. */
  function FirstLargest(ws: seq<nat>): (i: nat)
    requires ws != []
    ensures i < |ws|
    ensures forall j | 0 <= j < |ws| :: ws[j] <= ws[i]
    ensures forall j | 0 <= j < i :: ws[j] < ws[i]
  {
    if |ws| == 1 then 0
    else
      var k := 1 + FirstLargest(ws[1..]);
      if ws[0] >= ws[k] then 0 else k
  }

  /** The summary recorded for the main content area. */
  datatype MainContent = MainContent(tag: string, classes: seq<string>, id: string, central: bool)

  /** A `main`, `article` or `div` some class of which mentions content, main, article or body. */
  predicate ContentCandidate(e: Element)
  {
    e.tag in ["main", "article", "div"] && ClassMentions(e, ["content", "main", "article", "body"])
  }

  /** The content candidates in document order. */
  function ContentCandidates(doc: Element): (cs: seq<Located>)
    ensures |cs| <= |AllElements(doc)|
    ensures forall l | l in cs :: l in AllElements(doc) && ContentCandidate(l.element)
    ensures forall l | l in AllElements(doc) && ContentCandidate(l.element) :: l in cs
  {
    Filter(AllElements(doc), (l: Located) => ContentCandidate(l.element))
  }

  /** The stripped text lengths of the candidates. */
  function TextLengths(cs: seq<Located>): (ws: seq<nat>)
    ensures |ws| == |cs| && forall i | 0 <= i < |cs| :: ws[i] == |GetText(cs[i].element)|
  {
    seq(|cs|, i requires 0 <= i < |cs| => |GetText(cs[i].element)|)
  }

  /** The candidate with the most stripped text, first among equals, or none without candidates. */
  function MainContentArea(doc: Element): (r: Option<MainContent>)
    ensures r.None? <==> forall l | l in AllElements(doc) :: !ContentCandidate(l.element)
    ensures r.Some? ==> (r.value.central <==> r.value.tag in ["main", "article"])
  {
    var cs := ContentCandidates(doc);
    if cs == [] then None
    else
      var e := cs[FirstLargest(TextLengths(cs))].element;
      Some(MainContent(e.tag, e.classes, e.id.GetOr(""), e.tag in ["main", "article"]))
  }

  /** `cs[i]` has the most text of `cs`, and every entry before it has less. */
  predicate FirstLongest(cs: seq<Located>, i: int)
  {
    && 0 <= i < |cs|
    && (forall j | 0 <= j < |cs| :: |GetText(cs[j].element)| <= |GetText(cs[i].element)|)
    && (forall j | 0 <= j < i :: |GetText(cs[j].element)| < |GetText(cs[i].element)|)
  }

  /**
   * The chosen area reports the tag, classes and id (or "" without one) of the first
   * candidate with the most text, as `max` over the candidates picks it.
   */
  lemma {:induction false} MainContentIsLargest(doc: Element)
    requires MainContentArea(doc).Some?
    ensures var cs := ContentCandidates(doc); var r := MainContentArea(doc).value;
      exists i | FirstLongest(cs, i) ::
        && r.tag == cs[i].element.tag
        && r.classes == cs[i].element.classes
        && (r.id == if cs[i].element.id.Some? then cs[i].element.id.value else "")
  {
    var cs := ContentCandidates(doc);
    var ws := TextLengths(cs);
    var i := FirstLargest(ws);
    var e := cs[i].element;
    assert MainContentArea(doc).value == MainContent(e.tag, e.classes, e.id.GetOr(""), e.tag in ["main", "article"]);
    assert FirstLongest(cs, i) by {
      forall j | 0 <= j < |cs| ensures |GetText(cs[j].element)| <= |GetText(e)| {
        assert ws[j] <= ws[i];
      }
      forall j | 0 <= j < i ensures |GetText(cs[j].element)| < |GetText(e)| {
        assert ws[j] < ws[i];
      }
    }
  }

  /** An area found by its id: the element `<main id="x" class="content">` under the document reports id "x". */
  lemma MainContentIdExample()
    ensures var main := Element("main", Some("x"), ["content"], map[], []);
      var doc := Element(DocumentTag, None, [], map[], [Child(main)]);
      MainContentArea(doc) == Some(MainContent("main", ["content"], "x", true))
  {
    var main := Element("main", Some("x"), ["content"], map[], []);
    var doc := Element(DocumentTag, None, [], map[], [Child(main)]);
    var l := Located(main, [doc]);
    OnlyChildElements(main, doc);
    assert ContentCandidate(main) by {
      assert OccursAt("content", "content", 0);
      assert Contains("content", "content");
    }
    var cs := ContentCandidates(doc);
    assert l in cs;
    assert cs == [l];
    assert TextLengths(cs) == [|GetText(main)|];
  }

  /** A document holding one childless element lists just that element. */
  lemma OnlyChildElements(e: Element, doc: Element)
    requires e.children == [] && doc.children == [Child(e)]
    ensures AllElements(doc) == [Located(e, [doc])]
  {
    assert [doc] + [] == [doc];
    assert Descendants(e, [doc]) == [];
    assert DescendantsOf([Child(e)], [doc]) == [Located(e, [doc])] + DescendantsOf([], [doc]);
  }

  // ---------------------------------------------------------------- navigation pattern

  /** The navigation summary: `type`, `item_count`, `has_dropdown` and `location`. */
  datatype NavPattern = NavPattern(horizontal: bool, itemCount: nat, hasDropdown: bool, inHeader: bool)

  function WithTag(ls: seq<Located>, tag: string): (r: seq<Located>)
    ensures forall l | l in r :: l in ls && l.element.tag == tag
  {
    Filter(ls, (l: Located) => l.element.tag == tag)
  }

  /**
   * The first `nav` or `header`: horizontal when it holds more than three `li` per
   * `ul`; a dropdown when some `ul` inside it has a `ul` ancestor (anywhere above,
   * as the `ul ul` selector matches); in a header when it is one or its parent is.
   */
  function NavigationPattern(doc: Element): (r: Option<NavPattern>)
    ensures r.None? <==> forall l | l in AllElements(doc) :: l.element.tag !in ["nav", "header"]
  {
    var navs := Filter(AllElements(doc), (l: Located) => l.element.tag in ["nav", "header"]);
    if navs == [] then None
    else
      var nav := navs[0];
      var below := Descendants(nav.element, nav.ancestors);
      var items := |WithTag(below, "li")|;
      var lists := |WithTag(below, "ul")|;
      Some(NavPattern(
        items > lists * 3,
        items,
        exists l | l in below :: l.element.tag == "ul" && exists a | a in l.ancestors :: a.tag == "ul",
        nav.element.tag == "header" || nav.ancestors[0].tag == "header"))
  }

  /** A dropdown needs at least one list inside the navigation element, and items without lists read as horizontal. */
  lemma {:induction false} NavigationPatternFacts(doc: Element)
    requires NavigationPattern(doc).Some?
    ensures var nav := Filter(AllElements(doc), (l: Located) => l.element.tag in ["nav", "header"])[0];
      var below := Descendants(nav.element, nav.ancestors);
      var p := NavigationPattern(doc).value;
      && (p.hasDropdown ==> |WithTag(below, "ul")| >= 1)
      && (p.itemCount > 0 && WithTag(below, "ul") == [] ==> p.horizontal)
  {
    var nav := Filter(AllElements(doc), (l: Located) => l.element.tag in ["nav", "header"])[0];
    var below := Descendants(nav.element, nav.ancestors);
    if NavigationPattern(doc).value.hasDropdown {
      var l :| l in below && l.element.tag == "ul" && exists a | a in l.ancestors :: a.tag == "ul";
      assert l in WithTag(below, "ul");
    }
  }

  // ---------------------------------------------------------------- repeating structures

  /** A recorded run of like siblings. */
  datatype Repeating = Repeating(parent: string, pattern: string, count: nat, classes: seq<string>, navigation: bool)

  /**
   * A `ul`, `ol` or `div` with at least three element children all of one tag;
   * labelled navigation when it is a list with a direct `a` child.
   */
  function RepeatingAt(e: Element): (r: Option<Repeating>)
    ensures r.Some? <==>
      && e.tag in ["ul", "ol", "div"]
      && |ElementChildren(e.children)| >= 3
      && forall c | c in ElementChildren(e.children) :: c.tag == ElementChildren(e.children)[0].tag
  {
    var kids := ElementChildren(e.children);
    if e.tag in ["ul", "ol", "div"] && |kids| >= 3 && forall c | c in kids :: c.tag == kids[0].tag then
      Some(Repeating(e.tag, kids[0].tag, |kids|, e.classes,
        e.tag in ["ul", "ol"] && exists c | c in kids :: c.tag == "a"))
    else None
  }

  /** A record counts its element children and names their common tag; it is navigation exactly for a list of links. */
  lemma {:induction false} RepeatingAtFacts(e: Element)
    requires RepeatingAt(e).Some?
    ensures var r := RepeatingAt(e).value;
      && r.count == |ElementChildren(e.children)| >= 3
      && (forall c | c in ElementChildren(e.children) :: c.tag == r.pattern)
      && (r.navigation <==> r.parent in ["ul", "ol"] && r.pattern == "a")
  {
    var kids := ElementChildren(e.children);
    assert kids[0] in kids;
  }

  /** The candidates of the listed elements, in order. */
  function Candidates(ls: seq<Located>): seq<Repeating>
  {
    if ls == [] then []
    else
      var last := RepeatingAt(ls[|ls| - 1].element);
      Candidates(ls[..|ls| - 1]) + (if last.Some? then [last.value] else [])
  }

  /** Records paired with their counts, the sort key. */
  function ByCount(rs: seq<Repeating>): (r: seq<(Repeating, nat)>)
    ensures |r| == |rs| && forall i | 0 <= i < |rs| :: r[i] == (rs[i], rs[i].count)
  {
    seq(|rs|, i requires 0 <= i < |rs| => (rs[i], rs[i].count))
  }

  /** `sorted(candidates, key=count, reverse=True)[:5]`. */
  function TopRepeating(rs: seq<Repeating>): seq<Repeating>
  {
    Keys(Take(SortDesc(ByCount(rs)), 5))
  }

  /** The candidate loop over every `ul`, `ol` and `div`, then the five largest. */
  method RepeatingStructures(doc: Element) returns (top: seq<Repeating>)
    ensures top == TopRepeating(Candidates(AllElements(doc)))
  {
    var all := AllElements(doc);
    var found: seq<Repeating> := [];
    var i := 0;
    while i < |all|
      invariant 0 <= i <= |all|
      invariant found == Candidates(all[..i])
    {
      assert all[..i + 1][..i] == all[..i];
      var r := RepeatingAt(all[i].element);
      if r.Some? {
        found := found + [r.value];
      }
      i := i + 1;
    }
    assert all[..i] == all;
    top := TopRepeating(found);
  }

  /**
   * The five largest candidates: `min(5, |rs|)` records taken from `rs`, largest count
   * first, and any candidate left out counts no more than the last one kept.
   */
  lemma {:induction false} TopRepeatingFacts(rs: seq<Repeating>)
    requires forall r | r in rs :: r.count >= 3
    ensures |TopRepeating(rs)| == if |rs| <= 5 then |rs| else 5
    ensures forall i, j | 0 <= i < j < |TopRepeating(rs)| :: TopRepeating(rs)[i].count >= TopRepeating(rs)[j].count
    ensures forall r | r in TopRepeating(rs) :: r in rs && r.count >= 3
    ensures forall r | r in rs && r !in TopRepeating(rs) ::
      TopRepeating(rs) != [] && r.count <= TopRepeating(rs)[|TopRepeating(rs)| - 1].count
  {
    var s := SortDesc(ByCount(rs));
    SortDescCorrect(ByCount(rs));
    var t := Take(s, 5);
    forall i | 0 <= i < |t| ensures t[i].1 == t[i].0.count && t[i].0 in rs {
      assert t[i] in multiset(ByCount(rs));
    }
    forall r | r in rs && r !in TopRepeating(rs)
      ensures TopRepeating(rs) != [] && r.count <= TopRepeating(rs)[|TopRepeating(rs)| - 1].count
    {
      LeftOutBelowLast(rs, s, r);
    }
  }

  /** A candidate missing from the first five of the sorted list sits after them, so it counts no more than the fifth. */
  lemma {:induction false} LeftOutBelowLast(rs: seq<Repeating>, s: seq<(Repeating, nat)>, r: Repeating)
    requires s == SortDesc(ByCount(rs)) && multiset(s) == multiset(ByCount(rs)) && NonIncreasing(s)
    requires r in rs && r !in Keys(Take(s, 5))
    ensures Keys(Take(s, 5)) != [] && r.count <= Keys(Take(s, 5))[|Keys(Take(s, 5))| - 1].count
  {
    var k :| 0 <= k < |rs| && rs[k] == r;
    assert ByCount(rs)[k] == (r, r.count);
    assert (r, r.count) in multiset(s);
    var j :| 0 <= j < |s| && s[j] == (r, r.count);
    var t := Take(s, 5);
    assert j >= |t|;
    assert |t| == 5;
    assert s[4] in multiset(s);
    assert s[4] in ByCount(rs);
    var m :| 0 <= m < |rs| && ByCount(rs)[m] == s[4];
    assert s[4].1 == s[4].0.count;
    assert s[4].1 >= s[j].1;
  }

  /** Every candidate comes from a `ul`, `ol` or `div` of the listed elements. */
  lemma {:induction false} CandidatesFromElements(ls: seq<Located>)
    ensures forall r | r in Candidates(ls) :: exists l | l in ls :: RepeatingAt(l.element) == Some(r)
  {
    if ls != [] {
      CandidatesFromElements(ls[..|ls| - 1]);
      forall r | r in Candidates(ls) ensures exists l | l in ls :: RepeatingAt(l.element) == Some(r) {
        if r in Candidates(ls[..|ls| - 1]) {
          var l :| l in ls[..|ls| - 1] && RepeatingAt(l.element) == Some(r);
          assert l in ls;
        } else {
          assert RepeatingAt(ls[|ls| - 1].element) == Some(r);
        }
      }
    }
  }

  // ---------------------------------------------------------------- semantic structure

  const SemanticTags: seq<string> := ["header", "nav", "main", "article", "section", "aside", "footer"]

  /** The landmark tags present in the page, each with its number of elements. */
  function SemanticStructure(doc: Element): (r: map<string, nat>)
    ensures forall t :: t in r <==> t in SemanticTags && t in DocumentTags(doc)
    ensures forall t | t in r :: r[t] == multiset(DocumentTags(doc))[t] > 0
  {
    var tags := DocumentTags(doc);
    map t | t in SemanticTags && t in tags :: multiset(tags)[t]
  }

  // ---------------------------------------------------------------- the whole analysis

  /** The result of the analysis; `nesting_patterns` is always empty in the source and is not carried. */
  datatype Analysis = Analysis(
    elementCounts: seq<(string, nat)>,
    hierarchyDepth: nat,
    mainContent: Option<MainContent>,
    navigation: Option<NavPattern>,
    repeating: seq<Repeating>,
    semantic: map<string, nat>)

  method AnalyzeDomStructure(doc: Element) returns (a: Analysis)
    ensures a.elementCounts == MostCommon(DocumentTags(doc), 20)
    ensures a.hierarchyDepth == Height(doc)
    ensures a.mainContent == MainContentArea(doc)
    ensures a.navigation == NavigationPattern(doc)
    ensures a.repeating == TopRepeating(Candidates(AllElements(doc)))
    ensures a.semantic == SemanticStructure(doc)
  {
    var counts := ElementCounts(doc);
    var repeating := RepeatingStructures(doc);
    GetDepthIsHeight(doc, 0);
    a := Analysis(counts, GetDepth(doc, 0), MainContentArea(doc), NavigationPattern(doc), repeating, SemanticStructure(doc));
  }
}
