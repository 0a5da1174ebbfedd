/**
 * `_compute_layout_metrics` (backend/app/scraper.py): spacing values per CSS
 * unit, common margins, container and alignment class counts, the grid system
 * in use, and the responsive breakpoints of the page's media queries.
 *
 * The regular expressions over style-tag text are not modelled: their matches
 * arrive as inputs (`SpacingMatch`, `MediaMatch`), and what the code does with
 * each match is modelled exactly. Floating-point values are exact reals.
 */
module LayoutMetrics {
  import opened Wrappers
  import opened Strings
  import opened Dom
  import opened Ranking

  /** Text a `([\d.]+)` group captures. */
  type NumberString = t: string | NumberText(t)

  /** `float(t)` on captured number text, `None` where it raises ValueError. */
  function Float(t: NumberString): Option<real>
  {
    ParseDecimal(t)
  }

  // ---------------------------------------------------------------- spacing

  /** One match of `(margin|padding)(-[a-z]+)?\s*:\s*([\d.]+)([a-z%]+)`: its number and its unit. */
  datatype SpacingMatch = SpacingMatch(value: NumberString, unit: string)

  /** The units tallied, in the key order of `spacing_units`. */
  const SpacingUnits: seq<string> := ["px", "rem", "em", "%", "vh", "vw"]

  /** The values recorded for `unit`: the matches in that unit whose number parses, in order. */
  function SpacingValues(ms: seq<SpacingMatch>, unit: string): (vs: seq<real>)
    ensures |vs| <= |ms|
  {
    if ms == [] then []
    else
      var m := ms[|ms| - 1];
      var v := Float(m.value);
      SpacingValues(ms[..|ms| - 1], unit) + (if m.unit == unit && v.Some? then [v.value] else [])
  }

  /** The `spacing_units` dict after the matches: one list per known unit, other units ignored. */
  function SpacingTable(ms: seq<SpacingMatch>): map<string, seq<real>>
  {
    map u | u in SpacingUnits :: SpacingValues(ms, u)
  }

  method CollectSpacing(ms: seq<SpacingMatch>) returns (units: map<string, seq<real>>)
    ensures forall u :: u in units <==> u in SpacingUnits
    ensures forall u | u in SpacingUnits :: units[u] == SpacingValues(ms, u)
    ensures units == SpacingTable(ms)
  {
    units := map["px" := [], "rem" := [], "em" := [], "%" := [], "vh" := [], "vw" := []];
    var i := 0;
    while i < |ms|
      invariant 0 <= i <= |ms|
      invariant forall u :: u in units <==> u in SpacingUnits
      invariant forall u | u in SpacingUnits :: units[u] == SpacingValues(ms[..i], u)
    {
      assert ms[..i + 1][..i] == ms[..i];
      var m := ms[i];
      if m.unit in units {
        var v := Float(m.value);
        if v.Some? {
          units := units[m.unit := units[m.unit] + [v.value]];
        }
      }
      i := i + 1;
    }
    assert ms[..i] == ms;
  }

  /** A `spacing_patterns` entry: the unit, its five most common values, and their counts. */
  datatype SpacingPattern = SpacingPattern(unit: string, commonValues: seq<real>, frequency: seq<(real, nat)>)

  function PatternOf(unit: string, vs: seq<real>): SpacingPattern
  {
    SpacingPattern(unit, Keys(MostCommon(vs, 5)), MostCommon(vs, 5))
  }

  /** One pattern per unit of `us` with recorded values, in the order of `us`. */
  function SpacingPatterns(units: map<string, seq<real>>, us: seq<string>): seq<SpacingPattern>
    requires forall u | u in us :: u in units
  {
    if us == [] then []
    else
      var u := us[|us| - 1];
      SpacingPatterns(units, us[..|us| - 1]) + (if units[u] != [] then [PatternOf(u, units[u])] else [])
  }

  method SpacingPatternsOf(units: map<string, seq<real>>) returns (patterns: seq<SpacingPattern>)
    requires forall u | u in SpacingUnits :: u in units
    ensures patterns == SpacingPatterns(units, SpacingUnits)
  {
    patterns := [];
    var i := 0;
    while i < |SpacingUnits|
      invariant 0 <= i <= |SpacingUnits|
      invariant patterns == SpacingPatterns(units, SpacingUnits[..i])
    {
      assert SpacingUnits[..i + 1][..i] == SpacingUnits[..i];
      var unit := SpacingUnits[i];
      var values := units[unit];
      if values != [] {
        var mostCommon := MostCommon(values, 5);
        patterns := patterns + [SpacingPattern(unit, Keys(mostCommon), mostCommon)];
      }
      i := i + 1;
    }
    assert SpacingUnits[..i] == SpacingUnits;
  }

  /**
   * A unit has a pattern exactly when it has values; a pattern lists at most five
   * distinct values, each with its true count, most frequent first.
   */
  lemma {:induction false} SpacingPatternsFacts(units: map<string, seq<real>>, us: seq<string>)
    requires forall u | u in us :: u in units
    ensures forall u | u in us :: units[u] != [] <==> exists p | p in SpacingPatterns(units, us) :: p.unit == u
    ensures forall p | p in SpacingPatterns(units, us) ::
      && p.unit in us
      && |p.commonValues| <= 5
      && p.commonValues == Keys(p.frequency)
      && Distinct(p.commonValues)
      && NonIncreasing(p.frequency)
      && forall e | e in p.frequency :: e.0 in units[p.unit] && e.1 == multiset(units[p.unit])[e.0]
  {
    if us != [] {
      var init := us[..|us| - 1];
      var u := us[|us| - 1];
      assert forall x | x in us :: x in init || x == u;
      SpacingPatternsFacts(units, init);
      MostCommonEntries(units[u], 5);
      MostCommonOrdered(units[u], 5);
      var r := MostCommon(units[u], 5);
      assert forall e | e in r :: e.0 in units[u] && e.1 == multiset(units[u])[e.0];
      var prev := SpacingPatterns(units, init);
      var added: seq<SpacingPattern> := if units[u] != [] then [PatternOf(u, units[u])] else [];
      assert SpacingPatterns(units, us) == prev + added;
      forall x | x in us ensures units[x] != [] <==> exists p: SpacingPattern | p in prev + added :: p.unit == x {
        if units[x] != [] {
          if x == u {
            assert PatternOf(u, units[u]) in prev + added;
          } else {
            var p :| p in prev && p.unit == x;
            assert p in prev + added;
          }
        } else if x != u {
          assert x in init;
        }
      }
    }
  }

  // ---------------------------------------------------------------- margins

  /** `margins`: the three most common pixel values and the most frequent one. */
  datatype Margins = Margins(commonValuesPx: seq<real>, mostFrequent: real)

  function MarginsOf(px: seq<real>): Option<Margins>
  {
    if px == [] then None
    else
      var top := MostCommon(px, 3);
      Some(Margins(Keys(top), if top != [] then top[0].0 else 0.0))
  }

  /** The most frequent margin is a pixel value no other pixel value outnumbers, and it heads the list. */
  lemma {:induction false} MostFrequentIsMode(px: seq<real>)
    requires px != []
    ensures MarginsOf(px).Some?
    ensures var m := MarginsOf(px).value;
      && 1 <= |m.commonValuesPx| <= 3
      && m.commonValuesPx[0] == m.mostFrequent
      && m.mostFrequent in px
      && forall v | v in px :: multiset(px)[v] <= multiset(px)[m.mostFrequent]
  {
    var top := MostCommon(px, 3);
    assert px[0] in FirstSeen(px);
    MostCommonEntries(px, 3);
    MostCommonOrdered(px, 3);
    assert top != [];
    forall v | v in px ensures multiset(px)[v] <= top[0].1 {
      if v in Keys(top) {
        var i :| 0 <= i < |top| && Keys(top)[i] == v;
        assert top[i].1 == multiset(px)[v];
      } else {
        MostCommonExcluded(px, 3, v);
      }
    }
  }

  // ---------------------------------------------------------------- container, grid and alignment classes

  /** The elements some class of which contains `term`. */
  function Mentioning(doc: Element, term: string): (r: seq<Located>)
    ensures forall l | l in r :: l in AllElements(doc) && ClassMentions(l.element, [term])
    ensures forall l | l in AllElements(doc) && ClassMentions(l.element, [term]) :: l in r
    ensures r != [] <==> exists l | l in AllElements(doc) :: ClassMentions(l.element, [term])
  {
    var r := Filter(AllElements(doc), (l: Located) => ClassMentions(l.element, [term]));
    assert r != [] ==> r[0] in r;
    r
  }

  const ContainerClasses: seq<string> := ["container", "wrapper", "content", "main", "page"]

  /** `container_analysis`: for each container class name some element's class contains, how many do. */
  function ContainerAnalysis(doc: Element): (r: map<string, nat>)
    ensures forall c :: c in r <==>
      c in ContainerClasses && exists l | l in AllElements(doc) :: ClassMentions(l.element, [c])
    ensures forall c | c in r :: r[c] == |Mentioning(doc, c)| > 0
  {
    map c | c in ContainerClasses && Mentioning(doc, c) != [] :: |Mentioning(doc, c)|
  }

  /** The alignment each alignment class signals. */
  const AlignmentClasses: map<string, string> := map[
    "center" := "text-center", "left" := "text-left", "right" := "text-right",
    "vertical-center" := "align-items-center", "horizontal-center" := "justify-content-center"]

  /** `alignments`: for each alignment whose class some element's class contains, how many do. */
  function Alignments(doc: Element): (r: map<string, nat>)
    ensures forall a :: a in r <==>
      a in AlignmentClasses && exists l | l in AllElements(doc) :: ClassMentions(l.element, [AlignmentClasses[a]])
    ensures forall a | a in r :: r[a] == |Mentioning(doc, AlignmentClasses[a])| > 0
  {
    map a | a in AlignmentClasses && Mentioning(doc, AlignmentClasses[a]) != [] :: |Mentioning(doc, AlignmentClasses[a])|
  }

  /** The length of the run of lower-case ASCII letters starting at `from`. */
  function LowerRun(s: string, from: nat): (n: nat)
    requires from <= |s|
    ensures from + n <= |s|
    ensures forall k | from <= k < from + n :: 'a' <= s[k] <= 'z'
    ensures from + n < |s| ==> !('a' <= s[from + n] <= 'z')
    decreases |s| - from
  {
    if from == |s| || !('a' <= s[from] <= 'z') then 0 else 1 + LowerRun(s, from + 1)
  }

  /**
   * `col(-[a-z]+)?-\d+` matches at `i`: `col-` and a digit, or `col-`, letters,
   * `-` and a digit (letters never include `-`, so the letter run is the longest one).
   */
  predicate BootstrapAt(c: string, i: nat)
  {
    && OccursAt(c, "col-", i)
    && ((i + 4 < |c| && IsDigit(c[i + 4]))
        || (var n := LowerRun(c, i + 4);
            n > 0 && i + 4 + n + 1 < |c| && c[i + 4 + n] == '-' && IsDigit(c[i + 4 + n + 1])))
  }

  /** `re.search(r'col(-[a-z]+)?-\d+', c)` succeeds. */
  predicate BootstrapClass(c: string)
  {
    exists i: nat | i <= |c| :: BootstrapAt(c, i)
  }

  lemma BootstrapExamples()
    ensures BootstrapClass("col-6") && BootstrapClass("col-md-6")
    ensures !BootstrapAt("col-md", 0)
  {
    assert BootstrapAt("col-6", 0);
    assert LowerRun("col-md-6", 4) == 2 by {
      assert LowerRun("col-md-6", 6) == 0;
    }
    assert BootstrapAt("col-md-6", 0);
  }

  /** Some element has a class satisfying `p`. */
  predicate SomeClass(doc: Element, p: string -> bool)
  {
    exists l, c | l in AllElements(doc) && c in l.element.classes :: p(c)
  }

  datatype GridKind = UnknownGrid | Bootstrap | CssGrid | Flexbox

  /** `grid_metrics`: the grid type and its column count (the gutter is always "unknown"). */
  datatype GridMetrics = GridMetrics(kind: GridKind, columns: nat)

  /** The three checks in the source's order, each overwriting the type the previous one set. */
  function GridSystem(doc: Element): (g: GridMetrics)
    ensures g.columns == if SomeClass(doc, BootstrapClass) then 12 else 0
    ensures g.kind == CssGrid <==> SomeClass(doc, c => Contains(c, "grid"))
    ensures g.kind == Flexbox <==>
      !SomeClass(doc, c => Contains(c, "grid")) && SomeClass(doc, c => Contains(c, "flex") || Contains(c, "display-flex"))
    ensures g.kind == Bootstrap <==>
      && SomeClass(doc, BootstrapClass)
      && !SomeClass(doc, c => Contains(c, "grid"))
      && !SomeClass(doc, c => Contains(c, "flex") || Contains(c, "display-flex"))
  {
    var bootstrap := SomeClass(doc, BootstrapClass);
    var grid := SomeClass(doc, c => Contains(c, "grid"));
    var flex := SomeClass(doc, c => Contains(c, "flex") || Contains(c, "display-flex"));
    var g0 := GridMetrics(UnknownGrid, 0);
    var g1 := if bootstrap then GridMetrics(Bootstrap, 12) else g0;
    var g2 := if grid then g1.(kind := CssGrid) else g1;
    if flex && !grid then g2.(kind := Flexbox) else g2
  }

  // ---------------------------------------------------------------- media queries and breakpoints

  /** The `(max|min)-width\s*:\s*([\d.]+)([a-z]+)` match inside one `@media` block. */
  datatype MediaMatch = MediaMatch(condition: string, value: NumberString, unit: string)

  datatype MediaQuery = MediaQuery(condition: string, value: real, unit: string)

  /** The media queries recorded: the matches whose number parses, in order. */
  function MediaQueries(ms: seq<MediaMatch>): (qs: seq<MediaQuery>)
    ensures |qs| <= |ms|
  {
    if ms == [] then []
    else
      var m := ms[|ms| - 1];
      var v := Float(m.value);
      MediaQueries(ms[..|ms| - 1]) + (if v.Some? then [MediaQuery(m.condition, v.value, m.unit)] else [])
  }

  method CollectMediaQueries(ms: seq<MediaMatch>) returns (qs: seq<MediaQuery>)
    ensures qs == MediaQueries(ms)
  {
    qs := [];
    var i := 0;
    while i < |ms|
      invariant 0 <= i <= |ms|
      invariant qs == MediaQueries(ms[..i])
    {
      assert ms[..i + 1][..i] == ms[..i];
      var v := Float(ms[i].value);
      if v.Some? {
        qs := qs + [MediaQuery(ms[i].condition, v.value, ms[i].unit)];
      }
      i := i + 1;
    }
    assert ms[..i] == ms;
  }

  /** The pixel breakpoint values, in order. */
  function PxValues(qs: seq<MediaQuery>): (vs: seq<real>)
    ensures |vs| <= |qs|
    ensures forall v | v in vs :: exists q | q in qs :: q.unit == "px" && q.value == v
  {
    if qs == [] then []
    else
      var q := qs[|qs| - 1];
      PxValues(qs[..|qs| - 1]) + (if q.unit == "px" then [q.value] else [])
  }

  method CollectPxValues(qs: seq<MediaQuery>) returns (vs: seq<real>)
    ensures vs == PxValues(qs)
  {
    vs := [];
    var i := 0;
    while i < |qs|
      invariant 0 <= i <= |qs|
      invariant vs == PxValues(qs[..i])
    {
      assert qs[..i + 1][..i] == qs[..i];
      if qs[i].unit == "px" {
        vs := vs + [qs[i].value];
      }
      i := i + 1;
    }
    assert qs[..i] == qs;
  }

  predicate Sorted(s: seq<real>)
  {
    forall i, j | 0 <= i < j < |s| :: s[i] <= s[j]
  }

  function InsertAsc(x: real, s: seq<real>): (r: seq<real>)
    ensures |r| == |s| + 1
  {
    if s == [] || x <= s[0] then [x] + s else [s[0]] + InsertAsc(x, s[1..])
  }

  /** `list.sort()` on the values. */
  function SortAsc(s: seq<real>): (r: seq<real>)
    ensures |r| == |s|
  {
    if s == [] then [] else InsertAsc(s[0], SortAsc(s[1..]))
  }

  lemma {:induction false} InsertAscCorrect(x: real, s: seq<real>)
    requires Sorted(s)
    ensures multiset(InsertAsc(x, s)) == multiset(s) + multiset{x}
    ensures Sorted(InsertAsc(x, s))
  {
    if s != [] && x > s[0] {
      var r := InsertAsc(x, s[1..]);
      assert InsertAsc(x, s) == [s[0]] + r;
      InsertAscCorrect(x, s[1..]);
      assert s == [s[0]] + s[1..];
      forall j | 0 <= j < |r| ensures s[0] <= r[j] {
        InsertedAbove(x, s, r, j);
      }
    }
  }

  /** An element of the insertion into the tail is above the head. */
  lemma {:induction false} InsertedAbove(x: real, s: seq<real>, r: seq<real>, j: int)
    requires Sorted(s) && s != [] && x > s[0]
    requires multiset(r) == multiset(s[1..]) + multiset{x}
    requires 0 <= j < |r|
    ensures s[0] <= r[j]
  {
    assert r[j] in multiset(r);
    if r[j] != x {
      assert r[j] in multiset(s[1..]);
      var k :| 0 <= k < |s[1..]| && s[1..][k] == r[j];
      assert s[k + 1] == r[j];
    }
  }

  /** The sort orders the values and keeps each one as often as it occurs. */
  lemma {:induction false} SortAscCorrect(s: seq<real>)
    ensures multiset(SortAsc(s)) == multiset(s)
    ensures Sorted(SortAsc(s))
  {
    if s != [] {
      SortAscCorrect(s[1..]);
      InsertAscCorrect(s[0], SortAsc(s[1..]));
      assert s == [s[0]] + s[1..];
    }
  }

  function Last<T>(s: seq<T>): T
    requires s != []
  {
    s[|s| - 1]
  }

  /** Every group holds a value. */
  predicate NonEmptyGroups(gs: seq<seq<real>>)
  {
    forall k | 0 <= k < |gs| :: gs[k] != []
  }

  /**
   * The groups the grouping loop forms: each value joins the current group when
   * it is at most 20 above that group's last value, and starts a new group otherwise.
   */
  function Clusters(s: seq<real>): (gs: seq<seq<real>>)
    ensures s == [] <==> gs == []
    ensures NonEmptyGroups(gs)
    ensures s != [] ==> gs[|gs| - 1][|gs[|gs| - 1]| - 1] == s[|s| - 1]
  {
    if s == [] then []
    else
      var gs0 := Clusters(s[..|s| - 1]);
      var x := s[|s| - 1];
      if gs0 != [] && x - Last(Last(gs0)) <= 20.0 then gs0[..|gs0| - 1] + [Last(gs0) + [x]]
      else gs0 + [[x]]
  }

  function Flatten(gs: seq<seq<real>>): seq<real>
  {
    if gs == [] then [] else Flatten(gs[..|gs| - 1]) + gs[|gs| - 1]
  }

  /** Every value lies in exactly one group, in order. */
  lemma {:induction false} ClustersPartition(s: seq<real>)
    ensures Flatten(Clusters(s)) == s
  {
    if s != [] {
      var init := s[..|s| - 1];
      var gs0 := Clusters(init);
      ClustersPartition(init);
      var x := s[|s| - 1];
      assert s == init + [x];
      if gs0 != [] && x - Last(Last(gs0)) <= 20.0 {
        assert Clusters(s) == gs0[..|gs0| - 1] + [Last(gs0) + [x]];
        FlattenExtendLast(gs0, x);
      } else {
        assert Clusters(s) == gs0 + [[x]];
        FlattenSnoc(gs0, [x]);
      }
    }
  }

  lemma {:induction false} FlattenSnoc(gs: seq<seq<real>>, g: seq<real>)
    ensures Flatten(gs + [g]) == Flatten(gs) + g
  {
    assert (gs + [g])[..|gs|] == gs;
  }

  lemma {:induction false} FlattenExtendLast(gs: seq<seq<real>>, x: real)
    requires gs != []
    ensures Flatten(gs[..|gs| - 1] + [Last(gs) + [x]]) == Flatten(gs) + [x]
  {
    var front, g := gs[..|gs| - 1], Last(gs);
    assert gs == front + [g];
    FlattenSnoc(front, g);
    FlattenSnoc(front, g + [x]);
  }

  /** Inside a group each value is at most 20 above the previous one; across groups, more than 20. */
  predicate SplitAtGaps(gs: seq<seq<real>>)
    requires NonEmptyGroups(gs)
  {
    StepsWithin(gs) && GapsBetween(gs)
  }

  predicate StepsWithin(gs: seq<seq<real>>)
  {
    forall k, i | 0 <= k < |gs| && 0 <= i < |gs[k]| - 1 :: gs[k][i + 1] - gs[k][i] <= 20.0
  }

  predicate GapsBetween(gs: seq<seq<real>>)
    requires NonEmptyGroups(gs)
  {
    forall k | 0 <= k < |gs| - 1 :: gs[k + 1][0] - Last(gs[k]) > 20.0
  }

  lemma {:induction false} ClustersSplitAtGaps(s: seq<real>)
    ensures SplitAtGaps(Clusters(s))
  {
    ClustersStepsWithin(s);
    ClustersGapsBetween(s);
  }

  lemma {:induction false} ClustersStepsWithin(s: seq<real>)
    ensures StepsWithin(Clusters(s))
  {
    if s != [] {
      var gs0 := Clusters(s[..|s| - 1]);
      ClustersStepsWithin(s[..|s| - 1]);
      var x := s[|s| - 1];
      if gs0 != [] && x - Last(Last(gs0)) <= 20.0 {
        StepsWithinExtendLast(gs0, x);
      } else {
        StepsWithinSnoc(gs0, x);
      }
    }
  }

  lemma {:induction false} StepsWithinExtendLast(gs: seq<seq<real>>, x: real)
    requires NonEmptyGroups(gs) && gs != [] && StepsWithin(gs)
    requires x - Last(Last(gs)) <= 20.0
    ensures StepsWithin(gs[..|gs| - 1] + [Last(gs) + [x]])
  {
    var r := gs[..|gs| - 1] + [Last(gs) + [x]];
    var m := |gs| - 1;
    forall k, i | 0 <= k < |r| && 0 <= i < |r[k]| - 1 ensures r[k][i + 1] - r[k][i] <= 20.0 {
      if k < m {
        assert r[k] == gs[k];
      } else if i < |gs[m]| - 1 {
        assert r[k][i + 1] == gs[m][i + 1] && r[k][i] == gs[m][i];
      } else {
        assert r[k][i] == Last(gs[m]) && r[k][i + 1] == x;
      }
    }
  }

  lemma {:induction false} StepsWithinSnoc(gs: seq<seq<real>>, x: real)
    requires StepsWithin(gs)
    ensures StepsWithin(gs + [[x]])
  {
    var r := gs + [[x]];
    forall k, i | 0 <= k < |r| && 0 <= i < |r[k]| - 1 ensures r[k][i + 1] - r[k][i] <= 20.0 {
      assert k < |gs| && r[k] == gs[k];
    }
  }

  lemma {:induction false} ClustersGapsBetween(s: seq<real>)
    ensures GapsBetween(Clusters(s))
  {
    if s != [] {
      var gs0 := Clusters(s[..|s| - 1]);
      ClustersGapsBetween(s[..|s| - 1]);
      var x := s[|s| - 1];
      if gs0 != [] && x - Last(Last(gs0)) <= 20.0 {
        GapsBetweenExtendLast(gs0, x);
      } else {
        GapsBetweenSnoc(gs0, x);
      }
    }
  }

  lemma {:induction false} GapsBetweenExtendLast(gs: seq<seq<real>>, x: real)
    requires NonEmptyGroups(gs) && gs != [] && GapsBetween(gs)
    ensures NonEmptyGroups(gs[..|gs| - 1] + [Last(gs) + [x]])
    ensures GapsBetween(gs[..|gs| - 1] + [Last(gs) + [x]])
  {
    var r := gs[..|gs| - 1] + [Last(gs) + [x]];
    var m := |gs| - 1;
    assert forall k | 0 <= k < m :: r[k] == gs[k];
    assert r[m][0] == gs[m][0];
    forall k | 0 <= k < |r| - 1 ensures r[k + 1][0] - Last(r[k]) > 20.0 {
      assert gs[k + 1][0] - Last(gs[k]) > 20.0;
    }
  }

  lemma {:induction false} GapsBetweenSnoc(gs: seq<seq<real>>, x: real)
    requires NonEmptyGroups(gs) && GapsBetween(gs)
    requires gs != [] ==> x - Last(Last(gs)) > 20.0
    ensures NonEmptyGroups(gs + [[x]])
    ensures GapsBetween(gs + [[x]])
  {
    var r := gs + [[x]];
    assert forall k | 0 <= k < |gs| :: r[k] == gs[k];
  }

  /** The groups of sorted values are sorted. */
  lemma {:induction false} ClustersOfSorted(s: seq<real>)
    requires Sorted(s)
    ensures forall k | 0 <= k < |Clusters(s)| :: Sorted(Clusters(s)[k])
  {
    if s != [] {
      var init := s[..|s| - 1];
      var gs0 := Clusters(init);
      ClustersOfSorted(init);
      var gs := Clusters(s);
      var x := s[|s| - 1];
      if gs0 != [] && x - Last(Last(gs0)) <= 20.0 {
        var m := |gs0| - 1;
        var g := gs0[m];
        assert Last(g) == init[|init| - 1];
        assert Last(g) <= x;
        assert Sorted(g);
        assert Sorted(g + [x]);
        assert forall k | 0 <= k < m :: gs[k] == gs0[k];
      } else {
        assert forall k | 0 <= k < |gs0| :: gs[k] == gs0[k];
      }
    }
  }

  function Sum(s: seq<real>): real
  {
    if s == [] then 0.0 else Sum(s[..|s| - 1]) + s[|s| - 1]
  }

  /** `sum(group) / len(group)`. */
  function Mean(g: seq<real>): real
    requires g != []
  {
    Sum(g) / (|g| as real)
  }

  function Means(gs: seq<seq<real>>): (ms: seq<real>)
    requires NonEmptyGroups(gs)
    ensures |ms| == |gs|
  {
    seq(|gs|, i requires 0 <= i < |gs| => Mean(gs[i]))
  }

  lemma {:induction false} SumBounds(g: seq<real>, lo: real, hi: real)
    requires forall i | 0 <= i < |g| :: lo <= g[i] <= hi
    ensures (|g| as real) * lo <= Sum(g) <= (|g| as real) * hi
  {
    if g != [] {
      SumBounds(g[..|g| - 1], lo, hi);
    }
  }

  /** A mean lies between the least and the greatest value of its group. */
  lemma {:induction false} MeanBounds(g: seq<real>, lo: real, hi: real)
    requires g != [] && forall i | 0 <= i < |g| :: lo <= g[i] <= hi
    ensures lo <= Mean(g) <= hi
  {
    SumBounds(g, lo, hi);
    var n := |g| as real;
    assert Mean(g) * n == Sum(g);
  }

  /** Breakpoints of sorted values come out in order, each more than 20 above the previous one, and within its group. */
  lemma {:induction false} BreakpointsSpread(s: seq<real>)
    requires Sorted(s)
    ensures |Means(Clusters(s))| <= |s|
    ensures forall k | 0 <= k < |Clusters(s)| :: Clusters(s)[k][0] <= Means(Clusters(s))[k] <= Last(Clusters(s)[k])
    ensures forall k | 0 <= k < |Clusters(s)| - 1 :: Means(Clusters(s))[k + 1] - Means(Clusters(s))[k] > 20.0
  {
    var gs := Clusters(s);
    ClustersOfSorted(s);
    ClustersSplitAtGaps(s);
    ClustersPartition(s);
    FlattenLength(gs);
    forall k | 0 <= k < |gs| ensures gs[k][0] <= Means(gs)[k] <= Last(gs[k]) {
      MeanBounds(gs[k], gs[k][0], Last(gs[k]));
    }
  }

  /** Each group holds at least one value, so there are no more groups than values. */
  lemma {:induction false} FlattenLength(gs: seq<seq<real>>)
    requires NonEmptyGroups(gs)
    ensures |gs| <= |Flatten(gs)|
  {
    if gs != [] {
      FlattenLength(gs[..|gs| - 1]);
    }
  }

  /** The grouping loop: a running group and the means of the groups already closed. */
  method GroupBreakpoints(bps: seq<real>) returns (means: seq<real>)
    ensures means == Means(Clusters(bps))
  {
    means := [];
    var current: seq<real> := if bps != [] then [bps[0]] else [];
    if bps != [] {
      var i := 1;
      assert bps[..1] == [bps[0]];
      while i < |bps|
        invariant 1 <= i <= |bps|
        invariant current != [] && current == Last(Clusters(bps[..i]))
        invariant means == Means(Clusters(bps[..i])[..|Clusters(bps[..i])| - 1])
      {
        var gs0 := Clusters(bps[..i]);
        assert bps[..i + 1][..i] == bps[..i];
        assert Last(bps[..i + 1]) == bps[i];
        if bps[i] - current[|current| - 1] <= 20.0 {
          current := current + [bps[i]];
        } else {
          means := means + [Mean(current)];
          current := [bps[i]];
          assert Clusters(bps[..i + 1])[..|gs0|] == gs0;
        }
        i := i + 1;
      }
      assert bps[..i] == bps;
    }
    if current != [] {
      means := means + [Mean(current)];
    }
  }

  /** `responsive_patterns`: several breakpoints or a few, mobile-first when any query is a `min-width` one. */
  datatype ResponsivePattern = ResponsivePattern(multiBreakpoint: bool, isMobileFirst: bool, breakpointCount: nat)

  predicate MobileFirst(qs: seq<MediaQuery>)
  {
    exists q | q in qs :: q.condition == "min"
  }

  function Responsive(qs: seq<MediaQuery>, breakpoints: seq<real>): (r: Option<ResponsivePattern>)
    ensures r.None? <==> breakpoints == []
    ensures r.Some? ==> r.value.breakpointCount == |breakpoints| && (r.value.multiBreakpoint <==> |breakpoints| >= 3)
    ensures r.Some? ==> (r.value.isMobileFirst <==> exists q | q in qs :: q.condition == "min")
  {
    if |breakpoints| >= 3 then Some(ResponsivePattern(true, MobileFirst(qs), |breakpoints|))
    else if |breakpoints| > 0 then Some(ResponsivePattern(false, MobileFirst(qs), |breakpoints|))
    else None
  }

  /** The breakpoints of the recorded queries: none without queries, else the means of the sorted pixel values' groups. */
  function Breakpoints(qs: seq<MediaQuery>): seq<real>
  {
    if qs == [] then [] else Means(Clusters(SortAsc(PxValues(qs))))
  }

  /** There is a breakpoint exactly when some query is in pixels, and never more breakpoints than such queries. */
  lemma {:induction false} BreakpointsPresent(qs: seq<MediaQuery>)
    ensures Breakpoints(qs) != [] <==> exists q | q in qs :: q.unit == "px"
    ensures |Breakpoints(qs)| <= |PxValues(qs)|
  {
    PxValuesPresent(qs);
    var s := SortAsc(PxValues(qs));
    SortAscCorrect(PxValues(qs));
    ClustersPartition(s);
    FlattenLength(Clusters(s));
  }

  lemma {:induction false} PxValuesPresent(qs: seq<MediaQuery>)
    ensures PxValues(qs) != [] <==> exists q | q in qs :: q.unit == "px"
  {
    if qs != [] {
      PxValuesPresent(qs[..|qs| - 1]);
      assert forall q | q in qs :: q in qs[..|qs| - 1] || q == Last(qs);
      assert Last(qs) in qs;
    }
  }

  // ---------------------------------------------------------------- the whole computation

  datatype Metrics = Metrics(
    spacingPatterns: seq<SpacingPattern>,
    margins: Option<Margins>,
    alignments: map<string, nat>,
    gridMetrics: GridMetrics,
    containerAnalysis: map<string, nat>,
    breakpoints: seq<real>,
    responsivePatterns: Option<ResponsivePattern>)

  method ComputeLayoutMetrics(doc: Element, spacing: seq<SpacingMatch>, media: seq<MediaMatch>) returns (m: Metrics)
    ensures m.spacingPatterns == SpacingPatterns(SpacingTable(spacing), SpacingUnits)
    ensures m.margins == MarginsOf(SpacingValues(spacing, "px"))
    ensures m.alignments == Alignments(doc)
    ensures m.gridMetrics == GridSystem(doc)
    ensures m.containerAnalysis == ContainerAnalysis(doc)
    ensures m.breakpoints == Breakpoints(MediaQueries(media))
    ensures m.responsivePatterns == Responsive(MediaQueries(media), m.breakpoints)
  {
    var units := CollectSpacing(spacing);
    var patterns := SpacingPatternsOf(units);
    var alignments, grid, containers := ClassMetrics(doc);
    var queries, breakpoints := ResponsiveBreakpoints(media);
    m := Metrics(patterns, MarginsOf(units["px"]), alignments, grid, containers,
      breakpoints, Responsive(queries, breakpoints));
  }

  /** The three class-name passes. */
  method ClassMetrics(doc: Element) returns (alignments: map<string, nat>, grid: GridMetrics, containers: map<string, nat>)
    ensures alignments == Alignments(doc) && grid == GridSystem(doc) && containers == ContainerAnalysis(doc)
  {
    containers := ContainerAnalysis(doc);
    grid := GridSystem(doc);
    alignments := Alignments(doc);
  }

  /** The media-query pass and the breakpoint grouping, which runs only when some query was recorded. */
  method ResponsiveBreakpoints(media: seq<MediaMatch>) returns (queries: seq<MediaQuery>, breakpoints: seq<real>)
    ensures queries == MediaQueries(media)
    ensures breakpoints == Breakpoints(queries)
  {
    queries := CollectMediaQueries(media);
    breakpoints := [];
    if queries != [] {
      var px := CollectPxValues(queries);
      breakpoints := GroupBreakpoints(SortAsc(px));
    }
  }
}
