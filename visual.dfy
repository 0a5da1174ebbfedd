/**
 * The button detection of `_identify_visual_elements` (backend/app/scraper.py):
 * which elements count as buttons, how their inline `style` attribute is read,
 * and the record kept for each.
 */
module Visual {
  import opened Wrappers
  import opened Strings
  import opened Dom

  /** A `button`; an `input` of type button, submit or reset; or an `a` with the class `btn` or `button`. */
  predicate IsButton(e: Element)
  {
    || e.tag == "button"
    || (e.tag == "input" && Attr(e, "type").Some? && Attr(e, "type").value in ["button", "submit", "reset"])
    || (e.tag == "a" && e.classes != [] && exists c | c in e.classes :: c in ["btn", "button"])
  }

  /** Some class contains `primary`. */
  predicate IsPrimary(e: Element)
  {
    e.classes != [] && exists c | c in e.classes :: Contains(c, "primary")
  }

  // ---------------------------------------------------------------- the style attribute

  /** A declaration of the style text: a `;`-separated piece holding a `:`. */
  predicate Declares(prop: string)
  {
    ':' in prop
  }

  /** `key.strip()` of `key, value = prop.split(':', 1)`. */
  function PropKey(prop: string): (k: string)
    requires Declares(prop)
    ensures Unpadded(k)
  {
    var i := IndexOfChar(prop, ':');
    StripSetEnds(prop[..i], Whitespace);
    Strip(prop[..i])
  }

  /** `value.strip()` of `key, value = prop.split(':', 1)`: everything after the first `:`. */
  function PropValue(prop: string): (v: string)
    requires Declares(prop)
    ensures Unpadded(v)
  {
    var i := IndexOfChar(prop, ':');
    StripSetEnds(prop[i + 1..], Whitespace);
    Strip(prop[i + 1..])
  }

  /** The style dict built from the pieces: each declaration in turn sets its key. */
  function StyleOf(props: seq<string>): map<string, string>
  {
    if props == [] then map[]
    else
      var p := props[|props| - 1];
      var m := StyleOf(props[..|props| - 1]);
      if Declares(p) then m[PropKey(p) := PropValue(p)] else m
  }

  /** The style dict of a `style` attribute. */
  function ParsedStyle(styleText: string): map<string, string>
  {
    StyleOf(Split(styleText, ';'))
  }

  /** The parsing loop over the `;`-separated pieces. */
  method ParseStyle(styleText: string) returns (style: map<string, string>)
    ensures style == ParsedStyle(styleText)
  {
    var props := Split(styleText, ';');
    style := map[];
    var i := 0;
    while i < |props|
      invariant 0 <= i <= |props|
      invariant style == StyleOf(props[..i])
    {
      StyleOfStep(props, i);
      var prop := props[i];
      if ':' in prop {
        var k := IndexOfChar(prop, ':');
        var key, value := prop[..k], prop[k + 1..];
        style := style[Strip(key) := Strip(value)];
      }
      i := i + 1;
    }
    assert props[..i] == props;
  }

  lemma {:induction false} StyleOfStep(props: seq<string>, i: nat)
    requires i < |props|
    ensures StyleOf(props[..i + 1]) ==
      if Declares(props[i]) then StyleOf(props[..i])[PropKey(props[i]) := PropValue(props[i])] else StyleOf(props[..i])
  {
    assert props[..i + 1][..i] == props[..i];
  }

  /** The last declaration setting `key`, if any. */
  function LastSetting(props: seq<string>, key: string): (r: Option<nat>)
    ensures r.Some? ==> r.value < |props| && Declares(props[r.value]) && PropKey(props[r.value]) == key
    ensures r.Some? ==> forall j | r.value < j < |props| :: !(Declares(props[j]) && PropKey(props[j]) == key)
    ensures r.None? ==> forall j | 0 <= j < |props| :: !(Declares(props[j]) && PropKey(props[j]) == key)
  {
    if props == [] then None
    else
      var p := props[|props| - 1];
      if Declares(p) && PropKey(p) == key then Some(|props| - 1)
      else LastSetting(props[..|props| - 1], key)
  }

  /** A key is in the style exactly when some declaration sets it, and it holds the value of the last such one. */
  lemma {:induction false} StyleLastWins(props: seq<string>, key: string)
    ensures key in StyleOf(props) <==> LastSetting(props, key).Some?
    ensures key in StyleOf(props) ==> StyleOf(props)[key] == PropValue(props[LastSetting(props, key).value])
  {
    if props != [] {
      var init := props[..|props| - 1];
      StyleLastWins(init, key);
      var p := props[|props| - 1];
      if !(Declares(p) && PropKey(p) == key) {
        var r := LastSetting(init, key);
        if r.Some? {
          assert init[r.value] == props[r.value];
        }
      }
    }
  }

  /** Every key and value of the style is stripped. */
  lemma {:induction false} StyleStripped(props: seq<string>)
    ensures forall k | k in StyleOf(props) :: Unpadded(k) && Unpadded(StyleOf(props)[k])
  {
    if props != [] {
      var init := props[..|props| - 1];
      var p := props[|props| - 1];
      StyleStripped(init);
      if Declares(p) {
        assert StyleOf(props) == StyleOf(init)[PropKey(p) := PropValue(p)];
      } else {
        assert StyleOf(props) == StyleOf(init);
      }
    }
  }

  /** A value keeps the colons after the first one: `a: b:c` sets `a` to `b:c`. */
  lemma StyleSplitsAtFirstColon()
    ensures ParsedStyle("a: b:c") == map["a" := "b:c"]
  {
    var s := "a: b:c";
    SplitWithoutSep(s, ';');
    ExampleKey();
    ExampleValue();
    var none: seq<string> := [];
    assert [s][..0] == none;
    assert StyleOf([s]) == StyleOf(none)[PropKey(s) := PropValue(s)];
  }

  lemma ExampleKey()
    ensures PropKey("a: b:c") == "a"
  {
    var s := "a: b:c";
    assert IndexOfChar(s, ':') == 1;
    assert s[..1] == "a";
    VisibleNotSpace('a');
    StripUntouched("a", Whitespace);
  }

  lemma ExampleValue()
    ensures PropValue("a: b:c") == "b:c"
  {
    var s := "a: b:c";
    assert IndexOfChar(s, ':') == 1;
    assert s[2..] == " b:c";
    assert LStripSet(" b:c", Whitespace) == LStripSet("b:c", Whitespace);
    VisibleNotSpace('b');
    VisibleNotSpace('c');
    StripUntouched("b:c", Whitespace);
  }

  // ---------------------------------------------------------------- the button records

  /** What is recorded for a button (its `type` is always "button"). */
  datatype Button = Button(
    text: string, classes: seq<string>, id: string, styles: map<string, string>, isPrimary: bool, path: string)

  /** The record for one located button. */
  function ButtonOf(l: Located): Button
  {
    var e := l.element;
    Button(GetText(e), e.classes, e.id.GetOr(""),
      if Truthy(Attr(e, "style")) then ParsedStyle(Attr(e, "style").value) else map[],
      IsPrimary(e), PathOf(l))
  }

  /** The buttons among the `button`, `a` and `input` elements, in document order. */
  function Buttons(ls: seq<Located>): (r: seq<Button>)
    ensures |r| <= |ls|
  {
    if ls == [] then []
    else
      var l := ls[|ls| - 1];
      Buttons(ls[..|ls| - 1]) + (if l.element.tag in ["button", "a", "input"] && IsButton(l.element) then [ButtonOf(l)] else [])
  }

  /** The detection loop. */
  method FindButtons(doc: Element) returns (buttons: seq<Button>)
    ensures buttons == Buttons(AllElements(doc))
  {
    var all := AllElements(doc);
    buttons := [];
    var i := 0;
    while i < |all|
      invariant 0 <= i <= |all|
      invariant buttons == Buttons(all[..i])
    {
      assert all[..i + 1][..i] == all[..i];
      var l := all[i];
      var button := l.element;
      if button.tag in ["button", "a", "input"] && IsButton(button) {
        var style: map<string, string> := map[];
        if Truthy(Attr(button, "style")) {
          style := ParseStyle(Attr(button, "style").value);
        }
        var path := ElementPath(button, l.ancestors);
        buttons := buttons + [Button(GetText(button), button.classes, button.id.GetOr(""), style, IsPrimary(button), path)];
      }
      i := i + 1;
    }
    assert all[..i] == all;
  }

  /** Exactly the button elements are recorded, one record each. */
  lemma {:induction false} ButtonsAreButtons(ls: seq<Located>)
    ensures |Buttons(ls)| == |Filter(ls, (l: Located) => IsButton(l.element))|
    ensures forall b | b in Buttons(ls) :: exists l | l in ls :: IsButton(l.element) && b == ButtonOf(l)
  {
    if ls != [] {
      var init := ls[..|ls| - 1];
      ButtonsAreButtons(init);
      FilterSnoc(init, ls[|ls| - 1], (l: Located) => IsButton(l.element));
      assert ls == init + [ls[|ls| - 1]];
    }
  }

  lemma {:induction false} FilterSnoc<T>(s: seq<T>, x: T, p: T -> bool)
    ensures Filter(s + [x], p) == Filter(s, p) + (if p(x) then [x] else [])
  {
    if s != [] {
      FilterSnoc(s[1..], x, p);
      assert (s + [x])[1..] == s[1..] + [x];
    }
  }
}
