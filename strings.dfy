/**
 * The parts of Python's `str` behaviour that the scraper, the cloner and the
 * orchestrator rely on: `in`, `find`, `startswith`, `strip`, `lower`, `split`,
 * `join`, `replace`, and the `int()` / `float()` conversions applied to the
 * attribute and CSS values they see.
 */
module Strings {
  import opened Wrappers

  /** `pat` occurs in `s` at index `i`. */
  predicate OccursAt(s: string, pat: string, i: int)
  {
    0 <= i && i + |pat| <= |s| && s[i..i + |pat|] == pat
  }

  /** Python's `pat in s` for strings. */
  predicate Contains(s: string, pat: string)
  {
    exists i | 0 <= i <= |s| - |pat| :: OccursAt(s, pat, i)
  }

  /** Python's `s.startswith(p)`. */
  predicate StartsWith(s: string, p: string)
  {
    |p| <= |s| && s[..|p|] == p
  }

  /** Python's `s.endswith(p)`. */
  predicate EndsWith(s: string, p: string)
  {
    |p| <= |s| && s[|s| - |p|..] == p
  }

  /** The first index at or after `from` where `pat` occurs, or -1. */
  function FindFrom(s: string, pat: string, from: nat): (r: int)
    ensures r == -1 || (from <= r && OccursAt(s, pat, r))
    ensures forall j :: from <= j < (if r == -1 then |s| + 1 else r) ==> !OccursAt(s, pat, j)
    decreases |s| - from
  {
    if from + |pat| > |s| then -1
    else if s[from..from + |pat|] == pat then from
    else FindFrom(s, pat, from + 1)
  }

  /** Python's `s.find(pat)`: the lowest index of an occurrence, or -1 when there is none. */
  function Find(s: string, pat: string): (r: int)
    ensures r == -1 <==> !Contains(s, pat)
    ensures r != -1 ==> OccursAt(s, pat, r) && forall j :: 0 <= j < r ==> !OccursAt(s, pat, j)
  {
    FindFrom(s, pat, 0)
  }

  lemma {:induction false} ContainsAt(s: string, pat: string, i: int)
    requires OccursAt(s, pat, i)
    ensures Contains(s, pat)
  {
  }

  /** Containment is transitive: a string holding `b` holds everything `b` holds. */
  lemma {:induction false} ContainsTransitive(a: string, b: string, c: string)
    requires Contains(a, b) && Contains(b, c)
    ensures Contains(a, c)
  {
    var i :| 0 <= i <= |a| - |b| && OccursAt(a, b, i);
    var j :| 0 <= j <= |b| - |c| && OccursAt(b, c, j);
    assert forall k | 0 <= k < |c| :: a[i + j + k] == b[j + k] == c[k];
    assert a[i + j..i + j + |c|] == c;
    assert OccursAt(a, c, i + j);
  }

  /** What occurs in a part of a concatenation occurs in the whole. */
  lemma {:induction false} ContainsConcat(a: string, b: string, p: string)
    ensures Contains(a, p) ==> Contains(a + b, p)
    ensures Contains(b, p) ==> Contains(a + b, p)
  {
    if Contains(a, p) {
      var i :| 0 <= i <= |a| - |p| && OccursAt(a, p, i);
      assert (a + b)[i..i + |p|] == a[i..i + |p|];
      assert OccursAt(a + b, p, i);
    }
    if Contains(b, p) {
      var i :| 0 <= i <= |b| - |p| && OccursAt(b, p, i);
      assert (a + b)[|a| + i..|a| + i + |p|] == b[i..i + |p|];
      assert OccursAt(a + b, p, |a| + i);
    }
  }

  /** A string contains each of its prefixes. */
  lemma {:induction false} ContainsPrefix(s: string, p: string)
    requires StartsWith(s, p)
    ensures Contains(s, p)
  {
    assert OccursAt(s, p, 0);
  }

  // ---------------------------------------------------------------- whitespace and strip

  /** The characters for which Python's `str.isspace()` holds: what `strip()` and `split()` remove. */
  const Whitespace: set<char> :=
    {9 as char, 10 as char, 11 as char, 12 as char, 13 as char,
     28 as char, 29 as char, 30 as char, 31 as char, ' ',
     0x85 as char, 0xA0 as char, 0x1680 as char,
     0x2000 as char, 0x2001 as char, 0x2002 as char, 0x2003 as char, 0x2004 as char,
     0x2005 as char, 0x2006 as char, 0x2007 as char, 0x2008 as char, 0x2009 as char,
     0x200A as char, 0x2028 as char, 0x2029 as char, 0x202F as char, 0x205F as char,
     0x3000 as char}

  /** Python's `s.lstrip(chars)`: drop leading characters from `cs`. */
  function LStripSet(s: string, cs: set<char>): (r: string)
    ensures |r| <= |s|
    ensures r == [] || r[0] !in cs
    ensures forall k :: 0 <= k < |s| - |r| ==> s[k] in cs
  {
    if s != [] && s[0] in cs then LStripSet(s[1..], cs) else s
  }

  /** Python's `s.rstrip(chars)`: drop trailing characters from `cs`. */
  function RStripSet(s: string, cs: set<char>): (r: string)
    ensures |r| <= |s|
    ensures r == [] || r[|r| - 1] !in cs
    ensures forall k :: |r| <= k < |s| ==> s[k] in cs
  {
    if s != [] && s[|s| - 1] in cs then RStripSet(s[..|s| - 1], cs) else s
  }

  /** Left-stripping keeps a suffix. */
  lemma {:induction false} LStripSetSuffix(s: string, cs: set<char>)
    ensures LStripSet(s, cs) == s[|s| - |LStripSet(s, cs)|..]
  {
    if s != [] && s[0] in cs {
      LStripSetSuffix(s[1..], cs);
    }
  }

  /** Right-stripping keeps a prefix. */
  lemma {:induction false} RStripSetPrefix(s: string, cs: set<char>)
    ensures RStripSet(s, cs) == s[..|RStripSet(s, cs)|]
  {
    if s != [] && s[|s| - 1] in cs {
      RStripSetPrefix(s[..|s| - 1], cs);
    }
  }

  /** Python's `s.strip(chars)`. */
  function StripSet(s: string, cs: set<char>): string
  {
    RStripSet(LStripSet(s, cs), cs)
  }

  /** The result of stripping has no character of `cs` at either end and is a slice of the input. */
  lemma {:induction false} StripSetTrimmed(s: string, cs: set<char>)
    ensures var r := StripSet(s, cs);
      && (r == [] || (r[0] !in cs && r[|r| - 1] !in cs))
      && exists i | 0 <= i <= |s| - |r| :: OccursAt(s, r, i)
  {
    var l := LStripSet(s, cs);
    var r := RStripSet(l, cs);
    LStripSetSuffix(s, cs);
    RStripSetPrefix(l, cs);
    if r != [] {
      assert r[0] == l[0];
    }
    var i := |s| - |l|;
    assert s[i..i + |r|] == r;
    assert OccursAt(s, r, i);
  }

  /** Neither end of a stripped string is a stripped character. */
  lemma {:induction false} StripSetEnds(s: string, cs: set<char>)
    ensures var r := StripSet(s, cs); r == [] || (r[0] !in cs && r[|r| - 1] !in cs)
  {
    var l := LStripSet(s, cs);
    var r := RStripSet(l, cs);
    LStripSetSuffix(s, cs);
    RStripSetPrefix(l, cs);
    if r != [] {
      assert r[0] == l[0];
    }
  }

  /** Python's `s.strip()`. */
  /** No whitespace at either end: what `strip()` leaves. */
  predicate Unpadded(s: string)
  {
    s == [] || (s[0] !in Whitespace && s[|s| - 1] !in Whitespace)
  }

  function Strip(s: string): string
  {
    StripSet(s, Whitespace)
  }

  // ---------------------------------------------------------------- case

  function LowerChar(c: char): char
  {
    if 'A' <= c <= 'Z' then (c as int + 32) as char else c
  }

  /** Python's `s.lower()` on ASCII letters. */
  function Lower(s: string): (r: string)
    ensures |r| == |s|
    ensures forall i :: 0 <= i < |s| ==> r[i] == LowerChar(s[i])
  {
    seq(|s|, i requires 0 <= i < |s| => LowerChar(s[i]))
  }

  // ---------------------------------------------------------------- split and join

  /** Python's `s.split(sep)` for a one-character separator: always at least one part. */
  function Split(s: string, sep: char): (parts: seq<string>)
    ensures |parts| >= 1
    ensures forall p :: p in parts ==> sep !in p
  {
    if s == [] then [[]]
    else if s[0] == sep then [[]] + Split(s[1..], sep)
    else
      var rest := Split(s[1..], sep);
      [[s[0]] + rest[0]] + rest[1..]
  }

  /** Python's `sep.join(parts)`. */
  function Join(parts: seq<string>, sep: string): string
  {
    if parts == [] then []
    else if |parts| == 1 then parts[0]
    else parts[0] + sep + Join(parts[1..], sep)
  }

  /** Joining the parts of a split with the separator gives back the original string. */
  lemma {:induction false} JoinSplit(s: string, sep: char)
    ensures Join(Split(s, sep), [sep]) == s
  {
    if s == [] {
    } else if s[0] == sep {
      JoinSplit(s[1..], sep);
      assert s == [sep] + s[1..];
    } else {
      var rest := Split(s[1..], sep);
      JoinSplit(s[1..], sep);
      if |rest| == 1 {
        assert s == [s[0]] + s[1..];
      } else {
        assert Join(rest, [sep]) == rest[0] + [sep] + Join(rest[1..], [sep]);
        assert s == [s[0]] + s[1..];
      }
    }
  }

  /** The first part of a split is the text before the first separator. */
  lemma {:induction false} SplitFirst(s: string, sep: char)
    ensures Split(s, sep)[0] == s[..SpanOutside(s, {sep})]
  {
    if s != [] && s[0] != sep {
      SplitFirst(s[1..], sep);
    }
  }

  /** Python's `s.split(sep)[-1]`. */
  function LastPart(s: string, sep: char): string
  {
    var parts := Split(s, sep);
    parts[|parts| - 1]
  }

  /** Text without the separator splits into itself alone. */
  lemma {:induction false} SplitWithoutSep(t: string, sep: char)
    requires sep !in t
    ensures Split(t, sep) == [t]
  {
    if t != [] {
      SplitWithoutSep(t[1..], sep);
      assert t == [t[0]] + t[1..];
    }
  }

  /** Whatever precedes the last separator, the last part is what follows it. */
  lemma {:induction false} LastPartAfterSep(a: string, t: string, sep: char)
    requires sep !in t
    ensures |Split(a + [sep] + t, sep)| >= 2
    ensures LastPart(a + [sep] + t, sep) == t
  {
    var s := a + [sep] + t;
    if a == [] {
      assert s[1..] == t;
      SplitWithoutSep(t, sep);
    } else {
      assert s[1..] == a[1..] + [sep] + t;
      LastPartAfterSep(a[1..], t, sep);
    }
  }

  /** Length of the longest prefix of `s` with no character of `cs`. */
  function SpanOutside(s: string, cs: set<char>): (k: nat)
    ensures k <= |s| && (k < |s| ==> s[k] in cs)
    ensures forall i | 0 <= i < k :: s[i] !in cs
  {
    if s == [] || s[0] in cs then 0 else 1 + SpanOutside(s[1..], cs)
  }

  /** Python's `s.split()` with no argument: the maximal runs of non-whitespace characters. */
  function Words(s: string): (ws: seq<string>)
    ensures forall w | w in ws :: w != [] && forall i | 0 <= i < |w| :: w[i] !in Whitespace
    decreases |s|
  {
    var t := LStripSet(s, Whitespace);
    if t == [] then []
    else
      var k := SpanOutside(t, Whitespace);
      var rest := Words(t[k..]);
      assert k >= 1 && forall i | 0 <= i < k :: t[..k][i] !in Whitespace;
      [t[..k]] + rest
  }

  // ---------------------------------------------------------------- replace

  /** Python's `s.replace(pat, rep)`: every non-overlapping occurrence, scanning left to right. */
  function ReplaceAll(s: string, pat: string, rep: string): string
    requires pat != []
    decreases |s|
  {
    if |s| < |pat| then s
    else if s[..|pat|] == pat then rep + ReplaceAll(s[|pat|..], pat, rep)
    else [s[0]] + ReplaceAll(s[1..], pat, rep)
  }

  /** Replacing a pattern that does not occur changes nothing. */
  lemma {:induction false} ReplaceAllAbsent(s: string, pat: string, rep: string)
    requires pat != [] && !Contains(s, pat)
    ensures ReplaceAll(s, pat, rep) == s
    decreases |s|
  {
    if |s| >= |pat| {
      if s[..|pat|] == pat {
        assert OccursAt(s, pat, 0);
      } else {
        if Contains(s[1..], pat) {
          var i :| 0 <= i <= |s[1..]| - |pat| && OccursAt(s[1..], pat, i);
          assert s[i + 1..i + 1 + |pat|] == s[1..][i..i + |pat|];
          assert OccursAt(s, pat, i + 1);
        }
        ReplaceAllAbsent(s[1..], pat, rep);
        assert s == [s[0]] + s[1..];
      }
    }
  }

  /** Replacing a pattern that does occur leaves the replacement in the result. */
  lemma {:induction false} ReplaceAllPresent(s: string, pat: string, rep: string)
    requires pat != [] && Contains(s, pat)
    ensures Contains(ReplaceAll(s, pat, rep), rep)
    decreases |s|
  {
    var i :| 0 <= i <= |s| - |pat| && OccursAt(s, pat, i);
    if s[..|pat|] == pat {
      assert OccursAt(rep + ReplaceAll(s[|pat|..], pat, rep), rep, 0);
    } else {
      assert i != 0;
      assert s[1..][i - 1..i - 1 + |pat|] == s[i..i + |pat|];
      assert OccursAt(s[1..], pat, i - 1);
      ReplaceAllPresent(s[1..], pat, rep);
      ContainsConcat([s[0]], ReplaceAll(s[1..], pat, rep), rep);
    }
  }

  // ---------------------------------------------------------------- numbers

  predicate IsDigit(c: char)
  {
    '0' <= c <= '9'
  }

  predicate AllDigits(d: string)
  {
    forall i | 0 <= i < |d| :: IsDigit(d[i])
  }

  /** The value of a string of decimal digits ("" is 0). */
  function DigitsValue(d: string): nat
    requires AllDigits(d)
  {
    if d == [] then 0
    else DigitsValue(d[..|d| - 1]) * 10 + ((d[|d| - 1] as int) - ('0' as int))
  }

  function Pow10(n: nat): (r: nat)
    ensures r >= 1
  {
    if n == 0 then 1 else 10 * Pow10(n - 1)
  }

  /** A decimal integer literal as Python's `int()` accepts it: digits, single underscores between digits. */
  predicate IntegerLiteral(d: string)
  {
    && |d| >= 1
    && IsDigit(d[0]) && IsDigit(d[|d| - 1])
    && (forall i | 0 <= i < |d| :: IsDigit(d[i]) || d[i] == '_')
    && (forall i | 0 <= i < |d| - 1 :: !(d[i] == '_' && d[i + 1] == '_'))
  }

  function RemoveUnderscores(d: string): (r: string)
    ensures (forall i | 0 <= i < |d| :: IsDigit(d[i]) || d[i] == '_') ==> AllDigits(r)
  {
    if d == [] then []
    else (if d[0] == '_' then [] else [d[0]]) + RemoveUnderscores(d[1..])
  }

  /** Python's `int(s)` in base 10: surrounding whitespace, an optional sign, a literal; `None` where it raises. */
  function ParseInt(s: string): Option<int>
  {
    var t := Strip(s);
    var neg := |t| > 0 && t[0] == '-';
    var body := if |t| > 0 && (t[0] == '-' || t[0] == '+') then t[1..] else t;
    if IntegerLiteral(body) then
      var v: int := DigitsValue(RemoveUnderscores(body));
      Some(if neg then -v else v)
    else None
  }

  /** A plain run of digits parses to its value. */
  lemma {:induction false} ParseIntDigits(d: string)
    requires |d| >= 1 && AllDigits(d)
    ensures ParseInt(d) == Some(DigitsValue(d) as int)
  {
    DigitNotSpace(d[0]);
    DigitNotSpace(d[|d| - 1]);
    StripUntouched(d, Whitespace);
    NoUnderscores(d);
    assert d[0] != '-' && d[0] != '+';
    assert IntegerLiteral(d);
  }

  /** A string whose two ends lie outside `cs` is its own strip. */
  lemma {:induction false} StripUntouched(s: string, cs: set<char>)
    requires s != [] && s[0] !in cs && s[|s| - 1] !in cs
    ensures StripSet(s, cs) == s
  {
    assert LStripSet(s, cs) == s;
  }

  /** A visible ASCII character is not whitespace. */
  lemma {:induction false} VisibleNotSpace(c: char)
    requires '!' <= c <= '~'
    ensures c !in Whitespace
  {
  }

  lemma {:induction false} DigitNotSpace(c: char)
    requires IsDigit(c)
    ensures c !in Whitespace
  {
  }

  lemma {:induction false} NoUnderscores(d: string)
    requires AllDigits(d)
    ensures RemoveUnderscores(d) == d
  {
    if d != [] {
      NoUnderscores(d[1..]);
      assert d == [d[0]] + d[1..];
    }
  }

  /** Text the CSS patterns capture as a number (`[\d.]+`): digits and dots only. */
  predicate NumberText(t: string)
  {
    forall i | 0 <= i < |t| :: IsDigit(t[i]) || t[i] == '.'
  }

  /** The first index of character `c` in `s`, or -1. */
  function IndexOfChar(s: string, c: char): (r: int)
    ensures -1 <= r < |s|
    ensures r == -1 ==> c !in s
    ensures r != -1 ==> s[r] == c && c !in s[..r]
  {
    if s == [] then -1
    else if s[0] == c then 0
    else
      var k := IndexOfChar(s[1..], c);
      if k == -1 then -1 else assert s[..k + 1] == [s[0]] + s[1..][..k]; k + 1
  }

  /**
   * Python's `float(t)` on text made of digits and dots: at most one dot and at least
   * one digit, else `None` (where `float` raises ValueError).
   */
  function ParseDecimal(t: string): Option<real>
    requires NumberText(t)
  {
    var k := IndexOfChar(t, '.');
    if k == -1 then
      if t == [] then None else Some(DigitsValue(t) as real)
    else
      var ip, fp := t[..k], t[k + 1..];
      if IndexOfChar(fp, '.') != -1 || (ip == [] && fp == []) then None
      else Some(DigitsValue(ip) as real + (DigitsValue(fp) as real) / (Pow10(|fp|) as real))
  }

  /** `float()` succeeds on such text exactly when it has no two dots and at least one digit. */
  lemma {:induction false} ParseDecimalDefined(t: string)
    requires NumberText(t)
    ensures ParseDecimal(t).Some? <==>
      (forall i, j | 0 <= i < j < |t| :: !(t[i] == '.' && t[j] == '.'))
      && (exists i | 0 <= i < |t| :: IsDigit(t[i]))
  {
    var k := IndexOfChar(t, '.');
    if k == -1 {
      if t != [] {
        assert IsDigit(t[0]);
      }
    } else {
      var ip, fp := t[..k], t[k + 1..];
      assert forall i | 0 <= i < k :: t[i] == ip[i];
      var k2 := IndexOfChar(fp, '.');
      if k2 != -1 {
        assert t[k + 1 + k2] == '.';
      } else {
        assert forall j | k < j < |t| :: t[j] == fp[j - k - 1];
        if ip == [] && fp == [] {
          assert t == ".";
        } else if ip != [] {
          assert IsDigit(t[0]);
        } else {
          assert IsDigit(t[k + 1]);
        }
      }
    }
  }
}
