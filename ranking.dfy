/**
 * Frequency ranking as the extractors use it: a dict or `Counter` of
 * occurrences in first-seen key order, ordered by `sorted(..., reverse=True)`
 * (or `most_common`, which Python defines to be the same stable sort), and cut
 * to its first `n` entries.
 */
module Ranking {

  /** No value occurs twice. */
  predicate Distinct<T(==)>(s: seq<T>)
  {
    forall i, j | 0 <= i < j < |s| :: s[i] != s[j]
  }

  /** The distinct values of `xs` in order of first appearance: the key order of a dict built from them. */
  function FirstSeen<K(==)>(xs: seq<K>): (r: seq<K>)
    ensures forall k | k in r :: k in xs
    ensures forall k | k in xs :: k in r
    ensures Distinct(r)
  {
    if xs == [] then []
    else
      var r0 := FirstSeen(xs[..|xs| - 1]);
      var x := xs[|xs| - 1];
      assert forall k | k in xs :: k in xs[..|xs| - 1] || k == x;
      if x in r0 then r0 else r0 + [x]
  }

  /** Each distinct value with the number of its occurrences, in first-seen order. */
  function Tally<K(==)>(xs: seq<K>): (r: seq<(K, nat)>)
    ensures |r| == |FirstSeen(xs)|
    ensures forall i | 0 <= i < |r| :: r[i] == (FirstSeen(xs)[i], multiset(xs)[FirstSeen(xs)[i]])
  {
    var ks := FirstSeen(xs);
    seq(|ks|, i requires 0 <= i < |ks| => (ks[i], multiset(xs)[ks[i]]))
  }

  /** Counts never increase from left to right. */
  predicate NonIncreasing<T>(s: seq<(T, nat)>)
  {
    forall i, j | 0 <= i < j < |s| :: s[i].1 >= s[j].1
  }

  /** Insert `p` before the first entry whose count it reaches, so it precedes the equal counts behind it. */
  function Insert<T>(p: (T, nat), s: seq<(T, nat)>): (r: seq<(T, nat)>)
    ensures |r| == |s| + 1
  {
    if s == [] || p.1 >= s[0].1 then [p] + s else [s[0]] + Insert(p, s[1..])
  }

  /** A stable sort by count, largest first: `sorted(s, key=count, reverse=True)`. */
  function SortDesc<T>(s: seq<(T, nat)>): (r: seq<(T, nat)>)
    ensures |r| == |s|
  {
    if s == [] then [] else Insert(s[0], SortDesc(s[1..]))
  }

  /** The entries of `s` with count `c`, in their order in `s`. */
  function WithCount<T>(s: seq<(T, nat)>, c: nat): seq<(T, nat)>
  {
    if s == [] then [] else (if s[0].1 == c then [s[0]] else []) + WithCount(s[1..], c)
  }

  /** The first `n` entries (`s[:n]`). */
  function Take<T>(s: seq<T>, n: nat): (r: seq<T>)
    ensures |r| == if n <= |s| then n else |s|
    ensures forall i | 0 <= i < |r| :: r[i] == s[i]
  {
    if n <= |s| then s[..n] else s
  }

  /** `Counter(xs).most_common(n)`, equally `sorted(counts.items(), key=count, reverse=True)[:n]`. */
  function MostCommon<K(==)>(xs: seq<K>, n: nat): seq<(K, nat)>
  {
    Take(SortDesc(Tally(xs)), n)
  }

  /** The keys of a ranking, in order. */
  function Keys<T>(s: seq<(T, nat)>): (r: seq<T>)
    ensures |r| == |s| && forall i | 0 <= i < |s| :: r[i] == s[i].0
  {
    seq(|s|, i requires 0 <= i < |s| => s[i].0)
  }

  // ---------------------------------------------------------------- the sort

  lemma {:induction false} InsertPermutes<T>(p: (T, nat), s: seq<(T, nat)>)
    ensures multiset(Insert(p, s)) == multiset(s) + multiset{p}
  {
    if s != [] && p.1 < s[0].1 {
      InsertPermutes(p, s[1..]);
      assert s == [s[0]] + s[1..];
    }
  }

  lemma {:induction false} InsertNonIncreasing<T>(p: (T, nat), s: seq<(T, nat)>)
    requires NonIncreasing(s)
    ensures NonIncreasing(Insert(p, s))
  {
    if s != [] && p.1 < s[0].1 {
      InsertNonIncreasing(p, s[1..]);
      InsertPermutes(p, s[1..]);
      var r := Insert(p, s[1..]);
      forall j | 0 <= j < |r| ensures s[0].1 >= r[j].1 {
        assert r[j] in multiset(s[1..]) + multiset{p};
      }
    }
  }

  lemma {:induction false} InsertWithCount<T>(p: (T, nat), s: seq<(T, nat)>, c: nat)
    ensures WithCount(Insert(p, s), c) == (if p.1 == c then [p] else []) + WithCount(s, c)
  {
    if s == [] || p.1 >= s[0].1 {
      WithCountCons(p, s, c);
    } else {
      var r := Insert(p, s[1..]);
      InsertWithCount(p, s[1..], c);
      assert Insert(p, s) == [s[0]] + r;
      WithCountCons(s[0], r, c);
      assert s == [s[0]] + s[1..];
      WithCountCons(s[0], s[1..], c);
    }
  }

  lemma {:induction false} WithCountCons<T>(x: (T, nat), s: seq<(T, nat)>, c: nat)
    ensures WithCount([x] + s, c) == (if x.1 == c then [x] else []) + WithCount(s, c)
  {
    assert ([x] + s)[1..] == s;
  }

  /** The sort is a permutation, its result is non-increasing, and equal counts keep their order. */
  lemma {:induction false} SortDescCorrect<T>(s: seq<(T, nat)>)
    ensures multiset(SortDesc(s)) == multiset(s)
    ensures NonIncreasing(SortDesc(s))
    ensures forall c: nat :: WithCount(SortDesc(s), c) == WithCount(s, c)
  {
    if s != [] {
      SortDescCorrect(s[1..]);
      InsertPermutes(s[0], SortDesc(s[1..]));
      InsertNonIncreasing(s[0], SortDesc(s[1..]));
      assert s == [s[0]] + s[1..];
      forall c: nat ensures WithCount(SortDesc(s), c) == WithCount(s, c) {
        InsertWithCount(s[0], SortDesc(s[1..]), c);
      }
    }
  }

  lemma {:induction false} DistinctByMultiset<T>(s: seq<T>)
    requires forall x | x in s :: multiset(s)[x] == 1
    ensures Distinct(s)
  {
    forall i, j | 0 <= i < j < |s| ensures s[i] != s[j] {
      var x := s[j];
      assert s == s[..j] + [x] + s[j + 1..];
      assert multiset(s) == multiset(s[..j]) + multiset{x} + multiset(s[j + 1..]);
      assert multiset(s)[x] == 1;
      assert multiset(s[..j])[x] == 0;
      assert s[i] in s[..j];
    }
  }

  lemma {:induction false} MultisetOfDistinct<T>(s: seq<T>)
    requires Distinct(s)
    ensures forall x | x in s :: multiset(s)[x] == 1
  {
    if s != [] {
      MultisetOfDistinct(s[1..]);
      assert s == [s[0]] + s[1..];
      assert s[0] !in s[1..];
    }
  }

  // ---------------------------------------------------------------- the ranking

  /** Every entry of the sorted tally is a value of `xs` with its true count, and no entry repeats. */
  lemma {:induction false} SortedTallyEntries<K>(xs: seq<K>)
    ensures forall e | e in SortDesc(Tally(xs)) :: e.0 in xs && e.1 == multiset(xs)[e.0]
    ensures Distinct(SortDesc(Tally(xs)))
  {
    var t := Tally(xs);
    var s := SortDesc(t);
    SortDescCorrect(t);
    forall e | e in s ensures e.0 in xs && e.1 == multiset(xs)[e.0] {
      assert e in multiset(t);
    }
    assert Distinct(t) by {
      forall i, j | 0 <= i < j < |t| ensures t[i] != t[j] {
        assert FirstSeen(xs)[i] != FirstSeen(xs)[j];
      }
    }
    MultisetOfDistinct(t);
    DistinctByMultiset(s);
  }

  /** `most_common(n)` keeps `min(n, #distinct)` distinct values of `xs`, each with its true count. */
  lemma {:induction false} MostCommonEntries<K>(xs: seq<K>, n: nat)
    ensures var r := MostCommon(xs, n);
      && |r| == (if n <= |FirstSeen(xs)| then n else |FirstSeen(xs)|)
      && (forall i | 0 <= i < |r| :: r[i].0 in xs && r[i].1 == multiset(xs)[r[i].0])
      && Distinct(Keys(r))
  {
    var s := SortDesc(Tally(xs));
    var r := MostCommon(xs, n);
    SortedTallyEntries(xs);
    assert Distinct(Keys(r)) by {
      forall i, j | 0 <= i < j < |r| ensures r[i].0 != r[j].0 {
        assert s[i] != s[j];
        assert s[i] in s && s[j] in s;
      }
    }
  }

  /** `most_common(n)` lists counts largest first, and values of equal count in first-seen order. */
  lemma {:induction false} MostCommonOrdered<K>(xs: seq<K>, n: nat)
    ensures NonIncreasing(MostCommon(xs, n))
    ensures forall c: nat :: WithCount(MostCommon(xs, n), c) <= WithCount(Tally(xs), c)
  {
    var s := SortDesc(Tally(xs));
    SortDescCorrect(Tally(xs));
    forall c: nat ensures WithCount(MostCommon(xs, n), c) <= WithCount(Tally(xs), c) {
      TakeWithCount(s, n, c);
    }
  }

  /** A value `most_common(n)` leaves out occurs no more often than the last value it keeps. */
  lemma {:induction false} MostCommonExcluded<K>(xs: seq<K>, n: nat, k: K)
    requires n > 0 && k in xs && k !in Keys(MostCommon(xs, n))
    ensures MostCommon(xs, n) != []
    ensures multiset(xs)[k] <= MostCommon(xs, n)[|MostCommon(xs, n)| - 1].1
  {
    var t := Tally(xs);
    var s := SortDesc(t);
    var r := MostCommon(xs, n);
    SortDescCorrect(t);
    var i :| 0 <= i < |FirstSeen(xs)| && FirstSeen(xs)[i] == k;
    assert t[i] in multiset(s);
    var j :| 0 <= j < |s| && s[j] == t[i];
    assert j >= |r|;
    assert s[|r| - 1].1 >= s[j].1;
  }

  lemma {:induction false} TakeWithCount<T>(s: seq<(T, nat)>, n: nat, c: nat)
    ensures WithCount(Take(s, n), c) <= WithCount(s, c)
  {
    if s != [] && n > 0 {
      TakeWithCount(s[1..], n - 1, c);
      assert Take(s, n)[1..] == Take(s[1..], n - 1);
    } else if s != [] {
      assert Take(s, n) == [];
    }
  }
}
