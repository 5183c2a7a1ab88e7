/** The array operations the components apply to their lists: `filter`, `map`,
    `[...new Set(xs)]`, `indexOf`, and the order-preserving-subsequence relation
    the filtered lists stand in to their sources. */
module Lists {

  /** `s.filter(p)`: the elements of `s` that satisfy `p`, in their original order. */
  function Filter<T>(s: seq<T>, p: T -> bool): (r: seq<T>)
    ensures |r| <= |s|
    ensures forall i :: 0 <= i < |r| ==> p(r[i])
  {
    if s == [] then [] else (if p(s[0]) then [s[0]] else []) + Filter(s[1..], p)
  }

  /** `s.map(f)`. */
  function Map<T, U>(s: seq<T>, f: T -> U): (r: seq<U>)
    ensures |r| == |s|
    ensures forall i :: 0 <= i < |s| ==> r[i] == f(s[i])
  {
    if s == [] then [] else [f(s[0])] + Map(s[1..], f)
  }

  /** `a` is obtained from `b` by deleting elements: what is left keeps its order. */
  ghost predicate IsSubsequence<T>(a: seq<T>, b: seq<T>)
    decreases |b|
  {
    a == [] || (b != [] && ((a[0] == b[0] && IsSubsequence(a[1..], b[1..])) || IsSubsequence(a, b[1..])))
  }

  /** No element occurs twice. */
  predicate Distinct<T(==)>(s: seq<T>)
  {
    forall i, j :: 0 <= i < j < |s| ==> s[i] != s[j]
  }

  /** `s.indexOf(x)` for an element that is present: the position of its first occurrence. */
  function IndexOf<T(==)>(s: seq<T>, x: T): (i: nat)
    requires x in s
    ensures i < |s| && s[i] == x && x !in s[..i]
  {
    if s[0] == x then 0 else 1 + IndexOf(s[1..], x)
  }

  /** `[...new Set(s)]`: a JavaScript Set iterates in insertion order, so each
      element is kept at its first occurrence and later repeats are dropped. */
  function Dedupe<T(==)>(s: seq<T>): (r: seq<T>)
    ensures forall i :: 0 <= i < |r| ==> r[i] in s
    ensures forall i :: 0 <= i < |s| ==> s[i] in r
    ensures Distinct(r)
  {
    if s == [] then []
    else
      var init, last := s[..|s| - 1], s[|s| - 1];
      assert s == init + [last];
      var r := Dedupe(init);
      if last in r then r else r + [last]
  }

  lemma {:induction false} FilterMembership<T>(s: seq<T>, p: T -> bool, x: T)
    ensures x in Filter(s, p) <==> x in s && p(x)
  {
    if s != [] {
      FilterMembership(s[1..], p, x);
      assert s == [s[0]] + s[1..];
    }
  }

  lemma {:induction false} FilterIsSubsequence<T>(s: seq<T>, p: T -> bool)
    ensures IsSubsequence(Filter(s, p), s)
  {
    if s != [] {
      FilterIsSubsequence(s[1..], p);
      var rest := Filter(s[1..], p);
      if p(s[0]) {
        assert Filter(s, p) == [s[0]] + rest;
        assert ([s[0]] + rest)[1..] == rest;
      } else {
        assert Filter(s, p) == rest;
      }
    }
  }

  lemma {:induction false} SubsequenceTransitive<T>(a: seq<T>, b: seq<T>, c: seq<T>)
    requires IsSubsequence(a, b) && IsSubsequence(b, c)
    ensures IsSubsequence(a, c)
    decreases |c|
  {
    if a != [] {
      if b[0] == c[0] && IsSubsequence(b[1..], c[1..]) {
        if a[0] == b[0] && IsSubsequence(a[1..], b[1..]) {
          SubsequenceTransitive(a[1..], b[1..], c[1..]);
        } else {
          SubsequenceTransitive(a, b[1..], c[1..]);
        }
      } else {
        SubsequenceTransitive(a, b, c[1..]);
      }
    }
  }

  /** Filtering with a predicate every element satisfies gives the list back. */
  lemma {:induction false} FilterAll<T>(s: seq<T>, p: T -> bool)
    requires forall i :: 0 <= i < |s| ==> p(s[i])
    ensures Filter(s, p) == s
  {
    if s != [] {
      FilterAll(s[1..], p);
      assert s == [s[0]] + s[1..];
    }
  }

  /** Filtering with a predicate no element satisfies gives the empty list. */
  lemma {:induction false} FilterNone<T>(s: seq<T>, p: T -> bool)
    requires forall i :: 0 <= i < |s| ==> !p(s[i])
    ensures Filter(s, p) == []
  {
    if s != [] {
      FilterNone(s[1..], p);
    }
  }

  /** Two filters in a row keep what both predicates accept, in either order. */
  lemma {:induction false} FilterFilter<T>(s: seq<T>, p: T -> bool, q: T -> bool)
    ensures Filter(Filter(s, p), q) == Filter(s, x => p(x) && q(x))
    ensures Filter(Filter(s, p), q) == Filter(Filter(s, q), p)
  {
    var pq: T -> bool := x => p(x) && q(x);
    if s != [] {
      var a, t := s[0], s[1..];
      FilterFilter(t, p, q);
      var fp := if p(a) then [a] else [];
      var fq := if q(a) then [a] else [];
      assert Filter(s, p) == fp + Filter(t, p);
      assert Filter(s, q) == fq + Filter(t, q);
      FilterConcat(fp, Filter(t, p), q);
      FilterConcat(fq, Filter(t, q), p);
      SingletonFilter(a, p);
      SingletonFilter(a, q);
      assert Filter(fp, q) == Filter(fq, p) == (if pq(a) then [a] else []);
      assert Filter(s, pq) == (if pq(a) then [a] else []) + Filter(t, pq);
    }
  }

  lemma SingletonFilter<T>(a: T, p: T -> bool)
    ensures Filter([a], p) == if p(a) then [a] else []
    ensures Filter([], p) == []
  {
    assert [a][1..] == [];
  }

  /** What survives a second filter passed the first test too. */
  lemma FilterTwiceKeepsFirstTest<T>(s: seq<T>, p: T -> bool, q: T -> bool)
    ensures forall i :: 0 <= i < |Filter(Filter(s, p), q)| ==> p(Filter(Filter(s, p), q)[i])
  {
    var r := Filter(Filter(s, p), q);
    forall i | 0 <= i < |r|
      ensures p(r[i])
    {
      FilterMembership(Filter(s, p), q, r[i]);
      FilterMembership(s, p, r[i]);
    }
  }

  /** Removing repeats from a list whose elements pass a test leaves a list
      whose elements pass it. */
  lemma DedupeKeepsTest<T>(s: seq<T>, p: T -> bool)
    requires forall i :: 0 <= i < |s| ==> p(s[i])
    ensures forall i :: 0 <= i < |Dedupe(s)| ==> p(Dedupe(s)[i])
  {
    var r := Dedupe(s);
    forall i | 0 <= i < |r|
      ensures p(r[i])
    {
      assert r[i] in s;
      var j :| 0 <= j < |s| && s[j] == r[i];
    }
  }

  lemma {:induction false} FilterConcat<T>(a: seq<T>, b: seq<T>, p: T -> bool)
    ensures Filter(a + b, p) == Filter(a, p) + Filter(b, p)
  {
    if a != [] {
      assert (a + b)[1..] == a[1..] + b;
      FilterConcat(a[1..], b, p);
    } else {
      assert a + b == b;
    }
  }

  /** Two predicates that never hold together select at most all of the list between them. */
  lemma {:induction false} DisjointFiltersFit<T>(s: seq<T>, p: T -> bool, q: T -> bool)
    requires forall i :: 0 <= i < |s| ==> !(p(s[i]) && q(s[i]))
    ensures |Filter(s, p)| + |Filter(s, q)| <= |s|
  {
    if s != [] {
      DisjointFiltersFit(s[1..], p, q);
    }
  }

  lemma IndexOfIsFirst<T>(s: seq<T>, x: T, k: nat)
    requires k < |s| && s[k] == x && x !in s[..k]
    ensures IndexOf(s, x) == k
  {
  }

  /** Every element of `r` occurs in `s`, and `r` lists them in the order of
      their first occurrences in `s`. */
  predicate InFirstOccurrenceOrder<T(==)>(r: seq<T>, s: seq<T>)
  {
    forall i, j :: 0 <= i < j < |r| ==> OccursBefore(s, r[i], r[j])
  }

  /** `x` and `y` occur in `s`, `x` first. */
  predicate OccursBefore<T(==)>(s: seq<T>, x: T, y: T)
  {
    x in s && y in s && IndexOf(s, x) < IndexOf(s, y)
  }

  /** Dedupe lists the distinct elements ordered by where each first occurs. */
  lemma {:induction false} DedupeFirstOccurrenceOrder<T>(s: seq<T>)
    ensures forall i, j :: 0 <= i < j < |Dedupe(s)| ==> IndexOf(s, Dedupe(s)[i]) < IndexOf(s, Dedupe(s)[j])
  {
    if s != [] {
      var init, last := s[..|s| - 1], s[|s| - 1];
      assert s == init + [last];
      DedupeFirstOccurrenceOrder(init);
      var r := Dedupe(init);
      forall y | y in init
        ensures IndexOf(s, y) == IndexOf(init, y)
      {
        var k := IndexOf(init, y);
        assert s[..k] == init[..k];
        IndexOfIsFirst(s, y, k);
      }
      if last !in r {
        assert s[..|init|] == init;
        IndexOfIsFirst(s, last, |init|);
        forall i, j | 0 <= i < j < |r + [last]|
          ensures IndexOf(s, (r + [last])[i]) < IndexOf(s, (r + [last])[j])
        {
          assert (r + [last])[i] == r[i];
          if j < |r| {
            assert (r + [last])[j] == r[j];
          }
        }
      }
    }
  }

  /** Filtering keeps the relative order of first occurrences. */
  lemma {:induction false} FilterKeepsFirstOrder<T>(s: seq<T>, p: T -> bool, x: T, y: T)
    requires x in Filter(s, p) && y in Filter(s, p)
    requires IndexOf(Filter(s, p), x) < IndexOf(Filter(s, p), y)
    ensures x in s && y in s && IndexOf(s, x) < IndexOf(s, y)
  {
    FilterMembership(s, p, x);
    FilterMembership(s, p, y);
    var f, rest := Filter(s, p), Filter(s[1..], p);
    if s[0] == x {
    } else if p(s[0]) {
      assert f == [s[0]] + rest;
      assert y != s[0];
      FilterKeepsFirstOrder(s[1..], p, x, y);
    } else {
      assert f == rest;
      FilterKeepsFirstOrder(s[1..], p, x, y);
    }
  }

  /** The test of `s.filter(x => key(x) !== k)`. */
  function KeyIsNot<T, K(==)>(key: T -> K, k: K): T -> bool
  {
    x => key(x) != k
  }

  /** `s.filter(x => key(x) !== k)`: the list without the entries whose key is `k`. */
  function WithoutKey<T, K(==)>(s: seq<T>, key: T -> K, k: K): seq<T>
  {
    Filter(s, KeyIsNot(key, k))
  }

  /** Removal drops exactly the entries with that key, keeps the others in
      order, and changes nothing when no entry has the key. */
  lemma WithoutKeyExactly<T, K>(s: seq<T>, key: T -> K, k: K, x: T)
    ensures x in WithoutKey(s, key, k) <==> x in s && key(x) != k
    ensures IsSubsequence(WithoutKey(s, key, k), s)
    ensures (forall i :: 0 <= i < |s| ==> key(s[i]) != k) ==> WithoutKey(s, key, k) == s
  {
    FilterMembership(s, KeyIsNot(key, k), x);
    FilterIsSubsequence(s, KeyIsNot(key, k));
    if forall i :: 0 <= i < |s| ==> key(s[i]) != k {
      FilterAll(s, KeyIsNot(key, k));
    }
  }

  /** Removing a key twice is removing it once, and two removals commute. */
  lemma WithoutKeyIdempotentCommutes<T, K>(s: seq<T>, key: T -> K, a: K, b: K)
    ensures WithoutKey(WithoutKey(s, key, a), key, a) == WithoutKey(s, key, a)
    ensures WithoutKey(WithoutKey(s, key, a), key, b) == WithoutKey(WithoutKey(s, key, b), key, a)
  {
    FilterAll(WithoutKey(s, key, a), KeyIsNot(key, a));
    FilterFilter(s, KeyIsNot(key, a), KeyIsNot(key, b));
  }

  /** Removing and then filtering is filtering and then removing. */
  lemma WithoutKeyFilterCommute<T, K>(s: seq<T>, key: T -> K, k: K, p: T -> bool)
    ensures Filter(WithoutKey(s, key, k), p) == WithoutKey(Filter(s, p), key, k)
  {
    FilterFilter(s, KeyIsNot(key, k), p);
  }

  /** `Dedupe` lists its elements in the order of their first occurrences. */
  lemma DedupeOrdered<T>(s: seq<T>)
    ensures InFirstOccurrenceOrder(Dedupe(s), s)
  {
    var r := Dedupe(s);
    DedupeFirstOccurrenceOrder(s);
    forall i, j | 0 <= i < j < |r|
      ensures OccursBefore(s, r[i], r[j])
    {
      assert r[i] in s && r[j] in s;
    }
  }

  /** An order of first occurrences in a filtered list is one in the list. */
  lemma OrderSurvivesFilter<T>(r: seq<T>, s: seq<T>, p: T -> bool)
    requires InFirstOccurrenceOrder(r, Filter(s, p))
    ensures InFirstOccurrenceOrder(r, s)
  {
    forall i, j | 0 <= i < j < |r|
      ensures OccursBefore(s, r[i], r[j])
    {
      assert OccursBefore(Filter(s, p), r[i], r[j]);
      FilterKeepsFirstOrder(s, p, r[i], r[j]);
    }
  }
}
