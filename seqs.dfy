/**
 * The JavaScript array operations the pages are written with — `filter`,
 * `find`, `includes`, `map`, `reduce`, `slice`, `sort` and `new Set(...).size` —
 * as functions on sequences, with the facts about them the page models use.
 */
module Seqs {
  import opened Optional

  /** `s.filter(p)`: the elements satisfying `p`, in their original order. */
  function Filter<T(!new)>(s: seq<T>, p: T -> bool): (r: seq<T>)
    ensures |r| <= |s|
    ensures forall x :: x in r <==> x in s && p(x)
  {
    if s == [] then []
    else if p(s[0]) then [s[0]] + Filter(s[1..], p)
    else Filter(s[1..], p)
  }

  /** Filtering distributes over concatenation, so it keeps the relative order of what it keeps. */
  lemma {:induction false} FilterAppend<T(!new)>(a: seq<T>, b: seq<T>, p: T -> bool)
    ensures Filter(a + b, p) == Filter(a, p) + Filter(b, p)
  {
    if a == [] {
      assert a + b == b;
    } else {
      assert (a + b)[1..] == a[1..] + b;
      FilterAppend(a[1..], b, p);
    }
  }

  /** A filter that every element passes keeps the whole sequence. */
  lemma {:induction false} FilterAll<T(!new)>(s: seq<T>, p: T -> bool)
    requires forall x :: x in s ==> p(x)
    ensures Filter(s, p) == s
  {
    if s != [] {
      assert s[0] in s;
      FilterAll(s[1..], p);
    }
  }

  /** A filter that no element passes keeps nothing. */
  lemma {:induction false} FilterNone<T(!new)>(s: seq<T>, p: T -> bool)
    requires forall x :: x in s ==> !p(x)
    ensures Filter(s, p) == []
  {
    if s != [] {
      assert s[0] in s;
      FilterNone(s[1..], p);
    }
  }

  /** Two filters whose predicates agree on the elements give the same result. */
  lemma {:induction false} FilterCongruent<T(!new)>(s: seq<T>, p: T -> bool, q: T -> bool)
    requires forall x :: x in s ==> p(x) == q(x)
    ensures Filter(s, p) == Filter(s, q)
  {
    if s != [] {
      assert s[0] in s;
      FilterCongruent(s[1..], p, q);
    }
  }

  /** Filtering first by `p` changes nothing when everything `q` keeps satisfies `p`. */
  lemma {:induction false} FilterNarrowing<T(!new)>(s: seq<T>, p: T -> bool, q: T -> bool)
    requires forall x :: x in s && q(x) ==> p(x)
    ensures Filter(Filter(s, p), q) == Filter(s, q)
  {
    if s != [] {
      assert s[0] in s;
      FilterNarrowing(s[1..], p, q);
    }
  }

  /** A filter of a duplicate-free sequence is duplicate-free. */
  lemma {:induction false} FilterNoDup<T(!new)>(s: seq<T>, p: T -> bool)
    requires NoDup(s)
    ensures NoDup(Filter(s, p))
  {
    if s != [] {
      assert NoDup(s[1..]) by {
        forall i, j | 0 <= i < j < |s[1..]| ensures s[1..][i] != s[1..][j] {
          assert s[1..][i] == s[i + 1] && s[1..][j] == s[j + 1];
        }
      }
      FilterNoDup(s[1..], p);
      var rest := Filter(s[1..], p);
      if p(s[0]) {
        assert s[0] !in s[1..];
        assert s[0] !in rest;
        var r := [s[0]] + rest;
        assert Filter(s, p) == r;
        forall i, j | 0 <= i < j < |r| ensures r[i] != r[j] {
          if i == 0 {
            assert r[j] in rest;
          } else {
            assert r[i] == rest[i - 1] && r[j] == rest[j - 1];
          }
        }
      }
    }
  }

  /** Filtering keeps any relation that held between ordered pairs of kept elements. */
  lemma {:induction false} FilterPairwise<T(!new)>(s: seq<T>, p: T -> bool, rel: (T, T) -> bool)
    requires forall i, j :: 0 <= i < j < |s| && p(s[i]) && p(s[j]) ==> rel(s[i], s[j])
    ensures forall i, j :: 0 <= i < j < |Filter(s, p)| ==> rel(Filter(s, p)[i], Filter(s, p)[j])
  {
    if s != [] {
      var tail := s[1..];
      assert forall i, j :: 0 <= i < j < |tail| && p(tail[i]) && p(tail[j]) ==> rel(tail[i], tail[j]) by {
        forall i, j | 0 <= i < j < |tail| && p(tail[i]) && p(tail[j]) ensures rel(tail[i], tail[j]) {
          assert tail[i] == s[i + 1] && tail[j] == s[j + 1];
        }
      }
      FilterPairwise(tail, p, rel);
      var rest := Filter(tail, p);
      if p(s[0]) {
        var r := [s[0]] + rest;
        assert Filter(s, p) == r;
        forall i, j | 0 <= i < j < |r| ensures rel(r[i], r[j]) {
          if i == 0 {
            assert r[j] in rest;
            var k :| 0 <= k < |tail| && tail[k] == r[j];
            assert s[k + 1] == r[j] && p(s[k + 1]);
            assert 0 < k + 1 < |s| && p(s[0]);
            assert rel(s[0], s[k + 1]);
            assert r[0] == s[0];
          } else {
            assert r[i] == rest[i - 1] && r[j] == rest[j - 1];
            assert rel(rest[i - 1], rest[j - 1]);
          }
        }
      }
    }
  }

  /** Filtering out an element that occurs shortens the sequence. */
  lemma {:induction false} FilterDropsPresent<T(!new)>(t: seq<T>, k: T)
    requires k in t
    ensures |Filter(t, Other(k))| < |t|
  {
    if t[0] != k {
      FilterDropsPresent(t[1..], k);
    }
  }

  /**
   * Elements with pairwise distinct keys, every key occurring in `t`, are no
   * more numerous than `t`.
   */
  lemma {:induction false} DistinctKeysBounded<T(!new), U(!new)>(s: seq<T>, key: T -> U, t: seq<U>)
    requires forall i, j :: 0 <= i < j < |s| ==> key(s[i]) != key(s[j])
    requires forall x :: x in s ==> key(x) in t
    ensures |s| <= |t|
  {
    if s != [] {
      var k := key(s[0]);
      assert s[0] in s;
      var t' := Filter(t, Other(k));
      FilterDropsPresent(t, k);
      var tail := s[1..];
      forall x | x in tail ensures key(x) in t' {
        var m :| 0 <= m < |tail| && tail[m] == x;
        assert s[m + 1] == x;
      }
      assert forall i, j :: 0 <= i < j < |tail| ==> key(tail[i]) != key(tail[j]) by {
        forall i, j | 0 <= i < j < |tail| ensures key(tail[i]) != key(tail[j]) {
          assert tail[i] == s[i + 1] && tail[j] == s[j + 1];
        }
      }
      DistinctKeysBounded(tail, key, t');
    }
  }

  /** `s.filter(p).length`. */
  function Count<T(!new)>(s: seq<T>, p: T -> bool): (n: nat)
    ensures n <= |s|
  {
    |Filter(s, p)|
  }

  /** Counting is additive over concatenation. */
  lemma CountAppend<T(!new)>(a: seq<T>, b: seq<T>, p: T -> bool)
    ensures Count(a + b, p) == Count(a, p) + Count(b, p)
  {
    FilterAppend(a, b, p);
  }

  /** The elements passing `p` and those passing its negation `q` together are all elements. */
  lemma {:induction false} CountComplement<T(!new)>(s: seq<T>, p: T -> bool, q: T -> bool)
    requires forall x :: x in s ==> q(x) == !p(x)
    ensures Count(s, p) + Count(s, q) == |s|
  {
    if s != [] {
      CountComplement(s[1..], p, q);
    }
  }

  /** Counting with a weaker predicate never gives less. */
  lemma {:induction false} CountMonotone<T(!new)>(s: seq<T>, p: T -> bool, q: T -> bool)
    requires forall x :: x in s && p(x) ==> q(x)
    ensures Count(s, p) <= Count(s, q)
  {
    if s != [] {
      CountMonotone(s[1..], p, q);
    }
  }

  /** For two exclusive predicates, the count of their disjunction is the sum of their counts. */
  lemma {:induction false} CountDisjoint<T(!new)>(s: seq<T>, p: T -> bool, q: T -> bool, pq: T -> bool)
    requires forall x :: x in s ==> !(p(x) && q(x))
    requires forall x :: x in s ==> pq(x) == (p(x) || q(x))
    ensures Count(s, pq) == Count(s, p) + Count(s, q)
  {
    if s != [] {
      CountDisjoint(s[1..], p, q, pq);
    }
  }

  /** `s.every(p)` holds exactly when every element is counted. */
  lemma {:induction false} CountAll<T(!new)>(s: seq<T>, p: T -> bool)
    ensures Count(s, p) == |s| <==> forall x :: x in s ==> p(x)
  {
    if s != [] {
      CountAll(s[1..], p);
      assert s[0] in s;
      assert forall x :: x in s ==> x == s[0] || x in s[1..];
    }
  }

  /** `s.some(p)` holds exactly when something is counted. */
  lemma CountSome<T(!new)>(s: seq<T>, p: T -> bool)
    ensures Count(s, p) > 0 <==> exists x :: x in s && p(x)
  {
    if Count(s, p) > 0 {
      assert Filter(s, p)[0] in Filter(s, p);
    }
  }

  /** No element occurs twice. */
  predicate NoDup<T(==,!new)>(s: seq<T>) {
    forall i, j :: 0 <= i < j < |s| ==> s[i] != s[j]
  }

  /** `s.find(p)`: the first element satisfying `p`, if there is one. */
  function Find<T(!new)>(s: seq<T>, p: T -> bool): (r: Option<T>)
    ensures r.Some? <==> exists x :: x in s && p(x)
    ensures r.Some? ==> exists i :: 0 <= i < |s| && s[i] == r.value && p(s[i]) &&
                                    forall j :: 0 <= j < i ==> !p(s[j])
  {
    if s == [] then None
    else if p(s[0]) then Some(s[0])
    else
      var r := Find(s[1..], p);
      assert r.Some? ==> exists i :: 0 <= i < |s| - 1 && s[1..][i] == r.value && p(s[1..][i]) &&
                                     forall j :: 0 <= j < i ==> !p(s[1..][j]);
      assert forall x :: x in s && p(x) ==> x == s[0] || x in s[1..];
      r
  }

  /** `s.map(f)`. */
  function Map<T, U>(s: seq<T>, f: T -> U): (r: seq<U>)
    ensures |r| == |s|
    ensures forall i :: 0 <= i < |s| ==> r[i] == f(s[i])
  {
    seq(|s|, i requires 0 <= i < |s| => f(s[i]))
  }

  /** `s.reduce((sum, x) => sum + f(x), 0)`. */
  function Sum<T(!new)>(s: seq<T>, f: T -> int): int {
    if s == [] then 0 else f(s[0]) + Sum(s[1..], f)
  }

  /** Appending one element adds exactly its term to a sum. */
  lemma {:induction false} SumAppend<T(!new)>(s: seq<T>, x: T, f: T -> int)
    ensures Sum(s + [x], f) == Sum(s, f) + f(x)
  {
    if s == [] {
      assert s + [x] == [x];
    } else {
      assert (s + [x])[1..] == s[1..] + [x];
      SumAppend(s[1..], x, f);
    }
  }

  /** Taking one element out of a sum leaves the sum of the rest. */
  lemma {:induction false} SumRemove<T(!new)>(s: seq<T>, k: int, f: T -> int)
    requires 0 <= k < |s|
    ensures Sum(s, f) == f(s[k]) + Sum(s[..k] + s[k + 1..], f)
  {
    if k == 0 {
      assert s[..0] + s[1..] == s[1..];
    } else {
      var rest := s[1..][..k - 1] + s[1..][k..];
      SumRemove(s[1..], k - 1, f);
      assert s[..k] + s[k + 1..] == [s[0]] + rest;
      assert ([s[0]] + rest)[1..] == rest;
    }
  }

  /** A sum does not depend on the order of its terms. */
  lemma {:induction false} SumPermutation<T(!new)>(a: seq<T>, b: seq<T>, f: T -> int)
    requires multiset(a) == multiset(b)
    ensures Sum(a, f) == Sum(b, f)
    decreases |a|
  {
    if a == [] {
      assert |b| == |multiset(b)| == 0;
    } else {
      assert a[0] in multiset(b);
      var k :| 0 <= k < |b| && b[k] == a[0];
      var rest := b[..k] + b[k + 1..];
      assert b == b[..k] + [b[k]] + b[k + 1..];
      assert a == [a[0]] + a[1..];
      calc {
        multiset(rest) + multiset{a[0]};
        multiset(b[..k]) + multiset(b[k + 1..]) + multiset{b[k]};
        multiset(b);
        multiset(a);
        multiset(a[1..]) + multiset{a[0]};
      }
      assert multiset(rest) == multiset(rest) + multiset{a[0]} - multiset{a[0]};
      assert multiset(a[1..]) == multiset(a[1..]) + multiset{a[0]} - multiset{a[0]};
      SumPermutation(a[1..], rest, f);
      SumRemove(b, k, f);
    }
  }

  /** A sum of terms lying in [lo, hi] lies in [n * lo, n * hi]. */
  lemma SumBounds<T(!new)>(s: seq<T>, f: T -> int, lo: int, hi: int)
    requires forall x :: x in s ==> lo <= f(x) <= hi
    ensures |s| * lo <= Sum(s, f) <= |s| * hi
  {
    SumAtLeast(s, f, lo);
    SumAtMost(s, f, hi);
  }

  /** A sum of terms each at least `lo` is at least `n * lo`. */
  lemma {:induction false} SumAtLeast<T(!new)>(s: seq<T>, f: T -> int, lo: int)
    requires forall x :: x in s ==> lo <= f(x)
    ensures |s| * lo <= Sum(s, f)
  {
    if s != [] {
      assert s[0] in s;
      SumAtLeast(s[1..], f, lo);
      assert |s| * lo == lo + |s[1..]| * lo;
    }
  }

  /** A sum of terms each at most `hi` is at most `n * hi`. */
  lemma {:induction false} SumAtMost<T(!new)>(s: seq<T>, f: T -> int, hi: int)
    requires forall x :: x in s ==> f(x) <= hi
    ensures Sum(s, f) <= |s| * hi
  {
    if s != [] {
      assert s[0] in s;
      SumAtMost(s[1..], f, hi);
      assert |s| * hi == hi + |s[1..]| * hi;
    }
  }

  /** In a sum of non-negative terms, each term is at most the sum. */
  lemma SumTermBounded<T(!new)>(s: seq<T>, f: T -> int, k: int)
    requires forall x :: x in s ==> f(x) >= 0
    requires 0 <= k < |s|
    ensures f(s[k]) <= Sum(s, f)
  {
    var rest := s[..k] + s[k + 1..];
    SumRemove(s, k, f);
    assert forall x :: x in rest ==> x in s;
    SumAtLeast(rest, f, 0);
  }

  /** Dropping elements never raises a sum of non-negative terms. */
  lemma {:induction false} SumFilterBounded<T(!new)>(s: seq<T>, f: T -> int, p: T -> bool)
    requires forall x :: x in s ==> f(x) >= 0
    ensures Sum(Filter(s, p), f) <= Sum(s, f)
  {
    if s != [] {
      assert s[0] in s;
      SumFilterBounded(s[1..], f, p);
    }
  }

  /** `new Set(s)`: the distinct elements of `s`. */
  function ToSet<T(==,!new)>(s: seq<T>): (r: set<T>)
    ensures forall x :: x in r <==> x in s
    ensures |r| <= |s|
  {
    if s == [] then {} else {s[0]} + ToSet(s[1..])
  }

  /** `new Set(s).size`. */
  function DistinctCount<T(==,!new)>(s: seq<T>): (n: nat)
    ensures n == |set x | x in s|
    ensures n <= |s|
    ensures s != [] ==> n >= 1
  {
    var r := ToSet(s);
    assert r == set x | x in s;
    assert s != [] ==> s[0] in r;
    |r|
  }

  /** The keys `f` gives the elements of `s`, each once. */
  ghost function KeySet<T, U>(s: seq<T>, f: T -> U): set<U> {
    set x | x in s :: f(x)
  }

  /** The distinct count of the keys `f` gives the elements: the number of different keys. */
  lemma DistinctKeys<T, U(!new)>(s: seq<T>, f: T -> U)
    ensures DistinctCount(Map(s, f)) == |KeySet(s, f)|
  {
    var keys := Map(s, f);
    assert (set y | y in keys) == KeySet(s, f) by {
      forall y | y in keys ensures y in KeySet(s, f) {
        var i :| 0 <= i < |keys| && keys[i] == y;
        assert s[i] in s;
      }
      forall x | x in s ensures f(x) in keys {
        var i :| 0 <= i < |s| && s[i] == x;
        assert keys[i] == f(x);
      }
    }
  }

  /** Without duplicates, the distinct count is the length. */
  lemma {:induction false} DistinctCountNoDup<T(!new)>(s: seq<T>)
    requires NoDup(s)
    ensures DistinctCount(s) == |s|
  {
    if s != [] {
      assert NoDup(s[1..]) by {
        forall i, j | 0 <= i < j < |s[1..]| ensures s[1..][i] != s[1..][j] {
          assert s[1..][i] == s[i + 1] && s[1..][j] == s[j + 1];
        }
      }
      DistinctCountNoDup(s[1..]);
      assert s[0] !in s[1..];
      assert ToSet(s) == {s[0]} + ToSet(s[1..]);
    }
  }

  /** `(y) => y !== x`. */
  function Other<T(==)>(x: T): T -> bool {
    y => y != x
  }

  /**
   * `prev.includes(x) ? prev.filter((y) => y !== x) : [...prev, x]`: the
   * checkbox toggle used by several pages.
   */
  function Toggle<T(==,!new)>(s: seq<T>, x: T): (r: seq<T>)
    ensures x in r <==> x !in s
    ensures forall y :: y != x ==> (y in r <==> y in s)
    ensures x !in s ==> r == s + [x]
    ensures NoDup(s) ==> NoDup(r)
  {
    if x in s then
      FilterNoDupIf(s, Other(x));
      Filter(s, Other(x))
    else
      assert NoDup(s) ==> NoDup(s + [x]) by {
        if NoDup(s) {
          forall i, j | 0 <= i < j < |s + [x]| ensures (s + [x])[i] != (s + [x])[j] {
            if j == |s| { assert (s + [x])[i] == s[i]; assert s[i] in s; }
          }
        }
      }
      s + [x]
  }

  /**
   * A checkbox's `onCheckedChange`: `checked ? [...prev, x] :
   * prev.filter((y) => y !== x)`.
   */
  function SetChecked<T(==,!new)>(s: seq<T>, x: T, checked: bool): (r: seq<T>)
    ensures checked ==> r == s + [x]
    ensures !checked ==> x !in r && forall y :: y != x ==> (y in r <==> y in s)
  {
    if checked then s + [x] else Filter(s, Other(x))
  }

  /**
   * The checkbox reports the flipped state of `s.includes(x)`; with that
   * protocol the handler is the toggle.
   */
  lemma CheckedIsToggle<T(!new)>(s: seq<T>, x: T, checked: bool)
    requires checked == (x !in s)
    ensures SetChecked(s, x, checked) == Toggle(s, x)
  {
  }

  lemma FilterNoDupIf<T(!new)>(s: seq<T>, p: T -> bool)
    ensures NoDup(s) ==> NoDup(Filter(s, p))
  {
    if NoDup(s) { FilterNoDup(s, p); }
  }

  /** Ordered by a numeric key (what `sort((a, b) => key(a) - key(b))` produces). */
  predicate SortedBy<T(!new)>(s: seq<T>, key: T -> int) {
    forall i, j :: 0 <= i < j < |s| ==> key(s[i]) <= key(s[j])
  }

  /** Inserts `x` into a sorted sequence before the first element whose key is not smaller. */
  function InsertBy<T(!new)>(x: T, s: seq<T>, key: T -> int): (r: seq<T>)
    requires SortedBy(s, key)
    ensures SortedBy(r, key)
    ensures multiset(r) == multiset(s) + multiset{x}
    ensures forall y :: y in r ==> y == x || y in s
    ensures |r| == |s| + 1
  {
    if s == [] then [x]
    else if key(x) <= key(s[0]) then
      assert s == [s[0]] + s[1..];
      [x] + s
    else
      assert s == [s[0]] + s[1..];
      var rest := InsertBy(x, s[1..], key);
      SortedHead(s, key);
      SortedConsBy(s[0], rest, key);
      [s[0]] + rest
  }

  lemma SortedHead<T(!new)>(s: seq<T>, key: T -> int)
    requires SortedBy(s, key) && s != []
    ensures SortedBy(s[1..], key)
    ensures forall y :: y in s[1..] ==> key(s[0]) <= key(y)
  {
    forall y | y in s[1..] ensures key(s[0]) <= key(y) {
      var j :| 0 <= j < |s[1..]| && s[1..][j] == y;
      assert s[j + 1] == y;
    }
  }

  lemma SortedConsBy<T(!new)>(h: T, s: seq<T>, key: T -> int)
    requires SortedBy(s, key)
    requires forall y :: y in s ==> key(h) <= key(y)
    ensures SortedBy([h] + s, key)
  {
    var r := [h] + s;
    forall i, j | 0 <= i < j < |r| ensures key(r[i]) <= key(r[j]) {
      if i == 0 {
        assert r[j] == s[j - 1] && r[j] in s;
      } else {
        assert r[i] == s[i - 1] && r[j] == s[j - 1];
      }
    }
  }

  /**
   * Sorting by a numeric key, as `Array.prototype.sort` with the comparator
   * `(a, b) => key(a) - key(b)`: an insertion sort that keeps equal keys in
   * their input order.
   */
  function SortBy<T(!new)>(s: seq<T>, key: T -> int): (r: seq<T>)
    ensures SortedBy(r, key)
    ensures multiset(r) == multiset(s)
    ensures |r| == |s|
  {
    if s == [] then []
    else
      assert s == [s[0]] + s[1..];
      InsertBy(s[0], SortBy(s[1..], key), key)
  }

  /** Sorting an already sorted sequence leaves it as it is. */
  lemma {:induction false} SortBySorted<T(!new)>(s: seq<T>, key: T -> int)
    requires SortedBy(s, key)
    ensures SortBy(s, key) == s
  {
    if s != [] {
      SortedHead(s, key);
      SortBySorted(s[1..], key);
      assert s == [s[0]] + s[1..];
      if s[1..] != [] {
        assert s[1..][0] in s[1..];
      }
    }
  }

  /** `s.filter(Boolean)` over found-or-undefined values: the values found, in order. */
  function Values<T(!new)>(s: seq<Option<T>>): (r: seq<T>)
    ensures |r| <= |s|
    ensures forall x :: x in r <==> Some(x) in s
    ensures (forall o :: o in s ==> o.Some?) ==> |r| == |s| && forall i :: 0 <= i < |s| ==> r[i] == s[i].value
  {
    if s == [] then []
    else
      var rest := Values(s[1..]);
      assert forall o :: o in s ==> o == s[0] || o in s[1..];
      if s[0].Some? then [s[0].value] + rest else rest
  }

  /** `(x) => g(x)` is truthy: the lookup `g` finds something for `x`. */
  function Present<T, U>(g: T -> Option<U>): T -> bool {
    (x: T) => g(x).Some?
  }

  /**
   * `s.map(g).filter(Boolean)`: one value per element whose lookup succeeds,
   * in order, and it is that element's value.
   */
  lemma ValuesOfMap<T(!new), U(!new)>(s: seq<T>, g: T -> Option<U>)
    ensures |Values(Map(s, g))| == Count(s, Present(g))
    ensures forall i :: 0 <= i < |Values(Map(s, g))| ==> g(Filter(s, Present(g))[i]) == Some(Values(Map(s, g))[i])
  {
    ValuesOfMapLength(s, g);
    forall i | 0 <= i < |Values(Map(s, g))| ensures g(Filter(s, Present(g))[i]) == Some(Values(Map(s, g))[i]) {
      ValueOfMapAt(s, g, i);
    }
  }

  lemma {:induction false} ValuesOfMapLength<T(!new), U(!new)>(s: seq<T>, g: T -> Option<U>)
    ensures |Values(Map(s, g))| == Count(s, Present(g))
  {
    if s != [] {
      ValuesOfMapLength(s[1..], g);
      var m := Map(s, g);
      assert m[0] == g(s[0]) && m[1..] == Map(s[1..], g);
    }
  }

  lemma {:induction false} ValueOfMapAt<T(!new), U(!new)>(s: seq<T>, g: T -> Option<U>, i: int)
    requires 0 <= i < |Values(Map(s, g))|
    ensures i < Count(s, Present(g)) && g(Filter(s, Present(g))[i]) == Some(Values(Map(s, g))[i])
  {
    ValuesOfMapLength(s, g);
    var m := Map(s, g);
    assert m[0] == g(s[0]) && m[1..] == Map(s[1..], g);
    var vs, vt := Values(m), Values(Map(s[1..], g));
    var f, ft := Filter(s, Present(g)), Filter(s[1..], Present(g));
    if g(s[0]).Some? {
      assert vs == [g(s[0]).value] + vt;
      assert f == [s[0]] + ft;
      if i > 0 {
        ValueOfMapAt(s[1..], g, i - 1);
      }
    } else {
      assert vs == vt && f == ft;
      ValueOfMapAt(s[1..], g, i);
    }
  }

  /** `(x) => p(x) ? 1 : 0`. */
  function Indicator<T>(p: T -> bool): T -> int {
    (x: T) => if p(x) then 1 else 0
  }

  /** A count is the sum of the indicator of its predicate. */
  lemma {:induction false} CountIsSum<T(!new)>(s: seq<T>, p: T -> bool)
    ensures Count(s, p) == Sum(s, Indicator(p))
  {
    if s != [] {
      CountIsSum(s[1..], p);
    }
  }

  /** A count does not depend on the order of the elements. */
  lemma CountPermutation<T(!new)>(a: seq<T>, b: seq<T>, p: T -> bool)
    requires multiset(a) == multiset(b)
    ensures Count(a, p) == Count(b, p)
  {
    CountIsSum(a, p);
    CountIsSum(b, p);
    SumPermutation(a, b, Indicator(p));
  }

  /** Filtering keeps every copy of a kept value and no copy of a dropped one. */
  lemma {:induction false} FilterMultiplicity<T(!new)>(s: seq<T>, p: T -> bool, x: T)
    ensures multiset(Filter(s, p))[x] == if p(x) then multiset(s)[x] else 0
  {
    if s != [] {
      FilterMultiplicity(s[1..], p, x);
      assert s == [s[0]] + s[1..];
      assert multiset(s) == multiset([s[0]]) + multiset(s[1..]);
      if p(s[0]) {
        assert multiset(Filter(s, p)) == multiset([s[0]]) + multiset(Filter(s[1..], p));
      }
    }
  }

  /** Filtering two rearrangements of one sequence gives two rearrangements of one result. */
  lemma FilterPermutation<T(!new)>(a: seq<T>, b: seq<T>, p: T -> bool)
    requires multiset(a) == multiset(b)
    ensures multiset(Filter(a, p)) == multiset(Filter(b, p))
  {
    forall x ensures multiset(Filter(a, p))[x] == multiset(Filter(b, p))[x] {
      FilterMultiplicity(a, p, x);
      FilterMultiplicity(b, p, x);
    }
  }

  /** `s.slice(0, n)`. */
  function Take<T(!new)>(s: seq<T>, n: nat): (r: seq<T>)
    ensures |r| == if |s| < n then |s| else n
    ensures r == s[..|r|]
  {
    if |s| <= n then s else s[..n]
  }
}
