/**
 * Generic sequence operations standing for the JavaScript array methods the
 * application relies on: `find`/`findIndex`, `filter`, `reduce` (a sum),
 * grouping sums, and `sort` (an insertion sort over a "comes before" test).
 */
module Seqs {
  import opened Wrappers

  /** No element occurs twice. */
  ghost predicate Distinct<T>(s: seq<T>) {
    forall i, j :: 0 <= i < j < |s| ==> s[i] != s[j]
  }

  /** In a sequence without repeats each element occurs once. */
  lemma {:induction false} DistinctOccursOnce<T>(s: seq<T>)
    requires Distinct(s)
    ensures forall x :: multiset(s)[x] <= 1
  {
    if s != [] {
      assert Distinct(s[1..]);
      DistinctOccursOnce(s[1..]);
      assert s == [s[0]] + s[1..];
      assert s[0] !in s[1..];
    }
  }

  /** An element occurring once differs from every later element. */
  lemma OnceDiffers<T>(s: seq<T>, i: nat, j: nat)
    requires i < j < |s| && multiset(s)[s[i]] <= 1
    ensures s[i] != s[j]
  {
    assert s == s[..j] + [s[j]] + s[j + 1..];
    assert s[i] in s[..j];
  }

  /** `findIndex`: the first index whose element satisfies `p`, if any. */
  function FindFirst<T>(s: seq<T>, p: T -> bool): (r: Option<nat>)
    ensures r.Some? ==> r.value < |s| && p(s[r.value])
    ensures r.Some? ==> forall j :: 0 <= j < r.value ==> !p(s[j])
    ensures r.None? <==> forall j :: 0 <= j < |s| ==> !p(s[j])
  {
    if s == [] then None
    else if p(s[0]) then Some(0)
    else match FindFirst(s[1..], p)
      case None => None
      case Some(i) => Some(i + 1)
  }

  /** Tiered search: the first element passing the first test that any
      element passes. */
  function FirstPassing<T>(s: seq<T>, tests: seq<T -> bool>): (r: Option<T>)
    ensures r.Some? ==> r.value in s
    ensures r.None? <==> forall t, j :: 0 <= t < |tests| && 0 <= j < |s| ==> !tests[t](s[j])
  {
    if tests == [] then None
    else match FindFirst(s, tests[0])
      case Some(j) => Some(s[j])
      case None =>
        var r := FirstPassing(s, tests[1..]);
        assert forall t :: 0 < t < |tests| ==> tests[t] == tests[1..][t - 1];
        r
  }

  /** Which element a tiered search returns: the first one passing test
      `t`, when no element passes an earlier test. */
  lemma {:induction false} FirstPassingDecided<T>(s: seq<T>, tests: seq<T -> bool>, t: nat, j: nat)
    requires t < |tests| && j < |s| && tests[t](s[j])
    requires forall u, i :: 0 <= u < t && 0 <= i < |s| ==> !tests[u](s[i])
    requires forall i :: 0 <= i < j ==> !tests[t](s[i])
    ensures FirstPassing(s, tests) == Some(s[j])
  {
    if t == 0 {
      var f := FindFirst(s, tests[0]);
      assert f.Some?;
    } else {
      assert FindFirst(s, tests[0]).None? by {
        assert forall i :: 0 <= i < |s| ==> !tests[0](s[i]);
      }
      FirstPassingDecided(s, tests[1..], t - 1, j);
    }
  }

  /** When no element passes the first test and the first element passes
      the second, the search returns the first element. */
  lemma SecondTestDecides<T>(s: seq<T>, tests: seq<T -> bool>)
    requires |tests| >= 2 && s != []
    requires forall j :: 0 <= j < |s| ==> !tests[0](s[j])
    requires tests[1](s[0])
    ensures FirstPassing(s, tests) == Some(s[0])
  {
    FirstPassingDecided(s, tests, 1, 0);
  }

  /** A last test that only passes elements the test before it passes
      never decides a tiered search. */
  lemma {:induction false} FirstPassingDropLast<T>(s: seq<T>, tests: seq<T -> bool>)
    requires |tests| >= 2
    requires forall j :: 0 <= j < |s| && tests[|tests| - 1](s[j]) ==> tests[|tests| - 2](s[j])
    ensures FirstPassing(s, tests) == FirstPassing(s, tests[..|tests| - 1])
  {
    var init := tests[..|tests| - 1];
    assert init[0] == tests[0];
    if FindFirst(s, tests[0]).None? {
      if |tests| == 2 {
        assert init[1..] == [];
        assert tests[1..] == [tests[1]];
        assert forall j :: 0 <= j < |s| ==> !tests[0](s[j]);
        var r := FirstPassing(s, tests[1..]);
        assert forall t, j :: 0 <= t < 1 && 0 <= j < |s| ==> !tests[1..][t](s[j]);
      } else {
        FirstPassingDropLast(s, tests[1..]);
        assert init[1..] == tests[1..][..|tests| - 2];
      }
    }
  }

  /** `filter`: the elements satisfying `p`, in their original order. */
  function Filter<T>(s: seq<T>, p: T -> bool): (r: seq<T>)
    ensures |r| <= |s|
    ensures forall i :: 0 <= i < |r| ==> r[i] in s && p(r[i])
    ensures forall i :: 0 <= i < |s| && p(s[i]) ==> s[i] in r
    ensures multiset(r) <= multiset(s)
  {
    if s == [] then []
    else
      assert s == [s[0]] + s[1..];
      (if p(s[0]) then [s[0]] else []) + Filter(s[1..], p)
  }

  lemma FilterCons<T>(x: T, s: seq<T>, p: T -> bool)
    ensures Filter([x] + s, p) == (if p(x) then [x] else []) + Filter(s, p)
  {
    assert ([x] + s)[1..] == s;
  }

  lemma {:induction false} FilterConcat<T>(a: seq<T>, b: seq<T>, p: T -> bool)
    ensures Filter(a + b, p) == Filter(a, p) + Filter(b, p)
  {
    if a != [] {
      assert (a + b)[0] == a[0] && (a + b)[1..] == a[1..] + b;
      FilterConcat(a[1..], b, p);
    } else {
      assert a + b == b;
    }
  }

  /** Filtering is the identity when every element passes. */
  lemma {:induction false} FilterAll<T>(s: seq<T>, p: T -> bool)
    requires forall x :: x in s ==> p(x)
    ensures Filter(s, p) == s
  {
    if s != [] {
      FilterAll(s[1..], p);
    }
  }

  /** `r` is `s` with some elements left out, the rest in their order. */
  ghost predicate IsSubsequence<T>(r: seq<T>, s: seq<T>)
    decreases |s|
  {
    if r == [] then true
    else if s == [] then false
    else if r[0] == s[0] then IsSubsequence(r[1..], s[1..])
    else IsSubsequence(r, s[1..])
  }

  /** Filtering keeps the relative order of what it keeps. */
  lemma {:induction false} FilterSubsequence<T>(s: seq<T>, p: T -> bool)
    ensures IsSubsequence(Filter(s, p), s)
  {
    if s != [] {
      FilterSubsequence(s[1..], p);
      var r := Filter(s, p);
      if p(s[0]) {
        assert r == [s[0]] + Filter(s[1..], p);
      } else {
        assert r == Filter(s[1..], p);
        if r != [] {
          assert p(r[0]);
        }
      }
    }
  }

  /** `splice(i, 1)`: the sequence without its i-th element. */
  function RemoveAt<T>(s: seq<T>, i: nat): (r: seq<T>)
    requires i < |s|
    ensures |r| == |s| - 1
    ensures forall k :: 0 <= k < |r| ==> r[k] == if k < i then s[k] else s[k + 1]
  {
    s[..i] + s[i + 1..]
  }

  /** `splice(i, 0, x)`: `x` inserted so that it lands at index `i`. */
  function InsertAt<T>(s: seq<T>, i: nat, x: T): (r: seq<T>)
    requires i <= |s|
    ensures |r| == |s| + 1 && r[i] == x
    ensures forall k :: 0 <= k < |r| && k != i ==> r[k] == if k < i then s[k] else s[k - 1]
  {
    s[..i] + [x] + s[i..]
  }

  /** Removing what was just inserted gives the sequence back. */
  lemma RemoveInsert<T>(s: seq<T>, i: nat, x: T)
    requires i <= |s|
    ensures RemoveAt(InsertAt(s, i, x), i) == s
  {
  }

  /** Putting back what was just removed gives the sequence back. */
  lemma InsertRemove<T>(s: seq<T>, i: nat)
    requires i < |s|
    ensures InsertAt(RemoveAt(s, i), i, s[i]) == s
  {
  }

  /** The drag-and-drop move: the element at `from` is taken out and put
      back in at index `to`. The others keep their relative order. */
  function Move<T>(s: seq<T>, from: nat, to: nat): (r: seq<T>)
    requires from < |s| && to < |s|
    ensures |r| == |s| && r[to] == s[from]
    ensures multiset(r) == multiset(s)
    ensures RemoveAt(r, to) == RemoveAt(s, from)
  {
    var rest := RemoveAt(s, from);
    MultisetRemove(s, from);
    assert rest[..to] + [s[from]] + rest[to..] == InsertAt(rest, to, s[from]);
    assert multiset(rest[..to] + [s[from]] + rest[to..]) == multiset(rest) + multiset{s[from]} by {
      assert rest == rest[..to] + rest[to..];
    }
    RemoveInsert(rest, to, s[from]);
    InsertAt(rest, to, s[from])
  }

  /** Where each element ends up: the ones between the two indices shift
      by one towards `from`, the ones outside stay where they were. */
  lemma MoveAt<T>(s: seq<T>, from: nat, to: nat)
    requires from < |s| && to < |s|
    ensures forall j :: 0 <= j < |s| ==>
      Move(s, from, to)[j] ==
        if j == to then s[from]
        else if from < to && from <= j < to then s[j + 1]
        else if to < from && to < j <= from then s[j - 1]
        else s[j]
  {
    var m := Move(s, from, to);
    forall j | 0 <= j < |s| && j != to
      ensures m[j] == RemoveAt(s, from)[if j < to then j else j - 1]
    {
    }
  }

  /** Moving an element onto its own index changes nothing. */
  lemma MoveToSelf<T>(s: seq<T>, i: nat)
    requires i < |s|
    ensures Move(s, i, i) == s
  {
    InsertRemove(s, i);
  }

  /** `reduce((sum, x) => sum + f(x), 0)`. */
  function Sum<T>(s: seq<T>, f: T -> int): int {
    if s == [] then 0 else f(s[0]) + Sum(s[1..], f)
  }

  lemma {:induction false} SumConcat<T>(a: seq<T>, b: seq<T>, f: T -> int)
    ensures Sum(a + b, f) == Sum(a, f) + Sum(b, f)
  {
    if a != [] {
      assert (a + b)[0] == a[0] && (a + b)[1..] == a[1..] + b;
      SumConcat(a[1..], b, f);
    } else {
      assert a + b == b;
    }
  }

  lemma SumRemove<T>(b: seq<T>, i: nat, f: T -> int)
    requires i < |b|
    ensures Sum(b, f) == f(b[i]) + Sum(b[..i] + b[i + 1..], f)
  {
    assert b == b[..i] + ([b[i]] + b[i + 1..]);
    SumConcat(b[..i], [b[i]] + b[i + 1..], f);
    SumCons(b[i], b[i + 1..], f);
    SumConcat(b[..i], b[i + 1..], f);
  }

  lemma SumCons<T>(x: T, s: seq<T>, f: T -> int)
    ensures Sum([x] + s, f) == f(x) + Sum(s, f)
  {
    assert ([x] + s)[1..] == s;
  }

  lemma MultisetRemove<T>(b: seq<T>, i: nat)
    requires i < |b|
    ensures multiset(b[..i] + b[i + 1..]) == multiset(b) - multiset{b[i]}
  {
    assert b == b[..i] + [b[i]] + b[i + 1..];
  }

  /** Taking the same element out of two permutations of each other leaves
      permutations of each other. */
  lemma PermutationTail<T>(a: seq<T>, b: seq<T>, i: nat)
    requires multiset(a) == multiset(b) && a != [] && i < |b| && b[i] == a[0]
    ensures multiset(a[1..]) == multiset(b[..i] + b[i + 1..])
  {
    MultisetRemove(b, i);
    MultisetRemove(a, 0);
    assert a[..0] + a[1..] == a[1..];
  }

  /** A sum does not depend on the order of its terms. */
  lemma {:induction false} SumPermutation<T>(a: seq<T>, b: seq<T>, f: T -> int)
    requires multiset(a) == multiset(b)
    ensures Sum(a, f) == Sum(b, f)
  {
    if a != [] {
      assert a[0] in multiset(b);
      var i :| 0 <= i < |b| && b[i] == a[0];
      PermutationTail(a, b, i);
      SumPermutation(a[1..], b[..i] + b[i + 1..], f);
      SumRemove(b, i, f);
    } else {
      assert |b| == |multiset(b)| == 0;
    }
  }

  /** Sums that agree term by term are equal. */
  lemma {:induction false} SumCongruent<T, U>(a: seq<T>, f: T -> int, b: seq<U>, g: U -> int)
    requires |a| == |b|
    requires forall i :: 0 <= i < |a| ==> f(a[i]) == g(b[i])
    ensures Sum(a, f) == Sum(b, g)
  {
    if a != [] {
      SumCongruent(a[1..], f, b[1..], g);
    }
  }

  /** Filtering before summing is summing with zero for the rejected terms. */
  lemma {:induction false} SumFilter<T>(s: seq<T>, p: T -> bool, f: T -> int, g: T -> int)
    requires forall x :: g(x) == if p(x) then f(x) else 0
    ensures Sum(Filter(s, p), f) == Sum(s, g)
  {
    if s != [] {
      SumFilter(s[1..], p, f, g);
      SumConcat(if p(s[0]) then [s[0]] else [], Filter(s[1..], p), f);
    }
  }

  lemma {:induction false} SumNonNegative<T>(s: seq<T>, f: T -> int)
    requires forall x :: f(x) >= 0
    ensures Sum(s, f) >= 0
  {
    if s != [] {
      SumNonNegative(s[1..], f);
    }
  }

  /** The sum of `f` over the elements whose key is `k`: one bucket of a
      grouping such as `total[key(x)] += f(x)`. */
  function SumWhere<T, K(==)>(s: seq<T>, key: T -> K, k: K, f: T -> int): int {
    if s == [] then 0 else (if key(s[0]) == k then f(s[0]) else 0) + SumWhere(s[1..], key, k, f)
  }

  /** The buckets' totals added up over a list of keys. */
  function SumOverKeys<T, K(==)>(keys: seq<K>, s: seq<T>, key: T -> K, f: T -> int): int {
    if keys == [] then 0 else SumWhere(s, key, keys[0], f) + SumOverKeys(keys[1..], s, key, f)
  }

  lemma {:induction false} SumOverKeysEmpty<T, K>(keys: seq<K>, key: T -> K, f: T -> int)
    ensures SumOverKeys(keys, [], key, f) == 0
  {
    if keys != [] {
      SumOverKeysEmpty(keys[1..], key, f);
    }
  }

  lemma {:induction false} SumOverKeysHead<T, K>(keys: seq<K>, s: seq<T>, key: T -> K, f: T -> int)
    requires Distinct(keys) && s != []
    ensures SumOverKeys(keys, s, key, f)
         == (if key(s[0]) in keys then f(s[0]) else 0) + SumOverKeys(keys, s[1..], key, f)
  {
    if keys != [] {
      assert Distinct(keys[1..]);
      SumOverKeysHead(keys[1..], s, key, f);
      assert key(s[0]) == keys[0] ==> key(s[0]) !in keys[1..];
      assert key(s[0]) in keys <==> key(s[0]) == keys[0] || key(s[0]) in keys[1..];
    }
  }

  /** Grouping loses nothing: when the keys are distinct and cover every
      element's key, the buckets add up to the plain sum. */
  lemma {:induction false} SumPartition<T, K>(keys: seq<K>, s: seq<T>, key: T -> K, f: T -> int)
    requires Distinct(keys)
    requires forall x :: x in s ==> key(x) in keys
    ensures SumOverKeys(keys, s, key, f) == Sum(s, f)
  {
    if s == [] {
      SumOverKeysEmpty(keys, key, f);
    } else {
      SumOverKeysHead(keys, s, key, f);
      SumPartition(keys, s[1..], key, f);
    }
  }

  /** Inserts `x` after the leading elements that come before it. */
  function Insert<T>(x: T, s: seq<T>, before: (T, T) -> bool): (r: seq<T>)
    ensures multiset(r) == multiset(s) + multiset{x}
  {
    if s == [] || !before(s[0], x) then [x] + s
    else
      assert s == [s[0]] + s[1..];
      [s[0]] + Insert(x, s[1..], before)
  }

  /** A stable insertion sort: `before(a, b)` means that `a` must precede `b`.
      For any test at all, consistent or not, the result is a permutation. */
  function InsertionSort<T>(s: seq<T>, before: (T, T) -> bool): (r: seq<T>)
    ensures multiset(r) == multiset(s)
    ensures |r| == |s|
  {
    if s == [] then []
    else
      assert s == [s[0]] + s[1..];
      Insert(s[0], InsertionSort(s[1..], before), before)
  }

  ghost predicate SortedBy<T>(s: seq<T>, key: T -> int) {
    forall i, j :: 0 <= i < j < |s| ==> key(s[i]) <= key(s[j])
  }

  /** The "comes before" test of an ascending sort by a numeric key. */
  function KeyBefore<T>(key: T -> int): (T, T) -> bool {
    (a: T, b: T) => key(a) < key(b)
  }

  lemma InsertElements<T>(x: T, s: seq<T>, before: (T, T) -> bool, k: nat)
    requires k < |Insert(x, s, before)|
    ensures Insert(x, s, before)[k] == x || Insert(x, s, before)[k] in s
  {
    var r := Insert(x, s, before);
    assert r[k] in multiset(r);
  }

  lemma {:induction false} InsertSorted<T>(x: T, s: seq<T>, key: T -> int)
    requires SortedBy(s, key)
    ensures SortedBy(Insert(x, s, KeyBefore(key)), key)
  {
    var before := KeyBefore(key);
    if s != [] && before(s[0], x) {
      assert key(s[0]) < key(x);
      var t := Insert(x, s[1..], before);
      InsertSorted(x, s[1..], key);
      var r := [s[0]] + t;
      assert Insert(x, s, before) == r;
      forall j | 0 <= j < |t| ensures key(s[0]) <= key(t[j]) {
        InsertElements(x, s[1..], before, j);
      }
      assert forall i, j :: 0 < i < j < |r| ==> key(r[i]) <= key(r[j]) by {
        assert forall i :: 0 < i < |r| ==> r[i] == t[i - 1];
      }
    }
  }

  /** Sorting by a numeric key yields a sequence ordered by that key. */
  lemma {:induction false} InsertionSortSorted<T>(s: seq<T>, key: T -> int)
    ensures SortedBy(InsertionSort(s, KeyBefore(key)), key)
  {
    if s != [] {
      InsertionSortSorted(s[1..], key);
      InsertSorted(s[0], InsertionSort(s[1..], KeyBefore(key)), key);
    }
  }
}
