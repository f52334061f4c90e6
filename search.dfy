/**
 * Sorted-array search and insertion (src/renderer/src/search.ts).
 *
 * The searches read a snapshot of the array; `insert` and `insertUnique`
 * splice into a `List`, the model of a JavaScript array that they change in
 * place. A keyed search looks at `key(elems[k])` instead of `elems[k]`:
 * the key is a projection `T -> K`, and `Project(elems, key)` is the
 * sequence of keys the search compares against.
 */
module SortedSearch {

  /** A comparator's verdict, the source's `-1 | 0 | 1`. */
  type Ordering = x: int | -1 <= x <= 1

  /** `a` is ordered at or before `b`. */
  ghost predicate AtMost<K>(cmp: (K, K) -> Ordering, a: K, b: K)
  {
    cmp(a, b) <= 0
  }

  /**
   * A comparator that behaves as a total preorder: swapping the arguments
   * negates the verdict, and "at most" is transitive.
   */
  ghost predicate IsComparator<K(!new)>(cmp: (K, K) -> Ordering)
  {
    && (forall a, b :: cmp(a, b) == -cmp(b, a))
    && (forall a, b, c {:trigger AtMost(cmp, a, b), AtMost(cmp, b, c)} ::
          AtMost(cmp, a, b) && AtMost(cmp, b, c) ==> AtMost(cmp, a, c))
  }

  ghost predicate Sorted<K>(keys: seq<K>, cmp: (K, K) -> Ordering)
  {
    forall i, j :: 0 <= i < j < |keys| ==> cmp(keys[i], keys[j]) <= 0
  }

  /** The precondition under which a binary search means something. */
  ghost predicate Ordered<K(!new)>(keys: seq<K>, cmp: (K, K) -> Ordering)
  {
    IsComparator(cmp) && Sorted(keys, cmp)
  }

  lemma AtMostTransitive<K(!new)>(cmp: (K, K) -> Ordering, a: K, b: K, c: K)
    requires IsComparator(cmp)
    requires cmp(a, b) <= 0 && cmp(b, c) <= 0
    ensures cmp(a, c) <= 0
  {
    assert AtMost(cmp, a, b) && AtMost(cmp, b, c);
  }

  lemma LessLeft<K(!new)>(cmp: (K, K) -> Ordering, a: K, b: K, c: K)
    requires IsComparator(cmp)
    requires cmp(a, b) <= 0 && cmp(b, c) < 0
    ensures cmp(a, c) < 0
  {
    assert AtMost(cmp, a, b);
    assert AtMost(cmp, c, a) ==> AtMost(cmp, c, b);
  }

  lemma LessRight<K(!new)>(cmp: (K, K) -> Ordering, a: K, b: K, c: K)
    requires IsComparator(cmp)
    requires cmp(a, b) < 0 && cmp(b, c) <= 0
    ensures cmp(a, c) < 0
  {
    assert AtMost(cmp, b, c);
    assert AtMost(cmp, c, a) ==> AtMost(cmp, b, a);
  }

  /** The keys a keyed search compares against. */
  function Project<T, K>(a: seq<T>, key: T -> K): (keys: seq<K>)
    ensures |keys| == |a|
    ensures forall i :: 0 <= i < |a| ==> keys[i] == key(a[i])
  {
    ProjectFrom(a, key, |a|)
  }

  function ProjectFrom<T, K>(a: seq<T>, key: T -> K, n: nat): (keys: seq<K>)
    requires n <= |a|
    ensures |keys| == n
    ensures forall i :: 0 <= i < n ==> keys[i] == key(a[i])
  {
    if n == 0 then [] else ProjectFrom(a, key, n - 1) + [key(a[n - 1])]
  }

  // ---------------------------------------------------------------------
  // binarySearchResult
  // ---------------------------------------------------------------------

  /** Encodes an insertion point as a negative result, and decodes it back. */
  function BinarySearchResult(result: int): (r: int)
    ensures result >= 0 <==> r < 0
  {
    -result - 1
  }

  lemma BinarySearchResultInvolution(result: int)
    ensures BinarySearchResult(BinarySearchResult(result)) == result
  {
  }

  // ---------------------------------------------------------------------
  // binarySearch and keyedBinarySearch
  // ---------------------------------------------------------------------

  /** The probe `(n + m) >> 1`, exact while `n + m` fits in 31 bits. */
  function Midpoint(m: int, n: int): (k: int)
    requires 0 <= m <= n
    ensures m <= k <= n
  {
    (m + n) / 2
  }

  /** The outcome of the search loop once it has narrowed to `[m, n]`. */
  function SearchIn<K>(keys: seq<K>, t: K, cmp: (K, K) -> Ordering, m: int, n: int): (r: int)
    requires 0 <= m <= n + 1 <= |keys|
    decreases n - m + 1
    ensures r >= 0 ==> m <= r <= n && cmp(t, keys[r]) == 0
    ensures r < 0 ==> m <= BinarySearchResult(r) <= n + 1
    ensures r < 0 && BinarySearchResult(r) > m ==> cmp(t, keys[BinarySearchResult(r) - 1]) > 0
    ensures r < 0 && BinarySearchResult(r) <= n ==> cmp(t, keys[BinarySearchResult(r)]) < 0
  {
    if m > n then BinarySearchResult(m)
    else
      var k := Midpoint(m, n);
      if cmp(t, keys[k]) > 0 then SearchIn(keys, t, cmp, k + 1, n)
      else if cmp(t, keys[k]) < 0 then SearchIn(keys, t, cmp, m, k - 1)
      else k
  }

  /** What `binarySearch(keys, t, cmp)` returns. */
  function Search<K>(keys: seq<K>, t: K, cmp: (K, K) -> Ordering): (r: int)
    ensures r >= 0 ==> r < |keys| && cmp(t, keys[r]) == 0
    ensures r < 0 ==> 0 <= BinarySearchResult(r) <= |keys|
  {
    SearchIn(keys, t, cmp, 0, |keys| - 1)
  }

  /** On an ordered array, everything up to an element below `t` is below `t`. */
  lemma LessUpTo<K(!new)>(keys: seq<K>, t: K, cmp: (K, K) -> Ordering, k: int)
    requires Ordered(keys, cmp)
    requires 0 <= k < |keys| && cmp(t, keys[k]) > 0
    ensures forall i :: 0 <= i < k + 1 ==> cmp(keys[i], t) < 0
  {
    forall i | 0 <= i < k + 1
      ensures cmp(keys[i], t) < 0
    {
      assert cmp(keys[i], keys[k]) <= 0 by {
        if i == k { assert cmp(keys[k], keys[k]) == -cmp(keys[k], keys[k]); }
      }
      LessLeft(cmp, keys[i], keys[k], t);
    }
  }

  /** On an ordered array, everything from an element above `t` on is above `t`. */
  lemma GreaterFrom<K(!new)>(keys: seq<K>, t: K, cmp: (K, K) -> Ordering, k: int)
    requires Ordered(keys, cmp)
    requires 0 <= k < |keys| && cmp(t, keys[k]) < 0
    ensures forall i :: k <= i < |keys| ==> cmp(keys[i], t) > 0
  {
    forall i | k <= i < |keys|
      ensures cmp(keys[i], t) > 0
    {
      assert cmp(keys[k], keys[i]) <= 0 by {
        if i == k { assert cmp(keys[k], keys[k]) == -cmp(keys[k], keys[k]); }
      }
      LessRight(cmp, t, keys[k], keys[i]);
    }
  }

  /**
   * On an ordered array a negative result decodes to the insertion point:
   * everything before it is less than `t`, everything from it on greater.
   */
  lemma SearchMiss<K(!new)>(keys: seq<K>, t: K, cmp: (K, K) -> Ordering)
    requires Ordered(keys, cmp)
    ensures var r := Search(keys, t, cmp);
      r < 0 ==>
        && 0 <= BinarySearchResult(r) <= |keys|
        && (forall i :: 0 <= i < BinarySearchResult(r) ==> cmp(keys[i], t) < 0)
        && (forall i :: BinarySearchResult(r) <= i < |keys| ==> cmp(keys[i], t) > 0)
  {
    var r := Search(keys, t, cmp);
    if r < 0 {
      var p := BinarySearchResult(r);
      if p > 0 {
        LessUpTo(keys, t, cmp, p - 1);
      }
      if p < |keys| {
        GreaterFrom(keys, t, cmp, p);
      }
    }
  }

  /** On an ordered array the search hits exactly when an equivalent element exists. */
  lemma SearchFound<K(!new)>(keys: seq<K>, t: K, cmp: (K, K) -> Ordering)
    requires Ordered(keys, cmp)
    ensures Search(keys, t, cmp) >= 0 <==> exists i :: 0 <= i < |keys| && cmp(keys[i], t) == 0
  {
    var r := Search(keys, t, cmp);
    if r >= 0 {
      assert cmp(keys[r], t) == 0;
    } else {
      SearchMiss(keys, t, cmp);
    }
  }

  method BinarySearch<T>(elems: seq<T>, element: T, comparator: (T, T) -> Ordering) returns (r: int)
    ensures r == Search(elems, element, comparator)
  {
    ghost var goal := Search(elems, element, comparator);
    var m, n := 0, |elems| - 1;
    while m <= n
      invariant 0 <= m <= n + 1 <= |elems|
      invariant SearchIn(elems, element, comparator, m, n) == goal
      decreases n - m
    {
      var k := Midpoint(m, n);
      var cmp := comparator(element, elems[k]);
      if cmp > 0 {
        m := k + 1;
      } else if cmp < 0 {
        n := k - 1;
      } else {
        return k;
      }
    }
    return BinarySearchResult(m);
  }

  /** One step of the search: the midpoint's comparison picks the half the answer lies in. */
  lemma SearchInStep<K>(keys: seq<K>, t: K, cmp: (K, K) -> Ordering, m: int, n: int)
    requires 0 <= m <= n < |keys|
    ensures var k := Midpoint(m, n);
      && (cmp(t, keys[k]) > 0 ==> SearchIn(keys, t, cmp, m, n) == SearchIn(keys, t, cmp, k + 1, n))
      && (cmp(t, keys[k]) < 0 ==> SearchIn(keys, t, cmp, m, n) == SearchIn(keys, t, cmp, m, k - 1))
      && (cmp(t, keys[k]) == 0 ==> SearchIn(keys, t, cmp, m, n) == k)
  {
  }

  method KeyedBinarySearch<T, K>(elems: seq<T>, key: T -> K, target: K, comparator: (K, K) -> Ordering)
    returns (r: int)
    ensures r == Search(Project(elems, key), target, comparator)
  {
    ghost var keys := Project(elems, key);
    ghost var goal := Search(keys, target, comparator);
    var m, n := 0, |elems| - 1;
    while m <= n
      invariant 0 <= m <= n + 1 <= |elems|
      invariant SearchIn(keys, target, comparator, m, n) == goal
      decreases n - m
    {
      var k := Midpoint(m, n);
      var cmp := comparator(target, key(elems[k]));
      assert cmp == comparator(target, keys[k]);
      SearchInStep(keys, target, comparator, m, n);
      if cmp > 0 {
        m := k + 1;
      } else if cmp < 0 {
        n := k - 1;
      } else {
        return k;
      }
    }
    return BinarySearchResult(m);
  }

  // ---------------------------------------------------------------------
  // findAll and keyedFindAll
  // ---------------------------------------------------------------------

  /** The start of the run of equivalents of `t` that ends at index `i`. */
  function RunStart<K>(keys: seq<K>, t: K, cmp: (K, K) -> Ordering, i: int): (lo: int)
    requires -1 <= i < |keys|
    decreases i + 1
    ensures 0 <= lo <= i + 1
  {
    if i >= 0 && cmp(keys[i], t) == 0 then RunStart(keys, t, cmp, i - 1) else i + 1
  }

  /** `RunStart` finds the maximal run: all of `[lo, i]` is equivalent, and `keys[lo - 1]` is not. */
  lemma {:induction false} RunStartMaximal<K>(keys: seq<K>, t: K, cmp: (K, K) -> Ordering, i: int)
    requires -1 <= i < |keys|
    decreases i + 1
    ensures var lo := RunStart(keys, t, cmp, i);
      && (forall j :: lo <= j <= i ==> cmp(keys[j], t) == 0)
      && (lo > 0 ==> cmp(keys[lo - 1], t) != 0)
  {
    if i >= 0 && cmp(keys[i], t) == 0 {
      RunStartMaximal(keys, t, cmp, i - 1);
    }
  }

  /** The end (exclusive) of the run of equivalents of `t` that starts at index `i`. */
  function RunEnd<K>(keys: seq<K>, t: K, cmp: (K, K) -> Ordering, i: int): (hi: int)
    requires 0 <= i <= |keys|
    decreases |keys| - i
    ensures i <= hi <= |keys|
  {
    if i < |keys| && cmp(keys[i], t) == 0 then RunEnd(keys, t, cmp, i + 1) else i
  }

  /** `RunEnd` finds the maximal run: all of `[i, hi)` is equivalent, and `keys[hi]` is not. */
  lemma {:induction false} RunEndMaximal<K>(keys: seq<K>, t: K, cmp: (K, K) -> Ordering, i: int)
    requires 0 <= i <= |keys|
    decreases |keys| - i
    ensures var hi := RunEnd(keys, t, cmp, i);
      && (forall j :: i <= j < hi ==> cmp(keys[j], t) == 0)
      && (hi < |keys| ==> cmp(keys[hi], t) != 0)
  {
    if i < |keys| && cmp(keys[i], t) == 0 {
      RunEndMaximal(keys, t, cmp, i + 1);
    }
  }

  /**
   * What `findAll` returns: nothing on a miss; otherwise the run scanned
   * leftwards from the hit `k` (in elems order, ending with `a[k]`) followed
   * by the run scanned rightwards from `k` (starting again with `a[k]`).
   */
  function Around<T, K>(a: seq<T>, keys: seq<K>, t: K, cmp: (K, K) -> Ordering): seq<T>
    requires |a| == |keys|
  {
    var k := Search(keys, t, cmp);
    if k < 0 then [] else a[RunStart(keys, t, cmp, k)..k + 1] + a[k..RunEnd(keys, t, cmp, k)]
  }

  lemma AroundHit<T, K>(a: seq<T>, keys: seq<K>, t: K, cmp: (K, K) -> Ordering, k: int)
    requires |a| == |keys| && k == Search(keys, t, cmp) && k >= 0
    ensures Around(a, keys, t, cmp) == a[RunStart(keys, t, cmp, k)..k + 1] + a[k..RunEnd(keys, t, cmp, k)]
  {
  }

  /** Reference definition: the elements whose key is equivalent to `t`, in elems order. */
  function Equivalents<T, K>(a: seq<T>, keys: seq<K>, t: K, cmp: (K, K) -> Ordering): seq<T>
    requires |a| == |keys|
    decreases |a|
  {
    if a == [] then []
    else (if cmp(keys[0], t) == 0 then [a[0]] else []) + Equivalents(a[1..], keys[1..], t, cmp)
  }

  /** When the equivalents are exactly those in `[lo, hi)`, they are the slice `a[lo..hi]`. */
  lemma {:induction false} EquivalentsOfRun<T, K>(a: seq<T>, keys: seq<K>, t: K, cmp: (K, K) -> Ordering, lo: int, hi: int)
    requires |a| == |keys| && 0 <= lo <= hi <= |a|
    requires forall j :: 0 <= j < |keys| ==> (lo <= j < hi <==> cmp(keys[j], t) == 0)
    decreases |a|
    ensures Equivalents(a, keys, t, cmp) == a[lo..hi]
  {
    if a != [] {
      var lo', hi' := if lo > 0 then lo - 1 else 0, if hi > 0 then hi - 1 else 0;
      var rest := keys[1..];
      forall j | 0 <= j < |rest|
        ensures lo' <= j < hi' <==> cmp(rest[j], t) == 0
      {
        assert rest[j] == keys[j + 1];
      }
      EquivalentsOfRun(a[1..], rest, t, cmp, lo', hi');
      assert a[1..][lo'..hi'] == a[lo' + 1..hi' + 1];
      if lo == 0 && hi > 0 {
        assert cmp(keys[0], t) == 0;
        assert a[lo..hi] == [a[0]] + a[1..hi];
      } else {
        assert cmp(keys[0], t) != 0;
        assert a[lo..hi] == a[lo' + 1..hi' + 1];
      }
    }
  }

  /** On an ordered array everything before the run around a hit is less than `t`. */
  lemma BeforeRunLess<K(!new)>(keys: seq<K>, t: K, cmp: (K, K) -> Ordering, k: int)
    requires Ordered(keys, cmp) && 0 <= k < |keys| && cmp(keys[k], t) == 0
    ensures RunStart(keys, t, cmp, k) <= k
    ensures forall j :: 0 <= j < RunStart(keys, t, cmp, k) ==> cmp(keys[j], t) < 0
  {
    var lo := RunStart(keys, t, cmp, k);
    RunStartMaximal(keys, t, cmp, k);
    if lo > 0 {
      AtMostTransitive(cmp, keys[lo - 1], keys[k], t);
      forall j | 0 <= j < lo - 1
        ensures cmp(keys[j], t) < 0
      {
        LessLeft(cmp, keys[j], keys[lo - 1], t);
      }
    }
  }

  /** On an ordered array everything after the run around a hit is greater than `t`. */
  lemma AfterRunGreater<K(!new)>(keys: seq<K>, t: K, cmp: (K, K) -> Ordering, k: int)
    requires Ordered(keys, cmp) && 0 <= k < |keys| && cmp(keys[k], t) == 0
    ensures k < RunEnd(keys, t, cmp, k)
    ensures forall j :: RunEnd(keys, t, cmp, k) <= j < |keys| ==> cmp(keys[j], t) > 0
  {
    var hi := RunEnd(keys, t, cmp, k);
    RunEndMaximal(keys, t, cmp, k);
    if hi < |keys| {
      AtMostTransitive(cmp, t, keys[k], keys[hi]);
      forall j | hi < j < |keys|
        ensures cmp(keys[j], t) > 0
      {
        LessRight(cmp, t, keys[hi], keys[j]);
      }
    }
  }

  /**
   * On an ordered array the run `[lo, hi)` around a hit `k` holds exactly
   * the elements equivalent to `t`.
   */
  lemma RunIsAllEquivalents<K(!new)>(keys: seq<K>, t: K, cmp: (K, K) -> Ordering, k: int)
    requires Ordered(keys, cmp) && 0 <= k < |keys| && cmp(keys[k], t) == 0
    ensures var lo, hi := RunStart(keys, t, cmp, k), RunEnd(keys, t, cmp, k);
      && lo <= k < hi
      && forall j :: 0 <= j < |keys| ==> (lo <= j < hi <==> cmp(keys[j], t) == 0)
  {
    BeforeRunLess(keys, t, cmp, k);
    AfterRunGreater(keys, t, cmp, k);
    RunStartMaximal(keys, t, cmp, k);
    RunEndMaximal(keys, t, cmp, k);
  }

  /** The equivalents up to and including `k` are the part of the run `[lo, hi)` up to `k`. */
  lemma EquivalentsUpTo<T, K>(a: seq<T>, keys: seq<K>, t: K, cmp: (K, K) -> Ordering, lo: int, k: int, hi: int)
    requires |a| == |keys| && 0 <= lo <= k < hi <= |a|
    requires forall j :: 0 <= j < |keys| ==> (lo <= j < hi <==> cmp(keys[j], t) == 0)
    ensures Equivalents(a[..k + 1], keys[..k + 1], t, cmp) == a[lo..k + 1]
  {
    var prefix := keys[..k + 1];
    forall j | 0 <= j < |prefix|
      ensures lo <= j < k + 1 <==> cmp(prefix[j], t) == 0
    {
      assert prefix[j] == keys[j];
    }
    EquivalentsOfRun(a[..k + 1], prefix, t, cmp, lo, k + 1);
    assert a[..k + 1][lo..k + 1] == a[lo..k + 1];
  }

  /** The equivalents from `k` on are the part of the run `[lo, hi)` from `k` on. */
  lemma EquivalentsFrom<T, K>(a: seq<T>, keys: seq<K>, t: K, cmp: (K, K) -> Ordering, lo: int, k: int, hi: int)
    requires |a| == |keys| && 0 <= lo <= k < hi <= |a|
    requires forall j :: 0 <= j < |keys| ==> (lo <= j < hi <==> cmp(keys[j], t) == 0)
    ensures Equivalents(a[k..], keys[k..], t, cmp) == a[k..hi]
  {
    var suffix := keys[k..];
    forall j | 0 <= j < |suffix|
      ensures 0 <= j < hi - k <==> cmp(suffix[j], t) == 0
    {
      assert suffix[j] == keys[k + j];
    }
    EquivalentsOfRun(a[k..], suffix, t, cmp, 0, hi - k);
    assert a[k..][0..hi - k] == a[k..hi];
  }

  /** On an ordered array `findAll` comes back empty exactly when no element is equivalent. */
  lemma FindAllEmpty<T, K(!new)>(a: seq<T>, keys: seq<K>, t: K, cmp: (K, K) -> Ordering)
    requires |a| == |keys| && Ordered(keys, cmp)
    ensures Around(a, keys, t, cmp) == [] <==> forall j :: 0 <= j < |keys| ==> cmp(keys[j], t) != 0
  {
    var k := Search(keys, t, cmp);
    SearchFound(keys, t, cmp);
    if k >= 0 {
      assert cmp(keys[k], t) == 0;
      var hi := RunEnd(keys, t, cmp, k);
      assert hi == RunEnd(keys, t, cmp, k + 1);
      assert a[k..hi][0] == a[k];
    }
  }

  /**
   * On an ordered array, after a hit `k`: the run `[lo, hi)` around it holds
   * exactly the equivalents, and `findAll` returns `a[lo..k+1] + a[k..hi]`,
   * all equivalents up to the hit and all from the hit on, so `a[k]` twice.
   */
  lemma FindAllHit<T, K(!new)>(a: seq<T>, keys: seq<K>, t: K, cmp: (K, K) -> Ordering, k: int)
    requires |a| == |keys| && Ordered(keys, cmp)
    requires k == Search(keys, t, cmp) && k >= 0
    ensures RunStart(keys, t, cmp, k) <= k < RunEnd(keys, t, cmp, k)
    ensures forall j :: 0 <= j < |keys| ==>
      (RunStart(keys, t, cmp, k) <= j < RunEnd(keys, t, cmp, k) <==> cmp(keys[j], t) == 0)
    ensures Around(a, keys, t, cmp) == a[RunStart(keys, t, cmp, k)..k + 1] + a[k..RunEnd(keys, t, cmp, k)]
    ensures Around(a, keys, t, cmp)
         == Equivalents(a[..k + 1], keys[..k + 1], t, cmp) + Equivalents(a[k..], keys[k..], t, cmp)
  {
    var lo, hi := RunStart(keys, t, cmp, k), RunEnd(keys, t, cmp, k);
    assert lo <= k < hi && forall j :: 0 <= j < |keys| ==> (lo <= j < hi <==> cmp(keys[j], t) == 0) by {
      RunIsAllEquivalents(keys, t, cmp, k);
    }
    AroundHit(a, keys, t, cmp, k);
    assert Equivalents(a[..k + 1], keys[..k + 1], t, cmp) == a[lo..k + 1] by {
      EquivalentsUpTo(a, keys, t, cmp, lo, k, hi);
    }
    assert Equivalents(a[k..], keys[k..], t, cmp) == a[k..hi] by {
      EquivalentsFrom(a, keys, t, cmp, lo, k, hi);
    }
  }

  /** Projecting what `keyedFindAll` returns gives what `findAll` returns on the projected elems. */
  lemma KeyedFindAllProjects<T, K>(a: seq<T>, key: T -> K, t: K, cmp: (K, K) -> Ordering)
    ensures Project(Around(a, Project(a, key), t, cmp), key)
         == Around(Project(a, key), Project(a, key), t, cmp)
  {
    var k := Search(Project(a, key), t, cmp);
    if k >= 0 {
      HitProjects(a, key, t, cmp, k);
    }
  }

  /** Appending the next element extends the run `s[i..j]` kept after `prefix`. */
  lemma GrowRun<T>(prefix: seq<T>, s: seq<T>, i: int, j: int)
    requires 0 <= i <= j < |s|
    ensures prefix + s[i..i] == prefix
    ensures prefix + s[i..j] + [s[j]] == prefix + s[i..j + 1]
  {
    assert s[i..i] == [];
    assert s[i..j] + [s[j]] == s[i..j + 1];
  }

  /** The hit case: both sides are the same two slices, projected or not. */
  lemma HitProjects<T, K>(a: seq<T>, key: T -> K, t: K, cmp: (K, K) -> Ordering, k: int)
    requires k == Search(Project(a, key), t, cmp) && k >= 0
    ensures Project(Around(a, Project(a, key), t, cmp), key)
         == Around(Project(a, key), Project(a, key), t, cmp)
  {
    var keys := Project(a, key);
    var lo, hi := RunStart(keys, t, cmp, k), RunEnd(keys, t, cmp, k);
    AroundHit(a, keys, t, cmp, k);
    AroundHit(keys, keys, t, cmp, k);
    ProjectSlices(a, key, lo, k + 1, k, hi);
  }


  lemma ProjectSlices<T, K>(a: seq<T>, key: T -> K, i: int, j: int, i': int, j': int)
    requires 0 <= i <= j <= |a| && 0 <= i' <= j' <= |a|
    ensures Project(a[i..j] + a[i'..j'], key) == Project(a, key)[i..j] + Project(a, key)[i'..j']
  {
    var keys := Project(a, key);
    var l, r := Project(a[i..j] + a[i'..j'], key), keys[i..j] + keys[i'..j'];
    forall n | 0 <= n < |l|
      ensures l[n] == r[n]
    {
      if n < j - i {
        assert l[n] == key(a[i + n]);
      } else {
        assert l[n] == key(a[i' + n - (j - i)]);
      }
    }
  }

  method FindAll<T>(element: T, elems: seq<T>, comparator: (T, T) -> Ordering) returns (results: seq<T>)
    ensures results == Around(elems, elems, element, comparator)
  {
    var index := BinarySearch(elems, element, comparator);
    if index < 0 {
      return [];
    }
    assert index < |elems| && comparator(element, elems[index]) == 0;
    ghost var lo, hi := RunStart(elems, element, comparator, index), RunEnd(elems, element, comparator, index);
    results := [];
    var left, right := index, index;
    while left >= 0 && comparator(elems[left], element) == 0
      invariant -1 <= left <= index
      invariant RunStart(elems, element, comparator, left) == lo
      invariant results == elems[left + 1..index + 1]
      decreases left
    {
      assert [elems[left]] + elems[left + 1..index + 1] == elems[left..index + 1];
      results := [elems[left]] + results;
      left := left - 1;
    }
    assert lo == left + 1;
    ghost var leftRun := results;
    GrowRun(leftRun, elems, index, index);
    while right < |elems| && comparator(elems[right], element) == 0
      invariant index <= right <= |elems|
      invariant RunEnd(elems, element, comparator, right) == hi
      invariant results == leftRun + elems[index..right]
      decreases |elems| - right
    {
      GrowRun(leftRun, elems, index, right);
      results := results + [elems[right]];
      right := right + 1;
    }
    assert right == hi;
    assert Around(elems, elems, element, comparator) == elems[lo..index + 1] + elems[index..hi] by {
      AroundHit(elems, elems, element, comparator, index);
    }
  }

  method KeyedFindAll<T, K>(key: T -> K, target: K, elems: seq<T>, comparator: (K, K) -> Ordering)
    returns (results: seq<T>)
    ensures results == Around(elems, Project(elems, key), target, comparator)
  {
    ghost var keys := Project(elems, key);
    var index := KeyedBinarySearch(elems, key, target, comparator);
    if index < 0 {
      return [];
    }
    assert index < |elems| && comparator(target, keys[index]) == 0;
    ghost var lo, hi := RunStart(keys, target, comparator, index), RunEnd(keys, target, comparator, index);
    results := [];
    var left, right := index, index;
    while left >= 0 && comparator(key(elems[left]), target) == 0
      invariant -1 <= left <= index
      invariant RunStart(keys, target, comparator, left) == lo
      invariant results == elems[left + 1..index + 1]
      decreases left
    {
      assert [elems[left]] + elems[left + 1..index + 1] == elems[left..index + 1];
      results := [elems[left]] + results;
      left := left - 1;
    }
    assert left >= 0 ==> keys[left] == key(elems[left]);
    assert lo == left + 1;
    ghost var leftRun := results;
    GrowRun(leftRun, elems, index, index);
    while right < |elems| && comparator(key(elems[right]), target) == 0
      invariant index <= right <= |elems|
      invariant RunEnd(keys, target, comparator, right) == hi
      invariant results == leftRun + elems[index..right]
      decreases |elems| - right
    {
      GrowRun(leftRun, elems, index, right);
      results := results + [elems[right]];
      right := right + 1;
    }
    assert right < |elems| ==> keys[right] == key(elems[right]);
    assert right == hi;
    assert Around(elems, keys, target, comparator) == elems[lo..index + 1] + elems[index..hi] by {
      AroundHit(elems, keys, target, comparator, index);
    }
  }

  // ---------------------------------------------------------------------
  // insert and insertUnique
  // ---------------------------------------------------------------------

  /** A JavaScript array, which `insert` and `insertUnique` change in place. */
  class List<T> {
    var items: seq<T>

    constructor (items: seq<T>)
      ensures this.items == items
    {
      this.items := items;
    }
  }

  /** Where `insert` puts `x`: the hit index, or the decoded insertion point. */
  function InsertionPoint<K>(keys: seq<K>, t: K, cmp: (K, K) -> Ordering): (p: int)
    ensures 0 <= p <= |keys|
  {
    var k := Search(keys, t, cmp);
    if k < 0 then BinarySearchResult(k) else k
  }

  /** `a.splice(i, 0, x)` on a copy of `a`. */
  function SpliceIn<T>(a: seq<T>, i: int, x: T): (r: seq<T>)
    requires 0 <= i <= |a|
    ensures |r| == |a| + 1 && r[i] == x
    ensures r[..i] == a[..i] && r[i + 1..] == a[i..]
  {
    a[..i] + [x] + a[i..]
  }

  /** The elems `insert(x, a, cmp)` leaves behind. */
  function Inserted<T>(a: seq<T>, x: T, cmp: (T, T) -> Ordering): seq<T>
  {
    SpliceIn(a, InsertionPoint(a, x, cmp), x)
  }

  /** `insert` adds exactly one `x` and keeps the other elements in their order. */
  lemma InsertAddsOne<T>(a: seq<T>, x: T, cmp: (T, T) -> Ordering)
    ensures var r, p := Inserted(a, x, cmp), InsertionPoint(a, x, cmp);
      && |r| == |a| + 1
      && r[p] == x
      && r[..p] + r[p + 1..] == a
      && multiset(r) == multiset(a) + multiset{x}
  {
    var p := InsertionPoint(a, x, cmp);
    var r := Inserted(a, x, cmp);
    assert r[..p] == a[..p];
    assert r[p + 1..] == a[p..];
    assert a[..p] + a[p..] == a;
  }

  /** Splicing `x` in where everything before is at most `x` and everything after at least `x` keeps the order. */
  lemma SpliceKeepsOrder<T>(a: seq<T>, p: int, x: T, cmp: (T, T) -> Ordering)
    requires Sorted(a, cmp) && 0 <= p <= |a|
    requires forall i :: 0 <= i < p ==> cmp(a[i], x) <= 0
    requires forall j :: p <= j < |a| ==> cmp(x, a[j]) <= 0
    ensures Sorted(SpliceIn(a, p, x), cmp)
  {
    var r := SpliceIn(a, p, x);
    forall i, j | 0 <= i < j < |r|
      ensures cmp(r[i], r[j]) <= 0
    {
      if j < p {
        assert r[i] == a[i] && r[j] == a[j];
      } else if j == p {
        assert r[i] == a[i] && r[j] == x;
      } else if i < p {
        assert r[i] == a[i] && r[j] == a[j - 1];
      } else if i == p {
        assert r[i] == x && r[j] == a[j - 1];
      } else {
        assert r[i] == a[i - 1] && r[j] == a[j - 1];
      }
    }
  }

  /** `insert` keeps an ordered array sorted. */
  lemma InsertKeepsOrder<T(!new)>(a: seq<T>, x: T, cmp: (T, T) -> Ordering)
    requires Ordered(a, cmp)
    ensures Sorted(Inserted(a, x, cmp), cmp)
  {
    var p := InsertionPoint(a, x, cmp);
    var k := Search(a, x, cmp);
    SearchMiss(a, x, cmp);
    assert forall i :: 0 <= i < p ==> cmp(a[i], x) <= 0 by {
      if k >= 0 {
        forall i | 0 <= i < p
          ensures cmp(a[i], x) <= 0
        {
          AtMostTransitive(cmp, a[i], a[k], x);
        }
      }
    }
    assert forall j :: p <= j < |a| ==> cmp(x, a[j]) <= 0 by {
      if k >= 0 {
        forall j | p <= j < |a|
          ensures cmp(x, a[j]) <= 0
        {
          assert cmp(a[k], a[j]) <= 0 by {
            if j == k { assert cmp(a[k], a[k]) == -cmp(a[k], a[k]); }
          }
          AtMostTransitive(cmp, x, a[k], a[j]);
        }
      } else {
        forall j | p <= j < |a|
          ensures cmp(x, a[j]) <= 0
        {
          assert cmp(a[j], x) > 0;
        }
      }
    }
    SpliceKeepsOrder(a, p, x, cmp);
  }

  method Insert<T>(element: T, list: List<T>, comparator: (T, T) -> Ordering)
    modifies list
    ensures list.items == Inserted(old(list.items), element, comparator)
  {
    var index := BinarySearch(list.items, element, comparator);
    if index < 0 {
      index := BinarySearchResult(index);
    }
    list.items := list.items[..index] + [element] + list.items[index..];
  }

  /**
   * Adds `element` only when the search misses; on an ordered array (by
   * `SearchFound`) that is exactly when no equivalent element is present.
   */
  method InsertUnique<T>(element: T, list: List<T>, comparator: (T, T) -> Ordering) returns (added: bool)
    modifies list
    ensures added == (Search(old(list.items), element, comparator) < 0)
    ensures list.items == if added then Inserted(old(list.items), element, comparator) else old(list.items)
  {
    var index := BinarySearch(list.items, element, comparator);
    if index < 0 {
      var insertLocation := BinarySearchResult(index);
      list.items := list.items[..insertLocation] + [element] + list.items[insertLocation..];
      return true;
    }
    return false;
  }

  // ---------------------------------------------------------------------
  // defaultComparator, on the strings the rule lookup compares
  // ---------------------------------------------------------------------

  /** JavaScript's `a < b` on strings: lexicographic order of the characters. */
  predicate Below(a: string, b: string)
    decreases |a|
  {
    if a == [] then b != []
    else if b == [] then false
    else if a[0] != b[0] then a[0] < b[0]
    else Below(a[1..], b[1..])
  }

  lemma {:induction false} BelowTrichotomy(a: string, b: string)
    decreases |a|
    ensures a == b || Below(a, b) || Below(b, a)
    ensures !(Below(a, b) && Below(b, a))
    ensures !Below(a, a)
  {
    if a != [] && b != [] && a[0] == b[0] {
      BelowTrichotomy(a[1..], b[1..]);
      if a[1..] == b[1..] {
        assert a == [a[0]] + a[1..] && b == [b[0]] + b[1..];
      }
    }
    if a != [] {
      BelowTrichotomy(a[1..], a[1..]);
    }
  }

  lemma {:induction false} BelowTransitive(a: string, b: string, c: string)
    requires Below(a, b) && Below(b, c)
    decreases |a|
    ensures Below(a, c)
  {
    if a != [] && a[0] == b[0] && b[0] == c[0] {
      BelowTransitive(a[1..], b[1..], c[1..]);
    }
  }

  function DefaultComparator(a: string, b: string): (r: Ordering)
    ensures r < 0 <==> Below(a, b)
    ensures r == 0 <==> a == b
    ensures r > 0 <==> Below(b, a)
  {
    BelowTrichotomy(a, b);
    if Below(a, b) then -1 else if Below(b, a) then 1 else 0
  }

  /** `defaultComparator` on strings is a total order. */
  lemma DefaultIsComparator()
    ensures IsComparator(DefaultComparator)
  {
    forall a, b
      ensures DefaultComparator(a, b) == -DefaultComparator(b, a)
    {
      BelowTrichotomy(a, b);
    }
    forall a, b, c | AtMost(DefaultComparator, a, b) && AtMost(DefaultComparator, b, c)
      ensures AtMost(DefaultComparator, a, c)
    {
      if a != b && b != c {
        BelowTransitive(a, b, c);
      }
    }
  }
}
