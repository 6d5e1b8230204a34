/**
 * Array.prototype.sort with a numeric comparator `(a, b) => key(a) - key(b)`.
 *
 * Since ECMAScript 2019 this sort is stable, so its result is fully
 * determined: the elements in ascending key order, elements with equal keys
 * in their original order.  `Sort` is that result, defined as a stable
 * insertion sort; `SortInPlace` is the in-place version for callers that sort
 * an array they own.
 */
module StableSort {

  /** The keys of s never decrease. */
  ghost predicate SortedBy<T>(s: seq<T>, key: T -> real)
  {
    forall i, j :: 0 <= i < j < |s| ==> key(s[i]) <= key(s[j])
  }

  /** Inserts x after every element of s whose key is not above x's key. */
  function Insert<T>(s: seq<T>, x: T, key: T -> real): (r: seq<T>)
    ensures |r| == |s| + 1
  {
    if s == [] then [x]
    else if key(s[0]) > key(x) then [x] + s
    else [s[0]] + Insert(s[1..], x, key)
  }

  /** The stable ascending sort of s by key. */
  function Sort<T>(s: seq<T>, key: T -> real): (r: seq<T>)
    ensures |r| == |s|
  {
    if s == [] then [] else Insert(Sort(s[..|s| - 1], key), s[|s| - 1], key)
  }

  /** Taking a prefix away leaves the multiset of the suffix. */
  lemma PrefixRemoved<T>(t: seq<T>, k: nat)
    requires k <= |t|
    ensures multiset(t) - multiset(t[..k]) == multiset(t[k..])
  {
    assert t == t[..k] + t[k..];
  }

  /** No element of pool left out of kept has a smaller key than an element of kept. */
  ghost predicate NoneLeftSmaller<T>(kept: seq<T>, pool: multiset<T>, key: T -> real)
  {
    forall x, y :: x in kept && y in pool - multiset(kept) ==> key(x) <= key(y)
  }

  /** In a sorted sequence nothing left after a split point has a smaller key than an element before it. */
  lemma SortedSplit<T>(t: seq<T>, k: nat, key: T -> real)
    requires SortedBy(t, key) && k <= |t|
    ensures NoneLeftSmaller(t[..k], multiset(t), key)
  {
    PrefixRemoved(t, k);
    forall kept, omitted | kept in t[..k] && omitted in multiset(t[k..])
      ensures key(kept) <= key(omitted)
    {
      var i :| 0 <= i < k && t[..k][i] == kept;
      assert omitted in t[k..];
      var j :| 0 <= j < |t| - k && t[k..][j] == omitted;
      assert t[i] == kept && t[k + j] == omitted;
    }
  }

  /**
   * The first k elements of the sort: ordered, drawn from s, and no element
   * left out has a smaller key than one kept.
   */
  lemma SortPrefixIsSmallest<T>(s: seq<T>, k: nat, key: T -> real)
    requires k <= |s|
    ensures SortedBy(Sort(s, key)[..k], key)
    ensures multiset(Sort(s, key)[..k]) <= multiset(s)
    ensures NoneLeftSmaller(Sort(s, key)[..k], multiset(s), key)
  {
    var sorted := Sort(s, key);
    SortSorted(s, key);
    SortPermutes(s, key);
    PrefixOfSorted(sorted, k, key);
    SortedSplit(sorted, k, key);
  }

  /** A prefix of a sorted sequence is sorted and drawn from it. */
  lemma PrefixOfSorted<T>(t: seq<T>, k: nat, key: T -> real)
    requires SortedBy(t, key) && k <= |t|
    ensures SortedBy(t[..k], key)
    ensures multiset(t[..k]) <= multiset(t)
  {
    assert t == t[..k] + t[k..];
    assert multiset(t) == multiset(t[..k]) + multiset(t[k..]);
  }

  lemma {:induction false} InsertSorted<T>(s: seq<T>, x: T, key: T -> real)
    requires SortedBy(s, key)
    ensures SortedBy(Insert(s, x, key), key)
  {
    if s != [] && key(s[0]) <= key(x) {
      InsertSorted(s[1..], x, key);
      var r := Insert(s[1..], x, key);
      InsertPermutes(s[1..], x, key);
      forall k | 0 <= k < |r| ensures key(s[0]) <= key(r[k]) {
        assert r[k] in multiset(r);
        assert r[k] == x || r[k] in multiset(s[1..]);
        if r[k] != x {
          assert r[k] in s[1..];
        }
      }
    }
  }

  lemma {:induction false} InsertPermutes<T>(s: seq<T>, x: T, key: T -> real)
    ensures multiset(Insert(s, x, key)) == multiset(s) + multiset{x}
  {
    if s != [] && key(s[0]) <= key(x) {
      InsertPermutes(s[1..], x, key);
      assert s == [s[0]] + s[1..];
    }
  }

  /** Sort orders its input by key. */
  lemma {:induction false} SortSorted<T>(s: seq<T>, key: T -> real)
    ensures SortedBy(Sort(s, key), key)
  {
    if s != [] {
      SortSorted(s[..|s| - 1], key);
      InsertSorted(Sort(s[..|s| - 1], key), s[|s| - 1], key);
    }
  }

  /** Sort only reorders its input. */
  lemma {:induction false} SortPermutes<T>(s: seq<T>, key: T -> real)
    ensures multiset(Sort(s, key)) == multiset(s)
  {
    if s != [] {
      SortPermutes(s[..|s| - 1], key);
      InsertPermutes(Sort(s[..|s| - 1], key), s[|s| - 1], key);
      assert s == s[..|s| - 1] + [s[|s| - 1]];
    }
  }

  /**
   * In a sorted sequence, inserting x lands it right after the last element
   * whose key is not above x's key.
   */
  lemma {:induction false} InsertAt<T>(s: seq<T>, x: T, j: nat, key: T -> real)
    requires SortedBy(s, key) && j <= |s|
    requires j == 0 || key(s[j - 1]) <= key(x)
    requires forall m :: j <= m < |s| ==> key(s[m]) > key(x)
    ensures Insert(s, x, key) == s[..j] + [x] + s[j..]
  {
    if s == [] {
    } else if j == 0 {
      assert key(s[0]) > key(x);
      assert s[..0] == [] && s[0..] == s;
    } else {
      var rest := s[1..];
      assert key(s[0]) <= key(s[j - 1]);
      assert Insert(s, x, key) == [s[0]] + Insert(rest, x, key);
      SortedTail(s, key);
      InsertAt(rest, x, j - 1, key);
      assert rest[..j - 1] == s[1..j] && rest[j - 1..] == s[j..];
      assert s[..j] == [s[0]] + s[1..j];
    }
  }

  /** The tail of a sorted sequence is sorted. */
  lemma SortedTail<T>(s: seq<T>, key: T -> real)
    requires SortedBy(s, key) && s != []
    ensures SortedBy(s[1..], key)
  {
    forall i, j | 0 <= i < j < |s| - 1
      ensures key(s[1..][i]) <= key(s[1..][j])
    {
      assert s[1..][i] == s[i + 1] && s[1..][j] == s[j + 1];
    }
  }

  /** Sorting an already sorted sequence leaves it as it is. */
  lemma {:induction false} SortOfSorted<T>(s: seq<T>, key: T -> real)
    requires SortedBy(s, key)
    ensures Sort(s, key) == s
  {
    if s != [] {
      var init := s[..|s| - 1];
      assert SortedBy(init, key);
      SortOfSorted(init, key);
      InsertAt(init, s[|s| - 1], |init|, key);
      assert init[..|init|] == init && init[|init|..] == [];
      assert s == init + [s[|s| - 1]];
    }
  }

  /** Moves a[i] left past every larger-keyed element of the sorted prefix a[..i]. */
  method InsertLastInPlace<T>(a: array<T>, i: nat, key: T -> real)
    requires i < a.Length && SortedBy(a[..i], key)
    modifies a
    ensures a[..i + 1] == Insert(old(a[..i]), old(a[i]), key)
    ensures a[i + 1..] == old(a[i + 1..])
  {
    ghost var sorted := a[..i];
    var x := a[i];
    var j := i;
    while j > 0 && key(a[j - 1]) > key(x)
      invariant 0 <= j <= i
      invariant forall m :: 0 <= m < j ==> a[m] == sorted[m]
      invariant a[j] == x
      invariant forall m :: j < m <= i ==> a[m] == sorted[m - 1]
      invariant forall m :: j <= m < i ==> key(sorted[m]) > key(x)
      invariant a[i + 1..] == old(a[i + 1..])
    {
      a[j - 1], a[j] := a[j], a[j - 1];
      j := j - 1;
    }
    InsertAt(sorted, x, j, key);
    Shifted(a[..i + 1], sorted, x, j);
  }

  /** A sequence holding sorted's first j elements, then x, then the rest of sorted. */
  lemma Shifted<T>(b: seq<T>, sorted: seq<T>, x: T, j: nat)
    requires |b| == |sorted| + 1 && j <= |sorted|
    requires forall m :: 0 <= m < j ==> b[m] == sorted[m]
    requires b[j] == x
    requires forall m :: j < m < |b| ==> b[m] == sorted[m - 1]
    ensures b == sorted[..j] + [x] + sorted[j..]
  {
    var inserted := sorted[..j] + [x] + sorted[j..];
    forall m | 0 <= m < |b| ensures b[m] == inserted[m] {
      if m < j {
        assert inserted[m] == sorted[m];
      } else if m > j {
        assert inserted[m] == sorted[m - 1];
      }
    }
  }

  /** Sorts the array in place; the result is the stable sort of its old contents. */
  method SortInPlace<T>(a: array<T>, key: T -> real)
    modifies a
    ensures a[..] == Sort(old(a[..]), key)
  {
    ghost var s := a[..];
    var i := 0;
    while i < a.Length
      invariant 0 <= i <= a.Length
      invariant a[..i] == Sort(s[..i], key)
      invariant a[i..] == s[i..]
    {
      SortSorted(s[..i], key);
      InsertLastInPlace(a, i, key);
      assert s[..i + 1][..i] == s[..i];
      assert s[..i + 1] == s[..i] + [s[i]];
      i := i + 1;
    }
    assert s[..a.Length] == s;
  }
}
