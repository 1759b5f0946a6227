/** Sequence operations standing for the LINQ and `List<T>` calls of the
    core: `FindIndex`, `Where`, `Count(predicate)` and the stable
    `OrderBy`/`OrderByDescending` on an integer key. */
module Seqs {
  import opened Wrappers

  /** `List<T>.FindIndex`: the first position whose element satisfies `p`. */
  function FindIndex<T>(s: seq<T>, p: T -> bool): (r: Option<nat>)
    ensures r.Some? ==> r.value < |s| && p(s[r.value])
    ensures r.Some? ==> forall k :: 0 <= k < r.value ==> !p(s[k])
    ensures r.None? <==> forall k :: 0 <= k < |s| ==> !p(s[k])
  {
    if |s| == 0 then None
    else if p(s[0]) then Some(0)
    else
      var t := FindIndex(s[1..], p);
      if t.None? then None else Some(t.value + 1)
  }

  /** The first position satisfying `p` is the one `FindIndex` returns. */
  lemma FindIndexIs<T>(s: seq<T>, p: T -> bool, i: nat)
    requires i < |s| && p(s[i])
    requires forall k :: 0 <= k < i ==> !p(s[k])
    ensures FindIndex(s, p) == Some(i)
  {
    assert p(s[i]);
  }

  /** The positions whose element satisfies `p`, in increasing order: the
      entities a `Where(p).ToList()` query returns, by their place in the
      table. */
  function Positions<T>(s: seq<T>, p: T -> bool): (ps: seq<nat>)
    ensures forall k :: 0 <= k < |ps| ==> ps[k] < |s| && p(s[ps[k]])
    ensures forall i :: 0 <= i < |s| && p(s[i]) ==> i in ps
    ensures forall a, b :: 0 <= a < b < |ps| ==> ps[a] < ps[b]
  {
    if |s| == 0 then []
    else
      var n := |s| - 1;
      var prev := Positions(s[..n], p);
      if p(s[n]) then prev + [n] else prev
  }

  /** `Where(p)`: the elements satisfying `p`, in their original order. */
  function Filter<T>(s: seq<T>, p: T -> bool): (r: seq<T>)
    ensures |r| <= |s|
    ensures forall k :: 0 <= k < |r| ==> p(r[k])
    ensures forall k :: 0 <= k < |s| && p(s[k]) ==> s[k] in r
    ensures multiset(r) <= multiset(s)
  {
    if |s| == 0 then []
    else
      assert s == [s[0]] + s[1..];
      if p(s[0]) then [s[0]] + Filter(s[1..], p) else Filter(s[1..], p)
  }

  lemma {:induction false} FilterAppend<T>(a: seq<T>, b: seq<T>, p: T -> bool)
    ensures Filter(a + b, p) == Filter(a, p) + Filter(b, p)
  {
    if |a| > 0 {
      assert (a + b)[1..] == a[1..] + b;
      FilterAppend(a[1..], b, p);
    } else {
      assert a + b == b;
    }
  }

  /** Filtering a sequence whose elements all pass changes nothing. */
  lemma {:induction false} FilterAll<T>(s: seq<T>, p: T -> bool)
    requires forall k :: 0 <= k < |s| ==> p(s[k])
    ensures Filter(s, p) == s
  {
    if |s| > 0 {
      FilterAll(s[1..], p);
    }
  }

  /** `Count(p)`. */
  function Count<T>(s: seq<T>, p: T -> bool): (n: nat)
    ensures n <= |s|
    ensures n == |Filter(s, p)|
  {
    if |s| == 0 then 0 else (if p(s[0]) then 1 else 0) + Count(s[1..], p)
  }

  lemma {:induction false} CountAppend<T>(a: seq<T>, b: seq<T>, p: T -> bool)
    ensures Count(a + b, p) == Count(a, p) + Count(b, p)
  {
    if |a| == 0 {
      assert a + b == b;
    } else {
      assert (a + b)[1..] == a[1..] + b;
      CountAppend(a[1..], b, p);
    }
  }

  /** Replacing one element changes the count by what the old and the new
      element contribute. */
  lemma CountUpdate<T>(s: seq<T>, i: nat, x: T, p: T -> bool)
    requires i < |s|
    ensures Count(s[i := x], p) == Count(s, p) - (if p(s[i]) then 1 else 0) + (if p(x) then 1 else 0)
  {
    assert s == s[..i] + [s[i]] + s[i + 1..];
    assert s[i := x] == s[..i] + [x] + s[i + 1..];
    CountAppend(s[..i] + [s[i]], s[i + 1..], p);
    CountAppend(s[..i], [s[i]], p);
    CountAppend(s[..i] + [x], s[i + 1..], p);
    CountAppend(s[..i], [x], p);
  }

  /** Counting a predicate that is one of two exclusive cases. */
  lemma {:induction false} CountSplit<T>(s: seq<T>, p: T -> bool, q: T -> bool, both: T -> bool)
    requires forall x :: both(x) <==> (p(x) || q(x))
    requires forall x :: !(p(x) && q(x))
    ensures Count(s, both) == Count(s, p) + Count(s, q)
  {
    if |s| > 0 {
      CountSplit(s[1..], p, q, both);
    }
  }

  // ------------------------------------------------------------------
  // Stable ordering by an integer key
  // ------------------------------------------------------------------

  predicate SortedBy<T>(s: seq<T>, key: T -> int) {
    forall i, j :: 0 <= i < j < |s| ==> key(s[i]) <= key(s[j])
  }

  /** Places `x` before the first element whose key is not smaller. */
  function Insert<T>(x: T, s: seq<T>, key: T -> int): (r: seq<T>)
    ensures multiset(r) == multiset(s) + multiset{x}
    ensures |r| == |s| + 1
  {
    if |s| == 0 then [x]
    else if key(x) <= key(s[0]) then [x] + s
    else
      assert s == [s[0]] + s[1..];
      [s[0]] + Insert(x, s[1..], key)
  }

  lemma {:induction false} InsertBound<T>(x: T, s: seq<T>, key: T -> int, b: int)
    requires b <= key(x)
    requires forall k :: 0 <= k < |s| ==> b <= key(s[k])
    ensures forall k :: 0 <= k < |s| + 1 ==> b <= key(Insert(x, s, key)[k])
  {
    if |s| > 0 && key(x) > key(s[0]) {
      InsertBound(x, s[1..], key, b);
    }
  }

  lemma {:induction false} InsertSorted<T>(x: T, s: seq<T>, key: T -> int)
    requires SortedBy(s, key)
    ensures SortedBy(Insert(x, s, key), key)
  {
    if |s| > 0 && key(x) > key(s[0]) {
      InsertSorted(x, s[1..], key);
      InsertBound(x, s[1..], key, key(s[0]));
    }
  }

  /** `OrderBy(key)`: a stable sort, equal keys keeping their relative order. */
  function SortBy<T>(s: seq<T>, key: T -> int): (r: seq<T>)
    ensures multiset(r) == multiset(s)
    ensures |r| == |s|
    ensures SortedBy(r, key)
  {
    if |s| == 0 then [] else
      assert s == [s[0]] + s[1..];
      InsertSorted(s[0], SortBy(s[1..], key), key);
      Insert(s[0], SortBy(s[1..], key), key)
  }

  /** `OrderByDescending(key)`: a stable sort on the negated key. */
  function SortByDescending<T>(s: seq<T>, key: T -> int): (r: seq<T>)
    ensures multiset(r) == multiset(s)
    ensures |r| == |s|
    ensures forall i, j :: 0 <= i < j < |r| ==> key(r[i]) >= key(r[j])
  {
    var r := SortBy(s, Negated(key));
    assert forall i, j :: 0 <= i < j < |r| ==> Negated(key)(r[i]) <= Negated(key)(r[j]);
    r
  }

  function Negated<T>(key: T -> int): T -> int {
    (x: T) => -key(x)
  }

  /** The elements of `s` whose key is `k`, in order. */
  function WithKey<T>(s: seq<T>, key: T -> int, k: int): seq<T> {
    if |s| == 0 then []
    else if key(s[0]) == k then [s[0]] + WithKey(s[1..], key, k)
    else WithKey(s[1..], key, k)
  }

  lemma {:induction false} WithKeyInsert<T>(x: T, s: seq<T>, key: T -> int, k: int)
    ensures WithKey(Insert(x, s, key), key, k)
      == if key(x) == k then [x] + WithKey(s, key, k) else WithKey(s, key, k)
  {
    if |s| == 0 {
    } else if key(x) <= key(s[0]) {
      assert ([x] + s)[1..] == s;
    } else {
      if key(s[0]) == k {
        assert key(x) != k;
      }
      WithKeyInsert(x, s[1..], key, k);
      assert ([s[0]] + Insert(x, s[1..], key))[1..] == Insert(x, s[1..], key);
    }
  }

  /** Stability: sorting keeps the relative order of the elements of each key. */
  lemma {:induction false} SortByStable<T>(s: seq<T>, key: T -> int, k: int)
    ensures WithKey(SortBy(s, key), key, k) == WithKey(s, key, k)
  {
    if |s| > 0 {
      SortByStable(s[1..], key, k);
      WithKeyInsert(s[0], SortBy(s[1..], key), key, k);
    }
  }

  /** A property of every element survives a permutation. */
  lemma PermutationKeeps<T>(a: seq<T>, b: seq<T>, p: T -> bool)
    requires multiset(a) == multiset(b)
    requires forall k :: 0 <= k < |a| ==> p(a[k])
    ensures forall k :: 0 <= k < |b| ==> p(b[k])
  {
    forall k | 0 <= k < |b| ensures p(b[k]) {
      assert b[k] in multiset(a);
      var j :| 0 <= j < |a| && a[j] == b[k];
    }
  }

  /** Sequences holding the same multiset hold the same elements. */
  lemma SameElements<T>(a: seq<T>, b: seq<T>)
    requires multiset(a) == multiset(b)
    ensures forall k :: 0 <= k < |a| ==> a[k] in b
    ensures forall k :: 0 <= k < |b| ==> b[k] in a
  {
    forall k | 0 <= k < |a| ensures a[k] in b {
      assert a[k] in multiset(b);
    }
    forall k | 0 <= k < |b| ensures b[k] in a {
      assert b[k] in multiset(a);
    }
  }

  /** Sorting a sequence that is already in key order returns it unchanged. */
  lemma {:induction false} SortBySorted<T>(s: seq<T>, key: T -> int)
    requires SortedBy(s, key)
    ensures SortBy(s, key) == s
  {
    if |s| > 0 {
      assert SortedBy(s[1..], key);
      SortBySorted(s[1..], key);
      assert s == [s[0]] + s[1..];
    }
  }

  // ------------------------------------------------------------------
  // Unique keys (the unique indexes of the database tables)
  // ------------------------------------------------------------------

  /** No two elements share a key. */
  predicate Distinct<T, K(==)>(s: seq<T>, key: T -> K) {
    forall i, j :: 0 <= i < j < |s| ==> key(s[i]) != key(s[j])
  }

  /** Every element's integer key is below `n`. */
  predicate Below<T>(s: seq<T>, key: T -> int, n: int) {
    forall k :: 0 <= k < |s| ==> key(s[k]) < n
  }

  /** `t` is `s` with elements replaced by ones of the same key. */
  predicate SameKeys<T, K(==)>(s: seq<T>, t: seq<T>, key: T -> K) {
    |s| == |t| && forall k :: 0 <= k < |s| ==> key(t[k]) == key(s[k])
  }

  lemma SameKeysDistinct<T, K>(s: seq<T>, t: seq<T>, key: T -> K)
    requires SameKeys(s, t, key) && Distinct(s, key)
    ensures Distinct(t, key)
  {
    forall i, j | 0 <= i < j < |t| ensures key(t[i]) != key(t[j]) {
      assert key(t[i]) == key(s[i]) && key(t[j]) == key(s[j]);
    }
  }

  lemma SameKeysBelow<T>(s: seq<T>, t: seq<T>, key: T -> int, n: int)
    requires SameKeys(s, t, key) && Below(s, key, n)
    ensures Below(t, key, n)
  {
    forall k | 0 <= k < |t| ensures key(t[k]) < n {
      assert key(t[k]) == key(s[k]);
    }
  }

  lemma DistinctAppend<T, K>(s: seq<T>, x: T, key: T -> K)
    requires Distinct(s, key)
    requires forall k :: 0 <= k < |s| ==> key(s[k]) != key(x)
    ensures Distinct(s + [x], key)
  {
    var t := s + [x];
    forall i, j | 0 <= i < j < |t| ensures key(t[i]) != key(t[j]) {
      if j < |s| {
        assert t[i] == s[i] && t[j] == s[j];
      } else {
        assert t[i] == s[i] && t[j] == x;
      }
    }
  }

  /** Two key-distinct sequences with no key in common concatenate to a
      key-distinct sequence. */
  lemma DistinctConcat<T, K>(s: seq<T>, t: seq<T>, key: T -> K)
    requires Distinct(s, key) && Distinct(t, key)
    requires forall i, j :: 0 <= i < |s| && 0 <= j < |t| ==> key(s[i]) != key(t[j])
    ensures Distinct(s + t, key)
  {
    var u := s + t;
    forall a, b | 0 <= a < b < |u| ensures key(u[a]) != key(u[b]) {
      if b < |s| {
        assert u[a] == s[a] && u[b] == s[b];
      } else if a < |s| {
        assert u[a] == s[a] && u[b] == t[b - |s|];
      } else {
        assert u[a] == t[a - |s|] && u[b] == t[b - |s|];
      }
    }
  }

  lemma DistinctRemove<T, K>(s: seq<T>, i: nat, key: T -> K)
    requires i < |s| && Distinct(s, key)
    ensures Distinct(s[..i] + s[i + 1..], key)
  {
    var t := s[..i] + s[i + 1..];
    forall a, b | 0 <= a < b < |t| ensures key(t[a]) != key(t[b]) {
      var a' := if a < i then a else a + 1;
      var b' := if b < i then b else b + 1;
      assert t[a] == s[a'] && t[b] == s[b'];
    }
  }

  /** A permutation of a key-distinct sequence is key-distinct. */
  lemma {:induction false} PermutationDistinct<T, K>(a: seq<T>, b: seq<T>, key: T -> K)
    requires multiset(a) == multiset(b) && Distinct(a, key)
    ensures Distinct(b, key)
  {
    if |b| > 0 {
      var n := |b| - 1;
      var x := b[n];
      assert x in multiset(a);
      var i :| 0 <= i < |a| && a[i] == x;
      var a' := a[..i] + a[i + 1..];
      RemoveLast(a, b, i);
      DistinctRemove(a, i, key);
      PermutationDistinct(a', b[..n], key);
      OthersKeyDiffer(a, i, b[..n], key);
      assert b == b[..n] + [x];
      DistinctAppend(b[..n], x, key);
    }
  }

  /** With distinct keys, a permutation of the other elements holds no
      element with the key of element `i`. */
  lemma OthersKeyDiffer<T, K>(a: seq<T>, i: nat, c: seq<T>, key: T -> K)
    requires Distinct(a, key) && i < |a| && multiset(c) == multiset(a[..i] + a[i + 1..])
    ensures forall k :: 0 <= k < |c| ==> key(c[k]) != key(a[i])
  {
    var a' := a[..i] + a[i + 1..];
    forall k | 0 <= k < |c| ensures key(c[k]) != key(a[i]) {
      assert c[k] in multiset(a');
      var m :| 0 <= m < |a'| && a'[m] == c[k];
      var m' := if m < i then m else m + 1;
      assert a'[m] == a[m'] && m' != i;
    }
  }

  /** Taking the last element of `b` out of both sides of a permutation. */
  lemma RemoveLast<T>(a: seq<T>, b: seq<T>, i: nat)
    requires multiset(a) == multiset(b) && 0 < |b| && i < |a| && a[i] == b[|b| - 1]
    ensures multiset(a[..i] + a[i + 1..]) == multiset(b[..|b| - 1])
  {
    var n := |b| - 1;
    assert a == a[..i] + [a[i]] + a[i + 1..];
    assert b == b[..n] + [b[n]];
    assert multiset(a) == multiset(a[..i]) + multiset{a[i]} + multiset(a[i + 1..]);
    assert multiset(b) == multiset(b[..n]) + multiset{b[n]};
    assert multiset(a[..i] + a[i + 1..]) == multiset(a[..i]) + multiset(a[i + 1..]);
    var c := multiset(a[..i]) + multiset(a[i + 1..]);
    var d := multiset(b[..n]);
    assert c + multiset{a[i]} == d + multiset{a[i]};
    assert c == (c + multiset{a[i]}) - multiset{a[i]};
    assert d == (d + multiset{a[i]}) - multiset{a[i]};
  }

  /** With distinct keys, the element holding a key is the only one. */
  lemma DistinctUnique<T, K>(s: seq<T>, key: T -> K, i: int, j: int)
    requires Distinct(s, key)
    requires 0 <= i < |s| && 0 <= j < |s| && key(s[i]) == key(s[j])
    ensures i == j
  {
  }
}
