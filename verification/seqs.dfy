/**
 * Sequence operations that the scripts use through the Array API:
 * `filter`, counting, `slice(-n)` and the stable `sort` of ECMAScript 2019.
 */
module Seqs {
  import opened Wrappers

  /** `r` is `s` with some elements left out, the rest in their original order. */
  predicate IsSubsequence<T(==)>(r: seq<T>, s: seq<T>)
    decreases |s|
  {
    r == [] || (s != [] && ((r[0] == s[0] && IsSubsequence(r[1..], s[1..])) || IsSubsequence(r, s[1..])))
  }

  /** `Array.prototype.filter`. */
  function Filter<T>(s: seq<T>, p: T -> bool): (r: seq<T>)
    ensures |r| <= |s|
    ensures forall i :: 0 <= i < |r| ==> p(r[i]) && r[i] in s
    ensures forall i :: 0 <= i < |s| && p(s[i]) ==> s[i] in r
    ensures IsSubsequence(r, s)
  {
    if s == [] then []
    else
      var rest := Filter(s[1..], p);
      if p(s[0]) then [s[0]] + rest
      else
        assert rest == [] || rest[0] != s[0] by {
          if rest != [] { assert rest[0] in rest; }
        }
        rest
  }

  /** Number of elements of `s` that satisfy `p`. */
  function Count<T>(s: seq<T>, p: T -> bool): nat
  {
    if s == [] then 0 else (if p(s[0]) then 1 else 0) + Count(s[1..], p)
  }

  lemma {:induction false} CountAppend<T>(s: seq<T>, x: T, p: T -> bool)
    ensures Count(s + [x], p) == Count(s, p) + (if p(x) then 1 else 0)
  {
    if s != [] {
      assert (s + [x])[1..] == s[1..] + [x];
      CountAppend(s[1..], x, p);
    }
  }

  /** Filtering keeps exactly the counted elements. */
  lemma {:induction false} FilterLength<T>(s: seq<T>, p: T -> bool)
    ensures |Filter(s, p)| == Count(s, p)
  {
    if s != [] { FilterLength(s[1..], p); }
  }

  /** A filter and its complement split the sequence: their lengths add up. */
  lemma {:induction false} FilterPartition<T>(s: seq<T>, p: T -> bool, q: T -> bool)
    requires forall x :: q(x) == !p(x)
    ensures |Filter(s, p)| + |Filter(s, q)| == |s|
  {
    if s != [] { FilterPartition(s[1..], p, q); }
  }

  /** `array.slice(-n)` for n > 0: the last `n` elements, or all of them. */
  function KeepLast<T>(s: seq<T>, n: nat): (r: seq<T>)
    ensures |r| == if |s| <= n then |s| else n
    ensures r == s[|s| - |r|..]
  {
    if |s| <= n then s else s[|s| - n..]
  }

  /** Appending and keeping the last `n` keeps the new element and never exceeds `n`. */
  lemma KeepLastAppend<T>(s: seq<T>, x: T, n: nat)
    requires n > 0
    ensures |KeepLast(s + [x], n)| <= n
    ensures KeepLast(s + [x], n)[|KeepLast(s + [x], n)| - 1] == x
    ensures KeepLast(s + [x], n)[..|KeepLast(s + [x], n)| - 1] == KeepLast(s, n - 1)
  {
  }

  /** Non-decreasing order of the key. */
  predicate SortedBy<T>(s: seq<T>, key: T -> int)
  {
    forall i, j :: 0 <= i < j < |s| ==> key(s[i]) <= key(s[j])
  }

  /** Where `x` goes in `s`: in front of the first element whose key is not below its own. */
  function InsertPos<T>(x: T, s: seq<T>, key: T -> int): (p: nat)
    ensures p <= |s|
    ensures forall i :: 0 <= i < p ==> key(s[i]) < key(x)
    ensures p < |s| ==> key(x) <= key(s[p])
  {
    if s == [] || key(x) <= key(s[0]) then 0 else 1 + InsertPos(x, s[1..], key)
  }

  lemma InsertAtSorted<T>(x: T, s: seq<T>, key: T -> int, p: nat)
    requires SortedBy(s, key) && p == InsertPos(x, s, key)
    ensures SortedBy(s[..p] + [x] + s[p..], key)
  {
    var r := s[..p] + [x] + s[p..];
    forall i, j | 0 <= i < j < |r| ensures key(r[i]) <= key(r[j]) {
      if j > p {
        assert r[j] == s[j - 1];
        if i < p {
          assert r[i] == s[i] && key(s[i]) < key(x) <= key(s[p]);
        } else if i > p {
          assert r[i] == s[i - 1];
        }
      } else if i < p {
        assert r[i] == s[i];
      }
    }
  }

  function Insert<T>(x: T, s: seq<T>, key: T -> int): (r: seq<T>)
    requires SortedBy(s, key)
    ensures multiset(r) == multiset(s) + multiset{x}
    ensures SortedBy(r, key)
  {
    var p := InsertPos(x, s, key);
    assert s == s[..p] + s[p..];
    InsertAtSorted(x, s, key, p);
    s[..p] + [x] + s[p..]
  }

  /**
   * A stable sort in non-decreasing key order: an element is inserted in front
   * of every element with the same key that came after it (`SortByStable`).
   */
  function SortBy<T>(s: seq<T>, key: T -> int): (r: seq<T>)
    ensures multiset(r) == multiset(s)
    ensures |r| == |s|
    ensures SortedBy(r, key)
  {
    if s == [] then []
    else
      assert s == [s[0]] + s[1..];
      var r := Insert(s[0], SortBy(s[1..], key), key);
      assert |r| == |multiset(r)|;
      r
  }

  /** The elements of `s` whose key is `k`, in their order in `s`. */
  function OfKey<T>(s: seq<T>, key: T -> int, k: int): seq<T>
  {
    if s == [] then []
    else if key(s[0]) == k then [s[0]] + OfKey(s[1..], key, k)
    else OfKey(s[1..], key, k)
  }

  lemma {:induction false} OfKeyAppend<T>(a: seq<T>, b: seq<T>, key: T -> int, k: int)
    ensures OfKey(a + b, key, k) == OfKey(a, key, k) + OfKey(b, key, k)
  {
    if a == [] {
      assert a + b == b;
    } else {
      var c := a + b;
      assert c[0] == a[0];
      assert c[1..] == a[1..] + b;
      OfKeyAppend(a[1..], b, key, k);
    }
  }

  lemma {:induction false} OfKeyNone<T>(s: seq<T>, key: T -> int, k: int)
    requires forall i :: 0 <= i < |s| ==> key(s[i]) != k
    ensures OfKey(s, key, k) == []
  {
    if s != [] {
      assert forall i :: 0 <= i < |s[1..]| ==> s[1..][i] == s[i + 1];
      OfKeyNone(s[1..], key, k);
    }
  }

  lemma OfKeySplit<T>(u: seq<T>, x: T, v: seq<T>, key: T -> int, k: int)
    ensures OfKey(u + [x] + v, key, k) == OfKey(u, key, k) + (if key(x) == k then [x] else []) + OfKey(v, key, k)
  {
    OfKeyAppend(u + [x], v, key, k);
    OfKeyAppend(u, [x], key, k);
    assert OfKey([x], key, k) == if key(x) == k then [x] else [];
  }

  lemma InsertShape<T>(x: T, t: seq<T>, key: T -> int)
    requires SortedBy(t, key)
    ensures Insert(x, t, key) == t[..InsertPos(x, t, key)] + [x] + t[InsertPos(x, t, key)..]
  {
  }

  /** Putting `x` at position `p`, past only elements with smaller keys, puts it in front of every element with its key. */
  lemma InsertAtStable<T>(x: T, t: seq<T>, key: T -> int, k: int, p: nat)
    requires p <= |t| && forall i :: 0 <= i < p ==> key(t[i]) < key(x)
    ensures OfKey(t[..p] + [x] + t[p..], key, k) == (if key(x) == k then [x] else []) + OfKey(t, key, k)
  {
    var u, v := t[..p], t[p..];
    var a, b := OfKey(u, key, k), OfKey(v, key, k);
    OfKeySplit(u, x, v, key, k);
    assert OfKey(t, key, k) == a + b by {
      assert t == u + v;
      OfKeyAppend(u, v, key, k);
    }
    if key(x) == k {
      assert a == [] by {
        assert forall i :: 0 <= i < |u| ==> key(u[i]) < k;
        OfKeyNone(u, key, k);
      }
      assert a + [x] == [x] && a + b == b;
    } else {
      assert a + [] == a && [] + (a + b) == a + b;
    }
  }

  /** Inserting `x` puts it in front of every element with its key, and moves nothing else past another of the same key. */
  lemma InsertStable<T>(x: T, t: seq<T>, key: T -> int, k: int)
    requires SortedBy(t, key)
    ensures OfKey(Insert(x, t, key), key, k) == (if key(x) == k then [x] else []) + OfKey(t, key, k)
  {
    InsertShape(x, t, key);
    InsertAtStable(x, t, key, k, InsertPos(x, t, key));
  }

  /** `SortBy` is stable: the elements sharing any one key come out in the order they went in. */
  lemma {:induction false} SortByStable<T>(s: seq<T>, key: T -> int, k: int)
    ensures OfKey(SortBy(s, key), key, k) == OfKey(s, key, k)
  {
    if s != [] {
      SortByStable(s[1..], key, k);
      InsertStable(s[0], SortBy(s[1..], key), key, k);
    }
  }

  /** No element occurs twice. */
  predicate Distinct<T(==)>(s: seq<T>)
  {
    forall i, j :: 0 <= i < j < |s| ==> s[i] != s[j]
  }

  lemma {:induction false} DistinctAtMostOnce<T>(s: seq<T>, x: T)
    requires Distinct(s)
    ensures multiset(s)[x] <= 1
  {
    if s != [] {
      assert s == [s[0]] + s[1..];
      assert Distinct(s[1..]) by {
        forall i, j | 0 <= i < j < |s[1..]| ensures s[1..][i] != s[1..][j] {
          assert s[1..][i] == s[i + 1] && s[1..][j] == s[j + 1];
        }
      }
      DistinctAtMostOnce(s[1..], x);
      if s[0] == x {
        assert x !in s[1..];
      }
    }
  }

  /** A permutation of a sequence without repetitions has none either. */
  lemma DistinctPermutation<T>(s: seq<T>, t: seq<T>)
    requires Distinct(s) && multiset(s) == multiset(t)
    ensures Distinct(t)
  {
    forall i, j | 0 <= i < j < |t| ensures t[i] != t[j] {
      if t[i] == t[j] {
        var x := t[i];
        assert t == t[..i] + [x] + t[i + 1..j] + [x] + t[j + 1..];
        assert multiset(t)[x] >= 2;
        DistinctAtMostOnce(s, x);
      }
    }
  }

  /**
   * `Array.prototype.findIndex` / `indexOf`: the first position whose element
   * satisfies `p`, or None when there is none.
   */
  function FindIndex<T>(s: seq<T>, p: T -> bool): (r: Option<nat>)
    ensures r.Some? ==> r.value < |s| && p(s[r.value])
    ensures r.Some? ==> forall j :: 0 <= j < r.value ==> !p(s[j])
    ensures r.None? ==> forall j :: 0 <= j < |s| ==> !p(s[j])
  {
    if s == [] then None
    else if p(s[0]) then Some(0)
    else match FindIndex(s[1..], p)
      case None => None
      case Some(k) => Some(k + 1)
  }

  /** Searching a longer sequence finds the same first match, or else the new last element if it matches. */
  lemma {:induction false} FindIndexAppend<T>(s: seq<T>, x: T, p: T -> bool)
    ensures FindIndex(s + [x], p) ==
      if FindIndex(s, p).Some? then FindIndex(s, p) else if p(x) then Some(|s|) else None
  {
    if s != [] {
      assert (s + [x])[1..] == s[1..] + [x];
      FindIndexAppend(s[1..], x, p);
    }
  }

  /** Filtering with two predicates that agree everywhere gives the same sequence. */
  lemma {:induction false} FilterSame<T>(s: seq<T>, p: T -> bool, q: T -> bool)
    requires forall x :: p(x) == q(x)
    ensures Filter(s, p) == Filter(s, q)
  {
    if s != [] { FilterSame(s[1..], p, q); }
  }

  /** Filtering keeps everything when every element passes. */
  lemma {:induction false} FilterAll<T>(s: seq<T>, p: T -> bool)
    requires forall i :: 0 <= i < |s| ==> p(s[i])
    ensures Filter(s, p) == s
  {
    if s != [] {
      assert forall i :: 0 <= i < |s[1..]| ==> s[1..][i] == s[i + 1];
      FilterAll(s[1..], p);
      assert s == [s[0]] + s[1..];
    }
  }

  /** Filtering a filtered sequence again with the same test changes nothing. */
  lemma FilterIdempotent<T>(s: seq<T>, p: T -> bool)
    ensures Filter(Filter(s, p), p) == Filter(s, p)
  {
    FilterAll(Filter(s, p), p);
  }

  /** Nothing is counted when no element satisfies `p`. */
  lemma {:induction false} CountNone<T>(s: seq<T>, p: T -> bool)
    requires forall i :: 0 <= i < |s| ==> !p(s[i])
    ensures Count(s, p) == 0
  {
    if s != [] { CountNone(s[1..], p); }
  }
}
