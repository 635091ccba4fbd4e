/**
 * Counting entries per key, as the portfolio scripts do with a plain
 * object: `counts[key] = (counts[key] || 0) + 1` inside a `forEach`.
 * JavaScript objects keep string keys in insertion order, so such an
 * object is modelled by its key order (first occurrence first) together
 * with a map from key to count. An entry whose key is `None` is skipped,
 * as the scripts skip entries whose key is falsy.
 */
module Tallies {
  import opened Wrappers
  import opened Seqs

  /** How many entries of `s` have key `k`. */
  function Occurrences<T>(s: seq<T>, key: T -> Option<string>, k: string): nat
  {
    if s == [] then 0 else (if key(s[0]) == Some(k) then 1 else 0) + Occurrences(s[1..], key, k)
  }

  /** How many entries of `s` have a key at all. */
  function Keyed<T>(s: seq<T>, key: T -> Option<string>): nat
  {
    if s == [] then 0 else (if key(s[0]).Some? then 1 else 0) + Keyed(s[1..], key)
  }

  lemma {:induction false} OccurrencesAppend<T>(s: seq<T>, x: T, key: T -> Option<string>, k: string)
    ensures Occurrences(s + [x], key, k) == Occurrences(s, key, k) + (if key(x) == Some(k) then 1 else 0)
  {
    if s != [] {
      assert (s + [x])[1..] == s[1..] + [x];
      OccurrencesAppend(s[1..], x, key, k);
    }
  }

  lemma {:induction false} KeyedAppend<T>(s: seq<T>, x: T, key: T -> Option<string>)
    ensures Keyed(s + [x], key) == Keyed(s, key) + (if key(x).Some? then 1 else 0)
  {
    if s != [] {
      assert (s + [x])[1..] == s[1..] + [x];
      KeyedAppend(s[1..], x, key);
    }
  }

  /** When every entry has a key, every entry is counted. */
  lemma {:induction false} KeyedAll<T>(s: seq<T>, key: T -> Option<string>)
    requires forall i :: 0 <= i < |s| ==> key(s[i]).Some?
    ensures Keyed(s, key) == |s|
  {
    if s != [] {
      assert forall i :: 0 <= i < |s[1..]| ==> s[1..][i] == s[i + 1];
      KeyedAll(s[1..], key);
    }
  }

  /** A key occurs at least once exactly when some entry has it. */
  lemma {:induction false} OccurrencesPositive<T>(s: seq<T>, key: T -> Option<string>, k: string)
    ensures Occurrences(s, key, k) > 0 <==> exists j :: 0 <= j < |s| && key(s[j]) == Some(k)
  {
    if s != [] {
      OccurrencesPositive(s[1..], key, k);
      if key(s[0]) != Some(k) {
        if exists j :: 0 <= j < |s| && key(s[j]) == Some(k) {
          var j :| 0 <= j < |s| && key(s[j]) == Some(k);
          assert key(s[1..][j - 1]) == Some(k);
        }
      }
    }
  }

  /** Position of the first entry with key `k`, or `|s|` when there is none. */
  function FirstIndex<T>(s: seq<T>, key: T -> Option<string>, k: string): (r: nat)
    ensures r <= |s|
    ensures r < |s| ==> key(s[r]) == Some(k)
    ensures forall j :: 0 <= j < r ==> key(s[j]) != Some(k)
  {
    if s == [] then 0
    else if key(s[0]) == Some(k) then 0
    else 1 + FirstIndex(s[1..], key, k)
  }

  /** Appending an entry moves no first occurrence, and gives a new key its first one. */
  lemma FirstIndexAppend<T>(s: seq<T>, x: T, key: T -> Option<string>, k: string)
    ensures FirstIndex(s + [x], key, k) ==
      if FirstIndex(s, key, k) < |s| then FirstIndex(s, key, k)
      else if key(x) == Some(k) then |s| else |s| + 1
  {
    var r0 := FirstIndex(s, key, k);
    if r0 < |s| {
      assert (s + [x])[r0] == s[r0];
    } else {
      assert (s + [x])[|s|] == x;
      assert forall j :: 0 <= j < |s| ==> (s + [x])[j] == s[j];
    }
  }

  /**
   * `keys` lists exactly the keys that occur in `s`, in order of their first
   * occurrence: the key order of an object filled by a `forEach` over `s`.
   */
  ghost predicate FirstSeenOrder<T>(s: seq<T>, key: T -> Option<string>, keys: seq<string>)
  {
    && (forall k :: k in keys <==> FirstIndex(s, key, k) < |s|)
    && (forall a, b :: 0 <= a < b < |keys| ==> FirstIndex(s, key, keys[a]) < FirstIndex(s, key, keys[b]))
  }

  /** One more entry adds its key at the end when the key is new, and keeps the order otherwise. */
  lemma FirstSeenStep<T>(s: seq<T>, x: T, key: T -> Option<string>, keys: seq<string>)
    requires FirstSeenOrder(s, key, keys)
    ensures FirstSeenOrder(s + [x], key,
      if key(x).Some? && key(x).value !in keys then keys + [key(x).value] else keys)
  {
    forall k ensures FirstIndex(s + [x], key, k) ==
      if FirstIndex(s, key, k) < |s| then FirstIndex(s, key, k) else if key(x) == Some(k) then |s| else |s| + 1
    {
      FirstIndexAppend(s, x, key, k);
    }
  }

  /** The keys of `s` as a `forEach` meets them: each new key is added at the end. */
  function FirstSeen<T>(s: seq<T>, key: T -> Option<string>): seq<string>
    decreases |s|
  {
    if s == [] then []
    else
      var seen := FirstSeen(s[..|s| - 1], key);
      var x := s[|s| - 1];
      if key(x).Some? && key(x).value !in seen then seen + [key(x).value] else seen
  }

  /** `FirstSeen` lists the keys that occur, ordered by first occurrence. */
  lemma {:induction false} FirstSeenOrdered<T>(s: seq<T>, key: T -> Option<string>)
    ensures FirstSeenOrder(s, key, FirstSeen(s, key))
    decreases |s|
  {
    if s != [] {
      var p, x := s[..|s| - 1], s[|s| - 1];
      assert s == p + [x];
      var seen := FirstSeen(p, key);
      assert FirstSeen(s, key) == if key(x).Some? && key(x).value !in seen then seen + [key(x).value] else seen;
      FirstSeenOrdered(p, key);
      FirstSeenStep(p, x, key, seen);
    }
  }

  /** Sum of the counts listed under `keys`, an absent key counting as 0. */
  function Total(keys: seq<string>, counts: map<string, nat>): nat
  {
    if keys == [] then 0 else (if keys[0] in counts then counts[keys[0]] else 0) + Total(keys[1..], counts)
  }

  lemma {:induction false} TotalIgnores(keys: seq<string>, counts: map<string, nat>, k: string, v: nat)
    requires k !in keys
    ensures Total(keys, counts[k := v]) == Total(keys, counts)
  {
    if keys != [] { TotalIgnores(keys[1..], counts, k, v); }
  }

  lemma {:induction false} TotalAppend(keys: seq<string>, counts: map<string, nat>, k: string)
    requires k in counts
    ensures Total(keys + [k], counts) == Total(keys, counts) + counts[k]
  {
    if keys != [] {
      assert (keys + [k])[1..] == keys[1..] + [k];
      TotalAppend(keys[1..], counts, k);
    }
  }

  lemma {:induction false} TotalBump(keys: seq<string>, counts: map<string, nat>, k: string)
    requires Distinct(keys) && k in keys && k in counts
    ensures Total(keys, counts[k := counts[k] + 1]) == Total(keys, counts) + 1
  {
    if keys[0] == k {
      forall j | 0 <= j < |keys[1..]| ensures keys[1..][j] != k {
        assert keys[1..][j] == keys[j + 1];
      }
      TotalIgnores(keys[1..], counts, k, counts[k] + 1);
    } else {
      TotalBump(keys[1..], counts, k);
    }
  }

  /** What `Tally` knows after the prefix `p`: its keys, their counts and their order. */
  ghost predicate Tallied<T>(p: seq<T>, key: T -> Option<string>, keys: seq<string>, counts: map<string, nat>)
  {
    && Distinct(keys)
    && (forall k :: k in counts <==> k in keys)
    && (forall k :: k in counts ==> counts[k] == Occurrences(p, key, k) && counts[k] > 0)
    && (forall k :: k !in counts ==> Occurrences(p, key, k) == 0)
    && Total(keys, counts) == Keyed(p, key)
    && keys == FirstSeen(p, key)
  }

  /** Counting `x` adds one to the occurrences of its key and to the keyed total. */
  lemma CountOne<T>(p: seq<T>, x: T, key: T -> Option<string>)
    ensures Keyed(p + [x], key) == Keyed(p, key) + (if key(x).Some? then 1 else 0)
    ensures forall k :: Occurrences(p + [x], key, k) == Occurrences(p, key, k) + (if key(x) == Some(k) then 1 else 0)
    ensures (p + [x])[..|p|] == p
  {
    KeyedAppend(p, x, key);
    forall k ensures Occurrences(p + [x], key, k) == Occurrences(p, key, k) + (if key(x) == Some(k) then 1 else 0) {
      OccurrencesAppend(p, x, key, k);
    }
    assert (p + [x])[..|p|] == p;
  }

  /** An entry without a key changes nothing. */
  lemma TallySkip<T>(p: seq<T>, x: T, key: T -> Option<string>, keys: seq<string>, counts: map<string, nat>)
    requires Tallied(p, key, keys, counts) && key(x).None?
    ensures Tallied(p + [x], key, keys, counts)
  {
    CountOne(p, x, key);
  }

  /** An entry whose key was seen before bumps that key's count. */
  lemma TallyBump<T>(p: seq<T>, x: T, key: T -> Option<string>, keys: seq<string>, counts: map<string, nat>)
    requires Tallied(p, key, keys, counts) && key(x).Some? && key(x).value in counts
    ensures Tallied(p + [x], key, keys, counts[key(x).value := counts[key(x).value] + 1])
  {
    CountOne(p, x, key);
    TotalBump(keys, counts, key(x).value);
  }

  /** An entry with a new key appends that key with count 1. */
  lemma TallyAppend<T>(p: seq<T>, x: T, key: T -> Option<string>, keys: seq<string>, counts: map<string, nat>)
    requires Tallied(p, key, keys, counts) && key(x).Some? && key(x).value !in counts
    ensures Tallied(p + [x], key, keys + [key(x).value], counts[key(x).value := 1])
  {
    var k := key(x).value;
    CountOne(p, x, key);
    TotalIgnores(keys, counts, k, 1);
    TotalAppend(keys, counts[k := 1], k);
  }

  /**
   * The counting `forEach`: every key that occurs is listed once, in order
   * of first occurrence, with its exact number of occurrences; the counts
   * add up to the number of keyed entries.
   */
  method Tally<T>(s: seq<T>, key: T -> Option<string>) returns (keys: seq<string>, counts: map<string, nat>)
    ensures Distinct(keys)
    ensures forall k :: k in counts <==> k in keys
    ensures forall k :: k in keys <==> exists j :: 0 <= j < |s| && key(s[j]) == Some(k)
    ensures forall k :: k in counts ==> counts[k] == Occurrences(s, key, k) && counts[k] > 0
    ensures Total(keys, counts) == Keyed(s, key)
    ensures FirstSeenOrder(s, key, keys)
  {
    keys, counts := [], map[];
    for i := 0 to |s|
      invariant Tallied(s[..i], key, keys, counts)
    {
      assert s[..i + 1] == s[..i] + [s[i]];
      match key(s[i])
      case None =>
        TallySkip(s[..i], s[i], key, keys, counts);
      case Some(k) =>
        if k in counts {
          TallyBump(s[..i], s[i], key, keys, counts);
          counts := counts[k := counts[k] + 1];
        } else {
          TallyAppend(s[..i], s[i], key, keys, counts);
          keys := keys + [k];
          counts := counts[k := 1];
        }
    }
    assert s[..|s|] == s;
    FirstSeenOrdered(s, key);
    forall k ensures k in keys <==> exists j :: 0 <= j < |s| && key(s[j]) == Some(k) {
      OccurrencesPositive(s, key, k);
    }
  }
}
