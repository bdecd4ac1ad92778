/**
 * Index sorting ("argsort") over two-part keys ordered lexicographically.
 * One key shape serves every ordering the estimators use: eigenvalues by
 * decreasing magnitude, complex numbers in numpy's order (real part, then
 * imaginary part), and plain integers.
 *
 * A permutation of 0..n-1 is any sequence with the same multiset as
 * Range(n); applying it to a sequence reorders that sequence.
 */
module Sorting {

  datatype Key = Key(major: real, minor: real)

  predicate KeyLe(a: Key, b: Key) {
    a.major < b.major || (a.major == b.major && a.minor <= b.minor)
  }

  predicate SortedBy(ks: seq<Key>) {
    forall i, j :: 0 <= i < j < |ks| ==> KeyLe(ks[i], ks[j])
  }

  function Range(n: nat): (r: seq<int>)
    ensures |r| == n && forall i :: 0 <= i < n ==> r[i] == i
  {
    seq(n, i => i)
  }

  predicate IsPermutation(p: seq<int>, n: nat) {
    multiset(p) == multiset(Range(n))
  }

  predicate InRange(p: seq<int>, n: nat) {
    forall i :: 0 <= i < |p| ==> 0 <= p[i] < n
  }

  /** s reordered by p: position i holds s[p[i]]. */
  function Apply<T>(s: seq<T>, p: seq<int>): (r: seq<T>)
    requires InRange(p, |s|)
    ensures |r| == |p| && forall i :: 0 <= i < |p| ==> r[i] == s[p[i]]
  {
    seq(|p|, i requires 0 <= i < |p| => s[p[i]])
  }

  function MapKeys<T>(f: T -> Key, s: seq<T>): (r: seq<Key>)
    ensures |r| == |s| && forall i :: 0 <= i < |s| ==> r[i] == f(s[i])
  {
    seq(|s|, i requires 0 <= i < |s| => f(s[i]))
  }

  /** Inserts index x into the index list s, after every entry whose key is not larger. */
  function Insert(keys: seq<Key>, x: int, s: seq<int>): (r: seq<int>)
    requires 0 <= x < |keys| && InRange(s, |keys|)
    ensures |r| == |s| + 1 && InRange(r, |keys|)
  {
    if s == [] then [x]
    else if !KeyLe(keys[s[0]], keys[x]) then [x] + s
    else [s[0]] + Insert(keys, x, s[1..])
  }

  /** Insert adds exactly x to the index list. */
  lemma {:induction false} InsertPermutes(keys: seq<Key>, x: int, s: seq<int>)
    requires 0 <= x < |keys| && InRange(s, |keys|)
    ensures multiset(Insert(keys, x, s)) == multiset(s) + multiset{x}
  {
    if s != [] && KeyLe(keys[s[0]], keys[x]) {
      InsertPermutes(keys, x, s[1..]);
      assert s == [s[0]] + s[1..];
    }
  }

  lemma ApplyConcat<T>(s: seq<T>, p: seq<int>, q: seq<int>)
    requires InRange(p, |s|) && InRange(q, |s|)
    ensures InRange(p + q, |s|)
    ensures Apply(s, p + q) == Apply(s, p) + Apply(s, q)
  {
  }

  /** Placing a key no larger than the head in front of a sorted sequence keeps it sorted. */
  lemma SortedCons(k: Key, ts: seq<Key>)
    requires SortedBy(ts) && (ts == [] || KeyLe(k, ts[0]))
    ensures SortedBy([k] + ts)
  {
    var r := [k] + ts;
    forall i, j | 0 <= i < j < |r|
      ensures KeyLe(r[i], r[j])
    {
      if i == 0 {
        assert r[j] == ts[j - 1];
        assert KeyLe(ts[0], ts[j - 1]);
      } else {
        assert r[i] == ts[i - 1] && r[j] == ts[j - 1];
      }
    }
  }

  lemma {:induction false} InsertSorted(keys: seq<Key>, x: int, s: seq<int>)
    requires 0 <= x < |keys| && InRange(s, |keys|)
    requires SortedBy(Apply(keys, s))
    ensures SortedBy(Apply(keys, Insert(keys, x, s)))
  {
    if s == [] {
    } else if !KeyLe(keys[s[0]], keys[x]) {
      ApplyConcat(keys, [x], s);
      assert Apply(keys, [x]) == [keys[x]];
      SortedCons(keys[x], Apply(keys, s));
    } else {
      var rest := s[1..];
      var tail := Insert(keys, x, rest);
      assert Insert(keys, x, s) == [s[0]] + tail;
      assert SortedBy(Apply(keys, rest)) by {
        var a, b := Apply(keys, s), Apply(keys, rest);
        forall i, j | 0 <= i < j < |b|
          ensures KeyLe(b[i], b[j])
        {
          assert b[i] == a[i + 1] && b[j] == a[j + 1];
        }
      }
      InsertSorted(keys, x, rest);
      var ts := Apply(keys, tail);
      ApplyConcat(keys, [s[0]], tail);
      assert Apply(keys, [s[0]]) == [keys[s[0]]];
      assert KeyLe(keys[s[0]], ts[0]) by {
        if rest != [] && tail[0] != x {
          assert tail[0] == s[1];
          assert Apply(keys, s)[1] == keys[s[1]];
        }
      }
      SortedCons(keys[s[0]], ts);
    }
  }

  lemma RangeSnoc(n: nat)
    ensures multiset(Range(n + 1)) == multiset(Range(n)) + multiset{n}
  {
    assert Range(n + 1) == Range(n) + [n];
  }

  /** The indices 0..n-1, sorted by key (insertion sort). */
  function SortPrefix(keys: seq<Key>, n: nat): (r: seq<int>)
    requires n <= |keys|
    ensures |r| == n && InRange(r, |keys|)
  {
    if n == 0 then [] else Insert(keys, n - 1, SortPrefix(keys, n - 1))
  }

  /** SortPrefix rearranges the indices 0..n-1. */
  lemma {:induction false} SortPrefixPermutes(keys: seq<Key>, n: nat)
    requires n <= |keys|
    ensures multiset(SortPrefix(keys, n)) == multiset(Range(n))
  {
    if n > 0 {
      SortPrefixPermutes(keys, n - 1);
      InsertPermutes(keys, n - 1, SortPrefix(keys, n - 1));
      RangeSnoc(n - 1);
    }
  }

  /** SortPrefix puts the keys in ascending order. */
  lemma {:induction false} SortPrefixSorted(keys: seq<Key>, n: nat)
    requires n <= |keys|
    ensures SortedBy(Apply(keys, SortPrefix(keys, n)))
  {
    if n == 0 {
      assert |Apply(keys, SortPrefix(keys, n))| == 0;
    } else {
      var s := SortPrefix(keys, n - 1);
      var r := Insert(keys, n - 1, s);
      SortPrefixSorted(keys, n - 1);
      InsertSorted(keys, n - 1, s);
      assert SortPrefix(keys, n) == r;
      assert Apply(keys, SortPrefix(keys, n)) == Apply(keys, r);
    }
  }

  /**
   * The permutation that sorts keys ascending (numpy's argsort). Ties keep
   * their original order.
   */
  function ArgSort(keys: seq<Key>): (p: seq<int>)
    ensures |p| == |keys| && InRange(p, |keys|)
    ensures IsPermutation(p, |keys|)
    ensures SortedBy(Apply(keys, p))
    ensures multiset(Apply(keys, p)) == multiset(keys)
  {
    SortPrefixPermutes(keys, |keys|);
    ApplyPermutation(keys, SortPrefix(keys, |keys|));
    SortPrefixSorted(keys, |keys|);
    SortPrefix(keys, |keys|)
  }

  /** The entries of a permutation of 0..n-1 lie in 0..n-1. */
  lemma PermutationInRange(p: seq<int>, n: nat)
    requires IsPermutation(p, n)
    ensures InRange(p, n)
  {
    forall i | 0 <= i < |p|
      ensures 0 <= p[i] < n
    {
      assert p[i] in multiset(p);
      assert p[i] in Range(n);
    }
  }

  lemma MapKeysConcat<T>(f: T -> Key, a: seq<T>, b: seq<T>)
    ensures MapKeys(f, a + b) == MapKeys(f, a) + MapKeys(f, b)
  {
  }

  /** A non-empty sequence is its head followed by its tail. */
  lemma HeadTail<T>(a: seq<T>)
    requires a != []
    ensures a == [a[0]] + a[1..]
    ensures multiset(a[1..]) == multiset(a) - multiset{a[0]}
  {
    assert a == [a[0]] + a[1..];
  }

  /** Splits a sequence around one occurrence of x. */
  lemma Split<T>(b: seq<T>, x: T) returns (b1: seq<T>, b2: seq<T>)
    requires x in multiset(b)
    ensures b == b1 + [x] + b2
    ensures multiset(b1 + b2) == multiset(b) - multiset{x}
  {
    var k :| 0 <= k < |b| && b[k] == x;
    b1, b2 := b[..k], b[k + 1..];
    assert b == b1 + [x] + b2;
  }

  /** Mapping two sequences with equal multisets gives sequences with equal multisets. */
  lemma {:induction false} MapKeysMultiset<T>(f: T -> Key, a: seq<T>, b: seq<T>)
    requires multiset(a) == multiset(b)
    ensures multiset(MapKeys(f, a)) == multiset(MapKeys(f, b))
    decreases |a|
  {
    if a == [] {
      assert |b| == |multiset(b)| == 0;
    } else {
      var x := a[0];
      HeadTail(a);
      assert x in multiset(b);
      var b1, b2 := Split(b, x);
      var rest := a[1..];
      MapKeysMultiset(f, rest, b1 + b2);
      MapKeysStep(f, x, rest, b1, b2);
    }
  }

  /** Adding the same entry to two sequences keeps their mapped multisets equal. */
  lemma MapKeysStep<T>(f: T -> Key, x: T, rest: seq<T>, b1: seq<T>, b2: seq<T>)
    requires multiset(MapKeys(f, rest)) == multiset(MapKeys(f, b1 + b2))
    ensures multiset(MapKeys(f, [x] + rest)) == multiset(MapKeys(f, b1 + [x] + b2))
  {
    MapKeysConcat(f, [x], rest);
    assert MapKeys(f, [x]) == [f(x)];
    MapKeysRemove(f, b1, x, b2);
  }

  /** Removing one entry from a sequence removes its key from the mapped sequence. */
  lemma MapKeysRemove<T>(f: T -> Key, b1: seq<T>, x: T, b2: seq<T>)
    ensures multiset(MapKeys(f, b1 + [x] + b2)) == multiset(MapKeys(f, b1 + b2)) + multiset{f(x)}
  {
    MapKeysConcat(f, b1 + [x], b2);
    MapKeysConcat(f, b1, [x]);
    MapKeysConcat(f, b1, b2);
    assert MapKeys(f, [x]) == [f(x)];
  }

  /** Removing one index from an index list removes its entry from the reordered sequence. */
  lemma ApplyRemove<T>(s: seq<T>, q1: seq<int>, x: int, q2: seq<int>)
    requires InRange(q1, |s|) && InRange(q2, |s|) && 0 <= x < |s|
    ensures InRange(q1 + [x] + q2, |s|) && InRange(q1 + q2, |s|)
    ensures multiset(Apply(s, q1 + [x] + q2)) == multiset(Apply(s, q1 + q2)) + multiset{s[x]}
  {
    ApplyConcat(s, q1 + [x], q2);
    ApplyConcat(s, q1, [x]);
    ApplyConcat(s, q1, q2);
    assert Apply(s, [x]) == [s[x]];
  }

  /** Splits an index list around one occurrence of x. */
  lemma SplitAt(q: seq<int>, x: int, n: nat) returns (q1: seq<int>, q2: seq<int>)
    requires InRange(q, n) && x in multiset(q)
    ensures q == q1 + [x] + q2 && InRange(q1, n) && InRange(q2, n)
    ensures multiset(q1 + q2) == multiset(q) - multiset{x}
  {
    q1, q2 := Split(q, x);
    assert forall i :: 0 <= i < |q1| ==> q1[i] == q[i];
    assert forall i :: 0 <= i < |q2| ==> q2[i] == q[|q1| + 1 + i];
  }

  /** Reordering by index lists with equal multisets gives sequences with equal multisets. */
  lemma {:induction false} ApplyMultiset<T>(s: seq<T>, p: seq<int>, q: seq<int>)
    requires InRange(p, |s|) && InRange(q, |s|)
    requires multiset(p) == multiset(q)
    ensures multiset(Apply(s, p)) == multiset(Apply(s, q))
    decreases |p|
  {
    if p == [] {
      assert |q| == |multiset(q)| == 0;
    } else {
      var x, rest := p[0], p[1..];
      HeadTail(p);
      assert x in multiset(q);
      var q1, q2 := SplitAt(q, x, |s|);
      ApplyMultiset(s, rest, q1 + q2);
      ApplyStep(s, x, rest, q1, q2);
    }
  }

  /** Adding the same index to two index lists keeps their reorderings' multisets equal. */
  lemma ApplyStep<T>(s: seq<T>, x: int, rest: seq<int>, q1: seq<int>, q2: seq<int>)
    requires 0 <= x < |s| && InRange(rest, |s|) && InRange(q1, |s|) && InRange(q2, |s|)
    requires multiset(Apply(s, rest)) == multiset(Apply(s, q1 + q2))
    ensures InRange([x] + rest, |s|) && InRange(q1 + [x] + q2, |s|)
    ensures multiset(Apply(s, [x] + rest)) == multiset(Apply(s, q1 + [x] + q2))
  {
    ApplyConcat(s, [x], rest);
    assert Apply(s, [x]) == [s[x]];
    ApplyRemove(s, q1, x, q2);
  }

  /** Applying a permutation rearranges a sequence without changing its multiset. */
  lemma ApplyPermutation<T>(s: seq<T>, p: seq<int>)
    requires IsPermutation(p, |s|)
    ensures InRange(p, |s|)
    ensures multiset(Apply(s, p)) == multiset(s)
  {
    PermutationInRange(p, |s|);
    ApplyMultiset(s, p, Range(|s|));
    assert Apply(s, Range(|s|)) == s;
  }

  /** The tail of a sorted sequence is sorted, and its head is no larger than any entry. */
  lemma SortedTail(a: seq<Key>)
    requires a != [] && SortedBy(a)
    ensures SortedBy(a[1..])
    ensures forall k :: k in multiset(a) ==> KeyLe(a[0], k)
  {
    forall k | k in multiset(a)
      ensures KeyLe(a[0], k)
    {
      var i :| 0 <= i < |a| && a[i] == k;
      if i > 0 {
        assert KeyLe(a[0], a[i]);
      }
    }
  }

  /** A multiset has exactly one ascending arrangement. */
  lemma {:induction false} SortedUnique(a: seq<Key>, b: seq<Key>)
    requires SortedBy(a) && SortedBy(b)
    requires multiset(a) == multiset(b)
    ensures a == b
    decreases |a|
  {
    if a == [] {
      assert |b| == |multiset(b)| == 0;
    } else {
      assert |b| == |multiset(b)| == |a|;
      assert a[0] in multiset(a) && b[0] in multiset(b);
      SortedTail(a);
      SortedTail(b);
      assert a[0] == b[0] by {
        assert KeyLe(a[0], b[0]) && KeyLe(b[0], a[0]);
      }
      HeadTail(a);
      HeadTail(b);
      SortedUnique(a[1..], b[1..]);
    }
  }
}
