/** Sequence searches and filters: the array library calls the dashboard uses
    (`find`, `filter`, `map`, `filter(..).length`), stated once for every record type. */
module Seqs {
  import opened Wrappers

  /** Index of the first element that satisfies `p`, as `Array.prototype.find` locates it. */
  function IndexWhere<T>(s: seq<T>, p: T -> bool): (r: Option<nat>)
    ensures r.Some? ==> r.value < |s| && p(s[r.value])
    ensures r.Some? ==> forall j :: 0 <= j < r.value ==> !p(s[j])
    ensures r.None? <==> forall j :: 0 <= j < |s| ==> !p(s[j])
    decreases |s|
  {
    if |s| == 0 then None
    else if p(s[0]) then Some(0)
    else match IndexWhere(s[1..], p)
      case None => None
      case Some(k) => Some(k + 1)
  }

  /** True when some element satisfies `p` (a regular-expression `test` over characters,
      a `find` used as a condition). */
  predicate Any<T>(s: seq<T>, p: T -> bool) {
    IndexWhere(s, p).Some?
  }

  /** The elements that satisfy `p`, in their original order (`Array.prototype.filter`). */
  function Filter<T>(s: seq<T>, p: T -> bool): (r: seq<T>)
    ensures |r| <= |s|
    decreases |s|
  {
    if |s| == 0 then []
    else (if p(s[0]) then [s[0]] else []) + Filter(s[1..], p)
  }

  /** How many elements satisfy `p` (`filter(p).length`). */
  function Count<T>(s: seq<T>, p: T -> bool): nat {
    |Filter(s, p)|
  }

  /** Pointwise image of a sequence (`Array.prototype.map`). */
  function Map<T, U>(s: seq<T>, f: T -> U): (r: seq<U>)
    ensures |r| == |s|
    ensures forall i :: 0 <= i < |s| ==> r[i] == f(s[i])
  {
    seq(|s|, i requires 0 <= i < |s| => f(s[i]))
  }

  /** Replacing an element by one with the same key keeps the keys. */
  lemma MapUpdateKey<T, K>(s: seq<T>, k: nat, x: T, key: T -> K)
    requires k < |s| && key(x) == key(s[k])
    ensures Map(s[k := x], key) == Map(s, key)
  {
  }

  /** Appending an element appends its key. */
  lemma MapAppendKey<T, K>(s: seq<T>, x: T, key: T -> K)
    ensures Map(s + [x], key) == Map(s, key) + [key(x)]
  {
  }

  /** No value occurs twice. */
  predicate Distinct<T(==)>(s: seq<T>) {
    forall i, j :: 0 <= i < j < |s| ==> s[i] != s[j]
  }

  /** In a sequence without repeats, equal entries sit at the same position. */
  lemma DistinctAt<T>(s: seq<T>, i: nat, j: nat)
    requires Distinct(s) && i < |s| && j < |s| && s[i] == s[j]
    ensures i == j
  {
  }

  function Min(a: int, b: int): int {
    if a <= b then a else b
  }

  /** Front insertion into a log capped at `cap` entries (`unshift`, then `length = cap`):
      the new entry comes first, the rest is the newest part of the old log. */
  function CapPush<T>(log: seq<T>, x: T, cap: nat): (r: seq<T>)
    requires cap > 0
    ensures |r| == Min(|log| + 1, cap)
    ensures r[0] == x
    ensures r[1..] == log[..|r| - 1]
  {
    var grown := [x] + log;
    if |grown| > cap then grown[..cap] else grown
  }

  /** What a filter keeps: elements of the input that pass, and every element that passes. */
  lemma {:induction false} FilterMembers<T>(s: seq<T>, p: T -> bool)
    ensures forall i :: 0 <= i < |Filter(s, p)| ==> Filter(s, p)[i] in s && p(Filter(s, p)[i])
    ensures forall i :: 0 <= i < |s| && p(s[i]) ==> s[i] in Filter(s, p)
    decreases |s|
  {
    if |s| > 0 {
      FilterMembers(s[1..], p);
      var r := Filter(s, p);
      var rest := Filter(s[1..], p);
      assert r == (if p(s[0]) then [s[0]] else []) + rest;
      forall i | 0 <= i < |r| ensures r[i] in s && p(r[i]) {
        if !p(s[0]) || i > 0 {
          var i' := if p(s[0]) then i - 1 else i;
          assert r[i] == rest[i'];
          assert rest[i'] in s[1..];
        }
      }
      forall i | 0 <= i < |s| && p(s[i]) ensures s[i] in r {
        if i > 0 {
          assert s[i] == s[1..][i - 1];
        }
      }
    }
  }

  lemma FilterCons<T>(x: T, s: seq<T>, p: T -> bool)
    ensures Filter([x] + s, p) == (if p(x) then [x] else []) + Filter(s, p)
  {
    assert ([x] + s)[1..] == s;
  }

  lemma {:induction false} FilterAppend<T>(a: seq<T>, b: seq<T>, p: T -> bool)
    ensures Filter(a + b, p) == Filter(a, p) + Filter(b, p)
    decreases |a|
  {
    if |a| > 0 {
      assert (a + b)[1..] == a[1..] + b;
      FilterAppend(a[1..], b, p);
    } else {
      assert a + b == b;
    }
  }

  /** A filter that every element passes keeps the whole sequence. */
  lemma {:induction false} FilterKeepsAll<T>(s: seq<T>, p: T -> bool)
    requires forall i :: 0 <= i < |s| ==> p(s[i])
    ensures Filter(s, p) == s
    decreases |s|
  {
    if |s| > 0 {
      FilterKeepsAll(s[1..], p);
    }
  }

  /** A filter that exactly one element fails removes that element and keeps the
      others in their order. */
  lemma {:induction false} FilterRemovesOne<T>(s: seq<T>, p: T -> bool, k: nat)
    requires k < |s| && !p(s[k])
    requires forall i :: 0 <= i < |s| && i != k ==> p(s[i])
    ensures Filter(s, p) == s[..k] + s[k + 1..]
    decreases |s|
  {
    if k == 0 {
      FilterKeepsAll(s[1..], p);
    } else {
      FilterRemovesOne(s[1..], p, k - 1);
      assert s[1..][..k - 1] == s[1..k];
      assert s[1..][k..] == s[k + 1..];
      assert s[..k] == [s[0]] + s[1..k];
    }
  }

  /** The elements whose key is not `id`. */
  function KeyIsNot<T, K(==)>(key: T -> K, id: K): T -> bool {
    (x: T) => key(x) != id
  }

  /** With distinct keys, dropping the key found at `k` removes exactly that element. */
  lemma RemoveByKey<T, K>(s: seq<T>, key: T -> K, id: K, k: nat)
    requires Distinct(Map(s, key)) && k < |s| && key(s[k]) == id
    ensures Filter(s, KeyIsNot(key, id)) == s[..k] + s[k + 1..]
  {
    var m := Map(s, key);
    forall i | 0 <= i < |s| && i != k ensures KeyIsNot(key, id)(s[i]) {
      if i < k {
        assert m[i] != m[k];
      } else {
        assert m[k] != m[i];
      }
    }
    FilterRemovesOne(s, KeyIsNot(key, id), k);
  }

  /** Filtering keeps distinct keys distinct. */
  lemma {:induction false} FilterDistinct<T, K>(s: seq<T>, p: T -> bool, key: T -> K)
    requires Distinct(Map(s, key))
    ensures Distinct(Map(Filter(s, p), key))
    decreases |s|
  {
    if |s| > 0 {
      var m := Map(s, key);
      var tail := Map(s[1..], key);
      assert tail == m[1..];
      FilterDistinct(s[1..], p, key);
      var rest := Filter(s[1..], p);
      if p(s[0]) {
        assert key(s[0]) !in tail by {
          forall i | 0 <= i < |tail| ensures tail[i] != key(s[0]) {
            assert m[i + 1] != m[0];
          }
        }
        forall j | 0 <= j < |rest| ensures key(rest[j]) != key(s[0]) {
          FilterKeyIn(s[1..], p, key, j);
        }
        var mr := Map(Filter(s, p), key);
        assert Filter(s, p) == [s[0]] + rest;
        assert mr == [key(s[0])] + Map(rest, key);
      }
    }
  }

  /** The key of a kept element is among the keys of the whole sequence. */
  lemma {:induction false} FilterKeyIn<T, K>(s: seq<T>, p: T -> bool, key: T -> K, j: nat)
    requires j < |Filter(s, p)|
    ensures key(Filter(s, p)[j]) in Map(s, key)
  {
    var x := Filter(s, p)[j];
    FilterMembers(s, p);
    assert x in s;
    var i :| 0 <= i < |s| && s[i] == x;
    assert Map(s, key)[i] == key(x);
  }

  /** A counted predicate that implies another counts no more elements. */
  lemma {:induction false} CountMonotone<T>(s: seq<T>, p: T -> bool, q: T -> bool)
    requires forall x :: p(x) ==> q(x)
    ensures Count(s, p) <= Count(s, q)
    decreases |s|
  {
    if |s| > 0 {
      CountMonotone(s[1..], p, q);
    }
  }

  lemma {:induction false} CountAppend<T>(a: seq<T>, b: seq<T>, p: T -> bool)
    ensures Count(a + b, p) == Count(a, p) + Count(b, p)
  {
    FilterAppend(a, b, p);
  }
}
