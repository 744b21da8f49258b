/**
 * JavaScript array and string primitives used by the document model,
 * written out with their exact index arithmetic.
 */
module Seqs {

  /** Every element occurs at most once. */
  predicate NoDup<T(==)>(s: seq<T>) {
    forall i, j :: 0 <= i < j < |s| ==> s[i] != s[j]
  }

  /**
   * `s.splice(s.indexOf(x), 1)` for an `x` that occurs in `s`: the first
   * occurrence of `x` is dropped. Absent `x` leaves `s` as it is.
   */
  function RemoveFirst<T(==)>(s: seq<T>, x: T): (r: seq<T>)
    ensures x !in s ==> r == s
    ensures x in s ==> |r| == |s| - 1
    ensures multiset(r) == multiset(s) - multiset{x}
  {
    if |s| == 0 then []
    else if s[0] == x then assert s == [x] + s[1..]; s[1..]
    else assert s == [s[0]] + s[1..]; [s[0]] + RemoveFirst(s[1..], x)
  }

  /** `s.indexOf(x)`: the first index holding `x`, or -1 when `x` does not occur. */
  function IndexOf<T(==)>(s: seq<T>, x: T): (r: int)
    ensures -1 <= r < |s|
    ensures r == -1 <==> x !in s
    ensures 0 <= r ==> s[r] == x && x !in s[..r]
  {
    if |s| == 0 then -1
    else if s[0] == x then 0
    else
      var k := IndexOf(s[1..], x);
      if k == -1 then -1
      else assert s[..k + 1] == [s[0]] + s[1..][..k]; k + 1
  }

  /**
   * `s.splice(s.indexOf(x), 1)` as JavaScript runs it: for an `x` that
   * occurs, its first occurrence is dropped; for an absent `x` the start
   * -1 counts from the end, so the last element is dropped.
   */
  function SpliceOut<T(==)>(s: seq<T>, x: T): (r: seq<T>)
    ensures x in s ==> r == RemoveFirst(s, x)
    ensures x !in s && |s| > 0 ==> r == s[..|s| - 1]
    ensures x !in s && |s| == 0 ==> r == []
  {
    var k := SpliceStart(IndexOf(s, x), |s|);
    RemoveAtIndexOf(s, x);
    if k < |s| then RemoveAt(s, k) else s
  }

  /** Dropping the element at the first index of `x` is `RemoveFirst`. */
  lemma {:induction false} RemoveAtIndexOf<T>(s: seq<T>, x: T)
    ensures x in s ==> RemoveAt(s, IndexOf(s, x)) == RemoveFirst(s, x)
  {
    if x in s {
      var k := IndexOf(s, x);
      RemoveFirstAt(s, x, k);
      assert RemoveAt(s, k) == s[..k] + s[k + 1..];
    }
  }

  /** Removing the first `x` cuts out the index of its first occurrence. */
  lemma {:induction false} RemoveFirstAt<T>(s: seq<T>, x: T, k: nat)
    requires k < |s| && s[k] == x && x !in s[..k]
    ensures RemoveFirst(s, x) == s[..k] + s[k + 1..]
  {
    if k > 0 {
      var t := s[1..];
      assert s[..k] == [s[0]] + t[..k - 1];
      assert s[0] != x && x !in t[..k - 1];
      RemoveFirstAt(t, x, k - 1);
      assert RemoveFirst(s, x) == [s[0]] + RemoveFirst(t, x);
      assert s[k + 1..] == t[k..];
    }
  }

  /** Removing an element keeps a duplicate-free list duplicate-free and drops `x` from it. */
  lemma {:induction false} RemoveFirstNoDup<T>(s: seq<T>, x: T)
    requires NoDup(s)
    ensures NoDup(RemoveFirst(s, x))
    ensures x !in RemoveFirst(s, x)
    ensures forall y :: y != x ==> (y in RemoveFirst(s, x) <==> y in s)
  {
    if |s| == 0 {
    } else if s[0] == x {
      assert forall y :: y in s[1..] ==> y in s;
      assert x !in s[1..] by {
        forall k | 0 <= k < |s[1..]| ensures s[1..][k] != x { assert s[k + 1] != s[0]; }
      }
    } else {
      var t := s[1..];
      assert NoDup(t) by {
        forall i, j | 0 <= i < j < |t| ensures t[i] != t[j] { assert s[i + 1] != s[j + 1]; }
      }
      RemoveFirstNoDup(t, x);
      var r := RemoveFirst(t, x);
      assert s[0] !in t by {
        forall k | 0 <= k < |t| ensures t[k] != s[0] { assert s[k + 1] != s[0]; }
      }
      assert forall y :: y in s <==> y == s[0] || y in t;
    }
  }

  /** `s.filter(e => e !== x)`. */
  function RemoveAll<T(==, !new)>(s: seq<T>, x: T): (r: seq<T>)
    ensures x !in r
    ensures forall y :: y != x ==> (y in r <==> y in s)
    ensures |r| <= |s|
  {
    if |s| == 0 then []
    else if s[0] == x then RemoveAll(s[1..], x)
    else [s[0]] + RemoveAll(s[1..], x)
  }

  /** Filtering keeps a duplicate-free list duplicate-free. */
  lemma {:induction false} RemoveAllNoDup<T(!new)>(s: seq<T>, x: T)
    requires NoDup(s)
    ensures NoDup(RemoveAll(s, x))
  {
    if |s| > 0 {
      var t := s[1..];
      assert NoDup(t) by {
        forall i, j | 0 <= i < j < |t| ensures t[i] != t[j] { assert s[i + 1] != s[j + 1]; }
      }
      RemoveAllNoDup(t, x);
      if s[0] != x {
        assert s[0] !in t by {
          forall k | 0 <= k < |t| ensures t[k] != s[0] { assert s[k + 1] != s[0]; }
        }
        var r := RemoveAll(t, x);
        assert s[0] !in r;
        forall i, j | 0 <= i < j < |[s[0]] + r| ensures ([s[0]] + r)[i] != ([s[0]] + r)[j] {
          if i == 0 { assert ([s[0]] + r)[j] == r[j - 1]; }
        }
      }
    }
  }

  /** Filtering out an absent element changes nothing. */
  lemma {:induction false} RemoveAllAbsent<T(!new)>(s: seq<T>, x: T)
    requires x !in s
    ensures RemoveAll(s, x) == s
  {
    if |s| > 0 {
      assert s == [s[0]] + s[1..];
      RemoveAllAbsent(s[1..], x);
    }
  }

  /** Filtering out `x` after appending it undoes the append when `x` was absent. */
  lemma RemoveAllAppended<T(!new)>(s: seq<T>, x: T)
    requires x !in s
    ensures RemoveAll(s + [x], x) == s
  {
    RemoveAllDistributes(s, [x], x);
    RemoveAllAbsent(s, x);
  }

  lemma {:induction false} RemoveAllDistributes<T(!new)>(a: seq<T>, b: seq<T>, x: T)
    ensures RemoveAll(a + b, x) == RemoveAll(a, x) + RemoveAll(b, x)
  {
    if |a| == 0 {
      assert a + b == b;
    } else {
      assert (a + b)[1..] == a[1..] + b;
      RemoveAllDistributes(a[1..], b, x);
    }
  }

  /** `s.filter(e => !xs.has(e))`. */
  function RemoveEach<T(==, !new)>(s: seq<T>, xs: set<T>): (r: seq<T>)
    ensures forall y :: y in r <==> y in s && y !in xs
  {
    if |s| == 0 then []
    else if s[0] in xs then RemoveEach(s[1..], xs)
    else [s[0]] + RemoveEach(s[1..], xs)
  }

  /** Filtering by a set keeps a duplicate-free list duplicate-free. */
  lemma {:induction false} RemoveEachNoDup<T(!new)>(s: seq<T>, xs: set<T>)
    requires NoDup(s)
    ensures NoDup(RemoveEach(s, xs))
  {
    if |s| > 0 {
      var t := s[1..];
      assert NoDup(t) by {
        forall i, j | 0 <= i < j < |t| ensures t[i] != t[j] { assert s[i + 1] != s[j + 1]; }
      }
      RemoveEachNoDup(t, xs);
      if s[0] !in xs {
        assert s[0] !in t by {
          forall k | 0 <= k < |t| ensures t[k] != s[0] { assert s[k + 1] != s[0]; }
        }
        var r := RemoveEach(t, xs);
        assert s[0] !in r;
        forall i, j | 0 <= i < j < |[s[0]] + r| ensures ([s[0]] + r)[i] != ([s[0]] + r)[j] {
          if i == 0 { assert ([s[0]] + r)[j] == r[j - 1]; }
        }
      }
    }
  }

  /**
   * Where JavaScript's `splice(start, ...)` starts on a list of length `len`:
   * a negative start counts from the end, and the result is clamped to `0..len`.
   */
  function SpliceStart(start: int, len: nat): (k: nat)
    ensures k <= len
    ensures 0 <= start <= len ==> k == start
    ensures start > len ==> k == len
    ensures -(len as int) <= start < 0 ==> k == len + start
    ensures start < -(len as int) ==> k == 0
  {
    if start < 0 then (if len + start < 0 then 0 else len + start)
    else if start > len then len
    else start
  }

  /**
   * `s.splice(to, 0, s.splice(from, 1)[0])`: the element at `from` is taken
   * out and reinserted at `to`, positions counted as JavaScript counts them.
   */
  function Reorder<T>(s: seq<T>, from: int, to: int): (r: seq<T>)
    requires SpliceStart(from, |s|) < |s|
  {
    var f := SpliceStart(from, |s|);
    var rest := s[..f] + s[f + 1..];
    var t := SpliceStart(to, |rest|);
    rest[..t] + [s[f]] + rest[t..]
  }

  /** Reordering is a permutation: same length, same multiset. */
  lemma ReorderPermutes<T>(s: seq<T>, from: int, to: int)
    requires SpliceStart(from, |s|) < |s|
    ensures |Reorder(s, from, to)| == |s|
    ensures multiset(Reorder(s, from, to)) == multiset(s)
  {
    var f := SpliceStart(from, |s|);
    var rest := s[..f] + s[f + 1..];
    var t := SpliceStart(to, |rest|);
    var r := rest[..t] + [s[f]] + rest[t..];
    MultisetAround(rest[..t], s[f], rest[t..]);
    assert rest == rest[..t] + rest[t..];
    assert s == s[..f] + [s[f]] + s[f + 1..];
    MultisetAround(s[..f], s[f], s[f + 1..]);
  }

  /** A list is duplicate-free exactly when no element has multiplicity above one. */
  lemma {:induction false} NoDupMultiset<T>(s: seq<T>)
    ensures NoDup(s) <==> forall x :: multiset(s)[x] <= 1
  {
    if |s| > 0 {
      var t := s[1..];
      NoDupMultiset(t);
      assert s == [s[0]] + t;
      assert multiset(s) == multiset{s[0]} + multiset(t);
      if NoDup(s) {
        assert NoDup(t) by {
          forall i, j | 0 <= i < j < |t| ensures t[i] != t[j] { assert s[i + 1] != s[j + 1]; }
        }
        assert s[0] !in t by {
          forall k | 0 <= k < |t| ensures t[k] != s[0] { assert s[k + 1] != s[0]; }
        }
      }
      if forall x :: multiset(s)[x] <= 1 {
        assert forall x :: multiset(t)[x] <= 1 by {
          forall x ensures multiset(t)[x] <= 1 { assert multiset(s)[x] >= multiset(t)[x]; }
        }
        assert multiset(t)[s[0]] == 0 by { assert multiset(s)[s[0]] == multiset(t)[s[0]] + 1; }
        forall i, j | 0 <= i < j < |s| ensures s[i] != s[j] {
          if i == 0 { assert s[j] == t[j - 1]; assert s[j] in t; } else { assert s[i] == t[i - 1] && s[j] == t[j - 1]; }
        }
      }
    }
  }

  /** A permutation of a duplicate-free list is duplicate-free and has the same elements. */
  lemma PermutationNoDup<T>(a: seq<T>, b: seq<T>)
    requires multiset(a) == multiset(b) && NoDup(a)
    ensures NoDup(b) && forall x :: x in a <==> x in b
  {
    NoDupMultiset(a);
    NoDupMultiset(b);
    assert forall x :: x in a <==> x in multiset(a);
    assert forall x :: x in b <==> x in multiset(b);
  }

  lemma MultisetAround<T>(a: seq<T>, x: T, b: seq<T>)
    ensures multiset(a + [x] + b) == multiset(a + b) + multiset{x}
  {
    assert multiset(a + [x] + b) == multiset(a) + multiset([x]) + multiset(b);
  }

  /**
   * The element taken from `from` sits at the insertion point, and the
   * others keep their relative order.
   */
  lemma ReorderMoves<T>(s: seq<T>, from: int, to: int)
    requires SpliceStart(from, |s|) < |s|
    ensures SpliceStart(to, |s| - 1) < |Reorder(s, from, to)| == |s|
    ensures Reorder(s, from, to)[SpliceStart(to, |s| - 1)] == s[SpliceStart(from, |s|)]
    ensures RemoveAt(Reorder(s, from, to), SpliceStart(to, |s| - 1)) == RemoveAt(s, SpliceStart(from, |s|))
  {
    var f := SpliceStart(from, |s|);
    var rest := s[..f] + s[f + 1..];
    var t := SpliceStart(to, |rest|);
    var r := rest[..t] + [s[f]] + rest[t..];
    assert r[..t] == rest[..t] && r[t + 1..] == rest[t..];
    assert r[..t] + r[t + 1..] == rest;
    assert RemoveAt(s, f) == rest;
  }

  /** The list without its element at index `k`. */
  function RemoveAt<T>(s: seq<T>, k: nat): (r: seq<T>)
    requires k < |s|
    ensures |r| == |s| - 1
    ensures forall i :: 0 <= i < k ==> r[i] == s[i]
    ensures forall i :: k <= i < |r| ==> r[i] == s[i + 1]
  {
    s[..k] + s[k + 1..]
  }

  /** `0 <= x <= hi` by clamping, as JavaScript's `substring` clamps its arguments. */
  function Clamp(x: int, hi: nat): (k: nat)
    ensures k <= hi
    ensures 0 <= x <= hi ==> k == x
  {
    if x < 0 then 0 else if x > hi then hi else x
  }

  /**
   * `s.substring(a, b)`: both ends clamped into the string, and a reversed
   * pair of ends is swapped.
   */
  function Substring(s: string, a: int, b: int): (r: string)
    ensures |r| <= |s|
    ensures 0 <= a <= b <= |s| ==> r == s[a..b]
    ensures 0 <= b <= a <= |s| ==> r == s[b..a]
  {
    var x, y := Clamp(a, |s|), Clamp(b, |s|);
    if x <= y then s[x..y] else s[y..x]
  }

  /** The strings of `runs` concatenated in order. */
  function Concat(runs: seq<string>): (r: string)
    ensures |r| == SumLengths(runs)
  {
    if |runs| == 0 then "" else Concat(runs[..|runs| - 1]) + runs[|runs| - 1]
  }

  function SumLengths(runs: seq<string>): nat {
    if |runs| == 0 then 0 else SumLengths(runs[..|runs| - 1]) + |runs[|runs| - 1]|
  }

  /** Concatenation distributes over appending lists of strings. */
  lemma {:induction false} ConcatAppend(a: seq<string>, b: seq<string>)
    ensures Concat(a + b) == Concat(a) + Concat(b)
  {
    if |b| == 0 {
      assert a + b == a;
    } else {
      assert (a + b)[..|a + b| - 1] == a + b[..|b| - 1];
      ConcatAppend(a, b[..|b| - 1]);
      assert Concat(a + b) == Concat(a + b[..|b| - 1]) + b[|b| - 1];
    }
  }

  /** `Array.prototype.join(sep)` on a list of strings. */
  function Join(runs: seq<string>, sep: string): string {
    if |runs| == 0 then "" else if |runs| == 1 then runs[0] else runs[0] + sep + Join(runs[1..], sep)
  }
}
