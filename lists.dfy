// List operations the dashboard gets from Python and pandas: a list
// comprehension with a condition, `Series.unique()`, a stable sort with a
// comparison, and the slice `xs[-n:]`.
module Lists {

  /** `a` can be obtained from `b` by leaving elements out, keeping the
      order of the rest. */
  predicate IsSubseq<T(==)>(a: seq<T>, b: seq<T>)
    decreases |b|
  {
    if b == [] then a == []
    else (a != [] && a[0] == b[0] && IsSubseq(a[1..], b[1..])) || IsSubseq(a, b[1..])
  }

  predicate NoDup<T(==)>(s: seq<T>) {
    forall i, j :: 0 <= i < j < |s| ==> s[i] != s[j]
  }

  // ---------------------------------------------------------------------
  // [x for x in s if p(x)]
  // ---------------------------------------------------------------------

  /** A comprehension with a condition: the elements of `s` that satisfy
      `p`, in their order in `s`. */
  function Filter<T(==,!new)>(s: seq<T>, p: T -> bool): (r: seq<T>)
    ensures forall x :: x in r <==> x in s && p(x)
    ensures IsSubseq(r, s)
    ensures NoDup(s) ==> NoDup(r)
    ensures forall x :: multiset(r)[x] == if p(x) then multiset(s)[x] else 0
    decreases |s|
  {
    if s == [] then []
    else
      assert s == [s[0]] + s[1..];
      if p(s[0]) then [s[0]] + Filter(s[1..], p)
      else Filter(s[1..], p)
  }

  // ---------------------------------------------------------------------
  // Series.unique()
  // ---------------------------------------------------------------------

  /** `Series.unique()`: every value once, in order of first appearance. */
  function Unique<T(==,!new)>(s: seq<T>): (r: seq<T>)
    ensures forall x :: x in r <==> x in s
    ensures NoDup(r)
    ensures |r| <= |s|
    decreases |s|
  {
    if s == [] then []
    else
      var u := Unique(s[..|s| - 1]);
      if s[|s| - 1] in u then u else u + [s[|s| - 1]]
  }

  /** Every element of a subsequence is an element of the whole. */
  lemma {:induction false} SubseqMembers<T>(a: seq<T>, b: seq<T>)
    requires IsSubseq(a, b)
    ensures forall x :: x in a ==> x in b
    decreases |b|
  {
    if b != [] {
      if a != [] && a[0] == b[0] && IsSubseq(a[1..], b[1..]) {
        SubseqMembers(a[1..], b[1..]);
        assert a == [a[0]] + a[1..];
      } else {
        SubseqMembers(a, b[1..]);
      }
    }
  }

  /** A subsequence of a sorted list is sorted. */
  lemma {:induction false} SubseqSorted<T>(a: seq<T>, b: seq<T>, le: (T, T) -> bool)
    requires IsSubseq(a, b) && SortedBy(b, le)
    ensures SortedBy(a, le)
    decreases |b|
  {
    if b != [] {
      assert SortedBy(b[1..], le);
      if a != [] && a[0] == b[0] && IsSubseq(a[1..], b[1..]) {
        SubseqSorted(a[1..], b[1..], le);
        SubseqMembers(a[1..], b[1..]);
        forall j | 0 < j < |a| ensures le(a[0], a[j]) {
          assert a[j] in a[1..];
          var k :| 0 <= k < |b[1..]| && b[1..][k] == a[j];
          assert b[k + 1] == a[j];
        }
        forall i, j | 0 <= i < j < |a| ensures le(a[i], a[j]) {
          if i > 0 {
            assert a[i] == a[1..][i - 1] && a[j] == a[1..][j - 1];
          }
        }
      } else {
        SubseqSorted(a, b[1..], le);
      }
    }
  }

  /** A list without repeats holds each value at most once. */
  lemma {:induction false} NoDupCounts<T>(s: seq<T>)
    requires NoDup(s)
    ensures forall x :: multiset(s)[x] <= 1
    decreases |s|
  {
    if s != [] {
      assert NoDup(s[1..]);
      NoDupCounts(s[1..]);
      assert s == [s[0]] + s[1..];
      assert s[0] !in s[1..];
    }
  }

  /** A rearrangement of a list without repeats has no repeats. */
  lemma NoDupPermutation<T>(s: seq<T>, t: seq<T>)
    requires NoDup(s) && multiset(s) == multiset(t)
    ensures NoDup(t)
  {
    NoDupCounts(s);
    forall i, j | 0 <= i < j < |t| ensures t[i] != t[j] {
      assert t == t[..j] + t[j..];
      assert t[i] in t[..j] && t[j] in t[j..];
      assert multiset(t) == multiset(t[..j]) + multiset(t[j..]);
      assert multiset(t[..j])[t[i]] >= 1 && multiset(t[j..])[t[j]] >= 1;
      assert multiset(t)[t[j]] == multiset(t[..j])[t[j]] + multiset(t[j..])[t[j]];
    }
  }

  // ---------------------------------------------------------------------
  // Stable sort
  // ---------------------------------------------------------------------

  /** Every earlier element is `le` every later one. */
  predicate SortedBy<T>(s: seq<T>, le: (T, T) -> bool) {
    forall i, j :: 0 <= i < j < |s| ==> le(s[i], s[j])
  }

  /** `le` is total and transitive: a sort order with possible ties. */
  ghost predicate TotalPreorder<T(!new)>(le: (T, T) -> bool) {
    && (forall a, b :: le(a, b) || le(b, a))
    && (forall a, b, c :: le(a, b) && le(b, c) ==> le(a, c))
  }

  /** Puts `x` in front of the first element it is `le`, so that it stays
      ahead of the elements it ties with. */
  function Insert<T(==)>(x: T, s: seq<T>, le: (T, T) -> bool): (r: seq<T>)
    ensures multiset(r) == multiset(s) + multiset{x}
    decreases |s|
  {
    if s == [] || le(x, s[0]) then [x] + s
    else
      assert s == [s[0]] + s[1..];
      [s[0]] + Insert(x, s[1..], le)
  }

  /** Insertion sort; an element placed earlier in `s` stays ahead of
      the later elements it ties with. */
  function SortBy<T(==)>(s: seq<T>, le: (T, T) -> bool): (r: seq<T>)
    ensures multiset(r) == multiset(s)
    decreases |s|
  {
    if s == [] then []
    else
      assert s == [s[0]] + s[1..];
      Insert(s[0], SortBy(s[1..], le), le)
  }

  lemma {:induction false} InsertSorted<T(!new)>(x: T, s: seq<T>, le: (T, T) -> bool)
    requires TotalPreorder(le)
    requires SortedBy(s, le)
    ensures SortedBy(Insert(x, s, le), le)
    decreases |s|
  {
    if s != [] && !le(x, s[0]) {
      var tail := Insert(x, s[1..], le);
      InsertSorted(x, s[1..], le);
      assert le(s[0], x);
      forall y | y in tail ensures le(s[0], y) {
        assert y in multiset(tail);
        assert y == x || y in multiset(s[1..]);
      }
    }
  }

  /** The result of `SortBy` is in order. */
  lemma {:induction false} SortByIsSorted<T(!new)>(s: seq<T>, le: (T, T) -> bool)
    requires TotalPreorder(le)
    ensures SortedBy(SortBy(s, le), le)
    decreases |s|
  {
    if s != [] {
      SortByIsSorted(s[1..], le);
      InsertSorted(s[0], SortBy(s[1..], le), le);
    }
  }

  /** Sorting a list that is already in order leaves it as it is. */
  lemma {:induction false} SortBySortedIsIdentity<T>(s: seq<T>, le: (T, T) -> bool)
    requires SortedBy(s, le)
    ensures SortBy(s, le) == s
    decreases |s|
  {
    if s != [] {
      SortBySortedIsIdentity(s[1..], le);
      assert s == [s[0]] + s[1..];
    }
  }

  /** Sorting twice gives what sorting once gives. */
  lemma SortByIdempotent<T(!new)>(s: seq<T>, le: (T, T) -> bool)
    requires TotalPreorder(le)
    ensures SortBy(SortBy(s, le), le) == SortBy(s, le)
  {
    SortByIsSorted(s, le);
    SortBySortedIsIdentity(SortBy(s, le), le);
  }

  // ---------------------------------------------------------------------
  // xs[-n:]
  // ---------------------------------------------------------------------

  /** Where a Python slice that starts at index `i` starts in a list of
      length `len`: a negative index counts from the end, and the result
      is clamped to `0..len`. */
  function SliceStart(len: nat, i: int): (k: nat)
    ensures k <= len
  {
    if i < 0 then (if len + i < 0 then 0 else len + i)
    else if i > len then len
    else i
  }

  /** Python `s[-n:]`. For `0 < n <= |s|` it is the last `n` elements; a
      larger `n` gives the whole list, and so does `n == 0`, because `-0`
      is `0`. */
  function TakeLast<T>(s: seq<T>, n: int): (r: seq<T>)
    ensures |r| <= |s| && r == s[|s| - |r|..]
    ensures 0 < n <= |s| ==> |r| == n
    ensures n == 0 || n >= |s| ==> r == s
  {
    s[SliceStart(|s|, -n)..]
  }

  /** In a sorted list, every element that `s[-n:]` leaves out is `le`
      every element it keeps. */
  lemma TakeLastKeepsGreatest<T>(s: seq<T>, n: int, le: (T, T) -> bool)
    requires SortedBy(s, le)
    ensures forall x, y :: x in s && x !in TakeLast(s, n) && y in TakeLast(s, n) ==> le(x, y)
  {
    var last := TakeLast(s, n);
    var cut := |s| - |last|;
    forall k | cut <= k < |s| ensures s[k] in last {
      assert s[k] == last[k - cut];
    }
    forall x, y | x in s && x !in last && y in last ensures le(x, y) {
      var i :| 0 <= i < |s| && s[i] == x;
      var j :| 0 <= j < |last| && last[j] == y;
      assert last[j] == s[cut + j];
    }
  }

  // ---------------------------------------------------------------------
  // pd.concat([f(k) for k in ks])
  // ---------------------------------------------------------------------

  /** The pieces `f(k)` for the keys, one after another in key order. */
  function ConcatMap<K, T>(ks: seq<K>, f: K -> seq<T>): (r: seq<T>)
    decreases |ks|
  {
    if ks == [] then [] else ConcatMap(ks[..|ks| - 1], f) + f(ks[|ks| - 1])
  }

  /** An element is in the concatenation exactly when it is in the piece
      of some key. */
  lemma {:induction false} ConcatMapMembers<K, T>(ks: seq<K>, f: K -> seq<T>)
    ensures forall e :: e in ConcatMap(ks, f) ==> exists k :: k in ks && e in f(k)
    ensures forall k, e :: k in ks && e in f(k) ==> e in ConcatMap(ks, f)
    decreases |ks|
  {
    if ks != [] {
      var n := |ks| - 1;
      var head := ConcatMap(ks[..n], f);
      ConcatMapMembers(ks[..n], f);
      assert ConcatMap(ks, f) == head + f(ks[n]);
      forall e | e in ConcatMap(ks, f) ensures exists k :: k in ks && e in f(k) {
        if e in head {
          var k :| k in ks[..n] && e in f(k);
          assert k in ks;
        } else {
          assert ks[n] in ks;
        }
      }
      forall k, e | k in ks && e in f(k) ensures e in ConcatMap(ks, f) {
        if k != ks[n] {
          assert ks == ks[..n] + [ks[n]];
          assert k in ks[..n];
        }
      }
    }
  }
}
