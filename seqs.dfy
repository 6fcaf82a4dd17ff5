/**
 * The array pipeline steps the client composes its views from: `filter`,
 * `slice(0, n)`, `find`, a stable `sort` by a numeric key in descending
 * order, an insertion-ordered `Set`, and the default ascending sort of
 * strings.
 */
module Seqs {
  import opened Wrappers
  import opened JsString

  // ---------------------------------------------------------------------
  // filter
  // ---------------------------------------------------------------------

  /** `a` can be obtained from `b` by deleting elements: order is kept. */
  predicate IsSubseq<T(==)>(a: seq<T>, b: seq<T>) {
    a == [] || (b != [] && ((a[0] == b[0] && IsSubseq(a[1..], b[1..])) || IsSubseq(a, b[1..])))
  }

  /** `s.filter(p)`: keeps exactly the elements satisfying `p`, in order;
      FilterCount adds that each is kept as often as it occurs in `s`. */
  function Filter<T(==)>(s: seq<T>, p: T -> bool): (r: seq<T>)
    ensures |r| <= |s|
    ensures forall k :: 0 <= k < |r| ==> p(r[k])
    ensures forall k :: 0 <= k < |r| ==> r[k] in s
    ensures forall k :: 0 <= k < |s| && p(s[k]) ==> s[k] in r
    ensures IsSubseq(r, s)
  {
    if s == [] then []
    else if p(s[0]) then
      var r := [s[0]] + Filter(s[1..], p);
      assert r[1..] == Filter(s[1..], p);
      r
    else Filter(s[1..], p)
  }

  /** `filter` keeps every passing element as many times as it occurs and
      drops every other one; with `IsSubseq` this determines the result. */
  lemma {:induction false} FilterCount<T>(s: seq<T>, p: T -> bool)
    ensures forall x :: multiset(Filter(s, p))[x] == if p(x) then multiset(s)[x] else 0
  {
    if s != [] {
      FilterCount(s[1..], p);
      assert s == [s[0]] + s[1..];
      if p(s[0]) {
        assert Filter(s, p) == [s[0]] + Filter(s[1..], p);
      }
    }
  }

  /** Filtering a concatenation filters each part. */
  lemma {:induction false} FilterAppend<T>(a: seq<T>, b: seq<T>, p: T -> bool)
    ensures Filter(a + b, p) == Filter(a, p) + Filter(b, p)
  {
    if a == [] {
      assert a + b == b;
    } else {
      assert (a + b)[0] == a[0] && (a + b)[1..] == a[1..] + b;
      FilterAppend(a[1..], b, p);
    }
  }

  /** A prefix keeps order. */
  lemma {:induction false} PrefixSubseq<T>(s: seq<T>, n: nat)
    requires n <= |s|
    ensures IsSubseq(s[..n], s)
  {
    if n > 0 {
      PrefixSubseq(s[1..], n - 1);
      assert s[..n][1..] == s[1..][..n - 1];
    }
  }

  lemma {:induction false} SubseqTransitive<T>(a: seq<T>, b: seq<T>, c: seq<T>)
    requires IsSubseq(a, b) && IsSubseq(b, c)
    ensures IsSubseq(a, c)
    decreases |a| + |b| + |c|
  {
    if a != [] {
      if b[0] == c[0] && IsSubseq(b[1..], c[1..]) {
        if a[0] == b[0] && IsSubseq(a[1..], b[1..]) {
          SubseqTransitive(a[1..], b[1..], c[1..]);
        } else {
          SubseqTransitive(a, b[1..], c[1..]);
        }
      } else {
        SubseqTransitive(a, b, c[1..]);
      }
    }
  }

  /** Nothing of the empty prefix passes a filter. */
  lemma FilterNone<T>(base: seq<T>, s: seq<T>, p: T -> bool)
    ensures base + Filter(s[..0], p) == base
  {
    assert s[..0] == [];
  }

  /** A filter that every element passes keeps the whole sequence. */
  lemma {:induction false} FilterAll<T>(s: seq<T>, p: T -> bool)
    requires forall k :: 0 <= k < |s| ==> p(s[k])
    ensures Filter(s, p) == s
  {
    if s != [] {
      FilterAll(s[1..], p);
      assert [s[0]] + s[1..] == s;
    }
  }

  /** Filters that agree on every element keep the same elements. */
  lemma {:induction false} FilterCongruent<T>(s: seq<T>, p: T -> bool, q: T -> bool)
    requires forall k :: 0 <= k < |s| ==> p(s[k]) == q(s[k])
    ensures Filter(s, p) == Filter(s, q)
  {
    if s != [] {
      assert forall k :: 0 <= k < |s[1..]| ==> s[1..][k] == s[k + 1];
      FilterCongruent(s[1..], p, q);
    }
  }

  /** A weaker test keeps everything a stronger one keeps, in the same
      order. */
  lemma {:induction false} FilterMonotone<T>(s: seq<T>, p: T -> bool, q: T -> bool)
    requires forall k :: 0 <= k < |s| && p(s[k]) ==> q(s[k])
    ensures IsSubseq(Filter(s, p), Filter(s, q))
  {
    if s != [] {
      assert forall k :: 0 <= k < |s[1..]| ==> s[1..][k] == s[k + 1];
      FilterMonotone(s[1..], p, q);
      var a, b := Filter(s[1..], p), Filter(s[1..], q);
      if p(s[0]) {
        assert Filter(s, p) == [s[0]] + a && Filter(s, q) == [s[0]] + b;
        assert ([s[0]] + a)[1..] == a && ([s[0]] + b)[1..] == b;
      } else if q(s[0]) {
        assert Filter(s, q) == [s[0]] + b && ([s[0]] + b)[1..] == b;
      }
    }
  }

  // ---------------------------------------------------------------------
  // slice(0, n) and find
  // ---------------------------------------------------------------------

  /** `s.slice(0, n)`. */
  function Take<T>(s: seq<T>, n: nat): (r: seq<T>)
    ensures |r| == if |s| <= n then |s| else n
    ensures r == s[..|r|]
  {
    if |s| <= n then s else s[..n]
  }

  /** `s.find(p)`: the first element satisfying `p`, None if there is none.
      The position of the find is `FindIndex`. */
  function FindFirst<T>(s: seq<T>, p: T -> bool): (r: Option<T>)
    ensures r.None? <==> forall k :: 0 <= k < |s| ==> !p(s[k])
    ensures r.Some? ==> FindIndex(s, p) < |s| && r.value == s[FindIndex(s, p)] && p(r.value)
  {
    if s == [] then None
    else if p(s[0]) then Some(s[0])
    else
      assert forall k :: 1 <= k < |s| ==> s[k] == s[1..][k - 1];
      FindFirst(s[1..], p)
  }

  /** Index of the first element satisfying `p`, `|s|` if there is none. */
  function FindIndex<T>(s: seq<T>, p: T -> bool): (i: nat)
    ensures i <= |s| && forall k :: 0 <= k < i ==> !p(s[k])
    ensures i < |s| ==> p(s[i])
  {
    if s == [] || p(s[0]) then 0 else 1 + FindIndex(s[1..], p)
  }

  // ---------------------------------------------------------------------
  // stable sort, descending by a numeric key
  // ---------------------------------------------------------------------

  predicate SortedDesc<T>(s: seq<T>, key: T -> real) {
    forall i, j :: 0 <= i < j < |s| ==> key(s[i]) >= key(s[j])
  }

  /** The elements of `s` whose key is `k`, in order. Two sequences agree on
      every key class exactly when one is a stable reordering of the other. */
  function KeyClass<T>(s: seq<T>, key: T -> real, k: real): seq<T> {
    if s == [] then [] else (if key(s[0]) == k then [s[0]] else []) + KeyClass(s[1..], key, k)
  }

  /** Inserts `x` after every element whose key is at least its own. */
  function InsertDesc<T>(s: seq<T>, x: T, key: T -> real): seq<T> {
    if s == [] then [x]
    else if key(s[0]) >= key(x) then [s[0]] + InsertDesc(s[1..], x, key)
    else [x] + s
  }

  /** Insertion sort from left to right: the comparator `key(b) - key(a)`
      under a stable `Array.prototype.sort`. */
  function SortDesc<T>(s: seq<T>, key: T -> real): seq<T> {
    if s == [] then [] else InsertDesc(SortDesc(s[..|s| - 1], key), s[|s| - 1], key)
  }

  lemma {:induction false} InsertDescPerm<T>(s: seq<T>, x: T, key: T -> real)
    ensures multiset(InsertDesc(s, x, key)) == multiset(s) + multiset{x}
  {
    if s != [] && key(s[0]) >= key(x) {
      InsertDescPerm(s[1..], x, key);
      assert s == [s[0]] + s[1..];
    }
  }

  lemma ConsSortedDesc<T>(h: T, t: seq<T>, key: T -> real)
    requires SortedDesc(t, key) && forall k :: 0 <= k < |t| ==> key(h) >= key(t[k])
    ensures SortedDesc([h] + t, key)
  {
    var r := [h] + t;
    forall i, j | 0 <= i < j < |r| ensures key(r[i]) >= key(r[j]) {
      if i == 0 { assert r[j] == t[j - 1]; } else { assert r[i] == t[i - 1] && r[j] == t[j - 1]; }
    }
  }

  lemma TailSortedDesc<T>(s: seq<T>, key: T -> real)
    requires s != [] && SortedDesc(s, key)
    ensures SortedDesc(s[1..], key)
    ensures forall k :: 0 <= k < |s| - 1 ==> key(s[0]) >= key(s[1..][k])
  {
    var rest := s[1..];
    forall i, j | 0 <= i < j < |rest| ensures key(rest[i]) >= key(rest[j]) {
      assert rest[i] == s[i + 1] && rest[j] == s[j + 1];
    }
    forall k | 0 <= k < |rest| ensures key(s[0]) >= key(rest[k]) {
      assert rest[k] == s[k + 1];
    }
  }

  lemma {:induction false} InsertDescFacts<T>(s: seq<T>, x: T, key: T -> real)
    requires SortedDesc(s, key)
    ensures SortedDesc(InsertDesc(s, x, key), key)
    ensures multiset(InsertDesc(s, x, key)) == multiset(s) + multiset{x}
  {
    InsertDescPerm(s, x, key);
    if s != [] && key(s[0]) >= key(x) {
      var rest := s[1..];
      TailSortedDesc(s, key);
      InsertDescFacts(rest, x, key);
      var t := InsertDesc(rest, x, key);
      forall k | 0 <= k < |t| ensures key(s[0]) >= key(t[k]) {
        assert t[k] in multiset(t);
        if t[k] != x {
          assert t[k] in rest;
        }
      }
      ConsSortedDesc(s[0], t, key);
    } else if s != [] {
      TailSortedDesc(s, key);
      assert s == [s[0]] + s[1..];
      forall k | 0 <= k < |s| ensures key(x) >= key(s[k]) {
        if k > 0 { assert s[k] == s[1..][k - 1]; }
      }
      ConsSortedDesc(x, s, key);
    }
  }

  lemma {:induction false} KeyClassAppend<T>(a: seq<T>, b: seq<T>, key: T -> real, k: real)
    ensures KeyClass(a + b, key, k) == KeyClass(a, key, k) + KeyClass(b, key, k)
  {
    if a == [] {
      assert a + b == b;
    } else {
      var h := if key(a[0]) == k then [a[0]] else [];
      assert (a + b)[0] == a[0] && (a + b)[1..] == a[1..] + b;
      KeyClassAppend(a[1..], b, key, k);
      calc {
        KeyClass(a + b, key, k);
        h + KeyClass(a[1..] + b, key, k);
        h + (KeyClass(a[1..], key, k) + KeyClass(b, key, k));
        (h + KeyClass(a[1..], key, k)) + KeyClass(b, key, k);
      }
    }
  }

  lemma {:induction false} KeyClassBelow<T>(s: seq<T>, key: T -> real, k: real)
    requires forall i :: 0 <= i < |s| ==> key(s[i]) < k
    ensures KeyClass(s, key, k) == []
  {
    if s != [] { KeyClassBelow(s[1..], key, k); }
  }

  lemma {:induction false} InsertDescKeyClass<T>(s: seq<T>, x: T, key: T -> real, k: real)
    requires SortedDesc(s, key)
    ensures KeyClass(InsertDesc(s, x, key), key, k) == KeyClass(s, key, k) + (if key(x) == k then [x] else [])
  {
    var tail := if key(x) == k then [x] else [];
    if s == [] {
    } else if key(s[0]) >= key(x) {
      var head := if key(s[0]) == k then [s[0]] else [];
      var rest := s[1..];
      assert SortedDesc(rest, key) by {
        forall i, j | 0 <= i < j < |rest| ensures key(rest[i]) >= key(rest[j]) {
          assert rest[i] == s[i + 1] && rest[j] == s[j + 1];
        }
      }
      InsertDescKeyClass(rest, x, key, k);
      var ins := InsertDesc(rest, x, key);
      assert InsertDesc(s, x, key) == [s[0]] + ins;
      assert ([s[0]] + ins)[0] == s[0] && ([s[0]] + ins)[1..] == ins;
      calc {
        KeyClass(InsertDesc(s, x, key), key, k);
        head + KeyClass(ins, key, k);
        head + (KeyClass(rest, key, k) + tail);
        (head + KeyClass(rest, key, k)) + tail;
        KeyClass(s, key, k) + tail;
      }
    } else {
      assert InsertDesc(s, x, key) == [x] + s;
      assert ([x] + s)[0] == x && ([x] + s)[1..] == s;
      if key(x) == k {
        KeyClassBelow(s, key, k);
      }
    }
  }

  /** The descending sort is sorted, a permutation, and stable: within one
      key value the elements keep their original order. */
  lemma {:induction false} SortDescCorrect<T>(s: seq<T>, key: T -> real)
    ensures SortedDesc(SortDesc(s, key), key)
    ensures multiset(SortDesc(s, key)) == multiset(s)
    ensures forall k :: KeyClass(SortDesc(s, key), key, k) == KeyClass(s, key, k)
  {
    if s != [] {
      var init, last := s[..|s| - 1], s[|s| - 1];
      SortDescCorrect(init, key);
      InsertDescFacts(SortDesc(init, key), last, key);
      assert s == init + [last];
      forall k ensures KeyClass(SortDesc(s, key), key, k) == KeyClass(s, key, k) {
        InsertDescKeyClass(SortDesc(init, key), last, key, k);
        KeyClassAppend(init, [last], key, k);
      }
    }
  }

  /** In a descending sequence every element of a prefix ranks at least as
      high as every element after it. */
  lemma SortedSplit<T>(t: seq<T>, key: T -> real, m: nat)
    requires SortedDesc(t, key) && m <= |t|
    ensures forall x, y :: x in multiset(t[..m]) && y in multiset(t[m..]) ==> key(x) >= key(y)
  {
    forall x, y | x in multiset(t[..m]) && y in multiset(t[m..]) ensures key(x) >= key(y) {
      assert x in t[..m] && y in t[m..];
      var i :| 0 <= i < m && t[..m][i] == x;
      var j :| 0 <= j < |t| - m && t[m..][j] == y;
      assert t[i] == x && t[m + j] == y;
    }
  }

  /** `sort(...).slice(0, n)`: the best min(n, |s|) elements of `s`, best
      first; no element left out ranks above one kept; within one key the kept
      elements are the first ones of `s`, in their order; and when `s` has
      at most `n` elements all of them are kept. */
  lemma TopFacts<T>(s: seq<T>, key: T -> real, n: nat)
    ensures |Take(SortDesc(s, key), n)| == if |s| <= n then |s| else n
    ensures SortedDesc(Take(SortDesc(s, key), n), key)
    ensures multiset(Take(SortDesc(s, key), n)) <= multiset(s)
    ensures |s| <= n ==> multiset(Take(SortDesc(s, key), n)) == multiset(s)
    ensures forall x, y ::
              x in multiset(Take(SortDesc(s, key), n)) && y in multiset(s) - multiset(Take(SortDesc(s, key), n))
              ==> key(x) >= key(y)
    ensures forall k :: KeyClass(Take(SortDesc(s, key), n), key, k) <= KeyClass(s, key, k)
  {
    var t := SortDesc(s, key);
    SortDescCorrect(s, key);
    var r := Take(t, n);
    assert r == t[..|r|];
    PrefixFacts(t, key, |r|);
    assert |t| == |multiset(t)| == |multiset(s)| == |s|;
  }

  /** A prefix of a descending sequence: descending, drawn from it, ranked
      above the rest, and a prefix of every key class. */
  lemma PrefixFacts<T>(t: seq<T>, key: T -> real, m: nat)
    requires SortedDesc(t, key) && m <= |t|
    ensures SortedDesc(t[..m], key)
    ensures multiset(t[..m]) <= multiset(t)
    ensures forall x, y :: x in multiset(t[..m]) && y in multiset(t) - multiset(t[..m]) ==> key(x) >= key(y)
    ensures forall k :: KeyClass(t[..m], key, k) <= KeyClass(t, key, k)
  {
    var r, rest := t[..m], t[m..];
    assert t == r + rest;
    assert multiset(t) == multiset(r) + multiset(rest);
    assert multiset(t) - multiset(r) == multiset(rest);
    SortedSplit(t, key, m);
    forall i, j | 0 <= i < j < |r| ensures key(r[i]) >= key(r[j]) {
      assert r[i] == t[i] && r[j] == t[j];
    }
    forall k ensures KeyClass(r, key, k) <= KeyClass(t, key, k) {
      KeyClassAppend(r, rest, key, k);
    }
  }

  // ---------------------------------------------------------------------
  // what a forEach loop pushes, element after element
  // ---------------------------------------------------------------------

  /** The values `f` yields for each element of `s`, concatenated in order. */
  function ConcatMap<T, U>(s: seq<T>, f: T -> seq<U>): seq<U> {
    if s == [] then [] else ConcatMap(s[..|s| - 1], f) + f(s[|s| - 1])
  }

  lemma ConcatMapStep<T, U>(s: seq<T>, f: T -> seq<U>, i: nat)
    requires i < |s|
    ensures ConcatMap(s[..i + 1], f) == ConcatMap(s[..i], f) + f(s[i])
  {
    assert s[..i + 1][..i] == s[..i];
  }

  /** A value is pushed exactly when some element yields it. */
  lemma {:induction false} ConcatMapMembers<T, U>(s: seq<T>, f: T -> seq<U>)
    ensures forall u :: u in ConcatMap(s, f) <==> exists i :: 0 <= i < |s| && u in f(s[i])
  {
    if s != [] {
      var n := |s| - 1;
      var init := s[..n];
      ConcatMapMembers(init, f);
      assert ConcatMap(s, f) == ConcatMap(init, f) + f(s[n]);
      forall u ensures u in ConcatMap(s, f) <==> exists i :: 0 <= i < |s| && u in f(s[i]) {
        if u in ConcatMap(init, f) {
          var i :| 0 <= i < |init| && u in f(init[i]);
          assert s[i] == init[i];
        }
        if exists i :: 0 <= i < |s| && u in f(s[i]) {
          var i :| 0 <= i < |s| && u in f(s[i]);
          if i < n { assert init[i] == s[i]; }
        }
      }
    }
  }

  // ---------------------------------------------------------------------
  // a Set filled by add, read back with Array.from
  // ---------------------------------------------------------------------

  predicate NoDup<T(==)>(s: seq<T>) {
    forall i, j :: 0 <= i < j < |s| ==> s[i] != s[j]
  }

  /** `set.add(x)` on an insertion-ordered set held as its iteration order. */
  function SetAdd<T(==)>(acc: seq<T>, x: T): (r: seq<T>)
    ensures NoDup(acc) ==> NoDup(r)
    ensures x in r && (forall k :: 0 <= k < |acc| ==> acc[k] in r)
    ensures forall k :: 0 <= k < |r| ==> r[k] in acc || r[k] == x
  {
    if x in acc then acc else acc + [x]
  }

  /** `Array.from(new Set(xs))`, the set filled from left to right. */
  function Distinct<T(==)>(xs: seq<T>): (r: seq<T>)
    ensures NoDup(r)
    ensures forall k :: 0 <= k < |r| ==> r[k] in xs
    ensures forall k :: 0 <= k < |xs| ==> xs[k] in r
  {
    if xs == [] then [] else SetAdd(Distinct(xs[..|xs| - 1]), xs[|xs| - 1])
  }

  /** One more `add` on the set filled from `xs`. */
  lemma DistinctSnoc<T>(xs: seq<T>, x: T)
    ensures Distinct(xs + [x]) == SetAdd(Distinct(xs), x)
  {
    assert (xs + [x])[..|xs|] == xs;
  }

  /** No duplicates means every element occurs once. */
  lemma {:induction false} NoDupCount<T>(s: seq<T>)
    ensures NoDup(s) <==> forall x :: multiset(s)[x] <= 1
  {
    if s != [] {
      var h, t := s[0], s[1..];
      NoDupCount(t);
      assert s == [h] + t;
      assert multiset(s) == multiset{h} + multiset(t);
      if NoDup(s) {
        assert forall j :: 0 <= j < |t| ==> t[j] == s[j + 1];
        assert h !in t;
        assert NoDup(t);
      } else {
        var i, j :| 0 <= i < j < |s| && s[i] == s[j];
        if i == 0 {
          assert s[j] == t[j - 1];
          assert multiset(s)[h] >= 2;
        } else {
          assert t[i - 1] == s[i] && t[j - 1] == s[j];
          assert !NoDup(t);
          var x :| multiset(t)[x] > 1;
          assert multiset(s)[x] >= multiset(t)[x];
        }
      }
    }
  }

  /** A reordering of a sequence without duplicates has none either. */
  lemma NoDupPermutation<T>(a: seq<T>, b: seq<T>)
    requires multiset(a) == multiset(b) && NoDup(b)
    ensures NoDup(a)
  {
    NoDupCount(a);
    NoDupCount(b);
  }

  /** Position of the first occurrence of `x` in `xs`. */
  function FirstIndex<T(==)>(xs: seq<T>, x: T): (i: nat)
    requires x in xs
    ensures i < |xs| && xs[i] == x && x !in xs[..i]
  {
    if xs[0] == x then 0 else 1 + FirstIndex(xs[1..], x)
  }

  lemma {:induction false} FirstIndexAppend<T>(xs: seq<T>, y: T, x: T)
    requires x in xs + [y]
    ensures x in xs ==> FirstIndex(xs + [y], x) == FirstIndex(xs, x)
    ensures x !in xs ==> FirstIndex(xs + [y], x) == |xs|
  {
    if xs != [] && xs[0] != x {
      assert (xs + [y])[0] == xs[0] && (xs + [y])[1..] == xs[1..] + [y];
      FirstIndexAppend(xs[1..], y, x);
    }
  }

  /** The set's iteration order is first-seen order. */
  lemma {:induction false} DistinctFirstSeenOrder<T>(xs: seq<T>)
    ensures forall i, j :: 0 <= i < j < |Distinct(xs)| ==>
      FirstIndex(xs, Distinct(xs)[i]) < FirstIndex(xs, Distinct(xs)[j])
  {
    if xs != [] {
      var init, last := xs[..|xs| - 1], xs[|xs| - 1];
      assert xs == init + [last];
      DistinctFirstSeenOrder(init);
      var d, r := Distinct(init), Distinct(xs);
      forall i, j | 0 <= i < j < |r| ensures FirstIndex(xs, r[i]) < FirstIndex(xs, r[j]) {
        assert r[i] in d;
        FirstIndexAppend(init, last, r[i]);
        FirstIndexAppend(init, last, r[j]);
        if j < |d| {
          assert r[i] == d[i] && r[j] == d[j];
        }
      }
    }
  }

  // ---------------------------------------------------------------------
  // ascending sort of strings
  // ---------------------------------------------------------------------

  predicate SortedAsc(s: seq<String>) {
    forall i, j :: 0 <= i < j < |s| ==> LexLe(s[i], s[j])
  }

  function InsertAsc(s: seq<String>, x: String): seq<String> {
    if s == [] then [x]
    else if LexLe(x, s[0]) then [x] + s
    else [s[0]] + InsertAsc(s[1..], x)
  }

  lemma {:induction false} InsertAscPerm(s: seq<String>, x: String)
    ensures multiset(InsertAsc(s, x)) == multiset(s) + multiset{x}
  {
    if s != [] && !LexLe(x, s[0]) {
      InsertAscPerm(s[1..], x);
      assert s == [s[0]] + s[1..];
    }
  }

  lemma ConsSortedAsc(h: String, t: seq<String>)
    requires SortedAsc(t) && forall k :: 0 <= k < |t| ==> LexLe(h, t[k])
    ensures SortedAsc([h] + t)
  {
    var r := [h] + t;
    forall i, j | 0 <= i < j < |r| ensures LexLe(r[i], r[j]) {
      if i == 0 { assert r[j] == t[j - 1]; } else { assert r[i] == t[i - 1] && r[j] == t[j - 1]; }
    }
  }

  lemma TailSortedAsc(s: seq<String>)
    requires s != [] && SortedAsc(s)
    ensures SortedAsc(s[1..])
    ensures forall k :: 0 <= k < |s| - 1 ==> LexLe(s[0], s[1..][k])
  {
    var rest := s[1..];
    forall i, j | 0 <= i < j < |rest| ensures LexLe(rest[i], rest[j]) {
      assert rest[i] == s[i + 1] && rest[j] == s[j + 1];
    }
    forall k | 0 <= k < |rest| ensures LexLe(s[0], rest[k]) {
      assert rest[k] == s[k + 1];
    }
  }

  lemma {:induction false} InsertAscFacts(s: seq<String>, x: String)
    requires SortedAsc(s)
    ensures SortedAsc(InsertAsc(s, x))
    ensures multiset(InsertAsc(s, x)) == multiset(s) + multiset{x}
  {
    InsertAscPerm(s, x);
    if s == [] {
    } else if LexLe(x, s[0]) {
      TailSortedAsc(s);
      assert s == [s[0]] + s[1..];
      forall k | 0 <= k < |s| ensures LexLe(x, s[k]) {
        if k > 0 {
          assert s[k] == s[1..][k - 1];
          LexLeTransitive(x, s[0], s[k]);
        }
      }
      ConsSortedAsc(x, s);
    } else {
      LexLeTotal(x, s[0]);
      var rest := s[1..];
      TailSortedAsc(s);
      InsertAscFacts(rest, x);
      var t := InsertAsc(rest, x);
      forall k | 0 <= k < |t| ensures LexLe(s[0], t[k]) {
        assert t[k] in multiset(t);
        if t[k] != x {
          assert t[k] in rest;
        }
      }
      ConsSortedAsc(s[0], t);
    }
  }

  /** `array.sort()` on strings, here by code point. */
  function SortAsc(s: seq<String>): (r: seq<String>)
    ensures SortedAsc(r) && multiset(r) == multiset(s)
  {
    if s == [] then []
    else
      var r := InsertAsc(SortAsc(s[..|s| - 1]), s[|s| - 1]);
      InsertAscFacts(SortAsc(s[..|s| - 1]), s[|s| - 1]);
      assert s == s[..|s| - 1] + [s[|s| - 1]];
      r
  }

  /** A sorted sequence without duplicates is strictly increasing. */
  lemma SortedDistinctStrict(s: seq<String>)
    requires SortedAsc(s) && NoDup(s)
    ensures forall i, j :: 0 <= i < j < |s| ==> LexLe(s[i], s[j]) && !LexLe(s[j], s[i])
  {
    forall i, j | 0 <= i < j < |s| ensures !LexLe(s[j], s[i]) {
      if LexLe(s[j], s[i]) { LexLeAntisymmetric(s[i], s[j]); }
    }
  }
}
