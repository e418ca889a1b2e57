/** Sequence helpers shared by the model: the stable sort that stands for
    `Array.prototype.sort` with a numeric comparator `(a, b) => key(a) - key(b)`,
    filtering and counting. */
module Seqs {
  import opened Wrappers

  /** `s` is in non-decreasing order of `key`. */
  predicate SortedBy<T>(s: seq<T>, key: T -> real) {
    forall i, j :: 0 <= i < j < |s| ==> key(s[i]) <= key(s[j])
  }

  /** Inserts `x` after every element of `t` whose key is at most `key(x)`;
      on a sorted `t` this is the step of a stable insertion sort. */
  function Insert<T>(t: seq<T>, x: T, key: T -> real): (r: seq<T>)
    ensures |r| == |t| + 1
    ensures multiset(r) == multiset(t) + multiset{x}
    ensures SortedBy(t, key) ==> SortedBy(r, key)
    decreases |t|
  {
    if t == [] || key(t[|t| - 1]) <= key(x) then t + [x]
    else
      var init, last := t[..|t| - 1], t[|t| - 1];
      assert t == init + [last];
      var r' := Insert(init, x, key);
      if SortedBy(t, key) then
        SortedPrefix(t, key);
        BoundedByLast(init, last, x, r', key);
        r' + [last]
      else r' + [last]
  }

  lemma SortedPrefix<T>(t: seq<T>, key: T -> real)
    requires t != [] && SortedBy(t, key)
    ensures SortedBy(t[..|t| - 1], key)
  {
    var init := t[..|t| - 1];
    forall i, j | 0 <= i < j < |init| ensures key(init[i]) <= key(init[j]) {
      assert init[i] == t[i] && init[j] == t[j];
    }
  }

  /** Every element of a rearrangement of `init` plus a smaller `x` is at most
      the last element of the sorted `init + [last]`. */
  lemma BoundedByLast<T>(init: seq<T>, last: T, x: T, r: seq<T>, key: T -> real)
    requires SortedBy(init + [last], key) && key(x) <= key(last)
    requires multiset(r) == multiset(init) + multiset{x}
    ensures forall y :: y in r ==> key(y) <= key(last)
  {
    var t := init + [last];
    forall y | y in r ensures key(y) <= key(last) {
      assert y in multiset(r);
      if y != x {
        assert y in multiset(init);
        var k :| 0 <= k < |init| && init[k] == y;
        assert t[k] == y && t[|init|] == last;
      }
    }
  }

  /** The stable sort of `s` by `key`: equal keys keep their input order. */
  function SortBy<T>(s: seq<T>, key: T -> real): (r: seq<T>)
    ensures |r| == |s|
    ensures multiset(r) == multiset(s)
    ensures SortedBy(r, key)
    decreases |s|
  {
    if s == [] then []
    else
      assert s == s[..|s| - 1] + [s[|s| - 1]];
      Insert(SortBy(s[..|s| - 1], key), s[|s| - 1], key)
  }

  lemma SortByMembers<T>(s: seq<T>, key: T -> real)
    ensures forall x :: x in SortBy(s, key) <==> x in s
  {
    forall x ensures x in SortBy(s, key) <==> x in s {
      assert x in SortBy(s, key) <==> x in multiset(SortBy(s, key));
      assert x in s <==> x in multiset(s);
    }
  }

  /** Sorting a sequence that is already sorted leaves it as it is. */
  lemma {:induction false} SortBySortedIsIdentity<T>(s: seq<T>, key: T -> real)
    requires SortedBy(s, key)
    ensures SortBy(s, key) == s
    decreases |s|
  {
    if s != [] {
      var init := s[..|s| - 1];
      SortedPrefix(s, key);
      SortBySortedIsIdentity(init, key);
      if |s| > 1 {
        assert key(s[|s| - 2]) <= key(s[|s| - 1]);
      }
      SortByLastStep(s, key);
    }
  }

  /** Sorting only appends the last element when it is not below the one
      before it and the rest is left as it is. */
  lemma SortByLastStep<T>(s: seq<T>, key: T -> real)
    requires s != [] && SortBy(s[..|s| - 1], key) == s[..|s| - 1]
    requires |s| > 1 ==> key(s[|s| - 2]) <= key(s[|s| - 1])
    ensures SortBy(s, key) == s
  {
    var init := s[..|s| - 1];
    if |s| > 1 {
      assert init[|init| - 1] == s[|s| - 2];
    }
    InsertAtEnd(init, s[|s| - 1], key);
    LastSplit(s);
  }

  lemma LastSplit<T>(s: seq<T>)
    requires s != []
    ensures s == s[..|s| - 1] + [s[|s| - 1]]
  {
  }

  lemma InsertAtEnd<T>(t: seq<T>, x: T, key: T -> real)
    requires t == [] || key(t[|t| - 1]) <= key(x)
    ensures Insert(t, x, key) == t + [x]
  {
  }

  /** The elements of `s` that satisfy `p`, in their original order. */
  function Filter<T>(s: seq<T>, p: T -> bool): (r: seq<T>)
    ensures |r| <= |s|
    ensures forall i :: 0 <= i < |r| ==> r[i] in s && p(r[i])
    ensures forall i :: 0 <= i < |s| && p(s[i]) ==> s[i] in r
    decreases |s|
  {
    if s == [] then []
    else
      assert s == s[..|s| - 1] + [s[|s| - 1]];
      var r' := Filter(s[..|s| - 1], p);
      if p(s[|s| - 1]) then r' + [s[|s| - 1]] else r'
  }

  /** Filtering keeps a sorted sequence sorted. */
  lemma {:induction false} FilterSorted<T>(s: seq<T>, p: T -> bool, key: T -> real)
    requires SortedBy(s, key)
    ensures SortedBy(Filter(s, p), key)
    decreases |s|
  {
    if s != [] {
      var init, last := s[..|s| - 1], s[|s| - 1];
      assert SortedBy(init, key);
      FilterSorted(init, p, key);
      var r' := Filter(init, p);
      forall y | y in r' ensures key(y) <= key(last) {
        var k :| 0 <= k < |init| && init[k] == y;
        assert s[k] == y;
      }
    }
  }

  /** Each value occurs in the filtered sequence as often as in `s` when it
      satisfies `p`, and not at all otherwise. */
  lemma {:induction false} FilterMultiset<T>(s: seq<T>, p: T -> bool)
    ensures forall x :: multiset(Filter(s, p))[x] == if p(x) then multiset(s)[x] else 0
    decreases |s|
  {
    if s != [] {
      var init, last := s[..|s| - 1], s[|s| - 1];
      assert s == init + [last];
      FilterMultiset(init, p);
    }
  }

  /** The element at `i` is the first that satisfies `p`. */
  predicate FirstWith<T>(s: seq<T>, i: nat, p: T -> bool)
    requires i < |s|
  {
    p(s[i]) && forall j :: 0 <= j < i ==> !p(s[j])
  }

  lemma FirstWithUnique<T>(s: seq<T>, i: nat, j: nat, p: T -> bool)
    requires i < |s| && j < |s| && FirstWith(s, i, p) && FirstWith(s, j, p)
    ensures i == j
  {
  }

  /** `s.find(p)`: the first element satisfying `p`, if any. */
  function Find<T>(s: seq<T>, p: T -> bool): (r: Option<T>)
    ensures r.None? <==> forall i :: 0 <= i < |s| ==> !p(s[i])
    ensures r.Some? ==> exists i :: 0 <= i < |s| && FirstWith(s, i, p) && s[i] == r.value
    decreases |s|
  {
    if s == [] then None
    else if p(s[0]) then
      assert FirstWith(s, 0, p);
      Some(s[0])
    else
      var r := Find(s[1..], p);
      assert forall j :: 1 <= j < |s| ==> s[j] == s[1..][j - 1];
      assert r.Some? ==> exists i :: 0 <= i < |s| && FirstWith(s, i, p) && s[i] == r.value by {
        if r.Some? {
          var k :| 0 <= k < |s| - 1 && FirstWith(s[1..], k, p) && s[1..][k] == r.value;
          assert FirstWith(s, k + 1, p);
        }
      }
      r
  }

  /** The number of elements of `s` satisfying `p`. */
  function Count<T>(s: seq<T>, p: T -> bool): (n: nat)
    ensures n <= |s|
    decreases |s|
  {
    if s == [] then 0
    else Count(s[..|s| - 1], p) + (if p(s[|s| - 1]) then 1 else 0)
  }

  lemma {:induction false} CountAppend<T>(a: seq<T>, b: seq<T>, p: T -> bool)
    ensures Count(a + b, p) == Count(a, p) + Count(b, p)
    decreases |b|
  {
    if b == [] {
      assert a + b == a;
    } else {
      var b', y := b[..|b| - 1], b[|b| - 1];
      assert (a + b)[..|a + b| - 1] == a + b';
      CountAppend(a, b', p);
    }
  }

  lemma {:induction false} InsertCount<T>(t: seq<T>, x: T, key: T -> real, p: T -> bool)
    ensures Count(Insert(t, x, key), p) == Count(t, p) + (if p(x) then 1 else 0)
    decreases |t|
  {
    if t == [] || key(t[|t| - 1]) <= key(x) {
      assert (t + [x])[..|t|] == t;
    } else {
      var init, last := t[..|t| - 1], t[|t| - 1];
      InsertCount(init, x, key, p);
      var r' := Insert(init, x, key);
      assert (r' + [last])[..|r'|] == r';
    }
  }

  /** Sorting neither adds nor loses elements satisfying any predicate. */
  lemma {:induction false} SortByCount<T>(s: seq<T>, key: T -> real, p: T -> bool)
    ensures Count(SortBy(s, key), p) == Count(s, p)
    decreases |s|
  {
    if s != [] {
      SortByCount(s[..|s| - 1], key, p);
      InsertCount(SortBy(s[..|s| - 1], key), s[|s| - 1], key, p);
    }
  }

  /** No element satisfies `p` exactly when the count is zero. */
  lemma {:induction false} CountZero<T>(s: seq<T>, p: T -> bool)
    ensures Count(s, p) == 0 <==> forall i :: 0 <= i < |s| ==> !p(s[i])
    decreases |s|
  {
    if s != [] {
      CountZero(s[..|s| - 1], p);
    }
  }

  /** The concatenation of a sequence of sequences. */
  function Flatten<T>(ss: seq<seq<T>>): (r: seq<T>)
    decreases |ss|
  {
    if ss == [] then [] else Flatten(ss[..|ss| - 1]) + ss[|ss| - 1]
  }

  /** `a` is `b` with some elements left out: its elements sit at strictly
      increasing positions of `b`. */
  ghost predicate IsSubsequence<T>(a: seq<T>, b: seq<T>) {
    exists idx: seq<int> ::
      && |idx| == |a|
      && (forall k :: 0 <= k < |idx| ==> 0 <= idx[k] < |b| && b[idx[k]] == a[k])
      && (forall k, l :: 0 <= k < l < |idx| ==> idx[k] < idx[l])
  }

  /** Extending both sequences, or only the longer one, keeps the relation. */
  lemma SubsequenceExtend<T>(a: seq<T>, b: seq<T>, x: T, both: bool)
    requires IsSubsequence(a, b)
    ensures if both then IsSubsequence(a + [x], b + [x]) else IsSubsequence(a, b + [x])
  {
    var idx: seq<int> :| && |idx| == |a|
      && (forall k :: 0 <= k < |idx| ==> 0 <= idx[k] < |b| && b[idx[k]] == a[k])
      && (forall k, l :: 0 <= k < l < |idx| ==> idx[k] < idx[l]);
    if both {
      var idx' := idx + [|b|];
      assert forall k :: 0 <= k < |idx'| ==> 0 <= idx'[k] < |b + [x]| && (b + [x])[idx'[k]] == (a + [x])[k];
    } else {
      assert forall k :: 0 <= k < |idx| ==> 0 <= idx[k] < |b + [x]| && (b + [x])[idx[k]] == a[k];
    }
  }

  lemma SubsequenceEmpty<T>(b: seq<T>)
    ensures IsSubsequence([], b)
  {
    var idx: seq<int> := [];
    assert |idx| == 0;
  }

  /** Filtering only leaves elements out: the result is a subsequence. */
  lemma {:induction false} FilterSubsequence<T>(s: seq<T>, p: T -> bool)
    ensures IsSubsequence(Filter(s, p), s)
    decreases |s|
  {
    if s == [] {
      SubsequenceEmpty(s);
    } else {
      var init, last := s[..|s| - 1], s[|s| - 1];
      assert s == init + [last];
      FilterSubsequence(init, p);
      SubsequenceExtend(Filter(init, p), init, last, p(last));
    }
  }
}
