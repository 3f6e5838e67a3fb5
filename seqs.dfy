/** Sequence operations that the storefront uses through JavaScript's
    built-in array methods: `filter`, de-duplication through a `Set`, and
    the order-preserving-subsequence relation that states what `filter`
    keeps. String search (`includes`) lives with the product list. */
module Seqs {

  /** JavaScript's `undefined`-or-value, as an explicit choice. */
  datatype Option<+T> = None | Some(value: T)

  /** `Array.prototype.filter`: the elements that satisfy `keep`, in their
      original order. */
  function Filter<T>(s: seq<T>, keep: T -> bool): (r: seq<T>)
    ensures |r| <= |s|
    ensures forall k :: 0 <= k < |r| ==> r[k] in s && keep(r[k])
    ensures forall k :: 0 <= k < |s| && keep(s[k]) ==> s[k] in r
  {
    if s == [] then []
    else
      var rest := Filter(s[1..], keep);
      if keep(s[0]) then [s[0]] + rest else rest
  }

  /** `sub` can be obtained from `s` by deleting elements, without
      reordering what remains. Greedy matching decides this exactly. */
  predicate IsSubsequence<T(==)>(sub: seq<T>, s: seq<T>)
    decreases |s|
  {
    if sub == [] then true
    else if s == [] then false
    else if sub[0] == s[0] then IsSubsequence(sub[1..], s[1..])
    else IsSubsequence(sub, s[1..])
  }

  /** Skipping a leading element of the larger sequence keeps the relation. */
  lemma {:induction false} SubsequenceCons<T>(sub: seq<T>, x: T, s: seq<T>)
    requires IsSubsequence(sub, s)
    ensures IsSubsequence(sub, [x] + s)
    decreases |s|, 1
  {
    if sub != [] && sub[0] != x {
      assert ([x] + s)[1..] == s;
    } else if sub != [] {
      // The greedy step now matches `x` first; what remains of `sub` must
      // still embed into `s`.
      assert ([x] + s)[1..] == s;
      SubsequenceDropHead(sub, s);
    }
  }

  /** Dropping the first element of `sub` keeps it a subsequence. */
  lemma {:induction false} SubsequenceDropHead<T>(sub: seq<T>, s: seq<T>)
    requires sub != [] && IsSubsequence(sub, s)
    ensures IsSubsequence(sub[1..], s)
    decreases |s|, 0
  {
    if sub[0] == s[0] {
      SubsequenceCons(sub[1..], s[0], s[1..]);
      assert [s[0]] + s[1..] == s;
    } else {
      SubsequenceDropHead(sub, s[1..]);
      SubsequenceCons(sub[1..], s[0], s[1..]);
      assert [s[0]] + s[1..] == s;
    }
  }

  /** What `filter` returns is an order-preserving subsequence of its input. */
  lemma {:induction false} FilterIsSubsequence<T>(s: seq<T>, keep: T -> bool)
    ensures IsSubsequence(Filter(s, keep), s)
  {
    if s != [] {
      FilterIsSubsequence(s[1..], keep);
      var rest := Filter(s[1..], keep);
      if keep(s[0]) {
        assert ([s[0]] + rest)[1..] == rest;
      } else {
        SubsequenceCons(rest, s[0], s[1..]);
        assert [s[0]] + s[1..] == s;
      }
    }
  }

  /** Filtering distributes over concatenation, so the relative order of the
      kept elements is the order they had in the input. */
  lemma {:induction false} FilterAppend<T>(a: seq<T>, b: seq<T>, keep: T -> bool)
    ensures Filter(a + b, keep) == Filter(a, keep) + Filter(b, keep)
  {
    if a != [] {
      assert (a + b)[1..] == a[1..] + b;
      FilterAppend(a[1..], b, keep);
    } else {
      assert a + b == b;
    }
  }

  /** When every element is kept, `filter` returns its input unchanged. */
  lemma {:induction false} FilterKeepsAll<T>(s: seq<T>, keep: T -> bool)
    requires forall k :: 0 <= k < |s| ==> keep(s[k])
    ensures Filter(s, keep) == s
  {
    if s != [] {
      FilterKeepsAll(s[1..], keep);
    }
  }

  /** No value occurs twice. */
  predicate NoDup<T(==)>(s: seq<T>) {
    forall i, j :: 0 <= i < j < |s| ==> s[i] != s[j]
  }

  /** Filtering a duplicate-free sequence cannot create a duplicate. */
  lemma {:induction false} FilterNoDup<T>(s: seq<T>, keep: T -> bool)
    requires NoDup(s)
    ensures NoDup(Filter(s, keep))
  {
    if s != [] {
      var rest := Filter(s[1..], keep);
      FilterNoDup(s[1..], keep);
      if keep(s[0]) {
        forall k | 0 <= k < |rest|
          ensures rest[k] != s[0]
        {
          var j :| 0 <= j < |s[1..]| && s[1..][j] == rest[k];
          assert s[j + 1] == rest[k];
        }
        var r := [s[0]] + rest;
        forall i, j | 0 <= i < j < |r|
          ensures r[i] != r[j]
        {
          if i > 0 {
            assert r[i] == rest[i - 1] && r[j] == rest[j - 1];
          } else {
            assert r[j] == rest[j - 1];
          }
        }
      }
    }
  }

  /** Index of the first occurrence of `x` in `s`. */
  function FirstIndex<T(==)>(s: seq<T>, x: T): (k: nat)
    requires x in s
    ensures k < |s| && s[k] == x
    ensures forall j :: 0 <= j < k ==> s[j] != x
  {
    if s[0] == x then 0 else 1 + FirstIndex(s[1..], x)
  }

  /** `Array.from(new Set(s))`: each distinct value once, at the place of
      its first occurrence. A `Set` is filled in iteration order, so the
      value is appended the first time it is met and skipped afterwards. */
  function Dedupe<T(==)>(s: seq<T>): (r: seq<T>)
    ensures NoDup(r)
    ensures forall k :: 0 <= k < |r| ==> r[k] in s
    ensures forall k :: 0 <= k < |s| ==> s[k] in r
    ensures |r| <= |s|
  {
    if s == [] then []
    else
      var d := Dedupe(s[..|s| - 1]);
      var last := s[|s| - 1];
      assert s == s[..|s| - 1] + [last];
      if last in d then d else d + [last]
  }

  /** First occurrences are preserved by extending the sequence. */
  lemma FirstIndexExtend<T>(s: seq<T>, x: T, y: T)
    requires y in s
    ensures FirstIndex(s + [x], y) == FirstIndex(s, y)
  {
    var k := FirstIndex(s, y);
    var k' := FirstIndex(s + [x], y);
    assert (s + [x])[k] == y;
    assert s[k'] == y || k' == |s|;
  }

  /** The de-duplicated values appear in the order of their first
      occurrences in the input. */
  lemma {:induction false} DedupeFirstOccurrenceOrder<T>(s: seq<T>)
    ensures forall i, j :: 0 <= i < j < |Dedupe(s)| ==>
      FirstIndex(s, Dedupe(s)[i]) < FirstIndex(s, Dedupe(s)[j])
  {
    if s != [] {
      var init := s[..|s| - 1];
      var last := s[|s| - 1];
      assert s == init + [last];
      DedupeFirstOccurrenceOrder(init);
      var d := Dedupe(init);
      forall y | y in d
        ensures FirstIndex(s, y) == FirstIndex(init, y)
      {
        FirstIndexExtend(init, last, y);
      }
      if last !in d {
        assert FirstIndex(s, last) == |init|;
      }
    }
  }

  /** On a duplicate-free input, de-duplication changes nothing. */
  lemma {:induction false} DedupeOfNoDup<T>(s: seq<T>)
    requires NoDup(s)
    ensures Dedupe(s) == s
  {
    if s != [] {
      var init := s[..|s| - 1];
      assert NoDup(init);
      DedupeOfNoDup(init);
      assert s == init + [s[|s| - 1]];
    }
  }
}
