/**
 * Value-level building blocks shared by the views and the ledger: the
 * JavaScript array operations the source leans on (`filter`, `slice`,
 * `[...new Set(xs)]`), page arithmetic, and the Option/Result wrappers used
 * for `undefined` lookups and thrown errors.
 */
module Common {

  datatype Option<T> = None | Some(value: T)

  /** A call that either returns a value or throws `error`. */
  datatype Result<T, E> = Ok(value: T) | Err(error: E)

  // ---------------------------------------------------------------------
  // Array.prototype.filter
  // ---------------------------------------------------------------------

  /** The elements of `s` that satisfy `keep`, in their original order. */
  function Filter<T(!new)>(keep: T -> bool, s: seq<T>): (r: seq<T>)
    ensures |r| <= |s|
    ensures forall x :: x in r <==> x in s && keep(x)
  {
    if s == [] then []
    else
      var rest := Filter(keep, s[1..]);
      if keep(s[0]) then [s[0]] + rest else rest
  }

  /** `r` can be obtained from `s` by deleting elements (order is kept). */
  ghost predicate IsSubsequence<T(!new)>(r: seq<T>, s: seq<T>)
    decreases |s|
  {
    if r == [] then true
    else if s == [] then false
    else (r[0] == s[0] && IsSubsequence(r[1..], s[1..])) || IsSubsequence(r, s[1..])
  }

  lemma {:induction false} FilterIsSubsequence<T(!new)>(keep: T -> bool, s: seq<T>)
    ensures IsSubsequence(Filter(keep, s), s)
  {
    if s != [] {
      FilterIsSubsequence(keep, s[1..]);
      var rest := Filter(keep, s[1..]);
      if keep(s[0]) {
        assert ([s[0]] + rest)[1..] == rest;
      } else if rest != [] {
        assert IsSubsequence(rest, s[1..]);
      }
    }
  }

  /** Every element kept by `filter` occurs as often as in the input; every other element not at all. */
  lemma {:induction false} FilterCount<T(!new)>(keep: T -> bool, s: seq<T>, x: T)
    ensures multiset(Filter(keep, s))[x] == if keep(x) then multiset(s)[x] else 0
  {
    if s != [] {
      FilterCount(keep, s[1..], x);
      assert s == [s[0]] + s[1..];
    }
  }

  /** Filtering with a predicate that holds everywhere returns the input itself. */
  lemma {:induction false} FilterAll<T(!new)>(keep: T -> bool, s: seq<T>)
    requires forall x :: x in s ==> keep(x)
    ensures Filter(keep, s) == s
  {
    if s != [] {
      FilterAll(keep, s[1..]);
      assert s == [s[0]] + s[1..];
    }
  }

  /** Two filters in a row are one filter by the conjunction. */
  lemma {:induction false} FilterFilter<T(!new)>(a: T -> bool, b: T -> bool, s: seq<T>)
    ensures Filter(b, Filter(a, s)) == Filter(x => a(x) && b(x), s)
  {
    if s != [] {
      FilterFilter(a, b, s[1..]);
      var rest := Filter(a, s[1..]);
      if a(s[0]) {
        assert ([s[0]] + rest)[1..] == rest;
      }
    }
  }

  /** Filtering is idempotent. */
  lemma {:induction false} FilterIdempotent<T(!new)>(keep: T -> bool, s: seq<T>)
    ensures Filter(keep, Filter(keep, s)) == Filter(keep, s)
  {
    var r := Filter(keep, s);
    FilterAll(keep, r);
  }

  /** Filters that agree on every element of `s` give the same result. */
  lemma {:induction false} FilterCongruent<T(!new)>(a: T -> bool, b: T -> bool, s: seq<T>)
    requires forall x :: x in s ==> a(x) == b(x)
    ensures Filter(a, s) == Filter(b, s)
  {
    if s != [] {
      FilterCongruent(a, b, s[1..]);
    }
  }

  // ---------------------------------------------------------------------
  // Array.prototype.slice and paging
  // ---------------------------------------------------------------------

  /** How `slice` normalises an index: negative counts from the end, then clipped to [0, n]. */
  function SliceIndex(i: int, n: nat): (k: nat)
    ensures k <= n
  {
    if i < 0 then (if n + i < 0 then 0 else n + i)
    else if i > n then n
    else i
  }

  /** `s.slice(start, end)` with JavaScript's index rules. */
  function JsSlice<T(!new)>(s: seq<T>, start: int, end: int): seq<T>
  {
    var a, b := SliceIndex(start, |s|), SliceIndex(end, |s|);
    if a < b then s[a..b] else []
  }

  function Min(a: int, b: int): int { if a < b then a else b }

  /** For non-negative bounds `slice` is the clipped sub-range and never longer than `end - start`. */
  lemma JsSliceClipped<T(!new)>(s: seq<T>, start: int, end: int)
    requires 0 <= start && 0 <= end
    ensures start <= end ==>
      JsSlice(s, start, end) == s[Min(start, |s|)..Min(end, |s|)]
    ensures |JsSlice(s, start, end)| <= if start <= end then end - start else 0
    ensures end <= start ==> JsSlice(s, start, end) == []
  {
  }

  /** `Math.ceil(n / size)` for a positive page size. */
  function CeilDiv(n: nat, size: nat): (r: nat)
    requires size > 0
    ensures (r - 1) * size < n <= r * size
  {
    (n + size - 1) / size
  }

  /** Page `page` (1-based) of `s`: `s.slice((page - 1) * size, (page - 1) * size + size)`. */
  function Page<T(!new)>(s: seq<T>, page: int, size: int): seq<T>
  {
    JsSlice(s, (page - 1) * size, (page - 1) * size + size)
  }

  /** Pages 1..count concatenated. */
  function Pages<T(!new)>(s: seq<T>, size: int, count: nat): seq<T>
  {
    if count == 0 then [] else Pages(s, size, count - 1) + Page(s, count, size)
  }

  /** Two adjacent ranges of `s` starting at 0 join into one. */
  lemma PrefixJoin<T>(s: seq<T>, a: nat, b: nat)
    requires a <= b <= |s|
    ensures s[..a] + s[a..b] == s[..b]
  {
  }

  /** The first `count` pages are exactly the first `count * size` elements. */
  lemma {:induction false} PagesPrefix<T(!new)>(s: seq<T>, size: nat, count: nat)
    requires size > 0
    ensures Pages(s, size, count) == s[..Min(count * size, |s|)]
  {
    if count > 0 {
      PagesPrefix(s, size, count - 1);
      var lo := (count - 1) * size;
      var hi := count * size;
      MulMonotone(0, count - 1, size);
      assert hi == lo + size;
      assert Page(s, count, size) == JsSlice(s, lo, hi);
      JsSliceClipped(s, lo, hi);
      var a, b := Min(lo, |s|), Min(hi, |s|);
      PrefixJoin(s, a, b);
      assert Pages(s, size, count) == s[..a] + s[a..b];
    }
  }

  /**
   * The pages 1..ceil(n/size) partition `s`: concatenated in order they give
   * back `s`, every element exactly once, and each of them holds at most
   * `size` elements.
   */
  lemma PagesPartition<T(!new)>(s: seq<T>, size: nat)
    requires size > 0
    ensures Pages(s, size, CeilDiv(|s|, size)) == s
    ensures forall p :: 1 <= p <= CeilDiv(|s|, size) ==> 0 < |Page(s, p, size)| <= size
  {
    var count := CeilDiv(|s|, size);
    PagesPrefix(s, size, count);
    assert Min(count * size, |s|) == |s|;
    forall p | 1 <= p <= count
      ensures 0 < |Page(s, p, size)| <= size
    {
      PageNonEmpty(s, size, count, p);
    }
  }

  lemma PageNonEmpty<T(!new)>(s: seq<T>, size: nat, count: nat, p: int)
    requires size > 0 && count == CeilDiv(|s|, size) && 1 <= p <= count
    ensures 0 < |Page(s, p, size)| <= size
  {
    var lo := (p - 1) * size;
    MulMonotone(0, p - 1, size);
    MulMonotone(p - 1, count - 1, size);
    assert (count - 1) * size < |s|;
    assert 0 <= lo < |s|;
    var hi := lo + size;
    assert Page(s, p, size) == JsSlice(s, lo, hi);
    assert SliceIndex(lo, |s|) == lo;
    assert SliceIndex(hi, |s|) == Min(hi, |s|);
  }

  lemma MulMonotone(a: nat, b: nat, c: nat)
    requires a <= b
    ensures a * c <= b * c
  {
    if a < b {
      MulMonotone(a, b - 1, c);
      assert b * c == (b - 1) * c + c;
    }
  }

  // ---------------------------------------------------------------------
  // [...new Set(s)]: distinct values in first-occurrence order
  // ---------------------------------------------------------------------

  ghost predicate NoDuplicates<T(!new)>(s: seq<T>)
  {
    forall i, j :: 0 <= i < j < |s| ==> s[i] != s[j]
  }

  /** Index of the first occurrence of `x` in `s`. */
  function FirstIndex<T(==,!new)>(s: seq<T>, x: T): (k: nat)
    requires x in s
    ensures k < |s| && s[k] == x
    ensures forall i :: 0 <= i < k ==> s[i] != x
  {
    if s[0] == x then 0 else 1 + FirstIndex(s[1..], x)
  }

  /** The distinct values of `s`, in the order in which a `Set` built from `s` enumerates them. */
  function Distinct<T(==,!new)>(s: seq<T>): (r: seq<T>)
    ensures forall x :: x in r <==> x in s
    ensures NoDuplicates(r)
  {
    if s == [] then []
    else
      var d := Distinct(s[..|s| - 1]);
      var last := s[|s| - 1];
      assert forall x :: x in s <==> x in s[..|s| - 1] || x == last by {
        assert s == s[..|s| - 1] + [last];
      }
      if last in d then d else d + [last]
  }

  lemma FirstIndexOfPrefix<T(!new)>(s: seq<T>, x: T)
    requires s != [] && x in s[..|s| - 1]
    ensures FirstIndex(s, x) == FirstIndex(s[..|s| - 1], x)
  {
    var init := s[..|s| - 1];
    var k := FirstIndex(init, x);
    assert forall i :: 0 <= i < |init| ==> init[i] == s[i];
    assert s[k] == x;
  }

  /** The distinct values come in the order of their first occurrences in `s`. */
  lemma {:induction false} DistinctFirstOccurrenceOrder<T(!new)>(s: seq<T>)
    ensures forall i, j :: 0 <= i < j < |Distinct(s)| ==>
      FirstIndex(s, Distinct(s)[i]) < FirstIndex(s, Distinct(s)[j])
  {
    if s != [] {
      var init := s[..|s| - 1];
      var last := s[|s| - 1];
      var d := Distinct(init);
      DistinctFirstOccurrenceOrder(init);
      forall x | x in d
        ensures FirstIndex(s, x) == FirstIndex(init, x) < |s| - 1
      {
        FirstIndexOfPrefix(s, x);
      }
      if last !in d {
        assert FirstIndex(s, last) == |s| - 1 by {
          assert forall i :: 0 <= i < |s| - 1 ==> s[i] == init[i];
        }
        var r := d + [last];
        assert Distinct(s) == r;
        assert forall x :: x in r ==> x in s;
        forall i, j | 0 <= i < j < |r|
          ensures FirstIndex(s, r[i]) < FirstIndex(s, r[j])
        {
          assert r[i] in d && r[i] in init && r[i] in s;
          if j < |d| {
            assert r[j] in d && r[j] in init;
          }
        }
      }
    }
  }
}
