/** Pagination of the question list: Python's slice `items[start:end]` and the page
    arithmetic `start = (page - 1) * n`, `end = start + n` built on it. */
module Pagination {
  import opened Options

  /** Python's normalisation of one slice bound against a sequence of length `len`:
      a negative bound counts from the end, and the result is clipped to [0, len]. */
  function ClipBound(i: int, len: nat): nat
  {
    if i < 0 then (if i + len < 0 then 0 else i + len)
    else if i > len then len
    else i
  }

  /** `s[start:stop]` with step 1, as Python evaluates it. */
  function Slice<T>(s: seq<T>, start: int, stop: int): (r: seq<T>)
    ensures |r| <= |s|
    ensures 0 <= start <= stop <= |s| ==> r == s[start..stop]
    ensures stop <= start && (start < 0 <==> stop < 0) ==> r == []
  {
    var lo := ClipBound(start, |s|);
    var hi := ClipBound(stop, |s|);
    if lo < hi then s[lo..hi] else []
  }

  /** A bound as Python's documentation first reads it: negative means "from the end". */
  function FromEnd(i: int, len: nat): int
  {
    if i < 0 then i + len else i
  }

  /** Reference reading of a slice: the items `s[k]`, for `k` from `k0` upwards, with
      `from <= k < to`. */
  function Picked<T>(s: seq<T>, from: int, to: int, k0: nat): seq<T>
    requires k0 <= |s|
    decreases |s| - k0
  {
    if k0 == |s| then []
    else (if from <= k0 < to then [s[k0]] else []) + Picked(s, from, to, k0 + 1)
  }

  function Min(a: int, b: int): int { if a <= b then a else b }
  function Max(a: int, b: int): int { if a <= b then b else a }

  /** The items picked from position `k0` on form one contiguous run of `s`. */
  lemma {:induction false} PickedIsRun<T>(s: seq<T>, from: int, to: int, k0: nat)
    requires k0 <= |s|
    ensures var lo := Min(Max(from, k0), |s|);
            var hi := Max(lo, Min(to, |s|));
            0 <= lo <= hi <= |s| && Picked(s, from, to, k0) == s[lo..hi]
    decreases |s| - k0
  {
    if k0 < |s| {
      PickedIsRun(s, from, to, k0 + 1);
      var lo := Min(Max(from, k0), |s|);
      var hi := Max(lo, Min(to, |s|));
      if from <= k0 < to {
        assert [s[k0]] + s[k0 + 1..hi] == s[k0..hi];
      }
    }
  }

  /** The clipped slice holds exactly the items `s[k]`, in order, whose index lies in
      `[start, stop)` once negative bounds are counted from the end. */
  lemma {:induction false} SliceIsPythonSlice<T>(s: seq<T>, start: int, stop: int)
    ensures Slice(s, start, stop) == Picked(s, FromEnd(start, |s|), FromEnd(stop, |s|), 0)
  {
    PickedIsRun(s, FromEnd(start, |s|), FromEnd(stop, |s|), 0);
  }

  /** A slice is always one contiguous, order-preserving run of the input. */
  lemma SliceIsContiguous<T>(s: seq<T>, start: int, stop: int)
    ensures exists lo, hi :: 0 <= lo <= hi <= |s| && Slice(s, start, stop) == s[lo..hi]
  {
    var lo := ClipBound(start, |s|);
    var hi := ClipBound(stop, |s|);
    if lo < hi {
      assert Slice(s, start, stop) == s[lo..hi];
    } else {
      assert Slice(s, start, stop) == s[0..0];
    }
  }

  /** The page of `items` numbered `page` (1-based) holding at most `n` items. */
  function Paginate<T>(items: seq<T>, page: int, n: nat): (r: seq<T>)
    ensures |r| <= |items|
    ensures page == 0 ==> r == []
    ensures page == 1 ==> r == items[..Min(n, |items|)]
  {
    var start := (page - 1) * n;
    var end := start + n;
    Slice(items, start, end)
  }

  /** The number the query parameter `page` gives, 1 when it is absent or not an integer. */
  function PageNumber(arg: Option<int>): int
  {
    if arg.Some? then arg.value else 1
  }

  /** `[f(x) for x in s]` */
  function MapSeq<A, B>(f: A -> B, s: seq<A>): (r: seq<B>)
    ensures |r| == |s|
  {
    seq(|s|, i requires 0 <= i < |s| => f(s[i]))
  }

  /** Formats every question, then cuts out the requested page. */
  function GetPaginatedQuestions<Q, F>(arg: Option<int>, questions: seq<Q>, n: nat, format: Q -> F): (r: seq<F>)
    ensures |r| <= |questions|
    ensures arg == Some(0) ==> r == []
    ensures arg.None? && |questions| <= n ==> r == MapSeq(format, questions)
  {
    Paginate(MapSeq(format, questions), PageNumber(arg), n)
  }

  /** Page `p >= 1` is the items `[(p-1)*n, p*n)` clipped to the list's length; in
      particular a page past the end is empty rather than an error. */
  lemma PageOfPositive<T>(items: seq<T>, page: int, n: nat)
    requires page >= 1
    ensures (page - 1) * n >= 0
    ensures Min((page - 1) * n, |items|) <= Min(page * n, |items|)
    ensures Paginate(items, page, n) == items[Min((page - 1) * n, |items|)..Min(page * n, |items|)]
    ensures (page - 1) * n >= |items| ==> Paginate(items, page, n) == []
  {
    assert page * n == (page - 1) * n + n;
  }

  /** Page 0 is always empty: the slice ends at index 0. */
  lemma PageZeroIsEmpty<T>(items: seq<T>, n: nat)
    ensures Paginate(items, 0, n) == []
  {
  }

  /** A negative page counts whole pages back from the end of the list. */
  lemma PageOfNegative<T>(items: seq<T>, page: int, n: nat)
    requires page < 0
    ensures Max(0, |items| + (page - 1) * n) <= Max(0, |items| + page * n) <= |items|
    ensures Paginate(items, page, n)
         == items[Max(0, |items| + (page - 1) * n)..Max(0, |items| + page * n)]
  {
    assert (page - 1) * n == page * n - n;
  }

  /** A page never holds more than `n` items and is a contiguous run of the list. */
  lemma PageBounded<T>(items: seq<T>, page: int, n: nat)
    ensures |Paginate(items, page, n)| <= n
    ensures exists lo, hi :: 0 <= lo <= hi <= |items| && Paginate(items, page, n) == items[lo..hi]
  {
    if page >= 1 {
      PageOfPositive(items, page, n);
    } else if page == 0 {
      PageZeroIsEmpty(items, n);
    } else {
      PageOfNegative(items, page, n);
    }
    SliceIsContiguous(items, (page - 1) * n, (page - 1) * n + n);
  }

  /** Which pages of a list of `len` items are empty when pages hold `n > 0` items: those
      starting at or past the end, page 0, and negative pages reaching back before the start. */
  predicate EmptyPage(page: int, len: nat, n: nat)
  {
    (page >= 1 && (page - 1) * n >= len) || page == 0 || (page < 0 && len + page * n <= 0)
  }

  /** With a positive page size, exactly which pages come out empty. */
  lemma PageEmptyIff<T>(items: seq<T>, page: int, n: nat)
    requires n > 0
    ensures Paginate(items, page, n) == [] <==> EmptyPage(page, |items|, n)
  {
    if page >= 1 {
      PageOfPositive(items, page, n);
      assert page * n == (page - 1) * n + n;
    } else if page < 0 {
      PageOfNegative(items, page, n);
      assert (page - 1) * n == page * n - n;
    }
  }

  /** Every item of a page comes from the list. */
  lemma PageItemsFromList<T>(items: seq<T>, page: int, n: nat, x: T)
    requires x in Paginate(items, page, n)
    ensures x in items
  {
    PageBounded(items, page, n);
    var lo, hi :| 0 <= lo <= hi <= |items| && Paginate(items, page, n) == items[lo..hi];
    var k :| 0 <= k < hi - lo && items[lo..hi][k] == x;
    assert items[lo + k] == x;
  }

  /** Formatting commutes with slicing: the page of the formatted list is the
      formatted page of the list. */
  lemma {:induction false} FormatThenPage<Q, F>(arg: Option<int>, questions: seq<Q>, n: nat, format: Q -> F)
    ensures GetPaginatedQuestions(arg, questions, n, format)
         == MapSeq(format, Paginate(questions, PageNumber(arg), n))
  {
    var start := (PageNumber(arg) - 1) * n;
    var lo := ClipBound(start, |questions|);
    var hi := ClipBound(start + n, |questions|);
    if lo < hi {
      assert MapSeq(format, questions)[lo..hi] == MapSeq(format, questions[lo..hi]);
    }
  }

  /** Without a `page` parameter the first `n` formatted questions come back, and a
      list no longer than `n` comes back whole. */
  lemma DefaultPageIsFirst<Q, F>(questions: seq<Q>, n: nat, format: Q -> F)
    ensures GetPaginatedQuestions(None, questions, n, format)
         == MapSeq(format, questions[..Min(n, |questions|)])
    ensures |questions| <= n ==> GetPaginatedQuestions(None, questions, n, format) == MapSeq(format, questions)
  {
    FormatThenPage(None, questions, n, format);
    PageOfPositive(questions, 1, n);
    assert questions[..|questions|] == questions;
  }
}
