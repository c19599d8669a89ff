/**
 * Sequence helpers behind the array methods the storefront uses everywhere:
 * `filter`, `reduce` with `+`, `findIndex`/`find`, and `filter(...).length`.
 */
module Collections {

  datatype Option<+T> = None | Some(value: T)

  /** The elements of `s` that satisfy `keep`, in their original order (`Array.prototype.filter`). */
  function Filter<T>(s: seq<T>, keep: T -> bool): (r: seq<T>)
    ensures |r| <= |s|
    ensures forall i :: 0 <= i < |r| ==> r[i] in s && keep(r[i])
  {
    if s == [] then []
    else (if keep(s[0]) then [s[0]] else []) + Filter(s[1..], keep)
  }

  /** Nothing that passes the test is dropped. */
  lemma {:induction false} FilterComplete<T>(s: seq<T>, keep: T -> bool)
    ensures forall i :: 0 <= i < |s| && keep(s[i]) ==> s[i] in Filter(s, keep)
  {
    if s != [] {
      FilterComplete(s[1..], keep);
      assert forall i :: 1 <= i < |s| ==> s[i] == s[1..][i - 1];
    }
  }

  /** Filtering distributes over concatenation: this is what "keeps the original order" means. */
  lemma {:induction false} FilterConcat<T>(a: seq<T>, b: seq<T>, keep: T -> bool)
    ensures Filter(a + b, keep) == Filter(a, keep) + Filter(b, keep)
  {
    if a == [] {
      assert a + b == b;
    } else {
      assert (a + b)[0] == a[0];
      assert (a + b)[1..] == a[1..] + b;
      FilterConcat(a[1..], b, keep);
    }
  }

  /** A single element is kept exactly when it passes the test. */
  lemma FilterOne<T>(x: T, keep: T -> bool)
    ensures Filter([x], keep) == if keep(x) then [x] else []
  {
    assert [x][1..] == [];
  }

  /** A filter that rejects nothing returns its input unchanged. */
  lemma {:induction false} FilterKeepsAll<T>(s: seq<T>, keep: T -> bool)
    requires forall i :: 0 <= i < |s| ==> keep(s[i])
    ensures Filter(s, keep) == s
  {
    if s != [] {
      FilterKeepsAll(s[1..], keep);
    }
  }

  /** A filter that keeps nothing returns the empty sequence. */
  lemma {:induction false} FilterDropsAll<T>(s: seq<T>, keep: T -> bool)
    requires forall i :: 0 <= i < |s| ==> !keep(s[i])
    ensures Filter(s, keep) == []
  {
    if s != [] {
      FilterDropsAll(s[1..], keep);
    }
  }

  /** The filter's first element is the first match, and the filter is empty exactly when nothing matches. */
  lemma {:induction false} FilterHeadIsFirstMatch<T>(s: seq<T>, keep: T -> bool)
    ensures Filter(s, keep) == [] <==> IndexWhere(s, keep) == -1
    ensures IndexWhere(s, keep) >= 0 ==> Filter(s, keep)[0] == s[IndexWhere(s, keep)]
  {
    if s != [] && !keep(s[0]) {
      FilterHeadIsFirstMatch(s[1..], keep);
    }
  }

  /** Two tests that agree on every element select the same elements. */
  lemma {:induction false} FilterSameOn<T>(s: seq<T>, p: T -> bool, q: T -> bool)
    requires forall i :: 0 <= i < |s| ==> p(s[i]) == q(s[i])
    ensures Filter(s, p) == Filter(s, q)
  {
    if s != [] {
      FilterSameOn(s[1..], p, q);
    }
  }

  /** `s.filter(keep).length`. */
  function Count<T>(s: seq<T>, keep: T -> bool): (n: nat)
    ensures n <= |s|
    ensures n == 0 <==> forall i :: 0 <= i < |s| ==> !keep(s[i])
  {
    if s == [] then 0
    else (if keep(s[0]) then 1 else 0) + Count(s[1..], keep)
  }

  /** The count is the length of the filtered sequence. */
  lemma {:induction false} CountIsFilterLength<T>(s: seq<T>, keep: T -> bool)
    ensures Count(s, keep) == |Filter(s, keep)|
  {
    if s != [] {
      CountIsFilterLength(s[1..], keep);
    }
  }

  /** Counting distributes over concatenation. */
  lemma {:induction false} CountConcat<T>(a: seq<T>, b: seq<T>, keep: T -> bool)
    ensures Count(a + b, keep) == Count(a, keep) + Count(b, keep)
  {
    if a == [] {
      assert a + b == b;
    } else {
      assert (a + b)[1..] == a[1..] + b;
      CountConcat(a[1..], b, keep);
    }
  }

  /** Counting over a sequence extended by one element. */
  lemma {:induction false} CountSnoc<T>(s: seq<T>, x: T, keep: T -> bool)
    ensures Count(s + [x], keep) == Count(s, keep) + (if keep(x) then 1 else 0)
  {
    if s == [] {
      assert s + [x] == [x];
    } else {
      assert (s + [x])[1..] == s[1..] + [x];
      CountSnoc(s[1..], x, keep);
    }
  }

  /** Counting over a prefix one element longer. */
  lemma CountPrefix<T>(s: seq<T>, i: int, keep: T -> bool)
    requires 0 <= i < |s|
    ensures Count(s[..i + 1], keep) == Count(s[..i], keep) + (if keep(s[i]) then 1 else 0)
  {
    assert s[..i + 1] == s[..i] + [s[i]];
    CountSnoc(s[..i], s[i], keep);
  }

  /** A count reaches the length exactly when every element passes. */
  lemma {:induction false} CountAll<T>(s: seq<T>, keep: T -> bool)
    ensures Count(s, keep) == |s| <==> forall i :: 0 <= i < |s| ==> keep(s[i])
  {
    if s != [] {
      CountAll(s[1..], keep);
      if keep(s[0]) {
        assert forall i :: 1 <= i < |s| ==> s[i] == s[1..][i - 1];
      }
    }
  }

  /** `s.reduce((sum, x) => sum + f(x), 0)`. */
  function Sum<T>(s: seq<T>, f: T -> int): int
  {
    if s == [] then 0 else f(s[0]) + Sum(s[1..], f)
  }

  /** A sum over a concatenation is the sum of the two sums. */
  lemma {:induction false} SumConcat<T>(a: seq<T>, b: seq<T>, f: T -> int)
    ensures Sum(a + b, f) == Sum(a, f) + Sum(b, f)
  {
    if a == [] {
      assert a + b == b;
    } else {
      assert (a + b)[0] == a[0];
      assert (a + b)[1..] == a[1..] + b;
      SumConcat(a[1..], b, f);
    }
  }

  /** Replacing one element changes the sum by the difference of the two terms. */
  lemma {:induction false} SumUpdate<T>(s: seq<T>, k: int, x: T, f: T -> int)
    requires 0 <= k < |s|
    ensures Sum(s[k := x], f) == Sum(s, f) - f(s[k]) + f(x)
  {
    if k == 0 {
      assert s[k := x][1..] == s[1..];
    } else {
      assert s[k := x][1..] == s[1..][k - 1 := x];
      SumUpdate(s[1..], k - 1, x, f);
    }
  }

  /** The sum of a one-element sequence is its one term. */
  lemma SumSingleton<T>(x: T, f: T -> int)
    ensures Sum([x], f) == f(x)
  {
    assert [x][1..] == [];
  }

  /** Terms that are all non-negative have a non-negative sum. */
  lemma {:induction false} SumNonNegative<T>(s: seq<T>, f: T -> int)
    requires forall i :: 0 <= i < |s| ==> f(s[i]) >= 0
    ensures Sum(s, f) >= 0
  {
    if s != [] {
      SumNonNegative(s[1..], f);
    }
  }

  /** `s.findIndex(p)`: the first position whose element satisfies `p`, or -1. */
  function IndexWhere<T>(s: seq<T>, p: T -> bool): (r: int)
    ensures -1 <= r < |s|
    ensures r == -1 <==> forall i :: 0 <= i < |s| ==> !p(s[i])
    ensures r >= 0 ==> p(s[r]) && forall j :: 0 <= j < r ==> !p(s[j])
  {
    if s == [] then -1
    else if p(s[0]) then 0
    else
      var k := IndexWhere(s[1..], p);
      if k == -1 then -1 else k + 1
  }

  /** A position whose element is the first to satisfy `p` is what `findIndex` returns. */
  lemma IndexWhereAt<T>(s: seq<T>, p: T -> bool, k: int)
    requires 0 <= k < |s| && p(s[k])
    requires forall j :: 0 <= j < k ==> !p(s[j])
    ensures IndexWhere(s, p) == k
  {
    var r := IndexWhere(s, p);
    assert r != -1;
  }

  /** `s.find(p)`: the first element that satisfies `p`, or nothing. */
  function FindWhere<T>(s: seq<T>, p: T -> bool): (r: Option<T>)
    ensures r.None? <==> forall i :: 0 <= i < |s| ==> !p(s[i])
    ensures r.Some? ==> exists k :: 0 <= k < |s| && s[k] == r.value && p(s[k]) &&
                                    forall j :: 0 <= j < k ==> !p(s[j])
  {
    var k := IndexWhere(s, p);
    if k == -1 then None else Some(s[k])
  }
}
