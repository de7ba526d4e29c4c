/** The array primitives the handlers use: `find`/`findIndex`/`some` and `filter`. */
module Seqs {
  import opened Wrappers

  /** Index of the first element satisfying `p` (JavaScript's `findIndex`, with `None` for -1). */
  function FindIndex<T>(xs: seq<T>, p: T -> bool): (r: Option<nat>)
    ensures r.Some? ==> r.value < |xs| && p(xs[r.value])
    ensures r.Some? ==> forall j :: 0 <= j < r.value ==> !p(xs[j])
    ensures r.None? <==> forall j :: 0 <= j < |xs| ==> !p(xs[j])
  {
    if |xs| == 0 then None
    else if p(xs[0]) then Some(0)
    else
      match FindIndex(xs[1..], p)
      case None => None
      case Some(k) => Some(k + 1)
  }

  /** The elements satisfying `p`, in their original order (JavaScript's `filter`). */
  function Filter<T(==,!new)>(xs: seq<T>, p: T -> bool): (r: seq<T>)
    ensures |r| <= |xs|
    ensures forall i :: 0 <= i < |r| ==> p(r[i])
  {
    if |xs| == 0 then []
    else (if p(xs[0]) then [xs[0]] else []) + Filter(xs[1..], p)
  }

  /** Filtering keeps every element satisfying `p` as many times as it occurs, and nothing else. */
  lemma {:induction false} FilterCount<T(!new)>(xs: seq<T>, p: T -> bool)
    ensures forall x :: multiset(Filter(xs, p))[x] == if p(x) then multiset(xs)[x] else 0
    decreases |xs|
  {
    if |xs| > 0 {
      FilterCount(xs[1..], p);
      assert xs == [xs[0]] + xs[1..];
    }
  }

  /** Filtering distributes over concatenation: the relative order of kept elements is preserved. */
  lemma {:induction false} FilterConcat<T(!new)>(a: seq<T>, b: seq<T>, p: T -> bool)
    ensures Filter(a + b, p) == Filter(a, p) + Filter(b, p)
    decreases |a|
  {
    if |a| == 0 {
      assert a + b == b;
    } else {
      var head := if p(a[0]) then [a[0]] else [];
      assert (a + b)[0] == a[0];
      assert (a + b)[1..] == a[1..] + b;
      assert Filter(a + b, p) == head + Filter(a[1..] + b, p);
      assert Filter(a, p) == head + Filter(a[1..], p);
      FilterConcat(a[1..], b, p);
    }
  }

  /** A rejected element in front does not show up in the filtered sequence. */
  lemma {:induction false} FilterConsRejected<T(!new)>(x: T, b: seq<T>, p: T -> bool)
    requires !p(x)
    ensures Filter([x] + b, p) == Filter(b, p)
  {
    assert ([x] + b)[0] == x;
    assert ([x] + b)[1..] == b;
  }

  /** Overwriting an element that is rejected before and after leaves the filtered sequence unchanged. */
  lemma {:induction false} FilterUpdateRejected<T(!new)>(xs: seq<T>, i: nat, y: T, p: T -> bool)
    requires i < |xs| && !p(xs[i]) && !p(y)
    ensures Filter(xs[i := y], p) == Filter(xs, p)
  {
    var a, b := xs[..i], xs[i+1..];
    assert xs[i := y] == a + ([y] + b);
    assert xs == a + ([xs[i]] + b);
    FilterConsRejected(y, b, p);
    FilterConsRejected(xs[i], b, p);
    FilterConcat(a, [y] + b, p);
    FilterConcat(a, [xs[i]] + b, p);
  }

  /** Removing an element that is rejected leaves the filtered sequence unchanged. */
  lemma {:induction false} FilterRemoveRejected<T(!new)>(xs: seq<T>, i: nat, p: T -> bool)
    requires i < |xs| && !p(xs[i])
    ensures Filter(xs[..i] + xs[i+1..], p) == Filter(xs, p)
  {
    var a, b := xs[..i], xs[i+1..];
    calc {
      Filter(xs, p);
    == { assert xs == a + ([xs[i]] + b); }
      Filter(a + ([xs[i]] + b), p);
    == { FilterConcat(a, [xs[i]] + b, p); }
      Filter(a, p) + Filter([xs[i]] + b, p);
    == { FilterConsRejected(xs[i], b, p); }
      Filter(a, p) + Filter(b, p);
    == { FilterConcat(a, b, p); }
      Filter(a + b, p);
    }
  }
}
