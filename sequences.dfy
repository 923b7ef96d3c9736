/** Order-preserving filtering of sequences, the shape shared by the two
    "erase" helpers and by request removal in the IPC queue. */
module Sequences {

  /** The elements of `s` that satisfy `keep`, in their original order. */
  function Filter<T>(s: seq<T>, keep: T -> bool): (r: seq<T>)
    ensures |r| <= |s|
  {
    if s == [] then []
    else Filter(s[..|s| - 1], keep) + (if keep(s[|s| - 1]) then [s[|s| - 1]] else [])
  }

  /** Filtering distributes over concatenation: the kept elements of `a`
      come before the kept elements of `b`, each group in its own order. */
  lemma {:induction false} FilterConcat<T>(a: seq<T>, b: seq<T>, keep: T -> bool)
    ensures Filter(a + b, keep) == Filter(a, keep) + Filter(b, keep)
  {
    if b == [] {
      assert a + b == a;
    } else {
      var b' := b[..|b| - 1];
      assert (a + b)[..|a + b| - 1] == a + b';
      FilterConcat(a, b', keep);
    }
  }

  /** An element is kept exactly when it occurs in the input and satisfies `keep`. */
  lemma {:induction false} FilterMembership<T>(s: seq<T>, keep: T -> bool, x: T)
    ensures x in Filter(s, keep) <==> x in s && keep(x)
  {
    if s != [] {
      var s' := s[..|s| - 1];
      assert s == s' + [s[|s| - 1]];
      FilterMembership(s', keep, x);
    }
  }

  /** Every element of the result satisfies `keep`. */
  lemma {:induction false} FilterAllKept<T>(s: seq<T>, keep: T -> bool)
    ensures forall i :: 0 <= i < |Filter(s, keep)| ==> keep(Filter(s, keep)[i])
  {
    if s != [] {
      FilterAllKept(s[..|s| - 1], keep);
    }
  }

  /** When every element is kept, the result is the input. */
  lemma {:induction false} FilterEverything<T>(s: seq<T>, keep: T -> bool)
    requires forall i :: 0 <= i < |s| ==> keep(s[i])
    ensures Filter(s, keep) == s
  {
    if s != [] {
      FilterEverything(s[..|s| - 1], keep);
      assert s[..|s| - 1] + [s[|s| - 1]] == s;
    }
  }

  /** Filtering by `f` and then by a stronger `g` is filtering by `g` alone;
      with `g == f` this is idempotence. */
  lemma {:induction false} FilterFilter<T>(s: seq<T>, f: T -> bool, g: T -> bool)
    requires forall x :: g(x) ==> f(x)
    ensures Filter(Filter(s, f), g) == Filter(s, g)
  {
    if s != [] {
      var s' := s[..|s| - 1];
      var x := s[|s| - 1];
      FilterFilter(s', f, g);
      FilterConcat(Filter(s', f), if f(x) then [x] else [], g);
      assert Filter([x], g) == Filter([], g) + (if g(x) then [x] else []) by {
        assert [x][..0] == [];
      }
    }
  }

  /** Applying a filter twice is the same as applying it once. */
  lemma FilterIdempotent<T>(s: seq<T>, keep: T -> bool)
    ensures Filter(Filter(s, keep), keep) == Filter(s, keep)
  {
    FilterFilter(s, keep, keep);
  }

  /** When no element is kept, the result is empty. */
  lemma {:induction false} FilterNone<T>(s: seq<T>, keep: T -> bool)
    requires forall i :: 0 <= i < |s| ==> !keep(s[i])
    ensures Filter(s, keep) == []
  {
    if s != [] {
      FilterNone(s[..|s| - 1], keep);
    }
  }
}
