/** The three-slot "top CPU consumers" insertion of the monitor service and
    its reference meaning: after a cycle the slots hold the three largest
    positive entries of the cycle, largest first. The table is generic in
    what it holds and ranks by a `key`; the service's usage array is the
    instance ranked by the usages themselves (`Id`). */
module Ranking {
  import opened Sequences

  /** Usages rank as themselves. */
  function Id(u: int): int { u }

  /** The key of every entry of `t`, in order. */
  function Keys<T>(t: seq<T>, key: T -> int): (r: seq<int>)
    ensures |r| == |t|
    ensures forall j :: 0 <= j < |t| ==> r[j] == key(t[j])
  {
    seq(|t|, j requires 0 <= j < |t| => key(t[j]))
  }

  lemma KeysConcat<T>(a: seq<T>, b: seq<T>, key: T -> int)
    ensures Keys(a + b, key) == Keys(a, key) + Keys(b, key)
  {
  }

  /** The first slot whose key is strictly below `u`, or `|t|` when there is
      none (the `check` scan with its `<` comparison). */
  function FirstLess<T>(t: seq<T>, key: T -> int, u: int): (k: nat)
    ensures k <= |t|
    ensures forall j :: 0 <= j < k ==> u <= key(t[j])
    ensures k < |t| ==> key(t[k]) < u
  {
    if t == [] then 0 else if key(t[0]) < u then 0 else 1 + FirstLess(t[1..], key, u)
  }

  /** The scan sees only the keys: it stops at the same slot on a table as on
      its keys. */
  lemma FirstLessOfKeys<T>(t: seq<T>, key: T -> int, u: int)
    ensures FirstLess(Keys(t, key), Id, u) == FirstLess(t, key, u)
  {
  }

  /** Writes `x` into slot `k` after shifting slots `k..` down by one; slots
      before `k` keep their values and the old last slot is discarded. */
  function Displace<T>(t: seq<T>, k: nat, x: T): (r: seq<T>)
    requires k < |t|
    ensures |r| == |t|
    ensures forall j :: 0 <= j < k ==> r[j] == t[j]
    ensures r[k] == x
    ensures forall j :: k < j < |t| ==> r[j] == t[j - 1]
  {
    t[..k] + [x] + t[k..|t| - 1]
  }

  /** One entry `x` offered to the table `t`. */
  function InsertTop<T>(t: seq<T>, key: T -> int, x: T): (r: seq<T>)
    ensures |r| == |t|
  {
    var k := FirstLess(t, key, key(x));
    if k == |t| then t else Displace(t, k, x)
  }

  /** An insertion invents nothing: the table is unchanged or `x` entered it,
      and every entry afterwards was there before or is `x`. */
  lemma InsertTopMembers<T>(t: seq<T>, key: T -> int, x: T)
    ensures InsertTop(t, key, x) == t || x in InsertTop(t, key, x)
    ensures forall y :: y in InsertTop(t, key, x) ==> y in t || y == x
  {
    var k := FirstLess(t, key, key(x));
    if k < |t| {
      assert InsertTop(t, key, x) == t[..k] + [x] + t[k..|t| - 1];
    }
  }

  /** Largest first. */
  predicate Descending<T>(l: seq<T>, key: T -> int) {
    forall i, j :: 0 <= i < j < |l| ==> key(l[i]) >= key(l[j])
  }

  predicate NonNegative<T>(l: seq<T>, key: T -> int) {
    forall i :: 0 <= i < |l| ==> key(l[i]) >= 0
  }

  /** The entries that can occupy a slot of the cleared table. */
  function Positive<T>(key: T -> int): T -> bool {
    x => key(x) > 0
  }

  /** Insertion keeps the table sorted largest first and free of negative keys. */
  lemma InsertTopKeepsOrder<T>(t: seq<T>, key: T -> int, x: T)
    requires Descending(t, key) && NonNegative(t, key)
    ensures Descending(InsertTop(t, key, x), key) && NonNegative(InsertTop(t, key, x), key)
  {
    var u := key(x);
    var k := FirstLess(t, key, u);
    if k < |t| {
      var r := InsertTop(t, key, x);
      assert u > key(t[k]) >= 0;
      forall i, j | 0 <= i < j < |r| ensures key(r[i]) >= key(r[j]) {
        if j == k {
          assert key(r[i]) == key(t[i]) >= u;
        } else if i == k {
          assert key(r[j]) == key(t[j - 1]) <= key(t[k]) < u;
        }
      }
    }
  }

  /** An entry no larger than every slot (an exact tie included) leaves the
      table unchanged. */
  lemma InsertTopTieKeeps<T>(t: seq<T>, key: T -> int, x: T)
    requires forall j :: 0 <= j < |t| ==> key(x) <= key(t[j])
    ensures InsertTop(t, key, x) == t
  {
  }

  /** An entry occupies at most one slot: either the table is unchanged, or
      exactly the old last entry leaves it and `x` enters it. */
  lemma {:induction false} InsertTopReplacesOne<T>(t: seq<T>, key: T -> int, x: T)
    requires |t| > 0
    ensures InsertTop(t, key, x) == t ||
            multiset(InsertTop(t, key, x)) + multiset{t[|t| - 1]} == multiset(t) + multiset{x}
  {
    var k := FirstLess(t, key, key(x));
    if k < |t| {
      var n := |t|;
      assert t == t[..k] + t[k..n - 1] + [t[n - 1]];
      assert InsertTop(t, key, x) == t[..k] + [x] + t[k..n - 1];
    }
  }

  // ---- the reference: the three largest positive entries ----

  /** Stable insertion into a list sorted largest first: `x` goes before the
      first element strictly below it, hence after every equal element. */
  function InsertDesc<T>(l: seq<T>, key: T -> int, x: T): (r: seq<T>) {
    var k := FirstLess(l, key, key(x));
    l[..k] + [x] + l[k..]
  }

  /** Stable sort, largest first. */
  function SortDesc<T>(xs: seq<T>, key: T -> int): (r: seq<T>) {
    if xs == [] then [] else InsertDesc(SortDesc(xs[..|xs| - 1], key), key, xs[|xs| - 1])
  }

  /** Where each element of `InsertDesc(l, key, x)` comes from. */
  lemma InsertDescAt<T>(l: seq<T>, key: T -> int, x: T)
    ensures |InsertDesc(l, key, x)| == |l| + 1
    ensures forall j :: 0 <= j < FirstLess(l, key, key(x)) ==> InsertDesc(l, key, x)[j] == l[j]
    ensures InsertDesc(l, key, x)[FirstLess(l, key, key(x))] == x
    ensures forall j :: FirstLess(l, key, key(x)) < j <= |l| ==> InsertDesc(l, key, x)[j] == l[j - 1]
  {
  }

  /** Insertion adds exactly `x`. */
  lemma InsertDescPermutes<T>(l: seq<T>, key: T -> int, x: T)
    ensures multiset(InsertDesc(l, key, x)) == multiset(l) + multiset{x}
  {
    var k := FirstLess(l, key, key(x));
    assert l == l[..k] + l[k..];
  }

  lemma InsertDescSorted<T>(l: seq<T>, key: T -> int, x: T)
    requires Descending(l, key)
    ensures Descending(InsertDesc(l, key, x), key)
    ensures multiset(InsertDesc(l, key, x)) == multiset(l) + multiset{x}
  {
    InsertDescPermutes(l, key, x);
    var u := key(x);
    var k := FirstLess(l, key, u);
    var r := InsertDesc(l, key, x);
    InsertDescAt(l, key, x);
    forall i, j | 0 <= i < j < |r| ensures key(r[i]) >= key(r[j]) {
      if i < k {
        assert key(r[i]) == key(l[i]) >= u;
        if j > k { assert key(r[j]) == key(l[j - 1]) <= key(l[i]); }
      } else if i == k {
        assert key(r[j]) == key(l[j - 1]) <= key(l[k]) < u;
      } else {
        assert r[i] == l[i - 1] && r[j] == l[j - 1];
      }
    }
  }

  /** `SortDesc` sorts: its result is ordered largest first and is a
      permutation of its input. */
  lemma {:induction false} SortDescSorts<T>(xs: seq<T>, key: T -> int)
    ensures Descending(SortDesc(xs, key), key)
    ensures multiset(SortDesc(xs, key)) == multiset(xs)
  {
    if xs != [] {
      var xs' := xs[..|xs| - 1];
      SortDescSorts(xs', key);
      InsertDescSorted(SortDesc(xs', key), key, xs[|xs| - 1]);
      assert xs == xs' + [xs[|xs| - 1]];
    }
  }

  /** `SortDesc` is stable: on entries with one and the same key it keeps
      their order. */
  lemma {:induction false} SortDescEqualKeys<T>(xs: seq<T>, key: T -> int, c: int)
    requires forall i :: 0 <= i < |xs| ==> key(xs[i]) == c
    ensures SortDesc(xs, key) == xs
  {
    if xs != [] {
      var xs' := xs[..|xs| - 1];
      SortDescEqualKeys(xs', key, c);
      assert FirstLess(xs', key, key(xs[|xs| - 1])) == |xs'|;
      assert xs' + [xs[|xs| - 1]] == xs;
    }
  }

  /** The entries of key `c`. */
  function KeyIs<T>(key: T -> int, c: int): T -> bool {
    x => key(x) == c
  }

  /** Inserting into a sorted list puts `x` after every entry of its own key. */
  lemma InsertDescFilter<T>(l: seq<T>, key: T -> int, x: T, c: int)
    requires Descending(l, key)
    ensures Filter(InsertDesc(l, key, x), KeyIs(key, c)) == Filter(l, KeyIs(key, c)) + (if key(x) == c then [x] else [])
  {
    var f := KeyIs(key, c);
    var k := FirstLess(l, key, key(x));
    assert InsertDesc(l, key, x) == (l[..k] + [x]) + l[k..];
    assert l[..k] + l[k..] == l;
    FilterConcat(l[..k] + [x], l[k..], f);
    FilterConcat(l[..k], [x], f);
    FilterConcat(l[..k], l[k..], f);
    assert Filter([x], f) == (if f(x) then [x] else []) by {
      assert [x][..0] == [];
    }
    if key(x) == c {
      forall i | 0 <= i < |l[k..]| ensures !f(l[k..][i]) {
        assert key(l[k + i]) <= key(l[k]) < c;
      }
      FilterNone(l[k..], f);
    }
  }

  /** `SortDesc` is stable: the entries of any one key come out in the order
      they went in. */
  lemma {:induction false} SortDescStable<T>(xs: seq<T>, key: T -> int, c: int)
    ensures Filter(SortDesc(xs, key), KeyIs(key, c)) == Filter(xs, KeyIs(key, c))
  {
    if xs != [] {
      var xs' := xs[..|xs| - 1];
      SortDescStable(xs', key, c);
      SortDescSorts(xs', key);
      InsertDescFilter(SortDesc(xs', key), key, xs[|xs| - 1], c);
    }
  }

  /** The first three elements, padded with `pad`. */
  function Top3<T>(l: seq<T>, pad: T): (r: seq<T>)
    ensures |r| == 3
    ensures forall i :: 0 <= i < 3 ==> r[i] == if i < |l| then l[i] else pad
  {
    seq(3, i requires 0 <= i < 3 => if i < |l| then l[i] else pad)
  }

  /** Offering every entry of `xs`, in order, to the table `t`. */
  function RankAll<T>(t: seq<T>, key: T -> int, xs: seq<T>): (r: seq<T>)
    ensures |r| == |t|
  {
    if xs == [] then t else InsertTop(RankAll(t, key, xs[..|xs| - 1]), key, xs[|xs| - 1])
  }

  /** Every entry of a ranked table was in it before or was offered. */
  lemma {:induction false} RankAllMembers<T>(t: seq<T>, key: T -> int, xs: seq<T>)
    ensures forall y :: y in RankAll(t, key, xs) ==> y in t || y in xs
  {
    if xs != [] {
      var xs' := xs[..|xs| - 1];
      RankAllMembers(t, key, xs');
      InsertTopMembers(RankAll(t, key, xs'), key, xs[|xs| - 1]);
      assert forall y :: y in xs' ==> y in xs;
    }
  }

  /** Offering any sequence of entries keeps the table sorted largest first
      and free of negative keys. */
  lemma {:induction false} RankAllKeepsOrder<T>(t: seq<T>, key: T -> int, xs: seq<T>)
    requires Descending(t, key) && NonNegative(t, key)
    ensures Descending(RankAll(t, key, xs), key) && NonNegative(RankAll(t, key, xs), key)
  {
    if xs != [] {
      RankAllKeepsOrder(t, key, xs[..|xs| - 1]);
      InsertTopKeepsOrder(RankAll(t, key, xs[..|xs| - 1]), key, xs[|xs| - 1]);
    }
  }

  /** Ranking a concatenation is ranking one part after the other. */
  lemma {:induction false} RankAllConcat<T>(t: seq<T>, key: T -> int, a: seq<T>, b: seq<T>)
    ensures RankAll(t, key, a + b) == RankAll(RankAll(t, key, a), key, b)
  {
    if b == [] {
      assert a + b == a;
    } else {
      var b' := b[..|b| - 1];
      assert (a + b)[..|a + b| - 1] == a + b';
      RankAllConcat(t, key, a, b');
    }
  }

  /** The bounded three-slot insertion agrees with inserting into the full
      sorted list and keeping its first three elements. */
  lemma InsertTopOfTop3<T>(l: seq<T>, key: T -> int, pad: T, x: T)
    requires key(pad) == 0
    requires Descending(l, key)
    requires forall i :: 0 <= i < |l| ==> key(l[i]) > 0
    ensures InsertTop(Top3(l, pad), key, x) == if key(x) > 0 then Top3(InsertDesc(l, key, x), pad) else Top3(l, pad)
  {
    var u := key(x);
    var p := Top3(l, pad);
    var k := FirstLess(l, key, u);
    var kp := FirstLess(p, key, u);
    if u > 0 {
      assert kp == if k < 3 then k else 3 by {
        forall j | 0 <= j < 3 && j < k ensures u <= key(p[j]) {
          assert j < |l| && p[j] == l[j];
        }
        if k < 3 {
          assert key(p[k]) < u by {
            if k < |l| { assert p[k] == l[k]; } else { assert p[k] == pad; }
          }
        }
      }
      var ins := InsertDesc(l, key, x);
      InsertDescAt(l, key, x);
      if k < 3 {
        var r := InsertTop(p, key, x);
        var q := Top3(ins, pad);
        forall i | 0 <= i < 3 ensures r[i] == q[i] {
          if i < k {
            assert r[i] == p[i] == l[i] == ins[i];
          } else if i == k {
            assert r[i] == x == ins[i];
          } else {
            assert r[i] == p[i - 1];
          }
        }
      } else {
        forall i | 0 <= i < 3 ensures p[i] == Top3(ins, pad)[i] {
          assert i < |l| ==> ins[i] == l[i];
          assert i < |ins| && i >= |l| ==> false;
        }
      }
    } else {
      forall j | 0 <= j < 3 ensures u <= key(p[j]) {
        assert key(p[j]) >= 0;
      }
    }
  }

  /** Reference meaning of a cycle's ranking: starting from the cleared table,
      the slots end up holding the three largest positive entries, largest
      first and, among equal keys, in arrival order, padded with `pad`. */
  lemma {:induction false} RankAllIsTopThree<T>(key: T -> int, pad: T, xs: seq<T>)
    requires key(pad) == 0
    ensures RankAll([pad, pad, pad], key, xs) == Top3(SortDesc(Filter(xs, Positive(key)), key), pad)
  {
    if xs == [] {
      assert Top3([], pad) == [pad, pad, pad];
    } else {
      var xs' := xs[..|xs| - 1];
      var x := xs[|xs| - 1];
      RankAllIsTopThree(key, pad, xs');
      var p := Filter(xs', Positive(key));
      var l := SortDesc(p, key);
      SortDescSorts(p, key);
      FilterAllKept(xs', Positive(key));
      forall i | 0 <= i < |l| ensures key(l[i]) > 0 {
        assert l[i] in multiset(p);
        var j :| 0 <= j < |p| && p[j] == l[i];
        assert Positive(key)(p[j]);
      }
      InsertTopOfTop3(l, key, pad, x);
      if key(x) > 0 {
        assert Filter(xs, Positive(key)) == p + [x];
        assert (p + [x])[..|p|] == p;
      } else {
        assert Filter(xs, Positive(key)) == p;
      }
    }
  }
}
