/** Python list comprehensions and `itertools.chain.from_iterable` over
    immutable sequences, with the facts the pool stages need: each operation
    distributes over concatenation (so it keeps input order) and its result,
    as a multiset, does not depend on the order of its input. */
module Seqs {
  import opened Common

  /** `[f(x) for x in xs]`. */
  function Map<T, U>(f: T -> U, xs: seq<T>): (r: seq<U>)
    ensures |r| == |xs|
    ensures forall i :: 0 <= i < |xs| ==> r[i] == f(xs[i])
  {
    if |xs| == 0 then [] else [f(xs[0])] + Map(f, xs[1..])
  }

  /** `[x for x in xs if p(x)]`. */
  function Filter<T>(p: T -> bool, xs: seq<T>): (r: seq<T>)
    ensures |r| <= |xs|
    ensures forall i :: 0 <= i < |r| ==> r[i] in xs && p(r[i])
  {
    if |xs| == 0 then [] else (if p(xs[0]) then [xs[0]] else []) + Filter(p, xs[1..])
  }

  /** `[x for x in xs if x is not None]`, unwrapped. */
  function Somes<T>(xs: seq<Option<T>>): (r: seq<T>)
    ensures |r| <= |xs|
    ensures forall i :: 0 <= i < |r| ==> Some(r[i]) in xs
  {
    if |xs| == 0 then []
    else (if xs[0].Some? then [xs[0].value] else []) + Somes(xs[1..])
  }

  /** `list(chain.from_iterable(ss))`: the lists joined end to end. */
  function Flatten<T>(ss: seq<seq<T>>): seq<T>
  {
    if |ss| == 0 then [] else ss[0] + Flatten(ss[1..])
  }

  lemma {:induction false} MapAppend<T, U>(f: T -> U, a: seq<T>, b: seq<T>)
    ensures Map(f, a + b) == Map(f, a) + Map(f, b)
  {
  }

  lemma {:induction false} FilterAppend<T>(p: T -> bool, a: seq<T>, b: seq<T>)
    ensures Filter(p, a + b) == Filter(p, a) + Filter(p, b)
    decreases |a|
  {
    if |a| == 0 {
      assert a + b == b;
    } else {
      var h := if p(a[0]) then [a[0]] else [];
      assert (a + b)[0] == a[0] && (a + b)[1..] == a[1..] + b;
      FilterAppend(p, a[1..], b);
      assert Filter(p, a + b) == h + (Filter(p, a[1..]) + Filter(p, b));
    }
  }

  lemma {:induction false} SomesAppend<T>(a: seq<Option<T>>, b: seq<Option<T>>)
    ensures Somes(a + b) == Somes(a) + Somes(b)
    decreases |a|
  {
    if |a| == 0 {
      assert a + b == b;
    } else {
      var h := if a[0].Some? then [a[0].value] else [];
      assert (a + b)[0] == a[0] && (a + b)[1..] == a[1..] + b;
      SomesAppend(a[1..], b);
      assert Somes(a + b) == h + (Somes(a[1..]) + Somes(b));
    }
  }

  lemma {:induction false} FlattenAppend<T>(a: seq<seq<T>>, b: seq<seq<T>>)
    ensures Flatten(a + b) == Flatten(a) + Flatten(b)
    decreases |a|
  {
    if |a| == 0 {
      assert a + b == b;
    } else {
      assert (a + b)[1..] == a[1..] + b;
      FlattenAppend(a[1..], b);
    }
  }

  /** Each element keeps its multiplicity when `p` holds of it and vanishes otherwise. */
  lemma {:induction false} FilterCount<T>(p: T -> bool, xs: seq<T>, x: T)
    ensures multiset(Filter(p, xs))[x] == if p(x) then multiset(xs)[x] else 0
    decreases |xs|
  {
    if |xs| != 0 {
      FilterCount(p, xs[1..], x);
      var h := if p(xs[0]) then [xs[0]] else [];
      assert xs == [xs[0]] + xs[1..];
      assert multiset(xs)[x] == multiset{xs[0]}[x] + multiset(xs[1..])[x];
      assert Filter(p, xs) == h + Filter(p, xs[1..]);
      assert multiset(Filter(p, xs))[x] == multiset(h)[x] + multiset(Filter(p, xs[1..]))[x];
    }
  }

  /** `Somes` keeps each `Some(x)` as `x`, as often as it occurs. */
  lemma {:induction false} SomesCount<T>(xs: seq<Option<T>>, x: T)
    ensures multiset(Somes(xs))[x] == multiset(xs)[Some(x)]
    decreases |xs|
  {
    if |xs| != 0 {
      SomesCount(xs[1..], x);
      var h := if xs[0].Some? then [xs[0].value] else [];
      assert xs == [xs[0]] + xs[1..];
      assert multiset(xs)[Some(x)] == multiset{xs[0]}[Some(x)] + multiset(xs[1..])[Some(x)];
      assert Somes(xs) == h + Somes(xs[1..]);
      assert multiset(Somes(xs))[x] == multiset(h)[x] + multiset(Somes(xs[1..]))[x];
    }
  }

  /** Filtering a reordered input gives a reordered output. */
  lemma FilterPermutation<T>(p: T -> bool, xs: seq<T>, ys: seq<T>)
    requires multiset(xs) == multiset(ys)
    ensures multiset(Filter(p, xs)) == multiset(Filter(p, ys))
  {
    forall x
      ensures multiset(Filter(p, xs))[x] == multiset(Filter(p, ys))[x]
    {
      FilterCount(p, xs, x);
      FilterCount(p, ys, x);
    }
  }

  /** Dropping the `None`s of a reordered input gives a reordered output. */
  lemma SomesPermutation<T>(xs: seq<Option<T>>, ys: seq<Option<T>>)
    requires multiset(xs) == multiset(ys)
    ensures multiset(Somes(xs)) == multiset(Somes(ys))
  {
    forall x
      ensures multiset(Somes(xs))[x] == multiset(Somes(ys))[x]
    {
      SomesCount(xs, x);
      SomesCount(ys, x);
    }
  }

  /** Membership in a filtered list: the element was there and passes. */
  lemma {:induction false} FilterMember<T>(p: T -> bool, xs: seq<T>, x: T)
    ensures x in Filter(p, xs) <==> x in xs && p(x)
    decreases |xs|
  {
    if |xs| != 0 {
      FilterMember(p, xs[1..], x);
      assert xs == [xs[0]] + xs[1..];
    }
  }

  /** Two tests that agree on every element of `xs` keep the same elements. */
  lemma {:induction false} FilterCongruent<T>(p: T -> bool, q: T -> bool, xs: seq<T>)
    requires forall i :: 0 <= i < |xs| ==> p(xs[i]) == q(xs[i])
    ensures Filter(p, xs) == Filter(q, xs)
    decreases |xs|
  {
    if |xs| != 0 {
      assert forall i :: 0 <= i < |xs[1..]| ==> xs[1..][i] == xs[i + 1];
      FilterCongruent(p, q, xs[1..]);
    }
  }

  /** Membership in the unwrapped list: the element was there as a `Some`. */
  lemma {:induction false} SomesMember<T>(xs: seq<Option<T>>, x: T)
    ensures x in Somes(xs) <==> Some(x) in xs
    decreases |xs|
  {
    if |xs| != 0 {
      SomesMember(xs[1..], x);
      assert xs == [xs[0]] + xs[1..];
    }
  }

  /** Membership in the joined list: the element is in one of the lists. */
  lemma {:induction false} FlattenMember<T>(ss: seq<seq<T>>, x: T)
    ensures x in Flatten(ss) <==> exists i :: 0 <= i < |ss| && x in ss[i]
    decreases |ss|
  {
    if |ss| != 0 {
      FlattenMember(ss[1..], x);
      if x in ss[0] {
        assert x in Flatten(ss);
      }
      if x in Flatten(ss[1..]) {
        var i :| 0 <= i < |ss[1..]| && x in ss[1..][i];
        assert x in ss[i + 1];
      }
      if i :| 0 <= i < |ss| && x in ss[i] {
        if i > 0 {
          assert x in ss[1..][i - 1];
        }
      }
    }
  }

  /** Membership in a mapped list: the image of an element of the input. */
  lemma MapMember<T, U>(f: T -> U, xs: seq<T>, x: T)
    requires x in xs
    ensures f(x) in Map(f, xs)
  {
    var i :| 0 <= i < |xs| && xs[i] == x;
    assert Map(f, xs)[i] == f(x);
  }

  /** Every element of a mapped list is the image of some element of the input. */
  lemma MapProvenance<T, U>(f: T -> U, xs: seq<T>, y: U)
    requires y in Map(f, xs)
    ensures exists j :: 0 <= j < |xs| && f(xs[j]) == y
  {
    var j :| 0 <= j < |Map(f, xs)| && Map(f, xs)[j] == y;
  }

  /** Removing the element at `j` removes one copy of it from the multiset. */
  lemma RemoveAt<T>(ys: seq<T>, j: int)
    requires 0 <= j < |ys|
    ensures ys == ys[..j] + [ys[j]] + ys[j + 1..]
    ensures multiset(ys[..j] + ys[j + 1..]) == multiset(ys) - multiset{ys[j]}
  {
    assert ys == ys[..j] + [ys[j]] + ys[j + 1..];
  }

  /** In a reordering of a non-empty list some position holds its head, and
      removing that position leaves a reordering of its tail. */
  lemma MatchHead<T>(xs: seq<T>, ys: seq<T>)
    requires |xs| != 0 && multiset(xs) == multiset(ys)
    ensures exists j :: 0 <= j < |ys| && ys[j] == xs[0] && multiset(xs[1..]) == multiset(ys[..j] + ys[j + 1..])
  {
    assert xs[0] in multiset(ys);
    var j :| 0 <= j < |ys| && ys[j] == xs[0];
    RemoveAt(ys, j);
    assert xs == [xs[0]] + xs[1..];
  }

  /** The mapped list, cut around the image of the element at `j`. */
  lemma MapSplitAt<T, U>(f: T -> U, ys: seq<T>, j: int)
    requires 0 <= j < |ys|
    ensures Map(f, ys) == Map(f, ys[..j]) + [f(ys[j])] + Map(f, ys[j + 1..])
  {
    RemoveAt(ys, j);
    MapAppend(f, ys[..j] + [ys[j]], ys[j + 1..]);
    MapAppend(f, ys[..j], [ys[j]]);
    assert Map(f, [ys[j]]) == [f(ys[j])];
  }

  /** Mapping after removing the element at `j` loses exactly its image. */
  lemma MapRemoveAt<T, U>(f: T -> U, ys: seq<T>, j: int)
    requires 0 <= j < |ys|
    ensures multiset(Map(f, ys)) == multiset(Map(f, ys[..j] + ys[j + 1..])) + multiset{f(ys[j])}
  {
    MapSplitAt(f, ys, j);
    MapAppend(f, ys[..j], ys[j + 1..]);
    MultisetMiddle(Map(f, ys[..j]), [f(ys[j])], Map(f, ys[j + 1..]));
  }

  /** When `x` is the only input `f` sends to `y`, the mapped list holds `y`
      exactly as often as the input holds `x`. */
  lemma {:induction false} MapCountPreimage<T, U>(f: T -> U, xs: seq<T>, x: T, y: U)
    requires forall t :: f(t) == y <==> t == x
    ensures multiset(Map(f, xs))[y] == multiset(xs)[x]
    decreases |xs|
  {
    if |xs| != 0 {
      MapCountPreimage(f, xs[1..], x, y);
      MapCons(f, xs);
      assert xs == [xs[0]] + xs[1..];
      assert multiset(xs) == multiset{xs[0]} + multiset(xs[1..]);
    }
  }

  /** Mapping a non-empty list gives the image of its head plus the mapped tail. */
  lemma MapCons<T, U>(f: T -> U, xs: seq<T>)
    requires |xs| != 0
    ensures multiset(Map(f, xs)) == multiset{f(xs[0])} + multiset(Map(f, xs[1..]))
  {
    assert Map(f, xs) == [f(xs[0])] + Map(f, xs[1..]);
  }

  /** Adding the same elements to equal multisets gives equal multisets. */
  lemma SameAfterAdding<U>(a: multiset<U>, b: multiset<U>, c: multiset<U>, d: multiset<U>, e: multiset<U>)
    requires a == e + c && b == d + e && c == d
    ensures a == b
  {
  }

  /** Mapping a reordered input gives a reordered output. */
  lemma {:induction false} MapPermutation<T, U>(f: T -> U, xs: seq<T>, ys: seq<T>)
    requires multiset(xs) == multiset(ys)
    ensures multiset(Map(f, xs)) == multiset(Map(f, ys))
    decreases |xs|
  {
    if |xs| == 0 {
      assert |ys| == |multiset(ys)| == 0;
    } else {
      var x := xs[0];
      MatchHead(xs, ys);
      var j :| 0 <= j < |ys| && ys[j] == x && multiset(xs[1..]) == multiset(ys[..j] + ys[j + 1..]);
      var rest := ys[..j] + ys[j + 1..];
      MapPermutation(f, xs[1..], rest);
      MapRemoveAt(f, ys, j);
      MapCons(f, xs);
      SameAfterAdding(multiset(Map(f, xs)), multiset(Map(f, ys)), multiset(Map(f, xs[1..])), multiset(Map(f, rest)), multiset{f(x)});
    }
  }

  /** The joined list, cut around the list at `j`. */
  lemma FlattenSplitAt<T>(ts: seq<seq<T>>, j: int)
    requires 0 <= j < |ts|
    ensures Flatten(ts) == Flatten(ts[..j]) + ts[j] + Flatten(ts[j + 1..])
  {
    RemoveAt(ts, j);
    FlattenAppend(ts[..j] + [ts[j]], ts[j + 1..]);
    FlattenAppend(ts[..j], [ts[j]]);
    assert Flatten([ts[j]]) == ts[j];
  }

  /** Taking out a middle part of a list takes its elements out of the multiset. */
  lemma MultisetMiddle<T>(a: seq<T>, b: seq<T>, c: seq<T>)
    ensures multiset(a + b + c) == multiset(a + c) + multiset(b)
  {
  }

  /** Joining after removing the list at `j` loses exactly that list's elements. */
  lemma FlattenRemoveAt<T>(ts: seq<seq<T>>, j: int)
    requires 0 <= j < |ts|
    ensures multiset(Flatten(ts)) == multiset(Flatten(ts[..j] + ts[j + 1..])) + multiset(ts[j])
  {
    FlattenSplitAt(ts, j);
    FlattenAppend(ts[..j], ts[j + 1..]);
    MultisetMiddle(Flatten(ts[..j]), ts[j], Flatten(ts[j + 1..]));
  }

  /** Joining reordered lists gives the same elements: the flattened result of
      an unordered pool does not depend on the order the workers finished in. */
  lemma {:induction false} FlattenPermutation<T>(ss: seq<seq<T>>, ts: seq<seq<T>>)
    requires multiset(ss) == multiset(ts)
    ensures multiset(Flatten(ss)) == multiset(Flatten(ts))
    decreases |ss|
  {
    if |ss| == 0 {
      assert |ts| == |multiset(ts)| == 0;
    } else {
      var x := ss[0];
      MatchHead(ss, ts);
      var j :| 0 <= j < |ts| && ts[j] == x && multiset(ss[1..]) == multiset(ts[..j] + ts[j + 1..]);
      var rest := ts[..j] + ts[j + 1..];
      FlattenPermutation(ss[1..], rest);
      FlattenRemoveAt(ts, j);
      assert Flatten(ss) == x + Flatten(ss[1..]);
      SameAfterAdding(multiset(Flatten(ss)), multiset(Flatten(ts)), multiset(Flatten(ss[1..])), multiset(Flatten(rest)), multiset(x));
    }
  }
}
