/** Generic list helpers: mapping a function over a list and keeping the `Some` results. */
module Lists {
  import opened Wrappers

  /** `[f(x) for x in xs]`. */
  function Map<A, B>(f: A -> B, xs: seq<A>): (ys: seq<B>)
    ensures |ys| == |xs|
    ensures forall k :: 0 <= k < |xs| ==> ys[k] == f(xs[k])
  {
    if xs == [] then [] else [f(xs[0])] + Map(f, xs[1..])
  }

  /** The list of one element for `Some(v)`, empty for `None`. */
  function Single<T>(o: Option<T>): (ys: seq<T>)
    ensures o.Some? ==> ys == [o.value]
    ensures o.None? ==> ys == []
  {
    match o
    case Some(v) => [v]
    case None => []
  }

  /** The values of the `Some` entries, in order. */
  function Somes<T>(xs: seq<Option<T>>): (ys: seq<T>)
    ensures |ys| <= |xs|
  {
    if xs == [] then [] else Single(xs[0]) + Somes(xs[1..])
  }

  /** Every kept value was a `Some` entry of the list. */
  lemma {:induction false} SomesFrom<T>(xs: seq<Option<T>>, v: T)
    requires v in Somes(xs)
    ensures Some(v) in xs
  {
    var rest := Somes(xs[1..]);
    if xs[0] != Some(v) {
      assert v in rest;
      SomesFrom(xs[1..], v);
    }
  }

  /** The value of every `Some` entry is kept. */
  lemma {:induction false} SomesHas<T>(xs: seq<Option<T>>, v: T)
    requires Some(v) in xs
    ensures v in Somes(xs)
  {
    if xs[0] != Some(v) {
      assert Some(v) in xs[1..];
      SomesHas(xs[1..], v);
    }
  }

  /** Every kept value is `f` of some element. */
  lemma SomesOfMap<A, B>(f: A -> Option<B>, xs: seq<A>, v: B) returns (k: int)
    requires v in Somes(Map(f, xs))
    ensures 0 <= k < |xs| && f(xs[k]) == Some(v)
  {
    SomesFrom(Map(f, xs), v);
    k :| 0 <= k < |Map(f, xs)| && Map(f, xs)[k] == Some(v);
  }

  lemma {:induction false} MapAppend<A, B>(f: A -> B, a: seq<A>, b: seq<A>)
    ensures Map(f, a + b) == Map(f, a) + Map(f, b)
  {
    var l, r := Map(f, a + b), Map(f, a) + Map(f, b);
    assert |l| == |r|;
    forall k | 0 <= k < |l|
      ensures l[k] == r[k]
    {
      if k < |a| {
        assert (a + b)[k] == a[k];
      } else {
        assert (a + b)[k] == b[k - |a|];
      }
    }
  }

  lemma AppendAssoc<T>(a: seq<T>, b: seq<T>, c: seq<T>)
    ensures a + (b + c) == (a + b) + c
  {
  }

  lemma {:induction false} SomesAppend<T>(a: seq<Option<T>>, b: seq<Option<T>>)
    ensures Somes(a + b) == Somes(a) + Somes(b)
  {
    if a == [] {
      assert a + b == b;
    } else {
      assert (a + b)[1..] == a[1..] + b;
      SomesAppend(a[1..], b);
    }
  }

  /** One turn of a loop that keeps the `Some` results of `f` over `xs`. */
  lemma SomesMapStep<A, B>(f: A -> Option<B>, xs: seq<A>, i: int, done: seq<B>, y: Option<B>)
    requires 0 <= i < |xs|
    requires done + Somes(Map(f, xs[i..])) == Somes(Map(f, xs))
    requires y == f(xs[i])
    ensures (done + Single(y)) + Somes(Map(f, xs[i + 1..])) == Somes(Map(f, xs))
  {
    var here, rest := Map(f, xs[i..]), Map(f, xs[i + 1..]);
    assert here[0] == y;
    assert xs[i..][1..] == xs[i + 1..];
    assert here[1..] == rest;
    assert Somes(here) == Single(y) + Somes(rest);
    AppendAssoc(done, Single(y), Somes(rest));
  }

  /** Splits a list around one occurrence of `x`, keeping the rest's multiset. */
  lemma Remove<T>(q: seq<T>, x: T) returns (j: int)
    requires x in q
    ensures 0 <= j < |q| && q[j] == x
    ensures q == q[..j] + [x] + q[j + 1..]
    ensures multiset(q[..j] + q[j + 1..]) == multiset(q) - multiset{x}
  {
    j :| 0 <= j < |q| && q[j] == x;
    assert q == q[..j] + [x] + q[j + 1..];
  }

  /** Mapping a list is mapping it without one of its elements, plus that element's image. */
  lemma MapWithout<A, B>(f: A -> B, a: seq<A>, x: A, c: seq<A>)
    ensures multiset(Map(f, a + [x] + c)) == multiset(Map(f, a + c)) + multiset{f(x)}
  {
    MapAppend(f, a + [x], c);
    MapAppend(f, a, [x]);
    MapAppend(f, a, c);
    assert Map(f, [x]) == [f(x)];
  }

  /** The inductive step of MapPermutation: the first element of `p` sits between `a` and `c` in `q`. */
  lemma MapPermutationStep<A, B>(f: A -> B, p: seq<A>, a: seq<A>, x: A, c: seq<A>)
    requires p != [] && p[0] == x
    requires multiset(Map(f, p[1..])) == multiset(Map(f, a + c))
    ensures multiset(Map(f, p)) == multiset(Map(f, a + [x] + c))
  {
    MapWithout(f, a, x, c);
    assert Map(f, p) == [f(x)] + Map(f, p[1..]);
  }

  /** Mapping two orderings of the same elements gives two orderings of the same results. */
  lemma {:induction false} MapPermutation<A, B>(f: A -> B, p: seq<A>, q: seq<A>)
    requires multiset(p) == multiset(q)
    ensures multiset(Map(f, p)) == multiset(Map(f, q))
    decreases |p|
  {
    if p == [] {
      assert |q| == |multiset(q)| == 0;
    } else {
      var x := p[0];
      assert x in multiset(q);
      var j := Remove(q, x);
      var a, c := q[..j], q[j + 1..];
      assert multiset(a + c) == multiset(p[1..]) by {
        assert p == [x] + p[1..];
      }
      MapPermutation(f, p[1..], a + c);
      MapPermutationStep(f, p, a, x, c);
    }
  }

  /** Two orderings of the same options keep the same values. */
  lemma {:induction false} SomesPermutation<T>(p: seq<Option<T>>, q: seq<Option<T>>)
    requires multiset(p) == multiset(q)
    ensures multiset(Somes(p)) == multiset(Somes(q))
    decreases |p|
  {
    if p == [] {
      assert |q| == |multiset(q)| == 0;
    } else {
      var x := p[0];
      assert x in multiset(q);
      var j := Remove(q, x);
      var q' := q[..j] + q[j + 1..];
      assert p == [x] + p[1..];
      assert multiset(q') == multiset(p[1..]);
      SomesPermutation(p[1..], q');
      SomesAppend(q[..j] + [x], q[j + 1..]);
      SomesAppend(q[..j], [x]);
      SomesAppend(q[..j], q[j + 1..]);
    }
  }
}
