/** Option and Result, and the few facts about filtering sequences that the model needs. */
module Prelude {

  datatype Option<+T> = None | Some(value: T)

  datatype Result<+T, +E> = Success(value: T) | Failure(error: E)

  function Optional<T>(o: Option<T>): seq<T> {
    if o.Some? then [o.value] else []
  }

  /** The defined images of xs under f, in order. */
  function FilterMap<T, U>(f: T -> Option<U>, xs: seq<T>): seq<U> {
    if xs == [] then [] else FilterMap(f, xs[..|xs| - 1]) + Optional(f(xs[|xs| - 1]))
  }

  /** The first element that satisfies p. */
  function First<T>(p: T -> bool, xs: seq<T>): (r: Option<T>)
    ensures r.None? <==> forall i :: 0 <= i < |xs| ==> !p(xs[i])
    ensures r.Some? ==> p(r.value)
    ensures r.Some? ==> exists i :: 0 <= i < |xs| && xs[i] == r.value && forall j :: 0 <= j < i ==> !p(xs[j])
  {
    if xs == [] then None
    else if p(xs[0]) then Some(xs[0])
    else
      var rest := First(p, xs[1..]);
      assert rest.Some? ==> exists i :: 0 <= i < |xs| && xs[i] == rest.value && forall j :: 0 <= j < i ==> !p(xs[j]) by {
        if rest.Some? {
          var k :| 0 <= k < |xs[1..]| && xs[1..][k] == rest.value && forall j :: 0 <= j < k ==> !p(xs[1..][j]);
          assert forall j :: 0 < j < k + 1 ==> xs[j] == xs[1..][j - 1];
          assert xs[k + 1] == rest.value;
        }
      }
      rest
  }

  function Map<T, U>(f: T -> U, xs: seq<T>): (ys: seq<U>)
    ensures |ys| == |xs|
    ensures forall i :: 0 <= i < |xs| ==> ys[i] == f(xs[i])
  {
    seq(|xs|, i requires 0 <= i < |xs| => f(xs[i]))
  }

  /** xs can be obtained from ys by deleting elements. */
  predicate Subsequence<T(==)>(xs: seq<T>, ys: seq<T>)
    decreases |ys|
  {
    xs == []
    || (ys != [] && (Subsequence(xs, ys[..|ys| - 1])
                     || (xs[|xs| - 1] == ys[|ys| - 1] && Subsequence(xs[..|xs| - 1], ys[..|ys| - 1]))))
  }

  predicate Distinct<T(==)>(xs: seq<T>) {
    forall i, j :: 0 <= i < j < |xs| ==> xs[i] != xs[j]
  }

  lemma MapSnoc<T, U>(f: T -> U, xs: seq<T>, k: nat)
    requires k < |xs|
    ensures Map(f, xs[..k + 1]) == Map(f, xs[..k]) + [f(xs[k])]
  {
  }

  lemma MapConcat<T, U>(f: T -> U, xs: seq<T>, ys: seq<T>)
    ensures Map(f, xs + ys) == Map(f, xs) + Map(f, ys)
  {
  }

  lemma FilterMapSnoc<T, U>(f: T -> Option<U>, xs: seq<T>, k: nat)
    requires k < |xs|
    ensures FilterMap(f, xs[..k + 1]) == FilterMap(f, xs[..k]) + Optional(f(xs[k]))
  {
    assert xs[..k + 1][..k] == xs[..k];
  }

  lemma {:induction false} FilterMapMember<T, U>(f: T -> Option<U>, xs: seq<T>, y: U)
    ensures y in FilterMap(f, xs) <==> exists i :: 0 <= i < |xs| && f(xs[i]) == Some(y)
  {
    if xs != [] {
      var n := |xs| - 1;
      FilterMapMember(f, xs[..n], y);
      if i :| 0 <= i < n && f(xs[..n][i]) == Some(y) {
        assert f(xs[i]) == Some(y);
      }
      if i :| 0 <= i < |xs| && f(xs[i]) == Some(y) {
        if i < n { assert f(xs[..n][i]) == Some(y); }
      }
    }
  }

  lemma {:induction false} FilterMapConcat<T, U>(f: T -> Option<U>, xs: seq<T>, ys: seq<T>)
    ensures FilterMap(f, xs + ys) == FilterMap(f, xs) + FilterMap(f, ys)
    decreases |ys|
  {
    if ys == [] {
      assert xs + ys == xs;
    } else {
      var n := |ys| - 1;
      assert (xs + ys)[..|xs + ys| - 1] == xs + ys[..n];
      FilterMapConcat(f, xs, ys[..n]);
    }
  }

  lemma {:induction false} FilterMapEqual<T, U>(f: T -> Option<U>, g: T -> Option<U>, xs: seq<T>)
    requires forall x :: x in xs ==> f(x) == g(x)
    ensures FilterMap(f, xs) == FilterMap(g, xs)
  {
    if xs != [] {
      FilterMapEqual(f, g, xs[..|xs| - 1]);
    }
  }

  lemma SubsequenceAppend<T>(xs: seq<T>, ys: seq<T>, o: Option<T>, z: T)
    requires Subsequence(xs, ys)
    requires o.Some? ==> o.value == z
    ensures Subsequence(xs + Optional(o), ys + [z])
    ensures Subsequence(xs, ys + [z])
  {
    assert (ys + [z])[..|ys|] == ys;
    assert (xs + [z])[..|xs|] == xs;
    assert xs + [] == xs;
  }

  /** Filtering keeps the order. */
  lemma {:induction false} FilterIsSubsequence<T>(f: T -> Option<T>, xs: seq<T>)
    requires forall x :: x in xs && f(x).Some? ==> f(x).value == x
    ensures Subsequence(FilterMap(f, xs), xs)
  {
    if xs != [] {
      var n := |xs| - 1;
      FilterIsSubsequence(f, xs[..n]);
      assert xs[n] in xs && xs == xs[..n] + [xs[n]];
      SubsequenceAppend(FilterMap(f, xs[..n]), xs[..n], f(xs[n]), xs[n]);
    }
  }

  /** A filter that lets more through keeps what a stricter one kept. */
  lemma {:induction false} FilterMonotone<T, U>(f: T -> Option<U>, g: T -> Option<U>, xs: seq<T>)
    requires forall x :: x in xs && f(x).Some? ==> g(x) == f(x)
    ensures Subsequence(FilterMap(f, xs), FilterMap(g, xs))
  {
    if xs != [] {
      var n := |xs| - 1;
      FilterMonotone(f, g, xs[..n]);
      assert xs[n] in xs;
      var fs, gs := FilterMap(f, xs[..n]), FilterMap(g, xs[..n]);
      if g(xs[n]).Some? {
        SubsequenceAppend(fs, gs, f(xs[n]), g(xs[n]).value);
      } else {
        assert FilterMap(f, xs) == fs && FilterMap(g, xs) == gs;
      }
    }
  }

  lemma {:induction false} FilterMapCompose<T, U, V>(f: T -> Option<U>, h: U -> V, g: T -> Option<V>, xs: seq<T>)
    requires forall x :: x in xs ==> g(x) == if f(x).Some? then Some(h(f(x).value)) else None
    ensures FilterMap(g, xs) == Map(h, FilterMap(f, xs))
  {
    if xs != [] {
      FilterMapCompose(f, h, g, xs[..|xs| - 1]);
    }
  }

  lemma {:induction false} SubsequenceMembers<T>(xs: seq<T>, ys: seq<T>)
    requires Subsequence(xs, ys)
    ensures |xs| <= |ys|
    ensures forall x :: x in xs ==> x in ys
    decreases |ys|
  {
    if xs != [] {
      var n, m := |xs| - 1, |ys| - 1;
      if Subsequence(xs, ys[..m]) {
        SubsequenceMembers(xs, ys[..m]);
      } else {
        SubsequenceMembers(xs[..n], ys[..m]);
        assert ys[m] in ys && xs == xs[..n] + [ys[m]];
      }
    }
  }

  lemma FilterMultiset<T>(f: T -> Option<T>, xs: seq<T>)
    requires xs != []
    ensures var n := |xs| - 1;
      multiset(FilterMap(f, xs)) == multiset(FilterMap(f, xs[..n])) + multiset(Optional(f(xs[n])))
  {
  }

  /** How many elements of xs f maps to y. */
  function Hits<T, U(==)>(f: T -> Option<U>, xs: seq<T>, y: U): nat {
    if xs == [] then 0 else Hits(f, xs[..|xs| - 1], y) + if f(xs[|xs| - 1]) == Some(y) then 1 else 0
  }

  lemma {:induction false} HitsAreCounted<T, U>(f: T -> Option<U>, xs: seq<T>, y: U)
    ensures multiset(FilterMap(f, xs))[y] == Hits(f, xs, y)
  {
    if xs != [] {
      HitsAreCounted(f, xs[..|xs| - 1], y);
    }
  }

  lemma {:induction false} HitsKept<T, U>(f: T -> Option<U>, g: T -> Option<U>, xs: seq<T>, y: U)
    requires forall x :: x in xs && f(x) == Some(y) ==> g(x) == Some(y)
    ensures Hits(f, xs, y) <= Hits(g, xs, y)
  {
    if xs != [] {
      HitsKept(f, g, xs[..|xs| - 1], y);
      assert xs[|xs| - 1] in xs;
    }
  }

  /** A filter that yields y wherever another does, and at i where the other does not, yields it more often. */
  lemma {:induction false} HitsGrow<T, U>(f: T -> Option<U>, g: T -> Option<U>, xs: seq<T>, y: U, i: nat)
    requires forall x :: x in xs && f(x) == Some(y) ==> g(x) == Some(y)
    requires i < |xs| && f(xs[i]) != Some(y) && g(xs[i]) == Some(y)
    ensures Hits(f, xs, y) < Hits(g, xs, y)
  {
    var n := |xs| - 1;
    assert xs[n] in xs;
    if i < n {
      assert xs[..n][i] == xs[i];
      HitsGrow(f, g, xs[..n], y, i);
    } else {
      HitsKept(f, g, xs[..n], y);
    }
  }

  lemma FiltersDiffer<T, U>(f: T -> Option<U>, g: T -> Option<U>, xs: seq<T>, y: U, i: nat)
    requires forall x :: x in xs && f(x) == Some(y) ==> g(x) == Some(y)
    requires i < |xs| && f(xs[i]) != Some(y) && g(xs[i]) == Some(y)
    ensures FilterMap(f, xs) != FilterMap(g, xs)
  {
    HitsGrow(f, g, xs, y, i);
    HitsAreCounted(f, xs, y);
    HitsAreCounted(g, xs, y);
  }

  lemma Regroup<T>(a: multiset<T>, b: multiset<T>, c: multiset<T>, x: multiset<T>, y: multiset<T>, z: multiset<T>)
    ensures (a + x) + (b + y) + (c + z) == (a + b + c) + (x + y + z)
  {
  }

  ghost predicate PassesOne<T>(f: T -> Option<T>, g: T -> Option<T>, h: T -> Option<T>, x: T) {
    multiset(Optional(f(x))) + multiset(Optional(g(x))) + multiset(Optional(h(x))) == multiset{x}
  }

  /** Three filters of which each element passes exactly one split the sequence. */
  lemma {:induction false} FiltersPartition<T>(f: T -> Option<T>, g: T -> Option<T>, h: T -> Option<T>, xs: seq<T>)
    requires forall x :: x in xs ==> PassesOne(f, g, h, x)
    ensures multiset(xs) == multiset(FilterMap(f, xs)) + multiset(FilterMap(g, xs)) + multiset(FilterMap(h, xs))
  {
    if xs != [] {
      var front, x := xs[..|xs| - 1], xs[|xs| - 1];
      assert xs == front + [x];
      assert forall y :: y in front ==> y in xs;
      FiltersPartition(f, g, h, front);
      var a, b, c := multiset(FilterMap(f, front)), multiset(FilterMap(g, front)), multiset(FilterMap(h, front));
      var u, v, w := multiset(Optional(f(x))), multiset(Optional(g(x))), multiset(Optional(h(x)));
      assert multiset(FilterMap(f, xs)) == a + u by { FilterMultiset(f, xs); }
      assert multiset(FilterMap(g, xs)) == b + v by { FilterMultiset(g, xs); }
      assert multiset(FilterMap(h, xs)) == c + w by { FilterMultiset(h, xs); }
      Regroup(a, b, c, u, v, w);
      assert u + v + w == multiset{x} by { assert x in xs && PassesOne(f, g, h, x); }
      assert multiset(xs) == (a + b + c) + (u + v + w);
    }
  }
}
