/** Sequence vocabulary shared by every component.  All recursions peel the
    last element, so they unfold along with left folds and append loops. */
module Sequences {

  datatype Option<+T> = None | Some(value: T)

  datatype Result<+T, +E> = Ok(value: T) | Err(error: E)

  function Last<T>(xs: seq<T>): T
    requires |xs| > 0
  {
    xs[|xs| - 1]
  }

  function Init<T>(xs: seq<T>): seq<T>
    requires |xs| > 0
  {
    xs[..|xs| - 1]
  }

  /** The elements of `xs` that satisfy `p`, in order. */
  function Filter<T>(xs: seq<T>, p: T -> bool): seq<T> {
    if |xs| == 0 then []
    else Filter(Init(xs), p) + if p(Last(xs)) then [Last(xs)] else []
  }

  function Map<T, U>(xs: seq<T>, f: T -> U): (r: seq<U>)
    ensures |r| == |xs|
    ensures forall i :: 0 <= i < |xs| ==> r[i] == f(xs[i])
  {
    if |xs| == 0 then [] else Map(Init(xs), f) + [f(Last(xs))]
  }

  function Range(n: nat): (r: seq<nat>)
    ensures |r| == n
    ensures forall i :: 0 <= i < n ==> r[i] == i
  {
    if n == 0 then [] else Range(n - 1) + [n - 1]
  }

  function Sum(xs: seq<int>): int {
    if |xs| == 0 then 0 else Sum(Init(xs)) + Last(xs)
  }

  ghost predicate Distinct<T>(xs: seq<T>) {
    forall i, j :: 0 <= i < j < |xs| ==> xs[i] != xs[j]
  }

  ghost predicate Ascending(xs: seq<int>) {
    forall i, j :: 0 <= i < j < |xs| ==> xs[i] <= xs[j]
  }

  /** `p` lists every index below `n` exactly once. */
  ghost predicate IsPermutation(p: seq<nat>, n: nat) {
    && |p| == n
    && (forall i :: 0 <= i < n ==> p[i] < n)
    && Distinct(p)
  }

  lemma InitAppend<T>(xs: seq<T>, x: T)
    ensures Init(xs + [x]) == xs && Last(xs + [x]) == x
  {
  }

  lemma InitLast<T>(xs: seq<T>)
    requires |xs| > 0
    ensures xs == Init(xs) + [Last(xs)]
  {
  }

  lemma {:induction false} FilterAppend<T>(xs: seq<T>, ys: seq<T>, p: T -> bool)
    ensures Filter(xs + ys, p) == Filter(xs, p) + Filter(ys, p)
  {
    if |ys| == 0 {
      assert xs + ys == xs;
    } else {
      FilterAppend(xs, Init(ys), p);
      assert Init(xs + ys) == xs + Init(ys);
    }
  }

  lemma FilterOne<T>(x: T, p: T -> bool)
    ensures Filter([x], p) == if p(x) then [x] else []
  {
    InitAppend([], x);
  }

  lemma {:induction false} FilterMember<T>(xs: seq<T>, p: T -> bool, x: T)
    ensures x in Filter(xs, p) <==> x in xs && p(x)
  {
    if |xs| > 0 {
      FilterMember(Init(xs), p, x);
      InitLast(xs);
    }
  }

  lemma {:induction false} FilterAll<T>(xs: seq<T>, p: T -> bool)
    requires forall x :: x in xs ==> p(x)
    ensures Filter(xs, p) == xs
  {
    if |xs| > 0 {
      FilterAll(Init(xs), p);
      InitLast(xs);
    }
  }

  lemma {:induction false} FilterNone<T>(xs: seq<T>, p: T -> bool)
    requires forall x :: x in xs ==> !p(x)
    ensures Filter(xs, p) == []
  {
    if |xs| > 0 {
      FilterNone(Init(xs), p);
    }
  }

  lemma {:induction false} FilterHead<T>(xs: seq<T>, p: T -> bool)
    requires |xs| > 0 && p(xs[0])
    ensures |Filter(xs, p)| > 0 && Filter(xs, p)[0] == xs[0]
  {
    if |xs| > 1 {
      FilterHead(Init(xs), p);
    }
  }

  lemma {:induction false} FilterAgree<T>(xs: seq<T>, p: T -> bool, q: T -> bool)
    requires forall x :: x in xs ==> p(x) == q(x)
    ensures Filter(xs, p) == Filter(xs, q)
  {
    if |xs| > 0 {
      FilterAgree(Init(xs), p, q);
    }
  }

  function Both<T>(p: T -> bool, q: T -> bool): T -> bool {
    x => p(x) && q(x)
  }

  lemma {:induction false} FilterFilter<T>(xs: seq<T>, p: T -> bool, q: T -> bool)
    ensures Filter(Filter(xs, p), q) == Filter(xs, Both(p, q))
  {
    if |xs| > 0 {
      FilterFilter(Init(xs), p, q);
      FilterAppend(Filter(Init(xs), p), if p(Last(xs)) then [Last(xs)] else [], q);
    }
  }

  lemma {:induction false} FilterMap<T, U>(xs: seq<T>, f: T -> U, p: T -> bool, q: U -> bool)
    requires forall x :: x in xs ==> p(x) == q(f(x))
    ensures Filter(Map(xs, f), q) == Map(Filter(xs, p), f)
  {
    if |xs| > 0 {
      FilterMap(Init(xs), f, p, q);
      InitAppend(Map(Init(xs), f), f(Last(xs)));
      var kept := Filter(Init(xs), p);
      assert Filter(xs, p) == if p(Last(xs)) then kept + [Last(xs)] else kept;
      InitAppend(kept, Last(xs));
    }
  }

  lemma MapEmpty<T, U>(f: T -> U)
    ensures Map([], f) == []
  {
  }

  lemma MapAppend<T, U>(xs: seq<T>, x: T, f: T -> U)
    ensures Map(xs + [x], f) == Map(xs, f) + [f(x)]
  {
    InitAppend(xs, x);
  }

  lemma {:induction false} MapConcat<T, U>(xs: seq<T>, ys: seq<T>, f: T -> U)
    ensures Map(xs + ys, f) == Map(xs, f) + Map(ys, f)
  {
  }

  lemma {:induction false} MapMap<T, U, V>(xs: seq<T>, f: T -> U, g: U -> V)
    ensures Map(Map(xs, f), g) == Map(xs, x => g(f(x)))
  {
  }

  lemma {:induction false} SumAppend(xs: seq<int>, ys: seq<int>)
    ensures Sum(xs + ys) == Sum(xs) + Sum(ys)
  {
    if |ys| == 0 {
      assert xs + ys == xs;
    } else {
      SumAppend(xs, Init(ys));
      assert Init(xs + ys) == xs + Init(ys);
    }
  }

  lemma SumUpdate(xs: seq<int>, i: nat, x: int)
    requires i < |xs|
    ensures Sum(xs[i := x]) == Sum(xs) - xs[i] + x
  {
    var before, after := xs[..i], xs[i + 1..];
    assert xs == before + [xs[i]] + after && xs[i := x] == before + [x] + after;
    SumAppend(before + [xs[i]], after);
    SumAppend(before + [x], after);
    SumAppend(before, [xs[i]]);
    SumAppend(before, [x]);
    assert Sum([x]) == x && Sum([xs[i]]) == xs[i];
  }

  ghost function Elements<T>(xs: seq<T>): set<T> {
    set x | x in xs
  }

  /** The elements of a duplicate-free sequence form a set of the same size. */
  lemma {:induction false} DistinctSize<T>(xs: seq<T>)
    requires Distinct(xs)
    ensures |Elements(xs)| == |xs|
  {
    if |xs| == 0 {
      assert Elements(xs) == {};
    } else {
      DistinctSize(Init(xs));
      InitLast(xs);
      assert Elements(xs) == Elements(Init(xs)) + {Last(xs)};
    }
  }

  /** A permutation reaches every index. */
  lemma PermutationOnto(p: seq<nat>, n: nat, k: nat)
    requires IsPermutation(p, n) && k < n
    ensures k in p
  {
    DistinctSize(p);
    DistinctSize(Range(n));
    forall x | x in Elements(p) ensures x in Elements(Range(n)) {
      assert Range(n)[x] == x;
    }
    SubsetOfSameSize(Elements(p), Elements(Range(n)));
    assert Range(n)[k] == k && k in Elements(Range(n));
  }

  ghost predicate Indexes(p: seq<nat>, n: nat) {
    forall i :: 0 <= i < |p| ==> p[i] < n
  }

  /** numpy fancy indexing: xs[p] */
  ghost function Gather<T>(xs: seq<T>, p: seq<nat>): (r: seq<T>)
    requires Indexes(p, |xs|)
    ensures |r| == |p| && forall i :: 0 <= i < |p| ==> r[i] == xs[p[i]]
  {
    seq(|p|, i requires 0 <= i < |p| => xs[p[i]])
  }

  /** Reading a list through a permutation of its indices keeps its contents. */
  lemma {:induction false} GatherContents<T>(xs: seq<T>, p: seq<nat>)
    requires IsPermutation(p, |xs|)
    ensures multiset(Gather(xs, p)) == multiset(xs)
    decreases |xs|
  {
    if |xs| == 0 {
      assert Gather(xs, p) == xs;
    } else {
      var n := |xs| - 1;
      PermutationOnto(p, |xs|, n);
      var i :| 0 <= i < |p| && p[i] == n;
      var a, b := p[..i], p[i + 1..];
      RemoveLargest(p, n, i);
      GatherContents(Init(xs), a + b);
      GatherSplit(xs, p, n, i);
    }
  }

  lemma GatherSplit<T>(xs: seq<T>, p: seq<nat>, n: nat, i: nat)
    requires |xs| == n + 1 && Indexes(p, n + 1) && i < |p| && p[i] == n && Indexes(p[..i] + p[i + 1..], n)
    ensures Indexes(p[..i] + p[i + 1..], |Init(xs)|)
    ensures multiset(Gather(xs, p)) == multiset(Gather(Init(xs), p[..i] + p[i + 1..])) + multiset{xs[n]}
    ensures multiset(xs) == multiset(Init(xs)) + multiset{xs[n]}
  {
    var rest := p[..i] + p[i + 1..];
    var whole, less := Gather(xs, p), Gather(Init(xs), rest);
    assert whole == whole[..i] + [xs[n]] + whole[i + 1..];
    forall a | 0 <= a < |rest| ensures less[a] == whole[if a < i then a else a + 1] {
      assert rest[a] == p[if a < i then a else a + 1];
    }
    assert less == whole[..i] + whole[i + 1..];
    InitLast(xs);
  }

  lemma RemoveLargest(p: seq<nat>, n: nat, i: nat)
    requires IsPermutation(p, n + 1) && i < |p| && p[i] == n
    ensures IsPermutation(p[..i] + p[i + 1..], n)
  {
    var rest := p[..i] + p[i + 1..];
    forall a | 0 <= a < |rest| ensures rest[a] == p[if a < i then a else a + 1] && rest[a] < n {
    }
  }

  method AnyOf<T>(s: set<T>) returns (x: T)
    requires s != {}
    ensures x in s
  {
    x :| x in s;
  }

  lemma SubsetSize<T>(a: set<T>, b: set<T>)
    requires a <= b
    ensures |a| <= |b|
    ensures |a| == |b| <==> a == b
  {
    assert b == a + (b - a);
    assert |b| == |a| + |b - a|;
  }

  lemma SubsetOfSameSize<T>(a: set<T>, b: set<T>)
    requires a <= b && |a| == |b|
    ensures a == b
  {
    assert b == a + (b - a);
    assert |b| == |a| + |b - a|;
  }

  function Take<T>(xs: seq<T>, n: nat): seq<T> {
    if |xs| <= n then xs else xs[..n]
  }

  /** The elements in the order of their first occurrence. */
  function Unique<T(==)>(xs: seq<T>): seq<T> {
    if |xs| == 0 then []
    else Unique(Init(xs)) + if Last(xs) in Init(xs) then [] else [Last(xs)]
  }

  lemma UniqueNext<T>(xs: seq<T>, x: T)
    ensures Unique(xs + [x]) == Unique(xs) + if x in Unique(xs) then [] else [x]
  {
    InitAppend(xs, x);
    UniqueIs(xs);
  }

  /** It has the same elements, each once. */
  lemma {:induction false} UniqueIs<T>(xs: seq<T>)
    ensures Distinct(Unique(xs)) && |Unique(xs)| <= |xs|
    ensures forall x :: x in Unique(xs) <==> x in xs
  {
    if |xs| > 0 {
      UniqueIs(Init(xs));
      InitLast(xs);
    }
  }
}
