/** The array operations the roadmap code is built from: `filter`, and
    `arrayMove` from the sortable drag-and-drop package (remove the element at
    `from`, insert it at `to`). */
module Seqs {

  /** `xs.filter(p)`: the elements satisfying `p`, in their original order. */
  function Filter<T>(xs: seq<T>, p: T -> bool): (r: seq<T>)
    ensures |r| <= |xs|
    ensures forall x :: x in r ==> x in xs && p(x)
  {
    if xs == [] then [] else (if p(xs[0]) then [xs[0]] else []) + Filter(xs[1..], p)
  }

  /** An element is kept exactly when it occurs and satisfies `p`. */
  lemma {:induction false} FilterMember<T>(xs: seq<T>, p: T -> bool, x: T)
    ensures x in Filter(xs, p) <==> x in xs && p(x)
  {
    if xs != [] {
      FilterMember(xs[1..], p, x);
      assert xs == [xs[0]] + xs[1..];
    }
  }

  /** Filtering distributes over concatenation: relative order is kept. */
  lemma {:induction false} FilterConcat<T>(a: seq<T>, b: seq<T>, p: T -> bool)
    ensures Filter(a + b, p) == Filter(a, p) + Filter(b, p)
  {
    if a == [] {
      assert a + b == b;
    } else {
      assert (a + b)[0] == a[0];
      assert (a + b)[1..] == a[1..] + b;
      FilterConcat(a[1..], b, p);
    }
  }

  /** A filter that keeps every element is the identity. */
  lemma {:induction false} FilterAllKept<T>(xs: seq<T>, p: T -> bool)
    requires forall x :: x in xs ==> p(x)
    ensures Filter(xs, p) == xs
  {
    if xs != [] {
      FilterAllKept(xs[1..], p);
    }
  }

  /** A filter that keeps no element gives the empty sequence. */
  lemma {:induction false} FilterNoneKept<T>(xs: seq<T>, p: T -> bool)
    requires forall x :: x in xs ==> !p(x)
    ensures Filter(xs, p) == []
  {
    if xs != [] {
      FilterNoneKept(xs[1..], p);
    }
  }

  /** Filtering twice is filtering by the conjunction. */
  lemma {:induction false} FilterFilter<T>(xs: seq<T>, p: T -> bool, q: T -> bool, pq: T -> bool)
    requires forall x :: pq(x) == (p(x) && q(x))
    ensures Filter(Filter(xs, p), q) == Filter(xs, pq)
  {
    if xs != [] {
      FilterFilter(xs[1..], p, q, pq);
      FilterConcat(if p(xs[0]) then [xs[0]] else [], Filter(xs[1..], p), q);
    }
  }

  /** Two filters with the same verdict on every element agree. */
  lemma {:induction false} FilterSameVerdict<T>(xs: seq<T>, p: T -> bool, q: T -> bool)
    requires forall x :: x in xs ==> p(x) == q(x)
    ensures Filter(xs, p) == Filter(xs, q)
  {
    if xs != [] {
      FilterSameVerdict(xs[1..], p, q);
    }
  }

  /** A filter and its complement split the multiset of the input. */
  lemma {:induction false} FilterSplitsMultiset<T>(xs: seq<T>, p: T -> bool, notP: T -> bool)
    requires forall x :: notP(x) == !p(x)
    ensures multiset(Filter(xs, p)) + multiset(Filter(xs, notP)) == multiset(xs)
  {
    if xs != [] {
      FilterSplitsMultiset(xs[1..], p, notP);
      HeadTail(xs);
      assert multiset(xs) == multiset{xs[0]} + multiset(xs[1..]);
    }
  }

  /** Replacing one element changes the filtered multiset by at most that
      element going out and the new one coming in. */
  lemma FilterUpdateMultiset<T>(xs: seq<T>, k: nat, v: T, p: T -> bool)
    requires k < |xs|
    ensures multiset(Filter(xs[k := v], p))
            == multiset(Filter(xs, p)) - (if p(xs[k]) then multiset{xs[k]} else multiset{})
               + (if p(v) then multiset{v} else multiset{})
  {
    var ys := xs[k := v];
    FilterAround(xs, k, p);
    FilterAround(ys, k, p);
    assert ys[..k] == xs[..k] && ys[k + 1..] == xs[k + 1..];
    FilterOne(xs[k], p);
    FilterOne(v, p);
    SwapMiddle(Filter(xs[..k], p), Filter([xs[k]], p), Filter([v], p), Filter(xs[k + 1..], p));
  }

  /** Exchanging the middle part exchanges its multiset. */
  lemma SwapMiddle<T>(a: seq<T>, m: seq<T>, m': seq<T>, b: seq<T>)
    ensures multiset(a + m' + b) == multiset(a + m + b) - multiset(m) + multiset(m')
  {
  }

  /** The filter of a non-empty sequence: its head if kept, then the filter
      of its tail. */
  lemma FilterCons<T>(xs: seq<T>, p: T -> bool)
    requires xs != []
    ensures multiset(Filter(xs, p)) == (if p(xs[0]) then multiset{xs[0]} else multiset{}) + multiset(Filter(xs[1..], p))
  {
  }

  /** Putting a rejected element at index `k` filters like removing it. */
  lemma FilterUpdateRejected<T>(xs: seq<T>, k: nat, v: T, p: T -> bool)
    requires k < |xs| && !p(v)
    ensures Filter(xs[k := v], p) == Filter(xs[..k] + xs[k + 1..], p)
  {
    var ys := xs[k := v];
    FilterAround(ys, k, p);
    assert ys[..k] == xs[..k] && ys[k + 1..] == xs[k + 1..];
    FilterOne(v, p);
    FilterConcat(xs[..k], xs[k + 1..], p);
  }

  /** Replacing the element at `k` swaps it in the multiset. */
  lemma UpdateMultiset<T>(xs: seq<T>, k: nat, v: T)
    requires k < |xs|
    ensures multiset(xs[k := v]) == multiset(xs) - multiset{xs[k]} + multiset{v}
  {
    var ys := xs[k := v];
    SplitAround(xs, k);
    SplitAround(ys, k);
    assert ys[..k] == xs[..k] && ys[k + 1..] == xs[k + 1..];
    SwapMiddle(xs[..k], [xs[k]], [v], xs[k + 1..]);
  }

  /** The filter of a one-element sequence. */
  lemma FilterOne<T>(x: T, p: T -> bool)
    ensures Filter([x], p) == if p(x) then [x] else []
  {
    assert [x][1..] == [];
  }

  /** The filter of a sequence is the filter of the part before index `k`,
      of the element at `k` and of the part after. */
  lemma FilterAround<T>(xs: seq<T>, k: nat, p: T -> bool)
    requires k < |xs|
    ensures Filter(xs, p) == Filter(xs[..k], p) + Filter([xs[k]], p) + Filter(xs[k + 1..], p)
  {
    SplitAround(xs, k);
    FilterConcat(xs[..k] + [xs[k]], xs[k + 1..], p);
    FilterConcat(xs[..k], [xs[k]], p);
  }

  /** When `p` rejects the element at `k` and keeps every other one, the
      filter drops exactly that element. */
  lemma {:induction false} FilterDropsIndex<T>(xs: seq<T>, k: nat, p: T -> bool)
    requires k < |xs| && !p(xs[k])
    requires forall i :: 0 <= i < |xs| && i != k ==> p(xs[i])
    ensures Filter(xs, p) == xs[..k] + xs[k + 1..]
    decreases |xs|
  {
    if k == 0 {
      FilterKeepsAllAt(xs[1..], p);
    } else {
      FilterDropsIndex(xs[1..], k - 1, p);
      assert Filter(xs, p) == [xs[0]] + Filter(xs[1..], p);
      DropInTail(xs, k);
    }
  }

  /** Dropping index `k` of `xs` is keeping the head and dropping index
      `k - 1` of the tail. */
  lemma DropInTail<T>(xs: seq<T>, k: nat)
    requires 0 < k < |xs|
    ensures [xs[0]] + (xs[1..][..k - 1] + xs[1..][k..]) == xs[..k] + xs[k + 1..]
  {
    assert xs[..k] == [xs[0]] + xs[1..][..k - 1];
    assert xs[k + 1..] == xs[1..][k..];
  }

  /** `FilterAllKept`, with the premise stated by index. */
  lemma {:induction false} FilterKeepsAllAt<T>(xs: seq<T>, p: T -> bool)
    requires forall i :: 0 <= i < |xs| ==> p(xs[i])
    ensures Filter(xs, p) == xs
  {
    if xs != [] {
      FilterKeepsAllAt(xs[1..], p);
    }
  }

  /** `xs.map(f)`. */
  function Map<A, B>(xs: seq<A>, f: A -> B): (r: seq<B>)
    ensures |r| == |xs|
    ensures forall i :: 0 <= i < |xs| ==> r[i] == f(xs[i])
  {
    if xs == [] then [] else [f(xs[0])] + Map(xs[1..], f)
  }

  /** Mapping a sequence with a head. */
  lemma MapCons<A, B>(x: A, xs: seq<A>, f: A -> B)
    ensures Map([x] + xs, f) == [f(x)] + Map(xs, f)
  {
    assert ([x] + xs)[1..] == xs;
  }

  /** Mapping distributes over concatenation. */
  lemma MapConcat<A, B>(a: seq<A>, b: seq<A>, f: A -> B)
    ensures Map(a + b, f) == Map(a, f) + Map(b, f)
  {
  }

  /** `y` is among the images of the kept elements exactly when some kept
      element maps to it. */
  lemma MapFilterMember<A, B>(xs: seq<A>, p: A -> bool, f: A -> B, y: B)
    ensures y in Map(Filter(xs, p), f) <==> exists x :: x in xs && p(x) && f(x) == y
  {
    var kept := Filter(xs, p);
    var images := Map(kept, f);
    if y in images {
      var j :| 0 <= j < |images| && images[j] == y;
      assert kept[j] in kept;
    }
    if exists x :: x in xs && p(x) && f(x) == y {
      var x :| x in xs && p(x) && f(x) == y;
      FilterMember(xs, p, x);
      var j :| 0 <= j < |kept| && kept[j] == x;
      assert images[j] == y;
    }
  }

  /** Every image comes from some element. */
  lemma MapImage<A, B>(xs: seq<A>, f: A -> B, y: B)
    requires y in Map(xs, f)
    ensures exists x :: x in xs && f(x) == y
  {
    var images := Map(xs, f);
    var j :| 0 <= j < |images| && images[j] == y;
    assert xs[j] in xs;
  }

  /** A map that fixes every element but the one at `k` updates that one. */
  lemma MapChangesOne<T>(xs: seq<T>, k: nat, f: T -> T)
    requires k < |xs|
    requires forall i :: 0 <= i < |xs| && i != k ==> f(xs[i]) == xs[i]
    ensures Map(xs, f) == xs[k := f(xs[k])]
  {
  }

  /** A map that fixes every element is the identity. */
  lemma MapFixed<T>(xs: seq<T>, f: T -> T)
    requires forall x :: x in xs ==> f(x) == x
    ensures Map(xs, f) == xs
  {
  }

  /** `f` applied to each element and the results joined end to end: the
      text a `forEach` loop appending `f(x)` builds up. */
  function Concat<T, U>(xs: seq<T>, f: T -> seq<U>): seq<U> {
    if xs == [] then [] else Concat(xs[..|xs| - 1], f) + f(xs[|xs| - 1])
  }

  /** One more loop round appends one more piece. */
  lemma ConcatSnoc<T, U>(xs: seq<T>, x: T, f: T -> seq<U>)
    ensures Concat(xs + [x], f) == Concat(xs, f) + f(x)
  {
    assert (xs + [x])[..|xs|] == xs;
  }

  /** A loop that appends `f(x)` to text ending in the pieces of `xs` leaves
      the text ending in the pieces of `xs + [x]`. */
  lemma ConcatStep<T, U>(prefix: seq<U>, xs: seq<T>, x: T, f: T -> seq<U>)
    ensures prefix + Concat(xs, f) + f(x) == prefix + Concat(xs + [x], f)
  {
    ConcatSnoc(xs, x, f);
    AppendAssoc(prefix, Concat(xs, f), f(x));
  }

  /** Round `i` of a loop over `xs` that appends `f` of each element. */
  lemma ConcatPrefixStep<T, U>(prefix: seq<U>, xs: seq<T>, i: nat, f: T -> seq<U>)
    requires i < |xs|
    ensures prefix + Concat(xs[..i], f) + f(xs[i]) == prefix + Concat(xs[..i + 1], f)
  {
    assert xs[..i + 1] == xs[..i] + [xs[i]];
    ConcatStep(prefix, xs[..i], xs[i], f);
  }

  /** The pieces of a concatenation are those of each part, in order. */
  lemma {:induction false} ConcatAppend<T, U>(a: seq<T>, b: seq<T>, f: T -> seq<U>)
    ensures Concat(a + b, f) == Concat(a, f) + Concat(b, f)
    decreases |b|
  {
    if b == [] {
      assert a + b == a;
    } else {
      var b' := b[..|b| - 1];
      assert a + b == (a + b') + [b[|b| - 1]];
      ConcatSnoc(a + b', b[|b| - 1], f);
      ConcatAppend(a, b', f);
    }
  }

  /** A non-empty sequence is its head in front of its tail. */
  lemma HeadTail<T>(xs: seq<T>)
    requires xs != []
    ensures [xs[0]] + xs[1..] == xs
  {
  }

  /** A sequence is what comes before its `i`th element, that element, and
      what comes after it. */
  lemma SplitAround<T>(xs: seq<T>, i: nat)
    requires i < |xs|
    ensures xs == xs[..i] + [xs[i]] + xs[i + 1..]
  {
  }

  /** Concatenation is associative; stated once so that proofs about long
      texts can regroup without comparing them element by element. */
  lemma AppendAssoc<T>(a: seq<T>, b: seq<T>, c: seq<T>)
    ensures a + (b + c) == a + b + c
  {
  }

  /** The pieces before the `i`th, then its own, then those after it. */
  lemma ConcatAround<T, U>(xs: seq<T>, i: nat, f: T -> seq<U>)
    requires i < |xs|
    ensures Concat(xs, f) == Concat(xs[..i], f) + f(xs[i]) + Concat(xs[i + 1..], f)
  {
    var before, x, after := xs[..i], xs[i], xs[i + 1..];
    SplitAround(xs, i);
    ConcatAppend(before + [x], after, f);
    ConcatSnoc(before, x, f);
  }

  predicate Distinct<T(==)>(xs: seq<T>) {
    forall i, j :: 0 <= i < j < |xs| ==> xs[i] != xs[j]
  }

  /** Filtering keeps a sequence free of repetitions. */
  lemma {:induction false} FilterKeepsDistinct<T>(xs: seq<T>, p: T -> bool)
    requires Distinct(xs)
    ensures Distinct(Filter(xs, p))
  {
    if xs != [] {
      FilterKeepsDistinct(xs[1..], p);
      FilterMember(xs[1..], p, xs[0]);
    }
  }

  /** Filtering out the one occurrence of `x` shortens the sequence by one. */
  lemma {:induction false} FilterDropsOne<T>(xs: seq<T>, p: T -> bool, x: T)
    requires Distinct(xs) && x in xs
    requires forall y :: !p(y) <==> y == x
    ensures |Filter(xs, p)| == |xs| - 1
  {
    if xs[0] == x {
      assert x !in xs[1..];
      FilterAllKept(xs[1..], p);
    } else {
      FilterDropsOne(xs[1..], p, x);
    }
  }

  /** `xs.indexOf(x)`: the first index holding `x`, or -1. */
  function IndexOf<T(==)>(xs: seq<T>, x: T): (i: int)
    ensures -1 <= i < |xs|
    ensures i == -1 <==> x !in xs
    ensures 0 <= i ==> xs[i] == x && x !in xs[..i]
  {
    if xs == [] then -1
    else if xs[0] == x then 0
    else
      var j := IndexOf(xs[1..], x);
      assert j >= 0 ==> xs[..j + 1] == [xs[0]] + xs[1..][..j];
      if j == -1 then -1 else j + 1
  }

  function RemoveAt<T>(xs: seq<T>, i: nat): (r: seq<T>)
    requires i < |xs|
    ensures |r| == |xs| - 1
    ensures multiset(r) + multiset{xs[i]} == multiset(xs)
  {
    assert xs == xs[..i] + [xs[i]] + xs[i + 1..];
    xs[..i] + xs[i + 1..]
  }

  function InsertAt<T>(xs: seq<T>, i: nat, x: T): (r: seq<T>)
    requires i <= |xs|
    ensures |r| == |xs| + 1 && r[i] == x
    ensures multiset(r) == multiset(xs) + multiset{x}
  {
    assert xs == xs[..i] + xs[i..];
    xs[..i] + [x] + xs[i..]
  }

  /** `arrayMove(xs, from, to)`: the element at `from` now sits at `to`, the
      others keep their relative order, and nothing is gained or lost. */
  function ArrayMove<T>(xs: seq<T>, from: nat, to: nat): (r: seq<T>)
    requires from < |xs| && to < |xs|
    ensures |r| == |xs| && r[to] == xs[from]
    ensures RemoveAt(r, to) == RemoveAt(xs, from)
    ensures multiset(r) == multiset(xs)
  {
    var rest := RemoveAt(xs, from);
    var r := InsertAt(rest, to, xs[from]);
    assert RemoveAt(r, to) == rest;
    r
  }

  /** A second update at the same index overrides the first. */
  lemma UpdateTwice<T>(xs: seq<T>, k: nat, a: T, b: T)
    requires k < |xs|
    ensures xs[k := a][k := b] == xs[k := b]
  {
  }

  /** Moving an element onto its own index changes nothing. */
  lemma ArrayMoveSameIndex<T>(xs: seq<T>, i: nat)
    requires i < |xs|
    ensures ArrayMove(xs, i, i) == xs
  {
    SplitAround(xs, i);
  }
}
