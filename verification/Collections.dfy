/** Options, lists and the sequence combinators the other modules share. */
module Collections {

  datatype Option<+T> = None | Some(value: T)

  /** Linked lists, used for the repeated children of syntax nodes. */
  datatype List<+T> = Nil | Cons(head: T, tail: List<T>)

  function Length<T>(xs: List<T>): nat {
    match xs
    case Nil => 0
    case Cons(_, rest) => 1 + Length(rest)
  }

  function Map<A, B>(xs: seq<A>, f: A -> B): (ys: seq<B>)
    ensures |ys| == |xs|
    ensures forall i :: 0 <= i < |xs| ==> ys[i] == f(xs[i])
  {
    if |xs| == 0 then [] else [f(xs[0])] + Map(xs[1..], f)
  }

  function Filter<A>(xs: seq<A>, p: A -> bool): seq<A> {
    if |xs| == 0 then []
    else if p(xs[0]) then [xs[0]] + Filter(xs[1..], p)
    else Filter(xs[1..], p)
  }

  function AndAlso<A>(p: A -> bool, q: A -> bool): A -> bool {
    x => p(x) && q(x)
  }

  function Compose<A, B, C>(f: A -> B, g: B -> C): A -> C {
    x => g(f(x))
  }

  function Unlike<A(==)>(x: A): A -> bool {
    y => y != x
  }

  /** The first occurrence of each element, in order. */
  function Distinct<A(==)>(xs: seq<A>): seq<A> {
    if |xs| == 0 then []
    else [xs[0]] + Filter(Distinct(xs[1..]), Unlike(xs[0]))
  }

  function Take<A>(xs: seq<A>, n: nat): seq<A> {
    if n < |xs| then xs[..n] else xs
  }

  ghost predicate Unique<A>(xs: seq<A>) {
    forall i, j :: 0 <= i < j < |xs| ==> xs[i] != xs[j]
  }

  lemma {:induction false} FilterAppend<A>(xs: seq<A>, ys: seq<A>, p: A -> bool)
    ensures Filter(xs + ys, p) == Filter(xs, p) + Filter(ys, p)
  {
    if |xs| == 0 {
      assert xs + ys == ys;
    } else {
      assert (xs + ys)[1..] == xs[1..] + ys;
      FilterAppend(xs[1..], ys, p);
    }
  }

  lemma {:induction false} MapAppend<A, B>(xs: seq<A>, ys: seq<A>, f: A -> B)
    ensures Map(xs + ys, f) == Map(xs, f) + Map(ys, f)
  {
  }

  /** Filtering keeps exactly the members that satisfy the predicate. */
  lemma {:induction false} FilterMember<A>(xs: seq<A>, p: A -> bool, x: A)
    ensures x in Filter(xs, p) <==> x in xs && p(x)
  {
    if |xs| != 0 {
      FilterMember(xs[1..], p, x);
      assert xs == [xs[0]] + xs[1..];
    }
  }

  /** Predicates that agree on the members select the same subsequence. */
  lemma {:induction false} FilterSame<A>(xs: seq<A>, p: A -> bool, q: A -> bool)
    requires forall x :: x in xs ==> p(x) == q(x)
    ensures Filter(xs, p) == Filter(xs, q)
  {
    if |xs| != 0 {
      FilterSame(xs[1..], p, q);
    }
  }

  /** Filtering twice is filtering by the conjunction. */
  lemma {:induction false} FilterTwice<A>(xs: seq<A>, p: A -> bool, q: A -> bool)
    ensures Filter(Filter(xs, p), q) == Filter(xs, AndAlso(p, q))
  {
    if |xs| != 0 {
      FilterTwice(xs[1..], p, q);
    }
  }

  /** A predicate true of every member filters nothing out. */
  lemma {:induction false} FilterAll<A>(xs: seq<A>, p: A -> bool)
    requires forall x :: x in xs ==> p(x)
    ensures Filter(xs, p) == xs
  {
    if |xs| != 0 {
      FilterAll(xs[1..], p);
    }
  }

  lemma UniqueCons<A>(x: A, xs: seq<A>)
    requires Unique(xs) && x !in xs
    ensures Unique([x] + xs)
  {
    var all := [x] + xs;
    forall i, j | 0 <= i < j < |all|
      ensures all[i] != all[j]
    {
      if i > 0 {
        assert xs[i - 1] != xs[j - 1];
      }
    }
  }

  lemma UniqueTail<A>(xs: seq<A>)
    requires Unique(xs) && |xs| != 0
    ensures Unique(xs[1..]) && xs[0] !in xs[1..]
  {
    forall i, j | 0 <= i < j < |xs[1..]|
      ensures xs[1..][i] != xs[1..][j]
    {
      assert xs[i + 1] != xs[j + 1];
    }
  }

  lemma {:induction false} DistinctMember<A>(xs: seq<A>, x: A)
    ensures x in Distinct(xs) <==> x in xs
  {
    if |xs| != 0 {
      DistinctMember(xs[1..], x);
      FilterMember(Distinct(xs[1..]), Unlike(xs[0]), x);
      assert xs == [xs[0]] + xs[1..];
    }
  }

  lemma {:induction false} FilterUnique<A>(xs: seq<A>, p: A -> bool)
    requires Unique(xs)
    ensures Unique(Filter(xs, p))
  {
    if |xs| != 0 {
      UniqueTail(xs);
      FilterUnique(xs[1..], p);
      FilterMember(xs[1..], p, xs[0]);
      if p(xs[0]) {
        UniqueCons(xs[0], Filter(xs[1..], p));
      }
    }
  }

  lemma {:induction false} DistinctUnique<A>(xs: seq<A>)
    ensures Unique(Distinct(xs))
  {
    if |xs| != 0 {
      DistinctUnique(xs[1..]);
      FilterUnique(Distinct(xs[1..]), Unlike(xs[0]));
      FilterMember(Distinct(xs[1..]), Unlike(xs[0]), xs[0]);
      UniqueCons(xs[0], Filter(Distinct(xs[1..]), Unlike(xs[0])));
    }
  }

  /** `part` holds the elements of `all` at the given indices, in order and each once. */
  ghost predicate InOrder<A>(all: seq<A>, part: seq<A>, picks: seq<nat>) {
    && |picks| == |part|
    && (forall i, j :: 0 <= i < j < |picks| ==> picks[i] < picks[j])
    && forall k :: 0 <= k < |picks| ==> picks[k] < |all| && part[k] == all[picks[k]]
  }

  lemma InOrderSnoc<A>(all: seq<A>, part: seq<A>, picks: seq<nat>, x: A)
    requires InOrder(all, part, picks)
    ensures InOrder(all + [x], part, picks) && InOrder(all + [x], part + [x], picks + [|all|])
  {
  }

  /** The indices where the predicate holds. */
  ghost predicate PicksWhere<A>(xs: seq<A>, p: A -> bool, picks: seq<nat>) {
    forall i :: 0 <= i < |xs| ==> (i in picks <==> p(xs[i]))
  }

  lemma PicksWhereSnoc<A>(xs: seq<A>, p: A -> bool, picks: seq<nat>, x: A)
    requires PicksWhere(xs, p, picks) && forall k :: 0 <= k < |picks| ==> picks[k] < |xs|
    ensures PicksWhere(xs + [x], p, if p(x) then picks + [|xs|] else picks)
  {
    var after := if p(x) then picks + [|xs|] else picks;
    forall i | 0 <= i < |xs + [x]|
      ensures i in after <==> p((xs + [x])[i])
    {
      if i < |xs| {
        assert i in picks <==> p(xs[i]);
      } else {
        assert |xs| !in picks;
      }
    }
  }

  lemma FilterSnoc<A>(xs: seq<A>, x: A, p: A -> bool)
    ensures Filter(xs + [x], p) == if p(x) then Filter(xs, p) + [x] else Filter(xs, p)
  {
    assert [x][1..] == [];
    FilterAppend(xs, [x], p);
  }

  lemma FilterPicksSnoc<A>(xs: seq<A>, p: A -> bool, picks: seq<nat>, x: A)
    requires InOrder(xs, Filter(xs, p), picks) && PicksWhere(xs, p, picks)
    ensures var after := if p(x) then picks + [|xs|] else picks;
      InOrder(xs + [x], Filter(xs + [x], p), after) && PicksWhere(xs + [x], p, after)
  {
    FilterSnoc(xs, x, p);
    InOrderSnoc(xs, Filter(xs, p), picks, x);
    PicksWhereSnoc(xs, p, picks, x);
  }

  /** Filtering picks exactly the indices where the predicate holds. */
  lemma {:induction false} FilterPicks<A>(xs: seq<A>, p: A -> bool) returns (picks: seq<nat>)
    ensures InOrder(xs, Filter(xs, p), picks) && PicksWhere(xs, p, picks)
  {
    if |xs| == 0 {
      picks := [];
    } else {
      var before, last := xs[..|xs| - 1], xs[|xs| - 1];
      assert xs == before + [last];
      var earlier := FilterPicks(before, p);
      FilterPicksSnoc(before, p, earlier, last);
      picks := if p(last) then earlier + [|before|] else earlier;
    }
  }
}
